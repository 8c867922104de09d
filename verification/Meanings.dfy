/** What an event posts, read off its own attributes (bank/process.go): which accounts, from
    which stage to which, under which coordinates, and when posting fails. */
module Meanings {
  import opened BankIdentities
  import opened Coins
  import opened Conservation
  import opened Correlation
  import opened Decimal
  import opened EventOrder
  import opened LedgerEffects
  import opened LedgerRows
  import opened Positions
  import opened Postings

  lemma {:induction false} NarrowKeeps(ev: Event, c: Coin, key: string)
    requires key != "amount"
    ensures FindAttr(Narrow(ev, c), key) == FindAttr(ev, key)
  {
    NarrowLookup(ev.attributes, c.amount + c.denom, key);
  }

  lemma {:induction false} AccountsKept(ev: Event, c: Coin)
    ensures var n := Narrow(ev, c);
            && FindAttr(n, "validator") == FindAttr(ev, "validator") && FindAttr(n, "delegator") == FindAttr(ev, "delegator")
            && FindAttr(n, "source_validator") == FindAttr(ev, "source_validator")
            && FindAttr(n, "destination_validator") == FindAttr(ev, "destination_validator")
            && FindAttr(n, "sender") == FindAttr(ev, "sender") && FindAttr(n, "recipient") == FindAttr(ev, "recipient")
            && FindAttr(n, "minter") == FindAttr(ev, "minter") && FindAttr(n, "burner") == FindAttr(ev, "burner")
  {
    NarrowKeeps(ev, c, "validator");
    NarrowKeeps(ev, c, "delegator");
    NarrowKeeps(ev, c, "source_validator");
    NarrowKeeps(ev, c, "destination_validator");
    NarrowKeeps(ev, c, "sender");
    NarrowKeeps(ev, c, "recipient");
    NarrowKeeps(ev, c, "minter");
    NarrowKeeps(ev, c, "burner");
  }

  // ----- staking events -----------------------------------------------------------------------------

  /** Whose stake the event moves: the delegator it names, the one account that spent the coin
      of a new validator, or the one that withdrew rewards before a redelegation. */
  ghost predicate MovesStakeOf(ev: Event, group: seq<Event>, before: nat, c: Coin, delegator: string) {
    if ev.kind == "create_validator" then IsSpender(group, c, delegator)
    else if ev.kind == "redelegate" then IsOwner(group, before, FindAttr(ev, "source_validator"), delegator)
    else delegator == FindAttr(ev, "delegator")
  }

  /** Where the stake was: in the wallet, bonded to the validator it leaves, or maturing there. */
  function StageBefore(ev: Event): Stage {
    if ev.kind == "delegate" || ev.kind == "create_validator" then Wallet
    else if ev.kind == "unbond" then Bonded(FindAttr(ev, "validator"))
    else if ev.kind == "redelegate" then Bonded(FindAttr(ev, "source_validator"))
    else if ev.kind == "complete_redelegation" then Maturing(FindAttr(ev, "destination_validator"))
    else Maturing(FindAttr(ev, "validator"))
  }

  function StageAfter(ev: Event): Stage {
    if ev.kind == "unbond" then Maturing(FindAttr(ev, "validator"))
    else if ev.kind == "redelegate" then Maturing(FindAttr(ev, "destination_validator"))
    else if ev.kind == "complete_redelegation" then Bonded(FindAttr(ev, "destination_validator"))
    else if ev.kind == "complete_unbonding" then Wallet
    else Bonded(FindAttr(ev, "validator"))
  }

  lemma {:induction false} StakeReads(ev: Event, group: seq<Event>, before: nat, c: Coin, s: Stake)
    requires IsStaking(ev.kind) && StakeOf(ev, group, before, c) == Ok(s)
    ensures MovesStakeOf(ev, group, before, c, s.delegator)
    ensures Leaves(ev.kind, s) == StageBefore(ev) && Joins(ev.kind, s) == StageAfter(ev)
  {
  }

  /** A staking event moves its coin from the stage its attributes name to the other one, for
      the account whose stake it is. */
  lemma {:induction false} StakingPostsMove(clock: string -> Option<int>, b: Block, p: Positioned, group: seq<Event>, before: nat, c: Coin)
    returns (delegator: string)
    requires IsStaking(p.event.kind) && CoinPosting(clock, b, p, group, before, c).Ok?
    ensures MovesStakeOf(p.event, group, before, c, delegator)
    ensures Transfers(CoinPosting(clock, b, p, group, before, c).value.ledger, AmountOf(c), c.denom, delegator,
                      StageBefore(p.event), StageAfter(p.event))
  {
    PostedMoves(clock, b, p, group, before, c);
    var n := Narrow(p.event, c);
    var s := StakeOf(n, group, before, c).value;
    AccountsKept(p.event, c);
    StakeReads(n, group, before, c, s);
    delegator := s.delegator;
  }

  /** A redelegation, spelled out: stake bonded to the source validator matures at the
      destination, and the maturing entry names both. */
  lemma {:induction false} RedelegationPosts(clock: string -> Option<int>, b: Block, p: Positioned, group: seq<Event>, before: nat, c: Coin)
    returns (delegator: string)
    requires p.event.kind == "redelegate" && CoinPosting(clock, b, p, group, before, c).Ok?
    ensures IsOwner(group, before, FindAttr(p.event, "source_validator"), delegator)
    ensures var x, source, destination := CoinPosting(clock, b, p, group, before, c).value,
                  FindAttr(p.event, "source_validator"), FindAttr(p.event, "destination_validator");
            && Transfers(x.ledger, AmountOf(c), c.denom, delegator, Bonded(source), Maturing(destination))
            && |x.defusion| == 1
            && (var d := x.defusion[0];
                && d.source == source && d.validator == destination && d.delegator == delegator && d.kind == "r"
                && d.amount == AmountOf(c) && d.denom == c.denom && clock(FindAttr(p.event, "completion_time")) == Some(d.completed))
  {
    delegator := StakingPostsMove(clock, b, p, group, before, c);
    AccountsKept(p.event, c);
  }

  /** An unbonding leaves an entry for its delegator and validator; no other kind leaves one. */
  lemma {:induction false} UnbondingPosts(clock: string -> Option<int>, b: Block, p: Positioned, group: seq<Event>, before: nat, c: Coin)
    requires IsBank(p.event.kind) && CoinPosting(clock, b, p, group, before, c).Ok?
    ensures var entries := CoinPosting(clock, b, p, group, before, c).value.defusion;
            && (p.event.kind != "unbond" && p.event.kind != "redelegate" ==> entries == [])
            && (p.event.kind == "unbond" ==>
                  && |entries| == 1 && entries[0].source == "" && entries[0].validator == FindAttr(p.event, "validator")
                  && entries[0].delegator == FindAttr(p.event, "delegator") && entries[0].kind == "u"
                  && entries[0].amount == AmountOf(c) && entries[0].denom == c.denom
                  && clock(FindAttr(p.event, "completion_time")) == Some(entries[0].completed))
  {
    AccountsKept(p.event, c);
  }

  // ----- the other events -------------------------------------------------------------------------------

  /** A mint credits its minter, a burn debits its burner, and nobody else. */
  lemma {:induction false} SupplyPosts(clock: string -> Option<int>, b: Block, p: Positioned, group: seq<Event>, before: nat, c: Coin,
                                       account: string, denom: string)
    requires p.event.kind == "coinbase" || p.event.kind == "burn"
    ensures CoinPosting(clock, b, p, group, before, c).Ok?
    ensures var rows := CoinPosting(clock, b, p, group, before, c).value.ledger;
            Balance(rows, account, denom)
              == if p.event.kind == "coinbase" then If(account == FindAttr(p.event, "minter") && denom == c.denom, AmountOf(c))
                 else 0 - If(account == FindAttr(p.event, "burner") && denom == c.denom, AmountOf(c))
  {
    AccountsKept(p.event, c);
    assert c.denom + "" == c.denom;
    var n := Narrow(p.event, c);
    LegsBalance(b, p, c, Legs(n, group, before, c).value, account, denom);
  }

  /** A transfer moves its coin from the sender to the recipient, less the leg that a receipt
      accounts for. */
  lemma {:induction false} TransferPosts(clock: string -> Option<int>, b: Block, p: Positioned, group: seq<Event>, before: nat, c: Coin,
                                         account: string, denom: string)
    requires p.event.kind == "transfer" && Overlap(Narrow(p.event, c), group).Ok?
    ensures CoinPosting(clock, b, p, group, before, c).Ok?
    ensures var rows, skip := CoinPosting(clock, b, p, group, before, c).value.ledger, Overlap(Narrow(p.event, c), group).value;
            Balance(rows, account, denom)
              == If(!skip.received && account == FindAttr(p.event, "recipient") && denom == c.denom, AmountOf(c))
                 - If(!skip.sent && account == FindAttr(p.event, "sender") && denom == c.denom, AmountOf(c))
  {
    AccountsKept(p.event, c);
    TransferMoves(b, p, c, Narrow(p.event, c), group, account, denom);
  }

  // ----- coordinates and failure ------------------------------------------------------------------------------

  /** Every row carries the block and the coordinates of its event, and the amount it reads. */
  lemma {:induction false} RowsCarryTheirEvent(clock: string -> Option<int>, b: Block, p: Positioned, group: seq<Event>, before: nat, c: Coin, r: LedgerRow)
    requires IsBank(p.event.kind) && CoinPosting(clock, b, p, group, before, c).Ok?
    requires r in CoinPosting(clock, b, p, group, before, c).value.ledger
    ensures r.chain == b.chain && r.height == b.height && r.time == b.time && r.tx == p.tx && r.msg == -1
    ensures 8 * p.index <= r.eventIndex <= 8 * p.index + 3
    ensures IsDigits(c.amount) ==> r.amount == DigitsValue(c.amount)
    ensures c.denom <= r.denom
  {
    LegSuffixes(Narrow(p.event, c), group, before, c);
  }

  /** What the rows of each kind are called. */
  function ActionOf(kind: string, direction: Direction): string {
    if kind == "transfer" then (if direction == Debit then "sent" else "received")
    else if kind == "coinbase" then "minted"
    else if kind == "burn" then "burned"
    else if kind == "delegate" || kind == "create_validator" then "infused"
    else if kind == "redelegate" then "diversion_started"
    else if kind == "complete_redelegation" then "diversion_completed"
    else if kind == "unbond" then "defusion_started"
    else if kind == "cancel_unbond" then "defusion_cancelled"
    else "defusion_completed"
  }

  /** Every row is called after what happened, and names the other party. */
  lemma {:induction false} RowsNameTheirParties(clock: string -> Option<int>, b: Block, p: Positioned, group: seq<Event>, before: nat, c: Coin, r: LedgerRow)
    requires IsBank(p.event.kind) && !IsStaking(p.event.kind) && CoinPosting(clock, b, p, group, before, c).Ok?
    requires r in CoinPosting(clock, b, p, group, before, c).value.ledger
    ensures r.action == ActionOf(p.event.kind, r.direction)
    ensures p.event.kind == "transfer" ==>
              if r.direction == Debit
              then r.address == FindAttr(p.event, "sender") && r.counterparty == FindAttr(p.event, "recipient")
              else r.address == FindAttr(p.event, "recipient") && r.counterparty == FindAttr(p.event, "sender")
    ensures p.event.kind == "coinbase" ==> r.direction == Credit && r.counterparty == ""
    ensures p.event.kind == "burn" ==> r.direction == Debit && r.counterparty == ""
  {
    AccountsKept(p.event, c);
  }

  /** The validator on the other side of a staking row: the one the stake leaves, on a debit of a
      redelegation, and otherwise the one it joins. */
  function PartnerOf(ev: Event, direction: Direction): string {
    if ev.kind == "redelegate" && direction == Debit then FindAttr(ev, "source_validator")
    else if ev.kind == "redelegate" || ev.kind == "complete_redelegation" then FindAttr(ev, "destination_validator")
    else FindAttr(ev, "validator")
  }

  lemma {:induction false} StakingRowsNameTheirParties(clock: string -> Option<int>, b: Block, p: Positioned, group: seq<Event>, before: nat, c: Coin, k: nat)
    returns (delegator: string)
    requires IsStaking(p.event.kind) && CoinPosting(clock, b, p, group, before, c).Ok?
    requires k < |CoinPosting(clock, b, p, group, before, c).value.ledger|
    ensures MovesStakeOf(p.event, group, before, c, delegator)
    ensures var r := CoinPosting(clock, b, p, group, before, c).value.ledger[k];
            && r.action == ActionOf(p.event.kind, r.direction)
            && var partner := PartnerOf(p.event, r.direction);
               (r.address == delegator && r.counterparty == partner) || (r.address == partner && r.counterparty == delegator)
  {
    AccountsKept(p.event, c);
    var n := Narrow(p.event, c);
    var s := StakeOf(n, group, before, c).value;
    StakeReads(n, group, before, c, s);
    Partners(n, group, before, c, s);
    delegator := s.delegator;
    LegParties(p.event.kind, s, k);
  }

  lemma {:induction false} Partners(ev: Event, group: seq<Event>, before: nat, c: Coin, s: Stake)
    requires IsStaking(ev.kind) && StakeOf(ev, group, before, c) == Ok(s)
    ensures PartnerOf(ev, Debit) == s.from && PartnerOf(ev, Credit) == s.to && (ev.kind != "redelegate" ==> s.from == s.to)
  {
  }

  lemma {:induction false} LegParties(kind: string, s: Stake, k: nat)
    requires IsStaking(kind) && k < |StakingLegs(kind, s)| && (kind != "redelegate" ==> s.from == s.to)
    ensures var leg := StakingLegs(kind, s)[k];
            && leg.action == ActionOf(kind, leg.direction)
            && var partner := if leg.direction == Debit then s.from else s.to;
               (leg.address == s.delegator && leg.counterparty == partner) || (leg.address == partner && leg.counterparty == s.delegator)
  {
  }

  /** One coin of an event fails to post for one of three reasons only. */
  lemma {:induction false} CoinFailsIff(clock: string -> Option<int>, b: Block, p: Positioned, group: seq<Event>, before: nat, c: Coin)
    requires IsBank(p.event.kind)
    ensures CoinPosting(clock, b, p, group, before, c).Err? <==>
              || (p.event.kind == "transfer" && Overlap(Narrow(p.event, c), group).Err?)
              || (IsStaking(p.event.kind) && forall d :: !MovesStakeOf(p.event, group, before, c, d))
              || ((p.event.kind == "unbond" || p.event.kind == "redelegate") && clock(FindAttr(p.event, "completion_time")) == None)
  {
    AccountsKept(p.event, c);
    var n := Narrow(p.event, c);
    if IsStaking(p.event.kind) {
      assert MovesStakeOf(p.event, group, before, c, FindAttr(p.event, "delegator"))
             || p.event.kind == "create_validator" || p.event.kind == "redelegate";
      if StakeOf(n, group, before, c).Ok? {
        assert MovesStakeOf(p.event, group, before, c, StakeOf(n, group, before, c).value.delegator);
      }
    }
  }

  /** The events that correlate with one another are those of the same phase, transaction and
      message. */
  lemma {:induction false} ScopeHolds(ps: seq<Positioned>, p: Positioned, ev: Event)
    ensures ev in Group(ps, ScopeOf(p)) <==>
              exists i :: 0 <= i < |ps| && ps[i].event == ev && ps[i].phase == p.phase && ps[i].tx == p.tx && ps[i].msg == p.msg
  {
    if ps != [] {
      var init := ps[..|ps| - 1];
      ScopeHolds(init, p, ev);
      assert forall i :: 0 <= i < |init| ==> init[i] == ps[i];
    }
  }

  // ----- who is correlated ------------------------------------------------------------------------------------

  predicate Pays(ev: Event, c: Coin) {
    ev.kind == "coin_spent" && EventCoins(ev).Ok? && c in EventCoins(ev).value
  }

  /** The names under which the coin was spent. */
  function Payers(group: seq<Event>, c: Coin): set<string> {
    set ev | ev in group && Pays(ev, c) :: FindAttr(ev, "spender")
  }

  /** The spender of a coin is the only name among the coin_spent events that hold it, provided
      that all coin_spent events of the scope can be read. */
  lemma {:induction false} SpenderMeans(group: seq<Event>, c: Coin, s: string)
    ensures IsSpender(group, c, s) <==>
              s != "" && Payers(group, c) == {s} && forall ev :: ev in group && ev.kind == "coin_spent" ==> EventCoins(ev).Ok?
  {
    if IsSpender(group, c, s) {
      var k :| 0 <= k < |group| && Spent(group[k], c);
      assert Pays(group[k], c);
    }
    if Payers(group, c) == {s} {
      assert s in Payers(group, c);
      forall k | 0 <= k < |group| && Spent(group[k], c) ensures FindAttr(group[k], "spender") == s {
        assert Pays(group[k], c) && FindAttr(group[k], "spender") in Payers(group, c);
      }
    }
  }

  /** The owner of a redelegated stake is the only account that withdrew rewards from the source
      validator after the redelegation before it, which ends just before `first`. */
  lemma {:induction false} OwnerMeans(group: seq<Event>, first: nat, before: nat, validator: string, s: string)
    requires first <= before <= |group| && (first > 0 ==> group[first - 1].kind == "redelegate")
    requires forall j :: first <= j < before ==> group[j].kind != "redelegate"
    ensures IsOwner(group, before, validator, s) <==>
              && s != ""
              && (exists k :: first <= k < before && group[k].kind == "withdraw_rewards" && FindAttr(group[k], "validator") == validator)
              && (forall k :: first <= k < before && group[k].kind == "withdraw_rewards" && FindAttr(group[k], "validator") == validator ==>
                    FindAttr(group[k], "delegator") == s)
  {
    forall k ensures InWindow(group, before, k) <==> first <= k < before {
      if 0 <= k < first { assert group[first - 1].kind == "redelegate"; }
    }
  }
}
