/** Which native staking evidence a block invalidates (bank/native.go), read from the
    prefix of each scope where the ledger engine reads the whole scope. */
module NativeChanges {
  import opened Bank
  import opened BankIdentities
  import opened Coins
  import opened Conservation
  import opened Correlation
  import opened Decimal
  import opened EventOrder
  import opened LedgerRows
  import opened Positions
  import opened Postings
  import opened StakingChanges
  import opened StakingLedger

  // ----- what one event changes ---------------------------------------------------------------

  /** A jail-only notification moves no native claims. */
  predicate JailOnly(ev: Event) {
    FindAttr(ev, "burned_coins") == "" && FindAttr(ev, "jailed") != "" && FindAttr(ev, "address") == ""
  }

  /** A new validator's self-delegation must be one ualpha coin. */
  ghost function FoundingChange(coins: seq<Coin>, validator: string, earlier: seq<Event>): Result<Changes> {
    if |coins| != 1 || coins[0].denom != "ualpha" || Spender(earlier, coins[0]).Err? then Err
    else Ok(Changes([Spender(earlier, coins[0]).value], [validator], false))
  }

  ghost function ChangeOf(ev: Event, earlier: seq<Event>): Result<Changes> {
    if ev.kind == "slash" then
      if JailOnly(ev) then Ok(NONE)
      else if IsNatural(FindAttr(ev, "burned_coins")) && FindAttr(ev, "address") != "" then Ok(Changes([], [], true))
      else Err
    else if ev.kind == "create_validator" then
      match EventCoins(ev)
      case Err => Err
      case Ok(coins) => FoundingChange(coins, FindAttr(ev, "validator"), earlier)
    else if !IsStaking(ev.kind) then Ok(NONE)
    else if !HasFields(ev) then Err
    else if ev.kind == "redelegate" then
      match Owner(earlier, |earlier|, FindAttr(ev, "source_validator"))
      case Err => Err
      case Ok(owner) => Ok(Changes([owner], [FindAttr(ev, "source_validator"), FindAttr(ev, "destination_validator")], false))
    else if ev.kind == "complete_redelegation" then
      Ok(Changes([FindAttr(ev, "delegator")], [FindAttr(ev, "source_validator"), FindAttr(ev, "destination_validator")], false))
    else Ok(Changes([FindAttr(ev, "delegator")], [FindAttr(ev, "validator")], false))
  }

  ghost function ChangeAt(ordered: seq<Positioned>, i: nat): Result<Changes>
    requires i < |ordered|
  {
    ChangeOf(ordered[i].event, Group(ordered[..i], ScopeOf(ordered[i])))
  }

  ghost function ChangesUpTo(ordered: seq<Positioned>, n: nat): Result<Changes>
    requires n <= |ordered|
  {
    if n == 0 then Ok(NONE)
    else
      var earlier, last := ChangesUpTo(ordered, n - 1), ChangeAt(ordered, n - 1);
      if earlier.Err? || last.Err? then Err else Ok(earlier.value.Then(last.value))
  }

  /** Everything the block invalidates. */
  ghost function BlockChanges(ordered: seq<Positioned>): Result<Changes> {
    ChangesUpTo(ordered, |ordered|)
  }

  lemma {:induction false} FailureStays(ordered: seq<Positioned>, n: nat, m: nat)
    requires n <= m <= |ordered| && ChangesUpTo(ordered, n).Err?
    ensures ChangesUpTo(ordered, m).Err?
  {
    if n < m { FailureStays(ordered, n, m - 1); }
  }

  /** One event read against the earlier events of its scope. */
  method ReadChange(ev: Event, group: seq<Event>) returns (r: Result<Changes>)
    ensures r == ChangeOf(ev, group)
  {
    var address := "";
    var changes := NONE;
    if ev.kind == "delegate" || ev.kind == "unbond" || ev.kind == "cancel_unbond" || ev.kind == "complete_unbonding" {
      var valid := ValidateBankFields(ev);
      if !valid { return Err; }
      assert HasField(ev, RequiredFields(ev.kind)[1]);
      address := FindAttr(ev, "delegator");
      changes := changes.(validators := [FindAttr(ev, "validator")]);
    } else if ev.kind == "redelegate" || ev.kind == "complete_redelegation" {
      var valid := ValidateBankFields(ev);
      if !valid { return Err; }
      address := FindAttr(ev, "delegator");
      if ev.kind == "redelegate" {
        var owner := RedelegationOwner(group, |group|, FindAttr(ev, "source_validator"));
        if owner.Err? { return Err; }
        address := owner.value;
      } else {
        assert HasField(ev, RequiredFields(ev.kind)[2]);
      }
      changes := changes.(validators := [FindAttr(ev, "source_validator"), FindAttr(ev, "destination_validator")]);
    } else if ev.kind == "create_validator" {
      var coins := ReadEventCoins(ev);
      if coins.Err? || |coins.value| != 1 || coins.value[0].denom != "ualpha" { return Err; }
      var spender := ValidatorSpender(group, coins.value[0]);
      if spender.Err? { return Err; }
      address := spender.value;
      changes := changes.(validators := [FindAttr(ev, "validator")]);
    } else if ev.kind == "slash" {
      if JailOnly(ev) { return Ok(NONE); }
      if !IsNatural(FindAttr(ev, "burned_coins")) || FindAttr(ev, "address") == "" { return Err; }
      changes := changes.(allExposed := true);
    }
    if address != "" { changes := changes.(addresses := [address]); }
    r := Ok(changes);
  }

  method ReadNativeChanges(finalize: seq<Event>, txs: seq<seq<Event>>) returns (r: Result<Changes>)
    ensures !AllWellFormed(finalize, txs) ==> r.Err?
    ensures forall ordered :: OrdersBlock(ordered, finalize, txs) && AllWellFormed(finalize, txs)
              ==> r == BlockChanges(ordered)
  {
    var read := OrderedEvents(finalize, txs);
    if read.Err? { return Err; }
    forall other | OrdersBlock(other, finalize, txs) ensures other == read.value {
      OrderIsUnique(other, read.value, finalize, txs);
    }
    r := ReadOrdered(read.value);
  }

  method ReadOrdered(ordered: seq<Positioned>) returns (r: Result<Changes>)
    ensures r == BlockChanges(ordered)
  {
    var changes := NONE;
    var groups: map<Scope, seq<Event>> := map[];
    for i := 0 to |ordered|
      invariant Collected(groups, ordered[..i]) && ChangesUpTo(ordered, i) == Ok(changes)
    {
      var p := ordered[i];
      assert ordered[..i + 1] == ordered[..i] + [p];
      CollectOneMore(groups, ordered[..i], p);
      var group := GroupIn(groups, ScopeOf(p));
      var change := ReadChange(p.event, group);
      if change.Err? {
        FailureStays(ordered, i + 1, |ordered|);
        return Err;
      }
      changes := changes.Then(change.value);
      groups := groups[ScopeOf(p) := group + [p.event]];
    }
    r := Ok(changes);
  }

  // ----- both readings agree -----------------------------------------------------------------------

  /** The accounts of a staking posting are among the changes. */
  predicate Names(ch: Changes, s: Stake) {
    s.delegator in ch.addresses && s.from in ch.validators && s.to in ch.validators
  }

  lemma {:induction false} StakeAttributes(ev: Event, c: Coin, group: seq<Event>, before: nat)
    requires IsStaking(ev.kind)
    ensures StakeOf(Narrow(ev, c), group, before, c) == StakeOf(ev, group, before, c)
  {
    var text := c.amount + c.denom;
    NarrowLookup(ev.attributes, text, "validator");
    NarrowLookup(ev.attributes, text, "delegator");
    NarrowLookup(ev.attributes, text, "source_validator");
    NarrowLookup(ev.attributes, text, "destination_validator");
  }

  /** The whole-scope reading and the prefix reading of one event. */
  ghost predicate Agree(ev: Event, group: seq<Event>, before: nat, c: Coin) {
    before <= |group| && StakeOf(ev, group, before, c).Ok? && ChangeOf(ev, group[..before]).Ok?
    ==> Names(ChangeOf(ev, group[..before]).value, StakeOf(ev, group, before, c).value)
  }

  lemma {:induction false} FounderOfPrefix(coins: seq<Coin>, validator: string, group: seq<Event>, before: nat, c: Coin)
    requires before <= |group| && c in coins
    requires FoundingChange(coins, validator, group[..before]).Ok? && Spender(group, c).Ok?
    ensures FoundingChange(coins, validator, group[..before]).value == Changes([Spender(group, c).value], [validator], false)
  {
    SpenderOfPrefix(group, before, c);
  }

  lemma {:induction false} FoundingAgrees(ev: Event, group: seq<Event>, before: nat, c: Coin)
    requires ev.kind == "create_validator" && EventCoins(ev).Ok? && c in EventCoins(ev).value
    ensures Agree(ev, group, before, c)
  {
    var coins, validator := EventCoins(ev).value, FindAttr(ev, "validator");
    if before <= |group| && FoundingChange(coins, validator, group[..before]).Ok? && Spender(group, c).Ok? {
      FounderOfPrefix(coins, validator, group, before, c);
    }
  }

  lemma {:induction false} RedelegationAgrees(ev: Event, group: seq<Event>, before: nat, c: Coin)
    requires ev.kind == "redelegate"
    ensures Agree(ev, group, before, c)
  {
    if before <= |group| { OwnerOfPrefix(group, before, FindAttr(ev, "source_validator")); }
  }

  lemma {:induction false} AttributesAgree(ev: Event, group: seq<Event>, before: nat, c: Coin)
    requires IsStaking(ev.kind) && ev.kind != "create_validator" && ev.kind != "redelegate"
    ensures Agree(ev, group, before, c)
  {
  }

  /** When both succeed they name the same accounts. */
  lemma {:induction false} ReadingsAgree(ev: Event, group: seq<Event>, before: nat, c: Coin)
    requires IsStaking(ev.kind) && EventCoins(ev).Ok? && c in EventCoins(ev).value
    ensures Agree(ev, group, before, c)
  {
    if ev.kind == "create_validator" {
      FoundingAgrees(ev, group, before, c);
    } else if ev.kind == "redelegate" {
      RedelegationAgrees(ev, group, before, c);
    } else {
      AttributesAgree(ev, group, before, c);
    }
  }

  /** The account and counterparty of a ledger row are a named pair. */
  predicate RowNamed(ch: Changes, r: LedgerRow) {
    || (r.address in ch.addresses && r.counterparty in ch.validators)
    || (r.address in ch.validators && r.counterparty in ch.addresses)
  }

  predicate DefusionNamed(ch: Changes, r: DefusionRow) {
    && r.delegator in ch.addresses && r.validator in ch.validators
    && (r.source != "" ==> r.source in ch.validators)
  }

  ghost predicate Covers(ch: Changes, x: Posted) {
    && (forall r :: r in x.ledger && IsStakingAction(r.action) ==> RowNamed(ch, r))
    && (forall r :: r in x.defusion ==> DefusionNamed(ch, r))
  }

  predicate LegNamed(ch: Changes, leg: Leg) {
    || (leg.address in ch.addresses && leg.counterparty in ch.validators)
    || (leg.address in ch.validators && leg.counterparty in ch.addresses)
  }

  lemma {:induction false} RowsNamed(b: Block, p: Positioned, c: Coin, s: Stake, ch: Changes)
    requires IsStaking(p.event.kind) && Names(ch, s)
    ensures forall r :: r in LegRows(b, p, c, StakingLegs(p.event.kind, s)) ==> RowNamed(ch, r)
  {
    var legs := StakingLegs(p.event.kind, s);
    var rows := LegRows(b, p, c, legs);
    forall r | r in rows ensures RowNamed(ch, r) {
      var n :| 0 <= n < |rows| && rows[n] == r;
      assert legs[n] in legs;
    }
  }

  lemma {:induction false} MaturingNamed(clock: string -> Option<int>, b: Block, p: Positioned, group: seq<Event>, before: nat,
                                         c: Coin, s: Stake, ch: Changes)
    requires IsBank(p.event.kind) && CoinPosting(clock, b, p, group, before, c).Ok?
    requires StakeOf(Narrow(p.event, c), group, before, c) == Ok(s) && Names(ch, s)
    ensures forall r :: r in CoinPosting(clock, b, p, group, before, c).value.defusion ==> DefusionNamed(ch, r)
  {
  }

  lemma {:induction false} CoinCovered(clock: string -> Option<int>, b: Block, p: Positioned, group: seq<Event>, before: nat, c: Coin, ch: Changes)
    requires IsStaking(p.event.kind) && before <= |group|
    requires EventCoins(p.event).Ok? && c in EventCoins(p.event).value
    requires CoinPosting(clock, b, p, group, before, c).Ok? && ChangeOf(p.event, group[..before]) == Ok(ch)
    ensures Covers(ch, CoinPosting(clock, b, p, group, before, c).value)
  {
    var s := PostedLegs(clock, b, p, group, before, c);
    assert Names(ch, s) by {
      StakeAttributes(p.event, c, group, before);
      ReadingsAgree(p.event, group, before, c);
    }
    RowsNamed(b, p, c, s, ch);
    MaturingNamed(clock, b, p, group, before, c, s, ch);
  }

  lemma {:induction false} OtherCoinCovered(clock: string -> Option<int>, b: Block, p: Positioned, group: seq<Event>, before: nat, c: Coin)
    requires IsBank(p.event.kind) && !IsStaking(p.event.kind)
    requires CoinPosting(clock, b, p, group, before, c).Ok?
    ensures Covers(NONE, CoinPosting(clock, b, p, group, before, c).value)
  {
    var legs := Legs(Narrow(p.event, c), group, before, c).value;
    assert forall n :: 0 <= n < |legs| ==> !IsStakingAction(legs[n].action);
  }

  lemma {:induction false} AllCovered(ps: seq<Result<Posted>>, ch: Changes)
    requires All(ps).Ok? && forall i :: 0 <= i < |ps| ==> ps[i].Ok? && Covers(ch, ps[i].value)
    ensures Covers(ch, All(ps).value)
  {
    if ps != [] {
      var init := ps[..|ps| - 1];
      forall i | 0 <= i < |init| ensures init[i].Ok? && Covers(ch, init[i].value) { assert init[i] == ps[i]; }
      AllCovered(init, ch);
    }
  }

  lemma {:induction false} EventCovered(clock: string -> Option<int>, b: Block, p: Positioned, group: seq<Event>, before: nat, ch: Changes)
    requires before <= |group|
    requires EventPosting(clock, b, p, group, before).Ok? && ChangeOf(p.event, group[..before]) == Ok(ch)
    ensures Covers(ch, EventPosting(clock, b, p, group, before).value)
  {
    if IsBank(p.event.kind) {
      var coins := EventCoins(p.event).value;
      var ps := CoinPostings(clock, b, p, group, before, coins);
      AllSucceeded(ps);
      forall i | 0 <= i < |ps| ensures Covers(ch, ps[i].value) {
        if IsStaking(p.event.kind) {
          CoinCovered(clock, b, p, group, before, coins[i], ch);
        } else {
          OtherCoinCovered(clock, b, p, group, before, coins[i]);
        }
      }
      AllCovered(ps, ch);
    }
  }

  lemma {:induction false} EventAtCovered(clock: string -> Option<int>, b: Block, ordered: seq<Positioned>, i: nat)
    requires i < |ordered| && PostingAt(clock, b, ordered, i).Ok? && ChangeAt(ordered, i).Ok?
    ensures Covers(ChangeAt(ordered, i).value, PostingAt(clock, b, ordered, i).value)
  {
    var scope := ScopeOf(ordered[i]);
    GroupOfPrefix(ordered, i, scope);
    EventCovered(clock, b, ordered[i], Group(ordered, scope), |Group(ordered[..i], scope)|, ChangeAt(ordered, i).value);
  }

  lemma {:induction false} PrefixCovered(clock: string -> Option<int>, b: Block, ordered: seq<Positioned>, n: nat)
    requires n <= |ordered|
    requires All(BlockPostings(clock, b, ordered)[..n]).Ok? && ChangesUpTo(ordered, n).Ok?
    ensures Covers(ChangesUpTo(ordered, n).value, All(BlockPostings(clock, b, ordered)[..n]).value)
  {
    if n > 0 {
      var ps := BlockPostings(clock, b, ordered);
      assert ps[..n][..n - 1] == ps[..n - 1];
      PrefixCovered(clock, b, ordered, n - 1);
      EventAtCovered(clock, b, ordered, n - 1);
      BothCovered(ChangesUpTo(ordered, n - 1).value, ChangeAt(ordered, n - 1).value, All(ps[..n - 1]).value, ps[n - 1].value);
    }
  }

  lemma {:induction false} BothCovered(ch: Changes, more: Changes, x: Posted, y: Posted)
    requires Covers(ch, x) && Covers(more, y)
    ensures Covers(ch.Then(more), x.Then(y))
  {
  }

  /** Whenever both succeed on a block, every delegator and every validator that the
      ledger engine posts staking legs or maturing entries for is invalidated. */
  lemma {:induction false} PostedAccountsAreInvalidated(clock: string -> Option<int>, b: Block, ordered: seq<Positioned>)
    requires BlockPosting(clock, b, ordered).Ok? && BlockChanges(ordered).Ok?
    ensures Covers(BlockChanges(ordered).value, BlockPosting(clock, b, ordered).value)
  {
    var ps := BlockPostings(clock, b, ordered);
    assert ps[..|ps|] == ps;
    PrefixCovered(clock, b, ordered, |ordered|);
  }
}
