/** What postings do to balances (bank/process.go): staking operations move a unit of stake
    between stages, and a covered transfer nets to zero with its mint or burn. */
module LedgerEffects {
  import opened Coins
  import opened Conservation
  import opened Correlation
  import opened EventOrder
  import opened LedgerRows
  import opened Positions
  import opened Postings

  lemma {:induction false} BalancesAdd(a: seq<LedgerRow>, b: seq<LedgerRow>, account: string, denom: string)
    ensures Balance(a + b, account, denom) == Balance(a, account, denom) + Balance(b, account, denom)
  {
    if b == [] {
      assert a + b == a;
    } else {
      assert (a + b)[..|a + b| - 1] == a + b[..|b| - 1];
      BalancesAdd(a, b[..|b| - 1], account, denom);
    }
  }

  // ----- stages of stake ------------------------------------------------------------------------

  datatype Stage = Wallet | Bonded(validator: string) | Maturing(validator: string)

  function If(condition: bool, amount: int): int {
    if condition then amount else 0
  }

  /** How the ledger shows an amount that `delegator` holds in a stage: a wallet amount as
      the delegator's own, a staked one with the delegator and with the validator. */
  function Shown(amount: int, base: string, delegator: string, stage: Stage, account: string, denom: string): int {
    match stage
    case Wallet => If(account == delegator && denom == base, amount)
    case Bonded(v) =>
      If(account == delegator && denom == base + INFUSED, amount) + If(account == v && denom == base + INFUSED, amount)
    case Maturing(v) =>
      If(account == delegator && denom == base + DEFUSING, amount) + If(account == v && denom == base + DEFUSING, amount)
  }

  /** The stage that an operation takes stake from. */
  function Leaves(kind: string, s: Stake): Stage {
    if kind == "delegate" || kind == "create_validator" then Wallet
    else if kind == "unbond" || kind == "redelegate" then Bonded(s.from)
    else Maturing(s.from)
  }

  /** The stage that an operation takes stake to. */
  function Joins(kind: string, s: Stake): Stage {
    if kind == "unbond" || kind == "redelegate" then Maturing(s.to)
    else if kind == "complete_unbonding" then Wallet
    else Bonded(s.to)
  }

  /** The rows turn what one stage shows into what another one shows, for every account
      and denomination, the delegator's own validator included. */
  ghost predicate Transfers(rows: seq<LedgerRow>, amount: int, base: string, delegator: string, from: Stage, to: Stage) {
    forall account, denom :: Balance(rows, account, denom)
      == Shown(amount, base, delegator, to, account, denom) - Shown(amount, base, delegator, from, account, denom)
  }

  /** Every staking operation moves the whole coin from the stage it leaves to the stage
      it joins, and touches nothing else. */
  lemma {:induction false} OperationMoves(b: Block, p: Positioned, c: Coin, kind: string, s: Stake)
    requires IsStaking(kind)
    ensures Transfers(LegRows(b, p, c, StakingLegs(kind, s)), AmountOf(c), c.denom, s.delegator, Leaves(kind, s), Joins(kind, s))
  {
    var legs := StakingLegs(kind, s);
    forall account, denom
      ensures Balance(LegRows(b, p, c, legs), account, denom)
           == Shown(AmountOf(c), c.denom, s.delegator, Joins(kind, s), account, denom)
              - Shown(AmountOf(c), c.denom, s.delegator, Leaves(kind, s), account, denom)
    {
      assert c.denom + "" == c.denom;
      LegsBalance(b, p, c, legs, account, denom);
    }
  }

  function LegEffect(c: Coin, leg: Leg, account: string, denom: string): int {
    If(leg.address == account && c.denom + leg.suffix == denom, if leg.direction == Credit then AmountOf(c) else 0 - AmountOf(c))
  }

  /** The balance of up to four legs, leg by leg. */
  lemma {:induction false} LegsBalance(b: Block, p: Positioned, c: Coin, legs: seq<Leg>, account: string, denom: string)
    requires |legs| <= 4
    ensures Balance(LegRows(b, p, c, legs), account, denom)
         == (if |legs| > 0 then LegEffect(c, legs[0], account, denom) else 0)
            + (if |legs| > 1 then LegEffect(c, legs[1], account, denom) else 0)
            + (if |legs| > 2 then LegEffect(c, legs[2], account, denom) else 0)
            + (if |legs| > 3 then LegEffect(c, legs[3], account, denom) else 0)
    decreases |legs|
  {
    if legs != [] {
      var init := legs[..|legs| - 1];
      LegsBalance(b, p, c, init, account, denom);
      assert LegRows(b, p, c, legs)[..|legs| - 1] == LegRows(b, p, c, init);
    }
  }

  // ----- paths of operations ------------------------------------------------------------------------

  /** One posted staking operation on a coin. */
  datatype Operation = Operation(kind: string, stake: Stake, block: Block, at: Positioned)

  function Reached(ops: seq<Operation>, start: Stage): Stage {
    if ops == [] then start else Joins(ops[|ops| - 1].kind, ops[|ops| - 1].stake)
  }

  /** Each operation of the delegator takes the stake from where the previous one left it. */
  predicate Path(ops: seq<Operation>, delegator: string, start: Stage) {
    ops == [] ||
    (var init, last := ops[..|ops| - 1], ops[|ops| - 1];
     && Path(init, delegator, start) && IsStaking(last.kind) && last.stake.delegator == delegator
     && Leaves(last.kind, last.stake) == Reached(init, start))
  }

  function PathRows(ops: seq<Operation>, c: Coin): seq<LedgerRow> {
    if ops == [] then []
    else
      var init, last := ops[..|ops| - 1], ops[|ops| - 1];
      PathRows(init, c) + if IsStaking(last.kind) then LegRows(last.block, last.at, c, StakingLegs(last.kind, last.stake)) else []
  }

  /** However a coin wanders through delegation, redelegation, unbonding and cancellation,
      and in whatever blocks, its rows add up to one move from the first stage to the last. */
  lemma {:induction false} PathMoves(ops: seq<Operation>, c: Coin, delegator: string, start: Stage)
    requires Path(ops, delegator, start)
    ensures Transfers(PathRows(ops, c), AmountOf(c), c.denom, delegator, start, Reached(ops, start))
  {
    if ops != [] {
      var init, last := ops[..|ops| - 1], ops[|ops| - 1];
      PathMoves(init, c, delegator, start);
      OperationMoves(last.block, last.at, c, last.kind, last.stake);
      TransfersJoin(PathRows(init, c), LegRows(last.block, last.at, c, StakingLegs(last.kind, last.stake)),
                    AmountOf(c), c.denom, delegator, start, Reached(init, start), Reached(ops, start));
    }
  }

  lemma {:induction false} TransfersJoin(a: seq<LedgerRow>, b: seq<LedgerRow>, amount: int, base: string, delegator: string,
                                         from: Stage, via: Stage, to: Stage)
    requires Transfers(a, amount, base, delegator, from, via) && Transfers(b, amount, base, delegator, via, to)
    ensures Transfers(a + b, amount, base, delegator, from, to)
  {
    forall account, denom
      ensures Balance(a + b, account, denom)
           == Shown(amount, base, delegator, to, account, denom) - Shown(amount, base, delegator, from, account, denom)
    {
      BalancesAdd(a, b, account, denom);
    }
  }

  /** A coin that comes back to where it started leaves no trace in any balance: what is
      delegated and returned, or unbonded and cancelled, cancels out. */
  lemma {:induction false} RoundTripCancels(ops: seq<Operation>, c: Coin, delegator: string, start: Stage, account: string, denom: string)
    requires Path(ops, delegator, start) && Reached(ops, start) == start
    ensures Balance(PathRows(ops, c), account, denom) == 0
  {
    PathMoves(ops, c, delegator, start);
  }

  /** What the engine posts for one coin of a staking event is that move, for the accounts
      the event is correlated with. */
  lemma {:induction false} PostedMoves(clock: string -> Option<int>, b: Block, p: Positioned, group: seq<Event>, before: nat, c: Coin)
    requires IsStaking(p.event.kind) && CoinPosting(clock, b, p, group, before, c).Ok?
    ensures StakeOf(Narrow(p.event, c), group, before, c).Ok?
    ensures var s := StakeOf(Narrow(p.event, c), group, before, c).value;
            Transfers(CoinPosting(clock, b, p, group, before, c).value.ledger, AmountOf(c), c.denom, s.delegator,
                      Leaves(p.event.kind, s), Joins(p.event.kind, s))
  {
    var s := PostedLegs(clock, b, p, group, before, c);
    OperationMoves(b, p, c, p.event.kind, s);
  }

  // ----- transfers ----------------------------------------------------------------------------------

  /** A transfer debits the sender and credits the recipient by the coin, except for the
      one leg that a receipt accounts for elsewhere. */
  lemma {:induction false} TransferMoves(b: Block, p: Positioned, c: Coin, ev: Event, group: seq<Event>, account: string, denom: string)
    requires Overlap(ev, group).Ok?
    ensures TransferLegs(ev, group).Ok?
    ensures var skip := Overlap(ev, group).value;
            Balance(LegRows(b, p, c, TransferLegs(ev, group).value), account, denom)
              == If(!skip.received && account == FindAttr(ev, "recipient") && denom == c.denom, AmountOf(c))
                 - If(!skip.sent && account == FindAttr(ev, "sender") && denom == c.denom, AmountOf(c))
  {
    assert c.denom + "" == c.denom;
    LegsBalance(b, p, c, TransferLegs(ev, group).value, account, denom);
  }

  lemma {:induction false} HolderExists(group: seq<Event>, f: Filter, c: Coin) returns (k: nat)
    requires Holders(group, f, c).Ok? && Holders(group, f, c).value > 0
    ensures k < |group| && f.Accepts(group[k]) && HoldsCoin(group[k], c)
  {
    var init, last := group[..|group| - 1], group[|group| - 1];
    if f.Accepts(last) && HoldsCoin(last, c) {
      k := |group| - 1;
    } else {
      k := HolderExists(init, f, c);
    }
  }

  /** When a receipt accounts for one leg, the remaining leg and the mint or burn of the same
      scope that covered it cancel for every account: the pool in between nets to zero. */
  lemma {:induction false} CoveredTransferNets(b: Block, p: Positioned, q: Positioned, c: Coin, ev: Event, group: seq<Event>, before: nat)
    returns (k: nat)
    requires FindAmount(ev) == Some(c) && Overlap(ev, group).Ok? && Overlap(ev, group).value != Skip(false, false)
    ensures k < |group| && HoldsCoin(group[k], c)
    ensures group[k].kind == if Overlap(ev, group).value.sent then "burn" else "coinbase"
    ensures Legs(group[k], group, before, c).Ok? && TransferLegs(ev, group).Ok?
    ensures forall account, denom ::
              Balance(LegRows(b, p, c, TransferLegs(ev, group).value) + LegRows(b, q, c, Legs(group[k], group, before, c).value), account, denom) == 0
  {
    var skip, sender, recipient := Overlap(ev, group).value, FindAttr(ev, "sender"), FindAttr(ev, "recipient");
    var f := if skip.sent then BurnedBy(recipient) else MintedBy(sender);
    k := HolderExists(group, f, c);
    var other := group[k];
    assert FindAttr(other, f.accounts[0].key) == f.accounts[0].value;
    var rows, covered := LegRows(b, p, c, TransferLegs(ev, group).value), LegRows(b, q, c, Legs(other, group, before, c).value);
    forall account, denom ensures Balance(rows + covered, account, denom) == 0 {
      TransferMoves(b, p, c, ev, group, account, denom);
      assert c.denom + "" == c.denom;
      LegsBalance(b, q, c, Legs(other, group, before, c).value, account, denom);
      BalancesAdd(rows, covered, account, denom);
    }
  }
}
