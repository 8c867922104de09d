/** What a block of bank and staking events posts: ledger legs and defusion rows
    (bank/process.go). */
module Postings {
  import opened Coins
  import opened Correlation
  import opened Decimal
  import opened EventOrder
  import opened LedgerRows
  import opened Positions

  datatype Block = Block(chain: string, height: int, time: int)

  datatype DefusionRow = DefusionRow(
    chain: string, height: int, tx: int, event: int, source: string, validator: string, delegator: string,
    kind: string, amount: int, denom: string, completed: int, created: int)

  datatype Posted = Posted(ledger: seq<LedgerRow>, defusion: seq<DefusionRow>) {
    function Then(more: Posted): Posted {
      Posted(ledger + more.ledger, defusion + more.defusion)
    }
  }

  /** One posting after another; the first failure fails the rest. */
  function After(earlier: Result<Posted>, last: Result<Posted>): Result<Posted> {
    if earlier.Err? || last.Err? then Err else Ok(earlier.value.Then(last.value))
  }

  function All(ps: seq<Result<Posted>>): Result<Posted> {
    if ps == [] then Ok(Posted([], [])) else After(All(ps[..|ps| - 1]), ps[|ps| - 1])
  }

  lemma {:induction false} ErrorsStay(ps: seq<Result<Posted>>, n: nat)
    requires n <= |ps| && All(ps[..n]).Err?
    ensures All(ps).Err?
  {
    if n < |ps| {
      assert ps[..|ps| - 1][..n] == ps[..n];
      ErrorsStay(ps[..|ps| - 1], n);
    } else {
      assert ps[..n] == ps;
    }
  }

  /** `now` is `start` followed by the first `i` postings, all of which succeeded. */
  ghost predicate Reached(start: Posted, ps: seq<Result<Posted>>, i: nat, now: Posted) {
    i <= |ps| && All(ps[..i]).Ok? && now == start.Then(All(ps[..i]).value)
  }

  lemma {:induction false} ReachNext(start: Posted, ps: seq<Result<Posted>>, i: nat, now: Posted, next: Posted)
    requires Reached(start, ps, i, now) && i < |ps|
    requires ps[i].Ok? && next == now.Then(ps[i].value)
    ensures Reached(start, ps, i + 1, next)
  {
    assert ps[..i + 1][..i] == ps[..i];
  }

  lemma {:induction false} OneFails(ps: seq<Result<Posted>>, i: nat)
    requires i < |ps| && ps[i].Err?
    ensures All(ps).Err?
  {
    assert All(ps[..i + 1]).Err?;
    ErrorsStay(ps, i + 1);
  }

  lemma {:induction false} AllReached(start: Posted, ps: seq<Result<Posted>>, now: Posted)
    requires Reached(start, ps, |ps|, now)
    ensures All(ps).Ok? && now == start.Then(All(ps).value)
  {
    assert ps[..|ps|] == ps;
  }

  const INFUSED := ".infused"
  const DEFUSING := ".defusing"

  predicate IsBank(kind: string) {
    kind == "transfer" || kind == "coinbase" || kind == "burn" || IsStaking(kind)
  }

  predicate IsStaking(kind: string) {
    || kind == "delegate" || kind == "redelegate" || kind == "complete_redelegation" || kind == "unbond"
    || kind == "cancel_unbond" || kind == "complete_unbonding" || kind == "create_validator"
  }

  function RequiredFields(kind: string): seq<string> {
    if kind == "transfer" then ["sender", "recipient"]
    else if kind == "coinbase" then ["minter"]
    else if kind == "burn" then ["burner"]
    else if kind == "delegate" || kind == "cancel_unbond" || kind == "complete_unbonding" then ["validator", "delegator"]
    else if kind == "unbond" then ["validator", "delegator", "completion_time"]
    else if kind == "redelegate" then ["source_validator", "destination_validator", "completion_time"]
    else if kind == "complete_redelegation" then ["source_validator", "destination_validator", "delegator"]
    else if kind == "create_validator" then ["validator"]
    else []
  }

  /** Only a transfer's recipient may be present and empty. */
  predicate HasField(ev: Event, name: string) {
    Lookup(ev.attributes, name).Some? && (name == "recipient" || FindAttr(ev, name) != "")
  }

  predicate HasFields(ev: Event) {
    forall i :: 0 <= i < |RequiredFields(ev.kind)| ==> HasField(ev, RequiredFields(ev.kind)[i])
  }

  // ----- the legs of one coin ------------------------------------------------------------

  datatype Leg = Leg(address: string, counterparty: string, action: string, direction: Direction, suffix: string)

  /** The delegator of a staking operation and the validators its stake leaves and joins. */
  datatype Stake = Stake(delegator: string, from: string, to: string)

  function Moved(action: string, s: Stake, out: string, into: string): seq<Leg> {
    [Leg(s.from, s.delegator, action, Debit, out), Leg(s.delegator, s.from, action, Debit, out),
     Leg(s.to, s.delegator, action, Credit, into), Leg(s.delegator, s.to, action, Credit, into)]
  }

  function Pledged(s: Stake): seq<Leg> {
    [Leg(s.delegator, s.to, "infused", Debit, ""), Leg(s.delegator, s.to, "infused", Credit, INFUSED),
     Leg(s.to, s.delegator, "infused", Credit, INFUSED)]
  }

  function Founded(s: Stake): seq<Leg> {
    [Leg(s.delegator, s.to, "infused", Debit, ""), Leg(s.to, s.delegator, "infused", Credit, INFUSED),
     Leg(s.delegator, s.to, "infused", Credit, INFUSED)]
  }

  function Returned(s: Stake): seq<Leg> {
    [Leg(s.from, s.delegator, "defusion_completed", Debit, DEFUSING),
     Leg(s.delegator, s.from, "defusion_completed", Debit, DEFUSING),
     Leg(s.delegator, s.to, "defusion_completed", Credit, "")]
  }

  function StakingLegs(kind: string, s: Stake): seq<Leg>
    requires IsStaking(kind)
  {
    if kind == "delegate" then Pledged(s)
    else if kind == "create_validator" then Founded(s)
    else if kind == "redelegate" then Moved("diversion_started", s, INFUSED, DEFUSING)
    else if kind == "complete_redelegation" then Moved("diversion_completed", s, DEFUSING, INFUSED)
    else if kind == "unbond" then Moved("defusion_started", s, INFUSED, DEFUSING)
    else if kind == "cancel_unbond" then Moved("defusion_cancelled", s, DEFUSING, INFUSED)
    else Returned(s)
  }

  /** Who a staking event is about. `group` is its whole scope and `before` counts
      the events of that scope that precede it. */
  ghost function StakeOf(ev: Event, group: seq<Event>, before: nat, c: Coin): Result<Stake> {
    var validator := FindAttr(ev, "validator");
    if ev.kind == "create_validator" then
      match Spender(group, c)
      case Err => Err
      case Ok(spender) => Ok(Stake(spender, validator, validator))
    else if ev.kind == "redelegate" then
      match Owner(group, before, FindAttr(ev, "source_validator"))
      case Err => Err
      case Ok(owner) => Ok(Stake(owner, FindAttr(ev, "source_validator"), FindAttr(ev, "destination_validator")))
    else if ev.kind == "complete_redelegation" then
      var destination := FindAttr(ev, "destination_validator");
      Ok(Stake(FindAttr(ev, "delegator"), destination, destination))
    else Ok(Stake(FindAttr(ev, "delegator"), validator, validator))
  }

  ghost function TransferLegs(ev: Event, group: seq<Event>): Result<seq<Leg>> {
    var sent := Leg(FindAttr(ev, "sender"), FindAttr(ev, "recipient"), "sent", Debit, "");
    var received := Leg(FindAttr(ev, "recipient"), FindAttr(ev, "sender"), "received", Credit, "");
    match Overlap(ev, group)
    case Err => Err
    case Ok(skip) => Ok(if skip.sent then [received] else if skip.received then [sent] else [sent, received])
  }

  ghost function Legs(ev: Event, group: seq<Event>, before: nat, c: Coin): Result<seq<Leg>>
    requires IsBank(ev.kind)
  {
    if ev.kind == "transfer" then TransferLegs(ev, group)
    else if ev.kind == "coinbase" then Ok([Leg(FindAttr(ev, "minter"), "", "minted", Credit, "")])
    else if ev.kind == "burn" then Ok([Leg(FindAttr(ev, "burner"), "", "burned", Debit, "")])
    else
      match StakeOf(ev, group, before, c)
      case Err => Err
      case Ok(stake) => Ok(StakingLegs(ev.kind, stake))
  }

  // ----- rows --------------------------------------------------------------------------------

  function AmountOf(c: Coin): nat {
    if IsDigits(c.amount) then DigitsValue(c.amount) else 0
  }

  function LegRow(b: Block, p: Positioned, c: Coin, leg: Leg, n: nat): LedgerRow {
    LedgerRow(leg.address, leg.counterparty, AmountOf(c), b.height, b.time, leg.action, leg.direction,
              c.denom + leg.suffix, b.chain, p.tx, -1, EncodeEventIndex(p.index, n))
  }

  function LegRows(b: Block, p: Positioned, c: Coin, legs: seq<Leg>): (rows: seq<LedgerRow>)
    ensures |rows| == |legs|
    ensures forall n :: 0 <= n < |legs| ==> rows[n] == LegRow(b, p, c, legs[n], n)
  {
    seq(|legs|, n requires 0 <= n < |legs| => LegRow(b, p, c, legs[n], n))
  }

  /** Unbonding and redelegation leave a maturing entry behind. */
  predicate Matures(kind: string) {
    kind == "unbond" || kind == "redelegate"
  }

  function DefusionOf(b: Block, p: Positioned, c: Coin, s: Stake, completed: int): DefusionRow {
    var r := p.event.kind == "redelegate";
    DefusionRow(b.chain, b.height, p.tx, p.index, if r then s.from else "", s.to, s.delegator,
                if r then "r" else "u", AmountOf(c), c.denom, completed, b.time)
  }

  /** Everything one coin of one event posts. `clock` reads a chain timestamp. */
  ghost function CoinPosting(clock: string -> Option<int>, b: Block, p: Positioned, group: seq<Event>, before: nat, c: Coin): Result<Posted>
    requires IsBank(p.event.kind)
  {
    var ev := Narrow(p.event, c);
    match Legs(ev, group, before, c)
    case Err => Err
    case Ok(legs) =>
      var ledger := LegRows(b, p, c, legs);
      if !Matures(p.event.kind) then Ok(Posted(ledger, []))
      else
        match clock(FindAttr(p.event, "completion_time"))
        case None => Err
        case Some(completed) =>
          Ok(Posted(ledger, [DefusionOf(b, p, c, StakeOf(ev, group, before, c).value, completed)]))
  }

  ghost function CoinPostings(clock: string -> Option<int>, b: Block, p: Positioned, group: seq<Event>, before: nat, coins: seq<Coin>): (ps: seq<Result<Posted>>)
    requires IsBank(p.event.kind)
    ensures |ps| == |coins|
    ensures forall i :: 0 <= i < |coins| ==> ps[i] == CoinPosting(clock, b, p, group, before, coins[i])
  {
    seq(|coins|, i requires 0 <= i < |coins| => CoinPosting(clock, b, p, group, before, coins[i]))
  }

  ghost function EventPosting(clock: string -> Option<int>, b: Block, p: Positioned, group: seq<Event>, before: nat): Result<Posted> {
    if !IsBank(p.event.kind) then Ok(Posted([], []))
    else if EventCoins(p.event).Err? || !HasFields(p.event) then Err
    else All(CoinPostings(clock, b, p, group, before, EventCoins(p.event).value))
  }

  // ----- scopes and the whole block -------------------------------------------------------------

  datatype Scope = Scope(phase: int, tx: int, msg: int)

  function ScopeOf(p: Positioned): Scope {
    Scope(p.phase, p.tx, p.msg)
  }

  /** The events of one scope, in order. */
  function Group(ps: seq<Positioned>, scope: Scope): seq<Event> {
    if ps == [] then []
    else
      var rest, last := Group(ps[..|ps| - 1], scope), ps[|ps| - 1];
      if ScopeOf(last) == scope then rest + [last.event] else rest
  }

  lemma {:induction false} GroupOfPrefix(ps: seq<Positioned>, n: nat, scope: Scope)
    requires n <= |ps|
    ensures |Group(ps[..n], scope)| <= |Group(ps, scope)|
    ensures Group(ps, scope)[..|Group(ps[..n], scope)|] == Group(ps[..n], scope)
  {
    if n < |ps| {
      assert ps[..|ps| - 1][..n] == ps[..n];
      GroupOfPrefix(ps[..|ps| - 1], n, scope);
    } else {
      assert ps[..n] == ps;
    }
  }

  /** The posting of event `i`, correlated on its whole scope. */
  ghost function PostingAt(clock: string -> Option<int>, b: Block, ordered: seq<Positioned>, i: nat): Result<Posted>
    requires i < |ordered|
  {
    var scope := ScopeOf(ordered[i]);
    EventPosting(clock, b, ordered[i], Group(ordered, scope), |Group(ordered[..i], scope)|)
  }

  ghost function BlockPostings(clock: string -> Option<int>, b: Block, ordered: seq<Positioned>): (ps: seq<Result<Posted>>)
    ensures |ps| == |ordered|
    ensures forall i :: 0 <= i < |ordered| ==> ps[i] == PostingAt(clock, b, ordered, i)
  {
    seq(|ordered|, i requires 0 <= i < |ordered| => PostingAt(clock, b, ordered, i))
  }

  ghost function BlockPosting(clock: string -> Option<int>, b: Block, ordered: seq<Positioned>): Result<Posted> {
    All(BlockPostings(clock, b, ordered))
  }
}
