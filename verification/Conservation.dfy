/** Double entry over staking events: what validators and delegators are owed agrees,
    and staking moves a delegator's coins without making or losing any. */
module Conservation {
  import opened BankIdentities
  import opened Coins
  import opened EventOrder
  import opened LedgerRows
  import opened Positions
  import opened Postings

  /** Signed sum of the rows of one denomination whose account is in `side` while the
      counterparty is not. */
  ghost function Inside(rows: seq<LedgerRow>, side: iset<string>, denom: string): int {
    if rows == [] then 0
    else
      var last := rows[|rows| - 1];
      Inside(rows[..|rows| - 1], side, denom)
      + if last.denom == denom && last.address in side && last.counterparty !in side then Signed(last) else 0
  }

  /** The same sum seen from the other side. */
  ghost function Facing(rows: seq<LedgerRow>, side: iset<string>, denom: string): int {
    if rows == [] then 0
    else
      var last := rows[|rows| - 1];
      Facing(rows[..|rows| - 1], side, denom)
      + if last.denom == denom && last.counterparty in side && last.address !in side then Signed(last) else 0
  }

  /** Everything the rows do to one account. */
  function Total(rows: seq<LedgerRow>, account: string): int {
    if rows == [] then 0
    else
      var last := rows[|rows| - 1];
      Total(rows[..|rows| - 1], account) + if last.address == account then Signed(last) else 0
  }

  lemma {:induction false} SumsAdd(a: seq<LedgerRow>, b: seq<LedgerRow>, side: iset<string>, denom: string, account: string)
    ensures Inside(a + b, side, denom) == Inside(a, side, denom) + Inside(b, side, denom)
    ensures Facing(a + b, side, denom) == Facing(a, side, denom) + Facing(b, side, denom)
    ensures Total(a + b, account) == Total(a, account) + Total(b, account)
  {
    if b == [] {
      assert a + b == a;
    } else {
      assert (a + b)[..|a + b| - 1] == a + b[..|b| - 1];
      SumsAdd(a, b[..|b| - 1], side, denom, account);
    }
  }

  /** The two staked families of a denomination. */
  predicate IsStaked(denom: string, base: string) {
    denom == base + INFUSED || denom == base + DEFUSING
  }

  predicate InFamily(denom: string, base: string) {
    denom == base || IsStaked(denom, base)
  }

  // ----- one coin of one event ----------------------------------------------------------------

  ghost predicate Balanced(rows: seq<LedgerRow>, base: string, side: iset<string>) {
    forall denom :: IsStaked(denom, base) ==> Inside(rows, side, denom) == Facing(rows, side, denom)
  }

  lemma {:induction false} BalancedTogether(a: seq<LedgerRow>, b: seq<LedgerRow>, base: string, side: iset<string>, account: string)
    requires Balanced(a, base, side) && Balanced(b, base, side)
    ensures Balanced(a + b, base, side)
    ensures Total(a + b, account) == Total(a, account) + Total(b, account)
  {
    SumsAdd(a, b, side, base, account);
    forall denom | IsStaked(denom, base) ensures Inside(a + b, side, denom) == Facing(a + b, side, denom) {
      SumsAdd(a, b, side, denom, account);
    }
  }

  /** Two rows that differ only in who is the account and who the counterparty. */
  lemma {:induction false} MirroredPair(r: LedgerRow, s: LedgerRow, base: string, side: iset<string>, account: string)
    requires r.address == s.counterparty && r.counterparty == s.address && r.denom == s.denom && Signed(r) == Signed(s)
    ensures Balanced([r, s], base, side)
    ensures account != r.address ==> Total([r, s], account) == if account == s.address then Signed(s) else 0
    ensures account != s.address ==> Total([r, s], account) == if account == r.address then Signed(r) else 0
  {
    forall denom ensures Inside([r, s], side, denom) == Facing([r, s], side, denom) {
      OneRow(r, side, denom, account);
      OneRow(s, side, denom, account);
      assert [r, s] == [r] + [s];
      SumsAdd([r], [s], side, denom, account);
    }
    OneRow(r, side, base, account);
    OneRow(s, side, base, account);
    assert [r, s] == [r] + [s];
    SumsAdd([r], [s], side, base, account);
  }

  lemma {:induction false} OneRow(r: LedgerRow, side: iset<string>, denom: string, account: string)
    ensures Inside([r], side, denom) == if r.denom == denom && r.address in side && r.counterparty !in side then Signed(r) else 0
    ensures Facing([r], side, denom) == if r.denom == denom && r.counterparty in side && r.address !in side then Signed(r) else 0
    ensures Total([r], account) == if r.address == account then Signed(r) else 0
  {
    assert [r][..0] == [];
  }

  // ----- one coin of one event ----------------------------------------------------------------

  /** The staked legs mirror each other, and the delegator's legs cancel. */
  ghost predicate Conserves(rows: seq<LedgerRow>, base: string, s: Stake, side: iset<string>, account: string) {
    Balanced(rows, base, side) && (account != s.from && account != s.to ==> Total(rows, account) == 0)
  }

  lemma {:induction false} MoveConserves(b: Block, p: Positioned, c: Coin, action: string, s: Stake, out: string, into: string, side: iset<string>, account: string)
    ensures Conserves(LegRows(b, p, c, Moved(action, s, out, into)), c.denom, s, side, account)
  {
    var rows := LegRows(b, p, c, Moved(action, s, out, into));
    MirroredPair(rows[0], rows[1], c.denom, side, account);
    MirroredPair(rows[2], rows[3], c.denom, side, account);
    BalancedTogether([rows[0], rows[1]], [rows[2], rows[3]], c.denom, side, account);
    assert rows == [rows[0], rows[1]] + [rows[2], rows[3]];
  }

  lemma {:induction false} PledgeConserves(b: Block, p: Positioned, c: Coin, s: Stake, side: iset<string>, account: string)
    ensures Conserves(LegRows(b, p, c, Pledged(s)), c.denom, s, side, account)
    ensures Conserves(LegRows(b, p, c, Founded(s)), c.denom, s, side, account)
  {
    var pledged, founded := LegRows(b, p, c, Pledged(s)), LegRows(b, p, c, Founded(s));
    assert c.denom + "" == c.denom;
    MirroredPair(pledged[1], pledged[2], c.denom, side, account);
    BalancedTogether([pledged[0]], [pledged[1], pledged[2]], c.denom, side, account);
    assert pledged == [pledged[0]] + [pledged[1], pledged[2]];
    MirroredPair(founded[1], founded[2], c.denom, side, account);
    BalancedTogether([founded[0]], [founded[1], founded[2]], c.denom, side, account);
    assert founded == [founded[0]] + [founded[1], founded[2]];
  }

  lemma {:induction false} ReturnConserves(b: Block, p: Positioned, c: Coin, s: Stake, side: iset<string>, account: string)
    ensures Conserves(LegRows(b, p, c, Returned(s)), c.denom, s, side, account)
  {
    var rows := LegRows(b, p, c, Returned(s));
    assert c.denom + "" == c.denom;
    MirroredPair(rows[0], rows[1], c.denom, side, account);
    BalancedTogether([rows[0], rows[1]], [rows[2]], c.denom, side, account);
    assert rows == [rows[0], rows[1]] + [rows[2]];
  }

  lemma {:induction false} StakingConserves(b: Block, p: Positioned, c: Coin, kind: string, s: Stake, side: iset<string>, account: string)
    requires IsStaking(kind)
    ensures Conserves(LegRows(b, p, c, StakingLegs(kind, s)), c.denom, s, side, account)
  {
    MoveConserves(b, p, c, "diversion_started", s, INFUSED, DEFUSING, side, account);
    MoveConserves(b, p, c, "diversion_completed", s, DEFUSING, INFUSED, side, account);
    MoveConserves(b, p, c, "defusion_started", s, INFUSED, DEFUSING, side, account);
    MoveConserves(b, p, c, "defusion_cancelled", s, DEFUSING, INFUSED, side, account);
    PledgeConserves(b, p, c, s, side, account);
    ReturnConserves(b, p, c, s, side, account);
  }

  // ----- the whole block ------------------------------------------------------------------------

  function Flatten(parts: seq<seq<LedgerRow>>): seq<LedgerRow> {
    if parts == [] then [] else Flatten(parts[..|parts| - 1]) + parts[|parts| - 1]
  }

  lemma {:induction false} FlattenBalances(parts: seq<seq<LedgerRow>>, base: string, side: iset<string>, account: string)
    requires forall i :: 0 <= i < |parts| ==> Balanced(parts[i], base, side)
    ensures Balanced(Flatten(parts), base, side)
    ensures (forall i :: 0 <= i < |parts| ==> Total(parts[i], account) == 0) ==> Total(Flatten(parts), account) == 0
  {
    if parts != [] {
      var init := parts[..|parts| - 1];
      assert forall i :: 0 <= i < |init| ==> init[i] == parts[i];
      FlattenBalances(init, base, side, account);
      BalancedTogether(Flatten(init), parts[|parts| - 1], base, side, account);
    }
  }

  /** The rows that one coin of a staking event adds to the family of `base`. */
  ghost function CoinRows(clock: string -> Option<int>, b: Block, p: Positioned, group: seq<Event>, before: nat, c: Coin, base: string): seq<LedgerRow>
    requires IsStaking(p.event.kind)
  {
    var posting := CoinPosting(clock, b, p, group, before, c);
    if c.denom == base && posting.Ok? then posting.value.ledger else []
  }

  ghost function EventRows(clock: string -> Option<int>, b: Block, ordered: seq<Positioned>, i: nat, base: string): seq<LedgerRow>
    requires i < |ordered|
  {
    var p, scope := ordered[i], ScopeOf(ordered[i]);
    if !IsStaking(p.event.kind) || EventCoins(p.event).Err? then []
    else
      var coins := EventCoins(p.event).value;
      Flatten(seq(|coins|, j requires 0 <= j < |coins| =>
        CoinRows(clock, b, p, Group(ordered, scope), |Group(ordered[..i], scope)|, coins[j], base)))
  }

  /** The rows that a block's staking events post for coin `base`, in order. */
  ghost function StakingRows(clock: string -> Option<int>, b: Block, ordered: seq<Positioned>, base: string): seq<LedgerRow> {
    Flatten(seq(|ordered|, i requires 0 <= i < |ordered| => EventRows(clock, b, ordered, i, base)))
  }

  /** `account` is no validator of the event. */
  predicate Bystander(ev: Event, account: string) {
    && account != FindAttr(ev, "validator") && account != FindAttr(ev, "source_validator")
    && account != FindAttr(ev, "destination_validator")
  }

  lemma {:induction false} PostedLegs(clock: string -> Option<int>, b: Block, p: Positioned, group: seq<Event>, before: nat, c: Coin) returns (s: Stake)
    requires IsStaking(p.event.kind) && CoinPosting(clock, b, p, group, before, c).Ok?
    ensures StakeOf(Narrow(p.event, c), group, before, c) == Ok(s)
    ensures CoinPosting(clock, b, p, group, before, c).value.ledger == LegRows(b, p, c, StakingLegs(p.event.kind, s))
  {
    var ev := Narrow(p.event, c);
    assert ev.kind == p.event.kind;
    assert Legs(ev, group, before, c).Ok?;
    s := StakeOf(ev, group, before, c).value;
    assert Legs(ev, group, before, c) == Ok(StakingLegs(ev.kind, s));
  }

  lemma {:induction false} NarrowBystander(ev: Event, c: Coin, account: string)
    ensures Bystander(Narrow(ev, c), account) <==> Bystander(ev, account)
  {
    NarrowLookup(ev.attributes, c.amount + c.denom, "validator");
    NarrowLookup(ev.attributes, c.amount + c.denom, "source_validator");
    NarrowLookup(ev.attributes, c.amount + c.denom, "destination_validator");
  }

  lemma {:induction false} StakeNamesValidators(ev: Event, group: seq<Event>, before: nat, c: Coin, s: Stake, account: string)
    requires StakeOf(ev, group, before, c) == Ok(s) && Bystander(ev, account)
    ensures account != s.from && account != s.to
  {
  }

  lemma {:induction false} PostedConserves(clock: string -> Option<int>, b: Block, p: Positioned, group: seq<Event>, before: nat, c: Coin,
                        side: iset<string>, account: string)
    requires IsStaking(p.event.kind) && CoinPosting(clock, b, p, group, before, c).Ok?
    ensures var rows := CoinPosting(clock, b, p, group, before, c).value.ledger;
            Balanced(rows, c.denom, side) && (Bystander(p.event, account) ==> Total(rows, account) == 0)
  {
    var s := PostedLegs(clock, b, p, group, before, c);
    StakingConserves(b, p, c, p.event.kind, s, side, account);
    NarrowBystander(p.event, c, account);
    if Bystander(p.event, account) { StakeNamesValidators(Narrow(p.event, c), group, before, c, s, account); }
  }

  lemma {:induction false} CoinConserves(clock: string -> Option<int>, b: Block, p: Positioned, group: seq<Event>, before: nat, c: Coin,
                      base: string, side: iset<string>, account: string)
    requires IsStaking(p.event.kind)
    ensures Balanced(CoinRows(clock, b, p, group, before, c, base), base, side)
    ensures Bystander(p.event, account) ==> Total(CoinRows(clock, b, p, group, before, c, base), account) == 0
  {
    if c.denom == base && CoinPosting(clock, b, p, group, before, c).Ok? {
      PostedConserves(clock, b, p, group, before, c, side, account);
    }
  }

  lemma {:induction false} EventConserves(clock: string -> Option<int>, b: Block, ordered: seq<Positioned>, i: nat, base: string,
                       side: iset<string>, account: string)
    requires i < |ordered|
    ensures Balanced(EventRows(clock, b, ordered, i, base), base, side)
    ensures (IsStaking(ordered[i].event.kind) ==> Bystander(ordered[i].event, account))
              ==> Total(EventRows(clock, b, ordered, i, base), account) == 0
  {
    var p, scope := ordered[i], ScopeOf(ordered[i]);
    if IsStaking(p.event.kind) && EventCoins(p.event).Ok? {
      var coins, group, before := EventCoins(p.event).value, Group(ordered, scope), |Group(ordered[..i], scope)|;
      var parts := seq(|coins|, j requires 0 <= j < |coins| => CoinRows(clock, b, p, group, before, coins[j], base));
      forall j | 0 <= j < |coins|
        ensures Balanced(parts[j], base, side) && (Bystander(p.event, account) ==> Total(parts[j], account) == 0) {
        CoinConserves(clock, b, p, group, before, coins[j], base, side, account);
      }
      FlattenBalances(parts, base, side, account);
    }
  }

  /** For any set of accounts, what its staked rows hold against the rest and what the
      rest holds against it sum to the same amount; taking the validators as the set
      gives the equality of the two sides of the books. An account that no staking
      event names as a validator keeps its total over wallet and staked family. */
  lemma {:induction false} StakingBalances(clock: string -> Option<int>, b: Block, ordered: seq<Positioned>, base: string,
                        side: iset<string>, account: string)
    ensures Balanced(StakingRows(clock, b, ordered, base), base, side)
    ensures (forall i :: 0 <= i < |ordered| && IsStaking(ordered[i].event.kind) ==> Bystander(ordered[i].event, account))
              ==> Total(StakingRows(clock, b, ordered, base), account) == 0
  {
    var parts := seq(|ordered|, i requires 0 <= i < |ordered| => EventRows(clock, b, ordered, i, base));
    forall i | 0 <= i < |ordered|
      ensures Balanced(parts[i], base, side)
      ensures (IsStaking(ordered[i].event.kind) ==> Bystander(ordered[i].event, account)) ==> Total(parts[i], account) == 0 {
      EventConserves(clock, b, ordered, i, base, side, account);
    }
    FlattenBalances(parts, base, side, account);
  }
}
