/** One address's native staking at one height (staking/snapshot.go) and its split over
    validators (staking/positions.go). Query pages arrive decoded and in order. */
module NativeSnapshot {
  import opened Coins
  import opened Decimal
  import opened EventOrder
  import opened NativeEvidence
  import opened Positions

  // ----- query rows -------------------------------------------------------------------------

  datatype DelegationRow = DelegationRow(delegator: string, validator: string, shares: string, denom: string, amount: string)

  datatype EntryRow = EntryRow(created: int, completes: bool, initial: string, balance: string, shares: string, id: nat, holds: int)

  datatype UnbondingRow = UnbondingRow(delegator: string, validator: string, entries: seq<EntryRow>)

  datatype RedelegationRow = RedelegationRow(delegator: string, source: string, destination: string, entries: seq<EntryRow>)

  datatype Limits = Limits(pageSize: int, maxPairs: int, maxEntries: int)

  datatype Query = Query(delegations: seq<DelegationRow>, unbondings: seq<UnbondingRow>, redelegations: seq<RedelegationRow>)

  // ----- the snapshot -------------------------------------------------------------------------

  datatype Delegation = Delegation(validator: string, shares: string, balance: string)
  datatype Unbonding = Unbonding(validator: string, entry: EntryRow, balance: string)
  datatype Redelegation = Redelegation(source: string, destination: string, entry: EntryRow)

  datatype Snapshot = Snapshot(address: string, height: int, delegations: seq<Delegation>, unbondings: seq<Unbonding>,
                               redelegations: seq<Redelegation>, bonded: string, unbonding: string)

  // ----- field checks ----------------------------------------------------------------------------

  /** An amount as its shortest decimal text, when it is a natural below 2^256. */
  function CoinAmount(raw: string): Option<string> {
    if raw == "" || !IsDigits(raw) || DigitsValue(raw) >= SDK_LIMIT then None else Some(Text(DigitsValue(raw)))
  }

  function Value(text: string): nat {
    if IsDigits(text) then DigitsValue(text) else 0
  }

  lemma {:induction false} AmountReads(raw: string)
    requires CoinAmount(raw).Some?
    ensures IsNatural(CoinAmount(raw).value) && Value(CoinAmount(raw).value) == DigitsValue(raw)
  {
    TextReads(DigitsValue(raw));
  }

  /** `(0|[1-9][0-9]*)(\.[0-9]{1,18})?` */
  predicate ValidShares(s: string) {
    var n := LeadingDigits(s);
    IsNatural(s[..n]) && (n == |s| || (s[n] == '.' && 1 <= |s| - n - 1 <= 18 && IsDigits(s[n + 1..])))
  }

  predicate IsPair(address: string, delegator: string, validator: string) {
    delegator == address && ValidAddress(validator, OPERATOR)
  }

  predicate DelegationFits(address: string, d: DelegationRow) {
    && IsPair(address, d.delegator, d.validator)
    && ValidShares(d.shares) && d.denom == "ualpha" && CoinAmount(d.amount).Some?
  }

  predicate EntryFits(height: int, e: EntryRow) {
    0 <= e.created <= height && e.completes && e.holds >= 0 && CoinAmount(e.initial).Some?
  }

  /** A balance can be slashed below the initial one but never exceeds it. */
  predicate UnbondingFits(height: int, e: EntryRow) {
    EntryFits(height, e) && CoinAmount(e.balance).Some? && DigitsValue(e.balance) <= DigitsValue(e.initial)
  }

  predicate RedelegationFits(height: int, e: EntryRow) {
    EntryFits(height, e) && ValidShares(e.shares) && CoinAmount(e.balance).Some?
  }

  // ----- entries of all rows ---------------------------------------------------------------------

  function UnbondingsOf(rows: seq<UnbondingRow>): seq<Unbonding> {
    if rows == [] then []
    else UnbondingsOf(rows[..|rows| - 1]) + Entries(rows[|rows| - 1].validator, rows[|rows| - 1].entries)
  }

  function Entries(validator: string, entries: seq<EntryRow>): (us: seq<Unbonding>)
    ensures |us| == |entries|
  {
    seq(|entries|, i requires 0 <= i < |entries| => Unbonding(validator, entries[i], Text(Value(entries[i].balance))))
  }

  function RedelegationsOf(rows: seq<RedelegationRow>): seq<Redelegation> {
    if rows == [] then []
    else
      var last := rows[|rows| - 1];
      RedelegationsOf(rows[..|rows| - 1])
      + seq(|last.entries|, i requires 0 <= i < |last.entries| => Redelegation(last.source, last.destination, last.entries[i]))
  }

  function DelegationsOf(rows: seq<DelegationRow>): (ds: seq<Delegation>)
    ensures |ds| == |rows|
    ensures forall i :: 0 <= i < |rows| ==> ds[i] == Delegation(rows[i].validator, rows[i].shares, Text(Value(rows[i].amount)))
  {
    seq(|rows|, i requires 0 <= i < |rows| => Delegation(rows[i].validator, rows[i].shares, Text(Value(rows[i].amount))))
  }

  /** An amount that belongs to one validator. */
  datatype Item = Item(validator: string, amount: nat)

  function Total(items: seq<Item>): nat {
    if items == [] then 0 else Total(items[..|items| - 1]) + items[|items| - 1].amount
  }

  function With(items: seq<Item>, v: string): nat {
    if items == [] then 0
    else With(items[..|items| - 1], v) + if items[|items| - 1].validator == v then items[|items| - 1].amount else 0
  }

  function Balances(ds: seq<Delegation>): (items: seq<Item>)
    ensures |items| == |ds| && forall i :: 0 <= i < |ds| ==> items[i] == Item(ds[i].validator, Value(ds[i].balance))
  {
    seq(|ds|, i requires 0 <= i < |ds| => Item(ds[i].validator, Value(ds[i].balance)))
  }

  function Maturing(us: seq<Unbonding>): (items: seq<Item>)
    ensures |items| == |us| && forall i :: 0 <= i < |us| ==> items[i] == Item(us[i].validator, Value(us[i].balance))
  {
    seq(|us|, i requires 0 <= i < |us| => Item(us[i].validator, Value(us[i].balance)))
  }

  /** A held zero-balance entry still consumes a staking slot. */
  function Slots(us: seq<Unbonding>): (items: seq<Item>)
    ensures |items| == |us| && forall i :: 0 <= i < |us| ==> items[i] == Item(us[i].validator, 1)
  {
    seq(|us|, i requires 0 <= i < |us| => Item(us[i].validator, 1))
  }

  // ----- string order --------------------------------------------------------------------------------

  /** Byte-wise text order, as sort.Strings uses it on ASCII. */
  predicate Less(a: string, b: string) {
    b != "" && (a == "" || a[0] < b[0] || (a[0] == b[0] && Less(a[1..], b[1..])))
  }

  lemma {:induction false} LessIsTotal(a: string, b: string)
    ensures Less(a, b) || a == b || Less(b, a)
    ensures !(Less(a, b) && Less(b, a)) && !Less(a, a)
  {
    if a != "" && b != "" && a[0] == b[0] {
      LessIsTotal(a[1..], b[1..]);
      assert a == [a[0]] + a[1..] && b == [b[0]] + b[1..];
    }
    if a != "" { LessIsTotal(a[1..], a[1..]); }
  }

  lemma {:induction false} LessIsTransitive(a: string, b: string, c: string)
    requires Less(a, b) && Less(b, c)
    ensures Less(a, c)
  {
    if a != "" && a[0] == b[0] == c[0] { LessIsTransitive(a[1..], b[1..], c[1..]); }
  }

  predicate AscendingText(vs: seq<string>) {
    forall i, j :: 0 <= i < j < |vs| ==> Less(vs[i], vs[j])
  }

  /** Sorts a set of names; a name already larger than the rest goes last. */
  method SortedNames(names: set<string>) returns (vs: seq<string>)
    ensures AscendingText(vs) && (set v | v in vs) == names
  {
    vs := [];
    var rest := names;
    while rest != {}
      invariant AscendingText(vs) && rest <= names && (set v | v in vs) == names - rest
      decreases |rest|
    {
      var name :| name in rest;
      var at := 0;
      while at < |vs| && Less(vs[at], name)
        invariant 0 <= at <= |vs| && forall i :: 0 <= i < at ==> Less(vs[i], name)
      {
        at := at + 1;
      }
      InsertName(vs, name, at);
      vs := vs[..at] + [name] + vs[at..];
      rest := rest - {name};
    }
  }

  lemma {:induction false} InsertName(vs: seq<string>, name: string, at: nat)
    requires AscendingText(vs) && at <= |vs| && name !in vs
    requires forall i :: 0 <= i < at ==> Less(vs[i], name)
    requires at < |vs| ==> !Less(vs[at], name)
    ensures AscendingText(vs[..at] + [name] + vs[at..])
    ensures (set v | v in vs[..at] + [name] + vs[at..]) == (set v | v in vs) + {name}
  {
    var longer := vs[..at] + [name] + vs[at..];
    if at < |vs| { LessIsTotal(vs[at], name); }
    forall i | at <= i < |vs| ensures Less(name, vs[i]) {
      if i > at { LessIsTransitive(name, vs[at], vs[i]); }
    }
    assert vs == vs[..at] + vs[at..];
    forall v ensures v in longer <==> v in vs || v == name { }
  }

  /** Snapshot.Validators: both sides of a running redelegation are exposed. */
  function Validators(s: Snapshot): set<string> {
    (set d | d in s.delegations :: d.validator) + (set u | u in s.unbondings :: u.validator)
    + (set r | r in s.redelegations :: r.source) + (set r | r in s.redelegations :: r.destination)
  }

  // ----- the split over validators -----------------------------------------------------------------------

  datatype PositionTotal = PositionTotal(validator: string, stake: Stake)

  function StakeWith(s: Snapshot, v: string): Stake {
    Stake(With(Balances(s.delegations), v), With(Maturing(s.unbondings), v), With(Slots(s.unbondings), v))
  }

  /** The validators with a delegation or an unbonding entry. */
  function Holders(s: Snapshot): set<string> {
    (set d | d in s.delegations :: d.validator) + (set u | u in s.unbondings :: u.validator)
  }

  function Sum(ps: seq<PositionTotal>): Stake {
    if ps == [] then Stake(0, 0, 0)
    else
      var rest, last := Sum(ps[..|ps| - 1]), ps[|ps| - 1].stake;
      Stake(rest.bonded + last.bonded, rest.unbonding + last.unbonding, rest.entries + last.entries)
  }

  /** One strictly ascending position per validator that holds anything, zero-balance
      entries included, each with the stake of that validator alone. */
  ghost predicate Splits(ps: seq<PositionTotal>, s: Snapshot) {
    && (forall i, j :: 0 <= i < j < |ps| ==> Less(ps[i].validator, ps[j].validator))
    && (set p | p in ps :: p.validator) == Holders(s)
    && (forall p :: p in ps ==> p.stake == StakeWith(s, p.validator))
  }

  predicate DistinctDelegations(ds: seq<Delegation>) {
    forall i, j :: 0 <= i < j < |ds| ==> ds[i].validator != ds[j].validator
  }

  /** What the split demands of a snapshot. */
  predicate Divisible(s: Snapshot) {
    && SoundDelegations(s.delegations)
    && (forall u :: u in s.unbondings ==> IsNatural(u.balance))
    && s.bonded == Text(Total(Balances(s.delegations))) && s.unbonding == Text(Total(Maturing(s.unbondings)))
  }

  // ----- sums over the split --------------------------------------------------------------------------------

  function SumOver(vs: seq<string>, items: seq<Item>): nat {
    if vs == [] then 0 else SumOver(vs[..|vs| - 1], items) + With(items, vs[|vs| - 1])
  }

  lemma {:induction false} LastIsNew(vs: seq<string>)
    requires vs != [] && AscendingText(vs)
    ensures vs[|vs| - 1] !in vs[..|vs| - 1]
  {
    forall i | 0 <= i < |vs| - 1 ensures vs[i] != vs[|vs| - 1] { LessIsTotal(vs[i], vs[|vs| - 1]); }
  }

  lemma {:induction false} OneMoreItem(vs: seq<string>, items: seq<Item>, last: Item)
    requires AscendingText(vs)
    ensures SumOver(vs, items + [last]) == SumOver(vs, items) + if last.validator in vs then last.amount else 0
  {
    assert (items + [last])[..|items|] == items;
    if vs != [] {
      var init, v := vs[..|vs| - 1], vs[|vs| - 1];
      OneMoreItem(init, items, last);
      LastIsNew(vs);
      assert last.validator in vs <==> last.validator in init || last.validator == v;
    }
  }

  lemma {:induction false} SumOfNothing(vs: seq<string>)
    ensures SumOver(vs, []) == 0
  {
    if vs != [] { SumOfNothing(vs[..|vs| - 1]); }
  }

  /** Grouping over distinct validators loses and repeats nothing. */
  lemma {:induction false} GroupingKeepsTotal(vs: seq<string>, items: seq<Item>)
    requires AscendingText(vs) && forall item :: item in items ==> item.validator in vs
    ensures SumOver(vs, items) == Total(items)
  {
    if items == [] {
      SumOfNothing(vs);
    } else {
      var init, last := items[..|items| - 1], items[|items| - 1];
      GroupingKeepsTotal(vs, init);
      OneMoreItem(vs, init, last);
      assert items == init + [last];
    }
  }

  function Names(ps: seq<PositionTotal>): (vs: seq<string>)
    ensures |vs| == |ps| && forall i :: 0 <= i < |ps| ==> vs[i] == ps[i].validator
  {
    seq(|ps|, i requires 0 <= i < |ps| => ps[i].validator)
  }

  lemma {:induction false} SumByName(ps: seq<PositionTotal>, s: Snapshot)
    requires forall p :: p in ps ==> p.stake == StakeWith(s, p.validator)
    ensures Sum(ps) == Stake(SumOver(Names(ps), Balances(s.delegations)), SumOver(Names(ps), Maturing(s.unbondings)),
                             SumOver(Names(ps), Slots(s.unbondings)))
  {
    if ps != [] {
      SumByName(ps[..|ps| - 1], s);
      assert Names(ps)[..|ps| - 1] == Names(ps[..|ps| - 1]);
    }
  }

  lemma {:induction false} SlotsCount(us: seq<Unbonding>)
    ensures Total(Slots(us)) == |us|
  {
    if us != [] {
      SlotsCount(us[..|us| - 1]);
      assert Slots(us)[..|us| - 1] == Slots(us[..|us| - 1]);
    }
  }

  lemma {:induction false} HolderIsNamed(ps: seq<PositionTotal>, s: Snapshot, v: string)
    requires Splits(ps, s) && v in Holders(s)
    ensures v in Names(ps)
  {
    var held := set p | p in ps :: p.validator;
    assert v in held;
    var p :| p in ps && p.validator == v;
    var i :| 0 <= i < |ps| && ps[i] == p;
    assert Names(ps)[i] == v;
  }

  lemma {:induction false} ItemsAreNamed(ps: seq<PositionTotal>, s: Snapshot)
    requires Splits(ps, s)
    ensures forall i :: 0 <= i < |s.delegations| ==> s.delegations[i].validator in Names(ps)
    ensures forall i :: 0 <= i < |s.unbondings| ==> s.unbondings[i].validator in Names(ps)
  {
    forall i | 0 <= i < |s.delegations| ensures s.delegations[i].validator in Names(ps) {
      assert s.delegations[i] in s.delegations;
      HolderIsNamed(ps, s, s.delegations[i].validator);
    }
    forall i | 0 <= i < |s.unbondings| ensures s.unbondings[i].validator in Names(ps) {
      assert s.unbondings[i] in s.unbondings;
      HolderIsNamed(ps, s, s.unbondings[i].validator);
    }
  }

  /** The bonded, unbonding and entry counts of a split sum to the whole address. */
  lemma {:induction false} SplitSumsToTotals(ps: seq<PositionTotal>, s: Snapshot)
    requires Splits(ps, s)
    ensures Sum(ps) == Stake(Total(Balances(s.delegations)), Total(Maturing(s.unbondings)), |s.unbondings|)
  {
    SumByName(ps, s);
    ItemsAreNamed(ps, s);
    GroupingKeepsTotal(Names(ps), Balances(s.delegations));
    GroupingKeepsTotal(Names(ps), Maturing(s.unbondings));
    GroupingKeepsTotal(Names(ps), Slots(s.unbondings));
    SlotsCount(s.unbondings);
  }

  // ----- positionTotals -------------------------------------------------------------------------------------------

  /** The first `n` delegations and `m` unbonding entries. */
  function Part(s: Snapshot, n: nat, m: nat): Snapshot
    requires n <= |s.delegations| && m <= |s.unbondings|
  {
    s.(delegations := s.delegations[..n], unbondings := s.unbondings[..m])
  }

  ghost predicate Grouped(table: map<string, Stake>, s: Snapshot) {
    && table.Keys == Holders(s)
    && (forall v :: v in table ==> table[v] == StakeWith(s, v))
  }

  function Get(table: map<string, Stake>, v: string): Stake {
    if v in table then table[v] else Stake(0, 0, 0)
  }

  lemma {:induction false} WithNone(items: seq<Item>, v: string)
    requires forall item :: item in items ==> item.validator != v
    ensures With(items, v) == 0
  {
    if items != [] { WithNone(items[..|items| - 1], v); }
  }

  lemma {:induction false} GroupedGet(table: map<string, Stake>, s: Snapshot, v: string)
    requires Grouped(table, s)
    ensures Get(table, v) == StakeWith(s, v)
    ensures (forall d :: d in s.delegations ==> d.validator != v) ==> Get(table, v).bonded == 0
  {
    if forall d :: d in s.delegations ==> d.validator != v { WithNone(Balances(s.delegations), v); }
    if v !in table {
      assert v !in Holders(s);
      WithNone(Balances(s.delegations), v);
      WithNone(Maturing(s.unbondings), v);
      WithNone(Slots(s.unbondings), v);
    }
  }

  lemma {:induction false} StakeAfterDelegation(s: Snapshot, d: Delegation, v: string)
    requires With(Balances(s.delegations), d.validator) == 0
    ensures StakeWith(s.(delegations := s.delegations + [d]), v)
         == if v == d.validator then StakeWith(s, v).(bonded := Value(d.balance)) else StakeWith(s, v)
  {
    var ds := s.delegations + [d];
    assert Balances(ds)[..|ds| - 1] == Balances(s.delegations);
  }

  /** The source overwrites the bonded amount; for a new validator that is adding it. */
  function Bond(table: map<string, Stake>, d: Delegation): map<string, Stake> {
    table[d.validator := Get(table, d.validator).(bonded := Value(d.balance))]
  }

  lemma {:induction false} GroupDelegation(table: map<string, Stake>, s: Snapshot, d: Delegation)
    requires Grouped(table, s) && forall e :: e in s.delegations ==> e.validator != d.validator
    ensures Grouped(Bond(table, d), s.(delegations := s.delegations + [d]))
  {
    var t, later := s.(delegations := s.delegations + [d]), Bond(table, d);
    GroupedGet(table, s, d.validator);
    assert Holders(t) == Holders(s) + {d.validator};
    forall v | v in later ensures later[v] == StakeWith(t, v) { StakeAfterDelegation(s, d, v); }
  }

  function OneMore(stake: Stake, u: Unbonding): Stake {
    Stake(stake.bonded, stake.unbonding + Value(u.balance), stake.entries + 1)
  }

  lemma {:induction false} StakeAfterUnbonding(s: Snapshot, u: Unbonding, v: string)
    ensures StakeWith(s.(unbondings := s.unbondings + [u]), v)
         == if v == u.validator then OneMore(StakeWith(s, v), u) else StakeWith(s, v)
  {
    var us := s.unbondings + [u];
    assert Maturing(us)[..|us| - 1] == Maturing(s.unbondings);
    assert Slots(us)[..|us| - 1] == Slots(s.unbondings);
  }

  lemma {:induction false} GroupUnbonding(table: map<string, Stake>, s: Snapshot, u: Unbonding)
    requires Grouped(table, s)
    ensures Grouped(table[u.validator := OneMore(Get(table, u.validator), u)], s.(unbondings := s.unbondings + [u]))
  {
    var t, later := s.(unbondings := s.unbondings + [u]), table[u.validator := OneMore(Get(table, u.validator), u)];
    GroupedGet(table, s, u.validator);
    assert Holders(t) == Holders(s) + {u.validator};
    forall v | v in later ensures later[v] == StakeWith(t, v) { StakeAfterUnbonding(s, u, v); }
  }

  /** Groups one position per validator; fails exactly on an indivisible snapshot. */
  method PositionTotals(s: Snapshot) returns (r: Result<seq<PositionTotal>>)
    ensures r.Ok? <==> Divisible(s)
    ensures r.Ok? ==> Splits(r.value, s)
  {
    var grouped := GroupDelegations(s);
    if grouped.Err? { return Err; }
    grouped := GroupUnbondings(s, grouped.value);
    if grouped.Err? { return Err; }
    var table := grouped.value;
    assert Part(s, |s.delegations|, |s.unbondings|) == s;
    var names := SortedNames(table.Keys);
    var ps: seq<PositionTotal> := [];
    var bonded, unbonding := 0, 0;
    for i := 0 to |names|
      invariant |ps| == i && forall j :: 0 <= j < i ==> ps[j] == PositionTotal(names[j], StakeWith(s, names[j]))
      invariant bonded == Sum(ps).bonded && unbonding == Sum(ps).unbonding
    {
      var p := PositionTotal(names[i], table[names[i]]);
      assert (ps + [p])[..i] == ps;
      bonded := bonded + p.stake.bonded;
      unbonding := unbonding + p.stake.unbonding;
      ps := ps + [p];
    }
    NamedSplit(ps, names, s);
    SplitSumsToTotals(ps, s);
    if Text(bonded) != s.bonded || Text(unbonding) != s.unbonding { return Err; }
    r := Ok(ps);
  }

  lemma {:induction false} NamedSplit(ps: seq<PositionTotal>, names: seq<string>, s: Snapshot)
    requires AscendingText(names) && (set v | v in names) == Holders(s)
    requires |ps| == |names| && forall j :: 0 <= j < |ps| ==> ps[j] == PositionTotal(names[j], StakeWith(s, names[j]))
    ensures Splits(ps, s)
  {
    var held, named := (set p | p in ps :: p.validator), (set x | x in names);
    forall v ensures v in held <==> v in named {
      if v in names { var j :| 0 <= j < |names| && names[j] == v; assert ps[j] in ps; }
    }
  }

  predicate SoundDelegations(ds: seq<Delegation>) {
    DistinctDelegations(ds) && forall i :: 0 <= i < |ds| ==> IsNatural(ds[i].balance)
  }

  /** One more delegation is sound iff its validator is new and its balance a natural. */
  lemma {:induction false} DelegationIsNew(s: Snapshot, i: nat)
    requires i < |s.delegations| && SoundDelegations(s.delegations[..i])
    ensures var d, prefix := s.delegations[i], s.delegations[..i];
            && (SoundDelegations(prefix + [d]) <==> d.validator !in Holders(Part(s, i, 0)) && IsNatural(d.balance))
            && (d.validator !in Holders(Part(s, i, 0)) ==> forall e :: e in prefix ==> e.validator != d.validator)
    ensures SoundDelegations(s.delegations) ==> SoundDelegations(s.delegations[..i] + [s.delegations[i]])
  {
    var prefix, d := s.delegations[..i], s.delegations[i];
    assert prefix + [d] == s.delegations[..i + 1];
    if d.validator in Holders(Part(s, i, 0)) {
      var e :| e in prefix && e.validator == d.validator;
      var j :| 0 <= j < i && prefix[j] == e;
      assert (prefix + [d])[j].validator == (prefix + [d])[i].validator;
    } else {
      assert forall e :: e in prefix ==> e.validator in Holders(Part(s, i, 0));
    }
    assert (prefix + [d])[i] == d;
  }

  lemma {:induction false} GroupOneMore(table: map<string, Stake>, s: Snapshot, i: nat)
    requires i < |s.delegations| && SoundDelegations(s.delegations[..i]) && Grouped(table, Part(s, i, 0))
    requires s.delegations[i].validator !in Holders(Part(s, i, 0)) && IsNatural(s.delegations[i].balance)
    ensures SoundDelegations(s.delegations[..i + 1]) && Grouped(Bond(table, s.delegations[i]), Part(s, i + 1, 0))
  {
    DelegationIsNew(s, i);
    assert s.delegations[..i + 1] == s.delegations[..i] + [s.delegations[i]];
    GroupDelegation(table, Part(s, i, 0), s.delegations[i]);
  }

  method GroupDelegations(s: Snapshot) returns (r: Result<map<string, Stake>>)
    ensures r.Ok? <==> SoundDelegations(s.delegations)
    ensures r.Ok? ==> Grouped(r.value, Part(s, |s.delegations|, 0))
  {
    var table: map<string, Stake> := map[];
    var seen: set<string> := {};
    for i := 0 to |s.delegations|
      invariant SoundDelegations(s.delegations[..i]) && seen == table.Keys && Grouped(table, Part(s, i, 0))
    {
      var d := s.delegations[i];
      DelegationIsNew(s, i);
      if d.validator in seen || !IsNatural(d.balance) { return Err; }
      GroupOneMore(table, s, i);
      seen := seen + {d.validator};
      table := Bond(table, d);
    }
    assert s.delegations[..|s.delegations|] == s.delegations;
    r := Ok(table);
  }

  method GroupUnbondings(s: Snapshot, start: map<string, Stake>) returns (r: Result<map<string, Stake>>)
    requires Grouped(start, Part(s, |s.delegations|, 0))
    ensures r.Ok? <==> forall u :: u in s.unbondings ==> IsNatural(u.balance)
    ensures r.Ok? ==> Grouped(r.value, Part(s, |s.delegations|, |s.unbondings|))
  {
    var table, n := start, |s.delegations|;
    for i := 0 to |s.unbondings|
      invariant forall j :: 0 <= j < i ==> IsNatural(s.unbondings[j].balance)
      invariant Grouped(table, Part(s, n, i))
    {
      var u := s.unbondings[i];
      assert s.unbondings[..i + 1] == s.unbondings[..i] + [u];
      if !IsNatural(u.balance) { assert u in s.unbondings; return Err; }
      GroupUnbonding(table, Part(s, n, i), u);
      assert Part(s, n, i + 1) == Part(s, n, i).(unbondings := Part(s, n, i).unbondings + [u]);
      table := table[u.validator := OneMore(Get(table, u.validator), u)];
    }
    r := Ok(table);
  }
}
