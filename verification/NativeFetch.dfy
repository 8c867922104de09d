/** Accumulating one address's query into a snapshot under a pair and entry budget
    (staking/snapshot.go), and the claim that snapshot stands for. */
module NativeFetch {
  import opened Decimal
  import opened EventOrder
  import opened NativeEvidence
  import opened NativeSnapshot

  // ----- the budget -------------------------------------------------------------------------

  datatype PairKey = Bond(validator: string) | Unbond(validator: string) | Move(source: string, destination: string)

  /** The text under which the budget files a pair. */
  function KeyText(key: PairKey): string { Kind(key) + Pair(key) }

  function Kind(key: PairKey): string {
    match key
    case Bond(_) => "d/"
    case Unbond(_) => "u/"
    case Move(_, _) => "r/"
  }

  function Pair(key: PairKey): string {
    match key
    case Bond(v) => v
    case Unbond(v) => v
    case Move(s, d) => s + "/" + d
  }

  predicate ValidKey(key: PairKey) {
    match key
    case Bond(v) => ValidAddress(v, OPERATOR)
    case Unbond(v) => ValidAddress(v, OPERATOR)
    case Move(s, d) => ValidAddress(s, OPERATOR) && ValidAddress(d, OPERATOR)
  }

  lemma {:induction false} NoSlash(v: string)
    requires ValidAddress(v, OPERATOR)
    ensures forall i :: 0 <= i < |v| ==> v[i] != '/'
  {
    assert v[..|OPERATOR|] == OPERATOR;
    forall i | 0 <= i < |OPERATOR| ensures v[i] != '/' { assert v[..|OPERATOR|][i] == OPERATOR[i]; }
  }

  function Slash(t: string): nat {
    if t == "" || t[0] == '/' then 0 else 1 + Slash(t[1..])
  }

  lemma {:induction false} SlashFollows(a: string, x: string)
    requires forall i :: 0 <= i < |a| ==> a[i] != '/'
    ensures Slash(a + "/" + x) == |a|
  {
    if a != "" {
      assert (a + "/" + x)[1..] == a[1..] + "/" + x;
      SlashFollows(a[1..], x);
    }
  }

  lemma {:induction false} SplitsAtSlash(a: string, x: string, b: string, y: string)
    requires (forall i :: 0 <= i < |a| ==> a[i] != '/') && forall i :: 0 <= i < |b| ==> b[i] != '/'
    requires a + "/" + x == b + "/" + y
    ensures a == b && x == y
  {
    SlashFollows(a, x);
    SlashFollows(b, y);
    SplitsAt(a + "/", x, b + "/", y);
    assert a == (a + "/")[..|a|] && b == (b + "/")[..|b|];
  }

  /** Texts of valid pairs collide only for the same pair: no address holds a slash. */
  lemma {:induction false} KeyTextIsInjective(k: PairKey, l: PairKey)
    requires ValidKey(k) && ValidKey(l) && KeyText(k) == KeyText(l)
    ensures k == l
  {
    SplitsAt(Kind(k), Pair(k), Kind(l), Pair(l));
    assert Kind(k)[0] == Kind(l)[0];
    if k.Move? {
      NoSlash(k.source);
      NoSlash(l.source);
      SplitsAtSlash(k.source, k.destination, l.source, l.destination);
    }
  }

  lemma {:induction false} SplitsAt(a: string, x: string, b: string, y: string)
    requires |a| == |b| && a + x == b + y
    ensures a == b && x == y
  {
    var t, u := a + x, b + y;
    assert a == t[..|a|] && b == u[..|a|] && x == t[|a|..] && y == u[|a|..];
  }

  class Budget {
    const limits: Limits
    var pairs: set<PairKey>
    var ids: set<nat>
    var entries: int

    constructor (limits: Limits)
      ensures this.limits == limits && pairs == {} && ids == {} && entries == 0
    {
      this.limits, pairs, ids, entries := limits, {}, {}, 0;
    }

    method Pair(key: PairKey) returns (ok: bool)
      modifies `pairs
      ensures pairs == old(pairs) + {key}
      ensures ok <==> key !in old(pairs) && |pairs| <= limits.maxPairs
    {
      ok := key !in pairs;
      pairs := pairs + {key};
      ok := ok && |pairs| <= limits.maxPairs;
    }

    /** Zero denotes an entry older than identifiers, which repeats freely. */
    method Entry(id: nat) returns (ok: bool)
      modifies `ids, `entries
      ensures entries == old(entries) + 1
      ensures ok <==> entries <= limits.maxEntries && (id == 0 || id !in old(ids))
      ensures ok ==> ids == if id == 0 then old(ids) else old(ids) + {id}
    {
      entries := entries + 1;
      if entries > limits.maxEntries { return false; }
      if id != 0 {
        if id in ids { return false; }
        ids := ids + {id};
      }
      ok := true;
    }

    /** The budget has admitted exactly these identifiers, one per entry. */
    ghost predicate Admitted(read: seq<nat>)
      reads this
    {
      && entries == |read| && ids == (set id | id in read && id != 0) && DistinctIds(read)
      && (read != [] ==> |read| <= limits.maxEntries)
    }
  }

  predicate DistinctIds(ids: seq<nat>) {
    forall i, j :: 0 <= i < j < |ids| && ids[i] != 0 ==> ids[i] != ids[j]
  }

  lemma {:induction false} OneMoreId(read: seq<nat>, id: nat)
    requires DistinctIds(read)
    ensures DistinctIds(read + [id]) <==> id == 0 || id !in read
    ensures (set x | x in read + [id] && x != 0) == (set x | x in read && x != 0) + if id == 0 then {} else {id}
  {
    if id != 0 && id in read {
      var i :| 0 <= i < |read| && read[i] == id;
      assert (read + [id])[i] == (read + [id])[|read|];
    }
  }

  lemma {:induction false} PrefixDistinct(ids: seq<nat>, more: seq<nat>)
    requires DistinctIds(ids + more)
    ensures DistinctIds(ids)
  {
    assert forall i :: 0 <= i < |ids| ==> (ids + more)[i] == ids[i];
  }

  function IdsOf(entries: seq<EntryRow>): (ids: seq<nat>)
    ensures |ids| == |entries| && forall i :: 0 <= i < |entries| ==> ids[i] == entries[i].id
  {
    seq(|entries|, i requires 0 <= i < |entries| => entries[i].id)
  }

  // ----- what a query must satisfy ----------------------------------------------------------------

  /** Every delegation fits and no validator repeats. */
  predicate DelegationsFit(address: string, rows: seq<DelegationRow>) {
    rows == [] ||
    (var init, last := rows[..|rows| - 1], rows[|rows| - 1];
     DelegationsFit(address, init) && DelegationFits(address, last) && Bond(last.validator) !in BondKeys(init))
  }

  function BondKeys(rows: seq<DelegationRow>): set<PairKey> {
    set i | 0 <= i < |rows| :: Bond(rows[i].validator)
  }

  predicate UnbondingsFit(address: string, height: int, rows: seq<UnbondingRow>) {
    rows == [] ||
    (var init, last := rows[..|rows| - 1], rows[|rows| - 1];
     && UnbondingsFit(address, height, init) && IsPair(address, last.delegator, last.validator)
     && Unbond(last.validator) !in UnbondKeys(init) && EntriesFit(height, last.entries))
  }

  function UnbondKeys(rows: seq<UnbondingRow>): set<PairKey> {
    set i | 0 <= i < |rows| :: Unbond(rows[i].validator)
  }

  function UnbondIds(rows: seq<UnbondingRow>): seq<nat> {
    if rows == [] then [] else UnbondIds(rows[..|rows| - 1]) + IdsOf(rows[|rows| - 1].entries)
  }

  predicate RedelegationsFit(address: string, height: int, rows: seq<RedelegationRow>) {
    rows == [] ||
    (var init, last := rows[..|rows| - 1], rows[|rows| - 1];
     && RedelegationsFit(address, height, init) && IsMove(address, last)
     && Move(last.source, last.destination) !in MoveKeys(init)
     && MovesFit(height, last.entries))
  }

  predicate IsMove(address: string, r: RedelegationRow) {
    IsPair(address, r.delegator, r.source) && ValidAddress(r.destination, OPERATOR) && r.source != r.destination
  }

  function MoveKeys(rows: seq<RedelegationRow>): set<PairKey> {
    set i | 0 <= i < |rows| :: Move(rows[i].source, rows[i].destination)
  }

  function MoveIds(rows: seq<RedelegationRow>): seq<nat> {
    if rows == [] then [] else MoveIds(rows[..|rows| - 1]) + IdsOf(rows[|rows| - 1].entries)
  }

  /** A query that yields a snapshot: well-formed, without repeated pairs or identifiers,
      and within the limits. */
  predicate Acceptable(address: string, height: int, limits: Limits, q: Query) {
    && height > 0 && limits.pageSize > 0 && limits.maxPairs > 0 && limits.maxEntries > 0
    && ValidAddress(address, ACCOUNT)
    && DelegationsFit(address, q.delegations)
    && UnbondingsFit(address, height, q.unbondings)
    && RedelegationsFit(address, height, q.redelegations)
    && |q.delegations| + |q.unbondings| + |q.redelegations| <= limits.maxPairs
    && DistinctIds(UnbondIds(q.unbondings) + MoveIds(q.redelegations))
    && |UnbondIds(q.unbondings)| + |MoveIds(q.redelegations)| <= limits.maxEntries
  }

  function SnapshotOf(address: string, height: int, q: Query): Snapshot {
    var ds, us := DelegationsOf(q.delegations), UnbondingsOf(q.unbondings);
    Snapshot(address, height, ds, us, RedelegationsOf(q.redelegations),
             Text(Total(Balances(ds))), Text(Total(Maturing(us))))
  }

  // ----- reading, row by row -----------------------------------------------------------------------

  predicate IdsFit(ids: seq<nat>, limits: Limits) {
    DistinctIds(ids) && (ids != [] ==> |ids| <= limits.maxEntries)
  }

  lemma {:induction false} PrefixIdsFit(ids: seq<nat>, more: seq<nat>, limits: Limits)
    requires IdsFit(ids + more, limits)
    ensures IdsFit(ids, limits)
  {
    PrefixDistinct(ids, more);
  }

  method AdmitEntry(budget: Budget, id: nat, ghost read: seq<nat>) returns (ok: bool)
    requires budget.Admitted(read)
    modifies budget`ids, budget`entries
    ensures ok <==> IdsFit(read + [id], budget.limits)
    ensures ok ==> budget.Admitted(read + [id])
  {
    OneMoreId(read, id);
    assert id != 0 ==> (id in read <==> id in budget.ids);
    ok := budget.Entry(id);
  }

  predicate EntriesFit(height: int, entries: seq<EntryRow>) {
    forall i :: 0 <= i < |entries| ==> UnbondingFits(height, entries[i])
  }

  function UnbondingOf(validator: string, e: EntryRow): Unbonding {
    Unbonding(validator, e, Text(Value(e.balance)))
  }

  method TakeUnbondingEntry(height: int, entries: seq<EntryRow>, j: nat, budget: Budget, ghost read: seq<nat>) returns (ok: bool)
    requires j < |entries| && EntriesFit(height, entries[..j]) && budget.Admitted(read + IdsOf(entries[..j]))
    modifies budget`ids, budget`entries
    ensures ok ==> EntriesFit(height, entries[..j + 1])
    ensures !ok ==> !(EntriesFit(height, entries) && IdsFit(read + IdsOf(entries), budget.limits))
    ensures ok ==> budget.Admitted(read + IdsOf(entries[..j + 1]))
  {
    NextEntry(read, entries, j, budget.limits);
    if !UnbondingFits(height, entries[j]) { return false; }
    ok := AdmitEntry(budget, entries[j].id, read + IdsOf(entries[..j]));
  }

  method ReadUnbondingEntries(validator: string, height: int, entries: seq<EntryRow>, budget: Budget, ghost read: seq<nat>)
    returns (r: Result<seq<Unbonding>>)
    requires budget.Admitted(read)
    modifies budget`ids, budget`entries
    ensures r.Ok? <==> EntriesFit(height, entries) && IdsFit(read + IdsOf(entries), budget.limits)
    ensures r.Ok? ==> r.value == Entries(validator, entries) && budget.Admitted(read + IdsOf(entries))
  {
    var us: seq<Unbonding> := [];
    assert read + IdsOf(entries[..0]) == read;
    for j := 0 to |entries|
      invariant us == Entries(validator, entries[..j])
      invariant EntriesFit(height, entries[..j]) && budget.Admitted(read + IdsOf(entries[..j]))
    {
      var ok := TakeUnbondingEntry(height, entries, j, budget, read);
      if !ok { return Err; }
      us := us + [UnbondingOf(validator, entries[j])];
    }
    assert entries[..|entries|] == entries;
    r := Ok(us);
  }

  lemma {:induction false} NextEntry(read: seq<nat>, entries: seq<EntryRow>, j: nat, limits: Limits)
    requires j < |entries|
    ensures read + IdsOf(entries[..j + 1]) == read + IdsOf(entries[..j]) + [entries[j].id]
    ensures IdsFit(read + IdsOf(entries), limits) ==> IdsFit(read + IdsOf(entries[..j + 1]), limits)
  {
    assert read + IdsOf(entries) == read + IdsOf(entries[..j + 1]) + IdsOf(entries[j + 1..]);
    if IdsFit(read + IdsOf(entries), limits) { PrefixIdsFit(read + IdsOf(entries[..j + 1]), IdsOf(entries[j + 1..]), limits); }
  }

  predicate MovesFit(height: int, entries: seq<EntryRow>) {
    forall i :: 0 <= i < |entries| ==> RedelegationFits(height, entries[i])
  }

  method TakeRedelegationEntry(height: int, entries: seq<EntryRow>, j: nat, budget: Budget, ghost read: seq<nat>) returns (ok: bool)
    requires j < |entries| && MovesFit(height, entries[..j]) && budget.Admitted(read + IdsOf(entries[..j]))
    modifies budget`ids, budget`entries
    ensures ok ==> MovesFit(height, entries[..j + 1])
    ensures !ok ==> !(MovesFit(height, entries) && IdsFit(read + IdsOf(entries), budget.limits))
    ensures ok ==> budget.Admitted(read + IdsOf(entries[..j + 1]))
  {
    NextEntry(read, entries, j, budget.limits);
    if !RedelegationFits(height, entries[j]) { return false; }
    ok := AdmitEntry(budget, entries[j].id, read + IdsOf(entries[..j]));
  }

  function MovesOf(source: string, destination: string, entries: seq<EntryRow>): (rs: seq<Redelegation>)
    ensures |rs| == |entries|
  {
    seq(|entries|, i requires 0 <= i < |entries| => Redelegation(source, destination, entries[i]))
  }

  method ReadRedelegationEntries(row: RedelegationRow, height: int, budget: Budget, ghost read: seq<nat>)
    returns (r: Result<seq<Redelegation>>)
    requires budget.Admitted(read)
    modifies budget`ids, budget`entries
    ensures r.Ok? <==> MovesFit(height, row.entries) && IdsFit(read + IdsOf(row.entries), budget.limits)
    ensures r.Ok? ==> r.value == MovesOf(row.source, row.destination, row.entries)
    ensures r.Ok? ==> budget.Admitted(read + IdsOf(row.entries))
  {
    var rs: seq<Redelegation> := [];
    assert read + IdsOf(row.entries[..0]) == read;
    for j := 0 to |row.entries|
      invariant rs == MovesOf(row.source, row.destination, row.entries[..j])
      invariant MovesFit(height, row.entries[..j]) && budget.Admitted(read + IdsOf(row.entries[..j]))
    {
      var ok := TakeRedelegationEntry(height, row.entries, j, budget, read);
      if !ok { return Err; }
      rs := rs + [Redelegation(row.source, row.destination, row.entries[j])];
    }
    assert row.entries[..|row.entries|] == row.entries;
    r := Ok(rs);
  }

  // ----- prefixes of an acceptable query ---------------------------------------------------------------

  lemma {:induction false} DelegationPrefix(address: string, rows: seq<DelegationRow>, n: nat)
    requires n <= |rows| && DelegationsFit(address, rows)
    ensures DelegationsFit(address, rows[..n])
  {
    if n == |rows| {
      assert rows[..n] == rows;
    } else {
      DelegationPrefix(address, rows[..|rows| - 1], n);
      assert rows[..|rows| - 1][..n] == rows[..n];
    }
  }

  lemma {:induction false} UnbondingPrefix(address: string, height: int, rows: seq<UnbondingRow>, n: nat)
    requires n <= |rows|
    ensures UnbondingsFit(address, height, rows) ==> UnbondingsFit(address, height, rows[..n])
    ensures UnbondIds(rows[..n]) <= UnbondIds(rows)
  {
    if n == |rows| {
      assert rows[..n] == rows;
    } else {
      UnbondingPrefix(address, height, rows[..|rows| - 1], n);
      assert rows[..|rows| - 1][..n] == rows[..n];
    }
  }

  lemma {:induction false} RedelegationPrefix(address: string, height: int, rows: seq<RedelegationRow>, n: nat)
    requires n <= |rows|
    ensures RedelegationsFit(address, height, rows) ==> RedelegationsFit(address, height, rows[..n])
    ensures MoveIds(rows[..n]) <= MoveIds(rows)
  {
    if n == |rows| {
      assert rows[..n] == rows;
    } else {
      RedelegationPrefix(address, height, rows[..|rows| - 1], n);
      assert rows[..|rows| - 1][..n] == rows[..n];
    }
  }

  lemma {:induction false} IdsOfPrefixFit(ids: seq<nat>, whole: seq<nat>, limits: Limits)
    requires ids <= whole && IdsFit(whole, limits)
    ensures IdsFit(ids, limits)
  {
    assert whole == ids + whole[|ids|..];
    PrefixIdsFit(ids, whole[|ids|..], limits);
  }

  // ----- the three passes ----------------------------------------------------------------------------------

  lemma {:induction false} BondedAdds(ds: seq<Delegation>, d: Delegation)
    ensures Total(Balances(ds + [d])) == Total(Balances(ds)) + Value(d.balance)
  {
    assert Balances(ds + [d])[..|ds|] == Balances(ds);
  }

  /** What one more delegation row adds. */
  lemma {:induction false} NextDelegation(address: string, rows: seq<DelegationRow>, i: nat)
    requires i < |rows|
    ensures var d, now, next := rows[i], rows[..i], rows[..i + 1];
            && (DelegationsFit(address, next) <==> DelegationsFit(address, now) && DelegationFits(address, d) && Bond(d.validator) !in BondKeys(now))
            && BondKeys(next) == BondKeys(now) + {Bond(d.validator)}
    ensures DelegationsFit(address, rows) ==> DelegationsFit(address, rows[..i + 1])
  {
    assert rows[..i + 1][..i] == rows[..i];
    if DelegationsFit(address, rows) { DelegationPrefix(address, rows, i + 1); }
  }

  lemma {:induction false} NextDelegationOf(rows: seq<DelegationRow>, i: nat)
    requires i < |rows|
    ensures DelegationsOf(rows[..i + 1])
         == DelegationsOf(rows[..i]) + [Delegation(rows[i].validator, rows[i].shares, Text(Value(rows[i].amount)))]
  {
  }

  method ReadDelegations(address: string, rows: seq<DelegationRow>, budget: Budget) returns (r: Result<seq<Delegation>>, bonded: nat)
    requires budget.pairs == {} && budget.limits.maxPairs > 0
    modifies budget`pairs
    ensures r.Ok? <==> DelegationsFit(address, rows) && |rows| <= budget.limits.maxPairs
    ensures r.Ok? ==> r.value == DelegationsOf(rows) && bonded == Total(Balances(r.value))
    ensures r.Ok? ==> budget.pairs == BondKeys(rows) && |budget.pairs| == |rows|
  {
    var ds: seq<Delegation> := [];
    bonded := 0;
    for i := 0 to |rows|
      invariant DelegationsFit(address, rows[..i]) && i <= budget.limits.maxPairs
      invariant ds == DelegationsOf(rows[..i]) && bonded == Total(Balances(ds))
      invariant budget.pairs == BondKeys(rows[..i]) && |budget.pairs| == i
    {
      var d := rows[i];
      NextDelegation(address, rows, i);
      NextDelegationOf(rows, i);
      if !DelegationFits(address, d) { return Err, 0; }
      var ok := budget.Pair(Bond(d.validator));
      if !ok { return Err, 0; }
      AmountReads(d.amount);
      BondedAdds(ds, Delegation(d.validator, d.shares, CoinAmount(d.amount).value));
      ds := ds + [Delegation(d.validator, d.shares, CoinAmount(d.amount).value)];
      bonded := bonded + Value(d.amount);
    }
    assert rows[..|rows|] == rows;
    r := Ok(ds);
  }

  /** What one more unbonding row adds. */
  lemma {:induction false} NextUnbonding(address: string, height: int, rows: seq<UnbondingRow>, i: nat, limits: Limits)
    requires i < |rows|
    ensures var u, now, next := rows[i], rows[..i], rows[..i + 1];
            && (UnbondingsFit(address, height, next) <==>
                  UnbondingsFit(address, height, now) && IsPair(address, u.delegator, u.validator)
                  && Unbond(u.validator) !in UnbondKeys(now) && EntriesFit(height, u.entries))
            && UnbondKeys(next) == UnbondKeys(now) + {Unbond(u.validator)}
            && UnbondIds(next) == UnbondIds(now) + IdsOf(u.entries)
            && UnbondingsOf(next) == UnbondingsOf(now) + Entries(u.validator, u.entries)
    ensures UnbondingsFit(address, height, rows) ==> UnbondingsFit(address, height, rows[..i + 1])
    ensures IdsFit(UnbondIds(rows), limits) ==> IdsFit(UnbondIds(rows[..i + 1]), limits)
  {
    assert rows[..i + 1][..i] == rows[..i];
    UnbondingPrefix(address, height, rows, i + 1);
    if IdsFit(UnbondIds(rows), limits) { IdsOfPrefixFit(UnbondIds(rows[..i + 1]), UnbondIds(rows), limits); }
  }

  method ReadUnbondingRow(address: string, height: int, u: UnbondingRow, budget: Budget, ghost read: seq<nat>)
    returns (r: Result<seq<Unbonding>>)
    requires budget.Admitted(read)
    modifies budget
    ensures r.Ok? <==> IsPair(address, u.delegator, u.validator) && EntriesFit(height, u.entries)
                       && Unbond(u.validator) !in old(budget.pairs) && |old(budget.pairs)| < budget.limits.maxPairs
                       && IdsFit(read + IdsOf(u.entries), budget.limits)
    ensures r.Ok? ==> r.value == Entries(u.validator, u.entries) && budget.Admitted(read + IdsOf(u.entries))
    ensures r.Ok? ==> budget.pairs == old(budget.pairs) + {Unbond(u.validator)}
  {
    if !IsPair(address, u.delegator, u.validator) { return Err; }
    var ok := budget.Pair(Unbond(u.validator));
    if !ok { return Err; }
    r := ReadUnbondingEntries(u.validator, height, u.entries, budget, read);
  }

  /** The unbonding rows pass after `taken` pairs. */
  predicate UnbondingsPass(address: string, height: int, rows: seq<UnbondingRow>, taken: nat, limits: Limits) {
    UnbondingsFit(address, height, rows) && taken + |rows| <= limits.maxPairs && IdsFit(UnbondIds(rows), limits)
  }

  /** The next row passes its own checks iff the rows pass up to it. */
  lemma {:induction false} UnbondingDecides(address: string, height: int, rows: seq<UnbondingRow>, i: nat, taken: nat, limits: Limits)
    requires i < |rows| && UnbondingsPass(address, height, rows[..i], taken, limits)
    ensures var u := rows[i];
            (IsPair(address, u.delegator, u.validator) && EntriesFit(height, u.entries) && Unbond(u.validator) !in UnbondKeys(rows[..i])
             && taken + i < limits.maxPairs && IdsFit(UnbondIds(rows[..i]) + IdsOf(u.entries), limits))
            <==> UnbondingsPass(address, height, rows[..i + 1], taken, limits)
    ensures UnbondingsPass(address, height, rows, taken, limits) ==> UnbondingsPass(address, height, rows[..i + 1], taken, limits)
  {
    NextUnbonding(address, height, rows, i, limits);
  }

  /** The budget after the first `i` unbonding rows. */
  ghost predicate UnbondsTaken(budget: Budget, rows: seq<UnbondingRow>, i: nat, bonds: set<PairKey>)
    reads budget
  {
    && i <= |rows| && budget.pairs == bonds + UnbondKeys(rows[..i]) && |budget.pairs| == |bonds| + i
    && budget.Admitted(UnbondIds(rows[..i])) && forall k :: k in bonds ==> k.Bond?
  }

  method TakeUnbonding(address: string, height: int, rows: seq<UnbondingRow>, i: nat, budget: Budget, ghost bonds: set<PairKey>)
    returns (r: Result<seq<Unbonding>>)
    requires i < |rows| && UnbondingsPass(address, height, rows[..i], |bonds|, budget.limits)
    requires UnbondsTaken(budget, rows, i, bonds)
    modifies budget
    ensures r.Ok? ==> UnbondingsPass(address, height, rows[..i + 1], |bonds|, budget.limits)
    ensures r.Err? ==> !UnbondingsPass(address, height, rows, |bonds|, budget.limits)
    ensures r.Ok? ==> UnbondsTaken(budget, rows, i + 1, bonds)
    ensures r.Ok? ==> UnbondingsOf(rows[..i + 1]) == UnbondingsOf(rows[..i]) + r.value
  {
    UnbondingDecides(address, height, rows, i, |bonds|, budget.limits);
    NextUnbonding(address, height, rows, i, budget.limits);
    r := ReadUnbondingRow(address, height, rows[i], budget, UnbondIds(rows[..i]));
  }

  method ReadUnbondings(address: string, height: int, rows: seq<UnbondingRow>, budget: Budget, ghost bonds: set<PairKey>)
    returns (r: Result<seq<Unbonding>>, unbonding: nat)
    requires budget.pairs == bonds && |bonds| <= budget.limits.maxPairs && forall k :: k in bonds ==> k.Bond?
    requires budget.Admitted([])
    modifies budget
    ensures r.Ok? <==> UnbondingsPass(address, height, rows, |bonds|, budget.limits)
    ensures r.Ok? ==> r.value == UnbondingsOf(rows) && unbonding == Total(Maturing(r.value))
    ensures r.Ok? ==> UnbondsTaken(budget, rows, |rows|, bonds)
  {
    var us: seq<Unbonding> := [];
    unbonding := 0;
    assert UnbondsTaken(budget, rows, 0, bonds);
    for i := 0 to |rows|
      invariant UnbondingsPass(address, height, rows[..i], |bonds|, budget.limits)
      invariant us == UnbondingsOf(rows[..i]) && unbonding == Total(Maturing(us))
      invariant UnbondsTaken(budget, rows, i, bonds)
    {
      var more := TakeUnbonding(address, height, rows, i, budget, bonds);
      if more.Err? { return Err, 0; }
      TotalAdds(us, more.value);
      us := us + more.value;
      unbonding := unbonding + Total(Maturing(more.value));
    }
    assert rows[..|rows|] == rows;
    r := Ok(us);
  }

  lemma {:induction false} TotalAdds(a: seq<Unbonding>, b: seq<Unbonding>)
    ensures Total(Maturing(a + b)) == Total(Maturing(a)) + Total(Maturing(b))
  {
    assert Maturing(a + b) == Maturing(a) + Maturing(b);
    TotalAppends(Maturing(a), Maturing(b));
  }

  lemma {:induction false} TotalAppends(a: seq<Item>, b: seq<Item>)
    ensures Total(a + b) == Total(a) + Total(b)
  {
    if b == [] {
      assert a + b == a;
    } else {
      assert (a + b)[..|a + b| - 1] == a + b[..|b| - 1];
      TotalAppends(a, b[..|b| - 1]);
    }
  }

  /** What one more redelegation row adds. */
  lemma {:induction false} NextRedelegation(address: string, height: int, rows: seq<RedelegationRow>, i: nat)
    requires i < |rows|
    ensures var m, now, next := rows[i], rows[..i], rows[..i + 1];
            && (RedelegationsFit(address, height, next) <==>
                  RedelegationsFit(address, height, now) && IsMove(address, m)
                  && Move(m.source, m.destination) !in MoveKeys(now) && MovesFit(height, m.entries))
            && MoveKeys(next) == MoveKeys(now) + {Move(m.source, m.destination)}
            && MoveIds(next) == MoveIds(now) + IdsOf(m.entries)
            && RedelegationsOf(next) == RedelegationsOf(now) + MovesOf(m.source, m.destination, m.entries)
  {
    assert rows[..i + 1][..i] == rows[..i];
  }

  function After(read: seq<nat>, rows: seq<RedelegationRow>): seq<nat> {
    read + MoveIds(rows)
  }

  /** The redelegation rows pass after `taken` pairs and the identifiers `read`. */
  predicate RedelegationsPass(address: string, height: int, rows: seq<RedelegationRow>, taken: nat, read: seq<nat>, limits: Limits) {
    RedelegationsFit(address, height, rows) && taken + |rows| <= limits.maxPairs && IdsFit(After(read, rows), limits)
  }

  lemma {:induction false} RedelegationDecides(address: string, height: int, rows: seq<RedelegationRow>, i: nat, taken: nat,
                                               read: seq<nat>, limits: Limits)
    requires i < |rows| && RedelegationsPass(address, height, rows[..i], taken, read, limits)
    ensures var m := rows[i];
            (IsMove(address, m) && MovesFit(height, m.entries) && Move(m.source, m.destination) !in MoveKeys(rows[..i])
             && taken + i < limits.maxPairs && IdsFit(After(read, rows[..i]) + IdsOf(m.entries), limits))
            <==> RedelegationsPass(address, height, rows[..i + 1], taken, read, limits)
    ensures RedelegationsPass(address, height, rows, taken, read, limits) ==> RedelegationsPass(address, height, rows[..i + 1], taken, read, limits)
    ensures After(read, rows[..i + 1]) == After(read, rows[..i]) + IdsOf(rows[i].entries)
  {
    NextRedelegation(address, height, rows, i);
    assert read + (MoveIds(rows[..i]) + IdsOf(rows[i].entries)) == read + MoveIds(rows[..i]) + IdsOf(rows[i].entries);
    RedelegationPrefix(address, height, rows, i + 1);
    if IdsFit(After(read, rows), limits) { IdsOfPrefixFit(read + MoveIds(rows[..i + 1]), read + MoveIds(rows), limits); }
  }

  method ReadRedelegationRow(address: string, height: int, m: RedelegationRow, budget: Budget, ghost read: seq<nat>)
    returns (r: Result<seq<Redelegation>>)
    requires budget.Admitted(read)
    modifies budget
    ensures r.Ok? <==> IsMove(address, m) && MovesFit(height, m.entries)
                       && Move(m.source, m.destination) !in old(budget.pairs) && |old(budget.pairs)| < budget.limits.maxPairs
                       && IdsFit(read + IdsOf(m.entries), budget.limits)
    ensures r.Ok? ==> r.value == MovesOf(m.source, m.destination, m.entries) && budget.Admitted(read + IdsOf(m.entries))
    ensures r.Ok? ==> budget.pairs == old(budget.pairs) + {Move(m.source, m.destination)}
  {
    if !IsPair(address, m.delegator, m.source) { return Err; }
    if !ValidAddress(m.destination, OPERATOR) || m.source == m.destination { return Err; }
    var ok := budget.Pair(Move(m.source, m.destination));
    if !ok { return Err; }
    r := ReadRedelegationEntries(m, height, budget, read);
  }

  /** The budget after the first `i` redelegation rows. */
  ghost predicate MovesTaken(budget: Budget, rows: seq<RedelegationRow>, i: nat, taken: set<PairKey>, read: seq<nat>)
    reads budget
  {
    && i <= |rows| && budget.pairs == taken + MoveKeys(rows[..i]) && |budget.pairs| == |taken| + i
    && budget.Admitted(After(read, rows[..i])) && forall k :: k in taken ==> !k.Move?
  }

  method TakeRedelegation(address: string, height: int, rows: seq<RedelegationRow>, i: nat, budget: Budget,
                          ghost taken: set<PairKey>, ghost read: seq<nat>) returns (r: Result<seq<Redelegation>>)
    requires i < |rows| && RedelegationsPass(address, height, rows[..i], |taken|, read, budget.limits)
    requires MovesTaken(budget, rows, i, taken, read)
    modifies budget
    ensures r.Ok? ==> RedelegationsPass(address, height, rows[..i + 1], |taken|, read, budget.limits)
    ensures r.Err? ==> !RedelegationsPass(address, height, rows, |taken|, read, budget.limits)
    ensures r.Ok? ==> MovesTaken(budget, rows, i + 1, taken, read)
    ensures r.Ok? ==> RedelegationsOf(rows[..i + 1]) == RedelegationsOf(rows[..i]) + r.value
  {
    RedelegationDecides(address, height, rows, i, |taken|, read, budget.limits);
    NextRedelegation(address, height, rows, i);
    r := ReadRedelegationRow(address, height, rows[i], budget, After(read, rows[..i]));
  }

  method ReadRedelegations(address: string, height: int, rows: seq<RedelegationRow>, budget: Budget, ghost taken: set<PairKey>, ghost read: seq<nat>)
    returns (r: Result<seq<Redelegation>>)
    requires budget.pairs == taken && |taken| <= budget.limits.maxPairs && forall k :: k in taken ==> !k.Move?
    requires budget.Admitted(read)
    modifies budget
    ensures r.Ok? <==> RedelegationsPass(address, height, rows, |taken|, read, budget.limits)
    ensures r.Ok? ==> r.value == RedelegationsOf(rows)
  {
    var rs: seq<Redelegation> := [];
    assert After(read, rows[..0]) == read && MovesTaken(budget, rows, 0, taken, read);
    for i := 0 to |rows|
      invariant rs == RedelegationsOf(rows[..i]) && MovesTaken(budget, rows, i, taken, read)
      invariant RedelegationsPass(address, height, rows[..i], |taken|, read, budget.limits)
    {
      var more := TakeRedelegation(address, height, rows, i, budget, taken, read);
      if more.Err? { return Err; }
      rs := rs + more.value;
    }
    assert rows[..|rows|] == rows;
    r := Ok(rs);
  }

  // ----- the whole query -----------------------------------------------------------------------------------------

  /** Returns a snapshot of every row, or nothing at all. */
  method Fetch(address: string, height: int, limits: Limits, q: Query) returns (r: Result<Snapshot>)
    ensures r.Ok? <==> Acceptable(address, height, limits, q)
    ensures r.Ok? ==> r.value == SnapshotOf(address, height, q)
  {
    if height <= 0 || limits.pageSize <= 0 || limits.maxPairs <= 0 || limits.maxEntries <= 0 { return Err; }
    if !ValidAddress(address, ACCOUNT) { return Err; }
    var budget := new Budget(limits);
    var ds, bonded := ReadDelegations(address, q.delegations, budget);
    if ds.Err? { return Err; }
    ghost var bonds := budget.pairs;
    var us, unbonding := ReadUnbondings(address, height, q.unbondings, budget, bonds);
    PassesDecide(address, height, limits, q, |bonds|);
    if us.Err? { return Err; }
    assert q.unbondings[..|q.unbondings|] == q.unbondings;
    var rs := ReadRedelegations(address, height, q.redelegations, budget, budget.pairs, UnbondIds(q.unbondings));
    if rs.Err? { return Err; }
    r := Ok(Snapshot(address, height, ds.value, us.value, rs.value, Text(bonded), Text(unbonding)));
  }

  lemma {:induction false} PassesDecide(address: string, height: int, limits: Limits, q: Query, bonds: nat)
    requires height > 0 && limits.pageSize > 0 && limits.maxPairs > 0 && limits.maxEntries > 0
    requires ValidAddress(address, ACCOUNT) && DelegationsFit(address, q.delegations) && bonds == |q.delegations|
    ensures Acceptable(address, height, limits, q) <==>
              UnbondingsPass(address, height, q.unbondings, bonds, limits)
              && RedelegationsPass(address, height, q.redelegations, bonds + |q.unbondings|, UnbondIds(q.unbondings), limits)
  {
    if DistinctIds(UnbondIds(q.unbondings) + MoveIds(q.redelegations)) {
      PrefixDistinct(UnbondIds(q.unbondings), MoveIds(q.redelegations));
    }
  }

  // ----- what a fetched snapshot is worth ----------------------------------------------------------------------------

  lemma {:induction false} FetchedDelegations(address: string, rows: seq<DelegationRow>)
    requires DelegationsFit(address, rows)
    ensures SoundDelegations(DelegationsOf(rows))
  {
    if rows != [] {
      var init, last := rows[..|rows| - 1], rows[|rows| - 1];
      FetchedDelegations(address, init);
      AmountReads(last.amount);
      assert DelegationsOf(rows) == DelegationsOf(init) + [DelegationsOf(rows)[|init|]];
      forall i | 0 <= i < |init| ensures init[i].validator != last.validator {
        assert Bond(init[i].validator) in BondKeys(init);
      }
    }
  }

  lemma {:induction false} FetchedUnbondings(address: string, height: int, rows: seq<UnbondingRow>)
    requires UnbondingsFit(address, height, rows)
    ensures forall u :: u in UnbondingsOf(rows) ==> IsNatural(u.balance)
  {
    if rows != [] {
      var last := rows[|rows| - 1];
      FetchedUnbondings(address, height, rows[..|rows| - 1]);
      forall i | 0 <= i < |last.entries| ensures IsNatural(Entries(last.validator, last.entries)[i].balance) {
        AmountReads(last.entries[i].balance);
      }
    }
  }

  /** A fetched snapshot always divides over validators, and its parts sum to its totals. */
  lemma {:induction false} FetchedSnapshotDivides(address: string, height: int, limits: Limits, q: Query)
    requires Acceptable(address, height, limits, q)
    ensures Divisible(SnapshotOf(address, height, q))
  {
    FetchedDelegations(address, q.delegations);
    FetchedUnbondings(address, height, q.unbondings);
  }

  /** What a divisible snapshot claims: totals, the stake with each holder, and exposure. */
  function ClaimFor(s: Snapshot): Claim {
    Claim(Total(Balances(s.delegations)), Total(Maturing(s.unbondings)), map v | v in Holders(s) :: StakeWith(s, v), Validators(s))
  }

  /** The claim that is published, assembled from the split. */
  method ClaimOf(s: Snapshot) returns (r: Result<Claim>)
    ensures r.Ok? <==> Divisible(s)
    ensures r.Ok? ==> Text(r.value.bonded) == s.bonded && Text(r.value.unbonding) == s.unbonding
    ensures r.Ok? ==> r.value.validators == Validators(s) && r.value.positions.Keys == Holders(s) <= r.value.validators
    ensures r.Ok? ==> r.value == ClaimFor(s)
  {
    var ps := PositionTotals(s);
    if ps.Err? { return Err; }
    SplitSumsToTotals(ps.value, s);
    var positions := PositionsOf(ps.value, s);
    r := Ok(Claim(Sum(ps.value).bonded, Sum(ps.value).unbonding, positions, Validators(s)));
  }

  method PositionsOf(ps: seq<PositionTotal>, s: Snapshot) returns (positions: map<string, Stake>)
    requires Splits(ps, s)
    ensures positions == map v | v in Holders(s) :: StakeWith(s, v)
  {
    positions := map[];
    for i := 0 to |ps|
      invariant positions.Keys == set p | p in ps[..i] :: p.validator
      invariant forall v :: v in positions ==> positions[v] == StakeWith(s, v)
    {
      assert ps[..i + 1] == ps[..i] + [ps[i]];
      assert ps[i] in ps;
      positions := positions[ps[i].validator := ps[i].stake];
    }
    assert ps[..|ps|] == ps;
  }
}
