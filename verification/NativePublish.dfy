/** Publishing a fetched snapshot (staking/store.go): what is checked before the guard. */
module NativePublish {
  import opened EventOrder
  import opened NativeEvidence
  import opened NativeFetch
  import opened NativeSnapshot
  import opened Decimal

  /** A snapshot that is complete and adds up. */
  predicate WellFormed(s: Snapshot) {
    && s.height > 0 && ValidAddress(s.address, ACCOUNT) && IsNatural(s.bonded) && IsNatural(s.unbonding)
    && (forall v :: v in Validators(s) ==> ValidAddress(v, OPERATOR))
    && Divisible(s)
  }

  /** A malformed snapshot is an error and touches nothing; a well-formed one is accepted iff
      the guard admits its claim, and is then installed as a whole. */
  method PublishSnapshot(store: Store, s: Snapshot) returns (r: Result<bool>)
    modifies store
    ensures r.Ok? <==> WellFormed(s)
    ensures r.Err? ==> store.View() == old(store.View())
    ensures r.Ok? ==> var e := Evidence(s.address, s.height, ClaimFor(s));
                      r.value == Accepts(old(store.View()), e) && store.View() == Published(old(store.View()), e)
  {
    if s.height <= 0 || !ValidAddress(s.address, ACCOUNT) || !IsNatural(s.bonded) || !IsNatural(s.unbonding) { return Err; }
    var names := SortedNames(Validators(s));
    var ok, ids := UniqueAddresses(names, OPERATOR);
    assert forall v :: v in names <==> v in Validators(s) by { assert forall v :: v in names <==> v in (set x | x in names); }
    if !ok { return Err; }
    var claim := ClaimOf(s);
    if claim.Err? { return Err; }
    var accepted := store.Publish(Evidence(s.address, s.height, claim.value));
    r := Ok(accepted);
  }

  lemma {:induction false} FetchedDelegationNames(address: string, rows: seq<DelegationRow>)
    requires DelegationsFit(address, rows)
    ensures forall d :: d in DelegationsOf(rows) ==> ValidAddress(d.validator, OPERATOR)
  {
    if rows != [] {
      var init := rows[..|rows| - 1];
      FetchedDelegationNames(address, init);
      assert DelegationsOf(rows) == DelegationsOf(init) + [DelegationsOf(rows)[|init|]];
    }
  }

  lemma {:induction false} FetchedUnbondingNames(address: string, height: int, rows: seq<UnbondingRow>)
    requires UnbondingsFit(address, height, rows)
    ensures forall u :: u in UnbondingsOf(rows) ==> ValidAddress(u.validator, OPERATOR)
  {
    if rows != [] { FetchedUnbondingNames(address, height, rows[..|rows| - 1]); }
  }

  lemma {:induction false} FetchedRedelegationNames(address: string, height: int, rows: seq<RedelegationRow>)
    requires RedelegationsFit(address, height, rows)
    ensures forall r :: r in RedelegationsOf(rows) ==> ValidAddress(r.source, OPERATOR) && ValidAddress(r.destination, OPERATOR)
  {
    if rows != [] { FetchedRedelegationNames(address, height, rows[..|rows| - 1]); }
  }

  /** A fetched snapshot is never malformed. */
  lemma {:induction false} FetchedIsWellFormed(address: string, height: int, limits: Limits, q: Query)
    requires Acceptable(address, height, limits, q)
    ensures WellFormed(SnapshotOf(address, height, q))
  {
    var s := SnapshotOf(address, height, q);
    FetchedSnapshotDivides(address, height, limits, q);
    TextReads(Total(Balances(s.delegations)));
    TextReads(Total(Maturing(s.unbondings)));
    FetchedNames(address, height, q);
  }

  lemma {:induction false} AllAreOperators(s: Snapshot)
    requires forall d :: d in s.delegations ==> ValidAddress(d.validator, OPERATOR)
    requires forall u :: u in s.unbondings ==> ValidAddress(u.validator, OPERATOR)
    requires forall r :: r in s.redelegations ==> ValidAddress(r.source, OPERATOR) && ValidAddress(r.destination, OPERATOR)
    ensures forall v :: v in Validators(s) ==> ValidAddress(v, OPERATOR)
  {
  }

  lemma {:induction false} FetchedNames(address: string, height: int, q: Query)
    requires DelegationsFit(address, q.delegations) && UnbondingsFit(address, height, q.unbondings)
    requires RedelegationsFit(address, height, q.redelegations)
    ensures forall v :: v in Validators(SnapshotOf(address, height, q)) ==> ValidAddress(v, OPERATOR)
  {
    FetchedDelegationNames(address, q.delegations);
    FetchedUnbondingNames(address, height, q.unbondings);
    FetchedRedelegationNames(address, height, q.redelegations);
    AllAreOperators(SnapshotOf(address, height, q));
  }
}
