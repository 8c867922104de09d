/** What a block does to the evidence cache before its cursor commits
    (staking/invalidate.go): combined changes, raised requirements, new candidates. */
module NativeInvalidate {
  import opened NativeCoherence
  import opened NativeEvidence
  import opened NativeSnapshot
  import opened StakingChanges

  /** The dirty marks of a block: native addresses and reactors, and what projections need. */
  datatype Marks = Marks(natives: set<string>, reactors: set<string>, addresses: set<string>, owners: set<string>)

  /** Owned addresses that are dirty themselves or belong to a dirty owner. */
  function Candidates(owned: map<string, string>, addresses: set<string>, owners: set<string>): set<string> {
    set a | a in owned && (a in addresses || owned[a] in owners)
  }

  /** The addresses whose requirement rises. */
  function RaisedBy(s: State, t: State): set<string> {
    set a | a in t.rows && (a !in s.rows || s.rows[a].required != t.rows[a].required)
  }

  predicate AllAccounts(addresses: set<string>) {
    forall a :: a in addresses ==> ValidAddress(a, ACCOUNT)
  }

  lemma {:induction false} NoReceipts(s: State, height: nat)
    ensures Received(s, height, {}) == s
  {
    assert Received(s, height, {}).rows == s.rows;
  }

  /** Concerned rows are required at the height or above, old rows keep their evidence, and new
      ones are blank. */
  ghost predicate RowsFollow(before: map<string, Row>, after: map<string, Row>, exposure: set<Exposure>, changes: Changes, height: nat) {
    && (forall a :: Concerns(exposure, changes, a) ==> a in after && after[a].required >= height)
    && (forall a :: a in before ==>
          a in after && SameEvidence(after[a], before[a]) && after[a].required >= before[a].required
          && (!Concerns(exposure, changes, a) ==> after[a] == before[a]))
    && (forall a :: a in after && a !in before ==> Blank(after[a], height))
  }

  lemma {:induction false} InvalidatedMeans(s: State, height: nat, changes: Changes, candidates: set<string>)
    ensures var t := Invalidated(s, height, changes, candidates, {});
            RowsFollow(s.rows, t.rows, s.exposure, changes, height) && forall a :: a in candidates ==> a in t.rows
  {
    var r := Requested(s, height, changes);
    var t := Ensured(r, height, candidates);
    RequestedMeans(s, height, changes);
    NoReceipts(t, height);
    assert CandidatesAdded(r.rows, t.rows, candidates, height);
    RiseThenAdd(s.rows, r.rows, t.rows, s.exposure, changes, candidates, height);
  }

  lemma {:induction false} RiseThenAdd(before: map<string, Row>, between: map<string, Row>, after: map<string, Row>,
                                       exposure: set<Exposure>, changes: Changes, candidates: set<string>, height: nat)
    requires RowsRise(before, between, exposure, changes, height) && CandidatesAdded(between, after, candidates, height)
    ensures RowsFollow(before, after, exposure, changes, height) && forall a :: a in candidates ==> a in after
  {
  }

  /** Rows for the candidates, all or none. */
  method EnsureOwned(store: Store, height: nat, candidates: set<string>) returns (ok: bool)
    requires height > 0
    modifies store`rows
    ensures ok <==> AllAccounts(candidates)
    ensures store.View() == if ok then Ensured(old(store.View()), height, candidates) else old(store.View())
  {
    var names := SortedNames(candidates);
    assert Elements(names) == candidates;
    ok := store.EnsureCandidates(height, names);
  }

  /** One invalidation step of the protocol, with changes that reach whatever the block's own
      ones reached, all addresses it raised marked dirty, and a row for every owned address it
      may concern. An error leaves nothing behind because the caller's transaction is rolled back. */
  method Invalidate(store: Store, chain: string, height: nat, marks: Marks, operators: map<string, string>,
                    owned: map<string, string>, changes: Changes) returns (ok: bool, dirty: set<string>, ghost all: Changes)
    modifies store
    ensures Elements(all.addresses) == Elements(changes.addresses) + marks.natives
    ensures forall truth: Truth, h :: Honest(truth, h, changes) ==> Honest(truth, h, all)
    ensures !ok ==> store.View() == old(store.View())
    ensures ok <==> height > 0 && Valid(all) && AllAccounts(
                      Candidates(owned, marks.addresses + RaisedBy(old(store.View()), Requested(old(store.View()), height, all)), marks.owners))
    ensures ok ==> store.View() == Invalidated(old(store.View()), height, all, Candidates(owned, dirty, marks.owners), {})
    ensures ok ==> forall a :: a in owned && (a in dirty || owned[a] in marks.owners) ==> a in store.rows
    ensures ok ==> RowsFollow(old(store.rows), store.rows, old(store.exposure), all, height)
    ensures ok ==> dirty == marks.addresses + RaisedBy(old(store.View()), Requested(old(store.View()), height, all))
  {
    var before := (store.rows, store.watermarks);
    var combined := Combine(chain, height, marks.natives, marks.reactors, operators, changes);
    all := combined;
    var raised: set<string>;
    ok, raised := store.Request(height, combined);
    if !ok { return ok, {}, all; }
    ghost var requested := store.View();
    dirty := marks.addresses + raised;
    var candidates := Candidates(owned, dirty, marks.owners);
    InvalidatedMeans(old(store.View()), height, all, candidates);
    NoReceipts(Ensured(requested, height, candidates), height);
    if dirty == {} && marks.owners == {} {
      return;
    }
    ok := EnsureOwned(store, height, candidates);
    if !ok {
      store.rows, store.watermarks := before.0, before.1;
    }
  }
}
