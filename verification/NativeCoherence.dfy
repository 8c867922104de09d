/** Every interleaving of block commits with publications of older readings: complete
    evidence is exactly the truth at the cursor. */
module NativeCoherence {
  import opened NativeEvidence
  import opened Positions
  import opened Protocol
  import opened StakingChanges

  /** What the chain really holds, by address and height. */
  type Truth = (string, nat) -> Claim

  predicate Moves(truth: Truth, a: string, k: nat) {
    k > 0 && truth(a, k) != truth(a, k - 1)
  }

  /** The changes of a block name every address whose claim it moves, or a validator the
      address was exposed to just before, or invalidate all exposed addresses. */
  predicate Reaches(changes: Changes, a: string, before: Claim) {
    || a in changes.addresses
    || (exists v :: v in before.validators && v in changes.validators)
    || (changes.allExposed && before.validators != {})
  }

  ghost predicate Honest(truth: Truth, height: nat, changes: Changes) {
    forall a :: Moves(truth, a, height) ==> Reaches(changes, a, truth(a, height - 1))
  }

  // ----- steps -------------------------------------------------------------------------------

  /** One transaction of the writer or of the worker. A revisit is a replayed or seeded
      height that is already indexed; its receipts may be older than the evidence. Between
      blocks the loop may mark the cursor as current, behind or stalled. */
  datatype Step =
    | Commit(changes: Changes, candidates: set<string>, receipts: set<string>, tip: int)
    | Revisit(height: nat, changes: Changes, candidates: set<string>, receipts: set<string>)
    | Publish(evidence: Evidence)
    | RetryLater(address: string, height: nat)
    | SetStatus(current: bool)

  function Invalidated(s: State, height: nat, changes: Changes, candidates: set<string>, receipts: set<string>): State {
    Received(Ensured(Requested(s, height, changes), height, candidates), height, receipts)
  }

  function Next(s: State, step: Step): State {
    match step
    case Commit(changes, candidates, receipts, tip) =>
      Invalidated(s, s.cursor + 1, changes, candidates, receipts).(cursor := s.cursor + 1, current := AtTip(s.cursor + 1, tip))
    case Revisit(height, changes, candidates, receipts) => Invalidated(s, height, changes, candidates, receipts)
    case Publish(e) => Published(s, e)
    case RetryLater(address, height) => Delayed(s, address, height)
    case SetStatus(current) => s.(current := current)
  }

  /** A reading may be arbitrarily late, but it was true at its own height. */
  ghost predicate Legal(truth: Truth, base: nat, s: State, step: Step) {
    match step
    case Commit(changes, _, _, _) => Honest(truth, s.cursor + 1, changes)
    case Revisit(height, _, _, _) => 0 < height <= s.cursor
    case Publish(e) => e.height >= base && e.claim == truth(e.address, e.height)
    case RetryLater(_, _) => true
    case SetStatus(_) => true
  }

  function Run(s: State, steps: seq<Step>): State {
    if steps == [] then s else Next(Run(s, steps[..|steps| - 1]), steps[|steps| - 1])
  }

  ghost predicate LegalRun(truth: Truth, base: nat, s: State, steps: seq<Step>) {
    steps == [] ||
    (LegalRun(truth, base, s, steps[..|steps| - 1])
     && Legal(truth, base, Run(s, steps[..|steps| - 1]), steps[|steps| - 1]))
  }

  // ----- the invariant --------------------------------------------------------------------------

  /** The tables of one address are exactly the claim at its source height. */
  ghost predicate Exact(truth: Truth, s: State, a: string) {
    && (a in s.rows && s.rows[a].source.Some? ==>
          var claim := truth(a, s.rows[a].source.value);
          && s.rows[a].bonded == claim.bonded && s.rows[a].unbonding == claim.unbonding
          && a in s.positions && s.positions[a] == claim.positions)
    && (forall v :: Exposure(v, a) in s.exposure <==>
          a in s.rows && s.rows[a].source.Some? && v in truth(a, s.rows[a].source.value).validators)
  }

  predicate Bounded(base: nat, s: State) {
    && (forall a :: a in s.rows ==> s.rows[a].required <= s.cursor)
    && (forall a :: a in s.rows && s.rows[a].source.Some? ==> base <= s.rows[a].source.value <= s.cursor)
    && (forall v :: v in s.watermarks ==> s.watermarks[v] <= s.cursor)
  }

  /** A move at height `k` left a requirement or a watermark of at least `k`. */
  predicate Noted(s: State, a: string, k: nat, before: Claim) {
    || (a in s.rows && s.rows[a].required >= k)
    || Watermark(s.watermarks, EVERY) >= k
    || exists v :: v in before.validators && Watermark(s.watermarks, v) >= k
  }

  ghost predicate Recorded(truth: Truth, base: nat, s: State) {
    forall a, k: nat :: base < k <= s.cursor && Moves(truth, a, k) ==> Noted(s, a, k, truth(a, k - 1))
  }

  /** Nothing moved between the source height of complete evidence and the cursor. */
  ghost predicate Current(truth: Truth, s: State, a: string) {
    a in s.rows && Complete(s.rows[a]) ==>
      forall m: nat :: s.rows[a].source.value <= m <= s.cursor ==> truth(a, m) == truth(a, s.rows[a].source.value)
  }

  ghost predicate Inv(truth: Truth, base: nat, s: State) {
    && base <= s.cursor && Bounded(base, s) && Recorded(truth, base, s)
    && (forall a :: Exact(truth, s, a))
    && (forall a :: Current(truth, s, a))
  }

  // ----- invalidation ---------------------------------------------------------------------------

  /** Rows keep their evidence and requirements never fall. */
  predicate Grows(s: State, t: State) {
    && t.exposure == s.exposure && t.positions == s.positions && t.cursor == s.cursor
    && (forall a :: a in s.rows ==>
          && a in t.rows && s.rows[a].required <= t.rows[a].required && t.rows[a].source == s.rows[a].source
          && t.rows[a].bonded == s.rows[a].bonded && t.rows[a].unbonding == s.rows[a].unbonding)
    && (forall a :: a in t.rows && a !in s.rows ==> t.rows[a].source == None)
    && (forall v :: v in s.watermarks ==> v in t.watermarks && s.watermarks[v] <= t.watermarks[v])
  }

  predicate NoHigher(s: State, t: State, height: nat) {
    && (forall a :: a in t.rows ==> t.rows[a].required <= height || (a in s.rows && t.rows[a].required == s.rows[a].required))
    && (forall v :: v in t.watermarks ==> t.watermarks[v] <= height || (v in s.watermarks && t.watermarks[v] == s.watermarks[v]))
  }

  lemma {:induction false} RequestGrows(s: State, height: nat, changes: Changes)
    ensures var t := Requested(s, height, changes);
            && Grows(s, t) && NoHigher(s, t, height)
            && (forall a :: a in Affected(s, changes) ==> a in t.rows && t.rows[a].required >= height)
            && (forall v :: v in Marks(changes) ==> Watermark(t.watermarks, v) >= height)
  {
  }

  lemma {:induction false} CandidatesGrow(s: State, height: nat, candidates: set<string>, receipts: set<string>)
    ensures var t := Received(Ensured(s, height, candidates), height, receipts);
            Grows(s, t) && NoHigher(s, t, height) && t.watermarks == s.watermarks
  {
  }

  lemma {:induction false} InvalidationGrows(s: State, height: nat, changes: Changes, candidates: set<string>, receipts: set<string>)
    ensures var t := Invalidated(s, height, changes, candidates, receipts);
            && Grows(s, t) && NoHigher(s, t, height)
            && (forall a :: a in Affected(s, changes) ==> a in t.rows && t.rows[a].required >= height)
            && (forall v :: v in Marks(changes) ==> Watermark(t.watermarks, v) >= height)
  {
    var r := Requested(s, height, changes);
    RequestGrows(s, height, changes);
    CandidatesGrow(r, height, candidates, receipts);
  }

  /** Growing requirements keep the invariant at the same cursor. */
  lemma {:induction false} GrowthKeeps(truth: Truth, base: nat, s: State, t: State, height: nat)
    requires Inv(truth, base, s) && Grows(s, t) && NoHigher(s, t, height) && height <= s.cursor
    ensures Inv(truth, base, t)
  {
    forall a ensures Exact(truth, t, a) { assert Exact(truth, s, a); }
    forall a ensures Current(truth, t, a) { assert Current(truth, s, a); }
    forall a, k: nat | base < k <= t.cursor && Moves(truth, a, k) ensures Noted(t, a, k, truth(a, k - 1)) {
      assert Noted(s, a, k, truth(a, k - 1));
    }
  }

  // ----- a block commit -----------------------------------------------------------------------------

  /** A moved address that had complete evidence is reached, so its requirement rises. */
  lemma {:induction false} MovedIsAffected(truth: Truth, base: nat, s: State, changes: Changes, a: string)
    requires Inv(truth, base, s) && Honest(truth, s.cursor + 1, changes)
    requires a in s.rows && Complete(s.rows[a]) && Moves(truth, a, s.cursor + 1)
    ensures a in Affected(s, changes)
  {
    var n := s.rows[a].source.value;
    assert Current(truth, s, a) && Exact(truth, s, a);
    assert truth(a, s.cursor) == truth(a, n);
    var before := truth(a, s.cursor);
    assert Reaches(changes, a, before);
    if a !in changes.addresses {
      if changes.allExposed && before.validators != {} {
        var v :| v in before.validators;
        assert Exposure(v, a) in s.exposure;
      } else {
        var v :| v in before.validators && v in changes.validators;
        assert Exposure(v, a) in s.exposure;
      }
    }
  }

  lemma {:induction false} MoveIsNoted(truth: Truth, s: State, t: State, changes: Changes, a: string, h: nat)
    requires h > 0 && Moves(truth, a, h) && Reaches(changes, a, truth(a, h - 1))
    requires forall x :: x in Affected(s, changes) ==> x in t.rows && t.rows[x].required >= h
    requires forall v :: v in Marks(changes) ==> Watermark(t.watermarks, v) >= h
    ensures Noted(t, a, h, truth(a, h - 1))
  {
    if a in changes.addresses {
      assert a in Elements(changes.addresses);
    } else if changes.allExposed {
      assert EVERY in Marks(changes);
    } else {
      var v :| v in truth(a, h - 1).validators && v in changes.validators;
      assert v in Elements(changes.validators);
    }
  }

  lemma {:induction false} CommitStaysCurrent(truth: Truth, base: nat, s: State, changes: Changes, t: State, a: string)
    requires Inv(truth, base, s) && Honest(truth, s.cursor + 1, changes)
    requires Grows(s, t)
    requires forall x :: x in Affected(s, changes) ==> x in t.rows && t.rows[x].required >= s.cursor + 1
    ensures Current(truth, t.(cursor := s.cursor + 1), a)
  {
    assert Current(truth, s, a);
    if a in s.rows && Complete(s.rows[a]) && Moves(truth, a, s.cursor + 1) { MovedIsAffected(truth, base, s, changes, a); }
  }

  lemma {:induction false} CommitStaysRecorded(truth: Truth, base: nat, s: State, changes: Changes, t: State)
    requires Inv(truth, base, s) && Honest(truth, s.cursor + 1, changes)
    requires Grows(s, t)
    requires forall x :: x in Affected(s, changes) ==> x in t.rows && t.rows[x].required >= s.cursor + 1
    requires forall v :: v in Marks(changes) ==> Watermark(t.watermarks, v) >= s.cursor + 1
    ensures Recorded(truth, base, t.(cursor := s.cursor + 1))
  {
    var h, u := s.cursor + 1, t.(cursor := s.cursor + 1);
    forall a, k: nat | base < k <= h && Moves(truth, a, k) ensures Noted(u, a, k, truth(a, k - 1)) {
      if k == h {
        MoveIsNoted(truth, s, u, changes, a, h);
      } else {
        assert Noted(s, a, k, truth(a, k - 1));
      }
    }
  }

  lemma {:induction false} GrownCommitKeeps(truth: Truth, base: nat, s: State, changes: Changes, t: State, current: bool)
    requires Inv(truth, base, s) && Honest(truth, s.cursor + 1, changes)
    requires Grows(s, t) && NoHigher(s, t, s.cursor + 1)
    requires forall x :: x in Affected(s, changes) ==> x in t.rows && t.rows[x].required >= s.cursor + 1
    requires forall v :: v in Marks(changes) ==> Watermark(t.watermarks, v) >= s.cursor + 1
    ensures Inv(truth, base, t.(cursor := s.cursor + 1, current := current))
  {
    var u := t.(cursor := s.cursor + 1);
    CommitStaysRecorded(truth, base, s, changes, t);
    forall a ensures Current(truth, u, a) { CommitStaysCurrent(truth, base, s, changes, t, a); }
    forall a ensures Exact(truth, u, a) { assert Exact(truth, s, a); }
    StatusIsIrrelevant(truth, base, u, current);
  }

  lemma {:induction false} CommitKeeps(truth: Truth, base: nat, s: State, changes: Changes, candidates: set<string>, receipts: set<string>, tip: int)
    requires Inv(truth, base, s) && Honest(truth, s.cursor + 1, changes)
    ensures Inv(truth, base, Next(s, Commit(changes, candidates, receipts, tip)))
  {
    var t, current := Invalidated(s, s.cursor + 1, changes, candidates, receipts), AtTip(s.cursor + 1, tip);
    InvalidationGrows(s, s.cursor + 1, changes, candidates, receipts);
    GrownCommitKeeps(truth, base, s, changes, t, current);
    NextAfterCommit(s, changes, candidates, receipts, tip, t, current);
  }

  lemma {:induction false} NextAfterCommit(s: State, changes: Changes, candidates: set<string>, receipts: set<string>, tip: int, t: State, current: bool)
    requires t == Invalidated(s, s.cursor + 1, changes, candidates, receipts) && current == AtTip(s.cursor + 1, tip)
    ensures Next(s, Commit(changes, candidates, receipts, tip)) == t.(cursor := s.cursor + 1, current := current)
  {
  }

  lemma {:induction false} StatusIsIrrelevant(truth: Truth, base: nat, s: State, current: bool)
    requires Inv(truth, base, s)
    ensures Inv(truth, base, s.(current := current))
  {
    var t := s.(current := current);
    forall a ensures Exact(truth, t, a) { assert Exact(truth, s, a); }
    forall a ensures Current(truth, t, a) { assert Current(truth, s, a); }
    forall a, k: nat | base < k <= t.cursor && Moves(truth, a, k) ensures Noted(t, a, k, truth(a, k - 1)) {
      assert Noted(s, a, k, truth(a, k - 1));
    }
  }

  // ----- a publication ---------------------------------------------------------------------------------

  /** The publishing guard sees every note above the reading's height. */
  lemma {:induction false} GuardSeesNotes(s: State, e: Evidence, m: nat)
    requires Accepts(s, e) && m > e.height
    ensures !Noted(s, e.address, m, e.claim)
  {
  }

  /** An accepted reading is still true: any later move would have been noted above it. */
  lemma {:induction false} AcceptedIsCurrent(truth: Truth, base: nat, s: State, e: Evidence, m: nat)
    requires Inv(truth, base, s) && Accepts(s, e) && base <= e.height && e.claim == truth(e.address, e.height)
    requires e.height <= m <= s.cursor
    ensures truth(e.address, m) == e.claim
    decreases m
  {
    if m > e.height {
      AcceptedIsCurrent(truth, base, s, e, m - 1);
      assert Moves(truth, e.address, m) ==> Noted(s, e.address, m, e.claim);
      GuardSeesNotes(s, e, m);
    }
  }

  lemma {:induction false} PublicationKeeps(truth: Truth, base: nat, s: State, e: Evidence)
    requires Inv(truth, base, s) && base <= e.height && e.claim == truth(e.address, e.height)
    ensures Inv(truth, base, Published(s, e))
  {
    if Accepts(s, e) {
      var t := Published(s, e);
      forall a ensures Exact(truth, t, a) { assert Exact(truth, s, a); }
      forall a ensures Current(truth, t, a) {
        assert Current(truth, s, a);
        if a == e.address {
          forall m: nat | e.height <= m <= s.cursor ensures truth(a, m) == e.claim { AcceptedIsCurrent(truth, base, s, e, m); }
        }
      }
      forall a, k: nat | base < k <= t.cursor && Moves(truth, a, k) ensures Noted(t, a, k, truth(a, k - 1)) {
        assert Noted(s, a, k, truth(a, k - 1));
      }
    }
  }

  // ----- all runs ------------------------------------------------------------------------------------------

  lemma {:induction false} StepKeeps(truth: Truth, base: nat, s: State, step: Step)
    requires Inv(truth, base, s) && Legal(truth, base, s, step)
    ensures Inv(truth, base, Next(s, step))
  {
    match step
    case Commit(changes, candidates, receipts, tip) => CommitKeeps(truth, base, s, changes, candidates, receipts, tip);
    case Revisit(height, changes, candidates, receipts) =>
      InvalidationGrows(s, height, changes, candidates, receipts);
      GrowthKeeps(truth, base, s, Next(s, step), height);
    case Publish(e) => PublicationKeeps(truth, base, s, e);
    case RetryLater(address, height) => GrowthKeeps(truth, base, s, Next(s, step), 0);
    case SetStatus(current) => StatusIsIrrelevant(truth, base, s, current);
  }

  lemma {:induction false} RunKeeps(truth: Truth, base: nat, steps: seq<Step>)
    requires LegalRun(truth, base, Initial(base), steps)
    ensures Inv(truth, base, Run(Initial(base), steps))
  {
    var start := Initial(base);
    if steps == [] {
      assert Inv(truth, base, start);
    } else {
      RunKeeps(truth, base, steps[..|steps| - 1]);
      StepKeeps(truth, base, Run(start, steps[..|steps| - 1]), steps[|steps| - 1]);
    }
  }

  /** The tables hold exactly the claim that is true for `a` at the cursor. */
  ghost predicate HoldsTruth(truth: Truth, s: State, a: string) {
    var claim := truth(a, s.cursor);
    && a in s.rows && s.rows[a].bonded == claim.bonded && s.rows[a].unbonding == claim.unbonding
    && a in s.positions && s.positions[a] == claim.positions
    && (forall v :: Exposure(v, a) in s.exposure <==> v in claim.validators)
  }

  /** After any run, from an empty cache at any height, every address whose source height
      has reached its requirement stores the true claim at the current cursor. */
  lemma {:induction false} CompleteEvidenceIsTrue(truth: Truth, base: nat, steps: seq<Step>, a: string)
    requires LegalRun(truth, base, Initial(base), steps)
    ensures var s := Run(Initial(base), steps);
            a in s.rows && Complete(s.rows[a]) ==> HoldsTruth(truth, s, a)
  {
    RunKeeps(truth, base, steps);
    var s := Run(Initial(base), steps);
    assert Exact(truth, s, a) && Current(truth, s, a);
  }

  /** A truthful reading at the cursor height of a row that is not complete, or still has
      receipts or positions to settle, is always accepted and settles the row. */
  lemma {:induction false} CursorReadingIsAccepted(truth: Truth, base: nat, steps: seq<Step>, e: Evidence)
    requires LegalRun(truth, base, Initial(base), steps)
    requires var s := Run(Initial(base), steps);
             e.address in s.rows && Unsettled(s.rows[e.address]) && e.height == s.cursor > 0
    ensures var s := Run(Initial(base), steps);
            && Accepts(s, e) && !Unsettled(Published(s, e).rows[e.address])
            && (e.claim == truth(e.address, e.height) ==> HoldsTruth(truth, Published(s, e), e.address))
  {
    RunKeeps(truth, base, steps);
    var s := Run(Initial(base), steps);
    assert Exact(truth, s, e.address);
  }

  /** No unsettled row is out of the worker's reach for good: only its delay, or a cursor
      that is not at the tip, keeps it from being selected. */
  lemma {:induction false} UnsettledIsSelectable(truth: Truth, base: nat, steps: seq<Step>, a: string)
    requires LegalRun(truth, base, Initial(base), steps)
    ensures var s := Run(Initial(base), steps);
            a in s.rows && Unsettled(s.rows[a]) && s.cursor > 0 ==> (a in Selectable(s) <==> s.current && !s.rows[a].delayed)
  {
    RunKeeps(truth, base, steps);
  }

  /** The guard is neither too lax nor too strict: a reading is accepted iff nothing that
      concerns it is noted above its height and it adds something to what is stored. */
  lemma {:induction false} GuardIsExact(s: State, e: Evidence)
    requires e.address in s.rows && 0 < e.height <= s.cursor && Bounded(0, s)
    ensures var r := s.rows[e.address];
            Accepts(s, e) <==> (forall m: nat :: e.height < m <= s.cursor ==> !Noted(s, e.address, m, e.claim))
                               && (r.source == None || r.source.value < e.height || (r.source.value == e.height && (r.receiptsPending || !r.positionsComplete)))
  {
    forall v | v in s.watermarks && (v == EVERY || v in e.claim.validators) && s.watermarks[v] > e.height
      ensures Noted(s, e.address, s.watermarks[v], e.claim)
    {
      assert Watermark(s.watermarks, v) == s.watermarks[v];
    }
    assert s.rows[e.address].required > e.height ==> Noted(s, e.address, s.rows[e.address].required, e.claim);
  }

  /** After any run that ends in a block, every candidate of that block has a row, and the row
      either holds the truth or is still wanted from the worker; the cursor counts as current
      iff the tip is at most one block ahead. */
  lemma {:induction false} CandidatesAreCovered(truth: Truth, base: nat, steps: seq<Step>, a: string)
    requires LegalRun(truth, base, Initial(base), steps)
    requires steps != [] && steps[|steps| - 1].Commit? && (a in steps[|steps| - 1].candidates || a in steps[|steps| - 1].changes.addresses)
    ensures var s := Run(Initial(base), steps);
            && a in s.rows && (HoldsTruth(truth, s, a) || Wanting(s.rows[a]))
            && (s.current <==> steps[|steps| - 1].tip <= s.cursor + 1)
  {
    CompleteEvidenceIsTrue(truth, base, steps, a);
    var last := steps[|steps| - 1];
    assert a in last.changes.addresses ==> a in Elements(last.changes.addresses);
  }

  /** Replaying an old event never makes newer evidence incomplete, and a newer
      invalidation always cancels the delay of the row it reaches. */
  lemma {:induction false} OldRequestsAreHarmless(s: State, height: nat, changes: Changes, a: string)
    requires a in s.rows
    ensures var t := Requested(s, height, changes);
            && a in t.rows
            && (Complete(s.rows[a]) && s.rows[a].source.value >= height ==> Complete(t.rows[a]))
            && (t.rows[a].required > s.rows[a].required ==> !t.rows[a].delayed)
            && (a !in Affected(s, changes) ==> t.rows[a] == s.rows[a])
  {
  }

  /** A retry that comes after a newer invalidation delays nothing. */
  lemma {:induction false} RetryNeverDelaysNewer(s: State, address: string, attempted: nat, height: nat, changes: Changes)
    requires attempted < height && address in Affected(s, changes)
    ensures Delayed(Requested(s, height, changes), address, attempted) == Requested(s, height, changes)
  {
  }

  // ----- what the handlers add to a block's changes -----------------------------------------------------------

  method AddAddresses(changes: Changes, addresses: set<string>) returns (all: Changes)
    ensures Elements(all.addresses) == Elements(changes.addresses) + addresses
    ensures all.validators == changes.validators && all.allExposed == changes.allExposed
  {
    all := changes;
    var rest := addresses;
    while rest != {}
      invariant rest <= addresses && all.validators == changes.validators && all.allExposed == changes.allExposed
      invariant Elements(all.addresses) + rest == Elements(changes.addresses) + addresses
      decreases |rest|
    {
      var a :| a in rest;
      assert Elements(all.addresses + [a]) == Elements(all.addresses) + {a};
      all := all.(addresses := all.addresses + [a]);
      rest := rest - {a};
    }
  }

  predicate Unresolved(operators: map<string, string>, r: string) {
    r !in operators || operators[r] == ""
  }

  function Operators(operators: map<string, string>, reactors: set<string>): set<string> {
    set r | r in reactors && !Unresolved(operators, r) :: operators[r]
  }

  predicate AnyUnresolved(operators: map<string, string>, reactors: set<string>) {
    exists r :: r in reactors && Unresolved(operators, r)
  }

  method AddReactors(changes: Changes, reactors: set<string>, operators: map<string, string>) returns (all: Changes)
    ensures all.addresses == changes.addresses
    ensures Elements(all.validators) == Elements(changes.validators) + Operators(operators, reactors)
    ensures all.allExposed <==> changes.allExposed || AnyUnresolved(operators, reactors)
  {
    var validators, every := changes.validators, changes.allExposed;
    var rest := reactors;
    while rest != {}
      invariant Elements(validators) + Operators(operators, rest) == Elements(changes.validators) + Operators(operators, reactors)
      invariant every || AnyUnresolved(operators, rest) <==> changes.allExposed || AnyUnresolved(operators, reactors)
      decreases |rest|
    {
      var r :| r in rest;
      if Unresolved(operators, r) {
        every := true;
      } else {
        assert Elements(validators + [operators[r]]) == Elements(validators) + {operators[r]};
        validators := validators + [operators[r]];
      }
      rest := rest - {r};
    }
    all := Changes(changes.addresses, validators, every);
  }

  /** Native events, applied snapshots and deletes combined; a reactor without a known
      validator, and the upgrade block, invalidate every exposed address. `operators`
      is the reactor table. Whatever the changes reached is still reached. */
  method Combine(chain: string, height: nat, addresses: set<string>, reactors: set<string>, operators: map<string, string>,
                 changes: Changes) returns (all: Changes)
    ensures Elements(all.addresses) == Elements(changes.addresses) + addresses
    ensures Elements(all.validators) == Elements(changes.validators) + Operators(operators, reactors)
    ensures all.allExposed <==> (changes.allExposed || (chain == UPGRADE_CHAIN && height == UPGRADE_HEIGHT)
                                 || AnyUnresolved(operators, reactors))
    ensures forall truth: Truth, h :: Honest(truth, h, changes) ==> Honest(truth, h, all)
  {
    all := changes;
    if chain == UPGRADE_CHAIN && height == UPGRADE_HEIGHT { all := all.(allExposed := true); }
    all := AddAddresses(all, addresses);
    all := AddReactors(all, reactors, operators);
    WiderIsHonest(changes, all);
  }

  lemma {:induction false} WiderIsHonest(changes: Changes, all: Changes)
    requires Elements(changes.addresses) <= Elements(all.addresses) && Elements(changes.validators) <= Elements(all.validators)
    requires changes.allExposed ==> all.allExposed
    ensures forall truth: Truth, h :: Honest(truth, h, changes) ==> Honest(truth, h, all)
  {
    assert forall a :: a in changes.addresses ==> a in Elements(all.addresses);
    assert forall v :: v in changes.validators ==> v in Elements(all.validators);
  }
}
