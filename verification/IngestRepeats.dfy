/** Exactly when a height is committed twice (sync/syncer.go): a streamed window that fails
    after some of its blocks, with the cursor unreadable, leaves `next` behind. */
module IngestRepeats {
  import opened Ingest
  import opened IngestProgress
  import opened IngestSafety
  import opened Positions

  // ----- what one turn commits --------------------------------------------------------------------

  /** `u` is `s` after committing `k` consecutive heights from s.next. */
  ghost predicate Appended(s: State, u: State, k: nat) {
    && |u.log| == |s.log| + k && s.log <= u.log
    && (forall j :: |s.log| <= j < |u.log| ==> u.log[j].height == s.next + j - |s.log|)
    && u.cursor == if k == 0 then s.cursor else s.next + k - 1
  }

  lemma {:induction false} StreamAppends(cfg: Config, hash: int -> string, s: State, plan: Plan, t: Turn) returns (k: nat)
    requires plan.start == s.next <= plan.end
    ensures Appended(s, StreamWindow(cfg, hash, s, plan, t), k)
  {
    var size := plan.end + 1 - plan.start;
    var fetched := if FetchOutcome(s, plan, t) == Success || t.streamed > size then size else t.streamed;
    CommitsAppend(cfg, hash, s.(prefetched := None), plan.start, fetched, false);
    k := CommitBlocks(cfg, hash, s.(prefetched := None), plan.start, fetched, false).1;
  }

  lemma {:induction false} BulkAppends(cfg: Config, hash: int -> string, s: State, plan: Plan, t: Turn) returns (k: nat)
    requires plan.start == s.next <= plan.end
    ensures Appended(s, BulkWindow(cfg, hash, s, plan, t), k)
  {
    var size := plan.end + 1 - plan.start;
    var ahead := Prefetching(cfg, s.(prefetched := None), plan, t);
    CommitsAppend(cfg, hash, ahead, plan.start, size, true);
    k := if FetchOutcome(s, plan, t) == t.apply == Success && CommitBlocks(cfg, hash, ahead, plan.start, size, true).1 == size then size else 0;
  }

  lemma {:induction false} TurnAppends(cfg: Config, hash: int -> string, s: State, t: Turn) returns (k: nat)
    requires ValidConfig(cfg)
    ensures Appended(s, After(cfg, hash, s, t), k)
  {
    k := 0;
    if s.status == Running && t.answers && s.next <= LastHeight(cfg, t.tip) {
      var plan := PlanNow(cfg, s, t.tip);
      if plan.bulk {
        k := BulkAppends(cfg, hash, s, plan, t);
      } else if !Rebuilt(s, t).stale {
        k := StreamAppends(cfg, hash, Rebuilt(s, t), plan, t);
      }
    }
  }

  // ----- when a turn leaves `next` behind ------------------------------------------------------------

  /** A streamed turn that commits something, then fails for a while and cannot read the cursor. */
  predicate LosesPlace(cfg: Config, s: State, t: Turn) {
    && t.answers && s.next <= LastHeight(cfg, t.tip)
    && (var plan := PlanNow(cfg, s, t.tip);
        && !plan.bulk && !Rebuilt(s, t).stale
        && FetchOutcome(s, plan, t) == Transient && t.streamed > 0 && !t.reread)
  }

  /** `next` is the height after the last committed one. */
  predicate InPlace(start: int, s: State) {
    s.next == start + |s.log|
  }

  lemma {:induction false} RecoveredInPlace(start: int, s: State, outcome: Outcome, reread: bool)
    requires Tight(start, s) && start > 0 && start <= s.next <= start + |s.log| && s.status == Running
    ensures var u := Failing(s, outcome, reread);
            u.log == s.log && (u.status == Running ==> (InPlace(start, u) <==> InPlace(start, s) || reread))
  {
  }

  lemma {:induction false} StreamInPlace(cfg: Config, hash: int -> string, start: int, s: State, plan: Plan, t: Turn)
    requires Tight(start, s) && InPlace(start, s) && Fits(cfg, start, s) && start > 0 && s.status == Running
    requires plan.start == s.next <= plan.end
    ensures var u := StreamWindow(cfg, hash, s, plan, t);
            && Tight(start, u)
            && (u.status == Running ==>
                  (InPlace(start, u) <==> !(FetchOutcome(s, plan, t) == Transient && t.streamed > 0 && !t.reread)))
  {
    var size := plan.end + 1 - plan.start;
    var outcome := FetchOutcome(s, plan, t);
    var fetched := if outcome == Success || t.streamed > size then size else t.streamed;
    var ready := s.(prefetched := None);
    NoneIsRefused(cfg, hash, ready, fetched, false);
    OnceLonger(start, s.log, fetched, false, s.stale);
    CommitsAppend(cfg, hash, ready, plan.start, fetched, false);
    var r := CommitBlocks(cfg, hash, ready, plan.start, fetched, false).0;
    if outcome != Success { RecoveredInPlace(start, r, outcome, t.reread); }
  }

  lemma {:induction false} BulkInPlace(cfg: Config, hash: int -> string, start: int, s: State, plan: Plan, t: Turn)
    requires Tight(start, s) && InPlace(start, s) && Fits(cfg, start, s) && start > 0 && s.status == Running
    requires plan.start == s.next <= plan.end
    ensures var u := BulkWindow(cfg, hash, s, plan, t);
            Tight(start, u) && (u.status == Running ==> InPlace(start, u))
  {
    var size := plan.end + 1 - plan.start;
    var ready := s.(prefetched := None);
    var ahead := Prefetching(cfg, ready, plan, t);
    NoneIsRefused(cfg, hash, ahead, size, true);
    OnceLonger(start, s.log, size, true, s.stale);
    CommitsAppend(cfg, hash, ahead, plan.start, size, true);
    if FetchOutcome(s, plan, t) != Success {
      RecoveredInPlace(start, ready, FetchOutcome(s, plan, t), t.reread);
    } else if t.apply != Success {
      RecoveredInPlace(start, ahead, t.apply, t.reread);
    }
  }

  /** From a loop in place, a turn that lets it run on leaves `next` behind the committed
      heights iff it is such a turn; every other failure is harmless. */
  lemma {:induction false} TurnLosesPlace(cfg: Config, hash: int -> string, start: int, s: State, t: Turn)
    requires ValidConfig(cfg) && Tight(start, s) && InPlace(start, s) && Fits(cfg, start, s) && start > 0 && s.status == Running
    ensures var u := After(cfg, hash, s, t);
            u.status == Running ==> (InPlace(start, u) <==> !LosesPlace(cfg, s, t))
  {
    if t.answers {
      if s.next > LastHeight(cfg, t.tip) {
        RecoveredInPlace(start, s.(prefetched := None), t.rebuild, t.reread);
      } else {
        var plan := PlanNow(cfg, s, t.tip);
        if plan.bulk {
          BulkInPlace(cfg, hash, start, s, plan, t);
        } else if Rebuilt(s, t).stale {
          RecoveredInPlace(start, s, t.rebuild, t.reread);
        } else {
          StreamInPlace(cfg, hash, start, Rebuilt(s, t), plan, t);
        }
      }
    }
  }

  // ----- when a run repeats a height -----------------------------------------------------------------

  /** No turn that commits starts with `next` at or below the cursor. */
  predicate CommitsAhead(cfg: Config, hash: int -> string, s: State, turns: seq<Turn>)
    requires ValidConfig(cfg)
  {
    turns == [] ||
    (var init := turns[..|turns| - 1];
     CommitsAhead(cfg, hash, s, init) && TurnAhead(cfg, hash, Run(cfg, hash, s, init), turns[|turns| - 1]))
  }

  predicate TurnAhead(cfg: Config, hash: int -> string, u: State, t: Turn)
    requires ValidConfig(cfg)
  {
    |After(cfg, hash, u, t).log| > |u.log| ==> u.next > u.cursor
  }

  /** The cursor is at the last commit, or where the run found it. */
  predicate CursorAtEnd(start: int, s: State) {
    if s.log == [] then s.cursor < start else s.cursor == s.log[|s.log| - 1].height
  }

  lemma {:induction false} CursorStaysAtEnd(cfg: Config, hash: int -> string, start: int, s: State, turns: seq<Turn>)
    requires ValidConfig(cfg) && CursorAtEnd(start, s)
    ensures CursorAtEnd(start, Run(cfg, hash, s, turns))
  {
    if turns != [] {
      var init := turns[..|turns| - 1];
      CursorStaysAtEnd(cfg, hash, start, s, init);
      var k := TurnAppends(cfg, hash, Run(cfg, hash, s, init), turns[|turns| - 1]);
    }
  }

  lemma {:induction false} OneTurnOnce(cfg: Config, hash: int -> string, start: int, u: State, t: Turn)
    requires ValidConfig(cfg) && Inv(cfg, hash, start, u) && CursorAtEnd(start, u)
    ensures ExactlyOnce(start, After(cfg, hash, u, t).log) <==> ExactlyOnce(start, u.log) && TurnAhead(cfg, hash, u, t)
  {
    var v := After(cfg, hash, u, t);
    var k := TurnAppends(cfg, hash, u, t);
    if ExactlyOnce(start, v.log) {
      assert forall i :: 0 <= i < |u.log| ==> v.log[i] == u.log[i];
      if k > 0 { assert v.log[|u.log|].height == u.next; }
    }
    if ExactlyOnce(start, u.log) { TopOfOnce(start, u.log); }
  }

  /** Each height is committed exactly once iff no committing turn starts at or below the
      cursor. Failures, and lost cursor readings, matter only through that. */
  lemma {:induction false} ExactlyOnceIff(cfg: Config, hash: int -> string, start: int, cursor: int, coverage: Option<Coverage>,
                                          stale: bool, turns: seq<Turn>)
    requires CanStart(cfg, hash, start, cursor, coverage)
    ensures var s := Started(start, cursor, coverage, stale);
            ExactlyOnce(start, Run(cfg, hash, s, turns).log) <==> CommitsAhead(cfg, hash, s, turns)
  {
    RunOnceIff(cfg, hash, start, Started(start, cursor, coverage, stale), turns);
  }

  lemma {:induction false} RunOnceIff(cfg: Config, hash: int -> string, start: int, s: State, turns: seq<Turn>)
    requires ValidConfig(cfg) && Inv(cfg, hash, start, s) && CursorAtEnd(start, s) && ExactlyOnce(start, s.log)
    ensures ExactlyOnce(start, Run(cfg, hash, s, turns).log) <==> CommitsAhead(cfg, hash, s, turns)
  {
    if turns != [] {
      var init := turns[..|turns| - 1];
      RunOnceIff(cfg, hash, start, s, init);
      RunKeeps(cfg, hash, start, s, init, false);
      CursorStaysAtEnd(cfg, hash, start, s, init);
      OneTurnOnce(cfg, hash, start, Run(cfg, hash, s, init), turns[|turns| - 1]);
    }
  }
}
