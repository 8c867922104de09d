/** What every run of the ingest loop keeps, whatever fails and whenever. */
module IngestSafety {
  import opened Ingest
  import opened Positions
  import opened Protocol

  /** The next height that extends the committed interval. */
  function Top(start: int, log: seq<Committed>): int {
    if log == [] then start
    else
      var earlier, h := Top(start, log[..|log| - 1]), log[|log| - 1].height + 1;
      if earlier < h then h else earlier
  }

  /** The last committed height that the coverage record is responsible for. */
  function LastActive(chain: string, log: seq<Committed>): Option<int> {
    if log == [] then None
    else if Active(chain, log[|log| - 1].height) then Some(log[|log| - 1].height)
    else LastActive(chain, log[..|log| - 1])
  }

  /** Every commit lies inside the interval committed so far or extends it by one; a
      streamed block never meets stale projections; and past the upgrade a commit repeats
      the last such height or goes one further. */
  predicate GoodLog(chain: string, start: int, log: seq<Committed>) {
    log == [] ||
    (var init, c := log[..|log| - 1], log[|log| - 1];
     && GoodLog(chain, start, init) && start <= c.height <= Top(start, init) && (c.bulk || !c.stale)
     && (Active(chain, c.height) && LastActive(chain, init).Some? ==>
           LastActive(chain, init).value <= c.height <= LastActive(chain, init).value + 1))
  }

  /** Each height from `start` on once, in order. */
  predicate ExactlyOnce(start: int, log: seq<Committed>) {
    forall i :: 0 <= i < |log| ==> log[i].height == start + i
  }

  ghost predicate Inv(cfg: Config, hash: int -> string, start: int, s: State) {
    && GoodLog(cfg.chain, start, s.log) && start <= s.next <= Top(start, s.log) && s.cursor < Top(start, s.log)
    && (Active(cfg.chain, s.cursor) ==> s.coverage == Some(Coverage(s.cursor, hash(s.cursor))))
    && (LastActive(cfg.chain, s.log).Some? ==> s.coverage.Some? && s.coverage.value.height == LastActive(cfg.chain, s.log).value)
  }

  // ----- a committed interval has no hole ----------------------------------------------------------

  predicate HasHeight(log: seq<Committed>, h: int) {
    exists i :: 0 <= i < |log| && log[i].height == h
  }

  lemma {:induction false} IntervalIsFull(chain: string, start: int, log: seq<Committed>, h: int)
    requires GoodLog(chain, start, log) && start <= h < Top(start, log)
    ensures HasHeight(log, h)
  {
    var init := log[..|log| - 1];
    if h < Top(start, init) {
      IntervalIsFull(chain, start, init, h);
      var i :| 0 <= i < |init| && init[i].height == h;
      assert log[i].height == h;
    } else {
      assert log[|log| - 1].height == h;
    }
  }

  lemma {:induction false} TopOfOnce(start: int, log: seq<Committed>)
    requires ExactlyOnce(start, log)
    ensures Top(start, log) == start + |log|
  {
    if log != [] { TopOfOnce(start, log[..|log| - 1]); }
  }

  // ----- commits -----------------------------------------------------------------------------------

  function Range(first: int, n: nat, bulk: bool, stale: bool): (r: seq<Committed>)
    ensures |r| == n && forall i :: 0 <= i < n ==> r[i] == Committed(first + i, bulk, stale)
  {
    seq(n, i => Committed(first + i, bulk, stale))
  }

  /** A run of commits appends consecutive heights and moves the cursor to the last. */
  lemma {:induction false} CommitsAppend(cfg: Config, hash: int -> string, s: State, first: int, n: nat, bulk: bool)
    ensures var (t, done) := CommitBlocks(cfg, hash, s, first, n, bulk);
            && t == s.(log := s.log + Range(first, done, bulk, s.stale), cursor := t.cursor, coverage := t.coverage)
            && t.cursor == (if done == 0 then s.cursor else first + done - 1)
  {
    if n > 0 {
      CommitsAppend(cfg, hash, s, first, n - 1, bulk);
      var earlier := CommitBlocks(cfg, hash, s, first, n - 1, bulk);
      assert Range(first, n, bulk, s.stale) == Range(first, n - 1, bulk, s.stale) + [Committed(first + n - 1, bulk, s.stale)];
    }
  }

  /** State `t` after `done` commits from `first`. */
  ghost predicate Reached(cfg: Config, hash: int -> string, start: int, s: State, first: int, t: State, done: nat) {
    && Inv(cfg, hash, start, t) && t.stale == s.stale
    && Top(start, t.log) >= first + done && Top(start, t.log) >= Top(start, s.log)
  }

  lemma {:induction false} ReachedNext(cfg: Config, hash: int -> string, start: int, s: State, first: int, u: State, m: nat,
                                       bulk: bool, t: State)
    requires Reached(cfg, hash, start, s, first, u, m) && start <= first && (bulk || !s.stale)
    requires CommitBlock(cfg, hash, u, first + m, bulk) == Some(t)
    ensures Reached(cfg, hash, start, s, first, t, m + 1)
  {
  }

  /** A run of commits that starts inside the interval. */
  lemma {:induction false} CommitsKeep(cfg: Config, hash: int -> string, start: int, s: State, first: int, n: nat, bulk: bool,
                                       t: State, done: nat)
    requires Inv(cfg, hash, start, s) && start <= first <= Top(start, s.log) && (bulk || !s.stale)
    requires (t, done) == CommitBlocks(cfg, hash, s, first, n, bulk)
    ensures Reached(cfg, hash, start, s, first, t, done)
  {
    if n > 0 {
      var (u, m) := CommitBlocks(cfg, hash, s, first, n - 1, bulk);
      CommitsKeep(cfg, hash, start, s, first, n - 1, bulk, u, m);
      if done == m + 1 { ReachedNext(cfg, hash, start, s, first, u, m, bulk, t); }
    }
  }

  // ----- turns ----------------------------------------------------------------------------------------

  /** Exactly once, with the cursor at the end of the log. */
  predicate Tight(start: int, s: State) {
    && ExactlyOnce(start, s.log)
    && (if s.log == [] then s.cursor < start else s.cursor == start + |s.log| - 1)
  }

  /** The two strengths of the invariant: `track` when every cursor read succeeds. */
  ghost predicate Kept(cfg: Config, hash: int -> string, start: int, s: State, track: bool) {
    && Inv(cfg, hash, start, s)
    && (track ==> Tight(start, s) && start > 0 && (s.status == Running ==> s.next == start + |s.log|))
  }

  /** Recovery brings `next` back to the end of what has committed. */
  lemma {:induction false} FailureKeeps(cfg: Config, hash: int -> string, start: int, s: State, outcome: Outcome, reread: bool, track: bool)
    requires Inv(cfg, hash, start, s)
    requires track ==> reread && Tight(start, s) && start > 0 && s.next <= start + |s.log|
    ensures Kept(cfg, hash, start, Failing(s, outcome, reread), track)
  {
    if track { TopOfOnce(start, s.log); }
  }

  lemma {:induction false} OnceLonger(start: int, log: seq<Committed>, n: nat, bulk: bool, stale: bool)
    requires ExactlyOnce(start, log)
    ensures ExactlyOnce(start, log + Range(start + |log|, n, bulk, stale))
  {
  }

  /** Commits from `next` keep everything but `next` itself. */
  lemma {:induction false} CommitsFromNext(cfg: Config, hash: int -> string, start: int, s: State, n: nat, bulk: bool, track: bool)
    requires Kept(cfg, hash, start, s, track) && s.status == Running && (bulk || !s.stale)
    ensures var (t, done) := CommitBlocks(cfg, hash, s, s.next, n, bulk);
            && Inv(cfg, hash, start, t) && t.next == s.next && t.status == Running && Top(start, t.log) >= s.next + done
            && (track ==> Tight(start, t) && s.next == start + |s.log| && s.next + done == start + |t.log|)
  {
    var (t, done) := CommitBlocks(cfg, hash, s, s.next, n, bulk);
    CommitsKeep(cfg, hash, start, s, s.next, n, bulk, t, done);
    CommitsAppend(cfg, hash, s, s.next, n, bulk);
    if track { OnceLonger(start, s.log, done, bulk, s.stale); }
  }

  lemma {:induction false} StreamKeeps(cfg: Config, hash: int -> string, start: int, s: State, plan: Plan, t: Turn, track: bool)
    requires Kept(cfg, hash, start, s, track) && s.status == Running && !s.stale
    requires plan.start == s.next <= plan.end && (track ==> t.reread)
    ensures Kept(cfg, hash, start, StreamWindow(cfg, hash, s, plan, t), track)
  {
    var size := plan.end + 1 - plan.start;
    var outcome := FetchOutcome(s, plan, t);
    var fetched := if outcome == Success || t.streamed > size then size else t.streamed;
    var ready := s.(prefetched := None);
    CommitsFromNext(cfg, hash, start, ready, fetched, false, track);
    var r := CommitBlocks(cfg, hash, ready, plan.start, fetched, false);
    if r.1 == fetched && outcome != Success { FailureKeeps(cfg, hash, start, r.0, outcome, t.reread, track); }
  }

  lemma {:induction false} FailedFetchKeeps(cfg: Config, hash: int -> string, start: int, s: State, p: Option<Plan>,
                                            outcome: Outcome, reread: bool, track: bool)
    requires Kept(cfg, hash, start, s, track) && s.status == Running && (track ==> reread)
    ensures Kept(cfg, hash, start, Failing(s.(prefetched := p), outcome, reread), track)
  {
    FailureKeeps(cfg, hash, start, s.(prefetched := p), outcome, reread, track);
  }

  lemma {:induction false} BulkCommitKeeps(cfg: Config, hash: int -> string, start: int, s: State, p: Option<Plan>, size: nat, stale: bool, track: bool)
    requires Kept(cfg, hash, start, s, track) && s.status == Running
    ensures var (t, done) := CommitBlocks(cfg, hash, s.(prefetched := p), s.next, size, true);
            Kept(cfg, hash, start, t.(next := s.next + done, stale := stale), track)
  {
    CommitsFromNext(cfg, hash, start, s.(prefetched := p), size, true, track);
  }

  lemma {:induction false} BulkKeeps(cfg: Config, hash: int -> string, start: int, s: State, plan: Plan, t: Turn, track: bool)
    requires Kept(cfg, hash, start, s, track) && s.status == Running
    requires plan.start == s.next <= plan.end && (track ==> t.reread)
    ensures Kept(cfg, hash, start, BulkWindow(cfg, hash, s, plan, t), track)
  {
    if FetchOutcome(s, plan, t) != Success {
      FailedFetchKeeps(cfg, hash, start, s, None, FetchOutcome(s, plan, t), t.reread, track);
    } else if t.apply != Success {
      FailedFetchKeeps(cfg, hash, start, s, Ahead(cfg, s, plan, t), t.apply, t.reread, track);
    } else {
      BulkSuccessKeeps(cfg, hash, start, s, plan, t, track);
    }
  }

  lemma {:induction false} BulkSuccessKeeps(cfg: Config, hash: int -> string, start: int, s: State, plan: Plan, t: Turn, track: bool)
    requires Kept(cfg, hash, start, s, track) && s.status == Running
    requires plan.start == s.next <= plan.end && FetchOutcome(s, plan, t) == t.apply == Success
    ensures Kept(cfg, hash, start, BulkWindow(cfg, hash, s, plan, t), track)
  {
    var p, size := Ahead(cfg, s, plan, t), plan.end + 1 - plan.start;
    BulkCommits(cfg, hash, s, plan, t);
    if CommitBlocks(cfg, hash, s.(prefetched := p), s.next, size, true).1 == size {
      BulkCommitKeeps(cfg, hash, start, s, p, size, s.stale || cfg.defer, track);
    } else {
      AbortKeeps(cfg, hash, start, s, track);
    }
  }

  lemma {:induction false} AbortKeeps(cfg: Config, hash: int -> string, start: int, s: State, track: bool)
    requires Kept(cfg, hash, start, s, track)
    ensures Kept(cfg, hash, start, s.(prefetched := None, status := Aborted), track)
  {
  }

  /** The window that is being fetched while this one is applied. */
  function Ahead(cfg: Config, s: State, plan: Plan, t: Turn): Option<Plan> {
    Prefetching(cfg, s.(prefetched := None), plan, t).prefetched
  }

  lemma {:induction false} BulkCommits(cfg: Config, hash: int -> string, s: State, plan: Plan, t: Turn)
    requires plan.start == s.next <= plan.end && FetchOutcome(s, plan, t) == t.apply == Success
    ensures var size := plan.end + 1 - plan.start;
            var (r, done) := CommitBlocks(cfg, hash, s.(prefetched := Ahead(cfg, s, plan, t)), s.next, size, true);
            BulkWindow(cfg, hash, s, plan, t)
              == if done < size then s.(prefetched := None, status := Aborted)
                 else r.(next := s.next + done, stale := s.stale || cfg.defer)
  {
    CommitsAppend(cfg, hash, s.(prefetched := Ahead(cfg, s, plan, t)), s.next, plan.end + 1 - plan.start, true);
  }

  lemma {:induction false} TurnKeeps(cfg: Config, hash: int -> string, start: int, s: State, t: Turn, track: bool)
    requires ValidConfig(cfg) && Kept(cfg, hash, start, s, track) && (track ==> t.reread)
    ensures Kept(cfg, hash, start, After(cfg, hash, s, t), track)
  {
    if s.status == Running && t.answers {
      if s.next > LastHeight(cfg, t.tip) {
        FailureKeeps(cfg, hash, start, s.(prefetched := None), t.rebuild, t.reread, track);
      } else {
        var plan := PlanNow(cfg, s, t.tip);
        if plan.bulk {
          BulkKeeps(cfg, hash, start, s, plan, t, track);
        } else if Rebuilt(s, t).stale {
          FailureKeeps(cfg, hash, start, s, t.rebuild, t.reread, track);
        } else {
          StreamKeeps(cfg, hash, start, Rebuilt(s, t), plan, t, track);
        }
      }
    }
  }

  lemma {:induction false} RunKeeps(cfg: Config, hash: int -> string, start: int, s: State, turns: seq<Turn>, track: bool)
    requires ValidConfig(cfg) && Kept(cfg, hash, start, s, track)
    requires track ==> forall i :: 0 <= i < |turns| ==> turns[i].reread
    ensures Kept(cfg, hash, start, Run(cfg, hash, s, turns), track)
  {
    if turns != [] {
      var init := turns[..|turns| - 1];
      assert forall i :: 0 <= i < |init| ==> init[i] == turns[i];
      RunKeeps(cfg, hash, start, s, init, track);
      TurnKeeps(cfg, hash, start, Run(cfg, hash, s, init), turns[|turns| - 1], track);
    }
  }

  /** A loop that starts above its cursor, with the coverage its cursor requires. */
  function Started(start: int, cursor: int, coverage: Option<Coverage>, stale: bool): State {
    State(start, None, stale, cursor, coverage, [], Running)
  }

  ghost predicate CanStart(cfg: Config, hash: int -> string, start: int, cursor: int, coverage: Option<Coverage>) {
    && ValidConfig(cfg) && cursor < start
    && (Active(cfg.chain, cursor) ==> coverage == Some(Coverage(cursor, hash(cursor))))
  }

  /** In every run, with failures at any rebuild, fetch, apply or cursor read: the
      committed heights fill an interval from `start` without a hole, `next` never leaves
      it behind, no streamed block meets stale projections, past the upgrade the coverage
      record equals the cursor, and a height is then repeated at most at once. */
  lemma {:induction false} EveryRunIsSafe(cfg: Config, hash: int -> string, start: int, cursor: int, coverage: Option<Coverage>,
                                          stale: bool, turns: seq<Turn>)
    requires CanStart(cfg, hash, start, cursor, coverage)
    ensures var s := Run(cfg, hash, Started(start, cursor, coverage, stale), turns);
            && Inv(cfg, hash, start, s)
            && (forall h :: start <= h < Top(start, s.log) ==> HasHeight(s.log, h))
  {
    RunKeeps(cfg, hash, start, Started(start, cursor, coverage, stale), turns, false);
    var s := Run(cfg, hash, Started(start, cursor, coverage, stale), turns);
    forall h | start <= h < Top(start, s.log) ensures HasHeight(s.log, h) {
      IntervalIsFull(cfg.chain, start, s.log, h);
    }
  }

  /** When the cursor can be read again after every failure, each height from `start` on
      is committed exactly once and in order. */
  lemma {:induction false} EveryHeightOnce(cfg: Config, hash: int -> string, start: int, cursor: int, coverage: Option<Coverage>,
                                           stale: bool, turns: seq<Turn>)
    requires CanStart(cfg, hash, start, cursor, coverage) && start > 0
    requires forall i :: 0 <= i < |turns| ==> turns[i].reread
    ensures ExactlyOnce(start, Run(cfg, hash, Started(start, cursor, coverage, stale), turns).log)
  {
    RunKeeps(cfg, hash, start, Started(start, cursor, coverage, stale), turns, true);
  }

  /** Without that read a streamed block is committed again. */
  lemma {:induction false} LostRereadRepeats(hash: int -> string)
    ensures var cfg := Config("other", 2, 1, 9, false, false, false, 0);
            var lost := Turn(true, 2, Success, Success, Transient, 1, Success, false);
            var retry := Turn(true, 2, Success, Success, Success, 0, Success, true);
            var log := Run(cfg, hash, Started(1, 0, None, false), [lost, retry]).log;
            |log| == 3 && log[0].height == 1 && log[1].height == 1 && log[2].height == 2
  {
    var cfg := Config("other", 2, 1, 9, false, false, false, 0);
    var lost := Turn(true, 2, Success, Success, Transient, 1, Success, false);
    var retry := Turn(true, 2, Success, Success, Success, 0, Success, true);
    var s0 := Started(1, 0, None, false);
    CommitsAppend(cfg, hash, s0, 1, 1, false);
    var one := s0.(cursor := 1, log := s0.log + Range(1, 1, false, false));
    assert CommitBlocks(cfg, hash, s0, 1, 0, false).1 == 0;
    assert CommitBlocks(cfg, hash, s0, 1, 1, false) == (one, 1);
    assert After(cfg, hash, s0, lost) == one;
    CommitsAppend(cfg, hash, one, 1, 2, false);
    assert CommitBlocks(cfg, hash, one, 1, 0, false).1 == 0;
    assert CommitBlocks(cfg, hash, one, 1, 1, false).1 == 1;
    assert CommitBlocks(cfg, hash, one, 1, 2, false).1 == 2;
    assert After(cfg, hash, one, retry).log == one.log + Range(1, 2, false, false);
    assert [lost, retry][..1] == [lost] && [lost][..0] == [];
    assert Run(cfg, hash, s0, [lost]) == one;
  }

  /** What a successful bulk turn commits is the current plan, whether it was prefetched
      or fetched now; a prefetch for another plan contributes nothing. */
  lemma {:induction false} BulkTurnAppliesItsPlan(cfg: Config, hash: int -> string, s: State, t: Turn)
    requires ValidConfig(cfg) && s.status == Running && t.answers
    requires s.next <= LastHeight(cfg, t.tip) && PlanNow(cfg, s, t.tip).bulk
    ensures var after, plan := After(cfg, hash, s, t), PlanNow(cfg, s, t.tip);
            && (after.log == s.log || (after.log == s.log + Range(s.next, plan.end + 1 - s.next, true, s.stale) && after.next == plan.end + 1))
            && (s.prefetched != Some(plan) ==> after == After(cfg, hash, s.(prefetched := None), t))
  {
    var plan := PlanNow(cfg, s, t.tip);
    CommitsAppend(cfg, hash, Prefetching(cfg, s.(prefetched := None), plan, t), plan.start, plan.end + 1 - plan.start, true);
  }

  ghost predicate RunIsSafe(cfg: Config, hash: int -> string, start: int, s: State, turns: seq<Turn>)
    requires ValidConfig(cfg)
  {
    Inv(cfg, hash, start, Run(cfg, hash, s, turns))
  }

  /** What the coverage check gives the start of a run: past the upgrade it passes iff every
      run that starts above the cursor is safe. */
  lemma {:induction false} RequiredStartIsSafe(cfg: Config, hash: int -> string, start: int, cursor: int, coverage: Option<Coverage>, stale: bool)
    requires ValidConfig(cfg) && cursor < start
    ensures (Active(cfg.chain, cursor) ==> coverage == Some(Coverage(cursor, hash(cursor))))
       <==> forall turns :: RunIsSafe(cfg, hash, start, Started(start, cursor, coverage, stale), turns)
  {
    var s := Started(start, cursor, coverage, stale);
    if Active(cfg.chain, cursor) ==> coverage == Some(Coverage(cursor, hash(cursor))) {
      forall turns ensures RunIsSafe(cfg, hash, start, s, turns) {
        EveryRunIsSafe(cfg, hash, start, cursor, coverage, stale, turns);
      }
    } else {
      assert !RunIsSafe(cfg, hash, start, s, []);
    }
  }

  // ----- where a run may start -------------------------------------------------------------------------

  /** An override, or the height after the cursor, or the node's earliest one. */
  function ResolveStart(configured: int, cursor: int, earliest: int): (start: int)
    ensures configured > 0 ==> start == configured
    ensures configured <= 0 && cursor > 0 ==> start > cursor && start >= earliest && (start == cursor + 1 || start == earliest)
    ensures configured <= 0 && cursor <= 0 ==> start >= 1 && start >= earliest && (start == 1 || start == earliest)
  {
    if configured > 0 then configured
    else if cursor > 0 then if cursor + 1 < earliest then earliest else cursor + 1
    else if earliest > 0 then earliest
    else 1
  }

  /** Refuses heights this database has indexed. `logged` is the highest logged block and
      `other` the highest cursor of another chain, zero without one. */
  function GuardReplay(start: int, cursor: nat, logged: nat, other: nat, allowReplay: bool): (r: Option<int>)
    ensures !allowReplay && r.Some? ==> r.value > cursor && r.value > logged && r.value > other
    ensures allowReplay || (start > cursor && start > logged && start > other) ==> r == Some(start)
    ensures r.None? <==> !(start > cursor && start > logged && start > other) && !allowReplay && (other > 0 || logged > cursor)
    ensures r.Some? ==> r.value == start || r.value == cursor + 1
  {
    if start > Highest(cursor, logged, other) then Some(start)
    else if allowReplay then Some(start)
    else if other > 0 then None
    else if logged > cursor then None
    else Some(cursor + 1)
  }

  function Highest(a: int, b: int, c: int): int {
    var ab := if a > b then a else b;
    if ab > c then ab else c
  }

  /** Startup as it is sequenced: whatever start is configured, without replay the loop
      begins above its cursor and the run is safe. */
  lemma {:induction false} GuardedRunIsSafe(cfg: Config, hash: int -> string, configured: int, cursor: nat, earliest: int, logged: nat,
                                            other: nat, coverage: Option<Coverage>, stale: bool, turns: seq<Turn>)
    requires ValidConfig(cfg) && (Active(cfg.chain, cursor) ==> coverage == Some(Coverage(cursor, hash(cursor))))
    ensures var start := GuardReplay(ResolveStart(configured, cursor, earliest), cursor, logged, other, false);
            start.Some? ==> Inv(cfg, hash, start.value, Run(cfg, hash, Started(start.value, cursor, coverage, stale), turns))
  {
    var start := GuardReplay(ResolveStart(configured, cursor, earliest), cursor, logged, other, false);
    if start.Some? { EveryRunIsSafe(cfg, hash, start.value, cursor, coverage, stale, turns); }
  }
}
