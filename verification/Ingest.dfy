/** The ingest loop (sync/syncer.go, sync/bulkwindow.go, db/economy_coverage.go): plan a
    window, fetch it, commit it block by block or at once, and recover from transient
    failures. Commit outcomes are definite and no replay is configured. */
module Ingest {
  import opened Positions
  import opened Protocol

  datatype Config = Config(chain: string, batch: int, bulkWindow: int, threshold: int, bulk: bool, defer: bool,
                           oneShot: bool, stop: int)

  /** The settings the configuration loader guarantees. */
  predicate ValidConfig(cfg: Config) {
    cfg.batch >= 1 && cfg.bulkWindow >= 1
  }

  datatype Coverage = Coverage(height: int, hash: string)

  datatype Plan = Plan(start: int, end: int, bulk: bool)

  /** One committed block, how it was committed, and whether projections were stale then. */
  datatype Committed = Committed(height: int, bulk: bool, stale: bool)

  datatype Status = Running | Finished | Aborted

  datatype State = State(next: int, prefetched: Option<Plan>, stale: bool, cursor: int, coverage: Option<Coverage>,
                         log: seq<Committed>, status: Status)

  datatype Outcome = Success | Transient | Fatal

  /** What one turn of the loop meets: the node's tip, if it answers; how rebuild, fetch
      and apply end; how many blocks of a streamed window commit; and whether the cursor
      can be read again after a failure. */
  datatype Turn = Turn(answers: bool, tip: int, rebuild: Outcome, prefetch: Outcome, fetch: Outcome, streamed: nat,
                       apply: Outcome, reread: bool)

  // ----- committing --------------------------------------------------------------------------

  /** The contiguity rule of the coverage record, as its conditional upsert states it. */
  predicate Extends(coverage: Option<Coverage>, height: int, hash: string) {
    match coverage
    case None => height == UPGRADE_HEIGHT
    case Some(c) => c.height == height - 1 || (c.height == height && c.hash == hash)
  }

  class CoverageTable {
    var row: Option<Coverage>

    constructor ()
      ensures row == None
    {
      row := None;
    }

    /** Records one block, or refuses it because earlier coverage is missing. */
    method Record(chain: string, height: int, hash: string) returns (ok: bool)
      modifies this
      ensures ok <==>
                || chain != UPGRADE_CHAIN || height < UPGRADE_HEIGHT
                || (old(row) == None && height == UPGRADE_HEIGHT)
                || (old(row).Some? && (height == old(row).value.height + 1 || old(row).value == Coverage(height, hash)))
      ensures row == if ok && chain == UPGRADE_CHAIN && height >= UPGRADE_HEIGHT then Some(Coverage(height, hash)) else old(row)
    {
      if !Active(chain, height) { return true; }
      if row.None? {
        if height != UPGRADE_HEIGHT { return false; }
      } else if row.value.height != height - 1 && !(row.value.height == height && row.value.hash == hash) {
        return false;
      }
      row := Some(Coverage(height, hash));
      ok := true;
    }

    method Require(chain: string, cursor: int, hash: string) returns (ok: bool)
      ensures ok <==> !Active(chain, cursor) || row == Some(Coverage(cursor, hash))
    {
      ok := !Active(chain, cursor) || row == Some(Coverage(cursor, hash));
    }
  }

  /** One block's transaction; None when the coverage rule refuses it. */
  function CommitBlock(cfg: Config, hash: int -> string, s: State, height: int, bulk: bool): Option<State> {
    if Active(cfg.chain, height) && !Extends(s.coverage, height, hash(height)) then None
    else Some(s.(cursor := height, log := s.log + [Committed(height, bulk, s.stale)],
                 coverage := if Active(cfg.chain, height) then Some(Coverage(height, hash(height))) else s.coverage))
  }

  /** Up to `n` blocks from `first`; stops at a refused one. */
  function CommitBlocks(cfg: Config, hash: int -> string, s: State, first: int, n: nat, bulk: bool): (r: (State, nat))
    ensures r.1 <= n
  {
    if n == 0 then (s, 0)
    else
      var earlier := CommitBlocks(cfg, hash, s, first, n - 1, bulk);
      if earlier.1 < n - 1 then earlier
      else
        match CommitBlock(cfg, hash, earlier.0, first + n - 1, bulk)
        case None => earlier
        case Some(t) => (t, n)
  }

  // ----- planning --------------------------------------------------------------------------------

  function WindowSize(cfg: Config, bulk: bool): int {
    if !bulk || cfg.bulkWindow <= 0 then cfg.batch else cfg.bulkWindow
  }

  function LastHeight(cfg: Config, tip: int): int {
    if cfg.stop > 0 && cfg.stop < tip then cfg.stop else tip
  }

  function PlanFrom(cfg: Config, next: int, end: int, bulk: bool): Plan {
    var last := next + WindowSize(cfg, bulk) - 1;
    Plan(next, if last > end then end else last, bulk)
  }

  function PlanNow(cfg: Config, s: State, tip: int): Plan {
    var end := LastHeight(cfg, tip);
    PlanFrom(cfg, s.next, end, cfg.bulk && end - s.next + 1 >= cfg.threshold)
  }

  // ----- one turn of the loop ------------------------------------------------------------------------

  /** Drops the prefetch and resumes after whatever has committed. */
  function Recovered(s: State, reread: bool): State {
    s.(prefetched := None, next := if reread && s.cursor > 0 && s.cursor + 1 > s.next then s.cursor + 1 else s.next)
  }

  function Failing(s: State, outcome: Outcome, reread: bool): State {
    if outcome == Transient then Recovered(s, reread) else s.(prefetched := None, status := Aborted)
  }

  /** Stale projections are rebuilt before anything that needs them. */
  function Rebuilt(s: State, t: Turn): State {
    if s.stale && t.rebuild == Success then s.(stale := false) else s
  }

  function Idle(cfg: Config, s: State, t: Turn): State {
    var dropped := s.(prefetched := None);
    var ready := Rebuilt(dropped, t);
    if ready.stale then Failing(dropped, t.rebuild, t.reread)
    else if cfg.oneShot || (cfg.stop > 0 && s.next > cfg.stop) then ready.(status := Finished)
    else ready
  }

  /** How the planned window is obtained: a prefetch counts only when it is that plan. */
  function FetchOutcome(s: State, plan: Plan, t: Turn): Outcome {
    if s.prefetched == Some(plan) then t.prefetch else t.fetch
  }

  /** Streaming commits block by block while it fetches. */
  function StreamWindow(cfg: Config, hash: int -> string, s: State, plan: Plan, t: Turn): State
    requires plan.start <= plan.end + 1
  {
    var size := plan.end + 1 - plan.start;
    var fetched := if FetchOutcome(s, plan, t) == Success || t.streamed > size then size else t.streamed;
    var r := CommitBlocks(cfg, hash, s.(prefetched := None), plan.start, fetched, false);
    if r.1 < fetched then r.0.(status := Aborted)
    else if FetchOutcome(s, plan, t) != Success then Failing(r.0, FetchOutcome(s, plan, t), t.reread)
    else r.0.(next := plan.end + 1)
  }

  /** While a window is applied the following one is already being fetched. */
  function Prefetching(cfg: Config, s: State, plan: Plan, t: Turn): State {
    var end := LastHeight(cfg, t.tip);
    s.(prefetched := if plan.end < end then Some(PlanFrom(cfg, plan.end + 1, end, true)) else None)
  }

  /** The whole window in one transaction, or nothing. */
  function BulkWindow(cfg: Config, hash: int -> string, s: State, plan: Plan, t: Turn): State
    requires plan.start <= plan.end + 1
  {
    var size := plan.end + 1 - plan.start;
    var ready := s.(prefetched := None);
    if FetchOutcome(s, plan, t) != Success then Failing(ready, FetchOutcome(s, plan, t), t.reread)
    else
      var ahead := Prefetching(cfg, ready, plan, t);
      var r := CommitBlocks(cfg, hash, ahead, plan.start, size, true);
      if t.apply != Success then Failing(ahead, t.apply, t.reread)
      else if r.1 < size then ready.(status := Aborted)
      else r.0.(next := plan.end + 1, stale := r.0.stale || cfg.defer)
  }

  function After(cfg: Config, hash: int -> string, s: State, t: Turn): State
    requires ValidConfig(cfg)
  {
    if s.status != Running || !t.answers then s
    else if s.next > LastHeight(cfg, t.tip) then Idle(cfg, s, t)
    else
      var plan := PlanNow(cfg, s, t.tip);
      if plan.bulk then BulkWindow(cfg, hash, s, plan, t)
      else if Rebuilt(s, t).stale then Failing(s, t.rebuild, t.reread)
      else StreamWindow(cfg, hash, Rebuilt(s, t), plan, t)
  }

  function Run(cfg: Config, hash: int -> string, s: State, turns: seq<Turn>): State
    requires ValidConfig(cfg)
  {
    if turns == [] then s else After(cfg, hash, Run(cfg, hash, s, turns[..|turns| - 1]), turns[|turns| - 1])
  }

  // ----- the loop's own state, updated in place ----------------------------------------------------------

  class Loop {
    const cfg: Config
    const hash: int -> string
    var next: int
    var prefetched: Option<Plan>
    var stale: bool
    var cursor: int
    var coverage: Option<Coverage>
    var log: seq<Committed>
    var status: Status

    constructor (cfg: Config, hash: int -> string, start: int, cursor: int, coverage: Option<Coverage>, stale: bool)
      ensures View() == State(start, None, stale, cursor, coverage, [], Running)
      ensures this.cfg == cfg && this.hash == hash
    {
      this.cfg, this.hash, next, prefetched, this.stale := cfg, hash, start, None, stale;
      this.cursor, this.coverage, log, status := cursor, coverage, [], Running;
    }

    function View(): State
      reads this
    {
      State(next, prefetched, stale, cursor, coverage, log, status)
    }

    /** One block's transaction. */
    method Commit(height: int, bulk: bool) returns (ok: bool)
      modifies this`cursor, this`coverage, this`log
      ensures ok <==> CommitBlock(cfg, hash, old(View()), height, bulk).Some?
      ensures View() == if ok then CommitBlock(cfg, hash, old(View()), height, bulk).value else old(View())
    {
      if Active(cfg.chain, height) {
        if !Extends(coverage, height, hash(height)) { return false; }
        coverage := Some(Coverage(height, hash(height)));
      }
      cursor := height;
      log := log + [Committed(height, bulk, stale)];
      ok := true;
    }

    method CommitSome(first: int, n: nat, bulk: bool) returns (done: nat)
      modifies this`cursor, this`coverage, this`log
      ensures (View(), done) == CommitBlocks(cfg, hash, old(View()), first, n, bulk)
    {
      done := 0;
      while done < n
        invariant done <= n && (View(), done) == CommitBlocks(cfg, hash, old(View()), first, done, bulk)
      {
        var ok := Commit(first + done, bulk);
        if !ok {
          StopsHere(cfg, hash, old(View()), first, done, n, bulk);
          return;
        }
        done := done + 1;
      }
    }

    /** Resumes from the cursor when it can be read; otherwise `next` stays. */
    method Recover(reread: bool)
      modifies this`prefetched, this`next
      ensures View() == Recovered(old(View()), reread)
    {
      prefetched := None;
      if reread && cursor > 0 && cursor + 1 > next { next := cursor + 1; }
    }

    method Fail(outcome: Outcome, reread: bool)
      modifies this`prefetched, this`next, this`status
      ensures View() == Failing(old(View()), outcome, reread)
    {
      if outcome == Transient {
        Recover(reread);
      } else {
        prefetched := None;
        status := Aborted;
      }
    }

    /** False when the turn ends here: the rebuild failed and was dealt with. */
    method EnsureProjections(t: Turn) returns (ready: bool)
      modifies this`stale, this`prefetched, this`next, this`status
      ensures ready <==> !Rebuilt(old(View()), t).stale
      ensures View() == if ready then Rebuilt(old(View()), t) else Failing(old(View()), t.rebuild, t.reread)
    {
      if !stale { return true; }
      if t.rebuild == Success {
        stale := false;
        return true;
      }
      Fail(t.rebuild, t.reread);
      ready := false;
    }

    /** The window to apply: a prefetch that is not the current plan is thrown away. */
    method Fetch(plan: Plan, t: Turn) returns (outcome: Outcome)
      modifies this`prefetched
      ensures outcome == FetchOutcome(old(View()), plan, t)
      ensures View() == old(View()).(prefetched := None)
    {
      outcome := t.fetch;
      if prefetched.Some? {
        var fetched := prefetched.value;
        if fetched.start == plan.start && fetched.end == plan.end && fetched.bulk == plan.bulk { outcome := t.prefetch; }
        prefetched := None;
      }
    }

    method Stream(plan: Plan, t: Turn)
      requires plan.start <= plan.end + 1
      modifies this
      ensures View() == StreamWindow(cfg, hash, old(View()), plan, t)
    {
      var size := plan.end + 1 - plan.start;
      var outcome := Fetch(plan, t);
      var fetched := if outcome == Success || t.streamed > size then size else t.streamed;
      var done := CommitSome(plan.start, fetched, false);
      if done < fetched {
        status := Aborted;
      } else if outcome != Success {
        Fail(outcome, t.reread);
      } else {
        next := plan.end + 1;
      }
    }

    method ApplyBulk(plan: Plan, t: Turn)
      requires plan.start <= plan.end + 1
      modifies this
      ensures View() == BulkWindow(cfg, hash, old(View()), plan, t)
    {
      var size := plan.end + 1 - plan.start;
      var outcome := Fetch(plan, t);
      if outcome != Success {
        Fail(outcome, t.reread);
        return;
      }
      if plan.end < LastHeight(cfg, t.tip) {
        prefetched := Some(PlanFrom(cfg, plan.end + 1, LastHeight(cfg, t.tip), true));
      }
      if t.apply != Success {
        Fail(t.apply, t.reread);
        return;
      }
      var before := (cursor, coverage, log);
      var done := CommitSome(plan.start, size, true);
      if done < size {
        // The window's transaction is rolled back and the loop gives up.
        cursor, coverage, log := before.0, before.1, before.2;
        prefetched, status := None, Aborted;
        return;
      }
      if cfg.defer { stale := true; }
      next := plan.end + 1;
    }

    method Once(t: Turn)
      requires ValidConfig(cfg)
      modifies this
      ensures View() == After(cfg, hash, old(View()), t)
    {
      if status != Running || !t.answers { return; }
      var end := LastHeight(cfg, t.tip);
      if next > end {
        prefetched := None;
        var ready := EnsureProjections(t);
        if ready && (cfg.oneShot || (cfg.stop > 0 && next > cfg.stop)) { status := Finished; }
        return;
      }
      var plan := PlanNow(cfg, View(), t.tip);
      if plan.bulk {
        ApplyBulk(plan, t);
        return;
      }
      var ready := EnsureProjections(t);
      if ready { Stream(plan, t); }
    }

    method RunAll(turns: seq<Turn>)
      requires ValidConfig(cfg)
      modifies this
      ensures View() == Run(cfg, hash, old(View()), turns)
    {
      for i := 0 to |turns|
        invariant View() == Run(cfg, hash, old(View()), turns[..i])
      {
        assert turns[..i + 1][..i] == turns[..i];
        Once(turns[i]);
      }
      assert turns[..|turns|] == turns;
    }
  }

  lemma {:induction false} StopsHere(cfg: Config, hash: int -> string, s: State, first: int, done: nat, n: nat, bulk: bool)
    requires done < n && CommitBlocks(cfg, hash, s, first, done, bulk).1 == done
    requires CommitBlock(cfg, hash, CommitBlocks(cfg, hash, s, first, done, bulk).0, first + done, bulk).None?
    ensures CommitBlocks(cfg, hash, s, first, n, bulk) == CommitBlocks(cfg, hash, s, first, done, bulk)
  {
    if n > done + 1 { StopsHere(cfg, hash, s, first, done, n - 1, bulk); }
  }
}
