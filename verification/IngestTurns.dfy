/** What one turn and a whole run of the ingest loop mean in terms of the configuration and of
    what the node says (sync/syncer.go, sync/bulkwindow.go). */
module IngestTurns {
  import opened Ingest
  import opened IngestProgress
  import opened IngestRepeats
  import opened IngestSafety
  import opened Positions

  /** The heights that a turn adds to the log. */
  predicate NewAtMost(s: State, u: State, bound: int) {
    |s.log| <= |u.log| && forall i :: |s.log| <= i < |u.log| ==> u.log[i].height <= bound
  }

  // ----- nothing is committed past the tip or the stop height ------------------------------------------

  lemma {:induction false} StreamStaysInside(cfg: Config, hash: int -> string, s: State, plan: Plan, t: Turn)
    requires plan.start == s.next <= plan.end
    ensures NewAtMost(s, StreamWindow(cfg, hash, s, plan, t), plan.end)
  {
    var size := plan.end + 1 - plan.start;
    var fetched := if FetchOutcome(s, plan, t) == Success || t.streamed > size then size else t.streamed;
    CommitsAppend(cfg, hash, s.(prefetched := None), plan.start, fetched, false);
  }

  lemma {:induction false} BulkStaysInside(cfg: Config, hash: int -> string, s: State, plan: Plan, t: Turn)
    requires plan.start == s.next <= plan.end
    ensures NewAtMost(s, BulkWindow(cfg, hash, s, plan, t), plan.end)
  {
    CommitsAppend(cfg, hash, Prefetching(cfg, s.(prefetched := None), plan, t), plan.start, plan.end + 1 - plan.start, true);
  }

  /** No turn commits above the tip it is told, nor above the stop height. */
  lemma {:induction false} TurnStaysInside(cfg: Config, hash: int -> string, s: State, t: Turn)
    requires ValidConfig(cfg)
    ensures NewAtMost(s, After(cfg, hash, s, t), t.tip)
    ensures cfg.stop > 0 ==> NewAtMost(s, After(cfg, hash, s, t), cfg.stop)
  {
    if s.status == Running && t.answers && s.next <= LastHeight(cfg, t.tip) {
      var plan := PlanNow(cfg, s, t.tip);
      if plan.bulk {
        BulkStaysInside(cfg, hash, s, plan, t);
      } else if !Rebuilt(s, t).stale {
        StreamStaysInside(cfg, hash, Rebuilt(s, t), plan, t);
      }
    }
  }

  lemma {:induction false} TurnExtends(cfg: Config, hash: int -> string, s: State, t: Turn)
    requires ValidConfig(cfg)
    ensures s.log <= After(cfg, hash, s, t).log
  {
    var k := TurnAppends(cfg, hash, s, t);
  }

  predicate AllAtMost(log: seq<Committed>, bound: int) {
    forall i :: 0 <= i < |log| ==> log[i].height <= bound
  }

  lemma {:induction false} LongerAtMost(s: State, u: State, bound: int)
    requires AllAtMost(s.log, bound) && s.log <= u.log && NewAtMost(s, u, bound)
    ensures AllAtMost(u.log, bound)
  {
    forall i | 0 <= i < |u.log| ensures u.log[i].height <= bound {
      assert i < |s.log| ==> u.log[i] == s.log[i];
    }
  }

  /** In every run no height above a configured stop height is ever committed. */
  lemma {:induction false} RunStopsAtStop(cfg: Config, hash: int -> string, s: State, turns: seq<Turn>)
    requires ValidConfig(cfg) && cfg.stop > 0 && AllAtMost(s.log, cfg.stop)
    ensures AllAtMost(Run(cfg, hash, s, turns).log, cfg.stop)
  {
    if turns != [] {
      var init, t := turns[..|turns| - 1], turns[|turns| - 1];
      RunStopsAtStop(cfg, hash, s, init);
      var v := Run(cfg, hash, s, init);
      TurnStaysInside(cfg, hash, v, t);
      TurnExtends(cfg, hash, v, t);
      LongerAtMost(v, After(cfg, hash, v, t), cfg.stop);
    }
  }

  // ----- what a turn without failure does -----------------------------------------------------------------

  /** Past the stop height it finishes without committing; short of the tip and of the stop
      height it commits. */
  lemma {:induction false} SmoothTurnMeans(cfg: Config, hash: int -> string, s: State, t: Turn)
    requires ValidConfig(cfg) && Ready(cfg, s) && s.status == Running && Smooth(t, t.tip)
    ensures var u := After(cfg, hash, s, t);
            && (s.next > cfg.stop > 0 ==> u.status == Finished && u.log == s.log && !u.stale)
            && (s.next > t.tip && cfg.oneShot ==> u.status == Finished && u.log == s.log && !u.stale)
            && (s.next > t.tip && !cfg.oneShot && (cfg.stop <= 0 || s.next <= cfg.stop) ==> u.status == Running && u.log == s.log && !u.stale)
            && (s.next <= t.tip && (cfg.stop <= 0 || s.next <= cfg.stop) ==> u.status == Running && |u.log| > |s.log| && u.log[|s.log|].height == s.next)
  {
    if s.next <= t.tip && (cfg.stop <= 0 || s.next <= cfg.stop) {
      SmoothTurnAdvances(cfg, hash, s, t);
    } else {
      SmoothIdle(cfg, hash, s, t);
    }
  }

  /** How many blocks may still be committed. */
  function Lag(cfg: Config, s: State, t: Turn): int {
    (if cfg.stop > 0 && cfg.stop < t.tip then cfg.stop else t.tip) - s.next + 1
  }

  function Least(a: int, b: int): int {
    if a < b then a else b
  }

  /** How much it commits, and how: a bulk window when bulk is on and the lag has reached the
      threshold, otherwise a streamed batch, and never more than the lag. Deferred projections
      are stale afterwards, and the next window is already being fetched. */
  lemma {:induction false} SmoothTurnCommits(cfg: Config, hash: int -> string, s: State, t: Turn)
    requires ValidConfig(cfg) && Ready(cfg, s) && s.status == Running && Smooth(t, t.tip) && Lag(cfg, s, t) > 0
    ensures var u, bulk := After(cfg, hash, s, t), cfg.bulk && Lag(cfg, s, t) >= cfg.threshold;
            && |u.log| == |s.log| + Least(if bulk then cfg.bulkWindow else cfg.batch, Lag(cfg, s, t))
            && u.next == s.next + (|u.log| - |s.log|)
            && (forall i :: |s.log| <= i < |u.log| ==> u.log[i].bulk == bulk)
            && (u.stale <==> bulk && (s.stale || cfg.defer))
            && u.prefetched == (if bulk && Lag(cfg, u, t) > 0
                                then Some(Plan(u.next, u.next + Least(cfg.bulkWindow, Lag(cfg, u, t)) - 1, true)) else None)
  {
    SmoothTurnAdvances(cfg, hash, s, t);
    var plan := PlanNow(cfg, s, t.tip);
    var size := plan.end + 1 - plan.start;
    if plan.bulk {
      NoneIsRefused(cfg, hash, Prefetching(cfg, s.(prefetched := None), plan, t), size, true);
    } else {
      NoneIsRefused(cfg, hash, Rebuilt(s, t).(prefetched := None), size, false);
    }
  }

  // ----- failures ---------------------------------------------------------------------------------------------

  /** Transient failures never end the loop, whatever they hit. */
  lemma {:induction false} TransientKeepsRunning(cfg: Config, hash: int -> string, start: int, s: State, t: Turn)
    requires ValidConfig(cfg) && Tight(start, s) && InPlace(start, s) && Fits(cfg, start, s) && s.status == Running
    requires t.rebuild != Fatal && t.fetch != Fatal && t.prefetch != Fatal && t.apply != Fatal
    ensures After(cfg, hash, s, t).status != Aborted
  {
    if t.answers && s.next <= LastHeight(cfg, t.tip) {
      var plan := PlanNow(cfg, s, t.tip);
      if plan.bulk {
        NoneIsRefused(cfg, hash, Prefetching(cfg, s.(prefetched := None), plan, t), plan.end + 1 - plan.start, true);
      } else if !Rebuilt(s, t).stale {
        TransientStreams(cfg, hash, Rebuilt(s, t), plan, t);
      }
    }
  }

  lemma {:induction false} TransientStreams(cfg: Config, hash: int -> string, s: State, plan: Plan, t: Turn)
    requires Ready(cfg, s) && s.status == Running && plan.start == s.next <= plan.end
    requires t.fetch != Fatal && t.prefetch != Fatal
    ensures StreamWindow(cfg, hash, s, plan, t).status != Aborted
  {
    var size := plan.end + 1 - plan.start;
    var fetched := if FetchOutcome(s, plan, t) == Success || t.streamed > size then size else t.streamed;
    NoneIsRefused(cfg, hash, s.(prefetched := None), fetched, false);
  }

  /** A fatal fetch or apply ends it: a bulk window then commits nothing. */
  lemma {:induction false} FatalAborts(cfg: Config, hash: int -> string, s: State, t: Turn)
    requires ValidConfig(cfg) && s.status == Running && t.answers && Lag(cfg, s, t) > 0 && s.prefetched == None
    ensures var u, bulk := After(cfg, hash, s, t), cfg.bulk && Lag(cfg, s, t) >= cfg.threshold;
            && (bulk && (t.fetch == Fatal || (t.fetch == Success && t.apply == Fatal)) ==> u.status == Aborted && u.log == s.log)
            && (!bulk && !s.stale && t.fetch == Fatal ==> u.status == Aborted)
            && (!bulk && s.stale && t.rebuild == Fatal ==> u.status == Aborted && u.log == s.log)
  {
  }

  /** A node that does not answer, and a loop that has ended, change nothing. */
  lemma {:induction false} SilenceIsIdle(cfg: Config, hash: int -> string, s: State, t: Turn)
    requires ValidConfig(cfg) && (!t.answers || s.status != Running)
    ensures After(cfg, hash, s, t) == s
  {
  }

  /** Only a successful rebuild makes stale projections fresh. */
  lemma {:induction false} OnlyRebuildRefreshes(cfg: Config, hash: int -> string, s: State, t: Turn)
    requires ValidConfig(cfg) && s.stale && !After(cfg, hash, s, t).stale
    ensures t.rebuild == Success
  {
    if s.status == Running && t.answers && s.next <= LastHeight(cfg, t.tip) {
      var plan := PlanNow(cfg, s, t.tip);
      if plan.bulk {
        CommitsAppend(cfg, hash, Prefetching(cfg, s.(prefetched := None), plan, t), plan.start, plan.end + 1 - plan.start, true);
      }
    }
  }

  /** A prefetch of the current plan is used: then it does not matter how a new fetch would end. */
  lemma {:induction false} PrefetchIsUsed(cfg: Config, hash: int -> string, s: State, t: Turn, fetch: Outcome)
    requires ValidConfig(cfg) && Lag(cfg, s, t) > 0 && cfg.bulk && Lag(cfg, s, t) >= cfg.threshold
    requires s.prefetched == Some(Plan(s.next, s.next + Least(cfg.bulkWindow, Lag(cfg, s, t)) - 1, true))
    ensures After(cfg, hash, s, t) == After(cfg, hash, s, t.(fetch := fetch))
  {
  }

  /** A failed window: a stream keeps what it had committed, a bulk window commits nothing, and
      the loop goes on after the last commit if it can read its cursor again. */
  lemma {:induction false} InterruptedTurn(cfg: Config, hash: int -> string, s: State, t: Turn)
    requires ValidConfig(cfg) && Ready(cfg, s) && s.status == Running && t.answers && Lag(cfg, s, t) > 0
    requires s.prefetched == None && !s.stale && t.fetch == Transient
    ensures var u, bulk := After(cfg, hash, s, t), cfg.bulk && Lag(cfg, s, t) >= cfg.threshold;
            && |u.log| == |s.log| + (if bulk then 0 else Least(t.streamed, Least(cfg.batch, Lag(cfg, s, t))))
            && (forall i :: 0 <= i < |s.log| ==> u.log[i] == s.log[i])
            && (forall i :: |s.log| <= i < |u.log| ==> u.log[i] == Committed(s.next + (i - |s.log|), false, false))
            && (u.next == if t.reread && u.cursor > 0 && u.cursor + 1 > s.next then u.cursor + 1 else s.next)
            && u.prefetched == None && u.status == Running
  {
    var plan := PlanNow(cfg, s, t.tip);
    if !plan.bulk {
      var size := plan.end + 1 - plan.start;
      var fetched := if t.streamed > size then size else t.streamed;
      NoneIsRefused(cfg, hash, s.(prefetched := None), fetched, false);
      CommitsAppend(cfg, hash, s.(prefetched := None), plan.start, fetched, false);
    }
  }

  /** One block commits unless, past the upgrade of the test network, it is neither the block
      after the covered one nor that block again; before the upgrade coverage is not kept. */
  lemma {:induction false} CommitMeans(cfg: Config, hash: int -> string, s: State, height: int, bulk: bool)
    ensures var u, covered := CommitBlock(cfg, hash, s, height, bulk), cfg.chain == "structstestnet-111" && height >= 3353000;
            && (u.Some? <==>
                  || !covered
                  || (s.coverage == None && height == 3353000)
                  || (s.coverage.Some? && (height == s.coverage.value.height + 1 || s.coverage.value == Coverage(height, hash(height)))))
            && (u.Some? ==>
                  && u.value.cursor == height && u.value.log == s.log + [Committed(height, bulk, s.stale)]
                  && u.value.coverage == if covered then Some(Coverage(height, hash(height))) else s.coverage)
  {
  }
}
