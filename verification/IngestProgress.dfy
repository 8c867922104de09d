/** What the ingest loop gets done when nothing fails: it commits every height up to the
    last one, and a one-shot run ends with fresh projections. */
module IngestProgress {
  import opened Ingest
  import opened IngestSafety
  import opened Positions
  import opened Protocol

  /** The coverage record is exactly where the next commit needs it. */
  predicate Ready(cfg: Config, s: State) {
    Continues(cfg, s.coverage, s.next)
  }

  predicate Continues(cfg: Config, coverage: Option<Coverage>, next: int) {
    cfg.chain == UPGRADE_CHAIN ==>
      if next <= UPGRADE_HEIGHT then coverage == None
      else coverage.Some? && coverage.value.height == next - 1
  }

  /** Consecutive commits from `next` are never refused. */
  lemma {:induction false} NoneIsRefused(cfg: Config, hash: int -> string, s: State, n: nat, bulk: bool)
    requires Ready(cfg, s)
    ensures var (t, done) := CommitBlocks(cfg, hash, s, s.next, n, bulk);
            && done == n && Ready(cfg, t.(next := s.next + n))
            && t == s.(log := s.log + Range(s.next, n, bulk, s.stale), cursor := t.cursor, coverage := t.coverage)
  {
    CommitsAppend(cfg, hash, s, s.next, n, bulk);
    if n > 0 { NoneIsRefused(cfg, hash, s, n - 1, bulk); }
  }

  /** The node answers with this tip and nothing fails. */
  predicate Smooth(t: Turn, tip: int) {
    t.answers && t.tip == tip && t.rebuild == Success && t.prefetch == Success && t.fetch == Success && t.apply == Success
  }

  /** `t` is `s` after committing the heights from s.next up to t.next, each once, in order. */
  predicate Advanced(s: State, t: State) {
    && s.next <= t.next && |t.log| == |s.log| + (t.next - s.next)
    && s.log <= t.log
    && forall i :: |s.log| <= i < |t.log| ==> t.log[i].height == s.next + i - |s.log|
  }

  /** One smooth turn commits its whole window, which has at least one block. */
  lemma {:induction false} SmoothTurnAdvances(cfg: Config, hash: int -> string, s: State, t: Turn)
    requires ValidConfig(cfg) && Ready(cfg, s) && s.status == Running && Smooth(t, t.tip)
    requires s.next <= LastHeight(cfg, t.tip)
    ensures var u := After(cfg, hash, s, t);
            && u.status == Running && Ready(cfg, u) && Advanced(s, u)
            && s.next < u.next == PlanNow(cfg, s, t.tip).end + 1 <= LastHeight(cfg, t.tip) + 1
  {
    var plan := PlanNow(cfg, s, t.tip);
    var size := plan.end + 1 - plan.start;
    if plan.bulk {
      NoneIsRefused(cfg, hash, Prefetching(cfg, s.(prefetched := None), plan, t), size, true);
    } else {
      NoneIsRefused(cfg, hash, Rebuilt(s, t).(prefetched := None), size, false);
    }
  }

  /** At the end of the chain a smooth turn commits nothing, rebuilds what is stale, and
      stops if it is meant to. */
  lemma {:induction false} SmoothIdle(cfg: Config, hash: int -> string, s: State, t: Turn)
    requires ValidConfig(cfg) && Ready(cfg, s) && s.status == Running && Smooth(t, t.tip)
    requires s.next > LastHeight(cfg, t.tip)
    ensures var u := After(cfg, hash, s, t);
            && Ready(cfg, u) && u.log == s.log && u.next == s.next && !u.stale
            && u.status == if cfg.oneShot || (cfg.stop > 0 && s.next > cfg.stop) then Finished else Running
  {
  }

  /** With `n` smooth turns the loop is `n` heights further or at the end; no height is
      missed or repeated on the way; a finished run has committed everything up to the last
      height and has fresh projections; and a one-shot run does finish. */
  lemma {:induction false} CatchesUp(cfg: Config, hash: int -> string, s: State, tip: int, turns: seq<Turn>)
    requires ValidConfig(cfg) && Ready(cfg, s) && s.status == Running && s.next <= LastHeight(cfg, tip) + 1
    requires forall i :: 0 <= i < |turns| ==> Smooth(turns[i], tip)
    ensures var u, last := Run(cfg, hash, s, turns), LastHeight(cfg, tip);
            && Ready(cfg, u) && Advanced(s, u) && u.next <= last + 1
            && (u.next == last + 1 || u.next >= s.next + |turns|)
            && (u.status == Running || (u.status == Finished && u.next == last + 1 && !u.stale))
            && (cfg.oneShot && |turns| > last + 1 - s.next ==> u.status == Finished)
  {
    if turns != [] {
      var init, t := turns[..|turns| - 1], turns[|turns| - 1];
      CatchesUp(cfg, hash, s, tip, init);
      var v := Run(cfg, hash, s, init);
      if v.status == Running {
        if v.next <= LastHeight(cfg, tip) {
          SmoothTurnAdvances(cfg, hash, v, t);
        } else {
          SmoothIdle(cfg, hash, v, t);
        }
      }
    }
  }

  // ----- after failures --------------------------------------------------------------------------------

  /** The coverage record fits the end of the log, wherever `next` stands. */
  predicate Fits(cfg: Config, start: int, s: State) {
    Continues(cfg, s.coverage, start + |s.log|)
  }

  lemma {:induction false} CommitsFit(cfg: Config, hash: int -> string, start: int, s: State, n: nat, bulk: bool)
    requires Fits(cfg, start, s) && s.next == start + |s.log|
    ensures Fits(cfg, start, CommitBlocks(cfg, hash, s, s.next, n, bulk).0)
  {
    NoneIsRefused(cfg, hash, s, n, bulk);
  }

  lemma {:induction false} StreamFits(cfg: Config, hash: int -> string, start: int, s: State, plan: Plan, t: Turn)
    requires Fits(cfg, start, s) && plan.start == s.next == start + |s.log| <= plan.end + 1
    ensures Fits(cfg, start, StreamWindow(cfg, hash, s, plan, t))
  {
    var size := plan.end + 1 - plan.start;
    var fetched := if FetchOutcome(s, plan, t) == Success || t.streamed > size then size else t.streamed;
    CommitsFit(cfg, hash, start, s.(prefetched := None), fetched, false);
  }

  lemma {:induction false} BulkFits(cfg: Config, hash: int -> string, start: int, s: State, plan: Plan, t: Turn)
    requires Fits(cfg, start, s) && plan.start == s.next == start + |s.log| <= plan.end + 1
    ensures Fits(cfg, start, BulkWindow(cfg, hash, s, plan, t))
  {
    CommitsFit(cfg, hash, start, Prefetching(cfg, s.(prefetched := None), plan, t), plan.end + 1 - plan.start, true);
  }

  /** No turn, whatever fails in it, takes the coverage record away from the end of the log. */
  lemma {:induction false} TurnFits(cfg: Config, hash: int -> string, start: int, s: State, t: Turn)
    requires ValidConfig(cfg) && Kept(cfg, hash, start, s, true) && Fits(cfg, start, s)
    ensures Fits(cfg, start, After(cfg, hash, s, t))
  {
    if s.status == Running && t.answers && s.next <= LastHeight(cfg, t.tip) {
      var plan := PlanNow(cfg, s, t.tip);
      if plan.bulk {
        BulkFits(cfg, hash, start, s, plan, t);
      } else if !Rebuilt(s, t).stale {
        StreamFits(cfg, hash, start, Rebuilt(s, t), plan, t);
      }
    }
  }

  lemma {:induction false} RunFits(cfg: Config, hash: int -> string, start: int, s: State, turns: seq<Turn>)
    requires ValidConfig(cfg) && Kept(cfg, hash, start, s, true) && Fits(cfg, start, s)
    requires forall i :: 0 <= i < |turns| ==> turns[i].reread
    ensures Kept(cfg, hash, start, Run(cfg, hash, s, turns), true) && Fits(cfg, start, Run(cfg, hash, s, turns))
  {
    if turns != [] {
      var init := turns[..|turns| - 1];
      assert forall i :: 0 <= i < |init| ==> init[i] == turns[i];
      RunFits(cfg, hash, start, s, init);
      TurnKeeps(cfg, hash, start, Run(cfg, hash, s, init), turns[|turns| - 1], true);
      TurnFits(cfg, hash, start, Run(cfg, hash, s, init), turns[|turns| - 1]);
    }
  }

  /** Ingest heals itself: after any run of failing turns that did not abort, enough smooth
      turns bring it to the last height, with every height from the start committed exactly
      once over the whole run. */
  lemma {:induction false} HealsAndCatchesUp(cfg: Config, hash: int -> string, cursor: int, coverage: Option<Coverage>, stale: bool,
                                             failing: seq<Turn>, tip: int, smooth: seq<Turn>)
    requires CanStart(cfg, hash, cursor + 1, cursor, coverage) && cursor >= 0
    requires cfg.chain == UPGRADE_CHAIN && cursor < UPGRADE_HEIGHT ==> coverage == None
    requires forall i :: 0 <= i < |failing| ==> failing[i].reread
    requires forall i :: 0 <= i < |smooth| ==> Smooth(smooth[i], tip)
    ensures var v, last := Run(cfg, hash, Started(cursor + 1, cursor, coverage, stale), failing), LastHeight(cfg, tip);
            v.status == Running && v.next <= last + 1 && |smooth| > last + 1 - v.next ==>
              var u := Run(cfg, hash, v, smooth);
              && u.next == last + 1 && |u.log| == last - cursor && ExactlyOnce(cursor + 1, u.log)
              && (cfg.oneShot ==> u.status == Finished && !u.stale)
  {
    var s := Started(cursor + 1, cursor, coverage, stale);
    RunFits(cfg, hash, cursor + 1, s, failing);
    var v := Run(cfg, hash, s, failing);
    if v.status == Running && v.next <= LastHeight(cfg, tip) + 1 {
      CatchesUp(cfg, hash, v, tip, smooth);
      var u := Run(cfg, hash, v, smooth);
      forall i | 0 <= i < |u.log| ensures u.log[i].height == cursor + 1 + i {
        assert i < |v.log| ==> u.log[i] == v.log[i];
      }
    }
  }
}
