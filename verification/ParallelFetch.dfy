/** Fetching one window with parallel workers and reordering the results
    (sync/syncer.go): semaphore, bounded results channel, pending map. */
module ParallelFetch {

  datatype Bundle = Bundle(height: int, content: string)

  datatype Delivery = Arrived(height: int, bundle: Bundle) | Failed(height: int)

  /** What the consuming loop holds. */
  datatype Consumer = Consumer(pending: map<int, Bundle>, expected: int, emitted: seq<Bundle>)

  // ----- the consumer ---------------------------------------------------------------------

  /** Everything that has become contiguous is emitted. */
  function Drained(c: Consumer): Consumer
    decreases |c.pending|
  {
    if c.expected !in c.pending then c
    else Drained(Consumer(c.pending - {c.expected}, c.expected + 1, c.emitted + [c.pending[c.expected]]))
  }

  function Received(c: Consumer, d: Delivery): Consumer
    requires d.Arrived?
  {
    Drained(c.(pending := c.pending[d.height := d.bundle]))
  }

  class Window {
    const end: int
    var pending: map<int, Bundle>
    var expected: int
    var emitted: seq<Bundle>
    var failed: bool

    constructor (start: int, end: int)
      ensures this.end == end && View() == Consumer(map[], start, []) && !failed
    {
      this.end, pending, expected, emitted, failed := end, map[], start, [], false;
    }

    function View(): Consumer
      reads this
    {
      Consumer(pending, expected, emitted)
    }

    /** One turn of the consuming loop. */
    method Deliver(d: Delivery)
      requires !failed
      modifies this
      ensures failed == d.Failed?
      ensures View() == if d.Failed? then old(View()) else Received(old(View()), d)
    {
      if d.Failed? {
        failed := true;
        return;
      }
      pending := pending[d.height := d.bundle];
      while expected in pending
        invariant Drained(View()) == Received(old(View()), d) && !failed
        decreases |pending|
      {
        emitted := emitted + [pending[expected]];
        pending := pending - {expected};
        expected := expected + 1;
      }
    }
  }

  // ----- all goroutines ---------------------------------------------------------------------------

  /** A goroutine that fetches one height. */
  datatype Worker = Worker(height: int)

  /** `launch` is the next height to start; the workers of all three sets hold a
      semaphore slot. */
  datatype State = State(launch: int, fetching: set<Worker>, sending: set<Worker>, releasing: set<Worker>,
                         results: seq<Delivery>, consumer: Consumer, stopped: bool)

  datatype Step = Spawn | Fetched(worker: Worker) | Send(worker: Worker, ok: bool) | Release(worker: Worker) | Receive

  /** The chain's blocks; a bundle is checked against the height it was asked for. */
  type Chain = int -> Bundle

  predicate Enabled(s: State, end: int, workers: nat, step: Step) {
    !s.stopped && s.consumer.expected <= end &&
    match step
    case Spawn => s.launch <= end && |s.fetching| + |s.sending| + |s.releasing| < workers
    case Fetched(w) => w in s.fetching
    case Send(w, _) => w in s.sending && |s.results| < 2 * workers
    case Release(w) => w in s.releasing
    case Receive => s.results != []
  }

  function Next(chain: Chain, s: State, end: int, workers: nat, step: Step): State
    requires Enabled(s, end, workers, step)
  {
    match step
    case Spawn => s.(launch := s.launch + 1, fetching := s.fetching + {Worker(s.launch)})
    case Fetched(w) => s.(fetching := s.fetching - {w}, sending := s.sending + {w})
    case Send(w, ok) =>
      s.(sending := s.sending - {w}, releasing := s.releasing + {w},
         results := s.results + [if ok then Arrived(w.height, chain(w.height)) else Failed(w.height)])
    case Release(w) => s.(releasing := s.releasing - {w})
    case Receive =>
      if s.results[0].Failed? then s.(results := s.results[1..], stopped := true)
      else s.(results := s.results[1..], consumer := Received(s.consumer, s.results[0]))
  }

  function Initial(start: int): State {
    State(start, {}, {}, {}, [], Consumer(map[], start, []), false)
  }

  /** Every step was enabled when it was taken. */
  predicate Runs(chain: Chain, start: int, end: int, workers: nat, steps: seq<Step>)
    decreases |steps|, 0
  {
    steps == [] ||
    (var init := steps[..|steps| - 1];
     Runs(chain, start, end, workers, init) && Enabled(After(chain, start, end, workers, init), end, workers, steps[|steps| - 1]))
  }

  function After(chain: Chain, start: int, end: int, workers: nat, steps: seq<Step>): State
    requires Runs(chain, start, end, workers, steps)
    decreases |steps|, 1
  {
    if steps == [] then Initial(start)
    else Next(chain, After(chain, start, end, workers, steps[..|steps| - 1]), end, workers, steps[|steps| - 1])
  }

  // ----- the invariant --------------------------------------------------------------------------------

  /** Emitted so far: exactly the first heights, ascending, each once. */
  ghost predicate EmittedPrefix(chain: Chain, start: int, c: Consumer) {
    && |c.emitted| == c.expected - start
    && forall i :: 0 <= i < |c.emitted| ==> c.emitted[i] == chain(start + i)
  }

  ghost predicate PendingFits(chain: Chain, c: Consumer, launch: int) {
    forall h :: h in c.pending ==> c.expected <= h < launch && c.pending[h] == chain(h)
  }

  predicate InResults(results: seq<Delivery>, h: int) {
    exists i :: 0 <= i < |results| && results[i].height == h
  }

  ghost predicate ResultsFit(chain: Chain, s: State) {
    && (forall i, j :: 0 <= i < j < |s.results| ==> s.results[i].height != s.results[j].height)
    && (forall i :: 0 <= i < |s.results| ==>
          && s.consumer.expected <= s.results[i].height < s.launch && s.results[i].height !in s.consumer.pending
          && (s.results[i].Arrived? ==> s.results[i].bundle == chain(s.results[i].height)))
  }

  ghost predicate WorkersFit(s: State) {
    && s.fetching !! s.sending && s.fetching !! s.releasing && s.sending !! s.releasing
    && (forall w :: w in s.fetching + s.sending ==>
          s.consumer.expected <= w.height < s.launch && w.height !in s.consumer.pending && !InResults(s.results, w.height))
    && (forall w :: w in s.releasing ==> w.height < s.launch)
  }

  /** Every started height that is not emitted yet is somewhere on its way. */
  ghost predicate Covered(s: State) {
    forall h :: s.consumer.expected <= h < s.launch ==>
      Worker(h) in s.fetching || Worker(h) in s.sending || InResults(s.results, h) || h in s.consumer.pending
  }

  ghost predicate Inv(chain: Chain, start: int, end: int, workers: nat, s: State) {
    && start <= s.consumer.expected <= s.launch <= end + 1
    && EmittedPrefix(chain, start, s.consumer) && PendingFits(chain, s.consumer, s.launch)
    && s.consumer.expected !in s.consumer.pending
    && ResultsFit(chain, s) && WorkersFit(s) && (!s.stopped ==> Covered(s))
    && |s.fetching| + |s.sending| + |s.releasing| <= workers && |s.results| <= 2 * workers
  }

  // ----- draining keeps it ------------------------------------------------------------------------------

  lemma {:induction false} DrainKeeps(chain: Chain, start: int, c: Consumer, launch: int)
    requires EmittedPrefix(chain, start, c) && PendingFits(chain, c, launch) && c.expected <= launch
    ensures var d := Drained(c);
            && EmittedPrefix(chain, start, d) && PendingFits(chain, d, launch) && c.expected <= d.expected <= launch
            && d.expected !in d.pending && d.pending.Keys <= c.pending.Keys
            && (forall h :: h in c.pending && h !in d.pending ==> h < d.expected)
            && (forall h :: c.expected <= h < d.expected ==> h in c.pending)
    decreases |c.pending|
  {
    if c.expected in c.pending {
      var next := Consumer(c.pending - {c.expected}, c.expected + 1, c.emitted + [c.pending[c.expected]]);
      DrainKeeps(chain, start, next, launch);
      var d := Drained(c);
      forall h | c.expected <= h < d.expected ensures h in c.pending {
        if h > c.expected { assert h in next.pending; }
      }
    }
  }

  lemma {:induction false} TakeFirst(results: seq<Delivery>)
    requires results != []
    ensures forall h :: InResults(results, h) <==> h == results[0].height || InResults(results[1..], h)
  {
    forall h ensures InResults(results, h) <==> h == results[0].height || InResults(results[1..], h) {
      if i :| 0 <= i < |results| && results[i].height == h && i > 0 { assert results[1..][i - 1].height == h; }
      if i :| 0 <= i < |results[1..]| && results[1..][i].height == h { assert results[i + 1].height == h; }
    }
  }

  /** A delivered height joins the pending ones; draining then moves the front on. */
  lemma {:induction false} ArrivalKeeps(chain: Chain, start: int, end: int, workers: nat, s: State)
    requires Inv(chain, start, end, workers, s) && s.results != [] && s.results[0].Arrived?
    ensures Inv(chain, start, end, workers, s.(results := s.results[1..], consumer := Received(s.consumer, s.results[0])))
  {
    var first := s.results[0];
    var c := s.consumer.(pending := s.consumer.pending[first.height := first.bundle]);
    var t := s.(results := s.results[1..], consumer := Drained(c));
    TakeFirst(s.results);
    DrainKeeps(chain, start, c, s.launch);
    forall i | 0 <= i < |t.results|
      ensures t.consumer.expected <= t.results[i].height && t.results[i].height !in t.consumer.pending {
      StillAhead(chain, start, end, workers, s, c, t.results[i].height);
    }
    forall w | w in s.fetching + s.sending ensures t.consumer.expected <= w.height && w.height !in t.consumer.pending {
      StillAhead(chain, start, end, workers, s, c, w.height);
    }
    assert WorkersFit(t);
  }

  /** A height that is not pending with the first delivery stays at or after the front. */
  lemma {:induction false} StillAhead(chain: Chain, start: int, end: int, workers: nat, s: State, c: Consumer, h: int)
    requires Inv(chain, start, end, workers, s) && s.results != [] && s.results[0].Arrived?
    requires c == s.consumer.(pending := s.consumer.pending[s.results[0].height := s.results[0].bundle])
    requires (Worker(h) in s.fetching + s.sending) || InResults(s.results[1..], h)
    ensures Drained(c).expected <= h && h !in Drained(c).pending
  {
    DrainKeeps(chain, start, c, s.launch);
    assert InResults(s.results, s.results[0].height);
    if i :| 0 <= i < |s.results[1..]| && s.results[1..][i].height == h { assert s.results[i + 1].height == h; }
    assert s.consumer.expected <= h && h !in c.pending;
  }

  lemma {:induction false} ReceiveKeeps(chain: Chain, start: int, end: int, workers: nat, s: State)
    requires Inv(chain, start, end, workers, s) && Enabled(s, end, workers, Receive)
    ensures Inv(chain, start, end, workers, Next(chain, s, end, workers, Receive))
  {
    if s.results[0].Arrived? {
      ArrivalKeeps(chain, start, end, workers, s);
    } else {
      TakeFirst(s.results);
    }
  }

  lemma {:induction false} AppendOne(results: seq<Delivery>, d: Delivery)
    ensures forall h :: InResults(results + [d], h) <==> InResults(results, h) || h == d.height
  {
    forall h ensures InResults(results + [d], h) <==> InResults(results, h) || h == d.height {
      if i :| 0 <= i < |results| && results[i].height == h { assert (results + [d])[i].height == h; }
      assert (results + [d])[|results|] == d;
    }
  }

  lemma {:induction false} SendKeeps(chain: Chain, start: int, end: int, workers: nat, s: State, w: Worker, ok: bool)
    requires Inv(chain, start, end, workers, s) && Enabled(s, end, workers, Send(w, ok))
    ensures Inv(chain, start, end, workers, Next(chain, s, end, workers, Send(w, ok)))
  {
    var d := if ok then Arrived(w.height, chain(w.height)) else Failed(w.height);
    AppendOne(s.results, d);
    RemoveOne(s.sending, w);
    AddOne(s.releasing, w);
  }

  lemma {:induction false} SpawnPlaces(s: State)
    requires WorkersFit(s) && (!s.stopped ==> Covered(s))
    requires forall h :: Worker(h) in s.releasing || h in s.consumer.pending || InResults(s.results, h) ==> h < s.launch
    requires s.consumer.expected <= s.launch
    ensures var t := s.(launch := s.launch + 1, fetching := s.fetching + {Worker(s.launch)});
            WorkersFit(t) && (!t.stopped ==> Covered(t))
  {
  }

  lemma {:induction false} SpawnKeeps(chain: Chain, start: int, end: int, workers: nat, s: State)
    requires Inv(chain, start, end, workers, s) && Enabled(s, end, workers, Spawn)
    ensures Inv(chain, start, end, workers, Next(chain, s, end, workers, Spawn))
  {
    AddOne(s.fetching, Worker(s.launch));
    SpawnPlaces(s);
  }

  lemma {:induction false} FetchedPlaces(s: State, w: Worker)
    requires WorkersFit(s) && (!s.stopped ==> Covered(s)) && w in s.fetching
    ensures var t := s.(fetching := s.fetching - {w}, sending := s.sending + {w});
            WorkersFit(t) && (!t.stopped ==> Covered(t))
  {
  }

  lemma {:induction false} FetchedKeeps(chain: Chain, start: int, end: int, workers: nat, s: State, w: Worker)
    requires Inv(chain, start, end, workers, s) && Enabled(s, end, workers, Fetched(w))
    ensures Inv(chain, start, end, workers, Next(chain, s, end, workers, Fetched(w)))
  {
    RemoveOne(s.fetching, w);
    AddOne(s.sending, w);
    FetchedPlaces(s, w);
  }

  lemma {:induction false} ReleaseKeeps(chain: Chain, start: int, end: int, workers: nat, s: State, w: Worker)
    requires Inv(chain, start, end, workers, s) && Enabled(s, end, workers, Release(w))
    ensures Inv(chain, start, end, workers, Next(chain, s, end, workers, Release(w)))
  {
    RemoveOne(s.releasing, w);
  }

  lemma {:induction false} RemoveOne(workers: set<Worker>, w: Worker)
    requires w in workers
    ensures |workers - {w}| == |workers| - 1
  {
  }

  lemma {:induction false} AddOne(workers: set<Worker>, w: Worker)
    requires w !in workers
    ensures |workers + {w}| == |workers| + 1
  {
  }

  lemma {:induction false} StepKeeps(chain: Chain, start: int, end: int, workers: nat, s: State, step: Step)
    requires Inv(chain, start, end, workers, s) && Enabled(s, end, workers, step)
    ensures Inv(chain, start, end, workers, Next(chain, s, end, workers, step))
  {
    match step
    case Receive => ReceiveKeeps(chain, start, end, workers, s);
    case Send(w, ok) => SendKeeps(chain, start, end, workers, s, w, ok);
    case Spawn => SpawnKeeps(chain, start, end, workers, s);
    case Fetched(w) => FetchedKeeps(chain, start, end, workers, s, w);
    case Release(w) => ReleaseKeeps(chain, start, end, workers, s, w);
  }

  lemma {:induction false} RunKeeps(chain: Chain, start: int, end: int, workers: nat, steps: seq<Step>)
    requires start <= end + 1 && Runs(chain, start, end, workers, steps)
    ensures Inv(chain, start, end, workers, After(chain, start, end, workers, steps))
  {
    if steps != [] {
      var init := steps[..|steps| - 1];
      RunKeeps(chain, start, end, workers, init);
      StepKeeps(chain, start, end, workers, After(chain, start, end, workers, init), steps[|steps| - 1]);
    }
  }

  // ----- termination ----------------------------------------------------------------------------------------

  function Remaining(s: State, end: int): int {
    5 * (end + 1 - s.launch) + 4 * |s.fetching| + 3 * |s.sending| + |s.releasing| + |s.results|
  }

  lemma {:induction false} WorkUsesUp(chain: Chain, s: State, end: int, workers: nat, step: Step)
    requires WorkersFit(s) && Enabled(s, end, workers, step) && !step.Receive? && !step.Spawn?
    ensures Remaining(Next(chain, s, end, workers, step), end) == Remaining(s, end) - 1
  {
    match step
    case Fetched(w) =>
      RemoveOne(s.fetching, w);
      AddOne(s.sending, w);
    case Send(w, ok) =>
      RemoveOne(s.sending, w);
      AddOne(s.releasing, w);
    case Release(w) => RemoveOne(s.releasing, w);
  }

  lemma {:induction false} StepUsesUp(chain: Chain, end: int, workers: nat, s: State, step: Step)
    requires WorkersFit(s) && Worker(s.launch) !in s.fetching && Enabled(s, end, workers, step)
    ensures Remaining(Next(chain, s, end, workers, step), end) == Remaining(s, end) - 1
  {
    if step.Spawn? {
      AddOne(s.fetching, Worker(s.launch));
    } else if step.Receive? {
      assert |s.results[1..]| == |s.results| - 1;
    } else {
      WorkUsesUp(chain, s, end, workers, step);
    }
  }

  /** No schedule takes more than five steps per height. */
  lemma {:induction false} RunsAreShort(chain: Chain, start: int, end: int, workers: nat, steps: seq<Step>)
    requires start <= end + 1 && Runs(chain, start, end, workers, steps)
    ensures var s := After(chain, start, end, workers, steps);
            |steps| + Remaining(s, end) == 5 * (end + 1 - start) && Remaining(s, end) >= 0
  {
    RunKeeps(chain, start, end, workers, steps);
    if steps != [] {
      var init := steps[..|steps| - 1];
      RunKeeps(chain, start, end, workers, init);
      RunsAreShort(chain, start, end, workers, init);
      StepUsesUp(chain, end, workers, After(chain, start, end, workers, init), steps[|steps| - 1]);
    }
  }

  ghost predicate Stuck(s: State, end: int, workers: nat) {
    forall step :: !Enabled(s, end, workers, step)
  }

  lemma {:induction false} Progress(s: State, end: int, workers: nat) returns (step: Step)
    requires Covered(s) && s.consumer.expected <= s.launch <= end + 1 && s.consumer.expected !in s.consumer.pending
    requires workers > 0 && !s.stopped && s.consumer.expected <= end
    ensures Enabled(s, end, workers, step)
  {
    if s.results != [] {
      step := Receive;
    } else if s.sending != {} {
      var w :| w in s.sending;
      step := Send(w, true);
    } else if s.fetching != {} {
      var w :| w in s.fetching;
      step := Fetched(w);
    } else if s.releasing != {} {
      var w :| w in s.releasing;
      step := Release(w);
    } else {
      step := Spawn;
    }
  }

  /** For every schedule: in flight are never more fetches than workers; what is emitted
      is the window's heights in order, each once; and with at least one worker a
      schedule can only end with the whole window emitted or with a failed fetch. */
  lemma {:induction false} WindowIsEmittedInOrder(chain: Chain, start: int, end: int, workers: nat, steps: seq<Step>)
    requires start <= end + 1 && Runs(chain, start, end, workers, steps)
    ensures var s := After(chain, start, end, workers, steps);
            && |s.fetching| <= workers
            && EmittedPrefix(chain, start, s.consumer) && |s.consumer.emitted| <= end + 1 - start
            && (workers > 0 && Stuck(s, end, workers) ==> s.stopped || |s.consumer.emitted| == end + 1 - start)
  {
    RunKeeps(chain, start, end, workers, steps);
    var s := After(chain, start, end, workers, steps);
    if workers > 0 && !s.stopped && s.consumer.expected <= end {
      var step := Progress(s, end, workers);
    }
  }

  /** Without a worker a non-empty window never moves, so the setting must be at least one. */
  lemma {:induction false} NoWorkersNoProgress(start: int, end: int)
    ensures Stuck(Initial(start), end, 0)
  {
  }
}
