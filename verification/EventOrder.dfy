/** Execution order of one block's events (rpc/event_order.go). */
module EventOrder {
  import opened Decimal
  import opened Positions

  const PRE_BLOCK := 0
  const BEGIN_BLOCK := 1
  const TRANSACTION := 2
  const END_BLOCK := 3

  datatype Attribute = Attribute(key: string, value: string)

  /** The two alpha receipts carry a JSON detail; the event keeps it decoded. */
  datatype Receipt = NoReceipt | Malformed | Receipt(primaryAddress: string, vaultAddress: string, amount: nat)

  datatype Event = Event(kind: string, attributes: seq<Attribute>, receipt: Receipt)

  datatype Positioned = Positioned(event: Event, phase: int, tx: int, index: int, msg: int)

  datatype Result<+T> = Ok(value: T) | Err

  // ----- attributes -----------------------------------------------------------

  /** The first value stored under `key`. */
  function Lookup(attributes: seq<Attribute>, key: string): Option<string> {
    if attributes == [] then None
    else if attributes[0].key == key then Some(attributes[0].value)
    else Lookup(attributes[1..], key)
  }

  lemma {:induction false} LookupAppend(attributes: seq<Attribute>, a: Attribute, key: string)
    ensures Lookup(attributes + [a], key) ==
              if Lookup(attributes, key).Some? || a.key != key then Lookup(attributes, key) else Some(a.value)
  {
    if attributes == [] {
      assert [a][1..] == [];
    } else {
      assert (attributes + [a])[1..] == attributes[1..] + [a];
      LookupAppend(attributes[1..], a, key);
    }
  }

  // ----- what the metadata of one event means ----------------------------------

  predicate IsMetadata(key: string) {
    key == "mode" || key == "msg_index"
  }

  /** The value one metadata attribute may have on an event of transaction `tx`. */
  predicate MetadataFits(a: Attribute, tx: int) {
    && (a.key == "msg_index" ==> tx >= 0 && Atoi(a.value).Some? && Atoi(a.value).value >= 0)
    && (a.key == "mode" ==> tx < 0 && (a.value == "BeginBlock" || a.value == "EndBlock"))
  }

  predicate WellFormed(attributes: seq<Attribute>, tx: int) {
    && (forall i :: 0 <= i < |attributes| ==> MetadataFits(attributes[i], tx))
    && (forall i, j :: 0 <= i < j < |attributes| && IsMetadata(attributes[i].key)
          ==> attributes[j].key != attributes[i].key)
  }

  /** A transaction event runs in the transaction phase, a block event in the
      phase its mode names and otherwise before the block; a missing msg_index
      is -1 and never message zero. */
  function PositionOf(ev: Event, tx: int, index: int): Positioned {
    var phase :=
      if tx >= 0 then TRANSACTION
      else match Lookup(ev.attributes, "mode")
           case None => PRE_BLOCK
           case Some(mode) => if mode == "BeginBlock" then BEGIN_BLOCK else END_BLOCK;
    var msg :=
      match Lookup(ev.attributes, "msg_index")
      case None => -1
      case Some(text) => if Atoi(text).Some? then Atoi(text).value else -1;
    Positioned(ev, phase, tx, index, msg)
  }

  /** Progress over the first `k` attributes: `p` is right for them, and `seen`
      holds their metadata keys. */
  ghost predicate ReadSoFar(p: Positioned, seen: set<string>, read: seq<Attribute>, ev: Event, tx: int, index: int) {
    && WellFormed(read, tx)
    && p == PositionOf(ev.(attributes := read), tx, index).(event := ev)
    && (forall key :: IsMetadata(key) ==> (key in seen <==> Lookup(read, key).Some?))
  }

  lemma {:induction false} LookupFinds(attributes: seq<Attribute>, key: string)
    ensures Lookup(attributes, key).Some? <==> exists i :: 0 <= i < |attributes| && attributes[i].key == key
  {
    if attributes != [] && attributes[0].key != key {
      LookupFinds(attributes[1..], key);
      if i :| 0 <= i < |attributes| && attributes[i].key == key { assert attributes[1..][i - 1].key == key; }
    }
  }

  /** Reading one more attribute: it stays well-formed iff the value fits and the
      metadata key is new. */
  lemma {:induction false} ReadAttribute(p: Positioned, seen: set<string>, read: seq<Attribute>, a: Attribute, ev: Event, tx: int, index: int)
    requires ReadSoFar(p, seen, read, ev, tx, index)
    ensures WellFormed(read + [a], tx) <==> MetadataFits(a, tx) && !(IsMetadata(a.key) && a.key in seen)
    ensures forall key :: Lookup(read + [a], key) ==
              if Lookup(read, key).Some? || a.key != key then Lookup(read, key) else Some(a.value)
  {
    forall key { LookupAppend(read, a, key); }
    LookupFinds(read, a.key);
    if IsMetadata(a.key) && a.key in seen {
      var i :| 0 <= i < |read| && read[i].key == a.key;
      assert (read + [a])[i].key == (read + [a])[|read|].key;
    }
    assert (read + [a])[|read|] == a;
    if WellFormed(read + [a], tx) { assert MetadataFits((read + [a])[|read|], tx); }
  }

  lemma {:induction false} PrefixWellFormed(attributes: seq<Attribute>, n: nat, tx: int)
    requires n <= |attributes| && WellFormed(attributes, tx)
    ensures WellFormed(attributes[..n], tx)
  {
  }

  predicate PairOccurs(attributes: seq<Attribute>, key: string, value: string) {
    exists i :: 0 <= i < |attributes| && attributes[i].key == key && attributes[i].value == value
  }

  predicate KeyOccurs(attributes: seq<Attribute>, key: string) {
    exists i :: 0 <= i < |attributes| && attributes[i].key == key
  }

  /** What makes an event unreadable: a message number on a block event or one that is no natural
      number, a mode on a transaction event or an unknown one, or either of them twice. */
  ghost predicate Unreadable(attributes: seq<Attribute>, tx: int) {
    || (tx < 0 && KeyOccurs(attributes, "msg_index"))
    || (tx >= 0 && KeyOccurs(attributes, "mode"))
    || (exists i :: 0 <= i < |attributes| && attributes[i].key == "msg_index"
          && (Atoi(attributes[i].value) == None || Atoi(attributes[i].value).value < 0))
    || (exists i :: 0 <= i < |attributes| && attributes[i].key == "mode"
          && attributes[i].value != "BeginBlock" && attributes[i].value != "EndBlock")
    || (exists i, j :: 0 <= i < j < |attributes| && attributes[i].key == attributes[j].key
          && (attributes[i].key == "mode" || attributes[i].key == "msg_index"))
  }

  /** Where an event runs: before the block (0), at its begin (1), in a transaction (2), or at
      its end (3), under its own coordinates and the message it states. */
  ghost predicate RunsAt(p: Positioned, ev: Event, tx: int, index: int) {
    && p.event == ev && p.tx == tx && p.index == index
    && (tx >= 0 ==> p.phase == 2)
    && (tx < 0 ==> && (PairOccurs(ev.attributes, "mode", "BeginBlock") ==> p.phase == 1)
                   && (PairOccurs(ev.attributes, "mode", "EndBlock") ==> p.phase == 3)
                   && (!KeyOccurs(ev.attributes, "mode") ==> p.phase == 0))
    && (KeyOccurs(ev.attributes, "msg_index") ==>
          exists i :: 0 <= i < |ev.attributes| && ev.attributes[i].key == "msg_index" && Atoi(ev.attributes[i].value) == Some(p.msg))
    && (!KeyOccurs(ev.attributes, "msg_index") ==> p.msg == -1)
  }

  lemma {:induction false} LookupIsFirst(attributes: seq<Attribute>, key: string) returns (i: nat)
    requires Lookup(attributes, key).Some?
    ensures i < |attributes| && attributes[i].key == key && Lookup(attributes, key) == Some(attributes[i].value)
  {
    if attributes[0].key == key {
      i := 0;
    } else {
      i := LookupIsFirst(attributes[1..], key);
      i := i + 1;
    }
  }

  lemma {:induction false} WellFormedIsReadable(attributes: seq<Attribute>, tx: int)
    ensures WellFormed(attributes, tx) <==> !Unreadable(attributes, tx)
  {
    if !Unreadable(attributes, tx) {
      forall i | 0 <= i < |attributes| ensures MetadataFits(attributes[i], tx) {
        assert attributes[i].key == "msg_index" ==> KeyOccurs(attributes, "msg_index");
        assert attributes[i].key == "mode" ==> KeyOccurs(attributes, "mode");
      }
    }
  }

  lemma {:induction false} PositionRunsAt(ev: Event, tx: int, index: int)
    requires WellFormed(ev.attributes, tx)
    ensures RunsAt(PositionOf(ev, tx, index), ev, tx, index)
  {
    LookupFinds(ev.attributes, "mode");
    LookupFinds(ev.attributes, "msg_index");
    if Lookup(ev.attributes, "mode").Some? {
      var i := LookupIsFirst(ev.attributes, "mode");
      assert MetadataFits(ev.attributes[i], tx);
    }
    if Lookup(ev.attributes, "msg_index").Some? {
      var i := LookupIsFirst(ev.attributes, "msg_index");
      assert MetadataFits(ev.attributes[i], tx);
    }
  }

  method PositionEvent(ev: Event, tx: int, index: int) returns (r: Result<Positioned>)
    ensures r.Ok? <==> WellFormed(ev.attributes, tx)
    ensures r.Ok? ==> r.value == PositionOf(ev, tx, index)
  {
    var p := Positioned(ev, if tx >= 0 then TRANSACTION else PRE_BLOCK, tx, index, -1);
    var seen: set<string> := {};
    var k := 0;
    while k < |ev.attributes|
      invariant k <= |ev.attributes|
      invariant ReadSoFar(p, seen, ev.attributes[..k], ev, tx, index)
    {
      var a := ev.attributes[k];
      assert ev.attributes[..k + 1] == ev.attributes[..k] + [a];
      ReadAttribute(p, seen, ev.attributes[..k], a, ev, tx, index);
      if WellFormed(ev.attributes, tx) { PrefixWellFormed(ev.attributes, k + 1, tx); }
      k := k + 1;
      if !IsMetadata(a.key) { continue; }
      if a.key in seen { return Err; }
      seen := seen + {a.key};
      if a.key == "msg_index" {
        var n := Atoi(a.value);
        if n.None? || n.value < 0 || tx < 0 { return Err; }
        p := p.(msg := n.value);
        continue;
      }
      if tx >= 0 { return Err; }
      if a.value == "BeginBlock" {
        p := p.(phase := BEGIN_BLOCK);
      } else if a.value == "EndBlock" {
        p := p.(phase := END_BLOCK);
      } else {
        return Err;
      }
    }
    assert ev.attributes[..|ev.attributes|] == ev.attributes;
    r := Ok(p);
  }

  // ----- the whole block ---------------------------------------------------------

  /** The event list of one source: -1 is finalize_block, otherwise a transaction. */
  function Source(finalize: seq<Event>, txs: seq<seq<Event>>, tx: int): seq<Event>
    requires -1 <= tx < |txs|
  {
    if tx == -1 then finalize else txs[tx]
  }

  predicate Coordinate(finalize: seq<Event>, txs: seq<seq<Event>>, tx: int, index: int) {
    -1 <= tx < |txs| && 0 <= index < |Source(finalize, txs, tx)|
  }

  /** The position of the source event at one coordinate. */
  function SourceAt(finalize: seq<Event>, txs: seq<seq<Event>>, tx: int, index: int): Positioned
    requires Coordinate(finalize, txs, tx, index)
  {
    PositionOf(Source(finalize, txs, tx)[index], tx, index)
  }

  predicate Precedes(p: Positioned, q: Positioned) {
    Before(Position(0, p.phase, p.tx, p.index), Position(0, q.phase, q.tx, q.index))
  }

  predicate Sorted(ps: seq<Positioned>) {
    forall i, j :: 0 <= i < j < |ps| ==> Precedes(ps[i], ps[j])
  }

  predicate FromSource(p: Positioned, finalize: seq<Event>, txs: seq<seq<Event>>) {
    Coordinate(finalize, txs, p.tx, p.index) && p == SourceAt(finalize, txs, p.tx, p.index)
  }

  /** `ordered` is the block: every source event once, under its original
      coordinates, and nothing else, in strictly rising execution order. */
  ghost predicate OrdersBlock(ordered: seq<Positioned>, finalize: seq<Event>, txs: seq<seq<Event>>) {
    && Sorted(ordered)
    && (forall p :: p in ordered ==> FromSource(p, finalize, txs))
    && (forall tx, i :: Coordinate(finalize, txs, tx, i) ==> SourceAt(finalize, txs, tx, i) in ordered)
  }

  ghost predicate AllWellFormed(finalize: seq<Event>, txs: seq<seq<Event>>) {
    forall tx, i :: Coordinate(finalize, txs, tx, i) ==> WellFormed(Source(finalize, txs, tx)[i].attributes, tx)
  }

  function InPhase(ps: seq<Positioned>, phase: int): (r: seq<Positioned>) {
    if ps == [] then []
    else
      var rest := InPhase(ps[..|ps| - 1], phase);
      if ps[|ps| - 1].phase == phase then rest + [ps[|ps| - 1]] else rest
  }

  /** (tx, i) is read before (tx', i'): finalize first, then the transactions. */
  predicate ReadBefore(tx: int, i: int, tx': int, i': int) {
    tx < tx' || (tx == tx' && i < i')
  }

  /** `read` lists exactly the coordinates read before (tx, index), in that order. */
  ghost predicate ReadUpTo(read: seq<Positioned>, finalize: seq<Event>, txs: seq<seq<Event>>, tx: int, index: int) {
    && (forall i, j :: 0 <= i < j < |read| ==> ReadBefore(read[i].tx, read[i].index, read[j].tx, read[j].index))
    && (forall p :: p in read ==> FromSource(p, finalize, txs) && ReadBefore(p.tx, p.index, tx, index))
    && (forall p :: p in read ==> WellFormed(p.event.attributes, p.tx))
    && (forall t, i :: Coordinate(finalize, txs, t, i) && ReadBefore(t, i, tx, index)
          ==> SourceAt(finalize, txs, t, i) in read)
  }

  ghost predicate InBuckets(phases: seq<seq<Positioned>>, read: seq<Positioned>) {
    |phases| == 4 && forall b :: 0 <= b < 4 ==> phases[b] == InPhase(read, b)
  }

  method OrderedEvents(finalize: seq<Event>, txs: seq<seq<Event>>) returns (r: Result<seq<Positioned>>)
    ensures r.Ok? <==> AllWellFormed(finalize, txs)
    ensures r.Ok? ==> OrdersBlock(r.value, finalize, txs)
  {
    var phases: seq<seq<Positioned>> := [[], [], [], []];
    ghost var read: seq<Positioned> := [];
    for tx := -1 to |txs|
      invariant InBuckets(phases, read) && ReadUpTo(read, finalize, txs, tx, 0)
    {
      var events := Source(finalize, txs, tx);
      for i := 0 to |events|
        invariant InBuckets(phases, read) && ReadUpTo(read, finalize, txs, tx, i)
      {
        var positioned := PositionEvent(events[i], tx, i);
        if positioned.Err? {
          assert Coordinate(finalize, txs, tx, i);
          return Err;
        }
        var p := positioned.value;
        ReadOneMore(read, p, finalize, txs);
        read := read + [p];
        phases := phases[p.phase := phases[p.phase] + [p]];
      }
    }
    r := Ok(phases[0] + phases[1] + phases[2] + phases[3]);
    PhasesOrderBlock(read, finalize, txs);
  }

  lemma {:induction false} ReadOneMore(read: seq<Positioned>, p: Positioned, finalize: seq<Event>, txs: seq<seq<Event>>)
    requires ReadUpTo(read, finalize, txs, p.tx, p.index)
    requires FromSource(p, finalize, txs) && WellFormed(p.event.attributes, p.tx)
    ensures ReadUpTo(read + [p], finalize, txs, p.tx, p.index + 1)
  {
    assert forall q :: q in read + [p] <==> q in read || q == p;
  }

  lemma {:induction false} InPhaseKeeps(read: seq<Positioned>, phase: int)
    ensures forall p :: p in InPhase(read, phase) <==> p in read && p.phase == phase
  {
    if read != [] {
      InPhaseKeeps(read[..|read| - 1], phase);
      assert read == read[..|read| - 1] + [read[|read| - 1]];
    }
  }

  lemma {:induction false} InPhaseSorted(read: seq<Positioned>, phase: int)
    requires forall i, j :: 0 <= i < j < |read| ==> ReadBefore(read[i].tx, read[i].index, read[j].tx, read[j].index)
    ensures Sorted(InPhase(read, phase))
  {
    if read != [] {
      var init, last := read[..|read| - 1], read[|read| - 1];
      InPhaseSorted(init, phase);
      InPhaseKeeps(init, phase);
      forall p | p in InPhase(init, phase) && last.phase == phase ensures Precedes(p, last) {
        var k :| 0 <= k < |init| && init[k] == p;
        assert read[k] == p;
      }
    }
  }

  lemma {:induction false} Joined(read: seq<Positioned>) returns (all: seq<Positioned>)
    requires forall i, j :: 0 <= i < j < |read| ==> ReadBefore(read[i].tx, read[i].index, read[j].tx, read[j].index)
    ensures all == InPhase(read, 0) + InPhase(read, 1) + InPhase(read, 2) + InPhase(read, 3)
    ensures Sorted(all)
    ensures forall p :: p in all <==> p in read && 0 <= p.phase < 4
  {
    all := [];
    for b := 0 to 4
      invariant Sorted(all)
      invariant forall p :: p in all <==> p in read && 0 <= p.phase < b
      invariant b == 0 ==> all == []
      invariant b == 1 ==> all == InPhase(read, 0)
      invariant b == 2 ==> all == InPhase(read, 0) + InPhase(read, 1)
      invariant b == 3 ==> all == InPhase(read, 0) + InPhase(read, 1) + InPhase(read, 2)
      invariant b == 4 ==> all == InPhase(read, 0) + InPhase(read, 1) + InPhase(read, 2) + InPhase(read, 3)
    {
      InPhaseKeeps(read, b);
      InPhaseSorted(read, b);
      all := all + InPhase(read, b);
    }
  }

  lemma {:induction false} PhasesOrderBlock(read: seq<Positioned>, finalize: seq<Event>, txs: seq<seq<Event>>)
    requires ReadUpTo(read, finalize, txs, |txs|, 0)
    ensures OrdersBlock(InPhase(read, 0) + InPhase(read, 1) + InPhase(read, 2) + InPhase(read, 3), finalize, txs)
    ensures AllWellFormed(finalize, txs)
  {
    var all := Joined(read);
    forall tx, i | Coordinate(finalize, txs, tx, i)
      ensures SourceAt(finalize, txs, tx, i) in all
      ensures WellFormed(Source(finalize, txs, tx)[i].attributes, tx)
    {
      assert ReadBefore(tx, i, |txs|, 0);
      assert SourceAt(finalize, txs, tx, i) in read;
    }
  }

  // ----- consequences --------------------------------------------------------------

  /** The contract leaves no freedom: a block has one execution order. */
  lemma {:induction false} OrderIsUnique(a: seq<Positioned>, b: seq<Positioned>, finalize: seq<Event>, txs: seq<seq<Event>>)
    requires OrdersBlock(a, finalize, txs) && OrdersBlock(b, finalize, txs)
    ensures a == b
  {
    forall p ensures p in a <==> p in b {
      if p in a { assert Coordinate(finalize, txs, p.tx, p.index); }
      if p in b { assert Coordinate(finalize, txs, p.tx, p.index); }
    }
    SameElementsSameOrder(a, b);
  }

  lemma {:induction false} SameElementsSameOrder(a: seq<Positioned>, b: seq<Positioned>)
    requires Sorted(a) && Sorted(b)
    requires forall p :: p in a <==> p in b
    ensures a == b
  {
    assert (a != [] ==> a[0] in a) && (b != [] ==> b[0] in b);
    if a != [] && b != [] {
      assert a[0] in b && b[0] in a;
      assert a[0] == b[0];
      forall p ensures p in a[1..] <==> p in b[1..] {
        assert p in a <==> p == a[0] || p in a[1..];
        assert p in b <==> p == b[0] || p in b[1..];
      }
      SameElementsSameOrder(a[1..], b[1..]);
      assert a == [a[0]] + a[1..] && b == [b[0]] + b[1..];
    }
  }

  /** The guard coordinate of an event dispatched from block `height`. */
  function At(height: int, p: Positioned): Position {
    Position(height, if p.tx >= 0 then TRANSACTION else p.phase, p.tx, p.index)
  }

  function PositionsOf(height: int, ps: seq<Positioned>): (r: seq<Position>)
    ensures |r| == |ps|
    ensures forall k :: 0 <= k < |ps| ==> r[k] == At(height, ps[k])
  {
    seq(|ps|, k requires 0 <= k < |ps| => At(height, ps[k]))
  }

  /** Every event position met by one pass over consecutive blocks. */
  function Pass(heights: seq<int>, blocks: seq<seq<Positioned>>): seq<Position>
    requires |heights| == |blocks|
  {
    if heights == [] then []
    else Pass(heights[..|heights| - 1], blocks[..|blocks| - 1])
         + PositionsOf(heights[|heights| - 1], blocks[|blocks| - 1])
  }

  /** A first pass over rising heights meets strictly rising positions, so no
      event of it lies at or before a position that a replay guard has stored. */
  lemma {:induction false} FirstPassAscends(heights: seq<int>, blocks: seq<seq<Positioned>>,
                                            finalizes: seq<seq<Event>>, txss: seq<seq<seq<Event>>>)
    requires |heights| == |blocks| == |finalizes| == |txss|
    requires forall i, j :: 0 <= i < j < |heights| ==> heights[i] < heights[j]
    requires forall b :: 0 <= b < |blocks| ==> OrdersBlock(blocks[b], finalizes[b], txss[b])
    ensures Ascending(Pass(heights, blocks))
    ensures forall p :: p in Pass(heights, blocks) ==> heights != [] && p.height <= heights[|heights| - 1]
  {
    if heights != [] {
      var n := |heights| - 1;
      FirstPassAscends(heights[..n], blocks[..n], finalizes[..n], txss[..n]);
      var older, block := Pass(heights[..n], blocks[..n]), blocks[n];
      var newer := PositionsOf(heights[n], block);
      forall i, j | 0 <= i < j < |newer| ensures Before(newer[i], newer[j]) {
        assert Precedes(block[i], block[j]);
        assert FromSource(block[i], finalizes[n], txss[n]) && FromSource(block[j], finalizes[n], txss[n]);
      }
      forall p | p in older ensures p.height < heights[n] {
        assert heights[..n][n - 1] == heights[n - 1];
      }
      forall i, j | 0 <= i < |older| && 0 <= j < |newer| ensures Before(older[i], newer[j]) {
        assert older[i] in older;
      }
    }
  }
}
