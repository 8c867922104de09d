/** The raw event mirror (sync/block.go, db/rawmirror.go): tables rewritten by height,
    either after every block or in batches across a window. */
module RawMirror {
  import opened EventOrder
  import opened Positions

  /** Block events have transaction -1. */
  datatype Cell = Kind(kind: string) | Pair(key: string, value: string, composite: string)

  datatype Row = Row(height: int, tx: int, index: int, cell: Cell)

  datatype Batch = Batch(events: seq<Row>, attributes: seq<Row>) {
    function Then(more: Batch): Batch {
      Batch(events + more.events, attributes + more.attributes)
    }
  }

  const EMPTY := Batch([], [])

  /** One block's events, with finalize events under transaction -1. */
  datatype Block = Block(height: int, finalize: seq<Event>, txs: seq<seq<Event>>)

  const BATCH_LIMIT := 32768

  // ----- one block's rows -------------------------------------------------------------------

  predicate HasKey(rows: seq<Row>, key: string) {
    exists i :: 0 <= i < |rows| && rows[i].cell.Pair? && rows[i].cell.key == key
  }

  function AttributeRow(height: int, tx: int, index: int, ev: Event, a: Attribute): Row {
    Row(height, tx, index, Pair(a.key, a.value, ev.kind + "." + a.key))
  }

  /** Each key once, with the first value written under it. */
  function AttributeRows(height: int, tx: int, index: int, ev: Event, n: nat): seq<Row>
    requires n <= |ev.attributes|
  {
    if n == 0 then []
    else
      var earlier, a := AttributeRows(height, tx, index, ev, n - 1), ev.attributes[n - 1];
      if HasKey(earlier, a.key) then earlier else earlier + [AttributeRow(height, tx, index, ev, a)]
  }

  lemma {:induction false} OneMoreKey(rows: seq<Row>, row: Row)
    requires row.cell.Pair?
    ensures forall key :: HasKey(rows + [row], key) <==> HasKey(rows, key) || key == row.cell.key
  {
    forall key ensures HasKey(rows + [row], key) <==> HasKey(rows, key) || key == row.cell.key {
      if i :| 0 <= i < |rows| && rows[i].cell.Pair? && rows[i].cell.key == key { assert (rows + [row])[i] == rows[i]; }
      assert (rows + [row])[|rows|] == row;
    }
  }

  lemma {:induction false} AttributeRowsAtHeight(height: int, tx: int, index: int, ev: Event, n: nat)
    requires n <= |ev.attributes|
    ensures forall i :: 0 <= i < |AttributeRows(height, tx, index, ev, n)| ==> AttributeRows(height, tx, index, ev, n)[i].height == height
  {
    if n > 0 { AttributeRowsAtHeight(height, tx, index, ev, n - 1); }
  }

  /** The mirrored value of a key is the value that lookups find, for exactly the keys
      they find one for. */
  lemma {:induction false} AttributeRowsAreLookups(height: int, tx: int, index: int, ev: Event, n: nat)
    requires n <= |ev.attributes|
    ensures var rows := AttributeRows(height, tx, index, ev, n);
            && (forall i :: 0 <= i < |rows| ==>
                  rows[i].cell.Pair? && Lookup(ev.attributes[..n], rows[i].cell.key) == Some(rows[i].cell.value))
            && (forall key :: HasKey(rows, key) <==> Lookup(ev.attributes[..n], key).Some?)
  {
    if n > 0 {
      AttributeRowsAreLookups(height, tx, index, ev, n - 1);
      var earlier, a := AttributeRows(height, tx, index, ev, n - 1), ev.attributes[n - 1];
      assert ev.attributes[..n] == ev.attributes[..n - 1] + [a];
      forall key { LookupAppend(ev.attributes[..n - 1], a, key); }
      OneMoreKey(earlier, AttributeRow(height, tx, index, ev, a));
    }
  }

  function EventsOf(height: int, tx: int, events: seq<Event>): Batch {
    if events == [] then EMPTY
    else
      var n := |events| - 1;
      EventsOf(height, tx, events[..n]).Then(
        Batch([Row(height, tx, n, Kind(events[n].kind))], AttributeRows(height, tx, n, events[n], |events[n].attributes|)))
  }

  function TxsOf(height: int, txs: seq<seq<Event>>): Batch {
    if txs == [] then EMPTY else TxsOf(height, txs[..|txs| - 1]).Then(EventsOf(height, |txs| - 1, txs[|txs| - 1]))
  }

  function RowsOf(b: Block): Batch {
    EventsOf(b.height, -1, b.finalize).Then(TxsOf(b.height, b.txs))
  }

  predicate AtHeight(b: Batch, height: int) {
    && (forall i :: 0 <= i < |b.events| ==> b.events[i].height == height)
    && (forall i :: 0 <= i < |b.attributes| ==> b.attributes[i].height == height)
  }

  lemma {:induction false} EventsAtHeight(height: int, tx: int, events: seq<Event>)
    ensures AtHeight(EventsOf(height, tx, events), height)
  {
    if events != [] {
      var n := |events| - 1;
      EventsAtHeight(height, tx, events[..n]);
      AttributeRowsAtHeight(height, tx, n, events[n], |events[n].attributes|);
    }
  }

  lemma {:induction false} TxsAtHeight(height: int, txs: seq<seq<Event>>)
    ensures AtHeight(TxsOf(height, txs), height)
  {
    if txs != [] {
      TxsAtHeight(height, txs[..|txs| - 1]);
      EventsAtHeight(height, |txs| - 1, txs[|txs| - 1]);
    }
  }

  lemma {:induction false} RowsAtHeight(b: Block)
    ensures AtHeight(RowsOf(b), b.height)
  {
    EventsAtHeight(b.height, -1, b.finalize);
    TxsAtHeight(b.height, b.txs);
  }

  // ----- writing by height ------------------------------------------------------------------------

  predicate Occurs(rows: seq<Row>, height: int) {
    exists i :: 0 <= i < |rows| && rows[i].height == height
  }

  /** The rows whose height does not occur in `rows`. */
  function Keep(table: seq<Row>, rows: seq<Row>): seq<Row> {
    if table == [] then []
    else
      var rest, last := Keep(table[..|table| - 1], rows), table[|table| - 1];
      if Occurs(rows, last.height) then rest else rest + [last]
  }

  /** Every height that occurs among the rows is replaced; no rows, no change. */
  function Replaced(table: seq<Row>, rows: seq<Row>): seq<Row> {
    Keep(table, rows) + rows
  }

  function Written(tables: Batch, rows: Batch): Batch {
    Batch(Replaced(tables.events, rows.events), Replaced(tables.attributes, rows.attributes))
  }

  /** Flushing after every block. */
  function PerBlock(tables: Batch, blocks: seq<Block>): Batch {
    if blocks == [] then tables
    else Written(PerBlock(tables, blocks[..|blocks| - 1]), RowsOf(blocks[|blocks| - 1]))
  }

  /** Tables and pending batch after a window's blocks; a full batch is flushed at once. */
  datatype Mirror = Mirror(tables: Batch, pending: Batch)

  function Batched(tables: Batch, blocks: seq<Block>, limit: nat): Mirror {
    if blocks == [] then Mirror(tables, EMPTY)
    else
      var m := Batched(tables, blocks[..|blocks| - 1], limit);
      var pending := m.pending.Then(RowsOf(blocks[|blocks| - 1]));
      if |pending.events| + |pending.attributes| >= limit then Mirror(Written(m.tables, pending), EMPTY)
      else Mirror(m.tables, pending)
  }

  function WindowTables(tables: Batch, blocks: seq<Block>, limit: nat): Batch {
    var m := Batched(tables, blocks, limit);
    Written(m.tables, m.pending)
  }

  // ----- the writer itself ------------------------------------------------------------------------------

  class Writer {
    var tables: Batch
    var pending: Batch
    const limit: nat

    constructor (tables: Batch, limit: nat)
      ensures this.tables == tables && pending == EMPTY && this.limit == limit
    {
      this.tables, pending, this.limit := tables, EMPTY, limit;
    }

    method AddEvent(height: int, tx: int, index: int, ev: Event)
      modifies `pending
      ensures pending == old(pending).Then(
                Batch([Row(height, tx, index, Kind(ev.kind))], AttributeRows(height, tx, index, ev, |ev.attributes|)))
    {
      var rows: seq<Row> := [];
      var seen: set<string> := {};
      for i := 0 to |ev.attributes|
        invariant rows == AttributeRows(height, tx, index, ev, i) && forall key :: key in seen <==> HasKey(rows, key)
        invariant pending == old(pending)
      {
        var a := ev.attributes[i];
        if a.key in seen { continue; }
        OneMoreKey(rows, AttributeRow(height, tx, index, ev, a));
        seen := seen + {a.key};
        rows := rows + [AttributeRow(height, tx, index, ev, a)];
      }
      pending := Batch(pending.events + [Row(height, tx, index, Kind(ev.kind))], pending.attributes + rows);
    }

    method AddEvents(height: int, tx: int, events: seq<Event>)
      modifies `pending
      ensures pending == old(pending).Then(EventsOf(height, tx, events))
    {
      for i := 0 to |events|
        invariant pending == old(pending).Then(EventsOf(height, tx, events[..i]))
      {
        assert events[..i + 1][..i] == events[..i];
        AddEvent(height, tx, i, events[i]);
      }
      assert events[..|events|] == events;
    }

    /** Deletes by height, then copies; with no rows there is nothing to delete. */
    method Flush()
      modifies `tables, `pending
      ensures tables == Written(old(tables), old(pending)) && pending == EMPTY
    {
      KeepAll(tables.events, []);
      KeepAll(tables.attributes, []);
      if pending.events != [] { tables := tables.(events := Replaced(tables.events, pending.events)); }
      if pending.attributes != [] { tables := tables.(attributes := Replaced(tables.attributes, pending.attributes)); }
      pending := EMPTY;
    }

    method Collect(b: Block)
      modifies `pending
      ensures pending == old(pending).Then(RowsOf(b))
    {
      AddEvents(b.height, -1, b.finalize);
      ghost var start := pending;
      for i := 0 to |b.txs|
        invariant pending == start.Then(TxsOf(b.height, b.txs[..i]))
      {
        assert b.txs[..i + 1][..i] == b.txs[..i];
        Associates(start, TxsOf(b.height, b.txs[..i]), EventsOf(b.height, i, b.txs[i]));
        AddEvents(b.height, i, b.txs[i]);
      }
      assert b.txs[..|b.txs|] == b.txs;
      Associates(old(pending), EventsOf(b.height, -1, b.finalize), TxsOf(b.height, b.txs));
    }

    /** A flush never splits one height, or its second half would delete the first. */
    method Write(b: Block)
      modifies `tables, `pending
      ensures var all := old(pending).Then(RowsOf(b));
              if |all.events| + |all.attributes| >= limit then tables == Written(old(tables), all) && pending == EMPTY
              else tables == old(tables) && pending == all
    {
      Collect(b);
      if |pending.events| + |pending.attributes| >= limit { Flush(); }
    }

    method WriteWindow(blocks: seq<Block>)
      requires pending == EMPTY
      modifies `tables, `pending
      ensures tables == WindowTables(old(tables), blocks, limit) && pending == EMPTY
    {
      for i := 0 to |blocks|
        invariant Mirror(tables, pending) == Batched(old(tables), blocks[..i], limit)
      {
        assert blocks[..i + 1][..i] == blocks[..i];
        Write(blocks[i]);
      }
      assert blocks[..|blocks|] == blocks;
      Flush();
    }
  }

  lemma {:induction false} Associates(a: Batch, b: Batch, c: Batch)
    ensures a.Then(b).Then(c) == a.Then(b.Then(c))
  {
  }

  lemma {:induction false} KeepAll(table: seq<Row>, rows: seq<Row>)
    requires forall i :: 0 <= i < |table| ==> !Occurs(rows, table[i].height)
    ensures Keep(table, rows) == table
  {
    if table != [] { KeepAll(table[..|table| - 1], rows); }
  }

  // ----- batching changes nothing ---------------------------------------------------------------------------

  lemma {:induction false} KeepAppend(a: seq<Row>, b: seq<Row>, rows: seq<Row>)
    ensures Keep(a + b, rows) == Keep(a, rows) + Keep(b, rows)
  {
    if b == [] {
      assert a + b == a;
    } else {
      assert (a + b)[..|a + b| - 1] == a + b[..|b| - 1];
      KeepAppend(a, b[..|b| - 1], rows);
    }
  }

  lemma {:induction false} OccursEither(x: seq<Row>, y: seq<Row>, h: int)
    ensures Occurs(x + y, h) <==> Occurs(x, h) || Occurs(y, h)
  {
    if i :| 0 <= i < |x| && x[i].height == h { assert (x + y)[i].height == h; }
    if i :| 0 <= i < |y| && y[i].height == h { assert (x + y)[|x| + i].height == h; }
  }

  lemma {:induction false} KeepTwice(table: seq<Row>, x: seq<Row>, y: seq<Row>)
    ensures Keep(Keep(table, x), y) == Keep(table, x + y)
  {
    if table != [] {
      var init, last := table[..|table| - 1], table[|table| - 1];
      KeepTwice(init, x, y);
      OccursEither(x, y, last.height);
      KeepAppend(Keep(init, x), [last], y);
      assert [last][..0] == [];
    }
  }

  /** Two writes that share no height are one write of both. */
  lemma {:induction false} ReplacedTwice(table: seq<Row>, x: seq<Row>, y: seq<Row>)
    requires forall i :: 0 <= i < |x| ==> !Occurs(y, x[i].height)
    ensures Replaced(Replaced(table, x), y) == Replaced(table, x + y)
  {
    KeepAppend(Keep(table, x), x, y);
    KeepAll(x, y);
    KeepTwice(table, x, y);
  }

  predicate DistinctHeights(blocks: seq<Block>) {
    forall i, j :: 0 <= i < j < |blocks| ==> blocks[i].height != blocks[j].height
  }

  predicate IsVisited(blocks: seq<Block>, height: int) {
    exists i :: 0 <= i < |blocks| && blocks[i].height == height
  }

  predicate FromBlocks(rows: seq<Row>, blocks: seq<Block>) {
    forall i :: 0 <= i < |rows| ==> IsVisited(blocks, rows[i].height)
  }

  lemma {:induction false} FromLonger(rows: seq<Row>, blocks: seq<Block>, last: Block, more: seq<Row>)
    requires FromBlocks(rows, blocks) && forall i :: 0 <= i < |more| ==> more[i].height == last.height
    ensures FromBlocks(rows + more, blocks + [last])
  {
    forall i | 0 <= i < |rows + more| ensures IsVisited(blocks + [last], (rows + more)[i].height) {
      if i < |rows| {
        var k :| 0 <= k < |blocks| && blocks[k].height == rows[i].height;
        assert (blocks + [last])[k].height == rows[i].height;
      } else {
        assert (blocks + [last])[|blocks|] == last;
      }
    }
  }

  lemma {:induction false} PendingFromBlocks(tables: Batch, blocks: seq<Block>, limit: nat)
    ensures var pending := Batched(tables, blocks, limit).pending;
            FromBlocks(pending.events, blocks) && FromBlocks(pending.attributes, blocks)
  {
    if blocks != [] {
      var init, last := blocks[..|blocks| - 1], blocks[|blocks| - 1];
      assert blocks == init + [last];
      PendingFromBlocks(tables, init, limit);
      RowsAtHeight(last);
      var earlier := Batched(tables, init, limit).pending;
      FromLonger(earlier.events, init, last, RowsOf(last).events);
      FromLonger(earlier.attributes, init, last, RowsOf(last).attributes);
    }
  }

  lemma {:induction false} LastIsApart(rows: seq<Row>, blocks: seq<Block>, more: seq<Row>)
    requires blocks != [] && DistinctHeights(blocks) && FromBlocks(rows, blocks[..|blocks| - 1])
    requires forall i :: 0 <= i < |more| ==> more[i].height == blocks[|blocks| - 1].height
    ensures forall i :: 0 <= i < |rows| ==> !Occurs(more, rows[i].height)
  {
    var init := blocks[..|blocks| - 1];
    forall i | 0 <= i < |rows| ensures !Occurs(more, rows[i].height) {
      var k :| 0 <= k < |init| && init[k].height == rows[i].height;
      assert blocks[k].height != blocks[|blocks| - 1].height;
    }
  }

  /** For any batching threshold the mirror tables equal those of flushing after every
      block, because a window's heights are distinct. */
  lemma {:induction false} BatchingIsInvisible(tables: Batch, blocks: seq<Block>, limit: nat)
    requires DistinctHeights(blocks)
    ensures WindowTables(tables, blocks, limit) == PerBlock(tables, blocks)
  {
    KeepAll(tables.events, []);
    KeepAll(tables.attributes, []);
    if blocks != [] {
      var init, last := blocks[..|blocks| - 1], blocks[|blocks| - 1];
      BatchingIsInvisible(tables, init, limit);
      var m, rows := Batched(tables, init, limit), RowsOf(last);
      PendingFromBlocks(tables, init, limit);
      RowsAtHeight(last);
      LastIsApart(m.pending.events, blocks, rows.events);
      LastIsApart(m.pending.attributes, blocks, rows.attributes);
      ReplacedTwice(m.tables.events, m.pending.events, rows.events);
      ReplacedTwice(m.tables.attributes, m.pending.attributes, rows.attributes);
      var all := Written(m.tables, m.pending.Then(rows));
      KeepAll(all.events, []);
      KeepAll(all.attributes, []);
    }
  }

  /** Were one height met twice in a batch, the rows of its first visit would survive. */
  lemma {:induction false} RepeatedHeightDiffers(kind: string, other: string)
    ensures var a, b := Block(7, [Event(kind, [], NoReceipt)], []), Block(7, [Event(other, [], NoReceipt)], []);
            |WindowTables(EMPTY, [a, b], BATCH_LIMIT).events| == 2 && |PerBlock(EMPTY, [a, b]).events| == 1
  {
    var a, b := Block(7, [Event(kind, [], NoReceipt)], []), Block(7, [Event(other, [], NoReceipt)], []);
    OneEventRows(7, kind);
    OneEventRows(7, other);
    var x, y := Row(7, -1, 0, Kind(kind)), Row(7, -1, 0, Kind(other));
    assert [a, b][..1] == [a] && [a][..0] == [];
    assert PerBlock(EMPTY, [a]).events == [x];
    assert [x][..0] == [] && [y][0].height == 7;
    assert Occurs([y], 7);
    assert Keep([x], [y]) == [];
    assert Batched(EMPTY, [a], BATCH_LIMIT) == Mirror(EMPTY, Batch([x], []));
    assert Batched(EMPTY, [a, b], BATCH_LIMIT) == Mirror(EMPTY, Batch([x, y], []));
  }

  lemma {:induction false} OneEventRows(height: int, kind: string)
    ensures RowsOf(Block(height, [Event(kind, [], NoReceipt)], [])) == Batch([Row(height, -1, 0, Kind(kind))], [])
  {
    var e := Event(kind, [], NoReceipt);
    assert [e][..0] == [] && AttributeRows(height, -1, 0, e, 0) == [];
    assert EventsOf(height, -1, [e][..0]) == EMPTY;
    assert EventsOf(height, -1, [e]) == Batch([Row(height, -1, 0, Kind(kind))], []);
  }

  // ----- which rows there are -------------------------------------------------------------------------------

  /** A write removes exactly the rows at the heights it brings rows for, and adds its own. */
  lemma {:induction false} ReplacedMeans(table: seq<Row>, rows: seq<Row>, row: Row)
    ensures row in Replaced(table, rows) <==> row in rows || (row in table && forall i :: 0 <= i < |rows| ==> rows[i].height != row.height)
  {
    KeepMeans(table, rows, row);
  }

  lemma {:induction false} KeepMeans(table: seq<Row>, rows: seq<Row>, row: Row)
    ensures row in Keep(table, rows) <==> row in table && forall i :: 0 <= i < |rows| ==> rows[i].height != row.height
  {
    if table != [] {
      var init, last := table[..|table| - 1], table[|table| - 1];
      KeepMeans(init, rows, row);
      assert row in table <==> row in init || row == last;
      assert Occurs(rows, row.height) <==> !(forall i :: 0 <= i < |rows| ==> rows[i].height != row.height);
    }
  }

  /** An attribute row holds its event's coordinates, an attribute and its composite key. */
  lemma {:induction false} AttributeRowsMean(height: int, tx: int, index: int, ev: Event, n: nat, row: Row)
    requires n <= |ev.attributes| && row in AttributeRows(height, tx, index, ev, n)
    ensures row.height == height && row.tx == tx && row.index == index && row.cell.Pair?
    ensures exists i :: 0 <= i < n && row.cell == Pair(ev.attributes[i].key, ev.attributes[i].value, ev.kind + "." + ev.attributes[i].key)
  {
    if row !in AttributeRows(height, tx, index, ev, n - 1) {
      assert row == AttributeRow(height, tx, index, ev, ev.attributes[n - 1]);
    } else {
      AttributeRowsMean(height, tx, index, ev, n - 1, row);
    }
  }

  /** Of one list of events: each event's kind, and the attribute rows of each, at its index. */
  ghost predicate Mirrors(rows: Batch, row: Row, height: int, tx: int, events: seq<Event>) {
    && (row in rows.events <==> exists i :: 0 <= i < |events| && row == Row(height, tx, i, Kind(events[i].kind)))
    && (row in rows.attributes <==>
          exists i :: 0 <= i < |events| && row in AttributeRows(height, tx, i, events[i], |events[i].attributes|))
  }

  lemma {:induction false} EventsMean(height: int, tx: int, events: seq<Event>, row: Row)
    ensures Mirrors(EventsOf(height, tx, events), row, height, tx, events)
  {
    if events != [] {
      var n := |events| - 1;
      EventsMean(height, tx, events[..n], row);
      assert forall i :: 0 <= i < n ==> events[..n][i] == events[i];
    }
  }

  lemma {:induction false} TxEventsMean(height: int, txs: seq<seq<Event>>, row: Row)
    ensures row in TxsOf(height, txs).events <==> exists t :: 0 <= t < |txs| && row in EventsOf(height, t, txs[t]).events
  {
    if txs != [] {
      var n := |txs| - 1;
      TxEventsMean(height, txs[..n], row);
      assert forall t :: 0 <= t < n ==> txs[..n][t] == txs[t];
    }
  }

  lemma {:induction false} TxAttributesMean(height: int, txs: seq<seq<Event>>, row: Row)
    ensures row in TxsOf(height, txs).attributes <==> exists t :: 0 <= t < |txs| && row in EventsOf(height, t, txs[t]).attributes
  {
    if txs != [] {
      var n := |txs| - 1;
      TxAttributesMean(height, txs[..n], row);
      assert forall t :: 0 <= t < n ==> txs[..n][t] == txs[t];
    }
  }

  /** A block mirrors every event of the block under transaction -1 and every event of every
      transaction under that transaction's number, and nothing else. */
  lemma {:induction false} RowsMean(b: Block, row: Row)
    ensures row in RowsOf(b).events <==>
              || (exists i :: 0 <= i < |b.finalize| && row == Row(b.height, -1, i, Kind(b.finalize[i].kind)))
              || (exists t, i :: 0 <= t < |b.txs| && 0 <= i < |b.txs[t]| && row == Row(b.height, t, i, Kind(b.txs[t][i].kind)))
    ensures row in RowsOf(b).attributes <==>
              || (exists i :: 0 <= i < |b.finalize| && row in AttributeRows(b.height, -1, i, b.finalize[i], |b.finalize[i].attributes|))
              || (exists t, i :: 0 <= t < |b.txs| && 0 <= i < |b.txs[t]|
                    && row in AttributeRows(b.height, t, i, b.txs[t][i], |b.txs[t][i].attributes|))
  {
    EventsMean(b.height, -1, b.finalize, row);
    TxEventsMean(b.height, b.txs, row);
    TxAttributesMean(b.height, b.txs, row);
    forall t | 0 <= t < |b.txs| ensures Mirrors(EventsOf(b.height, t, b.txs[t]), row, b.height, t, b.txs[t]) {
      EventsMean(b.height, t, b.txs[t], row);
    }
  }
}
