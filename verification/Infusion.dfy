/** Infusion snapshots and deletions (events/infusion.go, events/delete.go) and
    the adoption of positions that predate execution phases
    (events/infusion_reconcile.go). */
module Infusion {
  import opened Identifiers
  import opened LedgerRows
  import opened Positions

  datatype Key = Key(destination: string, address: string)

  /** The absent text of a nullable column is "". */
  datatype Row = Row(destinationType: string, playerId: string, ownerId: string, fuel: nat, defusing: nat,
                     power: nat, ratio: nat, commission: string, generatorDisabled: bool)

  datatype Mutation = Snapshot(key: Key, row: Row) | Delete(key: Key)

  datatype Block = Block(chain: string, height: int, time: int)

  /** One handled event; its position carries the block height. */
  datatype Delivery = Delivery(chain: string, time: int, at: Position, msg: int, mutation: Mutation)

  /** sync_state.infusion_event_position; rows older than phases have none. */
  datatype Stored = Stored(height: int, phase: Option<int>, tx: int, event: int)

  /** `ledger` is stored, `buffer` waits for the flush at the end of the block. */
  datatype Tables = Tables(rows: map<Key, Row>, positions: map<Key, Stored>,
                           ledger: seq<LedgerRow>, buffer: seq<LedgerRow>)

  datatype Verdict = Apply | Skip | UnknownPhase

  function StoredAt(p: Position): Stored {
    Stored(p.height, Some(p.phase), p.tx, p.event)
  }

  predicate Acceptable(m: Mutation) {
    match m
    case Snapshot(key, row) =>
      key.destination != "" && key.address != "" && (row.ownerId != "" ==> IsOwner(row.ownerId))
    case Delete(key) =>
      IsInfusionDestination(key.destination) && key.address != "" && '-' !in key.address
  }

  // ----- the replay guard -----------------------------------------------------------

  predicate IsInfusedRow(r: LedgerRow, key: Key) {
    r.address == key.address && r.counterparty == key.destination && r.action == "infused"
  }

  /** The last block whose stored ledger shows an infusion of the key, or 0. */
  function LegacyHeight(ledger: seq<LedgerRow>, key: Key): int {
    if ledger == [] then 0
    else
      var rest, r := LegacyHeight(ledger[..|ledger| - 1], key), ledger[|ledger| - 1];
      var seen := exists k :: 0 <= k < |ledger| - 1 && IsInfusedRow(ledger[k], key);
      if !IsInfusedRow(r, key) then rest
      else if !seen || r.height > rest then r.height else rest
  }

  /** Does the row already reflect an event at or after `at`? The comparison
      nests exactly as the handler's does. */
  function Guard(t: Tables, key: Key, at: Position): Verdict {
    if key in t.positions then
      var s := t.positions[key];
      if at.height != s.height then (if at.height < s.height then Skip else Apply)
      else match s.phase
        case None => UnknownPhase
        case Some(phase) =>
          if at.phase != phase then (if at.phase < phase then Skip else Apply)
          else if at.tx != s.tx then (if at.tx < s.tx then Skip else Apply)
          else if at.event <= s.event then Skip else Apply
    else if key in t.rows && at.height <= LegacyHeight(t.ledger, key) then Skip
    else Apply
  }

  /** The nested comparison is the tuple comparison of the SQL guards. */
  lemma {:induction false} GuardIsTupleOrder(t: Tables, key: Key, stored: Position, at: Position)
    requires key in t.positions && t.positions[key] == StoredAt(stored)
    ensures Guard(t, key, at) == (if Before(stored, at) then Apply else Skip)
  {
  }

  // ----- one event ------------------------------------------------------------------

  function Leg(d: Delivery, amount: int, leg: int): LedgerRow {
    LedgerRow(d.mutation.key.address, d.mutation.key.destination, amount, d.at.height, d.time, "infused",
              if leg == 0 then Debit else Credit, if leg == 0 then "ualpha" else "ualpha.infused",
              d.chain, d.at.tx, d.msg, EncodeEventIndex(d.at.event, leg))
  }

  /** A fresh struct row posts its whole fuel, a known one only the change. */
  function FuelLegs(t: Tables, d: Delivery): seq<LedgerRow>
    requires d.mutation.Snapshot?
  {
    var key, row := d.mutation.key, d.mutation.row;
    if row.destinationType != "struct" then []
    else if key !in t.rows then [Leg(d, row.fuel, 0), Leg(d, row.fuel, 1)]
    else
      var change := row.fuel - t.rows[key].fuel;
      if change == 0 then [] else [Leg(d, change, 0), Leg(d, change, 1)]
  }

  /** The conflict update writes every column but the destination type. */
  function Upserted(t: Tables, key: Key, row: Row): Row {
    if key in t.rows then row.(destinationType := t.rows[key].destinationType) else row
  }

  predicate Takes(t: Tables, d: Delivery) {
    Acceptable(d.mutation) && Guard(t, d.mutation.key, d.at) == Apply
  }

  function Deliver(t: Tables, d: Delivery): Tables {
    if !Takes(t, d) then t
    else
      var key := d.mutation.key;
      var positions := t.positions[key := StoredAt(d.at)];
      match d.mutation
      case Snapshot(_, row) =>
        Tables(t.rows[key := Upserted(t, key, row)], positions, t.ledger, t.buffer + FuelLegs(t, d))
      case Delete(_) => Tables(t.rows - {key}, positions, t.ledger, t.buffer)
  }

  function DeliverAll(t: Tables, ds: seq<Delivery>): Tables {
    if ds == [] then t else Deliver(DeliverAll(t, ds[..|ds| - 1]), ds[|ds| - 1])
  }

  // ----- what a delivery is meant to do -----------------------------------------------------------

  /** A snapshot names its key and an owner that is a guild or player, if any; a deletion names
      a reactor or struct and a plain address. */
  predicate Lawful(m: Mutation) {
    if m.Snapshot? then m.key.destination != "" && m.key.address != "" && (m.row.ownerId == "" || IsOwner(m.row.ownerId))
    else IsInfusionDestination(m.key.destination) && m.key.address != "" && forall i :: 0 <= i < |m.key.address| ==> m.key.address[i] != '-'
  }

  /** The event is later than what the key reflects. A stored position decides by height, and at
      the same height by its phase and coordinates; a row without one reflects every block up to
      its last infused ledger row. */
  ghost predicate Later(t: Tables, key: Key, at: Position) {
    if key in t.positions then
      var s := t.positions[key];
      at.height > s.height || (s.phase.Some? && Before(Position(s.height, s.phase.value, s.tx, s.event), at))
    else key in t.rows ==>
      if exists i :: 0 <= i < |t.ledger| && IsInfusedRow(t.ledger[i], key)
      then forall i :: 0 <= i < |t.ledger| && IsInfusedRow(t.ledger[i], key) ==> t.ledger[i].height < at.height
      else at.height > 0
  }

  /** A position at the same height whose phase was never stored. */
  predicate Undecided(t: Tables, key: Key, at: Position) {
    key in t.positions && t.positions[key].height == at.height && t.positions[key].phase == None
  }

  /** The debit of fuel and its infused counterpart, at the event's own coordinates. */
  predicate IsFuelPair(rows: seq<LedgerRow>, d: Delivery, amount: int) {
    && |rows| == 2
    && (forall n :: 0 <= n < 2 ==>
          && rows[n].address == d.mutation.key.address && rows[n].counterparty == d.mutation.key.destination
          && rows[n].amount == amount && rows[n].action == "infused" && rows[n].height == d.at.height && rows[n].time == d.time
          && rows[n].chain == d.chain && rows[n].tx == d.at.tx && rows[n].msg == d.msg && rows[n].eventIndex == 8 * d.at.event + n)
    && rows[0].direction == Debit && rows[0].denom == "ualpha"
    && rows[1].direction == Credit && rows[1].denom == "ualpha.infused"
  }

  /** The snapshot's row is stored, its fuel change is posted for a struct; or the row is gone.
      The position is the event's, and nothing else changes. */
  ghost predicate InEffect(t: Tables, u: Tables, d: Delivery) {
    var key := d.mutation.key;
    && u.ledger == t.ledger
    && u.positions == t.positions[key := Stored(d.at.height, Some(d.at.phase), d.at.tx, d.at.event)]
    && (forall k :: k != key ==> (k in u.rows <==> k in t.rows) && (k in t.rows ==> u.rows[k] == t.rows[k]))
    && match d.mutation
       case Delete(_) => key !in u.rows && u.buffer == t.buffer
       case Snapshot(_, row) =>
         var change := row.fuel - if key in t.rows then t.rows[key].fuel else 0;
         && key in u.rows
         && u.rows[key] == row.(destinationType := if key in t.rows then t.rows[key].destinationType else row.destinationType)
         && (if row.destinationType == "struct" && (key !in t.rows || change != 0)
             then t.buffer <= u.buffer && IsFuelPair(u.buffer[|t.buffer|..], d, change)
             else u.buffer == t.buffer)
  }

  lemma {:induction false} LegacyHeightMeans(ledger: seq<LedgerRow>, key: Key, h: int)
    ensures var seen := exists i :: 0 <= i < |ledger| && IsInfusedRow(ledger[i], key);
            LegacyHeight(ledger, key) < h <==>
              if seen then forall i :: 0 <= i < |ledger| && IsInfusedRow(ledger[i], key) ==> ledger[i].height < h else 0 < h
  {
    if ledger != [] {
      var init := ledger[..|ledger| - 1];
      LegacyHeightMeans(init, key, h);
      assert forall i :: 0 <= i < |init| ==> init[i] == ledger[i];
      assert (exists i :: 0 <= i < |init| && IsInfusedRow(init[i], key)) <==> exists k :: 0 <= k < |ledger| - 1 && IsInfusedRow(ledger[k], key);
    }
  }

  lemma {:induction false} GuardMeans(t: Tables, key: Key, at: Position)
    ensures Guard(t, key, at) == UnknownPhase <==> Undecided(t, key, at)
    ensures Guard(t, key, at) == Apply <==> Later(t, key, at)
  {
    LegacyHeightMeans(t.ledger, key, at.height);
  }

  lemma {:induction false} TakesMeans(t: Tables, d: Delivery)
    ensures Acceptable(d.mutation) <==> Lawful(d.mutation)
    ensures Takes(t, d) <==> Lawful(d.mutation) && Later(t, d.mutation.key, d.at)
  {
    GuardMeans(t, d.mutation.key, d.at);
  }

  lemma {:induction false} FuelLegsMean(t: Tables, d: Delivery)
    requires d.mutation.Snapshot?
    ensures var row, key := d.mutation.row, d.mutation.key;
            var change := row.fuel - if key in t.rows then t.rows[key].fuel else 0;
            if row.destinationType == "struct" && (key !in t.rows || change != 0) then IsFuelPair(FuelLegs(t, d), d, change)
            else FuelLegs(t, d) == []
  {
  }

  lemma {:induction false} SnapshotMeans(t: Tables, d: Delivery)
    requires Takes(t, d) && d.mutation.Snapshot?
    ensures InEffect(t, Deliver(t, d), d)
  {
    FuelLegsMean(t, d);
    assert (t.buffer + FuelLegs(t, d))[|t.buffer|..] == FuelLegs(t, d);
  }

  /** A lawful event that is later than what its key reflects takes effect; any other is a no-op. */
  lemma {:induction false} DeliverMeans(t: Tables, d: Delivery)
    ensures if Lawful(d.mutation) && Later(t, d.mutation.key, d.at) then InEffect(t, Deliver(t, d), d) else Deliver(t, d) == t
  {
    TakesMeans(t, d);
    if Takes(t, d) && d.mutation.Snapshot? { SnapshotMeans(t, d); }
  }

  /** The owner whose assets a row belongs to. */
  function AssetOwner(row: Row): string {
    if row.ownerId != "" then row.ownerId else row.playerId
  }

  class Store {
    var rows: map<Key, Row>
    var positions: map<Key, Stored>
    var ledger: seq<LedgerRow>
    var buffer: seq<LedgerRow>
    var dirtyOwners: set<string>
    var dirtyAddresses: set<string>
    /** Keys whose reactor and whose address's native evidence are marked. */
    var dirtyReactors: set<Key>

    constructor (initial: Tables)
      ensures View() == initial && dirtyOwners == {} && dirtyAddresses == {} && dirtyReactors == {}
    {
      rows, positions, ledger, buffer := initial.rows, initial.positions, initial.ledger, initial.buffer;
      dirtyOwners, dirtyAddresses, dirtyReactors := {}, {}, {};
    }

    function View(): Tables
      reads this
    {
      Tables(rows, positions, ledger, buffer)
    }

    /** An event fails on a malformed payload or on a stored position whose
        phase is unknown at the same height. A row change marks the address, the
        owner it had and the owner it gets; one that concerns a reactor marks it too. */
    method Handle(d: Delivery) returns (ok: bool)
      modifies this
      ensures ok <==> Acceptable(d.mutation) && Guard(old(View()), d.mutation.key, d.at) != UnknownPhase
      ensures View() == Deliver(old(View()), d)
      ensures old(dirtyOwners) <= dirtyOwners && old(dirtyAddresses) <= dirtyAddresses
      ensures forall k :: k in old(rows) && (k !in rows || rows[k] != old(rows)[k])
                ==> k.address in dirtyAddresses && AssetOwner(old(rows)[k]) in dirtyOwners
      ensures forall k :: k in rows && (k !in old(rows) || rows[k] != old(rows)[k])
                ==> k.address in dirtyAddresses && AssetOwner(rows[k]) in dirtyOwners
      ensures dirtyReactors == old(dirtyReactors)
                + if Takes(old(View()), d) && ConcernsReactor(d.mutation) then {d.mutation.key} else {}
    {
      if !Acceptable(d.mutation) { return false; }
      var verdict := Guard(View(), d.mutation.key, d.at);
      if verdict != Apply { return verdict == Skip; }
      ok := true;
      ApplyRecord(d);
    }

    method ApplyRecord(d: Delivery)
      requires Takes(View(), d)
      modifies this
      ensures View() == Deliver(old(View()), d)
      ensures dirtyAddresses == old(dirtyAddresses) + {d.mutation.key.address}
      ensures dirtyOwners == old(dirtyOwners) + OwnersOf(old(View()), d.mutation.key) + OwnersOf(View(), d.mutation.key)
      ensures dirtyReactors == old(dirtyReactors) + if ConcernsReactor(d.mutation) then {d.mutation.key} else {}
    {
      var key := d.mutation.key;
      if key in rows { dirtyOwners := dirtyOwners + {AssetOwner(rows[key])}; }
      dirtyAddresses := dirtyAddresses + {key.address};
      match d.mutation {
        case Snapshot(_, row) =>
          buffer := buffer + FuelLegs(View(), d);
          rows := rows[key := Upserted(View(), key, row)];
          dirtyOwners := dirtyOwners + {AssetOwner(row)};
        case Delete(_) =>
          rows := rows - {key};
      }
      if ConcernsReactor(d.mutation) { dirtyReactors := dirtyReactors + {key}; }
      positions := positions[key := StoredAt(d.at)];
    }
  }

  function OwnersOf(t: Tables, key: Key): set<string> {
    if key in t.rows then {AssetOwner(t.rows[key])} else {}
  }

  /** A snapshot says so itself; a deletion by its destination. */
  predicate ConcernsReactor(m: Mutation) {
    match m
    case Snapshot(_, row) => row.destinationType == "reactor"
    case Delete(key) => IsReactorKey(key)
  }

  predicate IsReactorKey(key: Key) {
    "3-" <= key.destination
  }

  // ----- records: what a delivery sequence applies ------------------------------------

  predicate Concerns(d: Delivery, k: Key) {
    d.mutation.key == k && Acceptable(d.mutation)
  }

  /** The greatest position delivered for the key so far. */
  function Record(ds: seq<Delivery>, k: Key): Option<Position> {
    if ds == [] then None
    else
      var best, d := Record(ds[..|ds| - 1], k), ds[|ds| - 1];
      if Concerns(d, k) && (best.None? || Before(best.value, d.at)) then Some(d.at) else best
  }

  lemma {:induction false} RecordIsMaximum(ds: seq<Delivery>, k: Key)
    ensures Record(ds, k).None? <==> forall d :: d in ds ==> !Concerns(d, k)
    ensures Record(ds, k).Some? ==> forall d :: d in ds && Concerns(d, k) ==> AtOrBefore(d.at, Record(ds, k).value)
    ensures Record(ds, k).Some? ==> exists d :: d in ds && Concerns(d, k) && d.at == Record(ds, k).value
  {
    if ds != [] {
      var init, last := ds[..|ds| - 1], ds[|ds| - 1];
      RecordIsMaximum(init, k);
      assert ds == init + [last];
      assert forall d :: d in ds <==> d in init || d == last;
      if Record(init, k).Some? {
        Trichotomy(Record(init, k).value, last.at);
        var w :| w in init && Concerns(w, k) && w.at == Record(init, k).value;
        assert w in ds;
      }
    }
  }

  predicate Unseen(t: Tables, k: Key) {
    k !in t.rows && k !in t.positions
  }

  /** The stored position is the greatest delivered one. */
  lemma {:induction false} PositionIsRecord(t: Tables, ds: seq<Delivery>, k: Key)
    requires Unseen(t, k)
    ensures var s := DeliverAll(t, ds);
            && (Record(ds, k).None? ==> Unseen(s, k))
            && (Record(ds, k).Some? ==> k in s.positions && s.positions[k] == StoredAt(Record(ds, k).value))
  {
    if ds != [] {
      var init, d := ds[..|ds| - 1], ds[|ds| - 1];
      PositionIsRecord(t, init, k);
      var s := DeliverAll(t, init);
      if Concerns(d, k) && Record(init, k).Some? {
        GuardIsTupleOrder(s, k, Record(init, k).value, d.at);
      }
    }
  }

  /** Deliveries for a key take effect exactly when they set a new record; every
      other one leaves the tables and the buffer as they were. */
  lemma {:induction false} OnlyRecordsApply(t: Tables, ds: seq<Delivery>, d: Delivery)
    requires Unseen(t, d.mutation.key) && Acceptable(d.mutation)
    ensures Takes(DeliverAll(t, ds), d) <==>
              forall e :: e in ds && Concerns(e, d.mutation.key) ==> Before(e.at, d.at)
    ensures !Takes(DeliverAll(t, ds), d) ==> DeliverAll(t, ds + [d]) == DeliverAll(t, ds)
    ensures Guard(DeliverAll(t, ds), d.mutation.key, d.at) != UnknownPhase
  {
    var k := d.mutation.key;
    RecordIsMaximum(ds, k);
    PositionIsRecord(t, ds, k);
    assert (ds + [d])[..|ds|] == ds;
    if Record(ds, k).Some? {
      var record := Record(ds, k).value;
      GuardIsTupleOrder(DeliverAll(t, ds), k, record, d.at);
      if Before(record, d.at) {
        forall e | e in ds && Concerns(e, k) ensures Before(e.at, d.at) {
          if e.at != record { Transitive(e.at, record, d.at); }
        }
      }
    }
  }

  /** Along rising positions, as a first pass meets them, nothing is suppressed. */
  lemma {:induction false} FirstPassAppliesAll(t: Tables, ds: seq<Delivery>, i: nat)
    requires i < |ds| && Acceptable(ds[i].mutation) && Unseen(t, ds[i].mutation.key)
    requires Ascending(seq(|ds|, k requires 0 <= k < |ds| => ds[k].at))
    ensures Takes(DeliverAll(t, ds[..i]), ds[i])
  {
    var ps := seq(|ds|, k requires 0 <= k < |ds| => ds[k].at);
    forall e | e in ds[..i] ensures Before(e.at, ds[i].at) {
      var j :| 0 <= j < i && ds[j] == e;
      assert Before(ps[j], ps[i]);
    }
    OnlyRecordsApply(t, ds[..i], ds[i]);
  }

  // ----- conservation of burned fuel -----------------------------------------------------

  function Posted(rows: seq<LedgerRow>, k: Key, direction: Direction): int {
    if rows == [] then 0
    else Posted(rows[..|rows| - 1], k, direction)
         + if IsInfusedRow(rows[|rows| - 1], k) && rows[|rows| - 1].direction == direction then rows[|rows| - 1].amount else 0
  }

  lemma {:induction false} PostedAppend(a: seq<LedgerRow>, b: seq<LedgerRow>, k: Key, direction: Direction)
    ensures Posted(a + b, k, direction) == Posted(a, k, direction) + Posted(b, k, direction)
  {
    if b == [] {
      assert a + b == a;
    } else {
      PostedAppend(a, b[..|b| - 1], k, direction);
      assert (a + b)[..|a + b| - 1] == a + b[..|b| - 1];
    }
  }

  /** How long the buffer was when the key was last deleted. */
  function LastDeletion(t: Tables, ds: seq<Delivery>, k: Key): nat {
    if ds == [] then |t.buffer|
    else
      var init, d := ds[..|ds| - 1], ds[|ds| - 1];
      if d.mutation == Delete(k) && Takes(DeliverAll(t, init), d) then |DeliverAll(t, init).buffer|
      else LastDeletion(t, init, k)
  }

  /** For a struct destination the infused debits that the buffer gained since the
      last applied deletion, and likewise the credits, sum to the current fuel. */
  lemma {:induction false} FuelIsConserved(t: Tables, ds: seq<Delivery>, k: Key, direction: Direction)
    requires Unseen(t, k)
    requires forall d :: d in ds && d.mutation.Snapshot? && d.mutation.key == k
               ==> d.mutation.row.destinationType == "struct"
    ensures var s := DeliverAll(t, ds);
            && LastDeletion(t, ds, k) <= |s.buffer|
            && Posted(s.buffer[LastDeletion(t, ds, k)..], k, direction) == FuelOf(s, k)
  {
    if ds == [] {
      assert t.buffer[|t.buffer|..] == [];
    } else {
      var init, d := ds[..|ds| - 1], ds[|ds| - 1];
      assert ds == init + [d];
      FuelIsConserved(t, init, k, direction);
      var before, mark := DeliverAll(t, init), LastDeletion(t, init, k);
      if d.mutation == Delete(k) && Takes(before, d) {
        assert before.buffer[|before.buffer|..] == [];
      } else {
        OneDeliveryConserves(before, d, mark, k, direction);
      }
    }
  }

  function FuelOf(t: Tables, k: Key): nat {
    if k in t.rows then t.rows[k].fuel else 0
  }

  lemma {:induction false} OneDeliveryConserves(t: Tables, d: Delivery, mark: nat, k: Key, direction: Direction)
    requires mark <= |t.buffer| && Posted(t.buffer[mark..], k, direction) == FuelOf(t, k)
    requires d.mutation.Snapshot? && d.mutation.key == k ==> d.mutation.row.destinationType == "struct"
    requires d.mutation == Delete(k) ==> !Takes(t, d)
    ensures mark <= |Deliver(t, d).buffer|
    ensures Posted(Deliver(t, d).buffer[mark..], k, direction) == FuelOf(Deliver(t, d), k)
  {
    if Takes(t, d) && d.mutation.Snapshot? {
      var legs := FuelLegs(t, d);
      PostedLegs(t, d, k, direction);
      PostedAppend(t.buffer[mark..], legs, k, direction);
      assert (t.buffer + legs)[mark..] == t.buffer[mark..] + legs;
    }
  }

  lemma {:induction false} PostedLegs(t: Tables, d: Delivery, k: Key, direction: Direction)
    requires d.mutation.Snapshot?
    ensures Posted(FuelLegs(t, d), k, direction) ==
              if d.mutation.key != k || d.mutation.row.destinationType != "struct" then 0
              else d.mutation.row.fuel - if k in t.rows then t.rows[k].fuel else 0
  {
    var legs := FuelLegs(t, d);
    if legs != [] {
      PostedPair(legs[0], legs[1], k, direction);
      assert legs == [legs[0], legs[1]];
    }
  }

  lemma {:induction false} PostedPair(a: LedgerRow, b: LedgerRow, k: Key, direction: Direction)
    ensures Posted([a, b], k, direction) == Posted([a], k, direction) + Posted([b], k, direction)
    ensures Posted([a], k, direction) == if IsInfusedRow(a, k) && a.direction == direction then a.amount else 0
    ensures Posted([b], k, direction) == if IsInfusedRow(b, k) && b.direction == direction then b.amount else 0
  {
    assert [a, b][..1] == [a] && [a][..0] == [] && [b][..0] == [];
    assert Posted([], k, direction) == 0;
  }
}
