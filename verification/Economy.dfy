/** Economy snapshots and family resets (events/economy_position.go,
    events/economy.go): guarded writes whose outcome must not depend on the
    order or number of deliveries. */
module Economy {
  import opened Identifiers
  import opened Positions

  datatype Family = Diversity | Commission | StakeCap

  /** Entity "" is the reset watermark of its family. */
  datatype Key = Key(family: Family, entity: string)

  datatype Row =
    | DiversityRow(power: nat, squaredPower: nat, appliedBonus: nat)
    | CommissionRow(slashRevision: nat, reconciledRevision: nat)
    | StakeCapRow(active: bool, capBps: nat, minValidators: nat)

  datatype Delivery =
    | Set(key: Key, row: Row, at: Position)
    | Reset(family: Family, at: Position)

  function FamilyOf(d: Delivery): Family {
    match d
    case Set(key, _, _) => key.family
    case Reset(family, _) => family
  }

  /** The three row tables side by side, and sync_state.economy_event_position. */
  datatype Tables = Tables(rows: map<Key, Row>, positions: map<Key, Position>)

  // ----- payload checks ----------------------------------------------------------

  /** What the handlers accept; everything else is an error without effect. */
  predicate Acceptable(d: Delivery) {
    match d
    case Set(Key(Diversity, id), row, _) => row.DiversityRow? && IsOwner(id)
    case Set(Key(Commission, id), row, _) =>
      row.CommissionRow? && IsReactor(id) && row.reconciledRevision <= row.slashRevision
    case Set(Key(StakeCap, id), row, _) => row.StakeCapRow? && id == "singleton"
    case Reset(family, _) => family != StakeCap
  }

  // ----- the SQL statements --------------------------------------------------------

  /** Some stored position of the entity, or of the family watermark, is at or after `at`. */
  predicate EventApplied(t: Tables, key: Key, at: Position) {
    || (key in t.positions && !Before(t.positions[key], at))
    || (Key(key.family, "") in t.positions && !Before(t.positions[Key(key.family, "")], at))
  }

  function Upsert(t: Tables, key: Key, row: Row, at: Position): Tables {
    Tables(t.rows[key := row], t.positions[key := at])
  }

  /** The row survives a reset at `at`: a position after the reset vouches for it. */
  predicate Vouched(t: Tables, key: Key, at: Position) {
    key in t.positions && Before(at, t.positions[key])
  }

  function ResetRows(t: Tables, family: Family, at: Position): map<Key, Row> {
    map k | k in t.rows && (k.family != family || Vouched(t, k, at)) :: t.rows[k]
  }

  function ResetPositions(t: Tables, family: Family, at: Position): map<Key, Position> {
    (map k | k in t.positions && (k.family != family || Before(at, t.positions[k])) :: t.positions[k])
    [Key(family, "") := at]
  }

  function Deliver(t: Tables, d: Delivery): Tables {
    if !Acceptable(d) then t
    else match d
      case Set(key, row, at) => if EventApplied(t, key, at) then t else Upsert(t, key, row, at)
      case Reset(family, at) =>
        if EventApplied(t, Key(family, ""), at) then t
        else Tables(ResetRows(t, family, at), ResetPositions(t, family, at))
  }

  function DeliverAll(t: Tables, ds: seq<Delivery>): Tables {
    if ds == [] then t else Deliver(DeliverAll(t, ds[..|ds| - 1]), ds[|ds| - 1])
  }

  // ----- what a delivery is meant to do -----------------------------------------------------------

  /** An owner's diversity, a reactor's commission whose reconciled revision is not ahead, the one
      stake cap; or a reset of one of the first two. */
  predicate Lawful(d: Delivery) {
    || (d.Set? && d.key.family == Diversity && IsOwner(d.key.entity) && d.row.DiversityRow?)
    || (d.Set? && d.key.family == Commission && IsReactor(d.key.entity) && d.row.CommissionRow?
        && d.row.reconciledRevision <= d.row.slashRevision)
    || (d.Set? && d.key.family == StakeCap && d.key.entity == "singleton" && d.row.StakeCapRow?)
    || (d.Reset? && (d.family == Diversity || d.family == Commission))
  }

  /** No position of the entity or watermark of the family is at or after the delivery. */
  predicate Unblocked(positions: map<Key, Position>, d: Delivery) {
    && (d.Set? && d.key in positions ==> Before(positions[d.key], d.at))
    && (Key(FamilyOf(d), "") in positions ==> Before(positions[Key(FamilyOf(d), "")], d.at))
  }

  /** The set is stored; or the watermark is, and no row of the family is left without a later
      position. */
  ghost predicate InEffect(rows: map<Key, Row>, positions: map<Key, Position>, d: Delivery) {
    match d
    case Set(key, row, at) => key in rows && rows[key] == row && key in positions && positions[key] == at
    case Reset(family, at) =>
      && Key(family, "") in positions && positions[Key(family, "")] == at
      && forall k :: k in rows && k.family == family ==> k in positions && Before(at, positions[k])
  }

  /** Nothing else goes: other families, and entities that the reset does not reach, stay. */
  ghost predicate Spares(before: Tables, rows: map<Key, Row>, positions: map<Key, Position>, d: Delivery) {
    && (forall k :: k in rows && !(d.Set? && k == d.key) ==> k in before.rows && rows[k] == before.rows[k])
    && (forall k :: k in before.rows && (d.Set? || k.family != d.family || (k in before.positions && Before(d.at, before.positions[k])))
          ==> k in rows)
    && (forall k :: k in positions && k != (if d.Set? then d.key else Key(d.family, "")) ==> k in before.positions && positions[k] == before.positions[k])
    && (forall k :: k in before.positions && (d.Set? || k.family != d.family || Before(d.at, before.positions[k])) ==> k in positions)
  }

  lemma {:induction false} DeliverMeans(t: Tables, d: Delivery)
    ensures Acceptable(d) <==> Lawful(d)
    ensures var u := Deliver(t, d);
            if Lawful(d) && Unblocked(t.positions, d) then InEffect(u.rows, u.positions, d) && Spares(t, u.rows, u.positions, d)
            else u == t
  {
    if d.Reset? && Lawful(d) && Unblocked(t.positions, d) {
      forall k | k in ResetRows(t, d.family, d.at) && k.family == d.family
        ensures k in ResetPositions(t, d.family, d.at) && Before(d.at, ResetPositions(t, d.family, d.at)[k])
      {
        Trichotomy(d.at, t.positions[k]);
      }
    }
  }

  /** The handlers over the live tables, with the dirty marks they leave behind. */
  class Store {
    var rows: map<Key, Row>
    var positions: map<Key, Position>
    var dirty: set<Key>
    var dirtyNative: set<Key>

    constructor (legacy: map<Key, Row>)
      ensures View() == Tables(legacy, map[]) && dirty == {} && dirtyNative == {}
    {
      rows, positions, dirty, dirtyNative := legacy, map[], {}, {};
    }

    function View(): Tables
      reads this
    {
      Tables(rows, positions)
    }

    /** Every owner or reactor whose row the delivery changes is marked for projection;
        nothing is projected from the stake cap, and a stale delivery marks nothing. A
        commission that applies also invalidates the native evidence of its reactor. */
    method Handle(d: Delivery) returns (ok: bool)
      modifies this
      ensures ok == Acceptable(d)
      ensures View() == Deliver(old(View()), d)
      ensures ok <==> Lawful(d)
      ensures if ok && Unblocked(old(positions), d) then InEffect(rows, positions, d) && Spares(old(View()), rows, positions, d)
              else rows == old(rows) && positions == old(positions)
      ensures old(dirty) <= dirty
      ensures forall k :: k in old(rows) && (k !in rows || rows[k] != old(rows)[k]) ==> k in dirty || k.family == StakeCap
      ensures forall k :: k in rows && k !in old(rows) ==> k in dirty || k.family == StakeCap
      ensures forall k :: k in dirty && k !in old(dirty) ==> k.family == FamilyOf(d) != StakeCap && View() != old(View())
      ensures dirtyNative == old(dirtyNative)
                + if ok && d.Set? && d.key.family == Commission && !EventApplied(old(View()), d.key, d.at) then {d.key} else {}
    {
      DeliverMeans(View(), d);
      ok := Acceptable(d);
      if !ok { return; }
      match d {
        case Set(key, row, at) =>
          if !EventApplied(View(), key, at) {
            rows := rows[key := row];
            if key.family != StakeCap { dirty := dirty + {key}; }
            if key.family == Commission { dirtyNative := dirtyNative + {key}; }
            positions := positions[key := at];
          }
        case Reset(family, at) =>
          if !EventApplied(View(), Key(family, ""), at) { Clear(family, at); }
      }
    }

    /** Deletes the rows that no later position vouches for, and moves the watermark. */
    method Clear(family: Family, at: Position)
      modifies `rows, `positions, `dirty
      ensures rows == ResetRows(old(View()), family, at) && positions == ResetPositions(old(View()), family, at)
      ensures dirty == old(dirty) + set k | k in old(rows) && k !in rows
    {
      var doomed := set k | k in rows && k.family == family && !Vouched(View(), k, at);
      MarkAll(doomed);
      rows := map k | k in rows && k !in doomed :: rows[k];
      positions := (map k | k in positions && (k.family != family || Before(at, positions[k])) :: positions[k])[Key(family, "") := at];
    }

    method MarkAll(doomed: set<Key>)
      modifies `dirty
      ensures dirty == old(dirty) + doomed
    {
      var left := doomed;
      while left != {}
        invariant left <= doomed && dirty == old(dirty) + (doomed - left)
      {
        var k :| k in left;
        dirty := dirty + {k};
        left := left - {k};
      }
    }
  }

  // ----- what any delivery order must leave behind ---------------------------------

  /** The delivered facts are told apart by their positions. */
  ghost predicate Distinct(facts: set<Delivery>) {
    && (forall d :: d in facts ==> Acceptable(d))
    && (forall d, e :: d in facts && e in facts && d.at == e.at ==> d == e)
  }

  /** `r` is the latest reset of its family. */
  ghost predicate LatestReset(facts: set<Delivery>, r: Delivery) {
    && r in facts && r.Reset?
    && forall e :: e in facts && e.Reset? && e.family == r.family && e != r ==> Before(e.at, r.at)
  }

  /** `s` is the latest snapshot of its entity, and later than every family reset. */
  ghost predicate Survives(facts: set<Delivery>, s: Delivery) {
    && s in facts && s.Set?
    && (forall e :: e in facts && e.Set? && e.key == s.key && e != s ==> Before(e.at, s.at))
    && (forall e :: e in facts && e.Reset? && e.family == s.key.family ==> Before(e.at, s.at))
  }

  /** A row older than the position table stays until anything touches it. */
  ghost predicate Untouched(facts: set<Delivery>, k: Key) {
    && (forall e :: e in facts && e.Set? ==> e.key != k)
    && (forall e :: e in facts && e.Reset? ==> e.family != k.family)
  }

  ghost function Survivor(facts: set<Delivery>, k: Key): Option<Delivery> {
    if exists s :: Survives(facts, s) && s.key == k then
      var s :| Survives(facts, s) && s.key == k;
      Some(s)
    else None
  }

  ghost function Watermark(facts: set<Delivery>, family: Family): Option<Position> {
    if exists r :: LatestReset(facts, r) && r.family == family then
      var r :| LatestReset(facts, r) && r.family == family;
      Some(r.at)
    else None
  }

  ghost function ExpectedPosition(facts: set<Delivery>, k: Key): Option<Position> {
    if k.entity == "" then Watermark(facts, k.family)
    else match Survivor(facts, k)
      case Some(s) => Some(s.at)
      case None => None
  }

  ghost function ExpectedRow(facts: set<Delivery>, legacy: map<Key, Row>, k: Key): Option<Row> {
    if k.entity == "" then None
    else match Survivor(facts, k)
      case Some(s) => if s.Set? then Some(s.row) else None
      case None => if k in legacy && Untouched(facts, k) then Some(legacy[k]) else None
  }

  function PositionAt(t: Tables, k: Key): Option<Position> {
    if k in t.positions then Some(t.positions[k]) else None
  }

  function RowAt(t: Tables, k: Key): Option<Row> {
    if k in t.rows then Some(t.rows[k]) else None
  }

  /** An entity is stored iff its latest snapshot is later than the latest reset
      of its family, with that snapshot's row and position; the watermark is the
      latest reset. */
  ghost predicate Summarises(t: Tables, facts: set<Delivery>, legacy: map<Key, Row>) {
    && (forall k :: PositionAt(t, k) == ExpectedPosition(facts, k))
    && (forall k :: RowAt(t, k) == ExpectedRow(facts, legacy, k))
  }

  lemma {:induction false} SameLookups(a: Tables, b: Tables)
    requires forall k :: PositionAt(a, k) == PositionAt(b, k)
    requires forall k :: RowAt(a, k) == RowAt(b, k)
    ensures a == b
  {
    forall k ensures k in a.positions <==> k in b.positions
      ensures k in a.positions ==> a.positions[k] == b.positions[k]
    {
      assert PositionAt(a, k) == PositionAt(b, k);
    }
    assert a.positions == b.positions;
    forall k ensures k in a.rows <==> k in b.rows
      ensures k in a.rows ==> a.rows[k] == b.rows[k]
    {
      assert RowAt(a, k) == RowAt(b, k);
    }
    assert a.rows == b.rows;
  }

  /** The summary determines the tables: equal facts cannot leave different state. */
  lemma {:induction false} SummaryIsUnique(a: Tables, b: Tables, facts: set<Delivery>, legacy: map<Key, Row>)
    requires Summarises(a, facts, legacy) && Summarises(b, facts, legacy)
    ensures a == b
  {
    SameLookups(a, b);
  }

  // ----- latest facts exist --------------------------------------------------------------

  lemma {:induction false} LatestExists(candidates: set<Delivery>) returns (m: Delivery)
    requires candidates != {}
    requires forall d, e :: d in candidates && e in candidates && d.at == e.at ==> d == e
    ensures m in candidates && forall e :: e in candidates && e != m ==> Before(e.at, m.at)
  {
    var d :| d in candidates;
    var rest := candidates - {d};
    assert forall e :: e in candidates && e != d ==> e in rest;
    m := d;
    if rest != {} {
      var n := LatestExists(rest);
      assert n in candidates && n != d && n.at != d.at;
      Trichotomy(n.at, d.at);
      m := if Before(d.at, n.at) then n else d;
      forall e | e in candidates && e != m ensures Before(e.at, m.at) {
        if e in rest && e != n { if m == d { Transitive(e.at, n.at, d.at); } }
      }
    }
  }

  lemma {:induction false} FindLatestReset(facts: set<Delivery>, family: Family) returns (r: Option<Delivery>)
    requires Distinct(facts)
    ensures r.Some? ==> LatestReset(facts, r.value) && r.value.family == family && Watermark(facts, family) == Some(r.value.at)
    ensures r.None? ==> (forall e :: e in facts && e.Reset? ==> e.family != family) && Watermark(facts, family) == None
  {
    var resets := set e | e in facts && e.Reset? && e.family == family;
    if e :| e in facts && e.Reset? && e.family == family {
      assert e in resets;
      var m := LatestExists(resets);
      assert LatestReset(facts, m);
      forall w | LatestReset(facts, w) && w.family == family ensures w == m {
        Trichotomy(w.at, m.at);
      }
      r := Some(m);
    } else {
      r := None;
    }
  }

  lemma {:induction false} SurvivorIs(facts: set<Delivery>, s: Delivery)
    requires Survives(facts, s)
    ensures Survivor(facts, s.key) == Some(s)
  {
    forall w | Survives(facts, w) && w.key == s.key ensures w == s {
      Trichotomy(w.at, s.at);
      assert w in facts && s in facts;
    }
  }

  /** The latest snapshot of an entity survives, or some reset is not earlier. */
  lemma {:induction false} LatestSet(facts: set<Delivery>, key: Key) returns (s: Option<Delivery>)
    requires Distinct(facts)
    ensures s.None? ==> (forall e :: e in facts && e.Set? ==> e.key != key) && Survivor(facts, key) == None
    ensures s.Some? ==> s.value in facts && s.value.Set? && s.value.key == key
    ensures s.Some? ==> forall e :: e in facts && e.Set? && e.key == key && e != s.value ==> Before(e.at, s.value.at)
    ensures s.Some? ==> Survivor(facts, key) == (if Survives(facts, s.value) then s else None)
  {
    var sets := set e | e in facts && e.Set? && e.key == key;
    if e :| e in facts && e.Set? && e.key == key {
      assert e in sets;
      var m := LatestExists(sets);
      s := Some(m);
      if Survives(facts, m) {
        SurvivorIs(facts, m);
      } else {
        forall w | Survives(facts, w) && w.key == key ensures w == m {
          if w != m {
            assert w in sets;
            Trichotomy(w.at, m.at);
          }
        }
      }
    } else {
      s := None;
    }
  }

  // ----- the guards read the summary -------------------------------------------------------

  ghost predicate Superseded(facts: set<Delivery>, key: Key, at: Position) {
    exists e :: e in facts && !Before(e.at, at)
                && ((e.Set? && e.key == key) || (e.Reset? && e.family == key.family))
  }

  /** A snapshot is skipped iff a snapshot of its entity or a reset of its family
      that is not earlier has already been delivered. */
  lemma {:induction false} GuardMeansSuperseded(t: Tables, key: Key, at: Position, facts: set<Delivery>, legacy: map<Key, Row>)
    requires Distinct(facts) && Summarises(t, facts, legacy)
    ensures EventApplied(t, key, at) <==> Superseded(facts, key, at)
  {
    var r := FindLatestReset(facts, key.family);
    var s := LatestSet(facts, key);
    var mark := Key(key.family, "");
    assert PositionAt(t, mark) == ExpectedPosition(facts, mark);
    assert PositionAt(t, key) == ExpectedPosition(facts, key);
    if Superseded(facts, key, at) {
      var e :| e in facts && !Before(e.at, at) && ((e.Set? && e.key == key) || (e.Reset? && e.family == key.family));
      if e.Reset? {
        NotBefore(e.at, r.value.at, at);
      } else {
        NotBefore(e.at, s.value.at, at);
        if !Survives(facts, s.value) {
          var k :| k in facts && k.Reset? && k.family == key.family && !Before(k.at, s.value.at);
          NotBefore(s.value.at, k.at, at);
          NotBefore(k.at, r.value.at, at);
        }
      }
    }
  }

  lemma {:induction false} NotBefore(p: Position, q: Position, at: Position)
    requires !Before(p, at) && (p == q || !Before(q, p))
    ensures !Before(q, at)
  {
  }

  /** A reset is skipped iff a reset of its family that is not earlier was delivered. */
  lemma {:induction false} ResetGuardMeansSuperseded(t: Tables, family: Family, at: Position, facts: set<Delivery>, legacy: map<Key, Row>)
    requires Distinct(facts) && Summarises(t, facts, legacy)
    ensures EventApplied(t, Key(family, ""), at) <==>
              exists e :: e in facts && e.Reset? && e.family == family && !Before(e.at, at)
  {
    var r := FindLatestReset(facts, family);
    var mark := Key(family, "");
    assert PositionAt(t, mark) == ExpectedPosition(facts, mark);
    if e :| e in facts && e.Reset? && e.family == family && !Before(e.at, at) {
      NotBefore(e.at, r.value.at, at);
    }
  }

  // ----- one delivery keeps the summary ------------------------------------------------------

  lemma {:induction false} SameSurvivor(facts: set<Delivery>, facts': set<Delivery>, k: Key)
    requires forall s :: Survives(facts, s) && s.key == k ==> Survives(facts', s)
    requires forall s :: Survives(facts', s) && s.key == k ==> Survives(facts, s)
    ensures Survivor(facts', k) == Survivor(facts, k)
  {
    if s :| Survives(facts, s) && s.key == k {
      SurvivorIs(facts, s);
      SurvivorIs(facts', s);
    }
  }

  /** A fact of another entity or family leaves an expectation alone. */
  lemma {:induction false} Unrelated(facts: set<Delivery>, d: Delivery, k: Key)
    requires (d.Set? && d.key != k) || FamilyOf(d) != k.family
    ensures Survivor(facts + {d}, k) == Survivor(facts, k)
    ensures Untouched(facts + {d}, k) <==> Untouched(facts, k)
  {
    forall s: Delivery | s.Set? && s.key == k ensures Survives(facts + {d}, s) <==> Survives(facts, s) {
      assert s != d;
      if Survives(facts + {d}, s) { assert forall e :: e in facts ==> e in facts + {d}; }
    }
    SameSurvivor(facts, facts + {d}, k);
    if Untouched(facts + {d}, k) { assert forall e :: e in facts ==> e in facts + {d}; }
  }

  lemma {:induction false} SameWatermark(facts: set<Delivery>, d: Delivery, family: Family)
    requires Distinct(facts) && Distinct(facts + {d})
    requires d.Reset? && d.family == family ==>
               exists e :: e in facts && e.Reset? && e.family == family && !Before(e.at, d.at)
    ensures Watermark(facts + {d}, family) == Watermark(facts, family)
  {
    var r := FindLatestReset(facts, family);
    var r' := FindLatestReset(facts + {d}, family);
    if d in facts {
      assert facts + {d} == facts;
    } else if r.Some? && r'.Some? {
      Trichotomy(r.value.at, r'.value.at);
    }
  }

  lemma {:induction false} SetKeepsSummary(t: Tables, d: Delivery, facts: set<Delivery>, legacy: map<Key, Row>)
    requires d.Set? && Distinct(facts) && Distinct(facts + {d}) && Summarises(t, facts, legacy)
    ensures Summarises(Deliver(t, d), facts + {d}, legacy)
  {
    var facts', t' := facts + {d}, Deliver(t, d);
    assert d in facts';
    GuardMeansSuperseded(t, d.key, d.at, facts, legacy);
    forall k
      ensures PositionAt(t', k) == ExpectedPosition(facts', k)
      ensures RowAt(t', k) == ExpectedRow(facts', legacy, k)
    {
      assert PositionAt(t, k) == ExpectedPosition(facts, k) && RowAt(t, k) == ExpectedRow(facts, legacy, k);
      if k.entity == "" {
        SameWatermark(facts, d, k.family);
      } else if k != d.key {
        Unrelated(facts, d, k);
      } else if Superseded(facts, d.key, d.at) {
        SupersededSet(facts, d);
      } else {
        FreshSetSurvives(facts, d);
      }
    }
  }

  lemma {:induction false} SupersededSet(facts: set<Delivery>, d: Delivery)
    requires d.Set? && Distinct(facts + {d}) && Superseded(facts, d.key, d.at)
    ensures Survivor(facts + {d}, d.key) == Survivor(facts, d.key)
    ensures !Untouched(facts + {d}, d.key) && !Untouched(facts, d.key)
  {
    var facts' := facts + {d};
    assert d in facts' && forall e :: e in facts ==> e in facts';
    if d in facts {
      assert facts' == facts;
    } else {
      var e :| e in facts && !Before(e.at, d.at) && ((e.Set? && e.key == d.key) || (e.Reset? && e.family == d.key.family));
      Trichotomy(e.at, d.at);
      forall s | Survives(facts, s) && s.key == d.key ensures Survives(facts', s) {
        if s != e { Transitive(d.at, e.at, s.at); }
      }
      SameSurvivor(facts, facts', d.key);
    }
  }

  lemma {:induction false} FreshSetSurvives(facts: set<Delivery>, d: Delivery)
    requires d.Set? && Distinct(facts) && Distinct(facts + {d}) && !Superseded(facts, d.key, d.at)
    ensures Survivor(facts + {d}, d.key) == Some(d)
  {
    assert Survives(facts + {d}, d);
    SurvivorIs(facts + {d}, d);
  }

  lemma {:induction false} ResetKeepsSummary(t: Tables, d: Delivery, facts: set<Delivery>, legacy: map<Key, Row>)
    requires d.Reset? && Distinct(facts) && Distinct(facts + {d}) && Summarises(t, facts, legacy)
    ensures Summarises(Deliver(t, d), facts + {d}, legacy)
  {
    var facts', t' := facts + {d}, Deliver(t, d);
    assert d in facts';
    ResetGuardMeansSuperseded(t, d.family, d.at, facts, legacy);
    forall k
      ensures PositionAt(t', k) == ExpectedPosition(facts', k)
      ensures RowAt(t', k) == ExpectedRow(facts', legacy, k)
    {
      assert PositionAt(t, k) == ExpectedPosition(facts, k) && RowAt(t, k) == ExpectedRow(facts, legacy, k);
      if k.family != d.family {
        if k.entity == "" { SameWatermark(facts, d, k.family); } else { Unrelated(facts, d, k); }
      } else if EventApplied(t, Key(d.family, ""), d.at) {
        var e :| e in facts && e.Reset? && e.family == d.family && !Before(e.at, d.at);
        SupersededReset(facts, d, e, k);
        SameWatermark(facts, d, d.family);
      } else if k.entity == "" {
        FreshWatermark(facts, d);
      } else {
        ResetCutsSurvivors(facts, d, k);
      }
    }
  }

  lemma {:induction false} SupersededReset(facts: set<Delivery>, d: Delivery, e: Delivery, k: Key)
    requires d.Reset? && Distinct(facts + {d}) && k.family == d.family
    requires e in facts && e.Reset? && e.family == d.family && !Before(e.at, d.at)
    ensures Survivor(facts + {d}, k) == Survivor(facts, k)
    ensures !Untouched(facts + {d}, k) && !Untouched(facts, k)
  {
    var facts' := facts + {d};
    assert d in facts' && e in facts';
    if d in facts {
      assert facts' == facts;
    } else {
      Trichotomy(e.at, d.at);
      forall s | Survives(facts, s) && s.key == k ensures Survives(facts', s) {
        Transitive(d.at, e.at, s.at);
      }
      forall s | Survives(facts', s) && s.key == k ensures Survives(facts, s) {
        assert forall x :: x in facts ==> x in facts';
      }
      SameSurvivor(facts, facts', k);
    }
  }

  lemma {:induction false} FreshWatermark(facts: set<Delivery>, d: Delivery)
    requires d.Reset? && Distinct(facts) && Distinct(facts + {d})
    requires !exists e :: e in facts && e.Reset? && e.family == d.family && !Before(e.at, d.at)
    ensures Watermark(facts + {d}, d.family) == Some(d.at)
  {
    var r := FindLatestReset(facts + {d}, d.family);
    assert d in facts + {d};
    if r.value != d { Trichotomy(r.value.at, d.at); }
  }

  /** After a fresh reset the survivor of an entity is the old one if it is later. */
  lemma {:induction false} ResetCutsSurvivors(facts: set<Delivery>, d: Delivery, k: Key)
    requires d.Reset? && Distinct(facts) && Distinct(facts + {d}) && k.family == d.family
    requires !exists e :: e in facts && e.Reset? && e.family == d.family && !Before(e.at, d.at)
    ensures Survivor(facts + {d}, k) ==
              if Survivor(facts, k).Some? && Before(d.at, Survivor(facts, k).value.at) then Survivor(facts, k) else None
    ensures !Untouched(facts + {d}, k)
  {
    var facts' := facts + {d};
    assert d in facts' && forall e :: e in facts ==> e in facts';
    if s :| Survives(facts, s) && s.key == k {
      SurvivorIs(facts, s);
      if Before(d.at, s.at) {
        assert Survives(facts', s);
        SurvivorIs(facts', s);
      } else {
        assert forall s' :: Survives(facts', s') && s'.key == k ==> s' == s;
      }
    }
  }

  // ----- every delivery sequence ------------------------------------------------------------

  function Facts(ds: seq<Delivery>): set<Delivery> {
    set d | d in ds && Acceptable(d)
  }

  /** Whatever the order and the repeats, the tables summarise what was delivered. */
  lemma {:induction false} DeliveriesSummarise(legacy: map<Key, Row>, ds: seq<Delivery>)
    requires Distinct(Facts(ds))
    requires forall k :: k in legacy ==> k.entity != ""
    ensures Summarises(DeliverAll(Tables(legacy, map[]), ds), Facts(ds), legacy)
  {
    if ds == [] {
      assert Facts(ds) == {};
    } else {
      var init, d := ds[..|ds| - 1], ds[|ds| - 1];
      assert ds == init + [d];
      if Acceptable(d) {
        assert Facts(ds) == Facts(init) + {d};
        DeliveriesSummarise(legacy, init);
        if d.Set? {
          SetKeepsSummary(DeliverAll(Tables(legacy, map[]), init), d, Facts(init), legacy);
        } else {
          ResetKeepsSummary(DeliverAll(Tables(legacy, map[]), init), d, Facts(init), legacy);
        }
      } else {
        assert Facts(ds) == Facts(init);
        DeliveriesSummarise(legacy, init);
      }
    }
  }

  /** Two delivery orders, with any repeats, of the same events leave the same
      rows and the same watermarks. */
  lemma {:induction false} DeliveryOrderIrrelevant(legacy: map<Key, Row>, ds: seq<Delivery>, es: seq<Delivery>)
    requires Distinct(Facts(ds)) && Facts(ds) == Facts(es)
    requires forall k :: k in legacy ==> k.entity != ""
    ensures DeliverAll(Tables(legacy, map[]), ds) == DeliverAll(Tables(legacy, map[]), es)
  {
    DeliveriesSummarise(legacy, ds);
    DeliveriesSummarise(legacy, es);
    SummaryIsUnique(DeliverAll(Tables(legacy, map[]), ds), DeliverAll(Tables(legacy, map[]), es), Facts(ds), legacy);
  }

  /** On tables that started empty an entity is stored iff one of its snapshots
      is later than all its other snapshots and all resets of its family, and the
      stored row is that snapshot's. */
  lemma {:induction false} SurvivesExactly(ds: seq<Delivery>, k: Key, row: Row)
    requires Distinct(Facts(ds)) && k.entity != ""
    ensures RowAt(DeliverAll(Tables(map[], map[]), ds), k) == Some(row) <==>
              exists s :: Survives(Facts(ds), s) && s.key == k && s.row == row
  {
    DeliveriesSummarise(map[], ds);
    assert RowAt(DeliverAll(Tables(map[], map[]), ds), k) == ExpectedRow(Facts(ds), map[], k);
    if s :| Survives(Facts(ds), s) && s.key == k && s.row == row {
      SurvivorIs(Facts(ds), s);
    }
  }

  // ----- a first pass --------------------------------------------------------------------------

  /** The handler's guard skips the delivery. */
  predicate Suppressed(t: Tables, d: Delivery) {
    match d
    case Set(key, _, at) => EventApplied(t, key, at)
    case Reset(family, at) => EventApplied(t, Key(family, ""), at)
  }

  /** Every stored position was there before or has been delivered. */
  lemma {:induction false} PositionsAreDelivered(t: Tables, ds: seq<Delivery>, k: Key)
    ensures var s := DeliverAll(t, ds);
            k in s.positions ==> (k in t.positions && s.positions[k] == t.positions[k]) || exists d :: d in ds && d.at == s.positions[k]
  {
    if ds != [] {
      var init, last := ds[..|ds| - 1], ds[|ds| - 1];
      PositionsAreDelivered(t, init, k);
      assert last in ds && forall d :: d in init ==> d in ds;
    }
  }

  /** Along rising positions above everything stored, as a first pass meets them, no set and
      no reset is suppressed. */
  lemma {:induction false} FirstPassAppliesAll(t: Tables, ds: seq<Delivery>, i: nat)
    requires i < |ds| && Ascending(seq(|ds|, k requires 0 <= k < |ds| => ds[k].at))
    requires forall k :: k in t.positions ==> Before(t.positions[k], ds[i].at)
    ensures !Suppressed(DeliverAll(t, ds[..i]), ds[i])
    ensures var u := DeliverAll(t, ds[..i + 1]); Lawful(ds[i]) ==> InEffect(u.rows, u.positions, ds[i])
  {
    var s := DeliverAll(t, ds[..i]);
    var ps := seq(|ds|, k requires 0 <= k < |ds| => ds[k].at);
    forall k | k in s.positions ensures Before(s.positions[k], ds[i].at) {
      PositionsAreDelivered(t, ds[..i], k);
      if !(k in t.positions && s.positions[k] == t.positions[k]) {
        var d :| d in ds[..i] && d.at == s.positions[k];
        var j :| 0 <= j < i && ds[j] == d;
        assert Before(ps[j], ps[i]);
      }
    }
    assert ds[..i + 1][..i] == ds[..i];
    DeliverMeans(s, ds[i]);
  }
}
