/** The native staking evidence cache (staking/store.go, staking/invalidate.go): blocks
    raise requirements while a worker publishes claims it read at older heights. */
module NativeEvidence {
  import opened Positions
  import opened StakingChanges

  // ----- values ------------------------------------------------------------------------------

  /** Stake of one address with one validator. */
  datatype Stake = Stake(bonded: nat, unbonding: nat, entries: nat)

  /** What the chain holds for one address: totals, its split over validators, and every
      validator it is exposed to, sources of running redelegations included. */
  datatype Claim = Claim(bonded: nat, unbonding: nat, positions: map<string, Stake>, validators: set<string>)

  /** A complete query of one address at one height. */
  datatype Evidence = Evidence(address: string, height: nat, claim: Claim)

  datatype Row = Row(required: nat, source: Option<nat>, bonded: nat, unbonding: nat,
                     receiptsPending: bool, positionsComplete: bool, delayed: bool)

  datatype Exposure = Exposure(validator: string, address: string)

  /** `current` is whether the cursor's status says that it is at the tip of the chain. */
  datatype State = State(
    cursor: nat, current: bool, rows: map<string, Row>, exposure: set<Exposure>,
    positions: map<string, map<string, Stake>>, watermarks: map<string, nat>)

  function Initial(height: nat): State {
    State(height, false, map[], {}, map[], map[])
  }

  /** db/cursor.go: a cursor at most one block behind the tip is current. */
  predicate AtTip(height: int, tip: int) {
    tip - height <= 1
  }

  /** The watermark that stands for every validator. */
  const EVERY := ""

  // ----- addresses -----------------------------------------------------------------------------

  predicate ValidAddress(address: string, prefix: string) {
    && prefix <= address && |prefix| < |address| <= 128
    && forall i :: |prefix| <= i < |address| ==> address[i] in "qpzry9x8gf2tvdw0s3jn54khce6mua7l"
  }

  const ACCOUNT := "structs1"
  const OPERATOR := "structsvaloper1"

  function Elements(values: seq<string>): set<string> {
    set v | v in values
  }

  predicate Valid(changes: Changes) {
    && (forall a :: a in changes.addresses ==> ValidAddress(a, ACCOUNT))
    && (forall v :: v in changes.validators ==> ValidAddress(v, OPERATOR))
  }

  method UniqueAddresses(values: seq<string>, prefix: string) returns (ok: bool, ids: set<string>)
    ensures ok <==> forall v :: v in values ==> ValidAddress(v, prefix)
    ensures ok ==> ids == Elements(values)
  {
    ids := {};
    for i := 0 to |values|
      invariant ids == Elements(values[..i])
      invariant forall v :: v in values[..i] ==> ValidAddress(v, prefix)
    {
      assert values[..i + 1] == values[..i] + [values[i]];
      if !ValidAddress(values[i], prefix) {
        assert values[i] in values;
        return false, ids;
      }
      ids := ids + {values[i]};
    }
    assert values[..|values|] == values;
    ok := true;
  }

  // ----- what a row and a change mean -------------------------------------------------------------

  /** The changes name the address, or a validator it is exposed to, or all exposed addresses. */
  predicate Concerns(exposure: set<Exposure>, changes: Changes, a: string) {
    a in changes.addresses
    || exists e :: e in exposure && e.address == a && (changes.allExposed || e.validator in changes.validators)
  }

  /** A row without any evidence yet. */
  predicate Blank(r: Row, height: nat) {
    r.source == None && r.required == height && !r.delayed && !r.positionsComplete
  }

  /** The stored evidence is the same; only what is required of it may differ. */
  predicate SameEvidence(r: Row, s: Row) {
    r.source == s.source && r.bonded == s.bonded && r.unbonding == s.unbonding && r.positionsComplete == s.positionsComplete
  }

  /** Evidence is missing or older than required, or its receipts or positions are. */
  predicate Wanting(r: Row) {
    r.source == None || r.source.value < r.required || r.receiptsPending || !r.positionsComplete
  }

  /** Exactly the concerned rows are raised to the height, unless they are there already; a
      raised row keeps its evidence and loses its delay. */
  ghost predicate RowsRise(before: map<string, Row>, after: map<string, Row>, exposure: set<Exposure>, changes: Changes, height: nat) {
    && (forall a :: a in after <==> a in before || Concerns(exposure, changes, a))
    && (forall a :: a in before ==>
          if Concerns(exposure, changes, a) && before[a].required < height
          then after[a] == before[a].(required := height, delayed := false) else after[a] == before[a])
    && (forall a :: a in after && a !in before ==> Blank(after[a], height) && !after[a].receiptsPending)
  }

  /** So are exactly the watermarks of the named validators, or the one for all of them. */
  ghost predicate MarksRise(before: map<string, nat>, after: map<string, nat>, changes: Changes, height: nat) {
    && (forall v :: v in after <==> v in before || v in changes.validators || (v == "" && changes.allExposed))
    && (forall v :: v in after ==>
          if (v in changes.validators || (v == "" && changes.allExposed)) && !(v in before && before[v] >= height)
          then after[v] == height else v in before && after[v] == before[v])
  }

  /** Every candidate has a row; rows that were there are as they were, new ones are blank. */
  ghost predicate CandidatesAdded(before: map<string, Row>, after: map<string, Row>, candidates: set<string>, height: nat) {
    && (forall a :: a in after <==> a in before || a in candidates)
    && (forall a :: a in before ==> after[a] == before[a])
    && (forall a :: a in after && a !in before ==> Blank(after[a], height) && !after[a].receiptsPending)
  }

  /** Every delegator's row ends with its receipts to be reconciled at the height or above. */
  ghost predicate ReceiptsArrive(before: map<string, Row>, after: map<string, Row>, delegators: set<string>, height: nat) {
    && (forall a :: a in after <==> a in before || a in delegators)
    && (forall a :: a in delegators ==> after[a].receiptsPending && !after[a].delayed)
    && (forall a :: a in delegators && a !in before ==> Blank(after[a], height))
    && (forall a :: a in delegators && a in before ==>
          && SameEvidence(after[a], before[a])
          && after[a].required == if before[a].required < height then height else before[a].required)
    && (forall a :: a in before && a !in delegators ==> after[a] == before[a])
  }

  // ----- what each operation does to the tables ---------------------------------------------------

  function Exposed(s: State, changes: Changes): set<string> {
    set e | e in s.exposure && (changes.allExposed || e.validator in changes.validators) :: e.address
  }

  function Affected(s: State, changes: Changes): set<string> {
    Elements(changes.addresses) + Exposed(s, changes)
  }

  function Marks(changes: Changes): set<string> {
    Elements(changes.validators) + if changes.allExposed then {EVERY} else {}
  }

  function NewRow(height: nat): Row {
    Row(height, None, 0, 0, false, false, false)
  }

  /** Requirements only rise, and a raised one cancels a delay. */
  function Raised(rows: map<string, Row>, a: string, height: nat): Row {
    if a !in rows then NewRow(height)
    else if rows[a].required < height then rows[a].(required := height, delayed := false)
    else rows[a]
  }

  function Watermark(watermarks: map<string, nat>, v: string): nat {
    if v in watermarks then watermarks[v] else 0
  }

  function RaisedRows(rows: map<string, Row>, affected: set<string>, height: nat): map<string, Row> {
    map a | a in rows.Keys + affected :: if a in affected then Raised(rows, a, height) else rows[a]
  }

  function RaisedMarks(watermarks: map<string, nat>, marks: set<string>, height: nat): map<string, nat> {
    map v | v in watermarks.Keys + marks ::
      if v in marks && Watermark(watermarks, v) < height then height else Watermark(watermarks, v)
  }

  function Requested(s: State, height: nat, changes: Changes): State {
    s.(rows := RaisedRows(s.rows, Affected(s, changes), height), watermarks := RaisedMarks(s.watermarks, Marks(changes), height))
  }

  function Ensured(s: State, height: nat, addresses: set<string>): State {
    s.(rows := map a | a in s.rows.Keys + addresses :: if a in s.rows then s.rows[a] else NewRow(height))
  }

  /** Newly stored maturing entries ask their delegator's evidence to be reconciled. */
  function WithReceipt(s: State, a: string, height: nat): Row {
    if a !in s.rows then NewRow(height).(receiptsPending := true)
    else s.rows[a].(receiptsPending := true, delayed := false,
                    required := if s.rows[a].required < height then height else s.rows[a].required)
  }

  function Received(s: State, height: nat, delegators: set<string>): State {
    s.(rows := map a | a in s.rows.Keys + delegators :: if a in delegators then WithReceipt(s, a, height) else s.rows[a])
  }

  /** The guard of the publishing update. */
  predicate Accepts(s: State, e: Evidence) {
    && e.address in s.rows && s.rows[e.address].required <= e.height
    && (var r := s.rows[e.address];
        || r.source.None? || r.source.value < e.height
        || (r.source.value == e.height && (r.receiptsPending || !r.positionsComplete)))
    && 0 < e.height <= s.cursor
    && (forall v :: v in s.watermarks && (v == EVERY || v in e.claim.validators) ==> s.watermarks[v] <= e.height)
  }

  function Published(s: State, e: Evidence): State {
    if !Accepts(s, e) then s
    else
      var row := s.rows[e.address].(source := Some(e.height), bonded := e.claim.bonded, unbonding := e.claim.unbonding,
                                    receiptsPending := false, positionsComplete := true, delayed := false);
      s.(rows := s.rows[e.address := row],
         exposure := (set x | x in s.exposure && x.address != e.address)
                     + (set v | v in e.claim.validators :: Exposure(v, e.address)),
         positions := s.positions[e.address := e.claim.positions])
  }

  /** Evidence is usable when it is at least as new as the last invalidation. */
  predicate Complete(r: Row) {
    r.source.Some? && r.source.value >= r.required
  }

  /** What the worker still has to query. */
  predicate Unsettled(r: Row) {
    !Complete(r) || r.receiptsPending || !r.positionsComplete
  }

  function Delayed(s: State, a: string, height: nat): State {
    if a in s.rows && Unsettled(s.rows[a]) && s.rows[a].required <= height
    then s.(rows := s.rows[a := s.rows[a].(delayed := true)])
    else s
  }

  /** Nothing is queried while the cursor is behind the tip or stalled. */
  function Selectable(s: State): set<string> {
    set a | a in s.rows && Unsettled(s.rows[a]) && !s.rows[a].delayed && s.rows[a].required <= s.cursor && s.cursor > 0 && s.current
  }

  // ----- the tables, updated in place ---------------------------------------------------------------

  class Store {
    var cursor: nat
    var current: bool
    var rows: map<string, Row>
    var exposure: set<Exposure>
    var positions: map<string, map<string, Stake>>
    var watermarks: map<string, nat>

    constructor (height: nat)
      ensures View() == Initial(height)
    {
      cursor, current, rows, exposure, positions, watermarks := height, false, map[], {}, map[], map[];
    }

    function View(): State
      reads this
    {
      State(cursor, current, rows, exposure, positions, watermarks)
    }

    /** Returns the addresses whose requirement rose. */
    method Request(height: nat, changes: Changes) returns (ok: bool, raised: set<string>)
      modifies `rows, `watermarks
      ensures ok <==> height > 0 && Valid(changes)
      ensures !ok ==> View() == old(View())
      ensures ok ==> View() == Requested(old(View()), height, changes)
      ensures ok ==> RowsRise(old(rows), rows, exposure, changes, height) && MarksRise(old(watermarks), watermarks, changes, height)
      ensures ok ==> raised == set a | a in rows && (a !in old(rows) || old(rows)[a].required != rows[a].required)
    {
      raised := {};
      if height == 0 { return false, {}; }
      var aok, addresses := UniqueAddresses(changes.addresses, ACCOUNT);
      if !aok { return false, {}; }
      var vok, validators := UniqueAddresses(changes.validators, OPERATOR);
      if !vok { return false, {}; }
      ok := true;
      if addresses == {} && validators == {} && !changes.allExposed {
        NothingRequested(View(), height, changes);
        RequestedMeans(View(), height, changes);
        return;
      }
      var affected := addresses + set e | e in exposure && (changes.allExposed || e.validator in validators) :: e.address;
      ReadAsSets(View(), changes, addresses, validators, affected);
      RequestedMeans(View(), height, changes);
      RaiseWatermarks(height, validators + if changes.allExposed then {EVERY} else {});
      raised := RaiseRows(height, affected);
    }

    method RaiseWatermarks(height: nat, marks: set<string>)
      modifies `watermarks
      ensures watermarks == RaisedMarks(old(watermarks), marks, height)
    {
      watermarks := map v | v in watermarks.Keys + marks ::
        if v in watermarks && (v !in marks || watermarks[v] >= height) then watermarks[v] else height;
    }

    method RaiseRows(height: nat, affected: set<string>) returns (raised: set<string>)
      modifies `rows
      ensures rows == RaisedRows(old(rows), affected, height)
      ensures raised == set a | a in rows && (a !in old(rows) || old(rows)[a].required != rows[a].required)
    {
      var before := rows;
      raised := set a | a in affected && (a !in rows || rows[a].required < height);
      rows := map a | a in rows.Keys + affected :: if a in affected then Raised(before, a, height) else before[a];
    }

    method EnsureCandidates(height: nat, addresses: seq<string>) returns (ok: bool)
      modifies `rows
      ensures ok <==> height > 0 && forall a :: a in addresses ==> ValidAddress(a, ACCOUNT)
      ensures View() == if ok then Ensured(old(View()), height, Elements(addresses)) else old(View())
      ensures if ok then CandidatesAdded(old(rows), rows, (set a | a in addresses), height) else rows == old(rows)
    {
      if height == 0 { return false; }
      var valid, ids := UniqueAddresses(addresses, ACCOUNT);
      if !valid { return false; }
      rows := map a | a in rows.Keys + ids :: if a in rows then rows[a] else NewRow(height);
      ok := true;
    }

    method FlushReceipts(height: nat, delegators: set<string>)
      modifies `rows
      ensures View() == Received(old(View()), height, delegators)
      ensures ReceiptsArrive(old(rows), rows, delegators, height)
    {
      var s := View();
      ReceivedMeans(s, height, delegators);
      rows := map a | a in rows.Keys + delegators :: if a in delegators then WithReceipt(s, a, height) else rows[a];
    }

    /** Totals, exposure and positions change together or not at all. */
    method Publish(e: Evidence) returns (accepted: bool)
      modifies this
      ensures accepted <==> Accepts(old(View()), e)
      ensures View() == Published(old(View()), e)
      ensures !accepted ==> View() == old(View())
      ensures accepted ==> rows.Keys == old(rows).Keys && e.address in rows
                           && rows[e.address] == Row(old(rows)[e.address].required, Some(e.height), e.claim.bonded, e.claim.unbonding, false, true, false)
      ensures forall a :: a in old(rows) && a != e.address ==> rows[a] == old(rows)[a]
      ensures accepted ==> forall v, a :: Exposure(v, a) in exposure <==>
                             if a == e.address then v in e.claim.validators else Exposure(v, a) in old(exposure)
      ensures accepted ==> positions == old(positions)[e.address := e.claim.positions]
      ensures cursor == old(cursor) && watermarks == old(watermarks)
    {
      accepted := Accepts(View(), e);
      if !accepted { return; }
      rows := rows[e.address := rows[e.address].(source := Some(e.height), bonded := e.claim.bonded, unbonding := e.claim.unbonding,
                                                 receiptsPending := false, positionsComplete := true, delayed := false)];
      exposure := set x | x in exposure && x.address != e.address;
      exposure := exposure + set v | v in e.claim.validators :: Exposure(v, e.address);
      positions := positions[e.address := e.claim.positions];
    }

    method RetryLater(address: string, height: nat)
      modifies `rows
      ensures View() == Delayed(old(View()), address, height)
      ensures rows.Keys == old(rows).Keys
      ensures forall a :: a in rows ==>
                if a == address && old(rows)[a].required <= height && Wanting(old(rows)[a])
                then rows[a] == old(rows)[a].(delayed := true) else rows[a] == old(rows)[a]
    {
      if address in rows && Unsettled(rows[address]) && rows[address].required <= height {
        rows := rows[address := rows[address].(delayed := true)];
      }
    }

    /** At most `limit` selectable addresses, each to be queried at the cursor height; a
        limit outside 1 to 1000 is an error. */
    method Pending(limit: int) returns (ok: bool, items: map<string, nat>)
      ensures ok <==> 1 <= limit <= 1000
      ensures ok ==> items.Keys <= Selectable(View()) && |items| <= limit
      ensures ok && |items| < limit ==> items.Keys == Selectable(View())
      ensures ok ==> forall a :: a in items ==> items[a] == cursor
      ensures ok && items != map[] ==> cursor > 0 && current
      ensures ok ==> forall a :: a in items ==> a in rows && Wanting(rows[a]) && !rows[a].delayed && rows[a].required <= cursor
      ensures ok && |items| < limit && current && cursor > 0 ==>
                forall a :: a in rows && Wanting(rows[a]) && !rows[a].delayed && rows[a].required <= cursor ==> a in items
    {
      items := map[];
      ok := 1 <= limit <= 1000;
      if !ok { return; }
      var addresses := Select(Selectable(View()), limit);
      items := map a | a in addresses :: cursor;
      assert items.Keys == addresses;
    }
  }

  lemma {:induction false} RequestedMeans(s: State, height: nat, changes: Changes)
    ensures var t := Requested(s, height, changes);
            RowsRise(s.rows, t.rows, s.exposure, changes, height) && MarksRise(s.watermarks, t.watermarks, changes, height)
  {
    forall a ensures a in Affected(s, changes) <==> Concerns(s.exposure, changes, a) {
      if e :| e in s.exposure && e.address == a && (changes.allExposed || e.validator in changes.validators) {
        assert a in Exposed(s, changes);
      }
    }
  }

  lemma {:induction false} ReceivedMeans(s: State, height: nat, delegators: set<string>)
    ensures ReceiptsArrive(s.rows, Received(s, height, delegators).rows, delegators, height)
  {
  }

  method Select(all: set<string>, limit: nat) returns (some: set<string>)
    ensures some <= all && |some| <= limit
    ensures |some| < limit ==> some == all
  {
    some := {};
    while some != all && |some| < limit
      invariant some <= all && |some| <= limit
      decreases |all - some|
    {
      var a :| a in all - some;
      assert all - (some + {a}) == all - some - {a};
      some := some + {a};
    }
  }

  lemma {:induction false} ReadAsSets(s: State, changes: Changes, addresses: set<string>, validators: set<string>, affected: set<string>)
    requires addresses == Elements(changes.addresses) && validators == Elements(changes.validators)
    requires affected == addresses + set e | e in s.exposure && (changes.allExposed || e.validator in validators) :: e.address
    ensures affected == Affected(s, changes)
    ensures validators + (if changes.allExposed then {EVERY} else {}) == Marks(changes)
  {
    assert forall v :: v in changes.validators <==> v in validators;
  }

  lemma {:induction false} NothingRequested(s: State, height: nat, changes: Changes)
    requires Elements(changes.addresses) == {} && Elements(changes.validators) == {} && !changes.allExposed
    ensures Requested(s, height, changes) == s
  {
    assert forall v :: v in changes.validators ==> v in Elements(changes.validators);
    assert Exposed(s, changes) == {};
    assert Requested(s, height, changes).rows == s.rows && Requested(s, height, changes).watermarks == s.watermarks;
  }
}
