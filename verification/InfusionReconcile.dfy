/** Adoption of infusion positions that predate execution phases, from one
    complete block (events/infusion_reconcile.go). */
module InfusionReconcile {
  import opened EventOrder
  import opened Infusion
  import opened LedgerRows
  import opened Positions

  /** An infusion event or deletion of the block after decoding. */
  datatype Decoded = Unrelated | Undecodable | Mutates(mutation: Mutation)

  datatype BlockEvent = BlockEvent(at: Position, msg: int, decoded: Decoded)

  /** The block in execution order. */
  predicate InOrder(height: int, events: seq<BlockEvent>) {
    && (forall i :: 0 <= i < |events| ==> events[i].at.height == height)
    && (forall i, j :: 0 <= i < j < |events| ==> Before(events[i].at, events[j].at))
  }

  predicate Readable(e: BlockEvent) {
    e.decoded != Undecodable && (e.decoded.Mutates? ==> Acceptable(e.decoded.mutation))
  }

  /** The map key under which the reconciler groups mutations. */
  function Name(k: Key): string {
    k.destination + "/" + k.address
  }

  predicate Names(e: BlockEvent, name: string) {
    e.decoded.Mutates? && Name(e.decoded.mutation.key) == name
  }

  /** The last event of the block that mutates the name. */
  function LastOf(events: seq<BlockEvent>, name: string): Option<BlockEvent> {
    if events == [] then None
    else if Names(events[|events| - 1], name) then Some(events[|events| - 1])
    else LastOf(events[..|events| - 1], name)
  }

  /** A stored position at this height without a phase. */
  predicate Legacy(t: Tables, height: int, k: Key) {
    k in t.positions && t.positions[k].height == height && t.positions[k].phase == None
  }

  /** The row already shows the snapshot, up to the two extension columns. */
  predicate Shows(t: Tables, m: Mutation) {
    match m
    case Delete(key) => key !in t.rows
    case Snapshot(key, row) =>
      && key in t.rows
      && t.rows[key].(ownerId := row.ownerId, generatorDisabled := row.generatorDisabled) == row
      && (t.rows[key].ownerId == "" || t.rows[key].ownerId == row.ownerId)
      && (t.rows[key].generatorDisabled ==> row.generatorDisabled)
  }

  /** The stored coordinates are those of the block's last mutation, and the row
      is what that mutation leaves. */
  predicate Proven(t: Tables, e: BlockEvent)
    requires e.decoded.Mutates?
  {
    var k := e.decoded.mutation.key;
    && k in t.positions
    && t.positions[k].tx == e.at.tx && t.positions[k].event == e.at.event
    && Shows(t, e.decoded.mutation)
  }

  function Adopt(t: Tables, e: BlockEvent): Tables
    requires e.decoded.Mutates?
  {
    var m := e.decoded.mutation;
    var t' := t.(positions := t.positions[m.key := StoredAt(e.at)]);
    if m.Snapshot? then t'.(rows := t.rows[m.key := m.row]) else t'
  }

  /** The block can be reconciled: all of it decodes, every name's last mutation
      explains its legacy position, and no legacy position of this height is left
      without such a mutation. */
  ghost predicate Reconcilable(t: Tables, height: int, events: seq<BlockEvent>) {
    && (forall i :: 0 <= i < |events| ==> Readable(events[i]))
    && (forall k :: Legacy(t, height, k) ==>
          var last := LastOf(events, Name(k));
          last.Some? && last.value.decoded.Mutates? && last.value.decoded.mutation.key == k && Proven(t, last.value))
  }

  /** What a successful reconciliation leaves: each legacy key adopts the position
      and the extension columns of its last mutation, every other key and the
      ledger stay. */
  ghost predicate ReconciledTo(t: Tables, t': Tables, height: int, events: seq<BlockEvent>) {
    && t'.ledger == t.ledger && t'.buffer == t.buffer
    && t'.positions.Keys == t.positions.Keys && t'.rows.Keys == t.rows.Keys
    && (forall k :: k in t.positions && !Legacy(t, height, k) ==> t'.positions[k] == t.positions[k])
    && (forall k :: k in t.rows && !Legacy(t, height, k) ==> t'.rows[k] == t.rows[k])
    && (forall k :: Legacy(t, height, k) ==>
          var last := LastOf(events, Name(k));
          && last.Some? && last.value.decoded.Mutates? && last.value.decoded.mutation.key == k
          && t'.positions[k] == StoredAt(last.value.at)
          && (k in t.rows ==> last.value.decoded.mutation.Snapshot? && t'.rows[k] == last.value.decoded.mutation.row))
  }

  lemma {:induction false} LastIsLast(height: int, events: seq<BlockEvent>, name: string)
    requires InOrder(height, events)
    ensures LastOf(events, name).None? <==> forall e :: e in events ==> !Names(e, name)
    ensures var last := LastOf(events, name);
            last.Some? ==> && last.value in events && Names(last.value, name)
                           && forall e :: e in events && Names(e, name) ==> AtOrBefore(e.at, last.value.at)
  {
    if events != [] {
      var init, e := events[..|events| - 1], events[|events| - 1];
      LastIsLast(height, init, name);
      assert events == init + [e];
      assert forall x :: x in events <==> x in init || x == e;
      forall x | x in init ensures Before(x.at, e.at) {
        var i :| 0 <= i < |init| && init[i] == x;
        assert Before(events[i].at, events[|events| - 1].at);
      }
    }
  }

  /** One pass over the block keeps the last mutation of every name. */
  method GroupByName(height: int, events: seq<BlockEvent>) returns (r: Option<map<string, BlockEvent>>)
    requires InOrder(height, events)
    ensures r.Some? <==> forall i :: 0 <= i < |events| ==> Readable(events[i])
    ensures r.Some? ==> Groups(r.value, events)
  {
    var last: map<string, BlockEvent> := map[];
    for i := 0 to |events|
      invariant forall j :: 0 <= j < i ==> Readable(events[j])
      invariant Groups(last, events[..i])
    {
      assert events[..i + 1][..i] == events[..i];
      var e := events[i];
      if !Readable(e) { return None; }
      if e.decoded.Mutates? { last := last[Name(e.decoded.mutation.key) := e]; }
    }
    assert events[..|events|] == events;
    r := Some(last);
  }

  ghost predicate Groups(last: map<string, BlockEvent>, events: seq<BlockEvent>) {
    && (forall name :: name in last <==> LastOf(events, name).Some?)
    && (forall name :: name in last ==> LastOf(events, name) == Some(last[name]) && Names(last[name], name))
  }

  /** Adopts name by name; a failure leaves the tables alone because the caller's
      transaction is rolled back. */
  method Reconcile(store: Store, height: int, events: seq<BlockEvent>) returns (ok: bool)
    requires InOrder(height, events)
    modifies store
    ensures ok <==> Reconcilable(old(store.View()), height, events)
    ensures ok ==> ReconciledTo(old(store.View()), store.View(), height, events)
    ensures !ok ==> store.View() == old(store.View())
    ensures ok ==> forall k :: Legacy(old(store.View()), height, k) ==>
                     KeyMarked(k, store.dirtyAddresses, store.dirtyReactors)
    ensures ok ==> OwnersMarked(old(store.View()), store.rows, height, store.dirtyOwners)
    ensures ok ==> old(store.dirtyOwners) <= store.dirtyOwners
  {
    var grouped := GroupByName(height, events);
    if grouped.None? { return false; }
    var last := grouped.value;
    var t := store.View();
    var now, marks, refused;
    ok, now, marks, refused := AdoptAll(t, Marks(store.dirtyAddresses, store.dirtyOwners, store.dirtyReactors), height, last);
    if !ok {
      NotProven(t, height, events, last, refused);
      return;
    }
    var unresolved := set k | k in now.positions && now.positions[k].height == height && now.positions[k].phase == None;
    if unresolved != {} {
      var k :| k in unresolved;
      return false;
    }
    AllPhased(now, height, unresolved);
    Resolved(t, now, height, events, last);
    AllMarked(t, now, height, last, marks);
    store.rows, store.positions := now.rows, now.positions;
    store.dirtyAddresses, store.dirtyOwners, store.dirtyReactors := marks.addresses, marks.owners, marks.reactors;
  }

  /** Adopts every name in turn, or stops at one whose legacy position is not proven. */
  method AdoptAll(t: Tables, start: Marks, height: int, last: map<string, BlockEvent>)
    returns (ok: bool, now: Tables, marks: Marks, refused: string)
    requires forall name :: name in last ==> Names(last[name], name)
    ensures ok ==> Adopted(t, now, height, last, {}) && MarkedDone(t, height, last, {}, marks)
    ensures ok ==> OwnersDone(t, now, height, last, {}, marks.owners) && start.owners <= marks.owners
    ensures !ok ==> refused in last && Names(last[refused], refused) && Legacy(t, height, last[refused].decoded.mutation.key) && !Proven(t, last[refused])
  {
    now, marks, refused := t, start, "";
    var todo := last.Keys;
    while todo != {}
      invariant todo <= last.Keys
      invariant Adopted(t, now, height, last, todo) && MarkedDone(t, height, last, todo, marks)
      invariant OwnersDone(t, now, height, last, todo, marks.owners) && start.owners <= marks.owners
    {
      var name :| name in todo;
      ok, now, marks := AdoptName(t, now, marks, height, last, todo, name);
      if !ok { return ok, now, marks, name; }
      todo := todo - {name};
    }
    ok := true;
  }

  lemma {:induction false} AllMarked(t: Tables, now: Tables, height: int, last: map<string, BlockEvent>, marks: Marks)
    requires forall k :: Legacy(t, height, k) ==> Done(k, last, {})
    requires MarkedDone(t, height, last, {}, marks) && OwnersDone(t, now, height, last, {}, marks.owners)
    ensures forall k :: Legacy(t, height, k) ==> KeyMarked(k, marks.addresses, marks.reactors)
    ensures OwnersMarked(t, now.rows, height, marks.owners)
  {
  }

  lemma {:induction false} NotProven(t: Tables, height: int, events: seq<BlockEvent>, last: map<string, BlockEvent>, name: string)
    requires Groups(last, events) && name in last
    requires Legacy(t, height, last[name].decoded.mutation.key) && !Proven(t, last[name])
    ensures !Reconcilable(t, height, events)
  {
    assert LastOf(events, Name(last[name].decoded.mutation.key)) == Some(last[name]);
  }

  lemma {:induction false} AllPhased(now: Tables, height: int, unresolved: set<Key>)
    requires unresolved == (set k | k in now.positions && now.positions[k].height == height && now.positions[k].phase == None)
    requires unresolved == {}
    ensures forall k :: k in now.positions ==> !(now.positions[k].height == height && now.positions[k].phase == None)
  {
    assert forall k :: k in now.positions && now.positions[k].height == height && now.positions[k].phase == None ==> k in unresolved;
  }

  datatype Marks = Marks(addresses: set<string>, owners: set<string>, reactors: set<Key>)

  /** Adopts one name, or fails because its legacy position is not proven. */
  method AdoptName(t: Tables, now: Tables, marks: Marks, height: int, last: map<string, BlockEvent>, todo: set<string>, name: string)
    returns (ok: bool, next: Tables, more: Marks)
    requires Adopted(t, now, height, last, todo) && MarkedDone(t, height, last, todo, marks)
    requires OwnersDone(t, now, height, last, todo, marks.owners)
    requires name in last && name in todo && Names(last[name], name)
    ensures !ok ==> Legacy(t, height, last[name].decoded.mutation.key) && !Proven(t, last[name])
    ensures ok ==> Adopted(t, next, height, last, todo - {name}) && MarkedDone(t, height, last, todo - {name}, more)
    ensures ok ==> OwnersDone(t, next, height, last, todo - {name}, more.owners) && marks.owners <= more.owners
  {
    var e := last[name];
    var m := e.decoded.mutation;
    NextName(t, now, height, last, todo, name);
    if !Legacy(now, height, m.key) { return true, now, marks; }
    if !Proven(now, e) { return false, now, marks; }
    var owners := if m.Snapshot? then {now.rows[m.key].playerId, AssetOwner(m.row)} else {};
    var reactors := if IsReactorKey(m.key) then {m.key} else {};
    more := Marks(marks.addresses + {m.key.address}, marks.owners + owners, marks.reactors + reactors);
    next := Adopt(now, e);
    ok := true;
  }

  predicate KeyMarked(k: Key, addresses: set<string>, reactors: set<Key>) {
    k.address in addresses && (IsReactorKey(k) ==> k in reactors)
  }

  /** The player of each adopted row and the owner of its assets are marked. */
  ghost predicate OwnersMarked(t: Tables, rows: map<Key, Row>, height: int, owners: set<string>) {
    forall k :: Legacy(t, height, k) && k in t.rows && k in rows ==> t.rows[k].playerId in owners && AssetOwner(rows[k]) in owners
  }

  /** The same, of the names outside `todo`. */
  ghost predicate OwnersDone(t: Tables, now: Tables, height: int, last: map<string, BlockEvent>, todo: set<string>, owners: set<string>) {
    forall k :: Legacy(t, height, k) && Done(k, last, todo) && k in t.rows && k in now.rows ==>
      t.rows[k].playerId in owners && AssetOwner(now.rows[k]) in owners
  }

  /** The adopted keys are marked. */
  ghost predicate MarkedDone(t: Tables, height: int, last: map<string, BlockEvent>, todo: set<string>, marks: Marks) {
    forall k :: Legacy(t, height, k) && Done(k, last, todo) ==> KeyMarked(k, marks.addresses, marks.reactors)
  }

  lemma {:induction false} NextName(t: Tables, now: Tables, height: int, last: map<string, BlockEvent>, todo: set<string>, name: string)
    requires Adopted(t, now, height, last, todo) && name in last && name in todo
    requires Names(last[name], name)
    ensures var e := last[name]; var k := e.decoded.mutation.key;
            && (Legacy(now, height, k) <==> Legacy(t, height, k))
            && (Proven(now, e) <==> Proven(t, e))
            && (Legacy(t, height, k) && Proven(t, e) ==> Adopted(t, Adopt(now, e), height, last, todo - {name}))
            && (!Legacy(t, height, k) ==> Adopted(t, now, height, last, todo - {name}))
            && (forall j :: Done(j, last, todo - {name}) <==> Done(j, last, todo) || j == k)
  {
    var e := last[name];
    var k := e.decoded.mutation.key;
    forall j ensures Done(j, last, todo - {name}) <==> Done(j, last, todo) || j == k {
    }
    assert now.positions.Keys == t.positions.Keys && now.rows.Keys == t.rows.Keys;
    assert k in t.positions ==> now.positions[k] == t.positions[k];
    assert k in t.rows ==> now.rows[k] == t.rows[k];
  }

  /** Progress of the second loop: names outside `todo` are done. */
  ghost predicate Adopted(t: Tables, now: Tables, height: int, last: map<string, BlockEvent>, todo: set<string>) {
    && now.ledger == t.ledger && now.buffer == t.buffer
    && now.positions.Keys == t.positions.Keys && now.rows.Keys == t.rows.Keys
    && (forall k :: k in t.positions && !(Legacy(t, height, k) && Done(k, last, todo)) ==> now.positions[k] == t.positions[k])
    && (forall k :: k in t.rows && !(Legacy(t, height, k) && Done(k, last, todo)) ==> now.rows[k] == t.rows[k])
    && (forall k :: Legacy(t, height, k) && Done(k, last, todo) ==>
          var e := last[Name(k)];
          && Proven(t, e)
          && now.positions[k] == StoredAt(e.at)
          && (k in t.rows ==> e.decoded.mutation.Snapshot? && now.rows[k] == e.decoded.mutation.row))
  }

  predicate Done(k: Key, last: map<string, BlockEvent>, todo: set<string>) {
    && Name(k) in last && Name(k) !in todo
    && last[Name(k)].decoded.Mutates? && last[Name(k)].decoded.mutation.key == k
  }

  lemma {:induction false} Resolved(t: Tables, now: Tables, height: int, events: seq<BlockEvent>, last: map<string, BlockEvent>)
    requires Adopted(t, now, height, last, {}) && Groups(last, events)
    requires forall k :: k in now.positions ==> !(now.positions[k].height == height && now.positions[k].phase == None)
    requires forall i :: 0 <= i < |events| ==> Readable(events[i])
    ensures Reconcilable(t, height, events)
    ensures ReconciledTo(t, now, height, events)
    ensures forall k :: Legacy(t, height, k) ==> Done(k, last, {})
  {
    forall k | Legacy(t, height, k) ensures Done(k, last, {}) {
      assert k in now.positions;
    }
  }

  // ----- the same block again ---------------------------------------------------------

  function Deliveries(chain: string, time: int, events: seq<BlockEvent>): seq<Delivery> {
    if events == [] then []
    else
      var rest, e := Deliveries(chain, time, events[..|events| - 1]), events[|events| - 1];
      if e.decoded.Mutates? then rest + [Delivery(chain, time, e.at, e.msg, e.decoded.mutation)] else rest
  }

  /** Since the reconciled tables t', every row and position that was legacy in t is as it was,
      no infused ledger row was posted for one, and no position of unknown phase is met. */
  ghost predicate Silent(t: Tables, t': Tables, s: Tables, height: int) {
    && |t'.buffer| <= |s.buffer|
    && (forall k :: !Legacy(s, height, k))
    && (forall k :: Legacy(t, height, k) ==>
          && k in s.positions && k in t'.positions && s.positions[k] == t'.positions[k]
          && (k in s.rows <==> k in t'.rows) && (k in s.rows ==> s.rows[k] == t'.rows[k])
          && Posted(s.buffer[|t'.buffer|..], k, Debit) == Posted(s.buffer[|t'.buffer|..], k, Credit) == 0
          && (forall r :: r in s.buffer[|t'.buffer|..] ==> !IsInfusedRow(r, k)))
  }

  /** Dispatching the whole reconciled block in execution order is silent. */
  lemma {:induction false} ReplayIsSilent(t: Tables, t': Tables, height: int, events: seq<BlockEvent>, n: nat,
                                          chain: string, time: int)
    requires InOrder(height, events) && ReconciledTo(t, t', height, events) && n <= |events|
    ensures Silent(t, t', DeliverAll(t', Deliveries(chain, time, events[..n])), height)
  {
    var ds := Deliveries(chain, time, events[..n]);
    if n == 0 {
      assert t'.buffer[|t'.buffer|..] == [];
      forall k ensures !Legacy(t', height, k) {
        assert Legacy(t, height, k) || !Legacy(t, height, k);
      }
    } else {
      ReplayIsSilent(t, t', height, events, n - 1, chain, time);
      var init, e := events[..n - 1], events[n - 1];
      assert events[..n][..n - 1] == init && events[..n][n - 1] == e;
      if e.decoded.Mutates? {
        var earlier := Deliveries(chain, time, init);
        var d := Delivery(chain, time, e.at, e.msg, e.decoded.mutation);
        assert ds == earlier + [d] && ds[..|ds| - 1] == earlier;
        StaysSilent(t, t', height, events, n - 1, d, DeliverAll(t', earlier));
      }
    }
  }

  /** An event at a reconciled position is stale; one for another key posts for its own key. */
  lemma {:induction false} StaysSilent(t: Tables, t': Tables, height: int, events: seq<BlockEvent>, i: nat,
                                       d: Delivery, before: Tables)
    requires InOrder(height, events) && ReconciledTo(t, t', height, events) && i < |events|
    requires events[i].decoded.Mutates? && d.at == events[i].at && d.mutation == events[i].decoded.mutation
    requires Silent(t, t', before, height)
    ensures Silent(t, t', Deliver(before, d), height)
  {
    if Legacy(t, height, d.mutation.key) {
      StaleAgain(t, t', height, events, i, d, before);
    } else {
      OtherKeysUntouched(before, d, |t'.buffer|, t, height);
      NoLegacyAppears(before, d, height);
    }
  }

  /** A reconciled key has the position of its last event in the block, which no event exceeds. */
  lemma {:induction false} StaleAgain(t: Tables, t': Tables, height: int, events: seq<BlockEvent>, i: nat, d: Delivery, before: Tables)
    requires InOrder(height, events) && ReconciledTo(t, t', height, events) && i < |events|
    requires events[i].decoded.Mutates? && d.at == events[i].at && d.mutation == events[i].decoded.mutation
    requires Silent(t, t', before, height) && Legacy(t, height, d.mutation.key)
    ensures Deliver(before, d) == before
  {
    var key, e := d.mutation.key, events[i];
    LastIsLast(height, events, Name(key));
    assert Names(e, Name(key)) && e in events;
    GuardIsTupleOrder(before, key, LastOf(events, Name(key)).value.at, e.at);
    Trichotomy(LastOf(events, Name(key)).value.at, e.at);
  }

  lemma {:induction false} NoLegacyAppears(s: Tables, d: Delivery, height: int)
    requires forall k :: !Legacy(s, height, k)
    ensures forall k :: !Legacy(Deliver(s, d), height, k)
  {
    forall k ensures !Legacy(Deliver(s, d), height, k) {
      assert !Legacy(s, height, k);
    }
  }

  /** A delivery for one key leaves what was posted for the others. */
  lemma {:induction false} OtherKeysUntouched(s: Tables, d: Delivery, mark: nat, t: Tables, height: int)
    requires mark <= |s.buffer| && !Legacy(t, height, d.mutation.key)
    requires forall k, r :: Legacy(t, height, k) && r in s.buffer[mark..] ==> !IsInfusedRow(r, k)
    requires forall k :: Legacy(t, height, k) ==> Posted(s.buffer[mark..], k, Debit) == Posted(s.buffer[mark..], k, Credit) == 0
    ensures mark <= |Deliver(s, d).buffer|
    ensures forall k, r :: Legacy(t, height, k) && r in Deliver(s, d).buffer[mark..] ==> !IsInfusedRow(r, k)
    ensures var b := Deliver(s, d).buffer[mark..];
            forall k :: Legacy(t, height, k) ==> Posted(b, k, Debit) == Posted(b, k, Credit) == 0
  {
    if Takes(s, d) && d.mutation.Snapshot? {
      var legs := FuelLegs(s, d);
      assert (s.buffer + legs)[mark..] == s.buffer[mark..] + legs;
      forall k | Legacy(t, height, k)
        ensures Posted(s.buffer[mark..] + legs, k, Debit) == Posted(s.buffer[mark..] + legs, k, Credit) == 0
      {
        PostedAppend(s.buffer[mark..], legs, k, Debit);
        PostedAppend(s.buffer[mark..], legs, k, Credit);
        PostedLegs(s, d, k, Debit);
        PostedLegs(s, d, k, Credit);
      }
    }
  }
}
