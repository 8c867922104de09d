/** Which infusion positions without a phase a block can complete, and to what
    (events/infusion_reconcile.go). */
module ReconcileMeanings {
  import opened Infusion
  import opened InfusionReconcile
  import opened Positions

  /** Event `i` is the last of the block that mutates the key, and no later one mutates another
      key of the same name. */
  predicate IsLastFor(events: seq<BlockEvent>, i: int, k: Key) {
    && 0 <= i < |events| && events[i].decoded.Mutates? && events[i].decoded.mutation.key == k
    && forall j :: i < j < |events| && events[j].decoded.Mutates? ==>
         events[j].decoded.mutation.key.destination + "/" + events[j].decoded.mutation.key.address != k.destination + "/" + k.address
  }

  /** The stored coordinates are the event's; a deleted row is gone, and a snapshot differs from
      the stored row at most in an owner or a flag that is not stored yet. */
  predicate Explains(t: Tables, k: Key, e: BlockEvent)
    requires k in t.positions && e.decoded.Mutates?
  {
    && t.positions[k].tx == e.at.tx && t.positions[k].event == e.at.event
    && match e.decoded.mutation
       case Delete(_) => k !in t.rows
       case Snapshot(_, now) =>
         && k in t.rows
         && var was := t.rows[k];
         && was.destinationType == now.destinationType && was.playerId == now.playerId && was.fuel == now.fuel
         && was.defusing == now.defusing && was.power == now.power && was.ratio == now.ratio && was.commission == now.commission
         && (was.ownerId == "" || was.ownerId == now.ownerId)
         && (!was.generatorDisabled || now.generatorDisabled)
  }

  lemma {:induction false} LastForIsLast(events: seq<BlockEvent>, k: Key)
    ensures forall i :: IsLastFor(events, i, k) ==> LastOf(events, Name(k)) == Some(events[i])
    ensures var last := LastOf(events, Name(k));
            last.Some? && last.value.decoded.Mutates? && last.value.decoded.mutation.key == k
            ==> exists i :: IsLastFor(events, i, k) && last.value == events[i]
  {
    if events != [] {
      var n := |events| - 1;
      var init, e := events[..n], events[n];
      if Names(e, Name(k)) {
        assert e.decoded.mutation.key == k ==> IsLastFor(events, n, k);
      } else {
        LastForIsLast(init, k);
        forall i | IsLastFor(events, i, k) ensures LastOf(events, Name(k)) == Some(events[i]) {
          assert IsLastFor(init, i, k);
        }
        forall i | IsLastFor(init, i, k) ensures IsLastFor(events, i, k) {
        }
      }
    }
  }

  /** The last mutation of the key's name is for the key itself and is proven. */
  predicate IsProven(t: Tables, events: seq<BlockEvent>, k: Key) {
    var last := LastOf(events, Name(k));
    last.Some? && last.value.decoded.Mutates? && last.value.decoded.mutation.key == k && Proven(t, last.value)
  }

  lemma {:induction false} ProvenMeans(t: Tables, height: int, events: seq<BlockEvent>, k: Key)
    requires Legacy(t, height, k)
    ensures IsProven(t, events, k) <==> exists i :: IsLastFor(events, i, k) && Explains(t, k, events[i])
  {
    LastForIsLast(events, k);
  }

  lemma {:induction false} ReadableMeans(e: BlockEvent)
    ensures Readable(e) <==> e.decoded != Undecodable && (e.decoded.Mutates? ==> Lawful(e.decoded.mutation))
  {
    if e.decoded.Mutates? {
      var address := e.decoded.mutation.key.address;
      assert '-' !in address <==> forall i :: 0 <= i < |address| ==> address[i] != '-';
    }
  }

  /** Reconciliation succeeds iff every mutation of the block is lawful and every position of
      this height without a phase is explained by the last event for its key. */
  lemma {:induction false} ReconcilableMeans(t: Tables, height: int, events: seq<BlockEvent>)
    ensures Reconcilable(t, height, events) <==>
              && (forall i :: 0 <= i < |events| ==>
                    events[i].decoded != Undecodable && (events[i].decoded.Mutates? ==> Lawful(events[i].decoded.mutation)))
              && (forall k :: k in t.positions && t.positions[k].height == height && t.positions[k].phase == None ==>
                    exists i :: IsLastFor(events, i, k) && Explains(t, k, events[i]))
  {
    forall i | 0 <= i < |events|
      ensures Readable(events[i]) <==> events[i].decoded != Undecodable && (events[i].decoded.Mutates? ==> Lawful(events[i].decoded.mutation))
    {
      ReadableMeans(events[i]);
    }
    assert Reconcilable(t, height, events) <==>
             && (forall i :: 0 <= i < |events| ==> Readable(events[i]))
             && (forall k :: Legacy(t, height, k) ==> IsProven(t, events, k));
    assert forall k :: Legacy(t, height, k) <==> k in t.positions && t.positions[k].height == height && t.positions[k].phase == None;
    forall k | Legacy(t, height, k)
      ensures IsProven(t, events, k) <==> exists i :: IsLastFor(events, i, k) && Explains(t, k, events[i])
    {
      ProvenMeans(t, height, events, k);
    }
  }

  /** It then gains exactly the phase of that event, and the row its owner and flag; all else
      stays as it is. */
  lemma {:induction false} AdoptionMeans(t: Tables, t': Tables, height: int, events: seq<BlockEvent>, k: Key)
    requires InOrder(height, events) && Reconcilable(t, height, events) && ReconciledTo(t, t', height, events) && k in t.positions
    ensures k in t'.positions
    ensures t'.positions[k].(phase := None) == t.positions[k].(phase := None)
    ensures t'.positions[k].phase != t.positions[k].phase <==> t.positions[k].height == height && t.positions[k].phase == None
    ensures forall i :: IsLastFor(events, i, k) && t.positions[k].height == height && t.positions[k].phase == None ==>
              && t'.positions[k].phase == Some(events[i].at.phase)
              && (k in t.rows ==> events[i].decoded.mutation.Snapshot?
                                  && var now := events[i].decoded.mutation.row;
                                  && k in t'.rows && t'.rows[k] == t.rows[k].(ownerId := now.ownerId, generatorDisabled := now.generatorDisabled))
  {
    LastForIsLast(events, k);
  }
}
