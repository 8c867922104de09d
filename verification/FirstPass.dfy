/** The first pass over consecutive blocks (rpc/event_order.go with the guards of
    events/infusion.go and events/economy_position.go): the replay guards never suppress it. */
module FirstPass {
  import Economy
  import Infusion
  import opened EventOrder
  import opened Positions

  /** One event as the dispatcher meets it. */
  datatype Met = Met(height: int, event: Positioned)

  function MetIn(height: int, block: seq<Positioned>): (r: seq<Met>)
    ensures |r| == |block| && forall k :: 0 <= k < |block| ==> r[k] == Met(height, block[k])
  {
    seq(|block|, k requires 0 <= k < |block| => Met(height, block[k]))
  }

  function AllMet(heights: seq<int>, blocks: seq<seq<Positioned>>): seq<Met>
    requires |heights| == |blocks|
  {
    if heights == [] then []
    else AllMet(heights[..|heights| - 1], blocks[..|blocks| - 1]) + MetIn(heights[|heights| - 1], blocks[|blocks| - 1])
  }

  function Places(met: seq<Met>): (r: seq<Position>)
    ensures |r| == |met| && forall k :: 0 <= k < |met| ==> r[k] == At(met[k].height, met[k].event)
  {
    seq(|met|, k requires 0 <= k < |met| => At(met[k].height, met[k].event))
  }

  lemma {:induction false} MetIsPass(heights: seq<int>, blocks: seq<seq<Positioned>>)
    requires |heights| == |blocks|
    ensures Places(AllMet(heights, blocks)) == Pass(heights, blocks)
  {
    if heights != [] {
      MetIsPass(heights[..|heights| - 1], blocks[..|blocks| - 1]);
    }
  }

  /** What the handlers of one family make of the events; most events are not for them. */
  function Handled<T>(decode: Met -> Option<T>, met: seq<Met>): seq<T> {
    if met == [] then []
    else
      var earlier, last := Handled(decode, met[..|met| - 1]), decode(met[|met| - 1]);
      if last.Some? then earlier + [last.value] else earlier
  }

  function Times<T>(at: T -> Position, ds: seq<T>): (r: seq<Position>)
    ensures |r| == |ds| && forall k :: 0 <= k < |ds| ==> r[k] == at(ds[k])
  {
    seq(|ds|, k requires 0 <= k < |ds| => at(ds[k]))
  }

  /** A delivery carries the position of its event. */
  ghost predicate KeepsPlace<T(!new)>(decode: Met -> Option<T>, at: T -> Position) {
    forall m :: decode(m).Some? ==> at(decode(m).value) == At(m.height, m.event)
  }

  lemma {:induction false} HandledAscends<T(!new)>(decode: Met -> Option<T>, at: T -> Position, met: seq<Met>)
    requires KeepsPlace(decode, at) && Ascending(Places(met))
    ensures Ascending(Times(at, Handled(decode, met)))
    ensures forall d :: d in Handled(decode, met) ==> exists k :: 0 <= k < |met| && at(d) == At(met[k].height, met[k].event)
  {
    if met != [] {
      var init, last := met[..|met| - 1], met[|met| - 1];
      var ps := Places(met);
      assert forall k :: 0 <= k < |init| ==> Places(init)[k] == ps[k];
      HandledAscends(decode, at, init);
      var earlier := Handled(decode, init);
      forall d | d in earlier ensures Before(at(d), ps[|init|]) {
        var k :| 0 <= k < |init| && at(d) == At(init[k].height, init[k].event);
        assert Before(ps[k], ps[|init|]);
      }
      forall d | d in Handled(decode, met) ensures exists k :: 0 <= k < |met| && at(d) == At(met[k].height, met[k].event) {
        if d in earlier {
          var k :| 0 <= k < |init| && at(d) == At(init[k].height, init[k].event);
          assert met[k] == init[k];
        } else {
          assert at(d) == At(met[|init|].height, met[|init|].event);
        }
      }
    }
  }

  /** Rising heights, each block in its execution order. */
  ghost predicate InOrder(heights: seq<int>, blocks: seq<seq<Positioned>>, finalizes: seq<seq<Event>>, txss: seq<seq<seq<Event>>>) {
    && |heights| == |blocks| == |finalizes| == |txss|
    && (forall i, j :: 0 <= i < j < |heights| ==> heights[i] < heights[j])
    && (forall b :: 0 <= b < |blocks| ==> OrdersBlock(blocks[b], finalizes[b], txss[b]))
  }

  lemma {:induction false} MetAbove(heights: seq<int>, blocks: seq<seq<Positioned>>, floor: int)
    requires |heights| == |blocks| && forall j :: 0 <= j < |heights| ==> floor < heights[j]
    ensures forall k :: 0 <= k < |AllMet(heights, blocks)| ==> floor < AllMet(heights, blocks)[k].height
  {
    if heights != [] {
      MetAbove(heights[..|heights| - 1], blocks[..|blocks| - 1], floor);
    }
  }

  function EconomyAt(d: Economy.Delivery): Position { d.at }
  function InfusionAt(d: Infusion.Delivery): Position { d.at }

  /** No set or reset of a first pass is suppressed, on tables whose positions come from
      heights below it: right after it is dispatched its effect is in the tables. */
  lemma {:induction false} EconomyIsNeverSuppressed(decode: Met -> Option<Economy.Delivery>, heights: seq<int>, blocks: seq<seq<Positioned>>,
                                                    finalizes: seq<seq<Event>>, txss: seq<seq<seq<Event>>>,
                                                    t: Economy.Tables, floor: int, i: nat)
    requires InOrder(heights, blocks, finalizes, txss) && KeepsPlace(decode, EconomyAt)
    requires forall j :: 0 <= j < |heights| ==> floor < heights[j]
    requires forall k :: k in t.positions ==> t.positions[k].height <= floor
    requires i < |Handled(decode, AllMet(heights, blocks))|
    ensures var ds := Handled(decode, AllMet(heights, blocks));
            && !Economy.Suppressed(Economy.DeliverAll(t, ds[..i]), ds[i])
            && (Economy.Lawful(ds[i]) ==>
                  var u := Economy.DeliverAll(t, ds[..i + 1]); Economy.InEffect(u.rows, u.positions, ds[i]))
  {
    var met := AllMet(heights, blocks);
    var ds := Handled(decode, met);
    FirstPassAscends(heights, blocks, finalizes, txss);
    MetIsPass(heights, blocks);
    HandledAscends(decode, EconomyAt, met);
    MetAbove(heights, blocks, floor);
    assert ds[i] in ds;
    assert seq(|ds|, k requires 0 <= k < |ds| => ds[k].at) == Times(EconomyAt, ds);
    Economy.FirstPassAppliesAll(t, ds, i);
  }

  /** Every lawful infusion event of a first pass for a key without history takes effect. */
  lemma {:induction false} InfusionIsNeverSuppressed(decode: Met -> Option<Infusion.Delivery>, heights: seq<int>, blocks: seq<seq<Positioned>>,
                                                     finalizes: seq<seq<Event>>, txss: seq<seq<seq<Event>>>, t: Infusion.Tables, i: nat)
    requires InOrder(heights, blocks, finalizes, txss) && KeepsPlace(decode, InfusionAt)
    requires i < |Handled(decode, AllMet(heights, blocks))|
    ensures var ds := Handled(decode, AllMet(heights, blocks));
            Infusion.Lawful(ds[i].mutation) && Infusion.Unseen(t, ds[i].mutation.key)
            ==> Infusion.Takes(Infusion.DeliverAll(t, ds[..i]), ds[i])
                && Infusion.InEffect(Infusion.DeliverAll(t, ds[..i]), Infusion.DeliverAll(t, ds[..i + 1]), ds[i])
  {
    var met := AllMet(heights, blocks);
    var ds := Handled(decode, met);
    FirstPassAscends(heights, blocks, finalizes, txss);
    MetIsPass(heights, blocks);
    HandledAscends(decode, InfusionAt, met);
    Infusion.TakesMeans(Infusion.DeliverAll(t, ds[..i]), ds[i]);
    Infusion.DeliverMeans(Infusion.DeliverAll(t, ds[..i]), ds[i]);
    assert ds[..i + 1][..i] == ds[..i];
    if Infusion.Lawful(ds[i].mutation) && Infusion.Unseen(t, ds[i].mutation.key) {
      assert seq(|ds|, k requires 0 <= k < |ds| => ds[k].at) == Times(InfusionAt, ds);
      Infusion.FirstPassAppliesAll(t, ds, i);
    }
  }
}
