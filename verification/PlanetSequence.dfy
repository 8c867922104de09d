/** Per-planet activity numbering (buffers/buffer.go): a batch reserves a range on every
    planet's counter, then hands the numbers out in insertion order. */
module PlanetSequence {

  datatype Activity = Activity(planet: string, height: int)

  datatype Stored = Stored(activity: Activity, number: int)

  function Count(rows: seq<Activity>, planet: string): nat {
    if rows == [] then 0
    else Count(rows[..|rows| - 1], planet) + if rows[|rows| - 1].planet == planet then 1 else 0
  }

  function Activities(stored: seq<Stored>): (r: seq<Activity>)
    ensures |r| == |stored| && forall i :: 0 <= i < |stored| ==> r[i] == stored[i].activity
  {
    seq(|stored|, i requires 0 <= i < |stored| => stored[i].activity)
  }

  /** Each row's number is how many rows of its planet are stored before it, so a planet's
      numbers are 0, 1, 2, … in storage order, without a gap or a repetition. */
  ghost predicate Contiguous(stored: seq<Stored>) {
    forall i :: 0 <= i < |stored| ==> stored[i].number == Count(Activities(stored)[..i], stored[i].activity.planet)
  }

  lemma {:induction false} CountAppend(a: seq<Activity>, b: seq<Activity>, planet: string)
    ensures Count(a + b, planet) == Count(a, planet) + Count(b, planet)
  {
    if b == [] {
      assert a + b == a;
    } else {
      assert (a + b)[..|a + b| - 1] == a + b[..|b| - 1];
      CountAppend(a, b[..|b| - 1], planet);
    }
  }

  lemma {:induction false} CountPrefix(rows: seq<Activity>, i: nat, planet: string)
    requires i < |rows|
    ensures Count(rows[..i + 1], planet) == Count(rows[..i], planet) + if rows[i].planet == planet then 1 else 0
    ensures Count(rows[..i], planet) <= Count(rows, planet)
  {
    assert rows[..i + 1][..i] == rows[..i];
    assert rows == rows[..i] + rows[i..];
    CountAppend(rows[..i], rows[i..], planet);
  }

  /** Numbers of one planet rise by one from row to row, and identify the row. */
  lemma {:induction false} NumbersIdentify(stored: seq<Stored>, i: nat, j: nat)
    requires Contiguous(stored) && i < j < |stored| && stored[i].activity.planet == stored[j].activity.planet
    ensures stored[i].number < stored[j].number
    ensures stored[j].number == stored[i].number + 1 <==>
              forall k :: i < k < j ==> stored[k].activity.planet != stored[i].activity.planet
  {
    var rows, planet := Activities(stored), stored[i].activity.planet;
    CountBetween(rows, i, j, planet);
  }

  /** The first row of a planet, and no other, has number 0. */
  lemma {:induction false} FirstIsZero(stored: seq<Stored>, j: nat)
    requires Contiguous(stored) && j < |stored|
    ensures stored[j].number == 0 <==> forall i :: 0 <= i < j ==> stored[i].activity.planet != stored[j].activity.planet
  {
    NoneCounted(Activities(stored), j, stored[j].activity.planet);
  }

  lemma {:induction false} NoneCounted(rows: seq<Activity>, j: nat, planet: string)
    requires j <= |rows|
    ensures Count(rows[..j], planet) == 0 <==> forall i :: 0 <= i < j ==> rows[i].planet != planet
  {
    if j > 0 {
      NoneCounted(rows, j - 1, planet);
      CountPrefix(rows, j - 1, planet);
    }
  }

  lemma {:induction false} CountBetween(rows: seq<Activity>, i: nat, j: nat, planet: string)
    requires i < j <= |rows| && rows[i].planet == planet
    ensures Count(rows[..j], planet) >= Count(rows[..i], planet) + 1
    ensures Count(rows[..j], planet) == Count(rows[..i], planet) + 1 <==> forall k :: i < k < j ==> rows[k].planet != planet
    decreases j
  {
    CountPrefix(rows, j - 1, planet);
    if j > i + 1 { CountBetween(rows, i, j - 1, planet); }
  }

  class Table {
    /** The last number each planet has used. */
    var counters: map<string, int>
    var stored: seq<Stored>

    constructor ()
      ensures Valid() && stored == []
    {
      counters, stored := map[], [];
    }

    function Used(planet: string): int
      reads this
    {
      if planet in counters then counters[planet] + 1 else 0
    }

    ghost predicate Valid()
      reads this
    {
      && Contiguous(stored)
      && forall planet :: Used(planet) == Count(Activities(stored), planet)
    }

    /** Advances the counter of every planet of the batch by its number of rows and
        returns the first number of each reserved range. */
    method Reserve(rows: seq<Activity>) returns (ok: bool, first: map<string, int>)
      modifies `counters
      ensures ok <==> forall i :: 0 <= i < |rows| ==> rows[i].planet != ""
      ensures !ok ==> counters == old(counters)
      ensures ok ==> forall planet :: Used(planet) == old(Used(planet)) + Count(rows, planet)
      ensures ok ==> forall i :: 0 <= i < |rows| ==> rows[i].planet in first
      ensures ok ==> forall planet :: planet in first ==> first[planet] == old(Used(planet))
    {
      var counts: map<string, int>;
      ok, counts := CountRows(rows);
      first := map[];
      if !ok { return; }
      var before := counters;
      counters := map planet | planet in before.Keys + counts.Keys ::
        if planet !in counts then before[planet]
        else if planet in before then before[planet] + (counts[planet] - 1) + 1
        else counts[planet] - 1;
      first := map planet | planet in counts :: counters[planet] - counts[planet] + 1;
    }

    /** One batch; an empty planet fails it before anything is reserved. */
    method Flush(rows: seq<Activity>) returns (ok: bool)
      requires Valid()
      modifies this
      ensures Valid()
      ensures ok <==> forall i :: 0 <= i < |rows| ==> rows[i].planet != ""
      ensures Activities(stored) == Activities(old(stored)) + if ok then rows else []
      ensures old(stored) <= stored
    {
      ghost var start := Activities(stored);
      var reserved, first := Reserve(rows);
      if !reserved { return false; }
      forall p { CountAppend(start, rows, p); }
      stored := NumberRows(stored, rows, first);
      ok := true;
    }
  }

  method CountRows(rows: seq<Activity>) returns (ok: bool, counts: map<string, int>)
    ensures ok <==> forall i :: 0 <= i < |rows| ==> rows[i].planet != ""
    ensures ok ==> forall planet :: (if planet in counts then counts[planet] else 0) == Count(rows, planet)
    ensures ok ==> forall i :: 0 <= i < |rows| ==> rows[i].planet in counts
  {
    counts := map[];
    for i := 0 to |rows|
      invariant forall j :: 0 <= j < i ==> rows[j].planet != "" && rows[j].planet in counts
      invariant forall planet :: (if planet in counts then counts[planet] else 0) == Count(rows[..i], planet)
    {
      var planet := rows[i].planet;
      if planet == "" { return false, counts; }
      forall p { CountPrefix(rows, i, p); }
      counts := counts[planet := if planet in counts then counts[planet] + 1 else 1];
    }
    assert rows[..|rows|] == rows;
    ok := true;
  }

  /** The next free number of every reserved planet is how many of its rows are stored. */
  ghost predicate Positioned(next: map<string, int>, stored: seq<Stored>) {
    forall planet :: planet in next ==> next[planet] == Count(Activities(stored), planet)
  }

  /** `out` is `stored` followed by the rows, and `next` has the number each planet uses next. */
  ghost predicate Numbered(stored: seq<Stored>, rows: seq<Activity>, out: seq<Stored>, next: map<string, int>) {
    && stored <= out
    && Contiguous(out)
    && Positioned(next, out)
    && Activities(out) == Activities(stored) + rows
  }

  method NumberRows(stored: seq<Stored>, rows: seq<Activity>, first: map<string, int>) returns (out: seq<Stored>)
    requires Contiguous(stored) && Positioned(first, stored)
    requires forall i :: 0 <= i < |rows| ==> rows[i].planet in first
    ensures Contiguous(out) && stored <= out && Activities(out) == Activities(stored) + rows
  {
    var next := first;
    out := stored;
    NothingNumbered(stored, first);
    for i := 0 to |rows|
      invariant next.Keys == first.Keys
      invariant Numbered(stored, rows[..i], out, next)
    {
      out, next := NumberOne(stored, rows, i, out, next);
    }
    assert rows[..|rows|] == rows;
  }

  /** The next row of the batch takes its planet's next number. */
  method NumberOne(ghost stored: seq<Stored>, rows: seq<Activity>, i: nat, sofar: seq<Stored>, next: map<string, int>)
    returns (out: seq<Stored>, after: map<string, int>)
    requires i < |rows| && rows[i].planet in next && Numbered(stored, rows[..i], sofar, next)
    ensures Numbered(stored, rows[..i + 1], out, after) && after.Keys == next.Keys
  {
    var r := rows[i];
    NumberNext(stored, rows, i, sofar, next);
    out, after := sofar + [Stored(r, next[r.planet])], next[r.planet := next[r.planet] + 1];
  }

  lemma {:induction false} NothingNumbered(stored: seq<Stored>, first: map<string, int>)
    requires Contiguous(stored) && Positioned(first, stored)
    ensures Numbered(stored, [], stored, first)
  {
  }

  lemma {:induction false} NumberNext(stored: seq<Stored>, rows: seq<Activity>, i: nat, out: seq<Stored>, next: map<string, int>)
    requires i < |rows| && rows[i].planet in next && Numbered(stored, rows[..i], out, next)
    ensures Numbered(stored, rows[..i + 1], out + [Stored(rows[i], next[rows[i].planet])],
                     next[rows[i].planet := next[rows[i].planet] + 1])
  {
    TakeNumber(out, next, rows[i]);
    assert rows[..i + 1] == rows[..i] + [rows[i]];
  }

  lemma {:induction false} TakeNumber(stored: seq<Stored>, next: map<string, int>, r: Activity)
    requires Contiguous(stored) && Positioned(next, stored) && r.planet in next
    ensures var longer := stored + [Stored(r, next[r.planet])];
            && Contiguous(longer) && Positioned(next[r.planet := next[r.planet] + 1], longer)
            && Activities(longer) == Activities(stored) + [r]
  {
    StoreOne(stored, Stored(r, next[r.planet]));
    var longer := stored + [Stored(r, next[r.planet])];
    forall p ensures Count(Activities(longer), p) == Count(Activities(stored), p) + if p == r.planet then 1 else 0 {
      assert Activities(longer)[..|stored|] == Activities(stored);
    }
  }

  lemma {:induction false} StoreOne(stored: seq<Stored>, s: Stored)
    requires Contiguous(stored) && s.number == Count(Activities(stored), s.activity.planet)
    ensures Contiguous(stored + [s]) && Activities(stored + [s]) == Activities(stored) + [s.activity]
  {
    var longer := stored + [s];
    forall i | 0 <= i < |longer| ensures longer[i].number == Count(Activities(longer)[..i], longer[i].activity.planet) {
      assert i <= |stored| && Activities(longer)[..i] == Activities(stored)[..i];
      if i == |stored| { assert Activities(stored)[..i] == Activities(stored); }
    }
  }
}
