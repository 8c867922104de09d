/** The coordinate that every replay guard compares: block height, execution
    phase, transaction index, then the event's original index inside its list. */
module Positions {

  datatype Option<+T> = None | Some(value: T)

  datatype Position = Position(height: int, phase: int, tx: int, event: int)

  /** Row-value comparison `(height,phase,tx,event) < (...)` as SQL defines it. */
  predicate Before(p: Position, q: Position) {
    || p.height < q.height
    || (p.height == q.height && p.phase < q.phase)
    || (p.height == q.height && p.phase == q.phase && p.tx < q.tx)
    || (p.height == q.height && p.phase == q.phase && p.tx == q.tx && p.event < q.event)
  }

  predicate AtOrBefore(p: Position, q: Position) {
    p == q || Before(p, q)
  }

  /** Positions rise strictly along the sequence. */
  predicate Ascending(ps: seq<Position>) {
    forall i, j :: 0 <= i < j < |ps| ==> Before(ps[i], ps[j])
  }

  lemma {:induction false} Trichotomy(p: Position, q: Position)
    ensures Before(p, q) || p == q || Before(q, p)
    ensures !(Before(p, q) && Before(q, p)) && !Before(p, p)
  {
  }

  lemma {:induction false} Transitive(p: Position, q: Position, r: Position)
    requires Before(p, q) && Before(q, r)
    ensures Before(p, r)
  {
  }
}
