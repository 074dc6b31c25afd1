/**
 What an accepted sequence is accepted for: rows inserted with ids drawn from it never collide,
 neither with stored rows nor with each other.
 */
module SerialIds {
  import opened Wrappers
  import opened SchemaIntrospect

  /** nextval() of a sequence with the given bounds; None when it is exhausted. */
  function Draw(q: Sequence, min: int, max: int): Option<(int, Sequence)> {
    if !q.isCalled then Some((q.lastValue, q.(isCalled := true)))
    else
      var next := q.lastValue + q.increment;
      if min <= next <= max then Some((next, q.(lastValue := next)))
      else if !q.cycle then None
      else
        var restart := if q.increment > 0 then min else max;
        Some((restart, q.(lastValue := restart)))
  }

  /** The ids of at most `n` inserts in a row. */
  function Draws(q: Sequence, min: int, max: int, n: nat): seq<int>
    decreases n
  {
    if n == 0 then []
    else match Draw(q, min, max)
      case None => []
      case Some((id, rest)) => [id] + Draws(rest, min, max, n - 1)
  }

  ghost predicate CollisionFree(ids: seq<int>, stored: seq<int>) {
    && (forall i :: 0 <= i < |ids| ==> ids[i] !in stored)
    && (forall i, j :: 0 <= i < j < |ids| ==> ids[i] != ids[j])
  }

  /** The sequence's last value lies within its bounds. */
  predicate InBounds(q: Sequence, min: int, max: int) {
    min <= q.lastValue <= max
  }

  lemma {:induction false} DrawsCount(q: Sequence, min: int, max: int, n: nat)
    requires Integers(q) && InBounds(q, min, max)
    ensures |Draws(q, min, max, n)| == if n <= max - NextValue(q) + 1 then n else max - NextValue(q) + 1
    ensures forall i :: 0 <= i < |Draws(q, min, max, n)| ==> Draws(q, min, max, n)[i] == NextValue(q) + i
    decreases n
  {
    if n > 0 && Draw(q, min, max).Some? {
      DrawsCount(Draw(q, min, max).value.1, min, max, n - 1);
    }
  }

  /** Any number of later inserts that leave the id to an accepted sequence. */
  lemma AcceptedNeverCollides(t: LiveTable, regclass: map<string, nat>, column: ColumnName, min: int, max: int, n: nat)
    requires DefaultOf(t, column).Some? && SequenceSound(t, regclass, column)
    requires InBounds(t.owned[column], min, max)
    ensures CollisionFree(Draws(t.owned[column], min, max, n), Stored(t, column))
  {
    DrawsCount(t.owned[column], min, max, n);
  }

  /** Being ahead of the stored rows is not merely enough: an ascending integer sequence that is
      not ahead does collide in the end. */
  lemma AheadExactlyWhenSafe(q: Sequence, stored: seq<int>, min: int, max: int)
    requires Integers(q) && InBounds(q, min, max)
    requires forall v :: v in stored ==> v <= max
    ensures (forall n: nat :: CollisionFree(Draws(q, min, max, n), stored))
            <==> (forall v :: v in stored ==> v < NextValue(q))
  {
    forall n: nat | forall v :: v in stored ==> v < NextValue(q)
      ensures CollisionFree(Draws(q, min, max, n), stored)
    {
      DrawsCount(q, min, max, n);
    }
    if v :| v in stored && v >= NextValue(q) {
      var n := v - NextValue(q) + 1;
      DrawsCount(q, min, max, n);
      assert Draws(q, min, max, n)[n - 1] == v;
      assert !CollisionFree(Draws(q, min, max, n), stored);
    }
  }
}
