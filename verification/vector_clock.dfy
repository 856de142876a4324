/** Version vectors (server/async_comm/types.py): causality as a partial order. */
module VectorClocks {
  import opened CommTypes

  function Get(c: Clock, p: PeerId): int {
    if p in c then c[p] else 0
  }

  function Max(a: int, b: int): int {
    if a < b then b else a
  }

  function Incremented(c: Clock, p: PeerId): Clock {
    c[p := Get(c, p) + 1]
  }

  function Merged(a: Clock, b: Clock): Clock {
    map p | p in a.Keys + b.Keys :: Max(Get(a, p), Get(b, p))
  }

  // Causal precedence: every counter, a missing one being zero, is at most the other's.
  ghost predicate Leq(a: Clock, b: Clock) {
    forall p :: Get(a, p) <= Get(b, p)
  }

  ghost predicate Before(a: Clock, b: Clock) {
    Leq(a, b) && !Leq(b, a)
  }

  datatype Causality = BeforeOther | AfterOther | Equal | Concurrent

  ghost function Relation(a: Clock, b: Clock): Causality {
    if Leq(a, b) && Leq(b, a) then Equal
    else if Leq(a, b) then BeforeOther
    else if Leq(b, a) then AfterOther
    else Concurrent
  }

  class VectorClock {
    var counters: Clock

    constructor (counters: Clock)
      ensures this.counters == counters
    {
      this.counters := counters;
    }

    method Increment(p: PeerId)
      modifies this
      ensures counters == Incremented(old(counters), p)
    {
      counters := counters[p := (if p in counters then counters[p] else 0) + 1];
    }

    method Merge(other: VectorClock) returns (merged: VectorClock)
      ensures fresh(merged) && merged.counters == Merged(counters, other.counters)
    {
      var a, b := counters, other.counters;
      merged := new VectorClock(map p | p in a.Keys + b.Keys :: Max(Get(a, p), Get(b, p)));
    }

    /** The flag loop decides the partial order exactly. */
    method Compare(other: VectorClock) returns (r: Causality)
      ensures r == Relation(counters, other.counters)
    {
      var a, b := counters, other.counters;
      var todo := a.Keys + b.Keys;
      var less, greater := false, false;
      while todo != {}
        invariant todo <= a.Keys + b.Keys
        invariant less <==> exists p :: p !in todo && Get(a, p) < Get(b, p)
        invariant greater <==> exists p :: p !in todo && Get(b, p) < Get(a, p)
        decreases |todo|
      {
        var p :| p in todo;
        ghost var before := todo;
        todo := todo - {p};
        if Get(a, p) < Get(b, p) {
          less := true;
        } else if Get(b, p) < Get(a, p) {
          greater := true;
        }
        assert forall q :: q !in todo <==> q !in before || q == p;
      }
      assert less <==> !Leq(b, a);
      assert greater <==> !Leq(a, b);
      r := if !less && !greater then Equal
           else if less && !greater then BeforeOther
           else if greater && !less then AfterOther
           else Concurrent;
    }
  }

  lemma RelationIsPartialOrder(a: Clock, b: Clock, c: Clock)
    ensures Relation(a, a) == Equal
    ensures Relation(a, b) == BeforeOther <==> Relation(b, a) == AfterOther
    ensures Relation(a, b) == Equal <==> forall p :: Get(a, p) == Get(b, p)
    ensures Relation(a, b) == BeforeOther && Relation(b, c) == BeforeOther ==> Relation(a, c) == BeforeOther
  {
    if Before(a, b) && Before(b, c) {
      forall p ensures Get(a, p) <= Get(c, p) {
        assert Get(a, p) <= Get(b, p) <= Get(c, p);
      }
      var p :| Get(b, p) > Get(a, p);
      assert Get(a, p) < Get(b, p) <= Get(c, p);
    }
  }

  /** Merge is the least upper bound, hence commutative, associative and idempotent. */
  lemma MergeIsLeastUpperBound(a: Clock, b: Clock, upper: Clock)
    ensures Leq(a, Merged(a, b)) && Leq(b, Merged(a, b))
    ensures Leq(a, upper) && Leq(b, upper) ==> Leq(Merged(a, b), upper)
  {
    var m := Merged(a, b);
    forall p ensures Get(m, p) == Max(Get(a, p), Get(b, p)) {
      MergedAt(a, b, p);
    }
    if Leq(a, upper) && Leq(b, upper) {
      forall p ensures Get(m, p) <= Get(upper, p) {
        assert Get(a, p) <= Get(upper, p) && Get(b, p) <= Get(upper, p);
      }
    }
  }

  lemma MergedAt(a: Clock, b: Clock, p: PeerId)
    ensures Get(Merged(a, b), p) == Max(Get(a, p), Get(b, p))
  {
    assert p in Merged(a, b) <==> p in a || p in b;
  }

  // Maps with the same keys and the same counters are the same clock.
  lemma SameClock(a: Clock, b: Clock)
    requires forall p :: (p in a <==> p in b) && Get(a, p) == Get(b, p)
    ensures a == b
  {
    assert a.Keys == b.Keys;
    forall p | p in a ensures a[p] == b[p] {
      assert Get(a, p) == Get(b, p);
    }
  }

  lemma MergeCommutesAndIsIdempotent(a: Clock, b: Clock)
    ensures Merged(a, b) == Merged(b, a)
    ensures Merged(a, a) == a
  {
    forall p ensures Get(Merged(a, b), p) == Get(Merged(b, a), p) && Get(Merged(a, a), p) == Get(a, p) {
      MergedAt(a, b, p);
      MergedAt(b, a, p);
      MergedAt(a, a, p);
    }
    SameClock(Merged(a, b), Merged(b, a));
    SameClock(Merged(a, a), a);
  }

  lemma MergeIsAssociative(a: Clock, b: Clock, c: Clock)
    ensures Merged(Merged(a, b), c) == Merged(a, Merged(b, c))
  {
    var ab, bc := Merged(a, b), Merged(b, c);
    forall p ensures Get(Merged(ab, c), p) == Get(Merged(a, bc), p) {
      MergedAt(a, b, p);
      MergedAt(b, c, p);
      MergedAt(ab, c, p);
      MergedAt(a, bc, p);
    }
    SameClock(Merged(ab, c), Merged(a, bc));
  }

  lemma IncrementIsStrictlyAfter(c: Clock, p: PeerId)
    ensures Relation(c, Incremented(c, p)) == BeforeOther
  {
    assert Get(Incremented(c, p), p) == Get(c, p) + 1;
    assert forall q :: q != p ==> Get(Incremented(c, p), q) == Get(c, q);
  }

  /** A counter that was never moved counts as zero: it makes no difference whether it is
      there, and its first increment is one. */
  lemma MissingCountsAsZero(c: Clock, p: PeerId)
    requires p !in c
    ensures Relation(c, c[p := 0]) == Relation(c[p := 0], c) == Relation(c, c)
    ensures Incremented(c, p) == c[p := 1]
  {}
}
