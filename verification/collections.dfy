/** Sequence helpers shared by the models: an optional value, order-preserving
    selection, and what selection keeps. */
module Collections {

  datatype Option<+T> = None | Some(value: T)

  /** The elements satisfying `keep`, in their original order. */
  function Filter<T>(keep: T -> bool, s: seq<T>): (r: seq<T>)
    ensures |r| <= |s|
  {
    if s == [] then [] else (if keep(s[0]) then [s[0]] else []) + Filter(keep, s[1..])
  }

  lemma {:induction false} FilterMembers<T(!new)>(keep: T -> bool, s: seq<T>)
    ensures forall x :: x in Filter(keep, s) <==> x in s && keep(x)
  {
    if s == [] {
    } else {
      FilterMembers(keep, s[1..]);
      assert s == [s[0]] + s[1..];
    }
  }

  lemma {:induction false} FilterConcat<T>(keep: T -> bool, a: seq<T>, b: seq<T>)
    ensures Filter(keep, a + b) == Filter(keep, a) + Filter(keep, b)
  {
    if a == [] {
      assert a + b == b;
    } else {
      var head := if keep(a[0]) then [a[0]] else [];
      FilterConcat(keep, a[1..], b);
      calc {
        Filter(keep, a + b);
        { assert (a + b)[1..] == a[1..] + b; }
        head + Filter(keep, a[1..] + b);
        head + (Filter(keep, a[1..]) + Filter(keep, b));
        (head + Filter(keep, a[1..])) + Filter(keep, b);
      }
    }
  }

  lemma FilterCons<T>(keep: T -> bool, x: T, s: seq<T>)
    ensures Filter(keep, [x] + s) == if keep(x) then [x] + Filter(keep, s) else Filter(keep, s)
  {
    assert ([x] + s)[1..] == s;
    assert [] + Filter(keep, s) == Filter(keep, s);
  }

  /** The step a left-to-right scan makes. */
  lemma FilterStep<T>(keep: T -> bool, s: seq<T>, i: nat)
    requires i < |s|
    ensures Filter(keep, s[..i+1]) == Filter(keep, s[..i]) + (if keep(s[i]) then [s[i]] else [])
  {
    assert s[..i+1] == s[..i] + [s[i]];
    FilterConcat(keep, s[..i], [s[i]]);
  }

  /** Selecting twice is selecting once. */
  lemma {:induction false} FilterTwice<T>(p: T -> bool, q: T -> bool, both: T -> bool, s: seq<T>)
    requires forall x :: x in s ==> both(x) == (p(x) && q(x))
    ensures Filter(q, Filter(p, s)) == Filter(both, s)
  {
    if s == [] {
    } else {
      FilterTwice(p, q, both, s[1..]);
      FilterConcat(q, if p(s[0]) then [s[0]] else [], Filter(p, s[1..]));
    }
  }

  lemma {:induction false} FilterAgree<T>(p: T -> bool, q: T -> bool, s: seq<T>)
    requires forall x :: x in s ==> p(x) == q(x)
    ensures Filter(p, s) == Filter(q, s)
  {
    if s == [] {
    } else {
      FilterAgree(p, q, s[1..]);
    }
  }

  /** Nothing passes: the selection is empty. */
  lemma {:induction false} FilterNone<T>(keep: T -> bool, s: seq<T>)
    requires forall x :: x in s ==> !keep(x)
    ensures Filter(keep, s) == []
  {
    if s == [] {
    } else {
      FilterNone(keep, s[1..]);
    }
  }

  /** A selection is the whole sequence exactly when everything passes. */
  lemma {:induction false} FilterAllIff<T(!new)>(keep: T -> bool, s: seq<T>)
    ensures Filter(keep, s) == s <==> forall x :: x in s ==> keep(x)
  {
    FilterMembers(keep, s);
    if s == [] {
    } else {
      assert s == [s[0]] + s[1..];
      FilterAllIff(keep, s[1..]);
      FilterCons(keep, s[0], s[1..]);
    }
  }

  /** A selection and its complement split the length. */
  lemma {:induction false} FilterSplit<T>(p: T -> bool, q: T -> bool, s: seq<T>)
    requires forall x :: x in s ==> p(x) == !q(x)
    ensures |Filter(p, s)| + |Filter(q, s)| == |s|
  {
    if s == [] {
    } else {
      FilterSplit(p, q, s[1..]);
    }
  }
}
