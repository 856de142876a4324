/** Comparing a simulated answer with the real one
    (server/async_comm/conflict_resolver.py): Jaccard similarity over character
    sets and the three-interval decision, over exact rationals. */
module ConflictResolvers {

  datatype Decision = Confirm | Revise | HumanReview

  function Chars(text: string): set<char> {
    set c | c in text
  }

  function Jaccard<T>(a: set<T>, b: set<T>): real {
    if a == {} && b == {} then 1.0
    else if a == {} || b == {} then 0.0
    else
      assert a + b != {};
      |a * b| as real / |a + b| as real
  }

  datatype Resolver = Resolver(autoConfirm: real, conflict: real, lower: string -> string)
  {
    // What the constructor of the resolver insists on.
    predicate Valid() {
      autoConfirm > conflict
    }

    function Similarity(x: string, y: string): real {
      Jaccard(Chars(lower(x)), Chars(lower(y)))
    }

    function Decide(similarity: real): Decision {
      if similarity >= autoConfirm then Confirm
      else if similarity <= conflict then HumanReview
      else Revise
    }

    function Resolve(simulated: string, real_: string): Decision {
      Decide(Similarity(simulated, real_))
    }
  }

  function DefaultResolver(lower: string -> string): Resolver {
    Resolver(0.8, 0.3, lower)
  }

  // Distance as the share of characters the two texts do not have in common.
  ghost function Distance<T>(a: set<T>, b: set<T>): real {
    1.0 - Jaccard(a, b)
  }

  ghost function SymDiff<T>(a: set<T>, b: set<T>): nat {
    |a - b| + |b - a|
  }

  lemma SizesOfUnion<T>(a: set<T>, b: set<T>)
    ensures |a + b| == |a * b| + SymDiff(a, b)
    ensures |a| == |a * b| + |a - b| && |b| == |a * b| + |b - a|
  {
    assert a + b == (a * b) + (a - b) + (b - a);
    assert |(a * b) + (a - b)| == |a * b| + |a - b|;
    assert |a + b| == |(a * b) + (a - b)| + |b - a|;
    assert a == (a * b) + (a - b);
    assert b == (a * b) + (b - a);
  }

  lemma SubsetSize<T>(a: set<T>, b: set<T>)
    requires a <= b
    ensures |a| <= |b|
  {
    assert b == a + (b - a);
  }

  lemma SymDiffTriangle<T>(a: set<T>, b: set<T>, c: set<T>)
    ensures SymDiff(a, c) <= SymDiff(a, b) + SymDiff(b, c)
  {
    SubsetSize(a - c, (a - b) + (b - c));
    SubsetSize(c - a, (c - b) + (b - a));
  }

  // d is 2 * diff / (x + y + diff), or 0 when that denominator vanishes.
  ghost predicate IsRatio(d: real, x: real, y: real, diff: real) {
    0.0 <= d <= 1.0 && if x + y + diff == 0.0 then d == 0.0 else d * (x + y + diff) == 2.0 * diff
  }

  /** Jaccard distance in terms of sizes only: twice the symmetric difference
      over itself plus both sizes. */
  lemma DistanceAsRatio<T>(a: set<T>, b: set<T>)
    ensures IsRatio(Distance(a, b), |a| as real, |b| as real, SymDiff(a, b) as real)
  {
    SizesOfUnion(a, b);
    if a == {} && b == {} {
      assert SymDiff(a, b) == 0;
    } else if a == {} || b == {} {
      assert a * b == {};
      assert SymDiff(a, b) as real == |a| as real + |b| as real;
    } else {
      var n, u := |a * b| as real, |a + b| as real;
      assert a + b != {};
      assert u > 0.0 && 0.0 <= n <= u;
      assert |a| as real + |b| as real + SymDiff(a, b) as real == 2.0 * u;
      QuotientLaws(n, u);
    }
  }

  lemma QuotientLaws(n: real, u: real)
    requires u > 0.0 && 0.0 <= n <= u
    ensures 0.0 <= n / u <= 1.0
    ensures (n / u) * u == n
    ensures (1.0 - n / u) * (2.0 * u) == 2.0 * (u - n)
  {}

  lemma Stretch(d: real, small: real, large: real, r: real, s: real)
    requires 0.0 <= d <= 1.0 && r <= s && large - small == s - r
    requires d * small == 2.0 * r
    ensures d * large <= 2.0 * s
  {
    assert d * large == d * small + d * (s - r);
    AtMost(d, s - r);
  }

  lemma AtMost(d: real, gap: real)
    requires 0.0 <= d <= 1.0 && gap >= 0.0
    ensures d * gap <= gap
  {}

  lemma Widens(d: real, small: real, large: real, p: real)
    requires d >= 0.0 && 0.0 <= p <= small <= large
    requires small == 0.0 || d * small == 2.0 * p
    ensures d * large >= 2.0 * p
  {
    assert d * large == d * small + d * (large - small);
  }

  /** Granting a pair more difference than it has bounds its distance above ... */
  lemma DistanceUpper<T>(a: set<T>, c: set<T>, s: real)
    requires SymDiff(a, c) as real <= s
    ensures Distance(a, c) * (|a| as real + |c| as real + s) <= 2.0 * s
  {
    var x, z, r := |a| as real, |c| as real, SymDiff(a, c) as real;
    DistanceAsRatio(a, c);
    if x + z + r > 0.0 {
      Stretch(Distance(a, c), x + z + r, x + z + s, r, s);
    }
  }

  /** ... and a wider denominator bounds it below. */
  lemma DistanceLower<T>(a: set<T>, b: set<T>, m: real)
    requires |a| as real + |b| as real + SymDiff(a, b) as real <= m
    ensures Distance(a, b) * m >= 2.0 * SymDiff(a, b) as real
  {
    var x, y, p := |a| as real, |b| as real, SymDiff(a, b) as real;
    DistanceAsRatio(a, b);
    Widens(Distance(a, b), x + y + p, m, p);
  }

  lemma SumBound(dr: real, dp: real, dq: real, m: real, p: real, q: real)
    requires m > 0.0 && dr * m <= 2.0 * (p + q) && dp * m >= 2.0 * p && dq * m >= 2.0 * q
    ensures dr <= dp + dq
  {
    if dr > dp + dq {
      PositiveProduct(dr, dp + dq, m);
    }
  }

  lemma PositiveProduct(a: real, b: real, m: real)
    requires a > b && m > 0.0
    ensures a * m > b * m
  {
    assert (a - b) * m > 0.0;
  }

  lemma SizeGap<T>(a: set<T>, b: set<T>)
    ensures |a| <= |b| + SymDiff(a, b)
  {
    SizesOfUnion(a, b);
    SubsetSize(a * b, b);
  }

  // The bounds a triangle needs, over one common denominator.
  lemma TriangleBounds<T>(a: set<T>, b: set<T>, c: set<T>) returns (m: real, p: real, q: real)
    ensures m >= 0.0 && (m == 0.0 ==> |a| == |c| == 0)
    ensures Distance(a, c) * m <= 2.0 * (p + q)
    ensures Distance(a, b) * m >= 2.0 * p
    ensures Distance(b, c) * m >= 2.0 * q
  {
    hide Distance, SymDiff;
    SymDiffTriangle(a, b, c);
    SizeGap(b, c);
    SizeGap(b, a);
    SymDiffCommutes(a, b);
    p, q := SymDiff(a, b) as real, SymDiff(b, c) as real;
    m := |a| as real + |c| as real + (p + q);
    DistanceUpper(a, c, p + q);
    DistanceLower(a, b, m);
    DistanceLower(b, c, m);
  }

  lemma SymDiffCommutes<T>(a: set<T>, b: set<T>)
    ensures SymDiff(a, b) == SymDiff(b, a)
  {}

  lemma NoDistance<T>(a: set<T>, b: set<T>)
    requires |a| == |b| == 0
    ensures Distance(a, b) == 0.0
  {}

  lemma DistanceTriangle<T>(a: set<T>, b: set<T>, c: set<T>)
    ensures Distance(a, c) <= Distance(a, b) + Distance(b, c)
  {
    hide Distance;
    var m, p, q := TriangleBounds(a, b, c);
    if m > 0.0 {
      SumBound(Distance(a, c), Distance(a, b), Distance(b, c), m, p, q);
    } else {
      NoDistance(a, c);
      DistanceAsRatio(a, b);
      DistanceAsRatio(b, c);
    }
  }

  /** Jaccard distance is a metric on character sets, empty ones included. */
  lemma DistanceIsMetric<T>(a: set<T>, b: set<T>, c: set<T>)
    ensures 0.0 <= Distance(a, b) <= 1.0
    ensures Distance(a, b) == Distance(b, a)
    ensures Distance(a, b) == 0.0 <==> a == b
    ensures Distance(a, c) <= Distance(a, b) + Distance(b, c)
  {
    DistanceAsRatio(a, b);
    assert a * b == b * a && a + b == b + a;
    ZeroMeansEqual(a, b);
    DistanceTriangle(a, b, c);
  }

  lemma ZeroMeansEqual<T>(a: set<T>, b: set<T>)
    ensures Distance(a, b) == 0.0 <==> a == b
  {
    DistanceAsRatio(a, b);
    if a == b {
      assert a - b == {} && b - a == {};
      assert SymDiff(a, b) == 0;
    } else {
      assert a - b != {} || b - a != {};
      assert SymDiff(a, b) > 0;
    }
  }

  /** When each verdict is given, in terms of how many characters the two answers share
      out of all they use: at or above one threshold they agree, at or below the other a
      human is called, and only in between is the answer revised. Two empty answers count
      as equal. */
  lemma ResolveIff(r: Resolver, x: string, y: string)
    requires r.Valid()
    ensures var a, b := Chars(r.lower(x)), Chars(r.lower(y));
      var shared, all := |a * b| as real, |a + b| as real;
      && (a + b != {} ==>
            && (r.Resolve(x, y) == Confirm <==> shared >= r.autoConfirm * all)
            && (r.Resolve(x, y) == HumanReview <==> shared <= r.conflict * all)
            && (r.Resolve(x, y) == Revise <==> r.conflict * all < shared < r.autoConfirm * all))
      && (a + b == {} ==>
            && (r.Resolve(x, y) == Confirm <==> r.autoConfirm <= 1.0)
            && (r.Resolve(x, y) == HumanReview <==> r.conflict >= 1.0))
  {
    hide Jaccard;
    var a, b := Chars(r.lower(x)), Chars(r.lower(y));
    if a + b != {} {
      SharedShare(a, b);
      DecideIff(r, r.Similarity(x, y), |a * b| as real, |a + b| as real);
    } else {
      assert a == {} && b == {};
      NothingToCompare(a, b);
    }
  }

  lemma NothingToCompare<T>(a: set<T>, b: set<T>)
    requires a == {} && b == {}
    ensures Jaccard(a, b) == 1.0
  {}

  lemma DecideIff(r: Resolver, s: real, shared: real, all: real)
    requires r.Valid() && all > 0.0 && s * all == shared
    ensures r.Decide(s) == Confirm <==> shared >= r.autoConfirm * all
    ensures r.Decide(s) == HumanReview <==> shared <= r.conflict * all
    ensures r.Decide(s) == Revise <==> r.conflict * all < shared < r.autoConfirm * all
  {
    ScaleBoth(s, r.autoConfirm, all);
    ScaleBoth(r.conflict, s, all);
    ScaleBoth(r.conflict, r.autoConfirm, all);
  }

  // Similarity is the share of the common characters.
  lemma SharedShare<T>(a: set<T>, b: set<T>)
    requires a + b != {}
    ensures |a + b| > 0 && Jaccard(a, b) * |a + b| as real == |a * b| as real
  {
    if a == {} || b == {} {
      assert a * b == {};
    } else {
      SubsetSize(a * b, a + b);
      QuotientLaws(|a * b| as real, |a + b| as real);
    }
  }

  lemma ScaleBoth(x: real, y: real, m: real)
    requires m > 0.0
    ensures x >= y <==> x * m >= y * m
  {
    if x > y {
      PositiveProduct(x, y, m);
    }
    if y > x {
      PositiveProduct(y, x, m);
    }
  }

  /** Under the shipped thresholds: eight tenths in common are enough to confirm, three
      tenths or less call a human. */
  lemma DefaultVerdicts(lower: string -> string, x: string, y: string)
    requires Chars(lower(x)) + Chars(lower(y)) != {}
    ensures var shared, all := |Chars(lower(x)) * Chars(lower(y))|, |Chars(lower(x)) + Chars(lower(y))|;
      && (DefaultResolver(lower).Resolve(x, y) == Confirm <==> 10 * shared >= 8 * all)
      && (DefaultResolver(lower).Resolve(x, y) == HumanReview <==> 10 * shared <= 3 * all)
  {
    ResolveIff(DefaultResolver(lower), x, y);
  }

  // Nothing in common calls a human: "abc" against "xyz" under the shipped thresholds.
  lemma StrangersEscalate()
    ensures DefaultResolver((t: string) => t).Resolve("abc", "xyz") == HumanReview
  {
    var r := DefaultResolver((t: string) => t);
    var a, b := Chars("abc"), Chars("xyz");
    assert 'a' in a && a * b == {};
    ResolveIff(r, "abc", "xyz");
  }

  /** Answers that both agree with a common third can never be so far apart that
      comparing them would call a human, provided the confirmation band is less
      than half as wide as what lies above the conflict threshold; the default
      thresholds qualify. */
  lemma ConfirmedAgainstThirdNeverEscalates(r: Resolver, x: string, y: string, z: string)
    requires r.Valid() && 2.0 * (1.0 - r.autoConfirm) < 1.0 - r.conflict
    requires r.Resolve(x, y) == Confirm && r.Resolve(z, y) == Confirm
    ensures r.Resolve(x, z) != HumanReview
  {
    var a, b, c := Chars(r.lower(x)), Chars(r.lower(y)), Chars(r.lower(z));
    DistanceIsMetric(a, b, c);
    DistanceIsMetric(c, b, a);
  }

  lemma DefaultsNeverEscalate(lower: string -> string, x: string, y: string, z: string)
    requires DefaultResolver(lower).Resolve(x, y) == Confirm
    requires DefaultResolver(lower).Resolve(z, y) == Confirm
    ensures DefaultResolver(lower).Resolve(x, z) != HumanReview
    ensures DefaultResolver(lower).Resolve(x, z) == DefaultResolver(lower).Resolve(z, x)
  {
    ConfirmedAgainstThirdNeverEscalates(DefaultResolver(lower), x, y, z);
    ResolveIsSymmetric(DefaultResolver(lower), x, z);
  }

  /** The verdict does not depend on which answer is called simulated, and texts
      over the same characters are always confirmed. */
  lemma ResolveIsSymmetric(r: Resolver, x: string, y: string)
    ensures r.Resolve(x, y) == r.Resolve(y, x)
    ensures r.autoConfirm <= 1.0 && Chars(r.lower(x)) == Chars(r.lower(y)) ==> r.Resolve(x, y) == Confirm
  {
    var a, b := Chars(r.lower(x)), Chars(r.lower(y));
    DistanceIsMetric(a, b, a);
  }
}
