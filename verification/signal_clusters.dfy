/** Grouping distilled signals and inducing one intent per group
    (server/distill_personal/rem_stage.py). A signal is known by its position in
    the input. */
module SignalClusters {
  import opened Collections

  type Keyword = nat
  type Text = nat

  datatype Signal = Signal(id: nat, session: nat, kind: nat, text: Text, confidence: int)

  // Keyword extraction and the one-time test look at texts only.
  datatype Lexicon = Lexicon(keywords: Text -> set<Keyword>, oneTime: seq<Text> -> bool)

  type Cluster = seq<nat>

  function Words(lex: Lexicon, s: Signal): set<Keyword> {
    lex.keywords(s.text)
  }

  function Overlap(lex: Lexicon, s: Signal, t: Signal): bool {
    Words(lex, s) * Words(lex, t) != {}
  }

  // The keywords of all members.
  function WordsOf(lex: Lexicon, signals: seq<Signal>, c: Cluster): set<Keyword>
    requires forall i :: 0 <= i < |c| ==> c[i] < |signals|
  {
    set i, w | 0 <= i < |c| && w in Words(lex, signals[c[i]]) :: w
  }

  ghost predicate InRange(clusters: seq<Cluster>, n: nat) {
    forall k, i :: 0 <= k < |clusters| && 0 <= i < |clusters[k]| ==> clusters[k][i] < n
  }

  // Members in input order, the first one being the oldest.
  ghost predicate Ordered(c: Cluster) {
    c != [] && forall i, j :: 0 <= i < j < |c| ==> c[i] < c[j]
  }

  ghost predicate LinkedBack(lex: Lexicon, signals: seq<Signal>, c: Cluster, j: nat)
    requires j < |c| && forall i :: 0 <= i < |c| ==> c[i] < |signals|
  {
    exists i :: 0 <= i < j && Overlap(lex, signals[c[i]], signals[c[j]])
  }

  // One candidate type, and every later member shares a keyword with an earlier one.
  ghost predicate Connected(lex: Lexicon, signals: seq<Signal>, c: Cluster)
    requires forall i :: 0 <= i < |c| ==> c[i] < |signals|
  {
    && (forall i :: 0 <= i < |c| ==> signals[c[i]].kind == signals[c[0]].kind)
    && forall j :: 0 < j < |c| ==> LinkedBack(lex, signals, c, j)
  }

  // Signal x fits cluster c: same type and a keyword in common with a member before it.
  ghost predicate Fits(lex: Lexicon, signals: seq<Signal>, c: Cluster, x: nat)
    requires x < |signals| && c != [] && forall i :: 0 <= i < |c| ==> c[i] < |signals|
  {
    signals[c[0]].kind == signals[x].kind
    && exists i :: 0 <= i < |c| && c[i] < x && Overlap(lex, signals[c[i]], signals[x])
  }

  ghost predicate Member(clusters: seq<Cluster>, k: int, x: int) {
    0 <= k < |clusters| && exists i :: 0 <= i < |clusters[k]| && clusters[k][i] == x
  }

  ghost predicate Placed(clusters: seq<Cluster>, x: int) {
    exists k :: Member(clusters, k, x)
  }

  /** A clustering of the first n signals. */
  ghost predicate Clustering(lex: Lexicon, signals: seq<Signal>, n: nat, clusters: seq<Cluster>)
    requires n <= |signals|
  {
    && InRange(clusters, n)
    && (forall k :: 0 <= k < |clusters| ==> Ordered(clusters[k]) && Connected(lex, signals, clusters[k]))
    // every signal lies in a cluster, and in one only
    && (forall x :: 0 <= x < n ==> Placed(clusters, x))
    && (forall x, k, l :: Member(clusters, k, x) && Member(clusters, l, x) ==> k == l)
    // and that is the first one it fits
    && (forall x, k, l :: Member(clusters, k, x) && 0 <= l < k ==> 0 <= x < n && !Fits(lex, signals, clusters[l], x))
    // a signal opens a new cluster only when it fits none, so clusters open in input order
    && (forall k, l :: 0 <= k < l < |clusters| ==> clusters[k][0] < clusters[l][0])
  }

  lemma MemberAfterAppend(clusters: seq<Cluster>, k: nat, x: nat)
    requires k < |clusters|
    ensures forall l, y ::
      Member(clusters[k := clusters[k] + [x]], l, y) <==> Member(clusters, l, y) || (l == k && y == x)
  {
    var cs := clusters[k := clusters[k] + [x]];
    forall l, y ensures Member(cs, l, y) <==> Member(clusters, l, y) || (l == k && y == x) {
      if l == k {
        assert cs[k][|clusters[k]|] == x;
        if Member(clusters, k, y) {
          var i :| 0 <= i < |clusters[k]| && clusters[k][i] == y;
          assert cs[k][i] == y;
        }
      }
    }
  }

  lemma MemberAfterOpen(clusters: seq<Cluster>, x: nat)
    ensures forall l, y :: Member(clusters + [[x]], l, y) <==> Member(clusters, l, y) || (l == |clusters| && y == x)
  {
    var cs := clusters + [[x]];
    forall l, y ensures Member(cs, l, y) <==> Member(clusters, l, y) || (l == |clusters| && y == x) {
      if 0 <= l < |clusters| {
        assert cs[l] == clusters[l];
      } else if l == |clusters| {
        assert cs[l] == [x];
        assert cs[l][0] == x;
      }
    }
  }

  lemma FitsIff(lex: Lexicon, signals: seq<Signal>, c: Cluster, x: nat)
    requires x < |signals| && Ordered(c) && forall i :: 0 <= i < |c| ==> c[i] < x
    ensures Fits(lex, signals, c, x) <==>
      WordsOf(lex, signals, c) * Words(lex, signals[x]) != {} && signals[c[0]].kind == signals[x].kind
  {
    if w :| w in WordsOf(lex, signals, c) * Words(lex, signals[x]) {
      var i :| 0 <= i < |c| && w in Words(lex, signals[c[i]]);
      assert w in Words(lex, signals[c[i]]) * Words(lex, signals[x]);
      assert Overlap(lex, signals[c[i]], signals[x]);
    }
    if i :| 0 <= i < |c| && c[i] < x && Overlap(lex, signals[c[i]], signals[x]) {
      var w :| w in Words(lex, signals[c[i]]) * Words(lex, signals[x]);
      assert w in WordsOf(lex, signals, c);
    }
  }

  // A member fits only because of members before it, so later arrivals change nothing.
  lemma FitsStays(lex: Lexicon, signals: seq<Signal>, c: Cluster, x: nat, y: nat)
    requires y < x < |signals| && c != [] && forall i :: 0 <= i < |c| ==> c[i] < |signals|
    ensures Fits(lex, signals, c + [x], y) ==> Fits(lex, signals, c, y)
  {
    var d := c + [x];
    if Fits(lex, signals, d, y) {
      var i :| 0 <= i < |d| && d[i] < y && Overlap(lex, signals[d[i]], signals[y]);
      assert i < |c| && d[i] == c[i];
    }
  }

  lemma JoinKeeps(lex: Lexicon, signals: seq<Signal>, n: nat, clusters: seq<Cluster>, k: nat)
    requires n < |signals| && Clustering(lex, signals, n, clusters)
    requires k < |clusters| && Fits(lex, signals, clusters[k], n)
    requires forall l :: 0 <= l < k ==> !Fits(lex, signals, clusters[l], n)
    ensures Clustering(lex, signals, n + 1, clusters[k := clusters[k] + [n]])
  {
    hide Overlap;
    var cs := clusters[k := clusters[k] + [n]];
    MemberAfterAppend(clusters, k, n);
    assert InRange(cs, n + 1) && Ordered(cs[k]);
    assert Connected(lex, signals, cs[k]) by {
      var i :| 0 <= i < |clusters[k]| && clusters[k][i] < n && Overlap(lex, signals[clusters[k][i]], signals[n]);
      JoinConnected(lex, signals, clusters[k], n, i);
    }
    forall x | 0 <= x < n + 1 ensures Placed(cs, x) {
      if x < n {
        assert Placed(clusters, x);
        var l :| Member(clusters, l, x);
        assert Member(cs, l, x);
      } else {
        assert cs[k][|clusters[k]|] == n;
        assert Member(cs, k, n);
      }
    }
    forall x, m, l | Member(cs, m, x) && 0 <= l < m ensures 0 <= x < n + 1 && !Fits(lex, signals, cs[l], x) {
      if Member(clusters, m, x) {
        assert x < n;
        if l == k {
          FitsStays(lex, signals, clusters[k], n, x);
        }
      }
    }
    forall x, m, l | Member(cs, m, x) && Member(cs, l, x) ensures m == l {
      assert Member(clusters, m, x) || (m == k && x == n);
      assert Member(clusters, l, x) || (l == k && x == n);
      assert !Member(clusters, m, n) && !Member(clusters, l, n);
    }
    forall l | 0 <= l < |cs| ensures cs[l][0] == clusters[l][0] && Ordered(cs[l]) && Connected(lex, signals, cs[l]) {
      assert Ordered(clusters[l]);
    }
  }

  lemma JoinConnected(lex: Lexicon, signals: seq<Signal>, c: Cluster, x: nat, i: nat)
    requires x < |signals| && i < |c| && forall j :: 0 <= j < |c| ==> c[j] < |signals|
    requires Connected(lex, signals, c) && signals[c[0]].kind == signals[x].kind
    requires Overlap(lex, signals[c[i]], signals[x])
    ensures Connected(lex, signals, c + [x])
  {
    hide Overlap;
    var d := c + [x];
    forall j | 0 < j < |d| ensures LinkedBack(lex, signals, d, j) {
      if j < |c| {
        assert LinkedBack(lex, signals, c, j);
        var h :| 0 <= h < j && Overlap(lex, signals[c[h]], signals[c[j]]);
        assert d[h] == c[h] && d[j] == c[j];
      } else {
        assert d[i] == c[i] && d[j] == x;
      }
    }
  }

  lemma OpenKeeps(lex: Lexicon, signals: seq<Signal>, n: nat, clusters: seq<Cluster>)
    requires n < |signals| && Clustering(lex, signals, n, clusters)
    requires forall l :: 0 <= l < |clusters| ==> !Fits(lex, signals, clusters[l], n)
    ensures Clustering(lex, signals, n + 1, clusters + [[n]])
  {
    hide Overlap;
    var cs := clusters + [[n]];
    MemberAfterOpen(clusters, n);
    forall x | 0 <= x < n + 1 ensures Placed(cs, x) {
      if x < n {
        assert Placed(clusters, x);
        var l :| Member(clusters, l, x);
        assert Member(cs, l, x);
      } else {
        assert Member(cs, |clusters|, n);
      }
    }
    forall x, m, l | Member(cs, m, x) && 0 <= l < m ensures !Fits(lex, signals, cs[l], x) {
      if x < n {
        assert Member(clusters, m, x);
      }
    }
  }

  /** Greedy clustering, carrying the keyword set of each cluster along. */
  method ClusterSignals(lex: Lexicon, signals: seq<Signal>) returns (clusters: seq<Cluster>)
    ensures Clustering(lex, signals, |signals|, clusters)
  {
    hide Clustering, Fits, Ordered, Words;
    clusters := [];
    var words: seq<set<Keyword>> := [];
    NoClusters(lex, signals);
    for n := 0 to |signals|
      invariant Clustering(lex, signals, n, clusters)
      invariant WordsMatch(lex, signals, clusters, words)
    {
      var kws := Words(lex, signals[n]);
      var placed := false;
      ClusteringFacts(lex, signals, n, clusters);
      var k := 0;
      while k < |clusters| && !placed
        invariant 0 <= k <= |clusters|
        invariant forall l :: 0 <= l < k ==> !Fits(lex, signals, clusters[l], n)
        invariant placed ==> k < |clusters| && Fits(lex, signals, clusters[k], n)
        decreases |clusters| - k, if placed then 0 else 1
      {
        FitsIff(lex, signals, clusters[k], n);
        if words[k] * kws != {} && signals[clusters[k][0]].kind == signals[n].kind {
          placed := true;
        } else {
          k := k + 1;
        }
      }
      if placed {
        JoinKeeps(lex, signals, n, clusters, k);
        JoinWords(lex, signals, clusters, words, k, n);
        clusters := clusters[k := clusters[k] + [n]];
        words := words[k := words[k] + kws];
      } else {
        OpenKeeps(lex, signals, n, clusters);
        OpenWords(lex, signals, clusters, words, n);
        clusters := clusters + [[n]];
        words := words + [kws];
      }
    }
  }

  ghost predicate WordsMatch(lex: Lexicon, signals: seq<Signal>, clusters: seq<Cluster>, words: seq<set<Keyword>>) {
    InRange(clusters, |signals|) && |words| == |clusters|
    && forall k :: 0 <= k < |clusters| ==> words[k] == WordsOf(lex, signals, clusters[k])
  }

  lemma NoClusters(lex: Lexicon, signals: seq<Signal>)
    ensures Clustering(lex, signals, 0, []) && WordsMatch(lex, signals, [], [])
  {}

  lemma ClusteringFacts(lex: Lexicon, signals: seq<Signal>, n: nat, clusters: seq<Cluster>)
    requires n <= |signals| && Clustering(lex, signals, n, clusters)
    ensures InRange(clusters, n)
    ensures forall k :: 0 <= k < |clusters| ==> Ordered(clusters[k]) && clusters[k] != []
  {}

  lemma JoinWords(lex: Lexicon, signals: seq<Signal>, clusters: seq<Cluster>, words: seq<set<Keyword>>, k: nat, x: nat)
    requires WordsMatch(lex, signals, clusters, words) && k < |clusters| && x < |signals|
    ensures WordsMatch(lex, signals, clusters[k := clusters[k] + [x]], words[k := words[k] + Words(lex, signals[x])])
  {
    var c, d := clusters[k], clusters[k] + [x];
    forall w ensures w in WordsOf(lex, signals, d) <==> w in WordsOf(lex, signals, c) || w in Words(lex, signals[x]) {
      if w in WordsOf(lex, signals, c) {
        var i :| 0 <= i < |c| && w in Words(lex, signals[c[i]]);
        assert d[i] == c[i];
      }
      assert d[|c|] == x;
    }
  }

  lemma OpenWords(lex: Lexicon, signals: seq<Signal>, clusters: seq<Cluster>, words: seq<set<Keyword>>, x: nat)
    requires WordsMatch(lex, signals, clusters, words) && x < |signals|
    ensures WordsMatch(lex, signals, clusters + [[x]], words + [Words(lex, signals[x])])
  {
    var c: Cluster := [x];
    forall w ensures w in WordsOf(lex, signals, c) <==> w in Words(lex, signals[x]) {
      assert c[0] == x;
    }
  }

  // ----- The clustering is determined -----

  ghost predicate AgreeBelow(a: seq<Cluster>, b: seq<Cluster>, x: nat) {
    forall y, k :: 0 <= y < x ==> (Member(a, k, y) <==> Member(b, k, y))
  }

  // Given agreement so far, x fits the cluster of b at the place where a puts it, if that
  // cluster was open by then.
  lemma FitsThere(lex: Lexicon, signals: seq<Signal>, n: nat, a: seq<Cluster>, b: seq<Cluster>, x: nat, k: nat)
    requires n <= |signals| && Clustering(lex, signals, n, a) && Clustering(lex, signals, n, b)
    requires x < n && AgreeBelow(a, b, x) && Member(a, k, x) && k < |b| && b[k][0] < x
    ensures Fits(lex, signals, b[k], x)
  {
    hide Fits;
    var j :| 0 <= j < |a[k]| && a[k][j] == x;
    var y := b[k][0];
    assert Member(b, k, y);
    assert Member(a, k, y);
    assert j > 0;
    assert LinkedBack(lex, signals, a[k], j);
    var i :| 0 <= i < j && Overlap(lex, signals[a[k][i]], signals[a[k][j]]);
    var z := a[k][i];
    assert Member(a, k, z) && z < x;
    assert Member(b, k, z);
    assert signals[y].kind == signals[a[k][0]].kind == signals[x].kind;
    FitsBy(lex, signals, b[k], x, z);
  }

  lemma FitsBy(lex: Lexicon, signals: seq<Signal>, c: Cluster, x: nat, z: nat)
    requires x < |signals| && c != [] && forall i :: 0 <= i < |c| ==> c[i] < |signals|
    requires signals[c[0]].kind == signals[x].kind && z in c && z < x && Overlap(lex, signals[z], signals[x])
    ensures Fits(lex, signals, c, x)
  {
    var i :| 0 <= i < |c| && c[i] == z;
  }

  // So b cannot place x in a later cluster than a does.
  lemma NotLater(lex: Lexicon, signals: seq<Signal>, n: nat, a: seq<Cluster>, b: seq<Cluster>, x: nat, k: nat, l: nat)
    requires n <= |signals| && Clustering(lex, signals, n, a) && Clustering(lex, signals, n, b)
    requires x < n && AgreeBelow(a, b, x) && Member(a, k, x) && Member(b, l, x)
    ensures l <= k
  {
    hide Fits, Overlap, LinkedBack, AgreeBelow;
    assert k < l ==> b[k][0] < b[l][0] <= x;
    if k < l {
      FitsThere(lex, signals, n, a, b, x, k);
    }
  }

  lemma {:induction false} ClusteringsAgree(
    lex: Lexicon, signals: seq<Signal>, n: nat, a: seq<Cluster>, b: seq<Cluster>, x: nat)
    requires x <= n <= |signals| && Clustering(lex, signals, n, a) && Clustering(lex, signals, n, b)
    ensures AgreeBelow(a, b, x)
    decreases x
  {
    hide Clustering;
    if x == 0 {
    } else {
      var y := x - 1;
      ClusteringsAgree(lex, signals, n, a, b, y);
      var k := PlaceOf(lex, signals, n, a, y);
      var l := PlaceOf(lex, signals, n, b, y);
      NotLater(lex, signals, n, a, b, y, k, l);
      NotLater(lex, signals, n, b, a, y, l, k);
    }
  }

  lemma PlaceOf(lex: Lexicon, signals: seq<Signal>, n: nat, a: seq<Cluster>, x: nat) returns (k: nat)
    requires n <= |signals| && Clustering(lex, signals, n, a) && x < n
    ensures k < |a| && forall l :: Member(a, l, x) <==> l == k
  {
    assert Placed(a, x);
    k :| Member(a, k, x);
  }

  /** The laws of `Clustering` leave one clustering only: signal by signal, any two have the
      same members in the same places. */
  lemma ClusteringIsUnique(lex: Lexicon, signals: seq<Signal>, a: seq<Cluster>, b: seq<Cluster>)
    requires Clustering(lex, signals, |signals|, a) && Clustering(lex, signals, |signals|, b)
    ensures forall k, x :: Member(a, k, x) <==> Member(b, k, x)
  {
    ClusteringsAgree(lex, signals, |signals|, a, b, |signals|);
    forall k, x ensures Member(a, k, x) <==> Member(b, k, x) {
    }
  }

  // ----- Intents -----

  datatype Intent = Intent(
    kind: nat, reusable: bool, sources: Cluster, patternCount: nat, sessions: nat, bestConfidence: int)

  datatype StageResult = StageResult(intents: seq<Intent>, discarded: nat, patterns: nat)

  function Texts(signals: seq<Signal>, c: Cluster): seq<Text>
    requires forall i :: 0 <= i < |c| ==> c[i] < |signals|
  {
    seq(|c|, i requires 0 <= i < |c| => signals[c[i]].text)
  }

  function Sessions(signals: seq<Signal>, c: Cluster): set<nat>
    requires forall i :: 0 <= i < |c| ==> c[i] < |signals|
  {
    set i | 0 <= i < |c| :: signals[c[i]].session
  }

  function BestConfidence(signals: seq<Signal>, c: Cluster): (best: int)
    requires c != [] && forall i :: 0 <= i < |c| ==> c[i] < |signals|
    ensures forall i :: 0 <= i < |c| ==> signals[c[i]].confidence <= best
    ensures exists i :: 0 <= i < |c| && signals[c[i]].confidence == best
  {
    var last := signals[c[|c|-1]].confidence;
    if |c| == 1 then last
    else
      var rest := BestConfidence(signals, c[..|c|-1]);
      assert forall i :: 0 <= i < |c| - 1 ==> c[..|c|-1][i] == c[i];
      if last > rest then last else rest
  }

  function Induce(lex: Lexicon, signals: seq<Signal>, c: Cluster): Intent
    requires c != [] && forall i :: 0 <= i < |c| ==> c[i] < |signals|
  {
    Intent(
      signals[c[0]].kind, !lex.oneTime(Texts(signals, c)), c, |c|, |Sessions(signals, c)|, BestConfidence(signals, c))
  }

  // Sum of the sizes of the clusters that pass a test.
  function TotalSize(keep: Cluster -> bool, cs: seq<Cluster>): nat {
    if cs == [] then 0
    else TotalSize(keep, cs[..|cs|-1]) + if keep(cs[|cs|-1]) then |cs[|cs|-1]| else 0
  }

  function TotalPatterns(intents: seq<Intent>): nat {
    if intents == [] then 0 else TotalPatterns(intents[..|intents|-1]) + intents[|intents|-1].patternCount
  }

  function All(): Cluster -> bool {
    (c: Cluster) => true
  }

  // The clusters whose intent goes on to the next stage.
  ghost function Kept(lex: Lexicon, signals: seq<Signal>, discardOneTime: bool): Cluster -> bool {
    (c: Cluster) =>
      (c != [] && forall i :: 0 <= i < |c| ==> c[i] < |signals|)
      && (Induce(lex, signals, c).reusable || !discardOneTime)
  }

  ghost function Dropped(lex: Lexicon, signals: seq<Signal>, discardOneTime: bool): Cluster -> bool {
    (c: Cluster) => !Kept(lex, signals, discardOneTime)(c)
  }

  /** The stage: every cluster is either turned into a kept intent or discarded, and
      the signals behind the kept intents and the discarded clusters are all the
      signals. */
  method RunStage(
    lex: Lexicon, signals: seq<Signal>, discardOneTime: bool)
    returns (r: StageResult, clusters: seq<Cluster>)
    ensures Clustering(lex, signals, |signals|, clusters)
    ensures |r.intents| + r.discarded == |clusters|
    ensures TotalPatterns(r.intents) == TotalSize(Kept(lex, signals, discardOneTime), clusters)
    ensures TotalPatterns(r.intents) + TotalSize(Dropped(lex, signals, discardOneTime), clusters) == |signals|
    ensures IntentsOf(lex, signals, Filter(Kept(lex, signals, discardOneTime), clusters), r.intents)
    ensures r.patterns == |Filter(Recurring(), clusters)|
    ensures SourcesOf(r.intents) == if discardOneTime then Filter(IsReusable(lex, signals), clusters) else clusters
    ensures forall i :: 0 <= i < |r.intents| ==> Describes(lex, signals, r.intents[i])
  {
    hide *;
    clusters := ClusterSignals(lex, signals);
    ClusteringFacts(lex, signals, |signals|, clusters);
    InRangeMembers(clusters, |signals|);
    r := StageResult([], 0, 0);
    ghost var kept, dropped := Kept(lex, signals, discardOneTime), Dropped(lex, signals, discardOneTime);
    NothingSummed(kept);
    NoIntents(lex, signals);
    for k := 0 to |clusters|
      invariant |r.intents| + r.discarded == k
      invariant TotalPatterns(r.intents) == TotalSize(kept, clusters[..k])
      invariant IntentsOf(lex, signals, Filter(kept, clusters[..k]), r.intents)
      invariant r.patterns == |Filter(Recurring(), clusters[..k])|
    {
      var intent := Induce(lex, signals, clusters[k]);
      SumStep(lex, signals, discardOneTime, clusters, k, r.intents);
      AnIntent(lex, signals, clusters[k]);
      IntentStep(lex, signals, kept, clusters, k, r.intents, intent);
      FilterStep(Recurring(), clusters, k);
      RecurringIff(lex, signals, clusters[k]);
      if intent.patternCount > 1 {
        r := r.(patterns := r.patterns + 1);
      }
      if !intent.reusable && discardOneTime {
        r := r.(discarded := r.discarded + 1);
      } else {
        r := r.(intents := r.intents + [intent]);
      }
    }
    assert clusters[..|clusters|] == clusters;
    KeptOrDropped(lex, signals, discardOneTime);
    SizesSplit(kept, dropped, clusters);
    SizesCoverInput(lex, signals, clusters);
    KeptSources(lex, signals, discardOneTime, clusters, r.intents);
  }

  function SourcesOf(intents: seq<Intent>): seq<Cluster> {
    seq(|intents|, i requires 0 <= i < |intents| => intents[i].sources)
  }

  // The texts behind the cluster are not about one occasion only.
  ghost function IsReusable(lex: Lexicon, signals: seq<Signal>): Cluster -> bool {
    (c: Cluster) => exists texts: seq<Text> :: TextsAre(signals, c, texts) && !lex.oneTime(texts)
  }

  ghost predicate TextsAre(signals: seq<Signal>, c: Cluster, texts: seq<Text>) {
    |texts| == |c| && forall i :: 0 <= i < |c| ==> c[i] < |signals| && texts[i] == signals[c[i]].text
  }

  // An intent read off its sources.
  ghost predicate Describes(lex: Lexicon, signals: seq<Signal>, intent: Intent) {
    var c := intent.sources;
    && c != [] && (forall i :: 0 <= i < |c| ==> c[i] < |signals| && signals[c[i]].kind == intent.kind)
    && (intent.reusable <==> IsReusable(lex, signals)(c)) && intent.patternCount == |c|
    && intent.sessions == |set i | 0 <= i < |c| :: signals[c[i]].session|
    && (forall i :: 0 <= i < |c| ==> signals[c[i]].confidence <= intent.bestConfidence)
    && (exists i :: 0 <= i < |c| && signals[c[i]].confidence == intent.bestConfidence)
  }

  lemma ReusableIff(lex: Lexicon, signals: seq<Signal>, c: Cluster)
    requires c != [] && forall i :: 0 <= i < |c| ==> c[i] < |signals|
    ensures Induce(lex, signals, c).reusable <==> IsReusable(lex, signals)(c)
  {
    assert TextsAre(signals, c, Texts(signals, c));
    forall texts | TextsAre(signals, c, texts) ensures texts == Texts(signals, c) {}
  }

  lemma InducedDescribes(lex: Lexicon, signals: seq<Signal>, c: Cluster)
    requires c != [] && (forall i :: 0 <= i < |c| ==> c[i] < |signals|) && Connected(lex, signals, c)
    ensures Describes(lex, signals, Induce(lex, signals, c))
  {
    ReusableIff(lex, signals, c);
  }

  // The kept intents, without saying how they are induced.
  lemma KeptSources(
    lex: Lexicon, signals: seq<Signal>, discardOneTime: bool, clusters: seq<Cluster>, intents: seq<Intent>)
    requires Clustering(lex, signals, |signals|, clusters)
    requires IntentsOf(lex, signals, Filter(Kept(lex, signals, discardOneTime), clusters), intents)
    ensures SourcesOf(intents) == if discardOneTime then Filter(IsReusable(lex, signals), clusters) else clusters
    ensures forall i :: 0 <= i < |intents| ==> Describes(lex, signals, intents[i])
  {
    hide Filter, Fits, Placed, Member, Induce, IsReusable;
    ClusteringFacts(lex, signals, |signals|, clusters);
    var kept := Kept(lex, signals, discardOneTime);
    var cs := Filter(kept, clusters);
    FilterMembers(kept, clusters);
    forall c | c in clusters
      ensures c != [] && (forall i :: 0 <= i < |c| ==> c[i] < |signals|) && Connected(lex, signals, c)
    {
      var k :| 0 <= k < |clusters| && clusters[k] == c;
    }
    forall c | c in clusters ensures kept(c) <==> !discardOneTime || IsReusable(lex, signals)(c) {
      ReusableIff(lex, signals, c);
    }
    if discardOneTime {
      FilterAgree(kept, IsReusable(lex, signals), clusters);
    } else {
      FilterAllIff(kept, clusters);
    }
    forall i | 0 <= i < |intents| ensures intents[i].sources == cs[i] && Describes(lex, signals, intents[i]) {
      assert cs[i] in cs && IntentOf(lex, signals, cs[i], intents[i]);
      InducedDescribes(lex, signals, cs[i]);
      InducedSources(lex, signals, cs[i]);
    }
    assert SourcesOf(intents) == cs;
  }

  lemma InducedSources(lex: Lexicon, signals: seq<Signal>, c: Cluster)
    requires c != [] && forall i :: 0 <= i < |c| ==> c[i] < |signals|
    ensures Induce(lex, signals, c).sources == c
  {}

  // Seen more than once.
  function Recurring(): Cluster -> bool {
    (c: Cluster) => |c| > 1
  }

  lemma RecurringIff(lex: Lexicon, signals: seq<Signal>, c: Cluster)
    requires c != [] && forall i :: 0 <= i < |c| ==> c[i] < |signals|
    ensures Recurring()(c) <==> Induce(lex, signals, c).patternCount > 1
  {}

  ghost predicate IntentOf(lex: Lexicon, signals: seq<Signal>, c: Cluster, intent: Intent) {
    c != [] && (forall i :: 0 <= i < |c| ==> c[i] < |signals|) && intent == Induce(lex, signals, c)
  }

  lemma AnIntent(lex: Lexicon, signals: seq<Signal>, c: Cluster)
    requires c != [] && forall i :: 0 <= i < |c| ==> c[i] < |signals|
    ensures IntentOf(lex, signals, c, Induce(lex, signals, c))
  {}

  // One intent per cluster, in order.
  ghost predicate IntentsOf(lex: Lexicon, signals: seq<Signal>, cs: seq<Cluster>, intents: seq<Intent>) {
    |cs| == |intents| && forall i :: 0 <= i < |cs| ==> IntentOf(lex, signals, cs[i], intents[i])
  }

  lemma InRangeMembers(clusters: seq<Cluster>, n: nat)
    requires InRange(clusters, n)
    ensures forall k, i :: 0 <= k < |clusters| && 0 <= i < |clusters[k]| ==> clusters[k][i] < n
  {}

  lemma NothingSummed(keep: Cluster -> bool)
    ensures TotalSize(keep, []) == 0 && TotalPatterns([]) == 0
    ensures Filter(keep, []) == [] && Filter(Recurring(), []) == []
  {}

  lemma NoIntents(lex: Lexicon, signals: seq<Signal>)
    ensures IntentsOf(lex, signals, [], [])
  {}

  lemma KeptOrDropped(lex: Lexicon, signals: seq<Signal>, discardOneTime: bool)
    ensures forall c :: Kept(lex, signals, discardOneTime)(c) == !Dropped(lex, signals, discardOneTime)(c)
  {}

  lemma IntentStep(
    lex: Lexicon, signals: seq<Signal>, kept: Cluster -> bool, clusters: seq<Cluster>, k: nat,
    intents: seq<Intent>, intent: Intent)
    requires k < |clusters| && IntentOf(lex, signals, clusters[k], intent)
    requires IntentsOf(lex, signals, Filter(kept, clusters[..k]), intents)
    ensures IntentsOf(
      lex, signals, Filter(kept, clusters[..k+1]), if kept(clusters[k]) then intents + [intent] else intents)
  {
    hide IntentOf;
    FilterStep(kept, clusters, k);
  }

  lemma SumStep(
    lex: Lexicon, signals: seq<Signal>, discardOneTime: bool, clusters: seq<Cluster>, k: nat,
    intents: seq<Intent>)
    requires k < |clusters| && clusters[k] != [] && forall i :: 0 <= i < |clusters[k]| ==> clusters[k][i] < |signals|
    ensures var kept, intent := Kept(lex, signals, discardOneTime), Induce(lex, signals, clusters[k]);
      && kept(clusters[k]) == (intent.reusable || !discardOneTime)
      && TotalSize(kept, clusters[..k+1]) ==
           TotalSize(kept, clusters[..k]) + (if kept(clusters[k]) then intent.patternCount else 0)
      && TotalPatterns(intents + [intent]) == TotalPatterns(intents) + intent.patternCount
  {
    assert clusters[..k+1][..k] == clusters[..k];
    assert (intents + [Induce(lex, signals, clusters[k])])[..|intents|] == intents;
  }

  lemma {:induction false} SizesSplit(p: Cluster -> bool, q: Cluster -> bool, cs: seq<Cluster>)
    requires forall c :: p(c) == !q(c)
    ensures TotalSize(p, cs) + TotalSize(q, cs) == TotalSize(All(), cs)
  {
    if cs == [] {
    } else {
      SizesSplit(p, q, cs[..|cs|-1]);
    }
  }

  /** Conservation: the cluster sizes add up to the number of signals. */
  lemma SizesCoverInput(lex: Lexicon, signals: seq<Signal>, clusters: seq<Cluster>)
    requires Clustering(lex, signals, |signals|, clusters)
    ensures TotalSize(All(), clusters) == |signals|
  {
    var members := Upto(|signals|);
    SizeIsMembers(lex, signals, clusters, |clusters|);
    assert clusters[..|clusters|] == clusters;
    assert members == MembersBelow(clusters, |signals|, |clusters|) by {
      forall x | x in members ensures x in MembersBelow(clusters, |signals|, |clusters|) {
        assert Placed(clusters, x);
        var k :| Member(clusters, k, x);
      }
    }
  }

  ghost function Upto(n: nat): (r: set<nat>)
    ensures |r| == n && forall x :: x in r <==> 0 <= x < n
  {
    if n == 0 then {} else Upto(n - 1) + {n - 1}
  }

  ghost predicate InFirst(clusters: seq<Cluster>, m: nat, x: int) {
    exists k :: k < m && Member(clusters, k, x)
  }

  // The signals of the first m clusters.
  ghost function MembersBelow(clusters: seq<Cluster>, n: nat, m: nat): set<nat> {
    set x | x in Upto(n) && InFirst(clusters, m, x)
  }

  ghost function Elements(c: Cluster): set<nat> {
    set x | x in c
  }

  lemma {:induction false} OrderedSize(c: Cluster)
    requires forall i, j :: 0 <= i < j < |c| ==> c[i] < c[j]
    ensures |Elements(c)| == |c|
  {
    if c == [] {
    } else {
      var init := c[..|c|-1];
      OrderedSize(init);
      assert c == init + [c[|c|-1]];
      assert Elements(c) == Elements(init) + {c[|c|-1]};
    }
  }

  lemma NoMembersYet(clusters: seq<Cluster>, n: nat)
    ensures MembersBelow(clusters, n, 0) == {}
  {
    forall x: nat ensures !InFirst(clusters, 0, x) {}
  }

  lemma {:induction false} SizeIsMembers(lex: Lexicon, signals: seq<Signal>, clusters: seq<Cluster>, m: nat)
    requires Clustering(lex, signals, |signals|, clusters) && m <= |clusters|
    ensures TotalSize(All(), clusters[..m]) == |MembersBelow(clusters, |signals|, m)|
    decreases m
  {
    hide Clustering, Connected, Fits, Placed, InFirst;
    var n := |signals|;
    if m == 0 {
      NoMembersYet(clusters, n);
    } else {
      SizeIsMembers(lex, signals, clusters, m - 1);
      assert clusters[..m][..m-1] == clusters[..m-1];
      ClusteringFacts(lex, signals, n, clusters);
      OrderedSize(clusters[m-1]);
      OneMoreCluster(lex, signals, clusters, m - 1);
    }
  }

  lemma OneMoreCluster(lex: Lexicon, signals: seq<Signal>, clusters: seq<Cluster>, m: nat)
    requires Clustering(lex, signals, |signals|, clusters) && m < |clusters|
    ensures var a, b := MembersBelow(clusters, |signals|, m), Elements(clusters[m]);
      MembersBelow(clusters, |signals|, m + 1) == a + b && a !! b
  {
    var n := |signals|;
    var a, b := MembersBelow(clusters, n, m), Elements(clusters[m]);
    forall x ensures x in b <==> Member(clusters, m, x) {}
    forall x | x in MembersBelow(clusters, n, m + 1) ensures x in a + b {
      var k :| k < m + 1 && Member(clusters, k, x);
    }
    forall x | x in b ensures x in MembersBelow(clusters, n, m + 1) && x !in a {
      assert Member(clusters, m, x);
    }
  }
}
