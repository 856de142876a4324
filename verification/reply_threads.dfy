/** Events ordered by time, with ties kept in file order. */
module TimeOrder {
  import opened Collections
  import opened CommTypes

  ghost predicate Sorted(es: seq<Event>) {
    forall i, j :: 0 <= i < j < |es| ==> es[i].time <= es[j].time
  }

  function Insert(e: Event, es: seq<Event>): (r: seq<Event>)
    ensures |r| == |es| + 1
    ensures r[0] == if es == [] || e.time <= es[0].time then e else es[0]
  {
    if es == [] || e.time <= es[0].time then [e] + es
    else [es[0]] + Insert(e, es[1..])
  }

  /** The library's stable sort on timestamps. */
  function SortByTime(es: seq<Event>): (r: seq<Event>)
    ensures |r| == |es|
  {
    if es == [] then [] else Insert(es[0], SortByTime(es[1..]))
  }

  lemma {:induction false} InsertAdds(e: Event, es: seq<Event>)
    ensures multiset(Insert(e, es)) == multiset{e} + multiset(es)
  {
    if es == [] || e.time <= es[0].time {
    } else {
      var rest := Insert(e, es[1..]);
      InsertAdds(e, es[1..]);
      assert es == [es[0]] + es[1..];
      assert multiset([es[0]] + rest) == multiset{es[0]} + multiset(rest);
    }
  }

  lemma {:induction false} InsertKeepsSorted(e: Event, es: seq<Event>)
    requires Sorted(es)
    ensures Sorted(Insert(e, es))
  {
    if es == [] || e.time <= es[0].time {
    } else {
      InsertKeepsSorted(e, es[1..]);
      var rest := Insert(e, es[1..]);
      assert forall i :: 0 <= i < |rest| ==> rest[0].time <= rest[i].time;
    }
  }

  /** Sorting permutes and orders. */
  lemma {:induction false} SortIsSort(es: seq<Event>)
    ensures multiset(SortByTime(es)) == multiset(es)
    ensures Sorted(SortByTime(es))
    ensures forall e :: e in SortByTime(es) <==> e in es
  {
    if es == [] {
    } else {
      hide Insert, Sorted;
      SortIsSort(es[1..]);
      InsertAdds(es[0], SortByTime(es[1..]));
      InsertKeepsSorted(es[0], SortByTime(es[1..]));
      assert es == [es[0]] + es[1..];
    }
    SameMembers(SortByTime(es), es);
  }

  lemma SameMembers(a: seq<Event>, b: seq<Event>)
    requires multiset(a) == multiset(b)
    ensures forall e :: e in a <==> e in b
  {
    forall e ensures e in a <==> e in b {
      assert e in multiset(a) <==> e in multiset(b);
    }
  }

  lemma {:induction false} FilterInsert(keep: Event -> bool, e: Event, es: seq<Event>)
    requires Sorted(es)
    ensures Filter(keep, Insert(e, es)) == if keep(e) then Insert(e, Filter(keep, es)) else Filter(keep, es)
  {
    if es == [] || e.time <= es[0].time {
      InsertBeforeAll(keep, e, es);
      FilterCons(keep, e, es);
    } else {
      var x, tail := es[0], es[1..];
      assert es == [x] + tail;
      FilterInsert(keep, e, tail);
      FilterCons(keep, x, tail);
      FilterCons(keep, x, Insert(e, tail));
      if keep(x) {
        InsertPast(x, e, Filter(keep, tail));
      }
    }
  }

  lemma InsertPast(x: Event, e: Event, es: seq<Event>)
    requires x.time < e.time
    ensures Insert(e, [x] + es) == [x] + Insert(e, es)
  {
    assert ([x] + es)[1..] == es;
  }

  lemma InsertBeforeAll(keep: Event -> bool, e: Event, es: seq<Event>)
    requires Sorted(es) && (es == [] || e.time <= es[0].time)
    ensures Insert(e, Filter(keep, es)) == [e] + Filter(keep, es)
  {
    var kept := Filter(keep, es);
    FilterMembers(keep, es);
    if kept != [] {
      assert kept[0] in es;
    }
  }

  /** Selecting before or after a stable sort is the same. */
  lemma {:induction false} FilterCommutesWithSort(keep: Event -> bool, es: seq<Event>)
    ensures Filter(keep, SortByTime(es)) == SortByTime(Filter(keep, es))
  {
    if es == [] {
    } else {
      var x, tail := es[0], es[1..];
      assert es == [x] + tail;
      FilterCommutesWithSort(keep, tail);
      SortIsSort(tail);
      FilterInsert(keep, x, SortByTime(tail));
      FilterCons(keep, x, tail);
      if keep(x) {
        SortCons(x, Filter(keep, tail));
      }
    }
  }

  lemma SortCons(x: Event, es: seq<Event>)
    ensures SortByTime([x] + es) == Insert(x, SortByTime(es))
  {
    assert ([x] + es)[1..] == es;
  }

  /** The first of the earliest events, in file order. */
  function Earliest(es: seq<Event>): (r: Event)
    requires es != []
    ensures r in es && forall e :: e in es ==> r.time <= e.time
  {
    if |es| == 1 then es[0] else
      var r := Earliest(es[1..]);
      if es[0].time <= r.time then es[0] else r
  }

  lemma {:induction false} HeadOfSort(es: seq<Event>)
    requires es != []
    ensures SortByTime(es) != [] && SortByTime(es)[0] == Earliest(es)
  {
    if |es| == 1 {
      assert SortByTime(es[1..]) == [];
    } else {
      HeadOfSort(es[1..]);
    }
  }

  /** Later log entries displace the earliest one only by being strictly earlier. */
  lemma {:induction false} EarliestOfConcat(a: seq<Event>, b: seq<Event>)
    requires a != []
    ensures Earliest(a + b) == if b != [] && Earliest(b).time < Earliest(a).time then Earliest(b) else Earliest(a)
  {
    if |a| == 1 {
      if b != [] {
        assert (a + b)[1..] == b;
      } else {
        assert a + b == a;
      }
    } else {
      assert (a + b)[1..] == a[1..] + b;
      EarliestOfConcat(a[1..], b);
    }
  }
}

/** Reply links of a log: what the up-and-down walk of `load_thread` collects,
    and exactly when that is the whole thread. */
module ReplyThreads {
  import opened Collections
  import opened CommTypes

  type Index = map<Id, Event>

  /** Index by id; a later duplicate wins. */
  function ById(es: seq<Event>): (r: Index)
    ensures forall id :: id in r ==> r[id] in es && r[id].id == id
    ensures forall e :: e in es ==> e.id in r
  {
    if es == [] then map[] else
      var e := es[|es|-1];
      assert forall x :: x in es ==> x in es[..|es|-1] || x == e;
      ById(es[..|es|-1])[e.id := e]
  }

  lemma ByIdFinds(es: seq<Event>, e: Event)
    requires UniqueIds(es) && e in es
    ensures e.id in ById(es) && ById(es)[e.id] == e
  {
    var f := ById(es)[e.id];
    var i :| 0 <= i < |es| && es[i] == e;
    var j :| 0 <= j < |es| && es[j] == f;
  }

  // The logged event this one answers, if any.
  function Parent(ix: Index, id: Id): (r: Option<Id>)
    ensures r.Some? ==> r.value in ix
  {
    if id in ix && ix[id].inReplyTo.Some? && ix[id].inReplyTo.value in ix then ix[id].inReplyTo else None
  }

  // The n-th predecessor along the reply links.
  ghost function Up(ix: Index, id: Id, n: nat): Option<Id> {
    if n == 0 then Some(id)
    else match Up(ix, id, n - 1)
      case None => None
      case Some(p) => Parent(ix, p)
  }

  ghost predicate IsAncestor(ix: Index, a: Id, id: Id) {
    exists n: nat :: n > 0 && Up(ix, id, n) == Some(a)
  }

  ghost predicate Acyclic(ix: Index) {
    forall id :: id in ix ==> !IsAncestor(ix, id, id)
  }

  // The event and all it transitively answers.
  ghost function Line(ix: Index, root: Id): set<Id>
    requires root in ix
  {
    set id | id in ix && (id == root || IsAncestor(ix, id, root))
  }

  // Reached downwards from the root without passing the line.
  ghost predicate Below(ix: Index, line: set<Id>, root: Id, id: Id, n: nat)
    decreases n
  {
    id in ix && id !in line && Parent(ix, id).Some? &&
    var p := Parent(ix, id).value;
    if n == 0 then p == root else Below(ix, line, root, p, n - 1)
  }

  ghost predicate Gathered(ix: Index, line: set<Id>, root: Id, id: Id) {
    id in line || exists n: nat :: Below(ix, line, root, id, n)
  }

  // What `load_thread` returns.
  ghost predicate Collected(ix: Index, root: Id, id: Id)
    requires root in ix
  {
    Gathered(ix, Line(ix, root), root, id)
  }

  // The thread as the documentation describes it: predecessors and replies.
  ghost predicate InThread(ix: Index, root: Id, id: Id) {
    id in ix && (id == root || IsAncestor(ix, id, root) || IsAncestor(ix, root, id))
  }

  // The root sits on a reply cycle, and someone outside the cycle answers
  // another member of it.
  ghost predicate SideBranchOnCycle(ix: Index, root: Id)
    requires root in ix
  {
    IsAncestor(ix, root, root) &&
    exists id :: id in ix && id !in Line(ix, root) && Parent(ix, id).Some?
      && Parent(ix, id).value != root && Parent(ix, id).value in Line(ix, root)
  }

  lemma {:induction false} UpAdds(ix: Index, id: Id, m: nat, n: nat)
    ensures Up(ix, id, m + n) == match Up(ix, id, m) case None => None case Some(x) => Up(ix, x, n)
  {
    if n == 0 {
    } else {
      UpAdds(ix, id, m, n - 1);
    }
  }

  lemma AncestorsChain(ix: Index, a: Id, b: Id, c: Id)
    requires IsAncestor(ix, a, b) && IsAncestor(ix, b, c)
    ensures IsAncestor(ix, a, c)
  {
    var m: nat :| m > 0 && Up(ix, b, m) == Some(a);
    var n: nat :| n > 0 && Up(ix, c, n) == Some(b);
    UpAdds(ix, c, n, m);
  }

  lemma ParentIsAncestor(ix: Index, id: Id)
    requires Parent(ix, id).Some?
    ensures IsAncestor(ix, Parent(ix, id).value, id)
  {
    assert Up(ix, id, 0) == Some(id);
    assert Up(ix, id, 1) == Parent(ix, id);
  }

  lemma LineIsClosed(ix: Index, root: Id, id: Id)
    requires root in ix && id in Line(ix, root) && Parent(ix, id).Some?
    ensures Parent(ix, id).value in Line(ix, root)
  {
    ParentIsAncestor(ix, id);
    if id != root {
      AncestorsChain(ix, Parent(ix, id).value, id, root);
    }
  }

  /** A set that holds the root and every parent of its members holds the line. */
  lemma LineIsLeast(ix: Index, root: Id, closed: set<Id>)
    requires root in ix && root in closed
    requires forall x :: x in closed && Parent(ix, x).Some? ==> Parent(ix, x).value in closed
    ensures Line(ix, root) <= closed
  {
    forall id | id in Line(ix, root) ensures id in closed {
      if id != root {
        var n: nat :| n > 0 && Up(ix, root, n) == Some(id);
        UpStays(ix, root, closed, n);
      }
    }
  }

  lemma {:induction false} UpStays(ix: Index, root: Id, closed: set<Id>, n: nat)
    requires root in closed
    requires forall x :: x in closed && Parent(ix, x).Some? ==> Parent(ix, x).value in closed
    ensures Up(ix, root, n).Some? ==> Up(ix, root, n).value in closed
  {
    if n == 0 {
    } else {
      UpStays(ix, root, closed, n - 1);
    }
  }

  /** A set closed under replies, off the line, holds everything below the root. */
  lemma {:induction false} BelowIsLeast(ix: Index, line: set<Id>, root: Id, closed: set<Id>, id: Id, n: nat)
    requires Below(ix, line, root, id, n)
    requires forall x, c ::
      (x == root || (x in closed && x !in line)) && c in ix && Parent(ix, c) == Some(x) ==> c in closed
    ensures id in closed
    decreases n
  {
    if n == 0 {
    } else {
      BelowIsLeast(ix, line, root, closed, Parent(ix, id).value, n - 1);
      assert Parent(ix, id).value !in line;
    }
  }

  lemma {:induction false} BelowIsDescendant(ix: Index, line: set<Id>, root: Id, id: Id, n: nat)
    requires Below(ix, line, root, id, n)
    ensures Up(ix, id, n + 1) == Some(root)
    decreases n
  {
    UpAdds(ix, id, 1, n);
    assert Up(ix, id, 0) == Some(id);
    assert Up(ix, id, 1) == Parent(ix, id);
    if n == 0 {
    } else {
      BelowIsDescendant(ix, line, root, Parent(ix, id).value, n - 1);
    }
  }

  lemma {:induction false} DescendantIsBelow(ix: Index, root: Id, id: Id, n: nat)
    requires root in ix && id in ix && id !in Line(ix, root)
    requires Up(ix, id, n + 1) == Some(root)
    requires !SideBranchOnCycle(ix, root)
    ensures Collected(ix, root, id)
    decreases n
  {
    var line := Line(ix, root);
    assert Up(ix, id, 0) == Some(id);
    assert Up(ix, id, 1) == Parent(ix, id);
    UpAdds(ix, id, 1, n);
    var p := Parent(ix, id).value;
    if p == root {
      assert Below(ix, line, root, id, 0);
    } else {
      assert n > 0;
      assert Up(ix, p, n) == Some(root);
      if p in line {
        assert IsAncestor(ix, root, p) && IsAncestor(ix, p, root);
        AncestorsChain(ix, root, p, root);
        assert false;
      }
      DescendantIsBelow(ix, root, p, n - 1);
      var k: nat :| Below(ix, line, root, p, k);
      assert Below(ix, line, root, id, k + 1);
    }
  }

  lemma {:induction false} AroundTheCycle(ix: Index, root: Id, len: nat, times: nat)
    requires Up(ix, root, len) == Some(root)
    ensures Up(ix, root, times * len) == Some(root)
  {
    if times == 0 {
    } else {
      AroundTheCycle(ix, root, len, times - 1);
      assert times * len == (times - 1) * len + len;
      UpAdds(ix, root, (times - 1) * len, len);
    }
  }

  /** On a cycle every member of the line is also below the root. */
  lemma CycleMembersDescend(ix: Index, root: Id, c: Id)
    requires IsAncestor(ix, root, root) && IsAncestor(ix, c, root)
    ensures IsAncestor(ix, root, c)
  {
    var len: nat :| len > 0 && Up(ix, root, len) == Some(root);
    var k: nat :| k > 0 && Up(ix, root, k) == Some(c);
    AroundTheCycle(ix, root, len, k + 1);
    assert (k + 1) * len == k * len + len && k * len >= k;
    var j: nat := (k + 1) * len - k;
    UpAdds(ix, root, k, j);
  }

  /** `load_thread` collects the documented thread exactly when no side branch
      hangs off a reply cycle through the root; on an acyclic log it always does. */
  lemma CollectedIsThreadIff(ix: Index, root: Id)
    requires root in ix
    ensures (forall id :: id in ix ==> (Collected(ix, root, id) <==> InThread(ix, root, id)))
       <==> !SideBranchOnCycle(ix, root)
    ensures Acyclic(ix) ==> !SideBranchOnCycle(ix, root)
  {
    if SideBranchOnCycle(ix, root) {
      var id :| id in ix && id !in Line(ix, root) && Parent(ix, id).Some?
        && Parent(ix, id).value != root && Parent(ix, id).value in Line(ix, root);
      CycleMembersDescend(ix, root, Parent(ix, id).value);
      ParentIsAncestor(ix, id);
      AncestorsChain(ix, root, Parent(ix, id).value, id);
      assert InThread(ix, root, id);
      assert forall n: nat :: !Below(ix, Line(ix, root), root, id, n);
    } else {
      forall id | id in ix ensures Collected(ix, root, id) <==> InThread(ix, root, id) {
        if Collected(ix, root, id) && id !in Line(ix, root) {
          var n: nat :| Below(ix, Line(ix, root), root, id, n);
          BelowIsDescendant(ix, Line(ix, root), root, id, n);
        }
        if InThread(ix, root, id) && id !in Line(ix, root) {
          var n: nat :| n > 0 && Up(ix, id, n) == Some(root);
          DescendantIsBelow(ix, root, id, n - 1);
        }
      }
    }
  }

  // Two events that answer each other, and a third that answers the second: asked
  // about the first, the walk up finds the second, and the walk down does not look
  // behind it again.
  lemma SideBranchIsMissed()
    ensures var ix := ById([PlainEvent(0, Ask, 7, 0, Some(1)), PlainEvent(1, Ask, 7, 1, Some(0)),
                            PlainEvent(2, Ask, 7, 2, Some(1))]);
      && 0 in ix && 2 in ix && SideBranchOnCycle(ix, 0)
      && InThread(ix, 0, 2) && !Collected(ix, 0, 2)
  {
    var a, b := PlainEvent(0, Ask, 7, 0, Some(1)), PlainEvent(1, Ask, 7, 1, Some(0));
    var c := PlainEvent(2, Ask, 7, 2, Some(1));
    var es := [a, b, c];
    var ix := ById(es);
    ByIdFinds(es, a);
    ByIdFinds(es, b);
    ByIdFinds(es, c);
    hide ById;
    BehindTheCycle(ix);
  }

  lemma BehindTheCycle(ix: Index)
    requires Parent(ix, 0) == Some(1) && Parent(ix, 1) == Some(0) && Parent(ix, 2) == Some(1)
    ensures SideBranchOnCycle(ix, 0) && InThread(ix, 0, 2) && !Collected(ix, 0, 2)
  {
    hide Up;
    ParentIsAncestor(ix, 0);
    ParentIsAncestor(ix, 1);
    ParentIsAncestor(ix, 2);
    AncestorsChain(ix, 0, 1, 0);
    AncestorsChain(ix, 0, 1, 2);
    forall n: nat ensures Up(ix, 0, n) != Some(2) {
      OnlyTheCycle(ix, n);
    }
    assert 2 !in Line(ix, 0) && 1 in Line(ix, 0);
    forall n: nat ensures !Below(ix, Line(ix, 0), 0, 2, n) {}
  }

  lemma {:induction false} OnlyTheCycle(ix: Index, n: nat)
    requires Parent(ix, 0) == Some(1) && Parent(ix, 1) == Some(0)
    ensures Up(ix, 0, n) == Some(if n % 2 == 0 then 0 else 1)
  {
    if n == 0 {
    } else {
      OnlyTheCycle(ix, n - 1);
    }
  }
}
