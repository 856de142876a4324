/** The append-only event log of one peer, its reply threads, and the
    per-peer conversation state (server/async_comm/conversation_log.py). */
module ConversationLogs {
  import opened Collections
  import opened CommTypes
  import opened TimeOrder
  import opened ReplyThreads

  datatype ConvState = Active | Paused | TimeoutDisconnect | Resumed
  datatype Reason = RealtimeActive | PeerOffline | SessionTimeout(seconds: nat) | ResumedFrom(state: ConvState)
  datatype Entry = Entry(state: ConvState, lastEvent: Option<Id>, reason: Reason, updatedAt: Time)
  type States = map<PeerId, Entry>

  // Writing an entry; the same state about the same event is left as it stands, reason
  // and stamp included.
  function Put(states: States, p: PeerId, s: ConvState, last: Option<Id>, reason: Reason, now: Time): States {
    if p in states && states[p].state == s && states[p].lastEvent == last then states
    else states[p := Entry(s, last, reason, now)]
  }

  predicate Resumable(s: ConvState) {
    s.Paused? || s.TimeoutDisconnect?
  }

  function Append(log: seq<Event>, e: Event): seq<Event> {
    if HasId(log, e.id) then log else log + [e]
  }

  /** An entry is written unless the peer's entry is about the same state and event
      already; then the older reason and stamp stand. */
  lemma PutIff(states: States, p: PeerId, s: ConvState, last: Option<Id>, reason: Reason, now: Time)
    ensures var after := Put(states, p, s, last, reason, now);
      && p in after && after.Keys == states.Keys + {p} && after[p].state == s && after[p].lastEvent == last
      && (forall q :: q in states && q != p ==> after[q] == states[q])
      && (p in states && states[p] == Entry(s, last, states[p].reason, states[p].updatedAt) ==> after == states)
      && (p !in states || states[p].state != s || states[p].lastEvent != last ==>
            after[p].reason == reason && after[p].updatedAt == now)
  {}

  function WithPeer(p: PeerId): Event -> bool {
    (e: Event) => e.peer == p
  }

  function LoadByPeer(log: seq<Event>, p: PeerId): seq<Event> {
    SortByTime(Filter(WithPeer(p), log))
  }

  // What `load_thread` may return: the collected events, each once, in time
  // order. Ties are left open, because the code sorts the elements of a set.
  ghost predicate IsThread(log: seq<Event>, root: Id, thread: seq<Event>) {
    if !HasId(log, root) then thread == []
    else
      && UniqueIds(thread) && Sorted(thread)
      && root in ById(log)
      && (forall e :: e in thread ==> e in log)
      && forall id :: HasId(thread, id) <==> Collected(ById(log), root, id)
  }

  lemma ThreadHasRoot(log: seq<Event>, root: Id, thread: seq<Event>)
    requires HasId(log, root) && IsThread(log, root, thread)
    ensures thread != [] && HasId(thread, root)
  {
    assert Collected(ById(log), root, root);
    assert HasId(thread, root);
  }

  lemma AppendLaws(log: seq<Event>, e: Event)
    ensures log <= Append(log, e)
    ensures UniqueIds(log) ==> UniqueIds(Append(log, e))
    ensures forall id :: HasId(Append(log, e), id) <==> HasId(log, id) || id == e.id
  {
    forall id ensures HasId(Append(log, e), id) <==> HasId(log, id) || id == e.id {
      if HasId(log, id) {
        assert Append(log, e)[Find(log, id)].id == id;
      }
      if !HasId(log, e.id) {
        assert Append(log, e)[|log|] == e;
      }
    }
  }

  class ConversationLog {
    var events: seq<Event>
    var states: States

    ghost predicate Valid()
      reads this
    {
      UniqueIds(events)
    }

    constructor ()
      ensures Valid() && events == [] && states == map[]
    {
      events, states := [], map[];
    }

    method Exists(id: Id) returns (r: bool)
      ensures r == HasId(events, id)
    {
      for i := 0 to |events|
        invariant forall j :: 0 <= j < i ==> events[j].id != id
      {
        if events[i].id == id {
          return true;
        }
      }
      r := false;
    }

    method AppendEvent(e: Event) returns (id: Id)
      modifies this`events
      ensures id == e.id && events == Append(old(events), e)
    {
      id := e.id;
      var known := Exists(e.id);
      if known {
        return;
      }
      events := events + [e];
    }

    /** All events with one peer, oldest first. */
    method LoadPeer(p: PeerId) returns (r: seq<Event>)
      ensures r == LoadByPeer(events, p)
    {
      var filtered := [];
      for i := 0 to |events|
        invariant filtered == Filter(WithPeer(p), events[..i])
      {
        FilterStep(WithPeer(p), events, i);
        if events[i].peer == p {
          filtered := filtered + [events[i]];
        }
      }
      assert events[..|events|] == events;
      r := SortByTime(filtered);
    }

    /** The reply thread of an event: up along the links to the last known
        predecessor, then down over a worklist. Terminates on every log, reply
        cycles included. */
    method LoadThread(root: Id) returns (thread: seq<Event>)
      requires Valid()
      ensures IsThread(events, root, thread)
    {
      var ix := ById(events);
      ByIdCovers(events);
      if root !in ix {
        return [];
      }
      var related := CollectUp(ix, root);
      related := CollectDown(ix, root, related);
      thread := InTimeOrder(ix, related);
      forall id ensures HasId(thread, id) <==> Collected(ix, root, id) {}
    }

    /** The upward walk gathers the line of the root. */
    method CollectUp(ix: Index, root: Id) returns (related: set<Id>)
      requires root in ix
      ensures related == Line(ix, root)
    {
      related := {root};
      var current := root;
      while true
        invariant root in related && current in related && related <= Line(ix, root)
        invariant forall x :: x in related && x != current && Parent(ix, x).Some? ==> Parent(ix, x).value in related
        decreases ix.Keys - related
      {
        var parent := ix[current].inReplyTo;
        if parent.None? || parent.value !in ix || parent.value in related {
          break;
        }
        LineIsClosed(ix, root, current);
        related := related + {parent.value};
        current := parent.value;
      }
      LineIsLeast(ix, root, related);
    }

    /** One pass over the log adds the replies to `current` not yet gathered. */
    method AddReplies(ix: Index, current: Id, related: set<Id>) returns (grown: set<Id>, found: seq<Id>)
      requires Valid() && ix == ById(events) && current in ix
      ensures forall id :: id in grown <==> id in related || IsReply(ix, id, current)
      ensures forall id :: id in found <==> id in grown && id !in related
    {
      hide ById, UniqueIds;
      grown, found := related, [];
      for i := 0 to |events|
        invariant forall id :: id in grown ==> id in related || IsReply(ix, id, current)
        invariant forall id :: id in found <==> id in grown && id !in related
        invariant related <= grown
        invariant forall j :: 0 <= j < i && events[j].inReplyTo == Some(current) ==> events[j].id in grown
      {
        var e := events[i];
        if e.inReplyTo == Some(current) && e.id !in grown {
          ByIdFinds(events, e);
          assert IsReply(ix, e.id, current);
          grown, found := grown + {e.id}, found + [e.id];
        }
      }
      forall id | IsReply(ix, id, current) ensures id in grown {
        var j :| 0 <= j < |events| && events[j] == ix[id];
      }
    }

    /** The worklist adds every reply below the root that is not on the line. */
    method CollectDown(ix: Index, root: Id, line: set<Id>) returns (related: set<Id>)
      requires Valid() && ix == ById(events) && root in line && line <= ix.Keys
      ensures forall id :: id in related <==> Gathered(ix, line, root, id)
    {
      related := line;
      var todo := [root];
      while todo != []
        invariant line <= related <= ix.Keys
        invariant DownInvariant(ix, line, root, related, todo)
        decreases ix.Keys - related, |todo|
      {
        var current := todo[|todo|-1];
        assert current in ix by {
          assert current in todo && Frontier(line, related, root, current);
        }
        var grown, found := AddReplies(ix, current, related);
        DownStep(ix, line, root, related, todo, grown, found);
        assert found == [] ==> grown == related;
        assert found != [] ==> found[0] in grown - related;
        related, todo := grown, todo[..|todo|-1] + found;
      }
      GatheredIsLeast(ix, line, root, related);
    }

    /** The events of a set of ids, sorted; the set is enumerated in any order. */
    method InTimeOrder(ix: Index, ids: set<Id>) returns (r: seq<Event>)
      requires ids <= ix.Keys && forall id :: id in ix ==> ix[id].id == id && ix[id] in events
      ensures UniqueIds(r) && Sorted(r)
      ensures forall e :: e in r ==> e in events
      ensures forall id :: HasId(r, id) <==> id in ids
    {
      r := [];
      var todo := ids;
      while todo != {}
        invariant todo <= ids
        invariant UniqueIds(r)
        invariant forall e :: e in r ==> e in events
        invariant forall id :: HasId(r, id) <==> id in ids && id !in todo
        decreases todo
      {
        var id :| id in todo;
        AppendLaws(r, ix[id]);
        assert !HasId(r, id);
        r := r + [ix[id]];
        todo := todo - {id};
      }
      SortKeepsIds(r);
      SortIsSort(r);
      r := SortByTime(r);
    }

    /** Records the state of the conversation with a peer; repeating it is a no-op, even
        for another reason and at another time. */
    method SetConversationState(p: PeerId, s: ConvState, last: Option<Id>, reason: Reason, now: Time)
      modifies this`states
      ensures states == Put(old(states), p, s, last, reason, now)
      ensures p in states && states[p].state == s && states[p].lastEvent == last
    {
      if p in states && states[p].state == s && states[p].lastEvent == last {
        return;
      }
      states := states[p := Entry(s, last, reason, now)];
    }

    method ClearConversationState(p: PeerId)
      modifies this`states
      ensures states == old(states) - {p}
    {
      if p in states {
        states := states - {p};
      } else {
        assert states - {p} == states;
      }
    }

    /** Resuming replays the thread of the last event and marks the entry
        resumed; without a recorded or surviving event it falls back to
        everything exchanged with the peer. */
    method ResumeConversation(p: PeerId, now: Time) returns (r: seq<Event>)
      requires Valid()
      modifies this`states
      ensures var was := old(states);
              if p !in was || !Resumable(was[p].state) then r == [] && states == was
              else
                && states == was[p := Entry(Resumed, was[p].lastEvent, ResumedFrom(was[p].state), now)]
                && match was[p].lastEvent
                   case None => r == LoadByPeer(events, p)
                   case Some(id) => if HasId(events, id) then IsThread(events, id, r) else r == LoadByPeer(events, p)
    {
      if p !in states || !Resumable(states[p].state) {
        return [];
      }
      var last := states[p].lastEvent;
      if last.None? {
        r := LoadPeer(p);
      } else {
        r := LoadThread(last.value);
        if HasId(events, last.value) {
          ThreadHasRoot(events, last.value, r);
        }
        if r == [] {
          r := LoadPeer(p);
        }
      }
      SetConversationState(p, Resumed, last, ResumedFrom(states[p].state), now);
    }
  }

  ghost predicate Frontier(line: set<Id>, related: set<Id>, root: Id, x: Id) {
    x == root || (x in related && x !in line)
  }

  ghost predicate IsReply(ix: Index, c: Id, x: Id) {
    c in ix && Parent(ix, c) == Some(x)
  }

  ghost predicate RepliesIn(ix: Index, x: Id, related: set<Id>) {
    forall c :: IsReply(ix, c, x) ==> c in related
  }

  ghost predicate DownInvariant(ix: Index, line: set<Id>, root: Id, related: set<Id>, todo: seq<Id>) {
    && (forall x :: x in todo ==> Frontier(line, related, root, x))
    && (forall x :: x in related ==> Gathered(ix, line, root, x))
    && forall x :: Frontier(line, related, root, x) && x !in todo ==> RepliesIn(ix, x, related)
  }

  lemma ByIdCovers(es: seq<Event>)
    ensures forall id :: HasId(es, id) <==> id in ById(es)
  {
    forall id ensures HasId(es, id) <==> id in ById(es) {
      if HasId(es, id) {
        assert es[Find(es, id)] in es;
      }
      if id in ById(es) {
        var i :| 0 <= i < |es| && es[i] == ById(es)[id];
      }
    }
  }

  lemma StepBelow(ix: Index, line: set<Id>, root: Id, x: Id, c: Id)
    requires c in ix && Parent(ix, c) == Some(x) && c !in line
    requires x == root || (x !in line && Gathered(ix, line, root, x))
    ensures Gathered(ix, line, root, c)
  {
    if x == root {
      assert Below(ix, line, root, c, 0);
    } else {
      var n: nat :| Below(ix, line, root, x, n);
      assert Below(ix, line, root, c, n + 1);
    }
  }

  // One turn of the worklist keeps its promise about processed events.
  lemma DownStep(ix: Index, line: set<Id>, root: Id, related: set<Id>, todo: seq<Id>, grown: set<Id>, found: seq<Id>)
    requires todo != [] && line <= related && DownInvariant(ix, line, root, related, todo)
    requires forall id :: id in grown <==> id in related || IsReply(ix, id, todo[|todo|-1])
    requires forall id :: id in found <==> id in grown && id !in related
    ensures DownInvariant(ix, line, root, grown, todo[..|todo|-1] + found)
  {
    var current, rest := todo[|todo|-1], todo[..|todo|-1];
    assert todo == rest + [current];
    assert current in todo;
    forall x | x in grown ensures Gathered(ix, line, root, x) {
      if x !in related {
        StepBelow(ix, line, root, current, x);
      }
    }
    forall x | x in rest + found ensures Frontier(line, grown, root, x) {
      if x in rest {
        assert x in todo;
        assert Frontier(line, related, root, x);
      } else {
        assert x in found;
      }
    }
    forall x | Frontier(line, grown, root, x) && x !in rest + found ensures RepliesIn(ix, x, grown) {
      assert x !in found;
      assert Frontier(line, related, root, x);
      if x != current {
        assert x !in todo;
        assert RepliesIn(ix, x, related);
      }
    }
  }

  lemma GatheredIsLeast(ix: Index, line: set<Id>, root: Id, related: set<Id>)
    requires line <= related && DownInvariant(ix, line, root, related, [])
    ensures forall id :: Gathered(ix, line, root, id) <==> id in related
  {
    forall id | Gathered(ix, line, root, id) ensures id in related {
      if id !in line {
        var n: nat :| Below(ix, line, root, id, n);
        forall x, c | (x == root || (x in related && x !in line)) && c in ix && Parent(ix, c) == Some(x)
          ensures c in related
        {
          assert Frontier(line, related, root, x);
          assert RepliesIn(ix, x, related);
          assert IsReply(ix, c, x);
        }
        BelowIsLeast(ix, line, root, related, id, n);
      }
    }
  }

  lemma {:induction false} InsertKeepsIds(e: Event, es: seq<Event>)
    ensures forall id :: HasId(Insert(e, es), id) <==> HasId(es, id) || id == e.id
    ensures UniqueIds(es) && !HasId(es, e.id) ==> UniqueIds(Insert(e, es))
  {
    if es == [] || e.time <= es[0].time {
      ConsIds(e, es);
    } else {
      InsertKeepsIds(e, es[1..]);
      assert es == [es[0]] + es[1..];
      ConsIds(es[0], es[1..]);
      ConsIds(es[0], Insert(e, es[1..]));
    }
  }

  lemma ConsIds(e: Event, es: seq<Event>)
    ensures forall id :: HasId([e] + es, id) <==> id == e.id || HasId(es, id)
    ensures UniqueIds([e] + es) <==> UniqueIds(es) && !HasId(es, e.id)
  {
    var r := [e] + es;
    assert r[0] == e;
    assert forall i :: 0 <= i < |es| ==> es[i] == r[i+1];
    forall id ensures HasId(r, id) <==> id == e.id || HasId(es, id) {
      if HasId(es, id) {
        assert r[Find(es, id) + 1].id == id;
      }
    }
  }

  lemma {:induction false} SortKeepsIds(es: seq<Event>)
    requires UniqueIds(es)
    ensures UniqueIds(SortByTime(es))
    ensures forall id :: HasId(SortByTime(es), id) <==> HasId(es, id)
  {
    if es == [] {
    } else {
      assert es == [es[0]] + es[1..];
      ConsIds(es[0], es[1..]);
      SortKeepsIds(es[1..]);
      InsertKeepsIds(es[0], SortByTime(es[1..]));
    }
  }
}
