/** The client's adoption events: an append-only log, flushed to the server in
    batches and rewritten without what was acknowledged (server/client/adoption.py). */
module AdoptionLog {
  import opened Collections

  type Id = nat

  // A line of the log: blank or unparsable, or an event. An event whose type the
  // client does not know is well formed but cannot be loaded for sending. An id that is
  // absent, empty or not a text is None: such an event is given a new id each time it is
  // loaded, which no line of the log bears.
  datatype Line = Blank | Corrupt | Event(id: Option<Id>, known: bool, data: nat)

  // The server's answer to a batch.
  datatype Ack = Ack(accepted: nat, rejected: nat, failed: bool)

  datatype FlushResult = FlushResult(flushed: nat, rejected: nat, retained: nat, error: bool)

  function IsLoadable(): Line -> bool {
    (l: Line) => l.Event? && l.known
  }

  function Loadable(log: seq<Line>): seq<Line> {
    Filter(IsLoadable(), log)
  }

  function Min(a: nat, b: nat): nat {
    if a < b then a else b
  }

  // How many events one load returns at most; 0 stands for the cache size, and
  // since the bound is looked at after an event is added, it is never below one.
  function LoadBound(limit: nat, cacheSize: nat): (n: nat)
    ensures n > 0
  {
    var bound := if limit != 0 then limit else cacheSize;
    if bound == 0 then 1 else bound
  }

  function LoadPending(log: seq<Line>, limit: nat, cacheSize: nat): (r: seq<Line>)
    ensures r <= Loadable(log)
  {
    Loadable(log)[..Min(LoadBound(limit, cacheSize), |Loadable(log)|)]
  }

  /** How much one load returns: with a limit, all that fits under it; without one, all
      that fits in the cache, but at least one event if there is any. */
  lemma LoadedCount(log: seq<Line>, limit: nat, cacheSize: nat)
    ensures var n, loaded := |Loadable(log)|, |LoadPending(log, limit, cacheSize)|;
      && (limit > 0 ==> loaded == if limit <= n then limit else n)
      && (limit == 0 && cacheSize > 0 ==> loaded == if cacheSize <= n then cacheSize else n)
      && (limit == 0 && cacheSize == 0 ==> loaded == if n > 0 then 1 else 0)
  {}

  // How many batches succeed before one fails or the events run out.
  function Batches(n: nat, size: nat): nat
    requires size > 0
  {
    if n == 0 then 0 else 1 + Batches(if n < size then 0 else n - size, size)
  }

  function Successes(acks: nat -> Ack, i: nat, count: nat): (k: nat)
    requires i <= count
    ensures i <= k <= count
    ensures forall j :: i <= j < k ==> !acks(j).failed
    ensures k < count ==> acks(k).failed
    decreases count - i
  {
    if i == count || acks(i).failed then i else Successes(acks, i + 1, count)
  }

  function SumOf(part: Ack -> nat, acks: nat -> Ack, n: nat): nat {
    if n == 0 then 0 else SumOf(part, acks, n - 1) + part(acks(n - 1))
  }

  lemma SumStep(part: Ack -> nat, acks: nat -> Ack, n: nat)
    ensures SumOf(part, acks, n + 1) == SumOf(part, acks, n) + part(acks(n))
  {}

  lemma NothingSummed(acks: nat -> Ack)
    ensures forall part: Ack -> nat :: SumOf(part, acks, 0) == 0
  {}

  lemma NextMultiple(k: nat, size: nat)
    ensures (k + 1) * size == k * size + size
  {}

  // The events of the batches acknowledged without error.
  function Acknowledged(events: seq<Line>, size: nat, acks: nat -> Ack): (r: seq<Line>)
    requires size > 0
    ensures r <= events
  {
    var k := Successes(acks, 0, Batches(|events|, size));
    events[..Min(k * size, |events|)]
  }

  /** Which events count as acknowledged: those whose own batch and all batches before it
      were answered without error. */
  lemma AcknowledgedIff(events: seq<Line>, size: nat, acks: nat -> Ack, i: nat)
    requires size > 0 && i < |events|
    ensures i < |Acknowledged(events, size, acks)| <==> forall j: nat :: j <= i / size ==> !acks(j).failed
  {
    var n := Batches(|events|, size);
    var k := Successes(acks, 0, n);
    BatchesCover(|events|, size);
    Quotients(i, size, n);
    Quotients(i, size, k);
  }

  // The batches hold all events.
  lemma {:induction false} BatchesCover(n: nat, size: nat)
    requires size > 0
    ensures Batches(n, size) * size >= n
    decreases n
  {
    if n == 0 {
    } else {
      var rest := if n < size then 0 else n - size;
      BatchesCover(rest, size);
      NextMultiple(Batches(rest, size), size);
    }
  }

  lemma Quotients(i: nat, size: nat, k: nat)
    requires size > 0
    ensures i / size < k <==> i < k * size
  {
    var q, r := i / size, i % size;
    assert i == q * size + r && r < size;
    if q < k {
      assert (q + 1) * size <= k * size;
    } else {
      assert q * size >= k * size;
    }
  }

  function Survives(ids: set<Id>): Line -> bool {
    (l: Line) => l.Event? && (l.id.None? || l.id.value !in ids)
  }

  // The ids the lines themselves bear.
  function IdsOf(events: seq<Line>): set<Id> {
    set l | l in events && l.Event? && l.id.Some? :: l.id.value
  }

  // The log after a rewrite: blank and unparsable lines go with it.
  function Rewritten(log: seq<Line>, sent: seq<Line>): seq<Line> {
    if sent == [] then log else Filter(Survives(IdsOf(sent)), log)
  }

  function Flushed(log: seq<Line>, limit: nat, cacheSize: nat, size: nat, acks: nat -> Ack): seq<Line>
    requires size > 0
  {
    Rewritten(log, Acknowledged(LoadPending(log, limit, cacheSize), size, acks))
  }

  class AdoptionReporter {
    var log: seq<Line>
    const batchSize: nat
    const cacheSize: nat

    constructor (batchSize: nat, cacheSize: nat)
      ensures log == [] && this.batchSize == batchSize && this.cacheSize == cacheSize
    {
      this.batchSize, this.cacheSize, log := batchSize, cacheSize, [];
    }

    method Record(e: Line)
      modifies this
      ensures log == old(log) + [e]
    {
      log := log + [e];
    }

    method LoadPendingEvents(limit: nat) returns (events: seq<Line>)
      ensures events == LoadPending(log, limit, cacheSize)
    {
      events := [];
      var bound := LoadBound(limit, cacheSize);
      for i := 0 to |log|
        invariant events == Loadable(log[..i]) && |events| < bound
      {
        FilterStep(IsLoadable(), log, i);
        if log[i].Event? && log[i].known {
          events := events + [log[i]];
          if |events| >= bound {
            FilterConcat(IsLoadable(), log[..i+1], log[i+1..]);
            assert log == log[..i+1] + log[i+1..];
            return;
          }
        }
      }
      assert log[..|log|] == log;
    }

    /** Posts batch after batch, stopping at the first error, then rewrites the log
        without the acknowledged events. */
    method Flush(online: bool, maxBatches: nat, acks: nat -> Ack) returns (r: FlushResult)
      requires batchSize > 0
      modifies this
      ensures !online ==> log == old(log) && r == FlushResult(0, 0, |log|, true)
      ensures online ==> log == Flushed(old(log), batchSize * maxBatches, cacheSize, batchSize, acks)
      ensures online ==>
        var events := LoadPending(old(log), batchSize * maxBatches, cacheSize);
        var k := Successes(acks, 0, Batches(|events|, batchSize));
        && (r.error <==> k < Batches(|events|, batchSize))
        && r.flushed == SumOf((a: Ack) => a.accepted, acks, k) && r.rejected == SumOf((a: Ack) => a.rejected, acks, k)
        && r.retained == if events == [] then 0 else |log|
    {
      if !online {
        return FlushResult(0, 0, |log|, true);
      }
      var events := LoadPendingEvents(batchSize * maxBatches);
      if events == [] {
        return FlushResult(0, 0, 0, false);
      }
      var acked, flushed, rejected, error := PostBatches(events, acks);
      if acked != [] {
        RewriteEventsLog(IdsOf(acked));
      }
      r := FlushResult(flushed, rejected, |log|, error);
    }

    /** Posts the events batch by batch and collects those of the batches that the
        server accepts without error. */
    method PostBatches(
      events: seq<Line>, acks: nat -> Ack)
      returns (acked: seq<Line>, flushed: nat, rejected: nat, error: bool)
      requires batchSize > 0
      ensures var k := Successes(acks, 0, Batches(|events|, batchSize));
        && acked == Acknowledged(events, batchSize, acks)
        && flushed == SumOf((a: Ack) => a.accepted, acks, k) && rejected == SumOf((a: Ack) => a.rejected, acks, k)
        && (error <==> k < Batches(|events|, batchSize))
    {
      hide SumOf;
      NothingSummed(acks);
      acked, flushed, rejected, error := [], 0, 0, false;
      var start, batch := 0, 0;
      ghost var count := Batches(|events|, batchSize);
      while start < |events|
        invariant start == batch * batchSize && batch <= count
        invariant acked == events[..Min(start, |events|)]
        invariant Batches(if start <= |events| then |events| - start else 0, batchSize) == count - batch
        invariant Successes(acks, 0, count) == Successes(acks, batch, count)
        invariant flushed == SumOf((a: Ack) => a.accepted, acks, batch)
        invariant rejected == SumOf((a: Ack) => a.rejected, acks, batch)
        decreases |events| - start
      {
        var ack := acks(batch);
        if ack.failed {
          error := true;
          return;
        }
        flushed, rejected := flushed + ack.accepted, rejected + ack.rejected;
        var stop := Min(start + batchSize, |events|);
        assert events[..start] + events[start..stop] == events[..stop];
        acked := acked + events[start..stop];
        NextMultiple(batch, batchSize);
        SumStep((a: Ack) => a.accepted, acks, batch);
        SumStep((a: Ack) => a.rejected, acks, batch);
        start, batch := start + batchSize, batch + 1;
      }
    }

    method RewriteEventsLog(exclude: set<Id>)
      modifies this
      ensures log == Filter(Survives(exclude), old(log))
    {
      var kept := [];
      for i := 0 to |log|
        invariant log == old(log)
        invariant kept == Filter(Survives(exclude), log[..i])
      {
        FilterStep(Survives(exclude), log, i);
        if log[i].Event? && (log[i].id.None? || log[i].id.value !in exclude) {
          kept := kept + [log[i]];
        }
      }
      assert log[..|log|] == log;
      log := kept;
    }
  }

  // ----- What leaves the log -----

  // Selecting a kind of event before or after a rewrite is the same.
  lemma SelectRewritten(kind: Line -> bool, log: seq<Line>, ids: set<Id>)
    ensures Filter(kind, Filter(Survives(ids), log)) == Filter(Survives(ids), Filter(kind, log))
  {
    var both := (l: Line) => kind(l) && Survives(ids)(l);
    FilterTwice(Survives(ids), kind, both, log);
    FilterTwice(kind, Survives(ids), both, log);
  }

  ghost predicate AllNamed(events: seq<Line>) {
    forall l :: l in events ==> l.Event? && l.id.Some?
  }

  /** A flush removes from the loadable events exactly the acknowledged first ones,
      keeping the rest in order, if and only if each of those bears its id and none of
      the rest repeats one. */
  lemma FlushTakesPrefixIff(log: seq<Line>, sent: seq<Line>)
    requires sent <= Loadable(log)
    ensures var rest := Loadable(log)[|sent|..];
      Loadable(Rewritten(log, sent)) == rest <==> AllNamed(sent) && IdsOf(rest) !! IdsOf(sent)
  {
    hide Filter;
    var ids, rest := IdsOf(sent), Loadable(log)[|sent|..];
    var keep := Survives(ids);
    LoadableAreEvents(log);
    assert Loadable(log) == sent + rest;
    if sent != [] {
      SelectRewritten(IsLoadable(), log, ids);
      FilterConcat(keep, sent, rest);
      FilterMembers(keep, sent);
      FilterMembers(keep, rest);
      SurvivesWholeIff(rest, ids);
      if AllNamed(sent) {
        FilterNone(keep, sent);
      } else {
        var l :| l in sent && l.id.None?;
        assert l in Filter(keep, sent);
        LongerThanRest(keep, Filter(keep, sent), rest);
      }
    }
  }

  // What survives of the sent cannot make up for what does not survive of the rest.
  lemma LongerThanRest(keep: Line -> bool, more: seq<Line>, rest: seq<Line>)
    requires more != [] && forall l :: l in more ==> keep(l)
    ensures more + Filter(keep, rest) != rest
  {
    FilterAllIff(keep, rest);
    FilterMembers(keep, rest);
    var left := more + Filter(keep, rest);
    if Filter(keep, rest) != rest {
      var r :| r in rest && !keep(r);
      assert r !in left;
    }
  }

  lemma LoadableAreEvents(log: seq<Line>)
    ensures forall l :: l in Loadable(log) ==> l.Event? && l.known
  {
    FilterMembers(IsLoadable(), log);
  }

  lemma SurvivesWholeIff(es: seq<Line>, ids: set<Id>)
    requires forall l :: l in es ==> l.Event?
    ensures Filter(Survives(ids), es) == es <==> IdsOf(es) !! ids
  {
    FilterAllIff(Survives(ids), es);
    if IdsOf(es) !! ids {
      forall l | l in es ensures Survives(ids)(l) {
        assert l.id.Some? ==> l.id.value in IdsOf(es);
      }
    }
  }

  function IsForeign(): Line -> bool {
    (l: Line) => l.Event? && !l.known
  }

  /** Well-formed events of unknown type survive a flush, unless they carry an
      acknowledged id. */
  lemma ForeignStayIff(log: seq<Line>, sent: seq<Line>)
    requires sent <= Loadable(log)
    ensures Filter(IsForeign(), Rewritten(log, sent)) == Filter(IsForeign(), log)
       <==> IdsOf(Filter(IsForeign(), log)) !! IdsOf(sent)
  {
    if sent != [] {
      SelectRewritten(IsForeign(), log, IdsOf(sent));
      FilterMembers(IsForeign(), log);
      SurvivesWholeIff(Filter(IsForeign(), log), IdsOf(sent));
    }
  }

  // An event recorded twice under one id, sent in batches of one of which the second
  // fails: the first acknowledgement takes both out of the log.
  lemma RepeatedIdIsDropped()
    ensures var e := Event(Some(0), true, 0);
      var acks := (i: nat) => Ack(1, 0, i > 0);
      var sent := Acknowledged(LoadPending([e, e], 2, 2), 1, acks);
      sent == [e] && Rewritten([e, e], sent) == []
  {
    var e := Event(Some(0), true, 0);
    var acks := (i: nat) => Ack(1, 0, i > 0);
    FilterAllIff(IsLoadable(), [e, e]);
    assert LoadPending([e, e], 2, 2) == [e, e];
    assert Batches(2, 1) == 2 && Successes(acks, 0, 2) == 1;
    assert [e, e][..1] == [e] && e in [e];
    assert 0 in IdsOf([e]);
    FilterNone(Survives(IdsOf([e])), [e, e]);
  }

  lemma OneEventAcknowledged(e: Line, ack: Ack)
    requires e.Event? && e.known && !ack.failed
    ensures var acks := (i: nat) => ack;
      Acknowledged(LoadPending([e], 1, 1), 1, acks) == [e]
  {
    var acks := (i: nat) => ack;
    FilterAllIff(IsLoadable(), [e]);
    assert LoadPending([e], 1, 1) == [e];
    assert Batches(1, 1) == 1 && Successes(acks, 0, 1) == 1;
  }

  // An event without an id is acknowledged and stays, to be sent again by each flush.
  lemma NamelessIsSentAgain(data: nat, accepted: nat)
    ensures var e := Event(None, true, data);
      var acks := (i: nat) => Ack(accepted, 0, false);
      Acknowledged(LoadPending([e], 1, 1), 1, acks) == [e] && Flushed([e], 1, 1, 1, acks) == [e]
  {
    var e := Event(None, true, data);
    OneEventAcknowledged(e, Ack(accepted, 0, false));
    FilterAllIff(Survives(IdsOf([e])), [e]);
  }

  // An event the server rejects within a batch answered without error leaves the log.
  lemma RejectedIsDropped(id: Id, data: nat)
    ensures var e := Event(Some(id), true, data);
      var acks := (i: nat) => Ack(0, 1, false);
      Flushed([e], 1, 1, 1, acks) == [] && SumOf((a: Ack) => a.rejected, acks, 1) == 1
  {
    var e := Event(Some(id), true, data);
    OneEventAcknowledged(e, Ack(0, 1, false));
    assert e in [e] && id in IdsOf([e]);
    FilterNone(Survives(IdsOf([e])), [e]);
  }

  // ----- Runs -----

  // `recorded` and `acked` are history: the events in the order the client recorded
  // them, and those in batches the server answered without error.
  datatype State = State(log: seq<Line>, recorded: seq<Line>, acked: seq<Line>, next: Id)

  // Noise is any line that bears no id, sendable or not.
  datatype Op =
    | DoRecord(data: nat)
    | DoForeign(data: nat)
    | DoNoise(line: Line)
    | DoFlush(limit: nat, cacheSize: nat, size: nat, acks: nat -> Ack)

  predicate BearsId(l: Line) {
    l.Event? && l.id.Some?
  }

  predicate Possible(op: Op) {
    (op.DoFlush? ==> op.size > 0) && (op.DoNoise? ==> !BearsId(op.line))
  }

  // Event ids are new when recorded.
  function Apply(s: State, op: Op): State
    requires Possible(op)
  {
    match op
    case DoRecord(data) =>
      var e := Event(Some(s.next), true, data);
      s.(log := s.log + [e], recorded := s.recorded + [e], next := s.next + 1)
    case DoForeign(data) => s.(log := s.log + [Event(Some(s.next), false, data)], next := s.next + 1)
    case DoNoise(line) => s.(log := s.log + [line])
    case DoFlush(limit, cacheSize, size, acks) =>
      var sent := Acknowledged(LoadPending(s.log, limit, cacheSize), size, acks);
      s.(log := Rewritten(s.log, sent), acked := s.acked + sent)
  }

  // The sendable events that bear their id, and those that do not.
  function IsNamed(): Line -> bool {
    (l: Line) => BearsId(l) && l.known
  }

  function IsNameless(): Line -> bool {
    (l: Line) => l.Event? && l.id.None?
  }

  ghost predicate UniqueEvents(log: seq<Line>) {
    forall i, j :: 0 <= i < j < |log| && BearsId(log[i]) && BearsId(log[j]) ==> log[i].id != log[j].id
  }

  ghost predicate IdsBelow(log: seq<Line>, next: Id) {
    forall l :: l in log && BearsId(l) ==> l.id.value < next
  }

  ghost predicate Inv(s: State) {
    && UniqueEvents(s.log) && IdsBelow(s.log, s.next)
    && s.recorded == Filter(IsNamed(), s.acked) + Filter(IsNamed(), s.log)
  }

  lemma {:induction false} FilterKeepsUnique(keep: Line -> bool, log: seq<Line>)
    requires UniqueEvents(log)
    ensures UniqueEvents(Filter(keep, log))
  {
    if log == [] {
    } else {
      var tail := log[1..];
      FilterKeepsUnique(keep, tail);
      FilterMembers(keep, tail);
      var kept := Filter(keep, tail);
      forall i | 0 <= i < |kept| && BearsId(kept[i]) && BearsId(log[0]) ensures kept[i].id != log[0].id {
        assert kept[i] in tail;
      }
    }
  }

  lemma SplitDisjoint(a: seq<Line>, b: seq<Line>)
    requires UniqueEvents(a + b)
    ensures IdsOf(b) !! IdsOf(a)
  {
    forall l, m | l in a && m in b && BearsId(l) && BearsId(m) ensures l.id != m.id {
      var i :| 0 <= i < |a| && a[i] == l;
      var j :| 0 <= j < |b| && b[j] == m;
      assert (a + b)[i] == l && (a + b)[|a| + j] == m;
    }
  }

  // A flush takes the sent events that bear an id off the front of all that do.
  lemma NamedAfterFlush(log: seq<Line>, sent: seq<Line>)
    requires UniqueEvents(log) && sent <= Loadable(log)
    ensures Filter(IsNamed(), log) == Filter(IsNamed(), sent) + Filter(IsNamed(), Rewritten(log, sent))
  {
    hide Filter, UniqueEvents;
    var rest := Loadable(log)[|sent|..];
    var a, b := Filter(IsNamed(), sent), Filter(IsNamed(), rest);
    assert Loadable(log) == sent + rest;
    FilterTwice(IsLoadable(), IsNamed(), IsNamed(), log);
    FilterConcat(IsNamed(), sent, rest);
    FilterKeepsUnique(IsNamed(), log);
    FilterMembers(IsNamed(), sent);
    FilterMembers(IsNamed(), rest);
    LoadableAreEvents(log);
    SplitDisjoint(a, b);
    SameIds(sent, a);
    if sent == [] {
      FilterNone(IsNamed(), sent);
    } else {
      var keep := Survives(IdsOf(sent));
      SelectRewritten(IsNamed(), log, IdsOf(sent));
      FilterConcat(keep, a, b);
      FilterNone(keep, a);
      SurvivesWholeIff(b, IdsOf(sent));
    }
  }

  lemma SameIds(sent: seq<Line>, named: seq<Line>)
    requires forall l :: l in sent ==> l.Event? && l.known
    requires forall l :: l in named <==> l in sent && IsNamed()(l)
    ensures IdsOf(named) == IdsOf(sent)
  {
    forall id | id in IdsOf(sent) ensures id in IdsOf(named) {
      var l :| l in sent && l.Event? && l.id.Some? && l.id.value == id;
      assert l in named;
    }
  }

  // Lines of unknown type and lines without an id are untouched by a flush.
  lemma OthersUntouched(log: seq<Line>, sent: seq<Line>)
    requires UniqueEvents(log) && sent <= Loadable(log)
    ensures Filter(IsForeign(), Rewritten(log, sent)) == Filter(IsForeign(), log)
    ensures Filter(IsNameless(), Rewritten(log, sent)) == Filter(IsNameless(), log)
  {
    FilterMembers(IsForeign(), log);
    FilterMembers(IsLoadable(), log);
    FilterMembers(IsNameless(), log);
    hide Filter;
    forall l, m | l in Filter(IsForeign(), log) && BearsId(l) && m in sent && BearsId(m) ensures m.id != l.id {
      var i :| 0 <= i < |log| && log[i] == l;
      assert m in Loadable(log);
      var j :| 0 <= j < |log| && log[j] == m;
      assert i != j;
    }
    ForeignStayIff(log, sent);
    if sent != [] {
      SelectRewritten(IsNameless(), log, IdsOf(sent));
      FilterAllIff(Survives(IdsOf(sent)), Filter(IsNameless(), log));
    }
  }

  lemma FlushKeeps(s: State, op: Op)
    requires Inv(s) && op.DoFlush? && Possible(op)
    ensures Inv(Apply(s, op))
    ensures Filter(IsForeign(), Apply(s, op).log) == Filter(IsForeign(), s.log)
    ensures Filter(IsNameless(), Apply(s, op).log) == Filter(IsNameless(), s.log)
  {
    hide Filter;
    var sent := Acknowledged(LoadPending(s.log, op.limit, op.cacheSize), op.size, op.acks);
    NamedAfterFlush(s.log, sent);
    OthersUntouched(s.log, sent);
    FilterKeepsUnique(Survives(IdsOf(sent)), s.log);
    FilterMembers(Survives(IdsOf(sent)), s.log);
    FilterConcat(IsNamed(), s.acked, sent);
  }

  lemma AppendingKeeps(s: State, op: Op)
    requires Inv(s) && !op.DoFlush? && Possible(op)
    ensures Inv(Apply(s, op))
    ensures Filter(IsForeign(), s.log) <= Filter(IsForeign(), Apply(s, op).log)
    ensures Filter(IsNameless(), s.log) <= Filter(IsNameless(), Apply(s, op).log)
  {
    hide Filter;
    var line := Apply(s, op).log[|s.log|];
    assert Apply(s, op).log == s.log + [line];
    FilterConcat(IsNamed(), s.log, [line]);
    FilterConcat(IsForeign(), s.log, [line]);
    FilterConcat(IsNameless(), s.log, [line]);
    FilterAllIff(IsNamed(), [line]);
    if !IsNamed()(line) {
      FilterNone(IsNamed(), [line]);
    }
  }

  lemma ApplyKeeps(s: State, op: Op)
    requires Inv(s) && Possible(op)
    ensures Inv(Apply(s, op))
    ensures Filter(IsForeign(), s.log) <= Filter(IsForeign(), Apply(s, op).log)
    ensures Filter(IsNameless(), s.log) <= Filter(IsNameless(), Apply(s, op).log)
  {
    hide Inv, Filter;
    if op.DoFlush? {
      FlushKeeps(s, op);
    } else {
      AppendingKeeps(s, op);
    }
  }

  ghost predicate IsRun(s: State, ops: seq<Op>, last: State)
    decreases |ops|
  {
    if ops == [] then last == s
    else Possible(ops[0]) && IsRun(Apply(s, ops[0]), ops[1..], last)
  }

  /** Nothing recorded is lost, reordered or acknowledged twice: in every run the
      recorded events are the acknowledged ones, as far as they bear an id, followed by
      those still in the log. Events of unknown type, and events without an id, which
      every flush may send again, never leave it. */
  lemma {:induction false} RunLaws(s: State, ops: seq<Op>, last: State)
    requires Inv(s) && IsRun(s, ops, last)
    ensures Inv(last) && last.recorded == Filter(IsNamed(), last.acked) + Filter(IsNamed(), last.log)
    ensures Filter(IsForeign(), s.log) <= Filter(IsForeign(), last.log)
    ensures Filter(IsNameless(), s.log) <= Filter(IsNameless(), last.log)
    decreases |ops|
  {
    if ops == [] {
    } else {
      ApplyKeeps(s, ops[0]);
      RunLaws(Apply(s, ops[0]), ops[1..], last);
    }
  }
}
