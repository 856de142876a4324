/** Asking a peer online or through its shadow, and pausing, timing out and
    resuming the conversation (server/async_comm/peer_comm.py,
    server/async_comm/shadow_comm.py, server/client/daemon.py). */
module PeerComms {
  import opened Collections
  import opened CommTypes
  import opened VectorClocks
  import opened DeliveryStatus
  import opened Mailboxes
  import opened ConversationLogs
  import opened SyncProtocols
  import opened Reconciliation

  // The payload text marking an answer that has not arrived.
  const PENDING_NOTE: Text := 1

  // What one peer's communication layer remembers.
  datatype Session = Session(box: Box, log: seq<Event>, states: States, clock: Clock)

  // The outside of one question: the ids and time handed out, and what the
  // shadow would answer from its snapshot.
  datatype Env = Env(base: Id, now: Time, snapshotClock: Clock, simulated: Text, snapshot: Text, stale: bool)

  function AskEvent(p: PeerId, question: Text, inReplyTo: Option<Id>, clock: Clock, id: Id, now: Time): Event {
    Event(id, Ask, p, now, clock, Payload(None, None, 0, question, None), inReplyTo, false, false, 0, false)
  }

  function AnswerEvent(p: PeerId, answer: Option<Text>, ask: Id, clock: Clock, id: Id, now: Time): Event {
    var payload :=
      if answer.Some? then Payload(None, None, answer.value, 0, None) else Payload(None, None, 0, PENDING_NOTE, None);
    Event(id, RealtimeAnswer, p, now, clock, payload, Some(ask), false, true, 0, false)
  }

  function ShadowEvent(p: PeerId, ask: Id, env: Env, id: Id): Event {
    Event(id, SimulatedAnswer, p, env.now, env.snapshotClock, Payload(None, None, env.simulated, 0, None),
          Some(ask), true, false, env.snapshot, env.stale)
  }

  // The ask the peer's own clock is stamped on.
  function NewAsk(s: Session, self: PeerId, p: PeerId, question: Text, inReplyTo: Option<Id>, env: Env): Event {
    AskEvent(p, question, inReplyTo, Incremented(s.clock, self), env.base, env.now)
  }

  function LogAsk(s: Session, self: PeerId, ask: Event): Session {
    s.(log := Append(s.log, ask), clock := Incremented(s.clock, self))
  }

  // The first fetched message that replies to the ask.
  function AnswerIn(msgs: seq<Message>, ask: Id): Option<Text> {
    if msgs == [] then None
    else if msgs[0].inReplyTo == Some(ask) then Some(msgs[0].payload.answer)
    else AnswerIn(msgs[1..], ask)
  }

  // The i-th message is the first that replies to the ask.
  predicate IsFirstReply(msgs: seq<Message>, ask: Id, i: int) {
    && 0 <= i < |msgs| && msgs[i].inReplyTo == Some(ask)
    && forall j :: 0 <= j < i ==> msgs[j].inReplyTo != Some(ask)
  }

  /** The answer is that of the first message replying to the ask, and there is none if
      and only if no message does. */
  lemma {:induction false} AnswerIsFirstReply(msgs: seq<Message>, ask: Id)
    ensures AnswerIn(msgs, ask).None? <==> forall m :: m in msgs ==> m.inReplyTo != Some(ask)
    ensures AnswerIn(msgs, ask).Some? ==>
      exists i :: IsFirstReply(msgs, ask, i) && AnswerIn(msgs, ask) == Some(msgs[i].payload.answer)
  {
    if msgs == [] {
    } else if msgs[0].inReplyTo == Some(ask) {
      assert IsFirstReply(msgs, ask, 0);
    } else {
      AnswerIsFirstReply(msgs[1..], ask);
      assert msgs == [msgs[0]] + msgs[1..];
      if AnswerIn(msgs, ask).Some? {
        var i :| IsFirstReply(msgs[1..], ask, i) && AnswerIn(msgs[1..], ask) == Some(msgs[1..][i].payload.answer);
        assert IsFirstReply(msgs, ask, i + 1);
      }
    }
  }

  // What an ask answered in real time returns: the first reply to it, or a note that the
  // answer is still to come.
  ghost predicate AnswersAsk(answer: Event, ask: Id, p: PeerId, msgs: seq<Message>) {
    && answer.kind == RealtimeAnswer && answer.peer == p && answer.inReplyTo == Some(ask) && answer.realtime
    && answer.basedOn == 0 && !answer.snapshotStale
    && ((forall m :: m in msgs ==> m.inReplyTo != Some(ask)) ==>
          answer.payload == Payload(None, None, 0, PENDING_NOTE, None))
    && forall i :: IsFirstReply(msgs, ask, i) ==> answer.payload == Payload(None, None, msgs[i].payload.answer, 0, None)
  }

  lemma AnswerEventAnswers(p: PeerId, ask: Id, msgs: seq<Message>, clock: Clock, id: Id, now: Time)
    ensures AnswersAsk(AnswerEvent(p, AnswerIn(msgs, ask), ask, clock, id, now), ask, p, msgs)
  {
    AnswerIsFirstReply(msgs, ask);
    forall i | IsFirstReply(msgs, ask, i) ensures AnswerIn(msgs, ask) == Some(msgs[i].payload.answer) {
      assert msgs[i] in msgs;
      var k :| IsFirstReply(msgs, ask, k) && AnswerIn(msgs, ask) == Some(msgs[k].payload.answer);
      assert k == i;
    }
  }

  function AskOnline(s: Session, self: PeerId, ask: Event, msgs: seq<Message>, env: Env): Session {
    var t := LogAsk(s, self, ask);
    var answer := AnswerEvent(ask.peer, AnswerIn(msgs, ask.id), ask.id, t.clock, env.base + 1, env.now);
    var states := Put(t.states, ask.peer, Active, Some(answer.id), RealtimeActive, env.now);
    t.(log := Append(t.log, answer), states := states)
  }

  // The shadow files its own ask in reply to the first one, then its answer.
  function ShadowAsk(s: Session, p: PeerId, question: Text, ask: Id, env: Env): Session {
    var second := AskEvent(p, question, Some(ask), env.snapshotClock, env.base + 1, env.now);
    var answer := ShadowEvent(p, second.id, env, env.base + 2);
    s.(box := AppendOutbox(s.box, second), log := Append(Append(s.log, second), answer))
  }

  function AskOffline(s: Session, self: PeerId, ask: Event, shadow: bool, env: Env): Session {
    var t := LogAsk(s, self, ask);
    var states := Put(t.states, ask.peer, Paused, Some(ask.id), PeerOffline, env.now);
    var paused := t.(box := AppendOutbox(t.box, ask), states := states);
    if shadow then ShadowAsk(paused, ask.peer, ask.payload.body, ask.id, env) else paused
  }

  datatype Probe = Probe(reachable: bool, at: Time)

  predicate IsFresh(cache: map<PeerId, Probe>, interval: int, p: PeerId, now: Time) {
    p in cache && now - cache[p].at < interval
  }

  // What is believed about a peer, and what is remembered, when a probe would say `probe`.
  predicate ReachableNow(cache: map<PeerId, Probe>, interval: int, p: PeerId, now: Time, probe: bool) {
    if IsFresh(cache, interval, p, now) then cache[p].reachable else probe
  }

  function Probed(cache: map<PeerId, Probe>, interval: int, p: PeerId, now: Time, probe: bool): map<PeerId, Probe> {
    if IsFresh(cache, interval, p, now) then cache else cache[p := Probe(probe, now)]
  }

  // One look at whether a peer is reachable, and what a probe would say then.
  datatype Look = Look(p: PeerId, now: Time, probe: bool)

  // The cache before the k-th look.
  function CacheAt(interval: int, looks: seq<Look>, k: nat): map<PeerId, Probe>
    requires k <= |looks|
  {
    if k == 0 then map[]
    else
      var look := looks[k - 1];
      Probed(CacheAt(interval, looks, k - 1), interval, look.p, look.now, look.probe)
  }

  // The k-th look goes to the transport.
  predicate Probes(interval: int, looks: seq<Look>, k: nat)
    requires k < |looks|
  {
    !IsFresh(CacheAt(interval, looks, k), interval, looks[k].p, looks[k].now)
  }

  function AnswerAt(interval: int, looks: seq<Look>, k: nat): bool
    requires k < |looks|
  {
    ReachableNow(CacheAt(interval, looks, k), interval, looks[k].p, looks[k].now, looks[k].probe)
  }

  // The cache holds the last probe of each peer.
  lemma {:induction false} CacheHoldsLastProbe(interval: int, looks: seq<Look>, k: nat, p: PeerId)
    requires k <= |looks|
    ensures p !in CacheAt(interval, looks, k) <==>
      forall j :: 0 <= j < k && looks[j].p == p ==> !Probes(interval, looks, j)
    ensures p in CacheAt(interval, looks, k) ==> exists j :: 0 <= j < k && IsLastProbe(interval, looks, k, p, j)
  {
    if k == 0 {
    } else {
      CacheHoldsLastProbe(interval, looks, k - 1, p);
      if looks[k - 1].p == p && Probes(interval, looks, k - 1) {
        assert IsLastProbe(interval, looks, k, p, k - 1);
      } else if p in CacheAt(interval, looks, k) {
        var j :| 0 <= j < k - 1 && IsLastProbe(interval, looks, k - 1, p, j);
        assert IsLastProbe(interval, looks, k, p, j);
      }
    }
  }

  ghost predicate IsLastProbe(interval: int, looks: seq<Look>, k: nat, p: PeerId, j: nat)
    requires j < k <= |looks|
  {
    && looks[j].p == p && Probes(interval, looks, j) && p in CacheAt(interval, looks, k)
    && CacheAt(interval, looks, k)[p] == Probe(looks[j].probe, looks[j].now)
    && forall i :: j < i < k && looks[i].p == p ==> !Probes(interval, looks, i)
  }

  ghost predicate AnsweredBy(interval: int, looks: seq<Look>, k: nat, j: nat)
    requires j <= k < |looks|
  {
    && looks[j].p == looks[k].p && Probes(interval, looks, j) && AnswerAt(interval, looks, k) == looks[j].probe
    && (j == k || looks[k].now - looks[j].now < interval)
  }

  /** What the cache amounts to: every answer is that of a probe of the same peer made
      less than an interval before, or just now. */
  lemma AnswersAreRecent(interval: int, looks: seq<Look>, k: nat)
    requires k < |looks|
    ensures exists j :: 0 <= j <= k && AnsweredBy(interval, looks, k, j)
  {
    if Probes(interval, looks, k) {
      assert AnsweredBy(interval, looks, k, k);
    } else {
      CacheHoldsLastProbe(interval, looks, k, looks[k].p);
      var j :| 0 <= j < k && IsLastProbe(interval, looks, k, looks[k].p, j);
      assert AnsweredBy(interval, looks, k, j);
    }
  }

  /** ... and on a clock that does not go back, a peer is probed at most once per
      interval. */
  lemma ProbesAreApart(interval: int, looks: seq<Look>, i: nat, j: nat)
    requires i < j < |looks| && looks[i].p == looks[j].p
    requires Probes(interval, looks, i) && Probes(interval, looks, j)
    requires forall a, b :: 0 <= a < b < |looks| ==> looks[a].now <= looks[b].now
    ensures looks[j].now - looks[i].now >= interval
  {
    CacheHoldsLastProbe(interval, looks, j, looks[j].p);
    var l :| 0 <= l < j && IsLastProbe(interval, looks, j, looks[j].p, l);
    assert l >= i;
    assert looks[i].now <= looks[l].now;
  }

  // The transport as seen by one question: its reachability, and the messages it
  // hands back, None when delivering or fetching raises.
  datatype Reply = Reply(reachable: bool, messages: Option<seq<Message>>)

  datatype AskOutcome = Answered(event: Event) | TransportFailed | NoShadow

  class PeerComm {
    const mailbox: Mailbox
    const log: ConversationLog
    const self: PeerId
    const interval: int
    const shadow: bool
    var clock: Clock
    var cache: map<PeerId, Probe>

    constructor (mailbox: Mailbox, log: ConversationLog, self: PeerId, interval: int, shadow: bool)
      ensures this.mailbox == mailbox && this.log == log && this.self == self
      ensures this.interval == interval && this.shadow == shadow && clock == map[] && cache == map[]
    {
      this.mailbox, this.log, this.self, this.interval, this.shadow := mailbox, log, self, interval, shadow;
      clock, cache := map[], map[];
    }

    ghost function Now(): Session
      reads this, mailbox, log
    {
      Session(mailbox.Contents(), log.events, log.states, clock)
    }

    /** A probe result is reused until it is `interval` old. */
    method IsPeerReachable(p: PeerId, now: Time, probe: bool) returns (r: bool)
      modifies this`cache
      ensures r == ReachableNow(old(cache), interval, p, now, probe)
      ensures cache == Probed(old(cache), interval, p, now, probe)
    {
      if p in cache && now - cache[p].at < interval {
        return cache[p].reachable;
      }
      cache := cache[p := Probe(probe, now)];
      r := probe;
    }

    method CreateAskEvent(p: PeerId, question: Text, inReplyTo: Option<Id>, env: Env) returns (ask: Event)
      modifies this`clock
      ensures ask == NewAsk(old(Now()), self, p, question, inReplyTo, env)
      ensures clock == Incremented(old(clock), self)
    {
      clock := Incremented(clock, self);
      ask := AskEvent(p, question, inReplyTo, clock, env.base, env.now);
    }

    /** One question: logged first, then answered over the wire when the peer is
        (believed) reachable, and otherwise queued and handed to the shadow. */
    method AskPeer(p: PeerId, question: Text, inReplyTo: Option<Id>, env: Env, reply: Reply) returns (r: AskOutcome)
      modifies this, mailbox, log
      ensures var s := old(Now());
        var ask := NewAsk(s, self, p, question, inReplyTo, env);
        if !ReachableNow(old(cache), interval, p, env.now, reply.reachable) then
          && Now() == AskOffline(s, self, ask, shadow, env)
          && r == if shadow then Answered(ShadowEvent(p, env.base + 1, env, env.base + 2)) else NoShadow
        else if reply.messages.None? then Now() == LogAsk(s, self, ask) && r == TransportFailed
        else
          && Now() == AskOnline(s, self, ask, reply.messages.value, env)
          && r == Answered(AnswerEvent(p, AnswerIn(reply.messages.value, ask.id), ask.id, clock, env.base + 1, env.now))
      ensures cache == Probed(old(cache), interval, p, env.now, reply.reachable)
      ensures ReachableNow(old(cache), interval, p, env.now, reply.reachable) && reply.messages.Some? ==>
        r.Answered? && AnswersAsk(r.event, env.base, p, reply.messages.value)
    {
      hide Append, AppendOutbox, Incremented;
      var ask := CreateAskEvent(p, question, inReplyTo, env);
      var _ := log.AppendEvent(ask);
      var online := IsPeerReachable(p, env.now, reply.reachable);
      if online {
        if reply.messages.None? {
          return TransportFailed;
        }
        var answer := RealtimeAsk(ask, reply.messages.value, env);
        r := Answered(answer);
      } else {
        r := OfflineAsk(ask, question, env);
      }
    }

    method RealtimeAsk(ask: Event, msgs: seq<Message>, env: Env) returns (answer: Event)
      modifies log
      ensures answer == AnswerEvent(ask.peer, AnswerIn(msgs, ask.id), ask.id, clock, env.base + 1, env.now)
      ensures AnswersAsk(answer, ask.id, ask.peer, msgs)
      ensures log.events == Append(old(log.events), answer)
      ensures log.states == Put(old(log.states), ask.peer, Active, Some(answer.id), RealtimeActive, env.now)
    {
      var found := None;
      var i := 0;
      while i < |msgs|
        invariant 0 <= i <= |msgs| && found.None?
        invariant AnswerIn(msgs, ask.id) == AnswerIn(msgs[i..], ask.id)
      {
        if msgs[i].inReplyTo == Some(ask.id) {
          found := Some(msgs[i].payload.answer);
          break;
        }
        i := i + 1;
      }
      answer := AnswerEvent(ask.peer, found, ask.id, clock, env.base + 1, env.now);
      AnswerEventAnswers(ask.peer, ask.id, msgs, clock, env.base + 1, env.now);
      var _ := log.AppendEvent(answer);
      log.SetConversationState(ask.peer, Active, Some(answer.id), RealtimeActive, env.now);
    }

    method OfflineAsk(ask: Event, question: Text, env: Env) returns (r: AskOutcome)
      modifies mailbox, log
      ensures var states := Put(old(log.states), ask.peer, Paused, Some(ask.id), PeerOffline, env.now);
        var paused := old(Now()).(box := AppendOutbox(old(mailbox.Contents()), ask), states := states);
        if shadow then
          && Now() == ShadowAsk(paused, ask.peer, question, ask.id, env)
          && r == Answered(ShadowEvent(ask.peer, env.base + 1, env, env.base + 2))
        else Now() == paused && r == NoShadow
    {
      hide Append, AppendOutbox;
      var _ := mailbox.AppendToOutbox(ask);
      log.SetConversationState(ask.peer, Paused, Some(ask.id), PeerOffline, env.now);
      if !shadow {
        return NoShadow;
      }
      var second := AskEvent(ask.peer, question, Some(ask.id), env.snapshotClock, env.base + 1, env.now);
      var _ := log.AppendEvent(second);
      var _ := mailbox.AppendToOutbox(second);
      var answer := ShadowEvent(ask.peer, second.id, env, env.base + 2);
      var _ := log.AppendEvent(answer);
      r := Answered(answer);
    }
  }

  // ----- Runs of one peer's conversations -----

  datatype Op =
    | Online(p: PeerId, question: Text, inReplyTo: Option<Id>, msgs: seq<Message>, env: Env)
    | Offline(p: PeerId, question: Text, inReplyTo: Option<Id>, shadow: bool, env: Env)
    | Failed(p: PeerId, question: Text, inReplyTo: Option<Id>, env: Env)
    | Synced(es: seq<Event>)
    | TimedOut(p: PeerId, seconds: nat, now: Time)
    | Resume(p: PeerId, now: Time)

  function Stamped(s: Session, self: PeerId, op: Op): Option<Event> {
    match op
    case Online(p, q, re, _, env) => Some(NewAsk(s, self, p, q, re, env))
    case Offline(p, q, re, _, env) => Some(NewAsk(s, self, p, q, re, env))
    case Failed(p, q, re, env) => Some(NewAsk(s, self, p, q, re, env))
    case _ => None
  }

  // Only the state of a conversation changes, not its last event.
  function Moved(s: Session, p: PeerId, state: ConvState, reason: Reason, now: Time): Session
    requires p in s.states
  {
    s.(states := Put(s.states, p, state, s.states[p].lastEvent, reason, now))
  }

  function Apply(s: Session, self: PeerId, op: Op): Session {
    match op
    case Online(p, q, re, msgs, env) => AskOnline(s, self, NewAsk(s, self, p, q, re, env), msgs, env)
    case Offline(p, q, re, shadow, env) => AskOffline(s, self, NewAsk(s, self, p, q, re, env), shadow, env)
    case Failed(p, q, re, env) => LogAsk(s, self, NewAsk(s, self, p, q, re, env))
    // Whatever a synchronisation appends to the log.
    case Synced(es) => s.(log := PullLog(s.log, es))
    // The daemon times out active conversations only.
    case TimedOut(p, seconds, now) =>
      if p in s.states && s.states[p].state == Active then
        Moved(s, p, TimeoutDisconnect, SessionTimeout(seconds), now)
      else s
    case Resume(p, now) =>
      if p in s.states && Resumable(s.states[p].state) then
        Moved(s, p, Resumed, ResumedFrom(s.states[p].state), now)
      else s
  }

  /** What can be resumed: a conversation whose ask found the peer away, and one that was
      timed out; not one that was just answered in real time. */
  lemma ResumesAfterPauseOrTimeout(
    s: Session, self: PeerId, p: PeerId, question: Text, inReplyTo: Option<Id>, msgs: seq<Message>, shadow: bool,
    env: Env, seconds: nat, now: Time)
    requires p !in s.states
    ensures var away := Apply(s, self, Offline(p, question, inReplyTo, shadow, env));
      var there := Apply(s, self, Online(p, question, inReplyTo, msgs, env));
      var timedOut := Apply(there, self, TimedOut(p, seconds, now));
      var resume := Resume(p, now);
      && away.states == s.states[p := Entry(Paused, Some(env.base), PeerOffline, env.now)]
      && Apply(away, self, resume).states == s.states[p := Entry(Resumed, Some(env.base), ResumedFrom(Paused), now)]
      && there.states == s.states[p := Entry(Active, Some(env.base + 1), RealtimeActive, env.now)]
      && Apply(there, self, resume) == there && Apply(away, self, TimedOut(p, seconds, now)) == away
      && timedOut.states ==
           s.states[p := Entry(TimeoutDisconnect, Some(env.base + 1), SessionTimeout(seconds), now)]
      && Apply(timedOut, self, resume).states ==
           s.states[p := Entry(Resumed, Some(env.base + 1), ResumedFrom(TimeoutDisconnect), now)]
  {
    hide Append, AppendOutbox, Incremented, AnswerIn;
  }

  // Ids handed out by an operation are new to the log.
  predicate UsesNewIds(s: Session, op: Op) {
    match op
    case Online(_, _, _, _, env) => !HasId(s.log, env.base) && !HasId(s.log, env.base + 1)
    case Offline(_, _, _, _, env) =>
      !HasId(s.log, env.base) && !HasId(s.log, env.base + 1) && !HasId(s.log, env.base + 2)
    case Failed(_, _, _, env) => !HasId(s.log, env.base)
    case _ => true
  }

  ghost predicate IsRun(s: Session, self: PeerId, ops: seq<Op>, last: Session)
    decreases |ops|
  {
    if ops == [] then last == s
    else UsesNewIds(s, ops[0]) && IsRun(Apply(s, self, ops[0]), self, ops[1..], last)
  }

  ghost predicate Names(log: seq<Event>, p: PeerId, id: Id) {
    exists i :: 0 <= i < |log| && log[i].id == id && log[i].peer == p
  }

  // Every conversation entry names a logged event of that peer.
  ghost predicate EntriesNameEvents(s: Session) {
    forall p :: p in s.states ==> s.states[p].lastEvent.Some? && Names(s.log, p, s.states[p].lastEvent.value)
  }

  lemma PullLogExtends(log: seq<Event>, es: seq<Event>)
    ensures log <= PullLog(log, es)
    decreases |es|
  {
    if es != [] {
      PullLogExtends(log, es[..|es|-1]);
      AppendLaws(PullLog(log, es[..|es|-1]), es[|es|-1]);
    }
  }

  lemma NamesGrows(log: seq<Event>, log': seq<Event>, p: PeerId, id: Id)
    requires log <= log' && Names(log, p, id)
    ensures Names(log', p, id)
  {
    var i :| 0 <= i < |log| && log[i].id == id && log[i].peer == p;
    assert log'[i] == log[i];
  }

  lemma NamesAppended(log: seq<Event>, e: Event)
    requires !HasId(log, e.id)
    ensures Names(Append(log, e), e.peer, e.id)
  {
    assert Append(log, e)[|log|] == e;
  }

  lemma ApplyExtendsLog(s: Session, self: PeerId, op: Op)
    ensures s.log <= Apply(s, self, op).log
  {
    match op
    case Synced(es) => PullLogExtends(s.log, es);
    case _ =>
  }

  ghost predicate KeptOrNaming(s: Session, t: Session, p: PeerId)
    requires p in t.states
  {
    || (p in s.states && t.states[p] == s.states[p])
    || (t.states[p].lastEvent.Some? && Names(t.log, p, t.states[p].lastEvent.value))
  }

  // The entry an operation writes names the ask it logs.
  lemma NewEntryNamesEvent(s: Session, self: PeerId, op: Op)
    requires UsesNewIds(s, op) && (op.Online? || op.Offline? || op.Failed?)
    ensures var t := Apply(s, self, op);
      forall p :: p in t.states ==> KeptOrNaming(s, t, p)
  {
    match op
    case Online(p, q, re, msgs, env) =>
      var ask := NewAsk(s, self, p, q, re, env);
      var answer := AnswerEvent(p, AnswerIn(msgs, ask.id), ask.id, Incremented(s.clock, self), env.base + 1, env.now);
      AppendLaws(s.log, ask);
      NamesAppended(Append(s.log, ask), answer);
    case Offline(p, q, re, shadow, env) =>
      var ask := NewAsk(s, self, p, q, re, env);
      ApplyExtendsLog(s, self, op);
      NamesAppended(s.log, ask);
      NamesGrows(Append(s.log, ask), Apply(s, self, op).log, p, ask.id);
    case _ =>
  }

  lemma ApplyKeepsEntries(s: Session, self: PeerId, op: Op)
    requires EntriesNameEvents(s) && UsesNewIds(s, op)
    ensures EntriesNameEvents(Apply(s, self, op))
  {
    hide HasId, Names, NewAsk;
    var t := Apply(s, self, op);
    ApplyExtendsLog(s, self, op);
    forall p | p in s.states ensures Names(t.log, p, s.states[p].lastEvent.value) {
      NamesGrows(s.log, t.log, p, s.states[p].lastEvent.value);
    }
    if op.Online? || op.Offline? || op.Failed? {
      NewEntryNamesEvent(s, self, op);
      assert forall p :: p in t.states ==> KeptOrNaming(s, t, p);
    }
  }

  lemma {:induction false} RunKeepsEntries(s: Session, self: PeerId, ops: seq<Op>, last: Session)
    requires EntriesNameEvents(s) && IsRun(s, self, ops, last)
    ensures EntriesNameEvents(last)
    decreases |ops|
  {
    if ops == [] {
    } else {
      ApplyKeepsEntries(s, self, ops[0]);
      RunKeepsEntries(Apply(s, self, ops[0]), self, ops[1..], last);
    }
  }

  // What `ConversationLog.ResumeConversation` promises about its result.
  ghost predicate ResumeResult(log: seq<Event>, states: States, p: PeerId, r: seq<Event>) {
    if p !in states || !Resumable(states[p].state) then r == []
    else match states[p].lastEvent
      case None => r == LoadByPeer(log, p)
      case Some(id) => if HasId(log, id) then IsThread(log, id, r) else r == LoadByPeer(log, p)
  }

  /** In every run that starts with no conversation recorded, resuming a paused or
      timed-out one returns the non-empty thread around its last event, never a
      fallback. */
  lemma ResumeReturnsThread(s: Session, self: PeerId, ops: seq<Op>, last: Session, p: PeerId, r: seq<Event>)
    requires s.states == map[] && IsRun(s, self, ops, last)
    requires p in last.states && Resumable(last.states[p].state)
    requires ResumeResult(last.log, last.states, p, r)
    ensures var id := last.states[p].lastEvent;
      && id.Some? && HasId(last.log, id.value) && Names(last.log, p, id.value)
      && IsThread(last.log, id.value, r) && r != [] && HasId(r, id.value)
  {
    RunKeepsEntries(s, self, ops, last);
    var id := last.states[p].lastEvent.value;
    assert Names(last.log, p, id);
    ThreadHasRoot(last.log, id, r);
  }

  predicate Touches(op: Op, p: PeerId) {
    (op.Online? || op.Offline?) && op.p == p
  }

  /** After a resume nothing but another ask to the same peer makes that
      conversation resumable again; not even a timeout check. So resuming a second
      time before such an ask returns nothing. */
  lemma {:induction false} SecondResumeReturnsNothing(
    s: Session, self: PeerId, ops: seq<Op>, last: Session, p: PeerId, r: seq<Event>)
    requires p in s.states && s.states[p].state == Resumed
    requires IsRun(s, self, ops, last) && forall op :: op in ops ==> !Touches(op, p)
    requires ResumeResult(last.log, last.states, p, r)
    ensures p in last.states && last.states[p] == s.states[p] && r == []
    decreases |ops|
  {
    if ops == [] {
    } else {
      assert ops[0] in ops;
      SecondResumeReturnsNothing(Apply(s, self, ops[0]), self, ops[1..], last, p, r);
    }
  }

  // The asks stamped along a run.
  function Asks(s: Session, self: PeerId, ops: seq<Op>): seq<Event>
    decreases |ops|
  {
    if ops == [] then []
    else
      var a := Stamped(s, self, ops[0]);
      (if a.Some? then [a.value] else []) + Asks(Apply(s, self, ops[0]), self, ops[1..])
  }

  lemma BeforeIsTransitive(a: Clock, b: Clock, c: Clock)
    requires Before(a, b) && (Before(b, c) || b == c)
    ensures Before(a, c)
  {
    RelationIsPartialOrder(a, b, c);
  }

  ghost predicate IncreasingFrom(c: Clock, asks: seq<Event>) {
    && (forall i :: 0 <= i < |asks| ==> Before(c, asks[i].clock))
    && forall i, j :: 0 <= i < j < |asks| ==> Before(asks[i].clock, asks[j].clock)
  }

  lemma PrependAsk(c: Clock, a: Event, rest: seq<Event>)
    requires Before(c, a.clock) && IncreasingFrom(a.clock, rest)
    ensures IncreasingFrom(c, [a] + rest)
  {
    hide Before;
    forall i | 0 <= i < |rest| ensures Before(c, rest[i].clock) {
      BeforeIsTransitive(c, a.clock, rest[i].clock);
    }
  }

  /** The asks a peer stamps form a strictly increasing chain of clocks, each
      strictly after the clock the run started from. */
  lemma {:induction false} AsksIncrease(s: Session, self: PeerId, ops: seq<Op>)
    ensures IncreasingFrom(s.clock, Asks(s, self, ops))
    decreases |ops|
  {
    hide Apply, Stamped, IncreasingFrom;
    if ops == [] {
      NoAsks(s.clock);
    } else {
      var t := Apply(s, self, ops[0]);
      var rest := Asks(t, self, ops[1..]);
      var a := Stamped(s, self, ops[0]);
      AsksIncrease(t, self, ops[1..]);
      ClockStep(s, self, ops[0]);
      if a.Some? {
        PrependAsk(s.clock, a.value, rest);
      } else {
        assert [] + rest == rest;
      }
    }
  }

  lemma NoAsks(c: Clock)
    ensures IncreasingFrom(c, [])
  {}

  lemma ClockStep(s: Session, self: PeerId, op: Op)
    ensures var a, t := Stamped(s, self, op), Apply(s, self, op);
      if a.Some? then a.value.clock == t.clock && Before(s.clock, t.clock) else t.clock == s.clock
  {
    IncrementIsStrictlyAfter(s.clock, self);
  }

  /** An offline question handled by a shadow queues two asks with the same text:
      the peer's own and the shadow's, which replies to it. */
  lemma OfflineAskQueuesTwice(s: Session, self: PeerId, p: PeerId, question: Text, inReplyTo: Option<Id>, env: Env)
    requires env.base !in s.box.state && env.base + 1 !in s.box.state
    ensures var ask := NewAsk(s, self, p, question, inReplyTo, env);
      var t := AskOffline(s, self, ask, true, env);
      exists second :: t.box.outbox == s.box.outbox + [ask, second] && second.kind == Ask && second.peer == p
        && second.payload == ask.payload && second.inReplyTo == Some(ask.id)
        && ask.id in t.box.state && t.box.state[ask.id] == PendingDelivery
        && second.id in t.box.state && t.box.state[second.id] == PendingDelivery
  {
    var ask := NewAsk(s, self, p, question, inReplyTo, env);
    var second := AskEvent(p, question, Some(ask.id), env.snapshotClock, env.base + 1, env.now);
    assert s.box.outbox + [ask] + [second] == s.box.outbox + [ask, second];
  }

  /** The simulated answer to an offline ask replies to the shadow's ask, not to the
      peer's own. So whatever is logged later, it is reconciled only against a real
      answer to that second ask: one that replies to the first never decides it. */
  lemma ShadowAnswerAwaitsSecondAsk(
    s: Session, self: PeerId, p: PeerId, question: Text, inReplyTo: Option<Id>, env: Env,
    more: seq<Event>, resolve: Resolver)
    requires UsesNewIds(s, Offline(p, question, inReplyTo, true, env))
    requires inReplyTo != Some(env.base + 1) && forall e :: e in s.log ==> e.inReplyTo != Some(env.base + 1)
    ensures var ask := NewAsk(s, self, p, question, inReplyTo, env);
      var log := AskOffline(s, self, ask, true, env).log + more;
      var sim := ShadowEvent(p, env.base + 1, env, env.base + 2);
      && sim in log && sim.kind == SimulatedAnswer
      && (Counterpart(Realtime(log, p), sim).Some? <==> exists e :: e in more && AnswersFrom(p, env.base + 1)(e))
      && ((forall e :: e in more && e.peer == p && e.kind == RealtimeAnswer ==> e.inReplyTo == Some(ask.id)) ==>
            Decide(Realtime(log, p), resolve, sim) == Skip)
  {
    var ask := NewAsk(s, self, p, question, inReplyTo, env);
    var t := AskOffline(s, self, ask, true, env);
    var second := AskEvent(p, question, Some(ask.id), env.snapshotClock, env.base + 1, env.now);
    var sim := ShadowEvent(p, env.base + 1, env, env.base + 2);
    OfflineLog(s, self, p, question, inReplyTo, env);
    assert t.log == s.log + [ask, second, sim];
    hide AskOffline, ShadowAsk, UsesNewIds, NewAsk, Counterpart, Realtime;
    assert sim in t.log;
    forall e | e in t.log ensures !AnswersFrom(p, env.base + 1)(e) {
      if e !in s.log {
        assert e == ask || e == second || e == sim;
      }
    }
    CounterpartComesWith(t.log, more, p, sim);
  }

  lemma OfflineLog(s: Session, self: PeerId, p: PeerId, question: Text, inReplyTo: Option<Id>, env: Env)
    requires UsesNewIds(s, Offline(p, question, inReplyTo, true, env))
    ensures var ask := NewAsk(s, self, p, question, inReplyTo, env);
      AskOffline(s, self, ask, true, env).log == s.log + [
        ask, AskEvent(p, question, Some(ask.id), env.snapshotClock, env.base + 1, env.now),
        ShadowEvent(p, env.base + 1, env, env.base + 2)]
  {
    var ask := NewAsk(s, self, p, question, inReplyTo, env);
    var second := AskEvent(p, question, Some(ask.id), env.snapshotClock, env.base + 1, env.now);
    var sim := ShadowEvent(p, env.base + 1, env, env.base + 2);
    var a, b := s.log + [ask], s.log + [ask] + [second];
    forall i | 0 <= i < |a| ensures a[i].id != second.id {}
    forall i | 0 <= i < |b| ensures b[i].id != sim.id {}
    assert Append(s.log, ask) == a && Append(a, second) == b && Append(b, sim) == b + [sim];
  }

  /** The answer found in real time is logged under an id of its own. So when its
      message is pulled later, the ask has two real answers, unless the message's id was
      logged already. */
  lemma LiveAnswerIsLoggedTwiceIff(
    s: Session, self: PeerId, p: PeerId, question: Text, inReplyTo: Option<Id>, msgs: seq<Message>, env: Env,
    m: Message, newId: Id)
    requires UsesNewIds(s, Online(p, question, inReplyTo, msgs, env))
    requires forall e :: e in s.log ==> e.inReplyTo != Some(env.base)
    requires inReplyTo != Some(env.base) && AnswersFrom(p, env.base)(EventFromMessage(m, newId))
    ensures var t := Apply(s, self, Online(p, question, inReplyTo, msgs, env));
      var keep := AnswersFrom(p, env.base);
      && |Filter(keep, t.log)| == 1
      && |Filter(keep, PullLog(t.log, [EventFromMessage(m, newId)]))| ==
           if HasId(t.log, EventFromMessage(m, newId).id) then 1 else 2
  {
    var keep, pulled := AnswersFrom(p, env.base), EventFromMessage(m, newId);
    var ask := NewAsk(s, self, p, question, inReplyTo, env);
    var t := Apply(s, self, Online(p, question, inReplyTo, msgs, env));
    var answer := AnswerEvent(p, AnswerIn(msgs, ask.id), ask.id, Incremented(s.clock, self), env.base + 1, env.now);
    OnlineLog(s, self, p, question, inReplyTo, msgs, env);
    assert t.log == (s.log + [ask]) + [answer];
    hide Filter, Apply, AnswerIn;
    FilterConcat(keep, s.log + [ask], [answer]);
    FilterNone(keep, s.log + [ask]);
    FilterAllIff(keep, [answer]);
    FilterConcat(keep, t.log, [pulled]);
    FilterAllIff(keep, [pulled]);
    assert [pulled][..0] == [];
    assert PullLog(t.log, [pulled]) == Append(t.log, pulled);
  }

  lemma OnlineLog(
    s: Session, self: PeerId, p: PeerId, question: Text, inReplyTo: Option<Id>, msgs: seq<Message>, env: Env)
    requires UsesNewIds(s, Online(p, question, inReplyTo, msgs, env))
    ensures var ask := NewAsk(s, self, p, question, inReplyTo, env);
      Apply(s, self, Online(p, question, inReplyTo, msgs, env)).log == s.log + [
        ask, AnswerEvent(p, AnswerIn(msgs, ask.id), ask.id, Incremented(s.clock, self), env.base + 1, env.now)]
  {
    var ask := NewAsk(s, self, p, question, inReplyTo, env);
    var answer := AnswerEvent(p, AnswerIn(msgs, ask.id), ask.id, Incremented(s.clock, self), env.base + 1, env.now);
    var a := s.log + [ask];
    forall i | 0 <= i < |a| ensures a[i].id != answer.id {}
    assert Append(s.log, ask) == a && Append(a, answer) == a + [answer];
  }

  /** An ask answered in real time leaves two events behind, the ask stamped with the
      peer's advanced clock and the answer to it, and nothing in the mailbox. */
  lemma OnlineAskShows(
    s: Session, self: PeerId, p: PeerId, question: Text, inReplyTo: Option<Id>, msgs: seq<Message>, env: Env)
    requires UsesNewIds(s, Online(p, question, inReplyTo, msgs, env))
    ensures var t := Apply(s, self, Online(p, question, inReplyTo, msgs, env));
      && |t.log| == |s.log| + 2 && s.log <= t.log && t.box == s.box && t.clock == Incremented(s.clock, self)
      && var ask, answer := t.log[|s.log|], t.log[|s.log| + 1];
      && IsAskOf(ask, env.base, p, question, inReplyTo, env.now) && ask.clock == t.clock
      && AnswersAsk(answer, ask.id, p, msgs) && answer.id == env.base + 1 && answer.time == env.now
      && answer.clock == t.clock && !answer.degraded
  {
    OnlineLog(s, self, p, question, inReplyTo, msgs, env);
    AnswerEventAnswers(p, env.base, msgs, Incremented(s.clock, self), env.base + 1, env.now);
    hide Append, Incremented, AnswersAsk;
  }

  ghost predicate IsAskOf(e: Event, id: Id, p: PeerId, question: Text, inReplyTo: Option<Id>, now: Time) {
    && e.id == id && e.kind == Ask && e.peer == p && e.time == now && e.inReplyTo == inReplyTo
    && e.payload.body == question && e.payload.answer == 0 && e.payload.declaredKind.None? && e.payload.clock.None?
    && !e.degraded && !e.realtime && e.basedOn == 0 && !e.snapshotStale
  }

  /** An ask that finds the peer away leaves the ask behind, in log and outbox, and with a
      shadow its own ask in reply and the simulated answer to that: marked as degraded,
      with the snapshot it rests on and that snapshot's clock. */
  lemma OfflineAskShows(
    s: Session, self: PeerId, p: PeerId, question: Text, inReplyTo: Option<Id>, shadow: bool, env: Env)
    requires UsesNewIds(s, Offline(p, question, inReplyTo, true, env))
    requires env.base !in s.box.state && env.base + 1 !in s.box.state
    ensures var t := Apply(s, self, Offline(p, question, inReplyTo, shadow, env));
      && |t.log| == |s.log| + (if shadow then 3 else 1) && s.log <= t.log && t.clock == Incremented(s.clock, self)
      && t.box.inbox == s.box.inbox && t.box.outbox == s.box.outbox + t.log[|s.log|..|s.log| + if shadow then 2 else 1]
      && IsAskOf(t.log[|s.log|], env.base, p, question, inReplyTo, env.now) && t.log[|s.log|].clock == t.clock
      && (shadow ==>
            var second, answer := t.log[|s.log| + 1], t.log[|s.log| + 2];
            && IsAskOf(second, env.base + 1, p, question, Some(env.base), env.now) && second.clock == env.snapshotClock
            && answer.id == env.base + 2 && answer.kind == SimulatedAnswer && answer.peer == p && answer.time == env.now
            && answer.clock == env.snapshotClock && answer.inReplyTo == Some(env.base + 1)
            && answer.payload == Payload(None, None, env.simulated, 0, None) && answer.degraded && !answer.realtime
            && answer.basedOn == env.snapshot && answer.snapshotStale == env.stale)
  {
    var ask := NewAsk(s, self, p, question, inReplyTo, env);
    assert Append(s.log, ask) == s.log + [ask];
    if shadow {
      OfflineLog(s, self, p, question, inReplyTo, env);
      var second := AskEvent(p, question, Some(ask.id), env.snapshotClock, env.base + 1, env.now);
      assert s.box.outbox + [ask] + [second] == s.box.outbox + [ask, second];
    }
    hide Append, Incremented;
  }

  /** An ask whose transport raises leaves the ask behind in the log, and nothing else. */
  lemma FailedAskShows(s: Session, self: PeerId, p: PeerId, question: Text, inReplyTo: Option<Id>, env: Env)
    requires UsesNewIds(s, Failed(p, question, inReplyTo, env))
    ensures var t := Apply(s, self, Failed(p, question, inReplyTo, env));
      && t.box == s.box && t.states == s.states && t.clock == Incremented(s.clock, self)
      && |t.log| == |s.log| + 1 && s.log <= t.log
      && IsAskOf(t.log[|s.log|], env.base, p, question, inReplyTo, env.now) && t.log[|s.log|].clock == t.clock
  {}

  /** The asks that are stamped are those that get logged. */
  lemma StampedIsLogged(s: Session, self: PeerId, op: Op)
    requires UsesNewIds(s, op)
    ensures var stamped := Stamped(s, self, op);
      && (stamped.Some? <==> op.Online? || op.Offline? || op.Failed?)
      && (stamped.Some? ==>
            && stamped.value in Apply(s, self, op).log
            && IsAskOf(stamped.value, op.env.base, op.p, op.question, op.inReplyTo, op.env.now))
  {
    match op
    case Online(p, q, re, msgs, env) => OnlineLog(s, self, p, q, re, msgs, env);
    case Offline(p, q, re, shadow, env) =>
      var ask := NewAsk(s, self, p, q, re, env);
      assert Append(s.log, ask) == s.log + [ask];
      if shadow {
        OfflineLog(s, self, p, q, re, env);
      }
    case Failed(p, q, re, env) =>
      assert Apply(s, self, op).log == s.log + [NewAsk(s, self, p, q, re, env)];
    case _ =>
  }
}
