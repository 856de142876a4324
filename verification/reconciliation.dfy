/** What a reconciliation pass decides, and how passes over a growing log relate
    (server/async_comm/sync_protocol.py, server/async_comm/conversation_log.py). */
module Reconciliation {
  import opened Collections
  import opened CommTypes
  import opened DeliveryStatus
  import opened Mailboxes
  import opened TimeOrder
  import opened ConversationLogs
  import opened SyncProtocols

  function Decided(rule: Event -> Ruling): Event -> bool {
    (sim: Event) => rule(sim).Rule?
  }

  /** A pass logs exactly one event per decided answer, in the order visited, and
      nothing else. */
  lemma {:induction false} OnePerDecided(rule: Event -> Ruling, p: PeerId, sims: seq<Event>, base: Id, now: Time)
    ensures var r := Resolutions(rule, p, sims, base, now);
      var d := Filter(Decided(rule), sims);
      |r| == |d| &&
      forall i :: 0 <= i < |r| ==> rule(d[i]).Rule? && r[i] == Resolution(p, rule(d[i]), d[i], base + i, now)
  {
    hide Filter, Resolutions, Resolution;
    if sims == [] {
      NothingRuled(rule, p, map[], base, now);
      FilterNone(Decided(rule), sims);
    } else {
      var n := |sims| - 1;
      OnePerDecided(rule, p, sims[..n], base, now);
      ResolutionsStep(rule, p, sims, n, base, now);
      FilterStep(Decided(rule), sims, n);
      assert sims[..n+1] == sims;
    }
  }

  // The real answers to one ask, as they lie in the log.
  function AnswersFrom(p: PeerId, ask: Id): Event -> bool {
    (e: Event) => e.peer == p && e.kind == RealtimeAnswer && e.inReplyTo == Some(ask)
  }

  /** The counterpart of a simulated answer is the earliest real answer to the
      same ask, the first in the log among equally early ones. */
  lemma CounterpartIsEarliest(log: seq<Event>, p: PeerId, sim: Event)
    requires sim.inReplyTo.Some?
    ensures var answers := Filter(AnswersFrom(p, sim.inReplyTo.value), log);
      Counterpart(Realtime(log, p), sim) == if answers == [] then None else Some(Earliest(answers))
  {
    var ask := sim.inReplyTo.value;
    var ofPeer := Filter(WithPeer(p), log);
    var reals := Filter(OfKind(RealtimeAnswer), ofPeer);
    var answers := Filter(AnswersFrom(p, ask), log);
    var real_ := (e: Event) => WithPeer(p)(e) && OfKind(RealtimeAnswer)(e);
    FilterTwice(WithPeer(p), OfKind(RealtimeAnswer), real_, log);
    FilterTwice(real_, AnswersTo(ask), AnswersFrom(p, ask), log);
    assert Filter(AnswersTo(ask), reals) == answers;
    FilterCommutesWithSort(OfKind(RealtimeAnswer), ofPeer);
    FilterCommutesWithSort(AnswersTo(ask), reals);
    assert Filter(AnswersTo(ask), Realtime(log, p)) == SortByTime(answers);
    if answers != [] {
      HeadOfSort(answers);
    }
  }

  /** As the log grows, the answer a simulated one is judged against changes
      exactly when a strictly earlier real answer to the same ask arrives; so a
      deterministic resolver keeps repeating its verdict until then. */
  lemma CounterpartChangesIff(log: seq<Event>, more: seq<Event>, p: PeerId, sim: Event)
    requires Counterpart(Realtime(log, p), sim).Some?
    ensures var was := Counterpart(Realtime(log, p), sim);
      (Counterpart(Realtime(log + more, p), sim) != was) <==>
      (exists e :: e in more && AnswersFrom(p, sim.inReplyTo.value)(e) && e.time < was.value.time)
  {
    var keep := AnswersFrom(p, sim.inReplyTo.value);
    CounterpartIsEarliest(log, p, sim);
    CounterpartIsEarliest(log + more, p, sim);
    var a, b := Filter(keep, log), Filter(keep, more);
    FilterConcat(keep, log, more);
    FilterMembers(keep, more);
    EarliestOfConcat(a, b);
    if exists e :: e in more && keep(e) && e.time < Earliest(a).time {
      var e :| e in more && keep(e) && e.time < Earliest(a).time;
      assert e in b;
    }
    if b != [] && Earliest(b).time < Earliest(a).time {
      assert Earliest(b) in more && keep(Earliest(b));
    }
  }

  // The resolver gave this event's decision and note on these two answers.
  ghost predicate RestsOn(log: seq<Event>, p: PeerId, resolve: Resolver, e: Event, sim: Event) {
    var real_ := Counterpart(Realtime(log, p), sim);
    && e.inReplyTo == Some(sim.id) && real_.Some? && e.payload.grounds.Some?
    && e.payload.grounds.value.simulated == sim.payload.answer
    && e.payload.grounds.value.real_ == real_.value.payload.answer
    && resolve(sim.payload.answer, real_.value.payload.answer, sim.id) == Ruled(e.kind, e.payload.grounds.value.note)
  }

  /** Every logged resolution shows its grounds: the simulated answer it replies to, the
      real one it was compared with, and the resolver's decision and note on the two. */
  lemma ResolutionsShowGrounds(log: seq<Event>, p: PeerId, resolve: Resolver, base: Id, now: Time)
    ensures forall e :: e in Reconciled(log, p, resolve, base, now) ==>
              exists sim :: sim in Simulated(log, p) && RestsOn(log, p, resolve, e, sim)
    ensures forall e :: e in Reconciled(log, p, resolve, base, now) ==>
              && e.peer == p && e.time == now && e.id >= base && e.clock == map[]
              && !e.realtime && !e.degraded && !e.snapshotStale && e.basedOn == 0
              && e.payload.answer == 0 && e.payload.body == 0 && e.payload.declaredKind.None? && e.payload.clock.None?
  {
    hide Simulated, Realtime, Counterpart, Filter;
    var rule, sims := Rulings(log, p, resolve), Simulated(log, p);
    var added := Reconciled(log, p, resolve, base, now);
    OnePerDecided(rule, p, sims, base, now);
    FilterMembers(Decided(rule), sims);
    forall e | e in added
      ensures exists sim :: sim in sims && RestsOn(log, p, resolve, e, sim)
      ensures e.peer == p && e.time == now && e.id >= base && e.clock == map[]
      ensures !e.realtime && !e.degraded && !e.snapshotStale && e.basedOn == 0
      ensures e.payload.answer == 0 && e.payload.body == 0 && e.payload.declaredKind.None? && e.payload.clock.None?
    {
      var i :| 0 <= i < |added| && added[i] == e;
      var sim := Filter(Decided(rule), sims)[i];
      assert sim in Filter(Decided(rule), sims);
      assert RestsOn(log, p, resolve, e, sim);
    }
  }

  /** The whole stage: with a resolver it logs one resolution for each decided answer, each
      showing its grounds, and a mailbox message still open takes the first verdict on it;
      without one it does nothing. */
  lemma StageDecidesAll(b: Box, log: seq<Event>, p: PeerId, resolver: Option<Resolver>, base: Id, now: Time, id: Id)
    ensures var added := ReconcileStage(log, p, resolver, base, now);
      && (resolver.None? ==> added == [] && Settled(b, added) == b)
      && (resolver.Some? ==>
            && |added| == |Filter(Decided(Rulings(log, p, resolver.value)), Simulated(log, p))|
            && forall e :: e in added ==>
                 exists sim :: sim in Simulated(log, p) && RestsOn(log, p, resolver.value, e, sim))
      && Settled(b, added).inbox == b.inbox && Settled(b, added).outbox == b.outbox
      && (id in b.state ==>
            var verdicts := Filter(Settles(id), added);
            && id in Settled(b, added).state
            && if Terminal(b.state[id]) || verdicts == [] then Settled(b, added).state[id] == b.state[id]
               else Some(Settled(b, added).state[id]) == StatusFor(verdicts[0].kind))
  {
    hide Simulated, Realtime, Counterpart, Filter, Resolutions, Settles, RestsOn;
    var added := ReconcileStage(log, p, resolver, base, now);
    if resolver.Some? {
      OnePerDecided(Rulings(log, p, resolver.value), p, Simulated(log, p), base, now);
      ResolutionsShowGrounds(log, p, resolver.value, base, now);
    }
    if id in b.state {
      FirstVerdictStands(b.state, added, id);
    }
  }

  /** As long as no real answer to the ask is logged, one turns up exactly with the
      events that follow. */
  lemma CounterpartComesWith(log: seq<Event>, more: seq<Event>, p: PeerId, sim: Event)
    requires sim.inReplyTo.Some? && forall e :: e in log ==> !AnswersFrom(p, sim.inReplyTo.value)(e)
    ensures Counterpart(Realtime(log + more, p), sim).Some? <==>
      (exists e :: e in more && AnswersFrom(p, sim.inReplyTo.value)(e))
  {
    hide Counterpart, Realtime;
    var keep := AnswersFrom(p, sim.inReplyTo.value);
    CounterpartIsEarliest(log + more, p, sim);
    FilterMembers(keep, log + more);
    var answers := Filter(keep, log + more);
    if answers != [] {
      assert answers[0] in more && keep(answers[0]);
    }
  }

  /** The three counts add up to the number of logged events exactly when the
      resolver names none but the three known decisions. */
  lemma {:induction false} TallyAddsUpIff(es: seq<Event>)
    ensures var t := TallyOf(es);
      && t.confirmed + t.revised + t.needsReview <= |es|
      && (t.confirmed + t.revised + t.needsReview == |es| <==> forall e :: e in es ==> StatusFor(e.kind).Some?)
  {
    hide Filter;
    if es == [] {
      NothingCounted();
    } else {
      var e, tail := es[0], es[1..];
      assert es == [e] + tail;
      TallyAddsUpIff(tail);
      FilterCons(OfKind(ConfirmedEvent), e, tail);
      FilterCons(OfKind(RevisedEvent), e, tail);
      FilterCons(OfKind(ReviewEvent), e, tail);
    }
  }

  lemma NothingCounted()
    ensures TallyOf([]) == Tally(0, 0, 0)
  {}

  predicate LooksLikeAnswer(kind: EventKind) {
    kind == SimulatedAnswer || kind == RealtimeAnswer
  }

  // On this log the resolver names no decision that is itself a type of answer.
  ghost predicate Quiet(log: seq<Event>, p: PeerId, resolve: Resolver) {
    forall sim :: sim in Simulated(log, p) && Rulings(log, p, resolve)(sim).Rule? ==>
      !LooksLikeAnswer(Rulings(log, p, resolve)(sim).decision)
  }

  /** Every resolver that never names a type of answer as its decision is quiet on every
      log, unknown decisions included. */
  lemma ProperIsQuiet(log: seq<Event>, p: PeerId, resolve: Resolver)
    requires forall a, b, id :: resolve(a, b, id).Ruled? ==> !LooksLikeAnswer(resolve(a, b, id).decision)
    ensures Quiet(log, p, resolve)
  {
    forall sim | sim in Simulated(log, p) && Rulings(log, p, resolve)(sim).Rule?
      ensures !LooksLikeAnswer(Rulings(log, p, resolve)(sim).decision)
    {
      var real_ := Counterpart(Realtime(log, p), sim).value;
      assert resolve(sim.payload.answer, real_.payload.answer, sim.id).Ruled?;
    }
  }

  // The kinds a pass logs are the decisions of its rulings.
  lemma QuietIff(log: seq<Event>, p: PeerId, resolve: Resolver, base: Id, now: Time)
    ensures Quiet(log, p, resolve) <==> forall e :: e in Reconciled(log, p, resolve, base, now) ==>
              e.peer == p && !LooksLikeAnswer(e.kind)
  {
    hide Simulated, Realtime, Counterpart, Filter;
    var rule, sims := Rulings(log, p, resolve), Simulated(log, p);
    var added, decided := Reconciled(log, p, resolve, base, now), Filter(Decided(rule), sims);
    OnePerDecided(rule, p, sims, base, now);
    FilterMembers(Decided(rule), sims);
    forall e | e in added ensures e.peer == p && (Quiet(log, p, resolve) ==> !LooksLikeAnswer(e.kind)) {
      var i :| 0 <= i < |added| && added[i] == e;
      assert decided[i] in decided;
    }
    forall sim | sim in sims && rule(sim).Rule?
      ensures exists e :: e in added && e.kind == rule(sim).decision
    {
      assert sim in decided;
      var i :| 0 <= i < |decided| && decided[i] == sim;
      assert added[i] in added;
    }
  }

  /** The next pass sees the same simulated and real answers, hence gives the same
      verdicts, if and only if no decision of this one is a type of answer. */
  lemma PassFeedsBackIff(log: seq<Event>, p: PeerId, resolve: Resolver, base: Id, now: Time)
    ensures var log' := log + Reconciled(log, p, resolve, base, now);
      Simulated(log', p) == Simulated(log, p) && Realtime(log', p) == Realtime(log, p) <==> Quiet(log, p, resolve)
  {
    hide Quiet, Filter, Reconciled, LoadByPeer;
    var added := Reconciled(log, p, resolve, base, now);
    QuietIff(log, p, resolve, base, now);
    ResolutionPeers(log, p, resolve, base, now);
    UnseenIff(log, added, p, SimulatedAnswer);
    UnseenIff(log, added, p, RealtimeAnswer);
  }

  lemma ResolutionPeers(log: seq<Event>, p: PeerId, resolve: Resolver, base: Id, now: Time)
    ensures forall e :: e in Reconciled(log, p, resolve, base, now) ==> e.peer == p
  {
    hide Filter, Simulated, Rulings;
    OnePerDecided(Rulings(log, p, resolve), p, Simulated(log, p), base, now);
  }

  function OfPeerAndKind(p: PeerId, k: EventKind): Event -> bool {
    (e: Event) => e.peer == p && e.kind == k
  }

  lemma KindOfPeer(log: seq<Event>, p: PeerId, k: EventKind)
    ensures Filter(OfKind(k), LoadByPeer(log, p)) == SortByTime(Filter(OfPeerAndKind(p, k), log))
  {
    FilterTwice(WithPeer(p), OfKind(k), OfPeerAndKind(p, k), log);
    FilterCommutesWithSort(OfKind(k), Filter(WithPeer(p), log));
  }

  // Events of a peer leave the answers of one kind as they are if none is of that kind.
  lemma UnseenIff(log: seq<Event>, added: seq<Event>, p: PeerId, k: EventKind)
    requires forall e :: e in added ==> e.peer == p
    ensures Filter(OfKind(k), LoadByPeer(log + added, p)) == Filter(OfKind(k), LoadByPeer(log, p))
       <==> forall e :: e in added ==> e.kind != k
  {
    hide Filter;
    var keep := OfPeerAndKind(p, k);
    KindOfPeer(log + added, p, k);
    KindOfPeer(log, p, k);
    FilterConcat(keep, log, added);
    FilterMembers(keep, added);
    if forall e :: e in added ==> e.kind != k {
      FilterNone(keep, added);
      assert Filter(keep, log) + [] == Filter(keep, log);
    } else {
      var e :| e in added && e.kind == k;
      assert e in Filter(keep, added);
    }
  }

  function AfterPass(log: seq<Event>, p: PeerId, resolve: Resolver, base: Id, now: Time): seq<Event> {
    log + Reconciled(log, p, resolve, base, now)
  }

  // The log after n passes with nothing arriving in between.
  function AfterPasses(log: seq<Event>, p: PeerId, resolve: Resolver, base: Id, now: Time, n: nat): seq<Event> {
    if n == 0 then log
    else
      var before := AfterPasses(log, p, resolve, base, now, n - 1);
      AfterPass(before, p, resolve, base + |before|, now)
  }

  // How many answers a pass over this log decides.
  function DecidedCount(log: seq<Event>, p: PeerId, resolve: Resolver): nat {
    |Filter(Decided(Rulings(log, p, resolve)), Simulated(log, p))|
  }

  lemma PassRepeats(log: seq<Event>, p: PeerId, resolve: Resolver, base: Id, now: Time)
    requires Quiet(log, p, resolve)
    ensures var after := AfterPass(log, p, resolve, base, now);
      && |after| == |log| + DecidedCount(log, p, resolve) && log <= after
      && DecidedCount(after, p, resolve) == DecidedCount(log, p, resolve) && Quiet(after, p, resolve)
  {
    OnePerDecided(Rulings(log, p, resolve), p, Simulated(log, p), base, now);
    PassFeedsBackIff(log, p, resolve, base, now);
    hide Simulated, Realtime, Filter;
  }

  /** Reconciliation is not idempotent: every pass appends the same number of
      events as the first, so repeating it leaves the log unchanged only if there
      was nothing to decide. */
  lemma {:induction false} PassesRepeat(log: seq<Event>, p: PeerId, resolve: Resolver, base: Id, now: Time, n: nat)
    requires Quiet(log, p, resolve)
    ensures |AfterPasses(log, p, resolve, base, now, n)| == |log| + n * DecidedCount(log, p, resolve)
    ensures DecidedCount(AfterPasses(log, p, resolve, base, now, n), p, resolve) == DecidedCount(log, p, resolve)
    ensures Quiet(AfterPasses(log, p, resolve, base, now, n), p, resolve)
  {
    hide *;
    if n == 0 {
      NoPass(log, p, resolve, base, now);
    } else {
      PassesRepeat(log, p, resolve, base, now, n - 1);
      OneMorePass(log, p, resolve, base, now, n - 1);
      Times(n, DecidedCount(log, p, resolve));
    }
  }

  lemma NoPass(log: seq<Event>, p: PeerId, resolve: Resolver, base: Id, now: Time)
    ensures AfterPasses(log, p, resolve, base, now, 0) == log
  {}

  lemma OneMorePass(log: seq<Event>, p: PeerId, resolve: Resolver, base: Id, now: Time, n: nat)
    requires Quiet(AfterPasses(log, p, resolve, base, now, n), p, resolve)
    ensures var before := AfterPasses(log, p, resolve, base, now, n);
      var after := AfterPasses(log, p, resolve, base, now, n + 1);
      && |after| == |before| + DecidedCount(before, p, resolve)
      && DecidedCount(after, p, resolve) == DecidedCount(before, p, resolve) && Quiet(after, p, resolve)
  {
    hide AfterPass, DecidedCount, Quiet;
    var before := AfterPasses(log, p, resolve, base, now, n);
    PassRepeats(before, p, resolve, base + |before|, now);
  }

  lemma Times(n: nat, k: nat)
    requires n > 0
    ensures n * k == (n - 1) * k + k
  {}

  // The resolutions of one message that settle a status.
  function Settles(id: Id): Event -> bool {
    (e: Event) => e.inReplyTo == Some(id) && StatusFor(e.kind).Some?
  }

  /** The first verdict stands: after any list of resolutions, over one pass or many, a
      message that was still open has the status of the first one that settles it, and
      a settled message keeps its status. */
  lemma {:induction false} FirstVerdictStands(state: StatusMap, es: seq<Event>, id: Id)
    requires id in state
    ensures var verdicts := Filter(Settles(id), es);
      if Terminal(state[id]) || verdicts == [] then Settle(state, es)[id] == state[id]
      else Some(Settle(state, es)[id]) == StatusFor(verdicts[0].kind)
  {
    hide Filter;
    if es == [] {
      FilterNone(Settles(id), es);
    } else {
      var n := |es| - 1;
      assert es == es[..n+1];
      FirstVerdictStands(state, es[..n], id);
      FilterStep(Settles(id), es, n);
      FilterMembers(Settles(id), es[..n]);
      LastSettlement(state, es[..n], es[n], id);
    }
  }

  // What one more resolution does to a status.
  lemma LastSettlement(state: StatusMap, es: seq<Event>, e: Event, id: Id)
    requires id in state
    ensures var before := Settle(state, es)[id];
      Some(Settle(state, es + [e])[id]) ==
        if !Terminal(before) && Settles(id)(e) then StatusFor(e.kind) else Some(before)
  {
    assert (es + [e])[..|es|] == es;
  }

  // One simulated answer, and a real one to the same ask.
  function TwoAnswers(p: PeerId): seq<Event> {
    [PlainEvent(1, SimulatedAnswer, p, 0, Some(0)), PlainEvent(2, RealtimeAnswer, p, 1, Some(0))]
  }

  lemma TwoAnswersAreCompared(p: PeerId)
    ensures var log := TwoAnswers(p);
      Simulated(log, p) == [log[0]] && Counterpart(Realtime(log, p), log[0]).Some?
  {
    var log := TwoAnswers(p);
    hide Simulated, Realtime, Filter, Counterpart;
    assert log == [log[0]] + [log[1]] == [] + log;
    SimulatedAlone(p, log[0], [log[1]]);
    CounterpartComesWith([], log, p, log[0]);
    assert log[1] in log && AnswersFrom(p, 0)(log[1]);
  }

  // Two passes of a resolver that always confirms log the same confirmation twice.
  lemma SecondPassRepeatsItself(p: PeerId, now: Time)
    ensures var confirm: Resolver := (a, b, id) => Ruled(ConfirmedEvent, 0);
      DecidedCount(TwoAnswers(p), p, confirm) == 1 && |AfterPasses(TwoAnswers(p), p, confirm, 3, now, 2)| == 4
  {
    var log := TwoAnswers(p);
    var confirm: Resolver := (a, b, id) => Ruled(ConfirmedEvent, 0);
    TwoAnswersAreCompared(p);
    hide Simulated, Realtime, Filter, AfterPasses, Counterpart;
    assert Rulings(log, p, confirm)(log[0]).Rule?;
    FilterAllIff(Decided(Rulings(log, p, confirm)), [log[0]]);
    ProperIsQuiet(log, p, confirm);
    PassesRepeat(log, p, confirm, 3, now, 2);
  }

  // A resolver that names `simulated_answer` as its decision adds to what it is to judge.
  lemma AnswerDecisionFeedsBack(p: PeerId, now: Time)
    ensures var odd: Resolver := (a, b, id) => Ruled(SimulatedAnswer, 0);
      var log' := TwoAnswers(p) + Reconciled(TwoAnswers(p), p, odd, 3, now);
      !(Simulated(log', p) == Simulated(TwoAnswers(p), p) && Realtime(log', p) == Realtime(TwoAnswers(p), p))
  {
    var log := TwoAnswers(p);
    var odd: Resolver := (a, b, id) => Ruled(SimulatedAnswer, 0);
    TwoAnswersAreCompared(p);
    hide Simulated, Realtime, Filter, Counterpart, Reconciled;
    assert Rulings(log, p, odd)(log[0]).Rule? && log[0] in Simulated(log, p);
    PassFeedsBackIff(log, p, odd, 3, now);
  }

  // The one simulated answer of a log is all a pass visits.
  lemma SimulatedAlone(p: PeerId, sim: Event, others: seq<Event>)
    requires sim.peer == p && sim.kind == SimulatedAnswer && forall e :: e in others ==> e.kind != SimulatedAnswer
    ensures Simulated([sim] + others, p) == [sim]
  {
    OnlyElement(OfPeerAndKind(p, SimulatedAnswer), [sim], others);
    KindOfPeer([sim] + others, p, SimulatedAnswer);
  }

  lemma OnlyElement(keep: Event -> bool, a: seq<Event>, b: seq<Event>)
    requires |a| == 1 && keep(a[0]) && forall e :: e in b ==> !keep(e)
    ensures Filter(keep, a + b) == a && SortByTime(a) == a
  {
    FilterConcat(keep, a, b);
    FilterAllIff(keep, a);
    FilterNone(keep, b);
    assert a[1..] == [];
  }
}
