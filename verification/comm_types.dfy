/** Shared records of the asynchronous communication layer. */
module CommTypes {
  import opened Collections

  // UUIDs are tokens of which only equality matters; "never used before" is
  // modelled by handing out numbers above every number in use.
  type Id = nat
  type PeerId = nat
  // Message texts are tokens too: only the resolver looks inside them. 0 is the empty text.
  type Text = nat
  type Time = int
  type Clock = map<PeerId, int>

  // The text "answer" is a transport message type, not an event type of its own.
  datatype EventKind =
    | Ask | RealtimeAnswer | SimulatedAnswer
    | ConfirmedEvent | RevisedEvent | ReviewEvent
    | Answer | Other(name: Text)

  // What a resolution event records beside its decision.
  datatype Grounds = Grounds(note: Text, simulated: Text, real_: Text)

  // The keys of the payload dictionary the protocol reads or writes; `body` is the rest.
  datatype Payload = Payload(
    declaredKind: Option<EventKind>, clock: Option<Clock>, answer: Text, body: Text, grounds: Option<Grounds>)

  datatype Event = Event(
    id: Id, kind: EventKind, peer: PeerId, time: Time, clock: Clock, payload: Payload,
    inReplyTo: Option<Id>, degraded: bool, realtime: bool, basedOn: Text, snapshotStale: bool)

  // An event with nothing but the essentials.
  function PlainEvent(id: Id, kind: EventKind, peer: PeerId, time: Time, inReplyTo: Option<Id>): Event {
    Event(id, kind, peer, time, map[], Payload(None, None, 0, 0, None), inReplyTo, false, false, 0, false)
  }

  predicate HasId(es: seq<Event>, id: Id)
  {
    exists i :: 0 <= i < |es| && es[i].id == id
  }

  ghost predicate UniqueIds(es: seq<Event>)
  {
    forall i, j :: 0 <= i < j < |es| ==> es[i].id != es[j].id
  }

  // Every id in use is below the next one to be handed out.
  ghost predicate AllBelow(es: seq<Event>, next: Id)
  {
    forall i :: 0 <= i < |es| ==> es[i].id < next
  }

  /** Position of an id, when present. */
  ghost function Find(es: seq<Event>, id: Id): (i: nat)
    requires HasId(es, id)
    ensures i < |es| && es[i].id == id
  {
    var i :| 0 <= i < |es| && es[i].id == id; i
  }

  lemma {:induction false} FilterKeepsUniqueIds(keep: Event -> bool, es: seq<Event>)
    requires UniqueIds(es)
    ensures UniqueIds(Filter(keep, es))
    ensures forall id :: HasId(Filter(keep, es), id) ==> HasId(es, id)
  {
    if es == [] {
    } else {
      var tail := es[1..];
      FilterKeepsUniqueIds(keep, tail);
      FilterMembers(keep, tail);
      FilterMembers(keep, es);
      var kept := Filter(keep, tail);
      forall i | 0 <= i < |kept| ensures kept[i].id != es[0].id {
        assert kept[i] in tail;
      }
      forall id | HasId(Filter(keep, es), id) ensures HasId(es, id) {
        var i :| 0 <= i < |Filter(keep, es)| && Filter(keep, es)[i].id == id;
        assert Filter(keep, es)[i] in es;
      }
    }
  }
}
