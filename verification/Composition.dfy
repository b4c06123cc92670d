/**
 Delivery end to end: this client as a sender, this client as a receiver, and between them two ordered
 channels whose content is lost when the connection ends (MQTT 3.1.1 sections 4.3 and 4.4, MQTT 5.0
 section 4.3).

 Both variants are covered: up to version 3.1.1 the receiver delivers a QoS 2 message on PUBREL, in version 5
 on the first PUBLISH.  The body of a message is its number in the order in which messages are accepted.
 */
module Composition {
  import opened Delivery
  import MessageIds

  datatype System = System(
    sender: End,
    receiver: End,
    fwd: seq<Packet>,        // written by the sender, not yet read by the receiver
    bwd: seq<Packet>,        // the other way
    accepted: seq<int>,      // the QoS of each message accepted so far
    finished: set<int>,      // dropped by the sender on PUBACK or PUBCOMP
    last: int)               // the message id issued last (msgID)

  datatype Event =
    | Accept(id: int, qos: int, o: Outcome)   // a new message is published, under a free id unless its QoS is 0
    | Retry(i: nat, o: Outcome)               // an outbound message is sent again
    | ToReceiver(o: Outcome)                  // the receiver handles a packet
    | ToSender(o: Outcome)                    // the sender handles a packet
    | SenderWritten(os: seq<Outcome>)         // the sender's pending write is done
    | ReceiverWritten(os: seq<Outcome>)
    | Disconnect
    | SenderCrash(e: End)                     // the process restarts from its store
    | ReceiverCrash(e: End)

  function Init(v5: bool): System {
    var e := End(v5, [], [], [], map[], false, []);
    System(e, e, [], [], [], {}, 0)
  }

  function Ids(list: seq<Message>): seq<int> {
    seq(|list|, i requires 0 <= i < |list| => list[i].id)
  }

  // ----- recovery from the store

  function RestoredMessage(e: End, id: int): Option<Message> {
    if Sent(e.v5, id) in e.store && e.store[Sent(e.v5, id)].PublishRecord? then
      var r := e.store[Sent(e.v5, id)];
      Some(Message(r.id, r.qos, r.body,
                   if Rel(e.v5, id) in e.store then AwaitPubcomp else if r.qos == 2 then AwaitPubrec else AwaitPuback))
    else None
  }

  function RestoredHeld(e: End, id: int): Option<Held> {
    if Received(e.v5, id) in e.store && e.store[Received(e.v5, id)].PublishRecord? then
      var r := e.store[Received(e.v5, id)];
      Some(Held(r.id, if e.v5 then None else Some(r.body)))
    else None
  }

  /** A PUBREL record without its PUBLISH record, which a restart removes. */
  predicate Orphan(e: End, k: Key) {
    k in e.store && e.store[k].PubrelRecord? && Sent(e.v5, e.store[k].id) !in e.store
  }

  function WithoutOrphans(e: End): Store {
    map k | k in e.store && !Orphan(e, k) :: e.store[k]
  }

  /** e' is what a restart makes of e: the lists the store calls for, and nothing that was only in memory. */
  ghost predicate Recovered(e: End, e': End) {
    && e'.v5 == e.v5 && e'.store == WithoutOrphans(e) && e'.delivered == e.delivered
    && e'.queue == [] && !e'.pending
    && UniqueIds(e'.outbound) && UniqueHeld(e'.inbound)
    && (forall id :: Lookup(e'.outbound, id) == RestoredMessage(e, id))
    && (forall id :: LookupHeld(e'.inbound, id) == RestoredHeld(e, id))
  }

  /** The same message, or the same at the phase before. */
  ghost predicate NotAhead(m: Option<Message>, m': Option<Message>) {
    && (m'.Some? <==> m.Some?)
    && (m.Some? ==> m'.value == m.value || (m.value.next == AwaitPubcomp && m'.value == m.value.(next := AwaitPubrec)))
  }

  /** What a restart would give back: the same ids, each message at its old phase or one earlier, never ahead. */
  ghost predicate NeverAhead(e: End) {
    forall id :: NotAhead(Lookup(e.outbound, id), RestoredMessage(e, id))
              && (LookupHeld(e.inbound, id).Some? <==> RestoredHeld(e, id).Some?)
  }

  lemma RecoveryNeverAhead(e: End)
    requires StoreCovers(e)
    ensures NeverAhead(e)
  {
    forall id ensures NotAhead(Lookup(e.outbound, id), RestoredMessage(e, id))
                   && (LookupHeld(e.inbound, id).Some? <==> RestoredHeld(e, id).Some?) {
      LookupId(e.outbound, id);
      assert IdStored(e, id, false);
    }
  }

  /** After a restart the store agrees exactly, whatever stray records there were before. */
  lemma RecoveryTidies(e: End, e': End)
    requires StoreCovers(e) && Recovered(e, e')
    ensures StoreAgrees(e')
  {
    forall k ensures IdStored(e', k, true) {
      RecoveredId(e, e', k);
    }
  }

  /** One id before and after a restart. */
  lemma RecoveredId(e: End, e': End, id: int)
    requires StoreCovers(e) && Recovered(e, e')
    ensures IdStored(e', id, true)
    ensures NotAhead(Lookup(e.outbound, id), Lookup(e'.outbound, id))
    ensures Rel(e.v5, id) in e.store ==> Lookup(e'.outbound, id) == Lookup(e.outbound, id)
    ensures var h, h' := LookupHeld(e.inbound, id), LookupHeld(e'.inbound, id);
            (h'.Some? <==> h.Some?) && (h.Some? && !e.v5 ==> h'.value == h.value)
  {
    LookupId(e.outbound, id);
    HeldId(e.inbound, id);
    assert IdStored(e, id, false);
    assert Lookup(e'.outbound, id) == RestoredMessage(e, id);
    assert LookupHeld(e'.inbound, id) == RestoredHeld(e, id);
    hide Lookup, LookupHeld, Stored;
  }

  lemma LookupId(list: seq<Message>, id: int)
    ensures Lookup(list, id).Some? ==> Lookup(list, id).value.id == id
  {
  }

  lemma HeldId(list: seq<Held>, id: int)
    ensures LookupHeld(list, id).Some? ==> LookupHeld(list, id).value.id == id
  {
  }

  // ----- steps

  /** What may happen at most.  The id of a new message is one that no message in flight has; which one it is does
      not matter here, since it may have been assigned some time before the message is sent. */
  ghost predicate Enabled(s: System, ev: Event) {
    match ev
    case Accept(id, qos, _) =>
      && !s.sender.pending && 0 <= qos <= 2
      && if qos == 0 then id == 0
         else 1 <= id <= MessageIds.MAX_MSG_ID && id !in MessageIds.Used(Ids(s.sender.outbound))
    case Retry(i, _) => !s.sender.pending && i < |s.sender.outbound|
    case ToReceiver(_) => s.fwd != []
    case ToSender(_) => s.bwd != []
    case SenderWritten(os) => s.sender.pending && |os| == |s.sender.queue|
    case ReceiverWritten(os) => s.receiver.pending && |os| == |s.receiver.queue|
    case Disconnect => true
    case SenderCrash(e) => Recovered(s.sender, e)
    case ReceiverCrash(e) => Recovered(s.receiver, e)
  }

  /** The receiver's handler for a packet. */
  function Receive(e: End, p: Packet, o: Outcome): Step {
    match p
    case Publish(id, qos, body, _) => HandlePublish(e, id, qos, body, o)
    case Pubrel(id) => HandlePubrel(e, id, o)
    case _ => Step(e, [])
  }

  /** The sender's handler for an answer. */
  function Answered(e: End, p: Packet, o: Outcome): Step {
    match p
    case Puback(id) => Step(HandlePuback(e, id), [])
    case Pubrec(id) => HandlePubrec(e, id, false, o)
    case Pubcomp(id) => Step(HandlePubcomp(e, id), [])
    case _ => Step(e, [])
  }

  /** The bodies of the messages that e has and e' has no more. */
  function Dropped(e: End, e': End): set<int> {
    set m | m in e.outbound && Lookup(e'.outbound, m.id).None? :: m.body
  }

  function Apply(s: System, ev: Event): System
    requires Enabled(s, ev)
  {
    match ev
    case Accept(id, qos, o) =>
      var t := StartPublish(s.sender, id, qos, |s.accepted|, o);
      s.(sender := t.end, fwd := s.fwd + t.sent, accepted := s.accepted + [qos],
         last := if qos == 0 then s.last else id)
    case Retry(i, o) =>
      var t := RetryOne(s.sender, i, o);
      s.(sender := t.end, fwd := s.fwd + t.sent)
    case ToReceiver(o) =>
      var t := Receive(s.receiver, s.fwd[0], o);
      s.(receiver := t.end, fwd := s.fwd[1..], bwd := s.bwd + t.sent)
    case ToSender(o) =>
      var t := Answered(s.sender, s.bwd[0], o);
      s.(sender := t.end, bwd := s.bwd[1..], fwd := s.fwd + t.sent,
         finished := s.finished + Dropped(s.sender, t.end))
    case SenderWritten(os) =>
      var t := Flush(s.sender.(pending := false), os);
      s.(sender := t.end, fwd := s.fwd + t.sent)
    case ReceiverWritten(os) =>
      var t := Flush(s.receiver.(pending := false), os);
      s.(receiver := t.end, bwd := s.bwd + t.sent)
    case Disconnect => Unplugged(s)
    case SenderCrash(e) => Unplugged(s).(sender := e, last := 0)
    case ReceiverCrash(e) => Unplugged(s).(receiver := e)
  }

  /** The connection is gone with all that was on the way; acknowledgements put off stay where they are. */
  function Unplugged(s: System): System {
    s.(sender := s.sender.(pending := false), receiver := s.receiver.(pending := false), fwd := [], bwd := [])
  }

  ghost predicate Runs(s: System, evs: seq<Event>)
    decreases |evs|
  {
    evs == [] || (Enabled(s, evs[0]) && Runs(Apply(s, evs[0]), evs[1..]))
  }

  ghost function After(s: System, evs: seq<Event>): System
    requires Runs(s, evs)
    decreases |evs|
  {
    if evs == [] then s else After(Apply(s, evs[0]), evs[1..])
  }

  // ----- when an id may be used again

  /** What may be left of an earlier message of the same id. */
  datatype Part = InForward | PutOffBySender | PutOffByReceiver | PubrecBehind | PubackBehind | RelStored

  function AllParts(): set<Part> {
    {InForward, PutOffBySender, PutOffByReceiver, PubrecBehind, PubackBehind, RelStored}
  }

  ghost predicate NoneOf(q: seq<Packet>, id: int) {
    forall i :: 0 <= i < |q| ==> q[i].id != id
  }

  /** Nothing of that kind is left of id.  A PUBCOMP on the way back does no harm. */
  ghost predicate Clear(s: System, id: int, part: Part) {
    match part
    case InForward => NoneOf(s.fwd, id)
    case PutOffBySender => NoneOf(s.sender.queue, id)
    case PutOffByReceiver => NoneOf(s.receiver.queue, id)
    case PubrecBehind => Pubrec(id) !in s.bwd
    case PubackBehind => Puback(id) !in s.bwd
    case RelStored => Rel(s.sender.v5, id) !in s.sender.store
  }

  /** No id is used again while there is something of the given kinds left of it. */
  ghost predicate Careful(s: System, ev: Event, parts: set<Part>) {
    ev.Accept? && ev.qos > 0 ==> forall part :: part in parts ==> Clear(s, ev.id, part)
  }

  ghost predicate CarefulRun(s: System, evs: seq<Event>, parts: set<Part>)
    requires Runs(s, evs)
    decreases |evs|
  {
    evs == [] || (Careful(s, evs[0], parts) && CarefulRun(Apply(s, evs[0]), evs[1..], parts))
  }

  // ----- how often a body has been delivered

  ghost function Times(s: seq<int>, b: int): nat {
    if s == [] then 0 else (if s[0] == b then 1 else 0) + Times(s[1..], b)
  }

  lemma {:induction false} TimesJoin(a: seq<int>, b: seq<int>, x: int)
    ensures Times(a + b, x) == Times(a, x) + Times(b, x)
  {
    if a == [] {
      assert a + b == b;
    } else {
      TimesJoin(a[1..], b, x);
      assert (a + b)[1..] == a[1..] + b;
    }
  }
}
