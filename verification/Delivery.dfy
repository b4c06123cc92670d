/**
 The QoS 1 and QoS 2 handshakes of one client, as functions on its session state.

 One function per handler of MQTTProtocolClient.c.  ProtocolClient carries the same state in fields
 and its methods are proved to compute these functions; Composition puts two ends together.
 */
module Delivery {

  datatype Option<+T> = None | Some(value: T)

  /** nextMessageType of an outbound message (a QoS 1 message waits for its PUBACK). */
  datatype Expect = AwaitPuback | AwaitPubrec | AwaitPubcomp

  /** An outbound message; body stands for topic, payload, retain flag and properties. */
  datatype Message = Message(id: int, qos: int, body: int, next: Expect)

  /** An inbound QoS 2 message waiting for its PUBREL; the body is gone once it has been delivered. */
  datatype Held = Held(id: int, body: Option<int>)

  datatype Packet =
    | Publish(id: int, qos: int, body: int, dup: bool)
    | Puback(id: int)
    | Pubrec(id: int)
    | Pubrel(id: int)
    | Pubcomp(id: int)

  /** The keys of the persistent store: the stems s-, sc-, r- and their version 5 forms. */
  datatype Key = Sent(v5: bool, id: int) | Rel(v5: bool, id: int) | Received(v5: bool, id: int)

  datatype Record = PublishRecord(id: int, qos: int, body: int) | PubrelRecord(id: int) | Unreadable

  type Store = map<Key, Record>

  /** What the socket did with a packet: all of it written, part of it, or an error. */
  datatype Outcome = Complete | Interrupted | Failed

  datatype End = End(
    v5: bool,
    outbound: seq<Message>,
    inbound: seq<Held>,
    queue: seq<Packet>,       // acknowledgements put off while a write is pending
    store: Store,
    pending: bool,            // the socket has a partly written packet
    delivered: seq<int>)      // what the application was given, in order

  /** A new state together with what was handed to the socket. */
  datatype Step = Step(end: End, sent: seq<Packet>)

  // ----- lists of messages

  /** The position of a message id, or the length if it is not there. */
  function Position(list: seq<Message>, id: int): (i: nat)
    ensures i <= |list|
    ensures i < |list| ==> list[i].id == id
    ensures forall j :: 0 <= j < i ==> list[j].id != id
  {
    if list == [] || list[0].id == id then 0 else 1 + Position(list[1..], id)
  }

  function HeldPosition(list: seq<Held>, id: int): (i: nat)
    ensures i <= |list|
    ensures i < |list| ==> list[i].id == id
    ensures forall j :: 0 <= j < i ==> list[j].id != id
  {
    if list == [] || list[0].id == id then 0 else 1 + HeldPosition(list[1..], id)
  }

  function Without<T>(list: seq<T>, i: nat): seq<T>
    requires i < |list|
  {
    list[..i] + list[i + 1..]
  }

  // ----- sending

  /** The record that sending a packet leaves in the store. */
  function Persisted(e: End, p: Packet): Store {
    match p
    case Publish(id, qos, body, _) => if qos > 0 then e.store[Sent(e.v5, id) := PublishRecord(id, qos, body)] else e.store
    case Pubrel(id) => e.store[Rel(e.v5, id) := PubrelRecord(id)]
    case _ => e.store
  }

  function Transmit(e: End, p: Packet, o: Outcome): Step {
    var e' := e.(store := Persisted(e, p));
    match o
    case Complete => Step(e', [p])
    case Interrupted => Step(e'.(pending := true), [p])
    case Failed => Step(e', [])
  }

  /** An acknowledgement is sent, or put off while a write is pending. */
  function Reply(e: End, p: Packet, o: Outcome): Step {
    if e.pending then Step(e.(queue := e.queue + [p]), []) else Transmit(e, p, o)
  }

  /** A new PUBLISH: the message is kept until its handshake ends. */
  function StartPublish(e: End, id: int, qos: int, body: int, o: Outcome): Step {
    var e' := if qos > 0
              then e.(outbound := e.outbound + [Message(id, qos, body, if qos == 2 then AwaitPubrec else AwaitPuback)])
              else e;
    Transmit(e', Publish(id, qos, body, false), o)
  }

  /** What a retry of one outbound message sends. */
  function RetryPacket(m: Message): Packet {
    if m.qos == 2 && m.next == AwaitPubcomp then Pubrel(m.id) else Publish(m.id, m.qos, m.body, true)
  }

  function RetryOne(e: End, i: nat, o: Outcome): Step
    requires i < |e.outbound|
  {
    Transmit(e, RetryPacket(e.outbound[i]), o)
  }

  // ----- receiving

  /** Both records of a finished outbound message go, of either version. */
  function ForgetSent(s: Store, id: int): Store {
    s - {Sent(true, id), Rel(true, id), Sent(false, id), Rel(false, id)}
  }

  function ForgetReceived(s: Store, id: int): Store {
    s - {Received(true, id), Received(false, id)}
  }

  /** An inbound message of the same id is replaced where it stands. */
  function Hold(list: seq<Held>, h: Held): seq<Held> {
    var i := HeldPosition(list, h.id);
    if i < |list| then list[i := h] else list + [h]
  }

  function HandlePublish(e: End, id: int, qos: int, body: int, o: Outcome): Step {
    if qos == 0 then Step(e.(delivered := e.delivered + [body]), [])
    else if qos == 1 then Reply(e.(delivered := e.delivered + [body]), Puback(id), o)
    else
      var known := HeldPosition(e.inbound, id) < |e.inbound|;
      var now := e.v5 && !known;
      var e' := e.(store := e.store[Received(e.v5, id) := PublishRecord(id, qos, body)],
                   inbound := Hold(e.inbound, Held(id, if now then None else Some(body))),
                   delivered := if now then e.delivered + [body] else e.delivered);
      Reply(e', Pubrec(id), o)
  }

  function HandlePuback(e: End, id: int): End {
    var i := Position(e.outbound, id);
    if i < |e.outbound| && e.outbound[i].qos == 1
    then e.(outbound := Without(e.outbound, i), store := ForgetSent(e.store, id))
    else e
  }

  /** refused: a version 5 reason code of 0x80 or more, which ends the exchange. */
  function HandlePubrec(e: End, id: int, refused: bool, o: Outcome): Step {
    var i := Position(e.outbound, id);
    if i < |e.outbound| && e.outbound[i].qos == 2 && e.outbound[i].next == AwaitPubrec then
      if e.v5 && refused
      then Step(e.(outbound := Without(e.outbound, i), store := ForgetSent(e.store, id)), [])
      else Reply(e.(outbound := e.outbound[i := e.outbound[i].(next := AwaitPubcomp)]), Pubrel(id), o)
    else
      Reply(e, Pubrel(id), o)
  }

  function HandlePubrel(e: End, id: int, o: Outcome): Step {
    var i := HeldPosition(e.inbound, id);
    var e' := if i < |e.inbound| then
                var b := e.inbound[i].body;
                e.(delivered := if e.v5 || b.None? then e.delivered else e.delivered + [b.value],
                   store := ForgetReceived(e.store, id),
                   inbound := Without(e.inbound, i))
              else e;
    Reply(e', Pubcomp(id), o)
  }

  function HandlePubcomp(e: End, id: int): End {
    var i := Position(e.outbound, id);
    if i < |e.outbound| && e.outbound[i].qos == 2 && e.outbound[i].next == AwaitPubcomp
    then e.(outbound := Without(e.outbound, i), store := ForgetSent(e.store, id))
    else e
  }

  /** The pending write is done: the acknowledgements put off are sent until one is not written whole,
      and the rest are dropped. */
  function Flush(e: End, os: seq<Outcome>): Step
    requires |os| == |e.queue|
    decreases |e.queue|
  {
    if e.queue == [] then Step(e, [])
    else
      var s := Transmit(e.(queue := e.queue[1..]), e.queue[0], os[0]);
      if os[0] != Complete then Step(s.end.(queue := []), s.sent)
      else
        var r := Flush(s.end, os[1..]);
        Step(r.end, s.sent + r.sent)
  }

  /** How many writes are completed before the first that is not. */
  function Completed(os: seq<Outcome>): (n: nat)
    ensures n <= |os| && (forall i :: 0 <= i < n ==> os[i] == Complete) && (n < |os| ==> os[n] != Complete)
  {
    if os == [] || os[0] != Complete then 0 else 1 + Completed(os[1..])
  }

  /** A flush sends the queue in order up to the first write that is not completed, with what was begun of that one, and
      leaves a write pending exactly if one was begun. */
  lemma {:induction false} FlushSendsInOrder(e: End, os: seq<Outcome>)
    requires |os| == |e.queue| && !e.pending
    ensures var n, t := Completed(os), Flush(e, os);
            && t.sent == e.queue[..n] + (if n < |os| && os[n] == Interrupted then [e.queue[n]] else [])
            && t.end.queue == [] && (t.end.pending <==> n < |os| && os[n] == Interrupted)
    decreases |e.queue|
  {
    if e.queue != [] {
      var t := Transmit(e.(queue := e.queue[1..]), e.queue[0], os[0]);
      if os[0] == Complete {
        FlushSendsInOrder(t.end, os[1..]);
        var n := Completed(os[1..]);
        assert e.queue[..n + 1] == [e.queue[0]] + e.queue[1..][..n];
      }
    }
  }

  /** A message that is held again stays in its place, and a new one goes to the end. */
  lemma HoldKeepsPlaces(list: seq<Held>, h: Held)
    ensures var l, i := Hold(list, h), HeldPosition(list, h.id);
            && |l| == (if i < |list| then |list| else |list| + 1) && l[i] == h
            && forall j :: 0 <= j < |list| && j != i ==> l[j] == list[j]
  {
  }

  // ----- what the store says about the lists

  ghost predicate UniqueIds(list: seq<Message>) {
    forall i, j :: 0 <= i < j < |list| ==> list[i].id != list[j].id
  }

  ghost predicate UniqueHeld(list: seq<Held>) {
    forall i, j :: 0 <= i < j < |list| ==> list[i].id != list[j].id
  }

  function Lookup(list: seq<Message>, id: int): Option<Message> {
    var i := Position(list, id);
    if i < |list| then Some(list[i]) else None
  }

  function LookupHeld(list: seq<Held>, id: int): Option<Held> {
    var i := HeldPosition(list, id);
    if i < |list| then Some(list[i]) else None
  }

  /** The entries of the store for one id are the ones the lists call for.  Unless exact, a record sc-N may also
      be there for an id that no message has. */
  ghost predicate IdStored(e: End, id: int, exact: bool) {
    var m, h := Lookup(e.outbound, id), LookupHeld(e.inbound, id);
    && (m.Some? <==> Sent(e.v5, id) in e.store)
    && (m.Some? ==>
          && (m.value.qos == 1 || m.value.qos == 2) && (m.value.qos == 1 <==> m.value.next == AwaitPuback)
          && e.store[Sent(e.v5, id)] == PublishRecord(id, m.value.qos, m.value.body))
    && (Rel(e.v5, id) in e.store ==>
          (exact ==> m.Some?) && (m.Some? ==> m.value.next == AwaitPubcomp) && e.store[Rel(e.v5, id)] == PubrelRecord(id))
    && (h.Some? <==> Received(e.v5, id) in e.store)
    && (h.Some? ==>
          var r := e.store[Received(e.v5, id)];
          r.PublishRecord? && r.id == id && (!e.v5 ==> h.value.body == Some(r.body)))
  }

  ghost predicate Stored(e: End, exact: bool) {
    && UniqueIds(e.outbound) && UniqueHeld(e.inbound)
    && (forall k | k in e.store :: k.v5 == e.v5)
    && (forall id :: IdStored(e, id, exact))
  }

  /** s-N is stored exactly for outbound ids, sc-N only for those awaiting PUBCOMP, r-N exactly for inbound ids. */
  ghost predicate StoreAgrees(e: End) {
    Stored(e, true)
  }

  /** The same, but for sc-N records of ids that no message has. */
  ghost predicate StoreCovers(e: End) {
    Stored(e, false)
  }

  // ----- how the lists answer after a change

  lemma LookupIs(list: seq<Message>, i: nat)
    requires i < |list| && UniqueIds(list)
    ensures Lookup(list, list[i].id) == Some(list[i]) && Position(list, list[i].id) == i
  {
  }

  lemma LookupAbsent(list: seq<Message>, id: int)
    ensures Lookup(list, id).None? <==> forall j :: 0 <= j < |list| ==> list[j].id != id
  {
  }

  lemma LookupAppend(list: seq<Message>, m: Message, id: int)
    requires Lookup(list, m.id).None?
    ensures Lookup(list + [m], id) == if id == m.id then Some(m) else Lookup(list, id)
    ensures UniqueIds(list) ==> UniqueIds(list + [m])
  {
    var l := list + [m];
    assert l[|list|] == m && forall j :: 0 <= j < |list| ==> l[j] == list[j];
    LookupAbsent(list, m.id);
    var i, k := Position(l, id), Position(list, id);
    if k < |list| {
      assert l[k].id == id;
    } else if id == m.id {
      assert l[|list|].id == id;
    }
  }

  lemma LookupWithout(list: seq<Message>, i: nat, id: int)
    requires i < |list| && UniqueIds(list)
    ensures Lookup(Without(list, i), id) == if id == list[i].id then None else Lookup(list, id)
    ensures UniqueIds(Without(list, i))
  {
    var l := Without(list, i);
    assert forall j :: 0 <= j < |l| ==> l[j] == list[if j < i then j else j + 1];
    var k := Position(list, id);
    if k < |list| && k != i {
      var k' := if k < i then k else k - 1;
      assert l[k'] == list[k];
      LookupIs(l, k');
    }
  }

  lemma LookupUpdate(list: seq<Message>, i: nat, m: Message, id: int)
    requires i < |list| && UniqueIds(list) && m.id == list[i].id
    ensures Lookup(list[i := m], id) == if id == m.id then Some(m) else Lookup(list, id)
    ensures UniqueIds(list[i := m])
  {
    var l := list[i := m];
    assert forall j :: 0 <= j < |l| ==> l[j].id == list[j].id;
    var k := Position(list, id);
    if k < |list| {
      LookupIs(list, i);
      LookupIs(l, k);
    }
  }

  lemma HeldIs(list: seq<Held>, i: nat)
    requires i < |list| && UniqueHeld(list)
    ensures LookupHeld(list, list[i].id) == Some(list[i]) && HeldPosition(list, list[i].id) == i
  {
  }

  lemma HeldAfterHold(list: seq<Held>, h: Held, id: int)
    requires UniqueHeld(list)
    ensures LookupHeld(Hold(list, h), id) == if id == h.id then Some(h) else LookupHeld(list, id)
    ensures UniqueHeld(Hold(list, h))
  {
    var l := Hold(list, h);
    var i := HeldPosition(list, h.id);
    if i < |list| {
      assert l[i] == h;
      HeldIs(l, i);
      var k := HeldPosition(list, id);
      if k < |list| { HeldIs(l, k); }
    } else {
      assert l[|list|] == h;
      assert UniqueHeld(l);
      HeldIs(l, |list|);
      var k := HeldPosition(list, id);
      if k < |list| { assert l[k] == list[k]; HeldIs(l, k); }
    }
  }

  lemma HeldWithout(list: seq<Held>, i: nat, id: int)
    requires i < |list| && UniqueHeld(list)
    ensures LookupHeld(Without(list, i), id) == if id == list[i].id then None else LookupHeld(list, id)
    ensures UniqueHeld(Without(list, i))
  {
    var l := Without(list, i);
    assert forall j :: 0 <= j < |l| ==> l[j] == list[if j < i then j else j + 1];
    var k := HeldPosition(list, id);
    if k < |list| && k != i {
      var k' := if k < i then k else k - 1;
      assert l[k'] == list[k];
      HeldIs(l, k');
    }
  }

  // ----- what every handler does to the agreement of store and lists

  /** Only lists, store and version matter. */
  lemma StoreOnly(e: End, e': End, exact: bool)
    requires e'.v5 == e.v5 && e'.outbound == e.outbound && e'.inbound == e.inbound && e'.store == e.store
    ensures Stored(e', exact) <==> Stored(e, exact)
  {
    assert forall k :: IdStored(e', k, exact) <==> IdStored(e, k, exact);
    hide IdStored;
  }

  /** The packet is one that its message calls for. */
  ghost predicate CalledFor(e: End, p: Packet, exact: bool) {
    var m := Lookup(e.outbound, p.id);
    match p
    case Publish(id, qos, body, _) => qos == 0 || (m.Some? && m.value.qos == qos && m.value.body == body)
    case Pubrel(id) => (exact ==> m.Some?) && (m.Some? ==> m.value.next == AwaitPubcomp)
    case _ => true
  }

  lemma StoreAfterTransmit(e: End, p: Packet, o: Outcome, exact: bool)
    requires Stored(e, exact) && CalledFor(e, p, exact)
    ensures Stored(Transmit(e, p, o).end, exact)
  {
    var e' := Transmit(e, p, o).end;
    forall k ensures IdStored(e', k, exact) {
      assert IdStored(e, k, exact);
      assert IdStored(e, p.id, exact);
    }
  }

  lemma StoreAfterReply(e: End, p: Packet, o: Outcome, exact: bool)
    requires Stored(e, exact) && (e.pending || CalledFor(e, p, exact))
    ensures Stored(Reply(e, p, o).end, exact)
  {
    if e.pending {
      StoreOnly(e, Reply(e, p, o).end, exact);
    } else {
      StoreAfterTransmit(e, p, o, exact);
    }
  }

  lemma StoreAfterStart(e: End, id: int, qos: int, body: int, o: Outcome, exact: bool)
    requires Stored(e, exact) && (qos == 1 || qos == 2) && Lookup(e.outbound, id).None?
    requires Rel(e.v5, id) !in e.store
    ensures Stored(StartPublish(e, id, qos, body, o).end, exact)
  {
    var e' := StartPublish(e, id, qos, body, o).end;
    var m := e'.outbound[|e.outbound|];
    LookupAppend(e.outbound, m, id);
    StartIsStored(e, id, qos, body, o, exact);
    hide Lookup, IdStored;
    forall k ensures IdStored(e', k, exact) {
      assert IdStored(e, k, exact);
      LookupAppend(e.outbound, m, k);
      if k != id { IdStoredSame(e, e', k, exact); }
    }
  }

  lemma StartIsStored(e: End, id: int, qos: int, body: int, o: Outcome, exact: bool)
    requires IdStored(e, id, exact) && (qos == 1 || qos == 2) && Lookup(e.outbound, id).None? && Rel(e.v5, id) !in e.store
    ensures IdStored(StartPublish(e, id, qos, body, o).end, id, exact)
  {
    hide Lookup, LookupHeld, StartPublish;
    StartIs(e, id, qos, body, o);
    LookupAppend(e.outbound, Message(id, qos, body, if qos == 2 then AwaitPubrec else AwaitPuback), id);
  }

  lemma StartIs(e: End, id: int, qos: int, body: int, o: Outcome)
    requires qos == 1 || qos == 2
    ensures var e' := StartPublish(e, id, qos, body, o).end;
            && e'.outbound == e.outbound + [Message(id, qos, body, if qos == 2 then AwaitPubrec else AwaitPuback)]
            && e'.store == e.store[Sent(e.v5, id) := PublishRecord(id, qos, body)]
            && e'.inbound == e.inbound && e'.v5 == e.v5
  {
  }

  /** What the agreement on one id depends on. */
  lemma IdStoredSame(e: End, e': End, k: int, exact: bool)
    requires IdStored(e, k, exact) && e'.v5 == e.v5
    requires Lookup(e'.outbound, k) == Lookup(e.outbound, k) && LookupHeld(e'.inbound, k) == LookupHeld(e.inbound, k)
    requires forall key: Key | key.id == k :: (key in e'.store <==> key in e.store) && (key in e.store ==> e'.store[key] == e.store[key])
    ensures IdStored(e', k, exact)
  {
  }

  /** A store that agrees has no PUBREL record for a free id. */
  lemma NoRelWhenFree(e: End, id: int)
    requires StoreAgrees(e) && Lookup(e.outbound, id).None?
    ensures Rel(e.v5, id) !in e.store
  {
    assert IdStored(e, id, true);
  }

  lemma StoreAfterRetry(e: End, i: nat, o: Outcome, exact: bool)
    requires Stored(e, exact) && i < |e.outbound|
    ensures Stored(RetryOne(e, i, o).end, exact)
  {
    LookupIs(e.outbound, i);
    assert IdStored(e, e.outbound[i].id, exact);
    StoreAfterTransmit(e, RetryPacket(e.outbound[i]), o, exact);
  }

  lemma StoreAfterPublish(e: End, id: int, qos: int, body: int, o: Outcome, exact: bool)
    requires Stored(e, exact)
    ensures Stored(HandlePublish(e, id, qos, body, o).end, exact)
  {
    var e' := HandlePublish(e, id, qos, body, o).end;
    if qos != 0 && qos != 1 {
      var h := Held(id, if e.v5 && HeldPosition(e.inbound, id) == |e.inbound| then None else Some(body));
      HeldAfterHold(e.inbound, h, id);
      forall k ensures IdStored(e', k, exact) {
        assert IdStored(e, k, exact);
        HeldAfterHold(e.inbound, h, k);
      }
    } else {
      StoreOnly(e, e', exact);
    }
  }

  lemma StoreAfterForget(e: End, i: nat, exact: bool)
    requires Stored(e, exact) && i < |e.outbound|
    ensures Stored(e.(outbound := Without(e.outbound, i), store := ForgetSent(e.store, e.outbound[i].id)), exact)
  {
    var e' := e.(outbound := Without(e.outbound, i), store := ForgetSent(e.store, e.outbound[i].id));
    LookupWithout(e.outbound, i, 0);
    forall k ensures IdStored(e', k, exact) {
      assert IdStored(e, k, exact);
      LookupWithout(e.outbound, i, k);
    }
  }

  lemma StoreAfterPuback(e: End, id: int, exact: bool)
    requires Stored(e, exact)
    ensures Stored(HandlePuback(e, id), exact)
  {
    if Position(e.outbound, id) < |e.outbound| {
      StoreAfterForget(e, Position(e.outbound, id), exact);
    }
  }

  lemma StoreAfterPubcomp(e: End, id: int, exact: bool)
    requires Stored(e, exact)
    ensures Stored(HandlePubcomp(e, id), exact)
  {
    if Position(e.outbound, id) < |e.outbound| {
      StoreAfterForget(e, Position(e.outbound, id), exact);
    }
  }

  lemma StoreAfterPubrel(e: End, id: int, o: Outcome, exact: bool)
    requires Stored(e, exact)
    ensures Stored(HandlePubrel(e, id, o).end, exact)
  {
    var e' := HandlePubrel(e, id, o).end;
    var i := HeldPosition(e.inbound, id);
    if i < |e.inbound| { HeldWithout(e.inbound, i, id); }
    forall k ensures IdStored(e', k, exact) {
      assert IdStored(e, k, exact);
      if i < |e.inbound| { HeldWithout(e.inbound, i, k); }
    }
  }

  /** In version 5 a PUBREC that refuses the message ends its exchange: that message and its records are gone, nothing is
      sent or put off, and everything else stays.  At any other time the refusal makes no difference. */
  lemma RefusalEnds(e: End, id: int, o: Outcome, k: int)
    requires UniqueIds(e.outbound)
    ensures var m, t := Lookup(e.outbound, id), HandlePubrec(e, id, true, o);
            if e.v5 && m.Some? && m.value.qos == 2 && m.value.next == AwaitPubrec then
              && Lookup(t.end.outbound, k) == (if k == id then None else Lookup(e.outbound, k))
              && t.end == e.(outbound := t.end.outbound, store := t.end.store) && t.sent == []
              && Sent(true, id) !in t.end.store && Rel(true, id) !in t.end.store
              && (forall x :: x in e.store && x.id != id ==> x in t.end.store && t.end.store[x] == e.store[x])
              && (forall x :: x in t.end.store ==> x in e.store)
            else t == HandlePubrec(e, id, false, o)
  {
    var i := Position(e.outbound, id);
    if i < |e.outbound| { LookupWithout(e.outbound, i, k); }
    hide Reply;
  }

  /** A PUBREC keeps the store in step unless it names no outstanding QoS 2 id: then the PUBREL that is
      sent all the same leaves an sc-N record that belongs to no message, or to one of QoS 1. */
  lemma StoreAfterPubrec(e: End, id: int, refused: bool, o: Outcome, exact: bool)
    requires Stored(e, exact)
    ensures var m := Lookup(e.outbound, id);
            Stored(HandlePubrec(e, id, refused, o).end, exact) <==>
            e.pending || (if m.Some? then m.value.qos == 2 else !exact)
  {
    var i := Position(e.outbound, id);
    assert IdStored(e, id, exact);
    if i < |e.outbound| && e.outbound[i].qos == 2 && e.outbound[i].next == AwaitPubrec {
      if e.v5 && refused {
        StoreAfterForget(e, i, exact);
      } else {
        StoreAfterMark(e, i, exact);
        StoreAfterReply(e.(outbound := e.outbound[i := e.outbound[i].(next := AwaitPubcomp)]), Pubrel(id), o, exact);
      }
    } else if e.pending || (if i < |e.outbound| then e.outbound[i].qos == 2 else !exact) {
      StoreAfterReply(e, Pubrel(id), o, exact);
    } else {
      assert !IdStored(HandlePubrec(e, id, refused, o).end, id, exact);
    }
  }

  lemma StoreAfterMark(e: End, i: nat, exact: bool)
    requires Stored(e, exact) && i < |e.outbound| && e.outbound[i].qos == 2
    ensures var e' := e.(outbound := e.outbound[i := e.outbound[i].(next := AwaitPubcomp)]);
            Stored(e', exact) && CalledFor(e', Pubrel(e.outbound[i].id), exact)
  {
    var m := e.outbound[i].(next := AwaitPubcomp);
    var e' := e.(outbound := e.outbound[i := m]);
    LookupIs(e.outbound, i);
    LookupUpdate(e.outbound, i, m, m.id);
    forall k ensures IdStored(e', k, exact) {
      assert IdStored(e, k, exact);
      LookupUpdate(e.outbound, i, m, k);
    }
  }

  ghost predicate AcksOnly(q: seq<Packet>) {
    forall i :: 0 <= i < |q| ==> !q[i].Publish?
  }

  /** How many entries of a queue a flush hands to the socket: up to the first that is not written whole. */
  function Handed(os: seq<Outcome>): (n: nat)
    ensures n <= |os|
  {
    if os == [] then 0 else if os[0] != Complete then 1 else 1 + Handed(os[1..])
  }

  /** A PUBREL record that no message calls for. */
  ghost predicate StrayRel(e: End, id: int, exact: bool) {
    Rel(e.v5, id) in e.store && !CalledFor(e, Pubrel(id), exact)
  }

  /** It stays through a flush, for a flush changes no message. */
  lemma {:induction false} StrayRelStays(e: End, os: seq<Outcome>, id: int, exact: bool)
    requires |os| == |e.queue| && StrayRel(e, id, exact)
    ensures StrayRel(Flush(e, os).end, id, exact)
    decreases |e.queue|
  {
    if e.queue != [] {
      var s := Transmit(e.(queue := e.queue[1..]), e.queue[0], os[0]);
      assert StrayRel(s.end, id, exact);
      if os[0] == Complete {
        StrayRelStays(s.end, os[1..], id, exact);
      }
    }
  }

  lemma StrayIsNotStored(e: End, id: int, exact: bool)
    requires StrayRel(e, id, exact)
    ensures !Stored(e, exact)
  {
    assert !IdStored(e, id, exact);
  }

  /** A flush keeps the store in step if and only if every PUBREL that is handed to the socket is still called for. */
  lemma {:induction false} StoreAfterFlush(e: End, os: seq<Outcome>, exact: bool)
    requires Stored(e, exact) && |os| == |e.queue| && AcksOnly(e.queue)
    ensures Stored(Flush(e, os).end, exact) <==> forall i :: 0 <= i < Handed(os) ==> CalledFor(e, e.queue[i], exact)
    decreases |e.queue|
  {
    if e.queue != [] {
      var e0, p := e.(queue := e.queue[1..]), e.queue[0];
      var s := Transmit(e0, p, os[0]);
      if !CalledFor(e, p, exact) {
        FlushOfStray(e, os, exact);
      } else {
        StoreOnly(e, e0, exact);
        StoreAfterTransmit(e0, p, os[0], exact);
        if os[0] == Complete {
          StoreAfterFlush(s.end, os[1..], exact);
          CalledForRest(e, s.end, Handed(os[1..]), exact);
        } else {
          StoreOnly(s.end, s.end.(queue := []), exact);
        }
      }
    }
  }

  lemma FlushOfStray(e: End, os: seq<Outcome>, exact: bool)
    requires |os| == |e.queue| > 0 && AcksOnly(e.queue) && !CalledFor(e, e.queue[0], exact)
    ensures !Stored(Flush(e, os).end, exact)
  {
    var id := e.queue[0].id;
    var s := Transmit(e.(queue := e.queue[1..]), e.queue[0], os[0]);
    assert StrayRel(s.end, id, exact);
    if os[0] == Complete {
      StrayRelStays(s.end, os[1..], id, exact);
    }
    StrayIsNotStored(Flush(e, os).end, id, exact);
  }

  lemma CalledForRest(e: End, e': End, n: nat, exact: bool)
    requires e.queue != [] && e'.queue == e.queue[1..] && e'.outbound == e.outbound && n <= |e'.queue|
    requires CalledFor(e, e.queue[0], exact)
    ensures (forall i :: 0 <= i < n ==> CalledFor(e', e'.queue[i], exact)) <==>
            (forall i :: 0 <= i < n + 1 ==> CalledFor(e, e.queue[i], exact))
  {
    assert forall i :: 0 <= i < |e'.queue| ==> e'.queue[i] == e.queue[i + 1];
    assert forall p :: CalledFor(e', p, exact) <==> CalledFor(e, p, exact);
    hide CalledFor;
    if forall i :: 0 <= i < n ==> CalledFor(e', e'.queue[i], exact) {
      forall i | 0 <= i < n + 1 ensures CalledFor(e, e.queue[i], exact) {
        if i > 0 { assert CalledFor(e', e'.queue[i - 1], exact); }
      }
    }
    if forall i :: 0 <= i < n + 1 ==> CalledFor(e, e.queue[i], exact) {
      forall i | 0 <= i < n ensures CalledFor(e', e'.queue[i], exact) {
        assert CalledFor(e, e.queue[i + 1], exact);
      }
    }
  }
}
