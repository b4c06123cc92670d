/**
 Every step of sender, receiver and channels keeps the invariant, as long as no id is used again too early.
 */
module CarefulSteps {
  import opened Delivery
  import opened Composition
  import opened ChannelLines
  import MessageIds

  // ----- what a step leaves alone

  /** What was accepted keeps its label. */
  ghost predicate Grows(s: System, s': System) {
    s.accepted <= s'.accepted && s'.sender.v5 == s.sender.v5
  }

  /** A step that changes nothing about an id keeps its line; a QoS 1 message may have been delivered. */
  lemma Untouched(s: System, s': System, k: int)
    requires IdOk(s, k) && Grows(s, s')
    requires Lookup(s'.sender.outbound, k) == Lookup(s.sender.outbound, k)
    requires LookupHeld(s'.receiver.inbound, k) == LookupHeld(s.receiver.inbound, k)
    requires LanesOf(s', k) == LanesOf(s, k)
    requires Rel(s.sender.v5, k) in s'.sender.store <==> Rel(s.sender.v5, k) in s.sender.store
    requires var m := Lookup(s.sender.outbound, k);
             && (Given(s', m) == Given(s, m) || (m.Some? && m.value.qos == 1 && Given(s', m)))
             && (m.Some? ==> m.value.body !in s'.finished)
    ensures IdOk(s', k)
  {
  }

  /** Delivering another body changes nothing for a message. */
  lemma StillGiven(s: System, s': System, m: Option<Message>, body: int)
    requires s'.receiver.delivered == s.receiver.delivered || s'.receiver.delivered == s.receiver.delivered + [body]
    requires m.Some? ==> m.value.body != body
    ensures Given(s', m) == Given(s, m)
  {
  }

  /** A delivery that may be counted: the first one, or one of a message that is not of QoS 2. */
  lemma CountedMore(s: System, s': System, body: int)
    requires Counted(s) && s'.accepted == s.accepted && s'.finished == s.finished
    requires var d, d' := s.receiver.delivered, s'.receiver.delivered;
             || d' == d
             || (d' == d + [body] && 0 <= body < |s.accepted| && (body !in d || s.accepted[body] != 2))
    ensures Counted(s')
  {
    var d, d' := s.receiver.delivered, s'.receiver.delivered;
    assert forall i :: 0 <= i < |d| ==> d'[i] == d[i] && d[i] in d;
  }

  /** The receiver has taken the first packet and may have answered. */
  lemma ReceiverMoved(s: System, s': System, a: Packet)
    requires Wired(s) && s.fwd != [] && (a.Puback? || a.Pubrec? || a.Pubcomp?)
    requires s'.sender == s.sender && s'.accepted == s.accepted && s'.fwd == s.fwd[1..] && s'.receiver.v5 == s.receiver.v5
    requires s'.receiver.queue == s.receiver.queue || s'.receiver.queue == s.receiver.queue + [a]
    requires s'.bwd == s.bwd || s'.bwd == s.bwd + [a]
    ensures Wired(s')
  {
    assert forall p | p in s.fwd[1..] :: p in s.fwd;
  }

  lemma SameBody(list: seq<Message>, i: int, k: int)
    requires OwnBodies(list) && Lookup(list, i).Some? && Lookup(list, k).Some?
    requires Lookup(list, i).value.body == Lookup(list, k).value.body
    ensures i == k
  {
    assert Position(list, i) == Position(list, k);
  }

  /** What a packet sent or put off adds to the channel and the queue, for the packets of one id. */
  lemma ReplyOnLine(chan: seq<Packet>, e: End, p: Packet, o: Outcome, k: int)
    ensures var t := Reply(e, p, o);
            && Added(Only(chan, k), Only(e.queue, k), Only(chan + t.sent, k), Only(t.end.queue, k), p)
            && (k != p.id ==> Only(chan + t.sent, k) == Only(chan, k) && Only(t.end.queue, k) == Only(e.queue, k))
            && (t.end.queue == e.queue || t.end.queue == e.queue + [p])
            && (t.sent == [] || t.sent == [p])
            && t.end == e.(queue := t.end.queue, store := t.end.store, pending := t.end.pending)
  {
    OnlyLast(chan, p, k);
    OnlyLast(e.queue, p, k);
    assert chan + [] == chan;
  }

  // ----- a new message, and an old one again

  /** What taking a new message with an id does. */
  lemma AcceptState(s: System, id: int, qos: int, o: Outcome)
    requires qos > 0 && Enabled(s, Accept(id, qos, o))
    ensures var s', e := Apply(s, Accept(id, qos, o)), s.sender;
            var m := Message(id, qos, |s.accepted|, if qos == 2 then AwaitPubrec else AwaitPuback);
            && s'.receiver == s.receiver && s'.bwd == s.bwd && s'.finished == s.finished && s'.accepted == s.accepted + [qos]
            && (s'.fwd == s.fwd || s'.fwd == s.fwd + [Publish(id, qos, |s.accepted|, false)])
            && s'.sender.outbound == e.outbound + [m] && s'.sender.queue == e.queue && s'.sender.v5 == e.v5
            && (forall k :: Rel(e.v5, k) in s'.sender.store <==> Rel(e.v5, k) in e.store)
  {
    assert s.fwd + [] == s.fwd;
  }

  lemma NotGivenYet(s: System)
    requires Counted(s)
    ensures |s.accepted| !in s.receiver.delivered && |s.accepted| !in s.finished
  {
  }

  lemma AcceptId(s: System, id: int, qos: int, o: Outcome, k: int)
    requires Inv(s) && qos > 0 && Enabled(s, Accept(id, qos, o)) && Careful(s, Accept(id, qos, o), AllParts())
    ensures IdOk(Apply(s, Accept(id, qos, o)), k)
  {
    hide Stored, Counted, OwnBodies, Apply;
    AcceptState(s, id, qos, o);
    var s' := Apply(s, Accept(id, qos, o));
    var m := Message(id, qos, |s.accepted|, if qos == 2 then AwaitPubrec else AwaitPuback);
    FreeId(s, id);
    assert IdOk(s, k);
    LookupAppend(s.sender.outbound, m, k);
    OnlyLast(s.fwd, Publish(id, qos, |s.accepted|, false), k);
    if k == id {
      ClearLanes(s, id);
      NotGivenYet(s);
      LineOnAccept(s.sender.v5, m, LookupHeld(s.receiver.inbound, k), LanesOf(s, k), LanesOf(s', k));
    } else {
      Untouched(s, s', k);
    }
  }

  lemma FreeId(s: System, id: int)
    requires id !in MessageIds.Used(Ids(s.sender.outbound))
    ensures Lookup(s.sender.outbound, id).None?
  {
    var l := s.sender.outbound;
    assert forall j :: 0 <= j < |l| ==> Ids(l)[j] == l[j].id && Ids(l)[j] in MessageIds.Used(Ids(l));
  }

  lemma ClearLanes(s: System, id: int)
    requires Answers(s.bwd) && forall part :: part in AllParts() ==> Clear(s, id, part)
    ensures var l := LanesOf(s, id); l.f == [] && l.g == [] && l.q == [] && AllPubcomp(l.b)
    ensures Rel(s.sender.v5, id) !in s.sender.store
  {
    assert Clear(s, id, InForward) && Clear(s, id, PutOffBySender) && Clear(s, id, PutOffByReceiver);
    assert Clear(s, id, PubrecBehind) && Clear(s, id, PubackBehind) && Clear(s, id, RelStored);
    OnlyNone(s.fwd, id);
    OnlyNone(s.sender.queue, id);
    OnlyNone(s.receiver.queue, id);
  }

  lemma ApplyAccept(s: System, id: int, qos: int, o: Outcome)
    requires Inv(s) && qos > 0 && Enabled(s, Accept(id, qos, o)) && Careful(s, Accept(id, qos, o), AllParts())
    ensures Inv(Apply(s, Accept(id, qos, o)))
  {
    FreeId(s, id);
    ClearLanes(s, id);
    StoreAfterStart(s.sender, id, qos, |s.accepted|, o, false);
    AcceptKeeps(s, id, qos, o);
    hide IdOk, Stored, Wired, Counted, OwnBodies, Careful, Lookup, StartPublish;
    forall k ensures IdOk(Apply(s, Accept(id, qos, o)), k) {
      AcceptId(s, id, qos, o, k);
    }
  }

  /** A new message of QoS 0 is in no list and no store. */
  lemma ApplyAccept0(s: System, o: Outcome)
    requires Inv(s) && Enabled(s, Accept(0, 0, o))
    ensures Inv(Apply(s, Accept(0, 0, o)))
  {
    var s', e, e' := Apply(s, Accept(0, 0, o)), s.sender, Apply(s, Accept(0, 0, o)).sender;
    assert e' == e.(pending := e'.pending);
    StoreOnly(e, e', false);
    assert s.fwd + [] == s.fwd;
    hide IdOk, Stored, Lookup, StartPublish;
    forall k ensures IdOk(s', k) {
      Accept0Id(s, o, k);
    }
  }

  lemma Accept0Id(s: System, o: Outcome, k: int)
    requires Inv(s) && Enabled(s, Accept(0, 0, o))
    ensures IdOk(Apply(s, Accept(0, 0, o)), k)
  {
    var s' := Apply(s, Accept(0, 0, o));
    assert IdOk(s, k);
    assert s.fwd + [] == s.fwd;
    OnlyLast(s.fwd, Publish(0, 0, |s.accepted|, false), k);
    hide Stored;
    if k != 0 { Untouched(s, s', k); }
  }

  lemma AcceptKeeps(s: System, id: int, qos: int, o: Outcome)
    requires Inv(s) && qos > 0 && Enabled(s, Accept(id, qos, o))
    ensures var s' := Apply(s, Accept(id, qos, o)); Wired(s') && Counted(s') && OwnBodies(s'.sender.outbound)
  {
    BodiesOf(s);
    hide IdOk, Stored, MessageIds.Assigned;
    var l, l' := s.sender.outbound, Apply(s, Accept(id, qos, o)).sender.outbound;
    assert l' == l + [Message(id, qos, |s.accepted|, if qos == 2 then AwaitPubrec else AwaitPuback)];
    assert forall i :: 0 <= i < |l| ==> l[i] in l && Labelled(s, l[i].body, l[i].qos);
    OneBodyMore(l, l'[|l|]);
    assert forall i :: 0 <= i < |s.receiver.delivered| ==> s.receiver.delivered[i] in s.receiver.delivered;
  }

  lemma OneBodyMore(list: seq<Message>, m: Message)
    requires OwnBodies(list) && forall i :: 0 <= i < |list| ==> list[i].body != m.body
    ensures OwnBodies(list + [m])
  {
  }

  lemma BodiesOf(s: System)
    requires Inv(s)
    ensures forall m | m in s.sender.outbound :: Labelled(s, m.body, m.qos) && (m.qos == 1 || m.qos == 2)
  {
    forall m | m in s.sender.outbound ensures Labelled(s, m.body, m.qos) && (m.qos == 1 || m.qos == 2) {
      var i :| 0 <= i < |s.sender.outbound| && s.sender.outbound[i] == m;
      LookupIs(s.sender.outbound, i);
      assert IdOk(s, m.id);
    }
  }

  lemma ApplyRetry(s: System, i: nat, o: Outcome)
    requires Inv(s) && Enabled(s, Retry(i, o))
    ensures Inv(Apply(s, Retry(i, o)))
  {
    var s' := Apply(s, Retry(i, o));
    var m := s.sender.outbound[i];
    StoreAfterRetry(s.sender, i, o, false);
    LookupIs(s.sender.outbound, i);
    BodiesOf(s);
    hide IdOk, Stored, Lookup, LookupHeld;
    forall k ensures IdOk(s', k) {
      RetryId(s, i, o, k);
    }
  }

  lemma RetryState(s: System, i: nat, o: Outcome)
    requires Enabled(s, Retry(i, o))
    ensures var s', e, m := Apply(s, Retry(i, o)), s.sender, s.sender.outbound[i];
            && s'.receiver == s.receiver && s'.bwd == s.bwd && s'.finished == s.finished && s'.accepted == s.accepted
            && (s'.fwd == s.fwd || s'.fwd == s.fwd + [RetryPacket(m)])
            && s'.sender.outbound == e.outbound && s'.sender.queue == e.queue && s'.sender.v5 == e.v5
            && (forall k :: Rel(e.v5, k) in s'.sender.store <==>
                  Rel(e.v5, k) in e.store || (k == m.id && RetryPacket(m).Pubrel?))
  {
    assert s.fwd + [] == s.fwd;
  }

  lemma RetryId(s: System, i: nat, o: Outcome, k: int)
    requires Inv(s) && Enabled(s, Retry(i, o))
    ensures IdOk(Apply(s, Retry(i, o)), k)
  {
    hide Apply, Counted, OwnBodies, Stored, IdStored;
    RetryState(s, i, o);
    var s' := Apply(s, Retry(i, o));
    var m := s.sender.outbound[i];
    ListedOnce(s);
    LookupIs(s.sender.outbound, i);
    assert IdOk(s, k);
    OnlyLast(s.fwd, RetryPacket(m), k);
    if k == m.id {
      LineOnRetry(s.sender.v5, m, LookupHeld(s.receiver.inbound, k), LanesOf(s, k), LanesOf(s', k), Given(s, Some(m)));
    } else {
      Untouched(s, s', k);
    }
  }

  lemma ListedOnce(s: System)
    requires StoreCovers(s.sender)
    ensures UniqueIds(s.sender.outbound)
  {
  }

  // ----- the receiver handles a packet

  /** The head of a channel and the packets of one id. */
  lemma Head(q: seq<Packet>, k: int)
    requires q != []
    ensures Only(q, k) == (if q[0].id == k then [q[0]] else []) + Only(q[1..], k)
    ensures q[0].id == k ==> Only(q, k) == [q[0]] + Only(q[1..], k)
    ensures q[0].id != k ==> Only(q, k) == Only(q[1..], k)
  {
  }

  lemma ToReceiverPublish(s: System, o: Outcome)
    requires Inv(s) && s.fwd != [] && s.fwd[0].Publish? && s.fwd[0].qos == 2
    ensures Inv(Apply(s, ToReceiver(o)))
  {
    var s' := Apply(s, ToReceiver(o));
    var p := s.fwd[0];
    assert p in s.fwd;
    ToReceiverPublishLine(s, o);
    ReceivePublish(s, o, p.id);
    ReceiverMoved(s, s', Pubrec(p.id));
    CountedMore(s, s', p.body);
    StoreAfterPublish(s.receiver, p.id, p.qos, p.body, o, true);
    assert s'.receiver == HandlePublish(s.receiver, p.id, p.qos, p.body, o).end;
    hide HandlePublish, Receive, IdOk, Stored, Counted, Wired, Lookup, LookupHeld;
    forall k ensures IdOk(s', k) {
      ToReceiverPublishId(s, o, k);
    }
  }

  /** What handling a PUBLISH of QoS 2 does to the receiver, as the lines see it. */
  lemma ReceivePublish(s: System, o: Outcome, k: int)
    requires s.fwd != [] && s.fwd[0].Publish? && s.fwd[0].qos == 2 && UniqueHeld(s.receiver.inbound)
    ensures var p, r, s' := s.fwd[0], s.receiver, Apply(s, ToReceiver(o));
            var r', h := s'.receiver, LookupHeld(r.inbound, p.id);
            var now := r.v5 && h.None?;
            && r'.v5 == r.v5
            && r'.delivered == (if now then r.delivered + [p.body] else r.delivered)
            && LookupHeld(r'.inbound, k) ==
                 (if k == p.id then Some(Held(k, if now then None else Some(p.body))) else LookupHeld(r.inbound, k))
            && Added(Only(s.bwd, k), Only(r.queue, k), Only(s'.bwd, k), Only(r'.queue, k), Pubrec(p.id))
            && (k != p.id ==> Only(s'.bwd, k) == Only(s.bwd, k) && Only(r'.queue, k) == Only(r.queue, k))
            && (r'.queue == r.queue || r'.queue == r.queue + [Pubrec(p.id)])
            && (s'.bwd == s.bwd || s'.bwd == s.bwd + [Pubrec(p.id)])
  {
    hide Only, Hold;
    var p, r := s.fwd[0], s.receiver;
    var now := r.v5 && LookupHeld(r.inbound, p.id).None?;
    var held := Held(p.id, if now then None else Some(p.body));
    var e := r.(store := r.store[Received(r.v5, p.id) := PublishRecord(p.id, p.qos, p.body)],
                inbound := Hold(r.inbound, held),
                delivered := if now then r.delivered + [p.body] else r.delivered);
    HeldAfterHold(r.inbound, held, k);
    ReplyOnLine(s.bwd, e, Pubrec(p.id), o, k);
    assert s.bwd + [] == s.bwd;
  }

  /** The line of the PUBLISH that is handled. */
  lemma ToReceiverPublishLine(s: System, o: Outcome)
    requires Inv(s) && s.fwd != [] && s.fwd[0].Publish? && s.fwd[0].qos == 2
    ensures IdOk(Apply(s, ToReceiver(o)), s.fwd[0].id)
    ensures var m := Lookup(s.sender.outbound, s.fwd[0].id);
            m.Some? && s.fwd[0].body == m.value.body && (LookupHeld(s.receiver.inbound, s.fwd[0].id).None? ==> !Given(s, m))
  {
    var s' := Apply(s, ToReceiver(o));
    var p, r := s.fwd[0], s.receiver;
    var k := p.id;
    ReceivePublish(s, o, k);
    Head(s.fwd, k);
    assert IdOk(s, k);
    var m, h := Lookup(s.sender.outbound, k), LookupHeld(r.inbound, k);
    LineOnPublish(r.v5, m, h, p, LanesOf(s, k), LanesOf(s', k), Given(s, m));
    assert Given(s', m) == (Given(s, m) || r.v5);
    Tail(p, Only(s'.fwd, k));
  }

  lemma ToReceiverPublishId(s: System, o: Outcome, k: int)
    requires Inv(s) && s.fwd != [] && s.fwd[0].Publish? && s.fwd[0].qos == 2
    ensures IdOk(Apply(s, ToReceiver(o)), k)
  {
    var s' := Apply(s, ToReceiver(o));
    var p := s.fwd[0];
    ToReceiverPublishLine(s, o);
    if k != p.id {
      ReceivePublish(s, o, k);
      Head(s.fwd, k);
      assert IdOk(s, k);
      var m := Lookup(s.sender.outbound, k);
      if m.Some? && m.value.body == p.body {
        SameBody(s.sender.outbound, k, p.id);
      }
      StillGiven(s, s', m, p.body);
      hide Given, Line, Stored, Receive;
      Untouched(s, s', k);
    }
  }

  /** What handling a PUBLISH of QoS 1 does. */
  lemma ReceiveLevel1(s: System, o: Outcome, k: int)
    requires s.fwd != [] && s.fwd[0].Publish? && s.fwd[0].qos == 1
    ensures var p, r, s' := s.fwd[0], s.receiver, Apply(s, ToReceiver(o));
            var r' := s'.receiver;
            && r'.v5 == r.v5 && r'.inbound == r.inbound && r'.delivered == r.delivered + [p.body]
            && Added(Only(s.bwd, k), Only(r.queue, k), Only(s'.bwd, k), Only(r'.queue, k), Puback(p.id))
            && (k != p.id ==> Only(s'.bwd, k) == Only(s.bwd, k) && Only(r'.queue, k) == Only(r.queue, k))
            && (r'.queue == r.queue || r'.queue == r.queue + [Puback(p.id)])
            && (s'.bwd == s.bwd || s'.bwd == s.bwd + [Puback(p.id)])
  {
    var p, r := s.fwd[0], s.receiver;
    ReplyOnLine(s.bwd, r.(delivered := r.delivered + [p.body]), Puback(p.id), o, k);
    assert s.bwd + [] == s.bwd;
  }

  lemma ToReceiverLevel1Id(s: System, o: Outcome, k: int)
    requires Inv(s) && s.fwd != [] && s.fwd[0].Publish? && s.fwd[0].qos == 1
    ensures IdOk(Apply(s, ToReceiver(o)), k)
  {
    var s' := Apply(s, ToReceiver(o));
    var p := s.fwd[0];
    ReceiveLevel1(s, o, k);
    Head(s.fwd, k);
    assert IdOk(s, k);
    var m, h := Lookup(s.sender.outbound, k), LookupHeld(s.receiver.inbound, k);
    if k != p.id {
      Untouched(s, s', k);
    } else {
      Level1Head(s.sender.v5, m, h, p, LanesOf(s, k), Given(s, m));
      LineOnPublish1(s.sender.v5, m, h, p, LanesOf(s, k), LanesOf(s', k), Given(s, m), Given(s', m));
    }
  }

  /** The PUBLISH at the head is that of the sender's message, if there is one. */
  lemma Level1Head(v5: bool, m: Option<Message>, h: Option<Held>, p: Packet, l: Lanes, d: bool)
    requires Line(v5, m, h, l, d) && l.f != [] && l.f[0] == p && p.Publish? && p.qos == 1
    ensures m.Some? ==> m.value.qos == 1 && p.body == m.value.body
  {
  }

  lemma ToReceiverLevel1(s: System, o: Outcome)
    requires Inv(s) && s.fwd != [] && s.fwd[0].Publish? && s.fwd[0].qos == 1
    ensures Inv(Apply(s, ToReceiver(o)))
  {
    var s' := Apply(s, ToReceiver(o));
    var p := s.fwd[0];
    assert p in s.fwd;
    ReceiveLevel1(s, o, p.id);
    ReceiverMoved(s, s', Puback(p.id));
    CountedMore(s, s', p.body);
    StoreAfterPublish(s.receiver, p.id, p.qos, p.body, o, true);
    assert s'.receiver == HandlePublish(s.receiver, p.id, p.qos, p.body, o).end;
    hide HandlePublish, Receive, IdOk, Stored, Counted, Wired, Lookup, LookupHeld;
    forall k ensures IdOk(s', k) {
      ToReceiverLevel1Id(s, o, k);
    }
  }

  /** A PUBLISH of QoS 0 is delivered and that is all. */
  lemma ToReceiverLevel0Id(s: System, o: Outcome, k: int)
    requires Inv(s) && s.fwd != [] && s.fwd[0].Publish? && s.fwd[0].qos == 0
    ensures IdOk(Apply(s, ToReceiver(o)), k)
  {
    var s' := Apply(s, ToReceiver(o));
    var p, m := s.fwd[0], Lookup(s.sender.outbound, k);
    assert p in s.fwd && IdOk(s, k);
    Head(s.fwd, k);
    assert s.bwd + [] == s.bwd;
    hide Stored, Wired, Counted;
    if k == 0 {
      Tail(p, Only(s'.fwd, k));
    } else {
      StillGiven(s, s', m, p.body);
      Untouched(s, s', k);
    }
  }

  lemma ToReceiverLevel0(s: System, o: Outcome)
    requires Inv(s) && s.fwd != [] && s.fwd[0].Publish? && s.fwd[0].qos == 0
    ensures Inv(Apply(s, ToReceiver(o)))
  {
    var s' := Apply(s, ToReceiver(o));
    var p := s.fwd[0];
    assert p in s.fwd;
    assert s.bwd + [] == s.bwd;
    ReceiverMoved(s, s', Puback(0));
    CountedMore(s, s', p.body);
    StoreAfterPublish(s.receiver, p.id, p.qos, p.body, o, true);
    assert s'.receiver == HandlePublish(s.receiver, p.id, p.qos, p.body, o).end;
    hide HandlePublish, Receive, IdOk, Stored, Counted, Wired, Lookup, LookupHeld;
    forall k ensures IdOk(s', k) {
      ToReceiverLevel0Id(s, o, k);
    }
  }

  /** Handling a PUBREL, told as a change of one held message and a reply. */
  lemma ReceivePubrel(s: System, o: Outcome, k: int)
    requires Inv(s) && s.fwd != [] && s.fwd[0].Pubrel?
    ensures var p, r, s' := s.fwd[0], s.receiver, Apply(s, ToReceiver(o));
            var r', m, h := s'.receiver, Lookup(s.sender.outbound, p.id), LookupHeld(r.inbound, p.id);
            var now := !r.v5 && h.Some?;
            && r'.v5 == r.v5
            && (h.Some? ==> (m.Some? && m.value.qos == 2 && (Given(s, m) <==> r.v5)))
            && r'.delivered == (if now then r.delivered + [m.value.body] else r.delivered)
            && LookupHeld(r'.inbound, k) == (if k == p.id then None else LookupHeld(r.inbound, k))
            && Added(Only(s.bwd, k), Only(r.queue, k), Only(s'.bwd, k), Only(r'.queue, k), Pubcomp(p.id))
            && (k != p.id ==> Only(s'.bwd, k) == Only(s.bwd, k) && Only(r'.queue, k) == Only(r.queue, k))
            && (r'.queue == r.queue || r'.queue == r.queue + [Pubcomp(p.id)])
            && (s'.bwd == s.bwd || s'.bwd == s.bwd + [Pubcomp(p.id)])
  {
    hide Counted, OwnBodies, IdOk, Only, IdStored;
    var p, r := s.fwd[0], s.receiver;
    var m, h, i := Lookup(s.sender.outbound, p.id), LookupHeld(r.inbound, p.id), HeldPosition(r.inbound, p.id);
    PubrelLine(s);
    var e := if h.None? then r else
      r.(delivered := if r.v5 then r.delivered else r.delivered + [m.value.body],
         store := ForgetReceived(r.store, p.id), inbound := Without(r.inbound, i));
    assert Receive(r, p, o) == Reply(e, Pubcomp(p.id), o);
    if h.Some? { HeldWithout(r.inbound, i, k); }
    ReplyOnLine(s.bwd, e, Pubcomp(p.id), o, k);
    assert s.bwd + [] == s.bwd;
  }

  lemma PubrelLine(s: System)
    requires Inv(s) && s.fwd != [] && s.fwd[0].Pubrel?
    ensures var m, h := Lookup(s.sender.outbound, s.fwd[0].id), LookupHeld(s.receiver.inbound, s.fwd[0].id);
            h.Some? ==>
              m.Some? && m.value.qos == 2 && (Given(s, m) <==> s.receiver.v5)
              && (!s.receiver.v5 ==> h.value.body == Some(m.value.body))
  {
    var k := s.fwd[0].id;
    Head(s.fwd, k);
    assert IdOk(s, k);
    var m, h, l := Lookup(s.sender.outbound, k), LookupHeld(s.receiver.inbound, k), LanesOf(s, k);
    var l' := l.(f := Only(s.fwd[1..], k));
    LineOnPubrel(s.sender.v5, m, h, s.fwd[0], l, l', Given(s, m));
  }

  lemma ToReceiverPubrelLine(s: System, o: Outcome)
    requires Inv(s) && s.fwd != [] && s.fwd[0].Pubrel?
    ensures IdOk(Apply(s, ToReceiver(o)), s.fwd[0].id)
  {
    var s' := Apply(s, ToReceiver(o));
    var p, r := s.fwd[0], s.receiver;
    var k := p.id;
    ReceivePubrel(s, o, k);
    Head(s.fwd, k);
    assert IdOk(s, k);
    var m, h := Lookup(s.sender.outbound, k), LookupHeld(r.inbound, k);
    LineOnPubrel(r.v5, m, h, p, LanesOf(s, k), LanesOf(s', k), Given(s, m));
    assert m.Some? ==> Given(s', m) == (Given(s, m) || h.Some?);
    if m.Some? && m.value.next == AwaitPubcomp {
      assert Only(s.fwd, k)[0] == p;
    }
  }

  lemma ToReceiverPubrelId(s: System, o: Outcome, k: int)
    requires Inv(s) && s.fwd != [] && s.fwd[0].Pubrel?
    ensures IdOk(Apply(s, ToReceiver(o)), k)
  {
    var s' := Apply(s, ToReceiver(o));
    var p := s.fwd[0];
    ToReceiverPubrelLine(s, o);
    if k != p.id {
      ReceivePubrel(s, o, k);
      Head(s.fwd, k);
      assert IdOk(s, k);
      var m, mp := Lookup(s.sender.outbound, k), Lookup(s.sender.outbound, p.id);
      if m.Some? && mp.Some? && m.value.body == mp.value.body {
        SameBody(s.sender.outbound, k, p.id);
      }
      if LookupHeld(s.receiver.inbound, p.id).Some? { StillGiven(s, s', m, mp.value.body); }
      hide Given, Line, Stored, Receive;
      Untouched(s, s', k);
    }
  }

  lemma ToReceiverPubrel(s: System, o: Outcome)
    requires Inv(s) && s.fwd != [] && s.fwd[0].Pubrel?
    ensures Inv(Apply(s, ToReceiver(o)))
  {
    var s' := Apply(s, ToReceiver(o));
    var p, m := s.fwd[0], Lookup(s.sender.outbound, s.fwd[0].id);
    ReceivePubrel(s, o, p.id);
    ReceiverMoved(s, s', Pubcomp(p.id));
    assert IdOk(s, p.id);
    CountedMore(s, s', if m.Some? then m.value.body else 0);
    StoreAfterPubrel(s.receiver, p.id, o, true);
    assert s'.receiver == HandlePubrel(s.receiver, p.id, o).end;
    hide HandlePubrel, Receive, IdOk, Stored, Counted, Wired, Lookup, LookupHeld;
    forall k ensures IdOk(s', k) {
      ToReceiverPubrelId(s, o, k);
    }
  }

  // ----- the sender handles an answer

  lemma NothingDropped(e: End, e': End)
    requires UniqueIds(e.outbound) && |e'.outbound| == |e.outbound|
    requires forall i :: 0 <= i < |e.outbound| ==> e'.outbound[i].id == e.outbound[i].id
    ensures Dropped(e, e') == {}
  {
    forall m | m in e.outbound ensures Lookup(e'.outbound, m.id).Some? {
      var i :| 0 <= i < |e.outbound| && e.outbound[i] == m;
      assert e'.outbound[i].id == m.id;
    }
  }

  lemma OneDropped(e: End, e': End, i: nat)
    requires UniqueIds(e.outbound) && i < |e.outbound| && e'.outbound == Without(e.outbound, i)
    ensures Dropped(e, e') == {e.outbound[i].body}
  {
    LookupWithout(e.outbound, i, e.outbound[i].id);
    assert e.outbound[i] in e.outbound;
    forall m | m in e.outbound && m != e.outbound[i] ensures Lookup(e'.outbound, m.id).Some? {
      var j :| 0 <= j < |e.outbound| && e.outbound[j] == m;
      LookupIs(e.outbound, j);
      LookupWithout(e.outbound, i, m.id);
    }
  }

  /** A PUBREC: the message is marked if there is one, and a PUBREL goes out. */
  lemma MarkAndReply(s: System, o: Outcome)
    requires Inv(s) && s.bwd != [] && s.bwd[0].Pubrec?
    ensures var p, e := s.bwd[0], s.sender;
            var m := Lookup(e.outbound, p.id);
            && (m.Some? ==> m.value.qos == 2)
            && Answered(e, p, o) == Reply(Marked(e, p.id), Pubrel(p.id), o)
  {
    var p, e := s.bwd[0], s.sender;
    Head(s.bwd, p.id);
    assert IdOk(s, p.id);
    var m, i, l := Lookup(e.outbound, p.id), Position(e.outbound, p.id), LanesOf(s, p.id);
    LineOnPubrec(e.v5, m, LookupHeld(s.receiver.inbound, p.id), p, l, l.(b := Only(s.bwd[1..], p.id)), Given(s, m));
    if m.Some? && m.value.next == AwaitPubcomp {
      assert e.outbound[i := m.value.(next := AwaitPubcomp)] == e.outbound;
    }
  }

  /** The message, if there is one, waits for its PUBCOMP from now on. */
  function Marked(e: End, id: int): End {
    var i := Position(e.outbound, id);
    if i < |e.outbound| then e.(outbound := e.outbound[i := e.outbound[i].(next := AwaitPubcomp)]) else e
  }

  lemma MarkedFacts(e: End, id: int, k: int)
    requires UniqueIds(e.outbound) && OwnBodies(e.outbound)
    ensures var m := Lookup(e.outbound, id);
            Lookup(Marked(e, id).outbound, k) ==
              if k == id && m.Some? then Some(m.value.(next := AwaitPubcomp)) else Lookup(e.outbound, k)
    ensures OwnBodies(Marked(e, id).outbound) && Dropped(e, Marked(e, id)) == {}
  {
    var i := Position(e.outbound, id);
    if i < |e.outbound| { LookupUpdate(e.outbound, i, e.outbound[i].(next := AwaitPubcomp), k); }
    NothingDropped(e, Marked(e, id));
  }

  /** What handling a PUBREC does to the sender, as the lines see it. */
  lemma SendPubrel(s: System, o: Outcome, k: int)
    requires Inv(s) && s.bwd != [] && s.bwd[0].Pubrec?
    ensures var p, e, s' := s.bwd[0], s.sender, Apply(s, ToSender(o));
            var m, e' := Lookup(e.outbound, p.id), s'.sender;
            && e'.v5 == e.v5 && e'.outbound == Marked(e, p.id).outbound && s'.finished == s.finished
            && Added(Only(s.fwd, k), Only(e.queue, k), Only(s'.fwd, k), Only(e'.queue, k), Pubrel(p.id))
            && (k != p.id ==> Only(s'.fwd, k) == Only(s.fwd, k) && Only(e'.queue, k) == Only(e.queue, k))
            && (e'.queue == e.queue || e'.queue == e.queue + [Pubrel(p.id)])
            && (s'.fwd == s.fwd || s'.fwd == s.fwd + [Pubrel(p.id)])
  {
    var p, e := s.bwd[0], s.sender;
    MarkAndReply(s, o);
    MarkedFacts(e, p.id, k);
    ReplyOnLine(s.fwd, Marked(e, p.id), Pubrel(p.id), o, k);
    hide Inv, Answered, Reply, Marked, Lookup, Only;
    assert s.fwd + [] == s.fwd && s.finished + {} == s.finished;
  }

  /** The PUBREL has its record once it is on the way. */
  lemma SendPubrelStored(s: System, o: Outcome)
    requires Inv(s) && s.bwd != [] && s.bwd[0].Pubrec?
    ensures var p, e, s' := s.bwd[0], s.sender, Apply(s, ToSender(o));
            && (Rel(e.v5, p.id) !in s'.sender.store ==> s'.fwd == s.fwd)
            && s'.sender.store.Keys <= e.store.Keys + {Rel(e.v5, p.id)} && e.store.Keys <= s'.sender.store.Keys
  {
    MarkAndReply(s, o);
    assert s.fwd + [] == s.fwd;
  }

  lemma ToSenderPubrecLine(s: System, o: Outcome)
    requires Inv(s) && s.bwd != [] && s.bwd[0].Pubrec?
    ensures IdOk(Apply(s, ToSender(o)), s.bwd[0].id)
  {
    var s' := Apply(s, ToSender(o));
    var p, e := s.bwd[0], s.sender;
    var k := p.id;
    SendPubrel(s, o, k);
    MarkedFacts(e, k, k);
    SendPubrelStored(s, o);
    Head(s.bwd, k);
    assert IdOk(s, k);
    var m, h := Lookup(e.outbound, k), LookupHeld(s.receiver.inbound, k);
    LineOnPubrec(e.v5, m, h, p, LanesOf(s, k), LanesOf(s', k), Given(s, m));
  }

  lemma ToSenderPubrec(s: System, o: Outcome)
    requires Inv(s) && s.bwd != [] && s.bwd[0].Pubrec?
    ensures Inv(Apply(s, ToSender(o)))
  {
    var s' := Apply(s, ToSender(o));
    var p := s.bwd[0];
    SendPubrel(s, o, p.id);
    MarkedFacts(s.sender, p.id, p.id);
    MarkAndReply(s, o);
    SenderMoved(s, s', Pubrel(p.id));
    StoreAfterPubrec(s.sender, p.id, false, o, false);
    assert s'.sender == HandlePubrec(s.sender, p.id, false, o).end;
    hide HandlePubrec, Answered, Dropped, IdOk, Stored, Wired, Lookup, LookupHeld;
    forall k ensures IdOk(s', k) {
      ToSenderPubrecId(s, o, k);
    }
  }

  lemma ToSenderPubrecId(s: System, o: Outcome, k: int)
    requires Inv(s) && s.bwd != [] && s.bwd[0].Pubrec?
    ensures IdOk(Apply(s, ToSender(o)), k)
  {
    hide Answered, Line, Dropped, LookupHeld;
    if k == s.bwd[0].id {
      ToSenderPubrecLine(s, o);
    } else {
      SendPubrel(s, o, k);
      MarkedFacts(s.sender, s.bwd[0].id, k);
      SendPubrelStored(s, o);
      Head(s.bwd, k);
      assert IdOk(s, k);
      hide Lookup, Stored;
      Untouched(s, Apply(s, ToSender(o)), k);
    }
  }

  /** The sender has taken the first answer and may have sent a PUBREL. */
  lemma SenderMoved(s: System, s': System, a: Packet)
    requires Wired(s) && s.bwd != [] && a.Pubrel?
    requires s'.receiver == s.receiver && s'.accepted == s.accepted && s'.bwd == s.bwd[1..] && s'.sender.v5 == s.sender.v5
    requires s'.sender.queue == s.sender.queue || s'.sender.queue == s.sender.queue + [a]
    requires s'.fwd == s.fwd || s'.fwd == s.fwd + [a]
    ensures Wired(s')
  {
    assert forall p | p in s.bwd[1..] :: p in s.bwd;
  }

  /** The answer that ends the exchange of its message. */
  ghost predicate Ends(s: System, p: Packet) {
    var m := Lookup(s.sender.outbound, p.id);
    m.Some? && ((p.Pubcomp? && m.value.qos == 2 && m.value.next == AwaitPubcomp) || (p.Puback? && m.value.qos == 1))
  }

  /** A PUBACK or PUBCOMP either ends the exchange of its message or does nothing. */
  lemma EndsOrNothing(s: System, o: Outcome)
    requires Inv(s) && s.bwd != [] && (s.bwd[0].Puback? || s.bwd[0].Pubcomp?)
    ensures var p, e, s' := s.bwd[0], s.sender, Apply(s, ToSender(o));
            var i := Position(e.outbound, p.id);
            s' == if Ends(s, p) then
                    s.(sender := e.(outbound := Without(e.outbound, i), store := ForgetSent(e.store, p.id)),
                       bwd := s.bwd[1..], finished := s.finished + {e.outbound[i].body})
                  else s.(bwd := s.bwd[1..])
  {
    var p, e, s' := s.bwd[0], s.sender, Apply(s, ToSender(o));
    assert s.fwd + [] == s.fwd;
    if Ends(s, p) {
      OneDropped(e, s'.sender, Position(e.outbound, p.id));
    } else {
      NothingDropped(e, e);
      assert s.finished + {} == s.finished;
    }
  }

  lemma EndLine(s: System)
    requires Inv(s) && s.bwd != [] && (s.bwd[0].Puback? || s.bwd[0].Pubcomp?)
    ensures var k := s.bwd[0].id;
            var m, h, l := Lookup(s.sender.outbound, k), LookupHeld(s.receiver.inbound, k), LanesOf(s, k);
            var l' := l.(b := Only(s.bwd[1..], k));
            if Ends(s, s.bwd[0]) then Given(s, m) && Line(s.sender.v5, None, h, l', false)
            else Line(s.sender.v5, m, h, l', Given(s, m))
  {
    var p, k := s.bwd[0], s.bwd[0].id;
    Head(s.bwd, k);
    assert IdOk(s, k);
    var m, h, l := Lookup(s.sender.outbound, k), LookupHeld(s.receiver.inbound, k), LanesOf(s, k);
    var l' := l.(b := Only(s.bwd[1..], k));
    if p.Pubcomp? {
      LineOnPubcomp(s.sender.v5, m, h, p, l, l', Given(s, m));
    } else {
      LineOnPuback(s.sender.v5, m, h, p, l, l', Given(s, m));
    }
  }

  lemma ToSenderEndLine(s: System, o: Outcome)
    requires Inv(s) && s.bwd != [] && (s.bwd[0].Puback? || s.bwd[0].Pubcomp?)
    ensures IdOk(Apply(s, ToSender(o)), s.bwd[0].id)
  {
    var p, e := s.bwd[0], s.sender;
    EndsOrNothing(s, o);
    EndLine(s);
    assert IdOk(s, p.id);
    if Ends(s, p) {
      LookupWithout(e.outbound, Position(e.outbound, p.id), p.id);
    }
    hide Answered, Dropped, Line, LookupHeld;
  }

  lemma ToSenderEndOther(s: System, o: Outcome, k: int)
    requires Inv(s) && s.bwd != [] && (s.bwd[0].Puback? || s.bwd[0].Pubcomp?) && k != s.bwd[0].id
    ensures IdOk(Apply(s, ToSender(o)), k)
  {
    hide Apply, Answered, Dropped, Line, LookupHeld, Counted, Wired, IdStored, Only;
    var p, e, s' := s.bwd[0], s.sender, Apply(s, ToSender(o));
    EndsOrNothing(s, o);
    Head(s.bwd, k);
    assert IdOk(s, k);
    var m, i := Lookup(e.outbound, p.id), Position(e.outbound, p.id);
    if Ends(s, p) {
      LookupWithout(e.outbound, i, k);
      if Lookup(e.outbound, k).Some? && Lookup(e.outbound, k).value.body == m.value.body {
        SameBody(e.outbound, k, p.id);
      }
    }
    hide Stored;
    Untouched(s, s', k);
  }

  lemma ToSenderEnd(s: System, o: Outcome)
    requires Inv(s) && s.bwd != [] && (s.bwd[0].Puback? || s.bwd[0].Pubcomp?)
    ensures Inv(Apply(s, ToSender(o)))
  {
    var p, e, s' := s.bwd[0], s.sender, Apply(s, ToSender(o));
    EndsOrNothing(s, o);
    EndLine(s);
    SenderMoved(s, s', Pubrel(p.id));
    StoreAfterPubcomp(e, p.id, false);
    StoreAfterPuback(e, p.id, false);
    if Ends(s, p) {
      FewerBodies(e.outbound, Position(e.outbound, p.id));
    }
    hide IdOk, Stored, Lookup, LookupHeld;
    forall k ensures IdOk(s', k) {
      if k == p.id { ToSenderEndLine(s, o); } else { ToSenderEndOther(s, o, k); }
    }
  }

  lemma FewerBodies(list: seq<Message>, i: nat)
    requires i < |list| && OwnBodies(list)
    ensures OwnBodies(Without(list, i))
  {
    var l := Without(list, i);
    assert forall j :: 0 <= j < |l| ==> l[j] == list[if j < i then j else j + 1];
  }

  // ----- a pending write is done

  /** A flush sends a prefix of the queue and leaves none. */
  lemma {:induction false} FlushSends(e: End, os: seq<Outcome>)
    requires |os| == |e.queue|
    ensures var t := Flush(e, os);
            && t.sent <= e.queue && t.end.queue == []
            && t.end.outbound == e.outbound && t.end.inbound == e.inbound && t.end.delivered == e.delivered && t.end.v5 == e.v5
    decreases |e.queue|
  {
    if e.queue == [] {
    } else {
      var t := Transmit(e.(queue := e.queue[1..]), e.queue[0], os[0]);
      if os[0] == Complete {
        FlushSends(t.end, os[1..]);
        assert e.queue == [e.queue[0]] + e.queue[1..];
      }
    }
  }

  /** Every PUBREL of q has its record. */
  ghost predicate RelsStored(q: seq<Packet>, v5: bool, store: Store) {
    forall p | p in q && p.Pubrel? :: Rel(v5, p.id) in store
  }

  lemma {:induction false} FlushStores(e: End, os: seq<Outcome>)
    requires |os| == |e.queue|
    ensures var t := Flush(e, os); e.store.Keys <= t.end.store.Keys && RelsStored(t.sent, e.v5, t.end.store)
    decreases |e.queue|
  {
    if e.queue == [] {
    } else {
      var t := Transmit(e.(queue := e.queue[1..]), e.queue[0], os[0]);
      assert RelsStored(t.sent, e.v5, t.end.store);
      if os[0] == Complete {
        FlushStores(t.end, os[1..]);
      }
    }
  }

  lemma FlushSenderId(s: System, os: seq<Outcome>, k: int)
    requires Inv(s) && Enabled(s, SenderWritten(os))
    ensures IdOk(Apply(s, SenderWritten(os)), k)
  {
    var s' := Apply(s, SenderWritten(os));
    var e := s.sender.(pending := false);
    var t := Flush(e, os);
    assert IdOk(s, k);
    FlushSends(e, os);
    FlushStores(e, os);
    OnlyJoin(s.fwd, t.sent, k);
    OnlyPrefix(t.sent, e.queue, k);
    var m, h, l := Lookup(s.sender.outbound, k), LookupHeld(s.receiver.inbound, k), LanesOf(s, k);
    LineOnFlush(e.v5, m, h, l, Only(t.sent, k), Given(s, m));
    assert Only(t.sent, k) != [] ==> Only(t.sent, k)[0] in t.sent && Only(t.sent, k)[0] in e.queue;
    assert LanesOf(s', k) == l.(f := l.f + Only(t.sent, k), g := []);
    if Rel(e.v5, k) !in t.end.store {
      assert Only(s'.fwd, k) == l.f;
    }
  }

  /** A PUBREL put off is of an id without a message, or of one that awaits its PUBCOMP. */
  lemma QueuedAreCalledFor(s: System, e: End)
    requires Inv(s) && e.outbound == s.sender.outbound && e.queue == s.sender.queue
    ensures forall i :: 0 <= i < |e.queue| ==> CalledFor(e, e.queue[i], false)
  {
    forall i | 0 <= i < |e.queue| ensures CalledFor(e, e.queue[i], false) {
      var p := e.queue[i];
      assert p in s.sender.queue && !NoneOf(e.queue, p.id);
      assert IdOk(s, p.id);
      OnlyNone(e.queue, p.id);
    }
  }

  lemma FlushSender(s: System, os: seq<Outcome>)
    requires Inv(s) && Enabled(s, SenderWritten(os))
    ensures Inv(Apply(s, SenderWritten(os)))
  {
    var e := s.sender.(pending := false);
    FlushSends(e, os);
    StoreOnly(s.sender, e, false);
    QueuedAreCalledFor(s, e);
    assert forall i :: 0 <= i < |e.queue| ==> e.queue[i] in e.queue;
    StoreAfterFlush(e, os, false);
    hide IdOk, Stored, Lookup, LookupHeld;
    forall k ensures IdOk(Apply(s, SenderWritten(os)), k) {
      FlushSenderId(s, os, k);
    }
  }

  lemma FlushReceiver(s: System, os: seq<Outcome>)
    requires Inv(s) && Enabled(s, ReceiverWritten(os))
    ensures Inv(Apply(s, ReceiverWritten(os)))
  {
    var s' := Apply(s, ReceiverWritten(os));
    var e := s.receiver.(pending := false);
    FlushSends(e, os);
    StoreOnly(s.receiver, e, true);
    assert forall i :: 0 <= i < |e.queue| ==> e.queue[i] in e.queue && CalledFor(e, e.queue[i], true);
    StoreAfterFlush(e, os, true);
    hide IdOk, Stored, Lookup, LookupHeld;
    forall k ensures IdOk(s', k) {
      FlushReceiverId(s, os, k);
    }
  }

  lemma FlushReceiverId(s: System, os: seq<Outcome>, k: int)
    requires Inv(s) && Enabled(s, ReceiverWritten(os))
    ensures IdOk(Apply(s, ReceiverWritten(os)), k)
  {
    var s' := Apply(s, ReceiverWritten(os));
    var e := s.receiver.(pending := false);
    var t := Flush(e, os);
    FlushSends(e, os);
    assert IdOk(s, k);
    OnlyJoin(s.bwd, t.sent, k);
    OnlyPrefix(t.sent, e.queue, k);
    var m, l := Lookup(s.sender.outbound, k), LanesOf(s, k);
    LineOnFlushBack(e.v5, m, LookupHeld(e.inbound, k), l, Only(t.sent, k), Given(s, m));
    assert LanesOf(s', k) == l.(b := l.b + Only(t.sent, k), q := []);
  }

  // ----- the connection ends, with or without one of the processes

  lemma LoseBoth(s: System)
    requires Inv(s)
    ensures Inv(Unplugged(s))
  {
    var s' := Unplugged(s);
    StoreOnly(s.sender, s'.sender, false);
    StoreOnly(s.receiver, s'.receiver, true);
    forall k ensures IdOk(s', k) {
      assert IdOk(s, k);
      var m := Lookup(s.sender.outbound, k);
      LineOnLoss(s.sender.v5, m, LookupHeld(s.receiver.inbound, k), LanesOf(s, k), LanesOf(s', k), Given(s, m));
    }
  }

  lemma CrashSenderId(s: System, e: End, k: int)
    requires Inv(s) && Enabled(s, SenderCrash(e))
    ensures IdOk(Apply(s, SenderCrash(e)), k)
  {
    var s' := Apply(s, SenderCrash(e));
    assert IdOk(s, k) && IdStored(s.sender, k, false);
    RecoveredId(s.sender, e, k);
    assert Lookup(e.outbound, k) == RestoredMessage(s.sender, k);
    var m, h := Lookup(s.sender.outbound, k), LookupHeld(s.receiver.inbound, k);
    LineOnLoss(s.sender.v5, m, h, LanesOf(s, k), LanesOf(s', k), Given(s, m));
  }

  lemma CrashSender(s: System, e: End)
    requires Inv(s) && Enabled(s, SenderCrash(e))
    ensures Inv(Apply(s, SenderCrash(e)))
  {
    var s' := Apply(s, SenderCrash(e));
    RecoveryTidies(s.sender, e);
    ExactCovers(e);
    StoreOnly(s.receiver, s'.receiver, true);
    RecoveredBodies(s, e);
    hide IdOk, Stored, Lookup, LookupHeld;
    forall k ensures IdOk(s', k) {
      CrashSenderId(s, e, k);
    }
  }

  lemma ExactCovers(e: End)
    requires StoreAgrees(e)
    ensures StoreCovers(e)
  {
    forall k ensures IdStored(e, k, false) {
      assert IdStored(e, k, true);
    }
  }

  lemma RecoveredBodies(s: System, e: End)
    requires Inv(s) && Recovered(s.sender, e)
    ensures OwnBodies(e.outbound)
  {
    var l := e.outbound;
    forall i, j | 0 <= i < j < |l| ensures l[i].body != l[j].body {
      LookupIs(l, i);
      LookupIs(l, j);
      RecoveredId(s.sender, e, l[i].id);
      RecoveredId(s.sender, e, l[j].id);
      if l[i].body == l[j].body {
        SameBody(s.sender.outbound, l[i].id, l[j].id);
      }
    }
  }

  lemma CrashReceiver(s: System, e: End)
    requires Inv(s) && Enabled(s, ReceiverCrash(e))
    ensures Inv(Apply(s, ReceiverCrash(e)))
  {
    var s' := Apply(s, ReceiverCrash(e));
    ExactCovers(s.receiver);
    RecoveryTidies(s.receiver, e);
    StoreOnly(s.sender, s'.sender, false);
    forall k ensures IdOk(s', k) {
      assert IdOk(s, k);
      RecoveredId(s.receiver, e, k);
      var m, h := Lookup(s.sender.outbound, k), LookupHeld(s.receiver.inbound, k);
      LineOnLoss(s.sender.v5, m, h, LanesOf(s, k), LanesOf(s', k), Given(s, m));
    }
  }

  lemma StepInv(s: System, ev: Event)
    requires Inv(s) && Enabled(s, ev) && Careful(s, ev, AllParts())
    ensures Inv(Apply(s, ev))
  {
    match ev
    case Accept(id, qos, o) => if qos > 0 { ApplyAccept(s, id, qos, o); } else { ApplyAccept0(s, o); }
    case Retry(i, o) => ApplyRetry(s, i, o);
    case ToReceiver(o) =>
      assert s.fwd[0] in s.fwd;
      if s.fwd[0].Pubrel? { ToReceiverPubrel(s, o); }
      else if s.fwd[0].qos == 2 { ToReceiverPublish(s, o); }
      else if s.fwd[0].qos == 1 { ToReceiverLevel1(s, o); }
      else { ToReceiverLevel0(s, o); }
    case ToSender(o) =>
      assert s.bwd[0] in s.bwd;
      if s.bwd[0].Pubrec? { ToSenderPubrec(s, o); } else { ToSenderEnd(s, o); }
    case SenderWritten(os) => FlushSender(s, os);
    case ReceiverWritten(os) => FlushReceiver(s, os);
    case Disconnect => LoseBoth(s);
    case SenderCrash(e) => CrashSender(s, e);
    case ReceiverCrash(e) => CrashReceiver(s, e);
  }
}
