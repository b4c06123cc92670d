/**
 MQTTProtocolClient.c and MQTTPersistence.c: the handlers as methods that change one client in place.

 What the socket does with each packet is a parameter.  Every method is proved to compute the
 function of Delivery or SessionRestore that the theorems about runs and recovery speak of.
 */
module ProtocolClient {
  import opened Delivery
  import opened ChannelLines
  import opened Composition
  import opened SessionRestore

  /** What a pass of retries does: the new state, what was handed to the socket, and whether the session was closed. */
  datatype Pass = Pass(end: End, sent: seq<Packet>, closed: bool)

  /** A PUBLISH that fails closes the session, and so does a PUBREL that is not written whole. */
  predicate Closes(m: Message, o: Outcome) {
    o == Failed || (o == Interrupted && RetryPacket(m).Pubrel?)
  }

  /** Retrying from message i on, as long as there is no pending write. */
  function RetryFrom(e: End, i: nat, os: seq<Outcome>): Pass
    requires i <= |e.outbound| && |os| == |e.outbound|
    decreases |e.outbound| - i
  {
    if i == |e.outbound| || e.pending then Pass(e, [], false)
    else
      var s := RetryOne(e, i, os[i]);
      if Closes(e.outbound[i], os[i]) then Pass(s.end.(pending := false), s.sent, true)
      else
        var r := RetryFrom(s.end, i + 1, os);
        Pass(r.end, s.sent + r.sent, r.closed)
  }

  /** The whole system after a pass of retries of its sender. */
  function AfterRetries(s: System, r: Pass): System {
    var t := s.(sender := r.end, fwd := s.fwd + r.sent);
    if r.closed then Unplugged(t) else t
  }

  /** The packets of messages i to j - 1, in the order of the list. */
  function Again(list: seq<Message>, i: nat, j: nat): seq<Packet>
    requires i <= j <= |list|
    decreases j - i
  {
    if i == j then [] else [RetryPacket(list[i])] + Again(list, i + 1, j)
  }

  /** A pass sends the messages of the list again, in its order, up to the first write that is not completed.  If there
      is one, it closes the session when nothing of the packet went out or when the packet was a PUBREL, that of a message
      waiting for its PUBCOMP, and otherwise leaves the write pending. */
  lemma {:induction false} PassSends(e: End, i: nat, os: seq<Outcome>, j: nat)
    requires i <= j <= |e.outbound| == |os| && !e.pending
    requires (forall x :: i <= x < j ==> os[x] == Complete) && (j < |os| ==> os[j] != Complete)
    ensures var p := RetryFrom(e, i, os);
            if j == |os| then p.sent == Again(e.outbound, i, j) && !p.closed && !p.end.pending
            else
              var m := e.outbound[j];
              && p.sent == Again(e.outbound, i, j) + (if os[j] == Failed then [] else [RetryPacket(m)])
              && (p.closed <==> os[j] == Failed || (m.qos == 2 && m.next == AwaitPubcomp))
              && (p.end.pending <==> !p.closed)
    decreases |e.outbound| - i
  {
    if i < j {
      PassSends(RetryOne(e, i, os[i]).end, i + 1, os, j);
      var s, r := RetryOne(e, i, os[i]), RetryFrom(RetryOne(e, i, os[i]).end, i + 1, os);
      assert s.sent == [RetryPacket(e.outbound[i])];
    } else if j < |os| {
      var s := RetryOne(e, j, os[j]);
      if !Closes(e.outbound[j], os[j]) {
        assert RetryFrom(s.end, j + 1, os) == Pass(s.end, [], false);
      }
    }
  }

  lemma RetryKeepsList(e: End, i: nat, o: Outcome)
    requires i < |e.outbound|
    ensures RetryOne(e, i, o).end.outbound == e.outbound
  {
  }

  /** A pass of retries is a run of single retries, perhaps with the end of the connection, and no id is used in
      it, so the theorems about runs cover it. */
  lemma {:induction false} RetryIsRun(s: System, i: nat, os: seq<Outcome>) returns (evs: seq<Event>)
    requires i <= |s.sender.outbound| && |os| == |s.sender.outbound|
    ensures Runs(s, evs) && CarefulRun(s, evs, AllParts()) && After(s, evs) == AfterRetries(s, RetryFrom(s.sender, i, os))
    decreases |s.sender.outbound| - i
  {
    hide Clear, AllParts, Transmit, RetryPacket;
    if i == |s.sender.outbound| || s.sender.pending {
      evs := [];
      assert s.fwd + [] == s.fwd;
    } else {
      var ev := Retry(i, os[i]);
      var s' := Apply(s, ev);
      RetryKeepsList(s.sender, i, os[i]);
      if Closes(s.sender.outbound[i], os[i]) {
        evs := [ev, Disconnect];
        assert evs[1..] == [Disconnect] && [Disconnect][1..] == [];
      } else {
        var rest := RetryIsRun(s', i + 1, os);
        evs := [ev] + rest;
        assert evs[1..] == rest;
        var t, r := RetryOne(s.sender, i, os[i]), RetryFrom(s'.sender, i + 1, os);
        assert (s.fwd + t.sent) + r.sent == s.fwd + (t.sent + r.sent);
        hide CarefulRun, RetryOne;
      }
    }
  }

  ghost function Prepend(a: seq<Packet>, s: Step): Step {
    Step(s.end, a + s.sent)
  }

  ghost function PrependPass(a: seq<Packet>, p: Pass): Pass {
    p.(sent := a + p.sent)
  }

  /** One round of the retry loop. */
  lemma RetryUnfold(a: seq<Packet>, e: End, i: nat, os: seq<Outcome>)
    requires i < |e.outbound| && |os| == |e.outbound| && !e.pending
    ensures var t := RetryOne(e, i, os[i]);
            PrependPass(a, RetryFrom(e, i, os)) ==
            if Closes(e.outbound[i], os[i]) then Pass(t.end.(pending := false), a + t.sent, true)
            else PrependPass(a + t.sent, RetryFrom(t.end, i + 1, os))
  {
    var t := RetryOne(e, i, os[i]);
    if !Closes(e.outbound[i], os[i]) {
      var r := RetryFrom(t.end, i + 1, os);
      assert a + (t.sent + r.sent) == (a + t.sent) + r.sent;
    }
  }

  /** One round of the flush loop; e still has the whole queue, of which the part from i on is left. */
  lemma RetryEnds(a: seq<Packet>, e: End, i: nat, os: seq<Outcome>)
    requires i <= |e.outbound| == |os|
    ensures PrependPass([], RetryFrom(e, i, os)) == RetryFrom(e, i, os)
    ensures i == |e.outbound| || e.pending ==> PrependPass(a, RetryFrom(e, i, os)) == Pass(e, a, false)
  {
    var p := RetryFrom(e, i, os);
    assert [] + p.sent == p.sent && a + [] == a;
  }

  lemma FlushUnfold(a: seq<Packet>, e: End, i: nat, os: seq<Outcome>)
    requires i < |e.queue| == |os|
    ensures var t := Transmit(e, e.queue[i], os[i]);
            Prepend(a, FlushFrom(e, i, os)) ==
            if os[i] != Complete then Step(t.end.(queue := []), a + t.sent) else Prepend(a + t.sent, FlushFrom(t.end, i + 1, os))
  {
    var q, o := e.queue[i..], os[i..];
    var e0 := e.(queue := q);
    var t0, t := Transmit(e0.(queue := q[1..]), q[0], o[0]), Transmit(e, e.queue[i], os[i]);
    assert q[1..] == e.queue[i + 1..] && o[1..] == os[i + 1..];
    assert t0.sent == t.sent && t0.end == t.end.(queue := q[1..]);
    if os[i] == Complete {
      var r := Flush(t0.end, o[1..]);
      assert a + (t.sent + r.sent) == (a + t.sent) + r.sent;
    }
  }

  ghost function FlushFrom(e: End, i: nat, os: seq<Outcome>): Step
    requires i <= |e.queue| == |os|
  {
    Flush(e.(queue := e.queue[i..]), os[i..])
  }

  lemma FlushEnds(a: seq<Packet>, e: End, os: seq<Outcome>)
    requires |e.queue| == |os|
    ensures Prepend([], FlushFrom(e, 0, os)) == Flush(e, os)
    ensures Prepend(a, FlushFrom(e, |os|, os)) == Step(e.(queue := []), a)
  {
    assert e.queue[0..] == e.queue && os[0..] == os && e.queue[|os|..] == [] && os[|os|..] == [];
    var t := Flush(e, os);
    assert [] + t.sent == t.sent;
  }

  class Client {
    const v5: bool
    var outboundMsgs: seq<Message>
    var inboundMsgs: seq<Held>
    var outboundQueue: seq<Packet>
    var store: Store
    var pendingWrites: bool
    var delivered: seq<int>
    var sent: seq<Packet>          // everything handed to the socket so far

    function State(): End
      reads this
    {
      End(v5, outboundMsgs, inboundMsgs, outboundQueue, store, pendingWrites, delivered)
    }

    /** The state and the socket after a step from `was`, with `out` handed over before. */
    ghost predicate Did(s: Step, out: seq<Packet>)
      reads this
    {
      State() == s.end && sent == out + s.sent
    }

    constructor (v5: bool)
      ensures State() == Init(v5).sender && sent == [] && StoreAgrees(State())
    {
      this.v5 := v5;
      outboundMsgs, inboundMsgs, outboundQueue, store := [], [], [], map[];
      pendingWrites, delivered, sent := false, [], [];
      new;
      InitInv(v5);
    }

    /** ListFindItem over the outbound list. */
    method FindOutbound(id: int) returns (i: nat)
      ensures i == Position(outboundMsgs, id)
    {
      i := 0;
      while i < |outboundMsgs| && outboundMsgs[i].id != id
        invariant i <= |outboundMsgs|
        invariant Position(outboundMsgs, id) == i + Position(outboundMsgs[i..], id)
      {
        i := i + 1;
      }
    }

    method FindInbound(id: int) returns (i: nat)
      ensures i == HeldPosition(inboundMsgs, id)
    {
      i := 0;
      while i < |inboundMsgs| && inboundMsgs[i].id != id
        invariant i <= |inboundMsgs|
        invariant HeldPosition(inboundMsgs, id) == i + HeldPosition(inboundMsgs[i..], id)
      {
        i := i + 1;
      }
    }

    /** MQTTPacket_send and MQTTPacket_sends: the record first, then the socket. */
    method Send(p: Packet, o: Outcome)
      modifies this
      ensures Did(Transmit(old(State()), p, o), old(sent))
    {
      match p {
        case Publish(id, qos, body, dup) =>
          if qos > 0 {
            store := store[Sent(v5, id) := PublishRecord(id, qos, body)];
          }
        case Pubrel(id) =>
          store := store[Rel(v5, id) := PubrelRecord(id)];
        case _ =>
      }
      if o != Failed {
        sent := sent + [p];
        if o == Interrupted {
          pendingWrites := true;
        }
      }
    }

    method QueueAck(p: Packet)
      modifies this`outboundQueue
      ensures outboundQueue == old(outboundQueue) + [p]
    {
      outboundQueue := outboundQueue + [p];
    }

    method SendOrQueue(p: Packet, o: Outcome)
      modifies this
      ensures Did(Reply(old(State()), p, o), old(sent))
    {
      if pendingWrites {
        QueueAck(p);
      } else {
        Send(p, o);
      }
    }

    method StartPublish(id: int, qos: int, body: int, o: Outcome)
      modifies this
      ensures Did(Delivery.StartPublish(old(State()), id, qos, body, o), old(sent))
      ensures o != Failed ==> sent == old(sent) + [Publish(id, qos, body, false)]
      ensures qos == 0 ==> outboundMsgs == old(outboundMsgs) && store == old(store)
      ensures old(StoreAgrees(State())) && (qos == 1 || qos == 2) && Lookup(old(outboundMsgs), id).None? ==> StoreAgrees(State())
    {
      if StoreAgreesNow() && (qos == 1 || qos == 2) && Lookup(outboundMsgs, id).None? {
        NoRelWhenFree(State(), id);
        StoreAfterStart(State(), id, qos, body, o, true);
      }
      if qos > 0 {
        var m := Message(id, qos, body, AwaitPuback);
        if qos == 2 {
          m := m.(next := AwaitPubrec);
        }
        outboundMsgs := outboundMsgs + [m];
      }
      Send(Publish(id, qos, body, false), o);
    }

    ghost predicate StoreAgreesNow()
      reads this
    {
      StoreAgrees(State())
    }

    method HandlePublishes(id: int, qos: int, body: int, o: Outcome)
      modifies this
      ensures Did(HandlePublish(old(State()), id, qos, body, o), old(sent))
      ensures qos == 0 ==> delivered == old(delivered) + [body] && sent == old(sent) && outboundQueue == old(outboundQueue)
                           && outboundMsgs == old(outboundMsgs) && inboundMsgs == old(inboundMsgs) && store == old(store)
                           && pendingWrites == old(pendingWrites)
      ensures qos == 1 ==> delivered == old(delivered) + [body] && inboundMsgs == old(inboundMsgs)
                           && if old(pendingWrites) then outboundQueue == old(outboundQueue) + [Puback(id)]
                              else o != Failed ==> sent == old(sent) + [Puback(id)]
      ensures old(StoreAgrees(State())) ==> StoreAgrees(State())
    {
      if StoreAgreesNow() { StoreAfterPublish(State(), id, qos, body, o, true); }
      if qos == 0 {
        delivered := delivered + [body];
      } else if qos == 1 {
        delivered := delivered + [body];
        SendOrQueue(Puback(id), o);
      } else {
        store := store[Received(v5, id) := PublishRecord(id, qos, body)];
        var m := Held(id, Some(body));
        var i := FindInbound(id);
        var alreadyReceived := i < |inboundMsgs|;
        if v5 && !alreadyReceived {
          delivered := delivered + [body];
          m := m.(body := None);
        }
        if alreadyReceived {
          inboundMsgs := inboundMsgs[i := m];
        } else {
          inboundMsgs := inboundMsgs + [m];
        }
        SendOrQueue(Pubrec(id), o);
      }
    }

    method HandlePubacks(id: int)
      modifies this
      ensures State() == HandlePuback(old(State()), id) && sent == old(sent)
      ensures old(StoreAgrees(State())) ==> StoreAgrees(State())
    {
      if StoreAgreesNow() { StoreAfterPuback(State(), id, true); }
      var i := FindOutbound(id);
      if i < |outboundMsgs| && outboundMsgs[i].qos == 1 {
        RemoveSent(id);
        outboundMsgs := Without(outboundMsgs, i);
      }
    }

    /** MQTTPersistence_remove for an outbound id: four keys, one after the other. */
    method RemoveSent(id: int)
      modifies this`store
      ensures store == ForgetSent(old(store), id)
    {
      store := store - {Sent(true, id)};
      store := store - {Rel(true, id)};
      store := store - {Sent(false, id)};
      store := store - {Rel(false, id)};
    }

    method HandlePubrecs(id: int, refused: bool, o: Outcome)
      modifies this
      ensures Did(HandlePubrec(old(State()), id, refused, o), old(sent))
      ensures old(StoreAgrees(State())) ==>
                var m := Lookup(old(outboundMsgs), id);
                StoreAgrees(State()) <==> old(pendingWrites) || (m.Some? && m.value.qos == 2)
    {
      if StoreAgreesNow() { StoreAfterPubrec(State(), id, refused, o, true); }
      var sendPubrel := true;
      var i := FindOutbound(id);
      if i < |outboundMsgs| {
        var m := outboundMsgs[i];
        if m.qos == 2 && m.next == AwaitPubrec {
          if v5 && refused {
            RemoveSent(id);
            outboundMsgs := Without(outboundMsgs, i);
            sendPubrel := false;
          } else {
            outboundMsgs := outboundMsgs[i := m.(next := AwaitPubcomp)];
          }
        }
      }
      if sendPubrel {
        SendOrQueue(Pubrel(id), o);
      }
    }

    method HandlePubrels(id: int, o: Outcome)
      modifies this
      ensures Did(HandlePubrel(old(State()), id, o), old(sent))
      ensures old(StoreAgrees(State())) ==> StoreAgrees(State())
    {
      if StoreAgreesNow() { StoreAfterPubrel(State(), id, o, true); }
      var i := FindInbound(id);
      if i < |inboundMsgs| {
        var m := inboundMsgs[i];
        if !v5 && m.body.Some? {
          delivered := delivered + [m.body.value];
        }
        store := store - {Received(true, id)};
        store := store - {Received(false, id)};
        assert store == ForgetReceived(old(store), id);
        inboundMsgs := Without(inboundMsgs, i);
      }
      SendOrQueue(Pubcomp(id), o);
    }

    method HandlePubcomps(id: int)
      modifies this
      ensures State() == HandlePubcomp(old(State()), id) && sent == old(sent)
      ensures old(StoreAgrees(State())) ==> StoreAgrees(State())
    {
      if StoreAgreesNow() { StoreAfterPubcomp(State(), id, true); }
      var i := FindOutbound(id);
      if i < |outboundMsgs| && outboundMsgs[i].qos == 2 && outboundMsgs[i].next == AwaitPubcomp {
        RemoveSent(id);
        outboundMsgs := Without(outboundMsgs, i);
      }
    }

    /** Sends one outbound message again; a PUBREL that is not written whole closes the session. */
    method RetryMessage(i: nat, o: Outcome) returns (closed: bool)
      requires i < |outboundMsgs|
      modifies this
      ensures closed == Closes(old(outboundMsgs[i]), o) && outboundMsgs == old(outboundMsgs)
      ensures var t := RetryOne(old(State()), i, o);
              sent == old(sent) + t.sent && State() == if closed then t.end.(pending := false) else t.end
    {
      var m := outboundMsgs[i];
      if m.qos == 2 && m.next == AwaitPubcomp {
        Send(Pubrel(m.id), o);
        closed := o != Complete;
      } else {
        Send(Publish(m.id, m.qos, m.body, true), o);
        closed := o == Failed;
      }
      if closed {
        CloseSession();
      }
    }

    /** MQTTProtocol_retries on a reconnect: every outbound message in turn, as long as there is no pending write
        and the session is open. */
    method Retries(os: seq<Outcome>) returns (closed: bool)
      requires |os| == |outboundMsgs|
      modifies this
      ensures var p := RetryFrom(old(State()), 0, os); Did(Step(p.end, p.sent), old(sent)) && closed == p.closed
    {
      hide RetryFrom, PrependPass, RetryOne, Closes;
      var i := 0;
      closed := false;
      RetryEnds([], State(), 0, os);
      ghost var goal, out, here := RetryFrom(State(), 0, os), sent, [];
      while i < |outboundMsgs| && !closed && !pendingWrites
        invariant i <= |outboundMsgs| == |os| && outboundMsgs == old(outboundMsgs) && sent == out + here
        invariant goal == if closed then Pass(State(), here, true) else PrependPass(here, RetryFrom(State(), i, os))
      {
        RetryUnfold(here, State(), i, os);
        here := here + RetryOne(State(), i, os[i]).sent;
        closed := RetryMessage(i, os[i]);
        i := i + 1;
      }
      RetryEnds(here, State(), i, os);
    }

    /** MQTTProtocol_closeSession, as far as it concerns the session: the socket is gone with its pending write. */
    method CloseSession()
      modifies this`pendingWrites
      ensures !pendingWrites
    {
      pendingWrites := false;
    }

    /** MQTTProtocol_writeAvailable, called when the pending write is done. */
    method WriteAvailable(os: seq<Outcome>)
      requires !pendingWrites && |os| == |outboundQueue|
      modifies this
      ensures Did(Flush(old(State()), os), old(sent))
    {
      hide Flush, FlushFrom, Prepend;
      var i := 0;
      var rc := Complete;
      ghost var q, out, here := outboundQueue, sent, [];
      ghost var goal := Flush(State(), os);
      FlushEnds([], State(), os);
      while i < |outboundQueue| && rc == Complete
        invariant i <= |outboundQueue| == |os| && outboundQueue == q && sent == out + here
        invariant goal == if rc == Complete then Prepend(here, FlushFrom(State(), i, os)) else Step(State().(queue := []), here)
      {
        FlushUnfold(here, State(), i, os);
        here := here + Transmit(State(), q[i], os[i]).sent;
        Send(outboundQueue[i], os[i]);
        rc := os[i];
        i := i + 1;
      }
      FlushEnds(here, State(), os);
      outboundQueue := [];
    }

    /** MQTTPersistence_insertInOrder. */
    method InsertOutbound(m: Message)
      modifies this`outboundMsgs
      ensures outboundMsgs == InsertInOrder(old(outboundMsgs), m)
    {
      var i := 0;
      while i < |outboundMsgs| && m.id >= outboundMsgs[i].id
        invariant i <= |outboundMsgs|
        invariant Place(outboundMsgs, m.id) == i + Place(outboundMsgs[i..], m.id)
      {
        i := i + 1;
      }
      outboundMsgs := outboundMsgs[..i] + [m] + outboundMsgs[i..];
    }

    /** MQTTPersistence_wrapMsgID. */
    method WrapMsgId()
      modifies this`outboundMsgs
      ensures outboundMsgs == Wrapped(old(outboundMsgs))
    {
      if |outboundMsgs| > 0 {
        var gap := MAX_MSG_ID - outboundMsgs[|outboundMsgs| - 1].id + outboundMsgs[0].id;
        var wrapel := 0;
        var i := 1;
        while i < |outboundMsgs|
          invariant 1 <= i <= |outboundMsgs|
          invariant wrapel == WidestBefore(outboundMsgs, i) && gap == Gap(outboundMsgs, wrapel)
        {
          var curgap := outboundMsgs[i].id - outboundMsgs[i - 1].id;
          if curgap > gap {
            gap := curgap;
            wrapel := i;
          }
          i := i + 1;
        }
        outboundMsgs := outboundMsgs[wrapel..] + outboundMsgs[..wrapel];
      }
    }

    /** One key of the store. */
    method RestoreRecord(k: Key) returns (ok: bool)
      requires k in store
      modifies this`outboundMsgs, this`inboundMsgs, this`store
      ensures var r := RestoreKey(old(State()), k); ok == r.Some? && (ok ==> State() == r.value)
    {
      ok := true;
      if k.v5 && !v5 {
        ok := false;
      } else {
        match store[k] {
          case Unreadable =>
            store := store - {k};
          case PublishRecord(id, qos, body) =>
            if k.Received? {
              inboundMsgs := inboundMsgs + [Held(id, if v5 then None else Some(body))];
            } else {
              var next := if qos == 2 then AwaitPubrec else AwaitPuback;
              if Rel(v5, id) in store {
                next := AwaitPubcomp;
              }
              InsertOutbound(Message(id, qos, body, next));
            }
          case PubrelRecord(id) =>
            if Sent(v5, id) !in store {
              store := store - {k};
            }
        }
      }
    }

    /** MQTTPersistence_restorePackets, into a client that has just been created. */
    method RestorePackets(keys: seq<Key>) returns (ok: bool)
      requires outboundMsgs == [] && inboundMsgs == [] && outboundQueue == [] && !pendingWrites
      requires Lists(keys, store)
      modifies this`outboundMsgs, this`inboundMsgs, this`store
      ensures var r := RestoreSession(old(State()), keys); ok == r.Some? && (ok ==> State() == r.value)
    {
      assert keys[0..] == keys && Blank(State()) == State();
      ghost var goal := RestoreKeys(State(), keys);
      ok := true;
      var i := 0;
      while i < |keys| && ok
        invariant i <= |keys|
        invariant if ok then Unread(State(), keys[i..]) && RestoreKeys(State(), keys[i..]) == goal else goal.None?
      {
        assert keys[i..][1..] == keys[i + 1..];
        RestoreUnfold(State(), keys[i..]);
        ok := RestoreRecord(keys[i]);
        i := i + 1;
      }
      if ok {
        assert keys[i..] == [];
        WrapMsgId();
      }
    }
  }
}
