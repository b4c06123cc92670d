/**
 Real runs told step by step, by what the two ends, the channels and the sender's store hold.

 A World says all of a System that matters to its further run.  For each kind of step there is a lemma that makes a
 run one step longer and says what the world is then.
 */
module SmallWorlds {
  import opened Delivery
  import opened Composition
  import opened CarefulSteps
  import opened SessionRestore
  import opened RealRuns
  import MessageIds

  datatype World = World(
    out: seq<Message>, rels: set<int>, sq: seq<Packet>, sp: bool, fwd: seq<Packet>,
    held: seq<Held>, rq: seq<Packet>, rp: bool, bwd: seq<Packet>,
    delivered: seq<int>, finished: set<int>)

  function Quiet(out: seq<Message>, rels: set<int>, sq: seq<Packet>, held: seq<Held>, rq: seq<Packet>, w: World): World {
    World(out, rels, sq, false, [], held, rq, false, [], w.delivered, w.finished)
  }

  /** The store holds the PUBLISH of every message in flight, and the PUBRELs of the given ids. */
  ghost predicate Keeps(v5: bool, store: Store, out: seq<Message>, rels: set<int>) {
    && (forall k | k in store :: k.v5 == v5 && !k.Received?)
    && (forall id :: Sent(v5, id) in store <==> Lookup(out, id).Some?)
    && (forall id :: Lookup(out, id).Some? ==>
          store[Sent(v5, id)] == PublishRecord(id, Lookup(out, id).value.qos, Lookup(out, id).value.body))
    && (forall id :: Rel(v5, id) in store <==> id in rels)
    && (forall id :: id in rels ==> store[Rel(v5, id)] == PubrelRecord(id))
  }

  ghost predicate Shows(s: System, v5: bool, w: World) {
    && s.sender == End(v5, w.out, [], w.sq, s.sender.store, w.sp, [])
    && s.receiver == End(v5, [], w.held, w.rq, s.receiver.store, w.rp, w.delivered)
    && s.fwd == w.fwd && s.bwd == w.bwd && s.finished == w.finished
    && UniqueIds(w.out) && UniqueHeld(w.held)
    && Keeps(v5, s.sender.store, w.out, w.rels)
  }

  /** A state that a real run reaches, careful about the parts, with n messages accepted and `last` the last id. */
  ghost predicate At(s: System, v5: bool, w: World, parts: set<Part>, due: Option<nat>, n: nat, last: int) {
    Reached(v5, s, parts, due) && Shows(s, v5, w) && |s.accepted| == n && s.last == last
  }

  // ----- the store

  lemma KeepsNew(v5: bool, store: Store, out: seq<Message>, rels: set<int>, m: Message)
    requires Keeps(v5, store, out, rels) && Lookup(out, m.id).None?
    ensures Keeps(v5, store[Sent(v5, m.id) := PublishRecord(m.id, m.qos, m.body)], out + [m], rels)
  {
    hide Lookup;
    forall id ensures Lookup(out + [m], id) == if id == m.id then Some(m) else Lookup(out, id) {
      LookupAppend(out, m, id);
    }
  }

  lemma KeepsAgain(v5: bool, store: Store, out: seq<Message>, rels: set<int>, m: Message)
    requires Keeps(v5, store, out, rels) && Lookup(out, m.id) == Some(m)
    ensures Keeps(v5, store[Sent(v5, m.id) := PublishRecord(m.id, m.qos, m.body)], out, rels)
  {
    hide Lookup;
  }

  lemma KeepsRel(v5: bool, store: Store, out: seq<Message>, rels: set<int>, id: int)
    requires Keeps(v5, store, out, rels)
    ensures Keeps(v5, store[Rel(v5, id) := PubrelRecord(id)], out, rels + {id})
  {
    hide Lookup;
  }

  lemma KeepsMark(v5: bool, store: Store, out: seq<Message>, rels: set<int>, i: nat)
    requires Keeps(v5, store, out, rels) && UniqueIds(out) && i < |out|
    ensures Keeps(v5, store, out[i := out[i].(next := AwaitPubcomp)], rels) && UniqueIds(out[i := out[i].(next := AwaitPubcomp)])
  {
    hide Lookup;
    var m := out[i].(next := AwaitPubcomp);
    LookupIs(out, i);
    LookupUpdate(out, i, m, 0);
    forall id ensures Lookup(out[i := m], id) == if id == m.id then Some(m) else Lookup(out, id) {
      LookupUpdate(out, i, m, id);
    }
  }

  lemma KeepsEnd(v5: bool, store: Store, out: seq<Message>, rels: set<int>, i: nat)
    requires Keeps(v5, store, out, rels) && UniqueIds(out) && i < |out|
    ensures Keeps(v5, ForgetSent(store, out[i].id), Without(out, i), rels - {out[i].id}) && UniqueIds(Without(out, i))
  {
    hide Lookup, Without;
    LookupWithout(out, i, 0);
    forall id ensures Lookup(Without(out, i), id) == if id == out[i].id then None else Lookup(out, id) {
      LookupWithout(out, i, id);
    }
  }

  // ----- the sender sends

  /** A message is sent again on a new connection. */
  lemma SendsAgain(s: System, v5: bool, w: World, parts: set<Part>, i: nat, n: nat, last: int, o: Outcome)
    returns (s': System, w': World)
    requires At(s, v5, w, parts, Some(i), n, last) && i < |w.out| && !w.sp
    requires o == Complete || (o == Interrupted && i == |w.out| - 1 && RetryPacket(w.out[i]).Publish?)
    ensures s.accepted <= s'.accepted
    ensures At(s', v5, w', parts, if i + 1 < |w.out| then Some(i + 1) else None, n, last)
    ensures var p := RetryPacket(w.out[i]);
            w' == w.(fwd := w.fwd + [p], sp := o == Interrupted, rels := if p.Pubrel? then w.rels + {p.id} else w.rels)
  {
    hide Reached, Keeps, Lookup;
    var m, p := w.out[i], RetryPacket(w.out[i]);
    w' := w.(fwd := w.fwd + [p], sp := o == Interrupted, rels := if p.Pubrel? then w.rels + {p.id} else w.rels);
    LookupIs(w.out, i);
    KeepsAgain(v5, s.sender.store, w.out, w.rels, m);
    KeepsRel(v5, s.sender.store, w.out, w.rels, m.id);
    s' := Go(v5, s, Retry(i, o), parts, Some(i));
  }

  /** The packets of a pass over the messages in flight, and the ids of the PUBRELs among them. */
  function Resends(out: seq<Message>): seq<Packet> {
    seq(|out|, i requires 0 <= i < |out| => RetryPacket(out[i]))
  }

  function Released(out: seq<Message>): set<int> {
    set m | m in out && RetryPacket(m).Pubrel? :: m.id
  }

  lemma ResendsOne(a: Message)
    ensures Resends([a]) == [RetryPacket(a)] && Released([a]) == if RetryPacket(a).Pubrel? then {a.id} else {}
  {
  }

  lemma ResendsTwo(a: Message, b: Message)
    ensures Resends([a, b]) == [RetryPacket(a), RetryPacket(b)]
    ensures Released([a, b]) == (if RetryPacket(a).Pubrel? then {a.id} else {}) + (if RetryPacket(b).Pubrel? then {b.id} else {})
  {
  }

  /** The rest of a pass, the last message being sent with outcome o. */
  lemma {:induction false} Passes(s: System, v5: bool, w: World, parts: set<Part>, i: nat, n: nat, last: int, o: Outcome)
    returns (s': System, w': World)
    requires i < |w.out| && At(s, v5, w, parts, Some(i), n, last) && !w.sp
    requires o == Complete || (o == Interrupted && RetryPacket(w.out[|w.out| - 1]).Publish?)
    ensures s.accepted <= s'.accepted
    ensures At(s', v5, w', parts, None, n, last)
    ensures w' == w.(fwd := w.fwd + Resends(w.out[i..]), sp := o == Interrupted, rels := w.rels + Released(w.out[i..]))
    decreases |w.out| - i
  {
    hide Reached, Shows, Resends, Released;
    PassSplits(w.out, i);
    if i + 1 == |w.out| {
      s', w' := SendsAgain(s, v5, w, parts, i, n, last, o);
    } else {
      s', w' := SendsAgain(s, v5, w, parts, i, n, last, Complete);
      s', w' := Passes(s', v5, w', parts, i + 1, n, last, o);
    }
  }

  lemma PassSplits(out: seq<Message>, i: nat)
    requires i < |out|
    ensures var p := RetryPacket(out[i]);
            && Resends(out[i..]) == [p] + Resends(out[i + 1..])
            && Released(out[i..]) == (if p.Pubrel? then {p.id} else {}) + Released(out[i + 1..])
    ensures i + 1 == |out| ==> Resends(out[i + 1..]) == [] && Released(out[i + 1..]) == {}
  {
    var rest := out[i..];
    assert out[i + 1..] == rest[1..] && rest == [out[i]] + rest[1..];
    assert Released(rest) == (if RetryPacket(out[i]).Pubrel? then {out[i].id} else {}) + Released(rest[1..]);
  }

  /** The connection ends; on the next one all messages in flight are sent again. */
  lemma Reconnects(s: System, v5: bool, w: World, parts: set<Part>, n: nat, last: int, o: Outcome)
    returns (s': System, w': World)
    requires At(s, v5, w, parts, None, n, last)
    requires o == Complete || (o == Interrupted && w.out != [] && RetryPacket(w.out[|w.out| - 1]).Publish?)
    ensures s.accepted <= s'.accepted
    ensures At(s', v5, w', parts, None, n, last)
    ensures w' == w.(fwd := Resends(w.out), sp := o == Interrupted, rels := w.rels + Released(w.out), bwd := [], rp := false)
  {
    hide Reached, Keeps, Lookup;
    w' := w.(fwd := [], bwd := [], sp := false, rp := false);
    s' := Go(v5, s, Disconnect, parts, None);
    if w.out == [] {
      assert Resends(w.out) == [] && Released(w.out) == {};
    } else {
      assert w.out[0..] == w.out;
      s', w' := Passes(s', v5, w', parts, 0, n, last, o);
    }
  }

  lemma FreeInOut(s: System, id: int)
    requires Lookup(s.sender.outbound, id).None?
    ensures id !in MessageIds.Used(Ids(s.sender.outbound))
  {
    var l := s.sender.outbound;
    LookupAbsent(l, id);
    assert forall x :: x in Ids(l) ==> exists i :: 0 <= i < |l| && Ids(l)[i] == x;
  }

  /** A new message. */
  lemma Accepts(s: System, v5: bool, w: World, parts: set<Part>, n: nat, last: int, id: int, qos: int, o: Outcome)
    returns (s': System, w': World)
    requires At(s, v5, w, parts, None, n, last) && !w.sp && (qos == 1 || qos == 2) && o != Failed
    requires Lookup(w.out, id).None? && 1 <= id <= MessageIds.MAX_MSG_ID
    requires MessageIds.Assigned(MessageIds.Used(Ids(w.out)), last, id)
    requires Spared(w, id, parts)
    ensures s'.accepted == s.accepted + [qos]
    ensures At(s', v5, w', parts, None, n + 1, id)
    ensures w' == w.(out := w.out + [Message(id, qos, n, if qos == 2 then AwaitPubrec else AwaitPuback)],
                     fwd := w.fwd + [Publish(id, qos, n, false)], sp := o == Interrupted)
  {
    hide Reached, Keeps, Lookup, MessageIds.Assigned, MessageIds.Used;
    var m := Message(id, qos, n, if qos == 2 then AwaitPubrec else AwaitPuback);
    w' := w.(out := w.out + [m], fwd := w.fwd + [Publish(id, qos, n, false)], sp := o == Interrupted);
    FreeInOut(s, id);
    SparedIsCareful(s, v5, w, id, qos, o, parts);
    hide Careful;
    KeepsNew(v5, s.sender.store, w.out, w.rels, m);
    LookupAppend(w.out, m, id);
    s' := Go(v5, s, Accept(id, qos, o), parts, None);
  }

  /** Whatever is left of the id is not among the parts. */
  ghost predicate Spared(w: World, id: int, parts: set<Part>) {
    && (NoneOf(w.fwd, id) || InForward !in parts)
    && (NoneOf(w.sq, id) || PutOffBySender !in parts)
    && (NoneOf(w.rq, id) || PutOffByReceiver !in parts)
    && (Pubrec(id) !in w.bwd || PubrecBehind !in parts)
    && (Puback(id) !in w.bwd || PubackBehind !in parts)
    && (id !in w.rels || RelStored !in parts)
  }

  lemma SparedIsCareful(s: System, v5: bool, w: World, id: int, qos: int, o: Outcome, parts: set<Part>)
    requires Shows(s, v5, w) && Spared(w, id, parts)
    ensures Careful(s, Accept(id, qos, o), parts)
  {
  }

  // ----- the receiver takes a packet

  function Answers(w: World, p: Packet, o: Outcome): World {
    if w.rp then w.(rq := w.rq + [p]) else w.(bwd := w.bwd + [p], rp := o == Interrupted)
  }

  ghost predicate HeadIs(w: World, p: Packet) {
    w.fwd != [] && w.fwd[0] == p && (w.sp ==> |w.fwd| > 1)
  }

  /** A PUBLISH of QoS 2 of which nothing is held. */
  lemma TakesPublish(s: System, v5: bool, w: World, parts: set<Part>, n: nat, last: int, p: Packet, o: Outcome)
    returns (s': System, w': World)
    requires At(s, v5, w, parts, None, n, last) && p.Publish? && p.qos == 2 && HeadIs(w, p) && o != Failed
    requires forall j :: 0 <= j < |w.held| ==> w.held[j].id != p.id
    ensures s.accepted <= s'.accepted
    ensures At(s', v5, w', parts, None, n, last)
    ensures w' == Answers(w.(fwd := w.fwd[1..], held := w.held + [Held(p.id, if v5 then None else Some(p.body))],
                             delivered := if v5 then w.delivered + [p.body] else w.delivered), Pubrec(p.id), o)
  {
    hide Reached, Keeps, Lookup;
    w' := Answers(w.(fwd := w.fwd[1..], held := w.held + [Held(p.id, if v5 then None else Some(p.body))],
                     delivered := if v5 then w.delivered + [p.body] else w.delivered), Pubrec(p.id), o);
    s' := Go(v5, s, ToReceiver(o), parts, None);
    HeldAfterHold(w.held, Held(p.id, if v5 then None else Some(p.body)), p.id);
    assert s.bwd + [] == s.bwd;
  }

  /** One that is held already. */
  lemma TakesAgain(s: System, v5: bool, w: World, parts: set<Part>, n: nat, last: int, p: Packet, j: nat, o: Outcome)
    returns (s': System, w': World)
    requires At(s, v5, w, parts, None, n, last) && p.Publish? && p.qos == 2 && HeadIs(w, p) && o != Failed
    requires j < |w.held| && w.held[j].id == p.id
    ensures s.accepted <= s'.accepted
    ensures At(s', v5, w', parts, None, n, last)
    ensures w' == Answers(w.(fwd := w.fwd[1..], held := w.held[j := Held(p.id, Some(p.body))]), Pubrec(p.id), o)
  {
    hide Reached, Keeps, Lookup;
    w' := Answers(w.(fwd := w.fwd[1..], held := w.held[j := Held(p.id, Some(p.body))]), Pubrec(p.id), o);
    HeldIs(w.held, j);
    s' := Go(v5, s, ToReceiver(o), parts, None);
    HeldAfterHold(w.held, Held(p.id, Some(p.body)), p.id);
    assert s.bwd + [] == s.bwd;
  }

  lemma TakesLevel1(s: System, v5: bool, w: World, parts: set<Part>, n: nat, last: int, p: Packet, o: Outcome)
    returns (s': System, w': World)
    requires At(s, v5, w, parts, None, n, last) && p.Publish? && p.qos == 1 && HeadIs(w, p) && o != Failed
    ensures s.accepted <= s'.accepted
    ensures At(s', v5, w', parts, None, n, last)
    ensures w' == Answers(w.(fwd := w.fwd[1..], delivered := w.delivered + [p.body]), Puback(p.id), o)
  {
    hide Reached, Keeps, Lookup;
    w' := Answers(w.(fwd := w.fwd[1..], delivered := w.delivered + [p.body]), Puback(p.id), o);
    s' := Go(v5, s, ToReceiver(o), parts, None);
    assert s.bwd + [] == s.bwd;
  }

  /** A PUBREL of a message that is held. */
  lemma TakesPubrel(s: System, v5: bool, w: World, parts: set<Part>, n: nat, last: int, id: int, j: nat, o: Outcome)
    returns (s': System, w': World)
    requires At(s, v5, w, parts, None, n, last) && HeadIs(w, Pubrel(id)) && o != Failed
    requires j < |w.held| && w.held[j].id == id
    ensures s.accepted <= s'.accepted
    ensures At(s', v5, w', parts, None, n, last)
    ensures var b := w.held[j].body;
            w' == Answers(w.(fwd := w.fwd[1..], held := Without(w.held, j),
                             delivered := if v5 || b.None? then w.delivered else w.delivered + [b.value]), Pubcomp(id), o)
  {
    hide Reached, Keeps, Lookup;
    var b := w.held[j].body;
    w' := Answers(w.(fwd := w.fwd[1..], held := Without(w.held, j),
                     delivered := if v5 || b.None? then w.delivered else w.delivered + [b.value]), Pubcomp(id), o);
    HeldIs(w.held, j);
    HeldWithout(w.held, j, id);
    s' := Go(v5, s, ToReceiver(o), parts, None);
    assert s.bwd + [] == s.bwd;
  }

  /** A PUBREL of nothing that is held. */
  lemma TakesLateRel(s: System, v5: bool, w: World, parts: set<Part>, n: nat, last: int, id: int, o: Outcome)
    returns (s': System, w': World)
    requires At(s, v5, w, parts, None, n, last) && HeadIs(w, Pubrel(id)) && o != Failed
    requires forall j :: 0 <= j < |w.held| ==> w.held[j].id != id
    ensures s.accepted <= s'.accepted
    ensures At(s', v5, w', parts, None, n, last)
    ensures w' == Answers(w.(fwd := w.fwd[1..]), Pubcomp(id), o)
  {
    hide Reached, Keeps, Lookup;
    w' := Answers(w.(fwd := w.fwd[1..]), Pubcomp(id), o);
    s' := Go(v5, s, ToReceiver(o), parts, None);
    assert s.bwd + [] == s.bwd;
  }

  // ----- the sender takes an answer

  ghost predicate AnswerIs(w: World, p: Packet) {
    w.bwd != [] && w.bwd[0] == p && (w.rp ==> |w.bwd| > 1)
  }

  /** The PUBREL that answers a PUBREC is sent, or put off. */
  function SendsRel(w: World, id: int, o: Outcome): World {
    if w.sp then w.(sq := w.sq + [Pubrel(id)])
    else w.(fwd := w.fwd + [Pubrel(id)], sp := o == Interrupted, rels := w.rels + {id})
  }

  lemma TakesPubrec(s: System, v5: bool, w: World, parts: set<Part>, n: nat, last: int, i: nat, o: Outcome)
    returns (s': System, w': World)
    requires At(s, v5, w, parts, None, n, last) && i < |w.out| && w.out[i].qos == 2 && w.out[i].next == AwaitPubrec
    requires AnswerIs(w, Pubrec(w.out[i].id)) && o != Failed
    ensures s.accepted <= s'.accepted
    ensures At(s', v5, w', parts, None, n, last)
    ensures w' == SendsRel(w.(bwd := w.bwd[1..], out := w.out[i := w.out[i].(next := AwaitPubcomp)]), w.out[i].id, o)
  {
    hide Reached, Keeps, Lookup;
    var id, m := w.out[i].id, w.out[i].(next := AwaitPubcomp);
    w' := SendsRel(w.(bwd := w.bwd[1..], out := w.out[i := m]), id, o);
    LookupIs(w.out, i);
    KeepsMark(v5, s.sender.store, w.out, w.rels, i);
    KeepsRel(v5, s.sender.store, w.out[i := m], w.rels, id);
    MarkDrops(s.sender, i, o);
    s' := Go(v5, s, ToSender(o), parts, None);
    assert s.fwd + [] == s.fwd && s.finished + {} == s.finished;
  }

  lemma MarkDrops(e: End, i: nat, o: Outcome)
    requires i < |e.outbound| && UniqueIds(e.outbound) && e.outbound[i].qos == 2 && e.outbound[i].next == AwaitPubrec
    ensures Dropped(e, Answered(e, Pubrec(e.outbound[i].id), o).end) == {}
  {
    LookupIs(e.outbound, i);
    NothingDropped(e, Answered(e, Pubrec(e.outbound[i].id), o).end);
    hide Dropped;
  }

  /** A PUBREC whose message is gone. */
  lemma TakesStray(s: System, v5: bool, w: World, parts: set<Part>, n: nat, last: int, id: int, o: Outcome)
    returns (s': System, w': World)
    requires At(s, v5, w, parts, None, n, last) && Lookup(w.out, id).None? && AnswerIs(w, Pubrec(id)) && o != Failed
    ensures s.accepted <= s'.accepted
    ensures At(s', v5, w', parts, None, n, last)
    ensures w' == SendsRel(w.(bwd := w.bwd[1..]), id, o)
  {
    hide Reached, Keeps;
    w' := SendsRel(w.(bwd := w.bwd[1..]), id, o);
    KeepsRel(v5, s.sender.store, w.out, w.rels, id);
    s' := Go(v5, s, ToSender(o), parts, None);
    NothingDropped(s.sender, s'.sender);
    assert s.fwd + [] == s.fwd && s.finished + {} == s.finished;
  }

  /** The PUBCOMP or PUBACK that ends a message. */
  lemma TakesEnd(s: System, v5: bool, w: World, parts: set<Part>, n: nat, last: int, i: nat) returns (s': System, w': World)
    requires At(s, v5, w, parts, None, n, last) && i < |w.out|
    requires var m := w.out[i];
             || (m.qos == 2 && m.next == AwaitPubcomp && AnswerIs(w, Pubcomp(m.id)))
             || (m.qos == 1 && AnswerIs(w, Puback(m.id)))
    ensures s.accepted <= s'.accepted
    ensures At(s', v5, w', parts, None, n, last)
    ensures w' == w.(bwd := w.bwd[1..], out := Without(w.out, i), rels := w.rels - {w.out[i].id},
                     finished := w.finished + {w.out[i].body})
  {
    hide Reached, Keeps, Lookup;
    w' := w.(bwd := w.bwd[1..], out := Without(w.out, i), rels := w.rels - {w.out[i].id},
             finished := w.finished + {w.out[i].body});
    LookupIs(w.out, i);
    KeepsEnd(v5, s.sender.store, w.out, w.rels, i);
    EndDrops(s.sender, i);
    s' := Go(v5, s, ToSender(Complete), parts, None);
    assert s.fwd + [] == s.fwd;
  }

  lemma EndDrops(e: End, i: nat)
    requires i < |e.outbound| && UniqueIds(e.outbound)
    ensures Dropped(e, e.(outbound := Without(e.outbound, i), store := ForgetSent(e.store, e.outbound[i].id))) == {e.outbound[i].body}
  {
    OneDropped(e, e.(outbound := Without(e.outbound, i), store := ForgetSent(e.store, e.outbound[i].id)), i);
    hide Dropped;
  }

  /** A PUBCOMP whose message is gone. */
  lemma TakesLateComp(s: System, v5: bool, w: World, parts: set<Part>, n: nat, last: int, id: int) returns (s': System, w': World)
    requires At(s, v5, w, parts, None, n, last) && Lookup(w.out, id).None? && AnswerIs(w, Pubcomp(id))
    ensures s.accepted <= s'.accepted
    ensures At(s', v5, w', parts, None, n, last) && w' == w.(bwd := w.bwd[1..])
  {
    hide Reached, Keeps;
    w' := w.(bwd := w.bwd[1..]);
    s' := Go(v5, s, ToSender(Complete), parts, None);
    NothingDropped(s.sender, s'.sender);
    assert s.fwd + [] == s.fwd && s.finished + {} == s.finished;
  }

  // ----- a pending write is done

  lemma FlushOne(e: End)
    requires |e.queue| == 1
    ensures Flush(e, [Complete]) == Transmit(e.(queue := []), e.queue[0], Complete)
  {
    var t := Transmit(e.(queue := e.queue[1..]), e.queue[0], Complete);
    assert Flush(t.end, []) == Step(t.end, []);
    assert [Complete][1..] == [] && t.sent + [] == t.sent;
  }

  lemma SenderIsDone(s: System, v5: bool, w: World, parts: set<Part>, n: nat, last: int, id: int) returns (s': System, w': World)
    requires At(s, v5, w, parts, None, n, last) && w.sp && w.sq == [Pubrel(id)]
    ensures s.accepted <= s'.accepted
    ensures At(s', v5, w', parts, None, n, last)
    ensures w' == w.(sp := false, sq := [], fwd := w.fwd + [Pubrel(id)], rels := w.rels + {id})
  {
    hide Reached, Keeps, Lookup;
    w' := w.(sp := false, sq := [], fwd := w.fwd + [Pubrel(id)], rels := w.rels + {id});
    KeepsRel(v5, s.sender.store, w.out, w.rels, id);
    FlushOne(s.sender.(pending := false));
    s' := Go(v5, s, SenderWritten([Complete]), parts, None);
  }

  lemma ReceiverIsDone(s: System, v5: bool, w: World, parts: set<Part>, n: nat, last: int) returns (s': System, w': World)
    requires At(s, v5, w, parts, None, n, last) && w.rp && |w.rq| <= 1
    requires |w.rq| == 1 ==> w.rq[0].Puback? || w.rq[0].Pubrec? || w.rq[0].Pubcomp?
    ensures s.accepted <= s'.accepted
    ensures At(s', v5, w', parts, None, n, last)
    ensures w' == w.(rp := false, rq := [], bwd := w.bwd + w.rq)
  {
    hide Reached, Keeps, Lookup;
    w' := w.(rp := false, rq := [], bwd := w.bwd + w.rq);
    if w.rq == [] {
      s' := Go(v5, s, ReceiverWritten([]), parts, None);
    } else {
      FlushOne(s.receiver.(pending := false));
      s' := Go(v5, s, ReceiverWritten([Complete]), parts, None);
    }
  }

  /** The first of two answers put off is not written whole, and the second is dropped. */
  lemma ReceiverDropsOne(s: System, v5: bool, w: World, parts: set<Part>, n: nat, last: int) returns (s': System, w': World)
    requires At(s, v5, w, parts, None, n, last) && w.rp && |w.rq| == 2 && w.rq[0].Pubrec?
    ensures s.accepted <= s'.accepted
    ensures At(s', v5, w', parts, None, n, last) && w' == w.(rq := [], bwd := w.bwd + [w.rq[0]])
  {
    hide Reached, Keeps, Lookup;
    w' := w.(rq := [], bwd := w.bwd + [w.rq[0]]);
    var e, os := s.receiver.(pending := false), [Interrupted, Complete];
    assert Flush(e, os).sent == [w.rq[0]];
    s' := Go(v5, s, ReceiverWritten(os), parts, None);
  }

  // ----- the sender restarts

  /** A restart with a single message in flight whose PUBREL record is stored. */
  lemma RestartsAhead(s: System, v5: bool, w: World, parts: set<Part>, n: nat, last: int) returns (s': System, w': World)
    requires At(s, v5, w, parts, None, n, last) && |w.out| == 1 && w.out[0].qos == 2 && w.rels == {w.out[0].id}
    ensures s.accepted <= s'.accepted
    ensures At(s', v5, w', parts, None, n, 0)
    ensures var m := w.out[0].(next := AwaitPubcomp);
            w' == w.(out := [m], fwd := [Pubrel(m.id)], bwd := [], sp := false, rp := false, sq := [])
  {
    hide Reached, Keeps, Recovered, RestartsAs, Lookup;
    var m := w.out[0].(next := AwaitPubcomp);
    var e := End(v5, [m], [], [], s.sender.store, false, []);
    ComesBack(s, v5, w, m, e);
    w' := w.(out := [m], fwd := [], bwd := [], sp := false, rp := false, sq := []);
    KeepsMark(v5, s.sender.store, w.out, w.rels, 0);
    assert w.out[0 := m] == [m];
    s' := Go(v5, s, SenderCrash(e), parts, None);
    s', w' := SendsAgain(s', v5, w', parts, 0, n, 0, Complete);
    assert w.rels + {m.id} == w.rels;
  }

  lemma ComesBack(s: System, v5: bool, w: World, m: Message, e: End)
    requires Shows(s, v5, w) && |w.out| == 1 && w.out[0].qos == 2 && w.rels == {w.out[0].id}
    requires m == w.out[0].(next := AwaitPubcomp) && e == End(v5, [m], [], [], s.sender.store, false, [])
    ensures Recovered(s.sender, e) && RestartsAs(s.sender, e)
  {
    var store, a, b := s.sender.store, Sent(v5, m.id), Rel(v5, m.id);
    LookupIs(w.out, 0);
    LookupIs([m], 0);
    assert forall id :: Lookup(w.out, id).Some? <==> id == m.id;
    assert forall k :: k in store <==> k == a || k == b;
    assert store[a] == PublishRecord(m.id, 2, m.body) && store[b] == PubrelRecord(m.id);
    assert WithoutOrphans(s.sender) == store;
    RestoresOne(s.sender, v5, m, e);
  }

  lemma RestoresOne(was: End, v5: bool, m: Message, e: End)
    requires was.v5 == v5 && m.next == AwaitPubcomp && m.qos == 2 && was.delivered == []
    requires var a, b := Sent(v5, m.id), Rel(v5, m.id);
             && (forall k :: k in was.store <==> k == a || k == b)
             && was.store[a] == PublishRecord(m.id, 2, m.body) && was.store[b] == PubrelRecord(m.id)
    requires e == End(v5, [m], [], [], was.store, false, [])
    ensures RestartsAs(was, e)
  {
    var a, b := Sent(v5, m.id), Rel(v5, m.id);
    var keys := [a, b];
    var blank := Blank(was);
    assert keys[1..] == [b] && [b][1..] == [];
    assert Unread(blank, keys) && Lists(keys, was.store);
    assert InsertInOrder([], m) == [m];
    assert RestoreKey(blank, a) == Some(e);
    assert RestoreKey(e, b) == Some(e);
    RestoreUnfold(blank, keys);
    RestoreUnfold(e, [b]);
    assert RestoreKeys(e, []) == Some(e);
    assert Wrapped([m]) == [m];
    assert RestoreSession(was, keys) == Some(e);
  }
}
