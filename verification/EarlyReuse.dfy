/**
 For each part of Careful a run that the code can take, that is careful about all the others, and that loses a
 message or delivers one twice.  So the promise is kept in every run that is careful about a set of parts if and only
 if the set is whole, whether all runs are meant or only the real ones.
 */
module EarlyReuse {
  import opened Delivery
  import opened Composition
  import opened ExactlyOnce
  import opened RealRuns
  import opened SmallWorlds
  import opened RingLaps
  import MessageIds

  // ----- what makes a promise broken

  /** A real run that is careful about the parts and breaks the promise. */
  ghost predicate Breaks(v5: bool, parts: set<Part>) {
    exists s: System, due: Option<nat> :: Reached(v5, s, parts, due) && !Kept(s)
  }

  /** A message has been dropped that was never delivered. */
  lemma Lost(s: System, v5: bool, w: World, parts: set<Part>, n: nat, last: int, b: int)
    requires At(s, v5, w, parts, None, n, last) && b in w.finished && b !in w.delivered
    ensures Breaks(v5, parts)
  {
    TimesIn(s.receiver.delivered, b);
    hide Reached, Keeps;
  }

  // ----- messages

  function New(id: int, b: nat): Message {
    Message(id, 2, b, AwaitPubrec)
  }

  function Marked(id: int, b: nat): Message {
    Message(id, 2, b, AwaitPubcomp)
  }

  function HeldNew(v5: bool, id: int, b: nat): Held {
    Held(id, if v5 then None else Some(b))
  }

  function Idling(w: World, out: seq<Message>, rels: set<int>, sq: seq<Packet>, held: seq<Held>, rq: seq<Packet>): World {
    World(out, rels, sq, false, [], held, rq, false, [], w.delivered, w.finished)
  }

  lemma Beginning(v5: bool) returns (s: System, w: World)
    ensures At(s, v5, w, AllParts(), None, 0, 0)
    ensures w == World([], {}, [], false, [], [], [], false, [], [], {})
  {
    s := Init(v5);
    w := World([], {}, [], false, [], [], [], false, [], [], {});
    Start(v5, AllParts());
    hide Reached;
  }

  // ----- an answer that the receiver has put off

  /** Ids 1 and 2 are published; the answer to 1 is half written when 2 arrives. */
  lemma AnswerPutOff(v5: bool, qos: int) returns (s: System, w: World)
    requires qos == 1 || qos == 2
    ensures At(s, v5, w, AllParts(), None, 2, 2)
    ensures var m := if qos == 2 then New(2, 1) else Message(2, 1, 1, AwaitPuback);
            w.out == [New(1, 0), m] && w.rels == {} && w.sq == [] && !w.sp
            && w.held == (if qos == 2 then [HeldNew(v5, 1, 0), HeldNew(v5, 2, 1)] else [HeldNew(v5, 1, 0)])
            && w.rq == [if qos == 2 then Pubrec(2) else Puback(2)] && w.finished == {}
            && forall b :: b in w.delivered ==> b < 2
  {
    hide At, Shows, AllParts, MessageIds.Assigned;
    var all := AllParts();
    s, w := Beginning(v5);
    IdsAreFree(w, 0, 1);
    s, w := Accepts(s, v5, w, all, 0, 0, 1, 2, Complete);
    IdsAreFree(w, 1, 2);
    s, w := Accepts(s, v5, w, all, 1, 1, 2, qos, Complete);
    s, w := TakesPublish(s, v5, w, all, 2, 2, Publish(1, 2, 0, false), Interrupted);
    if qos == 2 {
      s, w := TakesPublish(s, v5, w, all, 2, 2, Publish(2, 2, 1, false), Complete);
    } else {
      s, w := TakesLevel1(s, v5, w, all, 2, 2, Publish(2, 1, 1, false), Complete);
    }
  }

  /** The next id is free if no message in flight has it. */
  lemma IdsAreFree(w: World, last: int, id: int)
    requires 0 <= last <= MAX_MSG_ID && id == MessageIds.Next(last) && id != last
    requires forall i :: 0 <= i < |w.out| ==> w.out[i].id != id
    ensures Lookup(w.out, id).None? && 1 <= id <= MAX_MSG_ID
    ensures MessageIds.Assigned(MessageIds.Used(Ids(w.out)), last, id)
  {
    LookupAbsent(w.out, id);
    assert forall y :: y in Ids(w.out) ==> exists i :: 0 <= i < |w.out| && w.out[i].id == y;
    NextIsAssigned(MessageIds.Used(Ids(w.out)), last);
    hide MessageIds.Assigned;
  }

  /** The connection ends; both messages are sent again and answered, and complete on the new connection. */
  lemma LeaveAnswerPutOff(v5: bool, qos: int) returns (s: System, w: World)
    requires qos == 1 || qos == 2
    ensures At(s, v5, w, AllParts(), None, 2, 2) && Below(w, 2)
    ensures w == Idling(w, [], {}, [], [], [if qos == 2 then Pubrec(2) else Puback(2)])
  {
    hide At, Shows, AllParts;
    s, w := SentAgain(v5, qos);
    if qos == 2 {
      s, w := TakesAgain(s, v5, w, AllParts(), 2, 2, Publish(2, 2, 1, true), 1, Complete);
      s, w := BothComplete(s, v5, w);
    } else {
      s, w := TakesLevel1(s, v5, w, AllParts(), 2, 2, Publish(2, 1, 1, true), Complete);
      s, w := LevelOneCompletes(s, v5, w);
    }
  }

  lemma SentAgain(v5: bool, qos: int) returns (s: System, w: World)
    requires qos == 1 || qos == 2
    ensures At(s, v5, w, AllParts(), None, 2, 2) && Below(w, 2)
    ensures w == World([New(1, 0), if qos == 2 then New(2, 1) else Message(2, 1, 1, AwaitPuback)], {}, [], false,
                       [Publish(2, qos, 1, true)],
                       [Held(1, Some(0))] + (if qos == 2 then [HeldNew(v5, 2, 1)] else []),
                       [if qos == 2 then Pubrec(2) else Puback(2)], false, [Pubrec(1)], w.delivered, w.finished)
  {
    hide At, Shows, AllParts, Resends, Released;
    var all := AllParts();
    var m := if qos == 2 then New(2, 1) else Message(2, 1, 1, AwaitPuback);
    s, w := AnswerPutOff(v5, qos);
    s, w := Reconnects(s, v5, w, all, 2, 2, Complete);
    ResendsTwo(New(1, 0), m);
    assert w.fwd == [Publish(1, 2, 0, true), Publish(2, qos, 1, true)] && w.rels == {};
    s, w := TakesAgain(s, v5, w, all, 2, 2, Publish(1, 2, 0, true), 0, Complete);
  }

  lemma LevelOneCompletes(s0: System, v5: bool, w0: World) returns (s: System, w: World)
    requires At(s0, v5, w0, AllParts(), None, 2, 2) && Below(w0, 2)
    requires w0 == World([New(1, 0), Message(2, 1, 1, AwaitPuback)], {}, [], false, [], [Held(1, Some(0))], w0.rq, false,
                         [Pubrec(1), Puback(2)], w0.delivered, w0.finished)
    ensures At(s, v5, w, AllParts(), None, 2, 2) && Below(w, 2)
    ensures w == Idling(w, [], {}, [], [], w0.rq)
  {
    hide At, Shows, AllParts;
    var all := AllParts();
    s, w := TakesPubrec(s0, v5, w0, all, 2, 2, 0, Complete);
    s, w := TakesEnd(s, v5, w, all, 2, 2, 1);
    s, w := TakesPubrel(s, v5, w, all, 2, 2, 1, 0, Complete);
    s, w := TakesEnd(s, v5, w, all, 2, 2, 0);
  }

  lemma BothComplete(s0: System, v5: bool, w0: World) returns (s: System, w: World)
    requires At(s0, v5, w0, AllParts(), None, 2, 2) && Below(w0, 2)
    requires w0 == World([New(1, 0), New(2, 1)], {}, [], false, [], [Held(1, Some(0)), Held(2, Some(1))], w0.rq, false,
                         [Pubrec(1), Pubrec(2)], w0.delivered, w0.finished)
    ensures At(s, v5, w, AllParts(), None, 2, 2) && Below(w, 2)
    ensures w == Idling(w, [], {}, [], [], w0.rq)
  {
    hide At, Shows, AllParts;
    var all := AllParts();
    s, w := TakesPubrec(s0, v5, w0, all, 2, 2, 0, Complete);
    s, w := TakesPubrec(s, v5, w, all, 2, 2, 1, Complete);
    s, w := BothReleased(s, v5, w);
  }

  lemma BothReleased(s0: System, v5: bool, w0: World) returns (s: System, w: World)
    requires At(s0, v5, w0, AllParts(), None, 2, 2) && Below(w0, 2)
    requires w0 == World([Marked(1, 0), Marked(2, 1)], {1, 2}, [], false, [Pubrel(1), Pubrel(2)],
                         [Held(1, Some(0)), Held(2, Some(1))], w0.rq, false, [], w0.delivered, w0.finished)
    ensures At(s, v5, w, AllParts(), None, 2, 2) && Below(w, 2)
    ensures w == Idling(w, [], {}, [], [], w0.rq)
  {
    hide At, Shows, AllParts;
    var all := AllParts();
    s, w := s0, w0;
    s, w := TakesPubrel(s, v5, w, all, 2, 2, 1, 0, Complete);
    s, w := TakesPubrel(s, v5, w, all, 2, 2, 2, 0, Complete);
    s, w := TakesEnd(s, v5, w, all, 2, 2, 0);
    s, w := TakesEnd(s, v5, w, all, 2, 2, 0);
  }

  /** The ring comes round to id 1, and the message that gets it has been received when id 2 is next. */
  lemma BeforeReuse(v5: bool, qos: int) returns (s: System, w: World, n: nat)
    requires qos == 1 || qos == 2
    ensures At(s, v5, w, AllParts(), None, n + 1, 1) && Below(w, n + 1)
    ensures w == World([Marked(1, n)], {1}, [], false, [Pubrel(1)], [HeldNew(v5, 1, n)],
                       [if qos == 2 then Pubrec(2) else Puback(2)], false, [], w.delivered, w.finished)
  {
    hide At, Shows, AllParts, MessageIds.Assigned;
    var all := AllParts();
    var last;
    s, w := LeaveAnswerPutOff(v5, qos);
    s, w, n, last := Round(s, v5, w, all, 2, 2, 2, 1);
    IdsAreFree(w, last, 1);
    s, w := Accepts(s, v5, w, all, n, last, 1, 2, Complete);
    s, w := TakesPublish(s, v5, w, all, n + 1, 1, Publish(1, 2, n, false), Complete);
    s, w := TakesPubrec(s, v5, w, all, n + 1, 1, 0, Complete);
  }

  /** The answer to its PUBREL is half written for a while, and behind it goes the one put off. */
  lemma LeaveAnswerBehind(v5: bool, qos: int) returns (s: System, w: World, n: nat)
    requires qos == 1 || qos == 2
    ensures At(s, v5, w, AllParts(), None, n, 1) && Below(w, n)
    ensures w == Idling(w, [], {}, [], [], []).(bwd := [if qos == 2 then Pubrec(2) else Puback(2)])
  {
    hide At, Shows, AllParts;
    var all := AllParts();
    s, w, n := BeforeReuse(v5, qos);
    n := n + 1;
    s, w := TakesPubrel(s, v5, w, all, n, 1, 1, 0, Interrupted);
    s, w := ReceiverIsDone(s, v5, w, all, n, 1);
    s, w := TakesEnd(s, v5, w, all, n, 1, 0);
  }

  /** A late PUBREC leads to a PUBREL that leaves its record. */
  lemma LeaveRelStored(v5: bool) returns (s: System, w: World, n: nat)
    ensures At(s, v5, w, AllParts(), None, n, 1) && Below(w, n)
    ensures w == Idling(w, [], {2}, [], [], [])
  {
    hide At, Shows, AllParts;
    var all := AllParts();
    s, w, n := LeaveAnswerBehind(v5, 2);
    s, w := TakesStray(s, v5, w, all, n, 1, 2, Complete);
    s, w := TakesLateRel(s, v5, w, all, n, 1, 2, Complete);
    s, w := TakesLateComp(s, v5, w, all, n, 1, 2);
  }

  // ----- the id is used again while something of that is left

  lemma Less(s: System, v5: bool, w: World, parts: set<Part>, due: Option<nat>, n: nat, last: int)
    requires At(s, v5, w, AllParts(), due, n, last)
    ensures At(s, v5, w, parts, due, n, last)
  {
    ReachedLess(v5, s, parts, due);
    hide Shows, Reached;
  }

  /** The new message with id 2 is taken for one that has been received, and its PUBLISH is lost with the connection. */
  lemma LostOnTheWay(s0: System, v5: bool, w0: World, parts: set<Part>, n: nat, b: nat)
    requires At(s0, v5, w0, parts, None, n, 2) && b !in w0.delivered
    requires w0.out == [Marked(2, b)] && w0.rels == {2} && w0.sq == [] && w0.held == [] && w0.rq == []
    ensures Breaks(v5, parts)
  {
    hide At, Shows, Resends, Released;
    var s, w := Reconnects(s0, v5, w0, parts, n, 2, Complete);
    ResendsOne(Marked(2, b));
    s, w := TakesLateRel(s, v5, w, parts, n, 2, 2, Complete);
    s, w := TakesEnd(s, v5, w, parts, n, 2, 0);
    Lost(s, v5, w, parts, n, 2, b);
  }

  lemma WithPubrecBehind(v5: bool, parts: set<Part>)
    requires PubrecBehind !in parts
    ensures Breaks(v5, parts)
  {
    hide At, Shows, AllParts, Breaks, MessageIds.Assigned;
    var s, w, n := LeaveAnswerBehind(v5, 2);
    Less(s, v5, w, parts, None, n, 1);
    IdsAreFree(w, 1, 2);
    s, w := Accepts(s, v5, w, parts, n, 1, 2, 2, Complete);
    s, w := TakesPubrec(s, v5, w, parts, n + 1, 2, 0, Complete);
    LostOnTheWay(s, v5, w, parts, n + 1, n);
  }

  lemma WithPubackBehind(v5: bool, parts: set<Part>)
    requires PubackBehind !in parts
    ensures Breaks(v5, parts)
  {
    hide At, Shows, AllParts, Breaks, MessageIds.Assigned;
    var s, w, n := LeaveAnswerBehind(v5, 1);
    Less(s, v5, w, parts, None, n, 1);
    IdsAreFree(w, 1, 2);
    s, w := Accepts(s, v5, w, parts, n, 1, 2, 1, Complete);
    s, w := TakesEnd(s, v5, w, parts, n + 1, 2, 0);
    s, w := Reconnects(s, v5, w, parts, n + 1, 2, Complete);
    Lost(s, v5, w, parts, n + 1, 2, n);
  }

  /** The PUBREC put off by the receiver is sent while the new PUBLISH waits to be read. */
  lemma WithPubrecPutOff(v5: bool, parts: set<Part>)
    requires PutOffByReceiver !in parts
    ensures Breaks(v5, parts)
  {
    hide At, Shows, AllParts, Breaks, MessageIds.Assigned;
    var s, w, n := BeforeReuse(v5, 2);
    n := n + 1;
    Less(s, v5, w, parts, None, n, 1);
    IdsAreFree(w, 1, 2);
    s, w := Accepts(s, v5, w, parts, n, 1, 2, 2, Complete);
    s, w := TakesPubrel(s, v5, w, parts, n + 1, 2, 1, 0, Interrupted);
    s, w := ReceiverIsDone(s, v5, w, parts, n + 1, 2);
    s, w := TakesEnd(s, v5, w, parts, n + 1, 2, 0);
    s, w := TakesPubrec(s, v5, w, parts, n + 1, 2, 0, Complete);
    LostOnTheWay(s, v5, w, parts, n + 1, n);
  }

  /** The record makes a restart take the new message for one that only waits for its PUBCOMP. */
  lemma AheadOfItself(v5: bool, parts: set<Part>) returns (s: System, w: World, n: nat)
    requires RelStored !in parts
    ensures At(s, v5, w, parts, None, n + 1, 2) && n !in w.delivered
    ensures w == Idling(w, [New(2, n)], {2}, [], [], []).(fwd := [Publish(2, 2, n, false)])
  {
    hide At, Shows, AllParts, MessageIds.Assigned;
    s, w, n := LeaveRelStored(v5);
    Less(s, v5, w, parts, None, n, 1);
    IdsAreFree(w, 1, 2);
    s, w := Accepts(s, v5, w, parts, n, 1, 2, 2, Complete);
  }

  lemma WithRelStored(v5: bool, parts: set<Part>)
    requires RelStored !in parts
    ensures Breaks(v5, parts)
  {
    hide At, Shows, Breaks;
    var s, w, n := AheadOfItself(v5, parts);
    s, w := RestartsAhead(s, v5, w, parts, n + 1, 2);
    s, w := TakesLateRel(s, v5, w, parts, n + 1, 0, 2, Complete);
    s, w := TakesEnd(s, v5, w, parts, n + 1, 0, 0);
    Lost(s, v5, w, parts, n + 1, 0, n);
  }

  // ----- a PUBREL that the sender has put off

  /** Message 1 is answered while the PUBLISH of message 2 is half written. */
  lemma PubrelPutOff(v5: bool) returns (s: System, w: World)
    ensures At(s, v5, w, AllParts(), None, 2, 2) && Below(w, 2)
    ensures w == World([Marked(1, 0), New(2, 1)], {}, [Pubrel(1)], true, [Publish(2, 2, 1, false)],
                       [HeldNew(v5, 1, 0)], [], false, [], w.delivered, w.finished)
  {
    hide At, Shows, AllParts, MessageIds.Assigned;
    var all := AllParts();
    s, w := Beginning(v5);
    IdsAreFree(w, 0, 1);
    s, w := Accepts(s, v5, w, all, 0, 0, 1, 2, Complete);
    s, w := TakesPublish(s, v5, w, all, 1, 1, Publish(1, 2, 0, false), Complete);
    IdsAreFree(w, 1, 2);
    s, w := Accepts(s, v5, w, all, 1, 1, 2, 2, Interrupted);
    s, w := TakesPubrec(s, v5, w, all, 2, 2, 0, Complete);
  }

  /** The connection ends; on the next one both messages complete, and the PUBREL stays where it was put. */
  lemma LeavePubrelPutOff(v5: bool) returns (s: System, w: World)
    ensures At(s, v5, w, AllParts(), None, 2, 2) && Below(w, 2)
    ensures w == Idling(w, [], {}, [Pubrel(1)], [], [])
  {
    hide At, Shows, AllParts, Resends, Released;
    var all := AllParts();
    s, w := PubrelPutOff(v5);
    s, w := Reconnects(s, v5, w, all, 2, 2, Complete);
    ResendsTwo(Marked(1, 0), New(2, 1));
    assert w.fwd == [Pubrel(1), Publish(2, 2, 1, true)] && w.rels == {1};
    s, w := TakesPubrel(s, v5, w, all, 2, 2, 1, 0, Complete);
    s, w := TakesPublish(s, v5, w, all, 2, 2, Publish(2, 2, 1, true), Complete);
    s, w := FirstThenSecond(s, v5, w);
  }

  lemma FirstThenSecond(s0: System, v5: bool, w0: World) returns (s: System, w: World)
    requires At(s0, v5, w0, AllParts(), None, 2, 2) && Below(w0, 2)
    requires w0 == World([Marked(1, 0), New(2, 1)], {1}, [Pubrel(1)], false, [], [HeldNew(v5, 2, 1)], [], false,
                         [Pubcomp(1), Pubrec(2)], w0.delivered, w0.finished)
    ensures At(s, v5, w, AllParts(), None, 2, 2) && Below(w, 2)
    ensures w == Idling(w, [], {}, [Pubrel(1)], [], [])
  {
    hide At, Shows, AllParts;
    var all := AllParts();
    s, w := TakesEnd(s0, v5, w0, all, 2, 2, 0);
    s, w := TakesPubrec(s, v5, w, all, 2, 2, 0, Complete);
    s, w := TakesPubrel(s, v5, w, all, 2, 2, 2, 0, Complete);
    s, w := TakesEnd(s, v5, w, all, 2, 2, 0);
  }

  /** The ring comes round to id 1; the PUBREL is sent behind the new PUBLISH and releases it too early. */
  lemma ReleasedEarly(v5: bool, parts: set<Part>) returns (s: System, w: World, n: nat, d: seq<int>)
    requires PutOffBySender !in parts
    ensures At(s, v5, w, parts, None, n + 1, 1) && Labelled2(s, n)
    ensures w == Idling(w, [New(1, n)], {1}, [], [], []).(bwd := [Pubrec(1), Pubcomp(1)]) && w.delivered == d + [n]
  {
    hide At, Shows, AllParts, MessageIds.Assigned;
    var last;
    s, w := LeavePubrelPutOff(v5);
    s, w, n, last := Round(s, v5, w, AllParts(), 2, 2, 1, 1);
    Less(s, v5, w, parts, None, n, last);
    d := w.delivered;
    IdsAreFree(w, last, 1);
    Counts(s, v5, w, parts, None, n, last);
    s, w := Accepts(s, v5, w, parts, n, last, 1, 2, Interrupted);
    s, w := SenderIsDone(s, v5, w, parts, n + 1, 1, 1);
    s, w := TakesPublish(s, v5, w, parts, n + 1, 1, Publish(1, 2, n, false), Complete);
    s, w := TakesPubrel(s, v5, w, parts, n + 1, 1, 1, 0, Complete);
  }

  /** Number n has been given to a message of QoS 2. */
  ghost predicate Labelled2(s: System, n: nat) {
    n < |s.accepted| && s.accepted[n] == 2
  }

  lemma Counts(s: System, v5: bool, w: World, parts: set<Part>, due: Option<nat>, n: nat, last: int)
    requires At(s, v5, w, parts, due, n, last)
    ensures |s.accepted| == n
  {
  }

  /** The next PUBLISH then delivers it again. */
  lemma WithPubrelPutOff(v5: bool, parts: set<Part>) returns (s: System, w: World, n: nat)
    requires PutOffBySender !in parts
    ensures At(s, v5, w, parts, None, n + 1, 1) && Labelled2(s, n) && Times(w.delivered, n) >= 2
  {
    hide At, Shows, Resends, Released;
    var d;
    s, w, n, d := ReleasedEarly(v5, parts);
    s, w := Reconnects(s, v5, w, parts, n + 1, 1, Complete);
    ResendsOne(New(1, n));
    s, w := TakesPublish(s, v5, w, parts, n + 1, 1, Publish(1, 2, n, true), Complete);
    s, w := TakesPubrec(s, v5, w, parts, n + 1, 1, 0, Complete);
    s, w := TakesPubrel(s, v5, w, parts, n + 1, 1, 1, 0, Complete);
    assert w.delivered == d + [n, n];
    TimesJoin(d, [n, n], n);
    assert [n, n][1..] == [n] && [n][1..] == [];
  }

  // ----- PUBRELs on the way to the receiver

  /** Three messages are received; the answer to the third is dropped in a flush, and the others complete. */
  lemma LeaveUnanswered(v5: bool) returns (s: System, w: World)
    ensures At(s, v5, w, AllParts(), None, 3, 3) && Below(w, 3)
    ensures w == Idling(w, [New(3, 2)], {}, [], [HeldNew(v5, 3, 2)], [])
  {
    hide At, Shows, AllParts;
    var all := AllParts();
    s, w := ThreeReceived(v5);
    s, w := ReceiverDropsOne(s, v5, w, all, 3, 3);
    s, w := ReceiverIsDone(s, v5, w, all, 3, 3);
    s, w := TakesPubrec(s, v5, w, all, 3, 3, 0, Complete);
    s, w := TakesPubrec(s, v5, w, all, 3, 3, 1, Complete);
    s, w := TwoReleased(s, v5, w);
  }

  lemma TwoReleased(s0: System, v5: bool, w0: World) returns (s: System, w: World)
    requires At(s0, v5, w0, AllParts(), None, 3, 3) && Below(w0, 3)
    requires w0 == World([Marked(1, 0), Marked(2, 1), New(3, 2)], {1, 2}, [], false, [Pubrel(1), Pubrel(2)],
                         [HeldNew(v5, 1, 0), HeldNew(v5, 2, 1), HeldNew(v5, 3, 2)], [], false, [], w0.delivered, w0.finished)
    ensures At(s, v5, w, AllParts(), None, 3, 3) && Below(w, 3)
    ensures w == Idling(w, [New(3, 2)], {}, [], [HeldNew(v5, 3, 2)], [])
  {
    hide At, Shows, AllParts;
    var all := AllParts();
    s, w := s0, w0;
    s, w := TakesPubrel(s, v5, w, all, 3, 3, 1, 0, Complete);
    s, w := TakesPubrel(s, v5, w, all, 3, 3, 2, 0, Complete);
    s, w := TakesEnd(s, v5, w, all, 3, 3, 0);
    s, w := TakesEnd(s, v5, w, all, 3, 3, 0);
  }

  lemma ThreeReceived(v5: bool) returns (s: System, w: World)
    ensures At(s, v5, w, AllParts(), None, 3, 3) && Below(w, 3)
    ensures w == World([New(1, 0), New(2, 1), New(3, 2)], {}, [], false, [],
                       [HeldNew(v5, 1, 0), HeldNew(v5, 2, 1), HeldNew(v5, 3, 2)], [Pubrec(2), Pubrec(3)], true, [Pubrec(1)],
                       w.delivered, w.finished)
  {
    hide At, Shows, AllParts, MessageIds.Assigned;
    var all := AllParts();
    s, w := Beginning(v5);
    IdsAreFree(w, 0, 1);
    s, w := Accepts(s, v5, w, all, 0, 0, 1, 2, Complete);
    IdsAreFree(w, 1, 2);
    s, w := Accepts(s, v5, w, all, 1, 1, 2, 2, Complete);
    IdsAreFree(w, 2, 3);
    s, w := Accepts(s, v5, w, all, 2, 2, 3, 2, Complete);
    s, w := TakesPublish(s, v5, w, all, 3, 3, Publish(1, 2, 0, false), Interrupted);
    s, w := TakesPublish(s, v5, w, all, 3, 3, Publish(2, 2, 1, false), Complete);
    s, w := TakesPublish(s, v5, w, all, 3, 3, Publish(3, 2, 2, false), Complete);
  }

  /** The ring comes round to id 2.  Message 3 is sent again and answered while the PUBLISH of the new message 2 is
      half written, so that its PUBREL is put off. */
  lemma OldPubrelPutOff(v5: bool) returns (s: System, w: World, n: nat)
    ensures n >= 3 && At(s, v5, w, AllParts(), None, n + 1, 2) && Below(w, n + 1)
    ensures w == World([Marked(3, 2), New(2, n)], {}, [Pubrel(3)], true, [Publish(2, 2, n, false)],
                       [Held(3, Some(2))], [], false, [], w.delivered, w.finished)
  {
    hide At, Shows, AllParts, MessageIds.Assigned, Resends, Released;
    var all := AllParts();
    var last;
    s, w := LeaveUnanswered(v5);
    s, w, n, last := Round(s, v5, w, all, 3, 3, 3, 2);
    s, w := Reconnects(s, v5, w, all, n, last, Complete);
    ResendsOne(New(3, 2));
    s, w := TakesAgain(s, v5, w, all, n, last, Publish(3, 2, 2, true), 0, Complete);
    IdsAreFree(w, last, 2);
    s, w := Accepts(s, v5, w, all, n, last, 2, 2, Interrupted);
    s, w := TakesPubrec(s, v5, w, all, n + 1, 2, 0, Complete);
  }

  /** On the next connection it is sent once for the message and once more when the pending write is done; the first
      of them ends the message. */
  lemma LeavePubrelAhead(v5: bool) returns (s: System, w: World, n: nat)
    ensures At(s, v5, w, AllParts(), None, n + 1, 2) && Below(w, n + 1)
    ensures w == Idling(w, [New(2, n)], {}, [], [], []).(fwd := [Publish(2, 2, n, true), Pubrel(3)])
  {
    hide At, Shows, AllParts, Resends, Released;
    var all := AllParts();
    s, w, n := OldPubrelPutOff(v5);
    s, w := Reconnects(s, v5, w, all, n + 1, 2, Interrupted);
    ResendsTwo(Marked(3, 2), New(2, n));
    assert w.fwd == [Pubrel(3), Publish(2, 2, n, true)] && w.rels == {3};
    s, w := SenderIsDone(s, v5, w, all, n + 1, 2, 3);
    s, w := TakesPubrel(s, v5, w, all, n + 1, 2, 3, 0, Complete);
    s, w := TakesEnd(s, v5, w, all, n + 1, 2, 0);
  }

  /** The id is used again; the answer to the old PUBREL is put off, and the connection ends. */
  lemma PubcompPutOff(v5: bool, parts: set<Part>) returns (s: System, w: World, n: nat)
    requires InForward !in parts
    ensures At(s, v5, w, parts, None, n + 2, 3) && Below(w, n + 1)
    ensures w == Idling(w, [New(2, n), New(3, n + 1)], {}, [], [HeldNew(v5, 2, n)], [Pubcomp(3)])
                 .(fwd := [Publish(2, 2, n, true), Publish(3, 2, n + 1, true)])
  {
    hide At, Shows, AllParts, MessageIds.Assigned, Resends, Released;
    s, w, n := LeavePubrelAhead(v5);
    Less(s, v5, w, parts, None, n + 1, 2);
    IdsAreFree(w, 2, 3);
    s, w := Accepts(s, v5, w, parts, n + 1, 2, 3, 2, Complete);
    s, w := TakesPublish(s, v5, w, parts, n + 2, 3, Publish(2, 2, n, true), Interrupted);
    s, w := TakesLateRel(s, v5, w, parts, n + 2, 3, 3, Complete);
    s, w := Reconnects(s, v5, w, parts, n + 2, 3, Complete);
    assert w.out == [New(2, n), New(3, n + 1)];
    ResendsTwo(New(2, n), New(3, n + 1));
  }

  /** It is sent behind the PUBREC of the new message, and ends that before it is released; the PUBREL is lost with
      the connection. */
  lemma EndedEarly(v5: bool, parts: set<Part>) returns (s: System, w: World, n: nat)
    requires InForward !in parts
    ensures At(s, v5, w, parts, None, n + 2, 3) && n + 1 in w.finished
    ensures w == Idling(w, [Marked(2, n)], {2}, [], [Held(2, Some(n)), HeldNew(v5, 3, n + 1)], []).(fwd := [Pubrel(2)])
    ensures (n + 1 in w.delivered ==> v5) && Below(w, n + 2)
  {
    hide At, Shows, Resends, Released;
    s, w, n := PubcompPutOff(v5, parts);
    s, w := TakesAgain(s, v5, w, parts, n + 2, 3, Publish(2, 2, n, true), 0, Complete);
    s, w := TakesPublish(s, v5, w, parts, n + 2, 3, Publish(3, 2, n + 1, true), Interrupted);
    s, w := ReceiverIsDone(s, v5, w, parts, n + 2, 3);
    s, w := TakesPubrec(s, v5, w, parts, n + 2, 3, 0, Complete);
    s, w := TakesPubrec(s, v5, w, parts, n + 2, 3, 1, Complete);
    s, w := TakesEnd(s, v5, w, parts, n + 2, 3, 1);
    s, w := Reconnects(s, v5, w, parts, n + 2, 3, Complete);
    assert w.out == [Marked(2, n)];
    ResendsOne(Marked(2, n));
  }

  /** The other message completes, and the ring comes round once more. */
  lemma StillHeld(v5: bool, parts: set<Part>) returns (s: System, w: World, k: nat, last: int)
    requires v5 && InForward !in parts
    ensures At(s, v5, w, parts, None, k, last) && Below(w, k) && 1 <= last <= MAX_MSG_ID && MessageIds.Next(last) == 3
    ensures w == Idling(w, [], {}, [], [Held(3, None)], [])
  {
    hide At, Shows;
    var n;
    s, w, n := EndedEarly(v5, parts);
    s, w := TakesPubrel(s, v5, w, parts, n + 2, 3, 2, 0, Complete);
    s, w := TakesEnd(s, v5, w, parts, n + 2, 3, 0);
    s, w, k, last := Round(s, v5, w, parts, n + 2, 3, 3, 3);
  }

  /** In version 5 the receiver still holds the id then, and takes the next message that uses it for a repetition. */
  lemma TakenForRepetition(v5: bool, parts: set<Part>)
    requires v5 && InForward !in parts
    ensures Breaks(v5, parts)
  {
    hide At, Shows, Breaks, MessageIds.Assigned;
    var s, w, k, last := StillHeld(v5, parts);
    IdsAreFree(w, last, 3);
    s, w := Accepts(s, v5, w, parts, k, last, 3, 2, Complete);
    s, w := TakesAgain(s, v5, w, parts, k + 1, 3, Publish(3, 2, k, false), 0, Complete);
    s, w := TakesPubrec(s, v5, w, parts, k + 1, 3, 0, Complete);
    s, w := TakesPubrel(s, v5, w, parts, k + 1, 3, 3, 0, Complete);
    s, w := TakesEnd(s, v5, w, parts, k + 1, 3, 0);
    Lost(s, v5, w, parts, k + 1, 3, k);
  }

  lemma WithPubrelAhead(v5: bool, parts: set<Part>)
    requires InForward !in parts
    ensures Breaks(v5, parts)
  {
    hide At, Shows, Breaks;
    if v5 {
      TakenForRepetition(v5, parts);
    } else {
      var s, w, n := EndedEarly(v5, parts);
      Lost(s, v5, w, parts, n + 2, 3, n + 1);
    }
  }

  // ----- exactly when the promise is kept

  lemma Doubled(s: System, v5: bool, w: World, parts: set<Part>, n: nat, last: int, b: nat)
    requires At(s, v5, w, parts, None, n, last) && Labelled2(s, b) && Times(w.delivered, b) >= 2
    ensures Breaks(v5, parts)
  {
    hide Reached, Keeps;
    assert s.receiver.delivered == w.delivered;
    assert !Kept(s);
  }

  lemma MissingPart(v5: bool, parts: set<Part>)
    requires parts != AllParts()
    ensures Breaks(v5, parts)
  {
    hide Breaks;
    EveryPart();
    assert !(AllParts() <= parts);
    var part: Part :| part !in parts;
    match part
    case InForward => WithPubrelAhead(v5, parts);
    case PutOffBySender =>
      var s, w, n := WithPubrelPutOff(v5, parts);
      Doubled(s, v5, w, parts, n + 1, 1, n);
    case PutOffByReceiver => WithPubrecPutOff(v5, parts);
    case PubrecBehind => WithPubrecBehind(v5, parts);
    case PubackBehind => WithPubackBehind(v5, parts);
    case RelStored => WithRelStored(v5, parts);
  }

  lemma BadRun(v5: bool, parts: set<Part>) returns (evs: seq<Event>)
    requires parts != AllParts()
    ensures Runs(Init(v5), evs) && CarefulRun(Init(v5), evs, parts) && Real(Init(v5), None, evs)
    ensures !Kept(After(Init(v5), evs))
  {
    MissingPart(v5, parts);
    hide Runs, CarefulRun, Real, After, Kept, Init, AllParts;
    var s: System, due: Option<nat> :| Reached(v5, s, parts, due) && !Kept(s);
    evs :| Reaches(v5, evs, parts, s, due);
  }

  /** Every run that is careful about the parts keeps the promise. */
  ghost predicate Enough(v5: bool, parts: set<Part>) {
    forall evs :: Runs(Init(v5), evs) && CarefulRun(Init(v5), evs, parts) ==> Kept(After(Init(v5), evs))
  }

  /** Every such run that the code can take. */
  ghost predicate EnoughForReal(v5: bool, parts: set<Part>) {
    forall evs :: Runs(Init(v5), evs) && CarefulRun(Init(v5), evs, parts) && Real(Init(v5), None, evs) ==>
                    Kept(After(Init(v5), evs))
  }

  /** For either variant: every run that is careful about the given parts keeps the promise if and only if they
      are all the parts, and nothing less is enough for the real runs either. */
  lemma CareIsExact(v5: bool, parts: set<Part>)
    ensures Enough(v5, parts) <==> parts == AllParts()
    ensures EnoughForReal(v5, parts) <==> parts == AllParts()
  {
    hide Runs, CarefulRun, Real, After, Kept, Init, AllParts;
    if parts == AllParts() {
      forall evs | Runs(Init(v5), evs) && CarefulRun(Init(v5), evs, parts) ensures Kept(After(Init(v5), evs)) {
        ExactlyOnceDelivery(v5, evs);
      }
    } else {
      var evs := BadRun(v5, parts);
    }
  }

  /** Without any care a real run can deliver a message of QoS 2 twice. */
  lemma DeliveredTwice(v5: bool)
    ensures exists s: System, due: Option<nat>, b: nat ::
              Reached(v5, s, {}, due) && Labelled2(s, b) && Times(s.receiver.delivered, b) >= 2
  {
    var s, w, n := WithPubrelPutOff(v5, {});
    hide Reached, Keeps;
    assert s.receiver.delivered == w.delivered;
    assert Reached(v5, s, {}, None) && Labelled2(s, n) && Times(s.receiver.delivered, n) >= 2;
  }

  /** And a message that still waits for its PUBREC can come back from the store as one that waits for its PUBCOMP. */
  lemma RestoredAhead(v5: bool)
    ensures exists s: System, due: Option<nat> :: Reached(v5, s, {}, due) && !NeverAhead(s.sender)
  {
    var s, w, n := AheadOfItself(v5, {});
    hide Reached;
    var e := s.sender;
    LookupIs(w.out, 0);
    assert Lookup(e.outbound, 2) == Some(New(2, n)) && RestoredMessage(e, 2) == Some(Marked(2, n));
    assert !NotAhead(Lookup(e.outbound, 2), RestoredMessage(e, 2));
    assert Reached(v5, s, {}, None) && !NeverAhead(s.sender);
  }
}
