/**
 Messages of QoS 0, in every run: no care about ids is needed, as they have none.

 Such a message is delivered exactly as often as its PUBLISH is read, so at most once, and it is never in a list, a
 queue or a store.  As long as the connection lasts it is either on the way or delivered, if its write has not failed.
 */
module LevelZero {
  import opened Delivery
  import opened Composition

  predicate Carries(p: Packet, b: int) {
    p.Publish? && p.body == b
  }

  /** How many packets of a channel carry the body. */
  ghost function Count(q: seq<Packet>, b: int): nat {
    if q == [] then 0 else (if Carries(q[0], b) then 1 else 0) + Count(q[1..], b)
  }

  lemma {:induction false} CountJoin(p: seq<Packet>, q: seq<Packet>, b: int)
    ensures Count(p + q, b) == Count(p, b) + Count(q, b)
  {
    if p == [] {
      assert p + q == q;
    } else {
      CountJoin(p[1..], q, b);
      assert (p + q)[1..] == p[1..] + q;
    }
  }

  lemma {:induction false} CountNone(q: seq<Packet>, b: int)
    requires forall p | p in q :: !Carries(p, b)
    ensures Count(q, b) == 0
  {
    if q != [] {
      CountNone(q[1..], b);
      assert q[0] in q;
    }
  }

  // ----- where such a body is not

  predicate Records(r: Record, b: int) {
    r.PublishRecord? && r.body == b
  }

  /** The body is in no list, no queue and no store of this end. */
  ghost predicate Nowhere(e: End, b: int) {
    && (forall m | m in e.outbound :: m.body != b)
    && (forall h | h in e.inbound :: h.body != Some(b))
    && (forall p | p in e.queue :: !Carries(p, b))
    && (forall k | k in e.store :: !Records(e.store[k], b))
  }

  /** The body is at neither end, and on the way only in packets of QoS 0. */
  ghost predicate Passing(s: System, b: int) {
    && Nowhere(s.sender, b) && Nowhere(s.receiver, b)
    && (forall p | p in s.fwd && Carries(p, b) :: p.qos == 0)
  }

  // ----- what one handler does about it

  lemma TransmitNowhere(e: End, p: Packet, o: Outcome, b: int)
    requires Nowhere(e, b) && !Carries(p, b)
    ensures Nowhere(Transmit(e, p, o).end, b) && Count(Transmit(e, p, o).sent, b) == 0
    ensures forall x | x in Transmit(e, p, o).sent :: !Carries(x, b)
  {
  }

  lemma ReplyNowhere(e: End, p: Packet, o: Outcome, b: int)
    requires Nowhere(e, b) && !p.Publish?
    ensures Nowhere(Reply(e, p, o).end, b) && Count(Reply(e, p, o).sent, b) == 0
    ensures forall x | x in Reply(e, p, o).sent :: !Carries(x, b)
    ensures Reply(e, p, o).end.delivered == e.delivered
  {
    if !e.pending { TransmitNowhere(e, p, o, b); }
  }

  lemma {:induction false} FlushNowhere(e: End, os: seq<Outcome>, b: int)
    requires Nowhere(e, b) && |os| == |e.queue|
    ensures Nowhere(Flush(e, os).end, b) && Flush(e, os).end.delivered == e.delivered
    ensures forall x | x in Flush(e, os).sent :: !Carries(x, b)
    decreases |e.queue|
  {
    if e.queue != [] {
      var e' := e.(queue := e.queue[1..]);
      assert e.queue[0] in e.queue && Nowhere(e', b);
      TransmitNowhere(e', e.queue[0], os[0], b);
      if os[0] == Complete {
        FlushNowhere(Transmit(e', e.queue[0], os[0]).end, os[1..], b);
      }
    }
  }

  /** Only its own PUBLISH delivers the body. */
  lemma PublishNowhere(e: End, p: Packet, o: Outcome, b: int)
    requires Nowhere(e, b) && p.Publish? && (Carries(p, b) ==> p.qos == 0)
    ensures var t := Receive(e, p, o);
            Nowhere(t.end, b) && Times(t.end.delivered, b) == Times(e.delivered, b) + if Carries(p, b) then 1 else 0
  {
    hide Reply, Hold;
    TimesJoin(e.delivered, [p.body], b);
    if p.qos == 1 {
      ReplyNowhere(e.(delivered := e.delivered + [p.body]), Puback(p.id), o, b);
    } else if p.qos != 0 {
      var known := HeldPosition(e.inbound, p.id) < |e.inbound|;
      var now := e.v5 && !known;
      var h := Held(p.id, if now then None else Some(p.body));
      HoldNowhere(e.inbound, h, b);
      ReplyNowhere(e.(store := e.store[Received(e.v5, p.id) := PublishRecord(p.id, p.qos, p.body)],
                      inbound := Hold(e.inbound, h),
                      delivered := if now then e.delivered + [p.body] else e.delivered), Pubrec(p.id), o, b);
    }
  }

  lemma HoldNowhere(list: seq<Held>, h: Held, b: int)
    requires (forall x | x in list :: x.body != Some(b)) && h.body != Some(b)
    ensures forall x | x in Hold(list, h) :: x.body != Some(b)
  {
  }

  lemma PubrelNowhere(e: End, p: Packet, o: Outcome, b: int)
    requires Nowhere(e, b) && p.Pubrel?
    ensures var t := Receive(e, p, o); Nowhere(t.end, b) && Times(t.end.delivered, b) == Times(e.delivered, b)
  {
    hide Reply;
    var i := HeldPosition(e.inbound, p.id);
    if i < |e.inbound| {
      var x := e.inbound[i].body;
      assert e.inbound[i] in e.inbound;
      if x.Some? { TimesJoin(e.delivered, [x.value], b); }
      ReplyNowhere(e.(delivered := if e.v5 || x.None? then e.delivered else e.delivered + [x.value],
                      store := ForgetReceived(e.store, p.id), inbound := Without(e.inbound, i)), Pubcomp(p.id), o, b);
    } else {
      ReplyNowhere(e, Pubcomp(p.id), o, b);
    }
  }

  lemma AnsweredNowhere(e: End, p: Packet, o: Outcome, b: int)
    requires Nowhere(e, b)
    ensures Nowhere(Answered(e, p, o).end, b)
    ensures forall x | x in Answered(e, p, o).sent :: !Carries(x, b)
  {
    hide Reply;
    if p.Pubrec? {
      var i := Position(e.outbound, p.id);
      if i < |e.outbound| {
        assert e.outbound[i] in e.outbound;
        ReplyNowhere(e.(outbound := e.outbound[i := e.outbound[i].(next := AwaitPubcomp)]), Pubrel(p.id), o, b);
      }
      ReplyNowhere(e, Pubrel(p.id), o, b);
    }
  }

  lemma RecoveredNowhere(e: End, e': End, b: int)
    requires Nowhere(e, b) && Recovered(e, e')
    ensures Nowhere(e', b) && e'.delivered == e.delivered
  {
    forall i | 0 <= i < |e'.outbound| ensures e'.outbound[i].body != b {
      LookupIs(e'.outbound, i);
      assert RestoredMessage(e, e'.outbound[i].id).Some?;
    }
    forall i | 0 <= i < |e'.inbound| ensures e'.inbound[i].body != Some(b) {
      HeldIs(e'.inbound, i);
      assert RestoredHeld(e, e'.inbound[i].id).Some?;
    }
  }

  // ----- one step

  /** The step reads a PUBLISH with the body. */
  predicate Reads(s: System, ev: Event, b: int) {
    ev.ToReceiver? && s.fwd != [] && Carries(s.fwd[0], b)
  }

  /** The step puts a PUBLISH with the body on the way. */
  predicate Puts(s: System, ev: Event, b: int) {
    ev.Accept? && b == |s.accepted| && ev.o != Failed
  }

  predicate Loses(ev: Event) {
    ev.Disconnect? || ev.SenderCrash? || ev.ReceiverCrash?
  }

  ghost predicate OneStep(s: System, ev: Event, b: int, s': System) {
    && Passing(s', b)
    && Times(s'.receiver.delivered, b) == Times(s.receiver.delivered, b) + (if Reads(s, ev, b) then 1 else 0)
    && Count(s'.fwd, b) == (if Loses(ev) then 0
                            else Count(s.fwd, b) + (if Puts(s, ev, b) then 1 else 0) - if Reads(s, ev, b) then 1 else 0)
  }

  lemma SentOn(s: System, t: Step, b: int)
    requires Passing(s, b) && Nowhere(t.end, b) && forall p | p in t.sent :: !Carries(p, b)
    ensures var s' := s.(sender := t.end, fwd := s.fwd + t.sent);
            Passing(s', b) && Count(s'.fwd, b) == Count(s.fwd, b)
  {
    CountJoin(s.fwd, t.sent, b);
    CountNone(t.sent, b);
  }

  lemma AcceptPasses(s: System, ev: Event, b: int)
    requires Passing(s, b) && Enabled(s, ev) && ev.Accept? && (b == |s.accepted| ==> ev.qos == 0)
    ensures OneStep(s, ev, b, Apply(s, ev))
  {
    var e, p := s.sender, Publish(ev.id, ev.qos, |s.accepted|, false);
    CountJoin(s.fwd, [p], b);
    assert s.fwd + [] == s.fwd;
  }

  lemma ToReceiverPasses(s: System, o: Outcome, b: int)
    requires Passing(s, b) && s.fwd != []
    ensures OneStep(s, ToReceiver(o), b, Apply(s, ToReceiver(o)))
  {
    hide Nowhere, Receive, Times;
    var p := s.fwd[0];
    assert p in s.fwd;
    assert forall x | x in s.fwd[1..] :: x in s.fwd;
    if p.Publish? { PublishNowhere(s.receiver, p, o, b); }
    else if p.Pubrel? { PubrelNowhere(s.receiver, p, o, b); }
    else { OtherPacket(s.receiver, p, o); }
  }

  lemma OtherPacket(e: End, p: Packet, o: Outcome)
    requires !p.Publish? && !p.Pubrel?
    ensures Receive(e, p, o) == Step(e, [])
  {
  }

  lemma StepPasses(s: System, ev: Event, b: int)
    requires Passing(s, b) && Enabled(s, ev) && (ev.Accept? && b == |s.accepted| ==> ev.qos == 0)
    ensures OneStep(s, ev, b, Apply(s, ev))
  {
    hide Nowhere, Times, Recovered, Receive, Answered, Flush;
    match ev
    case Accept(_, _, _) => AcceptPasses(s, ev, b);
    case Retry(i, o) =>
      RetryNowhere(s.sender, i, o, b);
      SentOn(s, RetryOne(s.sender, i, o), b);
    case ToReceiver(o) => ToReceiverPasses(s, o, b);
    case ToSender(o) =>
      AnsweredNowhere(s.sender, s.bwd[0], o, b);
      SentOn(s, Answered(s.sender, s.bwd[0], o), b);
    case SenderWritten(os) =>
      Written(s.sender, b);
      FlushNowhere(s.sender.(pending := false), os, b);
      SentOn(s, Flush(s.sender.(pending := false), os), b);
    case ReceiverWritten(os) =>
      Written(s.receiver, b);
      FlushNowhere(s.receiver.(pending := false), os, b);
    case Disconnect => LostPasses(s, b);
    case SenderCrash(e) =>
      LostPasses(s, b);
      RecoveredNowhere(s.sender, e, b);
    case ReceiverCrash(e) =>
      LostPasses(s, b);
      RecoveredNowhere(s.receiver, e, b);
  }

  lemma RetryNowhere(e: End, i: nat, o: Outcome, b: int)
    requires Nowhere(e, b) && i < |e.outbound|
    ensures Nowhere(RetryOne(e, i, o).end, b) && forall p | p in RetryOne(e, i, o).sent :: !Carries(p, b)
  {
    assert e.outbound[i] in e.outbound;
    TransmitNowhere(e, RetryPacket(e.outbound[i]), o, b);
  }

  lemma Written(e: End, b: int)
    requires Nowhere(e, b)
    ensures Nowhere(e.(pending := false), b)
  {
  }

  lemma LostPasses(s: System, b: int)
    requires Passing(s, b)
    ensures Passing(Unplugged(s), b)
  {
  }

  // ----- whole runs

  /** How often a run reads a PUBLISH with the body. */
  ghost function TimesRead(s: System, evs: seq<Event>, b: int): nat
    requires Runs(s, evs)
    decreases |evs|
  {
    if evs == [] then 0 else (if Reads(s, evs[0], b) then 1 else 0) + TimesRead(Apply(s, evs[0]), evs[1..], b)
  }

  /** What can still become of the body: delivered already, on the way, or not yet accepted. */
  ghost function Chances(s: System, b: int): nat {
    Times(s.receiver.delivered, b) + Count(s.fwd, b) + if b < |s.accepted| then 0 else 1
  }

  lemma {:induction false} AcceptedGrows(s: System, evs: seq<Event>)
    requires Runs(s, evs)
    ensures s.accepted <= After(s, evs).accepted
    decreases |evs|
  {
    if evs != [] {
      AcceptedGrows(Apply(s, evs[0]), evs[1..]);
    }
  }

  lemma {:induction false} RunPasses(s: System, evs: seq<Event>, b: nat)
    requires Runs(s, evs) && Passing(s, b)
    requires var a := After(s, evs).accepted; b < |a| && a[b] == 0
    ensures var s' := After(s, evs);
            && Passing(s', b) && Chances(s', b) <= Chances(s, b)
            && Times(s'.receiver.delivered, b) == Times(s.receiver.delivered, b) + TimesRead(s, evs, b)
    decreases |evs|
  {
    hide Enabled, Apply, Passing, Times, Count;
    if evs != [] {
      var s1 := Apply(s, evs[0]);
      AcceptedGrows(s1, evs[1..]);
      assert After(s, evs) == After(s1, evs[1..]);
      AcceptAppends(s, evs[0]);
      StepPasses(s, evs[0], b);
      RunPasses(s1, evs[1..], b);
    }
  }

  lemma AcceptAppends(s: System, ev: Event)
    requires Enabled(s, ev)
    ensures Apply(s, ev).accepted == if ev.Accept? then s.accepted + [ev.qos] else s.accepted
  {
  }

  /** In every run a message of QoS 0 is delivered exactly as often as its PUBLISH is read, and at most once; it is
      in no list, queue or store of either end, so nothing sends it again. */
  lemma DeliveredAsRead(v5: bool, evs: seq<Event>, b: nat)
    requires Runs(Init(v5), evs)
    requires var a := After(Init(v5), evs).accepted; b < |a| && a[b] == 0
    ensures var s := After(Init(v5), evs);
            && Times(s.receiver.delivered, b) == TimesRead(Init(v5), evs, b) <= 1
            && Nowhere(s.sender, b) && Nowhere(s.receiver, b)
  {
    RunPasses(Init(v5), evs, b);
    hide Runs, After, TimesRead;
  }

  ghost predicate NoLoss(evs: seq<Event>) {
    forall i :: 0 <= i < |evs| ==> !Loses(evs[i])
  }

  lemma {:induction false} NothingIsLost(s: System, evs: seq<Event>, b: nat)
    requires Runs(s, evs) && NoLoss(evs) && Passing(s, b) && b < |s.accepted|
    ensures Chances(After(s, evs), b) == Chances(s, b)
    decreases |evs|
  {
    hide Enabled, Apply, Passing, Times, Count;
    if evs != [] {
      AcceptAppends(s, evs[0]);
      StepPasses(s, evs[0], b);
      NothingIsLost(Apply(s, evs[0]), evs[1..], b);
    }
  }

  /** While the connection lasts, an accepted message of QoS 0 is on the way or delivered, and not both; if its write
      failed it is neither. */
  lemma OnTheWayOrDelivered(v5: bool, evs: seq<Event>, o: Outcome, more: seq<Event>)
    requires Runs(Init(v5), evs) && Enabled(After(Init(v5), evs), Accept(0, 0, o))
    requires Runs(Apply(After(Init(v5), evs), Accept(0, 0, o)), more) && NoLoss(more)
    ensures var s := After(Init(v5), evs);
            var s' := After(Apply(s, Accept(0, 0, o)), more);
            Count(s'.fwd, |s.accepted|) + Times(s'.receiver.delivered, |s.accepted|) == if o == Failed then 0 else 1
  {
    var s := After(Init(v5), evs);
    var b := |s.accepted|;
    NewBody(v5, evs);
    JustAccepted(s, o);
    NothingIsLost(Apply(s, Accept(0, 0, o)), more, b);
    AcceptedGrows(Apply(s, Accept(0, 0, o)), more);
  }

  lemma JustAccepted(s: System, o: Outcome)
    requires Enabled(s, Accept(0, 0, o)) && Passing(s, |s.accepted|) && Chances(s, |s.accepted|) == 1
    ensures var s' := Apply(s, Accept(0, 0, o)); var b := |s.accepted|;
            Passing(s', b) && b < |s'.accepted| && Chances(s', b) == if o == Failed then 0 else 1
  {
    StepPasses(s, Accept(0, 0, o), |s.accepted|);
    hide Passing, Count, Times;
  }

  lemma NewBody(v5: bool, evs: seq<Event>)
    requires Runs(Init(v5), evs)
    ensures var s := After(Init(v5), evs); Passing(s, |s.accepted|) && Chances(s, |s.accepted|) == 1
  {
    var s := After(Init(v5), evs);
    assert Passing(Init(v5), |s.accepted|) && Chances(Init(v5), |s.accepted|) == 1;
    NotYet(Init(v5), evs, |s.accepted|);
  }

  /** A number that is not taken yet is nowhere. */
  lemma {:induction false} NotYet(s: System, evs: seq<Event>, b: nat)
    requires Runs(s, evs) && Passing(s, b) && Chances(s, b) == 1 && |After(s, evs).accepted| <= b
    ensures Passing(After(s, evs), b) && Chances(After(s, evs), b) == 1
    decreases |evs|
  {
    hide Enabled, Apply, Passing, Times, Count;
    if evs != [] {
      AcceptedGrows(Apply(s, evs[0]), evs[1..]);
      AcceptAppends(s, evs[0]);
      AcceptedGrows(s, evs);
      StepPasses(s, evs[0], b);
      NotYet(Apply(s, evs[0]), evs[1..], b);
    }
  }
}
