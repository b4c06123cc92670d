/**
 Runs that the code can take.

 Composition lets more happen than the code does, so that what is proved of all its runs holds whatever the
 environment does.  A run that breaks a promise says something about the code only if the code can take it; Real
 asks for more than that where it is simpler so.
 */
module RealRuns {
  import opened Delivery
  import opened Composition
  import opened SessionRestore
  import MessageIds

  /** A process restarts as RestoreSession says, from the keys of its store in some order. */
  ghost predicate RestartsAs(e: End, e': End) {
    exists keys :: Lists(keys, e.store) && Unread(e, keys) && RestoreSession(e, keys) == Some(e')
  }

  /** The packet at the head has been written whole; the last one is not while its writer has a pending write. */
  predicate Readable(chan: seq<Packet>, writer: End) {
    chan != [] && (writer.pending ==> |chan| > 1)
  }

  predicate NoneFails(os: seq<Outcome>) {
    forall i :: 0 <= i < |os| ==> os[i] != Failed
  }

  /** Every message is sent again whole, but for the last one, of which a PUBLISH may be half written. */
  predicate Resent(s: System, i: nat, o: Outcome)
    requires i < |s.sender.outbound|
  {
    o == Complete || (o == Interrupted && i == |s.sender.outbound| - 1 && RetryPacket(s.sender.outbound[i]).Publish?)
  }

  /** One step.  No write fails.  After a connection has ended, the next thing to happen is that all messages in
      flight are sent again on the new one, in the order of the list: due is the next of them, if there is one.  At no
      other time is anything sent again.  A new message has the id that the search finds.  The ids in use are those of
      the messages in flight: an application that only publishes, and waits until its queue is empty, has no queued
      command then, and no open request but those of these messages. */
  ghost predicate RealStep(s: System, due: Option<nat>, ev: Event)
    requires Enabled(s, ev)
  {
    if due.Some? then ev.Retry? && ev.i == due.value && Resent(s, ev.i, ev.o)
    else match ev
      case Accept(id, qos, o) =>
        o != Failed && (qos > 0 ==> MessageIds.Assigned(MessageIds.Used(Ids(s.sender.outbound)), s.last, id))
      case Retry(_, _) => false
      case ToReceiver(o) => o != Failed && Readable(s.fwd, s.sender)
      case ToSender(o) => o != Failed && Readable(s.bwd, s.receiver)
      case SenderWritten(os) => NoneFails(os)
      case ReceiverWritten(os) => NoneFails(os)
      case Disconnect => true
      case SenderCrash(e) => RestartsAs(s.sender, e)
      case ReceiverCrash(e) => RestartsAs(s.receiver, e)
  }

  /** What is due after a step. */
  ghost function DueAfter(s: System, ev: Event): Option<nat>
    requires Enabled(s, ev)
  {
    match ev
    case Retry(i, _) => if i + 1 < |s.sender.outbound| then Some(i + 1) else None
    case Disconnect => FirstDue(s.sender)
    case SenderCrash(e) => FirstDue(e)
    case ReceiverCrash(_) => FirstDue(s.sender)
    case _ => None
  }

  function FirstDue(sender: End): Option<nat> {
    if sender.outbound == [] then None else Some(0)
  }

  /** The run is one that the code can take, when it starts with the given message due. */
  ghost predicate Real(s: System, due: Option<nat>, evs: seq<Event>)
    requires Runs(s, evs)
    decreases |evs|
  {
    evs == [] || (RealStep(s, due, evs[0]) && Real(Apply(s, evs[0]), DueAfter(s, evs[0]), evs[1..]))
  }

  ghost function DueAtEnd(s: System, due: Option<nat>, evs: seq<Event>): Option<nat>
    requires Runs(s, evs)
    decreases |evs|
  {
    if evs == [] then due else DueAtEnd(Apply(s, evs[0]), DueAfter(s, evs[0]), evs[1..])
  }

  /** A real run from the start leads to s with `due` to be sent again next, and is careful about the given parts. */
  ghost predicate Reaches(v5: bool, evs: seq<Event>, parts: set<Part>, s: System, due: Option<nat>) {
    && Runs(Init(v5), evs) && CarefulRun(Init(v5), evs, parts) && Real(Init(v5), None, evs)
    && After(Init(v5), evs) == s && DueAtEnd(Init(v5), None, evs) == due
  }

  ghost predicate Reached(v5: bool, s: System, parts: set<Part>, due: Option<nat>) {
    exists evs :: Reaches(v5, evs, parts, s, due)
  }

  lemma {:induction false} OneMore(s: System, due: Option<nat>, evs: seq<Event>, ev: Event, parts: set<Part>)
    requires Runs(s, evs) && CarefulRun(s, evs, parts) && Real(s, due, evs)
    requires Enabled(After(s, evs), ev) && Careful(After(s, evs), ev, parts) && RealStep(After(s, evs), DueAtEnd(s, due, evs), ev)
    ensures Runs(s, evs + [ev]) && CarefulRun(s, evs + [ev], parts) && Real(s, due, evs + [ev])
    ensures After(s, evs + [ev]) == Apply(After(s, evs), ev)
    ensures DueAtEnd(s, due, evs + [ev]) == DueAfter(After(s, evs), ev)
    decreases |evs|
  {
    if evs == [] {
      assert [] + [ev] == [ev] && [ev][1..] == [];
    } else {
      assert (evs + [ev])[1..] == evs[1..] + [ev];
      OneMore(Apply(s, evs[0]), DueAfter(s, evs[0]), evs[1..], ev, parts);
    }
  }

  lemma Start(v5: bool, parts: set<Part>)
    ensures Reached(v5, Init(v5), parts, None)
  {
    assert Reaches(v5, [], parts, Init(v5), None);
  }

  lemma Go(v5: bool, s: System, ev: Event, parts: set<Part>, due: Option<nat>) returns (s': System)
    requires Reached(v5, s, parts, due) && Enabled(s, ev) && Careful(s, ev, parts) && RealStep(s, due, ev)
    ensures s' == Apply(s, ev) && Reached(v5, s', parts, DueAfter(s, ev))
  {
    var evs :| Reaches(v5, evs, parts, s, due);
    OneMore(Init(v5), None, evs, ev, parts);
    s' := Apply(s, ev);
    assert Reaches(v5, evs + [ev], parts, s', DueAfter(s, ev));
  }

  lemma EveryPart()
    ensures forall part: Part :: part in AllParts()
  {
    forall part: Part ensures part in AllParts() {
      match part
      case InForward =>
      case PutOffBySender =>
      case PutOffByReceiver =>
      case PubrecBehind =>
      case PubackBehind =>
      case RelStored =>
    }
  }

  lemma {:induction false} CarefulLess(s: System, evs: seq<Event>, parts: set<Part>)
    requires Runs(s, evs) && CarefulRun(s, evs, AllParts())
    ensures CarefulRun(s, evs, parts)
    decreases |evs|
  {
    if evs != [] {
      EveryPart();
      CarefulLess(Apply(s, evs[0]), evs[1..], parts);
    }
  }

  lemma ReachedLess(v5: bool, s: System, parts: set<Part>, due: Option<nat>)
    requires Reached(v5, s, AllParts(), due)
    ensures Reached(v5, s, parts, due)
  {
    var evs :| Reaches(v5, evs, AllParts(), s, due);
    CarefulLess(Init(v5), evs, parts);
    assert Reaches(v5, evs, parts, s, due);
  }
}
