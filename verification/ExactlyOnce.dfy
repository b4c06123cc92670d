/**
 What the client promises end to end, in every run in which no id is used again too early.
 */
module ExactlyOnce {
  import opened Delivery
  import opened Composition
  import opened ChannelLines
  import opened CarefulSteps
  import LevelZero

  /** Nothing is delivered that was not accepted, nothing of QoS 0 or 2 is delivered twice, and what the sender has
      dropped on PUBACK or PUBCOMP has been delivered. */
  ghost predicate Kept(s: System) {
    && (forall b | b in s.receiver.delivered :: 0 <= b < |s.accepted|)
    && (forall b :: 0 <= b < |s.accepted| && (s.accepted[b] == 0 || s.accepted[b] == 2) ==> Times(s.receiver.delivered, b) <= 1)
    && (forall b | b in s.finished :: Times(s.receiver.delivered, b) >= 1)
  }

  lemma {:induction false} TimesIn(s: seq<int>, b: int)
    ensures Times(s, b) >= 1 <==> b in s
  {
    if s != [] {
      TimesIn(s[1..], b);
      assert s == [s[0]] + s[1..];
    }
  }

  lemma {:induction false} OnceIfDistinct(s: seq<int>, b: int)
    requires forall i, j :: 0 <= i < j < |s| && s[i] == s[j] ==> s[i] != b
    ensures Times(s, b) <= 1
  {
    if s != [] {
      assert forall i :: 0 <= i < |s[1..]| ==> s[1..][i] == s[i + 1];
      OnceIfDistinct(s[1..], b);
      assert s[0] == b ==> forall j :: 0 <= j < |s[1..]| ==> s[1..][j] == s[j + 1] && s[j + 1] != b;
      TimesIn(s[1..], b);
    }
  }

  lemma InvKeeps(s: System)
    requires Inv(s)
    requires forall b | 0 <= b < |s.accepted| && s.accepted[b] == 0 :: Times(s.receiver.delivered, b) <= 1
    ensures Kept(s)
  {
    var d := s.receiver.delivered;
    hide IdOk, Stored, Wired;
    forall b | 0 <= b < |s.accepted| && s.accepted[b] == 2 ensures Times(d, b) <= 1 {
      OnceIfDistinct(d, b);
    }
    forall b | b in s.finished ensures Times(d, b) >= 1 {
      TimesIn(d, b);
    }
  }

  lemma {:induction false} RunInv(s: System, evs: seq<Event>)
    requires Inv(s) && Runs(s, evs) && CarefulRun(s, evs, AllParts())
    ensures Inv(After(s, evs))
    decreases |evs|
  {
    if evs != [] {
      StepInv(s, evs[0]);
      RunInv(Apply(s, evs[0]), evs[1..]);
    }
  }

  /** In every careful run from the start, of either protocol variant, with the connection ending and either end
      restarting from its store at any time: QoS 2 is delivered exactly once by the time the sender drops the
      message, QoS 1 at least once by then, QoS 0 at most once, and a restart of either end would not be ahead of what it replaces. */
  lemma ExactlyOnceDelivery(v5: bool, evs: seq<Event>)
    requires Runs(Init(v5), evs) && CarefulRun(Init(v5), evs, AllParts())
    ensures var s := After(Init(v5), evs); Kept(s) && NeverAhead(s.sender) && NeverAhead(s.receiver)
    ensures var s := After(Init(v5), evs);
            forall b | b in s.finished ::
              0 <= b < |s.accepted| && (s.accepted[b] == 2 ==> Times(s.receiver.delivered, b) == 1)
  {
    InitInv(v5);
    RunInv(Init(v5), evs);
    var s := After(Init(v5), evs);
    forall b | 0 <= b < |s.accepted| && s.accepted[b] == 0 ensures Times(s.receiver.delivered, b) <= 1 {
      LevelZero.DeliveredAsRead(v5, evs, b);
    }
    InvKeeps(s);
    RecoveryNeverAhead(s.sender);
    ExactCovers(s.receiver);
    RecoveryNeverAhead(s.receiver);
    FinishedAreAccepted(s);
  }

  lemma FinishedAreAccepted(s: System)
    requires Inv(s)
    ensures forall b | b in s.finished :: 0 <= b < |s.accepted|
  {
  }

  /** In every careful run both stores hold s-N exactly for outbound ids and r-N exactly for inbound ids, and
      sc-N at most for those waiting for PUBCOMP and, at the sender, for ids that no message has. */
  lemma StoresAgreeInRuns(v5: bool, evs: seq<Event>)
    requires Runs(Init(v5), evs) && CarefulRun(Init(v5), evs, AllParts())
    ensures var s := After(Init(v5), evs); StoreCovers(s.sender) && StoreAgrees(s.receiver)
  {
    InitInv(v5);
    RunInv(Init(v5), evs);
  }

  // ----- when the sender's store agrees exactly

  /** Every PUBREL that the step sends is called for by a message. */
  ghost predicate Tidy(s: System, ev: Event)
    requires Enabled(s, ev)
  {
    match ev
    case ToSender(_) => s.bwd[0].Pubrec? ==> s.sender.pending || Lookup(s.sender.outbound, s.bwd[0].id).Some?
    case SenderWritten(os) => forall i :: 0 <= i < Handed(os) ==> CalledFor(s.sender, s.sender.queue[i], true)
    case _ => true
  }

  /** A step keeps the sender's store in exact agreement if and only if it sends no PUBREL that no message calls for. */
  lemma StepStore(s: System, ev: Event)
    requires Inv(s) && StoreAgrees(s.sender) && Enabled(s, ev) && Careful(s, ev, AllParts())
    ensures StoreAgrees(Apply(s, ev).sender) <==> Tidy(s, ev)
  {
    var e := s.sender;
    match ev
    case Accept(id, qos, o) =>
      if qos == 0 {
        StoreOnly(e, Apply(s, ev).sender, true);
      } else {
        FreeId(s, id);
        ClearLanes(s, id);
        StoreAfterStart(e, id, qos, |s.accepted|, o, true);
      }
    case Retry(i, o) => StoreAfterRetry(e, i, o, true);
    case ToSender(o) => AnswerStore(s, o);
    case SenderWritten(os) => FlushStore(s, os);
    case SenderCrash(e') =>
      ExactCovers(e);
      RecoveryTidies(e, e');
    case ToReceiver(_) =>
    case ReceiverWritten(_) =>
    case Disconnect => StoreOnly(e, e.(pending := false), true);
    case ReceiverCrash(_) => StoreOnly(e, e.(pending := false), true);
  }

  lemma AnswerStore(s: System, o: Outcome)
    requires Inv(s) && StoreAgrees(s.sender) && s.bwd != []
    ensures StoreAgrees(Apply(s, ToSender(o)).sender) <==> Tidy(s, ToSender(o))
  {
    var p, e := s.bwd[0], s.sender;
    assert p in s.bwd;
    if p.Pubrec? {
      MarkAndReply(s, o);
      StoreAfterPubrec(e, p.id, false, o, true);
    } else {
      StoreAfterPubcomp(e, p.id, true);
      StoreAfterPuback(e, p.id, true);
    }
    hide Stored, Lookup;
  }

  lemma FlushStore(s: System, os: seq<Outcome>)
    requires Inv(s) && StoreAgrees(s.sender) && Enabled(s, SenderWritten(os))
    ensures StoreAgrees(Apply(s, SenderWritten(os)).sender) <==> Tidy(s, SenderWritten(os))
  {
    var e := s.sender.(pending := false);
    StoreOnly(s.sender, e, true);
    assert forall i :: 0 <= i < |e.queue| ==> e.queue[i] in e.queue;
    StoreAfterFlush(e, os, true);
    assert forall p :: CalledFor(e, p, true) <==> CalledFor(s.sender, p, true);
    hide CalledFor, Stored, Flush;
  }

  ghost predicate TidyRun(s: System, evs: seq<Event>)
    requires Runs(s, evs)
    decreases |evs|
  {
    evs == [] || (Tidy(s, evs[0]) && TidyRun(Apply(s, evs[0]), evs[1..]))
  }

  /** The sender's store agrees exactly with its list at every point of the run. */
  ghost predicate AgreesThroughout(s: System, evs: seq<Event>)
    requires Runs(s, evs)
    decreases |evs|
  {
    StoreAgrees(s.sender) && (evs == [] || AgreesThroughout(Apply(s, evs[0]), evs[1..]))
  }

  lemma {:induction false} AgreesWhileTidy(s: System, evs: seq<Event>)
    requires Inv(s) && StoreAgrees(s.sender) && Runs(s, evs) && CarefulRun(s, evs, AllParts())
    ensures AgreesThroughout(s, evs) <==> TidyRun(s, evs)
    decreases |evs|
  {
    if evs != [] {
      var s' := Apply(s, evs[0]);
      StepStore(s, evs[0]);
      StepInv(s, evs[0]);
      if StoreAgrees(s'.sender) {
        AgreesWhileTidy(s', evs[1..]);
      }
    }
  }

  /** sc-N is stored only for messages waiting for PUBCOMP throughout a careful run if and only if no PUBREL is
      sent in it for an id whose message is gone. */
  lemma ExactStoreInRuns(v5: bool, evs: seq<Event>)
    requires Runs(Init(v5), evs) && CarefulRun(Init(v5), evs, AllParts())
    ensures AgreesThroughout(Init(v5), evs) <==> TidyRun(Init(v5), evs)
  {
    InitInv(v5);
    AgreesWhileTidy(Init(v5), evs);
  }
}
