/**
 Messages that all have different ids.

 What ExactlyOnce asks of a run speaks of channels and of the peer, which a sender cannot look into.  It holds by
 itself in a run in which no id is used twice, and so for the first 65535 ids that a process issues.
 */
module FreshIds {
  import opened Delivery
  import opened Composition
  import opened ExactlyOnce
  import MessageIds

  const MAX_MSG_ID := MessageIds.MAX_MSG_ID

  // ----- all ids that there are

  ghost predicate PacketsIn(q: seq<Packet>, used: set<int>) {
    forall p | p in q :: p.id in used
  }

  /** The ids of one end; what it has received counts only as far as it has still to be answered. */
  ghost predicate EndIn(e: End, used: set<int>) {
    && (forall m | m in e.outbound :: m.id in used)
    && PacketsIn(e.queue, used)
    && (forall k | k in e.store && !k.Received? :: k.id in used)
  }

  ghost predicate AllIn(s: System, used: set<int>) {
    EndIn(s.sender, used) && EndIn(s.receiver, used) && PacketsIn(s.fwd, used) && PacketsIn(s.bwd, used)
  }

  lemma TransmitIn(e: End, p: Packet, o: Outcome, used: set<int>)
    requires EndIn(e, used) && p.id in used
    ensures EndIn(Transmit(e, p, o).end, used) && PacketsIn(Transmit(e, p, o).sent, used)
  {
  }

  lemma ReplyIn(e: End, p: Packet, o: Outcome, used: set<int>)
    requires EndIn(e, used) && p.id in used
    ensures EndIn(Reply(e, p, o).end, used) && PacketsIn(Reply(e, p, o).sent, used)
  {
    if !e.pending { TransmitIn(e, p, o, used); }
  }

  lemma {:induction false} FlushIn(e: End, os: seq<Outcome>, used: set<int>)
    requires EndIn(e, used) && |os| == |e.queue|
    ensures EndIn(Flush(e, os).end, used) && PacketsIn(Flush(e, os).sent, used)
    decreases |e.queue|
  {
    if e.queue != [] {
      var e' := e.(queue := e.queue[1..]);
      assert e.queue[0] in e.queue && EndIn(e', used);
      TransmitIn(e', e.queue[0], os[0], used);
      if os[0] == Complete {
        FlushIn(Transmit(e', e.queue[0], os[0]).end, os[1..], used);
      }
    }
  }

  lemma PublishIn(e: End, p: Packet, o: Outcome, used: set<int>)
    requires EndIn(e, used) && p.id in used && p.Publish?
    ensures EndIn(Receive(e, p, o).end, used) && PacketsIn(Receive(e, p, o).sent, used)
  {
    hide Reply, Hold;
    var known := HeldPosition(e.inbound, p.id) < |e.inbound|;
    var now := e.v5 && !known;
    var e' := e.(store := e.store[Received(e.v5, p.id) := PublishRecord(p.id, p.qos, p.body)],
                 inbound := Hold(e.inbound, Held(p.id, if now then None else Some(p.body))),
                 delivered := if now then e.delivered + [p.body] else e.delivered);
    ReplyIn(e', Pubrec(p.id), o, used);
    ReplyIn(e.(delivered := e.delivered + [p.body]), Puback(p.id), o, used);
  }

  lemma PubrelIn(e: End, p: Packet, o: Outcome, used: set<int>)
    requires EndIn(e, used) && p.id in used && p.Pubrel?
    ensures EndIn(Receive(e, p, o).end, used) && PacketsIn(Receive(e, p, o).sent, used)
  {
    hide Reply;
    var i := HeldPosition(e.inbound, p.id);
    if i < |e.inbound| {
      var b := e.inbound[i].body;
      ReplyIn(e.(delivered := if e.v5 || b.None? then e.delivered else e.delivered + [b.value],
                 store := ForgetReceived(e.store, p.id),
                 inbound := Without(e.inbound, i)), Pubcomp(p.id), o, used);
    } else {
      ReplyIn(e, Pubcomp(p.id), o, used);
    }
  }

  lemma PubrecIn(e: End, p: Packet, o: Outcome, used: set<int>)
    requires EndIn(e, used) && p.id in used && p.Pubrec?
    ensures EndIn(Answered(e, p, o).end, used) && PacketsIn(Answered(e, p, o).sent, used)
  {
    hide Reply;
    var i := Position(e.outbound, p.id);
    if i < |e.outbound| {
      ReplyIn(e.(outbound := e.outbound[i := e.outbound[i].(next := AwaitPubcomp)]), Pubrel(p.id), o, used);
    }
    ReplyIn(e, Pubrel(p.id), o, used);
  }

  lemma AnsweredIn(e: End, p: Packet, o: Outcome, used: set<int>)
    requires EndIn(e, used) && p.id in used
    ensures EndIn(Answered(e, p, o).end, used) && PacketsIn(Answered(e, p, o).sent, used)
  {
    if p.Pubrec? { PubrecIn(e, p, o, used); }
  }

  lemma ReceiveIn(e: End, p: Packet, o: Outcome, used: set<int>)
    requires EndIn(e, used) && p.id in used
    ensures EndIn(Receive(e, p, o).end, used) && PacketsIn(Receive(e, p, o).sent, used)
  {
    hide HandlePublish, HandlePubrel;
    if p.Publish? { PublishIn(e, p, o, used); }
    if p.Pubrel? { PubrelIn(e, p, o, used); }
  }

  lemma RecoveredIn(e: End, e': End, used: set<int>)
    requires EndIn(e, used) && Recovered(e, e')
    ensures EndIn(e', used)
  {
    forall i | 0 <= i < |e'.outbound| ensures e'.outbound[i].id in used {
      var id := e'.outbound[i].id;
      LookupIs(e'.outbound, i);
      assert RestoredMessage(e, id).Some?;
    }
  }

  /** No step brings up an id but that of a new message. */
  lemma StepIn(s: System, ev: Event, used: set<int>)
    requires AllIn(s, used) && Enabled(s, ev) && (ev.Accept? ==> ev.id in used)
    ensures AllIn(Apply(s, ev), used)
  {
    match ev
    case Accept(id, qos, o) =>
    case Retry(i, o) => TransmitIn(s.sender, RetryPacket(s.sender.outbound[i]), o, used);
    case ToReceiver(o) => ReceiveIn(s.receiver, s.fwd[0], o, used);
    case ToSender(o) => AnsweredIn(s.sender, s.bwd[0], o, used);
    case SenderWritten(os) => FlushIn(s.sender.(pending := false), os, used);
    case ReceiverWritten(os) => FlushIn(s.receiver.(pending := false), os, used);
    case Disconnect =>
    case SenderCrash(e) => RecoveredIn(s.sender, e, used);
    case ReceiverCrash(e) => RecoveredIn(s.receiver, e, used);
  }

  // ----- runs in which no id is used twice

  predicate TakesId(ev: Event) {
    ev.Accept? && ev.qos > 0
  }

  /** The ids of the messages accepted, in order; those of QoS 0 have none. */
  function AcceptedIds(evs: seq<Event>): seq<int> {
    if evs == [] then [] else (if TakesId(evs[0]) then [evs[0].id] else []) + AcceptedIds(evs[1..])
  }

  ghost predicate Distinct(ids: seq<int>) {
    forall i, j :: 0 <= i < j < |ids| ==> ids[i] != ids[j]
  }

  /** Nothing can be left of an id that has not come up. */
  lemma NewIsClear(s: System, ev: Event, used: set<int>)
    requires AllIn(s, used) && (TakesId(ev) ==> ev.id !in used)
    ensures Careful(s, ev, AllParts())
    ensures AllIn(s, if TakesId(ev) then used + {ev.id} else used)
  {
  }

  lemma {:induction false} FreshIsCareful(s: System, evs: seq<Event>, used: set<int>)
    requires AllIn(s, used) && Runs(s, evs) && 0 in used
    requires Distinct(AcceptedIds(evs)) && forall id | id in AcceptedIds(evs) :: id !in used
    ensures CarefulRun(s, evs, AllParts())
    decreases |evs|
  {
    hide Apply, Clear;
    if evs != [] {
      var ev, rest := evs[0], AcceptedIds(evs[1..]);
      var used' := if TakesId(ev) then used + {ev.id} else used;
      NewIsClear(s, ev, used);
      StepIn(s, ev, used');
      if TakesId(ev) {
        assert AcceptedIds(evs) == [ev.id] + rest && AcceptedIds(evs)[0] == ev.id;
        assert forall i :: 0 <= i < |rest| ==> AcceptedIds(evs)[i + 1] == rest[i];
      } else {
        assert AcceptedIds(evs) == rest;
      }
      FreshIsCareful(Apply(s, ev), evs[1..], used');
    }
  }

  /** A message that has an id has a positive one. */
  lemma {:induction false} IdsArePositive(s: System, evs: seq<Event>)
    requires Runs(s, evs)
    ensures forall id | id in AcceptedIds(evs) :: id > 0
    decreases |evs|
  {
    hide Apply;
    if evs != [] {
      IdsArePositive(Apply(s, evs[0]), evs[1..]);
    }
  }

  /** No condition on the system is left when the ids of the messages are all different. */
  lemma ExactlyOnceWithFreshIds(v5: bool, evs: seq<Event>)
    requires Runs(Init(v5), evs) && Distinct(AcceptedIds(evs))
    ensures var s := After(Init(v5), evs); Kept(s) && NeverAhead(s.sender) && NeverAhead(s.receiver)
    ensures var s := After(Init(v5), evs);
            forall b | b in s.finished ::
              0 <= b < |s.accepted| && (s.accepted[b] == 2 ==> Times(s.receiver.delivered, b) == 1)
  {
    IdsArePositive(Init(v5), evs);
    FreshIsCareful(Init(v5), evs, {0});
    ExactlyOnceDelivery(v5, evs);
  }

  // ----- the ids that one process issues

  function Before(ids: seq<int>, k: nat): int
    requires k <= |ids|
  {
    if k == 0 then 0 else ids[k - 1]
  }

  /** Each id is what the search finds after the one before, when those in use are some of those issued before. */
  ghost predicate Issued(ids: seq<int>, inUse: seq<set<int>>) {
    && |inUse| == |ids|
    && forall k :: 0 <= k < |ids| ==>
         inUse[k] <= MessageIds.Used(ids[..k]) && MessageIds.Assigned(inUse[k], Before(ids, k), ids[k])
  }

  /** The first round goes through the ids in order, whatever is in use. */
  lemma {:induction false} FirstRound(ids: seq<int>, inUse: seq<set<int>>, n: nat)
    requires Issued(ids, inUse) && n <= |ids| <= MAX_MSG_ID
    ensures forall k :: 0 <= k < n ==> ids[k] == k + 1
  {
    hide MessageIds.Assigned;
    if n > 0 {
      FirstRound(ids, inUse, n - 1);
      var last, used := n - 1, inUse[n - 1];
      forall id | id in used ensures id <= last {
        assert id in ids[..last];
      }
      NextIsIssued(used, last, ids[last]);
    }
  }

  lemma NextIsIssued(used: set<int>, last: int, r: int)
    requires 0 <= last < MAX_MSG_ID && MessageIds.Assigned(used, last, r) && forall id | id in used :: id <= last
    ensures r == last + 1
  {
    assert last + 1 !in used && last + 1 <= MAX_MSG_ID;
    assert MessageIds.Candidate(last, 0) == last && MessageIds.Candidate(last, 1) == last + 1;
    if r != 0 {
      var k: nat :| 0 < k && MessageIds.Candidate(last, k) == r && MessageIds.AllUsed(used, last, k);
    }
  }

  /** Messages that have, each its own, some of the first 65535 ids issued by a process are delivered as promised,
      in whatever order they are sent and whatever the other ids are for. */
  lemma ExactlyOnceInFirstRound(v5: bool, evs: seq<Event>, ids: seq<int>, inUse: seq<set<int>>)
    requires Runs(Init(v5), evs) && Issued(ids, inUse) && |ids| <= MAX_MSG_ID
    requires multiset(AcceptedIds(evs)) <= multiset(ids)
    ensures var s := After(Init(v5), evs); Kept(s) && NeverAhead(s.sender) && NeverAhead(s.receiver)
    ensures var s := After(Init(v5), evs);
            forall b | b in s.finished ::
              0 <= b < |s.accepted| && (s.accepted[b] == 2 ==> Times(s.receiver.delivered, b) == 1)
  {
    FirstRound(ids, inUse, |ids|);
    SomeOfDistinct(AcceptedIds(evs), ids);
    ExactlyOnceWithFreshIds(v5, evs);
  }

  lemma SomeOfDistinct(s: seq<int>, t: seq<int>)
    requires Distinct(t) && multiset(s) <= multiset(t)
    ensures Distinct(s)
  {
    forall i, j | 0 <= i < j < |s| ensures s[i] != s[j] {
      if s[i] == s[j] {
        Twice(s, i, j);
        OnceAtMost(t, s[i]);
      }
    }
  }

  lemma Twice(s: seq<int>, i: nat, j: nat)
    requires i < j < |s| && s[i] == s[j]
    ensures multiset(s)[s[i]] >= 2
  {
    assert s == s[..j] + s[j..] && s[..j][i] == s[i] && s[j..][0] == s[j];
    assert s[i] in s[..j] && s[i] in s[j..];
  }

  lemma {:induction false} OnceAtMost(t: seq<int>, x: int)
    requires Distinct(t)
    ensures multiset(t)[x] <= 1
  {
    if t != [] {
      assert t == [t[0]] + t[1..];
      OnceAtMost(t[1..], x);
      assert x == t[0] ==> x !in t[1..];
    }
  }

  // ----- runs that search as they go

  /** The sender does not restart, and every new message has the id that the search finds. */
  ghost predicate Searches(s: System, evs: seq<Event>)
    requires Runs(s, evs)
    decreases |evs|
  {
    evs == [] || (
      && !evs[0].SenderCrash?
      && (TakesId(evs[0]) ==> MessageIds.Assigned(MessageIds.Used(Ids(s.sender.outbound)), s.last, evs[0].id))
      && Searches(Apply(s, evs[0]), evs[1..]))
  }

  lemma {:induction false} SearchIsFresh(s: System, evs: seq<Event>, used: set<int>)
    requires Runs(s, evs) && Searches(s, evs) && s.last >= 0 && AllIn(s, used) && 0 in used
    requires forall id | id in used :: id <= s.last
    requires s.last + |AcceptedIds(evs)| <= MAX_MSG_ID
    ensures forall i :: 0 <= i < |AcceptedIds(evs)| ==> AcceptedIds(evs)[i] == s.last + 1 + i
    decreases |evs|
  {
    hide Apply, Clear, EndIn;
    if evs != [] {
      var ev, rest := evs[0], AcceptedIds(evs[1..]);
      var used' := if TakesId(ev) then used + {ev.id} else used;
      NewIsNext(s, ev, used);
      StepIn(s, ev, used');
      if TakesId(ev) {
        assert AcceptedIds(evs) == [ev.id] + rest && AcceptedIds(evs)[0] == ev.id;
        assert forall i :: 1 <= i < |AcceptedIds(evs)| ==> AcceptedIds(evs)[i] == rest[i - 1];
      } else {
        assert AcceptedIds(evs) == rest;
      }
      SearchIsFresh(Apply(s, ev), evs[1..], used');
    }
  }

  lemma NewIsNext(s: System, ev: Event, used: set<int>)
    requires Enabled(s, ev) && Searches(s, [ev]) && 0 <= s.last && AllIn(s, used) && forall id | id in used :: id <= s.last
    requires TakesId(ev) ==> s.last < MAX_MSG_ID
    ensures AllIn(s, if TakesId(ev) then used + {ev.id} else used)
    ensures Apply(s, ev).last == (if TakesId(ev) then s.last + 1 else s.last)
    ensures TakesId(ev) ==> ev.id == s.last + 1
  {
    if TakesId(ev) {
      assert forall i :: 0 <= i < |s.sender.outbound| ==> s.sender.outbound[i] in s.sender.outbound;
      NextIsIssued(MessageIds.Used(Ids(s.sender.outbound)), s.last, ev.id);
    }
  }

  /** So a run without a restart of the sender that accepts at most 65535 messages needs no care. */
  lemma ExactlyOnceFor65535(v5: bool, evs: seq<Event>)
    requires Runs(Init(v5), evs) && Searches(Init(v5), evs) && |AcceptedIds(evs)| <= MAX_MSG_ID
    ensures CarefulRun(Init(v5), evs, AllParts())
    ensures var s := After(Init(v5), evs); Kept(s) && NeverAhead(s.sender) && NeverAhead(s.receiver)
  {
    SearchIsFresh(Init(v5), evs, {0});
    IdsArePositive(Init(v5), evs);
    FreshIsCareful(Init(v5), evs, {0});
    ExactlyOnceWithFreshIds(v5, evs);
  }
}
