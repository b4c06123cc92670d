/**
 The ids go once round their ring, while something is left of one of them and all other messages complete.
 */
module RingLaps {
  import opened Delivery
  import opened Composition
  import opened RealRuns
  import opened SmallWorlds
  import MessageIds

  const MAX_MSG_ID := MessageIds.MAX_MSG_ID

  /** The id after the one issued last, if it is free. */
  lemma NextIsAssigned(used: set<int>, last: int)
    requires 0 <= last <= MAX_MSG_ID && MessageIds.Next(last) !in used && MessageIds.Next(last) != last
    ensures MessageIds.Assigned(used, last, MessageIds.Next(last))
  {
    var r := MessageIds.Next(last);
    assert MessageIds.Candidate(last, 0) == last && MessageIds.Candidate(last, 1) == r;
    assert MessageIds.AllUsed(used, last, 1);
  }

  /** Nothing is on the way, nobody has a pending write, and whatever there is, is about id x. */
  ghost predicate Idle(w: World, x: int) {
    && w.fwd == [] && w.bwd == [] && !w.sp && !w.rp
    && (forall i :: 0 <= i < |w.out| ==> w.out[i].id == x)
    && (forall i :: 0 <= i < |w.held| ==> w.held[i].id == x)
    && (forall i :: 0 <= i < |w.sq| ==> w.sq[i].id == x)
    && (forall i :: 0 <= i < |w.rq| ==> w.rq[i].id == x)
    && w.rels <= {x}
  }

  /** Only messages with a number below n have been delivered or finished. */
  ghost predicate Below(w: World, n: nat) {
    forall b :: b in w.delivered || b in w.finished ==> b < n
  }

  lemma IdleLets(w: World, x: int, last: int, parts: set<Part>)
    requires Idle(w, x) && 0 <= last <= MAX_MSG_ID && MessageIds.Next(last) != x
    ensures var id := MessageIds.Next(last);
            && Lookup(w.out, id).None? && 1 <= id <= MAX_MSG_ID && Spared(w, id, parts)
            && MessageIds.Assigned(MessageIds.Used(Ids(w.out)), last, id)
  {
    var id := MessageIds.Next(last);
    LookupAbsent(w.out, id);
    assert forall y :: y in Ids(w.out) ==> y == x;
    NextIsAssigned(MessageIds.Used(Ids(w.out)), last);
    hide MessageIds.Assigned;
  }

  /** One message more, from its PUBLISH to its PUBCOMP. */
  lemma Lap(s: System, v5: bool, w: World, parts: set<Part>, n: nat, last: int, x: int) returns (s': System, w': World)
    requires At(s, v5, w, parts, None, n, last) && Idle(w, x) && 0 <= last <= MAX_MSG_ID && MessageIds.Next(last) != x
    ensures s.accepted <= s'.accepted
    ensures At(s', v5, w', parts, None, n + 1, MessageIds.Next(last))
    ensures w' == w.(delivered := w.delivered + [n], finished := w.finished + {n})
  {
    hide At, Lookup, MessageIds.Assigned, Spared, Without;
    var id := MessageIds.Next(last);
    var m, h := Message(id, 2, n, AwaitPubrec), Held(id, if v5 then None else Some(n));
    IdleLets(w, x, last, parts);
    s', w' := Accepts(s, v5, w, parts, n, last, id, 2, Complete);
    s', w' := TakesPublish(s', v5, w', parts, n + 1, id, Publish(id, 2, n, false), Complete);
    s', w' := TakesPubrec(s', v5, w', parts, n + 1, id, |w.out|, Complete);
    s', w' := TakesPubrel(s', v5, w', parts, n + 1, id, id, |w.held|, Complete);
    s', w' := TakesEnd(s', v5, w', parts, n + 1, id, |w.out|);
    LastGoes(w.out, m.(next := AwaitPubcomp));
    LastGoes(w.held, h);
    assert (w.out + [m])[|w.out| := m.(next := AwaitPubcomp)] == w.out + [m.(next := AwaitPubcomp)];
    assert w.rels + {id} - {id} == w.rels;
  }

  lemma LastGoes<T>(q: seq<T>, x: T)
    ensures Without(q + [x], |q|) == q
  {
  }

  /** k messages more. */
  lemma {:induction false} Laps(s: System, v5: bool, w: World, parts: set<Part>, n: nat, last: int, x: int, k: nat)
    returns (s': System, w': World)
    requires At(s, v5, w, parts, None, n, last) && Idle(w, x) && Below(w, n) && 0 <= last <= MAX_MSG_ID
    requires forall j :: 0 < j <= k ==> MessageIds.Candidate(last, j) != x
    ensures s.accepted <= s'.accepted
    ensures At(s', v5, w', parts, None, n + k, MessageIds.Candidate(last, k)) && Below(w', n + k)
    ensures w' == w.(delivered := w'.delivered, finished := w'.finished)
    decreases k
  {
    hide At;
    if k == 0 {
      s', w' := s, w;
    } else {
      s', w' := Laps(s, v5, w, parts, n, last, x, k - 1);
      var c := MessageIds.Candidate(last, k - 1);
      if k > 1 { MessageIds.CandidateIs(last, k - 1); }
      assert MessageIds.Candidate(last, k) == MessageIds.Next(c);
      s', w' := Lap(s', v5, w', parts, n + k - 1, c, x);
    }
  }

  /** How many messages later the id y comes next; the one issued last does not come before. */
  lemma UpTo(last: int, y: int, k: nat)
    requires 1 <= last <= MAX_MSG_ID && 1 <= y <= MAX_MSG_ID
    requires k + 1 == (if y > last then y - last else y - last + MAX_MSG_ID)
    ensures forall j :: 0 < j <= k ==> MessageIds.Candidate(last, j) != y && MessageIds.Candidate(last, j) != last
    ensures MessageIds.Next(MessageIds.Candidate(last, k)) == y
    ensures 1 <= MessageIds.Candidate(last, k) <= MAX_MSG_ID
  {
    forall j | 0 < j <= k ensures MessageIds.Candidate(last, j) != y && MessageIds.Candidate(last, j) != last {
      MessageIds.CandidateIs(last, j);
      MessageIds.NotRound(last - 1, j);
    }
    MessageIds.CandidateIs(last, k + 1);
    if k > 0 { MessageIds.CandidateIs(last, k); }
    assert MessageIds.Candidate(last, k + 1) == MessageIds.Next(MessageIds.Candidate(last, k));
  }

  /** The ring has come round to just before y; the id x of what is left is y, or the one issued last. */
  lemma Round(s: System, v5: bool, w: World, parts: set<Part>, n: nat, last: int, x: int, y: int)
    returns (s': System, w': World, n': nat, last': int)
    requires At(s, v5, w, parts, None, n, last) && Idle(w, x) && Below(w, n)
    requires 1 <= last <= MAX_MSG_ID && 1 <= y <= MAX_MSG_ID && (x == y || x == last)
    ensures s.accepted <= s'.accepted
    ensures At(s', v5, w', parts, None, n', last') && Below(w', n') && n <= n'
    ensures w' == w.(delivered := w'.delivered, finished := w'.finished)
    ensures 1 <= last' <= MAX_MSG_ID && MessageIds.Next(last') == y
  {
    hide At;
    var k := if y > last then y - last - 1 else y - last + MAX_MSG_ID - 1;
    UpTo(last, y, k);
    s', w' := Laps(s, v5, w, parts, n, last, x, k);
    n', last' := n + k, MessageIds.Candidate(last, k);
  }
}
