/**
 MQTTPersistence.c: the message lists rebuilt from the store, and the order of the outbound list.

 The store hands out its keys in no particular order.  Outbound messages are put in order of their ids,
 and because ids are given out in a ring the list is then turned so that it starts behind the largest gap.
 */
module SessionRestore {
  import opened Delivery
  import opened Composition
  import MessageIds

  const MAX_MSG_ID := MessageIds.MAX_MSG_ID

  // ----- the order of the list

  ghost predicate Ascending(list: seq<Message>) {
    forall i, j :: 0 <= i < j < |list| ==> list[i].id < list[j].id
  }

  /** Where a message goes: before the first one with a larger id. */
  function Place(list: seq<Message>, id: int): (i: nat)
    ensures i <= |list|
    ensures forall j :: 0 <= j < i ==> list[j].id <= id
    ensures i < |list| ==> id < list[i].id
  {
    if list == [] || id < list[0].id then 0 else 1 + Place(list[1..], id)
  }

  function InsertInOrder(list: seq<Message>, m: Message): seq<Message> {
    list[..Place(list, m.id)] + [m] + list[Place(list, m.id)..]
  }

  lemma InsertAscends(list: seq<Message>, m: Message)
    requires Ascending(list) && Lookup(list, m.id).None?
    ensures Ascending(InsertInOrder(list, m))
  {
    var p, l := Place(list, m.id), InsertInOrder(list, m);
    LookupAbsent(list, m.id);
    forall i, j | 0 <= i < j < |l| ensures l[i].id < l[j].id {
      var x := if i < p then list[i].id else if i == p then m.id else list[i - 1].id;
      var y := if j < p then list[j].id else if j == p then m.id else list[j - 1].id;
      assert l[i].id == x && l[j].id == y;
      if j > p && i == p && j - 1 > p {
        assert list[p].id < list[j - 1].id;
      }
    }
  }

  lemma InsertKeepsOrder(list: seq<Message>, m: Message, id: int)
    requires Ascending(list) && Lookup(list, m.id).None?
    ensures Ascending(InsertInOrder(list, m))
    ensures Lookup(InsertInOrder(list, m), id) == if id == m.id then Some(m) else Lookup(list, id)
  {
    var p, l := Place(list, m.id), InsertInOrder(list, m);
    InsertAscends(list, m);
    var k := Position(list, id);
    assert l[p] == m;
    if id == m.id {
      LookupIs(l, p);
    } else if k < |list| {
      var k' := if k < p then k else k + 1;
      assert l[k'] == list[k];
      LookupIs(l, k');
    } else {
      assert forall j :: 0 <= j < |l| ==> l[j] == if j < p then list[j] else if j == p then m else list[j - 1];
    }
  }

  /** The distance in the ring of ids from the element before to element i; for the first it is the wrap. */
  function Gap(list: seq<Message>, i: nat): int
    requires i < |list|
  {
    if i == 0 then MAX_MSG_ID - list[|list| - 1].id + list[0].id else list[i].id - list[i - 1].id
  }

  /** Of the first n elements, the first one with the largest gap before it. */
  function WidestBefore(list: seq<Message>, n: nat): (w: nat)
    requires 0 < n <= |list|
    ensures w < n
    ensures forall j :: 0 <= j < n ==> Gap(list, j) <= Gap(list, w)
    ensures forall j :: 0 <= j < w ==> Gap(list, j) < Gap(list, w)
  {
    if n == 1 then 0
    else
      var w := WidestBefore(list, n - 1);
      if Gap(list, n - 1) > Gap(list, w) then n - 1 else w
  }

  function Rotated<T>(list: seq<T>, w: nat): seq<T>
    requires w <= |list|
  {
    list[w..] + list[..w]
  }

  function Wrapped(list: seq<Message>): seq<Message> {
    if list == [] then [] else Rotated(list, WidestBefore(list, |list|))
  }

  /** Two ascending runs, the second one below the first. */
  ghost predicate IssuedAs(list: seq<Message>, before: seq<Message>, after: seq<Message>) {
    && list == before + after && before != []
    && Ascending(before) && Ascending(after)
    && forall i, j :: 0 <= i < |after| && 0 <= j < |before| ==> after[i].id < before[j].id
  }

  /** The gap before element r is larger than every earlier one and no smaller than any later one. */
  ghost predicate FirstWidest(list: seq<Message>, r: nat)
    requires r < |list|
  {
    && (forall j :: 0 <= j < r ==> Gap(list, j) < Gap(list, r))
    && (forall j :: r < j < |list| ==> Gap(list, j) <= Gap(list, r))
  }

  /** The loop ends at the only such element. */
  lemma FirstWidestIs(list: seq<Message>, r: nat)
    requires r < |list|
    ensures FirstWidest(list, r) <==> WidestBefore(list, |list|) == r
  {
    var w := WidestBefore(list, |list|);
    assert Gap(list, r) <= Gap(list, w) && (r < w ==> Gap(list, r) < Gap(list, w));
  }

  /** The turn gives back the list before + after exactly if its loop stops there. */
  lemma TurnsBack(before: seq<Message>, after: seq<Message>)
    requires IssuedAs(before + after, before, after)
    ensures var sorted := after + before;
            Ascending(sorted) && (Wrapped(sorted) == before + after <==> FirstWidest(sorted, |after|))
  {
    var sorted := after + before;
    var w, r := WidestBefore(sorted, |sorted|), |after|;
    FirstWidestIs(sorted, r);
    assert Rotated(sorted, r) == before + after;
    if Rotated(sorted, w) == Rotated(sorted, r) {
      assert Rotated(sorted, w)[0] == sorted[w] && Rotated(sorted, r)[0] == sorted[r];
      assert sorted[w].id == sorted[r].id;
    }
  }

  // ----- the order of issue, in steps of the ring

  ghost predicate InRing(list: seq<Message>) {
    forall i :: 0 <= i < |list| ==> MessageIds.InRing(list[i].id)
  }

  /** Messages in the order in which their ids were issued, all in one round of the ring: from the oldest id each
      one is more steps away than the one before. */
  ghost predicate InOneRound(list: seq<Message>) {
    && InRing(list)
    && (forall i :: 0 < i < |list| ==> list[i].id != list[0].id)
    && (forall i, j :: 0 < i < j < |list| ==>
          MessageIds.Steps(list[0].id, list[i].id) < MessageIds.Steps(list[0].id, list[j].id))
  }

  /** Which is what the search issues, whatever ids it passes over, until it comes round to the oldest. */
  lemma IssuedInOneRound(list: seq<Message>, steps: seq<nat>)
    requires |list| == |steps| > 0 && MessageIds.InRing(list[0].id)
    requires steps[0] == 0 && steps[|steps| - 1] < MAX_MSG_ID && forall i, j :: 0 <= i < j < |steps| ==> steps[i] < steps[j]
    requires forall i :: 0 <= i < |list| ==> list[i].id == MessageIds.Candidate(list[0].id, steps[i])
    ensures InOneRound(list)
  {
    var a := list[0].id;
    forall i | 0 < i < |list|
      ensures MessageIds.InRing(list[i].id) && list[i].id != a && MessageIds.Steps(a, list[i].id) == steps[i] {
      assert steps[i] <= steps[|steps| - 1];
      StepsBack(a, steps[i]);
    }
  }

  lemma StepsBack(a: int, k: nat)
    requires MessageIds.InRing(a) && 0 < k < MAX_MSG_ID
    ensures var b := MessageIds.Candidate(a, k); MessageIds.InRing(b) && b != a && MessageIds.Steps(a, b) == k
  {
    MessageIds.CandidateIs(a, k);
    MessageIds.StepsAre(a, MessageIds.Candidate(a, k));
  }

  /** The number of steps from the newest id round to the oldest is not smaller than any between neighbours, and
      larger than those that lead to an id below the oldest. */
  ghost predicate WrapIsWidest(list: seq<Message>)
    requires InRing(list) && list != []
  {
    var wrap := MessageIds.Steps(list[|list| - 1].id, list[0].id);
    forall i :: 0 < i < |list| ==>
      var gap := MessageIds.Steps(list[i - 1].id, list[i].id);
      if list[i].id < list[0].id then gap < wrap else gap <= wrap
  }

  /** In one round the ids ascend up to the end of the ring, and again from its start. */
  lemma {:induction false} RoundIsTwoRuns(list: seq<Message>) returns (before: seq<Message>, after: seq<Message>)
    requires InOneRound(list) && list != []
    ensures IssuedAs(list, before, after)
    ensures forall i :: 0 <= i < |list| ==> (list[i].id < list[0].id <==> i >= |before|)
    decreases |list|
  {
    var n := |list| - 1;
    if n == 0 {
      before, after := list, [];
    } else {
      before, after := RoundIsTwoRuns(list[..n]);
      assert list == list[..n] + [list[n]];
      forall i | 0 < i < n ensures MessageIds.Steps(list[0].id, list[i].id) < MessageIds.Steps(list[0].id, list[n].id) {
      }
      forall i | 0 <= i <= n ensures MessageIds.InRing(list[i].id) {
      }
      NewestIs(list, before, after);
      if list[n].id < list[0].id {
        after := after + [list[n]];
      } else {
        before := before + [list[n]];
      }
    }
  }

  /** Where the newest id lies. */
  lemma NewestIs(list: seq<Message>, before: seq<Message>, after: seq<Message>)
    requires InOneRound(list) && |list| > 1 && IssuedAs(list[..|list| - 1], before, after)
    requires forall i :: 0 <= i < |list| - 1 ==> (list[i].id < list[0].id <==> i >= |before|)
    ensures var x := list[|list| - 1].id;
            if x < list[0].id then forall i :: 0 <= i < |after| ==> after[i].id < x
            else after == [] && forall i :: 0 <= i < |before| ==> before[i].id < x
  {
    var n := |list| - 1;
    var x := list[n].id;
    MessageIds.StepsAre(list[0].id, x);
    forall i | 0 < i < n
      ensures if x < list[0].id then i >= |before| ==> list[i].id < x
              else i < |before| && list[i].id < x {
      MessageIds.StepsAre(list[0].id, list[i].id);
      assert MessageIds.Steps(list[0].id, list[i].id) < MessageIds.Steps(list[0].id, x);
    }
    assert forall i :: 0 <= i < |before| ==> before[i] == list[i];
    assert forall i :: 0 <= i < |after| ==> after[i] == list[|before| + i];
    if after != [] {
      MessageIds.StepsAre(list[0].id, list[|before|].id);
      assert x < list[0].id;
    }
  }

  /** The gap of the loop counts steps of the ring. */
  lemma GapIsSteps(list: seq<Message>, i: nat)
    requires i < |list| && Ascending(list) && InRing(list)
    ensures Gap(list, i) == MessageIds.Steps(list[if i == 0 then |list| - 1 else i - 1].id, list[i].id)
  {
    MessageIds.StepsAre(list[if i == 0 then |list| - 1 else i - 1].id, list[i].id);
  }

  /** Where the neighbours in the order of issue are in the sorted list. */
  lemma GapOf(list: seq<Message>, before: seq<Message>, after: seq<Message>, i: nat)
    requires IssuedAs(list, before, after) && InRing(list) && Ascending(after + before) && i < |list|
    ensures var j := if i >= |before| then i - |before| else i + |after|;
            Gap(after + before, j) == MessageIds.Steps(list[if i == 0 then |list| - 1 else i - 1].id, list[i].id)
  {
    hide Gap, Ascending;
    var sorted, r, b := after + before, |after|, |before|;
    assert forall x :: 0 <= x < |sorted| ==> sorted[x] == list[if x < r then b + x else x - r];
    assert InRing(sorted);
    GapIsSteps(sorted, if i >= b then i - b else i + r);
  }

  lemma WidestInSteps(list: seq<Message>, before: seq<Message>, after: seq<Message>)
    requires IssuedAs(list, before, after) && InRing(list) && Ascending(after + before)
    requires forall i :: 0 <= i < |list| ==> (list[i].id < list[0].id <==> i >= |before|)
    ensures WrapIsWidest(list) <==> FirstWidest(after + before, |after|)
  {
    hide Ascending, Gap;
    var sorted, r, b := after + before, |after|, |before|;
    var wrap := MessageIds.Steps(list[|list| - 1].id, list[0].id);
    GapOf(list, before, after, 0);
    forall i | 0 < i < |list|
      ensures MessageIds.Steps(list[i - 1].id, list[i].id) == Gap(sorted, if i >= b then i - b else i + r) {
      GapOf(list, before, after, i);
    }
    if FirstWidest(sorted, r) {
      forall i | 0 < i < |list|
        ensures var gap := MessageIds.Steps(list[i - 1].id, list[i].id);
                if list[i].id < list[0].id then gap < wrap else gap <= wrap {
        assert Gap(sorted, if i >= b then i - b else i + r) <= Gap(sorted, r);
      }
    }
    if WrapIsWidest(list) {
      forall j | 0 <= j < |sorted| && j != r ensures if j < r then Gap(sorted, j) < wrap else Gap(sorted, j) <= wrap {
        var i := if j < r then j + b else j - r;
        assert 0 < i < |list| && j == if i >= b then i - b else i + r;
        assert Gap(sorted, j) == MessageIds.Steps(list[i - 1].id, list[i].id);
      }
    }
  }

  /** The list of one round, turned so that it ascends as after a restart, is turned back to the order of issue if
      and only if the steps from the newest id round to the oldest are the most, counted in the ring of ids. */
  lemma WrapRestoresOrder(list: seq<Message>, r: nat)
    requires InOneRound(list) && list != [] && r < |list| && Ascending(Rotated(list, r))
    ensures Wrapped(Rotated(list, r)) == list <==> WrapIsWidest(list)
  {
    var before, after := RoundIsTwoRuns(list);
    TurnsBack(before, after);
    OneAscent(list, before, after, r);
    WidestInSteps(list, before, after);
  }

  /** In particular if those steps are more than any others. */
  lemma LargestGapRestoresOrder(list: seq<Message>, r: nat)
    requires InOneRound(list) && list != [] && r < |list| && Ascending(Rotated(list, r))
    requires forall i :: 0 < i < |list| ==>
               MessageIds.Steps(list[i - 1].id, list[i].id) < MessageIds.Steps(list[|list| - 1].id, list[0].id)
    ensures Wrapped(Rotated(list, r)) == list
  {
    WrapRestoresOrder(list, r);
  }

  /** There is one way to turn it so that it ascends. */
  lemma OneAscent(list: seq<Message>, before: seq<Message>, after: seq<Message>, r: nat)
    requires IssuedAs(list, before, after) && r < |list| && Ascending(Rotated(list, r))
    ensures Rotated(list, r) == after + before
  {
    var l, b, n := Rotated(list, r), |before|, |list|;
    assert Rotated(list, b) == after + before;
    if r == 0 {
      assert l == list;
      if after != [] { TwoRunsFall(list, before, after); }
      assert after + before == list;
    } else {
      assert l[0] == list[r] && l[n - 1] == list[r - 1];
      assert list[r].id < list[r - 1].id;
      if r != b { RunsClimb(list, before, after, r); }
    }
  }

  lemma TwoRunsFall(list: seq<Message>, before: seq<Message>, after: seq<Message>)
    requires IssuedAs(list, before, after) && after != []
    ensures !Ascending(list)
  {
    assert list[0] == before[0] && list[|before|] == after[0];
  }

  lemma RunsClimb(list: seq<Message>, before: seq<Message>, after: seq<Message>, i: nat)
    requires IssuedAs(list, before, after) && 0 < i < |list| && i != |before|
    ensures list[i - 1].id < list[i].id
  {
    if i < |before| {
      assert before[i] == list[i] && before[i - 1] == list[i - 1];
    } else {
      assert after[i - |before|] == list[i] && after[i - 1 - |before|] == list[i - 1];
    }
  }

  lemma OldestToNewest(list: seq<Message>, k: nat)
    requires InOneRound(list) && list != [] && k < MAX_MSG_ID && MessageIds.Candidate(list[0].id, k) == list[|list| - 1].id
    ensures |list| > 1 ==> MessageIds.Steps(list[0].id, list[|list| - 1].id) == k
    ensures MessageIds.Steps(list[|list| - 1].id, list[0].id) == MAX_MSG_ID - k
    ensures forall i :: 0 < i < |list| ==> MessageIds.Steps(list[i - 1].id, list[i].id) <= k
  {
    var a, z := list[0].id, list[|list| - 1].id;
    if k > 0 { MessageIds.CandidateIs(a, k); }
    MessageIds.StepsAre(a, z);
    MessageIds.StepsAre(z, a);
    forall i | 0 < i < |list| ensures MessageIds.Steps(list[i - 1].id, list[i].id) <= k {
      MessageIds.StepsAre(list[i - 1].id, list[i].id);
      MessageIds.StepsAre(a, list[i].id);
      if i > 1 { MessageIds.StepsAre(a, list[i - 1].id); }
      assert i < |list| - 1 ==> MessageIds.Steps(a, list[i].id) < MessageIds.Steps(a, z);
    }
  }

  /** In particular if the newest id is no more than half a round after the oldest. */
  lemma HalfARoundIsEnough(list: seq<Message>, k: nat)
    requires InOneRound(list) && list != []
    requires k <= MAX_MSG_ID / 2 && MessageIds.Candidate(list[0].id, k) == list[|list| - 1].id
    ensures WrapIsWidest(list)
  {
    OldestToNewest(list, k);
  }

  /** Turning the list changes no lookup. */
  lemma RotationKeepsLookup(list: seq<Message>, w: nat, id: int)
    requires w <= |list| && UniqueIds(list)
    ensures UniqueIds(Rotated(list, w)) && Lookup(Rotated(list, w), id) == Lookup(list, id)
  {
    var l, n := Rotated(list, w), |list|;
    assert forall j :: 0 <= j < n ==> l[j] == list[if j < n - w then j + w else j - (n - w)];
    var k := Position(list, id);
    if k < n {
      var j := if k >= w then k - w else k + (n - w);
      assert l[j] == list[k];
      LookupIs(l, j);
    }
  }

  // ----- reading the store

  /** One key: a version 5 record stops the restore of an older client; a record that cannot be read and a
      PUBREL without its PUBLISH are removed. */
  function RestoreKey(e: End, k: Key): Option<End>
    requires k in e.store
  {
    if k.v5 && !e.v5 then None
    else match e.store[k]
      case Unreadable => Some(e.(store := e.store - {k}))
      case PublishRecord(id, qos, body) =>
        if k.Received? then Some(e.(inbound := e.inbound + [Held(id, if e.v5 then None else Some(body))]))
        else
          var next := if Rel(e.v5, id) in e.store then AwaitPubcomp else if qos == 2 then AwaitPubrec else AwaitPuback;
          Some(e.(outbound := InsertInOrder(e.outbound, Message(id, qos, body, next))))
      case PubrelRecord(id) =>
        Some(if Sent(e.v5, id) !in e.store then e.(store := e.store - {k}) else e)
  }

  /** Keys of the store that are still to be read. */
  ghost predicate Unread(e: End, keys: seq<Key>) {
    NoRepeats(keys) && forall j :: 0 <= j < |keys| ==> keys[j] in e.store
  }

  function RestoreKeys(e: End, keys: seq<Key>): Option<End>
    requires Unread(e, keys)
    decreases |keys|
  {
    if keys == [] then Some(e)
    else
      var r := RestoreKey(e, keys[0]);
      if r.None? then None
      else
        assert forall i :: 0 <= i < |keys[1..]| ==> keys[1..][i] == keys[i + 1];
        RestoreKeys(r.value, keys[1..])
  }

  predicate NoRepeats(keys: seq<Key>) {
    forall i, j :: 0 <= i < j < |keys| ==> keys[i] != keys[j]
  }

  /** The keys of a store, in some order. */
  ghost predicate Lists(keys: seq<Key>, s: Store) {
    NoRepeats(keys) && forall k :: k in keys <==> k in s
  }

  /** A session after a restart: nothing in memory. */
  function Blank(e: End): End {
    End(e.v5, [], [], [], e.store, false, e.delivered)
  }

  /** One round of the restore loop. */
  lemma RestoreUnfold(e: End, keys: seq<Key>)
    requires keys != [] && Unread(e, keys)
    ensures var r := RestoreKey(e, keys[0]);
            if r.None? then RestoreKeys(e, keys).None?
            else Unread(r.value, keys[1..]) && RestoreKeys(e, keys) == RestoreKeys(r.value, keys[1..])
  {
    assert forall i :: 0 <= i < |keys[1..]| ==> keys[1..][i] == keys[i + 1];
  }

  function RestoreSession(e: End, keys: seq<Key>): Option<End>
    requires Unread(e, keys)
  {
    var r := RestoreKeys(Blank(e), keys);
    if r.None? then None else Some(r.value.(outbound := Wrapped(r.value.outbound)))
  }

  // ----- restoring any store

  /** Nothing comes into the store, publishes stay, and so do PUBRELs whose PUBLISH is there at the end. */
  ghost predicate OnlyTidied(v5: bool, before: Store, after: Store) {
    && (forall k :: k in after ==> k in before && after[k] == before[k])
    && (forall k :: k in before && before[k].PublishRecord? ==> k in after)
    && (forall k :: k in before && before[k].PubrelRecord? && Sent(v5, before[k].id) in after ==> k in after)
  }

  lemma {:induction false} KeysTidy(e: End, keys: seq<Key>)
    requires Unread(e, keys)
    ensures var r := RestoreKeys(e, keys);
            && (r.None? <==> !e.v5 && exists k :: k in keys && k.v5)
            && (r.Some? ==> OnlyTidied(e.v5, e.store, r.value.store)
                            && forall k :: k in keys && e.store[k].Unreadable? ==> k !in r.value.store)
    decreases |keys|
  {
    if keys != [] {
      var r := RestoreKey(e, keys[0]);
      assert keys[0] in keys;
      assert forall k :: k in keys <==> k == keys[0] || k in keys[1..];
      RestoreUnfold(e, keys);
      if r.Some? {
        assert OnlyTidied(e.v5, e.store, r.value.store);
        KeysTidy(r.value, keys[1..]);
      }
    }
  }

  /** Whatever is in the store: a restore fails if and only if a client below version 5 finds a key of version 5.
      Otherwise every record that cannot be read is removed, with at most PUBRELs without a PUBLISH. */
  lemma RestoreTidies(e: End, keys: seq<Key>)
    requires Lists(keys, e.store)
    ensures Unread(e, keys)
    ensures var r := RestoreSession(e, keys);
            && (r.None? <==> !e.v5 && exists k :: k in e.store && k.v5)
            && (r.Some? ==> OnlyTidied(e.v5, e.store, r.value.store)
                            && forall k :: k in r.value.store ==> !r.value.store[k].Unreadable?)
  {
    assert forall j :: 0 <= j < |keys| ==> keys[j] in keys;
    KeysTidy(Blank(e), keys);
  }

  // ----- restoring a store that covers its lists

  /** How far the session is rebuilt when the keys of `done` have been read. */
  ghost predicate Rebuilt(e: End, r: End, done: seq<Key>) {
    && r.v5 == e.v5 && r.queue == [] && !r.pending && r.delivered == e.delivered
    && Tidied(e, r.store, done)
    && Ascending(r.outbound) && UniqueHeld(r.inbound)
    && (forall id :: Lookup(r.outbound, id) == if Sent(e.v5, id) in done then RestoredMessage(e, id) else None)
    && (forall id :: LookupHeld(r.inbound, id) == if Received(e.v5, id) in done then RestoredHeld(e, id) else None)
  }

  /** The store without the orphans among the keys read. */
  ghost predicate Tidied(e: End, store: Store, done: seq<Key>) {
    && (forall k :: k in store <==> k in e.store && !(k in done && Orphan(e, k)))
    && (forall k :: k in store ==> store[k] == e.store[k])
  }

  lemma HeldAppend(list: seq<Held>, h: Held, id: int)
    requires UniqueHeld(list) && LookupHeld(list, h.id).None?
    ensures LookupHeld(list + [h], id) == (if id == h.id then Some(h) else LookupHeld(list, id)) && UniqueHeld(list + [h])
  {
    HeldAfterHold(list, h, id);
  }

  lemma TidiedMore(e: End, store: Store, done: seq<Key>, k: Key)
    requires Tidied(e, store, done)
    ensures Tidied(e, if Orphan(e, k) then store - {k} else store, done + [k])
  {
    assert forall x: Key :: x in done + [k] <==> x in done || x == k;
    hide Orphan;
  }

  /** A key of the session is read as the record that the store has for it. */
  lemma ReadsSent(e: End, r: End, done: seq<Key>, k: Key)
    requires IdStored(e, k.id, false) && r.v5 == e.v5 && Tidied(e, r.store, done) && k in r.store
    requires k == Sent(e.v5, k.id)
    ensures var m := RestoredMessage(e, k.id);
            m.Some? && m.value.id == k.id && !Orphan(e, k)
            && RestoreKey(r, k) == Some(r.(outbound := InsertInOrder(r.outbound, m.value)))
  {
    LookupId(e.outbound, k.id);
    hide Lookup, LookupHeld, InsertInOrder;
    assert Rel(e.v5, k.id) in e.store ==> !Orphan(e, Rel(e.v5, k.id));
  }

  lemma RebuildSent(e: End, r: End, done: seq<Key>, k: Key)
    requires StoreCovers(e) && Rebuilt(e, r, done) && k in r.store && k !in done && k.Sent?
    ensures var r' := RestoreKey(r, k); r'.Some? && Rebuilt(e, r'.value, done + [k])
  {
    hide IdStored, Lookup, LookupHeld, RestoredMessage, RestoredHeld, InsertInOrder, Ascending, RestoreKey, Orphan;
    assert IdStored(e, k.id, false) && k in e.store by { hide UniqueHeld; }
    hide Stored;
    ReadsSent(e, r, done, k);
    TidiedMore(e, r.store, done, k);
    hide Tidied;
    InsertForAll(r.outbound, RestoredMessage(e, k.id).value);
    InDone(done, k);
  }

  lemma InDone(done: seq<Key>, k: Key)
    ensures forall x: Key :: x in done + [k] <==> x in done || x == k
  {
  }

  lemma InsertForAll(list: seq<Message>, m: Message)
    requires Ascending(list) && Lookup(list, m.id).None?
    ensures Ascending(InsertInOrder(list, m))
    ensures forall j :: Lookup(InsertInOrder(list, m), j) == if j == m.id then Some(m) else Lookup(list, j)
  {
    hide Lookup, InsertInOrder, Ascending;
    InsertKeepsOrder(list, m, 0);
    forall j ensures Lookup(InsertInOrder(list, m), j) == if j == m.id then Some(m) else Lookup(list, j) {
      InsertKeepsOrder(list, m, j);
    }
  }

  lemma ReadsReceived(e: End, r: End, done: seq<Key>, k: Key)
    requires IdStored(e, k.id, false) && r.v5 == e.v5 && Tidied(e, r.store, done) && k in r.store
    requires k == Received(e.v5, k.id)
    ensures var h := RestoredHeld(e, k.id);
            h.Some? && h.value.id == k.id && !Orphan(e, k)
            && RestoreKey(r, k) == Some(r.(inbound := r.inbound + [h.value]))
  {
    hide Lookup, LookupHeld;
  }

  lemma RebuildReceived(e: End, r: End, done: seq<Key>, k: Key)
    requires StoreCovers(e) && Rebuilt(e, r, done) && k in r.store && k !in done && k.Received?
    ensures var r' := RestoreKey(r, k); r'.Some? && Rebuilt(e, r'.value, done + [k])
  {
    hide IdStored, Lookup, LookupHeld, RestoredMessage, RestoredHeld, InsertInOrder, Ascending, RestoreKey, Orphan;
    assert IdStored(e, k.id, false) && k in e.store;
    ReadsReceived(e, r, done, k);
    TidiedMore(e, r.store, done, k);
    HeldForAll(r.inbound, RestoredHeld(e, k.id).value);
    InDone(done, k);
  }

  lemma HeldForAll(list: seq<Held>, h: Held)
    requires UniqueHeld(list) && LookupHeld(list, h.id).None?
    ensures UniqueHeld(list + [h])
    ensures forall j :: LookupHeld(list + [h], j) == if j == h.id then Some(h) else LookupHeld(list, j)
  {
    hide LookupHeld, UniqueHeld;
    HeldAppend(list, h, 0);
    forall j ensures LookupHeld(list + [h], j) == if j == h.id then Some(h) else LookupHeld(list, j) {
      HeldAppend(list, h, j);
    }
  }

  lemma ReadsRel(e: End, r: End, done: seq<Key>, k: Key)
    requires IdStored(e, k.id, false) && r.v5 == e.v5 && Tidied(e, r.store, done) && k in r.store && k == Rel(e.v5, k.id)
    ensures RestoreKey(r, k) == Some(r.(store := if Orphan(e, k) then r.store - {k} else r.store))
  {
    hide Lookup, LookupHeld;
    assert Sent(e.v5, k.id) in e.store ==> !Orphan(e, Sent(e.v5, k.id));
  }

  lemma RebuildRel(e: End, r: End, done: seq<Key>, k: Key)
    requires StoreCovers(e) && Rebuilt(e, r, done) && k in r.store && k !in done && k.Rel?
    ensures var r' := RestoreKey(r, k); r'.Some? && Rebuilt(e, r'.value, done + [k])
  {
    hide IdStored, Lookup, LookupHeld, RestoredMessage, RestoredHeld, InsertInOrder, Ascending, RestoreKey, Orphan;
    assert IdStored(e, k.id, false) && k in e.store;
    ReadsRel(e, r, done, k);
    TidiedMore(e, r.store, done, k);
    InDone(done, k);
  }

  lemma RebuildOne(e: End, r: End, done: seq<Key>, k: Key)
    requires StoreCovers(e) && Rebuilt(e, r, done) && k in r.store && k !in done
    ensures var r' := RestoreKey(r, k); r'.Some? && Rebuilt(e, r'.value, done + [k])
  {
    hide Rebuilt, Stored;
    match k
    case Sent(_, _) => RebuildSent(e, r, done, k);
    case Received(_, _) => RebuildReceived(e, r, done, k);
    case Rel(_, _) => RebuildRel(e, r, done, k);
  }

  lemma {:induction false} RebuildAll(e: End, r: End, done: seq<Key>, keys: seq<Key>)
    requires StoreCovers(e) && Rebuilt(e, r, done) && NoRepeats(done + keys) && Unread(r, keys)
    ensures var r' := RestoreKeys(r, keys); r'.Some? && Rebuilt(e, r'.value, done + keys)
    decreases |keys|
  {
    hide Rebuilt, Stored;
    if keys == [] {
      assert done + keys == done;
    } else {
      var k := keys[0];
      NoRepeatsCut(done, keys);
      RebuildOne(e, r, done, k);
      RestoreUnfold(r, keys);
      assert (done + [k]) + keys[1..] == done + keys;
      RebuildAll(e, RestoreKey(r, k).value, done + [k], keys[1..]);
    }
  }

  lemma NoRepeatsCut(a: seq<Key>, b: seq<Key>)
    requires NoRepeats(a + b)
    ensures NoRepeats(b) && (b != [] ==> b[0] !in a)
  {
    var s := a + b;
    assert forall i :: 0 <= i < |b| ==> s[|a| + i] == b[i];
    assert forall i :: 0 <= i < |a| ==> s[i] == a[i];
  }

  lemma RebuiltFromBlank(e: End, keys: seq<Key>)
    requires StoreCovers(e) && Lists(keys, e.store)
    ensures Unread(Blank(e), keys)
    ensures var r := RestoreKeys(Blank(e), keys); r.Some? && Rebuilt(e, r.value, keys)
  {
    assert Rebuilt(e, Blank(e), []);
    assert [] + keys == keys;
    assert forall j :: 0 <= j < |keys| ==> keys[j] in keys;
    RebuildAll(e, Blank(e), [], keys);
  }

  /** Crash recovery: whatever the order of the keys, a store that covers its lists gives the same ids back,
      without the records that belong to no message, and RecoveryNeverAhead says how the phases compare. */
  lemma RestoreRecovers(e: End, keys: seq<Key>)
    requires StoreCovers(e) && Lists(keys, e.store)
    ensures Unread(e, keys)
    ensures var r := RestoreSession(e, keys); r.Some? && Recovered(e, r.value)
  {
    RebuiltFromBlank(e, keys);
    var r := RestoreKeys(Blank(e), keys).value;
    var w := RestoreSession(e, keys).value;
    forall id ensures Lookup(w.outbound, id) == RestoredMessage(e, id) && LookupHeld(w.inbound, id) == RestoredHeld(e, id) {
      assert IdStored(e, id, false);
      WrappingKeepsLookup(r.outbound, id);
    }
    WrappingKeepsLookup(r.outbound, 0);
    assert w.store == WithoutOrphans(e);
  }

  lemma WrappingKeepsLookup(list: seq<Message>, id: int)
    requires UniqueIds(list)
    ensures UniqueIds(Wrapped(list)) && Lookup(Wrapped(list), id) == Lookup(list, id)
  {
    if list != [] {
      RotationKeepsLookup(list, WidestBefore(list, |list|), id);
    }
  }

  // ----- the order after recovery

  /** Ascending lists with the same ids list them alike. */
  lemma {:induction false} SameIds(a: seq<Message>, b: seq<Message>)
    requires Ascending(a) && Ascending(b)
    requires forall id :: Lookup(a, id).Some? <==> Lookup(b, id).Some?
    ensures Ids(a) == Ids(b)
  {
    if a == [] {
      if b != [] { LookupIs(b, 0); }
    } else {
      LookupIs(a, 0);
      assert Lookup(b, a[0].id).Some?;
      var k := Position(b, a[0].id);
      LookupIs(b, 0);
      var j := Position(a, b[0].id);
      assert a[0].id <= a[j].id && b[0].id <= b[k].id;
      assert a[0].id == b[0].id;
      forall id ensures Lookup(a[1..], id).Some? <==> Lookup(b[1..], id).Some? {
        TailLookup(a, id);
        TailLookup(b, id);
      }
      SameIds(a[1..], b[1..]);
      assert Ids(a) == [a[0].id] + Ids(a[1..]) && Ids(b) == [b[0].id] + Ids(b[1..]);
    }
  }

  lemma TailLookup(list: seq<Message>, id: int)
    requires list != [] && Ascending(list)
    ensures Ascending(list[1..])
    ensures Lookup(list[1..], id).Some? <==> Lookup(list, id).Some? && id != list[0].id
  {
    assert forall i :: 0 <= i < |list[1..]| ==> list[1..][i] == list[i + 1];
    var k := Position(list[1..], id);
    if k < |list[1..]| {
      assert list[k + 1].id == id;
    }
  }

  lemma {:induction false} GapsByIds(a: seq<Message>, b: seq<Message>, n: nat)
    requires Ids(a) == Ids(b) && 0 < n <= |a|
    ensures |a| == |b| && WidestBefore(a, n) == WidestBefore(b, n)
  {
    assert |a| == |Ids(a)| == |Ids(b)| == |b|;
    assert forall i :: 0 <= i < |a| ==> a[i].id == Ids(a)[i] == Ids(b)[i] == b[i].id;
    if n > 1 {
      GapsByIds(a, b, n - 1);
    }
  }

  /** A list issued in one round of the ring comes back from the store in the order of issue if and only if the steps
      from its newest id round to its oldest are the most. */
  lemma RecoveryOrder(e: End, keys: seq<Key>)
    requires StoreCovers(e) && Lists(keys, e.store) && InOneRound(e.outbound) && e.outbound != []
    ensures Unread(e, keys)
    ensures var r := RestoreSession(e, keys);
            r.Some? && (Ids(r.value.outbound) == Ids(e.outbound) <==> WrapIsWidest(e.outbound))
  {
    var before, after := RoundIsTwoRuns(e.outbound);
    var sorted := after + before;
    RebuiltFromBlank(e, keys);
    RestoreRecovers(e, keys);
    var l := RestoreKeys(Blank(e), keys).value.outbound;
    forall id ensures Lookup(l, id).Some? <==> Lookup(sorted, id).Some? {
      assert IdStored(e, id, false);
      JoinLookup(after, before, id);
      JoinLookup(before, after, id);
    }
    TurnsBack(before, after);
    SameIds(l, sorted);
    SameOrder(l, e.outbound, before, after);
    WidestInSteps(e.outbound, before, after);
  }

  /** A sender whose newest id is at most 32767 steps after its oldest need not worry. */
  lemma RecoveryKeepsOrder(e: End, keys: seq<Key>, k: nat)
    requires StoreCovers(e) && Lists(keys, e.store) && InOneRound(e.outbound) && e.outbound != []
    requires k <= 32767 && MessageIds.Candidate(e.outbound[0].id, k) == e.outbound[|e.outbound| - 1].id
    ensures var r := RestoreSession(e, keys); r.Some? && Ids(r.value.outbound) == Ids(e.outbound)
  {
    RecoveryOrder(e, keys);
    HalfARoundIsEnough(e.outbound, k);
  }

  /** The list that has the ids of the sorted one is turned as that one is. */
  lemma SameOrder(l: seq<Message>, list: seq<Message>, before: seq<Message>, after: seq<Message>)
    requires IssuedAs(list, before, after) && Ids(l) == Ids(after + before)
    ensures Ids(Wrapped(l)) == Ids(list) <==> FirstWidest(after + before, |after|)
  {
    var sorted := after + before;
    assert |l| == |Ids(l)| == |sorted|;
    GapsByIds(l, sorted, |sorted|);
    var w := WidestBefore(sorted, |sorted|);
    RotatedIds(l, w);
    RotatedIds(sorted, w);
    FirstWidestIs(sorted, |after|);
    assert Rotated(sorted, |after|) == list;
    if Ids(Rotated(sorted, w)) == Ids(list) {
      assert Ids(Rotated(sorted, w))[0] == sorted[w].id && Ids(list)[0] == before[0].id == sorted[|after|].id;
      TurnsBack(before, after);
    }
  }

  lemma RotatedIds(list: seq<Message>, w: nat)
    requires w <= |list|
    ensures Ids(Rotated(list, w)) == Rotated(Ids(list), w)
  {
  }

  lemma JoinLookup(a: seq<Message>, b: seq<Message>, id: int)
    ensures Lookup(a + b, id).Some? <==> Lookup(a, id).Some? || Lookup(b, id).Some?
  {
    LookupAbsent(a + b, id);
    LookupAbsent(a, id);
    LookupAbsent(b, id);
    assert forall i :: 0 <= i < |a| ==> (a + b)[i] == a[i];
    assert forall i :: 0 <= i < |b| ==> (a + b)[|a| + i] == b[i];
  }
}
