/**
 Message ids (MQTT 3.1.1 section 2.3.1): the cyclic search for one that is not in use.
 */
module MessageIds {
  const MAX_MSG_ID := 65535

  function Next(id: int): int {
    if id == MAX_MSG_ID then 1 else id + 1
  }

  /** The k-th candidate after start. */
  function Candidate(start: int, k: nat): int {
    if k == 0 then start else Next(Candidate(start, k - 1))
  }

  lemma {:induction false} CandidateIs(start: int, k: nat)
    requires 0 <= start <= MAX_MSG_ID && k > 0
    ensures Candidate(start, k) == (start - 1 + k) % MAX_MSG_ID + 1
  {
    if k > 1 {
      CandidateIs(start, k - 1);
      var n := start - 1 + k - 1;
      assert (n + 1) % MAX_MSG_ID == if n % MAX_MSG_ID == MAX_MSG_ID - 1 then 0 else n % MAX_MSG_ID + 1;
    }
  }

  /** The search goes round all ids. */
  lemma EveryIdIsTried(start: int, id: int) returns (k: nat)
    requires 0 <= start <= MAX_MSG_ID && 1 <= id <= MAX_MSG_ID
    ensures 0 < k <= MAX_MSG_ID && Candidate(start, k) == id
    ensures id != start ==> k < MAX_MSG_ID || start == 0
  {
    k := if id > start then id - start else id - start + MAX_MSG_ID;
    CandidateIs(start, k);
  }

  predicate InRing(id: int) {
    1 <= id <= MAX_MSG_ID
  }

  /** How many steps of the search lead from one id to another; once round from an id to itself. */
  ghost function Steps(a: int, b: int): (k: nat)
    requires InRing(a) && InRing(b)
    ensures 0 < k <= MAX_MSG_ID && Candidate(a, k) == b
  {
    StepsExist(a, b);
    var k: nat :| 0 < k <= MAX_MSG_ID && Candidate(a, k) == b;
    k
  }

  lemma StepsExist(a: int, b: int)
    requires InRing(a) && InRing(b)
    ensures exists k: nat :: 0 < k <= MAX_MSG_ID && Candidate(a, k) == b
  {
    var k := EveryIdIsTried(a, b);
  }

  lemma StepsAre(a: int, b: int)
    requires InRing(a) && InRing(b)
    ensures Steps(a, b) == if b > a then b - a else b - a + MAX_MSG_ID
  {
    CandidateIs(a, Steps(a, b));
  }

  /** Nothing between start and its k-th candidate is free, and the search has not come round. */
  ghost predicate AllUsed(used: set<int>, start: int, k: nat) {
    forall j {:trigger Candidate(start, j)} :: 0 < j < k ==> Candidate(start, j) in used && Candidate(start, j) != start
  }

  /** What the search promises: the first free id after the last one issued, or 0. */
  ghost predicate Assigned(used: set<int>, start: int, r: int) {
    if r == 0 then forall id :: 1 <= id <= MAX_MSG_ID && id != start ==> id in used
    else
      && 1 <= r <= MAX_MSG_ID && r !in used && r != start
      && exists k: nat :: 0 < k && Candidate(start, k) == r && AllUsed(used, start, k)
  }

  /** When the caller can count on an answer. */
  ghost predicate Ends(used: set<int>, start: int) {
    start != 0 || exists id :: 1 <= id <= MAX_MSG_ID && id !in used
  }

  lemma NotRound(a: int, k: nat)
    requires 0 <= a < MAX_MSG_ID && 0 < k < MAX_MSG_ID
    ensures (a + k) % MAX_MSG_ID != a
  {
  }

  lemma CameRound(used: set<int>, start: int, k: nat)
    requires 0 <= start <= MAX_MSG_ID && k > 1 && AllUsed(used, start, k) && Candidate(start, k) == start
    ensures Assigned(used, start, 0)
  {
    CandidateIs(start, k);
    if k < MAX_MSG_ID { NotRound(start - 1, k); }
    forall id | 1 <= id <= MAX_MSG_ID && id != start ensures id in used {
      var j := EveryIdIsTried(start, id);
    }
  }

  /** No search goes further than once round. */
  lemma StopsInTime(used: set<int>, start: int, k: nat)
    requires 0 <= start <= MAX_MSG_ID && k > 0 && AllUsed(used, start, k) && Ends(used, start)
    ensures k <= MAX_MSG_ID
    ensures k == MAX_MSG_ID ==> Candidate(start, k) == start || Candidate(start, k) !in used
  {
    if start != 0 {
      CandidateIs(start, MAX_MSG_ID);
      assert Candidate(start, MAX_MSG_ID) == start;
    } else {
      var id :| 1 <= id <= MAX_MSG_ID && id !in used;
      var j := EveryIdIsTried(start, id);
    }
  }

  /** With no id issued yet and none free, every candidate is used and none of them stops the search. */
  lemma NeverEnds(used: set<int>, start: int, k: nat)
    requires start == 0 && !Ends(used, start) && k > 0
    ensures Candidate(start, k) in used && Candidate(start, k) != start
  {
    CandidateIs(start, k);
  }

  /** MQTTProtocol_assignMsgId: the ids in use are those of the outbound messages.  It has no caller; the search that
      is called, MQTTAsync_assignMsgId, is the same over more lists (CommandQueue). */
  method AssignMsgId(outbound: seq<int>, start: int) returns (msgid: int)
    requires 0 <= start <= MAX_MSG_ID && Ends(Used(outbound), start)
    ensures Assigned(Used(outbound), start, msgid)
  {
    ghost var k := 1;
    msgid := Next(start);
    assert Candidate(start, 0) == start;
    while msgid in outbound
      invariant k > 0 && msgid == Candidate(start, k) && AllUsed(Used(outbound), start, k)
      invariant msgid != start && 1 <= msgid <= MAX_MSG_ID
      decreases MAX_MSG_ID - k
    {
      StopsInTime(Used(outbound), start, k);
      msgid := Next(msgid);
      k := k + 1;
      if msgid == start {
        CameRound(Used(outbound), start, k);
        msgid := 0;
        break;
      }
    }
  }

  ghost function Used(ids: seq<int>): set<int> {
    set id | id in ids
  }
}
