/**
 What both channels and both queues may hold for one message id, and the invariant made of it.
 */
module ChannelLines {
  import opened Delivery
  import opened Composition

  // ----- the packets of one id

  function Only(q: seq<Packet>, id: int): (r: seq<Packet>)
    ensures forall x :: 0 <= x < |r| ==> r[x].id == id && r[x] in q
  {
    if q == [] then [] else (if q[0].id == id then [q[0]] else []) + Only(q[1..], id)
  }

  lemma {:induction false} OnlyJoin(a: seq<Packet>, b: seq<Packet>, id: int)
    ensures Only(a + b, id) == Only(a, id) + Only(b, id)
  {
    if a == [] {
      assert a + b == b;
    } else {
      OnlyJoin(a[1..], b, id);
      assert (a + b)[1..] == a[1..] + b;
      assert (a + b)[0] == a[0];
    }
  }

  lemma OnlyLast(q: seq<Packet>, p: Packet, id: int)
    ensures Only(q + [p], id) == Only(q, id) + if p.id == id then [p] else []
  {
    OnlyJoin(q, [p], id);
    assert [p][1..] == [];
  }

  lemma OnlyPrefix(a: seq<Packet>, b: seq<Packet>, id: int)
    requires a <= b
    ensures Only(a, id) <= Only(b, id)
  {
    OnlyJoin(a, b[|a|..], id);
    assert b == a + b[|a|..];
  }

  lemma {:induction false} OnlyNone(q: seq<Packet>, id: int)
    ensures NoneOf(q, id) <==> Only(q, id) == []
  {
    if q != [] {
      OnlyNone(q[1..], id);
      if NoneOf(q, id) {
        assert forall i :: 0 <= i < |q[1..]| ==> q[1..][i] == q[i + 1];
      } else if q[0].id != id {
        var i :| 0 <= i < |q| && q[i].id == id;
        assert q[1..][i - 1] == q[i];
      }
    }
  }

  // ----- how far the handshake of one id is

  /** The packets of one id: on the way forward, put off by the sender, on the way back, put off by the receiver. */
  datatype Lanes = Lanes(f: seq<Packet>, g: seq<Packet>, b: seq<Packet>, q: seq<Packet>)

  ghost predicate NoLevel2(f: seq<Packet>) {
    forall x :: 0 <= x < |f| && f[x].Publish? ==> f[x].qos != 2
  }

  ghost predicate Level1(f: seq<Packet>, body: int) {
    forall x :: 0 <= x < |f| && f[x].Publish? ==> f[x].qos == 1 && f[x].body == body
  }

  ghost predicate AllPublish(f: seq<Packet>, body: int) {
    forall x :: 0 <= x < |f| ==> f[x].Publish? && f[x].qos == 2 && f[x].body == body
  }

  ghost predicate AllPubrel(f: seq<Packet>) {
    forall x :: 0 <= x < |f| ==> f[x].Pubrel?
  }

  ghost predicate PublishesThenRels(f: seq<Packet>, body: int) {
    && (forall x :: 0 <= x < |f| ==> f[x].Pubrel? || (f[x].Publish? && f[x].qos == 2 && f[x].body == body))
    && (forall x, y :: 0 <= x < y < |f| && f[x].Pubrel? ==> f[y].Pubrel?)
  }

  ghost predicate AllPubrec(b: seq<Packet>) {
    forall x :: 0 <= x < |b| ==> b[x].Pubrec?
  }

  ghost predicate AllPubcomp(b: seq<Packet>) {
    forall x :: 0 <= x < |b| ==> b[x].Pubcomp?
  }

  ghost predicate CompsThenRecs(b: seq<Packet>) {
    && (forall x :: 0 <= x < |b| ==> b[x].Pubcomp? || b[x].Pubrec?)
    && (forall x, y :: 0 <= x < y < |b| && b[x].Pubrec? ==> b[y].Pubrec?)
  }

  /** No PUBREC, and a PUBACK only once the message has been delivered. */
  ghost predicate Acks(b: seq<Packet>, given: bool) {
    forall x :: 0 <= x < |b| ==> !b[x].Pubrec? && (b[x].Puback? ==> given)
  }

  /** m is the sender's message of the id, h what the receiver holds of it, given whether m has been delivered. */
  ghost predicate Line(v5: bool, m: Option<Message>, h: Option<Held>, l: Lanes, given: bool) {
    if m.None? then h.None? && NoLevel2(l.f)
    else if m.value.qos == 1 then
      m.value.next == AwaitPuback && h.None? && l.g == [] && Level1(l.f, m.value.body) && Acks(l.b, given) && Acks(l.q, given)
    else
      && m.value.qos == 2 && (h.Some? && !v5 ==> h.value.body == Some(m.value.body))
      && match m.value.next
         case AwaitPubrec =>
           && l.g == [] && AllPublish(l.f, m.value.body)
           && if h.None? then AllPubcomp(l.b) && l.q == [] && !given
              else CompsThenRecs(l.b) && AllPubrec(l.q) && given == v5
         case AwaitPubcomp =>
           if h.None? then AllPubrel(l.f) && given
           else PublishesThenRels(l.f, m.value.body) && AllPubrec(l.b) && AllPubrec(l.q) && given == v5
         case AwaitPuback => false
  }

  ghost function LanesOf(s: System, id: int): Lanes {
    Lanes(Only(s.fwd, id), Only(s.sender.queue, id), Only(s.bwd, id), Only(s.receiver.queue, id))
  }

  ghost predicate Given(s: System, m: Option<Message>) {
    m.Some? && m.value.body in s.receiver.delivered
  }

  ghost predicate IdOk(s: System, id: int) {
    var m, h := Lookup(s.sender.outbound, id), LookupHeld(s.receiver.inbound, id);
    && Line(s.sender.v5, m, h, LanesOf(s, id), Given(s, m))
    // a PUBREL that may have been sent has its record
    && (m.Some? && m.value.next == AwaitPubcomp && Rel(s.sender.v5, id) !in s.sender.store ==>
          h.Some? && AllPublish(Only(s.fwd, id), m.value.body))
    && (m.Some? ==> id != 0 && Labelled(s, m.value.body, m.value.qos) && m.value.body !in s.finished)
  }

  ghost predicate Labelled(s: System, body: int, qos: int) {
    0 <= body < |s.accepted| && s.accepted[body] == qos
  }

  ghost predicate OwnBodies(list: seq<Message>) {
    forall i, j :: 0 <= i < j < |list| ==> list[i].body != list[j].body
  }

  ghost predicate Requests(s: System) {
    forall p | p in s.fwd ::
      p.Pubrel? || (p.Publish? && 0 <= p.qos <= 2 && (p.qos == 0 ==> p.id == 0) && Labelled(s, p.body, p.qos))
  }

  ghost predicate Answers(q: seq<Packet>) {
    forall p | p in q :: p.Puback? || p.Pubrec? || p.Pubcomp?
  }

  ghost predicate Releases(q: seq<Packet>) {
    forall p | p in q :: p.Pubrel?
  }

  /** No message of QoS 2 is delivered again, and what is finished has been delivered. */
  ghost predicate Counted(s: System) {
    && (forall b | b in s.receiver.delivered :: 0 <= b < |s.accepted|)
    && (forall i, j :: 0 <= i < j < |s.receiver.delivered| && s.receiver.delivered[i] == s.receiver.delivered[j] ==>
          !Labelled(s, s.receiver.delivered[i], 2))
    && (forall b | b in s.finished :: b in s.receiver.delivered)
  }

  /** Each kind of packet is where it belongs. */
  ghost predicate Wired(s: System) {
    && s.sender.v5 == s.receiver.v5
    && Requests(s) && Releases(s.sender.queue) && Answers(s.bwd) && Answers(s.receiver.queue)
  }

  ghost predicate Inv(s: System) {
    && Wired(s) && StoreCovers(s.sender) && StoreAgrees(s.receiver)
    && OwnBodies(s.sender.outbound) && Counted(s)
    && forall id :: IdOk(s, id)
  }

  lemma InitInv(v5: bool)
    ensures Inv(Init(v5)) && StoreAgrees(Init(v5).sender)
  {
    var s := Init(v5);
    forall id ensures IdOk(s, id) && IdStored(s.sender, id, false) && IdStored(s.sender, id, true) {
    }
  }

  // ----- how one line moves

  /** p has gone out, or been put off, or been lost: what becomes of a channel and the queue before it. */
  ghost predicate Added(c: seq<Packet>, w: seq<Packet>, c': seq<Packet>, w': seq<Packet>, p: Packet) {
    (c' == c && w' == w) || (c' == c + [p] && w' == w) || (c' == c && w' == w + [p])
  }

  lemma Tail(p: Packet, f: seq<Packet>)
    ensures forall x :: 0 <= x < |f| ==> ([p] + f)[x + 1] == f[x]
  {
  }

  /** The receiver handles a PUBLISH of QoS 2. */
  lemma LineOnPublish(v5: bool, m: Option<Message>, h: Option<Held>, p: Packet, l: Lanes, l': Lanes, d: bool)
    requires p.Publish? && p.qos == 2 && l.f == [p] + l'.f && Line(v5, m, h, l, d)
    requires l'.g == l.g && Added(l.b, l.q, l'.b, l'.q, Pubrec(p.id))
    ensures m.Some? && m.value.qos == 2 && p.body == m.value.body
    ensures h.None? ==> !d
    ensures Line(v5, m, Some(Held(p.id, if v5 && h.None? then None else Some(p.body))), l', d || v5)
  {
    assert l.f[0] == p;
    Tail(p, l'.f);
  }

  /** The receiver handles a PUBLISH of QoS 1. */
  lemma LineOnPublish1(v5: bool, m: Option<Message>, h: Option<Held>, p: Packet, l: Lanes, l': Lanes, d: bool, d': bool)
    requires p.Publish? && p.qos == 1 && l.f == [p] + l'.f && Line(v5, m, h, l, d) && (m.Some? ==> d')
    requires l'.g == l.g && Added(l.b, l.q, l'.b, l'.q, Puback(p.id))
    ensures m.Some? ==> m.value.qos == 1 && p.body == m.value.body
    ensures Line(v5, m, h, l', d')
  {
    assert l.f[0] == p;
    Tail(p, l'.f);
  }

  lemma LineOnPubrel(v5: bool, m: Option<Message>, h: Option<Held>, p: Packet, l: Lanes, l': Lanes, d: bool)
    requires p.Pubrel? && l.f == [p] + l'.f && Line(v5, m, h, l, d)
    requires l'.g == l.g && Added(l.b, l.q, l'.b, l'.q, Pubcomp(p.id))
    ensures h.Some? ==> m.Some? && m.value.qos == 2 && (!v5 ==> h.value.body == Some(m.value.body)) && d == v5
    ensures Line(v5, m, None, l', d || h.Some?)
  {
    assert l.f[0] == p;
    Tail(p, l'.f);
  }

  lemma LineOnPubrec(v5: bool, m: Option<Message>, h: Option<Held>, p: Packet, l: Lanes, l': Lanes, d: bool)
    requires p.Pubrec? && l.b == [p] + l'.b && Line(v5, m, h, l, d)
    requires l'.q == l.q && Added(l.f, l.g, l'.f, l'.g, Pubrel(p.id))
    ensures m.Some? ==> m.value.qos == 2 && Line(v5, Some(m.value.(next := AwaitPubcomp)), h, l', d)
    ensures m.None? ==> Line(v5, m, h, l', d)
    ensures m.Some? && m.value.next == AwaitPubrec ==> h.Some? && AllPublish(l.f, m.value.body)
  {
    assert l.b[0] == p;
    Tail(p, l'.b);
  }

  lemma LineOnPubcomp(v5: bool, m: Option<Message>, h: Option<Held>, p: Packet, l: Lanes, l': Lanes, d: bool)
    requires p.Pubcomp? && l.b == [p] + l'.b && l' == l.(b := l'.b) && Line(v5, m, h, l, d)
    ensures m.Some? && m.value.next == AwaitPubcomp ==> d && Line(v5, None, h, l', false)
    ensures !(m.Some? && m.value.next == AwaitPubcomp) ==> Line(v5, m, h, l', d)
  {
    assert l.b[0] == p;
    Tail(p, l'.b);
  }

  lemma LineOnPuback(v5: bool, m: Option<Message>, h: Option<Held>, p: Packet, l: Lanes, l': Lanes, d: bool)
    requires p.Puback? && l.b == [p] + l'.b && l' == l.(b := l'.b) && Line(v5, m, h, l, d)
    ensures m.Some? && m.value.qos == 1 ==> d && Line(v5, None, h, l', false)
    ensures !(m.Some? && m.value.qos == 1) ==> Line(v5, m, h, l', d)
  {
    assert l.b[0] == p;
    Tail(p, l'.b);
  }

  lemma LineOnRetry(v5: bool, m: Message, h: Option<Held>, l: Lanes, l': Lanes, d: bool)
    requires Line(v5, Some(m), h, l, d)
    requires l' == l.(f := l'.f) && (l'.f == l.f || l'.f == l.f + [RetryPacket(m)])
    ensures Line(v5, Some(m), h, l', d)
  {
  }

  lemma LineOnAccept(v5: bool, m: Message, h: Option<Held>, l: Lanes, l': Lanes)
    requires Line(v5, None, h, l, false) && l.f == [] && l.g == [] && l.q == [] && AllPubcomp(l.b)
    requires m.next == (if m.qos == 2 then AwaitPubrec else AwaitPuback) && (m.qos == 1 || m.qos == 2)
    requires l' == l.(f := l'.f) && (l'.f == [] || l'.f == [Publish(m.id, m.qos, m.body, false)])
    ensures Line(v5, Some(m), h, l', false)
  {
  }

  lemma LineOnFlush(v5: bool, m: Option<Message>, h: Option<Held>, l: Lanes, sent: seq<Packet>, d: bool)
    requires Line(v5, m, h, l, d) && AllPubrel(l.g) && sent <= l.g
    ensures Line(v5, m, h, l.(f := l.f + sent, g := []), d)
  {
  }

  lemma LineOnFlushBack(v5: bool, m: Option<Message>, h: Option<Held>, l: Lanes, sent: seq<Packet>, d: bool)
    requires Line(v5, m, h, l, d) && sent <= l.q
    ensures Line(v5, m, h, l.(b := l.b + sent, q := []), d)
  {
  }

  /** Both channels lose what they hold, and either queue may go with its process. */
  lemma LineOnLoss(v5: bool, m: Option<Message>, h: Option<Held>, l: Lanes, l': Lanes, d: bool)
    requires Line(v5, m, h, l, d)
    requires l'.f == [] && l'.b == [] && (l'.g == l.g || l'.g == []) && (l'.q == l.q || l'.q == [])
    ensures Line(v5, m, h, l', d)
    ensures m.Some? && m.value.next == AwaitPubcomp && h.Some? && l'.g == [] ==>
              Line(v5, Some(m.value.(next := AwaitPubrec)), h, l', d)
  {
  }
}
