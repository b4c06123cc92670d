/**
 Writing packets to sockets that never block (Socket.c and SocketBuffer.c): a gathered write that moves only
 part of a packet is remembered, and continued from where it stopped before anything else is written.
 */
module PacketWriter {
  import opened Framing

  const MAX_IOVECS := 5

  /** A packet partly written: its buffers, how many bytes they hold and how many have gone out. */
  datatype PendingWrite = PendingWrite(iovecs: seq<seq<byte>>, total: nat, bytes: nat)

  datatype Outcome = Complete | Interrupted | SocketError

  function Concat(buffers: seq<seq<byte>>): seq<byte> {
    if buffers == [] then [] else Concat(buffers[..|buffers| - 1]) + buffers[|buffers| - 1]
  }

  lemma ConcatOne(buffers: seq<seq<byte>>, last: seq<byte>)
    ensures Concat(buffers + [last]) == Concat(buffers) + last
  {
    assert (buffers + [last])[..|buffers|] == buffers;
  }

  lemma {:induction false} ConcatTwo(a: seq<seq<byte>>, b: seq<seq<byte>>)
    ensures Concat(a + b) == Concat(a) + Concat(b)
  {
    if b == [] {
      assert a + b == a;
    } else {
      var front, last := b[..|b| - 1], b[|b| - 1];
      assert a + b == a + front + [last];
      ConcatTwo(a, front);
      ConcatOne(a + front, last);
    }
  }

  ghost function Of<T>(m: map<int, seq<T>>, s: int): seq<T> {
    if s in m then m[s] else []
  }

  /** The pending writes, all bytes accepted by writev, the packets accepted, and the sockets that failed. */
  datatype Wire = Wire(writes: map<int, PendingWrite>, sent: map<int, seq<byte>>,
                       written: map<int, seq<seq<byte>>>, failed: set<int>)

  /** Bytes on the wire: whole packets in order, then the part already written of the one pending. */
  ghost predicate InStep(pending: map<int, PendingWrite>, s: int, sent: seq<byte>, written: seq<seq<byte>>) {
    if s in pending then
      var w := pending[s];
      && |w.iovecs| <= MAX_IOVECS
      && w.bytes < w.total == |Concat(w.iovecs)|
      && written != [] && written[|written| - 1] == Concat(w.iovecs)
      && sent == Concat(written[..|written| - 1]) + Concat(w.iovecs)[..w.bytes]
    else
      sent == Concat(written)
  }

  /** After a failed continuation: whole packets in order, then part of one more. */
  ghost predicate CutOff(sent: seq<byte>, written: seq<seq<byte>>) {
    && written != []
    && Concat(written[..|written| - 1]) <= sent < Concat(written)
  }

  ghost predicate SocketOk(v: Wire, s: int) {
    if s in v.failed then s !in v.writes && CutOff(Of(v.sent, s), Of(v.written, s))
    else InStep(v.writes, s, Of(v.sent, s), Of(v.written, s))
  }

  ghost predicate AllOk(v: Wire) {
    forall s :: SocketOk(v, s)
  }

  /** The list of sockets with a pending write names each of them once. */
  ghost predicate Lists(sockets: seq<int>, writes: map<int, PendingWrite>) {
    && (forall s :: s in sockets <==> s in writes)
    && (forall i, j :: 0 <= i < j < |sockets| ==> sockets[i] != sockets[j])
  }

  /** Another packet on the wire, up to byte n. */
  ghost function Started(v: Wire, s: int, iovecs: seq<seq<byte>>, n: nat): Wire
    requires n <= |Concat(iovecs)|
  {
    var total := |Concat(iovecs)|;
    Wire(if n == total then v.writes else v.writes[s := PendingWrite(iovecs, total, n)],
         v.sent[s := Of(v.sent, s) + Concat(iovecs)[..n]],
         v.written[s := Of(v.written, s) + [Concat(iovecs)]], v.failed)
  }

  /** A change at socket s alone. */
  lemma OkAgain(v: Wire, after: Wire, s: int)
    requires AllOk(v) && SocketOk(after, s)
    requires after.writes - {s} == v.writes - {s} && after.sent - {s} == v.sent - {s}
    requires after.written - {s} == v.written - {s} && after.failed - {s} == v.failed - {s}
    ensures AllOk(after)
  {
    forall t ensures SocketOk(after, t) {
      if t != s {
        assert SocketOk(v, t);
        Unaffected(v.sent, after.sent, s, t);
        Unaffected(v.written, after.written, s, t);
        assert t in after.writes - {s} <==> t in v.writes - {s};
        assert t in after.failed - {s} <==> t in v.failed - {s};
        hide CutOff, Concat;
      }
    }
  }

  lemma Unaffected<T>(before: map<int, seq<T>>, after: map<int, seq<T>>, s: int, t: int)
    requires after - {s} == before - {s} && t != s
    ensures Of(after, t) == Of(before, t)
  {
    assert t in after - {s} <==> t in before - {s};
  }

  lemma StartedOk(v: Wire, s: int, iovecs: seq<seq<byte>>, n: nat)
    requires AllOk(v) && s !in v.writes && s !in v.failed && |iovecs| <= MAX_IOVECS && n <= |Concat(iovecs)|
    ensures AllOk(Started(v, s, iovecs, n))
    ensures n == |Concat(iovecs)| ==>
              Of(Started(v, s, iovecs, n).sent, s) == Concat(Of(Started(v, s, iovecs, n).written, s))
  {
    assert SocketOk(v, s);
    hide AllOk, Concat, CutOff;
    StartedInStep(v, s, iovecs, n);
    StartedElsewhere(v, s, iovecs, n);
  }

  lemma StartedElsewhere(v: Wire, s: int, iovecs: seq<seq<byte>>, n: nat)
    requires AllOk(v) && n <= |Concat(iovecs)| && SocketOk(Started(v, s, iovecs, n), s)
    ensures AllOk(Started(v, s, iovecs, n))
  {
    hide AllOk, Concat, CutOff, InStep, SocketOk;
    OkAgain(v, Started(v, s, iovecs, n), s);
  }

  lemma StartedInStep(v: Wire, s: int, iovecs: seq<seq<byte>>, n: nat)
    requires InStep(v.writes, s, Of(v.sent, s), Of(v.written, s))
    requires s !in v.writes && |iovecs| <= MAX_IOVECS && n <= |Concat(iovecs)|
    ensures var after := Started(v, s, iovecs, n);
            InStep(after.writes, s, Of(after.sent, s), Of(after.written, s))
  {
    hide Concat;
    PacketJoins(Of(v.written, s), Concat(iovecs), n);
  }

  lemma PacketJoins(written: seq<seq<byte>>, packet: seq<byte>, n: nat)
    requires n <= |packet|
    ensures (written + [packet])[..|written|] == written
    ensures n == |packet| ==> Concat(written) + packet[..n] == Concat(written + [packet])
  {
    ConcatOne(written, packet);
    assert n == |packet| ==> packet[..n] == packet;
  }

  /** More of the pending packet on the wire. */
  ghost function Moved(v: Wire, s: int, more: nat): Wire
    requires s in v.writes && v.writes[s].bytes + more <= |Concat(v.writes[s].iovecs)|
  {
    var w := v.writes[s];
    var n := w.bytes + more;
    v.(writes := if n == w.total then v.writes - {s} else v.writes[s := w.(bytes := n)],
       sent := v.sent[s := Of(v.sent, s) + Concat(w.iovecs)[w.bytes..n]])
  }

  lemma MovedOk(v: Wire, s: int, more: nat)
    requires AllOk(v) && s in v.writes && v.writes[s].bytes + more <= |Concat(v.writes[s].iovecs)|
    ensures AllOk(Moved(v, s, more))
  {
    var w, written := v.writes[s], Of(v.written, s);
    assert SocketOk(v, s);
    PacketGoesOn(written, Concat(w.iovecs), w.bytes, w.bytes + more);
    assert SocketOk(Moved(v, s, more), s);
    OkAgain(v, Moved(v, s, more), s);
  }

  lemma PacketGoesOn(written: seq<seq<byte>>, packet: seq<byte>, n: nat, m: nat)
    requires written != [] && written[|written| - 1] == packet && n <= m <= |packet|
    ensures var front := Concat(written[..|written| - 1]);
            && front + packet[..n] + packet[n..m] == front + packet[..m]
            && (m == |packet| ==> front + packet[..m] == Concat(written))
  {
    var front := Concat(written[..|written| - 1]);
    assert Concat(written) == front + packet;
    hide Concat;
    Bracket(front, packet[..n], packet[n..m]);
    Slices(packet, n, m);
  }

  lemma Bracket(a: seq<byte>, b: seq<byte>, c: seq<byte>)
    ensures a + b + c == a + (b + c)
  {
  }

  lemma Slices(s: seq<byte>, n: nat, m: nat)
    requires n <= m <= |s|
    ensures s[..n] + s[n..m] == s[..m] && s[..|s|] == s
  {
  }

  ghost function Advanced(v: Wire, s: int, more: nat): Wire
    requires s in v.writes && v.writes[s].bytes + more <= |Concat(v.writes[s].iovecs)|
  {
    var w := v.writes[s];
    v.(writes := v.writes[s := w.(bytes := w.bytes + more)],
       sent := v.sent[s := Of(v.sent, s) + Concat(w.iovecs)[w.bytes..w.bytes + more]])
  }

  /** The socket has failed, and its pending packet is given up. */
  ghost function Lost(v: Wire, s: int): Wire {
    v.(writes := v.writes - {s}, failed := v.failed + {s})
  }

  lemma LostOk(v: Wire, s: int)
    requires AllOk(v) && s in v.writes
    ensures AllOk(Lost(v, s))
  {
    assert SocketOk(v, s);
    assert SocketOk(Lost(v, s), s);
    OkAgain(v, Lost(v, s), s);
  }

  /** The buffers left to write once n bytes are out. */
  ghost predicate Unsent(rest: seq<seq<byte>>, all: seq<seq<byte>>, n: nat) {
    Concat(rest) == if n <= |Concat(all)| then Concat(all)[n..] else []
  }

  lemma NothingUnsent(n: nat)
    ensures Concat([]) == [] && Unsent([], [], n)
  {
  }

  lemma UnsentAll(rest: seq<seq<byte>>, all: seq<seq<byte>>, n: nat)
    requires Unsent(rest, all, n) && n <= |Concat(all)|
    ensures Concat(rest) == Concat(all)[n..]
  {
  }

  /** One more buffer, wholly unsent. */
  lemma UnsentWhole(rest: seq<seq<byte>>, all: seq<seq<byte>>, buffer: seq<byte>, n: nat)
    requires Unsent(rest, all, n) && n <= |Concat(all)|
    ensures Unsent(rest + [buffer], all + [buffer], n)
  {
    ConcatOne(all, buffer);
    ConcatOne(rest, buffer);
    FirstHalf(Concat(all), buffer, n);
    hide Concat;
  }

  /** Partly sent. */
  lemma UnsentPart(rest: seq<seq<byte>>, all: seq<seq<byte>>, buffer: seq<byte>, n: nat)
    requires Unsent(rest, all, n) && |Concat(all)| < n < |Concat(all)| + |buffer|
    ensures Unsent(rest + [buffer[n - |Concat(all)|..]], all + [buffer], n)
  {
    var k := n - |Concat(all)|;
    ConcatOne(all, buffer);
    ConcatOne(rest, buffer[k..]);
    SecondHalf(Concat(all), buffer, n);
    hide Concat;
    assert [] + buffer[k..] == buffer[k..];
  }

  lemma SecondHalf(a: seq<byte>, b: seq<byte>, n: nat)
    requires |a| <= n <= |a| + |b|
    ensures (a + b)[n..] == b[n - |a|..]
  {
  }

  lemma FirstHalf(a: seq<byte>, b: seq<byte>, n: nat)
    requires n <= |a|
    ensures (a + b)[n..] == a[n..] + b
  {
  }

  /** Wholly sent. */
  lemma UnsentNone(rest: seq<seq<byte>>, all: seq<seq<byte>>, buffer: seq<byte>, n: nat)
    requires Unsent(rest, all, n) && |Concat(all)| < n && |Concat(all)| + |buffer| <= n
    ensures Unsent(rest, all + [buffer], n)
  {
    ConcatOne(all, buffer);
    if n == |Concat(all)| + |buffer| { SecondHalf(Concat(all), buffer, n); }
    hide Concat;
  }

  lemma UnsentStep(rest: seq<seq<byte>>, all: seq<seq<byte>>, buffer: seq<byte>, n: nat)
    requires Unsent(rest, all, n)
    ensures var sum := |Concat(all)|;
            if n <= sum then Unsent(rest + [buffer], all + [buffer], n)
            else if n < sum + |buffer| then Unsent(rest + [buffer[n - sum..]], all + [buffer], n)
            else Unsent(rest, all + [buffer], n)
  {
    hide Unsent, Concat;
    var sum := |Concat(all)|;
    if n <= sum {
      UnsentWhole(rest, all, buffer, n);
    } else if n < sum + |buffer| {
      UnsentPart(rest, all, buffer, n);
    } else {
      UnsentNone(rest, all, buffer, n);
    }
  }

  /** One call of writev: what it was given, and what it did. */
  datatype Try = Try(sock: int, data: seq<byte>, ok: bool, bytes: nat)

  function Socks(tries: seq<Try>): (r: seq<int>)
    ensures |r| == |tries| && forall i :: 0 <= i < |r| ==> r[i] == tries[i].sock
  {
    seq(|tries|, i requires 0 <= i < |tries| => tries[i].sock)
  }

  /** The sockets on which one of the calls failed. */
  ghost function FailedIn(tries: seq<Try>): set<int> {
    set t | t in tries && !t.ok :: t.sock
  }

  /** The sockets of the list that are ready, in its order. */
  function Among(list: seq<int>, ready: set<int>): seq<int> {
    if list == [] then []
    else Among(list[..|list| - 1], ready) + if list[|list| - 1] in ready then [list[|list| - 1]] else []
  }

  /** What the calls have put on the wire of socket s. */
  ghost function PutOn(tries: seq<Try>, s: int): seq<byte> {
    if tries == [] then []
    else
      var t := tries[|tries| - 1];
      PutOn(tries[..|tries| - 1], s) + if t.sock == s && t.ok && t.bytes <= |t.data| then t.data[..t.bytes] else []
  }

  lemma OneCall(tries: seq<Try>, t: Try, s: int)
    ensures FailedIn(tries + [t]) == FailedIn(tries) + if t.ok then {} else {t.sock}
    ensures Socks(tries + [t]) == Socks(tries) + [t.sock]
    ensures PutOn(tries + [t], s) == PutOn(tries, s) + if t.sock == s && t.ok && t.bytes <= |t.data| then t.data[..t.bytes] else []
  {
    assert (tries + [t])[..|tries|] == tries;
    assert forall x :: x in tries + [t] <==> x in tries || x == t;
  }

  /** What a walk over the pending writes has done to the wire v so far. */
  ghost predicate Walked(v: Wire, calls: seq<Try>, ready: set<int>, after: Wire) {
    && (forall t | t in calls :: t.sock in ready && t.sock in v.writes && t.bytes <= |t.data|)
    && after.failed == v.failed + FailedIn(calls) && after.written == v.written
    && (forall s :: Of(after.sent, s) == Of(v.sent, s) + PutOn(calls, s))
  }

  lemma WalksOn(v: Wire, calls: seq<Try>, ready: set<int>, before: Wire, t: Try, after: Wire)
    requires Walked(v, calls, ready, before) && t.sock in ready && t.sock in v.writes && t.bytes <= |t.data|
    requires after.failed == (before.failed + if t.ok then {} else {t.sock}) && after.written == before.written
    requires after.sent == if t.ok then before.sent[t.sock := Of(before.sent, t.sock) + t.data[..t.bytes]] else before.sent
    ensures Walked(v, calls + [t], ready, after)
  {
    OneCall(calls, t, t.sock);
    hide PutOn;
    forall s ensures Of(after.sent, s) == Of(v.sent, s) + PutOn(calls + [t], s) {
      OneCall(calls, t, s);
      assert Of(before.sent, s) == Of(v.sent, s) + PutOn(calls, s);
      Longer(Of(v.sent, s), PutOn(calls, s), t.data[..t.bytes]);
    }
  }

  lemma Longer(a: seq<byte>, b: seq<byte>, c: seq<byte>)
    ensures (a + b) + c == a + (b + c) && b + [] == b
  {
  }

  lemma WalkStarts(v: Wire, list: seq<int>, ready: set<int>)
    ensures Walked(v, [], ready, v) && Reported([], 0, 0) && Leads([], list, ready) && Socks([]) == Among(list[..0], ready)
  {
    forall s ensures Of(v.sent, s) == Of(v.sent, s) + PutOn([], s) {
    }
  }

  /** One more call on socket i of a list that is still as it was. */
  lemma LeadsOn(calls: seq<Try>, list: seq<int>, ready: set<int>, i: nat, t: Try)
    requires i < |list| && t.sock == list[i] && list[i] in ready && Socks(calls) == Among(list[..i], ready)
    ensures Leads(calls + [t], list, ready) && Socks(calls + [t]) == Among(list[..i + 1], ready)
  {
    AmongNext(list, ready, i);
    AmongPrefix(list, ready, i + 1);
    OneCall(calls, t, t.sock);
    hide Among;
    assert Among(list[..i + 1], ready) != [];
    assert Socks(calls + [t])[0] == (calls + [t])[0].sock;
  }

  lemma LeadsStill(calls: seq<Try>, list: seq<int>, ready: set<int>, t: Try)
    requires Leads(calls, list, ready) && calls != []
    ensures Leads(calls + [t], list, ready)
  {
  }

  /** At the end of a walk that has removed nothing. */
  lemma WalkEnds(calls: seq<Try>, list: seq<int>, ready: set<int>)
    requires Socks(calls) == Among(list, ready)
    ensures Among(list, ready) != [] ==> calls != []
  {
  }

  /** The answer of a walk names a socket on which writev failed, if there is one. */
  ghost predicate Reported(calls: seq<Try>, rc: int, sock: int) {
    (rc == 0 <==> FailedIn(calls) == {}) && (rc != 0 ==> rc == -1 && sock in FailedIn(calls))
  }

  lemma ReportsOn(calls: seq<Try>, rc: int, sock: int, t: Try)
    requires Reported(calls, rc, sock)
    ensures if t.ok then Reported(calls + [t], rc, sock) else Reported(calls + [t], -1, t.sock)
  {
    OneCall(calls, t, t.sock);
  }

  ghost predicate Leads(calls: seq<Try>, list: seq<int>, ready: set<int>) {
    calls != [] ==> Among(list, ready) != [] && calls[0].sock == Among(list, ready)[0]
  }

  lemma {:induction false} AmongPrefix(list: seq<int>, ready: set<int>, i: nat)
    requires i <= |list|
    ensures Among(list[..i], ready) <= Among(list, ready)
    decreases |list|
  {
    if i < |list| {
      AmongPrefix(list[..|list| - 1], ready, i);
      assert list[..|list| - 1][..i] == list[..i];
    } else {
      assert list[..i] == list;
    }
  }

  lemma AmongNext(list: seq<int>, ready: set<int>, i: nat)
    requires i < |list|
    ensures Among(list[..i + 1], ready) == Among(list[..i], ready) + if list[i] in ready then [list[i]] else []
  {
    assert list[..i + 1][..i] == list[..i];
  }

  class Writer {
    var writes: map<int, PendingWrite>
    var writePending: seq<int>                  // the sockets with a pending write, in the order they got one
    var current: int                            // the cursor of that list, -1 for none
    ghost var sent: map<int, seq<byte>>         // all bytes accepted by writev, by socket
    ghost var written: map<int, seq<seq<byte>>> // the packets given to Putdatas and not refused
    ghost var failed: set<int>                  // sockets on which a continuation has failed
    ghost var tries: seq<Try>                   // all calls of writev

    ghost function View(): Wire
      reads this
    {
      Wire(writes, sent, written, failed)
    }

    ghost predicate Valid()
      reads this
    {
      Lists(writePending, writes) && AllOk(View()) && -1 <= current < |writePending|
    }

    constructor ()
      ensures Valid() && View() == Wire(map[], map[], map[], {}) && tries == []
    {
      writes, writePending, current, sent, written, failed, tries := map[], [], -1, map[], map[], {}, [];
    }

    /** The search moves the cursor to what it finds. */
    method NoPendingWrites(s: int) returns (none: bool)
      requires -1 <= current < |writePending|
      modifies this`current
      ensures none <==> s !in writePending
      ensures -1 <= current < |writePending|
      ensures if none then current == old(current) else current >= 0 && writePending[current] == s
    {
      if current >= 0 && writePending[current] == s {
        return false;
      }
      var i := 0;
      while i < |writePending| && writePending[i] != s
        invariant i <= |writePending| && s !in writePending[..i]
      {
        i := i + 1;
      }
      none := i == |writePending|;
      if !none {
        current := i;
      }
    }

    /** writev on a socket that does not block: any number of bytes from the front, or an error. */
    method Writev(s: int, iovecs: seq<seq<byte>>) returns (ok: bool, bytes: nat)
      modifies this`sent, this`tries
      ensures tries == old(tries) + [Try(s, Concat(iovecs), ok, bytes)] && bytes <= |Concat(iovecs)|
      ensures ok ==> sent == old(sent)[s := Of(old(sent), s) + Concat(iovecs)[..bytes]]
      ensures !ok ==> bytes == 0 && sent == old(sent)
    {
      ok, bytes := *, 0;
      if ok {
        var n: int := *;
        bytes := if 0 <= n <= |Concat(iovecs)| then n else 0;
        sent := sent[s := Of(sent, s) + Concat(iovecs)[..bytes]];
      }
      tries := tries + [Try(s, Concat(iovecs), ok, bytes)];
    }

    /** Remembers a packet of which only part could be written. */
    method AddPendingWrite(s: int, w: PendingWrite)
      requires Lists(writePending, writes) && s !in writes
      modifies this`writes, this`writePending
      ensures Lists(writePending, writes) && writePending == old(writePending) + [s]
      ensures writes == old(writes)[s := w]
    {
      writes := writes[s := w];
      writePending := writePending + [s];
    }

    /**
     Writes a packet, or starts to.  It is refused, and nothing is given to writev, if and only if another packet
     is pending on the socket.  Otherwise all of it is given to writev at once, and the answer says what that did.
     */
    method Putdatas(s: int, buf0: seq<byte>, bufs: seq<seq<byte>>) returns (rc: Outcome)
      requires Valid() && s !in failed && |bufs| < MAX_IOVECS
      modifies this
      ensures Valid()
      ensures s in old(writes) ==> rc == SocketError && tries == old(tries) && View() == old(View())
      ensures s !in old(writes) ==>
                |tries| == |old(tries)| + 1 &&
                var t := tries[|old(tries)|];
                && tries == old(tries) + [t] && t.sock == s && t.data == Concat([buf0] + bufs) && t.bytes <= |t.data|
                && rc == (if !t.ok then SocketError else if t.bytes == |t.data| then Complete else Interrupted)
                && View() == if t.ok then Started(old(View()), s, [buf0] + bufs, t.bytes) else old(View())
      ensures rc == Interrupted <==> s !in old(writes) && s in writes
      ensures rc == Complete ==> Of(sent, s) == Concat(Of(written, s))
    {
      var none := NoPendingWrites(s);
      if !none {
        return SocketError;
      }
      hide AllOk, Concat;
      var iovecs := [buf0] + bufs;
      var total := Total(buf0, bufs);
      ghost var v := View();
      var ok, bytes := Writev(s, iovecs);
      if !ok {
        return SocketError;
      }
      if bytes == total {
        rc := Complete;
      } else {
        AddPendingWrite(s, PendingWrite(iovecs, total, bytes));
        rc := Interrupted;
      }
      written := written[s := Of(written, s) + [Concat(iovecs)]];
      assert View() == Started(v, s, iovecs, bytes);
      StartedOk(v, s, iovecs, bytes);
    }

    /** The buffers still to write: those not begun, and the rest of the one begun. */
    method Rest(w: PendingWrite) returns (iovecs: seq<seq<byte>>)
      requires w.bytes <= |Concat(w.iovecs)|
      ensures Concat(iovecs) == Concat(w.iovecs)[w.bytes..] && |iovecs| <= |w.iovecs|
    {
      iovecs := [];
      NothingUnsent(w.bytes);
      hide Concat, Unsent;
      var curbuflen := 0;
      for i := 0 to |w.iovecs|
        invariant curbuflen == |Concat(w.iovecs[..i])| && |iovecs| <= i
        invariant Unsent(iovecs, w.iovecs[..i], w.bytes)
      {
        UnsentStep(iovecs, w.iovecs[..i], w.iovecs[i], w.bytes);
        assert w.iovecs[..i] + [w.iovecs[i]] == w.iovecs[..i + 1];
        ConcatOne(w.iovecs[..i], w.iovecs[i]);
        if w.bytes <= curbuflen {
          iovecs := iovecs + [w.iovecs[i]];
        } else if w.bytes < curbuflen + |w.iovecs[i]| {
          iovecs := iovecs + [w.iovecs[i][w.bytes - curbuflen..]];
        }
        curbuflen := curbuflen + |w.iovecs[i]|;
      }
      assert w.iovecs[..|w.iovecs|] == w.iovecs;
      UnsentAll(iovecs, w.iovecs, w.bytes);
    }

    /** Goes on with a pending packet: 1 when all of it is written, 0 when some is left, -1 if writev failed. */
    method ContinueWrite(s: int) returns (rc: int)
      requires Valid() && s in writes
      modifies this`writes, this`sent, this`tries
      ensures |tries| == |old(tries)| + 1
      ensures var w, t := old(writes[s]), tries[|old(tries)|];
              && w.bytes <= |Concat(w.iovecs)| == w.total
              && tries == old(tries) + [t] && t.sock == s && t.data == Concat(w.iovecs)[w.bytes..] && t.bytes <= |t.data|
              && rc == (if !t.ok then -1 else if t.bytes == |t.data| then 1 else 0)
              && View() == if t.ok then Advanced(old(View()), s, t.bytes) else old(View())
    {
      var w := writes[s];
      assert SocketOk(View(), s);
      hide AllOk, Concat, CutOff;
      var iovecs := Rest(w);
      ghost var v := View();
      var ok, bytes := Writev(s, iovecs);
      if !ok {
        return -1;
      }
      writes := writes[s := w.(bytes := w.bytes + bytes)];
      rc := if w.bytes + bytes == w.total then 1 else 0;
      assert Concat(w.iovecs)[w.bytes..][..bytes] == Concat(w.iovecs)[w.bytes..w.bytes + bytes];
      assert View() == Advanced(v, s, bytes);
    }

    /** The pending write of s is over.  A cursor on it moves on, any other one stays. */
    method WriteComplete(s: int, i: nat)
      requires Lists(writePending, writes) && i < |writePending| && writePending[i] == s && -1 <= current < |writePending|
      modifies this`writes, this`writePending, this`current
      ensures Lists(writePending, writes) && -1 <= current < |writePending|
      ensures writes == old(writes) - {s} && writePending == old(writePending)[..i] + old(writePending)[i + 1..]
      ensures current == (if old(current) == i then if i < |writePending| then i else -1
                          else if old(current) > i then old(current) - 1 else old(current))
    {
      writes := writes - {s};
      if current > i || (current == i && i == |writePending| - 1) {
        current := if current > i then current - 1 else -1;
      }
      writePending := writePending[..i] + writePending[i + 1..];
    }

    /** One turn for socket i of the list, when it can be written to.  It leaves the list unless some is left. */
    method Turn(s: int, i: nat) returns (rc: int)
      requires Valid() && i < |writePending| && writePending[i] == s
      modifies this
      ensures Valid() && |tries| == |old(tries)| + 1
      ensures var t := tries[|old(tries)|];
              && tries == old(tries) + [t] && t.sock == s && t.bytes <= |t.data| && s in old(writes)
              && old(writes[s].bytes) + t.bytes <= |Concat(old(writes[s].iovecs))|
              && rc == (if !t.ok then -1 else if t.bytes == |t.data| then 1 else 0)
              && View() == (if t.ok then Moved(old(View()), s, t.bytes) else Lost(old(View()), s))
              && sent == (if t.ok then old(sent)[s := Of(old(sent), s) + t.data[..t.bytes]] else old(sent))
      ensures rc == 0 ==> writePending == old(writePending) && current == old(current)
      ensures rc != 0 ==> writePending == old(writePending)[..i] + old(writePending)[i + 1..]
      ensures failed == (old(failed) + if rc == -1 then {s} else {}) && written == old(written)
      ensures rc == 1 ==> Of(sent, s) == Concat(Of(written, s))
    {
      hide AllOk, Concat, CutOff, Of, SocketOk, InStep;
      ghost var v := View();
      ghost var w := writes[s];
      rc := ContinueWrite(s);
      ghost var t := tries[|old(tries)|];
      assert t.ok ==> t.data[..t.bytes] == Concat(w.iovecs)[w.bytes..w.bytes + t.bytes];
      if rc == 0 {
        assert View() == Moved(v, s, t.bytes);
        MovedOk(v, s, t.bytes);
      } else {
        WriteComplete(s, i);
        if rc == -1 {
          failed := failed + {s};
          assert View() == Lost(v, s);
          LostOk(v, s);
        } else {
          assert View() == Moved(v, s, t.bytes);
          MovedOk(v, s, t.bytes);
          WholeOnWire(v, s, t.bytes);
        }
      }
    }

    lemma WholeOnWire(v: Wire, s: int, more: nat)
      requires AllOk(v) && s in v.writes && v.writes[s].bytes + more == |Concat(v.writes[s].iovecs)|
      ensures Of(Moved(v, s, more).sent, s) == Concat(Of(v.written, s))
    {
      assert SocketOk(v, s);
      MovedOk(v, s, more);
      assert SocketOk(Moved(v, s, more), s);
    }

    /**
     Goes on with the pending packets of the sockets that can take more.  After a removal the walk goes on at the
     cursor of the list, so it may pass over some sockets or come to one again; as long as nothing is removed it
     takes all that are ready, once each.
     */
    method ContinueWrites(ready: set<int>) returns (rc: int, sock: int)
      requires Valid()
      modifies this
      ensures Valid() && written == old(written) && old(tries) <= tries
      ensures Walked(old(View()), tries[|old(tries)|..], ready, View())
      ensures Reported(tries[|old(tries)|..], rc, sock)
      ensures |writePending| == |old(writePending)| ==> Socks(tries[|old(tries)|..]) == Among(old(writePending), ready)
      ensures Leads(tries[|old(tries)|..], old(writePending), ready)
      ensures Among(old(writePending), ready) != [] ==> tries != old(tries)
    {
      hide AllOk, Of, Walked, Reported, Leads, Socks, Among, FailedIn, PutOn, Moved, Lost;
      rc, sock := 0, 0;
      var i := 0;
      WalkStarts(View(), writePending, ready);
      ghost var v, list, calls := View(), writePending, [];
      while 0 <= i < |writePending|
        invariant Valid() && -1 <= i <= |writePending| <= |list| && written == v.written
        invariant tries == old(tries) + calls && Walked(v, calls, ready, View())
        invariant forall s | s in writePending :: s in v.writes
        invariant Reported(calls, rc, sock)
        invariant |writePending| == |list| ==> writePending == list && 0 <= i && Socks(calls) == Among(list[..i], ready)
        invariant |writePending| < |list| ==> calls != []
        invariant Leads(calls, list, ready)
        decreases |writePending|, |writePending| - i
      {
        var s := writePending[i];
        ghost var before := View();
        NotFailed(View(), s);
        ghost var whole := |writePending| == |list|;
        if whole { AmongNext(list, ready, i); }
        if s in ready {
          var r := Turn(s, i);
          ghost var t := tries[|old(tries)| + |calls|];
          WalksOn(v, calls, ready, before, t, View());
          ReportsOn(calls, rc, sock, t);
          if whole { LeadsOn(calls, list, ready, i, t); } else { LeadsStill(calls, list, ready, t); }
          calls := calls + [t];
          i := if r == 0 then i + 1 else current;
          if r == -1 {
            rc, sock := -1, s;
          }
        } else {
          i := i + 1;
        }
      }
      assert list[..|list|] == list && tries[|old(tries)|..] == calls;
      if |writePending| == |list| { WalkEnds(calls, list, ready); }
    }

    lemma NotFailed(v: Wire, s: int)
      requires AllOk(v) && s in v.writes
      ensures s !in v.failed
    {
      assert SocketOk(v, s);
    }

    /** The socket has been closed, and its pending packet is forgotten. */
    method Close(s: int)
      requires Valid()
      modifies this
      ensures Valid()
      ensures writes == old(writes) - {s} && failed == old(failed) - {s} && tries == old(tries)
      ensures Of(sent, s) == [] && Of(written, s) == []
      ensures forall t :: t != s ==> Of(sent, t) == old(Of(sent, t)) && Of(written, t) == old(Of(written, t))
    {
      ghost var v := View();
      if s in writePending {
        var i :| 0 <= i < |writePending| && writePending[i] == s;
        WriteComplete(s, i);
      }
      sent, written, failed := sent - {s}, written - {s}, failed - {s};
      assert SocketOk(View(), s);
      OkAgain(v, View(), s);
    }
  }

  method Total(buf0: seq<byte>, bufs: seq<seq<byte>>) returns (total: nat)
    ensures total == |Concat([buf0] + bufs)|
  {
    total := |buf0|;
    assert Concat([buf0]) == Concat([]) + buf0;
    for i := 0 to |bufs|
      invariant total == |Concat([buf0] + bufs[..i])|
    {
      total := total + |bufs[i]|;
      ConcatOne([buf0] + bufs[..i], bufs[i]);
      assert [buf0] + bufs[..i] + [bufs[i]] == [buf0] + bufs[..i + 1];
    }
    assert bufs[..|bufs|] == bufs;
  }

  // ----- what the other end reads

  /** The packets meant by a list of packets written. */
  function Parsed(written: seq<seq<byte>>): (r: seq<Packet>)
    requires forall i :: 0 <= i < |written| ==> OnePacketLong(written[i])
    ensures |r| == |written|
    ensures forall i :: 0 <= i < |r| ==> OnePacketLong(written[i]) && r[i] == Frame(written[i]).packet
  {
    if written == [] then []
    else
      assert OnePacketLong(written[|written| - 1]);
      Parsed(written[..|written| - 1]) + [Frame(written[|written| - 1]).packet]
  }

  lemma {:induction false} ConcatParses(written: seq<seq<byte>>)
    requires forall i :: 0 <= i < |written| ==> OnePacketLong(written[i])
    ensures Packets(Concat(written)) == Parsed(written) && Consumed(Concat(written)) == |Concat(written)|
  {
    if written == [] {
      assert Packets([]) == [] && Consumed([]) == 0;
    } else {
      var front, last := written[..|written| - 1], written[|written| - 1];
      ConcatParses(front);
      PacketsJoin(Concat(front), last);
      ConsumedJoin(Concat(front), last);
      assert last[Frame(last).size..] == [];
      assert Packets([]) == [] && Consumed([]) == 0;
    }
  }

  /** Which packets are wholly on the wire. */
  ghost function Whole(v: Wire, s: int): seq<seq<byte>> {
    var written := Of(v.written, s);
    if (s in v.writes || s in v.failed) && written != [] then written[..|written| - 1] else written
  }

  /** The bytes on the wire parse to the packets written, but for the one cut off. */
  lemma WireParses(v: Wire, s: int)
    requires AllOk(v)
    requires forall i :: 0 <= i < |Of(v.written, s)| ==> OnePacketLong(Of(v.written, s)[i])
    ensures Packets(Of(v.sent, s)) == Parsed(Whole(v, s))
  {
    hide AllOk, Packets, Parsed, Consumed, OnePacketLong, Frame;
    CutOffAt(v, s);
    var written, sent, whole := Of(v.written, s), Of(v.sent, s), Whole(v, s);
    ConcatParses(whole);
    if s in v.writes || s in v.failed {
      var last := written[|written| - 1];
      var n := |sent| - |Concat(whole)|;
      CutShort(last, n);
      PacketsJoin(Concat(whole), last[..n]);
      NoWholePacket(last, n, Parsed(whole));
    }
  }

  lemma NoWholePacket(last: seq<byte>, n: nat, front: seq<Packet>)
    requires n < |last| && !Frame(last[..n]).Whole?
    ensures front + Packets(last[..n]) == front
  {
  }

  /** What is on the wire, if the last packet is not whole on it. */
  lemma CutOffAt(v: Wire, s: int)
    requires AllOk(v)
    ensures var written, sent, whole := Of(v.written, s), Of(v.sent, s), Whole(v, s);
            if s in v.writes || s in v.failed then
              && written != [] && |Concat(whole)| <= |sent| < |Concat(whole)| + |written[|written| - 1]|
              && sent == Concat(whole) + written[|written| - 1][..|sent| - |Concat(whole)|]
            else sent == Concat(whole)
  {
    assert SocketOk(v, s);
  }

  /** A peer that has received part of it has so far seen a prefix of the packets written, each of them whole. */
  lemma PeerReads(v: Wire, s: int, received: seq<byte>)
    requires AllOk(v) && received <= Of(v.sent, s)
    requires forall i :: 0 <= i < |Of(v.written, s)| ==> OnePacketLong(Of(v.written, s)[i])
    ensures Packets(received) <= Parsed(Of(v.written, s))
    ensures received == Of(v.sent, s) && s !in v.writes && s !in v.failed ==>
              Packets(received) == Parsed(Of(v.written, s))
  {
    WireParses(v, s);
    var sent := Of(v.sent, s);
    assert sent == received + sent[|received|..];
    PacketsMonotone(received, sent[|received|..]);
    assert Parsed(Whole(v, s)) <= Parsed(Of(v.written, s));
  }
}
