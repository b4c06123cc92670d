/**
 Reading packets from sockets that never block (SocketBuffer.c, Socket.c and MQTTPacket_Factory).
 A read that would block leaves what it got in a queue, and the next call replays it.
 */
module PacketReader {
  import opened Framing

  /** The header bytes kept, how many of them have been handed out again, and the body so far. */
  datatype SocketQueue = SocketQueue(index: nat, header: seq<byte>, data: seq<byte>) {
    function Bytes(): seq<byte> { header + data }
  }

  const EMPTY := SocketQueue(0, [], [])

  /** What one recv call can do. */
  datatype Received = Got(bytes: seq<byte>) | WouldBlock | Failed

  datatype QueuedChar = Char(c: byte) | NoChar | HeaderFull
  datatype Read<T> = Complete(value: T) | Interrupted | SocketError

  ghost function Of<T>(m: map<int, seq<T>>, s: int): seq<T> {
    if s in m then m[s] else []
  }

  ghost function At(queues: map<int, SocketQueue>, s: int): SocketQueue {
    if s in queues then queues[s] else EMPTY
  }

  /** A header with more bytes to come: no first byte yet, or an unfinished length. */
  predicate Wanting(header: seq<byte>) {
    header == [] || Decode(header[1..], MAX_LENGTH_BYTES).More?
  }

  /** A whole header, and the length of the body it announces. */
  predicate Announces(header: seq<byte>, n: nat) {
    header != [] && Decode(header[1..], MAX_LENGTH_BYTES) == Value(n, |header| - 1)
  }

  /** Header bytes of one packet only, and body bytes only after a whole header. */
  ghost predicate Proper(q: SocketQueue) {
    && (forall j :: 0 <= j < |q.header| ==> Wanting(q.header[..j]))
    && (q.data == [] || exists n: nat :: Announces(q.header, n) && |q.data| < n)
  }

  /** What may be kept for later: part of one packet. */
  ghost predicate Resumable(q: SocketQueue) {
    q.index == 0 && Proper(q) && Frame(q.Bytes()) == Partial
  }

  /** All bytes received are those of the packets delivered, then those still kept. */
  ghost predicate Accounted(kept: seq<byte>, received: seq<byte>, done: seq<byte>, delivered: seq<Packet>) {
    received == done + kept && Consumed(done) == |done| && delivered == Packets(done)
  }

  ghost predicate Sound(q: SocketQueue, received: seq<byte>, done: seq<byte>, delivered: seq<Packet>) {
    Resumable(q) && Accounted(q.Bytes(), received, done, delivered)
  }

  lemma NothingIsSound()
    ensures Sound(EMPTY, [], [], [])
  {
    assert EMPTY.Bytes() == [] && Packets([]) == [] && Consumed([]) == 0;
  }

  lemma WantingIsShort(header: seq<byte>)
    requires Wanting(header)
    ensures |header| <= 4
  {
    if header != [] { DecodeMore(header[1..], MAX_LENGTH_BYTES); }
  }

  /** A header never outgrows the five bytes set aside for it. */
  lemma HeaderLength(q: SocketQueue)
    requires Proper(q)
    ensures |q.header| <= 5
  {
    if q.header != [] { WantingIsShort(q.header[..|q.header| - 1]); }
  }

  /** A header and part of its body are not a whole packet; with all of the body they are one. */
  lemma FrameParts(header: seq<byte>, n: nat, data: seq<byte>)
    requires Announces(header, n)
    ensures Frame(header + data) ==
            if |data| < n then Partial else Whole(Packet(header[0], data[..n]), |header| + n)
  {
    DecodePrefix(header[1..], data, MAX_LENGTH_BYTES);
    var s := header + data;
    assert s[1..] == header[1..] + data;
    if |data| >= n {
      assert s[|header|..|header| + n] == data[..n];
    }
  }

  lemma BodyIsPartial(q: SocketQueue, n: nat)
    requires Proper(q) && Announces(q.header, n) && n > 0
    ensures |q.data| < n && Frame(q.Bytes()) == Partial
  {
    FrameParts(q.header, n, q.data);
  }

  /** The packets delivered are exactly those of the whole stream received, however it was cut up. */
  lemma DeliveredIsParsed(kept: seq<byte>, received: seq<byte>, done: seq<byte>, delivered: seq<Packet>)
    requires Accounted(kept, received, done, delivered)
    requires !Frame(kept).Whole?
    ensures delivered == Packets(received)
    ensures received[Consumed(received)..] == kept
  {
    PacketsJoin(done, kept);
    ConsumedJoin(done, kept);
    assert Packets(kept) == [] && Consumed(kept) == 0;
  }

  /** One more whole packet moves from what is kept to what is done. */
  lemma OnePacket(header: seq<byte>, n: nat, data: seq<byte>,
                  received: seq<byte>, done: seq<byte>, delivered: seq<Packet>)
    requires Announces(header, n) && |data| == n
    requires Accounted(header + data, received, done, delivered)
    ensures Accounted([], received, received, delivered + [Packet(header[0], data)])
  {
    FrameParts(header, n, data);
    assert data[..n] == data;
    var one := header + data;
    assert one[|header| + n..] == [];
    assert Packets(one) == [Packet(header[0], data)] && Consumed(one) == |one| by {
      assert Packets([]) == [] && Consumed([]) == 0;
    }
    PacketsJoin(done, one);
    ConsumedJoin(done, one);
    assert received + [] == received;
  }

  /** A header that wants more can take one more byte. */
  lemma HeaderGrows(q: SocketQueue, c: byte, index: nat)
    requires Proper(q) && Wanting(q.header)
    ensures q.data == [] && Proper(SocketQueue(index, q.header + [c], q.data))
  {
    var header := q.header + [c];
    forall j | 0 <= j < |header| ensures Wanting(header[..j]) {
      assert header[..j] == if j < |q.header| then q.header[..j] else q.header;
    }
  }

  lemma WantingIsPartial(q: SocketQueue)
    requires Proper(q) && Wanting(q.header)
    ensures q.data == [] && Frame(q.Bytes()) == Partial
  {
    assert q.Bytes() == q.header;
  }

  lemma BodyGrows(header: seq<byte>, data: seq<byte>, more: seq<byte>)
    ensures header + data + more == header + (data + more)
  {
  }

  lemma AccountedGrows(kept: seq<byte>, more: seq<byte>, received: seq<byte>, done: seq<byte>, delivered: seq<Packet>)
    requires Accounted(kept, received, done, delivered)
    ensures Accounted(kept + more, received + more, done, delivered)
  {
    assert done + kept + more == done + (kept + more);
  }

  class Reader {
    var queues: map<int, SocketQueue>  // partly read packets, by socket
    var defSocket: int                 // the socket using the default queue, or 0
    var defQueue: SocketQueue
    ghost var received: map<int, seq<byte>>    // all bytes recv has returned, by socket
    ghost var last: Received                   // what recv did last
    ghost var done: map<int, seq<byte>>        // the bytes that made up delivered packets
    ghost var delivered: map<int, seq<Packet>>

    /** Only socket s has received anything since. */
    twostate predicate OnlyFrom(s: int)
      reads this
    {
      && (forall t :: t != s ==> Of(received, t) == old(Of(received, t)))
      && old(Of(received, s)) <= Of(received, s)
    }

    ghost predicate OthersSound(s: int)
      reads this
    {
      forall t :: t != s ==> Sound(At(queues, t), Of(received, t), Of(done, t), Of(delivered, t))
    }

    ghost predicate Clean()
      reads this
    {
      defSocket == 0 && defQueue == EMPTY
    }

    ghost predicate Ready()
      reads this
    {
      && Clean() && 0 !in queues
      && forall t :: Sound(At(queues, t), Of(received, t), Of(done, t), Of(delivered, t))
    }

    /** The queue holding the packet now being read from s. */
    ghost function Held(s: int): SocketQueue
      reads this
    {
      if s in queues then queues[s] else defQueue
    }

    ghost predicate HeldAccounted(s: int)
      reads this
    {
      Accounted(Held(s).Bytes(), Of(received, s), Of(done, s), Of(delivered, s))
    }

    ghost predicate Alone(s: int)
      reads this
    {
      s != 0 && 0 !in queues && OthersSound(s) && (Clean() || (defSocket == s && s !in queues))
    }

    /** In the middle of a packet of socket s, k bytes of whose header have been handed out. */
    ghost predicate Reading(s: int, k: nat)
      reads this
    {
      && Alone(s) && HeldAccounted(s) && Proper(Held(s))
      && Held(s).index == k <= |Held(s).header|
      && (s !in queues ==> k == |Held(s).header| && Held(s).data == [])
    }

    /** After an error on s: what is held for s is not a whole packet, and the rest is sound. */
    ghost predicate Broken(s: int)
      reads this
    {
      Alone(s) && HeldAccounted(s) && !Frame(Held(s).Bytes()).Whole?
    }

    constructor ()
      ensures Ready() && received == map[] && delivered == map[]
    {
      queues, defSocket, defQueue := map[], 0, EMPTY;
      received, done, delivered := map[], map[], map[];
      new;
      NothingIsSound();
    }

    /** recv on a socket that does not block: any number of bytes up to `most`, or none. */
    method Recv(s: int, most: nat) returns (r: Received)
      requires most > 0
      modifies this`received, this`last
      ensures last == r
      ensures r.Got? ==> 0 < |r.bytes| <= most
      ensures Of(received, s) == if r.Got? then old(Of(received, s)) + r.bytes else old(Of(received, s))
      ensures OnlyFrom(s)
      ensures old(OthersSound(s)) ==> OthersSound(s)
    {
      if {
        case true => r := WouldBlock;
        case true => r := Failed;
        case true =>
          var bytes: seq<byte> := *;
          r := Got(if 0 < |bytes| <= most then bytes else [0]);
          received := received[s := Of(received, s) + r.bytes];
      }
      last := r;
    }

    /** The next byte of a header kept earlier, if any are left. */
    method GetQueuedChar(s: int, ghost k: nat) returns (r: QueuedChar)
      requires Reading(s, k) && Wanting(Held(s).header[..k])
      modifies this`queues
      ensures Held(s).header == old(Held(s).header)
      ensures r != HeaderFull
      ensures r == NoChar <==> k == |Held(s).header|
      ensures r == NoChar ==> queues == old(queues)
      ensures r.Char? ==> Reading(s, k + 1) && r.c == Held(s).header[k]
    {
      hide Accounted, Sound, Frame, Decode, Consumed, Packets;
      WantingIsShort(Held(s).header[..k]);
      r := NoChar;
      if s in queues {
        var q := queues[s];
        if q.index < |q.header| {
          r := Char(q.header[q.index]);
          queues := queues[s := q.(index := q.index + 1)];
          assert q.(index := q.index + 1).Bytes() == q.Bytes();
        } else if q.index > 4 {
          r := HeaderFull;
        }
      }
    }

    /** Keeps what was read of a packet. */
    method Interrupt(s: int, data: seq<byte>)
      requires Alone(s) && Resumable(Held(s).(index := 0, data := data))
      requires Accounted(Held(s).header + data, Of(received, s), Of(done, s), Of(delivered, s))
      modifies this`queues, this`defSocket, this`defQueue
      ensures Ready()
      ensures queues == old(queues)[s := old(Held(s)).(index := 0, data := data)]
    {
      if s in queues {
        queues := queues[s := queues[s].(index := 0, data := data)];
      } else {
        queues := queues[s := defQueue.(index := 0, data := data)];
        defSocket, defQueue := 0, EMPTY;
      }
    }

    method Finish(s: int)
      modifies this`queues, this`defSocket, this`defQueue
      ensures Clean() && queues == old(queues) - {s}
    {
      if s in queues {
        queues := queues - {s};
      }
      defSocket, defQueue := 0, EMPTY;
    }

    /** Adds a byte to the header; a byte for which there is no room, or no queue, is dropped. */
    method QueueChar(s: int, c: byte)
      requires s != 0
      requires Held(s).index <= |Held(s).header|
      modifies this`queues, this`defSocket, this`defQueue
      ensures Held(s).index <= |Held(s).header|
      ensures old(s in queues) && old(Held(s).index) <= 4 ==>
                var q := old(Held(s));
                && queues == old(queues)[s := SocketQueue(q.index + 1, q.header[..q.index] + [c], q.data)]
                && defSocket == old(defSocket) && defQueue == old(defQueue)
      ensures old(s !in queues) && old(defSocket == 0) ==>
                queues == old(queues) && defSocket == s && defQueue == SocketQueue(1, [c], [])
      ensures old(s !in queues) && old(defSocket == s) && old(defQueue.index) <= 4 ==>
                var q := old(defQueue);
                && queues == old(queues) && defSocket == s
                && defQueue == SocketQueue(q.index + 1, q.header[..q.index] + [c], q.data)
    {
      if s in queues {
        var q := queues[s];
        if q.index <= 4 {
          queues := queues[s := SocketQueue(q.index + 1, q.header[..q.index] + [c], q.data)];
        }
      } else {
        if defSocket == 0 {
          defSocket := s;
          defQueue := defQueue.(index := 0, data := []);
        }
        if defSocket == s && defQueue.index <= 4 {
          var q := defQueue;
          defQueue := SocketQueue(q.index + 1, q.header[..q.index] + [c], q.data);
        }
      }
    }

    /** One header byte, kept earlier or new. */
    method Getch(s: int, ghost k: nat) returns (r: Read<byte>)
      requires Reading(s, k) && Wanting(Held(s).header[..k])
      modifies this`queues, this`defSocket, this`defQueue, this`received, this`last
      ensures OnlyFrom(s)
      ensures r.Complete? ==> Reading(s, k + 1) && Held(s).header[..k + 1] == old(Held(s).header[..k]) + [r.value]
      ensures r.Interrupted? ==> Ready() && last.WouldBlock?
      ensures r.SocketError? ==> Broken(s) && last.Failed?
    {
      ghost var header := Held(s).header;
      if k < |header| { TakeOne(header, k); } else { TakeAll(header); }
      var queued := GetQueuedChar(s, k);
      match queued {
        case Char(c) =>
          r := Complete(c);
        case HeaderFull =>
          r := SocketError;
        case NoChar =>
          WantingIsShort(header);
          r := ReadByte(s, k);
          if r.Complete? { TakeAll(Held(s).header); }
      }
    }

    /** One header byte that was not kept. */
    method ReadByte(s: int, ghost k: nat) returns (r: Read<byte>)
      requires Reading(s, k) && k == |Held(s).header| <= 4 && Wanting(Held(s).header)
      modifies this`queues, this`defSocket, this`defQueue, this`received, this`last
      ensures OnlyFrom(s)
      ensures r.Complete? ==>
                Reading(s, k + 1) && |Held(s).header| == k + 1 && Held(s).header == old(Held(s).header) + [r.value]
      ensures r.Interrupted? ==> Ready() && last.WouldBlock?
      ensures r.SocketError? ==> Broken(s) && last.Failed?
    {
      WantingIsPartial(Held(s));
      var got := Recv(s, 1);
      match got {
        case WouldBlock =>
          Interrupt(s, []);
          r := Interrupted;
        case Failed =>
          r := SocketError;
        case Got(bytes) =>
          assert bytes == [bytes[0]];
          AccountedGrows(Held(s).Bytes(), bytes, old(Of(received, s)), Of(done, s), Of(delivered, s));
          TakeByte(s, bytes[0], k);
          r := Complete(bytes[0]);
      }
    }

    /** Puts a byte just received behind the header held. */
    method TakeByte(s: int, c: byte, ghost k: nat)
      requires Alone(s) && Proper(Held(s)) && Held(s).index == k == |Held(s).header| <= 4 && Wanting(Held(s).header)
      requires Accounted(Held(s).Bytes() + [c], Of(received, s), Of(done, s), Of(delivered, s))
      requires s !in queues ==> Held(s).data == []
      modifies this`queues, this`defSocket, this`defQueue
      ensures Reading(s, k + 1) && |Held(s).header| == k + 1
      ensures Held(s).header == old(Held(s).header) + [c]
    {
      ghost var q := Held(s);
      HeaderGrows(q, c, k + 1);
      assert q.Bytes() + [c] == SocketQueue(k + 1, q.header + [c], []).Bytes();
      assert q.header[..q.index] == q.header;
      QueueChar(s, c);
      assert Held(s) == SocketQueue(k + 1, q.header + [c], []);
    }

    /**
     The remaining length, digit by digit. A fifth digit is refused before it is read.
     */
    method DecodeLength(s: int, ghost first: byte) returns (r: Read<nat>)
      requires Reading(s, 1) && Held(s).header[0] == first
      modifies this`queues, this`defSocket, this`defQueue, this`received, this`last
      ensures OnlyFrom(s)
      ensures r.Complete? ==>
                && Reading(s, |Held(s).header|) && Announces(Held(s).header, r.value) && Held(s).header[0] == first
      ensures r.Interrupted? ==> Ready() && last.WouldBlock?
      ensures r.SocketError? ==> Broken(s) && (last.Failed? || Frame(Held(s).Bytes()).Broken?)
    {
      hide Sound, Proper, Accounted, Announces, DigitsRead;
      NoDigits(Held(s).header[..1]);
      var value, multiplier, len := 0, 1, 0;
      var more := true;
      while more
        invariant 0 <= len <= 4 && (!more ==> len > 0)
        invariant Reading(s, len + 1) && OnlyFrom(s)
        invariant DigitsRead(Held(s).header[..len + 1], more, value, multiplier) && Held(s).header[0] == first
        decreases more, 4 - len
      {
        len := len + 1;
        var got := GetDigit(s, len, value, multiplier, first);
        match got {
          case Interrupted =>
            return Interrupted;
          case SocketError =>
            return SocketError;
          case Complete(c) =>
            value := value + c % 128 * multiplier;
            multiplier := multiplier * 128;
            more := c >= 128;
        }
      }
      HeaderEnds(Held(s), len + 1, value, multiplier);
      r := Complete(value);
    }

    /** Digit number len; the fifth is refused before it is read. */
    method GetDigit(s: int, len: nat, ghost value: int, ghost multiplier: int, ghost first: byte)
      returns (r: Read<byte>)
      requires Reading(s, len) && 0 < len <= 5 && Held(s).header[0] == first
      requires DigitsRead(Held(s).header[..len], true, value, multiplier)
      modifies this`queues, this`defSocket, this`defQueue, this`received, this`last
      ensures OnlyFrom(s)
      ensures r.Complete? ==>
                && len <= MAX_LENGTH_BYTES && Reading(s, len + 1) && Held(s).header[0] == first
                && DigitsRead(Held(s).header[..len + 1], r.value >= 128, value + r.value % 128 * multiplier, multiplier * 128)
      ensures r.Interrupted? ==> Ready() && last.WouldBlock?
      ensures r.SocketError? ==> Broken(s) && (last.Failed? || Frame(Held(s).Bytes()).Broken?)
    {
      ghost var before := Held(s).header[..len];
      WantsDigit(Held(s), len, value, multiplier);
      if len > MAX_LENGTH_BYTES {
        return SocketError;
      }
      r := Getch(s, len);
      if r.Complete? {
        OneMoreDigit(before, r.value, value, multiplier);
        assert Held(s).header[0] == Held(s).header[..len + 1][0] == (before + [r.value])[0];
      }
    }

    /** The rest of a packet, as far as it has come in. */
    method GetData(s: int, n: nat) returns (r: Read<seq<byte>>)
      requires Reading(s, |Held(s).header|) && Announces(Held(s).header, n)
      modifies this`queues, this`defSocket, this`defQueue, this`received, this`last
      ensures OnlyFrom(s)
      ensures r.Complete? ==>
                && Clean() && 0 !in queues && s !in queues && OthersSound(s) && |r.value| == n
                && Accounted(old(Held(s).header) + r.value, Of(received, s), Of(done, s), Of(delivered, s))
      ensures r.Interrupted? ==> Ready() && !last.Failed?
      ensures r.SocketError? ==> Broken(s) && last.Failed?
    {
      if n == 0 {
        Finish(s);
        return Complete([]);
      }
      r := ReadBody(s, n);
    }

    method ReadBody(s: int, n: nat) returns (r: Read<seq<byte>>)
      requires Reading(s, |Held(s).header|) && Announces(Held(s).header, n) && n > 0
      modifies this`queues, this`defSocket, this`defQueue, this`received, this`last
      ensures OnlyFrom(s)
      ensures r.Complete? ==>
                && Clean() && 0 !in queues && s !in queues && OthersSound(s) && |r.value| == n
                && Accounted(old(Held(s).header) + r.value, Of(received, s), Of(done, s), Of(delivered, s))
      ensures r.Interrupted? ==> Ready() && !last.Failed?
      ensures r.SocketError? ==> Broken(s) && last.Failed?
    {
      var data := if s in queues then queues[s].data else [];
      BodyIsPartial(Held(s), n);
      hide Sound, Proper, Announces, Frame, Accounted, Wanting, Consumed, Packets;
      var got, more := MoreData(s, n - |data|, data);
      if got {
        r := TakeData(s, n, more);
      } else {
        r := SocketError;
      }
    }

    /** What was kept of the body and what recv adds to it; false when the socket has failed. */
    method MoreData(s: int, most: nat, data: seq<byte>) returns (ok: bool, all: seq<byte>)
      requires Alone(s) && HeldAccounted(s) && Held(s).data == data && most > 0
      modifies this`received, this`last
      ensures OnlyFrom(s) && OthersSound(s)
      ensures ok == !last.Failed?
      ensures ok ==> |all| <= |data| + most
      ensures ok ==> Accounted(Held(s).header + all, Of(received, s), Of(done, s), Of(delivered, s))
      ensures !ok ==> HeldAccounted(s)
    {
      ghost var header := Held(s).header;
      assert Held(s).Bytes() == header + data;
      hide Of, At, Sound, Accounted, Proper, Consumed, Packets;
      var got := Recv(s, most);
      ok := !got.Failed?;
      var more := if got.Got? then got.bytes else [];
      all := data + more;
      if ok {
        AccountedGrows(header + data, more, old(Of(received, s)), Of(done, s), Of(delivered, s));
        BodyGrows(header, data, more);
        assert Of(received, s) == old(Of(received, s)) + more;
      }
    }

    method TakeData(s: int, n: nat, data: seq<byte>) returns (r: Read<seq<byte>>)
      requires Alone(s) && Proper(Held(s)) && Announces(Held(s).header, n) && |data| <= n
      requires Accounted(Held(s).header + data, Of(received, s), Of(done, s), Of(delivered, s))
      modifies this`queues, this`defSocket, this`defQueue
      ensures !r.SocketError?
      ensures r.Complete? ==>
                && Clean() && 0 !in queues && s !in queues && OthersSound(s) && |data| == n && r.value == data
      ensures r.Interrupted? ==> Ready()
    {
      if |data| == n {
        Finish(s);
        r := Complete(data);
      } else {
        FrameParts(Held(s).header, n, data);
        Interrupt(s, data);
        r := Interrupted;
      }
    }

    lemma Start(s: int)
      requires Ready() && s != 0
      ensures Reading(s, 0) && Wanting(Held(s).header[..0])
    {
    }

    /** The first byte of a packet and its remaining length. */
    method ReadHeader(s: int) returns (r: Read<(byte, nat)>)
      requires Ready() && s != 0
      modifies this`queues, this`defSocket, this`defQueue, this`received, this`last
      ensures OnlyFrom(s)
      ensures r.Complete? ==>
                && Reading(s, |Held(s).header|) && Announces(Held(s).header, r.value.1)
                && Held(s).header != [] && Held(s).header[0] == r.value.0
      ensures r.Interrupted? ==> Ready() && !last.Failed?
      ensures r.SocketError? ==> Broken(s) && (last.Failed? || Frame(Held(s).Bytes()).Broken?)
    {
      Start(s);
      hide Of, At, Sound, Proper, Accounted, Announces, Frame, Wanting, Consumed, Packets;
      var first := Getch(s, 0);
      match first {
        case Interrupted => return Interrupted;
        case SocketError => return SocketError;
        case Complete(c) =>
          assert Held(s).header[0] == Held(s).header[..1][0];
          var length := DecodeLength(s, c);
          match length {
            case Interrupted => return Interrupted;
            case SocketError => return SocketError;
            case Complete(n) => return Complete((c, n));
          }
      }
    }

    ghost method Deliver(s: int, header: seq<byte>, data: seq<byte>)
      requires Clean() && 0 !in queues && s !in queues && OthersSound(s) && Announces(header, |data|)
      requires Accounted(header + data, Of(received, s), Of(done, s), Of(delivered, s))
      modifies this`done, this`delivered
      ensures Ready()
      ensures delivered == old(delivered)[s := old(Of(delivered, s)) + [Packet(header[0], data)]]
    {
      OnePacket(header, |data|, data, Of(received, s), Of(done, s), Of(delivered, s));
      done := done[s := Of(received, s)];
      delivered := delivered[s := Of(delivered, s) + [Packet(header[0], data)]];
      assert Resumable(EMPTY) && EMPTY.Bytes() == [];
    }

    /**
     Reads one packet, or as much of it as has come in. A packet is delivered when its last byte is received;
     no other call, and no other socket, sees its bytes.
     */
    method Factory(s: int) returns (r: Read<Packet>)
      requires Ready() && s != 0
      modifies this
      ensures r.Complete? ==> Ready() && delivered == old(delivered)[s := old(Of(delivered, s)) + [r.value]]
      ensures !r.Complete? ==> delivered == old(delivered)
      ensures r.Interrupted? ==> Ready() && !last.Failed?
      ensures r.SocketError? ==> Broken(s) && (last.Failed? || Frame(Held(s).Bytes()).Broken?)
      ensures OnlyFrom(s)
    {
      hide Of, At, Sound, Proper, Accounted, Announces, Frame, Wanting, Consumed, Packets;
      var start := ReadHeader(s);
      match start {
        case Interrupted => return Interrupted;
        case SocketError => return SocketError;
        case Complete(_) =>
      }
      var (first, length) := start.value;
      ghost var header := Held(s).header;
      var body := GetData(s, length);
      match body {
        case Interrupted => r := Interrupted;
        case SocketError => r := SocketError;
        case Complete(data) =>
          r := Complete(Packet(first, data));
          Deliver(s, header, data);
      }
    }

    /** The socket has been closed: nothing of it is kept. */
    method Cleanup(s: int)
      requires s != 0 && (Ready() || Broken(s))
      modifies this
      ensures Ready()
      ensures queues == old(queues) - {s}
      ensures received == old(received) - {s} && delivered == old(delivered) - {s}
    {
      hide Sound;
      NothingIsSound();
      queues := queues - {s};
      if defSocket == s {
        defSocket, defQueue := 0, EMPTY;
      }
      received, done, delivered := received - {s}, done - {s}, delivered - {s};
    }

    /**
     Whatever the reads returned and however the calls were interleaved, the packets delivered from each
     socket are those of parsing everything received from it at once, and what is kept is the rest.
     */
    lemma OneUninterruptedStream(t: int)
      requires Ready()
      ensures Of(delivered, t) == Packets(Of(received, t))
      ensures Of(received, t)[Consumed(Of(received, t))..] == At(queues, t).Bytes()
      ensures At(queues, t).index <= |At(queues, t).header| <= 5
    {
      DeliveredIsParsed(At(queues, t).Bytes(), Of(received, t), Of(done, t), Of(delivered, t));
      HeaderLength(At(queues, t));
    }

    /** The same when socket s has failed, for s as well. */
    lemma NoPacketIsLost(s: int)
      requires Broken(s)
      ensures Of(delivered, s) == Packets(Of(received, s))
    {
      DeliveredIsParsed(Held(s).Bytes(), Of(received, s), Of(done, s), Of(delivered, s));
    }
  }

  ghost predicate AllMore(digits: seq<byte>) {
    forall i :: 0 <= i < |digits| ==> digits[i] >= 128
  }

  /** What the length loop has in hand after the header bytes `header`. */
  ghost predicate DigitsRead(header: seq<byte>, more: bool, value: int, multiplier: int) {
    && header != []
    && value == Digits(header[1..]) && multiplier == Pow128(|header| - 1)
    && if more then AllMore(header[1..])
       else Decode(header[1..], MAX_LENGTH_BYTES) == Value(value, |header| - 1)
  }

  lemma NoDigits(header: seq<byte>)
    requires |header| == 1
    ensures DigitsRead(header, true, 0, 1)
  {
  }

  /** Either another digit is wanted, or four digits that all ask for another do not begin a packet. */
  lemma WantsDigit(q: SocketQueue, k: nat, value: int, multiplier: int)
    requires Proper(q) && 0 < k <= |q.header| && k <= 5
    requires DigitsRead(q.header[..k], true, value, multiplier)
    ensures if k < 5 then Wanting(q.header[..k]) else Frame(q.Bytes()) == Broken
  {
    var digits := q.header[..k][1..];
    if k < 5 {
      DecodeAllMore(digits, MAX_LENGTH_BYTES);
    } else {
      HeaderLength(q);
      assert q.header[..k] == q.header;
      TooLong(digits);
      DecodePrefix(digits, q.data, MAX_LENGTH_BYTES);
      assert q.Bytes()[1..] == digits + q.data;
    }
  }

  lemma TooLong(digits: seq<byte>)
    requires |digits| == MAX_LENGTH_BYTES && AllMore(digits)
    ensures Decode(digits, MAX_LENGTH_BYTES) == Bad
  {
    var three := digits[..3];
    assert digits == three + [digits[3]];
    DecodeAllMore(three, MAX_LENGTH_BYTES);
    DecodeDigits(three, digits[3], MAX_LENGTH_BYTES);
  }

  lemma OneMoreDigit(before: seq<byte>, c: byte, value: int, multiplier: int)
    requires DigitsRead(before, true, value, multiplier) && |before| <= MAX_LENGTH_BYTES
    ensures DigitsRead(before + [c], c >= 128, value + c % 128 * multiplier, multiplier * 128)
  {
    var after := before + [c];
    assert after[1..] == before[1..] + [c];
    DigitsAppend(before[1..], c);
    DecodeAllMore(before[1..], MAX_LENGTH_BYTES);
    DecodeDigits(before[1..], c, MAX_LENGTH_BYTES);
  }

  /** The header stops where its length does. */
  lemma HeaderEnds(q: SocketQueue, k: nat, value: int, multiplier: int)
    requires Proper(q) && 0 < k <= |q.header| && DigitsRead(q.header[..k], false, value, multiplier)
    ensures k == |q.header| && value >= 0 && Announces(q.header, value)
  {
    assert k < |q.header| ==> Wanting(q.header[..k]);
    TakeAll(q.header);
  }

  lemma TakeOne(s: seq<byte>, k: nat)
    requires k < |s|
    ensures s[..k + 1] == s[..k] + [s[k]]
  {
  }

  lemma TakeAll(s: seq<byte>)
    ensures s[..|s|] == s
  {
  }
}
