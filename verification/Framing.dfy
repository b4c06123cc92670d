/**
 Bytes, variable byte integers and the framing of MQTT packets (MQTT 5.0 sections 1.5.5 and 2.1).
 */
module Framing {

  type byte = x: int | 0 <= x < 256 witness 0

  const MAX_LENGTH_BYTES := 4
  const MAX_REMAINING := 268435455

  // ----- variable byte integers

  /** The encoding, low digit first. */
  function Encode(n: nat): (r: seq<byte>)
    ensures |r| > 0
  {
    if n < 128 then [n] else [n % 128 + 128] + Encode(n / 128)
  }

  datatype Decoded = More | Bad | Value(value: nat, used: nat)

  /** The value at the front of s; `left` digits may still be read. */
  function Decode(s: seq<byte>, left: nat): Decoded {
    if left == 0 then Bad
    else if s == [] then More
    else if s[0] < 128 then Value(s[0], 1)
    else
      match Decode(s[1..], left - 1)
      case Value(v, u) => Value(s[0] % 128 + 128 * v, u + 1)
      case d => d
  }

  function Pow128(k: nat): (p: nat)
    ensures p > 0
  {
    if k == 0 then 1 else 128 * Pow128(k - 1)
  }

  /** Decoding undoes encoding, and leaves alone what follows. */
  lemma {:induction false} DecodeEncode(n: nat, rest: seq<byte>, left: nat)
    requires 0 < left && n < Pow128(left)
    ensures Decode(Encode(n) + rest, left) == Value(n, |Encode(n)|) && |Encode(n)| <= left
  {
    var e := Encode(n);
    if n < 128 {
      assert (e + rest)[0] == n;
    } else {
      assert left > 1 && n / 128 < Pow128(left - 1);
      assert e + rest == [n % 128 + 128] + (Encode(n / 128) + rest);
      assert (e + rest)[1..] == Encode(n / 128) + rest;
      DecodeEncode(n / 128, rest, left - 1);
    }
  }

  /** A decoded value depends only on the bytes used. */
  lemma {:induction false} DecodePrefix(s: seq<byte>, t: seq<byte>, left: nat)
    requires !Decode(s, left).More?
    ensures Decode(s + t, left) == Decode(s, left)
    ensures Decode(s, left).Value? ==> 0 < Decode(s, left).used <= |s|
  {
    if left != 0 && s[0] >= 128 {
      assert (s + t)[1..] == s[1..] + t;
      DecodePrefix(s[1..], t, left - 1);
    }
  }

  lemma {:induction false} DecodeMore(s: seq<byte>, left: nat)
    requires Decode(s, left).More?
    ensures |s| < left && forall i :: 0 <= i < |s| ==> s[i] >= 128
  {
    if s != [] {
      DecodeMore(s[1..], left - 1);
      forall i | 0 <= i < |s| ensures s[i] >= 128 {
        if i > 0 { assert s[i] == s[1..][i - 1]; }
      }
    }
  }

  lemma {:induction false} DecodeAllMore(s: seq<byte>, left: nat)
    requires |s| < left && forall i :: 0 <= i < |s| ==> s[i] >= 128
    ensures Decode(s, left).More?
  {
    if s != [] {
      assert forall i :: 0 <= i < |s[1..]| ==> s[1..][i] == s[i + 1];
      DecodeAllMore(s[1..], left - 1);
    }
  }

  // ----- one digit after the other, as the loops do it

  /** The value of digits read so far, low digit first. */
  function Digits(s: seq<byte>): nat {
    if s == [] then 0 else s[0] % 128 + 128 * Digits(s[1..])
  }

  lemma {:induction false} DigitsAppend(s: seq<byte>, c: byte)
    ensures Digits(s + [c]) == Digits(s) + c % 128 * Pow128(|s|)
  {
    if s == [] {
      assert s + [c] == [c];
      assert [c][1..] == [];
    } else {
      assert (s + [c])[1..] == s[1..] + [c];
      DigitsAppend(s[1..], c);
      var a, b, p := Digits(s[1..]), c % 128, Pow128(|s| - 1);
      assert 128 * (a + b * p) == 128 * a + b * (128 * p);
    }
  }

  /** When a digit without the top bit ends the run, that is what Decode reads. */
  lemma {:induction false} DecodeDigits(s: seq<byte>, c: byte, left: nat)
    requires Decode(s, left).More?
    ensures Decode(s + [c], left) ==
            if c < 128 then Value(Digits(s + [c]), |s| + 1) else if |s| + 1 == left then Bad else More
  {
    if s == [] {
      assert s + [c] == [c] && [c][1..] == [];
    } else {
      assert (s + [c])[1..] == s[1..] + [c];
      DecodeDigits(s[1..], c, left - 1);
    }
  }

  // ----- packets

  /** A packet: its first byte and what follows the remaining length. */
  datatype Packet = Packet(first: byte, body: seq<byte>)

  datatype Framed = Partial | Broken | Whole(packet: Packet, size: nat)

  /** The packet at the front of a stream. */
  function Frame(s: seq<byte>): Framed {
    if s == [] then Partial
    else
      match Decode(s[1..], MAX_LENGTH_BYTES)
      case More => Partial
      case Bad => Broken
      case Value(n, used) =>
        if |s| < 1 + used + n then Partial
        else Whole(Packet(s[0], s[1 + used..1 + used + n]), 1 + used + n)
  }

  lemma FrameSize(s: seq<byte>)
    ensures Frame(s).Whole? ==> 2 <= Frame(s).size <= |s|
  {
    if s != [] && Decode(s[1..], MAX_LENGTH_BYTES).Value? {
      DecodePrefix(s[1..], [], MAX_LENGTH_BYTES);
    }
  }

  /** All whole packets at the front of a stream. */
  function Packets(s: seq<byte>): seq<Packet>
    decreases |s|
  {
    FrameSize(s);
    var f := Frame(s);
    if f.Whole? then [f.packet] + Packets(s[f.size..]) else []
  }

  /** How many bytes they take up. */
  function Consumed(s: seq<byte>): (n: nat)
    ensures n <= |s|
    decreases |s|
  {
    FrameSize(s);
    var f := Frame(s);
    if f.Whole? then f.size + Consumed(s[f.size..]) else 0
  }

  /** More bytes do not change a packet that is whole. */
  lemma FramePrefix(s: seq<byte>, t: seq<byte>)
    requires Frame(s).Whole?
    ensures Frame(s + t) == Frame(s)
  {
    DecodePrefix(s[1..], t, MAX_LENGTH_BYTES);
    FrameSize(s);
    assert (s + t)[1..] == s[1..] + t;
    var d := Decode(s[1..], MAX_LENGTH_BYTES);
    assert (s + t)[1 + d.used..1 + d.used + d.value] == s[1 + d.used..1 + d.used + d.value];
  }

  /** A stream cut anywhere: the packets of a fully consumed front, then those of the rest. */
  lemma {:induction false} PacketsJoin(s: seq<byte>, t: seq<byte>)
    requires Consumed(s) == |s|
    ensures Packets(s + t) == Packets(s) + Packets(t)
    decreases |s|
  {
    FrameSize(s);
    if Frame(s).Whole? {
      var n := Frame(s).size;
      FramePrefix(s, t);
      assert (s + t)[n..] == s[n..] + t;
      PacketsJoin(s[n..], t);
    } else {
      assert s == [] && s + t == t;
    }
  }

  lemma {:induction false} ConsumedJoin(s: seq<byte>, t: seq<byte>)
    requires Consumed(s) == |s|
    ensures Consumed(s + t) == |s| + Consumed(t)
    decreases |s|
  {
    FrameSize(s);
    if Frame(s).Whole? {
      var n := Frame(s).size;
      FramePrefix(s, t);
      assert (s + t)[n..] == s[n..] + t;
      ConsumedJoin(s[n..], t);
    } else {
      assert s == [] && s + t == t;
    }
  }

  /** A longer stream has the same packets first. */
  lemma {:induction false} PacketsMonotone(s: seq<byte>, t: seq<byte>)
    ensures Packets(s) <= Packets(s + t)
    decreases |s|
  {
    FrameSize(s);
    if Frame(s).Whole? {
      var n := Frame(s).size;
      FramePrefix(s, t);
      assert (s + t)[n..] == s[n..] + t;
      PacketsMonotone(s[n..], t);
    }
  }

  /** The bytes of exactly one packet. */
  predicate OnePacketLong(s: seq<byte>) {
    Frame(s).Whole? && Frame(s).size == |s|
  }

  /** A packet cut short is not a packet. */
  lemma CutShort(s: seq<byte>, n: nat)
    requires OnePacketLong(s) && n < |s|
    ensures !Frame(s[..n]).Whole?
  {
    assert s == s[..n] + s[n..];
    FrameSize(s[..n]);
    if Frame(s[..n]).Whole? { FramePrefix(s[..n], s[n..]); }
  }

  /** An encoded remaining length between the first byte and the body makes one packet. */
  lemma MadeOfParts(first: byte, body: seq<byte>)
    requires |body| <= MAX_REMAINING
    ensures OnePacketLong([first] + Encode(|body|) + body)
    ensures Frame([first] + Encode(|body|) + body).packet == Packet(first, body)
  {
    var e := Encode(|body|);
    assert Pow128(4) == MAX_REMAINING + 1 by {
      assert Pow128(2) == 128 * 128 && Pow128(3) == 128 * 128 * 128;
    }
    DecodeEncode(|body|, body, MAX_LENGTH_BYTES);
    PartsOfPacket(first, e, body);
  }

  lemma PartsOfPacket(first: byte, length: seq<byte>, body: seq<byte>)
    requires Decode(length + body, MAX_LENGTH_BYTES) == Value(|body|, |length|)
    ensures Frame([first] + length + body) == Whole(Packet(first, body), 1 + |length| + |body|)
  {
    hide Decode;
    SplitInThree(first, length, body);
  }

  lemma SplitInThree(first: byte, length: seq<byte>, body: seq<byte>)
    ensures var s := [first] + length + body;
            && s[0] == first && s[1..] == length + body
            && s[1 + |length|..1 + |length| + |body|] == body
  {
    assert ([first] + length + body)[1..] == length + body;
  }
}
