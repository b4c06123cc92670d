/**
 The data types of MQTT packets (MQTT 5.0 section 1.5): what MQTTPacket.c writes through a moving pointer and
 reads back through one.
 */
module PacketData {
  import opened Framing

  // ----- the types

  const MAX_INT2 := 65535
  const TWO31 := 0x8000_0000
  const TWO32 := 0x1_0000_0000

  function Int2(n: nat): (s: seq<byte>)
    requires n <= MAX_INT2
    ensures |s| == 2
  {
    [n / 256, n % 256]
  }

  function Int4(n: nat): (s: seq<byte>)
    requires n < TWO32
    ensures |s| == 4
  {
    [n / 0x100_0000, n / 0x1_0000 % 256, n / 256 % 256, n % 256]
  }

  /** A string or binary data behind its length. */
  function Utf(s: seq<byte>): (r: seq<byte>)
    requires |s| <= MAX_INT2
    ensures |r| == 2 + |s|
  {
    Int2(|s|) + s
  }

  function ToInt2(a: int, b: int): int {
    256 * a + b
  }

  function ToInt4(a: int, b: int, c: int, d: int): int {
    16777216 * a + 65536 * b + 256 * c + d
  }

  // ----- C arithmetic

  /** Division that cuts towards zero, and its remainder. */
  function CDiv(a: int, b: int): int
    requires b > 0
  {
    if a >= 0 then a / b else -(-a / b)
  }

  function CMod(a: int, b: int): int
    requires b > 0
  {
    a - b * CDiv(a, b)
  }

  /** A value stored in a char. */
  function Char(a: int): byte {
    a % 256
  }

  /** An unsigned number as the int that has its bits. */
  function AsInt(n: nat): int
    requires n < TWO32
  {
    if n < TWO31 then n else n - TWO32
  }

  /** What writeInt4 stores for an int. */
  function StoredInt4(a: int): seq<byte> {
    [Char(CDiv(a, 0x100_0000)), Char(CDiv(CMod(a, 0x100_0000), 0x1_0000)),
     Char(CDiv(CMod(CMod(a, 0x100_0000), 0x1_0000), 256)), Char(CMod(CMod(CMod(a, 0x100_0000), 0x1_0000), 256))]
  }

  /** The four digits of a number to the base 256. */
  lemma FourBytes(n: nat) returns (a: nat, b: nat, c: nat, d: nat)
    requires n < TWO32
    ensures a < 256 && b < 256 && c < 256 && d < 256 && n == ToInt4(a, b, c, d) && Int4(n) == [a, b, c, d]
  {
    var q1 := n / 256;
    var q2 := q1 / 256;
    a, b, c, d := q2 / 256, q2 % 256, q1 % 256, n % 256;
    ByteQuotients(n);
  }

  lemma ByteQuotients(n: nat)
    ensures n / 256 / 256 == n / 0x1_0000 && n / 256 / 256 / 256 == n / 0x100_0000
  {
  }

  lemma StoredSmall(n: nat)
    requires n < TWO31
    ensures StoredInt4(n) == Int4(n)
  {
    hide CDiv, CMod, Int4, Char;
    var a, b, c, d := FourBytes(n);
    var q := c * 256 + d;
    var r := b * 0x1_0000 + q;
    assert n == a * 0x100_0000 + r;
    TopByte(a, r);
    NextByte(b, q);
    LowBytes(c, d);
    CharIs(a);
    CharIs(b);
    CharIs(c);
    CharIs(d);
  }

  lemma CharIs(a: int)
    requires 0 <= a < 256
    ensures Char(a) == a
  {
  }

  lemma TopByte(a: nat, r: nat)
    requires r < 0x100_0000
    ensures CDiv(a * 0x100_0000 + r, 0x100_0000) == a && CMod(a * 0x100_0000 + r, 0x100_0000) == r
  {
  }

  lemma NextByte(b: nat, r: nat)
    requires r < 0x1_0000
    ensures CDiv(b * 0x1_0000 + r, 0x1_0000) == b && CMod(b * 0x1_0000 + r, 0x1_0000) == r
  {
  }

  lemma LowBytes(c: nat, d: nat)
    requires d < 256
    ensures CDiv(c * 256 + d, 256) == c && CMod(c * 256 + d, 256) == d
  {
  }

  /** A number above 2^31 - 1 is stored right only if its low three bytes are zero. */
  lemma StoredLarge(n: nat)
    requires TWO31 <= n < TWO32
    ensures StoredInt4(n - TWO32) == Int4(n) <==> n % 0x100_0000 == 0
  {
    hide StoredInt4, Int4, CDiv, CMod, Char;
    var q, r := ByTop(TWO32 - n);
    if r == 0 {
      StoredRound(q);
      TopAndRest(256 - q, 0);
    } else {
      StoredUneven(q, r);
      TopAndRest(255 - q, 0x100_0000 - r);
    }
  }

  lemma ByTop(m: nat) returns (q: nat, r: nat)
    requires 0 < m <= TWO31
    ensures m == q * 0x100_0000 + r && r < 0x100_0000 && q <= 128 && (q == 128 ==> r == 0) && (r == 0 ==> q > 0)
  {
    q, r := m / 0x100_0000, m % 0x100_0000;
  }

  lemma TopAndRest(a: nat, r: nat)
    requires r < 0x100_0000
    ensures (a * 0x100_0000 + r) % 0x100_0000 == r && (a * 0x100_0000 + r) / 0x100_0000 == a
  {
  }

  lemma StoredRound(q: int)
    requires 0 < q <= 128
    ensures StoredInt4(-(q * 0x100_0000)) == Int4((256 - q) * 0x100_0000)
  {
    RoundNumber(256 - q);
    StoredTop(q);
    hide Int4, StoredInt4;
  }

  lemma StoredTop(q: int)
    requires 0 < q <= 128
    ensures StoredInt4(-(q * 0x100_0000)) == [256 - q, 0, 0, 0]
  {
    hide CDiv, CMod, Char;
    var m: int := q * 0x100_0000;
    NegativeTop(q, 0);
    CharWraps(q);
    Zero();
    assert CDiv(-m, 0x100_0000) == -q && CMod(-m, 0x100_0000) == 0;
  }

  lemma Zero()
    ensures CDiv(0, 0x1_0000) == 0 && CMod(0, 0x1_0000) == 0 && CDiv(0, 256) == 0 && CMod(0, 256) == 0 && Char(0) == 0
  {
  }

  lemma CharWraps(q: int)
    requires 0 < q <= 128
    ensures Char(-q) == 256 - q
  {
  }

  lemma StoredUneven(q: int, r: int)
    requires 0 <= q < 128 && 0 < r < 0x100_0000
    ensures StoredInt4(-(q * 0x100_0000 + r)) != Int4((255 - q) * 0x100_0000 + (0x100_0000 - r))
  {
    NegativeTop(q, r);
    FirstByte(255 - q, 0x100_0000 - r);
    TopOf(255 - q);
    var m: int, n: nat := q * 0x100_0000 + r, (255 - q) * 0x100_0000 + (0x100_0000 - r);
    hide Int4, CMod, CDiv, Char;
    assert StoredInt4(-m)[0] == Char(-q);
    hide StoredInt4;
    assert Int4(n)[0] == 255 - q;
  }

  lemma FirstByte(a: nat, r: nat)
    requires a < 256 && r < 0x100_0000
    ensures a * 0x100_0000 + r < TWO32 && Int4(a * 0x100_0000 + r)[0] == a
  {
    TopAndRest(a, r);
  }

  lemma NegativeTop(q: int, r: int)
    requires 0 <= q && 0 <= r < 0x100_0000
    ensures var m: int := q * 0x100_0000 + r; CDiv(-m, 0x100_0000) == -q && CMod(-m, 0x100_0000) == -r
  {
    TopAndRest(q, r);
  }

  lemma TopOf(a: nat)
    requires 128 <= a < 256
    ensures Char(a - 255) != a
  {
  }

  lemma RoundNumber(a: nat)
    requires 128 <= a < 256
    ensures Int4(a * 0x100_0000) == [a, 0, 0, 0]
  {
    var n := a * 0x100_0000;
    TopAndRest(a, 0);
    MiddleBytes(a);
    assert n / 0x100_0000 == a && n / 0x1_0000 % 256 == 0 && n / 256 % 256 == 0 && n % 256 == 0;
  }

  lemma MiddleBytes(a: nat)
    ensures var n := a * 0x100_0000; n / 0x1_0000 == 256 * a && n / 256 == 0x1_0000 * a && n % 256 == 0
    ensures (256 * a) % 256 == 0 && (0x1_0000 * a) % 256 == 0
  {
  }

  lemma Int4IsStored(n: nat)
    requires n < TWO32
    ensures StoredInt4(AsInt(n)) == Int4(n) <==> n < TWO31 || n % 0x100_0000 == 0
  {
    if n < TWO31 { StoredSmall(n); } else { StoredLarge(n); }
    hide StoredInt4, Int4;
  }

  lemma Int4Value(n: nat)
    requires n < TWO32
    ensures var s := Int4(n); ToInt4(s[0], s[1], s[2], s[3]) == n
  {
    var a, b, c, d := FourBytes(n);
  }

  // ----- writing

  /** The bytes s have been put at pos, and nothing else in the buffer has changed. */
  twostate predicate Put(buf: array<byte>, pos: nat, s: seq<byte>, next: nat)
    reads buf
  {
    && next == pos + |s| <= buf.Length
    && buf[..next] == old(buf[..pos]) + s
    && buf[next..] == old(buf[next..])
  }

  method WriteChar(buf: array<byte>, pos: nat, c: byte) returns (next: nat)
    requires pos < buf.Length
    modifies buf
    ensures Put(buf, pos, [c], next)
  {
    buf[pos] := c;
    next := pos + 1;
  }

  method WriteInt(buf: array<byte>, pos: nat, n: nat) returns (next: nat)
    requires n <= MAX_INT2 && pos + 2 <= buf.Length
    modifies buf
    ensures Put(buf, pos, Int2(n), next)
  {
    buf[pos] := n / 256;
    buf[pos + 1] := n % 256;
    next := pos + 2;
  }

  /** writeInt4: right for numbers below 2^31. */
  method WriteInt4(buf: array<byte>, pos: nat, anInt: int) returns (next: nat)
    requires pos + 4 <= buf.Length
    modifies buf
    ensures Put(buf, pos, StoredInt4(anInt), next)
  {
    var a := anInt;
    buf[pos] := Char(CDiv(a, 0x100_0000));
    a := CMod(a, 0x100_0000);
    buf[pos + 1] := Char(CDiv(a, 0x1_0000));
    a := CMod(a, 0x1_0000);
    buf[pos + 2] := Char(CDiv(a, 256));
    buf[pos + 3] := Char(CMod(a, 256));
    next := pos + 4;
    hide Char, CDiv, CMod;
  }

  /** memcpy to the pointer, which moves on. */
  method WriteBytes(buf: array<byte>, pos: nat, s: seq<byte>) returns (next: nat)
    requires pos + |s| <= buf.Length
    modifies buf
    ensures Put(buf, pos, s, next)
  {
    var i := 0;
    while i < |s|
      invariant 0 <= i <= |s|
      invariant buf[..pos + i] == old(buf[..pos]) + s[..i]
      invariant buf[pos + i..] == old(buf[pos + i..])
    {
      buf[pos + i] := s[i];
      i := i + 1;
    }
    assert s[..i] == s;
    next := pos + |s|;
  }

  /** writeUTF, writeData and writeMQTTLenString. */
  method WriteUtf(buf: array<byte>, pos: nat, s: seq<byte>) returns (next: nat)
    requires |s| <= MAX_INT2 && pos + 2 + |s| <= buf.Length
    modifies buf
    ensures Put(buf, pos, Utf(s), next)
  {
    hide Int2;
    next := WriteInt(buf, pos, |s|);
    next := WriteBytes(buf, next, s);
  }

  /** MQTTPacket_encode. */
  method WriteVbi(buf: array<byte>, pos: nat, length: nat) returns (next: nat)
    requires pos + |Encode(length)| <= buf.Length
    modifies buf
    ensures Put(buf, pos, Encode(length), next)
  {
    hide Encode;
    var left := length;
    next := pos;
    var more := true;
    ghost var done: seq<byte> := [];
    while more
      invariant if more then done + Encode(left) == Encode(length) else done == Encode(length)
      invariant next == pos + |done| <= buf.Length
      invariant buf[..next] == old(buf[..pos]) + done
      invariant forall k :: next <= k < buf.Length ==> buf[k] == old(buf[k])
      decreases more, left
    {
      var d: byte := left % 128;
      ghost var was := left;
      left := left / 128;
      if left > 0 {
        d := d + 128;
      }
      more := left > 0;
      VbiStep(done, was, d, length);
      buf[next] := d;
      next := next + 1;
      done := done + [d];
    }
  }

  lemma VbiStep(done: seq<byte>, left: nat, d: byte, length: nat)
    requires done + Encode(left) == Encode(length)
    requires d == left % 128 + if left / 128 > 0 then 128 else 0
    ensures if left / 128 > 0 then done + [d] + Encode(left / 128) == Encode(length) else done + [d] == Encode(length)
    ensures |done| < |Encode(length)|
  {
    assert left / 128 > 0 ==> done + [d] + Encode(left / 128) == done + ([d] + Encode(left / 128));
  }

  /** The header byte and the remaining length in the first buffer (MQTTPacket_sends, MQTTPacket_send). */
  method FirstBuffer(header: byte, total: nat) returns (buf0: seq<byte>)
    ensures buf0 == [header] + Encode(total)
  {
    hide Encode;
    var buf0len := 1 + |Encode(total)|;
    var buf := new byte[buf0len];
    var ptr := WriteChar(buf, 0, header);
    ptr := WriteVbi(buf, ptr, total);
    buf0 := buf[..];
    assert buf0 == buf[..ptr];
  }

  /** MQTTPacket_VBIlen. */
  function VbiLen(n: int): int {
    if n < 128 then 1 else if n < 16384 then 2 else if n < 2097152 then 3 else 4
  }

  /** The number of bytes computed beforehand is the number written exactly up to the largest length allowed. */
  lemma VbiLenIsExact(n: nat)
    ensures |Encode(n)| == VbiLen(n) <==> n <= MAX_REMAINING
  {
    if n >= 128 {
      assert |Encode(n)| == 1 + |Encode(n / 128)|;
      if n >= 16384 {
        assert |Encode(n / 128)| == 1 + |Encode(n / 128 / 128)|;
        if n >= 2097152 {
          assert |Encode(n / 128 / 128)| == 1 + |Encode(n / 128 / 128 / 128)|;
        }
      }
    }
  }

  // ----- reading

  /** The bytes s lie at pos. */
  predicate Has(buf: seq<byte>, pos: nat, s: seq<byte>) {
    pos + |s| <= |buf| && buf[pos..pos + |s|] == s
  }

  lemma HasParts(buf: seq<byte>, pos: nat, a: seq<byte>, b: seq<byte>)
    ensures Has(buf, pos, a + b) <==> Has(buf, pos, a) && Has(buf, pos + |a|, b)
  {
    if pos + |a| + |b| <= |buf| {
      var all := buf[pos..pos + |a + b|];
      assert all == buf[pos..pos + |a|] + buf[pos + |a|..pos + |a| + |b|];
      assert all == a + b ==> all[..|a|] == a && all[|a|..] == b;
    }
  }

  method ReadInt(buf: seq<byte>, pos: nat) returns (n: nat, next: nat)
    requires pos + 2 <= |buf|
    ensures n <= MAX_INT2 && next == pos + 2 && Has(buf, pos, Int2(n))
  {
    n := ToInt2(buf[pos], buf[pos + 1]);
    next := pos + 2;
  }

  method ReadInt4(buf: seq<byte>, pos: nat) returns (n: nat, next: nat)
    requires pos + 4 <= |buf|
    ensures next == pos + 4
    ensures forall m: nat :: m < TWO32 && Has(buf, pos, Int4(m)) ==> n == m
  {
    n := ToInt4(buf[pos], buf[pos + 1], buf[pos + 2], buf[pos + 3]);
    next := pos + 4;
    forall m: nat | m < TWO32 && Has(buf, pos, Int4(m)) ensures n == m {
      Int4Value(m);
      assert buf[pos..pos + 4] == Int4(m);
    }
  }

  datatype Option<+T> = None | Some(value: T)

  /** readUTFlen and MQTTLenStringRead: nothing, if the length would lead beyond the end. */
  method ReadUtf(buf: seq<byte>, pos: nat, end: nat) returns (s: Option<seq<byte>>, next: nat)
    requires pos <= end <= |buf|
    ensures s.Some? ==> |s.value| <= MAX_INT2 && Has(buf, pos, Utf(s.value)) && next == pos + 2 + |s.value| <= end
    ensures s.None? ==> end - pos < 2 || pos + 2 + ToInt2(buf[pos], buf[pos + 1]) > end
  {
    s, next := None, pos;
    if end - pos > 1 {
      var len;
      len, next := ReadInt(buf, pos);
      if next + len <= end {
        s := Some(buf[next..next + len]);
        HasParts(buf, pos, Int2(len), s.value);
        next := next + len;
      }
    }
  }

  /** Two readings of a length-prefixed string at one place agree. */
  lemma UtfUnique(buf: seq<byte>, pos: nat, a: seq<byte>, b: seq<byte>)
    requires |a| <= MAX_INT2 && |b| <= MAX_INT2 && Has(buf, pos, Utf(a)) && Has(buf, pos, Utf(b))
    ensures a == b
  {
    HasParts(buf, pos, Int2(|a|), a);
    HasParts(buf, pos, Int2(|b|), b);
    Int2Unique(|a|, |b|, buf[pos..pos + 2]);
  }

  lemma Int2Unique(a: nat, b: nat, s: seq<byte>)
    requires a <= MAX_INT2 && b <= MAX_INT2 && Int2(a) == s == Int2(b)
    ensures a == b && ToInt2(s[0], s[1]) == a
  {
    assert s[0] == a / 256 == b / 256 && s[1] == a % 256 == b % 256;
  }

  /** MQTTPacket_decodeBuf, up to four bytes. */
  method ReadVbi(buf: seq<byte>, pos: nat) returns (value: nat, len: nat)
    requires pos <= |buf| && Decode(buf[pos..], MAX_LENGTH_BYTES).Value?
    ensures Decode(buf[pos..], MAX_LENGTH_BYTES) == Value(value, len)
  {
    value, len := 0, 0;
    var multiplier := 1;
    var more := true;
    ghost var s := buf[pos..];
    DecodePrefix(s, [], MAX_LENGTH_BYTES);
    while more
      invariant 0 <= len <= 4 && len <= |s| && (!more ==> len > 0)
      invariant multiplier == Pow128(len) && value == Digits(s[..len])
      invariant if more then Decode(s[..len], MAX_LENGTH_BYTES).More?
                else Decode(s[..len], MAX_LENGTH_BYTES) == Value(value, len)
      decreases more, 4 - len
    {
      StillMore(s, len);
      len := len + 1;
      var c: int := buf[pos + len - 1];
      VbiDigit(s, len - 1);
      value := value + c % 128 * multiplier;
      multiplier := multiplier * 128;
      more := c >= 128;
    }
    assert s == s[..len] + s[len..];
    DecodePrefix(s[..len], s[len..], MAX_LENGTH_BYTES);
  }

  lemma StillMore(s: seq<byte>, len: nat)
    requires Decode(s, MAX_LENGTH_BYTES).Value? && len <= |s| && Decode(s[..len], MAX_LENGTH_BYTES).More?
    ensures len < |s| && len < MAX_LENGTH_BYTES
  {
    DecodeMore(s[..len], MAX_LENGTH_BYTES);
    TakeAll(s);
  }

  lemma TakeAll(s: seq<byte>)
    ensures s[..|s|] == s
  {
  }

  lemma VbiDigit(s: seq<byte>, len: nat)
    requires len < |s| && len < MAX_LENGTH_BYTES && Decode(s[..len], MAX_LENGTH_BYTES).More?
    requires Decode(s, MAX_LENGTH_BYTES).Value?
    ensures Digits(s[..len + 1]) == Digits(s[..len]) + (s[len] as int) % 128 * Pow128(len)
    ensures s[len] >= 128 ==> Decode(s[..len + 1], MAX_LENGTH_BYTES).More?
    ensures s[len] < 128 ==> Decode(s[..len + 1], MAX_LENGTH_BYTES) == Value(Digits(s[..len + 1]), len + 1)
  {
    assert s[..len + 1] == s[..len] + [s[len]];
    DigitsAppend(s[..len], s[len]);
    DecodeDigits(s[..len], s[len], MAX_LENGTH_BYTES);
    assert s == s[..len + 1] + s[len + 1..];
    if !Decode(s[..len + 1], MAX_LENGTH_BYTES).More? {
      DecodePrefix(s[..len + 1], s[len + 1..], MAX_LENGTH_BYTES);
    }
  }

  /** A length that has been written is the one read. */
  lemma VbiAt(buf: seq<byte>, pos: nat, n: nat)
    requires n <= MAX_REMAINING && Has(buf, pos, Encode(n))
    ensures Decode(buf[pos..], MAX_LENGTH_BYTES) == Value(n, |Encode(n)|)
  {
    assert Pow128(4) == MAX_REMAINING + 1 by {
      assert Pow128(2) == 128 * 128 && Pow128(3) == 128 * 128 * 128;
    }
    var e := Encode(n);
    assert buf[pos..] == e + buf[pos + |e|..];
    DecodeEncode(n, buf[pos + |e|..], MAX_LENGTH_BYTES);
  }
}
