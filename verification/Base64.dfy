/**
 Base64 (RFC 4648 section 4) as the portable branch of Base64.c encodes and decodes it.
 */
module Base64 {
  import opened Framing

  // ----- the alphabet

  /** BASE64_ENCODE_TABLE, with '=' at index 64. */
  function Letter(i: int): byte
    requires 0 <= i <= 64
  {
    if i < 26 then 65 + i
    else if i < 52 then 71 + i
    else if i < 62 then i - 4
    else if i == 62 then 43
    else if i == 63 then 47
    else 61
  }

  const NV := 64

  /** BASE64_DECODE_TABLE: NV for anything that is not a letter of the alphabet. */
  function Index(b: byte): (i: int)
    ensures 0 <= i <= NV
  {
    if 65 <= b <= 90 then b - 65
    else if 97 <= b <= 122 then b - 71
    else if 48 <= b <= 57 then b + 4
    else if b == 43 then 62
    else if b == 47 then 63
    else NV
  }

  /** RFC 4648, table 1, with the character that fills up the last group. */
  const ALPHABET := "ABCDEFGHIJKLMNOPQRSTUVWXYZ" + "abcdefghijklmnopqrstuvwxyz" + "0123456789" + "+/" + "="

  /** The letters are those of the RFC in its order, and each of them but the last is looked up as its place. */
  lemma AlphabetIsStandard(i: int)
    requires 0 <= i <= 64
    ensures Letter(i) == ALPHABET[i] as int && Index(Letter(i)) == i
  {
    if i < 26 { TwoCases(i); } else if i < 52 { TwoCases(i - 26); }
    IndexOfLetter(i);
  }

  /** And nothing else is looked up as a letter. */
  lemma OnlyLettersAreFound(b: byte)
    ensures Index(b) < NV ==> Letter(Index(b)) == b
    ensures Index(b) == NV ==> forall i :: 0 <= i < NV ==> Letter(i) != b
  {
    if Index(b) == NV {
      forall i | 0 <= i < NV ensures Letter(i) != b {
        IndexOfLetter(i);
      }
    }
  }

  lemma TwoCases(i: nat)
    requires i < 26
    ensures "ABCDEFGHIJKLMNOPQRSTUVWXYZ"[i] as int == 65 + i && "abcdefghijklmnopqrstuvwxyz"[i] as int == 97 + i
  {
  }

  lemma IndexOfLetter(i: int)
    requires 0 <= i <= 64
    ensures Index(Letter(i)) == i
  {
  }

  // ----- the encoding

  /** Letter k of a group of three bytes read as one number of 24 bits. */
  function Sextet(a: byte, b: byte, c: byte, k: nat): (i: int)
    requires k < 4
    ensures 0 <= i < 64
  {
    var v := a * 65536 + b * 256 + c;
    if k == 0 then v / 262144 else if k == 1 then v / 4096 % 64 else if k == 2 then v / 64 % 64 else v % 64
  }

  /** Groups of three bytes, the last one filled up with zero bits and marked by '='. */
  function Encoded(s: seq<byte>): seq<byte> {
    if s == [] then []
    else if |s| == 1 then
      [Letter(Sextet(s[0], 0, 0, 0)), Letter(Sextet(s[0], 0, 0, 1)), Letter(64), Letter(64)]
    else if |s| == 2 then
      [Letter(Sextet(s[0], s[1], 0, 0)), Letter(Sextet(s[0], s[1], 0, 1)), Letter(Sextet(s[0], s[1], 0, 2)), Letter(64)]
    else
      [Letter(Sextet(s[0], s[1], s[2], 0)), Letter(Sextet(s[0], s[1], s[2], 1)),
       Letter(Sextet(s[0], s[1], s[2], 2)), Letter(Sextet(s[0], s[1], s[2], 3))] + Encoded(s[3..])
  }

  /** How the sextets lie in the bytes. */
  lemma SextetBits(a: byte, b: byte, c: byte)
    ensures Sextet(a, b, c, 0) == a / 4
    ensures Sextet(a, b, c, 1) == a % 4 * 16 + b / 16
    ensures Sextet(a, b, c, 2) == b % 16 * 4 + c / 64
    ensures Sextet(a, b, c, 3) == c % 64
  {
    var w, x, y, z := a / 4, a % 4 * 16 + b / 16, b % 16 * 4 + c / 64, c % 64;
    var v := a * 65536 + b * 256 + c;
    assert v == ((w * 64 + x) * 64 + y) * 64 + z;
    FourDigits(w, x, y, z);
    Quotients(v);
  }

  lemma FourDigits(w: int, x: int, y: int, z: int)
    requires 0 <= x < 64 && 0 <= y < 64 && 0 <= z < 64
    ensures var v := ((w * 64 + x) * 64 + y) * 64 + z;
            && v % 64 == z && v / 64 % 64 == y && v / 64 / 64 % 64 == x && v / 64 / 64 / 64 == w
  {
    Digit(w, x);
    Digit(w * 64 + x, y);
    Digit((w * 64 + x) * 64 + y, z);
  }

  lemma Digit(high: int, low: int)
    requires 0 <= low < 64
    ensures (high * 64 + low) / 64 == high && (high * 64 + low) % 64 == low
  {
  }

  lemma Quotients(v: int)
    ensures v / 64 / 64 == v / 4096 && v / 64 / 64 / 64 == v / 262144
  {
  }

  // ----- the decoding

  /** The first byte of a group: c[0] << 2 cut to a byte, or-ed with the top bits of c[1]. */
  function First(c0: int, c1: int): byte
    requires 0 <= c0 <= NV && 0 <= c1 <= NV
  {
    var high := c0 * 4 % 256;
    if c1 < NV then high + c1 / 16
    else if high / 4 % 2 == 1 then high
    else high + 4
  }

  function Second(c1: int, c2: int): byte
    requires 0 <= c1 <= NV && 0 <= c2 < NV
  {
    c1 % 16 * 16 + c2 / 4
  }

  function Third(c2: int, c3: int): byte
    requires 0 <= c2 < NV && 0 <= c3 < NV
  {
    c2 % 4 * 64 + c3
  }

  /** The three bytes are put together by shifting and or-ing, the first one even of what are no letters. */
  lemma FirstByBits(c0: int, c1: int, a: bv8, b: bv8)
    requires 0 <= c0 <= NV && 0 <= c1 <= NV && c0 == a as int && c1 == b as int
    ensures First(c0, c1) == ((a << 2) | (b >> 4)) as int
  {
    ShiftBy2(a, c0);
    ShiftRight(b, c1);
    if c1 < NV {
      Disjoint(a, b, c1);
      AddIsOr(a << 2, b >> 4);
    } else {
      Largest(b);
      LastBit(a << 2, c0 * 4 % 256);
    }
  }

  lemma SecondByBits(c1: int, c2: int, a: bv8, b: bv8)
    requires 0 <= c1 <= NV && 0 <= c2 < NV && c1 == a as int && c2 == b as int
    ensures Second(c1, c2) == ((a << 4) | (b >> 2)) as int
  {
    ShiftBy4(a, c1);
    ShiftRight(b, c2);
    Disjoint(a, b, c2);
    AddIsOr(a << 4, b >> 2);
  }

  lemma ThirdByBits(c2: int, c3: int, a: bv8, b: bv8)
    requires 0 <= c2 < NV && 0 <= c3 < NV && c2 == a as int && c3 == b as int
    ensures Third(c2, c3) == ((a << 6) | b) as int
  {
    ShiftBy6(a, c2);
    Disjoint(a, b, c3);
    AddIsOr(a << 6, b);
  }

  lemma ShiftBy2(a: bv8, n: int)
    requires n == a as int
    ensures (a << 2) as int == n * 4 % 256
  {
  }

  lemma ShiftBy4(a: bv8, n: int)
    requires n == a as int
    ensures (a << 4) as int == n % 16 * 16
  {
  }

  lemma ShiftBy6(a: bv8, n: int)
    requires n == a as int
    ensures (a << 6) as int == n % 4 * 64
  {
  }

  lemma ShiftRight(b: bv8, n: int)
    requires n == b as int
    ensures (b >> 4) as int == n / 16 && (b >> 2) as int == n / 4
  {
  }

  lemma Disjoint(a: bv8, b: bv8, n: int)
    requires n == b as int && n < NV
    ensures (a << 2) & (b >> 4) == 0 && (a << 4) & (b >> 2) == 0 && (a << 6) & b == 0
  {
    assert b < 64;
  }

  lemma Largest(b: bv8)
    requires b as int == NV
    ensures b >> 4 == 4
  {
    assert b == 64;
  }

  lemma AddIsOr(x: bv8, y: bv8)
    requires x & y == 0
    ensures (x | y) as int == x as int + y as int
  {
  }

  lemma LastBit(x: bv8, n: int)
    requires n == x as int
    ensures (x | 4) as int == if n / 4 % 2 == 1 then n else n + 4
  {
    if x & 4 == 0 { AddIsOr(x, 4); }
    BitTwo(x, n);
  }

  lemma BitTwo(x: bv8, n: int)
    requires n == x as int
    ensures (x & 4 == 0 || x | 4 == x) && (x & 4 == 0 <==> n / 4 % 2 == 0)
  {
  }

  /** The bytes of one group: the first one whatever its letters, the others up to a letter that is none. */
  function Group(c0: int, c1: int, c2: int, c3: int): (g: seq<byte>)
    requires 0 <= c0 <= NV && 0 <= c1 <= NV && 0 <= c2 <= NV && 0 <= c3 <= NV
    ensures 1 <= |g| <= 3
  {
    if c2 >= NV then [First(c0, c1)]
    else if c3 >= NV then [First(c0, c1), Second(c1, c2)]
    else [First(c0, c1), Second(c1, c2), Third(c2, c3)]
  }

  /** All groups of four, up to one that is cut short. */
  function Decoded(s: seq<byte>): seq<byte> {
    if |s| < 4 then []
    else
      var g := Group(Index(s[0]), Index(s[1]), Index(s[2]), Index(s[3]));
      if |g| < 3 then g else g + Decoded(s[4..])
  }

  // ----- round trip and lengths

  lemma {:induction false} RoundTrip(s: seq<byte>)
    ensures Decoded(Encoded(s)) == s
  {
    hide Letter, Sextet, Index, Group;
    if |s| >= 3 {
      GroupRoundTrip(s[0], s[1], s[2], 3);
      RoundTrip(s[3..]);
      assert Encoded(s)[4..] == Encoded(s[3..]);
      assert s == [s[0], s[1], s[2]] + s[3..];
    } else if |s| == 2 {
      GroupRoundTrip(s[0], s[1], 0, 2);
    } else if |s| == 1 {
      GroupRoundTrip(s[0], 0, 0, 1);
    }
  }

  /** One group of n bytes. */
  lemma GroupRoundTrip(a: byte, b: byte, c: byte, n: nat)
    requires 1 <= n <= 3 && (n < 3 ==> c == 0) && (n < 2 ==> b == 0)
    ensures Group(Index(Letter(Sextet(a, b, c, 0))), Index(Letter(Sextet(a, b, c, 1))),
                  Index(Letter(if n < 2 then 64 else Sextet(a, b, c, 2))),
                  Index(Letter(if n < 3 then 64 else Sextet(a, b, c, 3)))) == [a, b, c][..n]
  {
    hide Letter, Sextet, Index, First, Second, Third;
    SextetBits(a, b, c);
    IndexOfLetter(Sextet(a, b, c, 0));
    IndexOfLetter(Sextet(a, b, c, 1));
    IndexOfLetter(Sextet(a, b, c, 2));
    IndexOfLetter(Sextet(a, b, c, 3));
    IndexOfLetter(64);
    FirstIs(a, b);
    SecondIs(a % 4, b, c);
    ThirdIs(c, b);
  }

  lemma FirstIs(a: byte, b: byte)
    ensures First(a / 4, a % 4 * 16 + b / 16) == a
  {
    Digit16(a % 4, b / 16);
  }

  lemma SecondIs(high: int, b: byte, c: byte)
    requires 0 <= high < 4
    ensures Second(high * 16 + b / 16, b % 16 * 4 + c / 64) == b
  {
    Digit16(high, b / 16);
    assert (b % 16 * 4 + c / 64) / 4 == b % 16;
  }

  lemma ThirdIs(c: byte, b: byte)
    ensures Third(b % 16 * 4 + c / 64, c % 64) == c
  {
    assert (b % 16 * 4 + c / 64) % 4 == c / 64;
  }

  lemma Digit16(high: int, low: int)
    requires 0 <= low < 16
    ensures (high * 16 + low) / 16 == high && (high * 16 + low) % 16 == low
  {
  }

  const SIZE_LIMIT := 0x1_0000_0000

  /** Base64_encodeLength in 32-bit arithmetic. */
  function EncodeLength(n: int): int
    requires 0 <= n < SIZE_LIMIT
  {
    (4 * n % SIZE_LIMIT / 3 + 3) / 4 * 4
  }

  /** Base64_decodeLength. */
  function DecodeLength(s: seq<byte>): int {
    var pad := (if |s| > 1 && s[|s| - 2] == 61 then 1 else 0) + (if |s| > 0 && s[|s| - 1] == 61 then 1 else 0);
    |s| / 4 * 3 - pad
  }

  /** The same in 32-bit arithmetic. */
  function DecodeLength32(s: seq<byte>): int {
    DecodeLength(s) % SIZE_LIMIT
  }

  /** It wraps if and only if a text of fewer than four characters has a '=' at one of its last two places. */
  lemma DecodeLengthWraps(s: seq<byte>)
    requires |s| < SIZE_LIMIT
    ensures DecodeLength32(s) != DecodeLength(s) <==> |s| < 4 && 61 in (if |s| <= 2 then s else s[|s| - 2..])
  {
    var n := |s|;
    if n >= 2 { assert s[n - 2..] == [s[n - 2], s[n - 1]]; }
    if n == 1 { assert s == [s[0]]; }
    if n == 2 { assert s == [s[0], s[1]]; }
  }

  /** A text of whole groups, well formed or not, decodes to no more bytes than that. */
  lemma {:induction false} DecodedFits(s: seq<byte>)
    requires |s| % 4 == 0
    ensures |Decoded(s)| <= DecodeLength(s)
  {
    if |s| >= 4 {
      var rest := s[4..];
      DecodedFits(rest);
      if |s| > 4 {
        assert rest[|rest| - 1] == s[|s| - 1] && rest[|rest| - 2] == s[|s| - 2];
        assert DecodeLength(s) == DecodeLength(rest) + 3;
        RestIsNotNegative(rest);
      } else {
        assert Index(61) == NV;
        assert Decoded(s) == Group(Index(s[0]), Index(s[1]), Index(s[2]), Index(s[3])) + [];
      }
    }
  }

  lemma RestIsNotNegative(s: seq<byte>)
    requires |s| >= 4
    ensures DecodeLength(s) >= 1
  {
  }

  lemma {:induction false} EncodedSize(s: seq<byte>)
    ensures |Encoded(s)| == (|s| + 2) / 3 * 4
  {
    hide Letter, Sextet;
    if |s| >= 3 { EncodedSize(s[3..]); }
  }

  /** The length computed beforehand is the length produced exactly when four times the size does not wrap. */
  lemma EncodeLengthIsExact(s: seq<byte>)
    requires |s| < SIZE_LIMIT
    ensures EncodeLength(|s|) == |Encoded(s)| <==> 4 * |s| < SIZE_LIMIT
  {
    hide Encoded;
    EncodedSize(s);
    Sizes(|s|);
  }

  lemma Sizes(n: nat)
    requires n < SIZE_LIMIT
    ensures EncodeLength(n) == (n + 2) / 3 * 4 <==> 4 * n < SIZE_LIMIT
  {
    if 4 * n < SIZE_LIMIT { Fits(n); } else { Wraps(n); }
    hide EncodeLength;
  }

  lemma Fits(n: nat)
    requires 4 * n < SIZE_LIMIT
    ensures EncodeLength(n) == (n + 2) / 3 * 4
  {
    Thirds(n);
    assert 4 * n % SIZE_LIMIT == 4 * n;
  }

  lemma Thirds(n: nat)
    ensures (4 * n / 3 + 3) / 4 == (n + 2) / 3
  {
    var k, r := n / 3, n % 3;
    assert 4 * n == 3 * (4 * k) + 4 * r;
    assert 4 * n / 3 == 4 * k + r;
  }

  lemma Wraps(n: nat)
    requires SIZE_LIMIT <= 4 * n < 4 * SIZE_LIMIT
    ensures EncodeLength(n) < (n + 2) / 3 * 4
  {
    var w := 4 * n % SIZE_LIMIT;
    assert w <= SIZE_LIMIT - 4 by { assert w % 4 == 0; }
    assert (w / 3 + 3) / 4 * 4 <= 1431655764;
    assert (n + 2) / 3 >= 357913942;
  }

  lemma {:induction false} DecodeLengthIsExact(s: seq<byte>)
    ensures DecodeLength(Encoded(s)) == |s|
  {
    hide Sextet;
    var e := Encoded(s);
    EncodedSize(s);
    if |s| >= 3 {
      var rest := Encoded(s[3..]);
      DecodeLengthIsExact(s[3..]);
      EncodedSize(s[3..]);
      assert |e| == 4 + |rest|;
      if rest == [] {
        IndexOfLetter(Sextet(s[0], s[1], s[2], 2));
        IndexOfLetter(Sextet(s[0], s[1], s[2], 3));
        assert Index(61) == NV;
      } else {
        assert e[|e| - 1] == rest[|rest| - 1] && e[|e| - 2] == rest[|rest| - 2];
      }
    } else if |s| == 2 {
      IndexOfLetter(Sextet(s[0], s[1], 0, 2));
      assert Index(61) == NV;
    }
  }

  // ----- the two loops

  /** What one turn of the encoder makes of the bytes still to do. */
  function FirstGroup(s: seq<byte>): (g: seq<byte>)
    requires s != []
    ensures |g| == 4
  {
    Encoded(s)[..4]
  }

  function AfterGroup(s: seq<byte>): seq<byte> {
    if |s| >= 3 then s[3..] else []
  }

  lemma OneGroup(s: seq<byte>)
    requires s != []
    ensures Encoded(s) == FirstGroup(s) + Encoded(AfterGroup(s))
  {
    assert Encoded([]) == [];
  }

  /** The four table indexes of the next group, by the shifts and masks of the source. */
  method Indexes(input: seq<byte>, pos: nat) returns (c: seq<int>, next: nat)
    requires pos < |input|
    ensures |c| == 4 && (forall k :: 0 <= k < 4 ==> 0 <= c[k] <= 64)
    ensures seq(4, k requires 0 <= k < 4 => Letter(c[k])) == FirstGroup(input[pos..])
    ensures pos < next <= |input| && input[next..] == AfterGroup(input[pos..])
  {
    var i: int := input[pos];
    SextetBits(input[pos], if pos + 1 < |input| then input[pos + 1] else 0, if pos + 2 < |input| then input[pos + 2] else 0);
    var c0, c1, c2, c3 := i / 4, i % 4 * 16, 64, 64;
    next := pos + 1;
    if next < |input| {
      i := input[next];
      c1 := c1 + i / 16;
      c2 := i % 16 * 4;
      next := next + 1;
      if next < |input| {
        i := input[next];
        c2 := c2 + i / 64;
        c3 := i % 64;
        next := next + 1;
      }
    }
    c := [c0, c1, c2, c3];
    hide Letter, Sextet;
  }

  method PutGroup(out: array<byte>, pos: nat, c: seq<int>)
    requires pos + 4 <= out.Length && |c| == 4 && forall k :: 0 <= k < 4 ==> 0 <= c[k] <= 64
    modifies out
    ensures out[..pos + 4] == old(out[..pos]) + seq(4, k requires 0 <= k < 4 => Letter(c[k]))
    ensures out[pos + 4..] == old(out[pos + 4..])
  {
    hide Letter;
    var i := 0;
    while i < 4
      invariant 0 <= i <= 4
      invariant out[..pos] == old(out[..pos]) && out[pos + 4..] == old(out[pos + 4..])
      invariant forall k :: 0 <= k < i ==> out[pos + k] == Letter(c[k])
    {
      out[pos + i] := Letter(c[i]);
      i := i + 1;
    }
  }

  /** Base64_encode: the whole encoding if there is room, or else as many groups as fit exactly, or nothing. */
  method Encode(out: array<byte>, outLen: nat, input: seq<byte>) returns (ret: nat)
    requires outLen <= out.Length
    modifies out
    ensures var e := Encoded(input);
            && ret == (if |e| <= outLen then |e| else if outLen % 4 == 0 then outLen else 0)
            && ret <= |e| && out[..ret] == e[..ret]
            && (|e| < outLen ==> out[|e|] == 0)
    ensures out[outLen..] == old(out[outLen..])
  {
    ghost var e := Encoded(input);
    EncodedSize(input);
    hide Encoded, FirstGroup, AfterGroup, Letter, EncodeLength;
    var inPos, outCount := 0, 0;
    while inPos < |input| && outCount < outLen
      invariant inPos <= |input| && outCount % 4 == 0 && outCount <= |e|
      invariant if outCount <= outLen then out[..outCount] == e[..outCount] && e[outCount..] == Encoded(input[inPos..])
                else outCount < outLen + 4
      invariant out[outLen..] == old(out[outLen..])
    {
      ghost var rest := input[inPos..];
      assert e[outCount..] == Encoded(rest) && outCount + 4 <= |e| by { OneGroup(rest); }
      OneGroup(rest);
      EncodedStep(e, outCount, FirstGroup(rest), Encoded(AfterGroup(rest)));
      var c;
      c, inPos := Indexes(input, inPos);
      if outCount + 4 <= outLen {
        PutGroup(out, outCount, c);
      }
      outCount := outCount + 4;
    }
    if outCount <= outLen {
      if outCount < outLen {
        EncodedEnd(input, inPos);
        assert outCount == |e|;
        PutEnd(out, outCount);
      }
      ret := outCount;
    } else {
      ret := 0;
    }
  }

  /** The terminating zero, where there is room for it. */
  method PutEnd(out: array<byte>, pos: nat)
    requires pos < out.Length
    modifies out
    ensures out[..pos] == old(out[..pos]) && out[pos] == 0 && out[pos + 1..] == old(out[pos + 1..])
  {
    out[pos] := 0;
  }

  lemma EncodedStep(e: seq<byte>, n: nat, group: seq<byte>, rest: seq<byte>)
    requires n <= |e| && e[n..] == group + rest && |group| == 4
    ensures n + 4 <= |e| && e[..n] + group == e[..n + 4] && e[n + 4..] == rest
  {
    assert e == e[..n] + (group + rest);
  }

  lemma EncodedEnd(input: seq<byte>, pos: nat)
    requires pos == |input|
    ensures Encoded(input[pos..]) == []
  {
  }

  lemma DecodedStep(s: seq<byte>)
    requires |s| >= 4
    ensures var g := Group(Index(s[0]), Index(s[1]), Index(s[2]), Index(s[3]));
            Decoded(s) == if |g| < 3 then g else g + Decoded(s[4..])
  {
  }

  lemma DecodedEnd(s: seq<byte>)
    requires |s| < 4
    ensures Decoded(s) == []
  {
  }

  /** As much of a group as there is room for; what follows it is not given back, and a stop is final. */
  method DecodeGroup(out: array<byte>, pos: nat, outLen: nat, c0: int, c1: int, c2: int, c3: int)
    returns (outCount: nat, stop: bool)
    requires pos < outLen <= out.Length
    requires 0 <= c0 <= NV && 0 <= c1 <= NV && 0 <= c2 <= NV && 0 <= c3 <= NV
    modifies out
    ensures var g := Group(c0, c1, c2, c3);
            && outCount == (if pos + |g| <= outLen then pos + |g| else outLen)
            && out[pos..outCount] == g[..outCount - pos]
            && (outCount < outLen ==> (stop <==> |g| < 3))
    ensures out[..pos] == old(out[..pos]) && out[outLen..] == old(out[outLen..])
  {
    stop := false;
    out[pos] := First(c0, c1);
    outCount := pos + 1;
    if outCount < outLen {
      out[outCount] := c1 % 16 * 16;
      if c2 < NV {
        out[outCount] := out[outCount] + c2 / 4;
        outCount := outCount + 1;
        if outCount < outLen {
          out[outCount] := c2 % 4 * 64;
          if c3 < NV {
            out[outCount] := out[outCount] + c3;
            outCount := outCount + 1;
          } else {
            stop := true;
          }
        }
      } else {
        stop := true;
      }
    }
  }

  function Min(a: nat, b: nat): nat {
    if a < b then a else b
  }

  /** Base64_decode: the bytes of the whole groups, as far as there is room. */
  method Decode(out: array<byte>, outLen: nat, input: seq<byte>) returns (ret: nat)
    requires outLen <= out.Length
    modifies out
    ensures ret == Min(|Decoded(input)|, outLen) && out[..ret] == Decoded(input)[..ret]
    ensures ret < outLen ==> out[ret] == 0
    ensures out[outLen..] == old(out[outLen..])
  {
    ghost var d := Decoded(input);
    hide Decoded, Index, Group;
    var inPos, stop := 0, false;
    ret := 0;
    while |input| - inPos > 3 && !stop && ret < outLen
      invariant inPos <= |input| && ret <= outLen && ret <= |d| && out[..ret] == d[..ret]
      invariant ret < outLen ==> d[ret..] == if stop then [] else Decoded(input[inPos..])
      invariant out[outLen..] == old(out[outLen..])
      decreases |input| - inPos
    {
      ghost var rest := input[inPos..];
      DecodedStep(rest);
      var c0, c1, c2, c3 := Index(input[inPos]), Index(input[inPos + 1]), Index(input[inPos + 2]), Index(input[inPos + 3]);
      inPos := inPos + 4;
      assert rest[4..] == input[inPos..];
      ghost var pos, g := ret, Group(c0, c1, c2, c3);
      DecodedPrefix(d, pos, g, Decoded(rest));
      ret, stop := DecodeGroup(out, ret, outLen, c0, c1, c2, c3);
      assert out[..ret] == out[..pos] + out[pos..ret];
    }
    if ret < outLen {
      if !stop { DecodedEnd(input[inPos..]); }
      assert ret == |d|;
      ghost var rest, after := out[outLen..], outLen - ret - 1;
      assert out[ret + 1..][after..] == rest;
      PutEnd(out, ret);
      assert out[ret + 1..][after..] == out[outLen..];
    }
  }

  lemma DecodedPrefix(d: seq<byte>, pos: nat, g: seq<byte>, rest: seq<byte>)
    requires pos <= |d| && d[pos..] == rest && g <= rest
    ensures forall n :: pos <= n <= pos + |g| ==> n <= |d| && d[..n] == d[..pos] + g[..n - pos]
    ensures pos + |g| <= |d| && d[pos + |g|..] == rest[|g|..]
  {
    forall n | pos <= n <= pos + |g| ensures n <= |d| && d[..n] == d[..pos] + g[..n - pos] {
      assert d[..n] == d[..pos] + d[pos..][..n - pos];
    }
  }
}
