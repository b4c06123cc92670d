/**
 The UTF-8 validator (utf-8.c) against the encoding of Unicode scalar values (RFC 3629 sections 3 and 4).
 */
module Utf8 {
  import opened Framing

  // ----- the encoding

  predicate Scalar(c: int) {
    0 <= c < 0x110000 && !(0xD800 <= c < 0xE000)
  }

  function EncodeChar(c: int): seq<byte>
    requires Scalar(c)
  {
    if c < 0x80 then [c]
    else if c < 0x800 then [0xC0 + c / 64, 0x80 + c % 64]
    else if c < 0x10000 then [0xE0 + c / 4096, 0x80 + c / 64 % 64, 0x80 + c % 64]
    else [0xF0 + c / 262144, 0x80 + c / 4096 % 64, 0x80 + c / 64 % 64, 0x80 + c % 64]
  }

  ghost predicate Scalars(s: seq<int>) {
    forall i :: 0 <= i < |s| ==> Scalar(s[i])
  }

  ghost function EncodeString(s: seq<int>): seq<byte>
    requires Scalars(s)
  {
    if s == [] then [] else EncodeChar(s[0]) + EncodeString(s[1..])
  }

  // ----- the table

  datatype Range = Range(lower: byte, upper: byte)

  const VALID_RANGES: seq<seq<Range>> := [
    [Range(0x00, 0x7F)],
    [Range(0xC2, 0xDF), Range(0x80, 0xBF)],
    [Range(0xE0, 0xE0), Range(0xA0, 0xBF), Range(0x80, 0xBF)],
    [Range(0xE1, 0xEC), Range(0x80, 0xBF), Range(0x80, 0xBF)],
    [Range(0xED, 0xED), Range(0x80, 0x9F), Range(0x80, 0xBF)],
    [Range(0xEE, 0xEF), Range(0x80, 0xBF), Range(0x80, 0xBF)],
    [Range(0xF0, 0xF0), Range(0x90, 0xBF), Range(0x80, 0xBF), Range(0x80, 0xBF)],
    [Range(0xF1, 0xF3), Range(0x80, 0xBF), Range(0x80, 0xBF), Range(0x80, 0xBF)],
    [Range(0xF4, 0xF4), Range(0x80, 0x8F), Range(0x80, 0xBF), Range(0x80, 0xBF)]]

  predicate InRange(b: byte, r: Range) {
    r.lower <= b <= r.upper
  }

  /** All bytes of a character in the ranges of row i. */
  ghost predicate FitsRow(s: seq<byte>, i: nat)
    requires i < |VALID_RANGES|
  {
    |s| == |VALID_RANGES[i]| && forall j :: 0 <= j < |s| ==> InRange(s[j], VALID_RANGES[i][j])
  }

  /** How many bytes the first one announces. */
  function CharLen(b: byte): (n: nat)
    ensures 1 <= n <= 4
  {
    if b < 0x80 then 1 else if b >= 0xF0 then 4 else if b >= 0xE0 then 3 else 2
  }

  ghost predicate Good(s: seq<byte>) {
    s != [] && CharLen(s[0]) == |s| && exists i :: 0 <= i < |VALID_RANGES| && FitsRow(s, i)
  }

  /** The row a scalar value belongs to. */
  function RowOf(c: int): (i: nat)
    ensures i < |VALID_RANGES|
  {
    if c < 0x80 then 0
    else if c < 0x800 then 1
    else if c < 0x1000 then 2
    else if c < 0xD000 then 3
    else if c < 0xD800 then 4
    else if c < 0x10000 then 5
    else if c < 0x40000 then 6
    else if c < 0x100000 then 7
    else 8
  }

  lemma EncodedIsGood(c: int)
    requires Scalar(c)
    ensures Good(EncodeChar(c))
  {
    var s := EncodeChar(c);
    assert FitsRow(s, RowOf(c));
  }

  /** The value of the bytes of a character: its leading bits, then six from each byte that follows. */
  function DecodeChar(s: seq<byte>): int
    requires s != []
  {
    var lead: int := s[0];
    if |s| == 1 then lead
    else if |s| == 2 then Six(lead - 0xC0, s[1])
    else if |s| == 3 then Six(Six(lead - 0xE0, s[1]), s[2])
    else Six(Six(Six(lead - 0xF0, s[1]), s[2]), s[3])
  }

  function Six(high: int, b: int): int {
    high * 64 + (b - 0x80)
  }

  lemma SixParts(high: int, b: int)
    requires high >= 0 && 0x80 <= b < 0xC0
    ensures Six(high, b) / 64 == high && Six(high, b) % 64 == b - 0x80
  {
  }

  lemma GoodIsEncoded(s: seq<byte>)
    requires Good(s)
    ensures Scalar(DecodeChar(s)) && EncodeChar(DecodeChar(s)) == s
  {
    RangesOfRows(s);
    var lead: int := s[0];
    if |s| == 2 {
      SixParts(lead - 0xC0, s[1]);
    } else if |s| == 3 {
      var two := Six(lead - 0xE0, s[1]);
      SixParts(lead - 0xE0, s[1]);
      SixParts(two, s[2]);
      Quotients(Six(two, s[2]));
    } else if |s| == 4 {
      var two := Six(lead - 0xF0, s[1]);
      var three := Six(two, s[2]);
      SixParts(lead - 0xF0, s[1]);
      SixParts(two, s[2]);
      SixParts(three, s[3]);
      Quotients(Six(three, s[3]));
    }
    hide Good;
  }

  lemma Quotients(c: int)
    ensures c / 64 / 64 == c / 4096 && c / 4096 / 64 == c / 262144
  {
  }

  /** What the rows allow, by the number of bytes. */
  lemma RangesOfRows(s: seq<byte>)
    requires Good(s)
    ensures |s| <= 4 && forall j :: 0 < j < |s| ==> 0x80 <= s[j] < 0xC0
    ensures |s| == 1 ==> s[0] < 0x80
    ensures |s| == 2 ==> 0xC2 <= s[0] < 0xE0
    ensures |s| == 3 ==> 0xE0 <= s[0] < 0xF0 && (s[0] == 0xE0 ==> s[1] >= 0xA0) && (s[0] == 0xED ==> s[1] < 0xA0)
    ensures |s| == 4 ==> 0xF0 <= s[0] < 0xF5 && (s[0] == 0xF0 ==> s[1] >= 0x90) && (s[0] == 0xF4 ==> s[1] < 0x90)
  {
    var i :| 0 <= i < |VALID_RANGES| && FitsRow(s, i);
    assert InRange(s[0], VALID_RANGES[i][0]);
    assert |s| > 1 ==> InRange(s[1], VALID_RANGES[i][1]);
    assert |s| > 2 ==> InRange(s[2], VALID_RANGES[i][2]);
    assert |s| > 3 ==> InRange(s[3], VALID_RANGES[i][3]);
  }

  lemma DecodeEncodeChar(c: int)
    requires Scalar(c)
    ensures DecodeChar(EncodeChar(c)) == c
  {
    Quotients(c);
    SixJoins(c);
    SixJoins(c / 64);
    SixJoins(c / 4096);
  }

  lemma SixJoins(c: int)
    ensures Six(c / 64, 0x80 + c % 64) == c
  {
  }

  // ----- strings

  ghost predicate WellFormed(s: seq<byte>) {
    exists cs :: Scalars(cs) && EncodeString(cs) == s
  }

  /** The scan: one good character, then the rest. */
  ghost predicate Scans(s: seq<byte>) {
    s == [] || (GoodFirst(s) && Scans(s[CharLen(s[0])..]))
  }

  ghost predicate GoodFirst(s: seq<byte>) {
    s != [] && CharLen(s[0]) <= |s| && Good(s[..CharLen(s[0])])
  }

  lemma FirstOfString(c: int, rest: seq<byte>)
    requires Scalar(c)
    ensures var s := EncodeChar(c) + rest;
            var n := |EncodeChar(c)|;
            && GoodFirst(s) && CharLen(s[0]) == n && s[..n] == EncodeChar(c) && s[n..] == rest
  {
    EncodedIsGood(c);
    var s := EncodeChar(c) + rest;
    var n := |EncodeChar(c)|;
    assert s[..n] == EncodeChar(c) && s[n..] == rest;
    hide EncodeChar, Good;
  }

  lemma {:induction false} EncodedScans(cs: seq<int>)
    requires Scalars(cs)
    ensures Scans(EncodeString(cs))
  {
    if cs != [] {
      EncodedScans(cs[1..]);
      FirstOfString(cs[0], EncodeString(cs[1..]));
      hide EncodeChar, GoodFirst;
    }
  }

  lemma {:induction false} ScansIsEncoded(s: seq<byte>) returns (cs: seq<int>)
    requires Scans(s)
    ensures Scalars(cs) && EncodeString(cs) == s
  {
    if s == [] {
      cs := [];
    } else {
      var n := CharLen(s[0]);
      var rest := ScansIsEncoded(s[n..]);
      GoodIsEncoded(s[..n]);
      cs := [DecodeChar(s[..n])] + rest;
      hide EncodeChar, Good;
      assert cs[1..] == rest;
      assert s == s[..n] + s[n..];
    }
  }

  /** The scan accepts exactly the encodings of sequences of scalar values. */
  lemma ScanIsExact(s: seq<byte>)
    ensures Scans(s) <==> WellFormed(s)
  {
    if Scans(s) {
      var cs := ScansIsEncoded(s);
    }
    if WellFormed(s) {
      var cs :| Scalars(cs) && EncodeString(cs) == s;
      EncodedScans(cs);
    }
  }

  /** A string shows what its first character is. */
  lemma SameFirst(c: int, rest: seq<byte>, d: int, tail: seq<byte>)
    requires Scalar(c) && Scalar(d) && EncodeChar(c) + rest == EncodeChar(d) + tail
    ensures c == d && rest == tail
  {
    hide EncodeChar, DecodeChar, Good, GoodFirst;
    FirstOfString(c, rest);
    FirstOfString(d, tail);
    DecodeEncodeChar(c);
    DecodeEncodeChar(d);
  }

  /** And such a sequence is unique. */
  lemma {:induction false} Unambiguous(a: seq<int>, b: seq<int>)
    requires Scalars(a) && Scalars(b) && EncodeString(a) == EncodeString(b)
    ensures a == b
  {
    hide EncodeChar, DecodeChar, Good, GoodFirst;
    if a != [] { FirstOfString(a[0], EncodeString(a[1..])); }
    if b != [] { FirstOfString(b[0], EncodeString(b[1..])); }
    if a != [] && b != [] {
      SameFirst(a[0], EncodeString(a[1..]), b[0], EncodeString(b[1..]));
      Unambiguous(a[1..], b[1..]);
      assert a == [a[0]] + a[1..] && b == [b[0]] + b[1..];
    }
  }

  // ----- the validator

  /** UTF8_char_validate on the len bytes from cur on: where the next character starts, or -1. */
  method CharValidate(data: seq<byte>, cur: nat, len: nat) returns (rc: int)
    requires 0 < len && cur + len == |data|
    ensures rc == if GoodFirst(data[cur..]) then cur + CharLen(data[cur]) else -1
  {
    var charlen := 2;
    if data[cur] < 128 {
      charlen := 1;
    } else if data[cur] / 16 == 15 {
      charlen := 4;
    } else if data[cur] / 32 == 7 {
      charlen := 3;
    }
    assert charlen == CharLen(data[cur..][0]);
    if charlen > len {
      return -1;
    }
    var good := false;
    var i := 0;
    ghost var s := data[cur..][..charlen];
    assert forall j :: 0 <= j < charlen ==> s[j] == data[cur + j];
    while i < |VALID_RANGES| && !good
      invariant i <= |VALID_RANGES|
      invariant good ==> i < |VALID_RANGES| && FitsRow(s, i)
      invariant !good ==> forall k :: 0 <= k < i ==> !FitsRow(s, k)
      decreases |VALID_RANGES| - i, !good
    {
      if |VALID_RANGES[i]| == charlen {
        good := InRow(data, cur, VALID_RANGES[i]);
      }
      if !good {
        i := i + 1;
      }
    }
    rc := if good then cur + charlen else -1;
  }

  method InRow(data: seq<byte>, cur: nat, row: seq<Range>) returns (good: bool)
    requires cur + |row| <= |data|
    ensures good <==> forall j :: 0 <= j < |row| ==> InRange(data[cur + j], row[j])
  {
    good := true;
    var j := 0;
    while j < |row| && good
      invariant j <= |row|
      invariant good <==> forall k :: 0 <= k < j ==> InRange(data[cur + k], row[k])
    {
      good := !(data[cur + j] < row[j].lower || data[cur + j] > row[j].upper);
      j := j + 1;
    }
  }

  /** MQTT_UTF8_validate. */
  method Validate(data: seq<byte>) returns (rc: bool)
    ensures rc <==> WellFormed(data)
  {
    ScanIsExact(data);
    if |data| == 0 {
      return true;
    }
    assert data[0..] == data;
    var cur := CharValidate(data, 0, |data|);
    while cur != -1 && cur < |data|
      invariant -1 <= cur <= |data|
      invariant Scans(data) <==> cur != -1 && Scans(data[cur..])
      decreases if cur == -1 then 0 else 1, |data| - cur
    {
      var was := cur;
      cur := CharValidate(data, was, |data| - was);
      if cur != -1 {
        assert data[was..][CharLen(data[was])..] == data[cur..];
      }
    }
    rc := cur != -1;
  }

  /** Bytes read as signed characters compare with the limits of a row as unsigned ones do. */
  lemma SignDoesNotMatter(b: byte, r: Range)
    requires (r.lower < 128 && r.upper < 128) || (r.lower >= 128 && r.upper >= 128)
    requires r.lower < 128 ==> b < 128
    ensures InRange(b, r) <==> Signed(r.lower) <= Signed(b) <= Signed(r.upper)
  {
  }

  function Signed(b: byte): (n: int)
    ensures -128 <= n < 128 && n % 256 == b
  {
    if b < 128 then b else b - 256
  }
}
