/**
 SHA-1 (FIPS 180-4 section 6.1) as the portable branch of MQTTSHA1.c computes it: the schedule in a ring of
 sixteen words, the message in pieces of any size.
 */
module Sha1 {
  import opened Framing

  type word = bv32

  const TWO32 := 0x1_0000_0000

  // ----- the standard

  function Rotl(x: word, n: nat): word
    requires 0 < n < 32
  {
    (x << n) | (x >> (32 - n))
  }

  /** FIPS 180-4 section 4.1.1: Ch, Parity and Maj. */
  function F(t: nat, x: word, y: word, z: word): word {
    if t < 20 then (x & y) ^ (!x & z)
    else if 40 <= t < 60 then (x & y) ^ (x & z) ^ (y & z)
    else x ^ y ^ z
  }

  /** Section 4.2.1. */
  function K(t: nat): word {
    if t < 20 then 0x5a827999 else if t < 40 then 0x6ed9eba1 else if t < 60 then 0x8f1bbcdc else 0xca62c1d6
  }

  datatype Registers = Registers(a: word, b: word, c: word, d: word, e: word)

  /** Section 5.3.1. */
  const H0 := Registers(0x67452301, 0xefcdab89, 0x98badcfe, 0x10325476, 0xc3d2e1f0)

  /** The constants are the first digits of the roots of 2, 3, 5 and 10: the whole part of 2^30 times the root. */
  lemma ConstantsAreRoots(t: nat)
    requires t < 80
    ensures var k, n := K(t) as int, [2, 3, 5, 10][t / 20]; k * k <= n * 0x1000_0000_0000_0000 < (k + 1) * (k + 1)
  {
  }

  function LowFirst(w: word): seq<int> {
    [w as int % 256, w as int / 256 % 256, w as int / 0x1_0000 % 256, w as int / 0x100_0000]
  }

  /** Written low byte first, the start counts all hexadecimal digits up, then down, then both at once. */
  lemma StartCounts()
    ensures LowFirst(H0.a) + LowFirst(H0.b) == [0x01, 0x23, 0x45, 0x67, 0x89, 0xab, 0xcd, 0xef]
    ensures LowFirst(H0.c) + LowFirst(H0.d) == [0xfe, 0xdc, 0xba, 0x98, 0x76, 0x54, 0x32, 0x10]
    ensures LowFirst(H0.e) == [0xf0, 0xe1, 0xd2, 0xc3]
  {
  }

  function Xor4(a: word, b: word, c: word, d: word): word {
    a ^ b ^ c ^ d
  }

  /** Section 6.1.2, step 1: the schedule of eighty words. */
  function Schedule(block: seq<word>, t: nat): word
    requires |block| == 16
  {
    if t < 16 then block[t]
    else Rotl(Xor4(Schedule(block, t - 3), Schedule(block, t - 8), Schedule(block, t - 14), Schedule(block, t - 16)), 1)
  }

  function Sum(a: word, f: word, e: word, w: word, k: word): word {
    a + f + e + w + k
  }

  /** Step 3. */
  function Round(r: Registers, t: nat, w: word): Registers {
    Registers(Sum(Rotl(r.a, 5), F(t, r.b, r.c, r.d), r.e, w, K(t)), r.a, Rotl(r.b, 30), r.c, r.d)
  }

  function Rounds(h: Registers, block: seq<word>, n: nat): Registers
    requires |block| == 16
  {
    if n == 0 then h else Round(Rounds(h, block, n - 1), n - 1, Schedule(block, n - 1))
  }

  /** Step 4. */
  function Add(x: Registers, y: Registers): Registers {
    Registers(x.a + y.a, x.b + y.b, x.c + y.c, x.d + y.d, x.e + y.e)
  }

  function Number(b0: byte, b1: byte, b2: byte, b3: byte): (n: nat)
    ensures n < TWO32
  {
    var n0: int, n1: int, n2: int, n3: int := b0, b1, b2, b3;
    ((n0 * 256 + n1) * 256 + n2) * 256 + n3
  }

  function BigEndian(b0: byte, b1: byte, b2: byte, b3: byte): word {
    Number(b0, b1, b2, b3) as bv32
  }

  function Words(s: seq<byte>): (w: seq<word>)
    requires |s| == 64
    ensures |w| == 16
  {
    seq(16, i requires 0 <= i < 16 => BigEndian(s[4 * i], s[4 * i + 1], s[4 * i + 2], s[4 * i + 3]))
  }

  function Compress(h: Registers, block: seq<byte>): Registers
    requires |block| == 64
  {
    Add(h, Rounds(h, Words(block), 80))
  }

  function Hash(s: seq<byte>): Registers
    requires |s| % 64 == 0
  {
    if s == [] then H0 else Compress(Hash(s[..|s| - 64]), s[|s| - 64..])
  }

  function Zeros(n: nat): (s: seq<byte>)
    ensures |s| == n
  {
    seq(n, _ => 0)
  }

  /** Section 5.1.1: a one bit, zero bits up to 56 bytes of a block, then the size in bits. */
  function Padding(n: nat): (s: seq<byte>)
    ensures (n + |s|) % 64 == 56 && 1 <= |s| <= 64
  {
    [0x80] + Zeros((55 - n) % 64)
  }

  function Bytes32(n: nat): (s: seq<byte>)
    requires n < TWO32
    ensures |s| == 4
  {
    [n / 0x100_0000, n / 0x1_0000 % 256, n / 0x100 % 256, n % 256]
  }

  function Size64(n: nat): (s: seq<byte>)
    requires n < TWO32 * TWO32
    ensures |s| == 8
  {
    Bytes32(n / TWO32) + Bytes32(n % TWO32)
  }

  /** The four bytes of a word, the highest first. */
  function WordBytes(w: word): (s: seq<byte>)
    ensures |s| == 4
  {
    Bytes32(w as nat)
  }

  /** The twenty bytes of five words. */
  function RegisterBytes(r: Registers): (s: seq<byte>)
    ensures |s| == 20
  {
    WordBytes(r.a) + WordBytes(r.b) + WordBytes(r.c) + WordBytes(r.d) + WordBytes(r.e)
  }

  /** The words of a message read back what is written of a word. */
  lemma WordRoundTrip(w: word)
    ensures var s := WordBytes(w); BigEndian(s[0], s[1], s[2], s[3]) == w
  {
    hide Number, Bytes32;
    NumberOfBytes(w as nat);
    AsWord(w, w as int);
  }

  /** Where the bytes of a word lie in a block, that word is read. */
  lemma WordsAreRead(s: seq<byte>, i: nat, w: word)
    requires |s| == 64 && i < 16 && s[4 * i..4 * i + 4] == WordBytes(w)
    ensures Words(s)[i] == w
  {
    var b := s[4 * i..4 * i + 4];
    assert b[0] == s[4 * i] && b[1] == s[4 * i + 1] && b[2] == s[4 * i + 2] && b[3] == s[4 * i + 3];
    WordRoundTrip(w);
    hide WordBytes, BigEndian;
  }

  lemma NumberOfBytes(n: nat)
    requires n < TWO32
    ensures var s := Bytes32(n); Number(s[0], s[1], s[2], s[3]) == n
  {
    DigitsSum(n);
  }

  lemma AsWord(w: word, n: int)
    requires w as int == n
    ensures 0 <= n < TWO32 && n as bv32 == w
  {
  }

  lemma DigitsSum(n: nat)
    requires n < TWO32
    ensures ((n / 0x100_0000 * 256 + n / 0x1_0000 % 256) * 256 + n / 0x100 % 256) * 256 + n % 256 == n
  {
    assert n == n / 0x100 * 0x100 + n % 256;
    assert n / 0x100 == n / 0x1_0000 * 0x100 + n / 0x100 % 256;
    assert n / 0x1_0000 == n / 0x100_0000 * 0x100 + n / 0x1_0000 % 256;
  }

  /** The digest, as five words, when the size field says `bits`. */
  function DigestWithSize(m: seq<byte>, bits: nat): Registers
    requires bits < TWO32 * TWO32
  {
    Hash(m + Padding(|m|) + Size64(bits))
  }

  function Digest(m: seq<byte>): Registers
    requires 8 * |m| < TWO32 * TWO32
  {
    DigestWithSize(m, 8 * |m|)
  }

  // ----- one block

  /** The source writes Ch and Maj with "or". */
  function Choose(x: word, y: word, z: word): word {
    (x & y) | (!x & z)
  }

  function Parity(x: word, y: word, z: word): word {
    x ^ y ^ z
  }

  function Majority(x: word, y: word, z: word): word {
    (x & y) | (x & z) | (y & z)
  }

  lemma SameChoose(x: word, y: word, z: word)
    ensures Choose(x, y, z) == (x & y) ^ (!x & z)
  {
  }

  lemma SameMajority(x: word, y: word, z: word)
    ensures Majority(x, y, z) == (x & y) ^ (x & z) ^ (y & z)
  {
  }

  lemma SameF(t: nat, x: word, y: word, z: word)
    ensures F(t, x, y, z) ==
            if t < 20 then Choose(x, y, z) else if 40 <= t < 60 then Majority(x, y, z) else Parity(x, y, z)
  {
    SameChoose(x, y, z);
    SameMajority(x, y, z);
    hide Choose, Majority;
  }

  /** The words of the schedule that the ring holds after i steps: the last sixteen. */
  ghost predicate Ring(w: seq<word>, block: seq<word>, i: nat) {
    && |w| == 16 == |block|
    && forall t :: Newest(i) - 16 <= t < Newest(i) ==> w[t % 16] == Schedule(block, t)
  }

  function Newest(i: nat): (n: nat)
    ensures n >= 16
  {
    if i < 16 then 16 else i
  }

  /** The word that step i overwrites is the one sixteen steps back, and its inputs are still in the ring. */
  lemma RingStep(w: seq<word>, block: seq<word>, i: nat)
    requires Ring(w, block, i) && i >= 16
    ensures Schedule(block, i) == Rotl(Xor4(w[(i + 13) % 16], w[(i + 8) % 16], w[(i + 2) % 16], w[i % 16]), 1)
    ensures Ring(w[i % 16 := Schedule(block, i)], block, i + 1)
  {
    hide Rotl, Xor4;
    assert Schedule(block, i) == Rotl(Xor4(Schedule(block, i - 3), Schedule(block, i - 8),
                                           Schedule(block, i - 14), Schedule(block, i - 16)), 1);
    hide Schedule;
    Slots(i);
    assert w[(i - 3) % 16] == Schedule(block, i - 3);
    assert w[(i - 8) % 16] == Schedule(block, i - 8);
    assert w[(i - 14) % 16] == Schedule(block, i - 14);
    assert w[(i - 16) % 16] == Schedule(block, i - 16);
    RingReplaced(w, block, i);
  }

  lemma Slots(i: nat)
    requires i >= 16
    ensures (i + 13) % 16 == (i - 3) % 16 && (i + 8) % 16 == (i - 8) % 16 && (i + 2) % 16 == (i - 14) % 16
    ensures i % 16 == (i - 16) % 16
  {
  }

  lemma RingReplaced(w: seq<word>, block: seq<word>, i: nat)
    requires Ring(w, block, i) && i >= 16
    ensures Ring(w[i % 16 := Schedule(block, i)], block, i + 1)
  {
    hide Schedule;
    var v := w[i % 16 := Schedule(block, i)];
    forall t | i + 1 - 16 <= t < i + 1 ensures v[t % 16] == Schedule(block, t) {
      if t < i { OtherSlot(t, i); }
    }
  }

  lemma OtherSlot(t: nat, i: nat)
    requires i - 16 < t < i
    ensures t % 16 != i % 16
  {
  }

  lemma FirstRing(block: seq<word>)
    requires |block| == 16
    ensures Ring(block, block, 0)
  {
  }

  lemma RingEarly(w: seq<word>, block: seq<word>, i: nat)
    requires Ring(w, block, i) && i < 16
    ensures Ring(w, block, i + 1)
  {
  }

  lemma RingNow(w: seq<word>, block: seq<word>, i: nat)
    requires Ring(w, block, i + 1)
    ensures w[i % 16] == Schedule(block, i)
  {
  }

  /** The choice of round function and constant, as the source branches. */
  method Temp(i: nat, r: Registers, w: word) returns (tmp: word)
    requires i < 80
    ensures tmp == Sum(Rotl(r.a, 5), F(i, r.b, r.c, r.d), r.e, w, K(i))
  {
    hide Rotl, Sum, F, Choose, Majority, Parity;
    SameF(i, r.b, r.c, r.d);
    if i < 20 {
      tmp := Sum(Rotl(r.a, 5), Choose(r.b, r.c, r.d), r.e, w, 0x5a827999);
    } else if i < 40 {
      tmp := Sum(Rotl(r.a, 5), Parity(r.b, r.c, r.d), r.e, w, 0x6ed9eba1);
    } else if i < 60 {
      tmp := Sum(Rotl(r.a, 5), Majority(r.b, r.c, r.d), r.e, w, 0x8f1bbcdc);
    } else {
      tmp := Sum(Rotl(r.a, 5), Parity(r.b, r.c, r.d), r.e, w, 0xca62c1d6);
    }
  }

  /** The schedule in place: the oldest word of the ring becomes the next one. */
  method NextWord(w: array<word>, i: nat, ghost block: seq<word>)
    requires w.Length == 16 == |block| && i >= 16 && Ring(w[..], block, i)
    modifies w
    ensures Ring(w[..], block, i + 1)
  {
    hide Rotl, Xor4, Schedule, Ring;
    RingStep(w[..], block, i);
    ghost var next := w[..][i % 16 := Schedule(block, i)];
    w[i % 16] := Rotl(Xor4(w[(i + 13) % 16], w[(i + 8) % 16], w[(i + 2) % 16], w[i % 16]), 1);
    assert w[..] == next;
  }

  /** SHA1_ProcessBlock, on the words of the buffer in host order. */
  method ProcessBlock(h: Registers, w: array<word>) returns (r: Registers)
    requires w.Length == 16
    modifies w
    ensures r == Add(h, Rounds(h, old(w[..]), 80))
  {
    assert |w[..]| == 16;
    hide Rotl, F, K, Sum, Xor4, Schedule, Add, Ring;
    ghost var block := w[..];
    FirstRing(block);
    var blks := h;
    var i := 0;
    while i < 80
      invariant 0 <= i <= 80
      invariant blks == Rounds(h, block, i) && Ring(w[..], block, i)
    {
      if i >= 16 {
        NextWord(w, i, block);
      } else {
        RingEarly(w[..], block, i);
      }
      RingNow(w[..], block, i);
      var tmp := Temp(i, blks, w[i % 16]);
      blks := Registers(tmp, blks.a, Rotl(blks.b, 30), blks.c, blks.d);
      i := i + 1;
    }
    r := Add(h, blks);
  }

  // ----- a message in pieces

  lemma HashJoin(s: seq<byte>, block: seq<byte>)
    requires |s| % 64 == 0 && |block| == 64
    ensures |s + block| % 64 == 0 && Hash(s + block) == Compress(Hash(s), block)
  {
    assert (s + block)[..|s|] == s && (s + block)[|s|..] == block;
    hide Compress;
  }

  class Context {
    var h: Registers
    const buffer: array<byte>
    var size: nat               // bytes waiting in the buffer
    var total: nat              // bytes so far, modulo 2^32
    ghost var data: seq<byte>   // the message so far

    /** The first part of the message, in whole blocks, has been hashed; the rest of it is in the buffer. */
    ghost predicate Holds(n: nat)
      reads this, buffer
    {
      && buffer.Length == 64 && n <= 64 && n <= |data| && (|data| - n) % 64 == 0
      && h == Hash(data[..|data| - n]) && buffer[..n] == data[|data| - n..]
      && total == |data| % TWO32
    }

    ghost predicate Valid()
      reads this, buffer
    {
      size < 64 && Holds(size)
    }

    constructor ()
      ensures Valid() && data == [] && fresh(buffer)
    {
      buffer := new byte[64];
      h, size, total, data := H0, 0, 0, [];
    }

    /** memcpy into the buffer behind what is waiting there. */
    method CopyIn(piece: seq<byte>)
      requires buffer.Length == 64 && size + |piece| <= 64
      modifies buffer
      ensures buffer[..size + |piece|] == old(buffer[..size]) + piece
    {
      var i := 0;
      while i < |piece|
        invariant 0 <= i <= |piece|
        invariant buffer[..size + i] == old(buffer[..size]) + piece[..i]
      {
        buffer[size + i] := piece[i];
        i := i + 1;
      }
      assert piece[..|piece|] == piece;
    }

    /** The words of the buffer in host order, and the block function on them. */
    method HashBuffer()
      requires buffer.Length == 64
      modifies this`h
      ensures h == Compress(old(h), buffer[..])
    {
      var b := buffer[..];
      var w := new word[16](i requires 0 <= i < 16 =>
        BigEndian(b[4 * i], b[4 * i + 1], b[4 * i + 2], b[4 * i + 3]));
      assert w[..] == Words(b);
      h := ProcessBlock(h, w);
    }

    /** Up to the end of a block. */
    method Fill(piece: seq<byte>)
      requires Valid() && 0 < |piece| <= 64 - size
      modifies this, buffer
      ensures Valid() && data == old(data) + piece
    {
      hide Hash, Compress;
      CopyIn(piece);
      Behind(data, size, piece);
      TotalAdds(|data|, |piece|);
      size := size + |piece|;
      total := (total + |piece|) % TWO32;
      data := data + piece;
      assert Holds(size);
      hide Holds;
      if size == 64 {
        EndBlock();
      }
    }

    lemma TotalAdds(a: nat, b: nat)
      ensures (a % TWO32 + b) % TWO32 == (a + b) % TWO32
    {
    }

    method EndBlock()
      requires size == 64 && Holds(64)
      modifies this`h, this`size
      ensures Valid()
    {
      hide Hash, Compress;
      assert buffer[..] == buffer[..64];
      EndOfBlock(data, buffer[..]);
      HashBuffer();
      size := 0;
    }

    /** What is behind the whole blocks, with a piece more. */
    lemma Behind(before: seq<byte>, n: nat, piece: seq<byte>)
      requires n <= |before|
      ensures var after := before + piece;
              && |after| - (n + |piece|) == |before| - n
              && after[..|before| - n] == before[..|before| - n]
              && after[|before| - n..] == before[|before| - n..] + piece
    {
    }

    lemma EndOfBlock(s: seq<byte>, block: seq<byte>)
      requires |s| >= 64 && |s| % 64 == 0 && |block| == 64 && s[|s| - 64..] == block
      ensures Hash(s) == Compress(Hash(s[..|s| - 64]), block) && s[..|s| - 0] == s && s[|s| - 0..] == []
    {
    }

    /** MQTT_SHA1_Update: the message grows by the piece, however long it is. */
    method Update(piece: seq<byte>)
      requires Valid()
      modifies this, buffer
      ensures Valid() && data == old(data) + piece
    {
      hide Hash, Holds;
      var pos := 0;
      while pos < |piece|
        invariant pos <= |piece| && Valid() && data == old(data) + piece[..pos]
        decreases |piece| - pos
      {
        var n := 64 - size;
        if |piece| - pos < n {
          n := |piece| - pos;
        }
        Fill(piece[pos..pos + n]);
        assert piece[..pos] + piece[pos..pos + n] == piece[..pos + n];
        pos := pos + n;
      }
      assert piece[..pos] == piece;
    }
  
    /** Up to 56 bytes of a block. */
    method Pad()
      requires Valid()
      modifies this, buffer
      ensures Valid() && size == 56 && data == old(data) + Padding(|old(data)|)
    {
      hide Hash, Compress, Holds;
      ghost var n := |data|;
      Waiting();
      var amount := if size < 56 then 56 - size else 64 + 56 - size;
      var pad := [0x80] + Zeros(63);
      PaddingIs(n, size, pad);
      hide Padding;
      Update(pad[..amount]);
      Waiting();
      BackAt56(n, size);
    }

    lemma Waiting()
      requires Valid()
      ensures buffer.Length == 64 && size <= |data| && (|data| - size) % 64 == 0 && |data| % 64 == size
    {
      hide Hash;
    }

    /** MQTT_SHA1_Final: pads, appends the size in bits modulo 2^32, hashes the last block and gives the bytes of
        the five words. */
    method Final() returns (md: seq<byte>)
      requires Valid()
      modifies this, buffer
      ensures md == RegisterBytes(DigestWithSize(old(data), 8 * |old(data)| % TWO32))
    {
      hide Hash, Compress, Padding, RegisterBytes;
      var bits := total * 8 % TWO32;
      SizeWraps(|data|);
      Pad();
      PutSize(bits);
      LastBlock(data, buffer[..], Size64(bits));
      hide Holds;
      HashBuffer();
      md := RegisterBytes(h);
    }

    /** htobe32 of the two halves of the size into the last two words. */
    method PutSize(bits: nat)
      requires buffer.Length == 64 && bits < TWO32 * TWO32
      modifies buffer
      ensures buffer[..] == old(buffer[..56]) + Size64(bits)
    {
      ghost var was := buffer[..56];
      var s := Size64(bits);
      hide Size64;
      var i := 0;
      while i < 8
        invariant 0 <= i <= 8
        invariant buffer[..56 + i] == was + s[..i]
      {
        buffer[56 + i] := s[i];
        i := i + 1;
      }
      assert buffer[..] == buffer[..64] && s[..8] == s;
    }

    lemma BackAt56(n: nat, left: nat)
      requires left < 64 && n + |Padding(n)| >= left && (n + |Padding(n)| - left) % 64 == 0
      ensures left == 56
    {
      var all := n + |Padding(n)|;
      hide Padding;
    }

    lemma SizeWraps(n: nat)
      ensures n % TWO32 * 8 % TWO32 == 8 * n % TWO32
    {
    }

    lemma PaddingIs(n: nat, size: nat, pad: seq<byte>)
      requires n % 64 == size && pad == [0x80] + Zeros(63)
      ensures pad[..if size < 56 then 56 - size else 120 - size] == Padding(n)
    {
    }

    lemma LastBlock(s: seq<byte>, block: seq<byte>, size: seq<byte>)
      requires |s| % 64 == 56 && |block| == 64 && |size| == 8 && block == s[|s| - 56..] + size
      ensures |s + size| % 64 == 0 && Hash(s + size) == Compress(Hash(s[..|s| - 56]), block)
    {
      assert s + size == s[..|s| - 56] + block;
      HashJoin(s[..|s| - 56], block);
      hide Hash, Compress;
    }
  }

  /** The result is the standard digest when the size in bits fits in 32 bits. */
  lemma DigestIsStandard(m: seq<byte>)
    requires |m| < TWO32 / 8
    ensures DigestWithSize(m, 8 * |m| % TWO32) == Digest(m)
  {
    hide DigestWithSize;
  }

  /** Above that the padded message itself is not the standard one. */
  lemma PaddingIsStandard(m: seq<byte>)
    requires 8 * |m| < TWO32 * TWO32
    ensures m + Padding(|m|) + Size64(8 * |m| % TWO32) == m + Padding(|m|) + Size64(8 * |m|) <==> |m| < TWO32 / 8
  {
    var a, b := Size64(8 * |m| % TWO32), Size64(8 * |m|);
    var front := m + Padding(|m|);
    assert (front + a)[|front|..] == a && (front + b)[|front|..] == b;
    SizeTop(8 * |m|);
    SizeTop(8 * |m| % TWO32);
    hide Size64;
  }

  /** The upper half of the size field. */
  lemma SizeTop(n: nat)
    requires n < TWO32 * TWO32
    ensures Size64(n)[..4] == Bytes32(0) <==> n < TWO32
  {
    NoBytes(n / TWO32);
    assert Size64(n)[..4] == Bytes32(n / TWO32);
  }

  lemma NoBytes(q: nat)
    requires q < TWO32
    ensures Bytes32(q) == Bytes32(0) <==> q == 0
  {
    assert q == q / 0x100 * 0x100 + q % 256;
    assert q / 0x100 == q / 0x1_0000 * 0x100 + q / 0x100 % 256;
    assert q / 0x1_0000 == q / 0x100_0000 * 0x100 + q / 0x1_0000 % 256;
    var s, z := Bytes32(q), Bytes32(0);
    assert z == [0, 0, 0, 0];
    if s == z {
      assert s[0] == 0 && s[1] == 0 && s[2] == 0 && s[3] == 0;
    }
  }
}
