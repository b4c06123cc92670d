/**
 One digest worked out: that of the empty message, which the test in MQTTSHA1.c expects.
 */
module Sha1Example {
  import opened Framing
  import opened Sha1

  /** The only block of the empty message, padded. */
  ghost predicate IsBlock(b: seq<word>) {
    |b| == 16 && b[0] == 0x80000000 && forall i :: 0 < i < 16 ==> b[i] == 0
  }

  lemma Words0(b: seq<word>)
    requires IsBlock(b)
    ensures Schedule(b, 0) == 0x80000000 && Schedule(b, 1) == 0 && Schedule(b, 2) == 0 && Schedule(b, 3) == 0
    ensures Schedule(b, 4) == 0 && Schedule(b, 5) == 0 && Schedule(b, 6) == 0 && Schedule(b, 7) == 0
    ensures Schedule(b, 8) == 0 && Schedule(b, 9) == 0 && Schedule(b, 10) == 0 && Schedule(b, 11) == 0
    ensures Schedule(b, 12) == 0 && Schedule(b, 13) == 0 && Schedule(b, 14) == 0 && Schedule(b, 15) == 0
  {
  }

  lemma Words16(b: seq<word>)
    requires IsBlock(b)
    ensures Schedule(b, 16) == 0x00000001 && Schedule(b, 17) == 0x00000000 && Schedule(b, 18) == 0x00000000 && Schedule(b, 19) == 0x00000002
    ensures Schedule(b, 20) == 0x00000000 && Schedule(b, 21) == 0x00000000 && Schedule(b, 22) == 0x00000004 && Schedule(b, 23) == 0x00000000
    ensures Schedule(b, 24) == 0x00000002 && Schedule(b, 25) == 0x00000008 && Schedule(b, 26) == 0x00000000 && Schedule(b, 27) == 0x00000000
    ensures Schedule(b, 28) == 0x00000010 && Schedule(b, 29) == 0x00000000 && Schedule(b, 30) == 0x0000000a && Schedule(b, 31) == 0x00000020
  {
    assert Schedule(b, 16) == 0x00000001 && Schedule(b, 17) == 0x00000000 && Schedule(b, 18) == 0x00000000 && Schedule(b, 19) == 0x00000002;
    assert Schedule(b, 20) == 0x00000000 && Schedule(b, 21) == 0x00000000 && Schedule(b, 22) == 0x00000004 && Schedule(b, 23) == 0x00000000;
    assert Schedule(b, 24) == 0x00000002 && Schedule(b, 25) == 0x00000008 && Schedule(b, 26) == 0x00000000 && Schedule(b, 27) == 0x00000000;
    assert Schedule(b, 28) == 0x00000010 && Schedule(b, 29) == 0x00000000 && Schedule(b, 30) == 0x0000000a && Schedule(b, 31) == 0x00000020;
  }

  lemma Words32(b: seq<word>)
    requires IsBlock(b)
    ensures Schedule(b, 32) == 0x00000006 && Schedule(b, 33) == 0x00000000 && Schedule(b, 34) == 0x00000040 && Schedule(b, 35) == 0x00000008
    ensures Schedule(b, 36) == 0x00000028 && Schedule(b, 37) == 0x00000080 && Schedule(b, 38) == 0x00000008 && Schedule(b, 39) == 0x00000000
    ensures Schedule(b, 40) == 0x00000108 && Schedule(b, 41) == 0x00000000 && Schedule(b, 42) == 0x000000a0 && Schedule(b, 43) == 0x00000200
    ensures Schedule(b, 44) == 0x00000064 && Schedule(b, 45) == 0x00000000 && Schedule(b, 46) == 0x00000408 && Schedule(b, 47) == 0x00000088
  {
    Words16(b);
    assert Schedule(b, 32) == 0x00000006 && Schedule(b, 33) == 0x00000000 && Schedule(b, 34) == 0x00000040 && Schedule(b, 35) == 0x00000008;
    assert Schedule(b, 36) == 0x00000028 && Schedule(b, 37) == 0x00000080 && Schedule(b, 38) == 0x00000008 && Schedule(b, 39) == 0x00000000;
    assert Schedule(b, 40) == 0x00000108 && Schedule(b, 41) == 0x00000000 && Schedule(b, 42) == 0x000000a0 && Schedule(b, 43) == 0x00000200;
    assert Schedule(b, 44) == 0x00000064 && Schedule(b, 45) == 0x00000000 && Schedule(b, 46) == 0x00000408 && Schedule(b, 47) == 0x00000088;
  }

  lemma Words48(b: seq<word>)
    requires IsBlock(b)
    ensures Schedule(b, 48) == 0x0000029c && Schedule(b, 49) == 0x00000800 && Schedule(b, 50) == 0x00000080 && Schedule(b, 51) == 0x00000028
    ensures Schedule(b, 52) == 0x00001088 && Schedule(b, 53) == 0x00000000 && Schedule(b, 54) == 0x00000a40 && Schedule(b, 55) == 0x00002000
    ensures Schedule(b, 56) == 0x00000668 && Schedule(b, 57) == 0x00000080 && Schedule(b, 58) == 0x00004088 && Schedule(b, 59) == 0x00000880
    ensures Schedule(b, 60) == 0x000028c8 && Schedule(b, 61) == 0x00008000 && Schedule(b, 62) == 0x000008a8 && Schedule(b, 63) == 0x00000080
  {
    Words32(b);
    assert Schedule(b, 48) == 0x0000029c && Schedule(b, 49) == 0x00000800 && Schedule(b, 50) == 0x00000080 && Schedule(b, 51) == 0x00000028;
    assert Schedule(b, 52) == 0x00001088 && Schedule(b, 53) == 0x00000000 && Schedule(b, 54) == 0x00000a40 && Schedule(b, 55) == 0x00002000;
    assert Schedule(b, 56) == 0x00000668 && Schedule(b, 57) == 0x00000080 && Schedule(b, 58) == 0x00004088 && Schedule(b, 59) == 0x00000880;
    assert Schedule(b, 60) == 0x000028c8 && Schedule(b, 61) == 0x00008000 && Schedule(b, 62) == 0x000008a8 && Schedule(b, 63) == 0x00000080;
  }

  lemma Words64(b: seq<word>)
    requires IsBlock(b)
    ensures Schedule(b, 64) == 0x000108e8 && Schedule(b, 65) == 0x00000000 && Schedule(b, 66) == 0x0000a000 && Schedule(b, 67) == 0x00020080
    ensures Schedule(b, 68) == 0x00006400 && Schedule(b, 69) == 0x00000000 && Schedule(b, 70) == 0x00040800 && Schedule(b, 71) == 0x00008800
    ensures Schedule(b, 72) == 0x00029c10 && Schedule(b, 73) == 0x00080000 && Schedule(b, 74) == 0x00008080 && Schedule(b, 75) == 0x00002820
    ensures Schedule(b, 76) == 0x001088c0 && Schedule(b, 77) == 0x00000000 && Schedule(b, 78) == 0x000a40c0 && Schedule(b, 79) == 0x00200080
  {
    Words48(b);
    assert Schedule(b, 64) == 0x000108e8 && Schedule(b, 65) == 0x00000000 && Schedule(b, 66) == 0x0000a000 && Schedule(b, 67) == 0x00020080;
    assert Schedule(b, 68) == 0x00006400 && Schedule(b, 69) == 0x00000000 && Schedule(b, 70) == 0x00040800 && Schedule(b, 71) == 0x00008800;
    assert Schedule(b, 72) == 0x00029c10 && Schedule(b, 73) == 0x00080000 && Schedule(b, 74) == 0x00008080 && Schedule(b, 75) == 0x00002820;
    assert Schedule(b, 76) == 0x001088c0 && Schedule(b, 77) == 0x00000000 && Schedule(b, 78) == 0x000a40c0 && Schedule(b, 79) == 0x00200080;
  }

  lemma Rounds10(b: seq<word>)
    requires IsBlock(b)
    ensures Rounds(H0, b, 10) == Registers(0xcbdbff31, 0x41376611, 0x21c1d200, 0xf0275fc9, 0xb912add9)
  {
    hide Rounds, Schedule;
    Words0(b);
    NoRounds(b);
    NextRound(b, 0, H0, 0x80000000,
      Registers(0x1fb498b3, 0x67452301, 0x7bf36ae2, 0x98badcfe, 0x10325476));
    NextRound(b, 1, Registers(0x1fb498b3, 0x67452301, 0x7bf36ae2, 0x98badcfe, 0x10325476), 0x00000000,
      Registers(0x5d43e370, 0x1fb498b3, 0x59d148c0, 0x7bf36ae2, 0x98badcfe));
    NextRound(b, 2, Registers(0x5d43e370, 0x1fb498b3, 0x59d148c0, 0x7bf36ae2, 0x98badcfe), 0x00000000,
      Registers(0x158d2f62, 0x5d43e370, 0xc7ed262c, 0x59d148c0, 0x7bf36ae2));
    NextRound(b, 3, Registers(0x158d2f62, 0x5d43e370, 0xc7ed262c, 0x59d148c0, 0x7bf36ae2), 0x00000000,
      Registers(0xcdecfb5d, 0x158d2f62, 0x1750f8dc, 0xc7ed262c, 0x59d148c0));
    NextRound(b, 4, Registers(0xcdecfb5d, 0x158d2f62, 0x1750f8dc, 0xc7ed262c, 0x59d148c0), 0x00000000,
      Registers(0x4953565e, 0xcdecfb5d, 0x85634bd8, 0x1750f8dc, 0xc7ed262c));
    NextRound(b, 5, Registers(0x4953565e, 0xcdecfb5d, 0x85634bd8, 0x1750f8dc, 0xc7ed262c), 0x00000000,
      Registers(0xe44ab766, 0x4953565e, 0x737b3ed7, 0x85634bd8, 0x1750f8dc));
    NextRound(b, 6, Registers(0xe44ab766, 0x4953565e, 0x737b3ed7, 0x85634bd8, 0x1750f8dc), 0x00000000,
      Registers(0xc09d7f27, 0xe44ab766, 0x9254d597, 0x737b3ed7, 0x85634bd8));
    NextRound(b, 7, Registers(0xc09d7f27, 0xe44ab766, 0x9254d597, 0x737b3ed7, 0x85634bd8), 0x00000000,
      Registers(0x87074800, 0xc09d7f27, 0xb912add9, 0x9254d597, 0x737b3ed7));
    NextRound(b, 8, Registers(0x87074800, 0xc09d7f27, 0xb912add9, 0x9254d597, 0x737b3ed7), 0x00000000,
      Registers(0x41376611, 0x87074800, 0xf0275fc9, 0xb912add9, 0x9254d597));
    NextRound(b, 9, Registers(0x41376611, 0x87074800, 0xf0275fc9, 0xb912add9, 0x9254d597), 0x00000000,
      Registers(0xcbdbff31, 0x41376611, 0x21c1d200, 0xf0275fc9, 0xb912add9));
  }

  lemma Rounds20(b: seq<word>)
    requires IsBlock(b)
    ensures Rounds(H0, b, 20) == Registers(0xe758e8da, 0x0b3088dd, 0x8a2a5483, 0xc1afe45c, 0xf63f5951)
  {
    hide Rounds, Schedule;
    Words0(b);
    Words16(b);
    Rounds10(b);
    NextRound(b, 10, Registers(0xcbdbff31, 0x41376611, 0x21c1d200, 0xf0275fc9, 0xb912add9), 0x00000000,
      Registers(0x40166973, 0xcbdbff31, 0x504dd984, 0x21c1d200, 0xf0275fc9));
    NextRound(b, 11, Registers(0x40166973, 0xcbdbff31, 0x504dd984, 0x21c1d200, 0xf0275fc9), 0x00000000,
      Registers(0xadc0e0ca, 0x40166973, 0x72f6ffcc, 0x504dd984, 0x21c1d200));
    NextRound(b, 12, Registers(0xadc0e0ca, 0x40166973, 0x72f6ffcc, 0x504dd984, 0x21c1d200), 0x00000000,
      Registers(0x84c05eb2, 0xadc0e0ca, 0xd0059a5c, 0x72f6ffcc, 0x504dd984));
    NextRound(b, 13, Registers(0x84c05eb2, 0xadc0e0ca, 0xd0059a5c, 0x72f6ffcc, 0x504dd984), 0x00000000,
      Registers(0x1512c8b9, 0x84c05eb2, 0xab703832, 0xd0059a5c, 0x72f6ffcc));
    NextRound(b, 14, Registers(0x1512c8b9, 0x84c05eb2, 0xab703832, 0xd0059a5c, 0x72f6ffcc), 0x00000000,
      Registers(0x40182905, 0x1512c8b9, 0xa13017ac, 0xab703832, 0xd0059a5c));
    NextRound(b, 15, Registers(0x40182905, 0x1512c8b9, 0xa13017ac, 0xab703832, 0xd0059a5c), 0x00000000,
      Registers(0xd8fd6547, 0x40182905, 0x4544b22e, 0xa13017ac, 0xab703832));
    NextRound(b, 16, Registers(0xd8fd6547, 0x40182905, 0x4544b22e, 0xa13017ac, 0xab703832), 0x00000001,
      Registers(0x06bf9173, 0xd8fd6547, 0x50060a41, 0x4544b22e, 0xa13017ac));
    NextRound(b, 17, Registers(0x06bf9173, 0xd8fd6547, 0x50060a41, 0x4544b22e, 0xa13017ac), 0x00000000,
      Registers(0x28a9520e, 0x06bf9173, 0xf63f5951, 0x50060a41, 0x4544b22e));
    NextRound(b, 18, Registers(0x28a9520e, 0x06bf9173, 0xf63f5951, 0x50060a41, 0x4544b22e), 0x00000000,
      Registers(0x0b3088dd, 0x28a9520e, 0xc1afe45c, 0xf63f5951, 0x50060a41));
    NextRound(b, 19, Registers(0x0b3088dd, 0x28a9520e, 0xc1afe45c, 0xf63f5951, 0x50060a41), 0x00000002,
      Registers(0xe758e8da, 0x0b3088dd, 0x8a2a5483, 0xc1afe45c, 0xf63f5951));
  }

  lemma Rounds30(b: seq<word>)
    requires IsBlock(b)
    ensures Rounds(H0, b, 30) == Registers(0xca4556cb, 0x874b786f, 0x71ec478b, 0x53cbb470, 0x0d3cf5b6)
  {
    hide Rounds, Schedule;
    Words16(b);
    Rounds20(b);
    NextRound(b, 20, Registers(0xe758e8da, 0x0b3088dd, 0x8a2a5483, 0xc1afe45c, 0xf63f5951), 0x00000000,
      Registers(0x90eb9850, 0xe758e8da, 0x42cc2237, 0x8a2a5483, 0xc1afe45c));
    NextRound(b, 21, Registers(0x90eb9850, 0xe758e8da, 0x42cc2237, 0x8a2a5483, 0xc1afe45c), 0x00000000,
      Registers(0x7dbb787d, 0x90eb9850, 0xb9d63a36, 0x42cc2237, 0x8a2a5483));
    NextRound(b, 22, Registers(0x7dbb787d, 0x90eb9850, 0xb9d63a36, 0x42cc2237, 0x8a2a5483), 0x00000004,
      Registers(0x1c64d028, 0x7dbb787d, 0x243ae614, 0xb9d63a36, 0x42cc2237));
    NextRound(b, 23, Registers(0x1c64d028, 0x7dbb787d, 0x243ae614, 0xb9d63a36, 0x42cc2237), 0x00000000,
      Registers(0x1e97b73a, 0x1c64d028, 0x5f6ede1f, 0x243ae614, 0xb9d63a36));
    NextRound(b, 24, Registers(0x1e97b73a, 0x1c64d028, 0x5f6ede1f, 0x243ae614, 0xb9d63a36), 0x00000002,
      Registers(0x62d7f53f, 0x1e97b73a, 0x0719340a, 0x5f6ede1f, 0x243ae614));
    NextRound(b, 25, Registers(0x62d7f53f, 0x1e97b73a, 0x0719340a, 0x5f6ede1f, 0x243ae614), 0x00000008,
      Registers(0x34f3d6d8, 0x62d7f53f, 0x87a5edce, 0x0719340a, 0x5f6ede1f));
    NextRound(b, 26, Registers(0x34f3d6d8, 0x62d7f53f, 0x87a5edce, 0x0719340a, 0x5f6ede1f), 0x00000000,
      Registers(0x4f2ed1c1, 0x34f3d6d8, 0xd8b5fd4f, 0x87a5edce, 0x0719340a));
    NextRound(b, 27, Registers(0x4f2ed1c1, 0x34f3d6d8, 0xd8b5fd4f, 0x87a5edce, 0x0719340a), 0x00000000,
      Registers(0xc7b11e2d, 0x4f2ed1c1, 0x0d3cf5b6, 0xd8b5fd4f, 0x87a5edce));
    NextRound(b, 28, Registers(0xc7b11e2d, 0x4f2ed1c1, 0x0d3cf5b6, 0xd8b5fd4f, 0x87a5edce), 0x00000010,
      Registers(0x874b786f, 0xc7b11e2d, 0x53cbb470, 0x0d3cf5b6, 0xd8b5fd4f));
    NextRound(b, 29, Registers(0x874b786f, 0xc7b11e2d, 0x53cbb470, 0x0d3cf5b6, 0xd8b5fd4f), 0x00000000,
      Registers(0xca4556cb, 0x874b786f, 0x71ec478b, 0x53cbb470, 0x0d3cf5b6));
  }

  lemma Rounds40(b: seq<word>)
    requires IsBlock(b)
    ensures Rounds(H0, b, 40) == Registers(0x9bdbdd71, 0x62273351, 0xec805e22, 0x413c1d9a, 0x2aeeae62)
  {
    hide Rounds, Schedule;
    Words16(b);
    Words32(b);
    Rounds30(b);
    NextRound(b, 30, Registers(0xca4556cb, 0x874b786f, 0x71ec478b, 0x53cbb470, 0x0d3cf5b6), 0x0000000a,
      Registers(0x6a2e466e, 0xca4556cb, 0xe1d2de1b, 0x71ec478b, 0x53cbb470));
    NextRound(b, 31, Registers(0x6a2e466e, 0xca4556cb, 0xe1d2de1b, 0x71ec478b, 0x53cbb470), 0x00000020,
      Registers(0x62ea3d59, 0x6a2e466e, 0xf29155b2, 0xe1d2de1b, 0x71ec478b));
    NextRound(b, 32, Registers(0x62ea3d59, 0x6a2e466e, 0xf29155b2, 0xe1d2de1b, 0x71ec478b), 0x00000006,
      Registers(0xb77bac25, 0x62ea3d59, 0x9a8b919b, 0xf29155b2, 0xe1d2de1b));
    NextRound(b, 33, Registers(0xb77bac25, 0x62ea3d59, 0x9a8b919b, 0xf29155b2, 0xe1d2de1b), 0x00000000,
      Registers(0x4b1347e2, 0xb77bac25, 0x58ba8f56, 0x9a8b919b, 0xf29155b2));
    NextRound(b, 34, Registers(0x4b1347e2, 0xb77bac25, 0x58ba8f56, 0x9a8b919b, 0xf29155b2), 0x00000040,
      Registers(0x391ef0c4, 0x4b1347e2, 0x6ddeeb09, 0x58ba8f56, 0x9a8b919b));
    NextRound(b, 35, Registers(0x391ef0c4, 0x4b1347e2, 0x6ddeeb09, 0x58ba8f56, 0x9a8b919b), 0x00000008,
      Registers(0xabbab988, 0x391ef0c4, 0x92c4d1f8, 0x6ddeeb09, 0x58ba8f56));
    NextRound(b, 36, Registers(0xabbab988, 0x391ef0c4, 0x92c4d1f8, 0x6ddeeb09, 0x58ba8f56), 0x00000028,
      Registers(0x04f07669, 0xabbab988, 0x0e47bc31, 0x92c4d1f8, 0x6ddeeb09));
    NextRound(b, 37, Registers(0x04f07669, 0xabbab988, 0x0e47bc31, 0x92c4d1f8, 0x6ddeeb09), 0x00000080,
      Registers(0xb201788b, 0x04f07669, 0x2aeeae62, 0x0e47bc31, 0x92c4d1f8));
    NextRound(b, 38, Registers(0xb201788b, 0x04f07669, 0x2aeeae62, 0x0e47bc31, 0x92c4d1f8), 0x00000008,
      Registers(0x62273351, 0xb201788b, 0x413c1d9a, 0x2aeeae62, 0x0e47bc31));
    NextRound(b, 39, Registers(0x62273351, 0xb201788b, 0x413c1d9a, 0x2aeeae62, 0x0e47bc31), 0x00000000,
      Registers(0x9bdbdd71, 0x62273351, 0xec805e22, 0x413c1d9a, 0x2aeeae62));
  }

  lemma Rounds50(b: seq<word>)
    requires IsBlock(b)
    ensures Rounds(H0, b, 50) == Registers(0x6ae826ff, 0x0bca9922, 0xf9b4e7d0, 0x28656ea4, 0xebf9a56a)
  {
    hide Rounds, Schedule;
    Words32(b);
    Words48(b);
    Rounds40(b);
    NextRound(b, 40, Registers(0x9bdbdd71, 0x62273351, 0xec805e22, 0x413c1d9a, 0x2aeeae62), 0x00000108,
      Registers(0x95aa398b, 0x9bdbdd71, 0x5889ccd4, 0xec805e22, 0x413c1d9a));
    NextRound(b, 41, Registers(0x95aa398b, 0x9bdbdd71, 0x5889ccd4, 0xec805e22, 0x413c1d9a), 0x00000000,
      Registers(0x5e28e858, 0x95aa398b, 0x66f6f75c, 0x5889ccd4, 0xec805e22));
    NextRound(b, 42, Registers(0x5e28e858, 0x95aa398b, 0x66f6f75c, 0x5889ccd4, 0xec805e22), 0x000000a0,
      Registers(0x95642485, 0x5e28e858, 0xe56a8e62, 0x66f6f75c, 0x5889ccd4));
    NextRound(b, 43, Registers(0x95642485, 0x5e28e858, 0xe56a8e62, 0x66f6f75c, 0x5889ccd4), 0x00000200,
      Registers(0xfa950aba, 0x95642485, 0x178a3a16, 0xe56a8e62, 0x66f6f75c));
    NextRound(b, 44, Registers(0xfa950aba, 0x95642485, 0x178a3a16, 0xe56a8e62, 0x66f6f75c), 0x00000064,
      Registers(0xde1e3a01, 0xfa950aba, 0x65590921, 0x178a3a16, 0xe56a8e62));
    NextRound(b, 45, Registers(0xde1e3a01, 0xfa950aba, 0x65590921, 0x178a3a16, 0xe56a8e62), 0x00000000,
      Registers(0xafe695ab, 0xde1e3a01, 0xbea542ae, 0x65590921, 0x178a3a16));
    NextRound(b, 46, Registers(0xafe695ab, 0xde1e3a01, 0xbea542ae, 0x65590921, 0x178a3a16), 0x00000408,
      Registers(0xa195ba90, 0xafe695ab, 0x77878e80, 0xbea542ae, 0x65590921));
    NextRound(b, 47, Registers(0xa195ba90, 0xafe695ab, 0x77878e80, 0xbea542ae, 0x65590921), 0x00000088,
      Registers(0xe6d39f43, 0xa195ba90, 0xebf9a56a, 0x77878e80, 0xbea542ae));
    NextRound(b, 48, Registers(0xe6d39f43, 0xa195ba90, 0xebf9a56a, 0x77878e80, 0xbea542ae), 0x0000029c,
      Registers(0x0bca9922, 0xe6d39f43, 0x28656ea4, 0xebf9a56a, 0x77878e80));
    NextRound(b, 49, Registers(0x0bca9922, 0xe6d39f43, 0x28656ea4, 0xebf9a56a, 0x77878e80), 0x00000800,
      Registers(0x6ae826ff, 0x0bca9922, 0xf9b4e7d0, 0x28656ea4, 0xebf9a56a));
  }

  lemma Rounds60(b: seq<word>)
    requires IsBlock(b)
    ensures Rounds(H0, b, 60) == Registers(0x9b9d2913, 0x982bcbca, 0xb86beac8, 0xc5a3382e, 0xaf9292fa)
  {
    hide Rounds, Schedule;
    Words48(b);
    Rounds50(b);
    NextRound(b, 50, Registers(0x6ae826ff, 0x0bca9922, 0xf9b4e7d0, 0x28656ea4, 0xebf9a56a), 0x00000080,
      Registers(0x01ff3253, 0x6ae826ff, 0x82f2a648, 0xf9b4e7d0, 0x28656ea4));
    NextRound(b, 51, Registers(0x01ff3253, 0x6ae826ff, 0x82f2a648, 0xf9b4e7d0, 0x28656ea4), 0x00000028,
      Registers(0xe2581ce0, 0x01ff3253, 0xdaba09bf, 0x82f2a648, 0xf9b4e7d0));
    NextRound(b, 52, Registers(0xe2581ce0, 0x01ff3253, 0xdaba09bf, 0x82f2a648, 0xf9b4e7d0), 0x00001088,
      Registers(0x56ce73ab, 0xe2581ce0, 0xc07fcc94, 0xdaba09bf, 0x82f2a648));
    NextRound(b, 53, Registers(0x56ce73ab, 0xe2581ce0, 0xc07fcc94, 0xdaba09bf, 0x82f2a648), 0x00000000,
      Registers(0xae56e542, 0x56ce73ab, 0x38960738, 0xc07fcc94, 0xdaba09bf));
    NextRound(b, 54, Registers(0xae56e542, 0x56ce73ab, 0x38960738, 0xc07fcc94, 0xdaba09bf), 0x00000a40,
      Registers(0x8590c0e8, 0xae56e542, 0xd5b39cea, 0x38960738, 0xc07fcc94));
    NextRound(b, 55, Registers(0x8590c0e8, 0xae56e542, 0xd5b39cea, 0x38960738, 0xc07fcc94), 0x00002000,
      Registers(0xbe4a4bea, 0x8590c0e8, 0xab95b950, 0xd5b39cea, 0x38960738));
    NextRound(b, 56, Registers(0xbe4a4bea, 0x8590c0e8, 0xab95b950, 0xd5b39cea, 0x38960738), 0x00000668,
      Registers(0x168ce0bb, 0xbe4a4bea, 0x2164303a, 0xab95b950, 0xd5b39cea));
    NextRound(b, 57, Registers(0x168ce0bb, 0xbe4a4bea, 0x2164303a, 0xab95b950, 0xd5b39cea), 0x00000080,
      Registers(0xe1afab22, 0x168ce0bb, 0xaf9292fa, 0x2164303a, 0xab95b950));
    NextRound(b, 58, Registers(0xe1afab22, 0x168ce0bb, 0xaf9292fa, 0x2164303a, 0xab95b950), 0x00004088,
      Registers(0x982bcbca, 0xe1afab22, 0xc5a3382e, 0xaf9292fa, 0x2164303a));
    NextRound(b, 59, Registers(0x982bcbca, 0xe1afab22, 0xc5a3382e, 0xaf9292fa, 0x2164303a), 0x00000880,
      Registers(0x9b9d2913, 0x982bcbca, 0xb86beac8, 0xc5a3382e, 0xaf9292fa));
  }

  lemma Rounds70(b: seq<word>)
    requires IsBlock(b)
    ensures Rounds(H0, b, 70) == Registers(0x503c7ae0, 0x8ba00627, 0x39e6befc, 0xc444d07c, 0xf4dc8972)
  {
    hide Rounds, Schedule;
    Words48(b);
    Words64(b);
    Rounds60(b);
    NextRound(b, 60, Registers(0x9b9d2913, 0x982bcbca, 0xb86beac8, 0xc5a3382e, 0xaf9292fa), 0x000028c8,
      Registers(0xd37db937, 0x9b9d2913, 0xa60af2f2, 0xb86beac8, 0xc5a3382e));
    NextRound(b, 61, Registers(0xd37db937, 0x9b9d2913, 0xa60af2f2, 0xb86beac8, 0xc5a3382e), 0x00008000,
      Registers(0x85b9d227, 0xd37db937, 0xe6e74a44, 0xa60af2f2, 0xb86beac8));
    NextRound(b, 62, Registers(0x85b9d227, 0xd37db937, 0xe6e74a44, 0xa60af2f2, 0xb86beac8), 0x000008a8,
      Registers(0xcd98fbb7, 0x85b9d227, 0xf4df6e4d, 0xe6e74a44, 0xa60af2f2));
    NextRound(b, 63, Registers(0xcd98fbb7, 0x85b9d227, 0xf4df6e4d, 0xe6e74a44, 0xa60af2f2), 0x00000080,
      Registers(0xbb0f226f, 0xcd98fbb7, 0xe16e7489, 0xf4df6e4d, 0xe6e74a44));
    NextRound(b, 64, Registers(0xbb0f226f, 0xcd98fbb7, 0xe16e7489, 0xf4df6e4d, 0xe6e74a44), 0x000108e8,
      Registers(0xeb59446c, 0xbb0f226f, 0xf3663eed, 0xe16e7489, 0xf4df6e4d));
    NextRound(b, 65, Registers(0xeb59446c, 0xbb0f226f, 0xf3663eed, 0xe16e7489, 0xf4df6e4d), 0x00000000,
      Registers(0xd37225cb, 0xeb59446c, 0xeec3c89b, 0xf3663eed, 0xe16e7489));
    NextRound(b, 66, Registers(0xd37225cb, 0xeb59446c, 0xeec3c89b, 0xf3663eed, 0xe16e7489), 0x0000a000,
      Registers(0x111341f3, 0xd37225cb, 0x3ad6511b, 0xeec3c89b, 0xf3663eed));
    NextRound(b, 67, Registers(0x111341f3, 0xd37225cb, 0x3ad6511b, 0xeec3c89b, 0xf3663eed), 0x00020080,
      Registers(0xe79afbf0, 0x111341f3, 0xf4dc8972, 0x3ad6511b, 0xeec3c89b));
    NextRound(b, 68, Registers(0xe79afbf0, 0x111341f3, 0xf4dc8972, 0x3ad6511b, 0xeec3c89b), 0x00006400,
      Registers(0x8ba00627, 0xe79afbf0, 0xc444d07c, 0xf4dc8972, 0x3ad6511b));
    NextRound(b, 69, Registers(0x8ba00627, 0xe79afbf0, 0xc444d07c, 0xf4dc8972, 0x3ad6511b), 0x00000000,
      Registers(0x503c7ae0, 0x8ba00627, 0x39e6befc, 0xc444d07c, 0xf4dc8972));
  }

  lemma Rounds80(b: seq<word>)
    requires IsBlock(b)
    ensures Rounds(H0, b, 80) == Registers(0x72f480ed, 0x6e9d9f84, 0x999ae2f1, 0x852dc41a, 0xec052519)
  {
    hide Rounds, Schedule;
    Words64(b);
    Rounds70(b);
    NextRound(b, 70, Registers(0x503c7ae0, 0x8ba00627, 0x39e6befc, 0xc444d07c, 0xf4dc8972), 0x00040800,
      Registers(0x3cd517f9, 0x503c7ae0, 0xe2e80189, 0x39e6befc, 0xc444d07c));
    NextRound(b, 71, Registers(0x3cd517f9, 0x503c7ae0, 0xe2e80189, 0x39e6befc, 0xc444d07c), 0x00008800,
      Registers(0xb47ddf0e, 0x3cd517f9, 0x140f1eb8, 0xe2e80189, 0x39e6befc));
    NextRound(b, 72, Registers(0xb47ddf0e, 0x3cd517f9, 0x140f1eb8, 0xe2e80189, 0x39e6befc), 0x00029c10,
      Registers(0x5e3a0780, 0xb47ddf0e, 0x4f3545fe, 0x140f1eb8, 0xe2e80189));
    NextRound(b, 73, Registers(0x5e3a0780, 0xb47ddf0e, 0x4f3545fe, 0x140f1eb8, 0xe2e80189), 0x00080000,
      Registers(0x63db37b2, 0x5e3a0780, 0xad1f77c3, 0x4f3545fe, 0x140f1eb8));
    NextRound(b, 74, Registers(0x63db37b2, 0x5e3a0780, 0xad1f77c3, 0x4f3545fe, 0x140f1eb8), 0x00008080,
      Registers(0x15e98d17, 0x63db37b2, 0x178e81e0, 0xad1f77c3, 0x4f3545fe));
    NextRound(b, 75, Registers(0x15e98d17, 0x63db37b2, 0x178e81e0, 0xad1f77c3, 0x4f3545fe), 0x00002820,
      Registers(0xb0149467, 0x15e98d17, 0x98f6cdec, 0x178e81e0, 0xad1f77c3));
    NextRound(b, 76, Registers(0xb0149467, 0x15e98d17, 0x98f6cdec, 0x178e81e0, 0xad1f77c3), 0x001088c0,
      Registers(0x14b7106a, 0xb0149467, 0xc57a6345, 0x98f6cdec, 0x178e81e0));
    NextRound(b, 77, Registers(0x14b7106a, 0xb0149467, 0xc57a6345, 0x98f6cdec, 0x178e81e0), 0x00000000,
      Registers(0x666b8bc6, 0x14b7106a, 0xec052519, 0xc57a6345, 0x98f6cdec));
    NextRound(b, 78, Registers(0x666b8bc6, 0x14b7106a, 0xec052519, 0xc57a6345, 0x98f6cdec), 0x000a40c0,
      Registers(0x6e9d9f84, 0x666b8bc6, 0x852dc41a, 0xec052519, 0xc57a6345));
    NextRound(b, 79, Registers(0x6e9d9f84, 0x666b8bc6, 0x852dc41a, 0xec052519, 0xc57a6345), 0x00200080,
      Registers(0x72f480ed, 0x6e9d9f84, 0x999ae2f1, 0x852dc41a, 0xec052519));
  }

  lemma NoRounds(b: seq<word>)
    requires |b| == 16
    ensures Rounds(H0, b, 0) == H0
  {
  }

  lemma NextRound(b: seq<word>, t: nat, r: Registers, w: word, n: Registers)
    requires |b| == 16 && Rounds(H0, b, t) == r && Schedule(b, t) == w && Round(r, t, w) == n
    ensures Rounds(H0, b, t + 1) == n
  {
  }

  lemma PaddedEmpty()
    ensures var s := [] + Padding(0) + Size64(0); |s| == 64 && s == [0x80] + Zeros(63)
  {
    var s := [] + Padding(0) + Size64(0);
    assert Size64(0) == Zeros(8);
  }

  lemma TwoWords()
    ensures BigEndian(0, 0, 0, 0) == 0 && BigEndian(0x80, 0, 0, 0) == 0x80000000
  {
    AsWord(0, Number(0, 0, 0, 0));
    AsWord(0x80000000, Number(0x80, 0, 0, 0));
  }

  lemma BlockOfEmpty(s: seq<byte>)
    requires s == [0x80] + Zeros(63)
    ensures IsBlock(Words(s))
  {
    hide BigEndian;
    TwoWords();
    var b := Words(s);
    assert s[0] == 0x80 && forall i :: 0 < i < 64 ==> s[i] == 0;
    assert b[0] == BigEndian(0x80, 0, 0, 0);
    forall i | 0 < i < 16 ensures b[i] == 0 {
      assert b[i] == BigEndian(0, 0, 0, 0);
    }
  }

  /** da39a3ee5e6b4b0d3255bfef95601890afd80709. */
  lemma DigestOfEmpty()
    ensures Digest([]) == Registers(0xda39a3ee, 0x5e6b4b0d, 0x3255bfef, 0x95601890, 0xafd80709)
  {
    hide Rounds, Schedule, Words, Padding, Size64;
    var s := [] + Padding(0) + Size64(0);
    PaddedEmpty();
    BlockOfEmpty(s);
    Rounds80(Words(s));
    assert s[..0] == [] && s[0..] == s;
    assert Hash(s) == Compress(H0, s);
  }
}
