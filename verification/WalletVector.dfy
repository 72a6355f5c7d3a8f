/** One address the wallet extension derives, computed through the whole codec: prefix,
    regrouping, generators, checksum and alphabet must all be the wallet's. */
module WalletVector {
  import opened Types
  import opened Checksum
  import opened Regroup
  import opened Address

  const PREFIX := "keryxsim"

  /** The 32-byte key 11...11. */
  const KEY: seq<u8> := Ones(32)

  /** `n` bytes 0x11. */
  function Ones(n: nat): seq<u8> {
    seq(n, i => 0x11)
  }

  const PREFIX_WORDS: seq<u8> := [11, 5, 18, 25, 24, 19, 9, 13]

  /** Version 0 and the key, regrouped: its first five bytes, five more at a time, the last three. */
  const FIRST: seq<u8> := [0, 0, 8, 17, 2, 4, 8, 17]
  const ONES: seq<u8> := [2, 4, 8, 17, 2, 4, 8, 17]
  const LAST: seq<u8> := [2, 4, 8, 17, 2]
  const DATA: seq<u8> := FIRST + ONES + ONES + ONES + ONES + ONES + LAST

  const CHECK: u64 := 0x850415159b

  // --- the register, piece by piece ---

  lemma RegisterOne(c0: u64, c1: u64, v: u8)
    requires Step(c0, Wide(v)) == c1
    ensures Register(c0, [v]) == c1
  {
    hide Step, Wide;
    assert [v][..0] == [] && Register(c0, []) == c0;
  }

  lemma RegisterFour(c0: u64, c1: u64, c2: u64, c3: u64, c4: u64, a: u8, b: u8, d: u8, e: u8)
    requires Step(c0, Wide(a)) == c1 && Step(c1, Wide(b)) == c2 && Step(c2, Wide(d)) == c3 && Step(c3, Wide(e)) == c4
    ensures Register(c0, [a, b, d, e]) == c4
  {
    hide Step, Wide, Register;
    RegisterOne(c0, c1, a);
    RegisterOne(c1, c2, b);
    RegisterOne(c2, c3, d);
    RegisterOne(c3, c4, e);
    RegisterConcat(c0, [a], [b]);
    RegisterConcat(c0, [a, b], [d]);
    RegisterConcat(c0, [a, b, d], [e]);
    assert [a] + [b] == [a, b] && [a, b] + [d] == [a, b, d] && [a, b, d] + [e] == [a, b, d, e];
  }

  lemma Piece0a()
    ensures Register(0x1, [11, 5, 18, 25]) == 0x159659
  {
    hide Register;
    RegisterFour(0x1, 0x2b, 0x565, 0xacb2, 0x159659, 11, 5, 18, 25);
  }

  lemma Piece0b()
    ensures Register(0x159659, [24, 19, 9, 13]) == 0xc19720c34c
  {
    hide Register;
    RegisterFour(0x159659, 0x2b2cb38, 0x56596713, 0xacb2ce269, 0xc19720c34c, 24, 19, 9, 13);
  }

  lemma Piece0()
    ensures Register(0x1, PREFIX_WORDS) == 0xc19720c34c
  {
    hide Register;
    Piece0a();
    Piece0b();
    RegisterConcat(0x1, [11, 5, 18, 25], [24, 19, 9, 13]);
    assert PREFIX_WORDS == [11, 5, 18, 25] + [24, 19, 9, 13];
  }

  lemma Piece1()
    ensures Register(0xc19720c34c, [0]) == 0x8285f06f58
  {
    hide Register;
    RegisterOne(0xc19720c34c, 0x8285f06f58, 0);
  }

  lemma Piece2a()
    ensures Register(0x8285f06f58, [0, 0, 8, 17]) == 0x129a844c69
  {
    hide Register;
    RegisterFour(0x8285f06f58, 0x4ef14e0f70, 0xe8f5d682c9, 0xc517db6255, 0x129a844c69, 0, 0, 8, 17);
  }

  lemma Piece2b()
    ensures Register(0x129a844c69, [2, 4, 8, 17]) == 0x55429b1edc
  {
    hide Register;
    RegisterFour(0x129a844c69, 0x2ae7e414c0, 0x373061a5a1, 0x6c85069e0e, 0x55429b1edc, 2, 4, 8, 17);
  }

  lemma Piece2()
    ensures Register(0x8285f06f58, FIRST) == 0x55429b1edc
  {
    hide Register;
    Piece2a();
    Piece2b();
    RegisterConcat(0x8285f06f58, [0, 0, 8, 17], [2, 4, 8, 17]);
    assert FIRST == [0, 0, 8, 17] + [2, 4, 8, 17];
  }

  lemma Piece3a()
    ensures Register(0x55429b1edc, [2, 4, 8, 17]) == 0x5b62bf7670
  {
    hide Register;
    RegisterFour(0x55429b1edc, 0x7fcaa5a0c8, 0x4501915feb, 0xe1c801fc0, 0x5b62bf7670, 2, 4, 8, 17);
  }

  lemma Piece3b()
    ensures Register(0x5b62bf7670, [2, 4, 8, 17]) == 0x768e4e1faf
  {
    hide Register;
    RegisterFour(0x5b62bf7670, 0x233c943b29, 0x94acd8d6e0, 0xf26334a19a, 0x768e4e1faf, 2, 4, 8, 17);
  }

  lemma Piece3()
    ensures Register(0x55429b1edc, ONES) == 0x768e4e1faf
  {
    hide Register;
    Piece3a();
    Piece3b();
    RegisterConcat(0x55429b1edc, [2, 4, 8, 17], [2, 4, 8, 17]);
    assert ONES == [2, 4, 8, 17] + [2, 4, 8, 17];
  }

  lemma Piece4a()
    ensures Register(0x768e4e1faf, [2, 4, 8, 17]) == 0x6f3c89bf21
  {
    hide Register;
    RegisterFour(0x768e4e1faf, 0xf56e5a3d6c, 0x97239d817a, 0x838b9e52da, 0x6f3c89bf21, 2, 4, 8, 17);
  }

  lemma Piece4b()
    ensures Register(0x6f3c89bf21, [2, 4, 8, 17]) == 0x2d0becd045
  {
    hide Register;
    RegisterFour(0x6f3c89bf21, 0x22737f3b2f, 0xbd51b8d620, 0xa603d7843f, 0x2d0becd045, 2, 4, 8, 17);
  }

  lemma Piece4()
    ensures Register(0x768e4e1faf, ONES) == 0x2d0becd045
  {
    hide Register;
    Piece4a();
    Piece4b();
    RegisterConcat(0x768e4e1faf, [2, 4, 8, 17], [2, 4, 8, 17]);
    assert ONES == [2, 4, 8, 17] + [2, 4, 8, 17];
  }

  lemma Piece5a()
    ensures Register(0x2d0becd045, [2, 4, 8, 17]) == 0xbe8e4177fc
  {
    hide Register;
    RegisterFour(0x2d0becd045, 0xcab1793507, 0x7ebc72285d, 0x6bdb604d47, 0xbe8e4177fc, 2, 4, 8, 17);
  }

  lemma Piece5b()
    ensures Register(0xbe8e4177fc, [2, 4, 8, 17]) == 0xc68441cd0
  {
    hide Register;
    RegisterFour(0xbe8e4177fc, 0xddfce3bfb5, 0xeeb84ee7ff, 0xca4d7c495, 0xc68441cd0, 2, 4, 8, 17);
  }

  lemma Piece5()
    ensures Register(0x2d0becd045, ONES) == 0xc68441cd0
  {
    hide Register;
    Piece5a();
    Piece5b();
    RegisterConcat(0x2d0becd045, [2, 4, 8, 17], [2, 4, 8, 17]);
    assert ONES == [2, 4, 8, 17] + [2, 4, 8, 17];
  }

  lemma Piece6a()
    ensures Register(0xc68441cd0, [2, 4, 8, 17]) == 0xbe31e1d1c
  {
    hide Register;
    RegisterFour(0xc68441cd0, 0x15fa3f1463, 0xc6f08f1586, 0x6e700ab610, 0xbe31e1d1c, 2, 4, 8, 17);
  }

  lemma Piece6b()
    ensures Register(0xbe31e1d1c, [2, 4, 8, 17]) == 0xb8c721b34d
  {
    hide Register;
    RegisterFour(0xbe31e1d1c, 0xe4917f2de3, 0xd170520978, 0xe7dcc4b032, 0xb8c721b34d, 2, 4, 8, 17);
  }

  lemma Piece6()
    ensures Register(0xc68441cd0, ONES) == 0xb8c721b34d
  {
    hide Register;
    Piece6a();
    Piece6b();
    RegisterConcat(0xc68441cd0, [2, 4, 8, 17], [2, 4, 8, 17]);
    assert ONES == [2, 4, 8, 17] + [2, 4, 8, 17];
  }

  lemma Piece7a()
    ensures Register(0xb8c721b34d, [2, 4, 8, 17]) == 0x415d6990b7
  {
    hide Register;
    RegisterFour(0xb8c721b34d, 0x14d0fb2995, 0xe3a808ab46, 0x365ea2ddd4, 0x415d6990b7, 2, 4, 8, 17);
  }

  lemma Piece7b()
    ensures Register(0x415d6990b7, [2, 4, 8, 17]) == 0xd547de25e7
  {
    hide Register;
    RegisterFour(0x415d6990b7, 0x858399f44a, 0xae3c7d6d34, 0xb20c0d7f5d, 0xd547de25e7, 2, 4, 8, 17);
  }

  lemma Piece7()
    ensures Register(0xb8c721b34d, ONES) == 0xd547de25e7
  {
    hide Register;
    Piece7a();
    Piece7b();
    RegisterConcat(0xb8c721b34d, [2, 4, 8, 17], [2, 4, 8, 17]);
    assert ONES == [2, 4, 8, 17] + [2, 4, 8, 17];
  }

  lemma Piece8a()
    ensures Register(0xd547de25e7, [2, 4, 8, 17]) == 0x1c67a1a524
  {
    hide Register;
    RegisterFour(0xd547de25e7, 0x612d4123d8, 0x78b8d02a68, 0xab4f200be7, 0x1c67a1a524, 2, 4, 8, 17);
  }

  lemma Piece8b()
    ensures Register(0x1c67a1a524, [2]) == 0x6db1e5b301
  {
    hide Register;
    RegisterOne(0x1c67a1a524, 0x6db1e5b301, 2);
  }

  lemma Piece8()
    ensures Register(0xd547de25e7, LAST) == 0x6db1e5b301
  {
    hide Register;
    Piece8a();
    Piece8b();
    RegisterConcat(0xd547de25e7, [2, 4, 8, 17], [2]);
    assert LAST == [2, 4, 8, 17] + [2];
  }

  lemma Piece9a()
    ensures Register(0x6db1e5b301, [0, 0, 0, 0]) == 0xe126f64ad4
  {
    hide Register;
    RegisterFour(0x6db1e5b301, 0x73defebf2d, 0x5f784e2d2e, 0xa062bf50eb, 0xe126f64ad4, 0, 0, 0, 0);
  }

  lemma Piece9b()
    ensures Register(0xe126f64ad4, [0, 0, 0, 0]) == 0x850415159a
  {
    hide Register;
    RegisterFour(0xe126f64ad4, 0x67817eef9c, 0xad3f29a2ec, 0xd266948455, 0x850415159a, 0, 0, 0, 0);
  }

  lemma Piece9()
    ensures Register(0x6db1e5b301, Zeros(8)) == 0x850415159a
  {
    hide Register;
    Piece9a();
    Piece9b();
    RegisterConcat(0x6db1e5b301, [0, 0, 0, 0], [0, 0, 0, 0]);
    assert Zeros(8) == [0, 0, 0, 0] + [0, 0, 0, 0];
  }

  lemma RegisterOfAll()
    ensures Register(1, PREFIX_WORDS + [0] + DATA + Zeros(8)) == 0x850415159a
  {
    hide Register, PREFIX_WORDS, FIRST, ONES, LAST, Zeros;
    Piece0();
    Piece1();
    Piece2();
    Piece3();
    Piece4();
    Piece5();
    Piece6();
    Piece7();
    Piece8();
    Piece9();
    var d1 := PREFIX_WORDS + [0] + FIRST;
    var d2, d3, d4 := d1 + ONES, d1 + ONES + ONES, d1 + ONES + ONES + ONES;
    var d5, d6 := d4 + ONES, d4 + ONES + ONES;
    RegisterConcat(1, PREFIX_WORDS, [0]);
    RegisterConcat(1, PREFIX_WORDS + [0], FIRST);
    RegisterConcat(1, d1, ONES);
    RegisterConcat(1, d2, ONES);
    RegisterConcat(1, d3, ONES);
    RegisterConcat(1, d4, ONES);
    RegisterConcat(1, d5, ONES);
    RegisterConcat(1, d6, LAST);
    RegisterConcat(1, d6 + LAST, Zeros(8));
    assert PREFIX_WORDS + [0] + DATA == d6 + LAST;
  }

  // --- the words ---

  lemma FiveMore(a: u8, b: u8, c: u8, d: u8, e: u8, rest: seq<u8>)
    ensures Regrouped([a, b, c, d, e] + rest) == CheckWords(Pack(a, b, c, d, e), 8) + Regrouped(rest)
  {
    hide Pack, CheckWords;
    var x := [a, b, c, d, e] + rest;
    assert x[..5] == [a, b, c, d, e] && x[5..] == rest;
  }

  lemma OneWords()
    ensures CheckWords(Pack(0x11, 0x11, 0x11, 0x11, 0x11), 8) == ONES
    ensures CheckWords(Pack(0, 0x11, 0x11, 0x11, 0x11), 8) == FIRST
    ensures Regrouped([0x11, 0x11, 0x11]) == LAST
  {
  }

  lemma FiveOnes(n: nat)
    ensures Regrouped(Ones(n + 5)) == ONES + Regrouped(Ones(n))
  {
    hide Pack, CheckWords, Regrouped;
    assert Ones(n + 5) == [0x11, 0x11, 0x11, 0x11, 0x11] + Ones(n);
    FiveMore(0x11, 0x11, 0x11, 0x11, 0x11, Ones(n));
    OneWords();
  }

  lemma KeyRegrouped()
    ensures DataWords(0, KEY) == DATA
  {
    hide Pack, CheckWords, Regrouped, FIRST, ONES, LAST;
    assert [0] + KEY == [0, 0x11, 0x11, 0x11, 0x11] + Ones(28);
    FiveMore(0, 0x11, 0x11, 0x11, 0x11, Ones(28));
    FiveOnes(23);
    FiveOnes(18);
    FiveOnes(13);
    FiveOnes(8);
    FiveOnes(3);
    assert Ones(3) == [0x11, 0x11, 0x11];
    OneWords();
  }

  lemma PrefixLetters()
    ensures PrefixWord('k') == 11 && PrefixWord('e') == 5 && PrefixWord('r') == 18 && PrefixWord('y') == 25
    ensures PrefixWord('x') == 24 && PrefixWord('s') == 19 && PrefixWord('i') == 9 && PrefixWord('m') == 13
  {
  }

  lemma CoveredIs(data: seq<u8>)
    ensures IsAscii(PREFIX) && Covered(PREFIX, data) == PREFIX_WORDS + [0] + data
  {
    hide PrefixWord;
    PrefixLetters();
  }

  // --- the text ---

  lemma FirstLetters()
    ensures CharOf(0) == 'q' && CharOf(2) == 'z' && CharOf(4) == 'y' && CharOf(8) == 'g' && CharOf(17) == '3'
  {
  }

  lemma CheckLetters()
    ensures CharOf(16) == 's' && CharOf(20) == '5' && CharOf(1) == 'p' && CharOf(10) == '2' && CharOf(5) == '9'
    ensures CharOf(12) == 'v' && CharOf(27) == 'm' && CharOf(2) == 'z'
  {
  }

  lemma TextConcat(x: seq<u8>, y: seq<u8>)
    ensures Text(x + y) == Text(x) + Text(y)
  {
    hide CharOf;
  }

  lemma PieceTexts()
    ensures Text(FIRST) == "qqg3zyg3" && Text(ONES) == "zyg3zyg3" && Text(LAST) == "zyg3z"
  {
    hide CharOf;
    FirstLetters();
  }

  lemma DataText()
    ensures Text(DATA) == "qqg3zyg3" + "zyg3zyg3" + "zyg3zyg3" + "zyg3zyg3" + "zyg3zyg3" + "zyg3zyg3" + "zyg3z"
  {
    hide Text, FIRST, ONES, LAST;
    PieceTexts();
    var d2, d3 := FIRST + ONES, FIRST + ONES + ONES;
    var d4, d5 := d3 + ONES, d3 + ONES + ONES;
    TextConcat(FIRST, ONES);
    TextConcat(d2, ONES);
    TextConcat(d3, ONES);
    TextConcat(d4, ONES);
    TextConcat(d5, ONES);
    TextConcat(d5 + ONES, LAST);
  }

  lemma CheckText()
    ensures Text(CheckWords(CHECK, 8)) == "s5zp29vm"
  {
    assert CheckWords(CHECK, 8) == [16, 20, 2, 1, 10, 5, 12, 27];
    hide CharOf;
    CheckLetters();
  }

  /** The address of the key under the simnet prefix is the one the wallet's encoder gives. */
  lemma WalletAddress()
    ensures IsAscii(PREFIX)
    ensures AddressOf(0, KEY, PREFIX) ==
      "keryxsim:" +
      ("qqg3zyg3" + "zyg3zyg3" + "zyg3zyg3" + "zyg3zyg3" + "zyg3zyg3" + "zyg3zyg3" + "zyg3z") + "s5zp29vm"
  {
    hide Regrouped, Covered, Register, CheckWords, Text, DATA;
    KeyRegrouped();
    CoveredIs(DATA);
    RegisterOfAll();
    DataText();
    CheckText();
    TextConcat(DATA, CheckWords(CHECK, 8));
    assert PREFIX + ":" == "keryxsim:";
  }
}
