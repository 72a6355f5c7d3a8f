/** Regrouping bytes into 5-bit words (`to_words`). The 32-bit accumulator is
    shifted left by eight for every byte, so its high bits run over; the words
    read from its low bits are nevertheless exactly the input bits, zero-padded
    at the end, and determine the input. */
module Regroup {
  import opened Checksum

  type u32 = bv32

  /** Five bytes as one 40-bit number, first byte on top. */
  function Pack(a: u8, b: u8, c: u8, d: u8, e: u8): u64 {
    (a as u64 << 32) | (b as u64 << 24) | (c as u64 << 16) | (d as u64 << 8) | (e as u64)
  }

  /** Up to five bytes, zero-padded to five, as one 40-bit number. */
  function PackUp(x: seq<u8>): u64
    requires |x| <= 5
  {
    Pack(At(x, 0), At(x, 1), At(x, 2), At(x, 3), At(x, 4))
  }

  function At(x: seq<u8>, i: nat): u8 { if i < |x| then x[i] else 0 }

  /** The words of `x`: eight per five bytes, the last group zero-padded to whole words. */
  function Regrouped(x: seq<u8>): seq<u8>
    decreases |x|
  {
    if |x| >= 5 then CheckWords(PackUp(x[..5]), 8) + Regrouped(x[5..])
    else CheckWords(PackUp(x), (8 * |x| + 4) / 5)
  }

  /** The words complete after reading `x`, before padding. */
  function Emitted(x: seq<u8>): seq<u8>
    decreases |x|
  {
    if |x| >= 5 then CheckWords(PackUp(x[..5]), 8) + Emitted(x[5..])
    else CheckWords(PackUp(x), 8 * |x| / 5)
  }

  // --- lossless ---

  /** ceil(8n/5) words, each below 32. */
  lemma {:induction false} RegroupedShape(x: seq<u8>)
    ensures |Regrouped(x)| == (8 * |x| + 4) / 5 && Words(Regrouped(x))
    decreases |x|
  {
    hide CheckWord, PackUp;
    if |x| >= 5 {
      RegroupedShape(x[5..]);
      CheckWordsAreWords(PackUp(x[..5]), 8);
    } else {
      CheckWordsAreWords(PackUp(x), (8 * |x| + 4) / 5);
    }
  }

  lemma CheckWordsAreWords(m: u64, n: nat)
    requires n <= 8
    ensures Words(CheckWords(m, n))
  {
    hide CheckWord;
    forall j | 0 <= j < n ensures CheckWords(m, n)[j] < 32 {
      NarrowWord(m, j);
    }
  }

  lemma NarrowWord(m: u64, j: nat)
    requires j < 8
    ensures CheckWord(m, j) < 32
  {
    if j == 0 {} else if j == 1 {} else if j == 2 {} else if j == 3 {}
    else if j == 4 {} else if j == 5 {} else if j == 6 {} else {}
  }

  /** The byte that bits 8i to 8i + 7 of the word stream spell. */
  function ByteAt(w: seq<u8>, i: nat): u8 {
    var k := i / 5 * 8;
    if i % 5 == 0 then (At(w, k) << 3) | (At(w, k + 1) >> 2)
    else if i % 5 == 1 then (At(w, k + 1) << 6) | (At(w, k + 2) << 1) | (At(w, k + 3) >> 4)
    else if i % 5 == 2 then (At(w, k + 3) << 4) | (At(w, k + 4) >> 1)
    else if i % 5 == 3 then (At(w, k + 4) << 7) | (At(w, k + 5) << 2) | (At(w, k + 6) >> 3)
    else (At(w, k + 6) << 5) | At(w, k + 7)
  }

  /** Words read back as bytes, the padding bits dropped. */
  function BytesOf(w: seq<u8>): seq<u8> {
    seq(5 * |w| / 8, i requires 0 <= i < 5 * |w| / 8 => ByteAt(w, i))
  }

  /** The eight words of five bytes spell those bytes. */
  lemma Spelled(a: u8, b: u8, c: u8, d: u8, e: u8)
    ensures var m := Pack(a, b, c, d, e);
      && (CheckWord(m, 0) << 3) | (CheckWord(m, 1) >> 2) == a
      && (CheckWord(m, 1) << 6) | (CheckWord(m, 2) << 1) | (CheckWord(m, 3) >> 4) == b
      && (CheckWord(m, 3) << 4) | (CheckWord(m, 4) >> 1) == c
      && (CheckWord(m, 4) << 7) | (CheckWord(m, 5) << 2) | (CheckWord(m, 6) >> 3) == d
      && (CheckWord(m, 6) << 5) | CheckWord(m, 7) == e
  {
  }

  lemma BlockReads(x: seq<u8>, w: seq<u8>, i: nat)
    requires |x| <= 5 && i < |x| && |w| >= (8 * |x| + 4) / 5
    requires forall j :: 0 <= j < (8 * |x| + 4) / 5 ==> w[j] == CheckWord(PackUp(x), j)
    ensures ByteAt(w, i) == x[i]
  {
    hide Pack, CheckWord;
    Spelled(At(x, 0), At(x, 1), At(x, 2), At(x, 3), At(x, 4));
    if i == 0 {} else if i == 1 {} else if i == 2 {} else if i == 3 {} else {}
  }

  /** Beyond the first eight words the reader sees only the rest. */
  lemma LaterByte(w: seq<u8>, i: nat)
    requires |w| >= 8 && i >= 5
    ensures ByteAt(w, i) == ByteAt(w[8..], i - 5)
  {
    assert i / 5 == (i - 5) / 5 + 1 && i % 5 == (i - 5) % 5;
    forall k: nat ensures At(w, k + 8) == At(w[8..], k) {
    }
  }

  lemma {:induction false} ReadsByte(x: seq<u8>, i: nat)
    requires i < |x|
    ensures |Regrouped(x)| == (8 * |x| + 4) / 5 && ByteAt(Regrouped(x), i) == x[i]
    decreases |x|
  {
    RegroupedShape(x);
    hide CheckWord, PackUp, ByteAt;
    if |x| < 5 {
      BlockReads(x, Regrouped(x), i);
    } else {
      var first := CheckWords(PackUp(x[..5]), 8);
      assert Regrouped(x) == first + Regrouped(x[5..]) && Regrouped(x)[8..] == Regrouped(x[5..]);
      if i < 5 {
        BlockReads(x[..5], Regrouped(x), i);
      } else {
        LaterByte(Regrouped(x), i);
        ReadsByte(x[5..], i - 5);
      }
    }
  }

  /** Reading the words back gives the bytes, all of them and nothing else. */
  lemma RegroupedReadsBack(x: seq<u8>)
    ensures BytesOf(Regrouped(x)) == x
  {
    RegroupedShape(x);
    hide Regrouped, ByteAt;
    forall i | 0 <= i < |x| ensures ByteAt(Regrouped(x), i) == x[i] {
      ReadsByte(x, i);
    }
  }

  /** So the words determine the bytes, and even their number. */
  lemma RegroupedInjective(x: seq<u8>, y: seq<u8>)
    requires Regrouped(x) == Regrouped(y)
    ensures x == y
  {
    RegroupedReadsBack(x);
    RegroupedReadsBack(y);
    hide Regrouped, BytesOf;
  }

  // --- the loop ---

  /** The word `s` bits up in the accumulator. */
  function WordAt(acc: u32, s: u32): u8
    requires s <= 12
  {
    ((acc >> s) & 31) as u8
  }

  /** Leftover bits after `r` bytes of a group. */
  function Leftover(r: nat): u32 {
    if r == 1 then 3 else if r == 2 then 1 else if r == 3 then 4 else if r == 4 then 2 else 0
  }

  /** The words byte number `r` of a group completes, given the byte before it. */
  function NewWords(r: nat, prev: u8, b: u8): seq<u8> {
    var acc: u32 := (prev as u32 << 8) | (b as u32);
    if r == 0 then [WordAt(acc, 3)]
    else if r == 1 then [WordAt(acc, 6), WordAt(acc, 1)]
    else if r == 2 then [WordAt(acc, 4)]
    else if r == 3 then [WordAt(acc, 7), WordAt(acc, 2)]
    else [WordAt(acc, 5), WordAt(acc, 0)]
  }

  /** Only the last two bytes in the accumulator are ever looked at, so what has run over
      its top does not matter. */
  lemma LowBitsDecide(acc: u32, prev: u8, b: u8, s: u32)
    requires acc & 255 == prev as u32 && s <= 7
    ensures WordAt((acc << 8) | (b as u32), s) == WordAt((prev as u32 << 8) | (b as u32), s)
  {
  }

  lemma Group0(b: u8)
    ensures CheckWord(Pack(b, 0, 0, 0, 0), 0) == WordAt(b as u32, 3)
  {
  }

  lemma Group1(a: u8, b: u8)
    ensures var m := Pack(a, b, 0, 0, 0); var acc: u32 := (a as u32 << 8) | (b as u32);
      && CheckWord(m, 0) == CheckWord(Pack(a, 0, 0, 0, 0), 0)
      && CheckWord(m, 1) == WordAt(acc, 6) && CheckWord(m, 2) == WordAt(acc, 1)
  {
  }

  lemma Group2(a: u8, b: u8, c: u8)
    ensures var m, n := Pack(a, b, c, 0, 0), Pack(a, b, 0, 0, 0); var acc: u32 := (b as u32 << 8) | (c as u32);
      && CheckWord(m, 0) == CheckWord(n, 0) && CheckWord(m, 1) == CheckWord(n, 1) && CheckWord(m, 2) == CheckWord(n, 2)
      && CheckWord(m, 3) == WordAt(acc, 4)
  {
  }

  lemma Group3(a: u8, b: u8, c: u8, d: u8)
    ensures var m, n := Pack(a, b, c, d, 0), Pack(a, b, c, 0, 0); var acc: u32 := (c as u32 << 8) | (d as u32);
      && CheckWord(m, 0) == CheckWord(n, 0) && CheckWord(m, 1) == CheckWord(n, 1) && CheckWord(m, 2) == CheckWord(n, 2)
      && CheckWord(m, 3) == CheckWord(n, 3)
      && CheckWord(m, 4) == WordAt(acc, 7) && CheckWord(m, 5) == WordAt(acc, 2)
  {
  }

  lemma Group4(a: u8, b: u8, c: u8, d: u8, e: u8)
    ensures var m, n := Pack(a, b, c, d, e), Pack(a, b, c, d, 0); var acc: u32 := (d as u32 << 8) | (e as u32);
      && CheckWord(m, 0) == CheckWord(n, 0) && CheckWord(m, 1) == CheckWord(n, 1) && CheckWord(m, 2) == CheckWord(n, 2)
      && CheckWord(m, 3) == CheckWord(n, 3) && CheckWord(m, 4) == CheckWord(n, 4) && CheckWord(m, 5) == CheckWord(n, 5)
      && CheckWord(m, 6) == WordAt(acc, 5) && CheckWord(m, 7) == WordAt(acc, 0)
  {
  }

  /** Reading one more byte of a group appends exactly its new words. */
  lemma GroupGrows(t: seq<u8>, b: u8)
    requires |t| < 5
    ensures var r := |t|; var prev := if t == [] then 0 else t[r - 1];
      CheckWords(PackUp(t + [b]), 8 * (r + 1) / 5) == CheckWords(PackUp(t), 8 * r / 5) + NewWords(r, prev, b)
  {
    hide PackUp, CheckWords, NewWords;
    if |t| == 0 { GroupGrows0(b); assert t + [b] == [b]; }
    else if |t| == 1 { GroupGrows1(t[0], b); assert t == [t[0]] && t + [b] == [t[0], b]; }
    else if |t| == 2 { GroupGrows2(t[0], t[1], b); assert t == [t[0], t[1]] && t + [b] == [t[0], t[1], b]; }
    else if |t| == 3 {
      GroupGrows3(t[0], t[1], t[2], b);
      assert t == [t[0], t[1], t[2]] && t + [b] == [t[0], t[1], t[2], b];
    } else {
      GroupGrows4(t[0], t[1], t[2], t[3], b);
      assert t == [t[0], t[1], t[2], t[3]] && t + [b] == [t[0], t[1], t[2], t[3], b];
    }
  }

  lemma ZeroPrev(b: u8)
    ensures (0 as u8 as u32 << 8) | (b as u32) == b as u32
  {
  }

  lemma GroupGrows0(b: u8)
    ensures CheckWords(PackUp([b]), 1) == CheckWords(PackUp([]), 0) + NewWords(0, 0, b)
  {
    hide Pack, CheckWord, WordAt;
    Group0(b);
    ZeroPrev(b);
  }

  lemma GroupGrows1(a: u8, b: u8)
    ensures CheckWords(PackUp([a, b]), 3) == CheckWords(PackUp([a]), 1) + NewWords(1, a, b)
  {
    hide Pack, CheckWord, WordAt;
    Group1(a, b);
  }

  lemma GroupGrows2(a: u8, b: u8, c: u8)
    ensures CheckWords(PackUp([a, b, c]), 4) == CheckWords(PackUp([a, b]), 3) + NewWords(2, b, c)
  {
    hide Pack, CheckWord, WordAt;
    Group2(a, b, c);
  }

  lemma GroupGrows3(a: u8, b: u8, c: u8, d: u8)
    ensures CheckWords(PackUp([a, b, c, d]), 6) == CheckWords(PackUp([a, b, c]), 4) + NewWords(3, c, d)
  {
    hide Pack, CheckWord, WordAt;
    Group3(a, b, c, d);
  }

  lemma GroupGrows4(a: u8, b: u8, c: u8, d: u8, e: u8)
    ensures CheckWords(PackUp([a, b, c, d, e]), 8) == CheckWords(PackUp([a, b, c, d]), 6) + NewWords(4, d, e)
  {
    hide Pack, CheckWord, WordAt;
    Group4(a, b, c, d, e);
  }

  /** The same over the whole input. */
  lemma {:induction false} EmittedSnoc(x: seq<u8>, b: u8)
    ensures var prev := if |x| % 5 == 0 then 0 else x[|x| - 1];
      Emitted(x + [b]) == Emitted(x) + NewWords(|x| % 5, prev, b)
    decreases |x|
  {
    hide PackUp, CheckWords, NewWords, Emitted;
    var y := x + [b];
    if |x| >= 5 {
      EmittedSnoc(x[5..], b);
      assert y[..5] == x[..5] && y[5..] == x[5..] + [b];
      EmittedGroup(x);
      EmittedGroup(y);
    } else {
      GroupGrows(x, b);
      EmittedTail(x);
      if |x| == 4 {
        assert y[..5] == y && y[5..] == [];
        EmittedGroup(y);
        EmittedNothing();
      } else {
        EmittedTail(y);
      }
    }
  }

  lemma EmittedGroup(x: seq<u8>)
    requires |x| >= 5
    ensures Emitted(x) == CheckWords(PackUp(x[..5]), 8) + Emitted(x[5..])
  {
    hide PackUp, CheckWords;
  }

  lemma EmittedTail(x: seq<u8>)
    requires |x| < 5
    ensures Emitted(x) == CheckWords(PackUp(x), 8 * |x| / 5)
  {
    hide PackUp, CheckWords;
  }

  lemma EmittedNothing()
    ensures Emitted([]) == []
  {
  }

  /** Padding the leftover bits gives the last word. */
  lemma {:induction false} PadEmitted(x: seq<u8>, acc: u32)
    requires x != [] ==> acc & 255 == x[|x| - 1] as u32
    ensures Regrouped(x) == Emitted(x) +
      if |x| % 5 == 0 then [] else [LastWord(acc, |x| % 5)]
    decreases |x|
  {
    hide PackUp, CheckWords, LastWord;
    if |x| >= 5 {
      PadEmitted(x[5..], acc);
    } else if |x| == 0 {
    } else {
      PadGroup(x, acc);
    }
  }

  function LastWord(acc: u32, r: nat): u8 {
    if r == 1 then ((acc << 2) & 31) as u8 else if r == 2 then ((acc << 4) & 31) as u8
    else if r == 3 then ((acc << 1) & 31) as u8 else ((acc << 3) & 31) as u8
  }

  lemma PadBits(acc: u32, a: u8, b: u8, c: u8, d: u8)
    ensures acc & 255 == a as u32 ==> LastWord(acc, 1) == CheckWord(Pack(a, 0, 0, 0, 0), 1)
    ensures acc & 255 == b as u32 ==> LastWord(acc, 2) == CheckWord(Pack(a, b, 0, 0, 0), 3)
    ensures acc & 255 == c as u32 ==> LastWord(acc, 3) == CheckWord(Pack(a, b, c, 0, 0), 4)
    ensures acc & 255 == d as u32 ==> LastWord(acc, 4) == CheckWord(Pack(a, b, c, d, 0), 6)
  {
  }

  lemma PadGroup(x: seq<u8>, acc: u32)
    requires 0 < |x| < 5 && acc & 255 == x[|x| - 1] as u32
    ensures CheckWords(PackUp(x), (8 * |x| + 4) / 5) == CheckWords(PackUp(x), 8 * |x| / 5) + [LastWord(acc, |x|)]
  {
    assert LastWord(acc, |x|) == CheckWord(PackUp(x), 8 * |x| / 5) by {
      hide Pack, CheckWord, LastWord, CheckWords;
      PadBits(acc, At(x, 0), At(x, 1), At(x, 2), At(x, 3));
    }
    hide PackUp, CheckWord, LastWord;
  }

  /** The words read while draining the accumulator are the byte's new words. */
  lemma DrainWords(r: nat, acc: u32, prev: u8, b: u8, full: u32)
    requires r < 5 && full == (acc << 8) | (b as u32) && (r > 0 ==> acc & 255 == prev as u32)
    ensures r == 0 ==> NewWords(r, 0, b) == [WordAt(full, 3)]
    ensures r == 1 ==> NewWords(r, prev, b) == [WordAt(full, 6), WordAt(full, 1)]
    ensures r == 2 ==> NewWords(r, prev, b) == [WordAt(full, 4)]
    ensures r == 3 ==> NewWords(r, prev, b) == [WordAt(full, 7), WordAt(full, 2)]
    ensures r == 4 ==> NewWords(r, prev, b) == [WordAt(full, 5), WordAt(full, 0)]
    ensures full & 255 == b as u32
  {
    hide WordAt, NewWords;
    KeepsLowByte(acc, b);
    if r == 0 { DrainWords0(acc, b); }
    else if r == 1 { DrainWords1(acc, prev, b); }
    else if r == 2 { DrainWords2(acc, prev, b); }
    else if r == 3 { DrainWords3(acc, prev, b); }
    else { DrainWords4(acc, prev, b); }
  }

  lemma DrainWords0(acc: u32, b: u8)
    ensures NewWords(0, 0, b) == [WordAt((acc << 8) | (b as u32), 3)]
  {
    hide WordAt;
    FirstOfGroup(acc, b);
  }

  lemma DrainWords1(acc: u32, prev: u8, b: u8)
    requires acc & 255 == prev as u32
    ensures NewWords(1, prev, b) == [WordAt((acc << 8) | (b as u32), 6), WordAt((acc << 8) | (b as u32), 1)]
  {
    hide WordAt;
    LowBitsDecide(acc, prev, b, 6);
    LowBitsDecide(acc, prev, b, 1);
  }

  lemma DrainWords2(acc: u32, prev: u8, b: u8)
    requires acc & 255 == prev as u32
    ensures NewWords(2, prev, b) == [WordAt((acc << 8) | (b as u32), 4)]
  {
    hide WordAt;
    LowBitsDecide(acc, prev, b, 4);
  }

  lemma DrainWords3(acc: u32, prev: u8, b: u8)
    requires acc & 255 == prev as u32
    ensures NewWords(3, prev, b) == [WordAt((acc << 8) | (b as u32), 7), WordAt((acc << 8) | (b as u32), 2)]
  {
    hide WordAt;
    LowBitsDecide(acc, prev, b, 7);
    LowBitsDecide(acc, prev, b, 2);
  }

  lemma DrainWords4(acc: u32, prev: u8, b: u8)
    requires acc & 255 == prev as u32
    ensures NewWords(4, prev, b) == [WordAt((acc << 8) | (b as u32), 5), WordAt((acc << 8) | (b as u32), 0)]
  {
    hide WordAt;
    LowBitsDecide(acc, prev, b, 5);
    LowBitsDecide(acc, prev, b, 0);
  }

  lemma KeepsLowByte(acc: u32, b: u8)
    ensures ((acc << 8) | (b as u32)) & 255 == b as u32
  {
  }

  lemma FirstOfGroup(acc: u32, b: u8)
    ensures WordAt((acc << 8) | (b as u32), 3) == WordAt((0 as u8 as u32 << 8) | (b as u32), 3)
  {
  }

  /** The inner loop: take words off the top until fewer than five bits are left. */
  method Drain(acc: u32, start: u32, out: seq<u8>) returns (bits: u32, res: seq<u8>)
    requires 8 <= start <= 12
    ensures start < 10 ==> bits == start - 5 && res == out + [WordAt(acc, start - 5)]
    ensures start >= 10 ==> bits == start - 10 && res == out + [WordAt(acc, start - 5), WordAt(acc, start - 10)]
  {
    hide WordAt;
    bits, res := start, out;
    while bits >= 5
      invariant (bits == start && res == out) || (bits == start - 5 && res == out + [WordAt(acc, start - 5)])
             || (start >= 10 && bits == start - 10 && res == out + [WordAt(acc, start - 5), WordAt(acc, start - 10)])
      decreases bits
    {
      bits := bits - 5;
      res := res + [WordAt(acc, bits)];
    }
  }

  /** One byte through the accumulator. */
  method PushByte(acc: u32, bits: u32, out: seq<u8>, b: u8, ghost r: nat, ghost prev: u8)
    returns (acc': u32, bits': u32, res: seq<u8>)
    requires r < 5 && bits == Leftover(r) && (r > 0 ==> acc & 255 == prev as u32)
    ensures acc' & 255 == b as u32
    ensures bits' == Leftover((r + 1) % 5)
    ensures res == out + NewWords(r, if r == 0 then 0 else prev, b)
  {
    hide WordAt, NewWords;
    acc' := (acc << 8) | (b as u32);
    DrainWords(r, acc, prev, b, acc');
    if r == 0 {} else if r == 1 {} else if r == 2 {} else if r == 3 {} else {}
    bits', res := Drain(acc', bits + 8, out);
  }

  /** `to_words`. */
  method ToWords(bytes: seq<u8>) returns (out: seq<u8>)
    ensures out == Regrouped(bytes)
  {
    hide WordAt, NewWords, Emitted, Regrouped, LastWord;
    out := [];
    var acc: u32, bits: u32 := 0, 0;
    EmittedNothing();
    for i := 0 to |bytes|
      invariant bits == Leftover(i % 5)
      invariant i > 0 ==> acc & 255 == bytes[i - 1] as u32
      invariant out == Emitted(bytes[..i])
    {
      EmittedSnoc(bytes[..i], bytes[i]);
      assert bytes[..i + 1] == bytes[..i] + [bytes[i]];
      assert (i + 1) % 5 == (i % 5 + 1) % 5;
      acc, bits, out := PushByte(acc, bits, out, bytes[i], i % 5, if i == 0 then 0 else bytes[i - 1]);
    }
    assert bytes[..|bytes|] == bytes;
    PadEmitted(bytes, acc);
    if bits > 0 {
      PadShift(acc, bits, |bytes| % 5);
      out := out + [((acc << (5 - bits)) & 31) as u8];
    } else {
      NoLeftover(|bytes| % 5);
    }
  }

  lemma PadShift(acc: u32, bits: u32, r: nat)
    requires r < 5 && bits == Leftover(r) && bits > 0
    ensures r != 0 && bits <= 5 && ((acc << (5 - bits)) & 31) as u8 == LastWord(acc, r)
  {
    if r == 1 {} else if r == 2 {} else if r == 3 {} else {}
  }

  lemma NoLeftover(r: nat)
    requires r < 5 && Leftover(r) == 0
    ensures r == 0
  {
    if r == 1 {} else if r == 2 {} else if r == 3 {} else if r == 4 {}
  }
}
