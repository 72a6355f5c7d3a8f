/** The 40-bit BCH checksum of an address, kept in a 64-bit register. The step is
    linear over XOR and injective on 40-bit states, so a change confined to eight
    consecutive words always shows in the result, however long the input. */
module Checksum {

  type u8 = bv8
  type u64 = bv64

  // --- XOR algebra ---

  function Xor(a: u64, b: u64): u64 { a ^ b }

  lemma XorIs(a: u64, b: u64)
    ensures Xor(a, b) == a ^ b
  {
  }

  lemma RawAssoc(a: u64, b: u64, c: u64, ab: u64, bc: u64, l: u64, r: u64)
    requires ab == a ^ b && bc == b ^ c && l == ab ^ c && r == a ^ bc
    ensures l == r
  {
  }

  lemma XorAssoc(a: u64, b: u64, c: u64)
    ensures Xor(Xor(a, b), c) == Xor(a, Xor(b, c))
  {
    hide Xor;
    XorIs(a, b);
    XorIs(b, c);
    XorIs(Xor(a, b), c);
    XorIs(a, Xor(b, c));
    RawAssoc(a, b, c, Xor(a, b), Xor(b, c), Xor(Xor(a, b), c), Xor(a, Xor(b, c)));
  }

  lemma XorComm(a: u64, b: u64)
    ensures Xor(a, b) == Xor(b, a)
  {
  }

  lemma XorSelf(g: u64)
    ensures Xor(g, g) == 0 && Xor(g, 0) == g && Xor(0, g) == g
  {
  }

  lemma XorNonZero(a: u64, b: u64)
    ensures Xor(a, b) == 0 <==> a == b
  {
    hide Xor;
    XorSelf(a);
    if Xor(a, b) == 0 {
      XorAssoc(a, a, b);
      XorSelf(b);
    }
  }

  lemma Interchange(a: u64, b: u64, c: u64, d: u64)
    ensures Xor(Xor(a, b), Xor(c, d)) == Xor(Xor(a, c), Xor(b, d))
  {
    hide Xor;
    XorAssoc(a, b, Xor(c, d));
    XorAssoc(b, c, d);
    XorComm(b, c);
    XorAssoc(c, b, d);
    XorAssoc(a, c, Xor(b, d));
  }

  // --- one step ---

  /** A generator, when its feedback bit is set. */
  function Tap(on: bool, g: u64): u64 { if on then g else 0 }

  predicate Bit0(x: u64) { x & 1 == 1 }
  predicate Bit1(x: u64) { (x >> 1) & 1 == 1 }
  predicate Bit2(x: u64) { (x >> 2) & 1 == 1 }
  predicate Bit3(x: u64) { (x >> 3) & 1 == 1 }
  predicate Bit4(x: u64) { (x >> 4) & 1 == 1 }

  function Tap0(top: u64): u64 { Tap(Bit0(top), 0x98f2bc8e61) }
  function Tap1(top: u64): u64 { Tap(Bit1(top), 0x79b76d99e2) }
  function Tap2(top: u64): u64 { Tap(Bit2(top), 0xf33e5fb3c4) }
  function Tap3(top: u64): u64 { Tap(Bit3(top), 0xae2eabe2a8) }
  function Tap4(top: u64): u64 { Tap(Bit4(top), 0x1e4f43e470) }

  function Feedback(top: u64): u64 {
    Xor(Xor(Xor(Xor(Tap0(top), Tap1(top)), Tap2(top)), Tap3(top)), Tap4(top))
  }

  function Low(c: u64): u64 { (c & 0x07ffffffff) << 5 }
  function High(c: u64): u64 { c >> 35 }

  /** Shift one word in and fold the five bits shifted out back in. */
  function Step(c: u64, v: u64): u64 {
    Xor(Xor(Low(c), v), Feedback(High(c)))
  }

  lemma BitsXor(a: u64, b: u64)
    ensures Bit0(Xor(a, b)) == (Bit0(a) != Bit0(b))
    ensures Bit1(Xor(a, b)) == (Bit1(a) != Bit1(b))
    ensures Bit2(Xor(a, b)) == (Bit2(a) != Bit2(b))
    ensures Bit3(Xor(a, b)) == (Bit3(a) != Bit3(b))
    ensures Bit4(Xor(a, b)) == (Bit4(a) != Bit4(b))
  {
  }

  lemma TapXor(x: bool, y: bool, g: u64)
    ensures Tap(x != y, g) == Xor(Tap(x, g), Tap(y, g))
  {
    XorSelf(g);
    XorSelf(0);
    hide Xor;
  }

  lemma TapsXor(a: u64, b: u64)
    ensures Tap0(Xor(a, b)) == Xor(Tap0(a), Tap0(b))
    ensures Tap1(Xor(a, b)) == Xor(Tap1(a), Tap1(b))
    ensures Tap2(Xor(a, b)) == Xor(Tap2(a), Tap2(b))
    ensures Tap3(Xor(a, b)) == Xor(Tap3(a), Tap3(b))
    ensures Tap4(Xor(a, b)) == Xor(Tap4(a), Tap4(b))
  {
    hide Tap, Xor, Bit0, Bit1, Bit2, Bit3, Bit4;
    BitsXor(a, b);
    TapXor(Bit0(a), Bit0(b), 0x98f2bc8e61);
    TapXor(Bit1(a), Bit1(b), 0x79b76d99e2);
    TapXor(Bit2(a), Bit2(b), 0xf33e5fb3c4);
    TapXor(Bit3(a), Bit3(b), 0xae2eabe2a8);
    TapXor(Bit4(a), Bit4(b), 0x1e4f43e470);
  }

  lemma InterchangeFive(
    x0: u64, y0: u64, x1: u64, y1: u64, x2: u64, y2: u64, x3: u64, y3: u64, x4: u64, y4: u64)
    ensures Xor(Xor(Xor(Xor(Xor(x0, y0), Xor(x1, y1)), Xor(x2, y2)), Xor(x3, y3)), Xor(x4, y4)) ==
      Xor(Xor(Xor(Xor(Xor(x0, x1), x2), x3), x4), Xor(Xor(Xor(Xor(y0, y1), y2), y3), y4))
  {
    hide Xor;
    Interchange(x0, y0, x1, y1);
    Interchange(Xor(x0, x1), Xor(y0, y1), x2, y2);
    Interchange(Xor(Xor(x0, x1), x2), Xor(Xor(y0, y1), y2), x3, y3);
    Interchange(Xor(Xor(Xor(x0, x1), x2), x3), Xor(Xor(Xor(y0, y1), y2), y3), x4, y4);
  }

  lemma FeedbackXor(a: u64, b: u64)
    ensures Feedback(Xor(a, b)) == Xor(Feedback(a), Feedback(b))
  {
    hide Tap0, Tap1, Tap2, Tap3, Tap4, Xor;
    TapsXor(a, b);
    InterchangeFive(Tap0(a), Tap0(b), Tap1(a), Tap1(b), Tap2(a), Tap2(b), Tap3(a), Tap3(b), Tap4(a), Tap4(b));
  }

  lemma HighXor(a: u64, b: u64)
    ensures High(Xor(a, b)) == Xor(High(a), High(b))
  {
  }

  lemma LowXor(a: u64, b: u64)
    ensures Low(Xor(a, b)) == Xor(Low(a), Low(b))
  {
  }

  /** The step is linear over XOR. */
  lemma StepXor(a: u64, b: u64, u: u64, v: u64)
    ensures Step(Xor(a, b), Xor(u, v)) == Xor(Step(a, u), Step(b, v))
  {
    hide Feedback, Xor, Low, High;
    HighXor(a, b);
    LowXor(a, b);
    FeedbackXor(High(a), High(b));
    Interchange(Low(a), Low(b), u, v);
    Interchange(Xor(Low(a), u), Xor(Low(b), v), Feedback(High(a)), Feedback(High(b)));
  }

  /** The register never outgrows 40 bits. */
  const LIMIT: u64 := 0x100_0000_0000

  lemma StepRange(c: u64, v: u64)
    requires c < LIMIT && v < 256
    ensures Step(c, v) < LIMIT
  {
  }

  /** On 40-bit states the step with a zero word has a trivial kernel, so it is injective. */
  lemma StepZero(c: u64)
    requires c < LIMIT
    ensures Step(c, 0) == 0 <==> c == 0
  {
  }

  // --- whole inputs ---

  function Wide(v: u8): u64 { v as u64 }

  /** The register after `values`, started at `c`. */
  function Register(c: u64, values: seq<u8>): u64 {
    if values == [] then c
    else Step(Register(c, values[..|values| - 1]), Wide(values[|values| - 1]))
  }

  function Polymod(values: seq<u8>): u64 {
    Xor(Register(1, values), 1)
  }

  function XorAll(xs: seq<u8>, ys: seq<u8>): seq<u8>
    requires |xs| == |ys|
  {
    seq(|xs|, i requires 0 <= i < |xs| => xs[i] ^ ys[i])
  }

  lemma WideXor(a: u8, b: u8)
    ensures Wide(a ^ b) == Xor(Wide(a), Wide(b))
  {
  }

  lemma WideIsSmall(a: u8)
    ensures Wide(a) < 256 && (Wide(a) == 0 <==> a == 0)
  {
  }

  /** The register is linear in its start and its input together. */
  lemma {:induction false} RegisterXor(a: u64, b: u64, xs: seq<u8>, ys: seq<u8>)
    requires |xs| == |ys|
    ensures Register(Xor(a, b), XorAll(xs, ys)) == Xor(Register(a, xs), Register(b, ys))
    decreases |xs|
  {
    hide Step, Xor, Wide;
    if xs != [] {
      var k := |xs| - 1;
      RegisterXor(a, b, xs[..k], ys[..k]);
      assert XorAll(xs, ys)[..k] == XorAll(xs[..k], ys[..k]);
      WideXor(xs[k], ys[k]);
      StepXor(Register(a, xs[..k]), Register(b, ys[..k]), Wide(xs[k]), Wide(ys[k]));
    }
  }

  lemma {:induction false} RegisterConcat(c: u64, xs: seq<u8>, ys: seq<u8>)
    ensures Register(c, xs + ys) == Register(Register(c, xs), ys)
    decreases |ys|
  {
    hide Step, Wide;
    if ys == [] {
      assert xs + ys == xs;
    } else {
      var k := |ys| - 1;
      RegisterConcat(c, xs, ys[..k]);
      assert (xs + ys)[..|xs| + k] == xs + ys[..k];
    }
  }

  lemma {:induction false} RegisterRange(c: u64, xs: seq<u8>)
    requires c < LIMIT
    ensures Register(c, xs) < LIMIT
    decreases |xs|
  {
    hide Step, Wide;
    if xs != [] {
      RegisterRange(c, xs[..|xs| - 1]);
      WideIsSmall(xs[|xs| - 1]);
      StepRange(Register(c, xs[..|xs| - 1]), Wide(xs[|xs| - 1]));
    }
  }

  predicate AllZero(xs: seq<u8>) {
    forall i :: 0 <= i < |xs| ==> xs[i] == 0
  }

  /** Zero words never make a non-zero register zero, nor a zero one non-zero. */
  lemma {:induction false} ZerosKeepRegister(c: u64, zs: seq<u8>)
    requires c < LIMIT && AllZero(zs)
    ensures Register(c, zs) == 0 <==> c == 0
    decreases |zs|
  {
    hide Step, Wide;
    if zs != [] {
      var k := |zs| - 1;
      ZerosKeepRegister(c, zs[..k]);
      RegisterRange(c, zs[..k]);
      WideIsSmall(zs[k]);
      StepZero(Register(c, zs[..k]));
    }
  }

  // --- eight words from an empty register ---

  /** Bound on the register after `j` words from zero: 2^(5j). */
  function Room(j: nat): u64 {
    if j == 0 then 1 else if j == 1 then 0x20 else if j == 2 then 0x400 else if j == 3 then 0x8000
    else if j == 4 then 0x10_0000 else if j == 5 then 0x200_0000 else if j == 6 then 0x4000_0000
    else if j == 7 then 0x8_0000_0000 else LIMIT
  }

  /** While fewer than eight words are in, nothing is fed back and nothing is lost. */
  lemma FillStep(c: u64, v: u64, j: nat)
    requires j < 8 && c < Room(j) && v < 32
    ensures Step(c, v) < Room(j + 1)
    ensures Step(c, v) == 0 <==> c == 0 && v == 0
  {
    assert c < 0x8_0000_0000 by { hide Step; }
    NoFeedback(c, v);
    hide Step;
    if j == 0 {} else if j == 1 {} else if j == 2 {} else if j == 3 {}
    else if j == 4 {} else if j == 5 {} else if j == 6 {} else {}
  }

  lemma NoFeedback(c: u64, v: u64)
    requires c < 0x8_0000_0000 && v < 32
    ensures Step(c, v) == (c << 5) | v
  {
  }

  predicate Words(xs: seq<u8>) {
    forall i :: 0 <= i < |xs| ==> xs[i] < 32
  }

  /** Up to eight words loaded into an empty register leave it zero only if all are zero. */
  lemma {:induction false} FillIsFaithful(ws: seq<u8>)
    requires |ws| <= 8 && Words(ws)
    ensures Register(0, ws) < Room(|ws|)
    ensures Register(0, ws) == 0 <==> AllZero(ws)
    decreases |ws|
  {
    hide Step, Wide, Room;
    if ws == [] {
      RoomAtStart();
    } else {
      var k := |ws| - 1;
      FillIsFaithful(ws[..k]);
      WideWord(ws[k]);
      FillStep(Register(0, ws[..k]), Wide(ws[k]), k);
      assert AllZero(ws) <==> AllZero(ws[..k]) && ws[k] == 0;
    }
  }

  lemma RoomAtStart()
    ensures Room(0) == 1
    ensures 0 < Room(0)
  {
  }

  lemma WideWord(w: u8)
    requires w < 32
    ensures Wide(w) < 32 && (Wide(w) == 0 <==> w == 0)
  {
  }

  // --- burst detection ---

  lemma XorWord(a: u8, b: u8)
    requires a < 32 && b < 32
    ensures a ^ b < 32 && (a ^ b == 0 <==> a == b)
  {
  }

  lemma RoomFits(j: nat)
    requires j <= 8
    ensures Room(j) <= LIMIT
  {
  }

  /** The register of a difference that is zero outside at most eight consecutive words. */
  lemma BurstRegister(zs: seq<u8>, ws: seq<u8>, ts: seq<u8>)
    requires AllZero(zs) && AllZero(ts) && |ws| <= 8 && Words(ws)
    ensures Register(0, zs + ws + ts) == 0 <==> AllZero(ws)
  {
    hide Register, Step, Words;
    RegisterConcat(0, zs + ws, ts);
    RegisterConcat(0, zs, ws);
    ZerosKeepRegister(0, zs);
    FillIsFaithful(ws);
    RoomFits(|ws|);
    ZerosKeepRegister(Register(0, ws), ts);
  }

  lemma DiffParts(xs: seq<u8>, ys: seq<u8>, i: nat, j: nat)
    requires |xs| == |ys| && Words(xs) && Words(ys) && i <= j <= |xs|
    requires forall k :: 0 <= k < |xs| && !(i <= k < j) ==> xs[k] == ys[k]
    ensures var d := XorAll(xs, ys);
      && AllZero(d[..i]) && AllZero(d[j..]) && Words(d[i..j])
      && (AllZero(d[i..j]) <==> xs == ys)
      && d == d[..i] + d[i..j] + d[j..]
  {
    var d := XorAll(xs, ys);
    forall k | 0 <= k < |xs| ensures d[k] < 32 && (d[k] == 0 <==> xs[k] == ys[k]) {
      XorWord(xs[k], ys[k]);
    }
    if AllZero(d[i..j]) {
      forall k | 0 <= k < |xs| ensures xs[k] == ys[k] {
        if i <= k < j { assert d[i..j][k - i] == 0; }
      }
    }
  }

  /** Burst detection: two inputs of any length that differ, and differ only within eight
      consecutive words, have different checksums. */
  lemma BurstIsDetected(xs: seq<u8>, ys: seq<u8>, i: nat)
    requires |xs| == |ys| && Words(xs) && Words(ys) && xs != ys
    requires forall k :: 0 <= k < |xs| && !(i <= k < i + 8) ==> xs[k] == ys[k]
    ensures Polymod(xs) != Polymod(ys)
  {
    var lo := if i <= |xs| then i else |xs|;
    var hi := if i + 8 <= |xs| then i + 8 else |xs|;
    var d := XorAll(xs, ys);
    hide Register, Step, Words, AllZero, XorAll;
    DiffParts(xs, ys, lo, hi);
    BurstRegister(d[..lo], d[lo..hi], d[hi..]);
    RegisterXor(1, 1, xs, ys);
    XorSelf(1);
    var a, b := Register(1, xs), Register(1, ys);
    XorNonZero(a, b);
    LastXor(a, b);
  }

  lemma LastXor(a: u64, b: u64)
    ensures Xor(a, 1) == Xor(b, 1) <==> a == b
  {
  }

  // --- the checksum makes the whole input zero ---

  /** Word `j` of a 40-bit value, most significant first. */
  function CheckWord(m: u64, j: nat): u8
    requires j < 8
  {
    (if j == 0 then (m >> 35) & 31 else if j == 1 then (m >> 30) & 31 else if j == 2 then (m >> 25) & 31
     else if j == 3 then (m >> 20) & 31 else if j == 4 then (m >> 15) & 31 else if j == 5 then (m >> 10) & 31
     else if j == 6 then (m >> 5) & 31 else m & 31) as u8
  }

  /** The top `5j` bits of a 40-bit value. */
  function TopBits(m: u64, j: nat): u64
    requires j <= 8
  {
    if j == 0 then 0 else if j == 1 then m >> 35 else if j == 2 then m >> 30 else if j == 3 then m >> 25
    else if j == 4 then m >> 20 else if j == 5 then m >> 15 else if j == 6 then m >> 10
    else if j == 7 then m >> 5 else m
  }

  lemma LoadOne(m: u64, j: nat)
    requires m < LIMIT && j < 8
    ensures TopBits(m, j) < 0x8_0000_0000 && Wide(CheckWord(m, j)) < 32
    ensures Step(TopBits(m, j), Wide(CheckWord(m, j))) == TopBits(m, j + 1)
  {
    hide *;
    CheckWordIsSmall(m, j);
    TopBitsRoom(m, j);
    NoFeedback(TopBits(m, j), Wide(CheckWord(m, j)));
    ShiftsIn(m, j);
  }

  lemma CheckWordIsSmall(m: u64, j: nat)
    requires j < 8
    ensures Wide(CheckWord(m, j)) < 32
  {
    if j == 0 {} else if j == 1 {} else if j == 2 {} else if j == 3 {}
    else if j == 4 {} else if j == 5 {} else if j == 6 {} else {}
  }

  lemma TopBitsRoom(m: u64, j: nat)
    requires m < LIMIT && j < 8
    ensures TopBits(m, j) < 0x8_0000_0000
  {
    if j == 0 {} else if j == 1 {} else if j == 2 {} else if j == 3 {}
    else if j == 4 {} else if j == 5 {} else if j == 6 {} else {}
  }

  lemma ShiftsIn(m: u64, j: nat)
    requires m < LIMIT && j < 8
    ensures (TopBits(m, j) << 5) | Wide(CheckWord(m, j)) == TopBits(m, j + 1)
  {
    hide *;
    if j == 0 { ShiftsIn0(m); } else if j == 1 { ShiftsIn1(m); } else if j == 2 { ShiftsIn2(m); }
    else if j == 3 { ShiftsIn3(m); } else if j == 4 { ShiftsIn4(m); } else if j == 5 { ShiftsIn5(m); }
    else if j == 6 { ShiftsIn6(m); } else { ShiftsIn7(m); }
  }

  lemma ShiftsIn0(m: u64)
    requires m < LIMIT
    ensures (TopBits(m, 0) << 5) | Wide(CheckWord(m, 0)) == TopBits(m, 1)
  {
  }

  lemma ShiftsIn1(m: u64)
    requires m < LIMIT
    ensures (TopBits(m, 1) << 5) | Wide(CheckWord(m, 1)) == TopBits(m, 2)
  {
  }

  lemma ShiftsIn2(m: u64)
    requires m < LIMIT
    ensures (TopBits(m, 2) << 5) | Wide(CheckWord(m, 2)) == TopBits(m, 3)
  {
  }

  lemma ShiftsIn3(m: u64)
    requires m < LIMIT
    ensures (TopBits(m, 3) << 5) | Wide(CheckWord(m, 3)) == TopBits(m, 4)
  {
  }

  lemma ShiftsIn4(m: u64)
    requires m < LIMIT
    ensures (TopBits(m, 4) << 5) | Wide(CheckWord(m, 4)) == TopBits(m, 5)
  {
  }

  lemma ShiftsIn5(m: u64)
    requires m < LIMIT
    ensures (TopBits(m, 5) << 5) | Wide(CheckWord(m, 5)) == TopBits(m, 6)
  {
  }

  lemma ShiftsIn6(m: u64)
    requires m < LIMIT
    ensures (TopBits(m, 6) << 5) | Wide(CheckWord(m, 6)) == TopBits(m, 7)
  {
  }

  lemma ShiftsIn7(m: u64)
    requires m < LIMIT
    ensures (TopBits(m, 7) << 5) | Wide(CheckWord(m, 7)) == TopBits(m, 8)
  {
  }

  function CheckWords(m: u64, n: nat): seq<u8>
    requires n <= 8
  {
    seq(n, j requires 0 <= j < 8 => CheckWord(m, j))
  }

  /** Loading the eight words of `m` into an empty register puts `m` there. */
  lemma {:induction false} LoadWords(m: u64, n: nat)
    requires m < LIMIT && n <= 8
    ensures Register(0, CheckWords(m, n)) == TopBits(m, n)
    decreases n
  {
    hide Step, Wide, TopBits, CheckWord;
    if n == 0 {
      TopOfNone(m);
    } else {
      LoadWords(m, n - 1);
      assert CheckWords(m, n)[..n - 1] == CheckWords(m, n - 1);
      LoadOne(m, n - 1);
    }
  }

  lemma TopOfNone(m: u64)
    ensures TopBits(m, 0) == 0 && TopBits(m, 8) == m
  {
  }

  function Zeros(n: nat): seq<u8> { seq(n, _ => 0) }

  lemma SplitInput(input: seq<u8>, check: seq<u8>)
    requires |check| == 8
    ensures XorAll(input + Zeros(8), Zeros(|input|) + check) == input + check
  {
    var x, y := input + Zeros(8), Zeros(|input|) + check;
    forall i | 0 <= i < |x| ensures x[i] ^ y[i] == (input + check)[i] {
    }
  }

  /** Appending the eight words of the checksum of `input` makes the verdict zero. */
  lemma ChecksumVerifies(input: seq<u8>)
    ensures Polymod(input + CheckWords(Polymod(input + Zeros(8)), 8)) == 0
  {
    hide Register, CheckWord, XorAll;
    var s := Register(1, input + Zeros(8));
    var m := Polymod(input + Zeros(8));
    RegisterRange(1, input + Zeros(8));
    MasksOne(s);
    var check := CheckWords(m, 8);
    SplitInput(input, check);
    RegisterXor(1, 0, input + Zeros(8), Zeros(|input|) + check);
    XorSelf(1);
    RegisterConcat(0, Zeros(|input|), check);
    ZerosKeepRegister(0, Zeros(|input|));
    LoadWords(m, 8);
    TopOfNone(m);
    Cancels(s);
  }

  lemma MasksOne(s: u64)
    requires s < LIMIT
    ensures Xor(s, 1) < LIMIT
  {
  }

  lemma Cancels(s: u64)
    ensures Xor(Xor(s, Xor(s, 1)), 1) == 0
  {
  }

  // --- the loop ---

  /** `polymod`: the register loop with its five conditional XORs. */
  method ComputePolymod(values: seq<u8>) returns (r: u64)
    ensures r == Polymod(values)
  {
    var c: u64 := 1;
    for i := 0 to |values|
      invariant c == Register(1, values[..i])
    {
      c := ComputeStep(c, values[i]);
      assert values[..i + 1][..i] == values[..i];
    }
    assert values[..|values|] == values;
    r := Xor(c, 1);
  }

  method ComputeStep(c: u64, v: u8) returns (r: u64)
    ensures r == Step(c, Wide(v))
  {
    hide Tap, Xor, Bit0, Bit1, Bit2, Bit3, Bit4, Low, High, Wide;
    var top := High(c);
    r := Xor(Low(c), Wide(v));
    var x := r;
    r := Xor(r, Tap0(top));
    r := Xor(r, Tap1(top));
    r := Xor(r, Tap2(top));
    r := Xor(r, Tap3(top));
    r := Xor(r, Tap4(top));
    var t0, t1, t2, t3, t4 := Tap0(top), Tap1(top), Tap2(top), Tap3(top), Tap4(top);
    XorAssoc(x, t0, t1);
    XorAssoc(x, Xor(t0, t1), t2);
    XorAssoc(x, Xor(Xor(t0, t1), t2), t3);
    XorAssoc(x, Xor(Xor(Xor(t0, t1), t2), t3), t4);
  }
}
