/** Address encoding for the standard script forms, and the gate the API puts on
    addresses it is given. */
module Address {
  import opened Types
  import opened Checksum
  import opened Regroup
  import opened Hex

  const CHARSET: string := "qpzry9x8gf2tvdw0s3jn54khce6mua7l"

  // --- checksum of a prefix and data words ---

  /** A prefix byte reduced to five bits. */
  function PrefixWord(c: char): u8
    requires c as int < 128
  {
    (c as int as u8) & 31
  }

  /** What the checksum covers: the prefix words, a zero separator, then `data`. */
  function Covered(prefix: string, data: seq<u8>): seq<u8>
    requires IsAscii(prefix)
  {
    seq(|prefix|, i requires 0 <= i < |prefix| => PrefixWord(prefix[i])) + [0] + data
  }

  /** The eight words appended to an address. */
  function CheckOf(prefix: string, data: seq<u8>): seq<u8>
    requires IsAscii(prefix)
  {
    CheckWords(Polymod(Covered(prefix, data) + Zeros(8)), 8)
  }

  lemma CoveredWords(prefix: string, data: seq<u8>)
    requires IsAscii(prefix) && Words(data)
    ensures Words(Covered(prefix, data))
  {
    forall i | 0 <= i < |prefix| ensures Covered(prefix, data)[i] < 32 {
    }
  }

  /** The five bytes of a 40-bit value, most significant first. */
  function FiveBytes(m: u64): seq<u8> {
    [((m >> 32) & 255) as u8, ((m >> 24) & 255) as u8, ((m >> 16) & 255) as u8, ((m >> 8) & 255) as u8, (m & 255) as u8]
  }

  lemma FiveBytesPack(m: u64)
    requires m < LIMIT
    ensures Pack(((m >> 32) & 255) as u8, ((m >> 24) & 255) as u8, ((m >> 16) & 255) as u8,
                 ((m >> 8) & 255) as u8, (m & 255) as u8) == m
  {
  }

  /** Regrouping those five bytes gives the eight checksum words. */
  lemma FiveBytesRegrouped(m: u64)
    requires m < LIMIT
    ensures Regrouped(FiveBytes(m)) == CheckWords(m, 8)
  {
    hide Pack, CheckWords;
    FiveBytesPack(m);
    assert FiveBytes(m)[..5] == FiveBytes(m);
    NothingRegrouped();
  }

  lemma NothingRegrouped()
    ensures Regrouped([]) == []
  {
  }

  /** `checksum_words`. */
  method ComputeCheck(data: seq<u8>, prefix: string) returns (check: seq<u8>)
    requires IsAscii(prefix)
    ensures check == CheckOf(prefix, data)
  {
    hide CheckWord, Register, Regrouped;
    var input := Covered(prefix, data) + Zeros(8);
    var m := ComputePolymod(input);
    PolymodRange(input);
    var words := ToWords(FiveBytes(m));
    FiveBytesRegrouped(m);
    check := words[..8];
  }

  lemma PolymodRange(input: seq<u8>)
    ensures Polymod(input) < LIMIT
  {
    hide Register;
    RegisterRange(1, input);
    MasksOne(Register(1, input));
  }

  // --- text ---

  /** The character for a word; every word the encoder produces is below 32. */
  function CharOf(w: u8): char {
    if w < 32 then CHARSET[w as int] else '?'
  }

  function Text(words: seq<u8>): string {
    seq(|words|, i requires 0 <= i < |words| => CharOf(words[i]))
  }

  /** Position of a character in the charset. */
  function Rank(c: char): nat {
    if c == 'q' then 0 else if c == 'p' then 1 else if c == 'z' then 2 else if c == 'r' then 3
    else if c == 'y' then 4 else if c == '9' then 5 else if c == 'x' then 6 else if c == '8' then 7
    else if c == 'g' then 8 else if c == 'f' then 9 else if c == '2' then 10 else if c == 't' then 11
    else if c == 'v' then 12 else if c == 'd' then 13 else if c == 'w' then 14 else if c == '0' then 15
    else if c == 's' then 16 else if c == '3' then 17 else if c == 'j' then 18 else if c == 'n' then 19
    else if c == '5' then 20 else if c == '4' then 21 else if c == 'k' then 22 else if c == 'h' then 23
    else if c == 'c' then 24 else if c == 'e' then 25 else if c == '6' then 26 else if c == 'm' then 27
    else if c == 'u' then 28 else if c == 'a' then 29 else if c == '7' then 30 else if c == 'l' then 31
    else 32
  }

  lemma CharsetRanks0(i: nat)
    requires 0 <= i < 8
    ensures Rank(CHARSET[i]) == i
  {
    if i == 0 { assert CHARSET[0] == 'q'; }
    else if i == 1 { assert CHARSET[1] == 'p'; }
    else if i == 2 { assert CHARSET[2] == 'z'; }
    else if i == 3 { assert CHARSET[3] == 'r'; }
    else if i == 4 { assert CHARSET[4] == 'y'; }
    else if i == 5 { assert CHARSET[5] == '9'; }
    else if i == 6 { assert CHARSET[6] == 'x'; }
    else if i == 7 { assert CHARSET[7] == '8'; }
  }

  lemma CharsetRanks1(i: nat)
    requires 8 <= i < 16
    ensures Rank(CHARSET[i]) == i
  {
    if i == 8 { assert CHARSET[8] == 'g'; }
    else if i == 9 { assert CHARSET[9] == 'f'; }
    else if i == 10 { assert CHARSET[10] == '2'; }
    else if i == 11 { assert CHARSET[11] == 't'; }
    else if i == 12 { assert CHARSET[12] == 'v'; }
    else if i == 13 { assert CHARSET[13] == 'd'; }
    else if i == 14 { assert CHARSET[14] == 'w'; }
    else if i == 15 { assert CHARSET[15] == '0'; }
  }

  lemma CharsetRanks2(i: nat)
    requires 16 <= i < 24
    ensures Rank(CHARSET[i]) == i
  {
    if i == 16 { assert CHARSET[16] == 's'; }
    else if i == 17 { assert CHARSET[17] == '3'; }
    else if i == 18 { assert CHARSET[18] == 'j'; }
    else if i == 19 { assert CHARSET[19] == 'n'; }
    else if i == 20 { assert CHARSET[20] == '5'; }
    else if i == 21 { assert CHARSET[21] == '4'; }
    else if i == 22 { assert CHARSET[22] == 'k'; }
    else if i == 23 { assert CHARSET[23] == 'h'; }
  }

  lemma CharsetRanks3(i: nat)
    requires 24 <= i < 32
    ensures Rank(CHARSET[i]) == i
  {
    if i == 24 { assert CHARSET[24] == 'c'; }
    else if i == 25 { assert CHARSET[25] == 'e'; }
    else if i == 26 { assert CHARSET[26] == '6'; }
    else if i == 27 { assert CHARSET[27] == 'm'; }
    else if i == 28 { assert CHARSET[28] == 'u'; }
    else if i == 29 { assert CHARSET[29] == 'a'; }
    else if i == 30 { assert CHARSET[30] == '7'; }
    else if i == 31 { assert CHARSET[31] == 'l'; }
  }

  lemma CharsetRanks(i: nat)
    requires i < 32
    ensures Rank(CHARSET[i]) == i
  {
    hide Rank;
    if i < 8 { CharsetRanks0(i); }
    else if i < 16 { CharsetRanks1(i); }
    else if i < 24 { CharsetRanks2(i); }
    else { CharsetRanks3(i); }
  }

  // --- addresses ---

  /** The data words of an address: version byte and payload, regrouped. */
  function DataWords(version: u8, payload: seq<u8>): seq<u8> {
    Regrouped([version] + payload)
  }

  /** All words of an address, checksum included. */
  function AddressWords(version: u8, payload: seq<u8>, prefix: string): seq<u8>
    requires IsAscii(prefix)
  {
    DataWords(version, payload) + CheckOf(prefix, DataWords(version, payload))
  }

  function AddressOf(version: u8, payload: seq<u8>, prefix: string): string
    requires IsAscii(prefix)
  {
    prefix + ":" + Text(AddressWords(version, payload, prefix))
  }

  method AppendText(s: string, words: seq<u8>) returns (r: string)
    ensures r == s + Text(words)
  {
    hide CharOf;
    r := s;
    for i := 0 to |words|
      invariant r == s + Text(words[..i])
    {
      assert Text(words[..i + 1]) == Text(words[..i]) + [CharOf(words[i])];
      r := r + [CharOf(words[i])];
    }
    assert words[..|words|] == words;
  }

  /** `encode_address`. */
  method EncodeAddress(version: u8, payload: seq<u8>, prefix: string) returns (s: string)
    requires IsAscii(prefix)
    ensures s == AddressOf(version, payload, prefix)
  {
    hide CharOf, CheckOf, Regrouped;
    var data := ToWords([version] + payload);
    var check := ComputeCheck(data, prefix);
    s := AppendText(prefix + ":", data);
    s := AppendText(s, check);
    assert Text(data) + Text(check) == Text(data + check);
  }

  lemma AddressShape(version: u8, payload: seq<u8>, prefix: string)
    requires IsAscii(prefix)
    ensures var w := AddressWords(version, payload, prefix);
      && |CheckOf(prefix, DataWords(version, payload))| == 8
      && |w| == (8 * (|payload| + 1) + 4) / 5 + 8
      && Words(w)
  {
    hide CheckWord, Regrouped;
    RegroupedShape([version] + payload);
    CheckWordsAreWords(Polymod(Covered(prefix, DataWords(version, payload)) + Zeros(8)), 8);
  }

  /** The checksum of an address verifies. */
  lemma AddressVerifies(version: u8, payload: seq<u8>, prefix: string)
    requires IsAscii(prefix)
    ensures Polymod(Covered(prefix, AddressWords(version, payload, prefix))) == 0
  {
    hide CheckWords, Polymod, Regrouped;
    var data := DataWords(version, payload);
    ChecksumVerifies(Covered(prefix, data));
    assert Covered(prefix, AddressWords(version, payload, prefix)) == Covered(prefix, data) + CheckOf(prefix, data);
  }

  /** Damage to at most eight neighbouring characters of an address never verifies. */
  lemma DamagedAddressFails(version: u8, payload: seq<u8>, prefix: string, words: seq<u8>, i: nat)
    requires IsAscii(prefix)
    requires var w := AddressWords(version, payload, prefix);
      && |words| == |w| && Words(words) && words != w
      && forall k :: 0 <= k < |w| && !(i <= k < i + 8) ==> words[k] == w[k]
    ensures Polymod(Covered(prefix, words)) != 0
  {
    var w := AddressWords(version, payload, prefix);
    hide AddressWords, Polymod, PrefixWord;
    AddressVerifies(version, payload, prefix);
    AddressShape(version, payload, prefix);
    var x, y, n := Covered(prefix, w), Covered(prefix, words), |prefix| + 1;
    CoveredWords(prefix, w);
    CoveredWords(prefix, words);
    assert x[n..] == w && y[n..] == words;
    forall k | 0 <= k < |x| && !(n + i <= k < n + i + 8) ensures x[k] == y[k] {
      CoveredAgree(prefix, w, words, k);
    }
    hide *;
    BurstIsDetected(x, y, n + i);
  }

  lemma CoveredAgree(prefix: string, w: seq<u8>, words: seq<u8>, k: nat)
    requires IsAscii(prefix) && |words| == |w| && k < |Covered(prefix, w)|
    requires k >= |prefix| + 1 ==> words[k - |prefix| - 1] == w[k - |prefix| - 1]
    ensures |Covered(prefix, w)| == |Covered(prefix, words)| && Covered(prefix, w)[k] == Covered(prefix, words)[k]
  {
    hide PrefixWord;
  }

  // --- reading an address back ---

  /** The words of an address, read from its characters. */
  function WordsIn(text: string): seq<u8> {
    seq(|text|, i requires 0 <= i < |text| => Rank(text[i]) as u8)
  }

  /** Version and payload of an address under `prefix`, checksum ignored. */
  function ReadAddress(a: string, prefix: string): Option<(u8, seq<u8>)> {
    if |a| < |prefix| + 9 then None
    else
      var words := WordsIn(a[|prefix| + 1..]);
      var bytes := BytesOf(words[..|words| - 8]);
      if bytes == [] then None else Some((bytes[0], bytes[1..]))
  }

  lemma CharReadsBack(w: u8)
    requires w < 32
    ensures Rank(CharOf(w)) as u8 == w
  {
    hide Rank;
    CharsetRanks(w as int);
  }

  lemma TextReadsBack(words: seq<u8>)
    requires Words(words)
    ensures WordsIn(Text(words)) == words
  {
    hide CharOf, Rank;
    forall i | 0 <= i < |words| ensures WordsIn(Text(words))[i] == words[i] {
      CharReadsBack(words[i]);
    }
  }

  /** Reading an address back gives the version and the payload it was made from. */
  lemma AddressReadsBack(version: u8, payload: seq<u8>, prefix: string)
    requires IsAscii(prefix)
    ensures ReadAddress(AddressOf(version, payload, prefix), prefix) == Some((version, payload))
  {
    hide Text, WordsIn, CheckOf, Regrouped, BytesOf, Words;
    var a, w, data := AddressOf(version, payload, prefix), AddressWords(version, payload, prefix),
                      DataWords(version, payload);
    AddressShape(version, payload, prefix);
    TextLength(w);
    assert a[|prefix| + 1..] == Text(w);
    TextReadsBack(w);
    assert w[..|w| - 8] == data;
    RegroupedReadsBack([version] + payload);
    assert ([version] + payload)[1..] == payload;
  }

  lemma TextLength(words: seq<u8>)
    ensures |Text(words)| == |words|
  {
  }

  /** So under one prefix an address determines its version and payload. */
  lemma AddressInjective(v: u8, p: seq<u8>, v': u8, p': seq<u8>, prefix: string)
    requires IsAscii(prefix) && AddressOf(v, p, prefix) == AddressOf(v', p', prefix)
    ensures v == v' && p == p'
  {
    AddressReadsBack(v, p, prefix);
    AddressReadsBack(v', p', prefix);
    hide AddressOf, ReadAddress;
  }

  // --- scripts ---

  predicate Bit(b: byte, weight: nat)
    requires weight > 0
  {
    b / weight % 2 == 1
  }

  function Flag(on: bool, weight: u8): u8 { if on then weight else 0 }

  function Assemble(b7: bool, b6: bool, b5: bool, b4: bool, b3: bool, b2: bool, b1: bool, b0: bool): u8 {
    Flag(b7, 0x80) | Flag(b6, 0x40) | Flag(b5, 0x20) | Flag(b4, 0x10) |
    Flag(b3, 8) | Flag(b2, 4) | Flag(b1, 2) | Flag(b0, 1)
  }

  /** The machine byte with the same eight bits. */
  function Narrow(b: byte): u8 {
    Assemble(Bit(b, 128), Bit(b, 64), Bit(b, 32), Bit(b, 16), Bit(b, 8), Bit(b, 4), Bit(b, 2), Bit(b, 1))
  }

  function Weight(on: bool, weight: nat): nat { if on then weight else 0 }

  lemma AssembleIs(b7: bool, b6: bool, b5: bool, b4: bool, b3: bool, b2: bool, b1: bool, b0: bool)
    ensures Assemble(b7, b6, b5, b4, b3, b2, b1, b0) as int ==
      Weight(b7, 128) + Weight(b6, 64) + Weight(b5, 32) + Weight(b4, 16) +
      Weight(b3, 8) + Weight(b2, 4) + Weight(b1, 2) + Weight(b0, 1)
  {
  }

  lemma BitIs(b: byte, weight: nat)
    requires weight > 0
    ensures Weight(Bit(b, weight), weight) == weight * (b / weight % 2)
  {
  }

  lemma HighDigits(b: byte)
    ensures b / 16 == 8 * (b / 128 % 2) + 4 * (b / 64 % 2) + 2 * (b / 32 % 2) + b / 16 % 2
  {
    assert b / 128 % 2 == b / 128;
    assert b / 64 == 2 * (b / 128) + b / 64 % 2;
    assert b / 32 == 2 * (b / 64) + b / 32 % 2;
    assert b / 16 == 2 * (b / 32) + b / 16 % 2;
  }

  lemma LowDigits(b: byte)
    ensures b == 16 * (b / 16) + 8 * (b / 8 % 2) + 4 * (b / 4 % 2) + 2 * (b / 2 % 2) + b / 1 % 2
  {
    assert b / 8 == 2 * (b / 16) + b / 8 % 2;
    assert b / 4 == 2 * (b / 8) + b / 4 % 2;
    assert b / 2 == 2 * (b / 4) + b / 2 % 2;
  }

  lemma BinaryDigits(b: byte)
    ensures b == 128 * (b / 128 % 2) + 64 * (b / 64 % 2) + 32 * (b / 32 % 2) + 16 * (b / 16 % 2)
              + 8 * (b / 8 % 2) + 4 * (b / 4 % 2) + 2 * (b / 2 % 2) + b / 1 % 2
  {
    HighDigits(b);
    LowDigits(b);
  }

  lemma NarrowIs(b: byte)
    ensures Narrow(b) as int == b
  {
    hide Assemble, Bit, Weight;
    AssembleIs(Bit(b, 128), Bit(b, 64), Bit(b, 32), Bit(b, 16), Bit(b, 8), Bit(b, 4), Bit(b, 2), Bit(b, 1));
    BinaryDigits(b);
    BitIs(b, 128);
    BitIs(b, 64);
    BitIs(b, 32);
    BitIs(b, 16);
    BitIs(b, 8);
    BitIs(b, 4);
    BitIs(b, 2);
    BitIs(b, 1);
  }

  /** Script bytes as machine bytes. */
  function Octets(bs: seq<byte>): seq<u8> {
    seq(|bs|, i requires 0 <= i < |bs| => Narrow(bs[i]))
  }

  /** The standard script forms: version and payload of the address they pay. */
  function Standard(script: seq<u8>): Option<(u8, seq<u8>)> {
    var n := |script|;
    if n == 34 && script[0] == 0x20 && script[33] == 0xac then Some((0, script[1..33]))
    else if n == 35 && script[0] == 0x21 && script[34] == 0xab then Some((1, script[1..34]))
    else if n == 35 && script[0] == 0xaa && script[1] == 0x20 && script[34] == 0x87 then Some((8, script[2..34]))
    else None
  }

  /** `script_to_address`. */
  function ScriptToAddress(hex: string, prefix: string): Option<string>
    requires IsAscii(prefix)
  {
    var script := FromHex(hex);
    if script.None? then None
    else
      var form := Standard(Octets(script.value));
      if form.None? then None else Some(AddressOf(form.value.0, form.value.1, prefix))
  }

  /** The script that pays payload `p` of an address of that version: to a schnorr key, to an
      ECDSA key, or to a script hash. */
  predicate FormOf(script: seq<byte>, version: u8, p: seq<byte>) {
    || (version == 0 && |p| == 32 && script == [0x20] + p + [0xac])
    || (version == 1 && |p| == 33 && script == [0x21] + p + [0xab])
    || (version == 8 && |p| == 32 && script == [0xaa, 0x20] + p + [0x87])
  }

  lemma OctetIs(bs: seq<byte>, i: nat, c: u8)
    requires i < |bs| && Octets(bs)[i] == c
    ensures bs[i] == c as int
  {
    NarrowIs(bs[i]);
  }

  lemma OctetsSlice(bs: seq<byte>, lo: nat, hi: nat)
    requires lo <= hi <= |bs|
    ensures Octets(bs)[lo..hi] == Octets(bs[lo..hi])
  {
    hide Narrow;
  }

  /** Whatever is read as a standard form pays exactly that payload. */
  lemma StandardForm(script: seq<byte>)
    requires Standard(Octets(script)).Some?
    ensures var (v, q) := Standard(Octets(script)).value; exists p :: FormOf(script, v, p) && q == Octets(p)
  {
    hide Narrow, FormOf;
    var n := |script|;
    OctetIs(script, 0, Octets(script)[0]);
    OctetIs(script, 1, Octets(script)[1]);
    OctetIs(script, n - 1, Octets(script)[n - 1]);
    var (v, q) := Standard(Octets(script)).value;
    var p := if v == 8 then script[2..34] else if v == 1 then script[1..34] else script[1..33];
    OctetsSlice(script, if v == 8 then 2 else 1, n - 1);
    FormIs(script, v, p);
  }

  lemma FormIs(script: seq<byte>, v: u8, p: seq<byte>)
    requires || (v == 0 && |script| == 34 && script[0] == 0x20 && script[33] == 0xac && p == script[1..33])
             || (v == 1 && |script| == 35 && script[0] == 0x21 && script[34] == 0xab && p == script[1..34])
             || (v == 8 && |script| == 35 && script[..2] == [0xaa, 0x20] && script[34] == 0x87 && p == script[2..34])
    ensures FormOf(script, v, p)
  {
    if v == 8 {
      assert script == script[..2] + p + [script[34]];
    } else {
      assert script == [script[0]] + p + [script[|script| - 1]];
    }
  }

  lemma SameOctet(x: u8, y: u8)
    requires x as int == y as int
    ensures x == y
  {
  }

  /** The machine byte at a position where the script holds `c`. */
  lemma OctetAt(bs: seq<byte>, i: nat, c: u8)
    requires i < |bs| && bs[i] == c as int
    ensures Octets(bs)[i] == c
  {
    hide Narrow;
    NarrowIs(bs[i]);
    SameOctet(Narrow(bs[i]), c);
  }

  lemma PaidIsStandard(script: seq<byte>, v: u8, p: seq<byte>)
    requires FormOf(script, v, p)
    ensures Standard(Octets(script)) == Some((v, Octets(p)))
  {
    hide Narrow;
    var n := |script|;
    assert p == if v == 8 then script[2..34] else if v == 1 then script[1..34] else script[1..33];
    OctetsSlice(script, if v == 8 then 2 else 1, n - 1);
    OctetAt(script, 0, if v == 8 then 0xaa else if v == 1 then 0x21 else 0x20);
    OctetAt(script, n - 1, if v == 8 then 0x87 else if v == 1 then 0xab else 0xac);
    if v == 8 {
      OctetAt(script, 1, 0x20);
    }
  }

  /** A script has an address if and only if it is one of the three standard forms, and it is
      then the address of that form's version and payload. */
  lemma ScriptToAddressIff(hex: string, prefix: string, a: string)
    requires IsAscii(prefix)
    ensures ScriptToAddress(hex, prefix) == Some(a) <==>
      FromHex(hex).Some? && exists v, p :: FormOf(FromHex(hex).value, v, p) && a == AddressOf(v, Octets(p), prefix)
  {
    hide AddressOf, FromHex, Standard, Octets, FormOf;
    if FromHex(hex).Some? {
      var script := FromHex(hex).value;
      if Standard(Octets(script)).Some? {
        StandardForm(script);
        var (v, q) := Standard(Octets(script)).value;
        var p :| FormOf(script, v, p) && q == Octets(p);
      }
      forall v, p | FormOf(script, v, p) ensures Standard(Octets(script)) == Some((v, Octets(p))) {
        PaidIsStandard(script, v, p);
      }
    }
  }

  lemma OctetsInjective(x: seq<byte>, y: seq<byte>)
    requires Octets(x) == Octets(y)
    ensures x == y
  {
    assert |Octets(x)| == |x| && |Octets(y)| == |y|;
    forall i | 0 <= i < |x| ensures x[i] == y[i] {
      NarrowIs(x[i]);
      OctetIs(y, i, Octets(x)[i]);
    }
  }

  lemma FormDetermines(s: seq<byte>, t: seq<byte>, v: u8, p: seq<byte>)
    requires FormOf(s, v, p) && FormOf(t, v, p)
    ensures s == t
  {
  }

  /** Under one prefix, two scripts share an address only if they are the same bytes. */
  lemma ScriptToAddressInjective(s: string, t: string, prefix: string)
    requires IsAscii(prefix) && ScriptToAddress(s, prefix).Some?
    requires ScriptToAddress(s, prefix) == ScriptToAddress(t, prefix)
    ensures FromHex(s).Some? && FromHex(s) == FromHex(t)
  {
    hide AddressOf, FromHex, Standard, Octets, FormOf;
    var x, y := FromHex(s).value, FromHex(t).value;
    StandardForm(x);
    StandardForm(y);
    var f, g := Standard(Octets(x)).value, Standard(Octets(y)).value;
    AddressInjective(f.0, f.1, g.0, g.1, prefix);
    var p :| FormOf(x, f.0, p) && f.1 == Octets(p);
    var q :| FormOf(y, g.0, q) && g.1 == Octets(q);
    OctetsInjective(p, q);
    FormDetermines(x, y, f.0, p);
  }

  // --- networks and validation ---

  function Lower(s: string): string {
    seq(|s|, i requires 0 <= i < |s| => if 'A' <= s[i] <= 'Z' then (s[i] as int + 32) as char else s[i])
  }

  predicate Contains(s: string, p: string) {
    |p| <= |s| && (s[..|p|] == p || (s != [] && Contains(s[1..], p)))
  }

  function PrefixForNetwork(name: string): (p: string)
    ensures p in ADDRESS_PREFIXES
  {
    var n := Lower(name);
    if Contains(n, "mainnet") then "keryx"
    else if Contains(n, "testnet") then "keryxtest"
    else if Contains(n, "devnet") then "keryxdev"
    else "keryxsim"
  }

  /** The same letter, case aside. */
  predicate SameLetter(c: char, d: char) {
    c == d || c as int + 32 == d as int
  }

  /** `word` occurs in `name` from position `i` on, in any case. */
  predicate OccursAt(name: string, word: string, i: nat) {
    i + |word| <= |name| && forall k :: 0 <= k < |word| ==> SameLetter(name[i + k], word[k])
  }

  ghost predicate Mentions(name: string, word: string) {
    exists i: nat :: OccursAt(name, word, i)
  }

  predicate LowerCase(word: string) {
    forall k :: 0 <= k < |word| ==> 'a' <= word[k] <= 'z'
  }

  lemma StartsIff(name: string, word: string)
    requires LowerCase(word)
    ensures |word| <= |name| && Lower(name)[..|word|] == word <==> OccursAt(name, word, 0)
  {
    if |word| <= |name| {
      forall k | 0 <= k < |word| ensures Lower(name)[k] == word[k] <==> SameLetter(name[k], word[k]) {
      }
      assert forall k :: 0 <= k < |word| ==> Lower(name)[..|word|][k] == Lower(name)[k];
    }
  }

  lemma MentionsRest(name: string, word: string)
    requires name != []
    ensures Mentions(name, word) <==> OccursAt(name, word, 0) || Mentions(name[1..], word)
  {
    forall i: nat ensures OccursAt(name[1..], word, i) <==> OccursAt(name, word, i + 1) {
      assert forall m :: 0 <= m < |name| - 1 ==> name[1..][m] == name[m + 1];
      if OccursAt(name, word, i + 1) {
        assert forall k :: 0 <= k < |word| ==> SameLetter(name[i + 1 + k], word[k]);
      }
    }
    if i: nat :| OccursAt(name, word, i) && i > 0 {
      assert OccursAt(name[1..], word, i - 1);
    }
    if i: nat :| OccursAt(name[1..], word, i) {
      assert OccursAt(name, word, i + 1);
    }
  }

  lemma {:induction false} ContainsIff(name: string, word: string)
    requires LowerCase(word) && word != []
    ensures Contains(Lower(name), word) <==> Mentions(name, word)
    decreases |name|
  {
    hide OccursAt, LowerCase;
    StartsIff(name, word);
    if name == [] {
      NotInNothing(word);
    } else {
      ContainsIff(name[1..], word);
      assert Lower(name)[1..] == Lower(name[1..]);
      MentionsRest(name, word);
    }
  }

  lemma NotInNothing(word: string)
    requires word != []
    ensures !Mentions([], word) && !Contains([], word)
  {
  }

  /** The network's name decides the prefix, whatever its case: mainnet before testnet before
      devnet, and simnet's for anything else. */
  lemma NetworkPrefix(name: string)
    ensures var p := PrefixForNetwork(name);
      && (p == "keryx" <==> Mentions(name, "mainnet"))
      && (p == "keryxtest" <==> !Mentions(name, "mainnet") && Mentions(name, "testnet"))
      && (p == "keryxdev" <==>
            !Mentions(name, "mainnet") && !Mentions(name, "testnet") && Mentions(name, "devnet"))
      && (p == "keryxsim" <==>
            !Mentions(name, "mainnet") && !Mentions(name, "testnet") && !Mentions(name, "devnet"))
  {
    hide Contains, Mentions, Lower;
    ContainsIff(name, "mainnet");
    ContainsIff(name, "testnet");
    ContainsIff(name, "devnet");
    assert "keryx" != "keryxtest" && "keryx" != "keryxdev" && "keryx" != "keryxsim";
    assert "keryxtest" != "keryxdev" && "keryxtest" != "keryxsim";
    assert "keryxdev"[5] != "keryxsim"[5];
  }

  const ADDRESS_PREFIXES: seq<string> := ["keryx", "keryxtest", "keryxsim", "keryxdev"]

  /** Text before and after the first colon. */
  function SplitOnce(s: string): Option<(string, string)> {
    if s == [] then None
    else if s[0] == ':' then Some(("", s[1..]))
    else
      var rest := SplitOnce(s[1..]);
      if rest.None? then None else Some(([s[0]] + rest.value.0, rest.value.1))
  }

  datatype Verdict = Valid | NoColon | BadPrefix | BadPayload

  /** `validate_address`. */
  function ValidateAddress(address: string): Verdict {
    var parts := SplitOnce(address);
    if parts.None? then NoColon
    else if parts.value.0 !in ADDRESS_PREFIXES then BadPrefix
    else if parts.value.1 == "" || exists i :: 0 <= i < |parts.value.1| && parts.value.1[i] !in CHARSET then BadPayload
    else Valid
  }

  lemma {:induction false} SplitAtColon(p: string, q: string)
    requires forall i :: 0 <= i < |p| ==> p[i] != ':'
    ensures SplitOnce(p + ":" + q) == Some((p, q))
    decreases |p|
  {
    var s := p + ":" + q;
    if p == "" {
      assert s == ":" + q && s[1..] == q;
    } else {
      SplitAtColon(p[1..], q);
      assert s[1..] == p[1..] + ":" + q && s[0] == p[0];
      assert [p[0]] + p[1..] == p;
    }
  }

  lemma PrefixIsPlain(p: string)
    requires p in ADDRESS_PREFIXES
    ensures IsAscii(p) && forall i :: 0 <= i < |p| ==> p[i] != ':'
  {
    assert p == "keryx" || p == "keryxtest" || p == "keryxsim" || p == "keryxdev";
  }

  /** Every address the indexer derives for its network passes the API's gate. */
  lemma IndexedAddressIsValid(name: string, hex: string)
    ensures IsAscii(PrefixForNetwork(name))
    ensures var a := ScriptToAddress(hex, PrefixForNetwork(name)); a.Some? ==> ValidateAddress(a.value) == Valid
  {
    var prefix := PrefixForNetwork(name);
    hide PrefixForNetwork, FromHex, Standard, Octets;
    PrefixIsPlain(prefix);
    var a := ScriptToAddress(hex, prefix);
    if a.Some? {
      var form := Standard(Octets(FromHex(hex).value)).value;
      var words := AddressWords(form.0, form.1, prefix);
      AddressShape(form.0, form.1, prefix);
      SplitAtColon(prefix, Text(words));
      TextInCharset(words);
    }
    hide *;
  }

  lemma TextInCharset(words: seq<u8>)
    requires Words(words)
    ensures |Text(words)| == |words| && forall i :: 0 <= i < |words| ==> Text(words)[i] in CHARSET
  {
    forall i | 0 <= i < |words| ensures Text(words)[i] in CHARSET {
      assert Text(words)[i] == CHARSET[words[i] as int];
    }
  }

  lemma RankIsAscii(c: char)
    requires Rank(c) < 32
    ensures c as int < 128
  {
  }

  lemma CharsetIsAscii(c: char)
    requires c in CHARSET
    ensures c as int < 128
  {
    hide Rank;
    var i :| 0 <= i < |CHARSET| && CHARSET[i] == c;
    assert |CHARSET| == 32;
    CharsetRanks(i);
    RankIsAscii(c);
  }

  lemma {:induction false} SplitJoins(s: string)
    ensures SplitOnce(s).Some? ==> s == SplitOnce(s).value.0 + ":" + SplitOnce(s).value.1
  {
    if s != [] && s[0] != ':' {
      SplitJoins(s[1..]);
      assert s == [s[0]] + s[1..];
    } else if s != [] {
      assert s == "" + ":" + s[1..];
    }
  }

  lemma {:induction false} SplitIff(s: string)
    ensures SplitOnce(s).None? <==> ':' !in s
    ensures SplitOnce(s).Some? ==> ':' !in SplitOnce(s).value.0
    decreases |s|
  {
    if s != [] {
      SplitIff(s[1..]);
      assert s == [s[0]] + s[1..];
    }
  }

  /** The gate: an address passes if and only if it is a known prefix, a colon and a non-empty
      text over the charset; and it is told off for a missing colon exactly when it has none. */
  lemma ValidIff(address: string)
    ensures ValidateAddress(address) == Valid <==>
      exists p, q :: address == p + ":" + q && p in ADDRESS_PREFIXES && q != "" && forall c :: c in q ==> c in CHARSET
    ensures ValidateAddress(address) == NoColon <==> ':' !in address
    ensures ValidateAddress(address) == BadPrefix <==>
      exists p, q :: address == p + ":" + q && ':' !in p && p !in ADDRESS_PREFIXES
  {
    SplitIff(address);
    SplitJoins(address);
    var parts := SplitOnce(address);
    forall p, q | address == p + ":" + q && ':' !in p ensures parts == Some((p, q)) {
      SplitAtColon(p, q);
    }
    forall p | p in ADDRESS_PREFIXES ensures ':' !in p {
      PrefixIsPlain(p);
    }
    hide SplitOnce, ADDRESS_PREFIXES, CHARSET;
  }

  /** What the gate lets through is ASCII. */
  lemma ValidIsAscii(address: string)
    requires ValidateAddress(address) == Valid
    ensures IsAscii(address)
  {
    var parts := SplitOnce(address).value;
    SplitJoins(address);
    PrefixIsPlain(parts.0);
    forall i | 0 <= i < |parts.1| ensures parts.1[i] as int < 128 {
      CharsetIsAscii(parts.1[i]);
    }
    hide SplitOnce;
  }
}
