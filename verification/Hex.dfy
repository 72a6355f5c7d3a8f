/** Hex text. */
module Hex {
  import opened Types

  type Nibble = n: nat | n < 16

  function HexChar(d: nat): char
    requires d < 16
  {
    if d < 10 then (48 + d) as char else (87 + d) as char
  }

  /** The value of a hex digit; the parser takes both cases. */
  function HexValue(c: char): Option<Nibble> {
    if '0' <= c <= '9' then Some(c as nat - 48)
    else if 'a' <= c <= 'f' then Some(c as nat - 87)
    else if 'A' <= c <= 'F' then Some(c as nat - 55)
    else None
  }

  /** Two lower-case digits a byte. */
  function HexText(bytes: seq<byte>): string {
    if bytes == [] then ""
    else
      var b := bytes[|bytes| - 1];
      HexText(bytes[..|bytes| - 1]) + [HexChar(b / 16), HexChar(b % 16)]
  }

  /** `to_hex`. */
  method ToHex(bytes: seq<byte>) returns (s: string)
    ensures s == HexText(bytes)
  {
    s := "";
    for i := 0 to |bytes|
      invariant s == HexText(bytes[..i])
    {
      assert bytes[..i + 1][..i] == bytes[..i];
      s := s + [HexChar(bytes[i] / 16), HexChar(bytes[i] % 16)];
    }
    assert bytes[..|bytes|] == bytes;
  }

  /** Parsing the text of any bytes gives them back. */
  lemma {:induction false} HexRoundTrip(bytes: seq<byte>)
    ensures FromHex(HexText(bytes)) == Some(bytes) && |HexText(bytes)| == 2 * |bytes|
    decreases |bytes|
  {
    if bytes == [] {
      assert FromHex("") == Some([]);
    } else {
      var pre, b := bytes[..|bytes| - 1], bytes[|bytes| - 1];
      HexRoundTrip(pre);
      FromHexSnoc(HexText(pre), HexChar(b / 16), HexChar(b % 16));
      assert bytes == pre + [b];
    }
  }

  /** Two characters as a byte (`u8::from_str_radix`, which also takes a leading '+'). */
  function HexByte(c: char, d: char): Option<byte> {
    var hi, lo := HexValue(c), HexValue(d);
    if lo.None? then None
    else if hi.Some? then Some(hi.value * 16 + lo.value)
    else if c == '+' then Some(lo.value)
    else None
  }

  /** `from_hex` and `hex_to_bytes`: pairs of characters, nothing left over. */
  function FromHex(s: string): Option<seq<byte>> {
    if |s| == 0 then Some([])
    else if |s| == 1 then None
    else
      var rest, b := FromHex(s[2..]), HexByte(s[0], s[1]);
      if b.Some? && rest.Some? then Some([b.value] + rest.value) else None
  }

  lemma {:induction false} FromHexSnoc(s: string, c: char, d: char)
    requires FromHex(s).Some? && |s| % 2 == 0 && HexByte(c, d).Some?
    ensures FromHex(s + [c, d]) == Some(FromHex(s).value + [HexByte(c, d).value])
    decreases |s|
  {
    hide HexByte;
    var v := HexByte(c, d).value;
    if s == "" {
      assert s + [c, d] == [c, d] && [c, d][2..] == "";
      assert FromHex("") == Some([]);
      assert FromHex([c, d]) == Some([v] + []);
      assert FromHex(s).value + [v] == [v] + [];
    } else {
      FromHexSnoc(s[2..], c, d);
      assert (s + [c, d])[2..] == s[2..] + [c, d];
      var first, rest := FromHex(s).value[0], FromHex(s[2..]).value;
      assert [first] + (rest + [v]) == [first] + rest + [v];
    }
  }

  const LOWER_DIGITS := "0123456789abcdef"
  const UPPER_DIGITS := "0123456789ABCDEF"

  /** The text of a byte is its two lower-case digits, high one first. */
  lemma {:induction false} HexTextAt(bytes: seq<byte>, i: nat)
    requires i < |bytes|
    ensures |HexText(bytes)| == 2 * |bytes|
    ensures HexText(bytes)[2 * i] == LOWER_DIGITS[bytes[i] / 16]
    ensures HexText(bytes)[2 * i + 1] == LOWER_DIGITS[bytes[i] % 16]
    decreases |bytes|
  {
    var k := |bytes| - 1;
    HexRoundTrip(bytes);
    HexRoundTrip(bytes[..k]);
    HexCharIs(bytes[k] / 16);
    HexCharIs(bytes[k] % 16);
    hide HexChar;
    if i < k {
      HexTextAt(bytes[..k], i);
    }
  }

  lemma HexCharIs(d: nat)
    requires d < 16
    ensures HexChar(d) == LOWER_DIGITS[d]
  {
    if d < 4 {
      assert d == 0 || d == 1 || d == 2 || d == 3;
    } else if d < 8 {
      assert d == 4 || d == 5 || d == 6 || d == 7;
    } else if d < 12 {
      assert d == 8 || d == 9 || d == 10 || d == 11;
    } else {
      assert d == 12 || d == 13 || d == 14 || d == 15;
    }
  }

  /** `c` is a digit of that value, in either case. */
  predicate IsDigit(c: char, v: nat) {
    v < 16 && (c == LOWER_DIGITS[v] || c == UPPER_DIGITS[v])
  }

  lemma HexValueIff(c: char, v: nat)
    requires v < 16
    ensures HexValue(c) == Some(v) <==> IsDigit(c, v)
  {
    HexCharIs(v);
    UpperIs(v);
    hide HexChar;
    assert v < 10 ==> HexChar(v) as int == 48 + v by { assert HexChar(v) as int == if v < 10 then 48 + v else 87 + v; }
  }

  lemma UpperIs(d: nat)
    requires d < 16
    ensures UPPER_DIGITS[d] as int == if d < 10 then 48 + d else 55 + d
  {
    if d < 4 {
      assert d == 0 || d == 1 || d == 2 || d == 3;
    } else if d < 8 {
      assert d == 4 || d == 5 || d == 6 || d == 7;
    } else if d < 12 {
      assert d == 8 || d == 9 || d == 10 || d == 11;
    } else {
      assert d == 12 || d == 13 || d == 14 || d == 15;
    }
  }

  /** The two characters spell `b`: digits of either case, or a plus sign before a single digit. */
  predicate SpellsByte(c: char, d: char, b: byte) {
    (IsDigit(c, b / 16) || (c == '+' && b < 16)) && IsDigit(d, b % 16)
  }

  lemma HexByteIff(c: char, d: char, b: byte)
    ensures HexByte(c, d) == Some(b) <==> SpellsByte(c, d, b)
  {
    hide IsDigit;
    HexValueIff(c, b / 16);
    HexValueIff(d, b % 16);
    PlusIsNoDigit(b / 16);
    assert HexValue('+').None?;
    hide HexValue;
  }

  lemma PlusIsNoDigit(v: nat)
    requires v < 16
    ensures !IsDigit('+', v)
  {
    HexValueIff('+', v);
  }

  /** Two such characters a byte, and nothing else. */
  ghost predicate Spells(s: string, bytes: seq<byte>) {
    |s| == 2 * |bytes| && forall i :: 0 <= i < |bytes| ==> SpellsByte(s[2 * i], s[2 * i + 1], bytes[i])
  }

  lemma SpellsSplit(s: string, bytes: seq<byte>)
    requires |s| >= 2 && bytes != []
    ensures Spells(s, bytes) <==> SpellsByte(s[0], s[1], bytes[0]) && Spells(s[2..], bytes[1..])
  {
    hide SpellsByte;
    var t, rest := s[2..], bytes[1..];
    if |s| == 2 * |bytes| {
      forall i | 0 <= i < |rest| ensures t[2 * i] == s[2 * i + 2] && t[2 * i + 1] == s[2 * i + 3] {
      }
    }
    if SpellsByte(s[0], s[1], bytes[0]) && Spells(t, rest) {
      forall i | 0 <= i < |bytes| ensures SpellsByte(s[2 * i], s[2 * i + 1], bytes[i]) {
        if i > 0 {
          assert SpellsByte(t[2 * (i - 1)], t[2 * (i - 1) + 1], rest[i - 1]);
        }
      }
    }
    if Spells(s, bytes) {
      forall i | 0 <= i < |rest| ensures SpellsByte(t[2 * i], t[2 * i + 1], rest[i]) {
        assert SpellsByte(s[2 * (i + 1)], s[2 * (i + 1) + 1], bytes[i + 1]);
      }
    }
  }

  /** A text parses if and only if it is two such characters a byte. */
  lemma {:induction false} FromHexIff(s: string, bytes: seq<byte>)
    ensures FromHex(s) == Some(bytes) <==> Spells(s, bytes)
    decreases |s|
  {
    if |s| >= 2 && bytes != [] {
      hide Spells, HexByte, SpellsByte;
      SpellsSplit(s, bytes);
      FromHexIff(s[2..], bytes[1..]);
      HexByteIff(s[0], s[1], bytes[0]);
      assert bytes == [bytes[0]] + bytes[1..];
    }
  }
}
