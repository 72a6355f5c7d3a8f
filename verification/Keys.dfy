/** The composite byte keys. Text never contains the byte 0xFF, so `text || FF ||
    number` is injective, sorts by text and then number, and the inclusive range
    used for one text holds exactly that text's keys. */
module Keys {
  import opened Types
  import opened Scans
  import opened Tables

  // --- big-endian numbers ---

  function Pow256(k: nat): (p: nat)
    ensures p > 0
  {
    if k == 0 then 1 else 256 * Pow256(k - 1)
  }

  /** `n` as `k` big-endian bytes (`to_be_bytes`). */
  function BigEndian(n: nat, k: nat): (bs: seq<byte>)
    ensures |bs| == k
  {
    if k == 0 then [] else BigEndian(n / 256, k - 1) + [n % 256]
  }

  /** `from_be_bytes`. */
  function FromBigEndian(bs: seq<byte>): nat {
    if bs == [] then 0 else 256 * FromBigEndian(bs[..|bs| - 1]) + bs[|bs| - 1]
  }

  lemma {:induction false} BigEndianRoundTrip(n: nat, k: nat)
    requires n < Pow256(k)
    ensures FromBigEndian(BigEndian(n, k)) == n
    decreases k
  {
    if k > 0 {
      BigEndianRoundTrip(n / 256, k - 1);
      assert BigEndian(n, k)[..k - 1] == BigEndian(n / 256, k - 1);
    }
  }

  // --- key order ---

  /** Byte-lexicographic order, the order redb keeps keys in. */
  predicate Before(x: seq<byte>, y: seq<byte>)
    decreases |x|
  {
    y != [] && (x == [] || x[0] < y[0] || (x[0] == y[0] && Before(x[1..], y[1..])))
  }

  predicate NotAfter(x: seq<byte>, y: seq<byte>) {
    x == y || Before(x, y)
  }

  lemma {:induction false} BeforeIsAsymmetric(x: seq<byte>, y: seq<byte>)
    ensures !(Before(x, y) && Before(y, x)) && !Before(x, x)
    decreases |x|
  {
    if x != [] {
      BeforeIsAsymmetric(x[1..], if y == [] then [] else y[1..]);
    }
  }

  lemma {:induction false} BeforeIsTransitive(x: seq<byte>, y: seq<byte>, z: seq<byte>)
    requires Before(x, y) && Before(y, z)
    ensures Before(x, z)
    decreases |x|
  {
    if x != [] && x[0] == y[0] == z[0] {
      BeforeIsTransitive(x[1..], y[1..], z[1..]);
    }
  }

  /** A common prefix does not affect the order. */
  lemma {:induction false} BeforeUnderPrefix(p: seq<byte>, x: seq<byte>, y: seq<byte>)
    ensures Before(p + x, p + y) <==> Before(x, y)
    decreases |p|
  {
    if p == [] {
      assert p + x == x && p + y == y;
    } else {
      BeforeUnderPrefix(p[1..], x, y);
      assert (p + x)[1..] == p[1..] + x && (p + y)[1..] == p[1..] + y;
    }
  }

  lemma {:induction false} BeforeAtEnd(x: seq<byte>, y: seq<byte>, a: byte, b: byte)
    requires |x| == |y|
    ensures Before(x + [a], y + [b]) <==> Before(x, y) || (x == y && a < b)
    decreases |x|
  {
    if x == [] {
      assert x + [a] == [a] && y + [b] == [b];
      assert !Before([a][1..], [b][1..]);
    } else {
      BeforeAtEnd(x[1..], y[1..], a, b);
      assert (x + [a])[1..] == x[1..] + [a] && (y + [b])[1..] == y[1..] + [b];
      assert x == y <==> x[0] == y[0] && x[1..] == y[1..];
    }
  }

  /** Big-endian numbers of one width sort numerically. */
  lemma {:induction false} BigEndianOrder(n: nat, m: nat, k: nat)
    requires n < Pow256(k) && m < Pow256(k)
    ensures Before(BigEndian(n, k), BigEndian(m, k)) <==> n < m
    ensures BigEndian(n, k) == BigEndian(m, k) <==> n == m
    decreases k
  {
    if k > 0 {
      var x, y := BigEndian(n / 256, k - 1), BigEndian(m / 256, k - 1);
      BigEndianOrder(n / 256, m / 256, k - 1);
      BeforeAtEnd(x, y, n % 256, m % 256);
      assert BigEndian(n, k) == x + [n % 256] && BigEndian(m, k) == y + [m % 256];
      if BigEndian(n, k) == BigEndian(m, k) {
        assert x == BigEndian(n, k)[..k - 1] == BigEndian(m, k)[..k - 1] == y;
        assert n % 256 == BigEndian(n, k)[k - 1] == m % 256;
      }
    }
  }

  // --- text || FF || number ---

  /** Text bytes: hex and bech32 are ASCII, and no UTF-8 text holds 0xFF anyway. */
  predicate IsText(s: seq<byte>) {
    forall i :: 0 <= i < |s| ==> s[i] != 255
  }

  /** `hist_key`, also `resp_list_key`; with `k = 4` it is `outpoint_key`. */
  function TextKey(text: seq<byte>, n: nat, k: nat): seq<byte> {
    text + [255] + BigEndian(n, k)
  }

  /** Different texts decide the order by themselves, whatever follows the separator. */
  lemma {:induction false} TextDecides(a: seq<byte>, b: seq<byte>, s: seq<byte>, s': seq<byte>, t: seq<byte>)
    requires IsText(a) && IsText(b) && a != b
    ensures a + [255] + s != b + [255] + t
    ensures Before(a + [255] + s, b + [255] + t) <==> Before(a + [255] + s', b + [255] + t)
    ensures Before(b + [255] + t, a + [255] + s) <==> Before(b + [255] + t, a + [255] + s')
    decreases |a|
  {
    var x, x', y := a + [255] + s, a + [255] + s', b + [255] + t;
    assert a == [] ==> x[0] == 255 && x'[0] == 255;
    assert b == [] ==> y[0] == 255;
    assert a != [] ==> x[0] == a[0] && x'[0] == a[0];
    assert b != [] ==> y[0] == b[0];
    if a != [] && b != [] && a[0] == b[0] {
      assert a == [a[0]] + a[1..] && b == [b[0]] + b[1..];
      TextDecides(a[1..], b[1..], s, s', t);
      assert x[1..] == a[1..] + [255] + s && x'[1..] == a[1..] + [255] + s' && y[1..] == b[1..] + [255] + t;
    }
  }

  /** Keys are equal only for the same text and number. */
  lemma TextKeyInjective(a: seq<byte>, n: nat, b: seq<byte>, m: nat, k: nat)
    requires IsText(a) && IsText(b) && n < Pow256(k) && m < Pow256(k)
    ensures TextKey(a, n, k) == TextKey(b, m, k) <==> a == b && n == m
  {
    if a != b {
      TextDecides(a, b, BigEndian(n, k), [], BigEndian(m, k));
    } else {
      BigEndianOrder(n, m, k);
      assert TextKey(a, n, k)[|a| + 1..] == BigEndian(n, k) && TextKey(b, m, k)[|b| + 1..] == BigEndian(m, k);
    }
  }

  /** Keys of one text sort by number. */
  lemma TextKeyOrder(a: seq<byte>, n: nat, m: nat, k: nat)
    requires n < Pow256(k) && m < Pow256(k)
    ensures Before(TextKey(a, n, k), TextKey(a, m, k)) <==> n < m
  {
    BigEndianOrder(n, m, k);
    BeforeUnderPrefix(a + [255], BigEndian(n, k), BigEndian(m, k));
  }

  /** The number is read back from the last bytes (`resp_list_tx_num`). */
  lemma TextKeyNumber(a: seq<byte>, n: nat, k: nat)
    requires n < Pow256(k)
    ensures var key := TextKey(a, n, k); FromBigEndian(key[|key| - k..]) == n
  {
    BigEndianRoundTrip(n, k);
    assert TextKey(a, n, k)[|a| + 1..] == BigEndian(n, k);
  }

  /** `hist_bounds`: the inclusive range `[low, high]` scanned for one text. */
  function LowBound(a: seq<byte>): seq<byte> { TextKey(a, 0, 8) }
  function HighBound(a: seq<byte>): seq<byte> { TextKey(a, Pow256(8) - 1, 8) }

  predicate InRange(key: seq<byte>, a: seq<byte>) {
    NotAfter(LowBound(a), key) && NotAfter(key, HighBound(a))
  }

  /** The range of a text holds exactly that text's keys. */
  lemma RangeIsFilter(a: seq<byte>, b: seq<byte>, n: nat)
    requires IsText(a) && IsText(b) && n < Pow256(8)
    ensures InRange(TextKey(b, n, 8), a) <==> a == b
  {
    hide BigEndian, Pow256, Before;
    var key := TextKey(b, n, 8);
    if a == b {
      TextKeyOrder(a, 0, n, 8);
      TextKeyOrder(a, n, Pow256(8) - 1, 8);
    } else {
      var low, high, num := BigEndian(0, 8), BigEndian(Pow256(8) - 1, 8), BigEndian(n, 8);
      TextDecides(a, b, low, high, num);
      TextDecides(a, b, high, low, num);
      BeforeIsAsymmetric(LowBound(a), key);
    }
  }

  // --- sorted scans ---

  ghost predicate SortedKeys(ks: seq<seq<byte>>) {
    forall i, j :: 0 <= i < j < |ks| ==> Before(ks[i], ks[j])
  }

  lemma {:induction false} SortedKeysUnique(xs: seq<seq<byte>>, ys: seq<seq<byte>>)
    requires SortedKeys(xs) && SortedKeys(ys) && forall k :: k in xs <==> k in ys
    ensures xs == ys
    decreases |xs|
  {
    assert xs != [] ==> xs[0] in xs;
    assert ys != [] ==> ys[0] in ys;
    if xs != [] && ys != [] {
      SameHead(xs, ys);
      var xs', ys' := xs[1..], ys[1..];
      forall k ensures k in xs' <==> k in ys' {
        HeadOnce(xs, k);
        HeadOnce(ys, k);
      }
      SortedKeysUnique(xs', ys');
      assert xs == [xs[0]] + xs' && ys == [ys[0]] + ys';
    }
  }

  lemma HeadOnce(xs: seq<seq<byte>>, k: seq<byte>)
    requires SortedKeys(xs) && xs != []
    ensures k in xs[1..] <==> k in xs && k != xs[0]
  {
    hide Before;
    if k in xs[1..] {
      var i :| 0 <= i < |xs[1..]| && xs[1..][i] == k;
      assert Before(xs[0], xs[i + 1]);
      BeforeIsAsymmetric(xs[0], k);
    }
  }

  lemma SameHead(xs: seq<seq<byte>>, ys: seq<seq<byte>>)
    requires SortedKeys(xs) && SortedKeys(ys) && xs != [] && ys != [] && xs[0] in ys && ys[0] in xs
    ensures xs[0] == ys[0]
  {
    hide Before;
    var i :| 0 <= i < |ys| && ys[i] == xs[0];
    var j :| 0 <= j < |xs| && xs[j] == ys[0];
    if i > 0 && j > 0 {
      assert Before(ys[0], ys[i]) && Before(xs[0], xs[j]);
      BeforeIsAsymmetric(xs[0], ys[0]);
    }
  }

  function KeysFor(a: seq<byte>, nums: seq<nat>): seq<seq<byte>> {
    seq(|nums|, i requires 0 <= i < |nums| => TextKey(a, nums[i], 8))
  }

  lemma KeysForSorted(a: seq<byte>, nums: seq<nat>)
    requires Increasing(nums) && forall n :: n in nums ==> n < Pow256(8)
    ensures SortedKeys(KeysFor(a, nums))
  {
    hide Before, TextKey, Pow256;
    forall i, j | 0 <= i < j < |nums| ensures Before(KeysFor(a, nums)[i], KeysFor(a, nums)[j]) {
      assert nums[i] in nums && nums[j] in nums;
      TextKeyOrder(a, nums[i], nums[j], 8);
    }
  }

  /** A byte-ordered scan of the range `[low, high]` of `a` over a table whose keys are
      `TextKey(b, n)` for the pairs in `rows` yields exactly the keys of `a`, by number. */
  lemma ScanIsFilter(rows: set<(seq<byte>, nat)>, a: seq<byte>, scan: seq<seq<byte>>)
    requires IsText(a) && forall b, n :: (b, n) in rows ==> IsText(b) && n < Pow256(8)
    requires SortedKeys(scan)
    requires forall k :: k in scan <==> InRange(k, a) && exists b, n :: (b, n) in rows && k == TextKey(b, n, 8)
    ensures scan == KeysFor(a, Ascending(set r | r in rows && r.0 == a :: r.1))
  {
    var s := set r | r in rows && r.0 == a :: r.1;
    var nums := Ascending(s);
    forall n ensures n in nums <==> (a, n) in rows {
      assert n in nums <==> n in Members(nums);
      if (a, n) in rows { assert (a, n).1 in s; }
      if n in s { var r :| r in rows && r.0 == a && r.1 == n; assert r == (a, n); }
    }
    hide Ascending, InRange, TextKey, Pow256, Before, Increasing;
    KeysForSorted(a, nums);
    forall k ensures k in scan <==> k in KeysFor(a, nums) {
      if k in scan {
        var b, n :| (b, n) in rows && k == TextKey(b, n, 8);
        RangeIsFilter(a, b, n);
        var i :| 0 <= i < |nums| && nums[i] == n;
        assert KeysFor(a, nums)[i] == k;
      }
      if k in KeysFor(a, nums) {
        var i :| 0 <= i < |nums| && KeysFor(a, nums)[i] == k;
        assert nums[i] in nums;
        RangeIsFilter(a, a, nums[i]);
      }
    }
    SortedKeysUnique(scan, KeysFor(a, nums));
  }

  // --- DAA || hash ---

  /** `chain_key`. */
  function ChainKey(daa: nat, hash: seq<byte>): seq<byte> {
    BigEndian(daa, 8) + hash
  }

  lemma {:induction false} SameLengthDecides(x: seq<byte>, y: seq<byte>, s: seq<byte>, t: seq<byte>)
    requires |x| == |y| && x != y
    ensures Before(x + s, y + t) <==> Before(x, y)
    decreases |x|
  {
    assert x != [] && y != [];
    assert (x + s)[0] == x[0] && (y + t)[0] == y[0];
    if x[0] == y[0] {
      assert x == [x[0]] + x[1..] && y == [y[0]] + y[1..];
      SameLengthDecides(x[1..], y[1..], s, t);
      assert (x + s)[1..] == x[1..] + s && (y + t)[1..] == y[1..] + t;
    }
  }

  /** Chain keys sort by DAA first, and the DAA is read back from the first eight bytes. */
  lemma ChainKeyOrder(d: nat, h: seq<byte>, d': nat, h': seq<byte>)
    requires d < Pow256(8) && d' < Pow256(8)
    ensures d != d' ==> (Before(ChainKey(d, h), ChainKey(d', h')) <==> d < d')
    ensures FromBigEndian(ChainKey(d, h)[..8]) == d
  {
    hide Pow256, Before;
    BigEndianOrder(d, d', 8);
    BigEndianRoundTrip(d, 8);
    assert ChainKey(d, h)[..8] == BigEndian(d, 8);
    if d != d' {
      SameLengthDecides(BigEndian(d, 8), BigEndian(d', 8), h, h');
    }
  }

  /** In a byte-ordered scan of chain keys, everything from the first key at or above the cutoff
      on is at or above it: stopping there equals filtering on the DAA. */
  lemma ChainScanMayStop(scan: seq<(nat, seq<byte>)>, cutoff: nat, i: nat, j: nat)
    requires forall k :: 0 <= k < |scan| ==> scan[k].0 < Pow256(8)
    requires forall k, l :: 0 <= k < l < |scan| ==>
      Before(ChainKey(scan[k].0, scan[k].1), ChainKey(scan[l].0, scan[l].1))
    requires 0 <= i <= j < |scan| && scan[i].0 >= cutoff
    ensures scan[j].0 >= cutoff
  {
    hide Pow256, Before, ChainKey;
    if i < j {
      ChainKeyOrder(scan[i].0, scan[i].1, scan[j].0, scan[j].1);
    }
  }

  // --- the history table in bytes ---

  /** The UTF-8 bytes of an ASCII string. */
  function Bytes(s: string): (bs: seq<byte>)
    requires IsAscii(s)
    ensures |bs| == |s| && IsText(bs)
  {
    seq(|s|, i requires 0 <= i < |s| => s[i] as int)
  }

  lemma BytesInjective(s: string, t: string)
    requires IsAscii(s) && IsAscii(t)
    ensures Bytes(s) == Bytes(t) <==> s == t
  {
    if Bytes(s) == Bytes(t) {
      forall i | 0 <= i < |s| ensures s[i] == t[i] {
        assert Bytes(s)[i] == Bytes(t)[i];
      }
    }
  }

  /** Rows whose keys can be encoded: ASCII addresses and 64-bit numbers. */
  ghost predicate Encodable(r: Rows) {
    forall a, n :: (a, n) in r.history ==> IsAscii(a) && n < Pow256(8)
  }

  ghost function EncodedRows(r: Rows): set<(seq<byte>, nat)>
    requires Encodable(r)
  {
    set k | k in r.history && IsAscii(k.0) :: (Bytes(k.0), k.1)
  }

  lemma EncodedRow(r: Rows, addr: string, n: nat)
    requires Encodable(r) && IsAscii(addr)
    ensures (Bytes(addr), n) in EncodedRows(r) <==> (addr, n) in r.history
  {
    hide Bytes;
    if (addr, n) in r.history {
      assert (Bytes((addr, n).0), (addr, n).1) in EncodedRows(r);
    }
    if (Bytes(addr), n) in EncodedRows(r) {
      var k :| k in r.history && IsAscii(k.0) && (Bytes(k.0), k.1) == (Bytes(addr), n);
      BytesInjective(k.0, addr);
      assert k == (addr, n);
    }
  }

  /** `address_history`'s byte-range scan of the stored keys lists exactly the rows of that
      address, by transaction number. */
  lemma HistoryScanInBytes(r: Rows, addr: string, scan: seq<seq<byte>>)
    requires Encodable(r) && IsAscii(addr) && SortedKeys(scan)
    requires forall k :: k in scan <==>
      InRange(k, Bytes(addr)) && exists b, n :: (b, n) in EncodedRows(r) && k == TextKey(b, n, 8)
    ensures scan == KeysFor(Bytes(addr), Ascending(HistoryNums(r, addr)))
  {
    var rows, a := EncodedRows(r), Bytes(addr);
    forall b, n | (b, n) in rows ensures IsText(b) && n < Pow256(8) {
      var k :| k in r.history && IsAscii(k.0) && (Bytes(k.0), k.1) == (b, n);
      assert (k.0, k.1) in r.history;
    }
    var s := set e | e in rows && e.0 == a :: e.1;
    forall n ensures n in s <==> n in HistoryNums(r, addr) {
      EncodedRow(r, addr, n);
      if n in s { var e :| e in rows && e.0 == a && e.1 == n; assert e == (a, n); }
      if (a, n) in rows { assert (a, n).1 in s; }
      if (addr, n) in r.history { assert (addr, n).1 in HistoryNums(r, addr); }
      if n in HistoryNums(r, addr) { var k :| k in r.history && k.0 == addr && k.1 == n; assert k == (addr, n); }
    }
    assert s == HistoryNums(r, addr);
    hide Encodable, EncodedRows, HistoryNums, Ascending, InRange, TextKey, Pow256, Before, Bytes, KeysFor;
    ScanIsFilter(rows, a, scan);
  }
}
