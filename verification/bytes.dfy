/** Byte strings, their lexicographic order, hexadecimal text and fixed-width
    integers: the encodings every digest, script and descriptor is built from. */
module ByteStrings {

  type byte = x: int | 0 <= x < 256

  type Bytes = seq<byte>

  /** The verdict of a digest: exactly thirty-two bytes. */
  type Hash32 = b: Bytes | |b| == 32 witness seq(32, _ => 0)

  datatype Option<+T> = None | Some(value: T) {
    function GetOr(other: T): T {
      if Some? then value else other
    }
  }

  type u16 = x: nat | x < 0x1_0000
  type u32 = x: nat | x < 0x1_0000_0000
  type u64 = x: nat | x < 0x1_0000_0000_0000_0000
  type i64 = x: int | -0x8000_0000_0000_0000 <= x < 0x8000_0000_0000_0000

  /** No two of these strings have one digest. */
  ghost predicate NoCollision(hash: Bytes -> Hash32, strings: set<Bytes>) {
    forall x, y :: x in strings && y in strings && hash(x) == hash(y) ==> x == y
  }

  /** How a write of a whole file ends: done, failed with the file untouched, or
      failed after the new contents were already in place. */
  datatype Write = Saved | Lost | SavedLate

  // ---- Lexicographic order ----

  /** The order of bytes.Compare and of string comparison. */
  predicate Less(a: Bytes, b: Bytes) {
    b != [] && (a == [] || a[0] < b[0] || (a[0] == b[0] && Less(a[1..], b[1..])))
  }

  lemma {:induction false} LessIrreflexive(a: Bytes)
    ensures !Less(a, a)
  {
    if a != [] {
      LessIrreflexive(a[1..]);
    }
  }

  lemma {:induction false} LessTransitive(a: Bytes, b: Bytes, c: Bytes)
    requires Less(a, b) && Less(b, c)
    ensures Less(a, c)
  {
    if a != [] && a[0] == b[0] && b[0] == c[0] {
      LessTransitive(a[1..], b[1..], c[1..]);
    }
  }

  lemma {:induction false} LessTotal(a: Bytes, b: Bytes)
    ensures Less(a, b) || Less(b, a) || a == b
  {
    if a != [] && b != [] && a[0] == b[0] {
      LessTotal(a[1..], b[1..]);
      assert a == [a[0]] + a[1..] && b == [b[0]] + b[1..];
    }
  }

  // ---- Hexadecimal text ----

  function HexDigit(n: nat): byte
    requires n < 16
  {
    if n < 10 then 48 + n else 87 + n
  }

  function UnhexDigit(c: byte): Option<byte> {
    if 48 <= c < 58 then Some(c - 48)
    else if 97 <= c < 103 then Some(c - 87)
    else if 65 <= c < 71 then Some(c - 55)
    else None
  }

  /** hex.EncodeToString: two lower-case digits a byte. */
  function Hex(b: Bytes): Bytes {
    if b == [] then [] else [HexDigit(b[0] / 16), HexDigit(b[0] % 16)] + Hex(b[1..])
  }

  /** hex.DecodeString: an even number of digits of either case. */
  function Unhex(s: Bytes): Option<Bytes> {
    if s == [] then Some([])
    else if |s| < 2 then None
    else
      match (UnhexDigit(s[0]), UnhexDigit(s[1]), Unhex(s[2..]))
      case (Some(hi), Some(lo), Some(rest)) => Some([(hi * 16 + lo) % 256] + rest)
      case _ => None
  }

  lemma {:induction false} UnhexHex(b: Bytes)
    ensures Unhex(Hex(b)) == Some(b)
    ensures |Hex(b)| == 2 * |b|
  {
    if b != [] {
      UnhexHex(b[1..]);
      var s := Hex(b);
      assert s[2..] == Hex(b[1..]);
      assert UnhexDigit(s[0]) == Some(b[0] / 16);
      assert UnhexDigit(s[1]) == Some(b[0] % 16);
      assert b == [b[0]] + b[1..];
    }
  }

  lemma HexInjective(a: Bytes, b: Bytes)
    requires Hex(a) == Hex(b)
    ensures a == b
  {
    UnhexHex(a);
    UnhexHex(b);
  }

  /** Sorting lower-case hexadecimal text is sorting the bytes it spells. */
  lemma {:induction false} HexKeepsOrder(a: Bytes, b: Bytes)
    ensures Less(Hex(a), Hex(b)) <==> Less(a, b)
  {
    if a != [] && b != [] {
      HexKeepsOrder(a[1..], b[1..]);
      var s, t := Hex(a), Hex(b);
      assert s[1..][1..] == Hex(a[1..]) && t[1..][1..] == Hex(b[1..]);
      assert s[1] == HexDigit(a[0] % 16) && t[1] == HexDigit(b[0] % 16);
    }
  }

  // ---- Fixed-width big-endian integers ----

  function Pow256(w: nat): nat {
    if w == 0 then 1 else 256 * Pow256(w - 1)
  }

  /** binary.Write with binary.BigEndian: the low w bytes of n. */
  function BE(n: nat, w: nat): (b: Bytes)
    ensures |b| == w
  {
    if w == 0 then [] else BE(n / 256, w - 1) + [n % 256]
  }

  lemma {:induction false} BEInjective(n: nat, m: nat, w: nat)
    requires n < Pow256(w) && m < Pow256(w)
    requires BE(n, w) == BE(m, w)
    ensures n == m
  {
    if w > 0 {
      var a, b := BE(n, w), BE(m, w);
      assert a[w - 1] == n % 256 && b[w - 1] == m % 256;
      assert a[..w - 1] == BE(n / 256, w - 1) && b[..w - 1] == BE(m / 256, w - 1);
      BEInjective(n / 256, m / 256, w - 1);
    }
  }

  /** The number that big-endian bytes spell. */
  function ToNat(b: Bytes): nat {
    if b == [] then 0 else 256 * ToNat(b[..|b| - 1]) + b[|b| - 1]
  }

  lemma {:induction false} ToNatReadsBE(v: nat, w: nat)
    requires v < Pow256(w)
    ensures ToNat(BE(v, w)) == v
  {
    if w > 0 {
      ToNatReadsBE(v / 256, w - 1);
      assert BE(v, w)[..w - 1] == BE(v / 256, w - 1);
    }
  }

  lemma PowersOf256()
    ensures Pow256(1) == 0x100 && Pow256(2) == 0x1_0000 && Pow256(4) == 0x1_0000_0000
    ensures Pow256(8) == 0x1_0000_0000_0000_0000
  {
    assert Pow256(3) == 0x100_0000;
    assert Pow256(5) == 0x100_0000_0000;
    assert Pow256(6) == 0x1_0000_0000_0000;
    assert Pow256(7) == 0x100_0000_0000_0000;
  }

  /** The 64-bit two's complement pattern of a signed integer. */
  function Bits64(n: int): nat
    requires -0x8000_0000_0000_0000 <= n < 0x8000_0000_0000_0000
  {
    if n < 0 then n + 0x1_0000_0000_0000_0000 else n
  }

  /** The bytes of a text constant. */
  function Ascii(s: string): (b: Bytes)
    ensures |b| == |s|
  {
    seq(|s|, i requires 0 <= i < |s| => s[i] as int % 256)
  }

  /** Two encodings that start with parts of one length agree part by part. */
  lemma SplitEqual<T>(a: seq<T>, b: seq<T>, x: seq<T>, y: seq<T>)
    requires a + x == b + y && |a| == |b|
    ensures a == b && x == y
  {
    assert a == (a + x)[..|a|] && b == (b + y)[..|b|];
    assert x == (a + x)[|a|..] && y == (b + y)[|b|..];
  }

  // ---- Texts ----

  /** A text short enough for its own four-byte length field. */
  type Text = b: Bytes | |b| < 0x1_0000_0000

  predicate Space(b: byte) { 9 <= b <= 13 || b == 32 }

  /** strings.TrimSpace on ASCII text. */
  function Trim(s: Bytes): (r: Bytes)
    ensures |r| <= |s|
  {
    if s == [] then []
    else if Space(s[0]) then Trim(s[1..])
    else if Space(s[|s| - 1]) then Trim(s[..|s| - 1])
    else s
  }

  predicate Blank(s: Bytes) { Trim(s) == [] }

  /** A text behind its four-byte length. */
  function Prefixed(s: Text): Bytes { BE(|s|, 4) + s }

  lemma PrefixedSplit(a: Text, b: Text, x: Bytes, y: Bytes)
    requires Prefixed(a) + x == Prefixed(b) + y
    ensures a == b && x == y
  {
    assert Prefixed(a) + x == BE(|a|, 4) + (a + x);
    assert Prefixed(b) + y == BE(|b|, 4) + (b + y);
    SplitEqual(BE(|a|, 4), BE(|b|, 4), a + x, b + y);
    PowersOf256();
    BEInjective(|a|, |b|, 4);
    SplitEqual(a, b, x, y);
  }

  lemma NumberSplit(n: nat, m: nat, w: nat, x: Bytes, y: Bytes)
    requires n < Pow256(w) && m < Pow256(w)
    requires BE(n, w) + x == BE(m, w) + y
    ensures n == m && x == y
  {
    SplitEqual(BE(n, w), BE(m, w), x, y);
    BEInjective(n, m, w);
  }
}
