/**
 * Helpers of internal/app/utils: hex encoding of digests and random bytes,
 * the pseudo-UUID format and the byte-to-megabyte conversion. The MD5
 * digest and the random source are inputs: `md5` is any function that maps
 * bytes to 16 bytes, and the random bytes are given.
 */
module Utils {
  import opened Wrappers
  import opened GoErrors
  import opened GoStrings

  /** Sixteen bytes: an MD5 digest, or the buffer filled by `rand.Read`. */
  type Bytes16 = b: seq<Byte> | |b| == 16 witness seq(16, i => 0)

  /** The MD5 function, supplied by the caller: its algorithm is not modelled. */
  type Md5 = seq<Byte> -> Bytes16

  // ------------------------------------------------------------------ hex

  /** The hex digit for `v < 16`, lower-case or upper-case. */
  function HexDigit(v: nat, upper: bool): (c: char)
    requires v < 16
  {
    if v < 10 then ('0' as int + v) as char
    else if upper then ('A' as int + v - 10) as char
    else ('a' as int + v - 10) as char
  }

  predicate IsHexDigit(c: char, upper: bool)
  {
    '0' <= c <= '9' || (if upper then 'A' <= c <= 'F' else 'a' <= c <= 'f')
  }

  /** Two hex digits per byte, high nibble first. */
  function Hex(b: seq<Byte>, upper: bool): (s: string)
    ensures |s| == 2 * |b|
    ensures forall i :: 0 <= i < |s| ==> IsHexDigit(s[i], upper)
  {
    if b == [] then ""
    else [HexDigit(b[0] / 16, upper), HexDigit(b[0] % 16, upper)] + Hex(b[1..], upper)
  }

  /** The value of one hex digit of either case. */
  function HexValue(c: char): Option<nat>
  {
    if '0' <= c <= '9' then Some(c as int - '0' as int)
    else if 'a' <= c <= 'f' then Some(c as int - 'a' as int + 10)
    else if 'A' <= c <= 'F' then Some(c as int - 'A' as int + 10)
    else None
  }

  /** Reads pairs of hex digits back into bytes (the partner of `Hex`). */
  function HexDecode(s: string): Option<seq<Byte>>
    decreases |s|
  {
    if s == [] then Some([])
    else if |s| == 1 then None
    else
      match (HexValue(s[0]), HexValue(s[1]), HexDecode(s[2..]))
      case (Some(hi), Some(lo), Some(rest)) =>
        if hi < 16 && lo < 16 then Some([hi * 16 + lo] + rest) else None
      case _ => None
  }

  lemma {:induction false} HexDecodeHex(b: seq<Byte>, upper: bool)
    ensures HexDecode(Hex(b, upper)) == Some(b)
    decreases |b|
  {
    if b != [] {
      HexDecodeHex(b[1..], upper);
      var s := Hex(b, upper);
      assert s[2..] == Hex(b[1..], upper);
      assert HexValue(s[0]) == Some(b[0] / 16);
      assert HexValue(s[1]) == Some(b[0] % 16);
      assert [b[0]] + b[1..] == b;
    }
  }

  lemma {:induction false} HexAppend(a: seq<Byte>, b: seq<Byte>, upper: bool)
    ensures Hex(a + b, upper) == Hex(a, upper) + Hex(b, upper)
    decreases |a|
  {
    if a != [] {
      HexAppend(a[1..], b, upper);
      assert (a + b)[0] == a[0] && (a + b)[1..] == a[1..] + b;
      var d := [HexDigit(a[0] / 16, upper), HexDigit(a[0] % 16, upper)];
      assert Hex(a + b, upper) == d + (Hex(a[1..], upper) + Hex(b, upper));
      assert Hex(a, upper) == d + Hex(a[1..], upper);
    } else {
      assert a + b == b;
    }
  }

  /** `hex.EncodeToString`. */
  function EncodeToString(b: seq<Byte>): (s: string)
    ensures |s| == 2 * |b|
    ensures forall i :: 0 <= i < |s| ==> IsHexDigit(s[i], false)
  {
    Hex(b, false)
  }

  // ------------------------------------------------- digests and tokens

  /** `MD5Hash(text)`: the lower-case hex text of the MD5 digest of `text`. */
  function MD5Hash(text: string, md5: Md5): (h: string)
    ensures |h| == 32
    ensures forall i :: 0 <= i < |h| ==> IsHexDigit(h[i], false)
    ensures var d: seq<Byte> := md5(ToBytes(text)); HexDecode(h) == Some(d)
  {
    HexDecodeHex(md5(ToBytes(text)), false);
    EncodeToString(md5(ToBytes(text)))
  }

  /**
   * `GenerateToken()`: the lower-case hex text of the MD5 digest of 16 random
   * bytes. The error of the random read is ignored by the source, so
   * `random` is whatever the buffer holds afterwards.
   */
  function GenerateToken(random: Bytes16, md5: Md5): (t: string)
    ensures |t| == 32
    ensures forall i :: 0 <= i < |t| ==> IsHexDigit(t[i], false)
  {
    EncodeToString(md5(random))
  }

  // --------------------------------------------------------- pseudo UUID

  /**
   * `PseudoUUID()` given the outcome of `rand.Read`: upper-case hex of bytes
   * 0-3, 4-5, 6-7, 8-9 and 10-15 joined by '-'; the read error is returned
   * with an empty string.
   */
  function PseudoUUID(random: Result<Bytes16, Error>): (r: (string, Option<Error>))
    ensures random.Err? ==> r == ("", Some(random.error))
    ensures random.Ok? ==> r.1 == None && |r.0| == 36
    ensures random.Ok? ==> r.0[8] == '-' && r.0[13] == '-' && r.0[18] == '-' && r.0[23] == '-'
    ensures random.Ok? ==> forall i :: 0 <= i < 36 && i !in {8, 13, 18, 23} ==> IsHexDigit(r.0[i], true)
  {
    match random
    case Err(e) => ("", Some(e))
    case Ok(b) => (FormatUUID(b), None)
  }

  function FormatUUID(b: Bytes16): string
  {
    Hex(b[0..4], true) + "-" + Hex(b[4..6], true) + "-" + Hex(b[6..8], true) + "-"
      + Hex(b[8..10], true) + "-" + Hex(b[10..], true)
  }

  /** Reads a pseudo-UUID back into its 16 bytes (the partner of `PseudoUUID`). */
  function ParseUUID(s: string): Option<seq<Byte>>
  {
    if |s| == 36 && s[8] == '-' && s[13] == '-' && s[18] == '-' && s[23] == '-' then
      HexDecode(s[0..8] + s[9..13] + s[14..18] + s[19..23] + s[24..])
    else None
  }

  /** A pseudo-UUID carries all 16 random bytes: parsing it gives them back. */
  lemma ParseFormatUUID(b: Bytes16)
    ensures var d: seq<Byte> := b; ParseUUID(FormatUUID(b)) == Some(d)
  {
    var s := FormatUUID(b);
    var p0, p1, p2, p3, p4 := b[0..4], b[4..6], b[6..8], b[8..10], b[10..];
    assert s[0..8] == Hex(p0, true);
    assert s[9..13] == Hex(p1, true);
    assert s[14..18] == Hex(p2, true);
    assert s[19..23] == Hex(p3, true);
    assert s[24..] == Hex(p4, true);
    HexAppend(p0, p1, true);
    HexAppend(p0 + p1, p2, true);
    HexAppend(p0 + p1 + p2, p3, true);
    HexAppend(p0 + p1 + p2 + p3, p4, true);
    assert p0 + p1 + p2 + p3 + p4 == b;
    HexDecodeHex(b, true);
  }

  // ------------------------------------------------------------ memory

  /** `bToMb(b) = b / 1024 / 1024` on a uint64. */
  function BToMb(b: nat): nat
  {
    b / 1024 / 1024
  }

  /** Dividing twice by 1024 is one division by 1048576. */
  lemma BToMbIsOneDivision(b: nat)
    ensures BToMb(b) == b / 1048576
  {
    var q, r := b / 1024, b % 1024;
    var q2, r2 := q / 1024, q % 1024;
    assert b == 1048576 * q2 + (1024 * r2 + r);
    assert 0 <= 1024 * r2 + r < 1048576;
  }
}
