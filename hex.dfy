/** The lower-case hexadecimal rendering `Digest::SHA1.hexdigest` gives a
    digest, and its inverse. */
module HexEncoding {
  import opened Wrappers

  newtype Byte = b: int | 0 <= b < 256

  /** The hex digit of a nibble: 0-9 then a-f. */
  function HexDigit(n: int): (c: char)
    requires 0 <= n < 16
    ensures IsHexDigit(c)
  {
    if n < 10 then ('0' as int + n) as char else ('a' as int + n - 10) as char
  }

  predicate IsHexDigit(c: char) {
    '0' <= c <= '9' || 'a' <= c <= 'f'
  }

  /** The nibble a hex digit stands for, or -1 for any other character. */
  function DigitValue(c: char): (n: int)
    ensures -1 <= n < 16
    ensures n >= 0 <==> IsHexDigit(c)
    ensures n >= 0 ==> HexDigit(n) == c
  {
    if '0' <= c <= '9' then c as int - '0' as int
    else if 'a' <= c <= 'f' then c as int - 'a' as int + 10
    else -1
  }

  /** Two digits per byte, high nibble first. */
  function Hex(bs: seq<Byte>): (s: string)
    ensures |s| == 2 * |bs|
  {
    if bs == [] then ""
    else
      [HexDigit(bs[0] as int / 16), HexDigit(bs[0] as int % 16)] + Hex(bs[1..])
  }

  /** hexdigest writes only lower-case hex digits. */
  lemma {:induction false} HexDigits(bs: seq<Byte>)
    ensures forall j :: 0 <= j < |Hex(bs)| ==> IsHexDigit(Hex(bs)[j])
  {
    if bs != [] {
      HexDigits(bs[1..]);
    }
  }

  /** Reads back a string of hex digit pairs; None when the length is odd or
      a character is not a lower-case hex digit. */
  function Unhex(s: string): (r: Option<seq<Byte>>)
    ensures r.Some? ==> |r.value| * 2 == |s|
    decreases |s|
  {
    if s == [] then Some([])
    else if |s| == 1 || DigitValue(s[0]) < 0 || DigitValue(s[1]) < 0 then None
    else
      match Unhex(s[2..])
      case None => None
      case Some(rest) => Some([(DigitValue(s[0]) * 16 + DigitValue(s[1])) as Byte] + rest)
  }

  /** hexdigest loses nothing: the digest can be read back from its rendering. */
  lemma {:induction false} UnhexHex(bs: seq<Byte>)
    ensures Unhex(Hex(bs)) == Some(bs)
  {
    if bs != [] {
      var s := Hex(bs);
      assert s[2..] == Hex(bs[1..]);
      UnhexHex(bs[1..]);
      var b := bs[0] as int;
      assert DigitValue(s[0]) == b / 16 && DigitValue(s[1]) == b % 16;
      assert [bs[0]] + bs[1..] == bs;
    }
  }

  /** So distinct digests never render to the same string. */
  lemma HexInjective(a: seq<Byte>, b: seq<Byte>)
    requires Hex(a) == Hex(b)
    ensures a == b
  {
    UnhexHex(a);
    UnhexHex(b);
  }
}
