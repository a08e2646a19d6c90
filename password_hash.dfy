/**
 * The hex step of `hashPassword` (worker/user-routes.ts): every byte of the
 * SHA-256 digest becomes `b.toString(16).padStart(2, '0')`, and the pieces
 * are joined. The digest itself is a parameter (an uninterpreted function).
 */
module PasswordHash {
  import opened SharedTypes

  /** The characters `toString(16)` writes: 0-9, then lower-case a-f. */
  predicate IsLowerHexChar(c: char) {
    '0' <= c <= '9' || 'a' <= c <= 'f'
  }

  /** The radix-16 digit for the value d. */
  function HexDigit(d: int): (c: char)
    requires 0 <= d < 16
    ensures IsLowerHexChar(c)
  {
    if d < 10 then ('0' as int + d) as char else ('a' as int + d - 10) as char
  }

  /** The value of a radix-16 digit, or None for any other character. */
  function DigitValue(c: char): (v: Option<int>)
    ensures v.Some? <==> IsLowerHexChar(c)
    ensures v.Some? ==> 0 <= v.value < 16 && HexDigit(v.value) == c
  {
    if '0' <= c <= '9' then Some(c as int - '0' as int)
    else if 'a' <= c <= 'f' then Some(c as int - 'a' as int + 10)
    else None
  }

  /** `n.toString(16)` for a non-negative integer: no leading zeros. */
  function ToRadix16(n: nat): (s: string)
    ensures 1 <= |s|
  {
    if n < 16 then [HexDigit(n)] else ToRadix16(n / 16) + [HexDigit(n % 16)]
  }

  /** `s.padStart(width, fill)` for a one-character fill. */
  function PadStart(s: string, width: nat, fill: char): (r: string)
    ensures |s| >= width ==> r == s
    ensures |s| < width ==> |r| == width && r[width - |s|..] == s
    ensures forall i :: 0 <= i < |r| - |s| ==> r[i] == fill
  {
    if |s| >= width then s else seq(width - |s|, _ => fill) + s
  }

  /** `toString(16)` of a byte: one digit below 16, otherwise two. */
  lemma ByteDigits(b: Byte)
    ensures b < 16 ==> ToRadix16(b) == [HexDigit(b % 16)] && b / 16 == 0
    ensures b >= 16 ==> ToRadix16(b) == [HexDigit(b / 16), HexDigit(b % 16)]
  {
    if b < 16 {
      assert b % 16 == b;
    } else {
      var hi := b / 16;
      assert 1 <= hi < 16;
      assert ToRadix16(hi) == [HexDigit(hi)];
    }
  }

  /** One byte as `b.toString(16).padStart(2, '0')`: high digit, then low digit. */
  function ByteToHex(b: Byte): (r: string)
    ensures r == [HexDigit(b / 16), HexDigit(b % 16)]
  {
    ByteDigits(b);
    PadStart(ToRadix16(b), 2, '0')
  }

  /** `bytes.map(ByteToHex).join('')`. */
  function ToHex(bytes: seq<Byte>): (r: string)
    ensures |r| == 2 * |bytes|
    ensures forall i :: 0 <= i < |r| ==> IsLowerHexChar(r[i])
  {
    if bytes == [] then ""
    else
      var head, tail := ByteToHex(bytes[0]), ToHex(bytes[1..]);
      assert forall i :: 0 <= i < |head| ==> IsLowerHexChar(head[i]);
      head + tail
  }

  /** Reads a string of digit pairs back into bytes; None on odd length or a non-digit. */
  function FromHex(s: string): (r: Option<seq<Byte>>)
    ensures r.Some? ==> 2 * |r.value| == |s|
    decreases |s|
  {
    if s == [] then Some([])
    else if |s| == 1 then None
    else
      match (DigitValue(s[0]), DigitValue(s[1]), FromHex(s[2..]))
      case (Some(hi), Some(lo), Some(rest)) => Some([hi * 16 + lo] + rest)
      case _ => None
  }

  /** Reading a digit back gives its value. */
  lemma DigitRoundTrip(d: int)
    requires 0 <= d < 16
    ensures DigitValue(HexDigit(d)) == Some(d)
  {
    var c := HexDigit(d);
    if d < 10 {
      assert c as int == '0' as int + d;
    } else {
      assert c as int == 'a' as int + d - 10;
    }
  }

  /** Every digest turns into hex that decodes back to that digest. */
  lemma {:induction false} HexRoundTrip(bytes: seq<Byte>)
    ensures FromHex(ToHex(bytes)) == Some(bytes)
  {
    if bytes != [] {
      var b, rest := bytes[0], bytes[1..];
      var hi, lo := b / 16, b % 16;
      var s, t := ToHex(bytes), ToHex(rest);
      assert s == [HexDigit(hi), HexDigit(lo)] + t;
      assert s[0] == HexDigit(hi) && s[1] == HexDigit(lo) && s[2..] == t;
      DigitRoundTrip(hi);
      DigitRoundTrip(lo);
      HexRoundTrip(rest);
      assert FromHex(s) == Some([b] + rest);
      assert [b] + rest == bytes;
    }
  }

  /** Two digests give the same hex exactly when they are the same digest. */
  lemma ToHexInjective(a: seq<Byte>, b: seq<Byte>)
    ensures ToHex(a) == ToHex(b) <==> a == b
  {
    HexRoundTrip(a);
    HexRoundTrip(b);
  }

  /** `hashPassword`: the hex form of the password's digest. */
  function HashPassword(digest: string -> seq<Byte>, password: string): (h: string)
    ensures |h| == 2 * |digest(password)|
    ensures FromHex(h) == Some(digest(password))
  {
    HexRoundTrip(digest(password));
    ToHex(digest(password))
  }

  /** Comparing stored and computed hashes is comparing the digests. */
  lemma HashesMatchIffDigestsMatch(digest: string -> seq<Byte>, p: string, q: string)
    ensures HashPassword(digest, p) == HashPassword(digest, q) <==> digest(p) == digest(q)
  {
    ToHexInjective(digest(p), digest(q));
  }
}
