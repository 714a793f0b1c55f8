/** Base16 as in `encoding/hex` (section 8 of RFC 4648) and `strings.ToLower` on its alphabet. */
module Hex {
  import opened Wrappers

  newtype Byte = x: int | 0 <= x < 256
  type Bytes = seq<Byte>

  function Digit(n: int): char
    requires 0 <= n < 16
  {
    if n < 10 then '0' + n as char else 'a' + (n - 10) as char
  }

  function DigitValue(c: char): Option<int>
    ensures DigitValue(c).Some? ==> 0 <= DigitValue(c).value < 16
  {
    if '0' <= c <= '9' then Some((c - '0') as int)
    else if 'a' <= c <= 'f' then Some((c - 'a') as int + 10)
    else if 'A' <= c <= 'F' then Some((c - 'A') as int + 10)
    else None
  }

  function Encode(bytes: Bytes): string {
    if bytes == [] then ""
    else [Digit(bytes[0] as int / 16), Digit(bytes[0] as int % 16)] + Encode(bytes[1..])
  }

  /** `None` covers both errors of `hex.DecodeString`: a bad digit and an odd length. */
  function Decode(s: string): Option<Bytes> {
    if s == "" then Some([])
    else if |s| == 1 then None
    else match (DigitValue(s[0]), DigitValue(s[1]), Decode(s[2..]))
      case (Some(hi), Some(lo), Some(rest)) => Some([(16 * hi + lo) as Byte] + rest)
      case _ => None
  }

  lemma {:induction false} DecodeEncode(bytes: Bytes)
    ensures Decode(Encode(bytes)) == Some(bytes)
  {
    if bytes != [] {
      DecodeEncode(bytes[1..]);
      var s := Encode(bytes);
      assert s[2..] == Encode(bytes[1..]);
      var b := bytes[0] as int;
      assert DigitValue(Digit(b / 16)) == Some(b / 16) && DigitValue(Digit(b % 16)) == Some(b % 16);
      assert bytes == [bytes[0]] + bytes[1..];
    }
  }

  // ---- Case ----

  /**
   * A per-character lower-casing that agrees with `unicode.ToLower` as far as base16 can tell:
   * exact on ASCII, and never making a base16 digit of any other character.
   */
  ghost predicate LawfulLower(lower: char -> char) {
    forall c :: if 'A' <= c <= 'Z' then lower(c) == c + ' '
                else if c < 128 as char then lower(c) == c
                else DigitValue(lower(c)).None?
  }

  function ToLower(s: string, lower: char -> char): (t: string)
    ensures |t| == |s|
    ensures forall i :: 0 <= i < |s| ==> t[i] == lower(s[i])
  {
    if s == "" then "" else [lower(s[0])] + ToLower(s[1..], lower)
  }

  lemma LowerKeepsDigit(c: char, lower: char -> char)
    requires LawfulLower(lower)
    ensures DigitValue(lower(c)) == DigitValue(c)
  {}

  /** Lower-casing a string never changes what it decodes to, nor whether it decodes. */
  lemma {:induction false} DecodeIgnoresCase(s: string, lower: char -> char)
    requires LawfulLower(lower)
    ensures Decode(ToLower(s, lower)) == Decode(s)
  {
    if |s| >= 2 {
      var t := ToLower(s, lower);
      assert t[2..] == ToLower(s[2..], lower);
      LowerKeepsDigit(s[0], lower);
      LowerKeepsDigit(s[1], lower);
      DecodeIgnoresCase(s[2..], lower);
    }
  }

  lemma LowerDigit(c: char, lower: char -> char)
    requires LawfulLower(lower) && DigitValue(c).Some?
    ensures lower(c) == Digit(DigitValue(c).value)
  {}

  lemma EncodeByte(hi: int, lo: int)
    requires 0 <= hi < 16 && 0 <= lo < 16
    ensures (16 * hi + lo) / 16 == hi && (16 * hi + lo) % 16 == lo
  {}

  /** What decodes is the encoding of what it decodes to, up to case: there is no other spelling. */
  lemma {:induction false} EncodeDecode(s: string, lower: char -> char)
    requires LawfulLower(lower) && Decode(s).Some?
    ensures ToLower(s, lower) == Encode(Decode(s).value)
  {
    if s != "" {
      EncodeDecode(s[2..], lower);
      LowerDigit(s[0], lower);
      LowerDigit(s[1], lower);
      EncodeByte(DigitValue(s[0]).value, DigitValue(s[1]).value);
      assert Decode(s).value[1..] == Decode(s[2..]).value;
      assert s[1..][1..] == s[2..];
    }
  }
}
