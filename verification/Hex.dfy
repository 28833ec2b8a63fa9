/** Lower-case hexadecimal, as encoding/hex writes it. */
module Hex {
  import opened Basics
  import opened Otlp

  const DIGITS := "0123456789abcdef"

  function EncodeToString(b: Bytes): (s: string)
    ensures |s| == 2 * |b|
  {
    if b == [] then ""
    else [DIGITS[b[0] as int / 16], DIGITS[b[0] as int % 16]] + EncodeToString(b[1..])
  }

  /** Two digits to a byte, the high one first, in lower case. */
  lemma {:induction false} DigitsAt(b: Bytes, i: nat)
    requires i < |b|
    ensures EncodeToString(b)[2 * i] == "0123456789abcdef"[b[i] as int / 16]
    ensures EncodeToString(b)[2 * i + 1] == "0123456789abcdef"[b[i] as int % 16]
  {
    if i > 0 { DigitsAt(b[1..], i - 1); }
  }

  function Nibble(c: char): (d: Option<nat>)
    ensures d.Some? ==> d.value < 16
  {
    if '0' <= c <= '9' then Some((c - '0') as nat)
    else if 'a' <= c <= 'f' then Some((c - 'a') as nat + 10)
    else None
  }

  function DecodeString(s: string): Option<Bytes> {
    if s == "" then Some([])
    else if |s| == 1 then None
    else
      match (Nibble(s[0]), Nibble(s[1]), DecodeString(s[2..]))
      case (Some(hi), Some(lo), Some(rest)) => Some([(hi * 16 + lo) as byte] + rest)
      case _ => None
  }

  lemma NibbleOfDigit(d: nat)
    requires d < 16
    ensures Nibble(DIGITS[d]) == Some(d)
  {}

  lemma DecodeNext(s: string, hi: nat, lo: nat, rest: Bytes)
    requires hi < 16 && lo < 16 && DecodeString(s) == Some(rest)
    ensures DecodeString([DIGITS[hi], DIGITS[lo]] + s) == Some([(hi * 16 + lo) as byte] + rest)
  {
    NibbleOfDigit(hi);
    NibbleOfDigit(lo);
    assert ([DIGITS[hi], DIGITS[lo]] + s)[2..] == s;
  }

  lemma {:induction false} RoundTrip(b: Bytes)
    ensures DecodeString(EncodeToString(b)) == Some(b)
  {
    if b != [] {
      RoundTrip(b[1..]);
      DecodeNext(EncodeToString(b[1..]), b[0] as int / 16, b[0] as int % 16, b[1..]);
      assert b == [b[0]] + b[1..];
    }
  }

  /** Distinct identifiers have distinct hexadecimal keys. */
  lemma Injective(a: Bytes, b: Bytes)
    requires EncodeToString(a) == EncodeToString(b)
    ensures a == b
  {
    RoundTrip(a);
    RoundTrip(b);
  }
}
