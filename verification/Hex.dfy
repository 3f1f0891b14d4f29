/** Hexadecimal text, as std::hex streams print it and from_chars/stoull read it. */
module Hex {

  predicate IsHexDigit(ch: char) {
    '0' <= ch <= '9' || 'A' <= ch <= 'F' || 'a' <= ch <= 'f'
  }

  function DigitValue(ch: char): (v: nat)
    requires IsHexDigit(ch)
    ensures v < 16
  {
    if '0' <= ch <= '9' then ch as int - '0' as int
    else if 'A' <= ch <= 'F' then ch as int - 'A' as int + 10
    else ch as int - 'a' as int + 10
  }

  function UpperDigit(v: nat): (ch: char)
    requires v < 16
    ensures IsHexDigit(ch) && DigitValue(ch) == v && ch != '/' && ch != '-'
  {
    if v < 10 then ('0' as int + v) as char else ('A' as int + (v - 10)) as char
  }

  function LowerDigit(v: nat): (ch: char)
    requires v < 16
    ensures IsHexDigit(ch) && DigitValue(ch) == v && ch != '/' && ch != '-'
  {
    if v < 10 then ('0' as int + v) as char else ('a' as int + (v - 10)) as char
  }

  predicate AllHex(s: string) {
    forall i | 0 <= i < |s| :: IsHexDigit(s[i])
  }

  /** The number a string of hex digits denotes. */
  function Value(s: string): nat
    requires AllHex(s)
  {
    if s == [] then 0 else 16 * Value(s[..|s| - 1]) + DigitValue(s[|s| - 1])
  }

  /** std::hex << std::uppercase: no padding, "0" for zero. */
  function Upper(n: nat): (s: string)
    ensures s != [] && AllHex(s) && Value(s) == n
  {
    if n < 16 then [UpperDigit(n)]
    else
      var front := Upper(n / 16);
      assert (front + [UpperDigit(n % 16)])[..|front|] == front;
      front + [UpperDigit(n % 16)]
  }

  /** The `width` lowest hex digits of `n`, in lower case: what
      std::setfill('0') << std::setw(width) prints when n fits in the width. */
  function Padded(n: nat, width: nat): (s: string)
    ensures |s| == width && AllHex(s)
  {
    if width == 0 then [] else Padded(n / 16, width - 1) + [LowerDigit(n % 16)]
  }

  function Pow16(k: nat): (p: nat)
    ensures p > 0
  {
    if k == 0 then 1 else 16 * Pow16(k - 1)
  }

  lemma {:induction false} PaddedValue(n: nat, width: nat)
    requires n < Pow16(width)
    ensures Value(Padded(n, width)) == n
  {
    if width > 0 {
      PaddedValue(n / 16, width - 1);
      var s := Padded(n, width);
      assert s[..|s| - 1] == Padded(n / 16, width - 1);
    }
  }

  lemma {:induction false} ValueBound(s: string)
    requires AllHex(s)
    ensures Value(s) < Pow16(|s|)
  {
    if s != [] { ValueBound(s[..|s| - 1]); }
  }

  function LowerChar(ch: char): char {
    if 'A' <= ch <= 'F' then (ch as int + 32) as char else ch
  }

  function Lower(s: string): (r: string)
    ensures |r| == |s|
  {
    if s == [] then [] else Lower(s[..|s| - 1]) + [LowerChar(s[|s| - 1])]
  }

  /** Printing what was read gives the digits back in lower case. */
  lemma {:induction false} PaddedOfValue(s: string)
    requires AllHex(s)
    ensures Padded(Value(s), |s|) == Lower(s)
  {
    if s != [] { PaddedOfValue(s[..|s| - 1]); }
  }
}
