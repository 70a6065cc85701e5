/**
 * Rendering of non-negative integers in a radix between 2 and 36, the way
 * JavaScript's Number.prototype.toString(radix) writes an integral number:
 * digits 0-9 then lower-case a-z, most significant first, no leading zeros.
 * The fold uses radix 16 for message ids and radix 10 for part indices.
 */
module Radix {
  import opened Wrappers

  /** A character that can stand for a digit in some radix up to 36. */
  predicate IsDigitChar(c: char) {
    '0' <= c <= '9' || 'a' <= c <= 'z'
  }

  /** The numeric value of a digit character. */
  function DigitValue(c: char): (d: nat)
    requires IsDigitChar(c)
    ensures d < 36
  {
    if '0' <= c <= '9' then c as int - '0' as int else c as int - 'a' as int + 10
  }

  /** The character for digit `d`. */
  function DigitChar(d: nat): (c: char)
    requires d < 36
    ensures IsDigitChar(c) && DigitValue(c) == d
  {
    if d < 10 then ('0' as int + d) as char else ('a' as int + (d - 10)) as char
  }

  /** True when every character of `s` is a digit of `radix`. */
  predicate AllDigits(s: string, radix: nat) {
    forall i :: 0 <= i < |s| ==> IsDigitChar(s[i]) && DigitValue(s[i]) < radix
  }

  /** `n.toString(radix)`: at least one digit and no leading zero (ToRadixDigits: all digits of `radix`). */
  function ToRadix(n: nat, radix: nat): (s: string)
    requires 2 <= radix <= 36
    ensures |s| >= 1
    ensures s[0] == '0' <==> n == 0
    ensures |s| == 1 <==> n < radix
    decreases n
  {
    if n < radix then [DigitChar(n)]
    else
      DivMod(n, radix);
      ToRadix(n / radix, radix) + [DigitChar(n % radix)]
  }

  /** The facts about `/` and `%` that digit extraction relies on. */
  lemma DivMod(n: nat, radix: nat)
    requires 2 <= radix <= n
    ensures 1 <= n / radix < n && n % radix < radix
    ensures n == (n / radix) * radix + n % radix
  {
  }

  /** The decimal rendering `n.toString()`. */
  function Decimal(n: nat): string {
    ToRadix(n, 10)
  }

  /** The base-16 rendering `n.toString(16)`. */
  function Hex(n: nat): (s: string)
    ensures |s| >= 1 && AllDigits(s, 16) && (s[0] == '0' <==> n == 0)
    ensures ParseRadix(s, 16) == Some(n)
  {
    ParseToRadix(n, 16);
    ToRadixDigits(n, 16);
    ToRadix(n, 16)
  }

  /** Reads a non-empty string of `radix` digits back as a number; None for anything else. */
  function ParseRadix(s: string, radix: nat): (r: Option<nat>)
    requires 2 <= radix <= 36
    ensures r.Some? <==> |s| >= 1 && AllDigits(s, radix)
    decreases |s|
  {
    if |s| == 0 then None
    else
      var last := s[|s| - 1];
      if !IsDigitChar(last) || DigitValue(last) >= radix then None
      else if |s| == 1 then Some(DigitValue(last))
      else
        match ParseRadix(s[..|s| - 1], radix)
        case None => None
        case Some(v) => Some(v * radix + DigitValue(last))
  }

  /** Parsing undoes rendering. */
  lemma {:induction false} ParseToRadix(n: nat, radix: nat)
    requires 2 <= radix <= 36
    ensures ParseRadix(ToRadix(n, radix), radix) == Some(n)
    decreases n
  {
    if n >= radix {
      var s := ToRadix(n, radix);
      DivMod(n, radix);
      ParseToRadix(n / radix, radix);
      assert s[..|s| - 1] == ToRadix(n / radix, radix);
    }
  }

  /** Distinct numbers render to distinct strings in any one radix. */
  lemma ToRadixInjective(a: nat, b: nat, radix: nat)
    requires 2 <= radix <= 36
    ensures ToRadix(a, radix) == ToRadix(b, radix) <==> a == b
  {
    ParseToRadix(a, radix);
    ParseToRadix(b, radix);
  }

  /** A rendered number never contains a character outside the digit alphabet (such as '_'). */
  lemma ToRadixHasNoSeparator(n: nat, radix: nat, c: char)
    requires 2 <= radix <= 36
    requires !IsDigitChar(c)
    ensures c !in ToRadix(n, radix)
  {
    ToRadixDigits(n, radix);
  }

  /** Every character of a rendering is a digit of the radix. */
  lemma ToRadixDigits(n: nat, radix: nat)
    requires 2 <= radix <= 36
    ensures AllDigits(ToRadix(n, radix), radix)
  {
    ParseToRadix(n, radix);
  }
}
