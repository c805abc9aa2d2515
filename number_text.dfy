/**
  The JavaScript number formatting the modelled code relies on:
  `Number.prototype.toString(radix)` for non-negative integers and
  `String.prototype.padStart` with a one-character filler.
*/
module NumberText {
  import opened Wrappers

  /** The radices `toString` accepts. */
  type Radix = r: int | 2 <= r <= 36 witness 10

  /** The digit `toString` writes for `d`: `0`-`9`, then lower-case `a`-`z`. */
  function DigitChar(d: nat): (c: char)
    requires d < 36
    ensures DigitValue(c) == Some(d)
  {
    if d < 10 then ('0' as int + d) as char else ('a' as int + d - 10) as char
  }

  /** The value of a lower-case digit character, if it is one. */
  function DigitValue(c: char): (v: Option<nat>)
    ensures v.Some? ==> v.value < 36
  {
    if '0' <= c <= '9' then Some(c as int - '0' as int)
    else if 'a' <= c <= 'z' then Some(c as int - 'a' as int + 10)
    else None
  }

  lemma DigitCharInjective(d: nat, e: nat)
    requires d < 36 && e < 36 && DigitChar(d) == DigitChar(e)
    ensures d == e
  {
    assert DigitValue(DigitChar(d)) == Some(d);
  }

  /** `n.toString(radix)`: the digits of `n` in that radix, most significant first, no leading zero. */
  function ToRadixString(n: nat, radix: Radix): (s: string)
    ensures |s| >= 1
    ensures forall i :: 0 <= i < |s| ==> DigitValue(s[i]).Some? && DigitValue(s[i]).value < radix
    ensures s[0] == '0' ==> n == 0
    decreases n
  {
    if n < radix then [DigitChar(n)]
    else
      DivMod(n, radix);
      ToRadixString(n / radix, radix) + [DigitChar(n % radix)]
  }

  /** The facts about `n / radix` and `n % radix` the digit reasoning needs. */
  lemma DivMod(n: nat, radix: Radix)
    ensures n == n / radix * radix + n % radix
    ensures 0 <= n % radix < radix
    ensures n >= radix ==> 1 <= n / radix < n
  {
  }

  /** Reads the digits of `s` in the given radix; None when `s` is empty or holds a non-digit. */
  function ParseRadix(s: string, radix: Radix): (v: Option<nat>)
    decreases |s|
  {
    if s == [] then None
    else
      var d := DigitValue(s[|s| - 1]);
      if d.None? || d.value >= radix then None
      else if |s| == 1 then Some(d.value)
      else match ParseRadix(s[..|s| - 1], radix)
        case None => None
        case Some(high) => Some(high * radix + d.value)
  }

  /** Appending a digit multiplies the value read so far by the radix and adds the digit. */
  lemma ParseRadixAppend(t: string, c: char, radix: Radix)
    requires ParseRadix(t, radix).Some?
    requires DigitValue(c).Some? && DigitValue(c).value < radix
    ensures ParseRadix(t + [c], radix) == Some(ParseRadix(t, radix).value * radix + DigitValue(c).value)
  {
    assert (t + [c])[..|t + [c]| - 1] == t;
  }

  /** One step of the round trip: the last digit `toString` writes is read back as the remainder. */
  lemma RoundTripStep(n: nat, radix: Radix)
    requires n >= radix
    requires ParseRadix(ToRadixString(n / radix, radix), radix) == Some(n / radix)
    ensures ParseRadix(ToRadixString(n, radix), radix) == Some(n)
  {
    var high, low := n / radix, n % radix;
    DivMod(n, radix);
    ReadLastDigit(ToRadixString(n, radix), ToRadixString(high, radix), DigitChar(low), high, low, n, radix);
  }

  lemma ReadLastDigit(s: string, t: string, c: char, high: nat, low: nat, n: nat, radix: Radix)
    requires s == t + [c] && ParseRadix(t, radix) == Some(high)
    requires DigitValue(c) == Some(low) && low < radix && n == high * radix + low
    ensures ParseRadix(s, radix) == Some(n)
  {
    ParseRadixAppend(t, c, radix);
  }

  /** Reading back what `toString(radix)` wrote gives the number. */
  lemma {:induction false} ToRadixStringRoundTrip(n: nat, radix: Radix)
    ensures ParseRadix(ToRadixString(n, radix), radix) == Some(n)
  {
    if n < radix {
      assert ToRadixString(n, radix) == [DigitChar(n)];
    } else {
      ToRadixStringRoundTrip(n / radix, radix);
      RoundTripStep(n, radix);
    }
  }

  /** Two numbers written in the same radix are written the same only if they are equal. */
  lemma ToRadixStringInjective(m: nat, n: nat, radix: Radix)
    requires ToRadixString(m, radix) == ToRadixString(n, radix)
    ensures m == n
  {
    ToRadixStringRoundTrip(m, radix);
    ToRadixStringRoundTrip(n, radix);
  }

  /** `s.padStart(target, fill)`: `fill` repeated in front of `s` up to `target` characters. */
  function PadStart(s: string, target: nat, fill: char): (r: string)
    ensures |r| == if |s| >= target then |s| else target
    ensures r[|r| - |s|..] == s
    ensures forall i :: 0 <= i < |r| - |s| ==> r[i] == fill
  {
    if |s| >= target then s else seq(target - |s|, _ => fill) + s
  }
}
