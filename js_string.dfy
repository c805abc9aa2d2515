/**
  The few JavaScript string built-ins the modelled code relies on:
  `String.prototype.startsWith` and `String.prototype.trim`.
*/
module JsString {

  /** `s.startsWith(prefix)`. */
  predicate StartsWith(s: string, prefix: string)
  {
    |prefix| <= |s| && s[..|prefix|] == prefix
  }

  /** `s.endsWith(suffix)`. */
  predicate EndsWith(s: string, suffix: string)
  {
    |suffix| <= |s| && s[|s| - |suffix|..] == suffix
  }

  /**
    The code points `trim` removes: ECMAScript's WhiteSpace (tab, vertical tab,
    form feed, space, no-break space, zero width no-break space and the Unicode
    space separators) and LineTerminator (LF, CR, LS, PS).
  */
  const WhiteSpaceCodes: set<int> := {
    0x09, 0x0A, 0x0B, 0x0C, 0x0D, 0x20, 0xA0, 0x1680,
    0x2000, 0x2001, 0x2002, 0x2003, 0x2004, 0x2005, 0x2006, 0x2007, 0x2008, 0x2009, 0x200A,
    0x2028, 0x2029, 0x202F, 0x205F, 0x3000, 0xFEFF}

  predicate IsWhiteSpace(c: char)
  {
    c as int in WhiteSpaceCodes
  }

  predicate AllWhiteSpace(s: string)
  {
    forall i :: 0 <= i < |s| ==> IsWhiteSpace(s[i])
  }

  lemma WhiteSpaceBefore(c: char, w: string)
    requires IsWhiteSpace(c) && AllWhiteSpace(w)
    ensures AllWhiteSpace([c] + w)
  {
    forall i | 0 <= i < |[c] + w| ensures IsWhiteSpace(([c] + w)[i]) {
      if i > 0 {
        assert ([c] + w)[i] == w[i - 1];
      }
    }
  }

  lemma WhiteSpaceAfter(w: string, c: char)
    requires AllWhiteSpace(w) && IsWhiteSpace(c)
    ensures AllWhiteSpace(w + [c])
  {
    forall i | 0 <= i < |w + [c]| ensures IsWhiteSpace((w + [c])[i]) {
      if i < |w| {
        assert (w + [c])[i] == w[i];
      }
    }
  }

  /** How many white space characters `s` starts with. */
  function LeadingWhiteSpace(s: string): (n: nat)
    ensures n <= |s| && AllWhiteSpace(s[..n])
    ensures n < |s| ==> !IsWhiteSpace(s[n])
  {
    if s == [] || !IsWhiteSpace(s[0]) then 0
    else
      var n := LeadingWhiteSpace(s[1..]);
      assert s[..n + 1] == [s[0]] + s[1..][..n];
      WhiteSpaceBefore(s[0], s[1..][..n]);
      n + 1
  }

  /** Drops the leading white space: the result is the suffix of `s` that starts at its first other character. */
  function TrimStart(s: string): (r: string)
    ensures |r| <= |s| && r == s[|s| - |r|..]
    ensures AllWhiteSpace(s[..|s| - |r|])
    ensures r == [] || !IsWhiteSpace(r[0])
  {
    s[LeadingWhiteSpace(s)..]
  }

  /** Drops the trailing white space: the result is the prefix of `s` that ends at its last other character. */
  function TrimEnd(s: string): (r: string)
    ensures |r| <= |s| && r == s[..|r|]
    ensures AllWhiteSpace(s[|r|..])
    ensures r == [] || !IsWhiteSpace(r[|r| - 1])
  {
    if s == [] || !IsWhiteSpace(s[|s| - 1]) then s
    else
      var r := TrimEnd(s[..|s| - 1]);
      assert s[..|s| - 1][..|r|] == s[..|r|];
      assert s[|r|..] == s[..|s| - 1][|r|..] + [s[|s| - 1]];
      WhiteSpaceAfter(s[..|s| - 1][|r|..], s[|s| - 1]);
      r
  }

  /** `s.trim()`. */
  function Trim(s: string): (r: string)
    ensures r == [] || (!IsWhiteSpace(r[0]) && !IsWhiteSpace(r[|r| - 1]))
  {
    TrimEnd(TrimStart(s))
  }

  /** A string `trim` leaves alone is one that neither starts nor ends with white space. */
  lemma TrimUnchanged(s: string)
    requires s == [] || (!IsWhiteSpace(s[0]) && !IsWhiteSpace(s[|s| - 1]))
    ensures Trim(s) == s
  {
  }

  lemma TrimIdempotent(s: string)
    ensures Trim(Trim(s)) == Trim(s)
  {
    TrimUnchanged(Trim(s));
  }

  lemma {:induction false} TrimStartAfterWhiteSpace(w: string, s: string)
    requires AllWhiteSpace(w)
    ensures TrimStart(w + s) == TrimStart(s)
  {
    if w != [] {
      assert (w + s)[1..] == w[1..] + s;
      TrimStartAfterWhiteSpace(w[1..], s);
    } else {
      assert w + s == s;
    }
  }

  lemma {:induction false} TrimEndBeforeWhiteSpace(s: string, w: string)
    requires AllWhiteSpace(w)
    ensures TrimEnd(s + w) == TrimEnd(s)
  {
    if w != [] {
      var n := |w| - 1;
      assert (s + w)[..|s + w| - 1] == s + w[..n];
      TrimEndBeforeWhiteSpace(s, w[..n]);
    } else {
      assert s + w == s;
    }
  }

  /** Appending white space to a string only appends it to the string's TrimStart, unless nothing else is left. */
  lemma {:induction false} TrimStartBeforeWhiteSpace(s: string, w: string)
    requires AllWhiteSpace(w)
    ensures TrimStart(s + w) == if TrimStart(s) == [] then TrimStart(w) else TrimStart(s) + w
  {
    if s == [] {
      assert s + w == w;
    } else if IsWhiteSpace(s[0]) {
      assert (s + w)[1..] == s[1..] + w;
      TrimStartBeforeWhiteSpace(s[1..], w);
    }
  }

  /** Surrounding white space does not change what `trim` returns. */
  lemma TrimIgnoresSurroundingWhiteSpace(w1: string, s: string, w2: string)
    requires AllWhiteSpace(w1) && AllWhiteSpace(w2)
    ensures Trim(w1 + s + w2) == Trim(s)
  {
    assert w1 + s + w2 == w1 + (s + w2);
    TrimStartAfterWhiteSpace(w1, s + w2);
    TrimStartBeforeWhiteSpace(s, w2);
    if TrimStart(s) == [] {
      assert TrimEnd(TrimStart(w2)) == [];
    } else {
      TrimEndBeforeWhiteSpace(TrimStart(s), w2);
    }
  }
}
