/**
  The deployment key handling of the Hardhat configuration (hardhat.config.ts):
  `normalizePrivateKey` and the `accounts` list of the `sepolia` network built from it.
*/
module HardhatConfig {
  import opened Wrappers
  import opened JsString

  /** A character of the regular expression class `[0-9a-fA-F]`. */
  predicate IsHexDigit(c: char)
  {
    '0' <= c <= '9' || 'a' <= c <= 'f' || 'A' <= c <= 'F'
  }

  predicate AllHexDigits(s: string)
  {
    forall i :: 0 <= i < |s| ==> IsHexDigit(s[i])
  }

  /** The test `/^0x[0-9a-fA-F]{64}$/`: `0x` and then exactly 64 hex digits, a 32-byte key. */
  predicate IsPrefixedKey(s: string): (b: bool)
    ensures b <==> |s| >= 2 && s[..2] == "0x" && IsBareKey(s[2..])
  {
    |s| == 66 && s[..2] == "0x" && AllHexDigits(s[2..])
  }

  /** A key as it may be written without the prefix: exactly 64 hex digits. */
  predicate IsBareKey(s: string)
  {
    |s| == 64 && AllHexDigits(s)
  }

  /**
    `normalizePrivateKey(key)`: None (undefined) for a missing or empty key;
    otherwise the trimmed key, with `0x` put in front unless it is already
    there, when that is a 32-byte hex key, and None when it is not.
  */
  function NormalizePrivateKey(key: Option<string>): (r: Option<string>)
    ensures key == None || key == Some("") ==> r == None
    ensures r.Some? ==> IsPrefixedKey(r.value)
  {
    if key.None? || key.value == "" then None else CheckTrimmedKey(Trim(key.value))
  }

  /** The steps after `trim()`: add `0x` unless it is there, then apply the regular expression. */
  function CheckTrimmedKey(trimmed: string): (r: Option<string>)
    ensures r.Some? ==> IsPrefixedKey(r.value)
  {
    var withPrefix := if StartsWith(trimmed, "0x") then trimmed else "0x" + trimmed;
    if IsPrefixedKey(withPrefix) then Some(withPrefix) else None
  }

  /**
    A non-empty key is accepted exactly when, once trimmed, it is a 32-byte hex key
    with or without `0x`; a bare key gets `0x` added and a prefixed one is kept as it is.
  */
  lemma NormalizeAccepts(key: string)
    requires key != ""
    ensures NormalizePrivateKey(Some(key)).Some? <==> IsPrefixedKey(Trim(key)) || IsBareKey(Trim(key))
    ensures IsPrefixedKey(Trim(key)) ==> NormalizePrivateKey(Some(key)) == Some(Trim(key))
    ensures IsBareKey(Trim(key)) ==> NormalizePrivateKey(Some(key)) == Some("0x" + Trim(key))
  {
    var t := Trim(key);
    if IsBareKey(t) {
      assert !IsHexDigit('x');
      assert IsHexDigit(t[1]);
      assert !StartsWith(t, "0x");
      assert ("0x" + t)[2..] == t;
    }
    if !StartsWith(t, "0x") && IsPrefixedKey("0x" + t) {
      assert ("0x" + t)[2..] == t;
      assert IsBareKey(t);
    }
  }

  /** The accepted key never carries the prefix twice. */
  lemma NormalizeNoDoublePrefix(key: Option<string>)
    requires NormalizePrivateKey(key).Some?
    ensures !StartsWith(NormalizePrivateKey(key).value[2..], "0x")
  {
    var r := NormalizePrivateKey(key).value;
    assert IsHexDigit(r[2..][1]);
  }

  /** White space around the key does not change the outcome. */
  lemma NormalizeIgnoresSurroundingWhiteSpace(w1: string, key: string, w2: string)
    requires AllWhiteSpace(w1) && AllWhiteSpace(w2)
    ensures NormalizePrivateKey(Some(w1 + key + w2)) == NormalizePrivateKey(Some(key))
  {
    var padded := w1 + key + w2;
    TrimIgnoresSurroundingWhiteSpace(w1, key, w2);
    if key == "" {
      assert CheckTrimmedKey([]) == None by { assert !IsPrefixedKey("0x" + []); }
    } else {
      assert padded != "";
    }
  }

  /** Normalizing an accepted key again gives the same key. */
  lemma NormalizeIdempotent(key: Option<string>)
    requires NormalizePrivateKey(key).Some?
    ensures NormalizePrivateKey(NormalizePrivateKey(key)) == NormalizePrivateKey(key)
  {
    var r := NormalizePrivateKey(key).value;
    assert !IsWhiteSpace(r[0]) && !IsWhiteSpace(r[65]) by {
      assert IsHexDigit(r[2..][63]);
    }
    TrimUnchanged(r);
  }

  /** `accounts` of the `sepolia` network: the normalized key alone, or no account at all. */
  function SepoliaAccounts(privateKey: Option<string>): (accounts: seq<string>)
    ensures |accounts| <= 1
    ensures |accounts| == 1 <==> NormalizePrivateKey(privateKey).Some?
    ensures forall a :: a in accounts ==> IsPrefixedKey(a)
    ensures NormalizePrivateKey(privateKey).Some? ==> accounts == [NormalizePrivateKey(privateKey).value]
  {
    match NormalizePrivateKey(privateKey)
    case Some(k) => [k]
    case None => []
  }
}
