/**
  The hex helpers of the frontend (frontend/src/App.tsx): `appendHexPrefix`,
  `bytesToHex` and `ensureHexPrefixed`, which turn the relayer's encrypted
  handles and input proofs into the `0x`-prefixed strings the contract call takes.
*/
module Hex {
  import opened Wrappers
  import opened JsString
  import opened NumberText

  /** An element of a `Uint8Array`. */
  type Byte = b: int | 0 <= b < 256

  /** A digit `toString(16)` writes: `0`-`9` or lower-case `a`-`f`. */
  predicate IsLowerHexDigit(c: char)
  {
    '0' <= c <= '9' || 'a' <= c <= 'f'
  }

  /** `appendHexPrefix(hex)`: `hex` itself when it already starts with `0x`, otherwise `0x` in front of it. */
  function AppendHexPrefix(hex: string): (r: string)
    ensures StartsWith(r, "0x")
    ensures StartsWith(hex, "0x") ==> r == hex
    ensures !StartsWith(hex, "0x") ==> r[..2] == "0x" && r[2..] == hex
  {
    if StartsWith(hex, "0x") then hex else "0x" + hex
  }

  /** Prefixing twice is prefixing once. */
  lemma AppendHexPrefixIdempotent(hex: string)
    ensures AppendHexPrefix(AppendHexPrefix(hex)) == AppendHexPrefix(hex)
  {
  }

  /** One byte as two lower-case hex digits: its high nibble, then its low nibble. */
  function ByteToHex(b: Byte): (r: string)
    ensures |r| == 2 && IsLowerHexDigit(r[0]) && IsLowerHexDigit(r[1])
  {
    [DigitChar(b / 16), DigitChar(b % 16)]
  }

  /** What the source writes per byte, `b.toString(16).padStart(2, "0")`, is exactly ByteToHex. */
  lemma PaddedToStringIsByteToHex(b: Byte)
    ensures PadStart(ToRadixString(b, 16), 2, '0') == ByteToHex(b)
  {
    if b >= 16 {
      assert ToRadixString(b / 16, 16) == [DigitChar(b / 16)];
    }
  }

  /** The two digits of a byte read back as that byte. */
  lemma ByteToHexRoundTrip(b: Byte)
    ensures ParseRadix(ByteToHex(b), 16) == Some(b)
  {
    var hi, lo := DigitChar(b / 16), DigitChar(b % 16);
    assert [hi] + [lo] == ByteToHex(b);
    ParseRadixAppend([hi], lo, 16);
  }

  /** `Array.from(bytes).map(...).join("")`: the byte digits, two per byte, in order. */
  function HexDigits(bytes: seq<Byte>): (r: string)
    ensures |r| == 2 * |bytes|
    ensures forall i :: 0 <= i < |r| ==> IsLowerHexDigit(r[i])
  {
    if bytes == [] then ""
    else ByteToHex(bytes[0]) + HexDigits(bytes[1..])
  }

  /** `bytesToHex(bytes)`. */
  function BytesToHex(bytes: seq<Byte>): (r: string)
    ensures |r| == 2 + 2 * |bytes|
    ensures StartsWith(r, "0x")
    ensures forall i :: 2 <= i < |r| ==> IsLowerHexDigit(r[i])
  {
    "0x" + HexDigits(bytes)
  }

  /** Byte `i` is written at positions `2i` and `2i + 1` of the digits. */
  lemma {:induction false} HexDigitsAt(bytes: seq<Byte>, i: nat)
    requires i < |bytes|
    ensures HexDigits(bytes)[2 * i..2 * i + 2] == ByteToHex(bytes[i])
  {
    if i > 0 {
      HexDigitsAt(bytes[1..], i - 1);
      assert HexDigits(bytes)[2..] == HexDigits(bytes[1..]);
    }
  }

  /** Byte `i` of the input is the pair of digits just after `0x` plus `2i`. */
  lemma BytesToHexAt(bytes: seq<Byte>, i: nat)
    requires i < |bytes|
    ensures BytesToHex(bytes)[2 + 2 * i..4 + 2 * i] == [DigitChar(bytes[i] / 16), DigitChar(bytes[i] % 16)]
  {
    HexDigitsAt(bytes, i);
    assert BytesToHex(bytes)[2..] == HexDigits(bytes);
  }

  /** Reads pairs of hex digits back as bytes; None for an odd length or a pair that is not two hex digits. */
  function HexPairsToBytes(s: string): Option<seq<Byte>>
  {
    if s == [] then Some([])
    else if |s| < 2 then None
    else match (ParseRadix(s[..2], 16), HexPairsToBytes(s[2..]))
      case (Some(b), Some(rest)) => if b < 256 then Some([b] + rest) else None
      case _ => None
  }

  /** Reads a `0x`-prefixed hex string back as bytes. */
  function DecodeHex(s: string): Option<seq<Byte>>
  {
    if StartsWith(s, "0x") then HexPairsToBytes(s[2..]) else None
  }

  lemma {:induction false} HexDigitsRoundTrip(bytes: seq<Byte>)
    ensures HexPairsToBytes(HexDigits(bytes)) == Some(bytes)
  {
    if bytes != [] {
      var s := HexDigits(bytes);
      HexDigitsRoundTrip(bytes[1..]);
      ByteToHexRoundTrip(bytes[0]);
      assert s[..2] == ByteToHex(bytes[0]) && s[2..] == HexDigits(bytes[1..]);
      assert [bytes[0]] + bytes[1..] == bytes;
    }
  }

  /** Decoding each digit pair after `0x` gives back the bytes `bytesToHex` was given. */
  lemma BytesToHexRoundTrip(bytes: seq<Byte>)
    ensures DecodeHex(BytesToHex(bytes)) == Some(bytes)
  {
    HexDigitsRoundTrip(bytes);
    assert BytesToHex(bytes)[2..] == HexDigits(bytes);
  }

  /** Different byte arrays give different hex strings. */
  lemma BytesToHexInjective(a: seq<Byte>, b: seq<Byte>)
    requires BytesToHex(a) == BytesToHex(b)
    ensures a == b
  {
    BytesToHexRoundTrip(a);
    BytesToHexRoundTrip(b);
  }

  /** The values `ensureHexPrefixed` tells apart. */
  datatype JsValue =
    | Undefined
    | Null
    | JsString(s: string)
    | Uint8Array(bytes: seq<Byte>)
    | ArrayBuffer(contents: seq<Byte>)
      /** Any other non-null object: its `handle` property (Undefined when it has none) and its `String(...)` form. */
    | JsObject(handle: JsValue, text: string)
      /** A number, boolean, bigint, symbol or function, by its `String(...)` form. */
    | Primitive(text: string)

  const MissingEncryptedData := "Missing required encrypted data."

  /** `ensureHexPrefixed(value)`; the thrown error is the Err case. */
  function EnsureHexPrefixed(value: JsValue): (r: Result<string, string>)
    ensures r.Err? <==> value.Undefined? || value.Null?
    ensures r.Err? ==> r.error == MissingEncryptedData
    ensures r.Ok? ==> StartsWith(r.value, "0x")
    ensures value.JsString? ==> r == Ok(AppendHexPrefix(value.s))
    ensures value.Uint8Array? ==> r == Ok(BytesToHex(value.bytes))
    ensures value.ArrayBuffer? ==> r == Ok(BytesToHex(value.contents))
    ensures value.JsObject? ==> r == Ok(AppendHexPrefix(if value.handle.JsString? then value.handle.s else value.text))
    ensures value.Primitive? ==> r == Ok(AppendHexPrefix(value.text))
  {
    match value
    case JsString(s) => Ok(AppendHexPrefix(s))
    case Uint8Array(bytes) => Ok(BytesToHex(bytes))
    case ArrayBuffer(contents) => Ok(BytesToHex(contents))
    case JsObject(JsString(h), _) => Ok(AppendHexPrefix(h))
    case Undefined => Err(MissingEncryptedData)
    case Null => Err(MissingEncryptedData)
    case JsObject(_, text) => Ok(AppendHexPrefix(text))
    case Primitive(text) => Ok(AppendHexPrefix(text))
  }

  /** Passing a result of `ensureHexPrefixed` through it again leaves it as it is. */
  lemma EnsureHexPrefixedStable(value: JsValue)
    requires EnsureHexPrefixed(value).Ok?
    ensures EnsureHexPrefixed(JsString(EnsureHexPrefixed(value).value)) == EnsureHexPrefixed(value)
  {
  }

  /** For byte data the string sent on-chain decodes back to exactly those bytes. */
  lemma EnsureHexPrefixedBytes(bytes: seq<Byte>)
    ensures DecodeHex(EnsureHexPrefixed(Uint8Array(bytes)).value) == Some(bytes)
    ensures DecodeHex(EnsureHexPrefixed(ArrayBuffer(bytes)).value) == Some(bytes)
  {
    BytesToHexRoundTrip(bytes);
  }
}
