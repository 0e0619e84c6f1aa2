/**
 * The byte and message helpers of utils.ts: buffer concatenation, lower-case hex
 * output, the Bitcoin "signed message" preimage and the GAIT path HMAC input.
 * Also the two byte conversions of the JavaScript runtime that the core relies on:
 * TextEncoder (UTF-8) and Buffer.from(s, "hex").
 */
module Utils {
  import opened Wrappers

  type Byte = b: int | 0 <= b < 256
  type Bytes = seq<Byte>
  type Digest32 = s: Bytes | |s| == 32 witness seq(32, _ => 0)
  type Digest64 = s: Bytes | |s| == 64 witness seq(64, _ => 0)

  /** The hash primitives of Node's crypto module; the model never computes them. */
  datatype Crypto = Crypto(sha256: Bytes -> Digest32, hmacSha512: (Bytes, Bytes) -> Digest64)

  // ---------------------------------------------------------------------------
  // UTF-8, as TextEncoder.encode produces it
  // ---------------------------------------------------------------------------

  predicate IsAscii(s: string) {
    forall i :: 0 <= i < |s| ==> s[i] as int < 0x80
  }

  /** The UTF-8 encoding of one Unicode scalar value. */
  function CharToUtf8(c: char): (r: Bytes)
    ensures 1 <= |r| <= 4
    ensures |r| == 1 <==> c as int < 0x80
    ensures |r| == 1 ==> r[0] == c as int
  {
    var cp := c as int;
    if cp < 0x80 then [cp]
    else if cp < 0x800 then [0xC0 + cp / 0x40, 0x80 + cp % 0x40]
    else if cp < 0x10000 then [0xE0 + cp / 0x1000, 0x80 + (cp / 0x40) % 0x40, 0x80 + cp % 0x40]
    else [0xF0 + cp / 0x40000, 0x80 + (cp / 0x1000) % 0x40, 0x80 + (cp / 0x40) % 0x40, 0x80 + cp % 0x40]
  }

  function Utf8Encode(s: string): (r: Bytes)
    ensures |s| <= |r| <= 4 * |s|
  {
    if s == [] then [] else CharToUtf8(s[0]) + Utf8Encode(s[1..])
  }

  /** On ASCII text the encoding is one byte per character, equal to its code. */
  lemma {:induction false} AsciiUtf8(s: string)
    requires IsAscii(s)
    ensures |Utf8Encode(s)| == |s|
    ensures forall i :: 0 <= i < |s| ==> Utf8Encode(s)[i] == s[i] as int
  {
    if s != [] {
      AsciiUtf8(s[1..]);
    }
  }

  /** Bytes that equal an ASCII text's codes one for one are its encoding. */
  lemma AsciiBytes(text: string, bytes: Bytes)
    requires |bytes| == |text|
    requires forall i :: 0 <= i < |text| ==> text[i] as int < 0x80 && bytes[i] == text[i] as int
    ensures bytes == Utf8Encode(text)
  {
    AsciiUtf8(text);
  }

  /** The encoding of a concatenation is the concatenation of the encodings. */
  lemma {:induction false} Utf8EncodeAppend(a: string, b: string)
    ensures Utf8Encode(a + b) == Utf8Encode(a) + Utf8Encode(b)
  {
    if a == [] {
      assert a + b == b;
    } else {
      assert (a + b)[0] == a[0] && (a + b)[1..] == a[1..] + b;
      Utf8EncodeAppend(a[1..], b);
    }
  }

  // ---------------------------------------------------------------------------
  // String.prototype.split on one character, and in-place reverse
  // ---------------------------------------------------------------------------

  /** The pieces between occurrences of sep, as String.prototype.split(sep) returns them. */
  function Split(s: string, sep: char): (parts: seq<string>)
    ensures |parts| >= 1
  {
    if s == [] then [""]
    else
      var rest := Split(s[1..], sep);
      if s[0] == sep then [""] + rest else [[s[0]] + rest[0]] + rest[1..]
  }

  lemma {:induction false} SplitNoSeparator(s: string, sep: char)
    requires sep !in s
    ensures Split(s, sep) == [s]
  {
    if s != [] {
      SplitNoSeparator(s[1..], sep);
      assert [s[0]] + s[1..] == s;
    }
  }

  /** Splitting at the first separator: the text before it is the first piece. */
  lemma {:induction false} SplitAtFirstSeparator(a: string, sep: char, b: string)
    requires sep !in a
    ensures Split(a + [sep] + b, sep) == [a] + Split(b, sep)
  {
    if a == [] {
      assert (a + [sep] + b)[1..] == b;
    } else {
      assert (a + [sep] + b)[1..] == a[1..] + [sep] + b;
      assert (a + [sep] + b)[0] == a[0] != sep;
      SplitAtFirstSeparator(a[1..], sep, b);
      assert [a[0]] + a[1..] == a;
    }
  }

  /** Buffer.prototype.reverse. */
  function Reverse(s: Bytes): (r: Bytes)
    ensures |r| == |s|
    ensures forall i :: 0 <= i < |s| ==> r[i] == s[|s| - 1 - i]
  {
    if s == [] then [] else Reverse(s[1..]) + [s[0]]
  }

  // ---------------------------------------------------------------------------
  // concatUint8Arrays
  // ---------------------------------------------------------------------------

  /** The reduce that sizes the result: the sum of the input lengths. */
  function TotalLength(arrays: seq<Bytes>): nat {
    if arrays == [] then 0 else TotalLength(arrays[..|arrays| - 1]) + |arrays[|arrays| - 1]|
  }

  /** The in-order concatenation of the input arrays. */
  function Flatten(arrays: seq<Bytes>): Bytes {
    if arrays == [] then [] else Flatten(arrays[..|arrays| - 1]) + arrays[|arrays| - 1]
  }

  lemma {:induction false} FlattenLength(arrays: seq<Bytes>)
    ensures |Flatten(arrays)| == TotalLength(arrays)
  {
    if arrays != [] {
      FlattenLength(arrays[..|arrays| - 1]);
    }
  }

  lemma {:induction false} TotalLengthPrefix(arrays: seq<Bytes>, k: nat)
    requires k <= |arrays|
    ensures TotalLength(arrays[..k]) <= TotalLength(arrays)
  {
    if k < |arrays| {
      var init := arrays[..|arrays| - 1];
      assert arrays[..k] == init[..k];
      TotalLengthPrefix(init, k);
    } else {
      assert arrays[..k] == arrays;
    }
  }

  /**
   * Array k of the input sits in the concatenation at the offset given by the
   * lengths of arrays 0..k-1, byte for byte.
   */
  lemma {:induction false} FlattenAt(arrays: seq<Bytes>, k: nat, j: nat)
    requires k < |arrays| && j < |arrays[k]|
    ensures TotalLength(arrays[..k]) + j < |Flatten(arrays)|
    ensures Flatten(arrays)[TotalLength(arrays[..k]) + j] == arrays[k][j]
  {
    var init := arrays[..|arrays| - 1];
    FlattenLength(arrays);
    FlattenLength(init);
    if k == |arrays| - 1 {
      assert arrays[..k] == init;
    } else {
      assert arrays[..k] == init[..k];
      FlattenAt(init, k, j);
    }
  }

  /** Uint8Array.prototype.set: copies src into buf starting at offset, in place. */
  method SetBytes(buf: array<Byte>, src: Bytes, offset: nat)
    requires offset + |src| <= buf.Length
    modifies buf
    ensures buf[..offset] == old(buf[..offset])
    ensures buf[offset..offset + |src|] == src
    ensures buf[offset + |src|..] == old(buf[offset + |src|..])
  {
    for j := 0 to |src|
      invariant forall k :: 0 <= k < offset ==> buf[k] == old(buf[k])
      invariant forall k :: 0 <= k < j ==> buf[offset + k] == src[k]
      invariant forall k :: offset + |src| <= k < buf.Length ==> buf[k] == old(buf[k])
    {
      buf[offset + j] := src[j];
    }
  }

  /** concatUint8Arrays: a fresh array holding the inputs one after another. */
  method ConcatUint8Arrays(arrays: seq<Bytes>) returns (result: array<Byte>)
    ensures fresh(result)
    ensures result.Length == TotalLength(arrays)
    ensures result[..] == Flatten(arrays)
  {
    var totalLength := TotalLength(arrays);
    result := new Byte[totalLength];
    var offset := 0;
    for i := 0 to |arrays|
      invariant offset == TotalLength(arrays[..i]) <= totalLength
      invariant result.Length == totalLength
      invariant result[..offset] == Flatten(arrays[..i])
    {
      assert arrays[..i + 1][..i] == arrays[..i];
      TotalLengthPrefix(arrays, i + 1);
      SetBytes(result, arrays[i], offset);
      offset := offset + |arrays[i]|;
      assert result[..offset] == result[..offset - |arrays[i]|] + arrays[i];
    }
    assert arrays[..|arrays|] == arrays;
  }

  // ---------------------------------------------------------------------------
  // uint8ArrayToHex and its inverse, Buffer.from(s, "hex")
  // ---------------------------------------------------------------------------

  /** The digit Number.prototype.toString(16) writes for a value below 16. */
  function HexDigit(v: int): char
    requires 0 <= v < 16
  {
    if v < 10 then ('0' as int + v) as char else ('a' as int + v - 10) as char
  }

  /** Number.prototype.toString(16) on a byte: one or two digits, no leading zero. */
  function ToRadix16(b: Byte): string {
    if b < 16 then [HexDigit(b)] else [HexDigit(b / 16), HexDigit(b % 16)]
  }

  /** String.prototype.padStart with a one-character filler. */
  function PadStart(s: string, width: nat, fill: char): string {
    if |s| >= width then s else seq(width - |s|, _ => fill) + s
  }

  function ByteToHex(b: Byte): string {
    PadStart(ToRadix16(b), 2, '0')
  }

  /** Padding to width 2 makes every byte exactly two digits, high nibble first. */
  lemma ByteToHexDigits(b: Byte)
    ensures ByteToHex(b) == [HexDigit(b / 16), HexDigit(b % 16)]
  {
    if b < 16 {
      assert ToRadix16(b) == [HexDigit(b)];
      assert seq(1, _ => '0') == [HexDigit(0)];
    }
  }

  /** uint8ArrayToHex: the bytes mapped to two-digit lower-case hex and joined. */
  function Uint8ArrayToHex(arr: Bytes): (s: string)
    ensures |s| == 2 * |arr|
    ensures forall i :: 0 <= i < |arr| ==>
              s[2 * i] == HexDigit(arr[i] / 16) && s[2 * i + 1] == HexDigit(arr[i] % 16)
  {
    if arr == [] then ""
    else
      ByteToHexDigits(arr[0]);
      var rest := Uint8ArrayToHex(arr[1..]);
      assert forall i :: 1 <= i < |arr| ==> arr[i] == arr[1..][i - 1];
      ByteToHex(arr[0]) + rest
  }

  /** The value of one hex digit as Node's hex decoder reads it (either case). */
  function HexValue(c: char): Option<int> {
    if '0' <= c <= '9' then Some(c as int - '0' as int)
    else if 'a' <= c <= 'f' then Some(c as int - 'a' as int + 10)
    else if 'A' <= c <= 'F' then Some(c as int - 'A' as int + 10)
    else None
  }

  /**
   * Buffer.from(s, "hex"): decodes digit pairs from the left and stops at the
   * first pair holding a non-hex character; an odd trailing digit is dropped.
   */
  function HexDecode(s: string): (r: Bytes)
    ensures |r| <= |s| / 2
  {
    if |s| < 2 then []
    else match (HexValue(s[0]), HexValue(s[1]))
      case (Some(hi), Some(lo)) => [hi * 16 + lo] + HexDecode(s[2..])
      case _ => []
  }

  /** The value of the digit pair at 2i and 2i+1, when both are hex digits. */
  predicate PairDecodesTo(s: string, i: nat, b: int) {
    2 * i + 1 < |s| && HexValue(s[2 * i]).Some? && HexValue(s[2 * i + 1]).Some? &&
    b == 16 * HexValue(s[2 * i]).value + HexValue(s[2 * i + 1]).value
  }

  /** Byte i of HexDecode(s) is the value of the hex digit pair at 2i and 2i+1. */
  lemma {:induction false} HexDecodePairs(s: string)
    ensures forall i :: 0 <= i < |HexDecode(s)| ==> PairDecodesTo(s, i, HexDecode(s)[i])
  {
    if |s| >= 2 && HexValue(s[0]).Some? && HexValue(s[1]).Some? {
      var t := s[2..];
      var r := HexDecode(s);
      var rest := HexDecode(t);
      HexDecodePairs(t);
      assert r == [16 * HexValue(s[0]).value + HexValue(s[1]).value] + rest;
      forall i | 1 <= i < |r|
        ensures PairDecodesTo(s, i, r[i])
      {
        PairShift(s, i, r[i]);
      }
    }
  }

  lemma PairShift(s: string, i: nat, b: int)
    requires 1 <= i && |s| >= 2
    requires PairDecodesTo(s[2..], i - 1, b)
    ensures PairDecodesTo(s, i, b)
  {
    assert s[2 * i] == s[2..][2 * (i - 1)] && s[2 * i + 1] == s[2..][2 * (i - 1) + 1];
  }

  /** HexDecode stops short of |s|/2 bytes only at a pair holding a character that is not a hex digit. */
  lemma {:induction false} HexDecodeStops(s: string)
    ensures |HexDecode(s)| < |s| / 2 ==>
              HexValue(s[2 * |HexDecode(s)|]).None? || HexValue(s[2 * |HexDecode(s)| + 1]).None?
  {
    if |s| >= 2 && HexValue(s[0]).Some? && HexValue(s[1]).Some? {
      var t := s[2..];
      var n := |HexDecode(t)|;
      HexDecodeStops(t);
      assert |HexDecode(s)| == n + 1;
      if n < |t| / 2 {
        assert s[2 * (n + 1)] == t[2 * n] && s[2 * (n + 1) + 1] == t[2 * n + 1];
      }
    }
  }

  lemma HexDigitValue(v: int)
    requires 0 <= v < 16
    ensures HexValue(HexDigit(v)) == Some(v)
  {
  }

  /** Decoding the hex text of a byte array gives back the array. */
  lemma {:induction false} HexRoundTrip(arr: Bytes)
    ensures HexDecode(Uint8ArrayToHex(arr)) == arr
  {
    if arr != [] {
      var s := Uint8ArrayToHex(arr);
      HexDigitValue(arr[0] / 16);
      HexDigitValue(arr[0] % 16);
      assert s[2..] == Uint8ArrayToHex(arr[1..]);
      HexRoundTrip(arr[1..]);
    }
  }

  /** Distinct byte arrays have distinct hex texts. */
  lemma Uint8ArrayToHexInjective(a: Bytes, b: Bytes)
    requires Uint8ArrayToHex(a) == Uint8ArrayToHex(b)
    ensures a == b
  {
    HexRoundTrip(a);
    HexRoundTrip(b);
  }

  // ---------------------------------------------------------------------------
  // formatBitcoinMessageHash
  // ---------------------------------------------------------------------------

  /**
   * The bytes TextEncoder produces for the ASCII prefix "\x18Bitcoin Signed Message:\n":
   * the byte 0x18 (24, the length of the text after it), then that text.
   */
  const MESSAGE_MAGIC: Bytes := [0x18, 0x42, 0x69, 0x74, 0x63, 0x6f, 0x69, 0x6e, 0x20, 0x53, 0x69,
    0x67, 0x6e, 0x65, 0x64, 0x20, 0x4d, 0x65, 0x73, 0x73, 0x61, 0x67, 0x65, 0x3a, 0x0a]

  /** The prefix text of a signed message: a length character (24), then the 24 characters it counts. */
  const MESSAGE_PREFIX: string := "\U{18}Bitcoin Signed Message:\n"

  /** MESSAGE_MAGIC is TextEncoder's encoding of MESSAGE_PREFIX, whose first byte counts the bytes after it. */
  lemma MessageMagicIsEncodedPrefix()
    ensures |MESSAGE_PREFIX| == 25
    ensures MESSAGE_MAGIC == Utf8Encode(MESSAGE_PREFIX)
    ensures MESSAGE_MAGIC[0] == |MESSAGE_MAGIC| - 1
  {
    AsciiBytes(MESSAGE_PREFIX, MESSAGE_MAGIC);
  }

  /**
   * The buffer that is hashed: 26 + n bytes, the 25-byte magic, the length
   * byte n mod 256 (never an error, whatever n is), then the n message bytes.
   * The length byte is stored into a Uint8Array, which keeps it modulo 256.
   */
  function MessagePreimage(message: string): (preimage: Bytes)
    ensures |preimage| == 26 + |Utf8Encode(message)|
    ensures preimage[..25] == MESSAGE_MAGIC
    ensures preimage[25] == |Utf8Encode(message)| % 256
    ensures preimage[26..] == Utf8Encode(message)
  {
    var body := Utf8Encode(message);
    var lengthByte: Byte := |body| % 256;
    MESSAGE_MAGIC + [lengthByte] + body
  }

  /** Two messages whose byte lengths differ by 256 get the same length byte. */
  lemma LengthByteWraps(m1: string, m2: string)
    requires |Utf8Encode(m2)| == |Utf8Encode(m1)| + 256
    ensures MessagePreimage(m1)[25] == MessagePreimage(m2)[25]
  {
  }

  /**
   * The preimage of an ASCII prefix followed by arbitrary text: the magic, the
   * length byte of the whole message, the prefix's characters one byte each,
   * then the text's UTF-8 bytes.
   */
  lemma {:induction false} AsciiPrefixedPreimage(prefix: string, text: string)
    requires IsAscii(prefix)
    ensures |MessagePreimage(prefix + text)| == 26 + |prefix| + |Utf8Encode(text)|
    ensures MessagePreimage(prefix + text)[..25] == MESSAGE_MAGIC
    ensures MessagePreimage(prefix + text)[25] == (|prefix| + |Utf8Encode(text)|) % 256
    ensures forall i :: 0 <= i < |prefix| ==> MessagePreimage(prefix + text)[26 + i] == prefix[i] as int
    ensures MessagePreimage(prefix + text)[26 + |prefix|..] == Utf8Encode(text)
  {
    Utf8EncodeAppend(prefix, text);
    AsciiUtf8(prefix);
    var pre := MessagePreimage(prefix + text);
    assert pre[26..] == Utf8Encode(prefix) + Utf8Encode(text);
    forall i | 0 <= i < |prefix|
      ensures pre[26 + i] == prefix[i] as int
    {
      assert pre[26 + i] == pre[26..][i];
    }
    assert pre[26 + |prefix|..] == pre[26..][|prefix|..];
  }

  /** Fills the preimage buffer in place, as formatBitcoinMessageHash does. */
  method FormatBitcoinMessagePreimage(message: string) returns (buf: array<Byte>)
    ensures buf[..] == MessagePreimage(message)
  {
    var msgBytes := Utf8Encode(message);
    buf := new Byte[|MESSAGE_MAGIC| + 1 + |msgBytes|];
    SetBytes(buf, MESSAGE_MAGIC, 0);
    buf[|MESSAGE_MAGIC|] := |msgBytes| % 256;
    SetBytes(buf, msgBytes, |MESSAGE_MAGIC| + 1);
    assert buf[..] == buf[..25] + [buf[25]] + buf[26..];
  }

  /** formatBitcoinMessageHash: SHA-256 applied twice to the preimage. */
  method FormatBitcoinMessageHash(crypto: Crypto, message: string) returns (hash: Digest32)
    ensures hash == crypto.sha256(crypto.sha256(MessagePreimage(message)))
  {
    var buf := FormatBitcoinMessagePreimage(message);
    hash := crypto.sha256(crypto.sha256(buf[..]));
  }

  // ---------------------------------------------------------------------------
  // getGaitPathBytes
  // ---------------------------------------------------------------------------

  /** TextEncoder's bytes of the ASCII text "GreenAddress.it HD wallet path" (GAIT_GENERATION_NONCE). */
  const GAIT_GENERATION_NONCE: Bytes := [0x47, 0x72, 0x65, 0x65, 0x6e, 0x41, 0x64, 0x64, 0x72, 0x65,
    0x73, 0x73, 0x2e, 0x69, 0x74, 0x20, 0x48, 0x44, 0x20, 0x77, 0x61, 0x6c, 0x6c, 0x65, 0x74, 0x20,
    0x70, 0x61, 0x74, 0x68]

  /** The text GAIT_GENERATION_NONCE encodes. */
  const GAIT_GENERATION_NONCE_TEXT: string := "GreenAddress.it HD wallet path"

  /** GAIT_GENERATION_NONCE is TextEncoder's encoding of its text, one byte per character. */
  lemma GaitNonceIsEncodedText()
    ensures |GAIT_GENERATION_NONCE| == |GAIT_GENERATION_NONCE_TEXT| == 30
    ensures GAIT_GENERATION_NONCE == Utf8Encode(GAIT_GENERATION_NONCE_TEXT)
  {
    AsciiBytes(GAIT_GENERATION_NONCE_TEXT, GAIT_GENERATION_NONCE);
  }

  /** getGaitPathBytes: HMAC-SHA512 keyed by the nonce over chain code then public key. */
  method GetGaitPathBytes(crypto: Crypto, chainCode: Bytes, pubKey: Bytes) returns (path: Digest64)
    ensures path == crypto.hmacSha512(GAIT_GENERATION_NONCE, chainCode + pubKey)
  {
    var pathData := ConcatUint8Arrays([chainCode, pubKey]);
    assert [chainCode, pubKey][..1] == [chainCode];
    assert [chainCode][..0] == [];
    assert Flatten([chainCode]) == chainCode;
    assert Flatten([chainCode, pubKey]) == chainCode + pubKey;
    path := crypto.hmacSha512(GAIT_GENERATION_NONCE, pathData[..]);
  }
}
