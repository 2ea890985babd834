/** The text form of a file or share id (`generateFileId` in
    `src/lib/utils.ts`): four random bytes, each written as two lowercase
    hexadecimal digits. The random bytes are an input of the model. */
module FileIds {
  import opened Base

  const HexDigits: string := "0123456789abcdef"

  function HexDigit(n: nat): char
    requires n < 16
  {
    HexDigits[n]
  }

  predicate IsHexString(s: string) {
    forall i :: 0 <= i < |s| ==> s[i] in HexDigits
  }

  /** `n.toString(16)` on a non-negative integer: no leading zeros. */
  function ToHex(n: nat): (r: string)
    ensures 1 <= |r| && IsHexString(r)
    ensures n < 16 <==> |r| == 1
    decreases n
  {
    if n < 16 then [HexDigit(n)] else ToHex(n / 16) + [HexDigit(n % 16)]
  }

  /** `s.padStart(width, "0")`. */
  function PadStart(s: string, width: nat): string {
    if |s| >= width then s else seq(width - |s|, _ => '0') + s
  }

  /** `b.toString(16).padStart(2, "0")`: high nibble first, and a byte below
      16 gets a leading "0". */
  function ByteToHex(b: byte): (r: string)
    ensures |r| == 2
    ensures r[0] == HexDigit(b / 16) && r[1] == HexDigit(b % 16)
    ensures b < 16 ==> r[0] == '0'
  {
    var h := ToHex(b);
    assert ToHex(b / 16) == [HexDigit(b / 16)];
    PadStart(h, 2)
  }

  /** `Array.from(bytes).map(ByteToHex).join("")`. */
  function Encode(bytes: seq<byte>): (r: string)
    ensures |r| == 2 * |bytes| && IsHexString(r)
    ensures forall i :: 0 <= i < |bytes| ==> r[2 * i..2 * i + 2] == ByteToHex(bytes[i])
  {
    if bytes == [] then ""
    else
      var rest := Encode(bytes[1..]);
      var r := ByteToHex(bytes[0]) + rest;
      assert forall i :: 1 <= i < |bytes| ==> r[2 * i..2 * i + 2] == rest[2 * (i - 1)..2 * (i - 1) + 2];
      r
  }

  /** `generateFileId` with its four random bytes supplied: eight lowercase
      hexadecimal characters, two per byte in byte order. */
  function GenerateFileId(random: seq<byte>): (id: string)
    requires |random| == 4
    ensures |id| == 8 && IsHexString(id)
    ensures forall i :: 0 <= i < 4 ==> id[2 * i..2 * i + 2] == ByteToHex(random[i])
  {
    Encode(random)
  }

  // ---------------------------------------------------------------------------
  // Decoding, the inverse used to show that no information is lost.

  function DigitValue(c: char): Option<nat> {
    if '0' <= c <= '9' then Some(c as int - '0' as int)
    else if 'a' <= c <= 'f' then Some(c as int - 'a' as int + 10)
    else None
  }

  /** The byte with high nibble `hi` and low nibble `lo`. */
  function ByteOf(hi: nat, lo: nat): byte
    requires hi < 16 && lo < 16
  {
    hi * 16 + lo
  }

  function Decode(s: string): Option<seq<byte>>
    decreases |s|
  {
    if s == [] then Some([])
    else if |s| == 1 then None
    else match (DigitValue(s[0]), DigitValue(s[1]), Decode(s[2..]))
      case (Some(hi), Some(lo), Some(rest)) =>
        if hi < 16 && lo < 16 then Some([ByteOf(hi, lo)] + rest) else None
      case _ => None
  }

  lemma DigitValueOfHexDigit(n: nat)
    requires n < 16
    ensures DigitValue(HexDigit(n)) == Some(n)
  {
    assert HexDigits == ['0','1','2','3','4','5','6','7','8','9','a','b','c','d','e','f'];
  }

  /** Decoding an encoding gives back the bytes. */
  lemma {:induction false} DecodeEncode(bytes: seq<byte>)
    ensures Decode(Encode(bytes)) == Some(bytes)
  {
    if bytes != [] {
      var tail := Encode(bytes[1..]);
      assert Encode(bytes) == ByteToHex(bytes[0]) + tail;
      DecodeEncode(bytes[1..]);
      DecodePair(bytes[0], tail);
      assert bytes == [bytes[0]] + bytes[1..];
    }
  }

  /** Decoding a byte's two digits in front of decodable text. */
  lemma DecodePair(b: byte, t: string)
    requires Decode(t).Some?
    ensures Decode(ByteToHex(b) + t) == Some([b] + Decode(t).value)
  {
    var s := ByteToHex(b) + t;
    var hi, lo := b / 16, b % 16;
    assert s[0] == HexDigit(hi) && s[1] == HexDigit(lo) && s[2..] == t;
    DigitValueOfHexDigit(hi);
    DigitValueOfHexDigit(lo);
    NibblesRebuildByte(b);
  }

  lemma NibblesRebuildByte(b: byte)
    ensures ByteOf(b / 16, b % 16) == b
  {
  }

  /** Different random bytes never give the same id text. */
  lemma EncodeInjective(a: seq<byte>, b: seq<byte>)
    requires Encode(a) == Encode(b)
    ensures a == b
  {
    DecodeEncode(a);
    DecodeEncode(b);
  }

  lemma ByteToHexExamples()
    ensures ByteToHex(10) == "0a" && ByteToHex(255) == "ff"
  {
    assert HexDigits[0] == '0' && HexDigits[10] == 'a' && HexDigits[15] == 'f';
  }
}
