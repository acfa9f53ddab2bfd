/** Byte strings as `0x` hex text, written in lower case and read in any case. */
module HexText {
  import opened Wrappers
  import opened Hashing
  import opened Json

  function HexChars(bytes: Bytes): string {
    if bytes == [] then ""
    else [HexDigit(bytes[0] / 16), HexDigit(bytes[0] % 16)] + HexChars(bytes[1..])
  }

  function ToHex(bytes: Bytes): string {
    "0x" + HexChars(bytes)
  }

  function HexBytes(text: string): Option<Bytes> {
    if text == "" then Some([])
    else if |text| == 1 then None
    else
      match (HexValue(text[0]), HexValue(text[1]), HexBytes(text[2..]))
      case (Some(hi), Some(lo), Some(rest)) => if hi < 16 && lo < 16 then Some([16 * hi + lo] + rest) else None
      case _ => None
  }

  function FromHex(text: string): Option<Bytes> {
    if |text| >= 2 && text[..2] == "0x" then HexBytes(text[2..]) else None
  }

  lemma HexDigitRoundTrip(d: nat)
    requires d < 16
    ensures HexValue(HexDigit(d)) == Some(d)
  {
  }

  lemma {:induction false} HexCharsRoundTrip(bytes: Bytes)
    ensures HexBytes(HexChars(bytes)) == Some(bytes)
  {
    if bytes == [] {
    } else {
      HexDigitRoundTrip(bytes[0] / 16);
      HexDigitRoundTrip(bytes[0] % 16);
      HexCharsRoundTrip(bytes[1..]);
      var text := HexChars(bytes);
      assert text[2..] == HexChars(bytes[1..]);
      assert [bytes[0]] + bytes[1..] == bytes;
    }
  }

  lemma HexRoundTrip(bytes: Bytes)
    ensures FromHex(ToHex(bytes)) == Some(bytes)
  {
    HexCharsRoundTrip(bytes);
    assert ToHex(bytes)[..2] == "0x" && ToHex(bytes)[2..] == HexChars(bytes);
  }

  lemma ToHexInjective(a: Bytes, b: Bytes)
    ensures ToHex(a) == ToHex(b) <==> a == b
  {
    HexRoundTrip(a);
    HexRoundTrip(b);
  }

  /** The number a `0x` address stands for. */
  function AddressOf(text: string): nat {
    match FromHex(text)
    case None => 0
    case Some(bytes) => FromBigEndian(bytes)
  }
}
