/** Byte constants of the command builders, and the hex text of each, worked out once.
    They are named constants rather than list displays where they are used: the
    verifier evaluates a function applied to a display eagerly, which is costly for
    hex text, while it leaves a named constant alone unless asked. */
module Literals {

  import opened Bytes

  /** The name of the proximity payment system environment, and its bytes as
      `list(b"2PAY.SYS.DDF01")` gives them. */
  const PpseName: string := "2PAY.SYS.DDF01"
  const PpseBytes: seq<byte> := [0x32, 0x50, 0x41, 0x59, 0x2E, 0x53, 0x59, 0x53, 0x2E, 0x44, 0x44, 0x46, 0x30, 0x31]

  /** The bytes are the ASCII codes of the name, character by character. */
  lemma PpseBytesAreAscii()
    ensures |PpseBytes| == |PpseName| == 14
    ensures forall k :: 0 <= k < 14 ==> PpseBytes[k] == PpseName[k] as int
  {
  }

  // ---------------------------------------------------------------------------
  // Tags the tool writes itself

  const TagTemplate: seq<byte> := [0x83]         // command template of GET PROCESSING OPTIONS
  const TagAmount: seq<byte> := [0x9F, 0x02]     // amount, authorised
  const TagCurrency: seq<byte> := [0x5F, 0x2A]   // transaction currency code
  const TagDate: seq<byte> := [0x9A]             // transaction date
  const TagType: seq<byte> := [0x9C]             // transaction type
  const TagUnpredictable: seq<byte> := [0x9F, 0x37] // unpredictable number

  // ---------------------------------------------------------------------------
  // Values the tool writes itself

  const Currency: seq<byte> := [0x00, 0x76]                // 0076, as the scripts send it (the euro is 0978 in ISO 4217)
  const Purchase: seq<byte> := [0x00]                      // transaction type 00, purchase
  const Unpredictable: seq<byte> := [0x12, 0x34, 0x56, 0x78]
  const AmountHigh: seq<byte> := [0x00, 0x00, 0x00]
  const AmountLow: seq<byte> := [0x00, 0x01, 0x00]
  const AmountBytes: seq<byte> := [0x00, 0x00, 0x00, 0x00, 0x01, 0x00] // 1.00 in twelve digits
  const NfcDateBytes: seq<byte> := [0x25, 0x03, 0x28]      // 2025-03-28
  const LimpoDateBytes: seq<byte> := [0x23, 0x11, 0x01]    // 2023-11-01

  // ---------------------------------------------------------------------------
  // Their hex text

  lemma HexTagTemplate()
    ensures UpperHex(TagTemplate) == "83"
  {
  }

  lemma HexTagAmount()
    ensures UpperHex(TagAmount) == "9F02"
  {
  }

  lemma HexTagCurrency()
    ensures UpperHex(TagCurrency) == "5F2A"
  {
  }

  lemma HexTagDate()
    ensures UpperHex(TagDate) == "9A"
  {
  }

  lemma HexTagType()
    ensures UpperHex(TagType) == "9C"
  {
  }

  lemma HexTagUnpredictable()
    ensures UpperHex(TagUnpredictable) == "9F37"
  {
  }

  lemma HexCurrency()
    ensures UpperHex(Currency) == "0076"
  {
  }

  lemma HexPurchase()
    ensures UpperHex(Purchase) == "00"
  {
  }

  lemma HexUnpredictable()
    ensures UpperHex(Unpredictable) == "12345678"
  {
  }

  lemma HexAmountHigh()
    ensures UpperHex(AmountHigh) == "000000"
  {
  }

  lemma HexAmountLow()
    ensures UpperHex(AmountLow) == "000100"
  {
  }

  lemma HexAmount()
    ensures UpperHex(AmountBytes) == "000000000100"
  {
    HexAmountHigh();
    HexAmountLow();
    assert AmountBytes == AmountHigh + AmountLow;
    UpperHexAppend(AmountHigh, AmountLow);
  }

  lemma HexNfcDate()
    ensures UpperHex(NfcDateBytes) == "250328"
  {
  }

  lemma HexLimpoDate()
    ensures UpperHex(LimpoDateBytes) == "231101"
  {
  }

  /** One-byte lengths the builders write. */
  lemma HexLength(n: byte)
    requires n < 16
    ensures UpperHex([n]) == ['0', UpperDigit(n)]
  {
  }
}
