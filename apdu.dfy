/** The command APDUs the tool builds: SELECT (EMV 4.3 Book 3 section 6.5.12), GET
    PROCESSING OPTIONS (section 6.5.8), READ RECORD (section 6.5.11) and GENERATE AC
    (section 6.5.5). They are plain list expressions in both scripts, so they are
    functions here. */
module Apdu {

  import opened Results
  import opened Bytes
  import opened Tlv
  import opened TlvFacts
  import opened TlvEncode
  import opened Query
  import opened Dol
  import opened Literals

  /** A command as the tool builds it: a Python list of integers. Elements are bytes,
      except that a length computed with `len` is not reduced modulo 256. */
  type Command = seq<nat>

  // ---------------------------------------------------------------------------
  // Case 4 framing

  /** Four header bytes, then Lc (the number of data bytes), the data, and Le = 00. */
  function Case4(header: seq<nat>, data: seq<nat>): Command
  {
    header + [|data|] + data + [0]
  }

  /** Reads a command back as header, data: there must be at least six elements, the
      fifth must count the data between it and the final element, and that final
      element must be 00. */
  function ParseCase4(c: Command): Option<(seq<nat>, seq<nat>)>
  {
    if |c| >= 6 && c[4] == |c| - 6 && c[|c| - 1] == 0 then Some((c[..4], c[5..|c| - 1])) else None
  }

  lemma Case4RoundTrip(header: seq<nat>, data: seq<nat>)
    requires |header| == 4
    ensures ParseCase4(Case4(header, data)) == Some((header, data))
  {
    var c := Case4(header, data);
    assert c[..4] == header;
    assert c[5..|c| - 1] == data;
  }

  lemma ParseCase4Inverse(c: Command)
    ensures ParseCase4(c).Some? ==> |ParseCase4(c).value.0| == 4
    ensures ParseCase4(c).Some? ==> c == Case4(ParseCase4(c).value.0, ParseCase4(c).value.1)
  {
    if ParseCase4(c).Some? {
      assert c == c[..4] + [c[4]] + c[5..|c| - 1] + [c[|c| - 1]];
    }
  }

  // ---------------------------------------------------------------------------
  // SELECT

  const SelectHeader: seq<nat> := [0x00, 0xA4, 0x04, 0x00]

  /** SELECT by name (P1 = 04, first occurrence P2 = 00) of the given AID bytes. */
  function Select(aid: seq<byte>): (c: Command)
    ensures ParseCase4(c) == Some((SelectHeader, aid))
  {
    Case4RoundTrip(SelectHeader, aid);
    Case4(SelectHeader, aid)
  }

  /** `select_app(connection, aid_hex)` and the SELECT AID step: `toBytes` of the AID
      text, then the SELECT command; an AID that is not text fails. */
  function SelectAid(aid: Value): (r: Result<Command>)
    ensures r.Ok? <==> ValueBytes(aid).Ok?
    ensures r.Ok? ==> ParseCase4(r.value) == Some((SelectHeader, ValueBytes(aid).value))
    ensures r.Err? ==> r.failure == ValueBytes(aid).failure
  {
    var bs :- ValueBytes(aid);
    Ok(Select(bs))
  }

  /** The AID text of a directory entry is read back as the bytes it is the hex of. */
  lemma SelectAidOfHex(aid: seq<byte>)
    ensures SelectAid(Prim(UpperHex(aid))) == Ok(Select(aid))
  {
    FromUpperHex(aid);
  }

  /** The SELECT of the environment as both scripts write it, with the length 0x0E
      spelled out. */
  function SelectPpse(): Command
  {
    [0x00, 0xA4, 0x04, 0x00, 0x0E] + PpseBytes + [0x00]
  }

  /** The spelled-out length is right: the command is the SELECT of the name. */
  lemma SelectPpseIsSelect()
    ensures SelectPpse() == Select(PpseBytes)
    ensures |SelectPpse()| == 20
  {
  }

  // ---------------------------------------------------------------------------
  // GET PROCESSING OPTIONS

  const GpoHeader: seq<nat> := [0x80, 0xA8, 0x00, 0x00]

  /** The command template: tag 83, the length of the data, the data. */
  function GpoTemplate(data: seq<byte>): seq<nat>
  {
    [0x83, |data|] + data
  }

  /** GET PROCESSING OPTIONS with the given PDOL-related data: Lc is two more than the
      data length, then tag 83, the data length, the data, and Le = 00. */
  function Gpo(data: seq<byte>): (c: Command)
    ensures ParseCase4(c) == Some((GpoHeader, GpoTemplate(data)))
    ensures |c| == |data| + 8
    ensures c[4] == |data| + 2 && c[5] == 0x83 && c[6] == |data|
    ensures c[7..7 + |data|] == data
  {
    Case4RoundTrip(GpoHeader, GpoTemplate(data));
    var c := Case4(GpoHeader, GpoTemplate(data));
    assert c[7..7 + |data|] == data;
    c
  }

  /** Without a PDOL the command is the fixed eight bytes 80 A8 00 00 02 83 00 00. */
  lemma GpoWithoutData()
    ensures Gpo([]) == [0x80, 0xA8, 0x00, 0x00, 0x02, 0x83, 0x00, 0x00]
  {
  }

  /** The template is read back by the decoder as the single primitive tag 83 holding
      the data, as long as the data fits the short length form. */
  lemma GpoTemplateDecodes(data: seq<byte>)
    requires |data| < 128
    ensures Decode(GpoTemplate(data)) == Ok([Entry("83", Prim(UpperHex(data)))])
  {
    var f := Field(TagTemplate, data);
    TemplateField(data);
    DecodeOfEncode([f]);
    assert AsEntries([f]) == [AsEntry(f)];
    HexTagTemplate();
    assert AsEntry(f) == Entry("83", Prim(UpperHex(data)));
  }

  /** The template is the one data object 83 laid out in the short form. */
  lemma TemplateField(data: seq<byte>)
    requires |data| < 128
    ensures AllShort([Field(TagTemplate, data)])
    ensures Encode([Field(TagTemplate, data)]) == GpoTemplate(data)
  {
    var f := Field(TagTemplate, data);
    assert Short(f);
    assert [f][1..] == [];
    assert EncodeField(f) + [] == EncodeField(f);
  }

  /** The GPO command of extrair_nfc.py: with a truthy PDOL, the PDOL is parsed and
      answered from the terminal defaults; otherwise the data is empty. */
  function GpoCommand(pdol: Option<Value>): (r: Result<Command>)
    ensures !(pdol.Some? && Truthy(pdol.value)) ==> r == Ok([0x80, 0xA8, 0x00, 0x00, 0x02, 0x83, 0x00, 0x00])
    ensures pdol.Some? && Truthy(pdol.value) ==> (r.Ok? <==> ParsePdolSpec(pdol.value).Ok?)
    ensures pdol.Some? && Truthy(pdol.value) && r.Ok? ==>
      var n := TotalLength(ParsePdolSpec(pdol.value).value);
      && |r.value| == n + 8 && r.value[4] == n + 2 && r.value[5] == 0x83 && r.value[6] == n
      && r.value[7..7 + n] == PdolData(TerminalDefaults, ParsePdolSpec(pdol.value).value)
    ensures r.Err? ==> r.failure == ParsePdolSpec(pdol.value).failure
  {
    if pdol.Some? && Truthy(pdol.value) then
      var items :- ParsePdolSpec(pdol.value);
      PdolDataLength(TerminalDefaults, items);
      Ok(Gpo(PdolData(TerminalDefaults, items)))
    else
      GpoWithoutData();
      Ok(Gpo([]))
  }

  /** The fixed data text of extrair_nfc_limpo.py: tag 9F02, length 6, amount 1.00. */
  const LimpoGpoText: string := "9F0206000000000100"

  /** The bytes `toBytes` makes of it. */
  const LimpoGpoData: seq<byte> := [0x9F, 0x02, 0x06, 0x00, 0x00, 0x00, 0x00, 0x01, 0x00]

  /** The fixed data as a data object. */
  function LimpoGpoField(): Field
  {
    Field(TagAmount, AmountBytes)
  }

  lemma LimpoGpoDataLayout()
    ensures Short(LimpoGpoField())
    ensures Encode([LimpoGpoField()]) == LimpoGpoData
  {
    var f := LimpoGpoField();
    assert Short(f);
    assert [f][1..] == [];
    assert EncodeField(f) + [] == EncodeField(f);
    assert EncodeField(f) == TagAmount + [6] + AmountBytes;
  }

  lemma LimpoGpoTextSplit()
    ensures LimpoGpoText == "9F0206" + "000000000100"
  {
  }

  lemma LimpoGpoDataIsText()
    ensures FromHex(LimpoGpoText) == Some(LimpoGpoData)
  {
    LimpoGpoTextSplit();
    LimpoGpoDataLayout();
    var f := LimpoGpoField();
    assert [f][1..] == [] && EncodeField(f) + [] == EncodeField(f);
    AmountObjectHex(AmountBytes);
    HexAmount();
    FromUpperHex(LimpoGpoData);
  }

  /** The effective (second) `get_processing_options` of extrair_nfc_limpo.py: any
      truthy PDOL is answered with the fixed data, whatever it asks for. */
  function LimpoGpoCommand(pdol: Option<Value>): (c: Command)
    ensures pdol.Some? && Truthy(pdol.value) ==>
      c == [0x80, 0xA8, 0x00, 0x00, 0x0B, 0x83, 0x09] + LimpoGpoData + [0x00]
    ensures !(pdol.Some? && Truthy(pdol.value)) ==> c == [0x80, 0xA8, 0x00, 0x00, 0x02, 0x83, 0x00, 0x00]
  {
    if pdol.Some? && Truthy(pdol.value) then Gpo(LimpoGpoData) else Gpo([])
  }

  /** The fixed data is one primitive amount object. */
  lemma LimpoGpoDataDecodes()
    ensures Decode(LimpoGpoData) == Ok([Entry("9F02", Prim("000000000100"))])
  {
    var f := LimpoGpoField();
    LimpoGpoDataLayout();
    HexTagAmount();
    HexAmount();
    DecodeOfEncode([f]);
    assert AsEntries([f]) == [AsEntry(f)];
    assert AsEntry(f) == Entry("9F02", Prim("000000000100"));
  }

  // ---------------------------------------------------------------------------
  // READ RECORD

  /** READ RECORD of record `rec` in file `sfi` (P2 = `(sfi << 3) | 4`, which is
      `sfi * 8 + 4` because the low three bits of `sfi << 3` are zero). */
  function ReadRecord(sfi: nat, rec: nat): Command
  {
    [0x00, 0xB2, rec, sfi * 8 + 4, 0x00]
  }

  /** The command reads record `rec` (P1) of the file whose number is the high bits
      of P2, with the low three bits 100 ("P1 is a record number"). */
  lemma ReadRecordFields(sfi: nat, rec: nat)
    ensures var c := ReadRecord(sfi, rec);
      && |c| == 5 && c[0] == 0x00 && c[1] == 0xB2 && c[4] == 0x00
      && c[2] == rec && c[3] / 8 == sfi && c[3] % 8 == 4
  {
  }

  /** Distinct (file, record) pairs give distinct commands. */
  lemma ReadRecordInjective(sfi: nat, rec: nat, sfi': nat, rec': nat)
    requires ReadRecord(sfi, rec) == ReadRecord(sfi', rec')
    ensures sfi == sfi' && rec == rec'
  {
    ReadRecordFields(sfi, rec);
    ReadRecordFields(sfi', rec');
  }

  // ---------------------------------------------------------------------------
  // GENERATE AC

  const GenAcHeader: seq<nat> := [0x80, 0xAE, 0x80, 0x00]

  /** The amount both scripts use (`amount="000000000100"`). */
  const DefaultAmount: string := "000000000100"

  /** The transaction dates the two scripts write in: 2025-03-28 and 2023-11-01. */
  const NfcDate: string := "250328"
  const LimpoDate: string := "231101"

  /** The data text of `generate_arqc`: amount (9F02), currency 0076 (5F2A), date (9A),
      transaction type 00 (9C) and unpredictable number 12345678 (9F37). The two
      scripts split the literals differently but write the same text apart from the
      date. */
  function GenAcText(amount: string, date: string): string
  {
    "9F0206" + amount + "5F2A020076" + "9A03" + date + "9C0100" + "9F370412345678"
  }

  /** GENERATE AC requesting an ARQC (P1 = 80): `toBytes` of the text, framed with Lc
      = its byte length. */
  function GenAc(amount: string, date: string): (r: Result<Command>)
    ensures r.Ok? <==> FromHex(GenAcText(amount, date)).Some?
    ensures r.Ok? ==> ParseCase4(r.value) == Some((GenAcHeader, FromHex(GenAcText(amount, date)).value))
  {
    match FromHex(GenAcText(amount, date))
    case Some(data) =>
      Case4RoundTrip(GenAcHeader, data);
      Ok(Case4(GenAcHeader, data))
    case None => Err(TypeError)
  }

  /** The data objects of GENERATE AC for a 6-byte amount and a 3-byte date. */
  function GenAcFields(amount: seq<byte>, date: seq<byte>): seq<Field>
  {
    [Field(TagAmount, amount), Field(TagCurrency, Currency), Field(TagDate, date),
     Field(TagType, Purchase), Field(TagUnpredictable, Unpredictable)]
  }

  lemma GenAcFieldsShort(amount: seq<byte>, date: seq<byte>)
    requires |amount| == 6 && |date| == 3
    ensures AllShort(GenAcFields(amount, date))
  {
    var fs := GenAcFields(amount, date);
    assert Short(fs[0]) && Short(fs[1]) && Short(fs[2]) && Short(fs[3]) && Short(fs[4]);
  }

  /** The bytes of the data, laid out. */
  function GenAcData(amount: seq<byte>, date: seq<byte>): (d: seq<byte>)
    requires |amount| == 6 && |date| == 3
    ensures |d| == 29
  {
    GenAcFieldsShort(amount, date);
    GenAcLayout(amount, date);
    Encode(GenAcFields(amount, date))
  }

  /** The data is the five objects end to end. */
  lemma GenAcLayout(amount: seq<byte>, date: seq<byte>)
    requires |amount| == 6 && |date| == 3
    requires AllShort(GenAcFields(amount, date))
    ensures var fs := GenAcFields(amount, date);
      Encode(fs) == EncodeField(fs[0]) + EncodeField(fs[1]) + EncodeField(fs[2])
                    + EncodeField(fs[3]) + EncodeField(fs[4])
    ensures |Encode(GenAcFields(amount, date))| == 29
  {
    var fs := GenAcFields(amount, date);
    assert fs[1..][1..][1..][1..][1..] == [];
    assert fs[4..] == [fs[4]] && fs[4..][1..] == [];
    assert fs[3..][1..] == fs[4..];
    assert fs[2..][1..] == fs[3..];
    assert fs[1..][1..] == fs[2..];
    assert Encode(fs[4..]) == EncodeField(fs[4]);
    assert Encode(fs[3..]) == EncodeField(fs[3]) + Encode(fs[4..]);
    assert Encode(fs[2..]) == EncodeField(fs[2]) + Encode(fs[3..]);
    assert Encode(fs[1..]) == EncodeField(fs[1]) + Encode(fs[2..]);
  }

  /** The hex of five pieces laid end to end is the hex of each, laid end to end. */
  lemma UpperHexOfPieces(x1: seq<byte>, x2: seq<byte>, x3: seq<byte>, x4: seq<byte>, x5: seq<byte>)
    ensures UpperHex(x1 + x2 + x3 + x4 + x5) ==
      UpperHex(x1) + UpperHex(x2) + UpperHex(x3) + UpperHex(x4) + UpperHex(x5)
  {
    UpperHexAppend(x1, x2);
    UpperHexAppend(x1 + x2, x3);
    UpperHexAppend(x1 + x2 + x3, x4);
    UpperHexAppend(x1 + x2 + x3 + x4, x5);
  }

  /** The hex of one laid-out object: tag, length, value. */
  lemma FieldHex(f: Field)
    requires Short(f) && |f.value| < 16
    ensures UpperHex(EncodeField(f)) == UpperHex(f.tag) + ['0', UpperDigit(|f.value|)] + UpperHex(f.value)
  {
    HexLength(|f.value|);
    UpperHexAppend(f.tag, [|f.value|]);
    UpperHexAppend(f.tag + [|f.value|], f.value);
  }

  /** The same, once the hex of tag and length is known as one piece of text. */
  lemma FieldHexAs(f: Field, head: string)
    requires Short(f) && |f.value| < 16
    requires UpperHex(f.tag) + ['0', UpperDigit(|f.value|)] == head
    ensures UpperHex(EncodeField(f)) == head + UpperHex(f.value)
  {
    FieldHex(f);
  }

  // The hex of each of the five objects, as the scripts spell it.

  lemma AmountObjectHex(amount: seq<byte>)
    requires |amount| == 6
    ensures UpperHex(EncodeField(Field(TagAmount, amount))) == "9F0206" + UpperHex(amount)
  {
    HexTagAmount();
    assert UpperDigit(6) == '6';
    assert "9F02" + ['0', '6'] == "9F0206";
    FieldHexAs(Field(TagAmount, amount), "9F0206");
  }

  lemma CurrencyObjectHex()
    ensures UpperHex(EncodeField(Field(TagCurrency, Currency))) == "5F2A020076"
  {
    HexTagCurrency();
    HexCurrency();
    FieldHex(Field(TagCurrency, Currency));
    assert "5F2A" + "02" + "0076" == "5F2A020076";
  }

  lemma DateObjectHex(date: seq<byte>)
    requires |date| == 3
    ensures UpperHex(EncodeField(Field(TagDate, date))) == "9A03" + UpperHex(date)
  {
    HexTagDate();
    assert UpperDigit(3) == '3';
    assert "9A" + ['0', '3'] == "9A03";
    FieldHexAs(Field(TagDate, date), "9A03");
  }

  lemma TypeObjectHex()
    ensures UpperHex(EncodeField(Field(TagType, Purchase))) == "9C0100"
  {
    HexTagType();
    HexPurchase();
    FieldHex(Field(TagType, Purchase));
    assert "9C" + "01" + "00" == "9C0100";
  }

  lemma UnpredictableObjectHex()
    ensures UpperHex(EncodeField(Field(TagUnpredictable, Unpredictable))) == "9F370412345678"
  {
    HexTagUnpredictable();
    HexUnpredictable();
    FieldHex(Field(TagUnpredictable, Unpredictable));
    assert "9F37" + "04" + "12345678" == "9F370412345678";
  }

  /** With the amount and the date written as hex text, the data text is the hex of
      the laid-out bytes. */
  lemma GenAcTextIsHex(amount: seq<byte>, date: seq<byte>)
    requires |amount| == 6 && |date| == 3
    ensures GenAcText(UpperHex(amount), UpperHex(date)) == UpperHex(GenAcData(amount, date))
  {
    var fs := GenAcFields(amount, date);
    GenAcFieldsShort(amount, date);
    GenAcLayout(amount, date);
    UpperHexOfPieces(EncodeField(fs[0]), EncodeField(fs[1]), EncodeField(fs[2]),
                     EncodeField(fs[3]), EncodeField(fs[4]));
    AmountObjectHex(amount);
    CurrencyObjectHex();
    DateObjectHex(date);
    TypeObjectHex();
    UnpredictableObjectHex();
  }

  /** ... so `toBytes` gives exactly those 29 bytes and the command has Lc = 29
      (0x1D). */
  lemma GenAcOfHex(amount: seq<byte>, date: seq<byte>)
    requires |amount| == 6 && |date| == 3
    ensures GenAc(UpperHex(amount), UpperHex(date)) == Ok(Case4(GenAcHeader, GenAcData(amount, date)))
    ensures Case4(GenAcHeader, GenAcData(amount, date))[4] == 0x1D
  {
    GenAcTextIsHex(amount, date);
    FromUpperHex(GenAcData(amount, date));
  }

  // The entries the decoder is expected to make of the five objects.

  lemma AmountEntry(amount: seq<byte>)
    ensures AsEntry(Field(TagAmount, amount)) == Entry("9F02", Prim(UpperHex(amount)))
  {
    HexTagAmount();
  }

  lemma CurrencyEntry()
    ensures AsEntry(Field(TagCurrency, Currency)) == Entry("5F2A", Prim("0076"))
  {
    HexTagCurrency();
    HexCurrency();
  }

  lemma DateEntry(date: seq<byte>)
    ensures AsEntry(Field(TagDate, date)) == Entry("9A", Prim(UpperHex(date)))
  {
    HexTagDate();
  }

  lemma TypeEntry()
    ensures AsEntry(Field(TagType, Purchase)) == Entry("9C", Prim("00"))
  {
    HexTagType();
    HexPurchase();
  }

  lemma UnpredictableEntry()
    ensures AsEntry(Field(TagUnpredictable, Unpredictable)) == Entry("9F37", Prim("12345678"))
  {
    HexTagUnpredictable();
    HexUnpredictable();
  }

  lemma GenAcEntries(amount: seq<byte>, date: seq<byte>)
    ensures AsEntries(GenAcFields(amount, date)) == [
      Entry("9F02", Prim(UpperHex(amount))), Entry("5F2A", Prim("0076")),
      Entry("9A", Prim(UpperHex(date))), Entry("9C", Prim("00")), Entry("9F37", Prim("12345678"))]
  {
    AmountEntry(amount);
    CurrencyEntry();
    DateEntry(date);
    TypeEntry();
    UnpredictableEntry();
  }

  /** The five tags are pairwise distinct. */
  lemma GenAcKeysDistinct(es: seq<Entry>)
    requires Keys(es) == ["9F02", "5F2A", "9A", "9C", "9F37"]
    ensures Distinct(Keys(es))
  {
    var ks := Keys(es);
    assert |ks[2]| == 2 && |ks[3]| == 2 && |ks[0]| == 4 && |ks[1]| == 4 && |ks[4]| == 4;
    assert ks[0][0] != ks[1][0] && ks[2][1] != ks[3][1] && ks[0][2] != ks[4][2] && ks[1][0] != ks[4][0];
  }

  /** The data reads back as the five primitive objects 9F02, 5F2A, 9A, 9C and 9F37,
      in that order, none merged into a list. */
  lemma GenAcDataDecodes(amount: seq<byte>, date: seq<byte>)
    requires |amount| == 6 && |date| == 3
    ensures Decode(GenAcData(amount, date)) == Ok([
      Entry("9F02", Prim(UpperHex(amount))), Entry("5F2A", Prim("0076")),
      Entry("9A", Prim(UpperHex(date))), Entry("9C", Prim("00")), Entry("9F37", Prim("12345678"))])
  {
    var fs := GenAcFields(amount, date);
    GenAcFieldsShort(amount, date);
    GenAcEntries(amount, date);
    var es := AsEntries(fs);
    assert Keys(es) == ["9F02", "5F2A", "9A", "9C", "9F37"];
    GenAcKeysDistinct(es);
    DecodeOfEncode(fs);
  }

  /** The GENERATE AC command extrair_nfc.py sends. */
  const NfcGenAc: Command := Case4(GenAcHeader, GenAcData(AmountBytes, NfcDateBytes))

  /** The GENERATE AC command extrair_nfc_limpo.py sends. */
  const LimpoGenAc: Command := Case4(GenAcHeader, GenAcData(AmountBytes, LimpoDateBytes))

  lemma NfcGenAcIsBuilt()
    ensures GenAc(DefaultAmount, NfcDate) == Ok(NfcGenAc)
    ensures |NfcGenAc| == 35 && NfcGenAc[4] == 0x1D
  {
    HexAmount();
    HexNfcDate();
    GenAcOfHex(AmountBytes, NfcDateBytes);
  }

  lemma LimpoGenAcIsBuilt()
    ensures GenAc(DefaultAmount, LimpoDate) == Ok(LimpoGenAc)
    ensures |LimpoGenAc| == 35 && LimpoGenAc[4] == 0x1D
  {
    HexAmount();
    HexLimpoDate();
    GenAcOfHex(AmountBytes, LimpoDateBytes);
  }
}
