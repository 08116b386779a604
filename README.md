# EMV contactless capture, modelled in Dafny

`extrair_nfc.py` and `extrair_nfc_limpo.py` talk to a contactless payment card through
a PC/SC reader and dump one EMV session to a record. The record holds the script of
command/response pairs and the fields picked out of it: name, application label, AID,
PDOL, CVM list, CTQ, country and IAD. This project models the parts of both scripts
that do not depend on the card, and proves what they promise:

- **BER-TLV decoding** (`parse_tlv`). The model covers the tag rule and the length
  rule of ITU-T X.690 sections 8.1.2 and 8.1.3, as EMV 4.3 Book 3 Annex B profiles
  them. It also covers recursion into constructed tags (bit `0x20` of the first tag
  byte), the grouping of repeated tags into a list at the position of their first
  occurrence, and the silent truncation of a value that runs past the end.
  - Module `Tlv`: the reference decoder `Decode` and the imperative `ParseTlv`, which
    keeps the index `i` of the source.
  - Module `TlvFacts`: what a decoded tree looks like.
  - Module `TlvEncode`: the encode/decode round trip.
- **Tree queries** (module `Query`):
  - `find_tag` as a filter over a depth-first walk;
  - `dict.get`;
  - `toBytes` of a value;
  - `extract_aids` along the path `6F/A5/BF0C/61`.
- **Data Object Lists** (module `Dol`, EMV 4.3 Book 3 section 5.4). `parse_pdol` and
  `build_pdol_data` are loops proved against reference functions. The defaults table
  is passed as a parameter.
- **Command builders** (module `Apdu`). Each is an ISO 7816-4 case-4 command:
  - SELECT (EMV 4.3 Book 3 section 6.5.12);
  - GET PROCESSING OPTIONS (section 6.5.8), in its extrair_nfc.py form and in the
    second, effective form of extrair_nfc_limpo.py;
  - READ RECORD (section 6.5.11);
  - GENERATE AC (section 6.5.5), with the fixed data field of each script.
  - Module `Literals` holds the constants. Hex text and byte lists are in module
    `Bytes`, including `toHexString` (which writes each element modulo 256),
    `toBytes`, `binascii.unhexlify`, `.lower()` and the ASCII decoding with
    `errors='ignore'`.
- **The card** (module `Card`). `connection.transmit` is a class `Connection`. The
  card's answer to a command is an oracle, a function of every command sent on that
  connection so far. A script step keeps the command and the response bytes. The
  `"apdu"`/`"response"` texts of the JSON are functions of those bytes, and they read
  back as them.
- **The AFL** (module `Afl`, EMV 4.3 Book 3 section 10.2):
  - the choice of the locator from a format 2 (`77`/`94`) or format 1 (`80`) GPO
    response;
  - its expansion into READ RECORD commands;
  - `process_afl`, a method on a `Connection` that keeps only the `90 00` exchanges.
- **Result assembly** (module `Assembly`):
  - the first-truthy-match loop of extrair_nfc.py;
  - the last-match loop and the first-track-2 loop of extrair_nfc_limpo.py, which
    look inside a top-level `70`;
  - the output name;
  - the defaults;
  - the CVM field chosen by AID prefix.
- **The sessions**:
  - Module `Flow`: `extractApplication` and `main` of extrair_nfc.py.
  - Module `FlowLimpo`: `main` of extrair_nfc_limpo.py.
  - Each session is a function of the oracle: the outcome and every command sent.
    Methods over a `Connection` implement it, and lemmas state what it promises.
  - `main` of extrair_nfc.py opens one connection for the directory and one for each
    application, so it takes a family of oracles `sessions: nat -> Oracle`: 0 for the
    directory, and `k + 1` for application `k`.

An exception that the source does not catch ends the call. In the model that call
returns `Err` with the Python exception class (module `Results`). Where the script
catches it (`try`/`except` around each script step), the step is skipped.

Where common EMV practice, or a comment in the source, would lead one to expect
otherwise, the model follows the code:

- A value shorter than its length field is taken as the remaining bytes, not
  rejected.
- The key of a three-byte tag has six hex digits (`{tag:04X}` pads to at least four).
- Response text in the script is upper-case; only the command text is lowered. The
  model keeps the cases as `toHexString(...)` and `.lower()` produce them.
- The AFL of a format 1 response skips 4 hex characters (2 bytes of AIP), not
  4 bytes.
- A rejected GPO does not end the application. extrair_nfc.py still assembles a
  record, without records or GENERATE AC. extrair_nfc_limpo.py reads the AFL and
  sends the GENERATE AC whatever the status word.
- A session that fails (a response that does not decode outside the per-step `try`,
  an AID that is not hex) ends the whole run of `main`, because nothing there catches
  it.
- Tag `77` is the format 2 template and `80` the format 1 template, as EMV numbers
  them.

## Model

| member | source | states |
|---|---|---|
| `Tlv.Decode` | extrair_nfc.py:19-54 | `parse_tlv` as a function: the sibling items of the input, each a tag key and a value (upper-case hex, or the decoding of its bytes under a constructed tag), grouped by key; `Tlv.ParseTlv` is proved equal to it and `TlvFacts` states its shape |
| `Tlv.ContEnd` | extrair_nfc.py:27-29 | the scan over continuation bytes stops inside the input, not before where it started |
| `Tlv.ContEndSpec` | extrair_nfc.py:27-29 | every byte the scan passes has bit 0x80 set, and the byte it stops at does not |
| `Tlv.TagSize` | extrair_nfc.py:23-31 | a tag that is read takes at least one byte and no more than the input |
| `Tlv.TagSizeSpec` | extrair_nfc.py:23-31 | the bytes read are a valid tag: one byte, or a first byte with low five bits 0x1F, continuation bytes and one terminator. Reading fails exactly when a multi-byte tag has no terminator before the end (the `data[i]` of line 30) |
| `Tlv.ReadHeader` | extrair_nfc.py:23-39 | a header that is read puts the value at least two bytes in and not past the end; every failure is an IndexError |
| `Tlv.ReadHeaderSpec` | extrair_nfc.py:32-39 | a length byte below 0x80 is the length. Otherwise its low seven bits count the big-endian length bytes that follow. Reading fails exactly when the tag fails, no length byte follows, or the length bytes run past the end |
| `Tlv.ValueEnd` | extrair_nfc.py:40-41 | the value region `data[i:i + length]` ends inside the input and not before it starts |
| `Tlv.FirstItem` | extrair_nfc.py:22-46 | one decoded item takes at least two bytes and no more than the input |
| `Tlv.IndexOf` | extrair_nfc.py:47 | `tag_hex in result`: the position of the first entry with the key, or the length when there is none; no earlier entry has the key |
| `Tlv.TagKey` | extrair_nfc.py:42 | the key of a tag number, `02X` up to 0xFF and `04X` above; `TlvFacts.TagKeyIsHex`, `TlvFacts.OneByteTagKey` and `TlvFacts.MultiByteTagKey` state it is the upper-case hex of the tag bytes |
| `Tlv.DecodeItems` | extrair_nfc.py:22-46 | the sibling items of the input in encounter order, before grouping; `Tlv.ParseTlv` follows it item by item and `TlvEncode.DecodeItemsOfEncode` inverts it on encoded fields |
| `Tlv.DecodeValue` | extrair_nfc.py:43-46 | the value of one item by the constructed bit; `Tlv.PrimitiveValue` and `Tlv.ConstructedValue` state both branches |
| `Tlv.Insert` | extrair_nfc.py:47-53 | one dictionary update; `TlvFacts.InsertNew` states that a new key is appended and `TlvFacts.InsertAllSnoc` that the loop is these updates in order |
| `Tlv.Merge` | extrair_nfc.py:48-51 | what a key already present holds after another value: a list grows by it, any other value becomes the two-element list; `TlvFacts.CollectSnoc` and `TlvFacts.RepeatedTagBecomesList` state it |
| `Tlv.ReadTagAt` | extrair_nfc.py:23-31 | the tag loop fails exactly when a tag read fails, with IndexError. Otherwise it gives the big-endian value of the tag bytes and the index after them |
| `Tlv.ReadLengthAt` | extrair_nfc.py:32-39 | the length loop fails exactly when no length byte follows or the long-form bytes are missing. Otherwise it gives the short-form byte or the big-endian long-form value, and the index after the length |
| `Tlv.ReadItemAt` | extrair_nfc.py:23-42 | the key, the start of the value and the length are those of the header; a failure is the header's |
| `Tlv.PrimitiveValue` | extrair_nfc.py:45-46 | a value whose first tag byte lacks bit 0x20 is the upper-case hex of its bytes |
| `Tlv.ConstructedValue` | extrair_nfc.py:43-44 | a value whose first tag byte has bit 0x20 is the decoding of its bytes, and fails as it does |
| `Tlv.ParseValue` | extrair_nfc.py:43-46 | the method gives the reference value of a region, recursion included |
| `Tlv.ParseItemAt` | extrair_nfc.py:23-46 | the method reads the item the reference reads first, and the index `i + length`, which may pass the end |
| `Tlv.ParseTlv` | extrair_nfc.py:19-54 | the while loop with its in-place dictionary updates returns exactly the reference decoding, failures included |
| `Tlv.InsertAll` | extrair_nfc.py:47-53 | the dictionary updates of the loop, one decoded item after another: a new key is appended, a key already there has its value merged into a list; `TlvFacts.GroupIsGroupSpec` proves it equal to the independent `TlvFacts.GroupSpec` |
| `Tlv.Group` | extrair_nfc.py:47-53 | the dictionary `result` built from the decoded items, starting empty; `TlvFacts.GroupIsGroupSpec`, `TlvFacts.DecodeGroupsDuplicates` and `TlvFacts.RepeatedTagBecomesList` state where repeated keys go and in what order |
| `TlvEncode.FirstItemOfField` | extrair_nfc.py:22-46 | a short-form tag-length-value followed by anything decodes first to its tag hex and value hex, and takes exactly its own bytes |
| `TlvEncode.DecodeItemsOfEncode` | extrair_nfc.py:19-46 | a concatenation of such fields decodes item by item to their entries, in order |
| `TlvEncode.InsertAllFresh` | extrair_nfc.py:52-53 | when no key repeats, the insertions only append, in order |
| `TlvEncode.DecodeOfEncode` | extrair_nfc.py:19-54 | round trip: primitive fields with distinct tags, encoded, decode back to their (tag hex, value hex) entries in order |
| `TlvEncode.FieldAt` | extrair_nfc.py:23-42 | the short-form primitive field an input starts with ends after its first byte and within the input |
| `TlvEncode.FieldsEncode` | extrair_nfc.py:19-46 | an input read as primitive short-form fields laid end to end is exactly the encoding of those fields |
| `TlvEncode.ReencodeAsEntries` | extrair_nfc.py:42-46 | the decoded entries of fields (key = tag hex, text = value hex) re-encode as those fields |
| `TlvEncode.EncodeOfDecode` | extrair_nfc.py:19-54 | the converse round trip: an input of primitive short-form fields with distinct tags decodes, and re-encoding its entries gives back the input |
| `TlvEncode.LongFormForgotten` | extrair_nfc.py:32-39 | the converse fails outside such inputs: `5A 81 01 v` is not laid out as short fields, decodes as `5A 01 v` does, and re-encodes to `5A 01 v` |
| `TlvFacts.TagKeyIsHex` | extrair_nfc.py:42 | the key of a valid tag is the upper-case hex of its bytes. It has two digits exactly when the tag has one byte, and at least four otherwise |
| `TlvFacts.OneByteTagKey` | extrair_nfc.py:42 | `{tag:02X}` of a one-byte tag is its two hex digits |
| `TlvFacts.MultiByteTagKey` | extrair_nfc.py:42 | `{tag:04X}` of a tag of two or more bytes with a leading byte of at least 0x10 is the hex of its bytes |
| `TlvFacts.TagSizeOfValidTag` | extrair_nfc.py:23-31 | a valid tag followed by anything is read as exactly its own bytes |
| `TlvFacts.FirstItemShape` | extrair_nfc.py:40-46 | the key is the hex of the tag bytes. The value is a mapping, the decoding of the value bytes, exactly when the first tag byte has bit 0x20; otherwise it is the hex of the (possibly truncated) value bytes |
| `TlvFacts.TagExample9F38` | extrair_nfc.py:23-42 | `9F 38` is a two-byte tag with key "9F38" |
| `TlvFacts.TagExample5A` | extrair_nfc.py:23-42 | `5A` is a one-byte tag with key "5A" |
| `TlvFacts.LengthExampleLong` | extrair_nfc.py:32-39 | `81 20` is the length 32, with the value three bytes in |
| `TlvFacts.LengthExampleShort` | extrair_nfc.py:32-39 | `25` is the length 37 |
| `TlvFacts.LengthExampleZero` | extrair_nfc.py:32-39 | `80` is the length 0 |
| `TlvFacts.TruncatedValueIsLast` | extrair_nfc_limpo.py:49-50 | when fewer bytes remain than the length asks for, the value is the remainder and the item is the last one of its level |
| `TlvFacts.TruncatedHeaderFails` | extrair_nfc_limpo.py:35-48 | running out of input inside a tag or a length fails the whole decoding with IndexError |
| `TlvFacts.DecodeFailsWithIndexError` | extrair_nfc_limpo.py:28-64 | every decoding failure is an IndexError |
| `TlvFacts.GroupSpec` | extrair_nfc.py:47-53 | the reference grouping has one entry per distinct key, in order of first occurrence |
| `TlvFacts.GroupIsGroupSpec` | extrair_nfc.py:47-53 | the insert-or-append updates give the reference grouping: each key's values collected in encounter order |
| `TlvFacts.DecodeGroupsDuplicates` | extrair_nfc.py:47-53 | the keys of a decoded level are distinct and come in order of first occurrence. A key that occurs once keeps its value, never wrapped in a list; a repeated key holds the list of all its values in encounter order |
| `TlvFacts.RepeatedTagBecomesList` | extrair_nfc.py:47-51 | `5A 01 u 5A 01 w` decodes to one entry `5A` holding the two-element list `[u, w]` |
| `Bytes.DigitValue` | extrair_nfc.py:117 | a character is a hex digit of either case exactly when it has a value, which is below 16 |
| `Bytes.UpperHex` | extrair_nfc.py:46 | `''.join(f"{b:02X}" ...)` writes two characters per byte; `FromUpperHex` is its inverse |
| `Bytes.FromHex` | extrair_nfc.py:85 | `toBytes` gives one byte per pair of digits |
| `Bytes.Unhexlify` | extrair_nfc.py:78 | `binascii.unhexlify` gives exactly half as many bytes as the text has characters |
| `Bytes.FromUpperHex` | extrair_nfc.py:252 | both `toBytes` and `bytes.fromhex` read upper-case hex back to the bytes it was written from |
| `Bytes.FromLowerHex` | extrair_nfc.py:202 | `toBytes` reads the lower-case command text back to its bytes |
| `Bytes.Lower` | extrair_nfc.py:202 | `.lower()` keeps the length, lowers A to Z and leaves every other character |
| `Bytes.LowerOfUpperHex` | extrair_nfc.py:202 | lowering the upper-case hex of bytes gives their lower-case hex |
| `Bytes.AsciiIgnore` | extrair_nfc.py:78 | `.decode('ascii', errors='ignore')` is no longer than its input and holds only ASCII; what it keeps and in what order is stated by `Bytes.AsciiIgnoreOne` and `Bytes.AsciiIgnoreAppend` |
| `Bytes.AsciiIgnoreAllAscii` | extrair_nfc.py:78 | bytes that are all ASCII decode one character per byte, unchanged |
| `Bytes.AsciiIgnoreOne` | extrair_nfc.py:78 | one byte decodes to its character when it is below 0x80 and to nothing otherwise |
| `Bytes.AsciiIgnoreAppend` | extrair_nfc.py:78 | the decoding of a concatenation is the concatenation of the decodings, so the ASCII bytes are kept in their order and only the others are dropped |
| `Bytes.AsciiIgnoreMixed` | extrair_nfc.py:78 | `b"A\xc3B"` decodes to "AB" |
| `Bytes.AsciiBytes` | extrair_nfc.py:200 | `list(b"...")` gives the code of each character |
| `Bytes.BigEndianSnoc` | extrair_nfc.py:28 | `(tag << 8) \| b` is `tag * 256 + b` |
| `Bytes.Format02XPadded` | extrair_nfc.py:42 | `{n:02X}` is the hex of `n` padded with zeros to two digits |
| `Bytes.Format02XByte` | extrair_nfc.py:46 | `{b:02X}` of a byte is its two upper-case hex digits |
| `Bytes.NatHexBigEndian` | extrair_nfc.py:42 | the hex of a multi-byte tag's value, with a leading byte of at least 0x10, is the hex of its bytes |
| `Bytes.HexStringOfBytes` | extrair_nfc.py:97 | `toHexString(...)` without spaces, of bytes, is their upper-case hex |
| `Bytes.HexString` | extrair_nfc.py:202 | `toHexString(xs).replace(" ", "")` as a function: each element modulo 256 as two upper-case digits; `Bytes.HexStringWraps` states it for every list |
| `Bytes.Wrap` | extrair_nfc.py:202 | the byte each element stands for: same length, element `k` modulo 256 |
| `Bytes.HexStringWraps` | extrair_nfc.py:202 | the hex text of any command list is the upper-case hex of its elements modulo 256, so an element above 255 is written as its low byte |
| `Bytes.WrapIdentity` | extrair_nfc.py:202 | wrapping leaves a list unchanged exactly when every element is below 256 |
| `Bytes.LengthTextWraps` | extrair_nfc.py:219 | a length of 257 (a GPO with 255 data bytes) is written "01" |
| `Bytes.Zeros` | extrair_nfc.py:150 | `[0x00] * length` has `length` bytes, all zero |
| `Card.RecordedResponse` | extrair_nfc.py:202-203 | the recorded response is the upper-case hex of the data, and `unhexlify` reads it back as the data |
| `Card.Record` | extrair_nfc.py:202-203 | a script step keeps the command and the response data, not the status word; `Card.RecordedResponse` and `Card.RecordedCommand` state what its JSON texts read back as |
| `Card.ResponseReadsBack` | extrair_nfc.py:252 | the response text of any step reads back as its response bytes |
| `Card.RecordedCommand` | extrair_nfc.py:202 | a command of bytes is recorded as its lower-case hex, which reads back as the command |
| `Card.RecordedCommandWraps` | extrair_nfc.py:209 | any command is recorded as the lower-case hex of its elements modulo 256, which reads back as those bytes; it reads back as the command exactly when every element is below 256 |
| `Card.ApduText` | extrair_nfc.py:202 | the `"apdu"` text of a step: `toHexString` of the command, lowered; its meaning is stated by `Card.RecordedCommand` and `Card.RecordedCommandWraps` |
| `Card.Success` | extrair_nfc.py:94 | the status word 90 00; `Afl.ExchangeSnoc` and `Flow.AfterGpoTranscript` state what depends on it |
| `Card.ResponseText` | extrair_nfc.py:203 | the `"response"` text of a step: `toHexString` of the response data; it reads back as the data (`Card.ResponseReadsBack`) |
| `Card.Connection.constructor` | extrair_nfc.py:194-196 | a new connection to the card has sent nothing |
| `Card.Connection.Transmit` | extrair_nfc.py:8-12 | the command joins the connection's history, and the reply is the card's answer to that whole history |
| `Literals.PpseBytesAreAscii` | extrair_nfc.py:200 | the 14 bytes of the SELECT are the characters of "2PAY.SYS.DDF01" |
| `Apdu.Case4RoundTrip` | extrair_nfc.py:161 | a command `header + [Lc] + data + [0x00]` splits back into its header and data |
| `Apdu.Case4` | extrair_nfc.py:161 | the header, Lc, the data and Le 00; `Apdu.Case4RoundTrip` and `Apdu.ParseCase4Inverse` state it |
| `Apdu.ParseCase4Inverse` | extrair_nfc.py:161 | a command that splits is the command built from its parts |
| `Apdu.Select` | extrair_nfc.py:14-16 | SELECT is `00 A4 04 00`, the AID's length, the AID, and `00` |
| `Apdu.SelectAid` | extrair_nfc.py:206-207 | SELECT of the AID text succeeds exactly when `toBytes` does, carries the AID's bytes, and fails as `toBytes` fails |
| `Apdu.SelectAidOfHex` | extrair_nfc.py:206-207 | the hex of an AID selects that AID |
| `Apdu.SelectPpseIsSelect` | extrair_nfc.py:200 | the directory SELECT is the SELECT of "2PAY.SYS.DDF01", twenty bytes long |
| `Apdu.SelectPpse` | extrair_nfc.py:200 | the SELECT of `2PAY.SYS.DDF01`; `Apdu.SelectPpseIsSelect` states it is the SELECT of that name |
| `Apdu.Gpo` | extrair_nfc.py:158-161 | GPO is `80 A8 00 00`, `Lc = n + 2`, `83`, `n`, the data and `00`, with `n + 8` bytes in all |
| `Apdu.GpoWithoutData` | extrair_nfc.py:160-161 | with no data the command is exactly `80 A8 00 00 02 83 00 00` |
| `Apdu.GpoTemplateDecodes` | extrair_nfc.py:158 | the data field, for data under 128 bytes, decodes to one `83` entry holding the data's hex |
| `Apdu.GpoCommand` | extrair_nfc.py:154-161 | without a truthy PDOL the command is `80 A8 00 00 02 83 00 00`. With one, it exists exactly when `parse_pdol` succeeds. Its length is `n + 8` with `Lc = n + 2` and `n` the sum of the requested lengths, and its body is the PDOL answer |
| `Apdu.LimpoGpoDataLayout` | extrair_nfc_limpo.py:115 | the fixed data is the tag-length-value of `9F02` with six amount bytes |
| `Apdu.LimpoGpoDataIsText` | extrair_nfc_limpo.py:115-116 | `toBytes("9F0206000000000100")` is those nine bytes |
| `Apdu.LimpoGpoCommand` | extrair_nfc_limpo.py:113-119 | with a truthy PDOL the command is `80 A8 00 00 0B 83 09`, the fixed data and `00`, whatever the PDOL asks; without one it is `80 A8 00 00 02 83 00 00` |
| `Apdu.LimpoGpoDataDecodes` | extrair_nfc_limpo.py:115 | the fixed data decodes to the single amount entry `9F02` = "000000000100" |
| `Apdu.ReadRecordFields` | extrair_nfc_limpo.py:24-25 | READ RECORD is five bytes `00 B2 rec P2 00` with `P2 = sfi * 8 + 4` |
| `Apdu.ReadRecordInjective` | extrair_nfc_limpo.py:25 | different (sfi, record) pairs give different commands |
| `Apdu.ReadRecord` | extrair_nfc_limpo.py:24-26 | `read_record(sfi, rec)` as a function: the READ RECORD command; `Apdu.ReadRecordFields` and `Apdu.ReadRecordInjective` state its layout |
| `Apdu.GenAc` | extrair_nfc.py:102-110 | GENERATE AC exists exactly when its text is hex, and is `80 AE 80 00`, Lc, the bytes of the text, and `00` |
| `Apdu.GenAcData` | extrair_nfc.py:103-109 | the data field of five objects is 29 bytes long |
| `Apdu.GenAcTextIsHex` | extrair_nfc.py:103-109 | the concatenated text is the upper-case hex of amount `9F02`/6, currency `5F2A`/2, date `9A`/3, type `9C`/1 and unpredictable number `9F37`/4, encoded in that order |
| `Apdu.GenAcText` | extrair_nfc.py:103-109 | the GENERATE AC data text of amount, currency, date, type and unpredictable number; `Apdu.GenAcTextIsHex` and `Apdu.GenAcDataDecodes` state it |
| `Apdu.GenAcOfHex` | extrair_nfc.py:110 | the command is the case-4 command of that data, with `Lc = 0x1D` |
| `Apdu.GenAcDataDecodes` | extrair_nfc_limpo.py:101-106 | the data decodes to the five primitive entries `9F02`, `5F2A`, `9A`, `9C`, `9F37`, in that order |
| `Apdu.NfcGenAcIsBuilt` | extrair_nfc.py:102-110 | the default amount and the date 250328 give the 35-byte command of extrair_nfc.py, `Lc = 0x1D` |
| `Apdu.LimpoGenAcIsBuilt` | extrair_nfc_limpo.py:99-107 | the default amount and the date 231101 give the 35-byte command of extrair_nfc_limpo.py, `Lc = 0x1D` |
| `Apdu.NfcGenAc` | extrair_nfc.py:110 | the GENERATE AC extrair_nfc.py sends; `Apdu.NfcGenAcIsBuilt` states it is built from the default amount and its date |
| `Apdu.LimpoGenAc` | extrair_nfc_limpo.py:107 | the GENERATE AC extrair_nfc_limpo.py sends; `Apdu.LimpoGenAcIsBuilt` states it is built from the default amount and its date |
| `Dol.ParsePdolSpec` | extrair_nfc.py:116-133 | `parse_pdol` as a function: `toBytes` of the PDOL and the (tag hex, length) pairs it lists; `Dol.ParsePdol` and `Dol.DolRoundTrip` state it |
| `Dol.PdolData` | extrair_nfc.py:135-152 | `build_pdol_data` as a function: each item's default fitted to its length, concatenated; `Dol.PdolDataLength` and `Dol.PdolDataSegment` state it |
| `Dol.DolItems` | extrair_nfc.py:116-133 | the reference PDOL reading fails only with IndexError, when a tag or its length byte is cut off |
| `Dol.ReadDolTagAt` | extrair_nfc.py:121-128 | the tag loop fails exactly when a multi-byte tag has no terminator, and otherwise returns exactly the tag's bytes |
| `Dol.ReadPairAt` | extrair_nfc.py:121-132 | one pass of the loop either stops on an IndexError of the whole reading, or advances with the list read so far still a prefix of the reference |
| `Dol.ParsePdolBytes` | extrair_nfc.py:118-133 | the `while` loop with `append` gives exactly the reference (tag, length) list |
| `Dol.ParsePdol` | extrair_nfc.py:116-133 | `parse_pdol` of a value is `toBytes`, then the loop, failures included |
| `Dol.DolRoundTrip` | extrair_nfc.py:116-133 | a list written as valid tags, each followed by one length byte, reads back as its (tag hex, length) pairs in order |
| `Dol.DolTagIsTlvKey` | extrair_nfc.py:129 | the PDOL's tag hex is the same key `parse_tlv` would give those tag bytes |
| `Dol.Fit` | extrair_nfc.py:145-147 | the fitted value has the requested length: the default's bytes, then zeros; it is unchanged when the length already matches |
| `Dol.FieldValue` | extrair_nfc.py:142-150 | each requested item contributes exactly its length |
| `Dol.TerminalDefaults` | extrair_nfc.py:136-140 | the terminal's defaults for `9F1D`, `9F1A` and `9F35`; `Dol.CountryCodeField`, `Dol.UnknownTagZeros` and `Dol.BuildPdolData` state how they are used |
| `Dol.UnknownTagZeros` | extrair_nfc.py:148-150 | a tag with no default gives all zeros of the requested length |
| `Dol.BuildPdolData` | extrair_nfc.py:135-152 | the `extend` loop gives the reference PDOL answer for the defaults table |
| `Dol.PdolDataLength` | extrair_nfc.py:141-151 | the answer's length is the sum of the requested lengths |
| `Dol.PdolDataSegment` | extrair_nfc.py:142-151 | item `j`'s bytes sit at the offset given by the sum of the earlier lengths |
| `Dol.CountryCodeField` | extrair_nfc.py:138 | `9F1A` of length 2 is answered `00 76` |
| `Dol.DefaultFitted` | extrair_nfc.py:145-147 | a default shorter than requested is padded on the right with zeros; a longer one is truncated |
| `Dol.AnswerToLaidOutPdol` | extrair_nfc.py:154-158 | `build_pdol_data(parse_pdol(x))` for a laid-out list: the parse succeeds, the length is the sum, and every item sits at its offset |
| `Query.Get` | extrair_nfc_limpo.py:160 | `dict.get` is absent exactly when no entry has the key; otherwise it is the value of the first entry with the key |
| `Query.Truthy` | extrair_nfc.py:80 | Python truthiness of a decoded value; `Query.TruthyIsNonEmpty` states it |
| `Query.TruthyIsNonEmpty` | extrair_nfc.py:80 | only the empty string, the empty mapping and the empty list are falsy |
| `Query.GetOr` | extrair_nfc.py:69 | `.get(k, default)` fails with AttributeError exactly on a value that is not a mapping; otherwise it gives the value or the default |
| `Query.ValueBytes` | extrair_nfc.py:85 | `toBytes` of a mapping or list fails with AttributeError. On text it succeeds exactly when the text is hex, with the bytes the text spells |
| `Query.FindTag` | extrair_nfc.py:56-66 | `find_tag` as a function: the depth-first search over mappings and lists; `Query.FindTagIsFilteredWalk` and `Query.FindTagMembers` state it |
| `Query.FindTagIsFilteredWalk` | extrair_nfc.py:56-66 | `find_tag` is the depth-first walk, each entry before what lies inside it, filtered by key |
| `Query.FindTagMembers` | extrair_nfc.py:56-66 | a value is found exactly when it sits under the key somewhere in the tree; a primitive yields nothing |
| `Query.FirstEntryMatchComesFirst` | extrair_nfc.py:59-62 | when the first entry of a mapping matches, its value is the first result |
| `Query.FindInEntriesAppend` | extrair_nfc.py:59-62 | the results of a mapping's entries are those of its first part followed by those of the rest |
| `Query.MatchPrecedesInside` | extrair_nfc.py:59-62 | for any entry of a mapping whose key matches: the results of the entries before it, then its value, then what is found inside the value, then the results of the later entries |
| `Query.FindTagOfRepeatedKey` | extrair_nfc.py:59-61 | a repeated matching tag is reported as its whole list |
| `Query.DirectoryEntries` | extrair_nfc.py:69-71 | the directory path fails only with AttributeError; `Query.DirectoryEntriesFollowPath` states when it fails and what it gives |
| `Query.Descend` | extrair_nfc.py:69 | the chain of `.get(k, {})` as an independent definition: the mapping reached along a path, a missing key read as an empty mapping, None when a value on the way is not a mapping |
| `Query.DirectoryEntriesFollowPath` | extrair_nfc.py:69-71 | the walk fails exactly when `6F`, `A5` or `BF0C` is present but not a mapping. Otherwise its entries are the items of a list under `61`, none when `61` is missing, or the one value found there |
| `Query.RepeatedDirectoryEntries` | extrair_nfc.py:69-71 | a repeated `61` under `6F/A5/BF0C`, i.e. a card with several applications, gives all its entries in order |
| `Query.Label` | extrair_nfc.py:77-78 | no `50` gives the label "". A text `50` gives the ASCII decoding of its unhexlified bytes, or ValueError when it is not even-length hex; a mapping or a list under `50` is a TypeError. A label holds only ASCII |
| `Query.AidOf` | extrair_nfc.py:73-81 | a directory item that is not a mapping is skipped. A mapping fails exactly when its label fails to unhexlify, and is kept only with a truthy `4F`, which is its AID |
| `Query.ExtractAids` | extrair_nfc.py:68-82 | the building loop gives exactly the reference AID list |
| `Query.AidsOf` | extrair_nfc.py:72-82 | the loop over directory items as a function: each item's summary when it has one, an unreadable label failing the whole list; `Query.AidsOfCharacterized` states it |
| `Query.ExtractAidsSpec` | extrair_nfc.py:68-82 | `extract_aids` as a function: the directory path, with a lone `61` wrapped in a list, then `AidsOf`; `Query.ExtractAids` is proved equal to it |
| `Query.AidOfSelected` | extrair_nfc.py:76-81 | a mapping with a truthy `4F` and a readable label gives its AID, label and priority |
| `Query.Summary` | extrair_nfc.py:76-81 | the dictionary appended for a selected entry: its `4F`, its label and its `87` or "N/A"; `Query.AidOfSelected` and `Query.AidsOfCharacterized` state when it is appended |
| `Query.AidOfSkipped` | extrair_nfc.py:74-80 | any other item gives nothing |
| `Query.AidsOfCharacterized` | extrair_nfc.py:72-82 | the list exists exactly when every mapping's label reads. It then has one summary per selected entry, in directory order |
| `Query.Selected` | extrair_nfc.py:73-80 | the directory items that are mappings with a truthy `4F`, in order; `Query.AidsOfCharacterized` states that the result has one summary per selected item |
| `Query.SingleDirectoryEntry` | extrair_nfc.py:69-71 | a single `61` mapping is wrapped in a one-item list |
| `Query.MissingPathGivesNoAids` | extrair_nfc.py:69 | without `6F` there are no AIDs |
| `Afl.SelectAfl` | extrair_nfc.py:225-231 | the AFL of a decoded GPO response: the `94` of a `77` mapping, else what follows four characters of `80`; `Afl.Format2Precedence`, `Afl.Format2NotMapping`, `Afl.Format1Locator` and `Afl.NoLocator` state it |
| `Afl.Locators` | extrair_nfc.py:86-90 | the locator of each 4-byte group that has three bytes: `entry[0] >> 3`, `entry[1]`, `entry[2]`; `Afl.LocatorsCount` and `Afl.LocatorsContents` state it |
| `Afl.Truncated` | extrair_nfc.py:86-90 | a last group of one or two bytes, on which `entry[1]` or `entry[2]` raises; `Afl.ProcessAfl` states when it fails |
| `Afl.Format2Precedence` | extrair_nfc_limpo.py:176-177 | when `77` is a mapping, the AFL is its `94` child or nothing, whatever `80` holds |
| `Afl.Format2NotMapping` | extrair_nfc_limpo.py:177 | a `77` that is not a mapping fails with AttributeError |
| `Afl.Format1Locator` | extrair_nfc_limpo.py:178-181 | without `77`, an `80` holding two AIP bytes and a non-empty locator gives the locator's hex |
| `Afl.NoLocator` | extrair_nfc_limpo.py:175-181 | without `77`, and with no `80` or one of four hex characters or fewer, there is no AFL |
| `Afl.LocatorsCount` | extrair_nfc.py:86-90 | one locator for each 4-byte group that has at least three bytes |
| `Afl.LocatorsContents` | extrair_nfc.py:87-90 | locator `k` has `sfi = byte0 >> 3`, first record byte1 and last record byte2 of group `k` |
| `Afl.RecordsFromContents` | extrair_nfc.py:91-92 | one READ RECORD per record of the range, in order; none when the range is empty |
| `Afl.RecordsFrom` | extrair_nfc.py:91-92 | the READ RECORDs over a range of records; `Afl.RecordsFromContents` states it |
| `Afl.Records` | extrair_nfc.py:88-92 | the READ RECORDs of one locator, first to last record; `Afl.RecordsFromContents` and `Afl.ExampleLocator` state it |
| `Afl.Plan` | extrair_nfc.py:86-92 | every locator's READ RECORDs, locator after locator; `Afl.ProcessAfl` sends exactly these and `Afl.ExampleLocator` shows one |
| `Afl.ExampleLocator` | extrair_nfc.py:84-92 | `08 01 02 00` is SFI 1, records 1 and 2, read with P2 `0C` |
| `Afl.ExchangeSnoc` | extrair_nfc.py:93-98 | one more command adds its step exactly when the reply is `90 00` |
| `Afl.Exchange` | extrair_nfc.py:91-98 | the READ RECORD loop's contribution to the script: a step for each command answered `90 00`, in the order sent; `Afl.ExchangeSnoc`, `Afl.ExchangeMembers`, `Afl.ExchangeAllSucceed` and `Afl.ExchangeNoneSucceed` state it |
| `Afl.ExchangeAllSucceed` | extrair_nfc.py:94-98 | when every read succeeds, every command is recorded with its reply, in order |
| `Afl.ExchangeNoneSucceed` | extrair_nfc.py:94 | when no read succeeds, nothing is recorded |
| `Afl.ExchangeMembers` | extrair_nfc.py:94-98 | every recorded step is a successful exchange of one of the commands sent |
| `Afl.ReadRecords` | extrair_nfc.py:91-98 | the inner loop sends exactly the READ RECORDs of the range and appends the successful exchanges after the earlier steps |
| `Afl.AflRun` | extrair_nfc.py:84-100 | `process_afl` as a value: a locator that is not hex fails before sending; otherwise every planned READ RECORD is sent, then a truncated last group fails; `Afl.ProcessAfl` is proved equal to it |
| `Afl.ProcessAfl` | extrair_nfc.py:84-100 | a locator that is not hex sends nothing and fails. Otherwise every planned READ RECORD is sent. A last group of one or two bytes then fails with IndexError; else the result is the earlier script followed by the successful exchanges |
| `Assembly.StepTreeOfText` | extrair_nfc.py:252 | a step's response text always reads back; decoding it succeeds exactly when decoding the bytes does, with the same tree |
| `Assembly.ParseStep` | extrair_nfc.py:251-252 | the method gives the step's tree, or nothing when it does not decode |
| `Assembly.StepTree` | extrair_nfc.py:251-252 | the decoded response of a step, or nothing when it does not decode; `Assembly.StepTreeOfText` states it is what the recorded text decodes to |
| `Assembly.Found` | extrair_nfc.py:253-256 | `find_tag` over one step's response; `Assembly.FirstMatchNone` and `Assembly.FirstMatchIsFirstHit` state it |
| `Assembly.Settle` | extrair_nfc.py:258-265 | the guard `if values and not field`; `Assembly.FirstMatchStep` and `Assembly.Keep` state it |
| `Assembly.FirstMatch` | extrair_nfc.py:250-265 | the first-truthy-match of a tag over the script; `Assembly.FirstMatchIsFirstHit` and `Assembly.FirstMatchNone` state it |
| `Assembly.FirstMatchStep` | extrair_nfc.py:258-265 | one more step changes a field only when the field is not yet truthy and the step yields a value, which becomes the field |
| `Assembly.FirstMatchNone` | extrair_nfc.py:250-265 | a field stays unset exactly when no step yields a value for it |
| `Assembly.FirstMatchFalsy` | extrair_nfc.py:258 | when no step's first value is truthy, the field is unset or falsy |
| `Assembly.FirstMatchKept` | extrair_nfc.py:258-259 | once a field is truthy, later steps leave it |
| `Assembly.FirstMatchIsFirstHit` | extrair_nfc.py:250-265 | the field is the first value of the first step whose first value is truthy |
| `Assembly.Keep` | extrair_nfc.py:258-259 | `if values and not cur: cur = values[0]`, as the one-step update the loop proofs use |
| `Assembly.CollectFirstMatches` | extrair_nfc.py:246-267 | the loop gives, for `57`, `5F28`, `8E` and `9F6C`, the first-truthy-match of each over the script |
| `Assembly.LastMatch` | extrair_nfc_limpo.py:203-219 | the value in the last step whose top-level `70` holds the key; `Assembly.LastMatchWins` and `Assembly.LastMatchNone` state it |
| `Assembly.InTemplate` | extrair_nfc_limpo.py:206-219 | the value of a key in a step's top-level `70`; `Assembly.LastMatchWins` and `Assembly.LastMatchNone` state it |
| `Assembly.LastMatchStep` | extrair_nfc_limpo.py:206-219 | one more step overwrites the field exactly when its top-level `70` mapping holds the key |
| `Assembly.LastMatchWins` | extrair_nfc_limpo.py:203-219 | the field is the value in the last step whose `70` holds the key |
| `Assembly.LastMatchNone` | extrair_nfc_limpo.py:203-219 | the field is unset exactly when no step's `70` holds the key |
| `Assembly.CollectLastMatches` | extrair_nfc_limpo.py:198-223 | the loop gives, for `5F28`, `8E` and `9F6C`, the last-match of each over the script |
| `Assembly.FirstIn70` | extrair_nfc_limpo.py:232-241 | the `57` of the first step whose top-level `70` holds one; `Assembly.FirstIn70IsFirst` and `Assembly.FirstIn70None` state it |
| `Assembly.Template70` | extrair_nfc_limpo.py:205-207 | the top-level `70` of a step's response when it decodes and `70` is a mapping; anything else sets no field, as the `except` makes it; `Assembly.LastMatch` and `Assembly.FirstIn70` read fields through it (line 236 tests it the same way) |
| `Assembly.FirstIn70IsFirst` | extrair_nfc_limpo.py:232-238 | track 2 is the `57` of the first step whose `70` holds one |
| `Assembly.FirstIn70None` | extrair_nfc_limpo.py:232-241 | there is no track 2 exactly when no step's `70` holds a `57` |
| `Assembly.FirstTrack2` | extrair_nfc_limpo.py:232-241 | the loop with `break` gives the first track 2 |
| `Assembly.NameOfTrack2` | extrair_nfc.py:270-272 | with a track 2 the name is the label, "_" and its first six characters |
| `Assembly.Name` | extrair_nfc.py:270-272 | the corrected output name; `Assembly.NameOfTrack2` and `Assembly.NameWithoutTrack2` state it |
| `Assembly.Prefix6` | extrair_nfc.py:270 | `track2[:6]`: the first six characters of text, the repr of the first six items of a list, TypeError for a mapping; `Assembly.NameOfTrack2` states the text case |
| `Assembly.Repr` | extrair_nfc.py:270-272 | the `repr` the f-string writes for a sliced list; `Assembly.ReprOfList` and `Assembly.ReprOfMapping` show it |
| `Assembly.ReprEntries` | extrair_nfc.py:270-272 | the `repr` of a mapping's entries; `Assembly.ReprOfMapping` shows it |
| `Assembly.ReprItems` | extrair_nfc.py:270-272 | the `repr` of a list's items separated by ", "; `Assembly.ReprOfList` shows it |
| `Assembly.ReprOfList` | extrair_nfc.py:270-272 | a track 2 that is the list of texts `AB`, `CD` names `['AB', 'CD']` |
| `Assembly.ReprOfMapping` | extrair_nfc.py:270-272 | a mapping inside the list is written `{'5A': '01'}`, as Python writes a dict |
| `Assembly.LimpoNameAsWritten` | extrair_nfc_limpo.py:244 | the name as written; `Assembly.LimpoNameAsWrittenDefects` states its TypeError and its stray "]" |
| `Assembly.NameWithoutTrack2` | extrair_nfc.py:270-272 | without a truthy track 2 the name is the label and "_notrack2" |
| `Assembly.LimpoNameAsWrittenDefects` | extrair_nfc_limpo.py:244 | as written, no track 2 is a TypeError where extrair_nfc.py names "_notrack2", and a track 2 name ends in a stray "]" |
| `Assembly.CvmByScheme` | extrair_nfc.py:276-277 | at most one CVM field is set, each exactly when the AID starts with its scheme's RID |
| `Assembly.MakeCapture` | extrair_nfc.py:271-282 | the output dictionary; `Assembly.CaptureDefaults`, `Assembly.CvmByScheme` and `Assembly.CaptureFails` state it |
| `Assembly.CaptureDefaults` | extrair_nfc.py:271-282 | country defaults to "" and CTQ to "0000" when missing or falsy, the PDOL is lowered or none, and the other fields are passed through |
| `Assembly.CaptureFails` | extrair_nfc.py:275 | assembling fails exactly when the PDOL is truthy but not text (no `.lower`) |
| `Assembly.OrDefault` | extrair_nfc.py:279-280 | `or ""` and `or "0000"`; `Assembly.CaptureDefaults` states it |
| `Assembly.PdolText` | extrair_nfc.py:275 | `pdol.lower() if pdol else None`; `Assembly.CaptureDefaults`, `Assembly.CaptureFails` and `Flow.AfterSelectGpo` state it |
| `Flow.First` | extrair_nfc.py:214 | `values[0] if values else None` is none exactly for an empty list, else its first value |
| `Flow.Session` | extrair_nfc.py:189-282 | `extractApplication` as a value: the outcome and every command sent, corrected or as written; the lemmas below state it |
| `Flow.NfcApplicationAsWritten` | extrair_nfc.py:189-240 | `extractApplication` as written; `Flow.AsWrittenFailsOnAcceptedGpo` and `Flow.AcceptingCardDefeatsAsWritten` state that it fails with NameError once a GPO is accepted |
| `Flow.NfcApplication` | extrair_nfc.py:189-282 | `extractApplication` recording the GENERATE AC that was sent; `Flow.ExtractApplication` computes it, and `Flow.SessionOpens`, `Flow.NfcCaptureFields` and `Flow.AfterGpoTranscript` state it |
| `Flow.AfterSelect` | extrair_nfc.py:212-240 | the session from the SELECT reply on; `Flow.FromSelect` computes it, `Flow.AfterSelectGpo` states its GPO, PDOL and IAD, and `Flow.AfterSelectAsWritten` relates its two forms |
| `Flow.AfterGpo` | extrair_nfc.py:222-282 | the session from the GPO reply on; `Flow.FromGpo` computes it, and `Flow.AfterGpoTranscript`, `Flow.AfterGpoPdolIad` and `Flow.AfterGpoAsWritten` state it |
| `Flow.AfterGpoPdolIad` | extrair_nfc.py:242-275 | the capture keeps the PDOL it was given, in lower case, and the script before the GPO stage. Its IAD is the first `9F10` of the reply to the last command sent: the GPO's reply when rejected, the GENERATE AC's when accepted |
| `Flow.AfterSelectGpo` | extrair_nfc.py:212-244 | the third command is the GPO built from the first `9F38` anywhere in the SELECT reply, recorded with its reply right after the earlier steps. The capture's PDOL is that `9F38` in lower case, and its IAD is the first `9F10` of the reply to the last command sent |
| `Flow.AflStage` | extrair_nfc.py:224-233 | the AFL of an accepted GPO and its records; `Flow.ReadGpoRecords` computes it and `Flow.AflStageRecords` states it |
| `Flow.Assemble` | extrair_nfc.py:242-282 | the output record from the finished script and the last reply; `Flow.AssembledFields` states it |
| `Flow.AfterGpoAsWritten` | extrair_nfc.py:236-240 | as written, the session sends the same commands. It succeeds only when the GPO was rejected, and then it is the corrected one's run and sends nothing more |
| `Flow.AfterSelectAsWritten` | extrair_nfc.py:218-240 | the same from the SELECT reply on. A success as written has sent exactly the GPO after the history, and the GPO was rejected |
| `Flow.AsWrittenFailsOnAcceptedGpo` | extrair_nfc.py:238 | both versions of the session send the same commands. The as-written one succeeds only after three commands with a rejected GPO, with the corrected result |
| `Flow.AcceptingCardDefeatsAsWritten` | extrair_nfc.py:238 | a card that answers `90 00` to everything makes the as-written session end in NameError |
| `Flow.AssembledFields` | extrair_nfc.py:242-282 | the record keeps the script and the PDOL in lower case. Its name, country, CVM and CTQ are the first truthy matches or defaults, and its IAD is the first `9F10` of the last response, or "" |
| `Flow.AfterGpoTranscript` | extrair_nfc.py:218-240 | a rejected GPO leaves the script and the history as they were. An accepted one adds the successful READ RECORDs sent after it and ends with the GENERATE AC, the last command sent, recorded with its reply |
| `Flow.SessionOpens` | extrair_nfc.py:199-208 | the first command is the directory SELECT and the second the AID's SELECT. An AID that is not hex stops after the first |
| `Flow.NfcCaptureFields` | extrair_nfc.py:189-282 | a captured application's AID was text, and its fields are picked from its own script |
| `Flow.AflStageRecords` | extrair_nfc.py:222-233 | reading the AFL keeps the history as a prefix and appends to the script the successful exchanges of what it sent |
| `Flow.AssembleCapture` | extrair_nfc.py:242-282 | the method assembles the record the reference assembles |
| `Flow.ReadGpoRecords` | extrair_nfc.py:224-233 | the method sends what the reference AFL stage sends and gives its script |
| `Flow.FromGpo` | extrair_nfc.py:222-282 | the method, from the GPO reply on, sends and gives what the corrected session does |
| `Flow.FromSelect` | extrair_nfc.py:212-282 | the method, from the SELECT reply on, sends and gives what the corrected session does |
| `Flow.ExtractApplication` | extrair_nfc.py:189-282 | the method on a fresh connection gives the corrected session's outcome and exactly its commands |
| `Flow.EachApplication` | extrair_nfc.py:312-313 | the `for` loop of `main` for any per-application session: the applications in order, the first failure ending the loop; `Flow.EachInOrder` and `Flow.EachFailAt` state it |
| `Flow.EachInOrder` | extrair_nfc.py:312-313 | a loop that succeeds gives one result per application, result `k` being the session of entry `k` on connection `k + 1` |
| `Flow.EachFailAt` | extrair_nfc.py:312-313 | a failure on a prefix of the applications is the failure of the whole loop |
| `Flow.ApplicationsInOrder` | extrair_nfc.py:312-313 | one record per application, in directory order, record `k` from application `k` on its own connection |
| `Flow.Applications` | extrair_nfc.py:312-313 | `for aid in aids: extractApplication(...)`, the loop `Flow.EachApplication` with `extractApplication` on a connection of its own per application; `Flow.CaptureAll` computes it, and `Flow.ApplicationsInOrder` and `Flow.ApplicationsFailAt` state it |
| `Flow.CapturesOfDirectory` | extrair_nfc.py:312-313 | record `k` carries application `k`'s AID, label and the name from its own script |
| `Flow.CaptureAll` | extrair_nfc.py:312-313 | the `for` loop gives the reference list of records |
| `Flow.ApplicationsFailAt` | extrair_nfc.py:312-313 | once one application's session fails, the whole run fails with it |
| `Flow.NfcMain` | extrair_nfc.py:294-313 | `main` as a value: the directory on connection 0, then one session per AID; `Flow.ApplicationsInOrder` and `Flow.CapturesOfDirectory` state it |
| `Flow.CaptureCard` | extrair_nfc.py:294-313 | the method gives `main`'s outcome: the directory, then one session per application |
| `FlowLimpo.LimpoSession` | extrair_nfc_limpo.py:125-254 | `main` of extrair_nfc_limpo.py as a value: the outcome and every command sent; the lemmas below state it |
| `FlowLimpo.LimpoCaptureAsWritten` | extrair_nfc_limpo.py:125-254 | `main` as written, with the rebuilt GPO and the as-written name; the three findings below are stated about its parts |
| `FlowLimpo.LimpoCapture` | extrair_nfc_limpo.py:125-254 | `main` recording the GPO that was sent and naming as extrair_nfc.py does; `FlowLimpo.CaptureFirstApplication` computes it and `FlowLimpo.NoApplication` states it |
| `FlowLimpo.LimpoAfterSelect` | extrair_nfc_limpo.py:159-171 | the session from the SELECT reply on; `FlowLimpo.LimpoFromSelect` computes it and `FlowLimpo.LimpoAfterSelectGpo` states its GPO, recorded step, PDOL and IAD |
| `FlowLimpo.LimpoAfterGpo` | extrair_nfc_limpo.py:173-254 | the session from the GPO reply on; `FlowLimpo.LimpoFromGpo` computes it, and `FlowLimpo.LimpoAfterGpoTranscript` and `FlowLimpo.LimpoAfterGpoPdolIad` state it |
| `FlowLimpo.LimpoAfterGpoPdolIad` | extrair_nfc_limpo.py:195-247 | the capture keeps the PDOL it was given, in lower case, and the script before the GPO stage. Its IAD is the top-level `9F10` of the reply to the GENERATE AC, the last command sent, or "" |
| `FlowLimpo.LimpoAfterSelectGpo` | extrair_nfc_limpo.py:159-195 | the third command is `FlowLimpo`'s fixed-data GPO for the top-level `9F38` of the SELECT reply. The corrected script records exactly that command with its reply right after the earlier steps. The capture's PDOL is that `9F38` in lower case, and its IAD is the top-level `9F10` of the reply to the last command sent |
| `FlowLimpo.LimpoRecordedGpo` | extrair_nfc_limpo.py:165-169 | the GPO command the script records, as written; `FlowLimpo.RecordedGpoWithoutPdol` and `FlowLimpo.RecordedGpoDiffers` state it |
| `FlowLimpo.LimpoAssemble` | extrair_nfc_limpo.py:195-254 | the output record of extrair_nfc_limpo.py; `FlowLimpo.LimpoAssembledFields` states it |
| `FlowLimpo.RecordedGpoWithoutPdol` | extrair_nfc_limpo.py:165-169 | without a PDOL the recorded GPO is the one sent |
| `FlowLimpo.RecordedGpoDiffers` | extrair_nfc_limpo.py:165-171 | with the PDOL `9F66 04` the script records `80 A8 00 00 03 83 03 9F 66 04 00`, which is not the command sent |
| `FlowLimpo.LimpoAssembledFields` | extrair_nfc_limpo.py:195-254 | the record keeps the script and the PDOL in lower case. Its name comes from the first track 2 in a `70`, its country, CVM and CTQ from the last values in a `70` or defaults, and its IAD from the top-level `9F10` of the last response, or "" |
| `FlowLimpo.LimpoAfterGpoTranscript` | extrair_nfc_limpo.py:164-194 | whatever the status, the script gains the successful READ RECORDs and ends with the GENERATE AC, the last command sent, recorded under `80 AE 80 00` |
| `FlowLimpo.NoApplication` | extrair_nfc_limpo.py:141-146 | a directory without applications captures nothing after the one SELECT |
| `FlowLimpo.FirstApplicationSelected` | extrair_nfc_limpo.py:148-157 | the second command is the SELECT of the directory's first AID |
| `FlowLimpo.LimpoAssembleCapture` | extrair_nfc_limpo.py:195-254 | the method assembles the record the reference assembles |
| `FlowLimpo.LimpoFromGpo` | extrair_nfc_limpo.py:173-254 | the method, from the GPO reply on, sends and gives what the corrected session does |
| `FlowLimpo.LimpoFromSelect` | extrair_nfc_limpo.py:159-254 | the method, from the SELECT reply on, sends and gives what the corrected session does |
| `FlowLimpo.CaptureFirstApplication` | extrair_nfc_limpo.py:125-254 | the method gives the corrected session's outcome and exactly its commands |

## Left out

- Reader discovery and connection (`readers`, `createConnection`, `connect`,
  `wait_for_card` with its retries and `time.sleep`): hardware and timing. A session
  starts on a connected card.
- `transmit` is total: the oracle always answers. Transport errors and timeouts are
  not modelled, nor what the reader library does with a command element above 255
  (a length computed with `len` over 255 bytes); the model sends it and records its
  low byte.
- `TlvEncode.EncodeOfDecode` proves decode-then-re-encode only for inputs laid out as
  primitive short-form fields with distinct tags. It cannot hold of this decoder in
  general: a long-form length is forgotten (`TlvEncode.LongFormForgotten`), a value
  cut short is kept as the remainder, and repeated tags, even interleaved with others,
  are merged into one entry at the first one's place.
- The `dumps` directory, the file name, `json.dump` and every `print`: output only.
- The first `get_processing_options` of extrair_nfc_limpo.py (lines 15-22): the second
  definition replaces it, so it is never called and is not modelled. It would send
  `80 A8 00 00 n+2 83 n <PDOL bytes> 00`. The command the script records
  (`FlowLimpo.LimpoRecordedGpo`, lines 165-169) is not this one either: its Lc is `n`.
- The `try` around `generate_arqc` in extrair_nfc_limpo.py: with a total oracle and
  constant hex text nothing inside it can raise, so the `except` is not modelled.
- `select_app`: neither script calls it. The `Apdu.Select` it builds is modelled.
- `Assembly.Prefix6`: the f-string of a sliced list uses a quoted-text `repr` of the
  decoded values. Python's escaping and the repr of non-text values beyond that are
  not modelled.
- The exception classes are those CPython raises on these inputs. Their messages are
  not modelled.
- `toBytes` is modelled as pairs of hex digits. A trailing odd digit is dropped and a
  pair that is not hex is an error; spaces are not accepted.

## Findings

| source | as written | input that shows it | evidently intended | confidence | as-written member | corrected member |
|---|---|---|---|---|---|---|
| extrair_nfc.py:238 | the GENERATE AC step records `gen_ac_apdu`, a name bound only inside `generate_arqc` (line 110), so it raises NameError | any card that answers `90 00` to the GPO, e.g. one that answers `90 00` to everything (`Flow.AcceptingCardDefeatsAsWritten`); `Flow.AsWrittenFailsOnAcceptedGpo` shows that only rejected GPOs survive | record the GENERATE AC command that was sent | high, not executed | `Flow.NfcApplicationAsWritten` | `Flow.NfcApplication` |
| extrair_nfc_limpo.py:244 | the name slices `track2` even when no record had a `57` in a `70`, and appends a stray `]` | no track 2 gives TypeError; track 2 "4761739001010119D..." gives "label_476173]" (`Assembly.LimpoNameAsWrittenDefects`) | `label_` plus the first six characters of track 2, or `label_notrack2`, as extrair_nfc.py names it | high, not executed | `Assembly.LimpoNameAsWritten` | `Assembly.Name` |
| extrair_nfc_limpo.py:165-171 | the script records a GPO rebuilt from the PDOL's own bytes, not the command sent with the fixed amount data | PDOL `9F6604`: recorded `80A80000038303 9F660400`, sent `80A800000B8309 9F0206000000000100 00` (`FlowLimpo.RecordedGpoDiffers`) | record the command that was sent | high, not executed | `FlowLimpo.LimpoRecordedGpo` | `Apdu.LimpoGpoCommand` |
