/** The BER-TLV decoder `parse_tlv` (identical in extrair_nfc.py and extrair_nfc_limpo.py):
    tag and length rules of ITU-T X.690 sections 8.1.2 and 8.1.3 as profiled by EMV 4.3
    Book 3 Annex B, recursion into constructed tags, and the duplicate-tag rule that
    turns a repeated tag at one level into a list.

    The specification is split in two: `DecodeItems` reads the sibling TLVs of a byte
    string one after the other (recursing into constructed values), and `Group` folds
    them into the ordered mapping one dictionary insertion at a time. `ParseTlv` is the
    loop of the source, proved equal to `Decode`. */
module Tlv {

  import opened Results
  import opened Bytes

  /** A decoded value: the upper-case hex of a primitive value, the ordered mapping of a
      constructed value, or the list that a repeated tag becomes. Python dictionaries
      keep insertion order, so a mapping is an ordered association list. */
  datatype Value = Prim(text: string) | Cons(entries: seq<Entry>) | Many(items: seq<Value>)

  datatype Entry = Entry(key: string, val: Value)

  // ---------------------------------------------------------------------------
  // Bits of the first tag byte and of the first length byte

  /** `tag & 0x1F == 0x1F`: the tag number continues in the following bytes. */
  predicate IsMultiByteTag(first: byte) { first % 32 == 31 }

  /** `first_byte & 0x20`: the value is itself a sequence of TLVs. */
  predicate IsConstructed(first: byte) { (first / 32) % 2 == 1 }

  /** `b & 0x80`: a continuation tag byte, or a long-form length byte. */
  predicate HighBit(b: byte) { b >= 0x80 }

  /** The tag bytes that the decoder accepts: one byte, or a first byte with the low
      five bits set, any number of bytes with bit 0x80 set, and one terminator. */
  predicate ValidTag(t: seq<byte>)
  {
    && |t| >= 1
    && (if IsMultiByteTag(t[0])
        then |t| >= 2 && !HighBit(t[|t| - 1]) && forall k :: 1 <= k < |t| - 1 ==> HighBit(t[k])
        else |t| == 1)
  }

  // ---------------------------------------------------------------------------
  // Header reading on the remaining input `s`

  /** Index of the first byte at or after `j` whose bit 0x80 is clear (or `|s|`). */
  function ContEnd(s: seq<byte>, j: nat): (e: nat)
    requires j <= |s|
    ensures j <= e <= |s|
    decreases |s| - j
  {
    if j == |s| || !HighBit(s[j]) then j else ContEnd(s, j + 1)
  }

  /** Every byte that `ContEnd` skips has bit 0x80 set, and the byte it stops at (if
      any) does not. */
  lemma {:induction false} ContEndSpec(s: seq<byte>, j: nat)
    requires j <= |s|
    ensures forall k :: j <= k < ContEnd(s, j) ==> HighBit(s[k])
    ensures ContEnd(s, j) < |s| ==> !HighBit(s[ContEnd(s, j)])
    decreases |s| - j
  {
    if j < |s| && HighBit(s[j]) {
      ContEndSpec(s, j + 1);
    }
  }

  /** Number of tag bytes at the front of `s`; running out before the terminator is
      the `IndexError` of `data[i]` after the continuation loop. */
  function TagSize(s: seq<byte>): (r: Result<nat>)
    requires |s| > 0
    ensures r.Ok? ==> 1 <= r.value <= |s|
  {
    if !IsMultiByteTag(s[0]) then Ok(1)
    else
      var e := ContEnd(s, 1);
      if e == |s| then Err(IndexError) else Ok(e + 1)
  }

  /** The tag bytes read are a well-formed tag, and reading fails exactly when a
      multi-byte tag runs to the end of the input. */
  lemma TagSizeSpec(s: seq<byte>)
    requires |s| > 0
    ensures TagSize(s).Ok? ==> ValidTag(s[..TagSize(s).value])
    ensures TagSize(s).Err? <==> IsMultiByteTag(s[0]) && ContEnd(s, 1) == |s|
  {
    if IsMultiByteTag(s[0]) && TagSize(s).Ok? {
      ContEndSpec(s, 1);
      var t := s[..TagSize(s).value];
      assert forall k :: 1 <= k < |t| - 1 ==> HighBit(t[k]) by {
        forall k | 1 <= k < |t| - 1 ensures HighBit(t[k]) {
          assert t[k] == s[k];
        }
      }
      assert t[|t| - 1] == s[ContEnd(s, 1)];
    }
  }

  /** The tag bytes, the decoded length, and where the value starts. */
  datatype Header = Header(tag: seq<byte>, length: nat, valueStart: nat)

  /** Reads the tag and the length of the first TLV of `s`. A length byte below 0x80 is
      the length; otherwise its low seven bits count the big-endian length bytes that
      follow. Running out of input in the tag or the length bytes is an `IndexError`. */
  function ReadHeader(s: seq<byte>): (r: Result<Header>)
    requires |s| > 0
    ensures r.Ok? ==> 2 <= r.value.valueStart <= |s|
    ensures r.Err? ==> r.failure == IndexError
  {
    var t :- TagSize(s);
    if t == |s| then Err(IndexError)
    else if !HighBit(s[t]) then Ok(Header(s[..t], s[t], t + 1))
    else
      var n := s[t] % 128;
      if t + 1 + n > |s| then Err(IndexError)
      else Ok(Header(s[..t], BigEndian(s[t + 1..t + 1 + n]), t + 1 + n))
  }

  /** What a header is: a well-formed tag at the front of the input, then the short or
      the long form of the length; and reading fails exactly when the tag runs out,
      nothing follows it, or the long form counts more bytes than there are. */
  lemma ReadHeaderSpec(s: seq<byte>)
    requires |s| > 0
    ensures var r := ReadHeader(s);
      r.Ok? ==>
      var t := |r.value.tag|;
      && t < |s|
      && r.value.tag == s[..t] && ValidTag(r.value.tag)
      && (!HighBit(s[t]) ==> r.value.length == s[t] && r.value.valueStart == t + 1)
      && (HighBit(s[t]) ==>
            && r.value.valueStart == t + 1 + s[t] % 128 <= |s|
            && r.value.length == BigEndian(s[t + 1..r.value.valueStart]))
    ensures ReadHeader(s).Err? <==>
      || TagSize(s).Err?
      || (TagSize(s).Ok? && TagSize(s).value == |s|)
      || (TagSize(s).Ok? && TagSize(s).value < |s| && HighBit(s[TagSize(s).value])
          && TagSize(s).value + 1 + s[TagSize(s).value] % 128 > |s|)
  {
    TagSizeSpec(s);
  }

  /** End of the value region: `data[i:i + length]` stops at the end of the input. */
  function ValueEnd(s: seq<byte>, h: Header): (e: nat)
    requires h.valueStart <= |s|
    ensures h.valueStart <= e <= |s|
  {
    Min(h.valueStart + h.length, |s|)
  }

  /** The dictionary key of a tag number: `f"{tag:02X}"` up to 0xFF, else `f"{tag:04X}"`. */
  function TagKey(tag: nat): string
  {
    if tag <= 0xFF then PadLeft(NatHex(tag), 2) else PadLeft(NatHex(tag), 4)
  }

  // ---------------------------------------------------------------------------
  // The specification of the decoder

  /** The first TLV of `s`, its value decoded (recursively when the first tag byte is
      constructed, as upper-case hex otherwise), and where the next sibling starts. */
  function FirstItem(s: seq<byte>): (r: Result<(Entry, nat)>)
    requires s != []
    ensures r.Ok? ==> 2 <= r.value.1 <= |s|
    decreases |s|, 0
  {
    var h :- ReadHeader(s);
    var e := ValueEnd(s, h);
    var v :- DecodeValue(s[0], s[h.valueStart..e]);
    Ok((Entry(TagKey(BigEndian(h.tag)), v), e))
  }

  /** The sibling TLVs of `s`, in encounter order. */
  function DecodeItems(s: seq<byte>): Result<seq<Entry>>
    decreases |s|, 1
  {
    if s == [] then Ok([])
    else
      var first :- FirstItem(s);
      var rest :- DecodeItems(s[first.1..]);
      Ok([first.0] + rest)
  }

  function DecodeValue(first: byte, content: seq<byte>): Result<Value>
    decreases |content|, 3
  {
    if IsConstructed(first) then
      var es :- Decode(content);
      Ok(Cons(es))
    else Ok(Prim(UpperHex(content)))
  }

  /** `parse_tlv(data)`: the ordered mapping. */
  function Decode(s: seq<byte>): Result<seq<Entry>>
    decreases |s|, 2
  {
    var items :- DecodeItems(s);
    Ok(Group(items))
  }

  // ---------------------------------------------------------------------------
  // Insertion into the ordered mapping (the duplicate rule)

  function Keys(es: seq<Entry>): (ks: seq<string>)
    ensures |ks| == |es|
    ensures forall k :: 0 <= k < |es| ==> ks[k] == es[k].key
  {
    if es == [] then [] else [es[0].key] + Keys(es[1..])
  }

  /** Position of key `k` in `es`, or `|es|` when absent. */
  function IndexOf(es: seq<Entry>, k: string): (i: nat)
    ensures i <= |es|
    ensures i < |es| ==> es[i].key == k
    ensures forall j :: 0 <= j < i ==> es[j].key != k
  {
    if es == [] then 0 else if es[0].key == k then 0 else 1 + IndexOf(es[1..], k)
  }

  /** `result[tag_hex] = parsed_value` with the duplicate rule: a new key is appended;
      an existing list gets the value appended; any other existing value becomes a
      two-element list. The key keeps its first position. */
  function Insert(acc: seq<Entry>, k: string, v: Value): seq<Entry>
  {
    var i := IndexOf(acc, k);
    if i == |acc| then acc + [Entry(k, v)]
    else acc[i := Entry(k, Merge(acc[i].val, v))]
  }

  /** What a key already present holds once `v` arrives: a list grows by `v`, any
      other value becomes the two-element list of the old value and `v`. */
  function Merge(prev: Value, v: Value): Value
  {
    match prev
    case Many(vs) => Many(vs + [v])
    case single => Many([single, v])
  }

  function InsertAll(acc: seq<Entry>, items: seq<Entry>): seq<Entry>
    decreases |items|
  {
    if items == [] then acc else InsertAll(Insert(acc, items[0].key, items[0].val), items[1..])
  }

  function Group(items: seq<Entry>): seq<Entry>
  {
    InsertAll([], items)
  }

  /** What is left of the decoding once the mapping `acc` has been built and `r` is
      the outcome of reading the rest of the input. */
  function Resume(acc: seq<Entry>, r: Result<seq<Entry>>): Result<seq<Entry>>
  {
    match r
    case Err(f) => Err(f)
    case Ok(items) => Ok(InsertAll(acc, items))
  }

  // ---------------------------------------------------------------------------
  // The decoder as the source writes it

  /** The tag part of the loop body: the first byte and, for a multi-byte tag, the
      continuation bytes and the terminator, accumulated big-endian. */
  method ReadTagAt(data: seq<byte>, start: nat) returns (r: Result<nat>, next: nat)
    requires start < |data|
    ensures r.Err? <==> TagSize(data[start..]).Err?
    ensures r.Err? ==> r.failure == IndexError
    ensures r.Ok? ==> start < next <= |data| && TagSize(data[start..]) == Ok(next - start)
                      && r.value == BigEndian(data[start..next])
  {
    ghost var s := data[start..];
    var i := start;
    var tag: nat := data[i];
    i := i + 1;
    if IsMultiByteTag(data[start]) {
      while i < |data| && HighBit(data[i])
        invariant start < i <= |data|
        invariant ContEnd(s, 1) == ContEnd(s, i - start)
        invariant tag == BigEndian(data[start..i])
        decreases |data| - i
      {
        assert data[start..i + 1] == data[start..i] + [data[i]];
        BigEndianSnoc(data[start..i], data[i]);
        tag := tag * 256 + data[i];
        i := i + 1;
      }
      if i >= |data| {
        return Err(IndexError), i;
      }
      assert data[start..i + 1] == data[start..i] + [data[i]];
      BigEndianSnoc(data[start..i], data[i]);
      tag := tag * 256 + data[i];
      i := i + 1;
    } else {
      assert data[start..i] == [] + [data[start]];
      BigEndianSnoc([], data[start]);
    }
    return Ok(tag), i;
  }

  /** The length part of the loop body: one length byte, and for the long form the
      big-endian length bytes it counts. */
  method ReadLengthAt(data: seq<byte>, t: nat) returns (r: Result<nat>, next: nat)
    requires t <= |data|
    ensures r.Err? <==> t == |data| || (HighBit(data[t]) && t + 1 + data[t] % 128 > |data|)
    ensures r.Err? ==> r.failure == IndexError
    ensures r.Ok? ==> t < |data| && next <= |data|
    ensures r.Ok? && !HighBit(data[t]) ==> r.value == data[t] && next == t + 1
    ensures r.Ok? && HighBit(data[t]) ==> next == t + 1 + data[t] % 128 && r.value == BigEndian(data[t + 1..next])
  {
    if t >= |data| {
      return Err(IndexError), t;
    }
    var i := t;
    var length: nat := data[i];
    i := i + 1;
    if HighBit(length) {
      var count := length % 128;
      length := 0;
      for k := 0 to count
        invariant i == t + 1 + k <= |data|
        invariant length == BigEndian(data[t + 1..i])
      {
        if i >= |data| {
          return Err(IndexError), i;
        }
        assert data[t + 1..i + 1] == data[t + 1..i] + [data[i]];
        BigEndianSnoc(data[t + 1..i], data[i]);
        length := length * 256 + data[i];
        i := i + 1;
      }
    }
    return Ok(length), i;
  }

  /** The header that `ReadTagAt` and `ReadLengthAt` read at `start` is `ReadHeader`'s. */
  lemma HeaderAt(data: seq<byte>, start: nat, afterTag: nat, afterLength: nat, length: nat)
    requires start < afterTag <= |data| && TagSize(data[start..]) == Ok(afterTag - start)
    requires afterTag < |data| && afterLength <= |data|
    requires !HighBit(data[afterTag]) ==> length == data[afterTag] && afterLength == afterTag + 1
    requires HighBit(data[afterTag]) ==>
      afterLength == afterTag + 1 + data[afterTag] % 128 && length == BigEndian(data[afterTag + 1..afterLength])
    ensures ReadHeader(data[start..]) == Ok(Header(data[start..afterTag], length, afterLength - start))
  {
    var s := data[start..];
    var t := afterTag - start;
    assert s[..t] == data[start..afterTag];
    assert s[t] == data[afterTag];
    if HighBit(data[afterTag]) {
      assert s[t + 1..afterLength - start] == data[afterTag + 1..afterLength];
    }
  }

  /** The length reading fails exactly when `ReadHeader` does, once the tag is read. */
  lemma HeaderFailsAt(data: seq<byte>, start: nat, afterTag: nat)
    requires start < afterTag <= |data| && TagSize(data[start..]) == Ok(afterTag - start)
    requires afterTag == |data| || (HighBit(data[afterTag]) && afterTag + 1 + data[afterTag] % 128 > |data|)
    ensures ReadHeader(data[start..]).Err?
  {
    var s := data[start..];
    var t := afterTag - start;
    if afterTag < |data| {
      assert s[t] == data[afterTag];
    }
  }

  /** One turn of the loop: decoding the rest of the input after `acc` has been built
      is decoding the first value, inserting it, and decoding what follows it. */
  lemma ResumeStep(acc: seq<Entry>, s: seq<byte>, item: Entry, e: nat)
    requires s != [] && FirstItem(s) == Ok((item, e))
    ensures Resume(acc, DecodeItems(s)) == Resume(Insert(acc, item.key, item.val), DecodeItems(s[e..]))
  {
    match DecodeItems(s[e..])
    case Err(f) =>
    case Ok(rest) =>
      assert DecodeItems(s) == Ok([item] + rest);
      assert ([item] + rest)[1..] == rest;
  }

  /** A first item that cannot be read ends the decoding with its failure. */
  lemma ResumeFails(acc: seq<Entry>, s: seq<byte>, f: Failure)
    requires s != [] && FirstItem(s) == Err(f)
    ensures Resume(acc, DecodeItems(s)) == Err(f)
  {
  }

  /** The header part of the loop body: the tag, then the length. Returns the key,
      the index where the value starts and the length. */
  method ReadItemAt(data: seq<byte>, start: nat) returns (r: Result<(string, nat, nat)>)
    requires start < |data|
    ensures r.Err? ==> ReadHeader(data[start..]) == Err(r.failure)
    ensures r.Ok? ==>
      && ReadHeader(data[start..]).Ok?
      && var h := ReadHeader(data[start..]).value;
         r.value == (TagKey(BigEndian(h.tag)), start + h.valueStart, h.length)
  {
    var tag, afterTag := ReadTagAt(data, start);
    if tag.Err? {
      return Err(tag.failure);
    }
    var length, afterLength := ReadLengthAt(data, afterTag);
    if length.Err? {
      HeaderFailsAt(data, start, afterTag);
      return Err(length.failure);
    }
    HeaderAt(data, start, afterTag, afterLength, length.value);
    return Ok((TagKey(tag.value), afterLength, length.value));
  }

  /** A value under a primitive tag is the hex of its bytes, whatever they are. */
  lemma PrimitiveValue(first: byte, content: seq<byte>)
    requires !IsConstructed(first)
    ensures DecodeValue(first, content) == Ok(Prim(UpperHex(content)))
  {
  }

  /** A value under a constructed tag is the mapping its bytes decode to. */
  lemma ConstructedValue(first: byte, content: seq<byte>)
    requires IsConstructed(first)
    ensures Decode(content).Ok? ==> DecodeValue(first, content) == Ok(Cons(Decode(content).value))
    ensures Decode(content).Err? ==> DecodeValue(first, content) == Err(Decode(content).failure)
  {
  }

  /** The first item at `start`, in the terms of the loop: the key, the index where the
      value starts, the length, and the outcome of decoding the value region. */
  lemma ItemAt(data: seq<byte>, start: nat, h: Header, valueStart: nat, length: nat, r: Result<Value>)
    requires start < |data| && ReadHeader(data[start..]) == Ok(h)
    requires valueStart == start + h.valueStart && length == h.length
    requires valueStart <= Min(valueStart + length, |data|)
    requires r == DecodeValue(data[start], data[valueStart..Min(valueStart + length, |data|)])
    ensures r.Ok? ==> FirstItem(data[start..]) == Ok((Entry(TagKey(BigEndian(h.tag)), r.value), Min(valueStart + length, |data|) - start))
    ensures r.Err? ==> FirstItem(data[start..]) == Err(r.failure)
  {
    var s := data[start..];
    var e := ValueEnd(s, h);
    assert Min(valueStart + length, |data|) == start + e;
    assert data[valueStart..start + e] == s[h.valueStart..e];
    assert s[0] == data[start];
    FirstItemOf(s, h, r);
  }

  /** `FirstItem` once the header is known: the entry under the tag's key, ending where
      the value region ends, or the failure of decoding that region. */
  lemma FirstItemOf(s: seq<byte>, h: Header, r: Result<Value>)
    requires s != [] && ReadHeader(s) == Ok(h)
    requires r == DecodeValue(s[0], s[h.valueStart..ValueEnd(s, h)])
    ensures r.Ok? ==> FirstItem(s) == Ok((Entry(TagKey(BigEndian(h.tag)), r.value), ValueEnd(s, h)))
    ensures r.Err? ==> FirstItem(s) == Err(r.failure)
  {
  }

  /** The value part of the loop body: a constructed value is parsed recursively, a
      primitive one becomes the hex of its bytes. */
  method ParseValue(first: byte, value: seq<byte>) returns (r: Result<Value>)
    ensures r == DecodeValue(first, value)
    decreases |value|, 2
  {
    if IsConstructed(first) {
      var sub := ParseTlv(value);
      ConstructedValue(first, value);
      if sub.Err? {
        return Err(sub.failure);
      }
      return Ok(Cons(sub.value));
    } else {
      PrimitiveValue(first, value);
      return Ok(Prim(UpperHex(value)));
    }
  }

  /** One turn of the loop of `parse_tlv` at index `start`: the header, the value region
      `data[i:i + length]`, its decoding, and the new index `i` (which may run past the
      end of the input). */
  method ParseItemAt(data: seq<byte>, start: nat) returns (r: Result<Entry>, next: nat)
    requires start < |data|
    ensures r.Err? ==> FirstItem(data[start..]) == Err(r.failure)
    ensures r.Ok? ==> start < next && FirstItem(data[start..]) == Ok((r.value, Min(next, |data|) - start))
    decreases |data| - start, 0
  {
    var item := ReadItemAt(data, start);
    if item.Err? {
      return Err(item.failure), start;
    }
    ghost var h := ReadHeader(data[start..]).value;
    var (key, valueStart, length) := item.value;
    var end := Min(valueStart + length, |data|);
    var parsed := ParseValue(data[start], data[valueStart..end]);
    ItemAt(data, start, h, valueStart, length, parsed);
    if parsed.Err? {
      return Err(parsed.failure), start;
    }
    return Ok(Entry(key, parsed.value)), valueStart + length;
  }

  /** The loop invariant of `parse_tlv` across one turn: inserting the item read at `i`
      and resuming after it decodes the same as resuming at `i`. */
  lemma LoopStep(data: seq<byte>, i: nat, acc: seq<Entry>, r: Result<Entry>, next: nat)
    requires i < |data|
    requires r.Err? ==> FirstItem(data[i..]) == Err(r.failure)
    requires r.Ok? ==> i < next && FirstItem(data[i..]) == Ok((r.value, Min(next, |data|) - i))
    ensures r.Err? ==> Resume(acc, DecodeItems(data[i..])) == Err(r.failure)
    ensures r.Ok? ==> Resume(acc, DecodeItems(data[i..]))
                      == Resume(Insert(acc, r.value.key, r.value.val), DecodeItems(data[Min(next, |data|)..]))
  {
    var s := data[i..];
    if r.Ok? {
      var e := Min(next, |data|) - i;
      ResumeStep(acc, s, r.value, e);
      assert data[Min(next, |data|)..] == s[e..];
    } else {
      ResumeFails(acc, s, r.failure);
    }
  }

  /** `parse_tlv`: a loop over the input index `i` that reads a tag, a length and a
      value, decodes constructed values recursively, and inserts into `result`. */
  method ParseTlv(data: seq<byte>) returns (r: Result<seq<Entry>>)
    ensures r == Decode(data)
    decreases |data|, 1
  {
    var i: nat := 0;
    var result: seq<Entry> := [];
    while i < |data|
      invariant Decode(data) == Resume(result, DecodeItems(data[Min(i, |data|)..]))
      decreases |data| - i
    {
      var item, next := ParseItemAt(data, i);
      LoopStep(data, i, result, item, next);
      if item.Err? {
        return Err(item.failure);
      }
      i := next;
      result := Insert(result, item.value.key, item.value.val);
    }
    assert data[Min(i, |data|)..] == [];
    return Ok(result);
  }
}
