/** Data Object Lists (EMV 4.3 Book 3 section 5.4): `parse_pdol` reads the
    (tag, length) pairs of the PDOL the card asks for, and `build_pdol_data` answers
    each pair with exactly `length` bytes taken from the terminal's defaults and cut or
    right-padded with zeros (extrair_nfc.py:116-152). */
module Dol {

  import opened Results
  import opened Bytes
  import opened Tlv
  import opened TlvFacts
  import opened Query

  /** One `(tag_hex, length)` pair. */
  datatype DolItem = DolItem(tag: string, length: byte)

  // ---------------------------------------------------------------------------
  // parse_pdol

  /** `acc` followed by the pairs of `r`, or the failure of `r`. */
  function PrependOk(acc: seq<DolItem>, r: Result<seq<DolItem>>): Result<seq<DolItem>>
  {
    match r
    case Err(f) => Err(f)
    case Ok(xs) => Ok(acc + xs)
  }

  /** The pairs read from `s`: the tag with the multi-byte rule of the TLV decoder,
      then one length byte. Running out of input inside a pair is an `IndexError`. */
  function DolItems(s: seq<byte>): (r: Result<seq<DolItem>>)
    ensures r.Err? ==> r.failure == IndexError
    decreases |s|
  {
    if s == [] then Ok([])
    else if TagSize(s).Err? then Err(IndexError)
    else
      var t := TagSize(s).value;
      if t == |s| then Err(IndexError)
      else PrependOk([DolItem(UpperHex(s[..t]), s[t])], DolItems(s[t + 1..]))
  }

  /** `parse_pdol(pdol)` on the value found under `9F38`. */
  function ParsePdolSpec(pdol: Value): Result<seq<DolItem>>
  {
    var bs :- ValueBytes(pdol);
    DolItems(bs)
  }

  /** The tag part of the loop body: `tag_bytes` grows by the continuation bytes and
      the terminator. */
  method ReadDolTagAt(bs: seq<byte>, start: nat) returns (r: Result<seq<byte>>, next: nat)
    requires start < |bs|
    ensures r.Err? <==> TagSize(bs[start..]).Err?
    ensures r.Err? ==> r.failure == IndexError
    ensures r.Ok? ==> start < next <= |bs| && TagSize(bs[start..]) == Ok(next - start) && r.value == bs[start..next]
  {
    ghost var s := bs[start..];
    var tagBytes := [bs[start]];
    var i := start + 1;
    if IsMultiByteTag(bs[start]) {
      while i < |bs| && HighBit(bs[i])
        invariant start < i <= |bs|
        invariant ContEnd(s, 1) == ContEnd(s, i - start)
        invariant tagBytes == bs[start..i]
        decreases |bs| - i
      {
        tagBytes := tagBytes + [bs[i]];
        i := i + 1;
      }
      if i >= |bs| {
        return Err(IndexError), i;
      }
      tagBytes := tagBytes + [bs[i]];
      i := i + 1;
    }
    return Ok(tagBytes), i;
  }

  /** One turn of the loop of `parse_pdol` on the rest `s` of the input. */
  lemma {:induction false} DolStep(acc: seq<DolItem>, s: seq<byte>)
    requires s != [] && TagSize(s).Ok? && TagSize(s).value < |s|
    ensures
      var t := TagSize(s).value;
      PrependOk(acc, DolItems(s)) == PrependOk(acc + [DolItem(UpperHex(s[..t]), s[t])], DolItems(s[t + 1..]))
  {
    var t := TagSize(s).value;
    var item := DolItem(UpperHex(s[..t]), s[t]);
    var r := DolItems(s[t + 1..]);
    if r.Ok? {
      assert DolItems(s) == Ok([item] + r.value);
      assert acc + ([item] + r.value) == (acc + [item]) + r.value;
    } else {
      assert DolItems(s) == Err(r.failure);
    }
  }

  /** The loop invariant survives one pair read at `i`, with its length at `end`: the
      pair is appended and reading goes on at `next`. */
  lemma {:induction false} DolAdvance(bs: seq<byte>, i: nat, end: nat, list: seq<DolItem>, item: DolItem, next: nat, list': seq<DolItem>)
    requires i < end < |bs| && TagSize(bs[i..]) == Ok(end - i)
    requires item == DolItem(UpperHex(bs[i..end]), bs[end])
    requires next == end + 1 && list' == list + [item]
    requires DolItems(bs) == PrependOk(list, DolItems(bs[i..]))
    ensures i < next <= |bs|
    ensures DolItems(bs) == PrependOk(list', DolItems(bs[next..]))
  {
    var s := bs[i..];
    DolStep(list, s);
    assert s[..end - i] == bs[i..end] && s[end - i] == bs[end];
    assert s[end - i + 1..] == bs[next..];
  }

  /** A tag cut short at `i` makes the whole list fail. */
  lemma DolTagFails(bs: seq<byte>, i: nat, list: seq<DolItem>)
    requires i < |bs| && TagSize(bs[i..]).Err?
    requires DolItems(bs) == PrependOk(list, DolItems(bs[i..]))
    ensures DolItems(bs) == Err(IndexError)
  {
  }

  /** A tag that ends the input, leaving no length byte, makes the whole list fail. */
  lemma DolLengthMissing(bs: seq<byte>, i: nat, end: nat, list: seq<DolItem>)
    requires i < |bs| <= end && TagSize(bs[i..]) == Ok(end - i)
    requires DolItems(bs) == PrependOk(list, DolItems(bs[i..]))
    ensures DolItems(bs) == Err(IndexError)
  {
    assert end - i == |bs[i..]|;
  }

  /** One turn of the loop of `parse_pdol` at `i`: either the pair read there is cut
      short and the whole list fails, or the pair is appended and reading goes on at
      `next`. */
  method ReadPairAt(bs: seq<byte>, i: nat, list: seq<DolItem>) returns (stop: bool, next: nat, list': seq<DolItem>)
    requires i < |bs|
    requires DolItems(bs) == PrependOk(list, DolItems(bs[i..]))
    ensures stop ==> DolItems(bs) == Err(IndexError)
    ensures !stop ==> i < next <= |bs| && DolItems(bs) == PrependOk(list', DolItems(bs[next..]))
  {
    var tag, end := ReadDolTagAt(bs, i);
    if tag.Err? {
      DolTagFails(bs, i, list);
      stop, next, list' := true, i, list;
    } else if end >= |bs| {
      DolLengthMissing(bs, i, end, list);
      stop, next, list' := true, i, list;
    } else {
      HexStringOfBytes(tag.value);
      var item := DolItem(HexString(tag.value), bs[end]);
      stop, next, list' := false, end + 1, list + [item];
      DolAdvance(bs, i, end, list, item, next, list');
    }
  }

  /** `parse_pdol` on the bytes of the PDOL: the index loop, appending one pair per
      turn. */
  method ParsePdolBytes(bs: seq<byte>) returns (r: Result<seq<DolItem>>)
    ensures r == DolItems(bs)
  {
    var i := 0;
    var list: seq<DolItem> := [];
    assert bs[0..] == bs;
    assert DolItems(bs).Ok? ==> [] + DolItems(bs).value == DolItems(bs).value;
    while i < |bs|
      invariant i <= |bs|
      invariant DolItems(bs) == PrependOk(list, DolItems(bs[i..]))
      decreases |bs| - i
    {
      var stop;
      stop, i, list := ReadPairAt(bs, i, list);
      if stop {
        return Err(IndexError);
      }
    }
    assert bs[i..] == [];
    assert list + [] == list;
    return Ok(list);
  }

  /** `parse_pdol(pdol_str)`, including `toBytes`. */
  method ParsePdol(pdol: Value) returns (r: Result<seq<DolItem>>)
    ensures r == ParsePdolSpec(pdol)
  {
    var bs := ValueBytes(pdol);
    if bs.Err? {
      return Err(bs.failure);
    }
    r := ParsePdolBytes(bs.value);
  }

  // ---------------------------------------------------------------------------
  // Laying out a DOL and reading it back

  /** A DOL as the card writes it: each tag's bytes, then its one-byte length. */
  function EncodeDol(ps: seq<(seq<byte>, byte)>): seq<byte>
  {
    if ps == [] then [] else ps[0].0 + [ps[0].1] + EncodeDol(ps[1..])
  }

  /** The pairs `parse_pdol` should read back: the hex of each tag and its length. */
  function Expected(ps: seq<(seq<byte>, byte)>): (r: seq<DolItem>)
    ensures |r| == |ps|
    ensures forall j :: 0 <= j < |ps| ==> r[j] == DolItem(UpperHex(ps[j].0), ps[j].1)
  {
    if ps == [] then [] else [DolItem(UpperHex(ps[0].0), ps[0].1)] + Expected(ps[1..])
  }

  /** Reading a laid-out DOL gives back every (tag, length) pair, in order. */
  lemma {:induction false} DolRoundTrip(ps: seq<(seq<byte>, byte)>)
    requires forall j :: 0 <= j < |ps| ==> ValidTag(ps[j].0)
    ensures DolItems(EncodeDol(ps)) == Ok(Expected(ps))
  {
    if ps != [] {
      var t := ps[0].0;
      var rest := EncodeDol(ps[1..]);
      var s := EncodeDol(ps);
      assert s == t + ([ps[0].1] + rest);
      TagSizeOfValidTag(t, [ps[0].1] + rest);
      assert s[|t|] == ps[0].1;
      assert s[|t| + 1..] == rest;
      assert forall j :: 0 <= j < |ps[1..]| ==> ps[1..][j] == ps[j + 1];
      DolRoundTrip(ps[1..]);
    }
  }

  /** The key `parse_pdol` gives a tag is the key `parse_tlv` gives it. */
  lemma DolTagIsTlvKey(s: seq<byte>)
    requires s != [] && TagSize(s).Ok?
    ensures UpperHex(s[..TagSize(s).value]) == TagKey(BigEndian(s[..TagSize(s).value]))
  {
    TagSizeSpec(s);
    TagKeyIsHex(s[..TagSize(s).value]);
  }

  // ---------------------------------------------------------------------------
  // build_pdol_data

  /** The terminal's answers: Terminal Risk Management Data (8 zero bytes), Terminal
      Country Code 0076, Terminal Type 22. */
  const TerminalDefaults: map<string, seq<byte>> :=
    map["9F1D" := Zeros(8), "9F1A" := [0x00, 0x76], "9F35" := [0x22]]

  /** A default cut to `n` bytes, or right-padded with zeros up to `n`. */
  function Fit(v: seq<byte>, n: nat): (r: seq<byte>)
    ensures |r| == n
    ensures forall k :: 0 <= k < n ==> r[k] == (if k < |v| then v[k] else 0)
    ensures |v| == n ==> r == v
  {
    if |v| < n then v + Zeros(n - |v|) else v[..n]
  }

  /** The bytes sent for one requested object: its default fitted to the requested
      length, or zeros for a tag the table `defaults` has no entry for. */
  function FieldValue(defaults: map<string, seq<byte>>, item: DolItem): (r: seq<byte>)
    ensures |r| == item.length
  {
    if item.tag in defaults then Fit(defaults[item.tag], item.length)
    else Zeros(item.length)
  }

  /** A tag the terminal has no default for is answered with zeros. */
  lemma UnknownTagZeros(item: DolItem)
    requires item.tag !in TerminalDefaults
    ensures FieldValue(TerminalDefaults, item) == Zeros(item.length)
    ensures forall k :: 0 <= k < item.length ==> FieldValue(TerminalDefaults, item)[k] == 0
  {
  }

  /** The `pdol_data` list after the loop over a prefix of the pairs. */
  function PdolData(defaults: map<string, seq<byte>>, items: seq<DolItem>): seq<byte>
  {
    if items == [] then [] else PdolData(defaults, items[..|items| - 1]) + FieldValue(defaults, items[|items| - 1])
  }

  /** `build_pdol_data(pdol_list)`: a loop that extends `pdol_data`. */
  method BuildPdolData(items: seq<DolItem>) returns (data: seq<byte>)
    ensures data == PdolData(TerminalDefaults, items)
  {
    data := [];
    for k := 0 to |items|
      invariant data == PdolData(TerminalDefaults, items[..k])
    {
      var item := items[k];
      var value: seq<byte>;
      if item.tag in TerminalDefaults {
        value := TerminalDefaults[item.tag];
        if |value| != item.length as int {
          value := if |value| < item.length as int then value[..Min(item.length, |value|)] + Zeros(item.length - |value|)
                   else value[..item.length];
        }
      } else {
        value := Zeros(item.length);
      }
      assert items[..k + 1][..k] == items[..k];
      data := data + value;
    }
    assert items[..|items|] == items;
  }

  /** The requested lengths added up. */
  function TotalLength(items: seq<DolItem>): nat
  {
    if items == [] then 0 else TotalLength(items[..|items| - 1]) + items[|items| - 1].length
  }

  /** Each pair contributes exactly its length: the data is as long as all the
      requested lengths together. */
  lemma {:induction false} PdolDataLength(defaults: map<string, seq<byte>>, items: seq<DolItem>)
    ensures |PdolData(defaults, items)| == TotalLength(items)
  {
    if items != [] {
      PdolDataLength(defaults, items[..|items| - 1]);
    }
  }

  /** `v` sits in `data` from position `offset` on. */
  predicate SitsAt(data: seq<byte>, offset: nat, v: seq<byte>)
  {
    offset + |v| <= |data| && data[offset..offset + |v|] == v
  }

  /** What sits in the first part of a concatenation sits in the whole. */
  lemma SitsAtAppendLeft(d: seq<byte>, v: seq<byte>, o: nat, w: seq<byte>)
    requires SitsAt(d, o, w)
    ensures SitsAt(d + v, o, w)
  {
    assert forall k :: o <= k < o + |w| ==> (d + v)[k] == d[k];
    assert (d + v)[o..o + |w|] == d[o..o + |w|];
  }

  /** The second part of a concatenation sits right after the first. */
  lemma SitsAtAppendRight(d: seq<byte>, v: seq<byte>)
    ensures SitsAt(d + v, |d|, v)
  {
    assert forall k :: 0 <= k < |v| ==> (d + v)[|d|..|d| + |v|][k] == v[k];
  }

  /** The bytes answering pair `j` sit right after those of the pairs before it. */
  lemma {:induction false} PdolDataSegment(defaults: map<string, seq<byte>>, items: seq<DolItem>, j: nat)
    requires j < |items|
    ensures SitsAt(PdolData(defaults, items), TotalLength(items[..j]), FieldValue(defaults, items[j]))
  {
    var n := |items|;
    var init := items[..n - 1];
    var d, v := PdolData(defaults, init), FieldValue(defaults, items[n - 1]);
    assert PdolData(defaults, items) == d + v;
    PdolDataLength(defaults, init);
    var o, w := TotalLength(items[..j]), FieldValue(defaults, items[j]);
    if j == n - 1 {
      assert items[..j] == init;
      assert o == |d| && w == v;
      SitsAtAppendRight(d, v);
    } else {
      assert init[..j] == items[..j] && init[j] == items[j];
      PdolDataSegment(defaults, init, j);
      SitsAtAppendLeft(d, v, o, w);
    }
  }

  /** The Terminal Country Code asked for with its own length is `00 76`. */
  lemma CountryCodeField()
    ensures FieldValue(TerminalDefaults, DolItem("9F1A", 2)) == [0x00, 0x76]
  {
  }

  /** A default shorter than asked is padded on the right with zeros; a longer one
      keeps its first bytes. */
  lemma DefaultFitted(item: DolItem)
    requires item.tag in TerminalDefaults
    ensures var v := TerminalDefaults[item.tag];
      && (|v| <= item.length ==> FieldValue(TerminalDefaults, item) == v + Zeros(item.length - |v|))
      && (|v| >= item.length ==> FieldValue(TerminalDefaults, item) == v[..item.length])
  {
    var v := TerminalDefaults[item.tag];
    var r := FieldValue(TerminalDefaults, item);
    if |v| <= item.length {
      assert r == v + Zeros(item.length - |v|);
    } else {
      assert r == v[..item.length];
    }
  }

  /** Answering a laid-out PDOL: the pairs read back are those that were laid out
      (`Expected` gives the hex of each tag and its length), the data is as long as the
      lengths the card asked for, and the answer to each pair is in its place. */
  lemma {:induction false} AnswerToLaidOutPdol(defaults: map<string, seq<byte>>, ps: seq<(seq<byte>, byte)>, j: nat)
    requires forall i :: 0 <= i < |ps| ==> ValidTag(ps[i].0)
    requires j < |ps|
    ensures DolItems(EncodeDol(ps)) == Ok(Expected(ps))
    ensures |PdolData(defaults, Expected(ps))| == TotalLength(Expected(ps))
    ensures SitsAt(PdolData(defaults, Expected(ps)), TotalLength(Expected(ps)[..j]), FieldValue(defaults, Expected(ps)[j]))
  {
    DolRoundTrip(ps);
    PdolDataLength(defaults, Expected(ps));
    PdolDataSegment(defaults, Expected(ps), j);
  }
}
