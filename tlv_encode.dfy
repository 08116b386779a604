/** Laying out primitive data objects in the short length form, and reading them back
    with the decoder. The tool writes such objects itself (the data of GET PROCESSING
    OPTIONS and of GENERATE AC), so the decoder's view of them is worth knowing. */
module TlvEncode {

  import opened Results
  import opened Bytes
  import opened Tlv
  import opened TlvFacts

  /** A primitive data object: its tag bytes and its value bytes. */
  datatype Field = Field(tag: seq<byte>, value: seq<byte>)

  /** A field that fits the short form: a well-formed tag whose first byte is
      primitive, and fewer than 128 value bytes. */
  predicate Short(f: Field)
  {
    ValidTag(f.tag) && !IsConstructed(f.tag[0]) && |f.value| < 128
  }

  predicate AllShort(fs: seq<Field>)
  {
    forall k :: 0 <= k < |fs| ==> Short(fs[k])
  }

  /** Tag, one length byte, value. */
  function EncodeField(f: Field): (s: seq<byte>)
    requires Short(f)
    ensures |s| == |f.tag| + 1 + |f.value|
  {
    f.tag + [|f.value|] + f.value
  }

  function Encode(fs: seq<Field>): seq<byte>
    requires AllShort(fs)
  {
    if fs == [] then [] else EncodeField(fs[0]) + Encode(fs[1..])
  }

  /** What the decoder is expected to make of a field: the hex of the tag as key and
      the hex of the value as text. */
  function AsEntry(f: Field): Entry
  {
    Entry(UpperHex(f.tag), Prim(UpperHex(f.value)))
  }

  function AsEntries(fs: seq<Field>): (es: seq<Entry>)
    ensures |es| == |fs|
    ensures forall k :: 0 <= k < |fs| ==> es[k] == AsEntry(fs[k])
  {
    if fs == [] then [] else [AsEntry(fs[0])] + AsEntries(fs[1..])
  }

  /** The decoder reads an encoded field back as its entry, and resumes right after it. */
  lemma {:induction false} FirstItemOfField(f: Field, rest: seq<byte>)
    requires Short(f)
    ensures FirstItem(EncodeField(f) + rest) == Ok((AsEntry(f), |EncodeField(f)|))
  {
    var t, n := f.tag, |f.value|;
    var s := EncodeField(f) + rest;
    var tail := [n] + f.value + rest;
    assert s == t + tail;
    TagSizeOfValidTag(t, tail);
    assert s[|t|] == n;
    var h := Header(t, n, |t| + 1);
    assert ReadHeader(s) == Ok(h);
    assert ValueEnd(s, h) == |t| + 1 + n;
    assert s[|t| + 1..|t| + 1 + n] == f.value;
    assert s[0] == t[0];
    TagKeyIsHex(t);
  }

  /** Reading a list of encoded fields gives their entries, in order. */
  lemma {:induction false} DecodeItemsOfEncode(fs: seq<Field>)
    requires AllShort(fs)
    ensures DecodeItems(Encode(fs)) == Ok(AsEntries(fs))
  {
    if fs != [] {
      var head := EncodeField(fs[0]);
      var rest := Encode(fs[1..]);
      var s := head + rest;
      assert AllShort(fs[1..]) by {
        forall k | 0 <= k < |fs[1..]| ensures Short(fs[1..][k]) {
          assert fs[1..][k] == fs[k + 1];
        }
      }
      FirstItemOfField(fs[0], rest);
      assert s[|head|..] == rest;
      DecodeItemsOfEncode(fs[1..]);
      assert s != [] by { assert |s| >= |head| > 0; }
      DecodeItemsCons(s, AsEntry(fs[0]), |head|);
    }
  }

  /** Inserting keys that are all new appends them in order. */
  lemma {:induction false} InsertAllFresh(acc: seq<Entry>, items: seq<Entry>)
    requires Distinct(Keys(acc + items))
    ensures InsertAll(acc, items) == acc + items
    decreases |items|
  {
    if items == [] {
      assert acc + [] == acc;
    } else {
      var x := items[0];
      var ks := Keys(acc + items);
      assert forall j :: 0 <= j < |acc| ==> acc[j].key != x.key by {
        forall j | 0 <= j < |acc| ensures acc[j].key != x.key {
          assert ks[j] == acc[j].key && ks[|acc|] == x.key;
        }
      }
      assert IndexOf(acc, x.key) == |acc|;
      assert Insert(acc, x.key, x.val) == acc + [x];
      assert (acc + [x]) + items[1..] == acc + items;
      InsertAllFresh(acc + [x], items[1..]);
    }
  }

  /** Fields with pairwise distinct tags decode to exactly their entries: no entry is
      merged into a list, and the order is the order of the fields. */
  lemma DecodeOfEncode(fs: seq<Field>)
    requires AllShort(fs)
    requires Distinct(Keys(AsEntries(fs)))
    ensures Decode(Encode(fs)) == Ok(AsEntries(fs))
  {
    DecodeItemsOfEncode(fs);
    assert [] + AsEntries(fs) == AsEntries(fs);
    InsertAllFresh([], AsEntries(fs));
  }

  /** The primitive short-form field an input starts with, if it starts with one,
      and where it ends. */
  function FieldAt(s: seq<byte>): (r: Option<(Field, nat)>)
    requires s != []
    ensures r.Some? ==> 0 < r.value.1 <= |s|
  {
    match TagSize(s)
    case Err(_) => None
    case Ok(t) =>
      if t < |s| && !IsConstructed(s[0]) && s[t] < 128 && t + 1 + s[t] <= |s| then
        Some((Field(s[..t], s[t + 1..t + 1 + s[t]]), t + 1 + s[t]))
      else None
  }

  /** Reads an input as primitive short-form fields laid end to end, when it is one:
      each tag well-formed and primitive, each length byte below 0x80, each value
      complete. Anything else (a constructed tag, a long-form length, a value cut
      short, a broken tag) gives nothing. */
  function Fields(s: seq<byte>): Option<seq<Field>>
    decreases |s|
  {
    if s == [] then Some([])
    else
      match FieldAt(s)
      case None => None
      case Some((f, e)) =>
        match Fields(s[e..])
        case None => None
        case Some(rest) => Some([f] + rest)
  }

  /** The field an entry stands for: the bytes of its key as tag and the bytes of its
      text as value; a mapping, a list or text that is not hex stands for none. */
  function EntryField(e: Entry): Option<Field>
  {
    if !e.val.Prim? then None
    else
      match (FromHex(e.key), FromHex(e.val.text))
      case (Some(t), Some(v)) => Some(Field(t, v))
      case _ => None
  }

  /** Re-encodes decoded entries as short-form primitive fields, when each entry
      stands for one. */
  function Reencode(es: seq<Entry>): Option<seq<byte>>
  {
    if es == [] then Some([])
    else
      match EntryField(es[0])
      case None => None
      case Some(f) =>
        if Short(f) then
          match Reencode(es[1..])
          case None => None
          case Some(rest) => Some(EncodeField(f) + rest)
        else None
  }

  /** An input cut after a tag of `t` bytes and a value of `n` bytes. */
  lemma Layout(s: seq<byte>, t: nat, n: nat)
    requires t + 1 + n <= |s| && s[t] == n
    ensures s == Field(s[..t], s[t + 1..t + 1 + n]).tag + [n] + s[t + 1..t + 1 + n] + s[t + 1 + n..]
  {
    assert s == s[..t] + s[t..];
    assert s[t..] == [n] + s[t + 1..];
    assert s[t + 1..] == s[t + 1..t + 1 + n] + s[t + 1 + n..];
  }

  /** The field an input starts with is short, and the input is its encoding
      followed by the rest. */
  lemma FieldAtEncodes(s: seq<byte>)
    requires s != [] && FieldAt(s).Some?
    ensures var (f, e) := FieldAt(s).value;
      Short(f) && s == EncodeField(f) + s[e..]
  {
    var t := TagSize(s).value;
    TagSizeSpec(s);
    Layout(s, t, s[t]);
  }

  /** Laying one more short field in front. */
  lemma EncodeCons(f: Field, fs: seq<Field>)
    requires Short(f) && AllShort(fs)
    ensures AllShort([f] + fs) && Encode([f] + fs) == EncodeField(f) + Encode(fs)
  {
    var all := [f] + fs;
    forall k | 0 <= k < |all| ensures Short(all[k]) {
      if k > 0 { assert all[k] == fs[k - 1]; }
    }
    assert all[1..] == fs;
  }

  /** An input read as fields is the encoding of those fields. */
  lemma {:induction false} FieldsEncode(s: seq<byte>)
    requires Fields(s).Some?
    ensures AllShort(Fields(s).value) && Encode(Fields(s).value) == s
    decreases |s|
  {
    if s != [] {
      var (f, e) := FieldAt(s).value;
      FieldAtEncodes(s);
      FieldsEncode(s[e..]);
      EncodeCons(f, Fields(s[e..]).value);
    }
  }

  /** The entries of fields re-encode as those fields. */
  lemma {:induction false} ReencodeAsEntries(fs: seq<Field>)
    requires AllShort(fs)
    ensures Reencode(AsEntries(fs)) == Some(Encode(fs))
  {
    if fs != [] {
      var es := AsEntries(fs);
      FromUpperHex(fs[0].tag);
      FromUpperHex(fs[0].value);
      assert EntryField(es[0]) == Some(fs[0]);
      assert AllShort(fs[1..]) by {
        forall k | 0 <= k < |fs[1..]| ensures Short(fs[1..][k]) {
          assert fs[1..][k] == fs[k + 1];
        }
      }
      assert es[1..] == AsEntries(fs[1..]);
      ReencodeAsEntries(fs[1..]);
    }
  }

  /** The converse round trip: an input made of primitive short-form fields with
      pairwise distinct tags decodes, and its entries re-encode to the input. */
  lemma EncodeOfDecode(s: seq<byte>)
    requires Fields(s).Some? && Distinct(Keys(AsEntries(Fields(s).value)))
    ensures Decode(s).Ok? && Reencode(Decode(s).value) == Some(s)
  {
    var fs := Fields(s).value;
    FieldsEncode(s);
    DecodeOfEncode(fs);
    ReencodeAsEntries(fs);
  }

  /** The header of `5A 81 01 ...`: tag `5A`, a long-form length of 1, the value at
      index 3. */
  lemma LongFormHeader(s: seq<byte>)
    requires |s| == 4 && s[0] == 0x5A && s[1] == 0x81 && s[2] == 0x01
    ensures TagSize(s) == Ok(1)
    ensures ReadHeader(s) == Ok(Header([0x5A], 1, 3))
  {
    assert TagSize(s) == Ok(1);
    assert s[..1] == [0x5A];
    assert s[2..3] == [] + [0x01];
    BigEndianSnoc([], 0x01);
  }

  /** `5A 81 01 v` reads as the single item `5A` with the one-byte value `v`. */
  lemma LongFormItems(s: seq<byte>, v: byte)
    requires |s| == 4 && s[0] == 0x5A && s[1] == 0x81 && s[2] == 0x01 && s[3] == v
    ensures TagSize(s) == Ok(1)
    ensures DecodeItems(s) == Ok([AsEntry(Field([0x5A], [v]))])
  {
    var h := Header([0x5A], 1, 3);
    var e := AsEntry(Field([0x5A], [v]));
    LongFormHeader(s);
    FirstItemOfPrimitive(s, h);
    assert ValueEnd(s, h) == 4 && s[3..4] == [v];
    TagExample5A();
    var k := UpperHex([0x5A]);
    assert k[0] == '5' && k[1] == 'A';
    assert k == "5A";
    assert FirstItem(s) == Ok((e, 4));
    assert s[4..] == [];
    DecodeItemsCons(s, e, 4);
    assert [e] + [] == [e];
  }

  /** `5A 01 v` is the encoding of the one field `5A` = `v`. */
  lemma OneShortField(v: byte)
    ensures AllShort([Field([0x5A], [v])])
    ensures Encode([Field([0x5A], [v])]) == [0x5A, 0x01, v]
    ensures AsEntries([Field([0x5A], [v])]) == [AsEntry(Field([0x5A], [v]))]
  {
    var f := Field([0x5A], [v]);
    assert Short(f);
    assert [f][1..] == [];
  }

  /** The converse does not reach every input that decodes: a long-form length is
      read like the short form it stands for, so `5A 81 01 v`, which is not laid out
      as short fields, decodes as `5A 01 v` does and re-encodes to that shorter input. */
  lemma LongFormForgotten(s: seq<byte>, v: byte)
    requires |s| == 4 && s[0] == 0x5A && s[1] == 0x81 && s[2] == 0x01 && s[3] == v
    ensures Fields(s).None?
    ensures Decode(s) == Decode([0x5A, 0x01, v])
    ensures Decode(s).Ok? && Reencode(Decode(s).value) == Some([0x5A, 0x01, v])
  {
    var f := Field([0x5A], [v]);
    LongFormItems(s, v);
    OneShortField(v);
    DecodeItemsOfEncode([f]);
    DecodeOfEncode([f]);
    ReencodeAsEntries([f]);
  }
}
