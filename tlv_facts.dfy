/** What `parse_tlv` promises, proved about its specification in module Tlv: the tag
    key format, the two length forms, the primitive/constructed rule, the truncation
    behaviour, and the duplicate rule stated against an independent reference
    (`GroupSpec`: distinct keys in first-occurrence order, each with all of its
    occurrences). */
module TlvFacts {

  import opened Results
  import opened Bytes
  import opened Tlv

  // ---------------------------------------------------------------------------
  // Tag keys

  /** The key of a tag is the upper-case hex of its bytes: two digits for a one-byte
      tag, and all the bytes of a multi-byte tag (at least four digits). */
  lemma TagKeyIsHex(t: seq<byte>)
    requires ValidTag(t)
    ensures TagKey(BigEndian(t)) == UpperHex(t)
    ensures |TagKey(BigEndian(t))| == 2 <==> |t| == 1
    ensures |t| > 1 ==> |TagKey(BigEndian(t))| >= 4
  {
    if |t| == 1 {
      OneByteTagKey(t[0]);
      assert t == [t[0]];
    } else {
      MultiByteTagKey(t);
    }
  }

  lemma OneByteTagKey(b: byte)
    ensures TagKey(BigEndian([b])) == UpperHex([b])
  {
    assert [b] == [] + [b];
    BigEndianSnoc([], b);
    assert BigEndian([b]) == b;
    assert TagKey(b) == Format02X(b);
    Format02XByte(b);
  }

  lemma MultiByteTagKey(t: seq<byte>)
    requires |t| >= 2 && t[0] >= 16
    ensures TagKey(BigEndian(t)) == UpperHex(t)
  {
    NatHexBigEndian(t);
    BigEndianOfTwoOrMore(t);
    var s := NatHex(BigEndian(t));
    assert |s| >= 4;
    assert TagKey(BigEndian(t)) == PadLeft(s, 4);
  }

  /** A valid tag followed by anything is read back as exactly that tag. */
  lemma {:induction false} TagSizeOfValidTag(t: seq<byte>, rest: seq<byte>)
    requires ValidTag(t)
    ensures TagSize(t + rest) == Ok(|t|)
    ensures (t + rest)[..|t|] == t
  {
    var s := t + rest;
    assert s[..|t|] == t;
    if IsMultiByteTag(t[0]) {
      assert forall k :: 1 <= k < |t| - 1 ==> HighBit(s[k]) by {
        assert forall k :: 0 <= k < |t| ==> s[k] == t[k];
      }
      ContEndStops(s, 1, |t| - 1);
    }
  }

  /** `ContEnd` from `j` stops at the first byte without bit 0x80. */
  lemma {:induction false} ContEndStops(s: seq<byte>, j: nat, e: nat)
    requires j <= e < |s|
    requires forall k :: j <= k < e ==> HighBit(s[k])
    requires !HighBit(s[e])
    ensures ContEnd(s, j) == e
    decreases e - j
  {
    if j < e {
      ContEndStops(s, j + 1, e);
    }
  }

  /** The key of the first TLV of `s` is the upper-case hex of its tag bytes, and its
      value is a mapping exactly when bit 0x20 of the first tag byte is set, the
      upper-case hex of the value bytes otherwise. */
  lemma FirstItemShape(s: seq<byte>)
    requires s != [] && FirstItem(s).Ok?
    ensures ReadHeader(s).Ok?
    ensures
      var h := ReadHeader(s).value;
      var item := FirstItem(s).value.0;
      var content := s[h.valueStart..ValueEnd(s, h)];
      && item.key == UpperHex(h.tag)
      && (IsConstructed(s[0]) ==> item.val.Cons? && Decode(content) == Ok(item.val.entries))
      && (!IsConstructed(s[0]) ==> item.val == Prim(UpperHex(content)))
  {
    ReadHeaderSpec(s);
    TagKeyIsHex(ReadHeader(s).value.tag);
  }

  // ---------------------------------------------------------------------------
  // Examples from the EMV data the tool reads

  /** `9F 38` is read as one two-byte tag with key "9F38". */
  lemma TagExample9F38()
    ensures TagSize([0x9F, 0x38, 0x00]) == Ok(2)
    ensures TagKey(BigEndian([0x9F, 0x38])) == "9F38"
  {
    TagSize9F38();
    TagKeyIsHex([0x9F, 0x38]);
    Hex9F38();
  }

  lemma TagSize9F38()
    ensures TagSize([0x9F, 0x38, 0x00]) == Ok(2)
  {
    var s: seq<byte> := [0x9F, 0x38, 0x00];
    assert IsMultiByteTag(s[0]);
    assert ContEnd(s, 1) == 1;
  }

  lemma Hex9F38()
    ensures UpperHex([0x9F, 0x38]) == "9F38"
  {
    assert UpperDigit(9) == '9' && UpperDigit(15) == 'F' && UpperDigit(3) == '3' && UpperDigit(8) == '8';
    var h := UpperHex([0x9F, 0x38]);
    assert h[0] == '9' && h[1] == 'F' && h[2] == '3' && h[3] == '8';
  }

  /** `5A` is a one-byte tag with key "5A". */
  lemma TagExample5A()
    ensures TagSize([0x5A, 0x00]) == Ok(1)
    ensures TagKey(BigEndian([0x5A])) == "5A"
  {
    TagKeyIsHex([0x5A]);
    assert UpperDigit(5) == '5' && UpperDigit(10) == 'A';
    var h := UpperHex([0x5A]);
    assert h[0] == '5' && h[1] == 'A';
  }

  /** Length `81 20` is the long form: one length byte, 32. */
  lemma LengthExampleLong()
    ensures ReadHeader([0x5A, 0x81, 0x20]) == Ok(Header([0x5A], 32, 3))
  {
    var s: seq<byte> := [0x5A, 0x81, 0x20];
    assert TagSize(s) == Ok(1);
    assert s[..1] == [0x5A];
    assert s[2..3] == [] + [0x20];
    BigEndianSnoc([], 0x20);
  }

  /** Length `25` is the short form, 37. */
  lemma LengthExampleShort()
    ensures ReadHeader([0x5A, 0x25]) == Ok(Header([0x5A], 37, 2))
  {
    var s: seq<byte> := [0x5A, 0x25];
    assert TagSize(s) == Ok(1);
    assert s[..1] == [0x5A];
  }

  /** Length `80` counts zero length bytes: the length is 0. */
  lemma LengthExampleZero()
    ensures ReadHeader([0x5A, 0x80]) == Ok(Header([0x5A], 0, 2))
  {
    var s: seq<byte> := [0x5A, 0x80];
    assert TagSize(s) == Ok(1);
    assert s[..1] == [0x5A];
    assert s[2..2] == [];
  }

  // ---------------------------------------------------------------------------
  // Truncation and errors

  /** When fewer bytes remain than the length asks for, the value is the shorter
      remainder and no sibling follows it. */
  lemma TruncatedValueIsLast(s: seq<byte>)
    requires s != [] && ReadHeader(s).Ok?
    requires ReadHeader(s).value.valueStart + ReadHeader(s).value.length >= |s|
    ensures FirstItem(s).Ok? ==> FirstItem(s).value.1 == |s|
    ensures FirstItem(s).Ok? ==> DecodeItems(s) == Ok([FirstItem(s).value.0])
  {
    var h := ReadHeader(s).value;
    assert ValueEnd(s, h) == |s|;
    if FirstItem(s).Ok? {
      var first := FirstItem(s).value;
      assert first.1 == |s|;
      assert s[first.1..] == [];
      assert DecodeItems(s[first.1..]) == Ok([]);
      assert [first.0] + [] == [first.0];
    }
  }

  /** Running out of input inside the tag or the length bytes makes the whole
      decoding fail with `IndexError`. */
  lemma TruncatedHeaderFails(s: seq<byte>)
    requires s != [] && ReadHeader(s).Err?
    ensures DecodeItems(s) == Err(IndexError)
    ensures Decode(s) == Err(IndexError)
  {
  }

  /** Every failure of the decoder is an `IndexError`, at any depth. */
  lemma {:induction false} DecodeFailsWithIndexError(s: seq<byte>)
    ensures DecodeItems(s).Err? ==> DecodeItems(s).failure == IndexError
    ensures Decode(s).Err? ==> Decode(s).failure == IndexError
    decreases |s|
  {
    if s != [] {
      var h := ReadHeader(s);
      if h.Ok? {
        var e := ValueEnd(s, h.value);
        var content := s[h.value.valueStart..e];
        DecodeFailsWithIndexError(content);
        assert DecodeValue(s[0], content).Err? ==> DecodeValue(s[0], content).failure == IndexError;
        assert FirstItem(s).Err? ==> FirstItem(s).failure == IndexError;
        if FirstItem(s).Ok? {
          DecodeFailsWithIndexError(s[FirstItem(s).value.1..]);
        }
      }
    }
  }

  // ---------------------------------------------------------------------------
  // The duplicate rule against a reference definition

  /** No value in the list is itself a list: decoded values are hex text or mappings. */
  predicate NoMany(items: seq<Entry>)
  {
    forall k :: 0 <= k < |items| ==> !items[k].val.Many?
  }

  /** A single TLV decodes to hex text or to a mapping, never to a list. */
  lemma FirstItemNotMany(s: seq<byte>)
    requires s != [] && FirstItem(s).Ok?
    ensures !FirstItem(s).value.0.val.Many?
  {
    var h := ReadHeader(s).value;
    var content := s[h.valueStart..ValueEnd(s, h)];
    assert DecodeValue(s[0], content).Ok?;
    assert !DecodeValue(s[0], content).value.Many?;
  }

  /** The decoder never produces a list for a single TLV; lists only come from `Group`. */
  lemma {:induction false} DecodeItemsNoMany(s: seq<byte>)
    requires DecodeItems(s).Ok?
    ensures NoMany(DecodeItems(s).value)
    decreases |s|
  {
    if s != [] {
      assert FirstItem(s).Ok?;
      var item, e := FirstItem(s).value.0, FirstItem(s).value.1;
      assert DecodeItems(s[e..]).Ok?;
      DecodeItemsNoMany(s[e..]);
      FirstItemNotMany(s);
      DecodeItemsCons(s, item, e);
      NoManyCons(item, DecodeItems(s[e..]).value);
    }
  }

  /** Putting an entry that holds no list in front keeps the property. */
  lemma NoManyCons(e: Entry, rest: seq<Entry>)
    requires !e.val.Many? && NoMany(rest)
    ensures NoMany([e] + rest)
  {
    assert forall k :: 1 <= k < 1 + |rest| ==> ([e] + rest)[k] == rest[k - 1];
  }

  /** Distinct keys in order of first occurrence. */
  function Dedup(ks: seq<string>): (d: seq<string>)
    ensures forall k :: k in d <==> k in ks
  {
    if ks == [] then []
    else
      var init := Dedup(ks[..|ks| - 1]);
      assert forall k :: k in ks <==> k in ks[..|ks| - 1] || k == ks[|ks| - 1] by {
        assert ks == ks[..|ks| - 1] + [ks[|ks| - 1]];
      }
      if ks[|ks| - 1] in init then init else init + [ks[|ks| - 1]]
  }

  predicate Distinct(ks: seq<string>)
  {
    forall i, j :: 0 <= i < j < |ks| ==> ks[i] != ks[j]
  }

  lemma {:induction false} DedupDistinct(ks: seq<string>)
    ensures Distinct(Dedup(ks))
  {
    if ks != [] {
      DedupDistinct(ks[..|ks| - 1]);
    }
  }

  /** The values of key `k`, in encounter order. */
  function Occurrences(items: seq<Entry>, k: string): seq<Value>
  {
    if items == [] then []
    else
      var last := items[|items| - 1];
      Occurrences(items[..|items| - 1], k) + (if last.key == k then [last.val] else [])
  }

  /** What one key maps to: its only value, or the list of all its values. */
  function Collect(vs: seq<Value>): Value
  {
    if |vs| == 1 then vs[0] else Many(vs)
  }

  /** The reference mapping: one entry per distinct key, in order of first occurrence,
      holding every value of that key in encounter order. */
  function GroupSpec(items: seq<Entry>): (g: seq<Entry>)
    ensures Keys(g) == Dedup(Keys(items))
  {
    var d := Dedup(Keys(items));
    var g := seq(|d|, j requires 0 <= j < |d| => Entry(d[j], Collect(Occurrences(items, d[j]))));
    assert Keys(g) == d;
    g
  }

  lemma {:induction false} OccurrencesEmpty(items: seq<Entry>, k: string)
    ensures Occurrences(items, k) == [] <==> k !in Keys(items)
  {
    if items != [] {
      var init, last := items[..|items| - 1], items[|items| - 1];
      OccurrencesEmpty(init, k);
      assert items == init + [last];
      KeysSnoc(init, last);
      var o, tail := Occurrences(init, k), if last.key == k then [last.val] else [];
      assert Occurrences(items, k) == o + tail;
      assert o + tail == [] <==> o == [] && tail == [];
      assert k in Keys(init) + [last.key] <==> k in Keys(init) || k == last.key;
    }
  }

  lemma {:induction false} OccurrencesNoMany(items: seq<Entry>, k: string)
    requires NoMany(items)
    ensures forall j :: 0 <= j < |Occurrences(items, k)| ==> !Occurrences(items, k)[j].Many?
  {
    if items != [] {
      OccurrencesNoMany(items[..|items| - 1], k);
    }
  }

  lemma {:induction false} InsertAllSnoc(acc: seq<Entry>, items: seq<Entry>, x: Entry)
    ensures InsertAll(acc, items + [x]) == Insert(InsertAll(acc, items), x.key, x.val)
    decreases |items|
  {
    if items == [] {
      assert [] + [x] == [x];
    } else {
      assert (items + [x])[0] == items[0];
      assert (items + [x])[1..] == items[1..] + [x];
      InsertAllSnoc(Insert(acc, items[0].key, items[0].val), items[1..], x);
    }
  }

  lemma KeysSnoc(p: seq<Entry>, x: Entry)
    ensures Keys(p + [x]) == Keys(p) + [x.key]
  {
  }

  lemma DedupSnoc(ks: seq<string>, k: string)
    ensures Dedup(ks + [k]) == if k in Dedup(ks) then Dedup(ks) else Dedup(ks) + [k]
  {
    assert (ks + [k])[..|ks|] == ks;
  }

  lemma OccurrencesSnoc(p: seq<Entry>, x: Entry, k: string)
    ensures Occurrences(p + [x], k) == Occurrences(p, k) + (if x.key == k then [x.val] else [])
  {
    assert (p + [x])[..|p|] == p;
  }

  lemma NoManyPrefix(p: seq<Entry>, x: Entry)
    requires NoMany(p + [x])
    ensures NoMany(p) && !x.val.Many?
  {
    assert forall j :: 0 <= j < |p| ==> p[j] == (p + [x])[j];
    assert (p + [x])[|p|] == x;
  }

  /** The entries of the reference, one position at a time. */
  lemma GroupSpecAt(items: seq<Entry>, j: nat)
    requires j < |Dedup(Keys(items))|
    ensures |GroupSpec(items)| == |Dedup(Keys(items))|
    ensures GroupSpec(items)[j] == Entry(Dedup(Keys(items))[j], Collect(Occurrences(items, Dedup(Keys(items))[j])))
  {
  }

  /** The position of a key that is present. */
  lemma IndexOfPresent(es: seq<Entry>, k: string)
    requires k in Keys(es)
    ensures IndexOf(es, k) < |es| && Keys(es)[IndexOf(es, k)] == k
  {
    var m :| 0 <= m < |es| && Keys(es)[m] == k;
    assert es[m].key == k;
  }

  /** A sequence that agrees with `s` everywhere and has one more element `e` is
      `s + [e]`. */
  lemma AppendIs(s: seq<Entry>, e: Entry, t: seq<Entry>)
    requires |t| == |s| + 1 && t[|s|] == e
    requires forall j :: 0 <= j < |s| ==> t[j] == s[j]
    ensures s + [e] == t
  {
  }

  /** A sequence that agrees with `s` everywhere but at `i`, where it holds `e`, is
      `s[i := e]`. */
  lemma UpdateIs(s: seq<Entry>, i: nat, e: Entry, t: seq<Entry>)
    requires i < |s| == |t| && t[i] == e
    requires forall j :: 0 <= j < |s| && j != i ==> t[j] == s[j]
    ensures s[i := e] == t
  {
  }

  /** A new key goes to the end of the key order. */
  lemma DedupOfNewKey(p: seq<Entry>, x: Entry)
    requires x.key !in Keys(p)
    ensures Dedup(Keys(p + [x])) == Dedup(Keys(p)) + [x.key]
    ensures forall j :: 0 <= j < |Dedup(Keys(p))| ==> Dedup(Keys(p + [x]))[j] == Dedup(Keys(p))[j]
    ensures forall j :: 0 <= j < |Dedup(Keys(p))| ==> Dedup(Keys(p))[j] != x.key
    ensures x.key !in Keys(GroupSpec(p))
  {
    KeysSnoc(p, x);
    DedupSnoc(Keys(p), x.key);
  }

  /** Inserting a key that is absent appends it. */
  lemma InsertNew(g: seq<Entry>, k: string, v: Value)
    requires k !in Keys(g)
    ensures Insert(g, k, v) == g + [Entry(k, v)]
  {
    assert IndexOf(g, k) == |g|;
  }

  /** A key seen before leaves the key order as it was. */
  lemma DedupOfOldKey(p: seq<Entry>, x: Entry)
    requires x.key in Keys(p)
    ensures Dedup(Keys(p + [x])) == Dedup(Keys(p))
  {
    KeysSnoc(p, x);
    DedupSnoc(Keys(p), x.key);
  }

  /** The entry of the new key holds just its one value. */
  lemma NewKeyEntry(p: seq<Entry>, x: Entry)
    requires x.key !in Keys(p)
    requires Dedup(Keys(p + [x])) == Dedup(Keys(p)) + [x.key]
    ensures |GroupSpec(p + [x])| == |GroupSpec(p)| + 1
    ensures GroupSpec(p + [x])[|GroupSpec(p)|] == Entry(x.key, x.val)
  {
    var d := Dedup(Keys(p));
    GroupSpecAt(p + [x], |d|);
    OccurrencesEmpty(p, x.key);
    OccurrencesSnoc(p, x, x.key);
    assert Occurrences(p + [x], x.key) == [x.val];
  }

  /** The entries of the keys seen before do not change when some other key arrives. */
  lemma EarlierEntries(p: seq<Entry>, x: Entry, i: nat)
    requires i <= |Dedup(Keys(p))| <= |Dedup(Keys(p + [x]))|
    requires forall j :: 0 <= j < |Dedup(Keys(p))| ==> Dedup(Keys(p + [x]))[j] == Dedup(Keys(p))[j]
    requires forall j :: 0 <= j < |Dedup(Keys(p))| && j != i ==> Dedup(Keys(p))[j] != x.key
    ensures forall j :: 0 <= j < |GroupSpec(p)| && j != i ==> GroupSpec(p + [x])[j] == GroupSpec(p)[j]
  {
    forall j | 0 <= j < |GroupSpec(p)| && j != i ensures GroupSpec(p + [x])[j] == GroupSpec(p)[j] {
      GroupSpecOther(p, x, j);
    }
  }

  /** Inserting a key not seen before appends it with its own value. */
  lemma GroupSpecSnocNew(p: seq<Entry>, x: Entry)
    requires x.key !in Keys(p)
    ensures Insert(GroupSpec(p), x.key, x.val) == GroupSpec(p + [x])
  {
    var g, d := GroupSpec(p), Dedup(Keys(p));
    DedupOfNewKey(p, x);
    InsertNew(g, x.key, x.val);
    NewKeyEntry(p, x);
    EarlierEntries(p, x, |d|);
    AppendIs(g, Entry(x.key, x.val), GroupSpec(p + [x]));
  }

  /** Adding one more value to what a repeated key holds gives the list of all of
      them: a single value becomes a two-element list, a list grows by one. */
  lemma CollectSnoc(occ: seq<Value>, v: Value)
    requires |occ| >= 1 && (|occ| == 1 ==> !occ[0].Many?)
    ensures Merge(Collect(occ), v) == Collect(occ + [v])
  {
    if |occ| == 1 {
      assert [occ[0], v] == occ + [v];
    }
  }

  /** Inserting at a key already present replaces that entry only. */
  lemma InsertExisting(g: seq<Entry>, k: string, v: Value)
    requires IndexOf(g, k) < |g|
    ensures var i := IndexOf(g, k);
      Insert(g, k, v) == g[i := Entry(k, Merge(g[i].val, v))]
  {
  }

  /** The entry of a key seen before gets the new value merged in. */
  lemma OldKeyEntry(p: seq<Entry>, x: Entry, i: nat)
    requires NoMany(p)
    requires x.key in Keys(p)
    requires i < |Dedup(Keys(p))| && Dedup(Keys(p))[i] == x.key
    requires Dedup(Keys(p + [x])) == Dedup(Keys(p))
    ensures GroupSpec(p + [x])[i] == Entry(x.key, Merge(GroupSpec(p)[i].val, x.val))
  {
    var occ := Occurrences(p, x.key);
    OccurrencesEmpty(p, x.key);
    OccurrencesNoMany(p, x.key);
    OccurrencesSnoc(p, x, x.key);
    GroupSpecAt(p, i);
    GroupSpecAt(p + [x], i);
    CollectSnoc(occ, x.val);
  }

  /** Inserting a key seen before extends its list of values in place. */
  lemma GroupSpecSnocOld(p: seq<Entry>, x: Entry)
    requires NoMany(p)
    requires x.key in Keys(p)
    ensures Insert(GroupSpec(p), x.key, x.val) == GroupSpec(p + [x])
  {
    var g, d := GroupSpec(p), Dedup(Keys(p));
    DedupOfOldKey(p, x);
    assert x.key in Keys(g);
    IndexOfPresent(g, x.key);
    var i := IndexOf(g, x.key);
    InsertExisting(g, x.key, x.val);
    var e := Entry(x.key, Merge(g[i].val, x.val));
    OldKeyEntry(p, x, i);
    DedupDistinct(Keys(p));
    assert forall j :: 0 <= j < |d| && j != i ==> d[j] != x.key;
    EarlierEntries(p, x, i);
    UpdateIs(g, i, e, GroupSpec(p + [x]));
  }

  /** The entry of a key other than the inserted one does not change. */
  lemma GroupSpecOther(p: seq<Entry>, x: Entry, j: nat)
    requires j < |Dedup(Keys(p))|
    requires j < |Dedup(Keys(p + [x]))| && Dedup(Keys(p + [x]))[j] == Dedup(Keys(p))[j]
    requires Dedup(Keys(p))[j] != x.key
    ensures GroupSpec(p + [x])[j] == GroupSpec(p)[j]
  {
    var k := Dedup(Keys(p))[j];
    OccurrencesSnoc(p, x, k);
    assert Occurrences(p + [x], k) == Occurrences(p, k);
    GroupSpecAt(p + [x], j);
    GroupSpecAt(p, j);
  }

  /** One insertion preserves agreement with the reference. */
  lemma GroupSpecSnoc(p: seq<Entry>, x: Entry)
    requires NoMany(p + [x])
    ensures Insert(GroupSpec(p), x.key, x.val) == GroupSpec(p + [x])
  {
    NoManyPrefix(p, x);
    if x.key in Keys(p) {
      GroupSpecSnocOld(p, x);
    } else {
      GroupSpecSnocNew(p, x);
    }
  }

  /** Folding the insertions over a list with no list values builds the reference. */
  lemma {:induction false} GroupIsGroupSpec(items: seq<Entry>)
    requires NoMany(items)
    ensures Group(items) == GroupSpec(items)
    decreases |items|
  {
    if items == [] {
      assert Dedup(Keys(items)) == [];
    } else {
      var p, x := items[..|items| - 1], items[|items| - 1];
      assert p + [x] == items;
      assert NoMany(p) by { assert forall j :: 0 <= j < |p| ==> p[j] == items[j]; }
      GroupIsGroupSpec(p);
      InsertAllSnoc([], p, x);
      GroupSpecSnoc(p, x);
    }
  }

  /** `parse_tlv` groups the siblings of one level: keys are distinct and in order of
      first occurrence; a tag seen once keeps its own value (never a one-element list);
      a repeated tag becomes the list of all its values in encounter order. */
  lemma DecodeGroupsDuplicates(s: seq<byte>)
    requires Decode(s).Ok?
    ensures
      var items := DecodeItems(s).value;
      var es := Decode(s).value;
      && Keys(es) == Dedup(Keys(items))
      && Distinct(Keys(es))
      && forall j :: 0 <= j < |es| ==>
           var occ := Occurrences(items, es[j].key);
           && |occ| >= 1
           && (|occ| == 1 ==> es[j].val == occ[0] && !es[j].val.Many?)
           && (|occ| > 1 ==> es[j].val == Many(occ))
  {
    var items := DecodeItems(s).value;
    DecodeItemsNoMany(s);
    GroupIsGroupSpec(items);
    DedupDistinct(Keys(items));
    var es := Decode(s).value;
    forall j | 0 <= j < |es|
      ensures |Occurrences(items, es[j].key)| >= 1
      ensures |Occurrences(items, es[j].key)| == 1 ==> !es[j].val.Many?
    {
      OccurrencesEmpty(items, es[j].key);
      OccurrencesNoMany(items, es[j].key);
    }
  }

  /** `5A 01 v` followed by `rest` reads as one primitive 5A item of one byte. */
  lemma OneByteItem(s: seq<byte>, v: byte)
    requires |s| >= 3 && s[0] == 0x5A && s[1] == 0x01 && s[2] == v
    ensures FirstItem(s) == Ok((Entry("5A", Prim(UpperHex([v]))), 3))
  {
    assert !IsConstructed(s[0]);
    var h := Header([0x5A], 1, 2);
    OneByteHeader(s);
    FirstItemOfPrimitive(s, h);
    assert ValueEnd(s, h) == 3;
    assert s[2..3] == [v];
    TagExample5A();
  }

  lemma OneByteHeader(s: seq<byte>)
    requires |s| >= 3 && s[0] == 0x5A && s[1] == 0x01
    ensures ReadHeader(s) == Ok(Header([0x5A], 1, 2))
  {
    assert TagSize(s) == Ok(1);
    assert s[..1] == [0x5A];
  }

  /** The first item when its tag is primitive: the key of the tag, the hex of the
      value bytes, and the end of the value. */
  lemma FirstItemOfPrimitive(s: seq<byte>, h: Header)
    requires s != [] && ReadHeader(s) == Ok(h) && !IsConstructed(s[0])
    ensures FirstItem(s) == Ok((Entry(TagKey(BigEndian(h.tag)), Prim(UpperHex(s[h.valueStart..ValueEnd(s, h)]))), ValueEnd(s, h)))
  {
    PrimitiveValue(s[0], s[h.valueStart..ValueEnd(s, h)]);
  }

  /** Unfolding the sibling list once the first item is known. */
  lemma DecodeItemsCons(s: seq<byte>, item: Entry, e: nat)
    requires s != [] && FirstItem(s) == Ok((item, e)) && DecodeItems(s[e..]).Ok?
    ensures DecodeItems(s) == Ok([item] + DecodeItems(s[e..]).value)
  {
  }

  /** Two one-byte `5A` siblings become one entry holding both values in order. */
  lemma RepeatedTagBecomesList(s: seq<byte>, u: byte, w: byte)
    requires |s| == 6 && s[0] == 0x5A && s[1] == 0x01 && s[2] == u
    requires s[3] == 0x5A && s[4] == 0x01 && s[5] == w
    ensures Decode(s) == Ok([Entry("5A", Many([Prim(UpperHex([u])), Prim(UpperHex([w]))]))])
  {
    var t := s[3..];
    var a, b := Entry("5A", Prim(UpperHex([u]))), Entry("5A", Prim(UpperHex([w])));
    OneByteItem(s, u);
    OneByteItem(t, w);
    assert t[3..] == [];
    DecodeItemsCons(t, b, 3);
    assert [b] + [] == [b];
    DecodeItemsCons(s, a, 3);
    assert [a] + [b] == [a, b];
    assert Group([a, b]) == [Entry("5A", Many([a.val, b.val]))] by {
      assert Insert([], "5A", a.val) == [a];
      assert Insert([a], "5A", b.val) == [Entry("5A", Many([a.val, b.val]))];
      assert [a, b][1..] == [b] && [b][1..] == [];
      assert InsertAll([], [a, b]) == InsertAll([a], [b]);
      assert InsertAll([a], [b]) == InsertAll([Entry("5A", Many([a.val, b.val]))], []);
    }
  }
}
