/** Lookups in the decoded tree: `dict.get`, the depth-first `find_tag`, and the walk
    of the directory response in `extract_aids` (extrair_nfc.py:56-82,
    extrair_nfc_limpo.py:66-80). */
module Query {

  import opened Results
  import opened Bytes
  import opened Tlv

  // ---------------------------------------------------------------------------
  // Python semantics of the decoded values

  /** Python truthiness: a non-empty string, mapping or list. */
  predicate Truthy(v: Value)
  {
    match v
    case Prim(s) => s != []
    case Cons(es) => es != []
    case Many(vs) => vs != []
  }

  /** Only the empty string, the empty mapping and the empty list are falsy. */
  lemma TruthyIsNonEmpty(v: Value)
    ensures Truthy(v) <==> v != Prim("") && v != Cons([]) && v != Many([])
  {
  }

  /** `d.get(k)`: the value stored under `k`, if any. */
  function Get(es: seq<Entry>, k: string): (r: Option<Value>)
    ensures r.None? <==> forall j :: 0 <= j < |es| ==> es[j].key != k
    ensures r.Some? ==>
      exists j :: 0 <= j < |es| && es[j] == Entry(k, r.value) && forall i :: 0 <= i < j ==> es[i].key != k
  {
    var i := IndexOf(es, k);
    if i < |es| then Some(es[i].val) else None
  }

  /** `v.get(k, default)` where `v` must be a mapping: a string or a list has no `get`
      and raises `AttributeError`. */
  function GetOr(v: Value, k: string, default: Value): (r: Result<Value>)
    ensures r.Err? <==> !v.Cons?
    ensures r.Err? ==> r.failure == AttributeError
    ensures v.Cons? ==> r == Ok(if Get(v.entries, k).Some? then Get(v.entries, k).value else default)
  {
    if !v.Cons? then Err(AttributeError)
    else match Get(v.entries, k)
      case Some(x) => Ok(x)
      case None => Ok(default)
  }

  /** `toBytes(v)`: a hex string to its bytes (a trailing odd digit is dropped, a
      non-hex pair is the `TypeError` that `toBytes` raises); a mapping or a list
      has no `replace` and raises `AttributeError`. */
  function ValueBytes(v: Value): (r: Result<seq<byte>>)
    ensures !v.Prim? ==> r == Err(AttributeError)
    ensures v.Prim? ==> (r.Ok? <==> FromHex(v.text).Some?)
    ensures r.Ok? ==> FromHex(v.text) == Some(r.value)
  {
    match v
    case Prim(s) => (match FromHex(s) case Some(bs) => Ok(bs) case None => Err(TypeError))
    case _ => Err(AttributeError)
  }

  // ---------------------------------------------------------------------------
  // find_tag

  /** `find_tag(v, t)`: every value stored under key `t`, at any depth, in depth-first
      order; a value that matches comes before the matches inside it. */
  function FindTag(v: Value, t: string): seq<Value>
    decreases v
  {
    match v
    case Prim(_) => []
    case Cons(es) => FindInEntries(es, t)
    case Many(vs) => FindInList(vs, t)
  }

  /** The loop over `tlv_data.items()`. */
  function FindInEntries(es: seq<Entry>, t: string): seq<Value>
    decreases es
  {
    if es == [] then []
    else (if es[0].key == t then [es[0].val] else []) + FindTag(es[0].val, t) + FindInEntries(es[1..], t)
  }

  /** The loop over the items of a list. */
  function FindInList(vs: seq<Value>, t: string): seq<Value>
    decreases vs
  {
    if vs == [] then [] else FindTag(vs[0], t) + FindInList(vs[1..], t)
  }

  /** Every entry of the tree in depth-first pre-order: an entry, then what lies under
      it, then its later siblings. Entries inside a list are visited in list order. */
  function Walk(v: Value): seq<Entry>
    decreases v
  {
    match v
    case Prim(_) => []
    case Cons(es) => WalkEntries(es)
    case Many(vs) => WalkList(vs)
  }

  function WalkEntries(es: seq<Entry>): seq<Entry>
    decreases es
  {
    if es == [] then [] else [es[0]] + Walk(es[0].val) + WalkEntries(es[1..])
  }

  function WalkList(vs: seq<Value>): seq<Entry>
    decreases vs
  {
    if vs == [] then [] else Walk(vs[0]) + WalkList(vs[1..])
  }

  /** The values of the entries with key `t`, in order. */
  function ValuesOf(es: seq<Entry>, t: string): (r: seq<Value>)
    ensures |r| <= |es|
  {
    if es == [] then [] else (if es[0].key == t then [es[0].val] else []) + ValuesOf(es[1..], t)
  }

  lemma {:induction false} ValuesOfAppend(a: seq<Entry>, b: seq<Entry>, t: string)
    ensures ValuesOf(a + b, t) == ValuesOf(a, t) + ValuesOf(b, t)
  {
    if a == [] {
      assert a + b == b;
    } else {
      var x := if a[0].key == t then [a[0].val] else [];
      var ab := a + b;
      assert ab[0] == a[0];
      assert ab[1..] == a[1..] + b;
      assert ValuesOf(ab, t) == x + ValuesOf(a[1..] + b, t);
      ValuesOfAppend(a[1..], b, t);
      var p, q := ValuesOf(a[1..], t), ValuesOf(b, t);
      assert ValuesOf(a, t) == x + p;
      assert x + (p + q) == (x + p) + q;
    }
  }

  /** `find_tag` is the filter, by key, of the depth-first walk of the tree. */
  lemma {:induction false} FindTagIsFilteredWalk(v: Value, t: string)
    ensures FindTag(v, t) == ValuesOf(Walk(v), t)
    decreases v
  {
    match v
    case Prim(_) =>
    case Cons(es) => FindInEntriesIsFilteredWalk(es, t);
    case Many(vs) => FindInListIsFilteredWalk(vs, t);
  }

  lemma {:induction false} FindInEntriesIsFilteredWalk(es: seq<Entry>, t: string)
    ensures FindInEntries(es, t) == ValuesOf(WalkEntries(es), t)
    decreases es
  {
    if es != [] {
      FindTagIsFilteredWalk(es[0].val, t);
      FindInEntriesIsFilteredWalk(es[1..], t);
      ValuesOfAppend([es[0]] + Walk(es[0].val), WalkEntries(es[1..]), t);
      ValuesOfAppend([es[0]], Walk(es[0].val), t);
      assert ValuesOf([es[0]], t) == if es[0].key == t then [es[0].val] else [] by {
        assert [es[0]][1..] == [];
      }
    }
  }

  lemma {:induction false} FindInListIsFilteredWalk(vs: seq<Value>, t: string)
    ensures FindInList(vs, t) == ValuesOf(WalkList(vs), t)
    decreases vs
  {
    if vs != [] {
      FindTagIsFilteredWalk(vs[0], t);
      FindInListIsFilteredWalk(vs[1..], t);
      ValuesOfAppend(Walk(vs[0]), WalkList(vs[1..]), t);
    }
  }

  lemma {:induction false} ValuesOfMembers(es: seq<Entry>, t: string, x: Value)
    ensures x in ValuesOf(es, t) <==> Entry(t, x) in es
  {
    if es != [] {
      ValuesOfMembers(es[1..], t, x);
      assert es == [es[0]] + es[1..];
    }
  }

  /** A value is found exactly when an entry with that key and value lies somewhere in
      the tree; a primitive hex string yields nothing. */
  lemma FindTagMembers(v: Value, t: string, x: Value)
    ensures x in FindTag(v, t) <==> Entry(t, x) in Walk(v)
    ensures v.Prim? ==> FindTag(v, t) == []
  {
    FindTagIsFilteredWalk(v, t);
    ValuesOfMembers(Walk(v), t, x);
  }

  /** A matching entry is reported before anything found inside it: when the first
      entry matches, its value is the first result. */
  lemma FirstEntryMatchComesFirst(es: seq<Entry>, t: string)
    requires es != [] && es[0].key == t
    ensures FindTag(Cons(es), t) != [] && FindTag(Cons(es), t)[0] == es[0].val
  {
  }

  lemma {:induction false} FindInEntriesAppend(a: seq<Entry>, b: seq<Entry>, t: string)
    ensures FindInEntries(a + b, t) == FindInEntries(a, t) + FindInEntries(b, t)
  {
    if a == [] {
      assert a + b == b;
    } else {
      assert (a + b)[0] == a[0];
      assert (a + b)[1..] == a[1..] + b;
      FindInEntriesAppend(a[1..], b, t);
    }
  }

  /** Each entry of a mapping is reported in place: the results of the entries before
      it, then its value when its key matches, then what is found inside that value,
      then the results of the later entries. A matching entry thus comes right before
      anything found inside it, at every depth, since `FindTag` of the value splits
      in the same way. */
  lemma MatchPrecedesInside(es: seq<Entry>, j: nat, t: string)
    requires j < |es| && es[j].key == t
    ensures FindTag(Cons(es), t) ==
      FindInEntries(es[..j], t) + [es[j].val] + FindTag(es[j].val, t) + FindInEntries(es[j + 1..], t)
  {
    assert es == es[..j] + ([es[j]] + es[j + 1..]);
    FindInEntriesAppend(es[..j], [es[j]] + es[j + 1..], t);
    FindInEntriesAppend([es[j]], es[j + 1..], t);
    assert [es[j]][1..] == [];
  }

  /** The value found under a repeated key is the whole list of its values. */
  lemma FindTagOfRepeatedKey(es: seq<Entry>, t: string, vs: seq<Value>)
    requires es != [] && es[0] == Entry(t, Many(vs))
    ensures FindTag(Cons(es), t) != [] && FindTag(Cons(es), t)[0] == Many(vs)
  {
    FirstEntryMatchComesFirst(es, t);
  }

  // ---------------------------------------------------------------------------
  // extract_aids

  /** One directory entry of the result: the AID value, the application label, and
      the priority indicator value. */
  datatype AidEntry = AidEntry(aid: Value, appLabel: string, priority: Value)

  /** `tlv.get('6F', {}).get('A5', {}).get('BF0C', {}).get('61', [])`, with a single
      entry wrapped in a list. */
  function DirectoryEntries(tlv: seq<Entry>): (r: Result<seq<Value>>)
    ensures r.Err? ==> r.failure == AttributeError
  {
    var fci := GetOr(Cons(tlv), "6F", Cons([])).value;
    var a5 :- GetOr(fci, "A5", Cons([]));
    var bf0c :- GetOr(a5, "BF0C", Cons([]));
    var d :- GetOr(bf0c, "61", Many([]));
    Ok(if d.Many? then d.items else [d])
  }

  /** The keys `extract_aids` follows down to the directory entries. */
  const DirectoryPath: seq<string> := ["6F", "A5", "BF0C"]

  /** Following `path` through nested mappings, a missing key read as an empty
      mapping: the mapping reached, or None when a value met on the way is there but
      is not a mapping. */
  function Descend(es: seq<Entry>, path: seq<string>): Option<seq<Entry>>
    decreases |path|
  {
    if path == [] then Some(es)
    else match Get(es, path[0])
      case None => Some([])
      case Some(v) => if v.Cons? then Descend(v.entries, path[1..]) else None
  }

  /** The directory entries are those under `61` of the mapping the path reaches: a
      list gives its items in order, a missing `61` none, anything else is one entry.
      The walk fails, with AttributeError, exactly when `6F`, `A5` or `BF0C` is
      present but not a mapping. */
  lemma DirectoryEntriesFollowPath(tlv: seq<Entry>)
    ensures DirectoryEntries(tlv).Err? <==> Descend(tlv, DirectoryPath).None?
    ensures DirectoryEntries(tlv).Ok? ==>
      DirectoryEntries(tlv).value ==
        match Get(Descend(tlv, DirectoryPath).value, "61")
        case None => []
        case Some(Many(vs)) => vs
        case Some(d) => [d]
  {
    assert DirectoryPath[1..] == ["A5", "BF0C"];
    assert ["A5", "BF0C"][1..] == ["BF0C"];
    assert ["BF0C"][1..] == [];
    assert Descend([], ["BF0C"]) == Some([]) && Descend([], ["A5", "BF0C"]) == Some([]);
  }

  /** A card with several applications: a repeated `61` under the path gives all its
      entries, in order. */
  lemma RepeatedDirectoryEntries(tlv: seq<Entry>, fci: seq<Entry>, a5: seq<Entry>, bf0c: seq<Entry>, vs: seq<Value>)
    requires Get(tlv, "6F") == Some(Cons(fci)) && Get(fci, "A5") == Some(Cons(a5))
    requires Get(a5, "BF0C") == Some(Cons(bf0c)) && Get(bf0c, "61") == Some(Many(vs))
    ensures DirectoryEntries(tlv) == Ok(vs)
  {
  }

  /** `binascii.unhexlify(entry.get('50', '')).decode('ascii', errors='ignore')`: a
      malformed hex string is a `ValueError`, a mapping or a list a `TypeError`. */
  function Label(entry: seq<Entry>): (r: Result<string>)
    ensures Get(entry, "50").None? ==> r == Ok("")
    ensures Get(entry, "50").Some? && Get(entry, "50").value.Prim? ==>
      var t := Get(entry, "50").value.text;
      r == (if Unhexlify(t).Some? then Ok(AsciiIgnore(Unhexlify(t).value)) else Err(ValueError))
    ensures Get(entry, "50").Some? && !Get(entry, "50").value.Prim? ==> r == Err(TypeError)
    ensures r.Ok? ==> forall k :: 0 <= k < |r.value| ==> r.value[k] as int < 0x80
  {
    var hex := if Get(entry, "50").Some? then Get(entry, "50").value else Prim("");
    match hex
    case Prim(s) =>
      (match Unhexlify(s)
       case Some(bs) => Ok(AsciiIgnore(bs))
       case None => Err(ValueError))
    case _ => Err(TypeError)
  }

  /** What one directory entry contributes: nothing when it is not a mapping or its
      `4F` is missing or empty; otherwise the AID, label and priority (default "N/A").
      The label is computed before the AID test, so a bad label fails either way. */
  function AidOf(item: Value): (r: Result<Option<AidEntry>>)
    ensures !item.Cons? ==> r == Ok(None)
    ensures item.Cons? ==> (r.Err? <==> Label(item.entries).Err?)
    ensures r.Ok? && r.value.Some? ==> item.Cons? && Truthy(r.value.value.aid)
    ensures r.Ok? && r.value.Some? ==> Get(item.entries, "4F") == Some(r.value.value.aid)
  {
    if !item.Cons? then Ok(None)
    else
      var entry := item.entries;
      var appLabel :- Label(entry);
      var priority := if Get(entry, "87").Some? then Get(entry, "87").value else Prim("N/A");
      match Get(entry, "4F")
      case Some(aid) => if Truthy(aid) then Ok(Some(AidEntry(aid, appLabel, priority))) else Ok(None)
      case None => Ok(None)
  }

  /** The loop over the directory entries, as a specification on a prefix: a failing
      entry stops the loop. */
  function AidsOf(items: seq<Value>): Result<seq<AidEntry>>
  {
    if items == [] then Ok([])
    else
      var init :- AidsOf(items[..|items| - 1]);
      var one :- AidOf(items[|items| - 1]);
      Ok(if one.Some? then init + [one.value] else init)
  }

  /** `extract_aids(tlv)`. */
  function ExtractAidsSpec(tlv: seq<Entry>): Result<seq<AidEntry>>
  {
    var items :- DirectoryEntries(tlv);
    AidsOf(items)
  }

  /** One more directory entry that passes: the result on the longer prefix. */
  lemma AidsStep(items: seq<Value>, k: nat, aids: seq<AidEntry>, one: Option<AidEntry>, aids': seq<AidEntry>)
    requires k < |items| && AidsOf(items[..k]) == Ok(aids) && AidOf(items[k]) == Ok(one)
    requires aids' == if one.Some? then aids + [one.value] else aids
    ensures AidsOf(items[..k + 1]) == Ok(aids')
  {
    assert items[..k + 1][..k] == items[..k];
  }

  /** A directory entry that fails: the whole loop fails with its error. */
  lemma AidsFailAt(items: seq<Value>, k: nat, aids: seq<AidEntry>, f: Failure)
    requires k < |items| && AidsOf(items[..k]) == Ok(aids) && AidOf(items[k]) == Err(f)
    ensures AidsOf(items) == Err(f)
  {
    assert items[..k + 1][..k] == items[..k];
    assert AidsOf(items[..k + 1]) == Err(f);
    AidsErrExtends(items, k + 1);
  }

  /** `extract_aids` as written: the path walk, then a loop that appends. */
  method ExtractAids(tlv: seq<Entry>) returns (r: Result<seq<AidEntry>>)
    ensures r == ExtractAidsSpec(tlv)
  {
    var entries := DirectoryEntries(tlv);
    if entries.Err? {
      return Err(entries.failure);
    }
    var items := entries.value;
    var aids: seq<AidEntry> := [];
    for k := 0 to |items|
      invariant AidsOf(items[..k]) == Ok(aids)
    {
      var one := AidOf(items[k]);
      if one.Err? {
        AidsFailAt(items, k, aids, one.failure);
        return Err(one.failure);
      }
      var next := aids;
      if one.value.Some? {
        next := aids + [one.value.value];
      }
      AidsStep(items, k, aids, one.value, next);
      aids := next;
    }
    assert items[..|items|] == items;
    return Ok(aids);
  }

  /** Once the loop has failed on a prefix, it fails on the whole list with the same
      error. */
  lemma {:induction false} AidsErrExtends(items: seq<Value>, k: nat)
    requires k <= |items| && AidsOf(items[..k]).Err?
    ensures AidsOf(items) == AidsOf(items[..k])
    decreases |items| - k
  {
    if k < |items| {
      assert items[..k + 1][..k] == items[..k];
      AidsErrExtends(items, k + 1);
    } else {
      assert items[..k] == items;
    }
  }

  /** The directory entries that are mappings with a non-empty `4F`, in order. */
  function Selected(items: seq<Value>): seq<seq<Entry>>
  {
    if items == [] then []
    else
      var init := Selected(items[..|items| - 1]);
      var last := items[|items| - 1];
      if last.Cons? && Get(last.entries, "4F").Some? && Truthy(Get(last.entries, "4F").value)
      then init + [last.entries] else init
  }

  /** What a selected entry becomes in the result. */
  function Summary(entry: seq<Entry>): AidEntry
    requires Get(entry, "4F").Some? && Label(entry).Ok?
  {
    AidEntry(Get(entry, "4F").value, Label(entry).value,
             if Get(entry, "87").Some? then Get(entry, "87").value else Prim("N/A"))
  }

  /** `a` is what the selected entry `e` becomes. */
  predicate SummaryOf(a: AidEntry, e: seq<Entry>)
  {
    Get(e, "4F").Some? && Label(e).Ok? && a == Summary(e)
  }

  /** `out` holds one summary per selected entry, in order. */
  predicate Summarizes(out: seq<AidEntry>, sel: seq<seq<Entry>>)
  {
    |out| == |sel| && forall j :: 0 <= j < |sel| ==> SummaryOf(out[j], sel[j])
  }

  /** One more selected entry, one more summary. */
  lemma SummarizesSnoc(out: seq<AidEntry>, sel: seq<seq<Entry>>, a: AidEntry, e: seq<Entry>)
    requires Summarizes(out, sel) && SummaryOf(a, e)
    ensures Summarizes(out + [a], sel + [e])
  {
    var out', sel' := out + [a], sel + [e];
    forall j | 0 <= j < |sel'| ensures SummaryOf(out'[j], sel'[j]) {
      if j < |sel| {
        assert sel'[j] == sel[j] && out'[j] == out[j];
      }
    }
  }

  /** A selected entry with a good label contributes its summary. */
  lemma AidOfSelected(item: Value)
    requires item.Cons? && Get(item.entries, "4F").Some? && Truthy(Get(item.entries, "4F").value)
    requires Label(item.entries).Ok?
    ensures AidOf(item) == Ok(Some(Summary(item.entries)))
  {
  }

  /** An entry that is not selected contributes nothing. */
  lemma AidOfSkipped(item: Value)
    requires !(item.Cons? && Get(item.entries, "4F").Some? && Truthy(Get(item.entries, "4F").value))
    requires AidOf(item).Ok?
    ensures AidOf(item) == Ok(None)
  {
  }

  /** The loop succeeds exactly when every mapping entry has a well-formed label. */
  lemma {:induction false} AidsOfOk(items: seq<Value>)
    ensures AidsOf(items).Ok? <==> forall j :: 0 <= j < |items| && items[j].Cons? ==> Label(items[j].entries).Ok?
  {
    if items != [] {
      var init, last := items[..|items| - 1], items[|items| - 1];
      AidsOfOk(init);
      assert forall j :: 0 <= j < |init| ==> init[j] == items[j];
      assert AidsOf(items).Ok? <==> AidsOf(init).Ok? && AidOf(last).Ok?;
    }
  }

  /** When the loop succeeds, its result summarizes the selected entries. */
  lemma {:induction false} AidsOfContents(items: seq<Value>)
    requires AidsOf(items).Ok?
    ensures Summarizes(AidsOf(items).value, Selected(items))
  {
    if items != [] {
      var init, last := items[..|items| - 1], items[|items| - 1];
      assert AidsOf(init).Ok? && AidOf(last).Ok?;
      AidsOfContents(init);
      var out := AidsOf(init).value;
      if last.Cons? && Get(last.entries, "4F").Some? && Truthy(Get(last.entries, "4F").value) {
        assert Label(last.entries).Ok?;
        AidOfSelected(last);
        assert AidsOf(items).value == out + [Summary(last.entries)];
        assert Selected(items) == Selected(init) + [last.entries];
        assert SummaryOf(Summary(last.entries), last.entries);
        SummarizesSnoc(out, Selected(init), Summary(last.entries), last.entries);
      } else {
        AidOfSkipped(last);
        assert AidsOf(items).value == out;
        assert Selected(items) == Selected(init);
      }
    }
  }

  /** The AIDs are found exactly when every mapping entry has a well-formed label (or
      none); they are then the selected entries, one result each, in entry order, and
      non-mapping entries and entries with a missing or empty `4F` are skipped. */
  lemma AidsOfCharacterized(items: seq<Value>)
    ensures AidsOf(items).Ok? <==> forall j :: 0 <= j < |items| && items[j].Cons? ==> Label(items[j].entries).Ok?
    ensures AidsOf(items).Ok? ==>
      var sel := Selected(items);
      && |AidsOf(items).value| == |sel|
      && forall j :: 0 <= j < |sel| ==>
           Get(sel[j], "4F").Some? && Label(sel[j]).Ok? && AidsOf(items).value[j] == Summary(sel[j])
  {
    AidsOfOk(items);
    if AidsOf(items).Ok? {
      AidsOfContents(items);
    }
  }

  /** A single `61` entry (not a list) is treated as a list of one. */
  lemma {:induction false} SingleDirectoryEntry(tlv: seq<Entry>, fci: seq<Entry>, a5: seq<Entry>, bf0c: seq<Entry>, entry: seq<Entry>)
    requires Get(tlv, "6F") == Some(Cons(fci)) && Get(fci, "A5") == Some(Cons(a5))
    requires Get(a5, "BF0C") == Some(Cons(bf0c)) && Get(bf0c, "61") == Some(Cons(entry))
    ensures DirectoryEntries(tlv) == Ok([Cons(entry)])
    ensures ExtractAidsSpec(tlv) ==
      match AidOf(Cons(entry))
      case Err(f) => Err(f)
      case Ok(one) => Ok(if one.Some? then [one.value] else [])
  {
    assert DirectoryEntries(tlv) == Ok([Cons(entry)]);
    assert [Cons(entry)][..0] == [];
    assert AidsOf([]) == Ok([]);
    match AidOf(Cons(entry))
    case Err(f) =>
    case Ok(one) =>
      if one.Some? {
        assert [] + [one.value] == [one.value];
      }
  }

  /** A directory response without the path yields no AIDs rather than failing. */
  lemma MissingPathGivesNoAids(tlv: seq<Entry>)
    requires Get(tlv, "6F").None?
    ensures ExtractAidsSpec(tlv) == Ok([])
  {
    assert GetOr(Cons(tlv), "6F", Cons([])) == Ok(Cons([]));
    assert GetOr(Cons([]), "A5", Cons([])) == Ok(Cons([]));
    assert GetOr(Cons([]), "BF0C", Cons([])) == Ok(Cons([]));
    assert GetOr(Cons([]), "61", Many([])) == Ok(Many([]));
    assert DirectoryEntries(tlv) == Ok([]);
    assert AidsOf([]) == Ok([]);
    assert ExtractAidsSpec(tlv) == AidsOf([]);
  }
}
