/** Result assembly: reading the recorded responses back, picking the card data out of
    them, and building the output record (extrair_nfc.py:242-282,
    extrair_nfc_limpo.py:195-253). The two scripts pick differently: extrair_nfc.py
    searches every response in depth and keeps the first truthy match of each field;
    extrair_nfc_limpo.py looks only inside a top-level `70` template, lets the last match
    win for country, CVM list and CTQ, and stops at the first track 2. */
module Assembly {

  import opened Results
  import opened Bytes
  import opened Tlv
  import opened Query
  import opened Apdu
  import opened Card

  // ---------------------------------------------------------------------------
  // Reading a recorded response back

  /** `parse_tlv(bytes.fromhex(record['response']))` inside the `try`: the response
      text reads back as the response data (`Card.ResponseReadsBack`), and a response
      that does not decode makes the step count for nothing. */
  function StepTree(s: Step): Option<seq<Entry>>
  {
    match Decode(s.response)
    case Ok(t) => Some(t)
    case Err(_) => None
  }

  /** The same, read from the recorded text as the loops do. */
  lemma StepTreeOfText(s: Step)
    ensures Unhexlify(ResponseText(s)).Some?
    ensures Decode(Unhexlify(ResponseText(s)).value).Ok? <==> StepTree(s).Some?
    ensures StepTree(s).Some? ==> Decode(Unhexlify(ResponseText(s)).value) == Ok(StepTree(s).value)
  {
    ResponseReadsBack(s);
  }

  /** The body of the `try`, as the loops run it. */
  method ParseStep(s: Step) returns (t: Option<seq<Entry>>)
    ensures t == StepTree(s)
  {
    StepTreeOfText(s);
    var bytes := Unhexlify(ResponseText(s));
    var parsed := ParseTlv(bytes.value);
    if parsed.Err? {
      return None;
    }
    return Some(parsed.value);
  }

  // ---------------------------------------------------------------------------
  // extrair_nfc.py: the first truthy match over the whole script

  /** `find_tag(record_tlv, t)` for one step; nothing for a step that does not read back. */
  function Found(s: Step, t: string): seq<Value>
  {
    match StepTree(s)
    case None => []
    case Some(tree) => FindTag(Cons(tree), t)
  }

  /** `if values and not current: current = values[0]`: a field that holds nothing or
      something falsy takes the first value found. */
  function Settle(cur: Option<Value>, found: seq<Value>): Option<Value>
  {
    if found != [] && !(cur.Some? && Truthy(cur.value)) then Some(found[0]) else cur
  }

  /** The field after the loop over `script` has run. */
  function FirstMatch(script: seq<Step>, t: string): Option<Value>
  {
    if script == [] then None
    else Settle(FirstMatch(script[..|script| - 1], t), Found(script[|script| - 1], t))
  }

  /** Step `k` offers a truthy first value. */
  predicate Hit(s: Step, t: string)
  {
    Found(s, t) != [] && Truthy(Found(s, t)[0])
  }

  lemma FirstMatchStep(script: seq<Step>, k: nat, t: string)
    requires k < |script|
    ensures FirstMatch(script[..k + 1], t) == Settle(FirstMatch(script[..k], t), Found(script[k], t))
  {
    assert script[..k + 1][..k] == script[..k];
  }

  /** Nothing is found anywhere exactly when the field stays `None`. */
  lemma {:induction false} FirstMatchNone(script: seq<Step>, t: string)
    ensures FirstMatch(script, t).None? <==> forall k :: 0 <= k < |script| ==> Found(script[k], t) == []
  {
    if script != [] {
      var n := |script| - 1;
      FirstMatchNone(script[..n], t);
      assert forall k :: 0 <= k < n ==> script[..n][k] == script[k];
    }
  }

  /** Without a truthy first value anywhere, the field is `None` or falsy: an empty
      string does not count as a match. */
  lemma {:induction false} FirstMatchFalsy(script: seq<Step>, t: string)
    requires forall k :: 0 <= k < |script| ==> !Hit(script[k], t)
    ensures FirstMatch(script, t).Some? ==> !Truthy(FirstMatch(script, t).value)
  {
    if script != [] {
      var n := |script| - 1;
      assert forall k :: 0 <= k < n ==> script[..n][k] == script[k];
      FirstMatchFalsy(script[..n], t);
    }
  }

  /** Once the field holds something truthy, later steps leave it alone. */
  lemma {:induction false} FirstMatchKept(script: seq<Step>, m: nat, t: string)
    requires m <= |script| && FirstMatch(script[..m], t).Some? && Truthy(FirstMatch(script[..m], t).value)
    ensures FirstMatch(script, t) == FirstMatch(script[..m], t)
    decreases |script| - m
  {
    if m < |script| {
      FirstMatchStep(script, m, t);
      FirstMatchKept(script, m + 1, t);
    } else {
      assert script[..m] == script;
    }
  }

  /** The field is the first value of the first step that offers a truthy one. */
  lemma FirstMatchIsFirstHit(script: seq<Step>, k: nat, t: string)
    requires k < |script| && Hit(script[k], t)
    requires forall j :: 0 <= j < k ==> !Hit(script[j], t)
    ensures FirstMatch(script, t) == Some(Found(script[k], t)[0])
  {
    assert forall j :: 0 <= j < k ==> script[..k][j] == script[j];
    FirstMatchFalsy(script[..k], t);
    FirstMatchStep(script, k, t);
    FirstMatchKept(script, k + 1, t);
  }

  /** One step of the loop, stated on the decoded response the loop holds. */
  lemma FirstMatchAt(script: seq<Step>, k: nat, t: string, tree: Option<seq<Entry>>)
    requires k < |script| && tree == StepTree(script[k])
    ensures FirstMatch(script[..k + 1], t) ==
      if tree.Some? then Settle(FirstMatch(script[..k], t), FindTag(Cons(tree.value), t)) else FirstMatch(script[..k], t)
  {
    FirstMatchStep(script, k, t);
  }

  /** One field's `if values and not field: field = values[0]`. */
  method Keep(cur: Option<Value>, values: seq<Value>) returns (next: Option<Value>)
    ensures next == Settle(cur, values)
  {
    next := cur;
    if values != [] && !(cur.Some? && Truthy(cur.value)) {
      next := Some(values[0]);
    }
  }

  /** The loop over `script` of extrair_nfc.py: each response is decoded once and
      searched for the four tags; a response that fails to decode is skipped. */
  method CollectFirstMatches(script: seq<Step>) returns (track2: Option<Value>, country: Option<Value>,
                                                         cvm: Option<Value>, ctq: Option<Value>)
    ensures track2 == FirstMatch(script, "57")
    ensures country == FirstMatch(script, "5F28")
    ensures cvm == FirstMatch(script, "8E")
    ensures ctq == FirstMatch(script, "9F6C")
  {
    track2, country, cvm, ctq := None, None, None, None;
    var k := 0;
    while k < |script|
      invariant k <= |script|
      invariant track2 == FirstMatch(script[..k], "57") && country == FirstMatch(script[..k], "5F28")
      invariant cvm == FirstMatch(script[..k], "8E") && ctq == FirstMatch(script[..k], "9F6C")
    {
      var tree := ParseStep(script[k]);
      FirstMatchAt(script, k, "57", tree);
      FirstMatchAt(script, k, "5F28", tree);
      FirstMatchAt(script, k, "8E", tree);
      FirstMatchAt(script, k, "9F6C", tree);
      if tree.Some? {
        var record := Cons(tree.value);
        track2 := Keep(track2, FindTag(record, "57"));
        country := Keep(country, FindTag(record, "5F28"));
        cvm := Keep(cvm, FindTag(record, "8E"));
        ctq := Keep(ctq, FindTag(record, "9F6C"));
      }
      k := k + 1;
    }
    assert script[..k] == script;
  }

  // ---------------------------------------------------------------------------
  // extrair_nfc_limpo.py: the top-level template 70 of each response

  /** `record_tlv['70']` when it is a mapping. When `70` holds text or a list instead,
      `key in record_data` is a substring or element test, and wherever it succeeds
      `record_data[key]` raises `TypeError`, which the `except` swallows: such a step
      never sets a field either. */
  function Template70(s: Step): Option<seq<Entry>>
  {
    match StepTree(s)
    case None => None
    case Some(tree) => (match Get(tree, "70") case Some(Cons(es)) => Some(es) case _ => None)
  }

  /** The value of `key` in the template of a step, if both are there. */
  function InTemplate(s: Step, key: string): Option<Value>
  {
    match Template70(s)
    case None => None
    case Some(es) => Get(es, key)
  }

  /** `if key in record_data: field = record_data[key]`, over the whole script: the
      last step whose template holds the key decides. */
  function LastMatch(script: seq<Step>, key: string): Option<Value>
  {
    if script == [] then None
    else
      var last := InTemplate(script[|script| - 1], key);
      if last.Some? then last else LastMatch(script[..|script| - 1], key)
  }

  lemma LastMatchStep(script: seq<Step>, k: nat, key: string)
    requires k < |script|
    ensures LastMatch(script[..k + 1], key) ==
      if InTemplate(script[k], key).Some? then InTemplate(script[k], key) else LastMatch(script[..k], key)
  {
    assert script[..k + 1][..k] == script[..k];
  }

  /** The field is the value in the last step that has one, and `None` when no step
      has one. */
  lemma {:induction false} LastMatchWins(script: seq<Step>, key: string, k: nat)
    requires k < |script| && InTemplate(script[k], key).Some?
    requires forall j :: k < j < |script| ==> InTemplate(script[j], key).None?
    ensures LastMatch(script, key) == InTemplate(script[k], key)
  {
    var n := |script| - 1;
    assert script[..n + 1] == script;
    LastMatchStep(script, n, key);
    if k < n {
      assert forall j :: k < j < n ==> script[..n][j] == script[j];
      LastMatchWins(script[..n], key, k);
    }
  }

  lemma {:induction false} LastMatchNone(script: seq<Step>, key: string)
    ensures LastMatch(script, key).None? <==> forall j :: 0 <= j < |script| ==> InTemplate(script[j], key).None?
  {
    if script != [] {
      var n := |script| - 1;
      assert script[..n + 1] == script;
      LastMatchStep(script, n, key);
      assert forall j :: 0 <= j < n ==> script[..n][j] == script[j];
      LastMatchNone(script[..n], key);
    }
  }

  /** The first loop over `script` of extrair_nfc_limpo.py. */
  method CollectLastMatches(script: seq<Step>) returns (country: Option<Value>, cvm: Option<Value>, ctq: Option<Value>)
    ensures country == LastMatch(script, "5F28")
    ensures cvm == LastMatch(script, "8E")
    ensures ctq == LastMatch(script, "9F6C")
  {
    country, cvm, ctq := None, None, None;
    var k := 0;
    while k < |script|
      invariant k <= |script|
      invariant country == LastMatch(script[..k], "5F28")
      invariant cvm == LastMatch(script[..k], "8E")
      invariant ctq == LastMatch(script[..k], "9F6C")
    {
      var tree := ParseStep(script[k]);
      LastMatchStep(script, k, "5F28");
      LastMatchStep(script, k, "8E");
      LastMatchStep(script, k, "9F6C");
      if tree.Some? {
        var template := Get(tree.value, "70");
        if template.Some? && template.value.Cons? {
          var data := template.value.entries;
          if Get(data, "5F28").Some? {
            country := Get(data, "5F28");
          }
          if Get(data, "8E").Some? {
            cvm := Get(data, "8E");
          }
          if Get(data, "9F6C").Some? {
            ctq := Get(data, "9F6C");
          }
        }
      }
      k := k + 1;
    }
    assert script[..k] == script;
  }

  /** The track 2 of extrair_nfc_limpo.py: the `57` of the first step whose template has one. */
  function FirstIn70(script: seq<Step>): Option<Value>
  {
    if script == [] then None
    else if InTemplate(script[0], "57").Some? then InTemplate(script[0], "57")
    else FirstIn70(script[1..])
  }

  /** It is the value of the first step that has one, and `None` when none has. */
  lemma {:induction false} FirstIn70IsFirst(script: seq<Step>, k: nat)
    requires k < |script| && InTemplate(script[k], "57").Some?
    requires forall j :: 0 <= j < k ==> InTemplate(script[j], "57").None?
    ensures FirstIn70(script) == InTemplate(script[k], "57")
  {
    if k > 0 {
      assert forall j :: 0 <= j < k - 1 ==> script[1..][j] == script[j + 1];
      FirstIn70IsFirst(script[1..], k - 1);
    }
  }

  lemma {:induction false} FirstIn70None(script: seq<Step>)
    ensures FirstIn70(script).None? <==> forall j :: 0 <= j < |script| ==> InTemplate(script[j], "57").None?
  {
    if script != [] {
      assert forall j :: 0 <= j < |script| - 1 ==> script[1..][j] == script[j + 1];
      FirstIn70None(script[1..]);
    }
  }

  /** The suffix form of the search, one step at a time. */
  lemma FirstIn70Skip(script: seq<Step>, k: nat)
    requires k < |script| && InTemplate(script[k], "57").None?
    ensures FirstIn70(script[k..]) == FirstIn70(script[k + 1..])
  {
    assert script[k..][1..] == script[k + 1..];
  }

  /** The second loop over `script` of extrair_nfc_limpo.py, which breaks at the first
      track 2. */
  method FirstTrack2(script: seq<Step>) returns (track2: Option<Value>)
    ensures track2 == FirstIn70(script)
  {
    track2 := None;
    var k := 0;
    while k < |script|
      invariant k <= |script|
      invariant FirstIn70(script) == FirstIn70(script[k..])
    {
      var tree := ParseStep(script[k]);
      if tree.Some? {
        var template := Get(tree.value, "70");
        if template.Some? && template.value.Cons? && Get(template.value.entries, "57").Some? {
          track2 := Get(template.value.entries, "57");
          assert script[k..][0] == script[k];
          break;
        }
      }
      FirstIn70Skip(script, k);
      k := k + 1;
    }
  }

  // ---------------------------------------------------------------------------
  // The output record

  /** Python's `repr` of a decoded value, as an f-string writes a list: text in single
      quotes (hex text has no quote to escape), a mapping in braces, a list in
      brackets, items separated by ", ". */
  function Repr(v: Value): string
    decreases v
  {
    match v
    case Prim(s) => "'" + s + "'"
    case Cons(es) => "{" + ReprEntries(es) + "}"
    case Many(vs) => "[" + ReprItems(vs) + "]"
  }

  function ReprEntries(es: seq<Entry>): string
    decreases es
  {
    if es == [] then ""
    else (if |es| == 1 then "" else ReprEntries(es[..|es| - 1]) + ", ")
         + "'" + es[|es| - 1].key + "': " + Repr(es[|es| - 1].val)
  }

  function ReprItems(vs: seq<Value>): string
    decreases vs
  {
    if vs == [] then ""
    else (if |vs| == 1 then "" else ReprItems(vs[..|vs| - 1]) + ", ") + Repr(vs[|vs| - 1])
  }

  /** `track2[:6]` as the f-string writes it: the first six characters of text, the
      repr of the first six items of a list; a mapping cannot be sliced. */
  function Prefix6(v: Value): Result<string>
  {
    match v
    case Prim(s) => Ok(s[..Min(6, |s|)])
    case Many(vs) => Ok("[" + ReprItems(vs[..Min(6, |vs|)]) + "]")
    case Cons(_) => Err(TypeError)
  }

  /** A track 2 that is a list of texts is named by the repr of its first six
      items. */
  lemma ReprOfList()
    ensures Prefix6(Many([Prim("AB"), Prim("CD")])) == Ok("['AB', 'CD']")
  {
    var vs := [Prim("AB"), Prim("CD")];
    assert vs[..Min(6, |vs|)] == vs;
    assert vs[..1] == [Prim("AB")];
    assert ReprItems(vs[..1]) == "'AB'";
    assert ReprItems(vs) == "'AB'" + ", " + "'CD'";
    assert "[" + ("'AB'" + ", " + "'CD'") + "]" == "['AB', 'CD']";
  }

  /** A mapping inside a list is written as Python writes a dict. */
  lemma ReprOfMapping()
    ensures Repr(Cons([Entry("5A", Prim("01"))])) == "{'5A': '01'}"
  {
    assert ReprEntries([Entry("5A", Prim("01"))]) == "'" + "5A" + "': " + "'01'";
  }

  /** The output name of extrair_nfc.py: the label, an underscore, and the first six
      characters of track 2, or "notrack2" when there is no truthy track 2. */
  function Name(appLabel: string, track2: Option<Value>): Result<string>
  {
    if track2.Some? && Truthy(track2.value) then
      var prefix :- Prefix6(track2.value);
      Ok(appLabel + "_" + prefix)
    else Ok(appLabel + "_notrack2")
  }

  /** With a track 2 of at least six digits, the name ends in its first six. */
  lemma NameOfTrack2(appLabel: string, s: string)
    requires |s| >= 6
    ensures Name(appLabel, Some(Prim(s))) == Ok(appLabel + "_" + s[..6])
    ensures |Name(appLabel, Some(Prim(s))).value| == |appLabel| + 7
  {
  }

  /** Without a truthy track 2 the name ends in "_notrack2". */
  lemma NameWithoutTrack2(appLabel: string, track2: Option<Value>)
    requires !(track2.Some? && Truthy(track2.value))
    ensures Name(appLabel, track2) == Ok(appLabel + "_notrack2")
  {
  }

  /** The output name of extrair_nfc_limpo.py as written: the track 2 is sliced
      whether or not there is one, and a stray "]" closes the name. */
  function LimpoNameAsWritten(appLabel: string, track2: Option<Value>): Result<string>
  {
    match track2
    case None => Err(TypeError)
    case Some(v) =>
      var prefix :- Prefix6(v);
      Ok(appLabel + "_" + prefix + "]")
  }

  /** A card without a track 2 in its records makes the naming fail; with one, the
      name carries a "]" that the other script's names do not. */
  lemma LimpoNameAsWrittenDefects(appLabel: string, s: string)
    ensures LimpoNameAsWritten(appLabel, None) == Err(TypeError)
    ensures Name(appLabel, None) == Ok(appLabel + "_notrack2")
    ensures |s| >= 6 ==> LimpoNameAsWritten(appLabel, Some(Prim(s))) == Ok(appLabel + "_" + s[..6] + "]")
    ensures |s| >= 6 ==> Name(appLabel, Some(Prim(s))) == Ok(appLabel + "_" + s[..6])
  {
  }

  /** `field or default`: a missing or falsy field gives the default. */
  function OrDefault(v: Option<Value>, default: Value): Value
  {
    if v.Some? && Truthy(v.value) then v.value else default
  }

  /** `pdol.lower() if pdol else None`: only text has `lower`. */
  function PdolText(pdol: Option<Value>): Result<Option<string>>
  {
    if pdol.Some? && Truthy(pdol.value) then
      (if pdol.value.Prim? then Ok(Some(Lower(pdol.value.text))) else Err(AttributeError))
    else Ok(None)
  }

  /** The registered application provider identifiers of the two schemes. */
  const VisaRid: string := "A000000003"
  const MastercardRid: string := "A000000004"

  /** The output record (the JSON written to the dumps directory). */
  datatype Capture = Capture(
    name: string, appName: string, aid: string, pdol: Option<string>,
    cvmVisa: Option<Value>, cvmMaster: Option<Value>, script: seq<Step>,
    country: Value, ctq: Value, iad: Value)

  /** The output dictionary, given the name already built: the CVM list goes to
      `cvmVisa` or `cvmMaster` by the AID's prefix, country defaults to "" and CTQ to
      "0000". */
  function MakeCapture(name: string, appLabel: string, aid: string, pdol: Option<Value>, script: seq<Step>,
                       country: Option<Value>, cvm: Option<Value>, ctq: Option<Value>, iad: Value): Result<Capture>
  {
    var pdolText :- PdolText(pdol);
    Ok(Capture(name, appLabel, aid, pdolText,
               if VisaRid <= aid then cvm else None,
               if MastercardRid <= aid then cvm else None,
               script, OrDefault(country, Prim("")), OrDefault(ctq, Prim("0000")), iad))
  }

  /** The CVM list lands in at most one of the two fields, chosen by the scheme of
      the AID, and it is carried unchanged. */
  lemma CvmByScheme(name: string, appLabel: string, aid: string, pdol: Option<Value>, script: seq<Step>,
                    country: Option<Value>, cvm: Option<Value>, ctq: Option<Value>, iad: Value)
    requires MakeCapture(name, appLabel, aid, pdol, script, country, cvm, ctq, iad).Ok?
    ensures var c := MakeCapture(name, appLabel, aid, pdol, script, country, cvm, ctq, iad).value;
      && (c.cvmVisa.None? || c.cvmMaster.None?)
      && (VisaRid <= aid ==> c.cvmVisa == cvm)
      && (MastercardRid <= aid ==> c.cvmMaster == cvm)
      && (!(VisaRid <= aid) ==> c.cvmVisa.None?)
      && (!(MastercardRid <= aid) ==> c.cvmMaster.None?)
  {
    assert VisaRid[9] != MastercardRid[9];
  }

  /** Country and CTQ: the value found when it is truthy, the defaults "" and "0000"
      otherwise; the PDOL is written in lower case. */
  lemma CaptureDefaults(name: string, appLabel: string, aid: string, pdol: Option<Value>, script: seq<Step>,
                        country: Option<Value>, cvm: Option<Value>, ctq: Option<Value>, iad: Value)
    requires MakeCapture(name, appLabel, aid, pdol, script, country, cvm, ctq, iad).Ok?
    ensures var c := MakeCapture(name, appLabel, aid, pdol, script, country, cvm, ctq, iad).value;
      && (country.Some? && Truthy(country.value) ==> c.country == country.value)
      && (!(country.Some? && Truthy(country.value)) ==> c.country == Prim(""))
      && (ctq.Some? && Truthy(ctq.value) ==> c.ctq == ctq.value)
      && (!(ctq.Some? && Truthy(ctq.value)) ==> c.ctq == Prim("0000"))
      && (pdol.Some? && Truthy(pdol.value) ==> c.pdol == Some(Lower(pdol.value.text)))
      && (!(pdol.Some? && Truthy(pdol.value)) ==> c.pdol.None?)
      && c.name == name && c.appName == appLabel && c.aid == aid && c.script == script && c.iad == iad
  {
  }

  /** A PDOL that is not text is the only way the dictionary itself fails. */
  lemma CaptureFails(name: string, appLabel: string, aid: string, pdol: Option<Value>, script: seq<Step>,
                     country: Option<Value>, cvm: Option<Value>, ctq: Option<Value>, iad: Value)
    ensures MakeCapture(name, appLabel, aid, pdol, script, country, cvm, ctq, iad).Err? <==>
      (pdol.Some? && Truthy(pdol.value) && !pdol.value.Prim?)
  {
  }
}
