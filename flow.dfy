/** The session of extrair_nfc.py, end to end (extrair_nfc.py:189-282, 294-313): SELECT
    of the environment, SELECT of the application, GET PROCESSING OPTIONS with the
    PDOL answered from the terminal defaults, and, when that succeeds, the records of
    the AFL and a GENERATE AC; then the fields are picked out of the transcript.

    As written, the GENERATE AC step records `gen_ac_apdu`, a name bound only inside
    `generate_arqc` (extrair_nfc.py:110, 238), so every session whose GPO succeeds ends
    in `NameError` once the card has answered the GENERATE AC. `NfcApplicationAsWritten`
    is that session; `NfcApplication` records the command that was sent, and is the one
    the methods implement. */
module Flow {

  import opened Results
  import opened Bytes
  import opened Tlv
  import opened Query
  import opened Apdu
  import opened Card
  import opened Afl
  import opened Assembly

  // ---------------------------------------------------------------------------
  // The session as a value

  /** `values[0] if values else None`. */
  function First(vs: seq<Value>): (r: Option<Value>)
    ensures r.None? <==> vs == []
    ensures r.Some? ==> r.value == vs[0]
  {
    if vs == [] then None else Some(vs[0])
  }

  /** The fields picked out of the finished transcript, and the output record
      (extrair_nfc.py:243-282): the IAD is the first `9F10` of the last response, or
      "" (a last response that does not decode is fatal here); the four card fields are
      the first truthy matches over the transcript. */
  function Assemble(aid: string, appLabel: string, pdol: Option<Value>, script: seq<Step>, last: Reply): Result<Capture>
  {
    var tree :- Decode(last.data);
    var iad := First(FindTag(Cons(tree), "9F10"));
    var name :- Name(appLabel, FirstMatch(script, "57"));
    MakeCapture(name, appLabel, aid, pdol, script, FirstMatch(script, "5F28"), FirstMatch(script, "8E"),
                FirstMatch(script, "9F6C"), if iad.Some? then iad.value else Prim(""))
  }

  /** The GPO response when the card accepted it: the locator, and its records. */
  function AflStage(card: Oracle, h: seq<Command>, script: seq<Step>, reply: Reply): Run<seq<Step>>
  {
    match Decode(reply.data)
    case Err(f) => Run(Err(f), h)
    case Ok(gpo) =>
      match SelectAfl(gpo)
      case Err(f) => Run(Err(f), h)
      case Ok(afl) =>
        if afl.Some? && Truthy(afl.value) then AflRun(card, h, script, afl.value) else Run(Ok(script), h)
  }

  /** From the GPO reply on: a rejected GPO goes straight to the assembly; an accepted
      one reads the records and sends the GENERATE AC, whose reply is the last one. */
  function AfterGpo(card: Oracle, aid: string, appLabel: string, pdol: Option<Value>, h: seq<Command>,
                    script: seq<Step>, reply: Reply, asWritten: bool): Run<Capture>
  {
    if !Success(reply) then Run(Assemble(aid, appLabel, pdol, script, reply), h)
    else
      var records := AflStage(card, h, script, reply);
      if records.outcome.Err? then Run(Err(records.outcome.failure), records.sent)
      else
        var h' := records.sent + [NfcGenAc];
        var genAc := card(h');
        if asWritten then Run(Err(NameError), h')
        else Run(Assemble(aid, appLabel, pdol, records.outcome.value + [Record(NfcGenAc, genAc)], genAc), h')
  }

  /** From the SELECT reply on: the PDOL is the first `9F38` anywhere in it; a PDOL
      that does not parse fails before the GPO is sent. */
  function AfterSelect(card: Oracle, aid: string, appLabel: string, h: seq<Command>, script: seq<Step>,
                       reply: Reply, asWritten: bool): Run<Capture>
  {
    match Decode(reply.data)
    case Err(f) => Run(Err(f), h)
    case Ok(tlv) =>
      var pdol := First(FindTag(Cons(tlv), "9F38"));
      match GpoCommand(pdol)
      case Err(f) => Run(Err(f), h)
      case Ok(gpo) =>
        var h' := h + [gpo];
        AfterGpo(card, aid, appLabel, pdol, h', script + [Record(gpo, card(h'))], card(h'), asWritten)
  }

  /** `extractApplication(aid, app_label)` on a fresh connection to `card`. */
  function Session(card: Oracle, aid: Value, appLabel: string, asWritten: bool): Run<Capture>
  {
    var h := [SelectPpse()];
    var script := [Record(SelectPpse(), card(h))];
    match SelectAid(aid)
    case Err(f) => Run(Err(f), h)
    case Ok(select) =>
      var h' := h + [select];
      AfterSelect(card, aid.text, appLabel, h', script + [Record(select, card(h'))], card(h'), asWritten)
  }

  /** The session as the source writes it. */
  function NfcApplicationAsWritten(card: Oracle, aid: Value, appLabel: string): Run<Capture>
  {
    Session(card, aid, appLabel, true)
  }

  /** The session with the GENERATE AC step recording the command that was sent. */
  function NfcApplication(card: Oracle, aid: Value, appLabel: string): Run<Capture>
  {
    Session(card, aid, appLabel, false)
  }

  // ---------------------------------------------------------------------------
  // What the sessions promise

  /** From the GPO reply on, the two sessions send the same commands, and the one as
      written can only succeed when the GPO was rejected, agreeing then with the other. */
  lemma AfterGpoAsWritten(card: Oracle, aid: string, appLabel: string, pdol: Option<Value>, h: seq<Command>,
                          script: seq<Step>, reply: Reply)
    ensures AfterGpo(card, aid, appLabel, pdol, h, script, reply, true).sent ==
            AfterGpo(card, aid, appLabel, pdol, h, script, reply, false).sent
    ensures AfterGpo(card, aid, appLabel, pdol, h, script, reply, true).outcome.Ok? ==>
      && !Success(reply)
      && AfterGpo(card, aid, appLabel, pdol, h, script, reply, true) == AfterGpo(card, aid, appLabel, pdol, h, script, reply, false)
      && AfterGpo(card, aid, appLabel, pdol, h, script, reply, true).sent == h
  {
  }

  lemma AfterSelectAsWritten(card: Oracle, aid: string, appLabel: string, h: seq<Command>, script: seq<Step>, reply: Reply)
    ensures AfterSelect(card, aid, appLabel, h, script, reply, true).sent ==
            AfterSelect(card, aid, appLabel, h, script, reply, false).sent
    ensures AfterSelect(card, aid, appLabel, h, script, reply, true).outcome.Ok? ==>
      var run := AfterSelect(card, aid, appLabel, h, script, reply, true);
      && run == AfterSelect(card, aid, appLabel, h, script, reply, false)
      && |run.sent| == |h| + 1 && run.sent[..|h|] == h && !Success(card(run.sent))
  {
    match Decode(reply.data)
    case Err(_) =>
    case Ok(tlv) =>
      var pdol := First(FindTag(Cons(tlv), "9F38"));
      match GpoCommand(pdol)
      case Err(_) =>
      case Ok(gpo) =>
        var h' := h + [gpo];
        AfterGpoAsWritten(card, aid, appLabel, pdol, h', script + [Record(gpo, card(h'))], card(h'));
        assert h'[..|h|] == h;
  }

  /** The two sessions send the same commands, and the one as written succeeds only
      when the card rejected the GPO, the third command: whenever the GPO goes through,
      the session as written fails. */
  lemma AsWrittenFailsOnAcceptedGpo(card: Oracle, aid: Value, appLabel: string)
    ensures NfcApplicationAsWritten(card, aid, appLabel).sent == NfcApplication(card, aid, appLabel).sent
    ensures NfcApplicationAsWritten(card, aid, appLabel).outcome.Ok? ==>
      var run := NfcApplication(card, aid, appLabel);
      && NfcApplicationAsWritten(card, aid, appLabel) == run
      && |run.sent| == 3 && !Success(card(run.sent))
  {
    var h := [SelectPpse()];
    var script := [Record(SelectPpse(), card(h))];
    match SelectAid(aid)
    case Err(_) =>
    case Ok(select) =>
      var h' := h + [select];
      AfterSelectAsWritten(card, aid.text, appLabel, h', script + [Record(select, card(h'))], card(h'));
  }

  /** A card that accepts every command: the session as written never produces a
      capture, while the corrected one records the GENERATE AC. */
  lemma AcceptingCardDefeatsAsWritten(aid: seq<byte>, appLabel: string)
    ensures var card: Oracle := (h: seq<Command>) => Reply([], 0x90, 0x00);
      NfcApplicationAsWritten(card, Prim(UpperHex(aid)), appLabel).outcome == Err(NameError)
  {
    var card: Oracle := (h: seq<Command>) => Reply([], 0x90, 0x00);
    SelectAidOfHex(aid);
    assert Decode([]) == Ok([]);
    assert FindTag(Cons([]), "9F38") == [];
    assert AflStage(card, [SelectPpse(), Select(aid), Gpo([])], [], Reply([], 0x90, 0x00)).outcome.Ok?;
  }

  /** The fields of an output record are picked from its own transcript: the name
      from the first truthy track 2, country and CTQ the first truthy match or the
      default, and the CVM list under the scheme of the AID. */
  predicate PickedFrom(c: Capture, appLabel: string, aid: string)
  {
    && c.appName == appLabel && c.aid == aid
    && Name(appLabel, FirstMatch(c.script, "57")) == Ok(c.name)
    && c.country == OrDefault(FirstMatch(c.script, "5F28"), Prim(""))
    && c.ctq == OrDefault(FirstMatch(c.script, "9F6C"), Prim("0000"))
    && c.cvmVisa == (if VisaRid <= aid then FirstMatch(c.script, "8E") else None)
    && c.cvmMaster == (if MastercardRid <= aid then FirstMatch(c.script, "8E") else None)
  }

  /** The output record carries the transcript it was picked from, and the IAD of the
      last response. */
  lemma AssembledFields(aid: string, appLabel: string, pdol: Option<Value>, script: seq<Step>, last: Reply)
    requires Assemble(aid, appLabel, pdol, script, last).Ok?
    ensures var c := Assemble(aid, appLabel, pdol, script, last).value;
      && c.script == script && PickedFrom(c, appLabel, aid)
      && PdolText(pdol) == Ok(c.pdol)
      && Decode(last.data).Ok?
      && c.iad == (if FindTag(Cons(Decode(last.data).value), "9F10") == [] then Prim("")
                   else FindTag(Cons(Decode(last.data).value), "9F10")[0])
  {
  }

  /** From the GPO reply on: a rejected GPO adds nothing to the transcript; an
      accepted one adds the records the card returned, in the order they were read,
      then the GENERATE AC and its reply, the last command of the session. */
  lemma AfterGpoTranscript(card: Oracle, aid: string, appLabel: string, pdol: Option<Value>, h: seq<Command>,
                           script: seq<Step>, reply: Reply)
    requires AfterGpo(card, aid, appLabel, pdol, h, script, reply, false).outcome.Ok?
    ensures var run := AfterGpo(card, aid, appLabel, pdol, h, script, reply, false);
      var c := run.outcome.value;
      && (!Success(reply) ==> run.sent == h && c.script == script)
      && (Success(reply) ==>
            && |run.sent| > |h| && run.sent[..|h|] == h && run.sent[|run.sent| - 1] == NfcGenAc
            && c.script == script + Exchange(card, h, run.sent[|h|..|run.sent| - 1]) + [Record(NfcGenAc, card(run.sent))])
  {
    if Success(reply) {
      var records := AflStage(card, h, script, reply);
      var plan := records.sent[|h|..];
      AflStageRecords(card, h, script, reply);
      var h' := records.sent + [NfcGenAc];
      assert h'[|h|..|h'| - 1] == plan;
      AssembledFields(aid, appLabel, pdol, records.outcome.value + [Record(NfcGenAc, card(h'))], card(h'));
    } else {
      AssembledFields(aid, appLabel, pdol, script, reply);
    }
  }

  /** Every stage keeps the commands sent before it at the head of the session. */
  lemma AfterGpoSent(card: Oracle, aid: string, appLabel: string, pdol: Option<Value>, h: seq<Command>,
                     script: seq<Step>, reply: Reply, asWritten: bool)
    ensures var run := AfterGpo(card, aid, appLabel, pdol, h, script, reply, asWritten);
      |run.sent| >= |h| && run.sent[..|h|] == h
  {
    if Success(reply) {
      var records := AflStage(card, h, script, reply);
      if records.outcome.Ok? {
        AflStageRecords(card, h, script, reply);
      } else {
        match Decode(reply.data)
        case Err(_) =>
        case Ok(gpo) =>
          match SelectAfl(gpo)
          case Err(_) =>
          case Ok(afl) =>
      }
      var h' := records.sent + [NfcGenAc];
      assert h'[..|h|] == records.sent[..|h|];
    }
  }

  lemma AfterSelectSent(card: Oracle, aid: string, appLabel: string, h: seq<Command>, script: seq<Step>,
                        reply: Reply, asWritten: bool)
    ensures var run := AfterSelect(card, aid, appLabel, h, script, reply, asWritten);
      |run.sent| >= |h| && run.sent[..|h|] == h
  {
    match Decode(reply.data)
    case Err(_) =>
    case Ok(tlv) =>
      var pdol := First(FindTag(Cons(tlv), "9F38"));
      match GpoCommand(pdol)
      case Err(_) =>
      case Ok(gpo) =>
        var h' := h + [gpo];
        AfterGpoSent(card, aid, appLabel, pdol, h', script + [Record(gpo, card(h'))], card(h'), asWritten);
        var run := AfterGpo(card, aid, appLabel, pdol, h', script + [Record(gpo, card(h'))], card(h'), asWritten);
        assert run.sent[..|h|] == run.sent[..|h'|][..|h|];
  }

  /** From the GPO reply on, the capture keeps the PDOL it was given, in lower case,
      and its IAD is the first `9F10` of the reply to the last command sent: the GPO's
      own reply when the card rejected it, the GENERATE AC's when it accepted. */
  lemma AfterGpoPdolIad(card: Oracle, aid: string, appLabel: string, pdol: Option<Value>, h: seq<Command>,
                        script: seq<Step>, reply: Reply)
    requires AfterGpo(card, aid, appLabel, pdol, h, script, reply, false).outcome.Ok?
    ensures var run := AfterGpo(card, aid, appLabel, pdol, h, script, reply, false);
      var last := if Success(reply) then card(run.sent) else reply;
      && PdolText(pdol) == Ok(run.outcome.value.pdol)
      && |run.outcome.value.script| >= |script| && run.outcome.value.script[..|script|] == script
      && Decode(last.data).Ok?
      && run.outcome.value.iad == (if FindTag(Cons(Decode(last.data).value), "9F10") == [] then Prim("")
                                   else FindTag(Cons(Decode(last.data).value), "9F10")[0])
  {
    AfterGpoTranscript(card, aid, appLabel, pdol, h, script, reply);
    if Success(reply) {
      var records := AflStage(card, h, script, reply);
      var h' := records.sent + [NfcGenAc];
      AssembledFields(aid, appLabel, pdol, records.outcome.value + [Record(NfcGenAc, card(h'))], card(h'));
      var run := AfterGpo(card, aid, appLabel, pdol, h, script, reply, false);
      var x := Exchange(card, h, run.sent[|h|..|run.sent| - 1]) + [Record(NfcGenAc, card(run.sent))];
      assert run.outcome.value.script == script + x;
    } else {
      AssembledFields(aid, appLabel, pdol, script, reply);
    }
  }

  /** From the SELECT reply on: the third command is the GPO built from the first
      `9F38` anywhere in that reply, and it is recorded with the card's answer right
      after the steps before it. A capture carries that PDOL in lower case, and the
      IAD is the first `9F10` of the reply to the last command sent. */
  lemma AfterSelectGpo(card: Oracle, aid: string, appLabel: string, h: seq<Command>, script: seq<Step>,
                       reply: Reply, tlv: seq<Entry>)
    requires Decode(reply.data) == Ok(tlv)
    requires GpoCommand(First(FindTag(Cons(tlv), "9F38"))).Ok?
    ensures var p := First(FindTag(Cons(tlv), "9F38"));
      var gpo := GpoCommand(p).value;
      var run := AfterSelect(card, aid, appLabel, h, script, reply, false);
      && |run.sent| > |h| && run.sent[..|h|] == h && run.sent[|h|] == gpo
      && (run.outcome.Ok? ==>
            var c := run.outcome.value;
            && PdolText(p) == Ok(c.pdol)
            && |c.script| > |script| && c.script[|script|] == Record(gpo, card(h + [gpo]))
            && Decode(card(run.sent).data).Ok?
            && c.iad == (if FindTag(Cons(Decode(card(run.sent).data).value), "9F10") == [] then Prim("")
                         else FindTag(Cons(Decode(card(run.sent).data).value), "9F10")[0]))
  {
    var p := First(FindTag(Cons(tlv), "9F38"));
    var gpo := GpoCommand(p).value;
    var h' := h + [gpo];
    var script' := script + [Record(gpo, card(h'))];
    var run := AfterGpo(card, aid, appLabel, p, h', script', card(h'), false);
    assert AfterSelect(card, aid, appLabel, h, script, reply, false) == run;
    AfterGpoSent(card, aid, appLabel, p, h', script', card(h'), false);
    assert run.sent[..|h|] == run.sent[..|h'|][..|h|];
    assert run.sent[|h|] == run.sent[..|h'|][|h|];
    if run.outcome.Ok? {
      AfterGpoPdolIad(card, aid, appLabel, p, h', script', card(h'));
      var c := run.outcome.value;
      assert c.script[|script|] == c.script[..|script'|][|script|];
      if !Success(card(h')) {
        AfterGpoTranscript(card, aid, appLabel, p, h', script', card(h'));
        assert run.sent == h';
      }
    }
  }

  /** Both scripts' sessions open with the SELECT of the environment and, when the AID
      is hex text, the SELECT of that application. */
  lemma SessionOpens(card: Oracle, aid: Value, appLabel: string, asWritten: bool)
    ensures var run := Session(card, aid, appLabel, asWritten);
      && |run.sent| >= 1 && run.sent[0] == SelectPpse()
      && (SelectAid(aid).Ok? ==> |run.sent| >= 2 && run.sent[1] == SelectAid(aid).value)
      && (SelectAid(aid).Err? ==> run.sent == [SelectPpse()])
  {
    match SelectAid(aid)
    case Err(_) =>
    case Ok(select) =>
      var h := [SelectPpse()] + [select];
      var script := [Record(SelectPpse(), card([SelectPpse()]))] + [Record(select, card(h))];
      AfterSelectSent(card, aid.text, appLabel, h, script, card(h), asWritten);
      var run := AfterSelect(card, aid.text, appLabel, h, script, card(h), asWritten);
      assert Session(card, aid, appLabel, asWritten) == run;
      assert run.sent[..2] == h;
      assert run.sent[0] == h[0] && run.sent[1] == h[1];
  }

  /** From the GPO reply on, a capture's fields are picked from its own transcript. */
  lemma AfterGpoFields(card: Oracle, aid: string, appLabel: string, pdol: Option<Value>, h: seq<Command>,
                       script: seq<Step>, reply: Reply)
    requires AfterGpo(card, aid, appLabel, pdol, h, script, reply, false).outcome.Ok?
    ensures PickedFrom(AfterGpo(card, aid, appLabel, pdol, h, script, reply, false).outcome.value, appLabel, aid)
  {
    if Success(reply) {
      var records := AflStage(card, h, script, reply);
      var h' := records.sent + [NfcGenAc];
      AssembledFields(aid, appLabel, pdol, records.outcome.value + [Record(NfcGenAc, card(h'))], card(h'));
    } else {
      AssembledFields(aid, appLabel, pdol, script, reply);
    }
  }

  /** A capture of extrair_nfc.py has its fields picked from its own transcript. */
  lemma NfcCaptureFields(card: Oracle, aid: Value, appLabel: string)
    requires NfcApplication(card, aid, appLabel).outcome.Ok?
    ensures aid.Prim? && PickedFrom(NfcApplication(card, aid, appLabel).outcome.value, appLabel, aid.text)
  {
    var select := SelectAid(aid).value;
    var h := [SelectPpse(), select];
    var script := [Record(SelectPpse(), card([SelectPpse()])), Record(select, card(h))];
    SelectedSession(card, aid, appLabel, select, h, script, card(h));
    var reply := card(h);
    var tlv := Decode(reply.data).value;
    var pdol := First(FindTag(Cons(tlv), "9F38"));
    var gpo := GpoCommand(pdol).value;
    var h' := h + [gpo];
    AfterGpoFields(card, aid.text, appLabel, pdol, h', script + [Record(gpo, card(h'))], card(h'));
  }

  /** The AFL stage adds to the transcript exactly the accepted ones among the commands
      it sends. */
  lemma AflStageRecords(card: Oracle, h: seq<Command>, script: seq<Step>, reply: Reply)
    requires AflStage(card, h, script, reply).outcome.Ok?
    ensures var run := AflStage(card, h, script, reply);
      && |run.sent| >= |h| && run.sent[..|h|] == h
      && run.outcome.value == script + Exchange(card, h, run.sent[|h|..])
  {
    var run := AflStage(card, h, script, reply);
    if run.sent == h {
      assert run.sent[|h|..] == [];
    } else {
      var afl := SelectAfl(Decode(reply.data).value).value.value;
      var plan := Plan(Locators(ValueBytes(afl).value));
      assert run.sent == h + plan;
      assert run.sent[|h|..] == plan;
    }
  }

  // ---------------------------------------------------------------------------
  // The session as the source runs it

  /** Lines 243-282 of extrair_nfc.py: the IAD, the loop over the transcript, the
      name and the output dictionary. */
  method AssembleCapture(aid: string, appLabel: string, pdol: Option<Value>, script: seq<Step>, last: Reply)
    returns (r: Result<Capture>)
    ensures r == Assemble(aid, appLabel, pdol, script, last)
  {
    var tree := ParseTlv(last.data);
    if tree.Err? {
      return Err(tree.failure);
    }
    var iad := First(FindTag(Cons(tree.value), "9F10"));
    var track2, country, cvm, ctq := CollectFirstMatches(script);
    var name := Name(appLabel, track2);
    if name.Err? {
      return Err(name.failure);
    }
    r := MakeCapture(name.value, appLabel, aid, pdol, script, country, cvm, ctq, if iad.Some? then iad.value else Prim(""));
  }

  /** The GPO response of an accepted GPO: the locator is picked and its records read. */
  method ReadGpoRecords(conn: Connection, script: seq<Step>, reply: Reply) returns (r: Result<seq<Step>>)
    modifies conn
    ensures Run(r, conn.sent) == AflStage(conn.card, old(conn.sent), script, reply)
  {
    var gpo := ParseTlv(reply.data);
    if gpo.Err? {
      return Err(gpo.failure);
    }
    var afl := SelectAfl(gpo.value);
    if afl.Err? {
      return Err(afl.failure);
    }
    if afl.value.Some? && Truthy(afl.value.value) {
      r := ProcessAfl(conn, afl.value.value, script);
    } else {
      r := Ok(script);
    }
  }

  /** Lines 222-282: from the GPO reply on. */
  method FromGpo(conn: Connection, aid: string, appLabel: string, pdol: Option<Value>, script: seq<Step>, reply: Reply)
    returns (r: Result<Capture>)
    modifies conn
    ensures Run(r, conn.sent) == AfterGpo(conn.card, aid, appLabel, pdol, old(conn.sent), script, reply, false)
  {
    var last := reply;
    var transcript := script;
    if Success(reply) {
      var records := ReadGpoRecords(conn, script, reply);
      if records.Err? {
        return Err(records.failure);
      }
      last := conn.Transmit(NfcGenAc);
      transcript := records.value + [Record(NfcGenAc, last)];
    }
    r := AssembleCapture(aid, appLabel, pdol, transcript, last);
  }

  /** Lines 212-282: from the SELECT reply on. */
  method FromSelect(conn: Connection, aid: string, appLabel: string, script: seq<Step>, reply: Reply)
    returns (r: Result<Capture>)
    modifies conn
    ensures Run(r, conn.sent) == AfterSelect(conn.card, aid, appLabel, old(conn.sent), script, reply, false)
  {
    var tlv := ParseTlv(reply.data);
    if tlv.Err? {
      return Err(tlv.failure);
    }
    var pdol := First(FindTag(Cons(tlv.value), "9F38"));
    var gpo := GpoCommand(pdol);
    if gpo.Err? {
      return Err(gpo.failure);
    }
    var gpoReply := conn.Transmit(gpo.value);
    r := FromGpo(conn, aid, appLabel, pdol, script + [Record(gpo.value, gpoReply)], gpoReply);
  }

  /** `extractApplication(aid, app_label)`: a fresh connection to the card, then the
      session. */
  method ExtractApplication(card: Oracle, aid: Value, appLabel: string) returns (outcome: Result<Capture>, sent: seq<Command>)
    ensures Run(outcome, sent) == NfcApplication(card, aid, appLabel)
  {
    var conn := new Connection(card);
    var ppse := SelectPpse();
    var reply := conn.Transmit(ppse);
    assert conn.sent == [ppse];
    var script := [Record(ppse, reply)];
    var select := SelectAid(aid);
    if select.Err? {
      return Err(select.failure), conn.sent;
    }
    reply := conn.Transmit(select.value);
    assert conn.sent == [ppse, select.value];
    script := script + [Record(select.value, reply)];
    SelectedSession(card, aid, appLabel, select.value, conn.sent, script, reply);
    outcome := FromSelect(conn, aid.text, appLabel, script, reply);
    sent := conn.sent;
  }

  /** Where the session stands once the SELECT of the application is answered. */
  lemma SelectedSession(card: Oracle, aid: Value, appLabel: string, select: Command, h: seq<Command>,
                        script: seq<Step>, reply: Reply)
    requires SelectAid(aid) == Ok(select) && h == [SelectPpse(), select] && reply == card(h)
    requires script == [Record(SelectPpse(), card([SelectPpse()])), Record(select, reply)]
    ensures aid.Prim?
    ensures NfcApplication(card, aid, appLabel) == AfterSelect(card, aid.text, appLabel, h, script, reply, false)
  {
    assert [SelectPpse()] + [select] == h;
    assert [Record(SelectPpse(), card([SelectPpse()]))] + [Record(select, reply)] == script;
  }

  // ---------------------------------------------------------------------------
  // main: one session per application of the directory

  /** The loop of `main` for any session `one(k, a)` of application `a` on connection
      `k`: the applications in order, the one at index `k` on connection `k + 1`; the
      first session that fails ends the loop. */
  function EachApplication(one: (nat, AidEntry) -> Result<Capture>, aids: seq<AidEntry>): Result<seq<Capture>>
  {
    if aids == [] then Ok([])
    else
      var n := |aids| - 1;
      var init :- EachApplication(one, aids[..n]);
      var c :- one(n + 1, aids[n]);
      Ok(init + [c])
  }

  /** The sessions for the applications `aids`: `extractApplication` on a connection
      of its own for each. */
  function Applications(sessions: nat -> Oracle, aids: seq<AidEntry>): Result<seq<Capture>>
  {
    EachApplication((k: nat, a: AidEntry) => NfcApplication(sessions(k), a.aid, a.appLabel).outcome, aids)
  }

  /** `main()`: the SELECT of the environment on connection 0, the directory's
      applications, and a session for each. */
  function NfcMain(sessions: nat -> Oracle): Run<seq<Capture>>
  {
    var h := [SelectPpse()];
    match Decode(sessions(0)(h).data)
    case Err(f) => Run(Err(f), h)
    case Ok(tlv) =>
      match ExtractAidsSpec(tlv)
      case Err(f) => Run(Err(f), h)
      case Ok(aids) => Run(Applications(sessions, aids), h)
  }

  /** One result per application, in order, each the session of its own entry. */
  lemma {:induction false} EachInOrder(one: (nat, AidEntry) -> Result<Capture>, aids: seq<AidEntry>)
    requires EachApplication(one, aids).Ok?
    ensures var cs := EachApplication(one, aids).value;
      && |cs| == |aids|
      && forall k :: 0 <= k < |aids| ==> one(k + 1, aids[k]) == Ok(cs[k])
  {
    if aids != [] {
      var n := |aids| - 1;
      EachInOrder(one, aids[..n]);
      assert forall k :: 0 <= k < n ==> aids[..n][k] == aids[k];
    }
  }

  /** One capture per application, in directory order, each for its own AID and
      label. */
  lemma ApplicationsInOrder(sessions: nat -> Oracle, aids: seq<AidEntry>)
    requires Applications(sessions, aids).Ok?
    ensures var cs := Applications(sessions, aids).value;
      && |cs| == |aids|
      && forall k :: 0 <= k < |aids| ==>
           NfcApplication(sessions(k + 1), aids[k].aid, aids[k].appLabel).outcome == Ok(cs[k])
  {
    EachInOrder((k: nat, a: AidEntry) => NfcApplication(sessions(k), a.aid, a.appLabel).outcome, aids);
  }

  /** The name, AID and label of each capture are those of its directory entry. */
  lemma CapturesOfDirectory(sessions: nat -> Oracle, aids: seq<AidEntry>, k: nat)
    requires Applications(sessions, aids).Ok? && k < |aids|
    ensures var cs := Applications(sessions, aids).value;
      && k < |cs| && aids[k].aid.Prim?
      && cs[k].aid == aids[k].aid.text && cs[k].appName == aids[k].appLabel
      && Name(aids[k].appLabel, FirstMatch(cs[k].script, "57")) == Ok(cs[k].name)
  {
    ApplicationsInOrder(sessions, aids);
    NfcCaptureFields(sessions(k + 1), aids[k].aid, aids[k].appLabel);
  }

  /** The loop of `main` over the applications. */
  method CaptureAll(sessions: nat -> Oracle, aids: seq<AidEntry>) returns (r: Result<seq<Capture>>)
    ensures r == Applications(sessions, aids)
  {
    var captures: seq<Capture> := [];
    for k := 0 to |aids|
      invariant Applications(sessions, aids[..k]) == Ok(captures)
    {
      var outcome, _ := ExtractApplication(sessions(k + 1), aids[k].aid, aids[k].appLabel);
      assert aids[..k + 1][..k] == aids[..k];
      if outcome.Err? {
        ApplicationsFailAt(sessions, aids, k + 1);
        return Err(outcome.failure);
      }
      captures := captures + [outcome.value];
    }
    assert aids[..|aids|] == aids;
    r := Ok(captures);
  }

  /** A failure on a prefix is the failure of the whole loop. */
  lemma {:induction false} EachFailAt(one: (nat, AidEntry) -> Result<Capture>, aids: seq<AidEntry>, m: nat)
    requires m <= |aids| && EachApplication(one, aids[..m]).Err?
    ensures EachApplication(one, aids) == EachApplication(one, aids[..m])
    decreases |aids| - m
  {
    if m < |aids| {
      assert aids[..m + 1][..m] == aids[..m];
      EachFailAt(one, aids, m + 1);
    } else {
      assert aids[..m] == aids;
    }
  }

  /** The first session that fails is the failure of `main`'s loop. */
  lemma ApplicationsFailAt(sessions: nat -> Oracle, aids: seq<AidEntry>, m: nat)
    requires m <= |aids| && Applications(sessions, aids[..m]).Err?
    ensures Applications(sessions, aids) == Applications(sessions, aids[..m])
  {
    EachFailAt((k: nat, a: AidEntry) => NfcApplication(sessions(k), a.aid, a.appLabel).outcome, aids, m);
  }

  /** `main()` as the source runs it. */
  method CaptureCard(sessions: nat -> Oracle) returns (r: Result<seq<Capture>>)
    ensures r == NfcMain(sessions).outcome
  {
    var conn := new Connection(sessions(0));
    var reply := conn.Transmit(SelectPpse());
    assert conn.sent == [SelectPpse()];
    var tlv := ParseTlv(reply.data);
    if tlv.Err? {
      return Err(tlv.failure);
    }
    var aids := ExtractAids(tlv.value);
    if aids.Err? {
      return Err(aids.failure);
    }
    r := CaptureAll(sessions, aids.value);
  }
}
