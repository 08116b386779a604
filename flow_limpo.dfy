/** The session of extrair_nfc_limpo.py (extrair_nfc_limpo.py:125-253): the SELECT of
    the environment, the first application of the directory, a GPO with the fixed
    amount data, the records of the AFL whatever the card said to the GPO, and a
    GENERATE AC in every case; the fields come from top-level lookups and from the
    template `70` of each response.

    As written, the script records for the GPO a command built again from the PDOL
    (extrair_nfc_limpo.py:165-169), which is not the command sent when a PDOL is
    present, and the name slices the track 2 even when there is none and ends in a
    stray "]" (extrair_nfc_limpo.py:244). `LimpoCaptureAsWritten` is that session;
    `LimpoCapture` records the command sent and names the capture as extrair_nfc.py
    does, and is the one the methods implement. */
module FlowLimpo {

  import opened Results
  import opened Bytes
  import opened Tlv
  import opened Query
  import opened Apdu
  import opened Card
  import opened Afl
  import opened Assembly
  import opened Flow

  // ---------------------------------------------------------------------------
  // The recorded GPO

  /** The GPO command the script records, as written: the PDOL's own bytes with
      their length both as Lc and as the length of the `83` template, rather than
      the fixed data that was sent. */
  function LimpoRecordedGpo(pdol: Option<Value>): Result<Command>
  {
    if pdol.Some? && Truthy(pdol.value) then
      var bs :- ValueBytes(pdol.value);
      Ok(GpoHeader + [|bs|, 0x83, |bs|] + bs + [0x00])
    else Ok(GpoHeader + [0x02, 0x83, 0x00, 0x00])
  }

  /** Without a PDOL the recorded command is the one sent. */
  lemma RecordedGpoWithoutPdol(pdol: Option<Value>)
    requires !(pdol.Some? && Truthy(pdol.value))
    ensures LimpoRecordedGpo(pdol) == Ok(LimpoGpoCommand(pdol))
  {
    assert GpoHeader + [0x02, 0x83, 0x00, 0x00] == [0x80, 0xA8, 0x00, 0x00, 0x02, 0x83, 0x00, 0x00];
  }

  /** With the PDOL 9F66 04 (terminal transaction qualifiers, four bytes), the script
      records 80 A8 00 00 03 83 03 9F 66 04 00, while 80 A8 00 00 0B 83 09 9F 02 06 ...
      was sent. */
  lemma RecordedGpoDiffers()
    ensures LimpoRecordedGpo(Some(Prim("9F6604"))) == Ok([0x80, 0xA8, 0x00, 0x00, 0x03, 0x83, 0x03, 0x9F, 0x66, 0x04, 0x00])
    ensures LimpoRecordedGpo(Some(Prim("9F6604"))) != Ok(LimpoGpoCommand(Some(Prim("9F6604"))))
  {
    var text := "9F6604";
    assert text[2..] == "6604" && "6604"[2..] == "04";
    assert DigitValue(text[0]) == Some(9) && DigitValue(text[1]) == Some(15);
    assert DigitValue('6') == Some(6) && DigitValue('0') == Some(0) && DigitValue('4') == Some(4);
    assert "04"[2..] == [] && FromHex("04"[2..]) == Some([]);
    assert [0 * 16 + 4] + [] == [0x04];
    assert FromHex("04") == Some([0x04]);
    assert [6 * 16 + 6] + [0x04] == [0x66, 0x04];
    assert FromHex("6604") == Some([0x66, 0x04]);
    assert [9 * 16 + 15] + [0x66, 0x04] == [0x9F, 0x66, 0x04];
    assert FromHex(text) == Some([0x9F, 0x66, 0x04]);
    assert GpoHeader + [3, 0x83, 3] + [0x9F, 0x66, 0x04] + [0x00] == [0x80, 0xA8, 0x00, 0x00, 0x03, 0x83, 0x03, 0x9F, 0x66, 0x04, 0x00];
    assert LimpoGpoCommand(Some(Prim(text)))[4] == 0x0B;
  }

  // ---------------------------------------------------------------------------
  // The session as a value

  /** The fields of the output record (extrair_nfc_limpo.py:195-253): the IAD is the
      top-level `9F10` of the last response, or ""; country, CVM list and CTQ are the
      last values found in a template `70`, track 2 the first. */
  function LimpoAssemble(aid: string, appLabel: string, pdol: Option<Value>, script: seq<Step>, last: Reply,
                         asWritten: bool): Result<Capture>
  {
    var tree :- Decode(last.data);
    var iad := if Get(tree, "9F10").Some? then Get(tree, "9F10").value else Prim("");
    var track2 := FirstIn70(script);
    var name :- if asWritten then LimpoNameAsWritten(appLabel, track2) else Name(appLabel, track2);
    MakeCapture(name, appLabel, aid, pdol, script, LastMatch(script, "5F28"), LastMatch(script, "8E"),
                LastMatch(script, "9F6C"), iad)
  }

  /** From the GPO reply on: the reply is decoded and its locator read whatever the
      status word; then the GENERATE AC, recorded under its four header bytes only. */
  function LimpoAfterGpo(card: Oracle, aid: string, appLabel: string, pdol: Option<Value>, h: seq<Command>,
                         script: seq<Step>, reply: Reply, asWritten: bool): Run<Capture>
  {
    var records := AflStage(card, h, script, reply);
    if records.outcome.Err? then Run(Err(records.outcome.failure), records.sent)
    else
      var h' := records.sent + [LimpoGenAc];
      var genAc := card(h');
      Run(LimpoAssemble(aid, appLabel, pdol, records.outcome.value + [Record(GenAcHeader, genAc)], genAc, asWritten), h')
  }

  /** From the SELECT reply on: the PDOL is the top-level `9F38`; the GPO carries the
      fixed data; the step recorded for it is the command sent, or, as written, the
      one rebuilt from the PDOL, whose `toBytes` can fail after the GPO was sent. */
  function LimpoAfterSelect(card: Oracle, aid: string, appLabel: string, h: seq<Command>, script: seq<Step>,
                            reply: Reply, asWritten: bool): Run<Capture>
  {
    match Decode(reply.data)
    case Err(f) => Run(Err(f), h)
    case Ok(tlv) =>
      var pdol := Get(tlv, "9F38");
      var gpo := LimpoGpoCommand(pdol);
      var h' := h + [gpo];
      var recorded := if asWritten then LimpoRecordedGpo(pdol) else Ok(gpo);
      match recorded
      case Err(f) => Run(Err(f), h')
      case Ok(c) => LimpoAfterGpo(card, aid, appLabel, pdol, h', script + [Record(c, card(h'))], card(h'), asWritten)
  }

  /** `main()` of extrair_nfc_limpo.py on a connection to `card`: nothing is captured
      when the directory names no application; otherwise the first one is. */
  function LimpoSession(card: Oracle, asWritten: bool): Run<Option<Capture>>
  {
    var h := [SelectPpse()];
    var script := [Record(SelectPpse(), card(h))];
    match Decode(card(h).data)
    case Err(f) => Run(Err(f), h)
    case Ok(tlv) =>
      match ExtractAidsSpec(tlv)
      case Err(f) => Run(Err(f), h)
      case Ok(aids) =>
        if aids == [] then Run(Ok(None), h)
        else
          match SelectAid(aids[0].aid)
          case Err(f) => Run(Err(f), h)
          case Ok(select) =>
            var h' := h + [select];
            var run := LimpoAfterSelect(card, aids[0].aid.text, aids[0].appLabel, h',
                                        script + [Record(select, card(h'))], card(h'), asWritten);
            Run(if run.outcome.Ok? then Ok(Some(run.outcome.value)) else Err(run.outcome.failure), run.sent)
  }

  /** The session as the source writes it. */
  function LimpoCaptureAsWritten(card: Oracle): Run<Option<Capture>>
  {
    LimpoSession(card, true)
  }

  /** The session recording the GPO that was sent and naming as extrair_nfc.py does. */
  function LimpoCapture(card: Oracle): Run<Option<Capture>>
  {
    LimpoSession(card, false)
  }

  // ---------------------------------------------------------------------------
  // What the session promises

  /** The fields of an output record of extrair_nfc_limpo.py: the name from the first
      track 2 of a template `70`, the others the last value found in one, or the
      default. */
  predicate LimpoPickedFrom(c: Capture, appLabel: string, aid: string)
  {
    && c.appName == appLabel && c.aid == aid
    && Name(appLabel, FirstIn70(c.script)) == Ok(c.name)
    && c.country == OrDefault(LastMatch(c.script, "5F28"), Prim(""))
    && c.ctq == OrDefault(LastMatch(c.script, "9F6C"), Prim("0000"))
    && c.cvmVisa == (if VisaRid <= aid then LastMatch(c.script, "8E") else None)
    && c.cvmMaster == (if MastercardRid <= aid then LastMatch(c.script, "8E") else None)
  }

  lemma LimpoAssembledFields(aid: string, appLabel: string, pdol: Option<Value>, script: seq<Step>, last: Reply)
    requires LimpoAssemble(aid, appLabel, pdol, script, last, false).Ok?
    ensures var c := LimpoAssemble(aid, appLabel, pdol, script, last, false).value;
      && c.script == script && LimpoPickedFrom(c, appLabel, aid)
      && PdolText(pdol) == Ok(c.pdol)
      && Decode(last.data).Ok?
      && c.iad == (if Get(Decode(last.data).value, "9F10").Some? then Get(Decode(last.data).value, "9F10").value else Prim(""))
  {
  }

  /** From the GPO reply on: the transcript gains the accepted READ RECORDs, then the
      GENERATE AC step, which is always the last command and is recorded under its
      header 80 AE 80 00 alone. */
  lemma LimpoAfterGpoTranscript(card: Oracle, aid: string, appLabel: string, pdol: Option<Value>, h: seq<Command>,
                                script: seq<Step>, reply: Reply)
    requires LimpoAfterGpo(card, aid, appLabel, pdol, h, script, reply, false).outcome.Ok?
    ensures var run := LimpoAfterGpo(card, aid, appLabel, pdol, h, script, reply, false);
      var c := run.outcome.value;
      && LimpoPickedFrom(c, appLabel, aid)
      && |run.sent| > |h| && run.sent[..|h|] == h && run.sent[|run.sent| - 1] == LimpoGenAc
      && c.script == script + Exchange(card, h, run.sent[|h|..|run.sent| - 1]) + [Record(GenAcHeader, card(run.sent))]
  {
    var records := AflStage(card, h, script, reply);
    AflStageRecords(card, h, script, reply);
    var h' := records.sent + [LimpoGenAc];
    assert h'[|h|..|h'| - 1] == records.sent[|h|..];
    LimpoAssembledFields(aid, appLabel, pdol, records.outcome.value + [Record(GenAcHeader, card(h'))], card(h'));
  }

  /** From the GPO reply on, the capture keeps the PDOL it was given, in lower case,
      and its IAD is the top-level `9F10` of the reply to the GENERATE AC, the last
      command sent, or "". */
  lemma LimpoAfterGpoPdolIad(card: Oracle, aid: string, appLabel: string, pdol: Option<Value>, h: seq<Command>,
                             script: seq<Step>, reply: Reply)
    requires LimpoAfterGpo(card, aid, appLabel, pdol, h, script, reply, false).outcome.Ok?
    ensures var run := LimpoAfterGpo(card, aid, appLabel, pdol, h, script, reply, false);
      var last := card(run.sent);
      && PdolText(pdol) == Ok(run.outcome.value.pdol)
      && |run.outcome.value.script| >= |script| && run.outcome.value.script[..|script|] == script
      && Decode(last.data).Ok?
      && run.outcome.value.iad == (if Get(Decode(last.data).value, "9F10").Some? then Get(Decode(last.data).value, "9F10").value
                                   else Prim(""))
  {
    LimpoAfterGpoTranscript(card, aid, appLabel, pdol, h, script, reply);
    var records := AflStage(card, h, script, reply);
    var h' := records.sent + [LimpoGenAc];
    LimpoAssembledFields(aid, appLabel, pdol, records.outcome.value + [Record(GenAcHeader, card(h'))], card(h'));
    var run := LimpoAfterGpo(card, aid, appLabel, pdol, h, script, reply, false);
    var x := Exchange(card, h, run.sent[|h|..|run.sent| - 1]) + [Record(GenAcHeader, card(run.sent))];
    assert run.outcome.value.script == script + x;
  }

  /** From the SELECT reply on: the third command is the GPO with the fixed data,
      sent when the reply has a top-level `9F38` and without data otherwise, and the
      step recorded for it is that command with the card's answer. A capture carries
      the top-level `9F38` in lower case, and the IAD is the top-level `9F10` of the
      reply to the last command sent. */
  lemma LimpoAfterSelectGpo(card: Oracle, aid: string, appLabel: string, h: seq<Command>, script: seq<Step>,
                            reply: Reply, tlv: seq<Entry>)
    requires Decode(reply.data) == Ok(tlv)
    ensures var p := Get(tlv, "9F38");
      var run := LimpoAfterSelect(card, aid, appLabel, h, script, reply, false);
      && |run.sent| > |h| && run.sent[..|h|] == h && run.sent[|h|] == LimpoGpoCommand(p)
      && (run.outcome.Ok? ==>
            var c := run.outcome.value;
            && PdolText(p) == Ok(c.pdol)
            && |c.script| > |script| && c.script[|script|] == Record(run.sent[|h|], card(h + [run.sent[|h|]]))
            && Decode(card(run.sent).data).Ok?
            && c.iad == (if Get(Decode(card(run.sent).data).value, "9F10").Some?
                         then Get(Decode(card(run.sent).data).value, "9F10").value else Prim("")))
  {
    var p := Get(tlv, "9F38");
    var gpo := LimpoGpoCommand(p);
    var h' := h + [gpo];
    var script' := script + [Record(gpo, card(h'))];
    var run := LimpoAfterGpo(card, aid, appLabel, p, h', script', card(h'), false);
    assert LimpoAfterSelect(card, aid, appLabel, h, script, reply, false) == run;
    LimpoAfterGpoSent(card, aid, appLabel, p, h', script', card(h'), false);
    assert run.sent[..|h|] == run.sent[..|h'|][..|h|];
    assert run.sent[|h|] == run.sent[..|h'|][|h|];
    if run.outcome.Ok? {
      LimpoAfterGpoPdolIad(card, aid, appLabel, p, h', script', card(h'));
      var c := run.outcome.value;
      assert c.script[|script|] == c.script[..|script'|][|script|];
    }
  }

  /** A directory that names no application ends the session after its first command,
      with nothing captured. */
  lemma NoApplication(card: Oracle)
    requires Decode(card([SelectPpse()]).data).Ok?
    requires ExtractAidsSpec(Decode(card([SelectPpse()]).data).value) == Ok([])
    ensures LimpoCapture(card) == Run(Ok(None), [SelectPpse()])
    ensures LimpoCaptureAsWritten(card) == Run(Ok(None), [SelectPpse()])
  {
  }

  /** Only the first application of the directory is selected. */
  lemma FirstApplicationSelected(card: Oracle, aids: seq<AidEntry>, asWritten: bool)
    requires Decode(card([SelectPpse()]).data).Ok?
    requires ExtractAidsSpec(Decode(card([SelectPpse()]).data).value) == Ok(aids) && aids != []
    requires SelectAid(aids[0].aid).Ok?
    ensures var run := LimpoSession(card, asWritten);
      |run.sent| >= 2 && run.sent[..2] == [SelectPpse(), SelectAid(aids[0].aid).value]
  {
    var select := SelectAid(aids[0].aid).value;
    var h := [SelectPpse()] + [select];
    var script := [Record(SelectPpse(), card([SelectPpse()]))] + [Record(select, card(h))];
    LimpoAfterSelectSent(card, aids[0].aid.text, aids[0].appLabel, h, script, card(h), asWritten);
  }

  lemma LimpoAfterGpoSent(card: Oracle, aid: string, appLabel: string, pdol: Option<Value>, h: seq<Command>,
                          script: seq<Step>, reply: Reply, asWritten: bool)
    ensures var run := LimpoAfterGpo(card, aid, appLabel, pdol, h, script, reply, asWritten);
      |run.sent| >= |h| && run.sent[..|h|] == h
  {
    var records := AflStage(card, h, script, reply);
    if records.outcome.Ok? {
      AflStageRecords(card, h, script, reply);
      var h' := records.sent + [LimpoGenAc];
      assert h'[..|h|] == records.sent[..|h|];
    } else {
      match Decode(reply.data)
      case Err(_) =>
      case Ok(gpo) =>
        match SelectAfl(gpo)
        case Err(_) =>
        case Ok(afl) =>
    }
  }

  lemma LimpoAfterSelectSent(card: Oracle, aid: string, appLabel: string, h: seq<Command>, script: seq<Step>,
                             reply: Reply, asWritten: bool)
    ensures var run := LimpoAfterSelect(card, aid, appLabel, h, script, reply, asWritten);
      |run.sent| >= |h| && run.sent[..|h|] == h
  {
    match Decode(reply.data)
    case Err(_) =>
    case Ok(tlv) =>
      var pdol := Get(tlv, "9F38");
      var gpo := LimpoGpoCommand(pdol);
      var h' := h + [gpo];
      var recorded := if asWritten then LimpoRecordedGpo(pdol) else Ok(gpo);
      match recorded
      case Err(_) =>
      case Ok(c) =>
        var script' := script + [Record(c, card(h'))];
        LimpoAfterGpoSent(card, aid, appLabel, pdol, h', script', card(h'), asWritten);
        var run := LimpoAfterGpo(card, aid, appLabel, pdol, h', script', card(h'), asWritten);
        assert run.sent[..|h|] == run.sent[..|h'|][..|h|];
  }

  // ---------------------------------------------------------------------------
  // The session as the source runs it

  /** Lines 195-253 of extrair_nfc_limpo.py: the IAD, the two loops over the
      transcript, the name and the output dictionary. */
  method LimpoAssembleCapture(aid: string, appLabel: string, pdol: Option<Value>, script: seq<Step>, last: Reply)
    returns (r: Result<Capture>)
    ensures r == LimpoAssemble(aid, appLabel, pdol, script, last, false)
  {
    var tree := ParseTlv(last.data);
    if tree.Err? {
      return Err(tree.failure);
    }
    var iad := if Get(tree.value, "9F10").Some? then Get(tree.value, "9F10").value else Prim("");
    var country, cvm, ctq := CollectLastMatches(script);
    var track2 := FirstTrack2(script);
    var name := Name(appLabel, track2);
    if name.Err? {
      return Err(name.failure);
    }
    r := MakeCapture(name.value, appLabel, aid, pdol, script, country, cvm, ctq, iad);
  }

  /** Lines 173-253: from the GPO reply on. */
  method LimpoFromGpo(conn: Connection, aid: string, appLabel: string, pdol: Option<Value>, script: seq<Step>,
                      reply: Reply) returns (r: Result<Capture>)
    modifies conn
    ensures Run(r, conn.sent) == LimpoAfterGpo(conn.card, aid, appLabel, pdol, old(conn.sent), script, reply, false)
  {
    var records := ReadGpoRecords(conn, script, reply);
    if records.Err? {
      return Err(records.failure);
    }
    var genAc := conn.Transmit(LimpoGenAc);
    r := LimpoAssembleCapture(aid, appLabel, pdol, records.value + [Record(GenAcHeader, genAc)], genAc);
  }

  /** Lines 159-253: from the SELECT reply on. */
  method LimpoFromSelect(conn: Connection, aid: string, appLabel: string, script: seq<Step>, reply: Reply)
    returns (r: Result<Capture>)
    modifies conn
    ensures Run(r, conn.sent) == LimpoAfterSelect(conn.card, aid, appLabel, old(conn.sent), script, reply, false)
  {
    var tlv := ParseTlv(reply.data);
    if tlv.Err? {
      return Err(tlv.failure);
    }
    var pdol := Get(tlv.value, "9F38");
    var gpo := LimpoGpoCommand(pdol);
    var gpoReply := conn.Transmit(gpo);
    r := LimpoFromGpo(conn, aid, appLabel, pdol, script + [Record(gpo, gpoReply)], gpoReply);
  }

  /** `main()` of extrair_nfc_limpo.py on a connection to `card`. */
  method CaptureFirstApplication(card: Oracle) returns (r: Result<Option<Capture>>, sent: seq<Command>)
    ensures Run(r, sent) == LimpoCapture(card)
  {
    var conn := new Connection(card);
    var ppse := SelectPpse();
    var reply := conn.Transmit(ppse);
    assert conn.sent == [ppse];
    var script := [Record(ppse, reply)];
    var tlv := ParseTlv(reply.data);
    if tlv.Err? {
      return Err(tlv.failure), conn.sent;
    }
    var aids := ExtractAids(tlv.value);
    if aids.Err? {
      return Err(aids.failure), conn.sent;
    }
    if aids.value == [] {
      return Ok(None), conn.sent;
    }
    var aid := aids.value[0].aid;
    var select := SelectAid(aid);
    if select.Err? {
      return Err(select.failure), conn.sent;
    }
    reply := conn.Transmit(select.value);
    assert conn.sent == [ppse] + [select.value];
    script := script + [Record(select.value, reply)];
    var outcome := LimpoFromSelect(conn, aid.text, aids.value[0].appLabel, script, reply);
    r := if outcome.Ok? then Ok(Some(outcome.value)) else Err(outcome.failure);
    sent := conn.sent;
  }
}
