/** The Application File Locator (EMV 4.3 Book 3 section 10.2): where it is found in
    the GET PROCESSING OPTIONS response, how it is cut into 4-byte entries, and the
    READ RECORD commands `process_afl` sends for it (extrair_nfc.py:84-100,
    extrair_nfc_limpo.py:82-97). */
module Afl {

  import opened Results
  import opened Bytes
  import opened Tlv
  import opened Query
  import opened Apdu
  import opened Card

  // ---------------------------------------------------------------------------
  // Where the locator is

  /** The locator in a decoded GPO response: under a format 2 template `77` it is
      the `94` child (a template that is not a mapping has no `get`); otherwise,
      under a format 1 template `80`, it is what follows the first four hex digits
      (the two bytes of the Application Interchange Profile), provided there is more
      than that. A list under `80` is sliced by items, and a mapping cannot be
      sliced. */
  function SelectAfl(gpo: seq<Entry>): Result<Option<Value>>
  {
    match Get(gpo, "77")
    case Some(t) =>
      if t.Cons? then Ok(Get(t.entries, "94")) else Err(AttributeError)
    case None =>
      match Get(gpo, "80")
      case None => Ok(None)
      case Some(Prim(s)) => if |s| > 4 then Ok(Some(Prim(s[4..]))) else Ok(None)
      case Some(Many(vs)) => if |vs| > 4 then Ok(Some(Many(vs[4..]))) else Ok(None)
      case Some(Cons(es)) => if |es| > 4 then Err(TypeError) else Ok(None)
  }

  /** A format 2 template decides the locator whatever else the response holds: it
      is the template's `94`, or nothing when there is none. */
  lemma Format2Precedence(gpo: seq<Entry>, es: seq<Entry>)
    requires Get(gpo, "77") == Some(Cons(es))
    ensures SelectAfl(gpo) == Ok(Get(es, "94"))
    ensures Get(es, "94").None? ==> SelectAfl(gpo) == Ok(None)
  {
  }

  /** A `77` that is text or a list fails, whatever `80` holds. */
  lemma Format2NotMapping(gpo: seq<Entry>)
    requires Get(gpo, "77").Some? && !Get(gpo, "77").value.Cons?
    ensures SelectAfl(gpo) == Err(AttributeError)
  {
  }

  /** Format 1: the response data is the profile (two bytes) then the locator; the
      locator text is exactly the hex of the locator bytes. */
  lemma Format1Locator(gpo: seq<Entry>, aip: seq<byte>, afl: seq<byte>)
    requires Get(gpo, "77").None? && Get(gpo, "80") == Some(Prim(UpperHex(aip + afl)))
    requires |aip| == 2 && afl != []
    ensures SelectAfl(gpo) == Ok(Some(Prim(UpperHex(afl))))
  {
    UpperHexAppend(aip, afl);
    assert UpperHex(aip + afl)[4..] == UpperHex(afl);
  }

  /** Format 1 with nothing after the profile, and a response with neither template,
      give no locator. */
  lemma NoLocator(gpo: seq<Entry>)
    requires Get(gpo, "77").None?
    requires Get(gpo, "80").None? || (Get(gpo, "80").Some? && Get(gpo, "80").value.Prim? && |Get(gpo, "80").value.text| <= 4)
    ensures SelectAfl(gpo) == Ok(None)
  {
  }

  // ---------------------------------------------------------------------------
  // The entries of the locator

  /** One locator entry: the short file identifier (the high five bits of its first
      byte, `entry[0] >> 3`), the first record and the last record. The fourth byte,
      the number of records for offline authentication, is not used. */
  datatype Locator = Locator(sfi: nat, first: byte, last: byte)

  /** The entries `afl_bytes[i:i + 4]` for `i` in steps of 4, as far as each holds the
      three bytes read from it. */
  function Locators(bs: seq<byte>): seq<Locator>
    decreases |bs|
  {
    if |bs| < 3 then [] else [Locator(bs[0] / 8, bs[1], bs[2])] + Locators(bs[Min(4, |bs|)..])
  }

  /** The last slice is one or two bytes long, so reading its record range raises
      `IndexError`. */
  predicate Truncated(bs: seq<byte>)
  {
    |bs| % 4 == 1 || |bs| % 4 == 2
  }

  /** Every complete (three or four byte) slice gives an entry: there are
      `(len + 1) // 4` of them. */
  lemma {:induction false} LocatorsCount(bs: seq<byte>)
    ensures |Locators(bs)| == (|bs| + 1) / 4
    decreases |bs|
  {
    if |bs| >= 3 {
      LocatorsCount(bs[Min(4, |bs|)..]);
    }
  }

  /** Entry `k` is read from bytes `4k`, `4k + 1` and `4k + 2`. */
  lemma {:induction false} LocatorsContents(bs: seq<byte>, k: nat)
    requires k < |Locators(bs)|
    ensures 4 * k + 2 < |bs|
    ensures Locators(bs)[k] == Locator(bs[4 * k] / 8, bs[4 * k + 1], bs[4 * k + 2])
    decreases |bs|
  {
    if k > 0 {
      var rest := bs[Min(4, |bs|)..];
      assert Locators(bs) == [Locators(bs)[0]] + Locators(rest);
      LocatorsContents(rest, k - 1);
      assert rest[4 * (k - 1)] == bs[4 * k];
    }
  }

  /** The READ RECORD commands of records `lo` up to (not including) `hi` of one
      file, as `range(lo, hi)` enumerates them. */
  function RecordsFrom(sfi: nat, lo: nat, hi: nat): seq<Command>
    decreases hi
  {
    if hi <= lo then [] else RecordsFrom(sfi, lo, hi - 1) + [ReadRecord(sfi, hi - 1)]
  }

  /** The commands of one entry: its records, first to last inclusive. */
  function Records(l: Locator): seq<Command>
  {
    RecordsFrom(l.sfi, l.first, l.last + 1)
  }

  /** `range(start_rec, end_rec + 1)`: one command per record in order, and none at
      all when the first record is after the last. */
  lemma {:induction false} RecordsFromContents(sfi: nat, lo: nat, hi: nat)
    ensures |RecordsFrom(sfi, lo, hi)| == if lo <= hi then hi - lo else 0
    ensures forall k :: 0 <= k < |RecordsFrom(sfi, lo, hi)| ==>
      RecordsFrom(sfi, lo, hi)[k] == ReadRecord(sfi, lo + k)
    decreases hi
  {
    if lo < hi {
      RecordsFromContents(sfi, lo, hi - 1);
    }
  }

  /** The commands of all entries, entry after entry. */
  function Plan(ls: seq<Locator>): seq<Command>
  {
    if ls == [] then [] else Records(ls[0]) + Plan(ls[1..])
  }

  /** The locator 08 01 02 00 (file 1, records 1 to 2) reads records 1 and 2 with
      P2 = 0C. */
  lemma ExampleLocator()
    ensures Locators([0x08, 0x01, 0x02, 0x00]) == [Locator(1, 1, 2)]
    ensures Plan(Locators([0x08, 0x01, 0x02, 0x00])) ==
      [[0x00, 0xB2, 0x01, 0x0C, 0x00], [0x00, 0xB2, 0x02, 0x0C, 0x00]]
  {
    var bs: seq<byte> := [0x08, 0x01, 0x02, 0x00];
    assert bs[Min(4, |bs|)..] == [];
    assert Locators(bs) == [Locator(1, 1, 2)];
    assert [Locator(1, 1, 2)][1..] == [];
    assert RecordsFrom(1, 1, 1) == [];
  }

  // ---------------------------------------------------------------------------
  // The exchange

  /** The steps a sequence of commands adds to the script when sent after the history
      `h`: one step for each command the card answers with 90 00, in order. */
  function Exchange(card: Oracle, h: seq<Command>, cs: seq<Command>): seq<Step>
    decreases |cs|
  {
    if cs == [] then []
    else
      var reply := card(h + cs);
      Exchange(card, h, cs[..|cs| - 1]) + (if Success(reply) then [Record(cs[|cs| - 1], reply)] else [])
  }

  /** One more command sent. */
  lemma ExchangeSnoc(card: Oracle, h: seq<Command>, cs: seq<Command>, c: Command, reply: Reply)
    requires reply == card(h + cs + [c])
    ensures Exchange(card, h, cs + [c]) == Exchange(card, h, cs) + (if Success(reply) then [Record(c, reply)] else [])
  {
    assert (cs + [c])[..|cs|] == cs;
    assert h + (cs + [c]) == h + cs + [c];
  }

  /** The reply to command `k` of the sequence. */
  function ReplyAt(card: Oracle, h: seq<Command>, cs: seq<Command>, k: nat): Reply
    requires k < |cs|
  {
    card(h + cs[..k + 1])
  }

  /** A prefix of the commands gets the same replies. */
  lemma PrefixReplies(card: Oracle, h: seq<Command>, cs: seq<Command>, n: nat)
    requires n <= |cs|
    ensures forall k :: 0 <= k < n ==> cs[..n][k] == cs[k] && ReplyAt(card, h, cs[..n], k) == ReplyAt(card, h, cs, k)
  {
    forall k | 0 <= k < n
      ensures ReplyAt(card, h, cs[..n], k) == ReplyAt(card, h, cs, k)
    {
      assert cs[..n][..k + 1] == cs[..k + 1];
    }
  }

  /** The last command, when it succeeds, is recorded last. */
  lemma LastRecorded(card: Oracle, h: seq<Command>, cs: seq<Command>)
    requires cs != [] && Success(ReplyAt(card, h, cs, |cs| - 1))
    ensures Exchange(card, h, cs) == Exchange(card, h, cs[..|cs| - 1]) + [Record(cs[|cs| - 1], ReplyAt(card, h, cs, |cs| - 1))]
  {
    assert cs[..|cs|] == cs;
  }

  /** The last command, when it fails, is not recorded. */
  lemma LastSkipped(card: Oracle, h: seq<Command>, cs: seq<Command>)
    requires cs != [] && !Success(ReplyAt(card, h, cs, |cs| - 1))
    ensures Exchange(card, h, cs) == Exchange(card, h, cs[..|cs| - 1])
  {
    assert cs[..|cs|] == cs;
  }

  /** When every command succeeds, every command is recorded with its reply. */
  lemma {:induction false} ExchangeAllSucceed(card: Oracle, h: seq<Command>, cs: seq<Command>)
    requires forall k :: 0 <= k < |cs| ==> Success(ReplyAt(card, h, cs, k))
    ensures |Exchange(card, h, cs)| == |cs|
    ensures forall k :: 0 <= k < |cs| ==> Exchange(card, h, cs)[k] == Record(cs[k], ReplyAt(card, h, cs, k))
    decreases |cs|
  {
    if cs != [] {
      var n := |cs| - 1;
      PrefixReplies(card, h, cs, n);
      ExchangeAllSucceed(card, h, cs[..n]);
      LastRecorded(card, h, cs);
    }
  }

  /** When no command succeeds, nothing is recorded. */
  lemma {:induction false} ExchangeNoneSucceed(card: Oracle, h: seq<Command>, cs: seq<Command>)
    requires forall k :: 0 <= k < |cs| ==> !Success(ReplyAt(card, h, cs, k))
    ensures Exchange(card, h, cs) == []
    decreases |cs|
  {
    if cs != [] {
      var n := |cs| - 1;
      PrefixReplies(card, h, cs, n);
      ExchangeNoneSucceed(card, h, cs[..n]);
      LastSkipped(card, h, cs);
    }
  }

  /** Every recorded step is some command of the sequence that succeeded, with its
      reply, and there are no more steps than commands. */
  lemma {:induction false} ExchangeMembers(card: Oracle, h: seq<Command>, cs: seq<Command>, j: nat)
    requires j < |Exchange(card, h, cs)|
    ensures |Exchange(card, h, cs)| <= |cs|
    ensures exists k :: 0 <= k < |cs| && Success(ReplyAt(card, h, cs, k))
                        && Exchange(card, h, cs)[j] == Record(cs[k], ReplyAt(card, h, cs, k))
    decreases |cs|
  {
    var n := |cs| - 1;
    var init := cs[..n];
    ExchangeLength(card, h, cs);
    PrefixReplies(card, h, cs, n);
    if Success(ReplyAt(card, h, cs, n)) {
      LastRecorded(card, h, cs);
    } else {
      LastSkipped(card, h, cs);
    }
    if j < |Exchange(card, h, init)| {
      ExchangeMembers(card, h, init, j);
      var k :| 0 <= k < |init| && Success(ReplyAt(card, h, init, k))
               && Exchange(card, h, init)[j] == Record(init[k], ReplyAt(card, h, init, k));
      assert Exchange(card, h, cs)[j] == Record(cs[k], ReplyAt(card, h, cs, k));
    } else {
      assert Exchange(card, h, cs)[j] == Record(cs[n], ReplyAt(card, h, cs, n));
    }
  }

  lemma {:induction false} ExchangeLength(card: Oracle, h: seq<Command>, cs: seq<Command>)
    ensures |Exchange(card, h, cs)| <= |cs|
    decreases |cs|
  {
    if cs != [] {
      ExchangeLength(card, h, cs[..|cs| - 1]);
    }
  }

  /** Sending two sequences one after the other records what each records, the
      second after the history extended by the first. */
  lemma {:induction false} ExchangeAppend(card: Oracle, h: seq<Command>, a: seq<Command>, b: seq<Command>)
    ensures Exchange(card, h, a + b) == Exchange(card, h, a) + Exchange(card, h + a, b)
    decreases |b|
  {
    if b == [] {
      assert a + b == a;
    } else {
      var init := b[..|b| - 1];
      var c := b[|b| - 1];
      ExchangeAppend(card, h, a, init);
      assert a + b == (a + init) + [c];
      assert b == init + [c];
      assert h + (a + init) + [c] == h + (a + b);
      assert h + a + init + [c] == h + (a + b);
      ExchangeSnoc(card, h, a + init, c, card(h + (a + b)));
      ExchangeSnoc(card, h + a, init, c, card(h + (a + b)));
    }
  }

  // ---------------------------------------------------------------------------
  // process_afl

  /** The inner loop of `process_afl`: records `first` to `last` of file `sfi`, each
      read with READ RECORD and recorded when the card answers 90 00. */
  method ReadRecords(conn: Connection, sfi: nat, first: byte, last: byte, script: seq<Step>) returns (out: seq<Step>)
    modifies conn
    ensures conn.sent == old(conn.sent) + Records(Locator(sfi, first, last))
    ensures out == script + Exchange(conn.card, old(conn.sent), Records(Locator(sfi, first, last)))
  {
    ghost var h := conn.sent;
    ghost var done: seq<Command> := [];
    out := script;
    var rec: nat := first;
    while rec < last + 1
      invariant InRange(first, last + 1, rec)
      invariant done == RecordsFrom(sfi, first, rec)
      invariant conn.sent == h + done
      invariant Recorded(conn.card, h, script, done, out)
      decreases last + 1 - rec
    {
      var apdu := ReadRecord(sfi, rec);
      var reply := conn.Transmit(apdu);
      ghost var before := out;
      if Success(reply) {
        out := out + [Record(apdu, reply)];
      }
      RecordStep(conn.card, h, script, done, before, apdu, reply, out);
      RangeStep(sfi, first, last + 1, rec, done);
      done := done + [apdu];
      rec := rec + 1;
    }
    RangeDone(sfi, first, last, rec, done);
  }

  /** The index of `for rec in range(lo, hi)`: between the bounds, or still at `lo` when
      the range is empty. */
  predicate InRange(lo: nat, hi: nat, rec: nat)
  {
    lo <= rec && (rec <= hi || rec == lo)
  }

  lemma RangeStep(sfi: nat, lo: nat, hi: nat, rec: nat, done: seq<Command>)
    requires InRange(lo, hi, rec) && rec < hi && done == RecordsFrom(sfi, lo, rec)
    ensures InRange(lo, hi, rec + 1)
    ensures done + [ReadRecord(sfi, rec)] == RecordsFrom(sfi, lo, rec + 1)
  {
  }

  lemma RangeDone(sfi: nat, first: byte, last: byte, rec: nat, done: seq<Command>)
    requires InRange(first, last + 1, rec) && rec >= last + 1 && done == RecordsFrom(sfi, first, rec)
    ensures done == Records(Locator(sfi, first, last))
  {
  }

  /** One turn of the inner loop: a command sent, and recorded when it succeeds. */
  lemma RecordStep(card: Oracle, h: seq<Command>, script: seq<Step>, done: seq<Command>, out: seq<Step>,
                   c: Command, reply: Reply, out': seq<Step>)
    requires Recorded(card, h, script, done, out) && reply == card(h + done + [c])
    requires out' == if Success(reply) then out + [Record(c, reply)] else out
    ensures Recorded(card, h, script, done + [c], out')
  {
    ExchangeSnoc(card, h, done, c, reply);
  }

  /** The locator entry at index `i`, when the slice there has three bytes or more. */
  lemma LocatorsAt(bs: seq<byte>, i: nat)
    requires i + 3 <= |bs|
    ensures Locators(bs[i..]) == [Locator(bs[i] / 8, bs[i + 1], bs[i + 2])] + Locators(bs[Min(i + 4, |bs|)..])
    ensures Plan(Locators(bs[i..])) == Records(Locator(bs[i] / 8, bs[i + 1], bs[i + 2])) + Plan(Locators(bs[Min(i + 4, |bs|)..]))
  {
    var s := bs[i..];
    assert s[Min(4, |s|)..] == bs[Min(i + 4, |bs|)..];
    var ls := Locators(s);
    assert ls[1..] == Locators(bs[Min(i + 4, |bs|)..]);
  }

  /** The loop invariant of `process_afl` at index `i`: the commands sent so far,
      then those of the entries from `i` on, are all the commands of the locator. */
  predicate Pending(bs: seq<byte>, i: nat, done: seq<Command>)
  {
    Plan(Locators(bs)) == done + Plan(Locators(bs[Min(i, |bs|)..]))
  }

  /** ... and the script holds what those commands recorded. */
  predicate Recorded(card: Oracle, h: seq<Command>, script: seq<Step>, done: seq<Command>, out: seq<Step>)
  {
    out == script + Exchange(card, h, done)
  }

  /** One turn of the outer loop: the commands of the entry at `i` follow those
      already sent. */
  lemma EntryRead(bs: seq<byte>, i: nat, done: seq<Command>, records: seq<Command>)
    requires i + 3 <= |bs| && records == Records(Locator(bs[i] / 8, bs[i + 1], bs[i + 2]))
    requires Pending(bs, i, done)
    ensures Pending(bs, i + 4, done + records)
  {
    LocatorsAt(bs, i);
    assert Min(i, |bs|) == i;
  }

  /** ... and what they record follows what was recorded. */
  lemma EntryRecorded(card: Oracle, h: seq<Command>, script: seq<Step>, done: seq<Command>,
                      records: seq<Command>, out: seq<Step>, out': seq<Step>)
    requires Recorded(card, h, script, done, out)
    requires out' == out + Exchange(card, h + done, records)
    ensures Recorded(card, h, script, done + records, out')
  {
    ExchangeAppend(card, h, done, records);
  }

  /** A short slice at index `i`: no more entries, and the whole locator is truncated. */
  lemma ShortAt(bs: seq<byte>, i: nat, done: seq<Command>)
    requires i < |bs| < i + 3 && i % 4 == 0
    requires Pending(bs, i, done)
    ensures Plan(Locators(bs)) == done
    ensures Truncated(bs)
  {
    ShortRest(bs[i..]);
    assert done + [] == done;
    TruncatedAt(|bs|, i);
  }

  lemma ShortRest(s: seq<byte>)
    requires |s| < 3
    ensures Plan(Locators(s)) == []
  {
  }

  lemma TruncatedAt(n: nat, i: nat)
    requires i < n < i + 3 && i % 4 == 0
    ensures n % 4 == 1 || n % 4 == 2
  {
  }

  /** The loop index of `range(0, len, 4)`: a multiple of 4, and past the end only
      when the last slice had three bytes. */
  predicate Aligned(n: nat, i: nat)
  {
    i % 4 == 0 && (i <= n || (i == n + 1 && n % 4 == 3))
  }

  lemma AlignedNext(n: nat, i: nat)
    requires Aligned(n, i) && i + 3 <= n
    ensures Aligned(n, i + 4)
  {
  }

  /** The whole locator has been read. */
  lemma DoneAt(bs: seq<byte>, i: nat, done: seq<Command>)
    requires |bs| <= i && Aligned(|bs|, i)
    requires Pending(bs, i, done)
    ensures Plan(Locators(bs)) == done
    ensures !Truncated(bs)
  {
    assert Locators(bs[Min(i, |bs|)..]) == [];
    assert done + [] == done;
  }

  /** One turn of the outer loop of `process_afl`: the slice at `i` is cut, and when it
      holds an entry its records are read. */
  method ReadEntryAt(conn: Connection, bs: seq<byte>, i: nat, ghost h: seq<Command>, ghost done: seq<Command>,
                     script: seq<Step>, out: seq<Step>) returns (stop: bool, out': seq<Step>, ghost done': seq<Command>)
    requires i < |bs| && i % 4 == 0
    requires Pending(bs, i, done) && conn.sent == h + done && Recorded(conn.card, h, script, done, out)
    modifies conn
    ensures stop ==> conn.sent == old(conn.sent) && Plan(Locators(bs)) == done && Truncated(bs)
    ensures !stop ==> i + 3 <= |bs| && Pending(bs, i + 4, done') && conn.sent == h + done'
                      && Recorded(conn.card, h, script, done', out')
  {
    var entry := bs[i..Min(i + 4, |bs|)];
    if |entry| < 3 {
      ShortAt(bs, i, done);
      return true, out, done;
    }
    var sfi := entry[0] / 8;
    var first, last := entry[1], entry[2];
    ghost var records := Records(Locator(sfi, first, last));
    out' := ReadRecords(conn, sfi, first, last, out);
    EntryRecorded(conn.card, h, script, done, records, out, out');
    EntryRead(bs, i, done, records);
    done' := done + records;
    stop := false;
  }

  /** What `process_afl` does to a session whose commands so far are `h`, as a value:
      the locator text that is not hex fails before anything is sent; otherwise every
      planned READ RECORD is sent, and a truncated last entry fails after that. */
  function AflRun(card: Oracle, h: seq<Command>, script: seq<Step>, afl: Value): Run<seq<Step>>
  {
    match ValueBytes(afl)
    case Err(f) => Run(Err(f), h)
    case Ok(bs) =>
      var plan := Plan(Locators(bs));
      Run(if Truncated(bs) then Err(IndexError) else Ok(script + Exchange(card, h, plan)), h + plan)
  }

  /** `process_afl(connection, afl_data, script)`: `toBytes` of the locator (a failure
      there sends nothing), then for each entry and each of its records one READ
      RECORD, recorded when the card answers 90 00. A truncated last entry raises
      `IndexError` after the complete entries have been read. */
  method ProcessAfl(conn: Connection, afl: Value, script: seq<Step>) returns (r: Result<seq<Step>>)
    modifies conn
    ensures ValueBytes(afl).Err? ==> r == Err(ValueBytes(afl).failure) && conn.sent == old(conn.sent)
    ensures ValueBytes(afl).Ok? ==>
      var bs := ValueBytes(afl).value;
      && conn.sent == old(conn.sent) + Plan(Locators(bs))
      && r == if Truncated(bs) then Err(IndexError)
              else Ok(script + Exchange(conn.card, old(conn.sent), Plan(Locators(bs))))
  {
    var bytes := ValueBytes(afl);
    if bytes.Err? {
      return Err(bytes.failure);
    }
    var bs := bytes.value;
    ghost var h := conn.sent;
    ghost var done: seq<Command> := [];
    var out := script;
    var i: nat := 0;
    while i < |bs|
      invariant Aligned(|bs|, i)
      invariant Pending(bs, i, done)
      invariant conn.sent == h + done
      invariant Recorded(conn.card, h, script, done, out)
      decreases |bs| - i
    {
      var stop;
      stop, out, done := ReadEntryAt(conn, bs, i, h, done, script, out);
      if stop {
        return Err(IndexError);
      }
      AlignedNext(|bs|, i);
      i := i + 4;
    }
    DoneAt(bs, i, done);
    return Ok(out);
  }
}
