/** The card side of the exchange, and the transcript the tool keeps of it.

    `connection.transmit(apdu)` is the only call into the card. It is modelled as an
    oracle: the card's reply is a function of every command sent on the connection so
    far, the current one included, so a card that answers differently after a SELECT
    or after a failed command is covered. */
module Card {

  import opened Results
  import opened Bytes
  import opened Apdu

  /** What `transmit` returns: the response data and the two status bytes. */
  datatype Reply = Reply(data: seq<byte>, sw1: byte, sw2: byte)

  /** Status word 90 00, the only outcome the tool treats as success. */
  predicate Success(r: Reply)
  {
    r.sw1 == 0x90 && r.sw2 == 0x00
  }

  /** The card: its reply after a given history of commands (the last one is the
      command being answered). */
  type Oracle = seq<Command> -> Reply

  /** One element of the tool's `script`: the command sent and the response data the
      card gave. The script holds them as text (`ApduText`, `ResponseText`); the text
      is a function of the bytes and reads back as them (`RecordedCommand`,
      `RecordedResponse`), so the step keeps the bytes. */
  datatype Step = Step(command: Command, response: seq<byte>)

  /** The `"apdu"` text of a step: the command in lower-case hex, without separators. */
  function ApduText(s: Step): string
  {
    Lower(HexString(s.command))
  }

  /** The `"response"` text of a step: the data in upper-case hex, without separators. */
  function ResponseText(s: Step): string
  {
    HexString(s.response)
  }

  /** `script.append(...)` of a command and the card's reply to it: the status word
      is not kept. */
  function Record(c: Command, reply: Reply): Step
  {
    Step(c, reply.data)
  }

  /** The recorded response is the upper-case hex of the response data, which
      `bytes.fromhex` reads back as that data. */
  lemma RecordedResponse(c: Command, reply: Reply)
    ensures ResponseText(Record(c, reply)) == UpperHex(reply.data)
    ensures Unhexlify(ResponseText(Record(c, reply))) == Some(reply.data)
  {
    HexStringOfBytes(reply.data);
    FromUpperHex(reply.data);
  }

  /** Every step's response text reads back as its response data. */
  lemma ResponseReadsBack(s: Step)
    ensures Unhexlify(ResponseText(s)) == Some(s.response)
  {
    RecordedResponse(s.command, Reply(s.response, 0x90, 0x00));
  }

  /** The recorded command of a command made of bytes is its lower-case hex, which
      reads back as the command. */
  lemma RecordedCommand(c: seq<byte>, reply: Reply)
    ensures ApduText(Record(c, reply)) == LowerHex(c)
    ensures Unhexlify(ApduText(Record(c, reply))) == Some(c)
  {
    HexStringOfBytes(c);
    LowerOfUpperHex(c);
    FromLowerHex(c);
  }

  /** Any command is recorded as the lower-case hex of its elements modulo 256, and
      reads back as those bytes: an element above 255 (a length computed with `len`)
      is not recorded as itself. */
  lemma RecordedCommandWraps(c: Command, reply: Reply)
    ensures ApduText(Record(c, reply)) == LowerHex(Wrap(c))
    ensures Unhexlify(ApduText(Record(c, reply))) == Some(Wrap(c))
    ensures Unhexlify(ApduText(Record(c, reply))) == Some(c) <==> forall k :: 0 <= k < |c| ==> c[k] < 256
  {
    HexStringWraps(c);
    LowerOfUpperHex(Wrap(c));
    FromLowerHex(Wrap(c));
    WrapIdentity(c);
  }

  /** What a stretch of the session comes to: its result, or the exception that ended
      it, and the commands sent on the connection by then. */
  datatype Run<T> = Run(outcome: Result<T>, sent: seq<Command>)

  /** A connection to one card: the oracle and the commands sent on it so far. */
  class Connection {

    const card: Oracle
    var sent: seq<Command>

    constructor (card: Oracle)
      ensures this.card == card && sent == []
    {
      this.card := card;
      sent := [];
    }

    /** `send_apdu(connection, apdu)`: the command is sent, the card answers. */
    method Transmit(c: Command) returns (reply: Reply)
      modifies this
      ensures sent == old(sent) + [c]
      ensures reply == card(sent)
    {
      sent := sent + [c];
      reply := card(sent);
    }
  }
}
