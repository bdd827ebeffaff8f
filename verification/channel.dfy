/**
 * The SmartSDR command connection (`flexclient/tcp_client.py`): commands go
 * out as `C<seq>|<command>`, replies come back as `R<seq>|<hex status>|<message>`
 * and are matched to the waiting command by sequence number; `S`/`V` status
 * lines feed the GUI-client table and are passed on to the status consumer.
 *
 * The waiting thread, the lock and the event are replaced by an explicit
 * schedule: the lines the receive thread handles between sending a command
 * and the end of the wait are a parameter (`arrivals`), and a command whose
 * reply is not among them times out.
 */
module Channel {
  import opened Base
  import opened Text
  import opened StatusCodes
  import opened Clients
  import Lines

  datatype Reply = Reply(status: nat, message: string)

  datatype Response = Response(sn: nat, reply: Reply)

  datatype CommandError =
    | Timeout(cmd: string)
    | Rejected(cmd: string, status: nat, detail: string)

  /** The text of the `RuntimeError` raised by `send_command`. */
  function ErrorText(e: CommandError): string {
    match e
    case Timeout(cmd) => "Command timeout: " + cmd
    case Rejected(cmd, _, detail) =>
      "Radio rejected command: " + cmd + (if detail == "" then "" else " -> " + detail)
  }

  /** The two failures are told apart by their text, and a non-empty detail closes a rejection's text. */
  lemma ErrorTextKind(e: CommandError)
    ensures StartsWith(ErrorText(e), "Command timeout: ") <==> e.Timeout?
    ensures e.Rejected? ==> StartsWith(ErrorText(e), "Radio rejected command: " + e.cmd)
    ensures e.Rejected? && e.detail != "" ==> EndsWith(ErrorText(e), " -> " + e.detail)
    ensures e.Rejected? && e.detail == "" ==> ErrorText(e) == "Radio rejected command: " + e.cmd
  {
    var t := ErrorText(e);
    if e.Rejected? {
      assert t[0] == 'R';
      var head := "Radio rejected command: " + e.cmd;
      assert t[..|head|] == head;
      if e.detail != "" {
        EndsWithAppend(head, " -> " + e.detail);
      }
    }
  }

  // ---------------------------------------------------------------- framing

  /** The line a command goes out as: `C<seq>|<command>` and a newline. */
  function Frame(sn: nat, cmd: string): string {
    "C" + Decimal(sn) + "|" + cmd + "\n"
  }

  /** How the radio reads a command line (without its `\n`): sequence number and command. */
  function ParseFrame(line: string): Option<(nat, string)> {
    if |line| == 0 || line[0] != 'C' then None
    else match SplitOnce(line[1..], '|')
      case None => None
      case Some((n, cmd)) =>
        match ParseNat(n)
        case None => None
        case Some(sn) => Some((sn, cmd))
  }

  /**
   * A command without newlines is one line on the stream, and the radio reads
   * back the sequence number and the command from it.
   */
  lemma FrameRoundTrip(sn: nat, cmd: string)
    requires Lines.NoNewline(cmd)
    ensures var d := Lines.Drain(Frame(sn, cmd));
      |d.0| == 1 && d.1 == "" && ParseFrame(d.0[0]) == Some((sn, cmd))
  {
    var digits := Decimal(sn);
    var line := "C" + digits + "|" + cmd;
    DigitsExclude(digits, 10, '\n');
    DigitsExclude(digits, 10, '|');
    assert Lines.NoNewline(line) by {
      assert line == "C" + digits + "|" + cmd;
    }
    assert Frame(sn, cmd) == Lines.Unsplit([line], "");
    Lines.DrainUnsplit([line], "");
    assert line[1..] == digits + ['|'] + cmd;
    SplitOnceAt(digits, '|', cmd);
    DecimalRoundTrip(sn);
  }

  // ---------------------------------------------------------------- replies

  /**
   * `R<seq>|<status>|<message>` as `_handle_line` splits it: the text after
   * the `R` cut at its first two `|`, the sequence number in decimal, the status in hex, the message empty when
   * the third part is missing; a line with fewer than two parts or a field
   * `int()` refuses is ignored.
   */
  function ParseResponse(line: string): (r: Option<Response>)
    ensures r.Some? ==> StartsWith(line, "R") && '|' in line
  {
    if |line| == 0 || line[0] != 'R' then None
    else match SplitOnce(line[1..], '|')
      case None => None
      case Some((a, rest)) =>
        var parts := SplitOnce(rest, '|');
        var b := if parts.Some? then parts.value.0 else rest;
        var message := if parts.Some? then parts.value.1 else "";
        match (ParseNat(a), ParseHex(b))
        case (Some(sn), Some(status)) =>
          assert line == [line[0]] + line[1..];
          Some(Response(sn, Reply(status, message)))
        case _ => None
  }

  /** A reply line as the radio writes it: eight hex digits of status. */
  function FormatResponse(r: Response): string {
    "R" + Decimal(r.sn) + "|" + Hex(r.reply.status, 8, false) + "|" + r.reply.message
  }

  /** Every reply reads back as itself, even when its message holds `|`. */
  lemma ResponseRoundTrip(r: Response)
    ensures ParseResponse(FormatResponse(r)) == Some(r)
  {
    var digits := Decimal(r.sn);
    var hex := Hex(r.reply.status, 8, false);
    var line := FormatResponse(r);
    DigitsExclude(digits, 10, '|');
    DigitsExclude(hex, 16, '|');
    assert line[1..] == digits + ['|'] + (hex + ['|'] + r.reply.message);
    SplitOnceAt(digits, '|', hex + ['|'] + r.reply.message);
    SplitOnceAt(hex, '|', r.reply.message);
    DecimalRoundTrip(r.sn);
    HexRoundTrip(r.reply.status, 8, false);
  }

  /** A reply without a message part carries the empty message. */
  lemma ShortResponse(sn: nat, status: nat)
    ensures ParseResponse("R" + Decimal(sn) + "|" + Hex(status, 8, false)) == Some(Response(sn, Reply(status, "")))
  {
    var digits := Decimal(sn);
    var hex := Hex(status, 8, false);
    var line := "R" + digits + "|" + hex;
    DigitsExclude(digits, 10, '|');
    DigitsExclude(hex, 16, '|');
    assert line[1..] == digits + ['|'] + hex;
    SplitOnceAt(digits, '|', hex);
    DecimalRoundTrip(sn);
    HexRoundTrip(status, 8, false);
  }

  /**
   * A sign before the status makes the reply unreadable here: `ParseHex`
   * takes digits only, so the line is dropped where `int(x, 16)` would read a
   * negative status.
   */
  lemma SignedStatusDropped(sn: nat, status: nat, message: string)
    ensures ParseResponse("R" + Decimal(sn) + "|-" + Hex(status, 8, false) + "|" + message).None?
  {
    var digits := Decimal(sn);
    var b := "-" + Hex(status, 8, false);
    DigitsExclude(digits, 10, '|');
    DigitsExclude(Hex(status, 8, false), 16, '|');
    assert '|' !in b;
    var rest := b + "|" + message;
    var line := "R" + digits + "|-" + Hex(status, 8, false) + "|" + message;
    assert line == "R" + digits + "|" + rest;
    assert line[1..] == digits + ['|'] + rest;
    SplitOnceAt(digits, '|', rest);
    assert rest == b + ['|'] + message;
    SplitOnceAt(b, '|', message);
    assert b[0] == '-';
    assert ParseDigits(b, 16).None?;
    assert ParseHex(b).None?;
  }

  /** Likewise a sign before the sequence number: `ParseNat` takes digits only. */
  lemma SignedSequenceDropped(sn: nat, status: nat, message: string)
    ensures ParseResponse("R-" + Decimal(sn) + "|" + Hex(status, 8, false) + "|" + message).None?
  {
    var a := "-" + Decimal(sn);
    DigitsExclude(Decimal(sn), 10, '|');
    assert '|' !in a;
    var rest := Hex(status, 8, false) + "|" + message;
    var line := "R-" + Decimal(sn) + "|" + Hex(status, 8, false) + "|" + message;
    assert line == "R" + a + "|" + rest;
    assert line[1..] == a + ['|'] + rest;
    SplitOnceAt(a, '|', rest);
    assert a[0] == '-';
    assert ParseNat(a).None?;
  }

  // ------------------------------------------------------------ the channel

  datatype Channel = Channel(
    nextSeq: nat,                          // `_seq`
    waiting: map<nat, Option<Reply>>,      // `_responses`: the reply once it has arrived
    pending: map<nat, string>,             // `_pending_cmds`
    clients: seq<GuiClient>,               // `_gui_clients`, in insertion order
    logged: set<nat>)                      // the process-wide unmapped-status set

  /** A fresh connection: sequence numbers start at 1. */
  function Init(logged: set<nat>): Channel {
    Channel(1, map[], map[], [], logged)
  }

  /**
   * Waiting commands have sequence numbers already handed out, each has its
   * command text, the client table has the shape of a dictionary and the
   * logged set holds unmapped codes only.
   */
  predicate Valid(ch: Channel) {
    && ch.nextSeq >= 1
    && (forall k :: k in ch.waiting ==> 1 <= k < ch.nextSeq)
    && ch.waiting.Keys == ch.pending.Keys
    && Table(ch.clients)
    && Clean(ch.logged)
  }

  lemma InitValid(logged: set<nat>)
    requires Clean(logged)
    ensures Valid(Init(logged)) && Init(logged).nextSeq == 1
  {
  }

  /** The first half of `send_command`: take a number, register the command, frame it. */
  function Issue(ch: Channel, cmd: string): (r: (Channel, nat, string))
    ensures r.1 == ch.nextSeq && r.0.nextSeq == ch.nextSeq + 1
    ensures Valid(ch) ==> r.1 !in ch.waiting && Valid(r.0)
    ensures r.1 in r.0.waiting && r.0.waiting[r.1].None? && r.1 in r.0.pending && r.0.pending[r.1] == cmd
    ensures forall k :: k in ch.waiting && k != r.1 ==> k in r.0.waiting && r.0.waiting[k] == ch.waiting[k]
  {
    var sn := ch.nextSeq;
    (ch.(nextSeq := sn + 1, waiting := ch.waiting[sn := None], pending := ch.pending[sn := cmd]), sn, Frame(sn, cmd))
  }

  /** A status or version line: `S…` or `V…`. */
  predicate IsStatusLine(line: string) {
    StartsWith(line, "S") || StartsWith(line, "V")
  }

  /**
   * `_handle_line`: a reply is recorded for a command still waiting and a
   * non-zero status is noted; a status line updates the GUI-client table from
   * the text after its first `|` and is passed on; anything else is dropped.
   */
  function HandleLine(ch: Channel, line: string): (r: (Channel, Option<string>))
    ensures r.1.Some? <==> IsStatusLine(line)
    ensures r.1.Some? ==> r.1.value == line
    ensures r.0.nextSeq == ch.nextSeq && r.0.pending == ch.pending && r.0.waiting.Keys == ch.waiting.Keys
    ensures Valid(ch) ==> Valid(r.0)
    ensures ch.logged <= r.0.logged
  {
    if StartsWith(line, "R") then
      match ParseResponse(line)
      case None => (ch, None)
      case Some(resp) => (Record(ch, resp), None)
    else if IsStatusLine(line) then (Observe(ch, line), Some(line))
    else (ch, None)
  }

  /** A reply fills its command's slot, if that command still waits; a non-zero status is noted. */
  function Record(ch: Channel, resp: Response): (r: Channel)
    ensures r.nextSeq == ch.nextSeq && r.pending == ch.pending && r.clients == ch.clients
    ensures resp.sn in ch.waiting ==> r.waiting == ch.waiting[resp.sn := Some(resp.reply)]
    ensures resp.sn !in ch.waiting ==> r.waiting == ch.waiting
    ensures ch.logged <= r.logged && (Clean(ch.logged) ==> Clean(r.logged))
  {
    var logged := if resp.reply.status != 0 then NoteStatus(ch.logged, resp.reply.status).0 else ch.logged;
    var waiting := if resp.sn in ch.waiting then ch.waiting[resp.sn := Some(resp.reply)] else ch.waiting;
    ch.(logged := logged, waiting := waiting)
  }

  /** A status line updates the GUI-client table from the text after its first `|`. */
  function Observe(ch: Channel, line: string): (r: Channel)
    ensures r == ch.(clients := r.clients)
    ensures Table(ch.clients) ==> Table(r.clients)
  {
    var clients := match SplitOnce(line, '|')
      case None => ch.clients
      case Some((_, payload)) => Capture(ch.clients, payload);
    ch.(clients := clients)
  }

  /** What a handled line does to one waiting command's slot. */
  lemma HandleLineSlot(ch: Channel, line: string, sn: nat)
    requires sn in ch.waiting
    ensures var p := ParseResponse(line);
      HandleLine(ch, line).0.waiting[sn] ==
        if p.Some? && p.value.sn == sn then Some(p.value.reply) else ch.waiting[sn]
  {
  }

  /** The lines handled one after the other, with what was passed on. */
  function HandleLines(ch: Channel, lines: seq<string>): (r: (Channel, seq<string>))
    ensures r.0.nextSeq == ch.nextSeq && r.0.pending == ch.pending && r.0.waiting.Keys == ch.waiting.Keys
    ensures Valid(ch) ==> Valid(r.0)
    ensures ch.logged <= r.0.logged
    decreases |lines|
  {
    if |lines| == 0 then (ch, [])
    else
      var (ch1, out) := HandleLine(ch, lines[0]);
      var (ch2, outs) := HandleLines(ch1, lines[1..]);
      (ch2, (if out.Some? then [out.value] else []) + outs)
  }

  /** The status lines among `lines`, in order. */
  function StatusLines(lines: seq<string>): (r: seq<string>)
    ensures forall k :: 0 <= k < |r| ==> IsStatusLine(r[k]) && r[k] in lines
    decreases |lines|
  {
    if |lines| == 0 then []
    else (if IsStatusLine(lines[0]) then [lines[0]] else []) + StatusLines(lines[1..])
  }

  /** Exactly the status lines are passed on, in arrival order. */
  lemma {:induction false} HandleLinesPassesOn(ch: Channel, lines: seq<string>)
    ensures HandleLines(ch, lines).1 == StatusLines(lines)
    decreases |lines|
  {
    if |lines| > 0 {
      HandleLinesPassesOn(HandleLine(ch, lines[0]).0, lines[1..]);
    }
  }

  /** The reply of the last line among `lines` answering `sn`, if any. */
  function LastReply(lines: seq<string>, sn: nat): (r: Option<Reply>)
    ensures r.Some? ==> exists k :: 0 <= k < |lines| && ParseResponse(lines[k]) == Some(Response(sn, r.value))
    ensures r.None? ==> forall k :: 0 <= k < |lines| ==> ParseResponse(lines[k]).None? || ParseResponse(lines[k]).value.sn != sn
    decreases |lines|
  {
    if |lines| == 0 then None
    else
      var later := LastReply(lines[1..], sn);
      if later.Some? then
        var k :| 0 <= k < |lines[1..]| && ParseResponse(lines[1..][k]) == Some(Response(sn, later.value));
        assert lines[k + 1] == lines[1..][k];
        later
      else
        match ParseResponse(lines[0])
        case Some(Response(n, reply)) =>
          if n == sn then Some(reply)
          else
            assert forall k :: 1 <= k < |lines| ==> lines[k] == lines[1..][k - 1];
            None
        case None =>
          assert forall k :: 1 <= k < |lines| ==> lines[k] == lines[1..][k - 1];
          None
  }

  /** A waiting command's slot ends up holding the last reply that answered it, if one did. */
  lemma {:induction false} HandleLinesSlot(ch: Channel, lines: seq<string>, sn: nat)
    requires sn in ch.waiting
    ensures sn in HandleLines(ch, lines).0.waiting
    ensures HandleLines(ch, lines).0.waiting[sn] ==
      if LastReply(lines, sn).Some? then LastReply(lines, sn) else ch.waiting[sn]
    decreases |lines|
  {
    if |lines| > 0 {
      var ch1 := HandleLine(ch, lines[0]).0;
      HandleLineSlot(ch, lines[0], sn);
      HandleLinesSlot(ch1, lines[1..], sn);
    }
  }

  /**
   * The second half of `send_command`: both tables forget the command; no
   * reply is a timeout, a non-zero status a rejection (noted, with the
   * stripped message as detail), status 0 returns the message as it came.
   */
  function Complete(ch: Channel, sn: nat, cmd: string): (r: (Channel, Result<string, CommandError>))
    ensures sn !in r.0.waiting && sn !in r.0.pending && r.0.nextSeq == ch.nextSeq
    ensures r.0.waiting == ch.waiting - {sn} && r.0.pending == ch.pending - {sn}
    ensures Valid(ch) ==> Valid(r.0)
    ensures r.1.Err? && r.1.error.Rejected? ==> r.1.error.status in Messages || r.1.error.status in r.0.logged
  {
    var result: Option<Reply> := if sn in ch.waiting then ch.waiting[sn] else None;
    var ch1 := ch.(waiting := ch.waiting - {sn}, pending := ch.pending - {sn});
    match result
    case None => (ch1, Err(Timeout(cmd)))
    case Some(Reply(status, message)) =>
      if status != 0 then
        (ch1.(logged := NoteStatus(ch1.logged, status).0), Err(Rejected(cmd, status, Strip(message))))
      else (ch1, Ok(message))
  }

  /** What `send_command` makes of the reply it found, if any. */
  function Outcome(cmd: string, got: Option<Reply>): Result<string, CommandError> {
    match got
    case None => Err(Timeout(cmd))
    case Some(Reply(status, message)) =>
      if status != 0 then Err(Rejected(cmd, status, Strip(message))) else Ok(message)
  }

  /**
   * `send_command(cmd)` with `arrivals` handled during the wait: the frame
   * sent, the outcome, and the status lines passed on meanwhile.
   */
  function SendCommand(ch: Channel, cmd: string, arrivals: seq<string>): (r: (Channel, string, Result<string, CommandError>, seq<string>)) {
    var (ch1, sn, frame) := Issue(ch, cmd);
    var (ch2, passed) := HandleLines(ch1, arrivals);
    var (ch3, result) := Complete(ch2, sn, cmd);
    (ch3, frame, result, passed)
  }

  /**
   * The outcome is decided by the last reply carrying the command's number:
   * none is a timeout. Afterwards the tables hold exactly the commands they
   * held before, the next command gets the next number, and the status lines
   * that arrived meanwhile have been passed on in order.
   */
  lemma SendCommandOutcome(ch: Channel, cmd: string, arrivals: seq<string>)
    requires Valid(ch)
    ensures var r := SendCommand(ch, cmd, arrivals);
      && r.1 == Frame(ch.nextSeq, cmd)
      && r.2 == Outcome(cmd, LastReply(arrivals, ch.nextSeq))
      && r.0.waiting.Keys == ch.waiting.Keys && r.0.pending == ch.pending
      && r.0.nextSeq == ch.nextSeq + 1
      && Valid(r.0)
      && r.3 == StatusLines(arrivals)
  {
    var (ch1, sn, frame) := Issue(ch, cmd);
    var (ch2, passed) := HandleLines(ch1, arrivals);
    HandleLinesSlot(ch1, arrivals, sn);
    HandleLinesPassesOn(ch1, arrivals);
    assert ch2.waiting[sn] == LastReply(arrivals, ch.nextSeq);
    var (ch3, result) := Complete(ch2, sn, cmd);
    assert result == Outcome(cmd, LastReply(arrivals, ch.nextSeq)) by { CompleteOutcome(ch2, sn, cmd); }
    assert sn !in ch.pending;
    RemoveAdded(ch.pending, sn, cmd);
    RemoveAdded(ch.waiting, sn, None);
  }

  /** Adding a fresh key and removing it again changes nothing. */
  lemma RemoveAdded<K, V>(m: map<K, V>, k: K, v: V)
    requires k !in m
    ensures m[k := v] - {k} == m
  {
  }

  /** The command's outcome is read from its slot. */
  lemma CompleteOutcome(ch: Channel, sn: nat, cmd: string)
    requires sn in ch.waiting
    ensures Complete(ch, sn, cmd).1 == Outcome(cmd, ch.waiting[sn])
  {
  }

  /** With no reply among the arrivals the command times out. */
  lemma NoReplyTimesOut(ch: Channel, cmd: string, arrivals: seq<string>)
    requires Valid(ch)
    requires forall k :: 0 <= k < |arrivals| ==> !StartsWith(arrivals[k], "R")
    ensures SendCommand(ch, cmd, arrivals).2 == Err(Timeout(cmd))
  {
    SendCommandOutcome(ch, cmd, arrivals);
  }

  /** A reply that arrives after its command gave up is dropped. */
  lemma LateReplyDropped(ch: Channel, cmd: string, arrivals: seq<string>, late: Reply)
    requires Valid(ch)
    ensures var after := SendCommand(ch, cmd, arrivals).0;
      var line := FormatResponse(Response(ch.nextSeq, late));
      HandleLine(after, line).0.waiting == after.waiting
  {
    SendCommandOutcome(ch, cmd, arrivals);
    ResponseRoundTrip(Response(ch.nextSeq, late));
  }

  // ------------------------------------------------------------ client list

  /**
   * `refresh_client_list`: `client list` is sent; on any failure the counts
   * are `(0, 0)`, otherwise every non-blank line of the reply is captured.
   */
  function RefreshClientList(ch: Channel, arrivals: seq<string>): (r: (Channel, (nat, nat))) {
    var (ch1, _, result, _) := SendCommand(ch, "client list", arrivals);
    var (cs, lines, added) := Refresh(ch1.clients, if result.Ok? then Some(result.value) else None);
    (ch1.(clients := cs), (lines, added))
  }

  /** A failed `client list` reports nothing; a successful one counts the reply's lines and the new ids. */
  lemma RefreshClientListCounts(ch: Channel, arrivals: seq<string>)
    requires Valid(ch)
    ensures var r := RefreshClientList(ch, arrivals);
      var res := SendCommand(ch, "client list", arrivals);
      && Valid(r.0)
      && (res.2.Err? ==> r.1 == (0, 0) && r.0 == res.0)
      && (res.2.Ok? ==> r.1.0 == |NonBlankLines(res.2.value)| &&
                        |r.0.clients| == |res.0.clients| + r.1.1)
  {
    SendCommandOutcome(ch, "client list", arrivals);
    var res := SendCommand(ch, "client list", arrivals);
    if res.2.Ok? {
      RefreshCounts(res.0.clients, res.2.value);
    }
  }
}
