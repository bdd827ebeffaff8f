/**
 * The single-file client `flex_client.py` that the package replaced, where
 * it differs from the package: a radio record without GUI-client lists, a
 * different error text, a setup that creates its own panadapter, and a
 * status monitor without the package's guard against panadapter id 0.
 * What it shares with the package (command framing, reply parsing,
 * `_extract_key`, `_parse_freq_to_mhz`, the VITA-49 receiver, the
 * discovery datagram test) is the package's model, reused here.
 */
module Legacy {
  import opened Base
  import opened Text
  import opened KeyValue
  import opened Models
  import Wire
  import Channel
  import Exchange
  import Monitor
  import Setup
  import Discovery

  // ------------------------------------------------------------ discovery

  /** The legacy radio record: no GUI-client lists. */
  datatype LegacyRadio = LegacyRadio(ip: string, port: nat, model: string, serial: string, version: string)

  /** The fields the legacy record keeps of the package's record. */
  function Project(r: FlexRadio): (l: LegacyRadio)
    ensures l.ip == r.ip && l.port == r.port && l.model == r.model && l.serial == r.serial && l.version == r.version
  {
    LegacyRadio(r.ip, r.port, r.model, r.serial, r.version)
  }

  /** `_parse_discovery`: the same dictionary and defaults as the package, fewer fields. */
  function ParseDiscovery(msg: string, ip: string): (r: LegacyRadio)
    ensures r.port == Discovery.FlexTcpPort
  {
    var kv := KeyValues(Words(msg));
    LegacyRadio(Get(kv, "ip", ip), Discovery.FlexTcpPort, Get(kv, "model", "unknown"),
      Get(kv, "serial", ""), Get(kv, "version", ""))
  }

  /** The package reads every field the legacy parser reads, with the same value. */
  lemma ParseDiscoveryAgrees(msg: string, ip: string)
    ensures ParseDiscovery(msg, ip) == Project(Discovery.ParseDiscovery(msg, ip))
  {
  }

  /** `discover`: the same datagram test and the same stop at the first reply. */
  function Discover(datagrams: seq<(Wire.Bytes, string)>): (radios: seq<LegacyRadio>)
    ensures |radios| == |Discovery.Discover(datagrams)|
    ensures forall k :: 0 <= k < |radios| ==> radios[k] == Project(Discovery.Discover(datagrams)[k])
  {
    match Discovery.FirstReply(datagrams)
    case None => []
    case Some(i) =>
      var d := datagrams[i];
      ParseDiscoveryAgrees(Discovery.DiscoveryText(d.0).value, d.1);
      [ParseDiscovery(Discovery.DiscoveryText(d.0).value, d.1)]
  }

  // ------------------------------------------------------------- commands

  /**
   * `send_command`'s outcome with the legacy error text: a refusal shows the
   * status as eight lower-case hex digits and the reply's message as
   * received, unstripped.
   */
  function Outcome(cmd: string, got: Option<Channel.Reply>): (r: Result<string, string>)
    ensures r.Ok? <==> Channel.Outcome(cmd, got).Ok?
    ensures r.Ok? ==> r.value == Channel.Outcome(cmd, got).value
  {
    match got
    case None => Err("Command timeout: " + cmd)
    case Some(reply) =>
      if reply.status != 0 then
        Err("Command failed (0x" + Hex(reply.status, 8, false) + "): " + cmd + " -> " + reply.message)
      else Ok(reply.message)
  }

  /**
   * The texts: a timeout reads as in the package; a refusal names the status
   * in eight lower-case hex digits and ends with the message as received.
   */
  lemma OutcomeText(cmd: string, got: Option<Channel.Reply>)
    ensures got.None? ==> Outcome(cmd, got) == Err(Channel.ErrorText(Channel.Timeout(cmd)))
    ensures got.Some? && got.value.status != 0 ==>
      var t := Outcome(cmd, got).error;
      StartsWith(t, "Command failed (0x" + Hex(got.value.status, 8, false) + "): " + cmd) &&
      EndsWith(t, " -> " + got.value.message)
  {
    if got.Some? && got.value.status != 0 {
      var head := "Command failed (0x" + Hex(got.value.status, 8, false) + "): " + cmd;
      var text := head + (" -> " + got.value.message);
      assert Outcome(cmd, got).error == text;
      assert text[..|head|] == head;
      EndsWithAppend(head, " -> " + got.value.message);
    }
  }

  /** Sending to the scripted radio: the radio side is the package's, the outcome the legacy one. */
  function Send(ex: Exchange.Radio, cmd: string): (r: (Exchange.Radio, Result<string, string>))
    ensures r.0 == Exchange.Send(ex, cmd).0
    ensures r.1.Ok? <==> Exchange.Send(ex, cmd).1.Ok?
    ensures r.1.Ok? ==> r.1.value == Exchange.Send(ex, cmd).1.value
  {
    (Exchange.Send(ex, cmd).0, Outcome(cmd, if |ex.script| > 0 then ex.script[0] else None))
  }

  /**
   * The legacy connection's tables: the sequence counter and the reply
   * slots, without the package's command texts, client table or logged codes.
   */
  datatype Conn = Conn(nextSeq: nat, waiting: map<nat, Option<Channel.Reply>>)

  /** The part of a package connection the legacy one also keeps. */
  function Core(ch: Channel.Channel): Conn {
    Conn(ch.nextSeq, ch.waiting)
  }

  /** The first half of the legacy `send_command`: take a number, open its slot, frame the command. */
  function Issue(c: Conn, cmd: string): (r: (Conn, nat, string))
    ensures r.1 == c.nextSeq && r.0.nextSeq == c.nextSeq + 1
    ensures r.1 in r.0.waiting && r.0.waiting[r.1].None?
  {
    var sn := c.nextSeq;
    (Conn(sn + 1, c.waiting[sn := None]), sn, Channel.Frame(sn, cmd))
  }

  /** The legacy `_handle_line`: the package's reply grammar; a status line is passed on and nothing is captured. */
  function HandleLine(c: Conn, line: string): (r: (Conn, Option<string>))
    ensures r.0.nextSeq == c.nextSeq && r.0.waiting.Keys == c.waiting.Keys
    ensures r.1.Some? <==> Channel.IsStatusLine(line)
  {
    if StartsWith(line, "R") then
      match Channel.ParseResponse(line)
      case None => (c, None)
      case Some(resp) =>
        (if resp.sn in c.waiting then c.(waiting := c.waiting[resp.sn := Some(resp.reply)]) else c, None)
    else if Channel.IsStatusLine(line) then (c, Some(line))
    else (c, None)
  }

  /** The second half of the legacy `send_command`: the slot is removed and its reply read with the legacy texts. */
  function Complete(c: Conn, sn: nat, cmd: string): (r: (Conn, Result<string, string>))
    ensures sn !in r.0.waiting && r.0.nextSeq == c.nextSeq
  {
    (c.(waiting := c.waiting - {sn}), Outcome(cmd, if sn in c.waiting then c.waiting[sn] else None))
  }

  /**
   * The legacy connection numbers, frames, fills and removes exactly as the
   * package does; only the error texts differ.
   */
  lemma ConnAgrees(ch: Channel.Channel, cmd: string, line: string, sn: nat)
    ensures var (ch', sn', frame) := Channel.Issue(ch, cmd);
      Issue(Core(ch), cmd) == (Core(ch'), sn', frame)
    ensures HandleLine(Core(ch), line) == (Core(Channel.HandleLine(ch, line).0), Channel.HandleLine(ch, line).1)
    ensures var (ch', res) := Channel.Complete(ch, sn, cmd);
      && Complete(Core(ch), sn, cmd).0 == Core(ch')
      && (Complete(Core(ch), sn, cmd).1.Ok? <==> res.Ok?)
      && (res.Ok? ==> Complete(Core(ch), sn, cmd).1.value == res.value)
  {
  }

  // -------------------------------------------------------------- monitor

  /** The fields of the legacy `DAXIQSetup` the monitor and setup read and write. */
  datatype State = State(
    panId: Option<nat>,
    sliceId: Option<nat>,
    streamId: Option<nat>,
    sliceFreqMHz: Option<real>,
    panFreqMHz: Option<real>,
    createdPan: bool)

  const Fresh := State(None, None, None, None, None, false)

  /** The same fields as a package session with no known panadapters. */
  function AsSession(s: State): Monitor.Session {
    Monitor.Session(s.panId, s.sliceId, s.streamId, s.sliceFreqMHz, s.panFreqMHz, None, map[])
  }

  /**
   * The stream clause: like the package's, except that `pan=` is assigned
   * whatever its value, 0 included.
   */
  function OnStream(s: State, line: string): (r: State)
    ensures r.streamId == s.streamId && r.sliceFreqMHz == s.sliceFreqMHz && r.createdPan == s.createdPan
  {
    match Monitor.StreamStatus(line)
    case None => s
    case Some((sid, payload)) =>
      if s.streamId.Some? && s.streamId.value != sid then s
      else StreamAssign(s, payload)
  }

  function StreamAssign(s: State, payload: string): (r: State)
    ensures r.streamId == s.streamId && r.sliceFreqMHz == s.sliceFreqMHz && r.createdPan == s.createdPan
  {
    var sliceText := Monitor.Truthy(Monitor.ExtractKey(payload, "slice"));
    var panText := Monitor.Truthy(Monitor.ExtractKey(payload, "pan"));
    if sliceText.Some? && ParseHex(sliceText.value).None? then s
    else
      var s1 := if sliceText.Some? then s.(sliceId := ParseHex(sliceText.value)) else s;
      if panText.None? then s1
      else match ParseHex(panText.value)
        case None => s1
        case Some(pan) => s1.(panId := Some(pan))
  }

  /** The slice clause is the package's, word for word. */
  function OnSlice(s: State, line: string): (r: State)
    ensures r == s.(sliceFreqMHz := r.sliceFreqMHz)
    ensures r.sliceFreqMHz == Monitor.OnSlice(AsSession(s), line).sliceFreqMHz
  {
    s.(sliceFreqMHz := Monitor.OnSlice(AsSession(s), line).sliceFreqMHz)
  }

  /**
   * The display-pan clause: any id is captured while no panadapter is
   * chosen, 0 included, and only the center frequency is tracked.
   */
  function OnDisplayPan(s: State, line: string): (r: State)
    ensures Monitor.DisplayPanId(line).None? ==> r == s
    ensures Monitor.DisplayPanId(line).Some? ==>
      r.panId == (if s.panId.None? then Monitor.DisplayPanId(line) else s.panId)
    ensures r == s.(panId := r.panId, panFreqMHz := r.panFreqMHz)
  {
    match Monitor.DisplayPanId(line)
    case None => s
    case Some(pan) =>
      var s1 := if s.panId.None? then s.(panId := Some(pan)) else s;
      if s1.panId.value != 0 && s1.panId.value == pan then
        var payload := Monitor.Payload(line).value;
        match Monitor.Truthy(Monitor.ExtractKey(payload, "center"))
        case None => s1
        case Some(text) => s1.(panFreqMHz := Monitor.Keep(s1.panFreqMHz, Monitor.FreqToMHz(text)))
      else s1
  }

  /** `_status_monitor`: the three clauses in order. */
  function OnLine(s: State, line: string): State {
    OnDisplayPan(OnSlice(OnStream(s, line), line), line)
  }

  function MonitorLines(s: State, lines: seq<string>): State
    decreases |lines|
  {
    if |lines| == 0 then s else MonitorLines(OnLine(s, lines[0]), lines[1..])
  }

  /** The monitor never changes the stream id or whether the panadapter was created here. */
  lemma {:induction false} MonitorKeeps(s: State, lines: seq<string>)
    ensures MonitorLines(s, lines).streamId == s.streamId
    ensures MonitorLines(s, lines).createdPan == s.createdPan
    decreases |lines|
  {
    if |lines| > 0 {
      MonitorKeeps(OnLine(s, lines[0]), lines[1..]);
    }
  }

  /**
   * The radio's status for a stream not yet on a slice or panadapter
   * (`slice=0 pan=0x00000000`) makes the legacy monitor choose panadapter 0,
   * where the package's monitor leaves the choice open.
   */
  lemma StreamLineTakesPanZero(sid: nat)
    ensures OnLine(Fresh, Monitor.StreamLine(sid, 0, 0)).panId == Some(0)
    ensures OnLine(Fresh, Monitor.StreamLine(sid, 0, 0)).sliceId == Some(0)
    ensures Monitor.OnLine(Monitor.Fresh, Monitor.StreamLine(sid, 0, 0)).panId != Some(0)
  {
    StreamLineZero(Fresh, sid);
    Monitor.OnLineNoZeroPan(Monitor.Fresh, Monitor.StreamLine(sid, 0, 0));
  }

  /** For our stream, or while it is unknown, that line sets slice 0 and panadapter 0. */
  lemma StreamLineZero(s: State, sid: nat)
    requires s.streamId.None? || s.streamId == Some(sid)
    ensures var r := OnLine(s, Monitor.StreamLine(sid, 0, 0));
      r.panId == Some(0) && r.sliceId == Some(0) && r.streamId == s.streamId
  {
    var line := Monitor.StreamLine(sid, 0, 0);
    StreamAssignZero(s, sid);
    var s1 := OnStream(s, line);
    assert s1.panId == Some(0) && s1.sliceId == Some(0);
    var s2 := OnSlice(s1, line);
    assert s2.panId == Some(0) && s2.sliceId == Some(0);
  }

  lemma StreamAssignZero(s: State, sid: nat)
    requires s.streamId.None? || s.streamId == Some(sid)
    ensures var r := OnStream(s, Monitor.StreamLine(sid, 0, 0));
      r.panId == Some(0) && r.sliceId == Some(0)
  {
    var line := Monitor.StreamLine(sid, 0, 0);
    var p := JoinSpace(Monitor.StreamTokens(sid, 0, 0));
    Monitor.StreamLineStatus(sid, 0, 0);
    Monitor.StreamPayload(sid, 0, 0);
    HexRoundTrip(0, 1, false);
    PrefixedHexRoundTrip(0, 8, false);
    Monitor.HexNonEmpty(0, 1, false);
    assert OnStream(s, line) == StreamAssign(s, p);
  }

  // ---------------------------------------------------------------- setup

  /** The legacy constructor's arguments and the value `setup` is called with. */
  datatype Config = Config(
    sampleRate: nat,
    daxChannel: nat,
    clientIp: string,          // `tcp.get_local_ip()`
    centerMHz: Option<real>)   // `center_freq_mhz`

  /** The UDP port the legacy client always asks the stream to be sent to. */
  const StreamPort: nat := 4991

  /** Why the legacy `setup` raises. */
  datatype SetupError =
    | NoCenter                    // `None * 1e6` raises `TypeError` before any command
    | CommandFailed(text: string) // `stream create` refused or timed out
    | BadStreamId(text: string)   // `int(text, 16)` raised
    | NoStream                    // empty or zero stream id

  /** `n` in exactly six decimal digits, zero-padded (`n < 10**6`). */
  function SixDigits(n: nat): (d: string)
    requires n < 1000000
    ensures |d| == 6 && AllDigits(d, 10) && DigitsValue(d, 10) == n
  {
    var t := Decimal(n);
    ToDigitsLength(n, 6);
    ToDigitsValue(n, 10, false);
    LeadingZeros(6 - |t|, t, 10);
    Zeros(6 - |t|) + t
  }

  /** A whole number of Hz written in MHz with six decimals, as the bandwidth setting is formatted. */
  function MHzText(hz: nat): string {
    Decimal(hz / 1000000) + "." + SixDigits(hz % 1000000)
  }

  function PanCreate(centerMHz: real): string {
    "display pan create freq=" + IntText(Setup.Trunc(centerMHz * 1000000.0)) +
    " ant=ANT1 rxant=ANT1 wide=0 loopa=0 loopb=0 band=0"
  }

  function PanBandwidth(pan: nat, rate: nat): string {
    "display pansetting " + Setup.PanHex(pan) + " bandwidth=" + MHzText(rate)
  }

  function StreamCreate(cfg: Config): string {
    Setup.StreamCreate(Setup.Config(cfg.daxChannel, StreamPort, None, cfg.clientIp, cfg.centerMHz))
  }

  function RateSet(channel: nat, rate: nat): string {
    "dax iq set " + Decimal(channel) + " rate=" + Decimal(rate)
  }

  /** The two spellings of a panadapter center change, in the order they are tried. */
  function CenterCommands(pan: nat, hz: int): seq<string> {
    ["display pansetting " + Setup.PanHex(pan) + " center=" + IntText(hz),
     "display pan set " + Hex(pan, 1, false) + " center=" + IntText(hz)]
  }

  function PanRemove(pan: nat): string {
    "display pan remove " + Setup.PanHex(pan)
  }

  /** A set panadapter id Python finds truthy. */
  predicate HasPan(s: State) {
    s.panId.Some? && s.panId.value != 0
  }

  /**
   * Creating the panadapter: the id is whatever the monitor captured by the
   * time the reply and the pause are over. A refused create, or no non-zero
   * id, drops the id and setup carries on without one; otherwise the
   * panadapter is ours and its bandwidth is set, a refusal being ignored.
   */
  function CreatePan(s: State, cfg: Config, centerMHz: real, ex: Exchange.Radio, burst: seq<string>)
    : (r: (State, Exchange.Radio))
    ensures r.0.panId.None? || r.0.panId.value != 0
    ensures r.0.createdPan != s.createdPan ==> r.0.createdPan && HasPan(r.0)
    ensures r.0.streamId == s.streamId
  {
    var (ex1, res) := Send(ex, PanCreate(centerMHz));
    var s1 := MonitorLines(s, burst);
    MonitorKeeps(s, burst);
    if res.Err? || !HasPan(s1) then (s1.(panId := None), ex1)
    else (s1.(createdPan := true), Send(ex1, PanBandwidth(s1.panId.value, cfg.sampleRate)).0)
  }

  /** On our own panadapter: list the streams, then point the DAXIQ channel at it (both may fail). */
  function Attach(s: State, cfg: Config, ex: Exchange.Radio): (r: Exchange.Radio) {
    if s.createdPan && HasPan(s) then
      Send(Send(ex, "stream list").0, Setup.DaxIqSet(cfg.daxChannel, s.panId.value)).0
    else ex
  }

  /**
   * The frequency step: a non-zero slice is tuned; with slice 0 and any
   * panadapter id, 0 included, the panadapter's center is set in one of two
   * spellings; otherwise only a warning.
   */
  function Retune(s: State, centerMHz: real, ex: Exchange.Radio): (r: Exchange.Radio) {
    if s.sliceId.Some? && s.sliceId.value != 0 then Send(ex, Setup.Tune(s.sliceId.value, centerMHz)).0
    else if s.sliceId == Some(0) && s.panId.Some? then
      Exchange.FirstAccepted(ex, CenterCommands(s.panId.value, Setup.Trunc(centerMHz * 1000000.0))).0
    else ex
  }

  /** After the stream exists: watch, subscribe to the panadapter, set the rate, retune. */
  function Finish(s: State, cfg: Config, centerMHz: real, ex: Exchange.Radio, later: seq<string>)
    : (r: (State, Exchange.Radio))
  {
    var s1 := MonitorLines(s, later);
    var ex1 := if HasPan(s1) then Send(ex, Setup.SubPan(s1.panId.value)).0 else ex;
    var ex2 := Send(ex1, RateSet(cfg.daxChannel, cfg.sampleRate)).0;
    (s1, Retune(s1, centerMHz, ex2))
  }

  /** What follows the `stream create` reply. */
  function Conclude(s: State, cfg: Config, centerMHz: real, ex: Exchange.Radio,
                    created: Result<string, string>, later: seq<string>)
    : (r: (State, Exchange.Radio, Result<nat, SetupError>))
  {
    match created
    case Err(text) => (s, ex, Err(CommandFailed(text)))
    case Ok(resp) =>
      match Setup.StreamIdOf(resp)
      case Err(text) => (s, ex, Err(BadStreamId(text)))
      case Ok(None) => (s.(streamId := None), ex, Err(NoStream))
      case Ok(Some(sid)) =>
        if sid == 0 then (s.(streamId := Some(0)), ex, Err(NoStream))
        else
          var (s2, ex2) := Finish(s.(streamId := Some(sid)), cfg, centerMHz, ex, later);
          (s2, ex2, Ok(sid))
  }

  /**
   * The legacy `setup`: create a panadapter, attach DAXIQ to it, create the
   * stream to port 4991, then subscribe, set the rate and retune. Status
   * lines are observed after the panadapter create (`burst`) and after the
   * stream create (`later`).
   */
  function SetupStream(s: State, cfg: Config, ex: Exchange.Radio, burst: seq<string>, later: seq<string>)
    : (r: (State, Exchange.Radio, Result<nat, SetupError>))
  {
    if cfg.centerMHz.None? then (s, ex, Err(NoCenter))
    else
      var c := cfg.centerMHz.value;
      var (s1, ex1) := CreatePan(s, cfg, c, ex, burst);
      var (ex2, created) := Send(Attach(s1, cfg, ex1), StreamCreate(cfg));
      Conclude(s1, cfg, c, ex2, created, later)
  }

  /** `b` is `a` with more commands sent. */
  predicate Extends(a: Exchange.Radio, b: Exchange.Radio) {
    |a.sent| <= |b.sent| && b.sent[..|a.sent|] == a.sent
  }

  lemma ExtendsTrans(a: Exchange.Radio, b: Exchange.Radio, c: Exchange.Radio)
    requires Extends(a, b) && Extends(b, c)
    ensures Extends(a, c)
  {
    assert c.sent[..|a.sent|] == c.sent[..|b.sent|][..|a.sent|];
  }

  lemma SendExtends(ex: Exchange.Radio, cmd: string)
    ensures Extends(ex, Send(ex, cmd).0)
  {
    assert Send(ex, cmd).0.sent[..|ex.sent|] == ex.sent;
  }

  /** The create step sends the panadapter create first, then perhaps its bandwidth. */
  lemma CreatePanSends(s: State, cfg: Config, centerMHz: real, ex: Exchange.Radio, burst: seq<string>)
    ensures Extends(Send(ex, PanCreate(centerMHz)).0, CreatePan(s, cfg, centerMHz, ex, burst).1)
  {
    var ex1 := Send(ex, PanCreate(centerMHz)).0;
    var s1 := MonitorLines(s, burst);
    if HasPan(s1) {
      SendExtends(ex1, PanBandwidth(s1.panId.value, cfg.sampleRate));
    }
  }

  lemma AttachExtends(s: State, cfg: Config, ex: Exchange.Radio)
    ensures Extends(ex, Attach(s, cfg, ex))
  {
    if s.createdPan && HasPan(s) {
      var ex1 := Send(ex, "stream list").0;
      SendExtends(ex, "stream list");
      SendExtends(ex1, Setup.DaxIqSet(cfg.daxChannel, s.panId.value));
      ExtendsTrans(ex, ex1, Attach(s, cfg, ex));
    }
  }

  lemma RetuneExtends(s: State, centerMHz: real, ex: Exchange.Radio)
    ensures Extends(ex, Retune(s, centerMHz, ex))
  {
    if s.sliceId.Some? && s.sliceId.value != 0 {
      SendExtends(ex, Setup.Tune(s.sliceId.value, centerMHz));
    } else if s.sliceId == Some(0) && s.panId.Some? {
      var cmds := CenterCommands(s.panId.value, Setup.Trunc(centerMHz * 1000000.0));
      Exchange.FirstAcceptedTries(ex, cmds);
    }
  }

  lemma FinishExtends(s: State, cfg: Config, centerMHz: real, ex: Exchange.Radio, later: seq<string>)
    ensures Extends(ex, Finish(s, cfg, centerMHz, ex, later).1)
  {
    var s1 := MonitorLines(s, later);
    var ex1 := if HasPan(s1) then Send(ex, Setup.SubPan(s1.panId.value)).0 else ex;
    if HasPan(s1) {
      SendExtends(ex, Setup.SubPan(s1.panId.value));
    }
    var ex2 := Send(ex1, RateSet(cfg.daxChannel, cfg.sampleRate)).0;
    SendExtends(ex1, RateSet(cfg.daxChannel, cfg.sampleRate));
    RetuneExtends(s1, centerMHz, ex2);
    ExtendsTrans(ex, ex1, ex2);
    ExtendsTrans(ex, ex2, Retune(s1, centerMHz, ex2));
  }

  /** The steps after the stream create only add commands, and a reported stream is the session's. */
  lemma ConcludeKeeps(s: State, cfg: Config, centerMHz: real, ex: Exchange.Radio,
                      created: Result<string, string>, later: seq<string>)
    ensures var (s', ex', res) := Conclude(s, cfg, centerMHz, ex, created, later);
      && Extends(ex, ex')
      && res != Err(NoCenter)
      && (res.Ok? ==> res.value != 0 && s'.streamId == Some(res.value))
  {
    if created.Ok? && Setup.StreamIdOf(created.value).Ok? && Setup.StreamIdOf(created.value).value.Some? {
      var sid := Setup.StreamIdOf(created.value).value.value;
      if sid != 0 {
        var s0 := s.(streamId := Some(sid));
        MonitorKeeps(s0, later);
        FinishExtends(s0, cfg, centerMHz, ex, later);
      }
    }
  }

  /**
   * Setup starts with the panadapter create and only adds to what was sent;
   * without a center it raises before sending anything; a reported stream
   * is non-zero and is the session's stream.
   */
  lemma SetupResult(s: State, cfg: Config, ex: Exchange.Radio, burst: seq<string>, later: seq<string>)
    ensures var (s', ex', res) := SetupStream(s, cfg, ex, burst, later);
      && (cfg.centerMHz.None? <==> res == Err(NoCenter))
      && (cfg.centerMHz.None? ==> ex' == ex && s' == s)
      && (cfg.centerMHz.Some? ==>
            |ex'.sent| > |ex.sent| && ex'.sent[..|ex.sent| + 1] == ex.sent + [PanCreate(cfg.centerMHz.value)])
      && (res.Ok? ==> res.value != 0 && s'.streamId == Some(res.value))
  {
    if cfg.centerMHz.Some? {
      var c := cfg.centerMHz.value;
      var ex0 := Send(ex, PanCreate(c)).0;
      var (s1, ex1) := CreatePan(s, cfg, c, ex, burst);
      CreatePanSends(s, cfg, c, ex, burst);
      var exa := Attach(s1, cfg, ex1);
      AttachExtends(s1, cfg, ex1);
      var (ex2, created) := Send(exa, StreamCreate(cfg));
      SendExtends(exa, StreamCreate(cfg));
      ConcludeKeeps(s1, cfg, c, ex2, created, later);
      var r := Conclude(s1, cfg, c, ex2, created, later);
      assert SetupStream(s, cfg, ex, burst, later) == r;
      ExtendsTrans(ex0, ex1, exa);
      ExtendsTrans(ex0, exa, ex2);
      ExtendsTrans(ex0, ex2, r.1);
      assert ex0.sent == ex.sent + [PanCreate(c)];
    }
  }

  /** The commands sent so far begin with `cmds`. */
  predicate SentFirst(ex: Exchange.Radio, cmds: seq<string>) {
    |cmds| <= |ex.sent| && ex.sent[..|cmds|] == cmds
  }

  /**
   * What setup sends when the panadapter create times out and the session
   * lands on panadapter 0: the create, the stream, the rate, then the first
   * spelling of a center change for panadapter 0.
   */
  function PanZeroCommands(cfg: Config, centerMHz: real): (r: seq<string>)
    ensures |r| == 4 && r[0] == PanCreate(centerMHz) && r[3] == CenterCommands(0, Setup.Trunc(centerMHz * 1000000.0))[0]
  {
    [PanCreate(centerMHz), StreamCreate(cfg), RateSet(cfg.daxChannel, cfg.sampleRate),
     CenterCommands(0, Setup.Trunc(centerMHz * 1000000.0))[0]]
  }

  /** The status lines seen after the stream create leave the monitor on slice 0 and panadapter 0. */
  predicate LandsOnPanZero(sid: nat, later: seq<string>) {
    var s := MonitorLines(Fresh.(streamId := Some(sid)), later);
    s.panId == Some(0) && s.sliceId == Some(0)
  }

  /** The new stream's first status, `slice=0 pan=0x00000000`, is such a line. */
  lemma StreamLineLands(sid: nat)
    ensures LandsOnPanZero(sid, [Monitor.StreamLine(sid, 0, 0)])
  {
    var s0 := Fresh.(streamId := Some(sid));
    StreamLineZero(s0, sid);
    MonitorOne(s0, Monitor.StreamLine(sid, 0, 0));
  }

  /**
   * The consequence of taking panadapter 0: when the create times out and
   * the new stream's status names slice 0 and panadapter 0 (as
   * `StreamLineLands` shows its first status does), setup succeeds and then
   * asks the radio to move the center of panadapter 0.
   */
  lemma SetupAddressesPanZero(sid: nat, cfg: Config, ex: Exchange.Radio, rest: seq<Option<Channel.Reply>>,
                              later: seq<string>)
    requires sid != 0 && cfg.centerMHz.Some? && LandsOnPanZero(sid, later)
    requires ex.script == [None, Some(Channel.Reply(0, Hex(sid, 8, false)))] + rest
    ensures var r := SetupStream(Fresh, cfg, ex, [], later);
      && r.2 == Ok(sid)
      && r.0.panId == Some(0)
      && SentFirst(r.1, ex.sent + PanZeroCommands(cfg, cfg.centerMHz.value))
  {
    var resp := Hex(sid, 8, false);
    var c := cfg.centerMHz.value;
    Setup.StreamReplyRead(sid);
    SetupOpens(resp, cfg, ex, rest, later);
    ConcludeOnPanZero(sid, resp, cfg, c, ex.sent, rest, later);
    var r := Conclude(Fresh, cfg, c, Exchange.Radio(ex.sent + [PanCreate(c), StreamCreate(cfg)], rest), Ok(resp), later);
    assert SetupStream(Fresh, cfg, ex, [], later) == r;
  }

  /** A timed-out create leaves no panadapter, and the stream create's reply is the next in the script. */
  lemma SetupOpens(resp: string, cfg: Config, ex: Exchange.Radio, rest: seq<Option<Channel.Reply>>, later: seq<string>)
    requires cfg.centerMHz.Some?
    requires ex.script == [None, Some(Channel.Reply(0, resp))] + rest
    ensures SetupStream(Fresh, cfg, ex, [], later) ==
      Conclude(Fresh, cfg, cfg.centerMHz.value,
               Exchange.Radio(ex.sent + [PanCreate(cfg.centerMHz.value), StreamCreate(cfg)], rest),
               Ok(resp), later)
  {
    var c := cfg.centerMHz.value;
    var ex1 := Exchange.Radio(ex.sent + [PanCreate(c)], [Some(Channel.Reply(0, resp))] + rest);
    assert ex.script[1..] == [Some(Channel.Reply(0, resp))] + rest;
    assert Send(ex, PanCreate(c)) == (ex1, Err("Command timeout: " + PanCreate(c)));
    assert MonitorLines(Fresh, []) == Fresh;
    assert CreatePan(Fresh, cfg, c, ex, []) == (Fresh, ex1);
    assert Attach(Fresh, cfg, ex1) == ex1;
    assert ex1.script[1..] == rest;
    assert ex1.sent + [StreamCreate(cfg)] == ex.sent + [PanCreate(c), StreamCreate(cfg)];
    assert Outcome(StreamCreate(cfg), ex1.script[0]) == Ok(resp);
    assert Send(ex1, StreamCreate(cfg)) ==
      (Exchange.Radio(ex.sent + [PanCreate(c), StreamCreate(cfg)], rest), Ok(resp));
  }

  /** The stream create's reply names `sid`; the later status lines then put the session on panadapter 0. */
  lemma ConcludeOnPanZero(sid: nat, resp: string, cfg: Config, centerMHz: real, sent: seq<string>, rest: seq<Option<Channel.Reply>>,
                          later: seq<string>)
    requires sid != 0 && Setup.StreamIdOf(resp) == Ok(Some(sid)) && LandsOnPanZero(sid, later)
    ensures var r := Conclude(Fresh, cfg, centerMHz, Exchange.Radio(sent + [PanCreate(centerMHz), StreamCreate(cfg)], rest),
                              Ok(resp), later);
      && r.2 == Ok(sid)
      && r.0.panId == Some(0)
      && SentFirst(r.1, sent + PanZeroCommands(cfg, centerMHz))
  {
    var ex := Exchange.Radio(sent + [PanCreate(centerMHz), StreamCreate(cfg)], rest);
    FinishOnPanZero(sid, cfg, centerMHz, ex, later);
    var fin := Finish(Fresh.(streamId := Some(sid)), cfg, centerMHz, ex, later);
    assert Conclude(Fresh, cfg, centerMHz, ex, Ok(resp), later) == (fin.0, fin.1, Ok(sid));
    var tail := [RateSet(cfg.daxChannel, cfg.sampleRate), CenterCommands(0, Setup.Trunc(centerMHz * 1000000.0))[0]];
    assert ex.sent + tail == sent + PanZeroCommands(cfg, centerMHz);
  }

  lemma MonitorOne(s: State, line: string)
    ensures MonitorLines(s, [line]) == OnLine(s, line)
  {
    assert [line][1..] == [];
  }

  /** The steps after the stream create, when the status lines leave slice 0 and panadapter 0. */
  lemma FinishOnPanZero(sid: nat, cfg: Config, centerMHz: real, ex: Exchange.Radio, later: seq<string>)
    requires LandsOnPanZero(sid, later)
    ensures var (s', ex') := Finish(Fresh.(streamId := Some(sid)), cfg, centerMHz, ex, later);
      && s'.panId == Some(0)
      && |ex'.sent| >= |ex.sent| + 2
      && ex'.sent[..|ex.sent| + 2] ==
           ex.sent + [RateSet(cfg.daxChannel, cfg.sampleRate), CenterCommands(0, Setup.Trunc(centerMHz * 1000000.0))[0]]
  {
    var s1 := MonitorLines(Fresh.(streamId := Some(sid)), later);
    var ex1 := Send(ex, RateSet(cfg.daxChannel, cfg.sampleRate)).0;
    assert Finish(Fresh.(streamId := Some(sid)), cfg, centerMHz, ex, later) == (s1, Retune(s1, centerMHz, ex1));
    RetunePanZero(s1, centerMHz, ex1);
    var ex' := Retune(s1, centerMHz, ex1);
    assert ex1.sent == ex.sent + [RateSet(cfg.daxChannel, cfg.sampleRate)];
    assert ex'.sent[..|ex.sent| + 2] == ex'.sent[..|ex1.sent| + 1];
  }

  /** With slice 0 and panadapter 0, retuning first tries to move the center of panadapter 0. */
  lemma RetunePanZero(s: State, centerMHz: real, ex: Exchange.Radio)
    requires s.sliceId == Some(0) && s.panId == Some(0)
    ensures var ex' := Retune(s, centerMHz, ex);
      |ex'.sent| > |ex.sent| &&
      ex'.sent[..|ex.sent| + 1] == ex.sent + [CenterCommands(0, Setup.Trunc(centerMHz * 1000000.0))[0]]
  {
    var cmds := CenterCommands(0, Setup.Trunc(centerMHz * 1000000.0));
    Exchange.FirstAcceptedTries(ex, cmds);
    var ex' := Exchange.FirstAccepted(ex, cmds).0;
    assert ex'.sent[..|ex.sent| + 1] == ex.sent + cmds[..1];
  }

  /**
   * The bandwidth text reads back as the sample rate: the package's reading
   * of a `bandwidth=` field takes it as MHz and gives back the rate in Hz.
   */
  lemma MHzTextRoundTrip(hz: nat)
    ensures ParseReal(MHzText(hz)) == Some(hz as real / 1000000.0)
    ensures 0 < hz < 1000000000 ==> Monitor.BandwidthToHz(MHzText(hz)) == Some(hz as real)
  {
    var q := hz / 1000000;
    var rem := hz % 1000000;
    ToDigitsValue(q, 10, false);
    SixPlaces();
    FixedPoint(Decimal(q), SixDigits(rem));
    MillionSplit(hz);
  }

  /** `whole.frac` in plain digits reads as `whole + frac / 10**|frac|`. */
  lemma FixedPoint(whole: string, frac: string)
    requires |whole| > 0 && AllDigits(whole, 10) && AllDigits(frac, 10)
    ensures ParseReal(whole + "." + frac) == Some(FixedValue(DigitsValue(whole, 10), DigitsValue(frac, 10), |frac|))
  {
    var s := whole + "." + frac;
    assert Find(s, '.') == Some(|whole|) by { DotAt(whole, frac); }
    assert s[..|whole|] == whole && s[|whole| + 1..] == frac;
  }

  /** The first `.` of `whole.frac` is the one after `whole`. */
  lemma DotAt(whole: string, frac: string)
    requires AllDigits(whole, 10)
    ensures Find(whole + "." + frac, '.') == Some(|whole|)
  {
    var s := whole + "." + frac;
    DigitsExclude(whole, 10, '.');
    var r := Find(s, '.');
    assert s[|whole|] == '.';
    assert forall j :: 0 <= j < |whole| ==> s[j] == whole[j];
    assert forall k :: |whole| < k <= |s| ==> s[..k][|whole|] == '.';
  }

  lemma MillionSplit(hz: nat)
    ensures FixedValue(hz / 1000000, hz % 1000000, 6) == hz as real / 1000000.0
  {
    SixPlaces();
    var q := hz / 1000000;
    var rem := hz % 1000000;
    assert hz == q * 1000000 + rem;
    assert hz as real == q as real * 1000000.0 + rem as real;
  }

  lemma SixPlaces()
    ensures Pow(10, 6) == 1000000
  {
    assert Pow(10, 2) == 100;
    assert Pow(10, 4) == 10000 by { assert Pow(10, 3) == 1000; }
  }

  /** `str(n)` has at most `k` digits when `n < 10**k`. */
  lemma {:induction false} ToDigitsLength(n: nat, k: nat)
    requires n < Pow(10, k) && k >= 1
    ensures |ToDigits(n, 10, false)| <= k
    decreases n
  {
    if n >= 10 {
      DivMod(n, 10);
      assert Pow(10, k) == 10 * Pow(10, k - 1);
      MulMono(Pow(10, k - 1), n / 10, 10);
      assert n / 10 < Pow(10, k - 1);
      ToDigitsLength(n / 10, k - 1);
    }
  }

  lemma MulMono(a: nat, b: nat, c: nat)
    ensures a <= b ==> a * c <= b * c
  {
  }

  // ------------------------------------------------------------- teardown

  /**
   * The legacy `teardown`: remove the stream when it is set, then the
   * panadapter when this client created it and still has a non-zero id;
   * every refusal is ignored.
   */
  function Teardown(s: State, ex: Exchange.Radio): (r: Exchange.Radio)
  {
    var ex1 := if s.streamId.Some? && s.streamId.value != 0 then Send(ex, Setup.StreamRemove(s.streamId.value)).0 else ex;
    if s.createdPan && HasPan(s) then Send(ex1, PanRemove(s.panId.value)).0 else ex1
  }

  /** The commands teardown sends: the stream first, then the panadapter it created. */
  lemma TeardownSends(s: State, ex: Exchange.Radio)
    ensures Teardown(s, ex).sent == ex.sent +
      (if s.streamId.Some? && s.streamId.value != 0 then [Setup.StreamRemove(s.streamId.value)] else []) +
      (if s.createdPan && HasPan(s) then [PanRemove(s.panId.value)] else [])
  {
  }

  /**
   * After a successful setup, teardown removes that stream first; and it
   * removes a panadapter only when setup created one and holds a non-zero id.
   */
  lemma SetupThenTeardown(s: State, cfg: Config, ex: Exchange.Radio, burst: seq<string>, later: seq<string>)
    ensures var (s', ex', res) := SetupStream(s, cfg, ex, burst, later);
      && (res.Ok? ==> |Teardown(s', ex').sent| > |ex'.sent| && Teardown(s', ex').sent[|ex'.sent|] == Setup.StreamRemove(res.value))
      && (|Teardown(s', ex').sent| == |ex'.sent| + 2 ==> s'.createdPan && HasPan(s'))
  {
    SetupResult(s, cfg, ex, burst, later);
    var (s', ex', res) := SetupStream(s, cfg, ex, burst, later);
    TeardownSends(s', ex');
  }
}
