/**
 * `FlexDAXIQ`, the high-level client: choosing the radio, learning the GUI
 * clients, binding to one of them, the bound-context slice listing, the
 * DAXIQ setup, and the order in which `stop` releases what `start` built.
 */
module Director {
  import opened Base
  import opened Text
  import opened Models
  import opened Clients
  import opened Channel
  import opened Exchange
  import Monitor
  import Setup
  import Discovery
  import Wire
  import Receiver

  /** The two subscriptions for client status, tried in order. */
  const SubscribeClientCommands: seq<string> := ["sub client all", "sub client"]

  /** The capacity of the queue the client hands to its receiver. */
  const SampleQueueCapacity: nat := 500

  /** A setting Python finds truthy: present and non-empty. */
  predicate Given(v: Option<string>) {
    v.Some? && v.value != ""
  }

  /** The configured client id to bind to, or the handle when no id is given. */
  function EffectiveBindId(id: Option<string>, handle: Option<string>): (r: Option<string>)
    ensures Given(id) ==> r == id
    ensures !Given(id) ==> r == handle
    ensures Given(r) <==> Given(id) || Given(handle)
  {
    if Given(id) then id else handle
  }

  // ------------------------------------------------------------ the radio

  /** The error `start` raises when discovery finds nothing. */
  const NoRadioText := "No FlexRadio found on network"

  /**
   * An explicit address is used on the command port without discovery;
   * otherwise the first discovered radio, and none is an error.
   */
  function ResolveRadio(radioIp: Option<string>, discovered: seq<FlexRadio>): (r: Result<FlexRadio, string>)
    ensures Given(radioIp) ==> r == Ok(FlexRadio(radioIp.value, Discovery.FlexTcpPort, "", "", "", [], []))
    ensures !Given(radioIp) && |discovered| == 0 ==> r == Err(NoRadioText)
    ensures !Given(radioIp) && |discovered| > 0 ==> r == Ok(discovered[0])
  {
    if Given(radioIp) then Ok(FlexRadio(radioIp.value, Discovery.FlexTcpPort, "", "", "", [], []))
    else if |discovered| == 0 then Err(NoRadioText)
    else Ok(discovered[0])
  }

  /** Whatever discovery reports, a radio it yields always uses the command port. */
  lemma ResolvedPort(radioIp: Option<string>, datagrams: seq<(Wire.Bytes, string)>)
    ensures var r := ResolveRadio(radioIp, Discovery.Discover(datagrams));
      r.Ok? ==> r.value.port == Discovery.FlexTcpPort
  {
  }

  // ----------------------------------------------------------- binding

  /**
   * The GUI client to bind to: the configured id when given, else the first
   * id seen in client status, else the first id discovery advertised, else
   * none.
   */
  function ChooseBindId(configured: Option<string>, statusIds: seq<string>, advertised: seq<string>): (r: Option<string>)
    ensures Given(configured) ==> r == configured
    ensures !Given(configured) && |statusIds| > 0 ==> r == Some(statusIds[0])
    ensures !Given(configured) && |statusIds| == 0 && |advertised| > 0 ==> r == Some(advertised[0])
    ensures !Given(configured) && |statusIds| == 0 && |advertised| == 0 ==> r.None? || r == Some("")
  {
    if Given(configured) then configured
    else if |statusIds| > 0 then Some(statusIds[0])
    else if |advertised| > 0 then Some(advertised[0])
    else configured
  }

  /**
   * Without a configured id, the client bound to is the GUI client with the
   * least (station, client_id) among those seen in status lines.
   */
  lemma BindsLeastClient(configured: Option<string>, cs: seq<GuiClient>, advertised: seq<string>)
    requires !Given(configured) && Table(cs) && |cs| > 0
    ensures var listing := Listing(cs);
      && ChooseBindId(configured, GuiClientIds(cs), advertised) == Some(listing[0].clientId)
      && listing[0] in cs
      && forall k :: 0 <= k < |cs| && cs[k] != listing[0] ==> KeyLess(listing[0], cs[k])
  {
    GuiClientIdsOfTable(cs);
    ListingSorted(cs);
    ListingStrict(cs);
    var listing := Listing(cs);
    assert listing[0] in multiset(cs);
    forall k | 0 <= k < |cs| && cs[k] != listing[0] ensures KeyLess(listing[0], cs[k]) {
      assert cs[k] in multiset(listing);
      var j :| 0 <= j < |listing| && listing[j] == cs[k];
      LeastFirst(listing, j);
    }
  }

  /** In a strictly ordered listing the first element precedes every other. */
  lemma {:induction false} LeastFirst(s: seq<GuiClient>, j: nat)
    requires 0 < j < |s|
    requires forall i :: 0 <= i < |s| - 1 ==> KeyLess(s[i], s[i + 1])
    ensures KeyLess(s[0], s[j])
    decreases j
  {
    if j > 1 {
      LeastFirst(s, j - 1);
      KeyLessTransitive(s[0], s[j - 1], s[j]);
    }
  }

  lemma KeyLessTransitive(a: GuiClient, b: GuiClient, c: GuiClient)
    requires KeyLess(a, b) && KeyLess(b, c)
    ensures KeyLess(a, c)
  {
    if StrLess(a.station, b.station) && StrLess(b.station, c.station) {
      StrLessTransitive(a.station, b.station, c.station);
    } else if a.station == b.station && b.station == c.station {
      StrLessTransitive(a.clientId, b.clientId, c.clientId);
    }
  }

  function BindCommand(id: string): string {
    "client bind client_id=" + id
  }

  // -------------------------------------------------------- slice labels

  /** A slice number as the GUI names it: 0..25 are the letters A..Z, others stay numbers. */
  function Label(n: int): (name: string)
    ensures 0 <= n < 26 ==> |name| == 1 && 'A' <= name[0] <= 'Z'
    ensures !(0 <= n < 26) ==> name == IntText(n)
  {
    if 0 <= n < 26 then [(('A' as int) + n) as char] else IntText(n)
  }

  /** Distinct slices get distinct labels. */
  lemma LabelInjective(a: int, b: int)
    requires Label(a) == Label(b)
    ensures a == b
  {
    if 0 <= a < 26 && 0 <= b < 26 {
      assert Label(a)[0] == Label(b)[0];
    } else if !(0 <= a < 26) && !(0 <= b < 26) {
      IntRoundTrip(a);
      IntRoundTrip(b);
    } else {
      var n := if 0 <= a < 26 then b else a;
      LongLabel(n);
    }
  }

  /** A slice number outside 0..25 takes at least two characters. */
  lemma LongLabel(n: int)
    requires !(0 <= n < 26)
    ensures |IntText(n)| >= 2
  {
    if n < 0 {
      assert |Decimal(-n)| >= 1;
    }
  }

  /** The label of one stripped, non-blank line of the `slice list` reply, if its first word is an integer. */
  function LineLabel(line: string): (r: Option<string>)
  {
    var ws := Words(line);
    if |ws| == 0 then None
    else match ParseInt(ws[0])
      case None => None
      case Some(n) => Some(Label(n))
  }

  /** The labels of the lines, in order; lines without a slice number are skipped. */
  function Labels(lines: seq<string>): (labels: seq<string>)
    ensures |labels| <= |lines|
    decreases |lines|
  {
    if |lines| == 0 then []
    else match LineLabel(lines[0])
      case None => Labels(lines[1..])
      case Some(l) => [l] + Labels(lines[1..])
  }

  /** The slices named in a `slice list` reply. */
  function SliceLabels(reply: string): seq<string> {
    Labels(NonBlankLines(reply))
  }

  /** A line that starts with a slice number is labelled by that number. */
  lemma LineLabelOf(n: int, rest: string)
    requires |rest| == 0 || IsSpace(rest[0])
    ensures LineLabel(IntText(n) + rest) == Some(Label(n))
  {
    IntTextNoSpace(n);
    FirstWord(IntText(n), rest);
    IntRoundTrip(n);
  }

  /** The lines of a listing of slices `ns` give one label per slice, in order. */
  lemma {:induction false} LabelsOfSlices(lines: seq<string>, ns: seq<int>, rests: seq<string>)
    requires |lines| == |ns| == |rests|
    requires forall k :: 0 <= k < |lines| ==> lines[k] == IntText(ns[k]) + rests[k]
    requires forall k :: 0 <= k < |rests| ==> |rests[k]| == 0 || IsSpace(rests[k][0])
    ensures |Labels(lines)| == |ns|
    ensures forall k :: 0 <= k < |ns| ==> Labels(lines)[k] == Label(ns[k])
    decreases |lines|
  {
    if |lines| > 0 {
      LineLabelOf(ns[0], rests[0]);
      LabelsOfSlices(lines[1..], ns[1..], rests[1..]);
      assert Labels(lines) == [Label(ns[0])] + Labels(lines[1..]);
    }
  }

  // -------------------------------------------------------------- start

  /** The settings of `FlexDAXIQ` that `start` reads. */
  datatype Options = Options(
    radioIp: Option<string>,
    centerMHz: Option<real>,     // `center_freq_mhz`; None leaves the panadapter where it is
    daxChannel: nat,
    bindId: Option<string>)   // already `bind_client_id or bind_client_handle`

  /** What `start` learns from outside the command channel. */
  datatype Surroundings = Surroundings(
    discovered: seq<FlexRadio>,   // `discover()`
    clientStatus: seq<string>,    // client status payloads seen before the bind decision
    listenPort: nat,              // `_pick_udp_listen_port()`
    localIp: string,              // `tcp.get_local_ip()`
    burst: seq<string>,           // status lines before the panadapter is chosen
    later: seq<string>)           // status lines after the stream exists

  datatype StartError = NoRadio(text: string) | SetupFailed(e: Setup.SetupError)

  /** What `start` leaves behind, which `stop` releases. */
  datatype Client = Client(
    connected: bool,         // `_tcp` set
    setupMade: bool,         // `_dax_setup` set
    receiving: bool,         // `_vita` set
    session: Monitor.Session,
    clients: seq<GuiClient>)

  const Idle := Client(false, false, false, Monitor.Fresh, [])

  /** The commands of a bind attempt: the bind, then `slice list` only when it was accepted. */
  function BindCommands(ex: Radio, chosen: Option<string>): (r: (Radio, seq<string>))
  {
    if Given(chosen) then
      var (ex1, res) := Send(ex, BindCommand(chosen.value));
      if res.Ok? then (Send(ex1, "slice list").0, [BindCommand(chosen.value), "slice list"])
      else (ex1, [BindCommand(chosen.value)])
    else (ex, [])
  }

  lemma BindCommandsSent(ex: Radio, chosen: Option<string>)
    ensures BindCommands(ex, chosen).0.sent == ex.sent + BindCommands(ex, chosen).1
    ensures |BindCommands(ex, chosen).1| > 0 <==> Given(chosen)
    ensures Given(chosen) ==> BindCommands(ex, chosen).1[0] == BindCommand(chosen.value)
  {
  }

  /**
   * `_request_client_status`, then the bind decision: the refreshed table,
   * the exchange so far, and the id chosen.
   */
  function Learn(opts: Options, env: Surroundings, radio: FlexRadio, ex: Radio): (r: (seq<GuiClient>, Radio, Option<string>))
  {
    var (ex1, listed) := Send(ex, "client list");
    var cs1 := Refresh([], if listed.Ok? then Some(listed.value) else None).0;
    var ex2 := FirstAccepted(ex1, SubscribeClientCommands).0;
    var cs2 := CaptureAll(cs1, env.clientStatus);
    (cs2, ex2, ChooseBindId(opts.bindId, GuiClientIds(cs2), radio.guiClientIds))
  }

  /** The table learned is a proper table whatever the radio replied. */
  lemma LearnTable(opts: Options, env: Surroundings, radio: FlexRadio, ex: Radio)
    ensures Table(Learn(opts, env, radio, ex).0)
  {
    var (ex1, listed) := Send(ex, "client list");
    assert Table([]);
    var cs1 := Refresh([], if listed.Ok? then Some(listed.value) else None).0;
    assert Table(cs1);
  }

  lemma LearnSends(opts: Options, env: Surroundings, radio: FlexRadio, ex: Radio)
    ensures exists n :: 1 <= n <= 2 && Learn(opts, env, radio, ex).1.sent == ex.sent + ["client list"] + SubscribeClientCommands[..n]
  {
    var (ex1, listed) := Send(ex, "client list");
    FirstAcceptedTries(ex1, SubscribeClientCommands);
    var (ex2, k) := FirstAccepted(ex1, SubscribeClientCommands);
    var n := if k.Some? then k.value + 1 else 2;
    assert ex2.sent == ex.sent + ["client list"] + SubscribeClientCommands[..n];
  }

  /** The configuration `start` gives `DAXIQSetup`: no preferred panadapter. */
  function SetupConfig(opts: Options, env: Surroundings): Setup.Config {
    Setup.Config(opts.daxChannel, env.listenPort, None, env.localIp, opts.centerMHz)
  }

  /**
   * `start`: the client state, the exchange with every command sent, and the
   * stream id the receiver filters on or the error `start` raises.
   */
  function Start(opts: Options, env: Surroundings, ex: Radio): (r: (Client, Radio, Result<nat, StartError>))
  {
    match ResolveRadio(opts.radioIp, env.discovered)
    case Err(text) => (Idle, ex, Err(NoRadio(text)))
    case Ok(radio) =>
      var (cs, ex1, chosen) := Learn(opts, env, radio, ex);
      var (ex2, _) := BindCommands(ex1, chosen);
      var (s, ex3, res) := Setup.SetupStream(Monitor.Fresh, SetupConfig(opts, env), ex2, env.burst, env.later);
      (Client(true, true, res.Ok?, s, cs), ex3, if res.Ok? then Ok(res.value) else Err(SetupFailed(res.error)))
  }

  /** An explicit address never fails for want of a radio; no address and no radio sends nothing. */
  lemma StartRadio(opts: Options, env: Surroundings, ex: Radio)
    ensures Given(opts.radioIp) ==> !Start(opts, env, ex).2.Err? || !Start(opts, env, ex).2.error.NoRadio?
    ensures !Given(opts.radioIp) && |env.discovered| == 0 ==>
      Start(opts, env, ex) == (Idle, ex, Err(NoRadio(NoRadioText)))
  {
  }

  /**
   * The command order of `start` once a radio is known: `client list`, the
   * client-status subscription with its fallback, the bind (and `slice list`
   * after an accepted bind) only when an id was chosen, then setup, which
   * begins with the panadapter subscription.
   */
  lemma StartCommands(opts: Options, env: Surroundings, ex: Radio)
    requires Given(opts.radioIp) || |env.discovered| > 0
    ensures var (c, ex', res) := Start(opts, env, ex);
      var radio := ResolveRadio(opts.radioIp, env.discovered).value;
      var (cs, ex1, chosen) := Learn(opts, env, radio, ex);
      var binds := BindCommands(ex1, chosen).1;
      && |ex'.sent| > |ex1.sent| + |binds|
      && ex'.sent[..|ex1.sent| + |binds|] == ex1.sent + binds
      && ex'.sent[|ex1.sent| + |binds|] == "sub pan all"
      && c.connected && c.setupMade && (c.receiving <==> res.Ok?)
  {
    var radio := ResolveRadio(opts.radioIp, env.discovered).value;
    var (cs, ex1, chosen) := Learn(opts, env, radio, ex);
    BindCommandsSent(ex1, chosen);
    var (ex2, binds) := BindCommands(ex1, chosen);
    var cfg := SetupConfig(opts, env);
    Setup.SetupBegins(Monitor.Fresh, cfg, ex2, env.burst, env.later);
    StartSetup(opts, env, ex);
    var (s, ex3, res) := Setup.SetupStream(Monitor.Fresh, cfg, ex2, env.burst, env.later);
    var k := |ex1.sent| + |binds|;
    assert ex2.sent == ex1.sent + binds && |ex2.sent| == k;
    assert ex3.sent[..k] == ex1.sent + binds && ex3.sent[k] == "sub pan all";
    assert Start(opts, env, ex).1 == ex3;
  }

  /** Once the radio is known, `start` hands the exchange after the bind to setup. */
  lemma StartSetup(opts: Options, env: Surroundings, ex: Radio)
    requires Given(opts.radioIp) || |env.discovered| > 0
    ensures var radio := ResolveRadio(opts.radioIp, env.discovered).value;
      var (cs, ex1, chosen) := Learn(opts, env, radio, ex);
      var ex2 := BindCommands(ex1, chosen).0;
      var (s, ex3, res) := Setup.SetupStream(Monitor.Fresh, SetupConfig(opts, env), ex2, env.burst, env.later);
      Start(opts, env, ex) == (Client(true, true, res.Ok?, s, cs), ex3, if res.Ok? then Ok(res.value) else Err(SetupFailed(res.error)))
  {
  }

  /**
   * The receiver `start` builds filters on the stream id setup returned, which
   * is never 0 and is as wide as the radio's hex reply: it passes exactly the
   * packets whose 32-bit stream id equals it, so an id of 2^32 or more passes none.
   */
  lemma StartReceiver(opts: Options, env: Surroundings, ex: Radio)
    ensures var res := Start(opts, env, ex).2;
      res.Ok? ==>
        && res.value != 0
        && Receiver.Init(Some(res.value), SampleQueueCapacity).filter == Some(res.value)
        && (forall sid: bv32 :: Receiver.Accepts(Some(res.value), sid) <==> sid as nat == res.value)
        && (res.value >= 0x1_0000_0000 ==> forall sid: bv32 :: !Receiver.Accepts(Some(res.value), sid))
  {
    if Given(opts.radioIp) || |env.discovered| > 0 {
      StartSetup(opts, env, ex);
      var radio := ResolveRadio(opts.radioIp, env.discovered).value;
      var (cs, ex1, chosen) := Learn(opts, env, radio, ex);
      var ex2 := BindCommands(ex1, chosen).0;
      Setup.SetupOutcome(Monitor.Fresh, SetupConfig(opts, env), ex2, env.burst, env.later);
    }
  }

  /** With a configured id the bind names it, whatever the radio reported. */
  lemma ConfiguredBind(opts: Options, env: Surroundings, radio: FlexRadio, ex: Radio)
    requires Given(opts.bindId)
    ensures Learn(opts, env, radio, ex).2 == opts.bindId
    ensures BindCommands(Learn(opts, env, radio, ex).1, opts.bindId).1[0] == BindCommand(opts.bindId.value)
  {
  }

  // --------------------------------------------------------------- stop

  datatype Release = StopReceiver | TearDown(report: string) | Disconnect

  /**
   * `stop`: the receiver, then the setup's teardown, then the connection,
   * each only when `start` got as far as creating it.
   */
  function Stop(c: Client, ex: Radio): (r: (Radio, seq<Release>))
    ensures |r.1| == (if c.receiving then 1 else 0) + (if c.setupMade then 1 else 0) + (if c.connected then 1 else 0)
    ensures c.receiving ==> r.1[0] == StopReceiver
    ensures c.connected ==> r.1[|r.1| - 1] == Disconnect
    ensures forall i, j :: 0 <= i < j < |r.1| ==> Rank(r.1[i]) < Rank(r.1[j])
    ensures !c.setupMade ==> r.0 == ex
  {
    var (ex1, report) := Setup.Teardown(c.session, ex);
    var a := if c.receiving then [StopReceiver] else [];
    var b := if c.setupMade then [TearDown(report)] else [];
    var d := if c.connected then [Disconnect] else [];
    (if c.setupMade then ex1 else ex, a + b + d)
  }

  /** The position of a release in the order `stop` follows. */
  function Rank(x: Release): nat {
    match x
    case StopReceiver => 0
    case TearDown(_) => 1
    case Disconnect => 2
  }

  /**
   * What `start` created, `stop` releases: after a successful start the
   * receiver is stopped, the stream removed, and the connection closed, in
   * that order.
   */
  lemma StartThenStop(opts: Options, env: Surroundings, ex: Radio)
    ensures var (c, ex1, res) := Start(opts, env, ex);
      var (ex2, steps) := Stop(c, ex1);
      && (res.Ok? ==>
            ex2.sent == ex1.sent + [Setup.StreamRemove(res.value)] && |steps| == 3 &&
            steps[0] == StopReceiver && steps[1].TearDown? && steps[2] == Disconnect)
      && (res.Err? && res.error.NoRadio? ==> ex2 == ex1 && steps == [])
  {
    if Given(opts.radioIp) || |env.discovered| > 0 {
      var radio := ResolveRadio(opts.radioIp, env.discovered).value;
      StartSetup(opts, env, ex);
      var (cs, ex1, chosen) := Learn(opts, env, radio, ex);
      var ex2 := BindCommands(ex1, chosen).0;
      var (s, ex3, res) := Setup.SetupStream(Monitor.Fresh, SetupConfig(opts, env), ex2, env.burst, env.later);
      Setup.SetupThenTeardown(Monitor.Fresh, SetupConfig(opts, env), ex2, env.burst, env.later);
      if res.Ok? {
        StopAll(Client(true, true, true, s, cs), ex3);
      }
    }
  }

  /** Stopping a client that holds all three resources releases all three, the stream through teardown. */
  lemma StopAll(c: Client, ex: Radio)
    requires c.connected && c.setupMade && c.receiving
    ensures var (ex2, steps) := Stop(c, ex);
      && ex2 == Setup.Teardown(c.session, ex).0
      && |steps| == 3 && steps[0] == StopReceiver && steps[1].TearDown? && steps[2] == Disconnect
  {
  }
}
