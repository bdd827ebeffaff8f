/**
 * `DAXIQSetup.setup` and `teardown`: the command sequence that attaches a
 * DAXIQ stream to the panadapter and slice the GUI already owns, and the
 * one command that releases it. Status lines the radio sends while setup
 * runs are fed to the monitor in two batches: those before the panadapter
 * is chosen (`burst`) and those after the stream exists (`later`).
 */
module Setup {
  import opened Base
  import opened Text
  import opened Channel
  import opened Monitor
  import opened Exchange

  /** The constructor arguments `setup` reads, plus the local address and requested center. */
  datatype Config = Config(
    daxChannel: nat,
    listenPort: nat,
    preferredPan: Option<nat>,
    clientIp: string,          // `tcp.get_local_ip()`
    centerMHz: Option<real>)   // `center_freq_mhz`

  /** Why `setup` raises. */
  datatype SetupError =
    | CommandFailed(e: CommandError)   // `stream create` refused or timed out
    | BadStreamId(text: string)        // `int(text, 16)` raised
    | NoStream                         // empty or zero stream id

  const SubscribePanCommands: seq<string> := ["sub pan all", "sub pan"]

  // ------------------------------------------------------------ commands

  function PanHex(pan: nat): string {
    "0x" + Hex(pan, 8, false)
  }

  function DaxIqSet(channel: nat, pan: nat): string {
    "dax iq set " + Decimal(channel) + " pan=" + PanHex(pan)
  }

  function StreamCreate(cfg: Config): string {
    "stream create daxiq=" + Decimal(cfg.daxChannel) + " ip=" + cfg.clientIp + " port=" + Decimal(cfg.listenPort)
  }

  function SubPan(pan: nat): string {
    "sub pan " + PanHex(pan)
  }

  function StreamRemove(sid: nat): string {
    "stream remove " + PanHex(sid)
  }

  /** Python's `int(x)` on a float: truncation toward zero. */
  function Trunc(x: real): (r: int)
    ensures 0.0 <= x ==> r as real <= x < r as real + 1.0
    ensures x < 0.0 ==> r as real - 1.0 < x <= r as real
  {
    if x >= 0.0 then x.Floor else -((-x).Floor)
  }

  function Tune(slice: nat, centerMHz: real): string {
    "slice set " + Decimal(slice) + " RF_frequency=" + IntText(Trunc(centerMHz * 1000000.0))
  }

  // ------------------------------------------------------- pan selection

  /** `m` is the smallest element of `s`. */
  predicate IsLeast(m: nat, s: set<nat>) {
    m in s && forall k :: k in s ==> m <= k
  }

  lemma {:induction false} LeastExists(s: set<nat>)
    requires s != {}
    ensures exists m :: IsLeast(m, s)
    decreases |s|
  {
    var x :| x in s;
    var rest := s - {x};
    if rest == {} {
      forall k | k in s ensures x <= k {
        assert k !in rest;
      }
      assert IsLeast(x, s);
    } else {
      LeastExists(rest);
      var m :| IsLeast(m, rest);
      var least := if x < m then x else m;
      forall k | k in s ensures least <= k {
        if k != x {
          assert k in rest;
        }
      }
      assert IsLeast(least, s);
    }
  }

  /** The least non-zero known panadapter, when there is one. */
  function LeastPan(pans: map<nat, PanInfo>): (r: Option<nat>)
    ensures r.None? <==> forall k :: k in pans ==> k == 0
    ensures r.Some? ==> r.value in pans && r.value != 0 && forall k :: k in pans && k != 0 ==> r.value <= k
  {
    var nz := set k | k in pans && k != 0;
    assert forall k :: k in pans && k != 0 ==> k in nz;
    if nz == {} then None
    else
      LeastExists(nz);
      var m :| IsLeast(m, nz);
      Some(m)
  }

  /**
   * Choosing the panadapter once the first status burst is in: one already
   * chosen stays; otherwise a non-zero preferred id wins; otherwise the
   * lowest non-zero id seen.
   */
  function SelectPan(s: Session, preferred: Option<nat>): (r: Session)
    ensures r == s.(panId := r.panId)
    ensures s.panId.Some? ==> r.panId == s.panId
    ensures s.panId.None? && preferred.Some? && preferred.value != 0 ==> r.panId == preferred
    ensures s.panId.None? && (preferred.None? || preferred.value == 0) ==>
      (r.panId.None? <==> forall k :: k in s.knownPans ==> k == 0)
    ensures s.panId.None? && (preferred.None? || preferred.value == 0) && r.panId.Some? ==>
      r.panId.value in s.knownPans && r.panId.value != 0 &&
      forall k :: k in s.knownPans && k != 0 ==> r.panId.value <= k
  {
    if s.panId.None? && preferred.Some? && preferred.value != 0 then s.(panId := preferred)
    else if s.panId.None? then s.(panId := LeastPan(s.knownPans))
    else s
  }

  /** Selection never introduces panadapter 0. */
  lemma SelectPanNoZero(s: Session, preferred: Option<nat>)
    requires NoZeroPan(s)
    ensures NoZeroPan(SelectPan(s, preferred))
  {
  }

  /** The chosen panadapter, when Python finds `self.pan_id` truthy. */
  predicate HasPan(s: Session) {
    s.panId.Some? && s.panId.value != 0
  }

  /** The slice is tuned only when one is assigned and is not slice 0. */
  predicate Tunable(s: Session, cfg: Config) {
    cfg.centerMHz.Some? && s.sliceId.Some? && s.sliceId.value != 0
  }

  // ---------------------------------------------------------------- setup

  /** `stream create`'s reply read as a stream id: the stripped reply in hex, or none when it is blank. */
  function StreamIdOf(resp: string): (r: Result<Option<nat>, string>)
    ensures Strip(resp) == "" ==> r == Ok(None)
    ensures Strip(resp) != "" ==> (r.Ok? <==> ParseHex(Strip(resp)).Some?)
    ensures r.Ok? && r.value.Some? ==> ParseHex(Strip(resp)) == r.value
    ensures r.Err? ==> r.error == Strip(resp)
  {
    var text := Strip(resp);
    if text == "" then Ok(None)
    else match ParseHex(text)
      case None => Err(text)
      case Some(sid) => Ok(Some(sid))
  }

  /** The part of setup before the stream exists: subscribe, watch, choose, assign DAXIQ. */
  function Prepare(s: Session, cfg: Config, ex: Radio, burst: seq<string>): (r: (Session, Radio))
  {
    var ex1 := FirstAccepted(ex, SubscribePanCommands).0;
    var s1 := SelectPan(Monitor.Monitor(s, burst), cfg.preferredPan);
    var ex2 := if HasPan(s1) then Send(ex1, DaxIqSet(cfg.daxChannel, s1.panId.value)).0 else ex1;
    (s1, ex2)
  }

  /** The part after the stream exists: watch, subscribe to the pan, tune the slice. */
  function Finish(s: Session, cfg: Config, ex: Radio, later: seq<string>): (r: (Session, Radio))
  {
    var s1 := Monitor.Monitor(s, later);
    var ex1 := if HasPan(s1) then Send(ex, SubPan(s1.panId.value)).0 else ex;
    var ex2 := if Tunable(s1, cfg) then Send(ex1, Tune(s1.sliceId.value, cfg.centerMHz.value)).0 else ex1;
    (s1, ex2)
  }

  /**
   * `setup`: the final session, the exchange with every command sent, and
   * the stream id or the reason it raised. A refused `dax iq set`, `sub pan`
   * or `slice set` is logged and ignored; `stream create` is the one command
   * whose failure ends setup.
   */
  function SetupStream(s: Session, cfg: Config, ex: Radio, burst: seq<string>, later: seq<string>)
    : (r: (Session, Radio, Result<nat, SetupError>))
  {
    var (s1, ex1) := Prepare(s, cfg, ex, burst);
    var (ex2, created) := Send(ex1, StreamCreate(cfg));
    Conclude(s1, cfg, ex2, created, later)
  }

  /** What follows the `stream create` reply: the id read from it, and on success the final steps. */
  function Conclude(s1: Session, cfg: Config, ex2: Radio, created: Result<string, CommandError>, later: seq<string>)
    : (r: (Session, Radio, Result<nat, SetupError>))
  {
    match created
    case Err(e) => (s1, ex2, Err(CommandFailed(e)))
    case Ok(resp) =>
      match StreamIdOf(resp)
      case Err(text) => (s1, ex2, Err(BadStreamId(text)))
      case Ok(None) => (s1.(streamId := None), ex2, Err(NoStream))
      case Ok(Some(sid)) =>
        if sid == 0 then (s1.(streamId := Some(0)), ex2, Err(NoStream))
        else
          var (s2, ex3) := Finish(s1.(streamId := Some(sid)), cfg, ex2, later);
          (s2, ex3, Ok(sid))
  }

  /** The commands `Prepare` sends, in order. */
  function PrepareCommands(s1: Session, cfg: Config, subscribes: seq<string>): seq<string> {
    subscribes + (if HasPan(s1) then [DaxIqSet(cfg.daxChannel, s1.panId.value)] else [])
  }

  /** The commands `Finish` sends, in order. */
  function FinishCommands(s2: Session, cfg: Config): seq<string> {
    (if HasPan(s2) then [SubPan(s2.panId.value)] else []) +
    (if Tunable(s2, cfg) then [Tune(s2.sliceId.value, cfg.centerMHz.value)] else [])
  }

  lemma PrepareSends(s: Session, cfg: Config, ex: Radio, burst: seq<string>)
    ensures var (s1, ex') := Prepare(s, cfg, ex, burst);
      && s1 == SelectPan(Monitor.Monitor(s, burst), cfg.preferredPan)
      && exists n :: 1 <= n <= 2 &&
           ex'.sent == ex.sent + PrepareCommands(s1, cfg, SubscribePanCommands[..n])
  {
    FirstAcceptedTries(ex, SubscribePanCommands);
    var (ex1, k) := FirstAccepted(ex, SubscribePanCommands);
    var n := if k.Some? then k.value + 1 else 2;
    var s1 := SelectPan(Monitor.Monitor(s, burst), cfg.preferredPan);
    var ex2 := Prepare(s, cfg, ex, burst).1;
    assert ex1.sent == ex.sent + SubscribePanCommands[..n];
    assert ex2.sent == ex1.sent + (if HasPan(s1) then [DaxIqSet(cfg.daxChannel, s1.panId.value)] else []);
    assert ex2.sent == ex.sent + PrepareCommands(s1, cfg, SubscribePanCommands[..n]);
  }

  lemma FinishSends(s: Session, cfg: Config, ex: Radio, later: seq<string>)
    ensures var (s2, ex') := Finish(s, cfg, ex, later);
      s2 == Monitor.Monitor(s, later) && ex'.sent == ex.sent + FinishCommands(s2, cfg)
  {
  }

  /**
   * What `setup` sends: "sub pan all" (then "sub pan" when refused), the
   * DAXIQ assignment when a panadapter is chosen, exactly one
   * `stream create`, and only on success the panadapter subscription and
   * the slice tuning.
   */
  lemma SetupCommands(s: Session, cfg: Config, ex: Radio, burst: seq<string>, later: seq<string>)
    ensures var (s', ex', res) := SetupStream(s, cfg, ex, burst, later);
      var s1 := SelectPan(Monitor.Monitor(s, burst), cfg.preferredPan);
      exists n :: 1 <= n <= 2 &&
        var head := ex.sent + PrepareCommands(s1, cfg, SubscribePanCommands[..n]) + [StreamCreate(cfg)];
        if res.Ok? then ex'.sent == head + FinishCommands(s', cfg) else ex'.sent == head
  {
    PrepareSends(s, cfg, ex, burst);
    var (s1, ex1) := Prepare(s, cfg, ex, burst);
    var (ex2, created) := Send(ex1, StreamCreate(cfg));
    if created.Ok? && StreamIdOf(created.value).Ok? && StreamIdOf(created.value).value.Some? {
      var sid := StreamIdOf(created.value).value.value;
      if sid != 0 {
        FinishSends(s1.(streamId := Some(sid)), cfg, ex2, later);
      }
    }
  }

  /** Setup only appends to what was sent, and its first command is the panadapter subscription. */
  lemma SetupBegins(s: Session, cfg: Config, ex: Radio, burst: seq<string>, later: seq<string>)
    ensures var ex' := SetupStream(s, cfg, ex, burst, later).1;
      |ex'.sent| > |ex.sent| && ex'.sent[..|ex.sent|] == ex.sent && ex'.sent[|ex.sent|] == "sub pan all"
  {
    PrepareBegins(s, cfg, ex, burst);
    var (s1, ex1) := Prepare(s, cfg, ex, burst);
    var (ex2, created) := Send(ex1, StreamCreate(cfg));
    BeginsExtend(ex.sent, ex1.sent, ex2.sent);
    ConcludeAppends(s1, cfg, ex2, created, later);
    BeginsExtend(ex.sent, ex2.sent, Conclude(s1, cfg, ex2, created, later).1.sent);
  }

  /** `Prepare` sends the panadapter subscription first. */
  lemma PrepareBegins(s: Session, cfg: Config, ex: Radio, burst: seq<string>)
    ensures var ex' := Prepare(s, cfg, ex, burst).1;
      |ex'.sent| > |ex.sent| && ex'.sent[..|ex.sent|] == ex.sent && ex'.sent[|ex.sent|] == "sub pan all"
  {
    PrepareSends(s, cfg, ex, burst);
    var (s1, ex1) := Prepare(s, cfg, ex, burst);
    var n :| 1 <= n <= 2 && ex1.sent == ex.sent + PrepareCommands(s1, cfg, SubscribePanCommands[..n]);
    assert PrepareCommands(s1, cfg, SubscribePanCommands[..n])[0] == "sub pan all";
  }

  /** A sent list that begins with `pre` and a next command still does once more is appended. */
  lemma BeginsExtend(pre: seq<string>, a: seq<string>, b: seq<string>)
    requires |a| > |pre| && a[..|pre|] == pre
    requires |b| >= |a| && b[..|a|] == a
    ensures |b| > |pre| && b[..|pre|] == pre && b[|pre|] == a[|pre|]
  {
    assert b[..|pre|] == b[..|a|][..|pre|];
  }

  lemma ConcludeAppends(s1: Session, cfg: Config, ex2: Radio, created: Result<string, CommandError>, later: seq<string>)
    ensures var ex' := Conclude(s1, cfg, ex2, created, later).1;
      |ex'.sent| >= |ex2.sent| && ex'.sent[..|ex2.sent|] == ex2.sent
  {
    if created.Ok? && StreamIdOf(created.value).Ok? && StreamIdOf(created.value).value.Some? {
      var sid := StreamIdOf(created.value).value.value;
      if sid != 0 {
        FinishSends(s1.(streamId := Some(sid)), cfg, ex2, later);
      }
    }
  }

  /**
   * A successful setup returns a non-zero stream id, the one the radio
   * named, and filters on it; the session's panadapter is never 0 when it
   * started without one.
   */
  lemma SetupResult(s: Session, cfg: Config, ex: Radio, burst: seq<string>, later: seq<string>)
    requires NoZeroPan(s)
    ensures var (s', ex', res) := SetupStream(s, cfg, ex, burst, later);
      && NoZeroPan(s')
      && (res.Ok? ==> res.value != 0 && s'.streamId == Some(res.value))
  {
    var s0 := Monitor.Monitor(s, burst);
    MonitorNoZeroPan(s, burst);
    SelectPanNoZero(s0, cfg.preferredPan);
    var (s1, ex1) := Prepare(s, cfg, ex, burst);
    var (ex2, created) := Send(ex1, StreamCreate(cfg));
    if created.Ok? && StreamIdOf(created.value).Ok? && StreamIdOf(created.value).value.Some? {
      var sid := StreamIdOf(created.value).value.value;
      if sid != 0 {
        MonitorNoZeroPan(s1.(streamId := Some(sid)), later);
        MonitorKeepsStream(s1.(streamId := Some(sid)), later);
      }
    }
  }

  /** Once the stream is known the monitor never replaces it. */
  lemma {:induction false} MonitorKeepsStream(s: Session, lines: seq<string>)
    ensures Monitor.Monitor(s, lines).streamId == s.streamId
    decreases |lines|
  {
    if |lines| > 0 {
      OnLineKeepsStream(s, lines[0]);
      MonitorKeepsStream(OnLine(s, lines[0]), lines[1..]);
    }
  }

  lemma OnLineKeepsStream(s: Session, line: string)
    ensures OnLine(s, line).streamId == s.streamId
  {
  }

  /**
   * The stream id `setup` reports follows the `stream create` reply: a
   * refusal or timeout is `CommandFailed`, an empty reply or id 0 is
   * `NoStream`, a reply that is not hexadecimal is `BadStreamId`, and
   * otherwise the id is the reply's value.
   */
  lemma SetupOutcome(s: Session, cfg: Config, ex: Radio, burst: seq<string>, later: seq<string>)
    ensures var (s1, ex1) := Prepare(s, cfg, ex, burst);
      var created := Send(ex1, StreamCreate(cfg)).1;
      var res := SetupStream(s, cfg, ex, burst, later).2;
      && (created.Err? ==> res == Err(CommandFailed(created.error)))
      && (created.Ok? && Strip(created.value) == "" ==> res == Err(NoStream))
      && (created.Ok? && Strip(created.value) != "" && ParseHex(Strip(created.value)).None? ==>
            res == Err(BadStreamId(Strip(created.value))))
      && (created.Ok? && ParseHex(Strip(created.value)) == Some(0) ==> res == Err(NoStream))
      && (res.Ok? <==> (created.Ok? && Strip(created.value) != "" &&
            ParseHex(Strip(created.value)).Some? && ParseHex(Strip(created.value)).value != 0))
      && (res.Ok? ==> Some(res.value) == ParseHex(Strip(created.value)))
  {
  }

  /** A stream id formatted the way the radio does is read back by setup. */
  lemma StreamReplyRead(sid: nat)
    ensures StreamIdOf("0x" + Hex(sid, 8, true)) == Ok(Some(sid))
    ensures StreamIdOf(Hex(sid, 8, false)) == Ok(Some(sid))
  {
    HexNoSpace(sid, 8, true);
    StripNoSpace("0x" + Hex(sid, 8, true));
    PrefixedHexRoundTrip(sid, 8, true);
    HexNoSpace(sid, 8, false);
    StripNoSpace(Hex(sid, 8, false));
    HexRoundTrip(sid, 8, false);
  }

  // ------------------------------------------------------------- teardown

  /**
   * `teardown`: remove the stream when there is one; the outcome is
   * reported as "ok", "rejected (<error>)" or "none", and nothing is raised.
   */
  function Teardown(s: Session, ex: Radio): (r: (Radio, string))
    ensures s.streamId.Some? && s.streamId.value != 0 ==> r.0.sent == ex.sent + [StreamRemove(s.streamId.value)]
    ensures s.streamId.None? || s.streamId.value == 0 ==> r.0 == ex && r.1 == "none"
    ensures r.1 == "ok" <==> s.streamId.Some? && s.streamId.value != 0 && Send(ex, StreamRemove(s.streamId.value)).1.Ok?
    ensures r.1 != "ok" && r.1 != "none" ==>
      s.streamId.Some? && s.streamId.value != 0 &&
      var res := Send(ex, StreamRemove(s.streamId.value)).1;
      res.Err? && r.1 == "rejected (" + ErrorText(res.error) + ")"
  {
    if s.streamId.Some? && s.streamId.value != 0 then
      var (ex1, res) := Send(ex, StreamRemove(s.streamId.value));
      (ex1, if res.Ok? then "ok" else "rejected (" + ErrorText(res.error) + ")")
    else (ex, "none")
  }

  /** What setup created, teardown removes: after a successful setup, teardown sends the matching `stream remove`. */
  lemma SetupThenTeardown(s: Session, cfg: Config, ex: Radio, burst: seq<string>, later: seq<string>)
    requires NoZeroPan(s)
    ensures var (s', ex', res) := SetupStream(s, cfg, ex, burst, later);
      res.Ok? ==> Teardown(s', ex').0.sent == ex'.sent + [StreamRemove(res.value)]
  {
    SetupResult(s, cfg, ex, burst, later);
  }

  /** The remove command names the stream as setup read it: the id parses back. */
  lemma StreamRemoveNames(sid: nat)
    ensures StartsWith(StreamRemove(sid), "stream remove ")
    ensures StreamRemove(sid)[|"stream remove "|..] == PanHex(sid)
    ensures ParseHex(PanHex(sid)) == Some(sid)
  {
    PrefixedHexRoundTrip(sid, 8, false);
  }
}
