/**
 * The status-line monitor of the stream setup (`DAXIQSetup._status_monitor`
 * in `flexclient/setup.py`): `key=value` extraction, the Hz/MHz unit rules,
 * and the session state that status lines update: the stream's slice and
 * panadapter, the tuned frequencies and the additive table of known
 * panadapters.
 */
module Monitor {
  import opened Base
  import opened Text

  // ------------------------------------------------------------ key=value

  /** The position of the first token that starts with `key=`. */
  function KeyIndex(tokens: seq<string>, key: string): (r: Option<nat>)
    ensures r.Some? ==> r.value < |tokens| && StartsWith(tokens[r.value], key + "=")
    ensures r.Some? ==> forall j :: 0 <= j < r.value ==> !StartsWith(tokens[j], key + "=")
    ensures r.None? ==> forall j :: 0 <= j < |tokens| ==> !StartsWith(tokens[j], key + "=")
    decreases |tokens|
  {
    if |tokens| == 0 then None
    else if StartsWith(tokens[0], key + "=") then Some(0)
    else match KeyIndex(tokens[1..], key)
      case None => None
      case Some(i) => Some(i + 1)
  }

  /**
   * `_extract_key`: the text after the first `=` of the first whitespace
   * token that starts with `key=`; for a key without `=` that token is `key=`
   * followed by the value.
   */
  function ExtractKey(response: string, key: string): (r: Option<string>)
    ensures r.Some? <==> KeyIndex(Words(response), key).Some?
    ensures r.Some? && '=' !in key ==> Words(response)[KeyIndex(Words(response), key).value] == key + "=" + r.value
  {
    var tokens := Words(response);
    match KeyIndex(tokens, key)
    case None => None
    case Some(i) =>
      var t := tokens[i];
      assert t == key + ['='] + t[|key| + 1..] by {
        assert t[..|key| + 1] == key + "=";
      }
      match SplitOnce(t, '=')
      case None => None
      case Some((_, v)) =>
        if '=' !in key then
          SplitOnceAt(key, '=', t[|key| + 1..]);
          Some(v)
        else Some(v)
  }

  /**
   * A value written as `key=value` among plain tokens, with no earlier token
   * for the same key, is the value extracted.
   */
  lemma ExtractKeyOfTokens(ws: seq<string>, i: nat, key: string, value: string)
    requires forall k :: 0 <= k < |ws| ==> |ws[k]| > 0 && NoSpace(ws[k])
    requires '=' !in key
    requires i < |ws| && ws[i] == key + "=" + value
    requires forall j :: 0 <= j < i ==> !StartsWith(ws[j], key + "=")
    ensures ExtractKey(JoinSpace(ws), key) == Some(value)
  {
    WordsOfJoinSpace(ws);
    assert ws[i][..|key| + 1] == key + "=";
    var r := ExtractKey(JoinSpace(ws), key);
    assert KeyIndex(ws, key) == Some(i);
    assert ws[i] == key + "=" + r.value;
    assert ws[i][|key| + 1..] == value && ws[i][|key| + 1..] == r.value;
  }

  /** A token carries at most one key: `ant=…` and `rxant=…` never match each other. */
  lemma KeysExclusive(t: string, k1: string, k2: string)
    requires '=' !in k1 && '=' !in k2
    requires StartsWith(t, k1 + "=") && StartsWith(t, k2 + "=")
    ensures k1 == k2
  {
    assert t[..|k1| + 1] == k1 + "=";
    assert t == k1 + ['='] + t[|k1| + 1..];
    SplitOnceAt(k1, '=', t[|k1| + 1..]);
    assert t[..|k2| + 1] == k2 + "=";
    assert t == k2 + ['='] + t[|k2| + 1..];
    SplitOnceAt(k2, '=', t[|k2| + 1..]);
  }

  // ------------------------------------------------------------------ units

  /** `_parse_freq_to_mhz`: a reading of at least 1e6 is in Hz, anything smaller already in MHz. */
  function FreqToMHz(s: string): (r: Option<real>)
    ensures r.Some? <==> ParseReal(s).Some?
    ensures r.Some? && ParseReal(s).value >= 1000000.0 ==> r.value * 1000000.0 == ParseReal(s).value
    ensures r.Some? && ParseReal(s).value < 1000000.0 ==> r.value == ParseReal(s).value
  {
    match ParseReal(s)
    case None => None
    case Some(v) => Some(if v >= 1000000.0 then v / 1000000.0 else v)
  }

  /** The same frequency reads the same in Hz and in MHz. */
  lemma FreqUnits(hz: nat, mhz: nat)
    requires hz == mhz * 1000000 && mhz >= 1
    ensures FreqToMHz(Decimal(hz)) == Some(mhz as real)
    ensures mhz < 1000000 ==> FreqToMHz(Decimal(mhz)) == Some(mhz as real)
  {
    ParseRealOfDecimal(hz);
    ParseRealOfDecimal(mhz);
  }

  /**
   * `_parse_bandwidth_to_hz`: nothing for a non-positive reading, below 1000
   * it is fractional MHz, from 1000 on already Hz.
   */
  function BandwidthToHz(s: string): (r: Option<real>)
    ensures r.Some? <==> ParseReal(s).Some? && ParseReal(s).value > 0.0
    ensures r.Some? ==> r.value > 0.0
    ensures r.Some? && ParseReal(s).value < 1000.0 ==> r.value == ParseReal(s).value * 1000000.0
    ensures r.Some? && ParseReal(s).value >= 1000.0 ==> r.value == ParseReal(s).value
  {
    match ParseReal(s)
    case None => None
    case Some(v) =>
      if v <= 0.0 then None
      else if v < 1000.0 then Some(v * 1000000.0)
      else Some(v)
  }

  /** A whole number of Hz from 1000 on reads as itself; a zero reading is refused. */
  lemma BandwidthUnits(n: nat)
    ensures n == 0 ==> BandwidthToHz(Decimal(n)).None?
    ensures 0 < n < 1000 ==> BandwidthToHz(Decimal(n)) == Some(n as real * 1000000.0)
    ensures n >= 1000 ==> BandwidthToHz(Decimal(n)) == Some(n as real)
  {
    ParseRealOfDecimal(n);
  }

  // ------------------------------------------------------------ the session

  /** What a status line has said about one panadapter (`known_pans[pan_id]`). */
  datatype PanInfo = PanInfo(
    center: Option<real>,       // MHz
    bandwidth: Option<string>,  // as reported
    ant: Option<string>,
    rxant: Option<string>,
    streamId: Option<string>)

  const NoInfo := PanInfo(None, None, None, None, None)

  /** The fields of `DAXIQSetup` the monitor and the setup steps read and write. */
  datatype Session = Session(
    panId: Option<nat>,
    sliceId: Option<nat>,
    streamId: Option<nat>,
    sliceFreqMHz: Option<real>,
    panFreqMHz: Option<real>,
    panBandwidthHz: Option<real>,
    knownPans: map<nat, PanInfo>)

  const Fresh := Session(None, None, None, None, None, None, map[])

  /** The settings known for `pan`, empty when it has none yet. */
  function InfoOf(pans: map<nat, PanInfo>, pan: nat): PanInfo {
    if pan in pans then pans[pan] else NoInfo
  }

  /** An extracted value that Python finds truthy: present and non-empty. */
  function Truthy(v: Option<string>): (r: Option<string>)
    ensures r.Some? <==> v.Some? && v.value != ""
    ensures r.Some? ==> r == v
  {
    if v.Some? && v.value != "" then v else None
  }

  /** A field assignment guarded by `if x:`: a missing new value keeps the old one. */
  function Keep<T>(prior: Option<T>, update: Option<T>): (r: Option<T>)
    ensures update.Some? ==> r == update
    ensures update.None? ==> r == prior
  {
    if update.Some? then update else prior
  }

  /** The text after a line's first `|`. */
  function Payload(line: string): Option<string> {
    match SplitOnce(line, '|')
    case None => None
    case Some((_, p)) => Some(p)
  }

  /**
   * The stream clause: a `stream <hex id> … dax_iq …` line for our stream (or
   * any stream while ours is unknown) sets `slice_id` from `slice=` (hex) and,
   * for a non-zero `pan=`, `pan_id` and that panadapter's stream field.
   * A field `int()` refuses aborts the rest of the clause; what was already
   * assigned stays.
   */
  function OnStream(s: Session, line: string): Session {
    match StreamStatus(line)
    case None => s
    case Some((sid, payload)) =>
      if s.streamId.Some? && s.streamId.value != sid then s
      else StreamAssign(s, sid, payload)
  }

  /** The stream id and the text after `|` of a `…|stream <hex id> … dax_iq …` line. */
  function StreamStatus(line: string): Option<(nat, string)> {
    if !(Contains(line, "|stream ") && Contains(line, "dax_iq")) then None
    else match Payload(line)
      case None => None
      case Some(payload) =>
        var tokens := Words(payload);
        if |tokens| < 2 || tokens[0] != "stream" then None
        else match ParseHex(tokens[1])
          case None => None
          case Some(sid) => Some((sid, payload))
  }

  /** The assignments of the stream clause, for a line about our stream. */
  function StreamAssign(s: Session, sid: nat, payload: string): Session {
    var sliceText := Truthy(ExtractKey(payload, "slice"));
    var panText := Truthy(ExtractKey(payload, "pan"));
    if sliceText.Some? && ParseHex(sliceText.value).None? then s
    else
      var s1 := if sliceText.Some? then s.(sliceId := ParseHex(sliceText.value)) else s;
      if panText.None? then s1
      else match ParseHex(panText.value)
        case None => s1
        case Some(pan) =>
          if pan == 0 then s1
          else
            var info := InfoOf(s1.knownPans, pan).(streamId := Some("0x" + Hex(sid, 8, false)));
            s1.(panId := Some(pan), knownPans := s1.knownPans[pan := info])
  }

  /**
   * The slice clause: with a non-zero `slice_id`, a `slice <n> …` line for
   * that slice sets the slice frequency from `RF_frequency=` read as whole Hz.
   */
  function OnSlice(s: Session, line: string): (r: Session)
    ensures s.sliceId.None? || s.sliceId.value == 0 ==> r == s
    ensures r == s || r == s.(sliceFreqMHz := r.sliceFreqMHz)
  {
    if !(s.sliceId.Some? && s.sliceId.value != 0) then s
    else match SliceStatus(line)
      case None => s
      case Some((n, payload)) =>
        if n != s.sliceId.value then s
        else match SliceHz(payload)
          case None => s
          case Some(hz) => s.(sliceFreqMHz := Some(HzToMHz(hz)))
  }

  /** A whole number of hertz in megahertz. */
  function HzToMHz(hz: nat): (mhz: real)
    ensures mhz * 1000000.0 == hz as real
  {
    hz as real / 1000000.0
  }

  /** The slice's `RF_frequency` in hertz, when present, non-empty and decimal. */
  function SliceHz(payload: string): (r: Option<nat>)
    ensures r.Some? ==> Truthy(ExtractKey(payload, "RF_frequency")).Some?
  {
    match Truthy(ExtractKey(payload, "RF_frequency"))
    case None => None
    case Some(text) => ParseNat(text)
  }

  /** The slice number (decimal) and the text after `|` of a `…|slice <n> …` line. */
  function SliceStatus(line: string): Option<(nat, string)> {
    if !Contains(line, "|slice ") then None
    else match Payload(line)
      case None => None
      case Some(payload) =>
        var tokens := Words(payload);
        if |tokens| < 2 || tokens[0] != "slice" then None
        else match ParseNat(tokens[1])
          case None => None
          case Some(n) => Some((n, payload))
  }

  /** The panadapter id of a `display pan <hex id> …` line. */
  function DisplayPanId(line: string): Option<nat> {
    if !Contains(line, "|display pan ") then None
    else match Payload(line)
      case None => None
      case Some(payload) =>
        var tokens := Words(payload);
        if |tokens| < 3 || tokens[0] != "display" || tokens[1] != "pan" then None
        else ParseHex(tokens[2])
  }

  /** The new record of a panadapter: each present, non-empty field overwrites its old value. */
  function MergeInfo(info: PanInfo, payload: string): (r: PanInfo)
    ensures info.center.Some? ==> r.center.Some?
    ensures info.bandwidth.Some? ==> r.bandwidth.Some?
    ensures info.ant.Some? ==> r.ant.Some?
    ensures info.rxant.Some? ==> r.rxant.Some?
    ensures info.streamId.Some? ==> r.streamId.Some?
  {
    var center := Truthy(ExtractKey(payload, "center"));
    PanInfo(
      Keep(info.center, if center.Some? then FreqToMHz(center.value) else None),
      Keep(info.bandwidth, Truthy(ExtractKey(payload, "bandwidth"))),
      Keep(info.ant, Truthy(ExtractKey(payload, "ant"))),
      Keep(info.rxant, Truthy(ExtractKey(payload, "rxant"))),
      Keep(info.streamId, Truthy(ExtractKey(payload, "stream_id"))))
  }

  /**
   * The display-pan clause: id 0 changes nothing; any other id gets its
   * record merged, is captured when no panadapter is chosen yet, and when it
   * is ours updates the tracked center and bandwidth.
   */
  function OnDisplayPan(s: Session, line: string): (r: Session)
    ensures DisplayPanId(line).None? || DisplayPanId(line).value == 0 ==> r == s
    ensures DisplayPanId(line).Some? && DisplayPanId(line).value != 0 ==>
      DisplayPanId(line).value in r.knownPans &&
      r.panId == (if s.panId.None? then DisplayPanId(line) else s.panId)
  {
    match DisplayPanId(line)
    case None => s
    case Some(pan) =>
      if pan == 0 then s
      else
        var payload := Payload(line).value;
        var s1 := s.(knownPans := s.knownPans[pan := MergeInfo(InfoOf(s.knownPans, pan), payload)]);
        var s2 := if s1.panId.None? then s1.(panId := Some(pan)) else s1;
        if s2.panId.value != 0 && s2.panId.value == pan then TunePan(s2, payload)
        else s2
  }

  /** For the chosen panadapter: its centre (in MHz) and bandwidth (in Hz), each only when it reads. */
  function TunePan(s: Session, payload: string): (r: Session)
    ensures r == s.(panFreqMHz := r.panFreqMHz, panBandwidthHz := r.panBandwidthHz)
    ensures s.panFreqMHz.Some? ==> r.panFreqMHz.Some?
    ensures s.panBandwidthHz.Some? ==> r.panBandwidthHz.Some?
  {
    var center := Truthy(ExtractKey(payload, "center"));
    var bandwidth := Truthy(ExtractKey(payload, "bandwidth"));
    s.(panFreqMHz := Keep(s.panFreqMHz, if center.Some? then FreqToMHz(center.value) else None),
       panBandwidthHz := Keep(s.panBandwidthHz, if bandwidth.Some? then BandwidthToHz(bandwidth.value) else None))
  }

  /** `_status_monitor`: the three clauses in order, each seeing the previous ones' effects. */
  function OnLine(s: Session, line: string): Session {
    OnDisplayPan(OnSlice(OnStream(s, line), line), line)
  }

  /** The lines in arrival order. */
  function Monitor(s: Session, lines: seq<string>): Session
    decreases |lines|
  {
    if |lines| == 0 then s else Monitor(OnLine(s, lines[0]), lines[1..])
  }

  // -------------------------------------------------------------- invariants

  /** Zero is never taken as a panadapter id, neither chosen nor recorded. */
  predicate NoZeroPan(s: Session) {
    s.panId != Some(0) && 0 !in s.knownPans
  }

  lemma OnLineNoZeroPan(s: Session, line: string)
    requires NoZeroPan(s)
    ensures NoZeroPan(OnLine(s, line))
  {
    var s1 := OnStream(s, line);
    assert NoZeroPan(s1) by {
      match StreamStatus(line)
      case None =>
      case Some((sid, payload)) =>
        if !(s.streamId.Some? && s.streamId.value != sid) {
          StreamAssignNoZeroPan(s, sid, payload);
        }
    }
    var s2 := OnSlice(s1, line);
    assert s2.knownPans == s1.knownPans && s2.panId == s1.panId;
  }

  lemma StreamAssignNoZeroPan(s: Session, sid: nat, payload: string)
    requires NoZeroPan(s)
    ensures NoZeroPan(StreamAssign(s, sid, payload))
  {
  }

  lemma {:induction false} MonitorNoZeroPan(s: Session, lines: seq<string>)
    requires NoZeroPan(s)
    ensures NoZeroPan(Monitor(s, lines))
    decreases |lines|
  {
    if |lines| > 0 {
      OnLineNoZeroPan(s, lines[0]);
      MonitorNoZeroPan(OnLine(s, lines[0]), lines[1..]);
    }
  }

  /** A record only gains fields: every field once known stays known. */
  predicate InfoGrows(a: PanInfo, b: PanInfo) {
    && (a.center.Some? ==> b.center.Some?)
    && (a.bandwidth.Some? ==> b.bandwidth.Some?)
    && (a.ant.Some? ==> b.ant.Some?)
    && (a.rxant.Some? ==> b.rxant.Some?)
    && (a.streamId.Some? ==> b.streamId.Some?)
  }

  /** The known panadapters only grow: no entry is removed and no known field is forgotten. */
  predicate PansGrow(a: map<nat, PanInfo>, b: map<nat, PanInfo>) {
    forall k :: k in a ==> k in b && InfoGrows(a[k], b[k])
  }

  lemma OnLineGrows(s: Session, line: string)
    ensures PansGrow(s.knownPans, OnLine(s, line).knownPans)
    ensures s.panId.Some? ==> OnLine(s, line).panId.Some?
  {
    var s1 := OnStream(s, line);
    var s2 := OnSlice(s1, line);
    OnStreamGrows(s, line);
    assert s2.knownPans == s1.knownPans && s2.panId == s1.panId;
    OnDisplayPanGrows(s2, line);
  }

  lemma OnStreamGrows(s: Session, line: string)
    ensures PansGrow(s.knownPans, OnStream(s, line).knownPans)
    ensures s.panId.Some? ==> OnStream(s, line).panId.Some?
  {
    match StreamStatus(line)
    case None =>
      PansGrowSelf(s.knownPans);
    case Some((sid, payload)) =>
      if s.streamId.Some? && s.streamId.value != sid {
        PansGrowSelf(s.knownPans);
      } else {
        StreamAssignGrows(s, sid, payload);
      }
  }

  lemma StreamAssignGrows(s: Session, sid: nat, payload: string)
    ensures PansGrow(s.knownPans, StreamAssign(s, sid, payload).knownPans)
    ensures s.panId.Some? ==> StreamAssign(s, sid, payload).panId.Some?
  {
    var r := StreamAssign(s, sid, payload);
    if r.knownPans == s.knownPans {
      PansGrowSelf(s.knownPans);
    } else {
      var pan := ParseHex(Truthy(ExtractKey(payload, "pan")).value).value;
      var info := InfoOf(s.knownPans, pan).(streamId := Some("0x" + Hex(sid, 8, false)));
      assert r.knownPans == s.knownPans[pan := info];
      PutGrows(s.knownPans, pan, info);
    }
  }

  lemma OnDisplayPanGrows(s: Session, line: string)
    ensures PansGrow(s.knownPans, OnDisplayPan(s, line).knownPans)
    ensures s.panId.Some? ==> OnDisplayPan(s, line).panId.Some?
  {
    match DisplayPanId(line)
    case None =>
      PansGrowSelf(s.knownPans);
    case Some(pan) =>
      if pan == 0 {
        PansGrowSelf(s.knownPans);
      } else {
        var info := MergeInfo(InfoOf(s.knownPans, pan), Payload(line).value);
        assert OnDisplayPan(s, line).knownPans == s.knownPans[pan := info];
        PutGrows(s.knownPans, pan, info);
      }
  }

  lemma PansGrowSelf(m: map<nat, PanInfo>)
    ensures PansGrow(m, m)
  {
  }

  /** Replacing one entry by a record that only gained fields keeps the map growing. */
  lemma PutGrows(m: map<nat, PanInfo>, pan: nat, info: PanInfo)
    requires pan in m ==> InfoGrows(m[pan], info)
    ensures PansGrow(m, m[pan := info])
  {
  }

  lemma {:induction false} MonitorGrows(s: Session, lines: seq<string>)
    ensures PansGrow(s.knownPans, Monitor(s, lines).knownPans)
    ensures s.panId.Some? ==> Monitor(s, lines).panId.Some?
    decreases |lines|
  {
    if |lines| > 0 {
      var s1 := OnLine(s, lines[0]);
      OnLineGrows(s, lines[0]);
      MonitorGrows(s1, lines[1..]);
    }
  }

  // ------------------------------------------------------- the radio's lines

  /** The tokens of the stream status the radio sends for a DAXIQ stream. */
  function StreamTokens(sid: nat, slice: nat, pan: nat): seq<string> {
    ["stream", "0x" + Hex(sid, 8, false), "type=dax_iq", "slice=" + Hex(slice, 1, false), "pan=" + ("0x" + Hex(pan, 8, false))]
  }

  function StreamLine(sid: nat, slice: nat, pan: nat): string {
    "S0|" + JoinSpace(StreamTokens(sid, slice, pan))
  }

  /**
   * For our stream (or while ours is unknown) the line assigns the slice,
   * and a non-zero panadapter, recording the stream against it; a zero
   * panadapter leaves the choice alone.
   */
  lemma StreamLineAssigns(s: Session, sid: nat, slice: nat, pan: nat)
    requires s.streamId.None? || s.streamId == Some(sid)
    ensures var r := OnStream(s, StreamLine(sid, slice, pan));
      && r.sliceId == Some(slice)
      && (pan == 0 ==> r.panId == s.panId && r.knownPans == s.knownPans)
      && (pan != 0 ==> r.panId == Some(pan) && pan in r.knownPans &&
                       r.knownPans[pan].streamId == Some("0x" + Hex(sid, 8, false)))
  {
    var p := JoinSpace(StreamTokens(sid, slice, pan));
    StreamLineIsAssign(s, sid, slice, pan);
    StreamPayload(sid, slice, pan);
    HexRoundTrip(slice, 1, false);
    PrefixedHexRoundTrip(pan, 8, false);
    HexNonEmpty(slice, 1, false);
    AssignReads(s, sid, p, Hex(slice, 1, false), "0x" + Hex(pan, 8, false), slice, pan);
  }

  lemma StreamLineIsAssign(s: Session, sid: nat, slice: nat, pan: nat)
    requires s.streamId.None? || s.streamId == Some(sid)
    ensures OnStream(s, StreamLine(sid, slice, pan)) == StreamAssign(s, sid, JoinSpace(StreamTokens(sid, slice, pan)))
  {
    StreamLineStatus(sid, slice, pan);
  }

  /** The assignment made from a payload whose `slice=` and `pan=` fields read as numbers. */
  lemma AssignReads(s: Session, sid: nat, payload: string, sliceText: string, panText: string, slice: nat, pan: nat)
    ensures && ExtractKey(payload, "slice") == Some(sliceText) && sliceText != "" && ParseHex(sliceText) == Some(slice)
            && ExtractKey(payload, "pan") == Some(panText) && panText != "" && ParseHex(panText) == Some(pan)
      ==> var r := StreamAssign(s, sid, payload);
        && r.sliceId == Some(slice)
        && (pan == 0 ==> r.panId == s.panId && r.knownPans == s.knownPans)
        && (pan != 0 ==> r.panId == Some(pan) && pan in r.knownPans &&
                         r.knownPans[pan].streamId == Some("0x" + Hex(sid, 8, false)))
  {
    if && ExtractKey(payload, "slice") == Some(sliceText) && sliceText != "" && ParseHex(sliceText) == Some(slice)
       && ExtractKey(payload, "pan") == Some(panText) && panText != "" && ParseHex(panText) == Some(pan)
    {
      assert Truthy(ExtractKey(payload, "slice")) == Some(sliceText);
      assert Truthy(ExtractKey(payload, "pan")) == Some(panText);
    }
  }

  /** The line is recognised as a status of stream `sid`. */
  lemma StreamLineStatus(sid: nat, slice: nat, pan: nat)
    ensures StreamStatus(StreamLine(sid, slice, pan)) == Some((sid, JoinSpace(StreamTokens(sid, slice, pan))))
  {
    var ws := StreamTokens(sid, slice, pan);
    StreamLineMarks(sid, slice, pan);
    StreamLinePayload(sid, slice, pan);
    StreamPayload(sid, slice, pan);
    PrefixedHexRoundTrip(sid, 8, false);
  }

  lemma StreamLineMarks(sid: nat, slice: nat, pan: nat)
    ensures var line := StreamLine(sid, slice, pan);
      Contains(line, "|stream ") && Contains(line, "dax_iq")
  {
    var ws := StreamTokens(sid, slice, pan);
    var tail := JoinSpace(ws[3..]);
    assert JoinSpace(ws[2..]) == ws[2] + " " + tail by { assert ws[2..][1..] == ws[3..]; }
    assert JoinSpace(ws[1..]) == ws[1] + " " + JoinSpace(ws[2..]) by { assert ws[1..][1..] == ws[2..]; }
    StreamMarks(ws[1], tail);
  }

  /** Where the two marks sit in a stream status line. */
  lemma StreamMarks(id: string, tail: string)
    ensures var line := "S0|" + ("stream" + " " + (id + " " + ("type=dax_iq" + " " + tail)));
      Contains(line, "|stream ") && Contains(line, "dax_iq")
  {
    var line := "S0|" + ("stream" + " " + (id + " " + ("type=dax_iq" + " " + tail)));
    assert line[2..10] == "|stream ";
    ContainsSlice(line, "|stream ", 2);
    var k := |id| + 16;
    assert line[k..k + 6] == "dax_iq";
    ContainsSlice(line, "dax_iq", k);
  }

  lemma StreamLinePayload(sid: nat, slice: nat, pan: nat)
    ensures Payload(StreamLine(sid, slice, pan)) == Some(JoinSpace(StreamTokens(sid, slice, pan)))
  {
    var p := JoinSpace(StreamTokens(sid, slice, pan));
    assert StreamLine(sid, slice, pan) == "S0" + ['|'] + p;
    SplitOnceAt("S0", '|', p);
  }

  lemma StreamPayload(sid: nat, slice: nat, pan: nat)
    ensures var ws := StreamTokens(sid, slice, pan);
      var p := JoinSpace(ws);
      Words(p) == ws &&
      ExtractKey(p, "slice") == Some(Hex(slice, 1, false)) &&
      ExtractKey(p, "pan") == Some("0x" + Hex(pan, 8, false))
  {
    var ws := StreamTokens(sid, slice, pan);
    StreamTokensPlain(sid, slice, pan, ws);
    WordsOfJoinSpace(ws);
    StreamSliceKey(sid, slice, pan, ws);
    StreamPanKey(sid, slice, pan, ws);
  }

  lemma StreamSliceKey(sid: nat, slice: nat, pan: nat, ws: seq<string>)
    requires ws == StreamTokens(sid, slice, pan)
    ensures ExtractKey(JoinSpace(ws), "slice") == Some(Hex(slice, 1, false))
  {
    StreamTokensPlain(sid, slice, pan, ws);
    assert ws[0][1] == 't' && ws[1][0] == '0' && ws[2][0] == 't';
    assert forall j :: 0 <= j < 3 ==> !StartsWith(ws[j], "slice" + "=");
    ExtractKeyOfTokens(ws, 3, "slice", Hex(slice, 1, false));
  }

  lemma StreamPanKey(sid: nat, slice: nat, pan: nat, ws: seq<string>)
    requires ws == StreamTokens(sid, slice, pan)
    ensures ExtractKey(JoinSpace(ws), "pan") == Some("0x" + Hex(pan, 8, false))
  {
    StreamTokensPlain(sid, slice, pan, ws);
    assert ws[0][0] == 's' && ws[1][0] == '0' && ws[2][0] == 't' && ws[3][0] == 's';
    assert forall j :: 0 <= j < 4 ==> !StartsWith(ws[j], "pan" + "=");
    ExtractKeyOfTokens(ws, 4, "pan", "0x" + Hex(pan, 8, false));
  }

  lemma StreamTokensPlain(sid: nat, slice: nat, pan: nat, ws: seq<string>)
    requires ws == StreamTokens(sid, slice, pan)
    ensures forall k :: 0 <= k < |ws| ==> |ws[k]| > 0 && NoSpace(ws[k])
  {
    HexNoSpace(sid, 8, false);
    HexNoSpace(slice, 1, false);
    HexNoSpace(pan, 8, false);
    assert NoSpace(ws[3]) by {
      assert forall i :: 6 <= i < |ws[3]| ==> ws[3][i] == Hex(slice, 1, false)[i - 6];
    }
    assert NoSpace(ws[4]) by {
      assert forall i :: 4 <= i < |ws[4]| ==> ws[4][i] == ("0x" + Hex(pan, 8, false))[i - 4];
    }
  }

  /** The tokens of a slice status reporting its frequency in whole Hz. */
  function SliceTokens(n: nat, hz: nat): seq<string> {
    ["slice", Decimal(n), "RF_frequency=" + Decimal(hz)]
  }

  function SliceLine(n: nat, hz: nat): string {
    "S0|" + JoinSpace(SliceTokens(n, hz))
  }

  /** Our non-zero slice's status line sets the slice frequency, in MHz. */
  lemma SliceLineTunes(s: Session, n: nat, hz: nat)
    requires s.sliceId == Some(n) && n != 0
    ensures OnSlice(s, SliceLine(n, hz)).sliceFreqMHz == Some(HzToMHz(hz))
  {
    SliceLineStatus(n, hz);
    SliceFreqKey(n, hz, SliceTokens(n, hz));
    DecimalRoundTrip(hz);
    OnSliceReads(s, SliceLine(n, hz), JoinSpace(SliceTokens(n, hz)), Decimal(hz), hz);
  }

  /** A status of our slice with a decimal `RF_frequency` sets the slice frequency. */
  lemma OnSliceReads(s: Session, line: string, payload: string, text: string, hz: nat)
    requires s.sliceId.Some? && s.sliceId.value != 0
    requires SliceStatus(line) == Some((s.sliceId.value, payload))
    requires ExtractKey(payload, "RF_frequency") == Some(text) && ParseNat(text) == Some(hz)
    ensures OnSlice(s, line).sliceFreqMHz == Some(HzToMHz(hz))
  {
    SliceHzReads(payload, text, hz);
  }

  lemma SliceHzReads(payload: string, text: string, hz: nat)
    requires ExtractKey(payload, "RF_frequency") == Some(text) && ParseNat(text) == Some(hz)
    ensures SliceHz(payload) == Some(hz)
  {
  }

  lemma SliceFreqKey(n: nat, hz: nat, ws: seq<string>)
    requires ws == SliceTokens(n, hz)
    ensures ExtractKey(JoinSpace(ws), "RF_frequency") == Some(Decimal(hz))
  {
    SliceTokensPlain(n, hz, ws);
    assert ws[0][1] == 'l' && ws[1][0] != 'R';
    ExtractKeyOfTokens(ws, 2, "RF_frequency", Decimal(hz));
  }

  lemma SliceLineStatus(n: nat, hz: nat)
    ensures SliceStatus(SliceLine(n, hz)) == Some((n, JoinSpace(SliceTokens(n, hz))))
  {
    var ws := SliceTokens(n, hz);
    var p := JoinSpace(ws);
    var line := SliceLine(n, hz);
    assert p == "slice" + " " + JoinSpace(ws[1..]);
    assert line == "S0" + "|slice " + JoinSpace(ws[1..]);
    ContainsAt("S0", "|slice ", JoinSpace(ws[1..]));
    assert line == "S0" + ['|'] + p;
    SplitOnceAt("S0", '|', p);
    SliceTokensPlain(n, hz, ws);
    WordsOfJoinSpace(ws);
    DecimalRoundTrip(n);
  }

  lemma SliceTokensPlain(n: nat, hz: nat, ws: seq<string>)
    requires ws == SliceTokens(n, hz)
    ensures forall k :: 0 <= k < |ws| ==> |ws[k]| > 0 && NoSpace(ws[k])
  {
    DigitsNoSpace(Decimal(n), 10);
    DigitsNoSpace(Decimal(hz), 10);
    assert NoSpace(ws[2]) by {
      assert forall i :: 13 <= i < |ws[2]| ==> ws[2][i] == Decimal(hz)[i - 13];
    }
  }

  lemma HexNonEmpty(n: nat, width: nat, upper: bool)
    requires width >= 1
    ensures Hex(n, width, upper) != ""
  {
  }
}
