/**
 * Radio discovery: which broadcast datagrams are FlexRadio discovery
 * replies, the `key=value` payload they carry, the radio record read from
 * it, and the human-readable summary logged for it.
 */
module Discovery {
  import opened Base
  import opened Text
  import opened Wire
  import opened Models
  import opened KeyValue

  /** The radio's command port, the only port a discovered radio is given. */
  const FlexTcpPort: nat := 4992

  /** The FlexRadio organisationally unique identifier carried in the class id. */
  const FlexOui: bv64 := 0x001c2d

  // ------------------------------------------------------------ datagrams

  /** Payload bytes as characters, one per byte (decoding is not modelled beyond ASCII). */
  function Chars(b: Bytes): (s: string)
    ensures |s| == |b| && forall i :: 0 <= i < |b| ==> s[i] == (b[i] as int) as char
  {
    seq(|b|, i requires 0 <= i < |b| => (b[i] as int) as char)
  }

  /** Bit 27 of the big-endian first word: a class id follows the stream id. */
  function HasClassId(data: Bytes): bool
    requires |data| >= 4
  {
    (BE32(data, 0) >> 27) & 1 == 1
  }

  /** The OUI and packet class of the class id at offset 8 name a FlexRadio discovery reply. */
  function IsFlexDiscovery(data: Bytes): bool
    requires |data| >= 16
  {
    var classId := BE64(data, 8);
    (classId >> 32) & 0xFFFFFF == FlexOui && classId & 0xFFFF == 0xFFFF
  }

  /**
   * The discovery text of one datagram, or `None` when the loop skips it:
   * under 8 bytes, no class id, under 16 bytes with one, or a class id that
   * is not FlexRadio's discovery class. The text is everything after the
   * class id with trailing NULs removed.
   */
  function DiscoveryText(data: Bytes): (r: Option<string>)
  {
    if |data| < 8 || !HasClassId(data) || |data| < 16 then None
    else if IsFlexDiscovery(data) then Some(RStripChar(Chars(data[16..]), 0 as char))
    else None
  }

  /** The same test, byte by byte: what a datagram must look like to be accepted. */
  predicate AcceptedBytes(data: Bytes) {
    && |data| >= 16
    && data[0] & 0x08 == 0x08
    && data[9] == 0x00 && data[10] == 0x1c && data[11] == 0x2d
    && data[14] == 0xFF && data[15] == 0xFF
  }

  lemma ClassBit(b0: bv8, b1: bv8, b2: bv8, b3: bv8)
    ensures (Be32Of(b0, b1, b2, b3) >> 27) & 1 == 1 <==> b0 & 0x08 == 0x08
  {
  }

  lemma ClassFields(w0: bv32, w1: bv32)
    ensures (((w0 as bv64 << 32) | (w1 as bv64)) >> 32) & 0xFFFFFF == (w0 as bv64) & 0xFFFFFF
    ensures ((w0 as bv64 << 32) | (w1 as bv64)) & 0xFFFF == (w1 as bv64) & 0xFFFF
  {
  }

  lemma OuiBytes(b0: bv8, b1: bv8, b2: bv8, b3: bv8)
    ensures Be32Of(b0, b1, b2, b3) as bv64 & 0xFFFFFF == FlexOui <==> b1 == 0x00 && b2 == 0x1c && b3 == 0x2d
  {
  }

  lemma PacketClassBytes(b0: bv8, b1: bv8, b2: bv8, b3: bv8)
    ensures Be32Of(b0, b1, b2, b3) as bv64 & 0xFFFF == 0xFFFF <==> b2 == 0xFF && b3 == 0xFF
  {
  }

  /** A datagram yields discovery text exactly when its bytes pass the byte-level test. */
  lemma DiscoveryTextAccepts(data: Bytes)
    ensures DiscoveryText(data).Some? <==> AcceptedBytes(data)
    ensures DiscoveryText(data).Some? ==> DiscoveryText(data).value == RStripChar(Chars(data[16..]), 0 as char)
  {
    if |data| >= 16 {
      ClassBit(data[0], data[1], data[2], data[3]);
      ClassFields(BE32(data, 8), BE32(data, 12));
      OuiBytes(data[8], data[9], data[10], data[11]);
      PacketClassBytes(data[12], data[13], data[14], data[15]);
    }
  }

  /** The index of the first datagram that is a discovery reply, if any. */
  function FirstReply(datagrams: seq<(Bytes, string)>): (r: Option<nat>)
    ensures r.Some? ==> r.value < |datagrams| && DiscoveryText(datagrams[r.value].0).Some?
    ensures r.Some? ==> forall j :: 0 <= j < r.value ==> DiscoveryText(datagrams[j].0).None?
    ensures r.None? ==> forall j :: 0 <= j < |datagrams| ==> DiscoveryText(datagrams[j].0).None?
    decreases |datagrams|
  {
    if |datagrams| == 0 then None
    else if DiscoveryText(datagrams[0].0).Some? then Some(0)
    else match FirstReply(datagrams[1..])
      case None => None
      case Some(i) => Some(i + 1)
  }

  /**
   * `discover` over the datagrams that arrive before the deadline, each with
   * its sender's address: the first accepted one ends the loop, so at most
   * one radio is found.
   */
  function Discover(datagrams: seq<(Bytes, string)>): (radios: seq<FlexRadio>)
    ensures |radios| <= 1
    ensures |radios| == 0 <==> forall i :: 0 <= i < |datagrams| ==> DiscoveryText(datagrams[i].0).None?
    ensures forall k :: 0 <= k < |radios| ==> radios[k].port == FlexTcpPort
  {
    match FirstReply(datagrams)
    case None => []
    case Some(i) => [ParseDiscovery(DiscoveryText(datagrams[i].0).value, datagrams[i].1)]
  }

  /** The radio found is the one named by the first datagram that is a discovery reply. */
  lemma DiscoverFirst(datagrams: seq<(Bytes, string)>)
    ensures |Discover(datagrams)| == 1 ==>
      exists i :: 0 <= i < |datagrams| && DiscoveryText(datagrams[i].0).Some? &&
        (forall j :: 0 <= j < i ==> DiscoveryText(datagrams[j].0).None?) &&
        Discover(datagrams)[0] == ParseDiscovery(DiscoveryText(datagrams[i].0).value, datagrams[i].1)
  {
    var r := FirstReply(datagrams);
    if r.Some? {
      var i := r.value;
      assert Discover(datagrams)[0] == ParseDiscovery(DiscoveryText(datagrams[i].0).value, datagrams[i].1);
    }
  }

  // ------------------------------------------------------------- payload

  /** The comma-separated entries of `s`, empty entries dropped. */
  function CommaList(s: string): (r: seq<string>)
    ensures forall k :: 0 <= k < |r| ==> r[k] != "" && ',' !in r[k]
  {
    SplitCharPieces(s, ',');
    NonEmpty(SplitChar(s, ','))
  }

  /** `_parse_discovery`: the radio named by a discovery text received from `ip`. */
  function ParseDiscovery(msg: string, ip: string): (r: FlexRadio)
    ensures r.port == FlexTcpPort
  {
    var kv := KeyValues(Words(msg));
    FlexRadio(
      Get(kv, "ip", ip), FlexTcpPort, Get(kv, "model", "unknown"),
      Get(kv, "serial", ""), Get(kv, "version", ""),
      CommaList(Get(kv, "gui_client_handles", "")),
      CommaList(Get(kv, "gui_client_ids", "")))
  }

  /**
   * The defaults: a text naming none of the keys gives the sender's address,
   * model "unknown", empty serial and version, and no GUI clients.
   */
  lemma ParseDiscoveryDefaults(msg: string, ip: string)
    requires forall i :: 0 <= i < |Words(msg)| ==> '=' !in Words(msg)[i]
    ensures ParseDiscovery(msg, ip) == FlexRadio(ip, FlexTcpPort, "unknown", "", "", [], [])
  {
    var ws := Words(msg);
    var kv := KeyValues(ws);
    forall key: string ensures key !in kv {
      KeyValuesLast(ws, key);
    }
    assert SplitChar("", ',') == [""];
  }

  /** The entries joined with commas, empty for no entries. */
  function CommaText(xs: seq<string>): string {
    if |xs| == 0 then "" else JoinChar(xs, ',')
  }

  lemma CommaListOfText(xs: seq<string>)
    requires forall k :: 0 <= k < |xs| ==> xs[k] != "" && ',' !in xs[k]
    ensures CommaList(CommaText(xs)) == xs
  {
    if |xs| == 0 {
      assert SplitChar("", ',') == [""];
    } else {
      SplitJoinChar(xs, ',');
      NonEmptyKeeps(xs);
    }
  }

  /** The fields a radio's discovery text carries, as the radio advertises them. */
  function AdvertisedFields(r: FlexRadio): seq<(string, string)> {
    [("ip", r.ip), ("model", r.model), ("serial", r.serial), ("version", r.version),
     ("gui_client_handles", CommaText(r.guiClientHandles)), ("gui_client_ids", CommaText(r.guiClientIds))]
  }

  /** The discovery text a radio broadcasts: its fields as space-separated `key=value` tokens. */
  function Advertise(r: FlexRadio): string {
    JoinSpace(TokensOf(AdvertisedFields(r)))
  }

  /** A radio whose fields can be advertised: no whitespace, and list entries non-empty without commas. */
  predicate Advertisable(r: FlexRadio) {
    && NoSpace(r.ip) && NoSpace(r.model) && NoSpace(r.serial) && NoSpace(r.version)
    && (forall k :: 0 <= k < |r.guiClientHandles| ==> r.guiClientHandles[k] != "" && ',' !in r.guiClientHandles[k] && NoSpace(r.guiClientHandles[k]))
    && (forall k :: 0 <= k < |r.guiClientIds| ==> r.guiClientIds[k] != "" && ',' !in r.guiClientIds[k] && NoSpace(r.guiClientIds[k]))
  }

  lemma CommaTextNoSpace(xs: seq<string>)
    requires forall k :: 0 <= k < |xs| ==> NoSpace(xs[k])
    ensures NoSpace(CommaText(xs))
  {
    if |xs| > 0 {
      JoinNoSpace(xs);
    }
  }

  lemma {:induction false} JoinNoSpace(xs: seq<string>)
    requires |xs| >= 1
    requires forall k :: 0 <= k < |xs| ==> NoSpace(xs[k])
    ensures NoSpace(JoinChar(xs, ','))
    decreases |xs|
  {
    if |xs| > 1 {
      JoinNoSpace(xs[1..]);
      var t := xs[0] + [','] + JoinChar(xs[1..], ',');
      assert forall i :: 0 <= i < |t| ==>
        ((i < |xs[0]| && t[i] == xs[0][i]) || i == |xs[0]| || (i > |xs[0]| && t[i] == JoinChar(xs[1..], ',')[i - |xs[0]| - 1]));
    }
  }

  lemma AdvertisedPlain(r: FlexRadio)
    requires Advertisable(r)
    ensures var fs := AdvertisedFields(r);
      DistinctKeys(fs) &&
      forall i :: 0 <= i < |fs| ==> '=' !in fs[i].0 && NoSpace(fs[i].0) && NoSpace(fs[i].1) && |fs[i].0| > 0
  {
    var fs := AdvertisedFields(r);
    var lens := [2, 5, 6, 7, 18, 14];
    assert forall i :: 0 <= i < |fs| ==> |fs[i].0| == lens[i];
    forall i, j | 0 <= i < j < |fs| ensures fs[i].0 != fs[j].0 {
      assert lens[i] != lens[j];
    }
    CommaTextNoSpace(r.guiClientHandles);
    CommaTextNoSpace(r.guiClientIds);
    forall i | 0 <= i < |fs| ensures '=' !in fs[i].0 && NoSpace(fs[i].0) && NoSpace(fs[i].1) && |fs[i].0| > 0 {
      PlainKey(fs[i].0);
    }
  }

  /** A key written with letters and underscores only. */
  lemma PlainKey(k: string)
    requires forall c :: c in k ==> 'a' <= c <= 'z' || c == '_'
    ensures '=' !in k && NoSpace(k)
  {
    forall i | 0 <= i < |k| ensures !IsSpace(k[i]) {
      assert k[i] in k;
    }
  }

  lemma TokenPlain(key: string, value: string)
    requires |key| > 0 && NoSpace(key) && NoSpace(value)
    ensures |Token(key, value)| > 0 && NoSpace(Token(key, value))
  {
  }

  lemma AdvertisedWords(r: FlexRadio)
    requires Advertisable(r)
    ensures Words(Advertise(r)) == TokensOf(AdvertisedFields(r))
  {
    var fs := AdvertisedFields(r);
    var ts := TokensOf(fs);
    AdvertisedPlain(r);
    forall k | 0 <= k < |ts| ensures |ts[k]| > 0 && NoSpace(ts[k]) {
      TokenPlain(fs[k].0, fs[k].1);
    }
    WordsOfJoinSpace(ts);
  }

  lemma AdvertisedValues(r: FlexRadio)
    requires Advertisable(r)
    ensures var kv := KeyValues(TokensOf(AdvertisedFields(r)));
      && "ip" in kv && kv["ip"] == r.ip
      && "model" in kv && kv["model"] == r.model
      && "serial" in kv && kv["serial"] == r.serial
      && "version" in kv && kv["version"] == r.version
      && "gui_client_handles" in kv && kv["gui_client_handles"] == CommaText(r.guiClientHandles)
      && "gui_client_ids" in kv && kv["gui_client_ids"] == CommaText(r.guiClientIds)
  {
    var fs := AdvertisedFields(r);
    AdvertisedPlain(r);
    FieldRead(fs, 0);
    FieldRead(fs, 1);
    FieldRead(fs, 2);
    FieldRead(fs, 3);
    FieldRead(fs, 4);
    FieldRead(fs, 5);
  }

  lemma FieldRead(fs: seq<(string, string)>, i: nat)
    requires DistinctKeys(fs) && i < |fs|
    requires forall k :: 0 <= k < |fs| ==> '=' !in fs[k].0 && NoSpace(fs[k].0) && NoSpace(fs[k].1) && |fs[k].0| > 0
    ensures fs[i].0 in KeyValues(TokensOf(fs)) && KeyValues(TokensOf(fs))[fs[i].0] == fs[i].1
  {
    KeyValuesOfTokens(fs);
  }

  /**
   * What a radio advertises, discovery reads back: every field, both GUI
   * lists in order, and the command port, whatever the sender's address.
   */
  lemma AdvertiseRoundTrip(r: FlexRadio, sender: string)
    requires Advertisable(r) && r.port == FlexTcpPort
    ensures ParseDiscovery(Advertise(r), sender) == r
  {
    AdvertisedWords(r);
    AdvertisedValues(r);
    CommaListOfText(r.guiClientHandles);
    CommaListOfText(r.guiClientIds);
  }

  // ------------------------------------------------------------- summary

  /** The comma-separated entries under `key`, none when it is missing or empty; empty entries are kept here. */
  function SummaryList(kv: map<string, string>, key: string): (r: seq<string>)
    ensures key !in kv || kv[key] == "" ==> r == []
    ensures key in kv && kv[key] != "" ==> |r| >= 1 && JoinChar(r, ',') == kv[key]
  {
    if key in kv && kv[key] != "" then
      JoinSplitChar(kv[key], ',');
      SplitChar(kv[key], ',')
    else []
  }

  /** The entry at `idx`, or "n/a" when the list is shorter or the entry empty. */
  function Entry(xs: seq<string>, idx: nat): (r: string)
    ensures idx < |xs| && xs[idx] != "" ==> r == xs[idx]
    ensures idx >= |xs| || xs[idx] == "" ==> r == "n/a"
  {
    if idx < |xs| && xs[idx] != "" then xs[idx] else "n/a"
  }

  function Max(a: nat, b: nat): nat {
    if a >= b then a else b
  }

  datatype GuiLists = GuiLists(
    ips: seq<string>, hosts: seq<string>, programs: seq<string>,
    stations: seq<string>, handles: seq<string>, ids: seq<string>)

  function GuiListsOf(kv: map<string, string>): GuiLists {
    GuiLists(
      SummaryList(kv, "gui_client_ips"), SummaryList(kv, "gui_client_hosts"),
      SummaryList(kv, "gui_client_programs"), SummaryList(kv, "gui_client_stations"),
      SummaryList(kv, "gui_client_handles"), SummaryList(kv, "gui_client_ids"))
  }

  /** The number of GUI clients the summary lists: the longest of the six lists. */
  function GuiCount(g: GuiLists): (n: nat)
    ensures |g.ips| <= n && |g.hosts| <= n && |g.programs| <= n
    ensures |g.stations| <= n && |g.handles| <= n && |g.ids| <= n
    ensures n in {|g.ips|, |g.hosts|, |g.programs|, |g.stations|, |g.handles|, |g.ids|}
  {
    Max(Max(Max(|g.ips|, |g.hosts|), Max(|g.programs|, |g.stations|)), Max(|g.handles|, |g.ids|))
  }

  /** The detail line of client `idx`; the client id is appended only when known. */
  function DetailLine(g: GuiLists, idx: nat): (line: string)
    ensures StartsWith(line, "    [" + Decimal(idx) + "] ip=" + Entry(g.ips, idx) + " host=")
    ensures idx < |g.ids| && g.ids[idx] != "" ==> EndsWith(line, " client_id=" + g.ids[idx])
  {
    var base := "    [" + Decimal(idx) + "] ip=" + Entry(g.ips, idx) + " host=" + Entry(g.hosts, idx) +
      " program=" + Entry(g.programs, idx) + " station=" + Entry(g.stations, idx) +
      " handle=" + Entry(g.handles, idx);
    var line := if idx < |g.ids| && g.ids[idx] != "" then base + " client_id=" + g.ids[idx] else base;
    assert line[..|"    [" + Decimal(idx) + "] ip=" + Entry(g.ips, idx) + " host="|] ==
      "    [" + Decimal(idx) + "] ip=" + Entry(g.ips, idx) + " host=";
    line
  }

  /** The four header lines of `_format_discovery_summary`. */
  function SummaryHead(kv: map<string, string>, fallbackIp: string): (head: seq<string>)
    ensures |head| == 4 && head[0] == "Discovery response:"
  {
    [
      "Discovery response:",
      "  model=" + Get(kv, "model", "unknown") + " nickname=" + Get(kv, "nickname", "n/a") +
        " callsign=" + Get(kv, "callsign", "n/a"),
      "  ip=" + Get(kv, "ip", fallbackIp) + ":" + Get(kv, "port", Decimal(FlexTcpPort)) +
        " status=" + Get(kv, "status", "unknown") + " version=" + Get(kv, "version", "unknown"),
      "  in_use_by=" + Get(kv, "inuse_host", Get(kv, "inuse_ip", "n/a")) +
        " available_clients=" + Get(kv, "available_clients", "n/a")]
  }

  /** The lines of `_format_discovery_summary`, to be joined with newlines. */
  function SummaryLines(msg: string, fallbackIp: string): (lines: seq<string>)
    ensures |lines| >= 4 && lines[0] == "Discovery response:"
  {
    var kv := KeyValues(Words(msg));
    ClientLines(SummaryHead(kv, fallbackIp), GuiListsOf(kv))
  }

  /** The header lines, then the count line and one detail line per client, when there is one. */
  function ClientLines(head: seq<string>, g: GuiLists): (lines: seq<string>)
    ensures |lines| >= |head| && lines[..|head|] == head
  {
    var n := GuiCount(g);
    if n == 0 then head
    else head + ["  gui_clients=" + Decimal(n)] + seq(n, idx requires 0 <= idx < n => DetailLine(g, idx))
  }

  /**
   * Every GUI client any of the six lists mentions gets exactly one detail
   * line, in index order after the count line; with none, only the four
   * header lines are logged.
   */
  lemma SummaryCoversClients(msg: string, fallbackIp: string)
    ensures var g := GuiListsOf(KeyValues(Words(msg)));
      var lines := SummaryLines(msg, fallbackIp);
      var n := GuiCount(g);
      && (n == 0 ==> |lines| == 4)
      && (n > 0 ==> |lines| == 5 + n && lines[4] == "  gui_clients=" + Decimal(n))
      && (forall idx :: 0 <= idx < n ==> lines[5 + idx] == DetailLine(g, idx))
  {
    var kv := KeyValues(Words(msg));
    ClientLinesCover(SummaryHead(kv, fallbackIp), GuiListsOf(kv));
  }

  lemma ClientLinesCover(head: seq<string>, g: GuiLists)
    requires |head| == 4
    ensures var lines := ClientLines(head, g);
      var n := GuiCount(g);
      && (n == 0 ==> |lines| == 4)
      && (n > 0 ==> |lines| == 5 + n && lines[4] == "  gui_clients=" + Decimal(n))
      && (forall idx :: 0 <= idx < n ==> lines[5 + idx] == DetailLine(g, idx))
  {
    var n := GuiCount(g);
    if n > 0 {
      var details := seq(n, idx requires 0 <= idx < n => DetailLine(g, idx));
      var lines := head + ["  gui_clients=" + Decimal(n)] + details;
      assert ClientLines(head, g) == lines;
      forall idx | 0 <= idx < n ensures lines[5 + idx] == DetailLine(g, idx) {
        assert lines[5 + idx] == details[idx];
      }
    }
  }

  /** A client with a known id has it at the end of its detail line. */
  lemma SummaryNamesIds(msg: string, fallbackIp: string, idx: nat)
    ensures var g := GuiListsOf(KeyValues(Words(msg)));
      var lines := SummaryLines(msg, fallbackIp);
      idx < |g.ids| && g.ids[idx] != "" ==>
        5 + idx < |lines| && EndsWith(lines[5 + idx], " client_id=" + g.ids[idx])
  {
    var g := GuiListsOf(KeyValues(Words(msg)));
    if idx < |g.ids| && g.ids[idx] != "" {
      var n := GuiCount(g);
      assert idx < n;
      SummaryCoversClients(msg, fallbackIp);
      var line := SummaryLines(msg, fallbackIp)[5 + idx];
      assert line == DetailLine(g, idx);
    }
  }

  /** The logged summary: the lines joined with newlines. */
  function Summary(msg: string, fallbackIp: string): (text: string)
    ensures StartsWith(text, "Discovery response:")
  {
    var lines := SummaryLines(msg, fallbackIp);
    var text := JoinChar(lines, '\n');
    assert text == lines[0] + ['\n'] + JoinChar(lines[1..], '\n');
    text
  }
}
