/**
 * GUI-client records seen on the command connection: a `client <handle>
 * key=value …` record is kept, keyed by its `client_id`, when it describes a
 * GUI client; the listing is ordered by (station, client_id).
 */
module Clients {
  import opened Base
  import opened Text
  import opened KeyValue

  datatype GuiClient = GuiClient(
    clientId: string,
    handle: string,
    station: string,
    program: string,
    host: string,
    ip: string)

  // ------------------------------------------------------------ one record

  /**
   * The `client …` record inside a payload: the stripped payload itself when
   * it starts with `client `, else `client ` followed by the stripped text
   * after the first ` client `.
   */
  function ClientRecord(payload: string): (r: Option<string>)
    ensures r.Some? ==> StartsWith(r.value, "client ")
    ensures r.None? <==> !StartsWith(Strip(payload), "client ") && !Contains(Strip(payload), " client ")
  {
    var p := Strip(payload);
    if StartsWith(p, "client ") then Some(p)
    else match FindSub(p, " client ")
      case None => None
      case Some(i) =>
        var rec := "client " + Strip(p[i + 8..]);
        assert rec[..7] == "client ";
        Some(rec)
  }

  /** A record describes a GUI client when `gui=1` or its program starts with `SmartSDR`. */
  predicate IsGui(kv: map<string, string>) {
    Get(kv, "gui", "") == "1" || StartsWith(Get(kv, "program", ""), "SmartSDR")
  }

  /** The GUI client a payload describes, if it describes one with a non-empty id. */
  function ParseClient(payload: string): (r: Option<GuiClient>)
    ensures r.Some? ==> r.value.clientId != ""
  {
    match ClientRecord(payload)
    case None => None
    case Some(rec) =>
      var tokens := Words(rec);
      if |tokens| < 2 || tokens[0] != "client" then None
      else
        var kv := KeyValues(tokens[2..]);
        var id := Get(kv, "client_id", "");
        if !IsGui(kv) || id == "" then None
        else Some(GuiClient(id, tokens[1], Get(kv, "station", ""), Get(kv, "program", ""),
                            Get(kv, "host", ""), Get(kv, "ip", "")))
  }

  /** A field value the radio can send in one token. */
  predicate Plain(v: string) {
    NoSpace(v)
  }

  /** The record a radio sends for a GUI client, `gui=1` last. */
  function ClientLine(c: GuiClient): string {
    JoinSpace(ClientTokens(c))
  }

  function ClientTokens(c: GuiClient): seq<string> {
    ["client", c.handle] + TokensOf(ClientFields(c))
  }

  /** The record's fields, in the order the radio sends them. */
  function ClientFields(c: GuiClient): seq<(string, string)> {
    [("client_id", c.clientId), ("station", c.station), ("program", c.program),
     ("host", c.host), ("ip", c.ip), ("gui", "1")]
  }

  /** A record the radio sends is read back as the same client. */
  lemma ParseClientLine(c: GuiClient)
    requires c.clientId != "" && |c.handle| > 0
    requires Plain(c.clientId) && Plain(c.handle) && Plain(c.station)
    requires Plain(c.program) && Plain(c.host) && Plain(c.ip)
    ensures ParseClient(ClientLine(c)) == Some(c)
  {
    var tokens := ClientTokens(c);
    var line := ClientLine(c);
    TokensPlain(c);
    WordsOfJoinSpace(tokens);
    RecordOfLine(c);
    KeyValuesOfLine(c);
  }

  lemma TokensPlain(c: GuiClient)
    requires |c.handle| > 0
    requires Plain(c.clientId) && Plain(c.handle) && Plain(c.station)
    requires Plain(c.program) && Plain(c.host) && Plain(c.ip)
    ensures forall k :: 0 <= k < |ClientTokens(c)| ==> |ClientTokens(c)[k]| > 0 && NoSpace(ClientTokens(c)[k])
  {
    var fs := ClientFields(c);
    var ts := ClientTokens(c);
    forall k | 2 <= k < |ts| ensures |ts[k]| > 0 && NoSpace(ts[k]) {
      assert ts[k] == fs[k - 2].0 + "=" + fs[k - 2].1;
    }
  }

  /** The record of a radio line is the line itself. */
  lemma RecordOfLine(c: GuiClient)
    requires |c.handle| > 0
    requires Plain(c.clientId) && Plain(c.handle) && Plain(c.station)
    requires Plain(c.program) && Plain(c.host) && Plain(c.ip)
    ensures ClientRecord(ClientLine(c)) == Some(ClientLine(c))
  {
    var tokens := ClientTokens(c);
    var line := ClientLine(c);
    assert line == "client" + " " + JoinSpace(tokens[1..]);
    assert line[..7] == "client ";
    var last := JoinSpace(tokens[7..]);
    assert last == "gui=1";
    JoinSpaceEnds(tokens, "gui=1");
    StripTrimmed(line);
  }

  /** A space-joined list ends with its last token. */
  lemma {:induction false} JoinSpaceEnds(ws: seq<string>, w: string)
    requires |ws| >= 1 && ws[|ws| - 1] == w && |w| > 0
    ensures |JoinSpace(ws)| > 0 && JoinSpace(ws)[|JoinSpace(ws)| - 1] == w[|w| - 1]
    decreases |ws|
  {
    if |ws| > 1 {
      JoinSpaceEnds(ws[1..], w);
    }
  }

  /** The dictionary of a radio line's `key=value` tokens. */
  lemma KeyValuesOfLine(c: GuiClient)
    requires Plain(c.clientId) && Plain(c.station) && Plain(c.program) && Plain(c.host) && Plain(c.ip)
    ensures var kv := KeyValues(ClientTokens(c)[2..]);
      Get(kv, "client_id", "") == c.clientId && Get(kv, "station", "") == c.station &&
      Get(kv, "program", "") == c.program && Get(kv, "host", "") == c.host &&
      Get(kv, "ip", "") == c.ip && Get(kv, "gui", "") == "1"
  {
    var fs := ClientFields(c);
    assert ClientTokens(c)[2..] == TokensOf(fs);
    FieldsPlain(c);
    KeyValuesOfTokens(fs);
    var kv := KeyValues(TokensOf(fs));
    assert kv[fs[0].0] == fs[0].1 && kv[fs[1].0] == fs[1].1 && kv[fs[2].0] == fs[2].1;
    assert kv[fs[3].0] == fs[3].1 && kv[fs[4].0] == fs[4].1 && kv[fs[5].0] == fs[5].1;
  }

  lemma FieldsPlain(c: GuiClient)
    requires Plain(c.clientId) && Plain(c.station) && Plain(c.program) && Plain(c.host) && Plain(c.ip)
    ensures var fs := ClientFields(c);
      DistinctKeys(fs) &&
      forall i :: 0 <= i < |fs| ==> '=' !in fs[i].0 && NoSpace(fs[i].0) && NoSpace(fs[i].1)
  {
  }

  // -------------------------------------------------------- the client table

  /** The ids of the table, in insertion order. */
  function Ids(cs: seq<GuiClient>): (ids: seq<string>)
    ensures |ids| == |cs| && forall k :: 0 <= k < |cs| ==> ids[k] == cs[k].clientId
  {
    if |cs| == 0 then [] else [cs[0].clientId] + Ids(cs[1..])
  }

  /** No id occurs twice, and every id is non-empty: the shape of the dictionary. */
  predicate Table(cs: seq<GuiClient>) {
    (forall i, j :: 0 <= i < j < |cs| ==> cs[i].clientId != cs[j].clientId) &&
    (forall k :: 0 <= k < |cs| ==> cs[k].clientId != "")
  }

  /** Storing a record under its client id: replaced in place when present, appended otherwise. */
  function Store(cs: seq<GuiClient>, c: GuiClient): (r: seq<GuiClient>)
    decreases |cs|
  {
    if |cs| == 0 then [c]
    else if cs[0].clientId == c.clientId then [c] + cs[1..]
    else [cs[0]] + Store(cs[1..], c)
  }

  /** The record stored under `id`, if any. */
  function Lookup(cs: seq<GuiClient>, id: string): (r: Option<GuiClient>)
    ensures r.Some? ==> r.value in cs && r.value.clientId == id
    ensures r.None? <==> id !in Ids(cs)
    decreases |cs|
  {
    if |cs| == 0 then None
    else if cs[0].clientId == id then Some(cs[0])
    else Lookup(cs[1..], id)
  }

  /** After storing `c`, its id maps to `c` and every other id to what it mapped to before. */
  lemma {:induction false} StoreLookup(cs: seq<GuiClient>, c: GuiClient, id: string)
    ensures Lookup(Store(cs, c), id) == if id == c.clientId then Some(c) else Lookup(cs, id)
    decreases |cs|
  {
    if |cs| > 0 && cs[0].clientId != c.clientId {
      StoreLookup(cs[1..], c, id);
      assert Store(cs, c)[1..] == Store(cs[1..], c);
    }
  }

  /** Storing keeps every entry's id in place, appending `c` when its id is new. */
  lemma {:induction false} StoreShape(cs: seq<GuiClient>, c: GuiClient)
    ensures c.clientId in Ids(cs) ==> |Store(cs, c)| == |cs|
    ensures c.clientId !in Ids(cs) ==> |Store(cs, c)| == |cs| + 1 && Store(cs, c)[|cs|] == c
    ensures forall k :: 0 <= k < |cs| ==> Store(cs, c)[k].clientId == cs[k].clientId
    decreases |cs|
  {
    if |cs| > 0 && cs[0].clientId != c.clientId {
      StoreShape(cs[1..], c);
      assert c.clientId in Ids(cs) <==> c.clientId in Ids(cs[1..]) by {
        assert Ids(cs) == [cs[0].clientId] + Ids(cs[1..]);
      }
      var r := Store(cs, c);
      assert r == [cs[0]] + Store(cs[1..], c);
      forall k | 1 <= k < |cs| ensures r[k].clientId == cs[k].clientId {
        assert r[k] == Store(cs[1..], c)[k - 1];
      }
    }
  }

  lemma StoreTable(cs: seq<GuiClient>, c: GuiClient)
    ensures Table(cs) && c.clientId != "" ==> Table(Store(cs, c))
  {
    StoreShape(cs, c);
  }

  /** Storing a parsed record, or nothing when the payload described no GUI client. */
  function Put(cs: seq<GuiClient>, pc: Option<GuiClient>): seq<GuiClient> {
    match pc
    case None => cs
    case Some(c) => Store(cs, c)
  }

  /** Capture from one payload: a GUI record is stored, anything else changes nothing. */
  function Capture(cs: seq<GuiClient>, payload: string): (r: seq<GuiClient>)
    ensures Table(cs) ==> Table(r)
  {
    var pc := ParseClient(payload);
    if pc.Some? then StoreTable(cs, pc.value); Put(cs, pc) else Put(cs, pc)
  }

  // ------------------------------------------------------------- the listing

  /** The sort key `(station, client_id)` compared as a Python tuple. */
  predicate KeyLess(a: GuiClient, b: GuiClient) {
    StrLess(a.station, b.station) || (a.station == b.station && StrLess(a.clientId, b.clientId))
  }

  lemma KeyLessAsymmetric(a: GuiClient, b: GuiClient)
    ensures !(KeyLess(a, b) && KeyLess(b, a))
  {
    StrLessAsymmetric(a.station, b.station);
    StrLessAsymmetric(a.clientId, b.clientId);
  }

  predicate Sorted(s: seq<GuiClient>) {
    forall i :: 0 <= i < |s| - 1 ==> !KeyLess(s[i + 1], s[i])
  }

  /** Insertion after every element that is not greater: keeps equal keys in order. */
  function Insert(s: seq<GuiClient>, x: GuiClient): (r: seq<GuiClient>)
    ensures multiset(r) == multiset(s) + multiset{x}
    decreases |s|
  {
    if |s| == 0 then [x]
    else if KeyLess(x, s[0]) then [x] + s
    else
      var t := Insert(s[1..], x);
      assert s == [s[0]] + s[1..];
      [s[0]] + t
  }

  lemma {:induction false} InsertSorted(s: seq<GuiClient>, x: GuiClient)
    requires Sorted(s)
    ensures Sorted(Insert(s, x))
    ensures |Insert(s, x)| > 0
    ensures Insert(s, x)[0] == x || (|s| > 0 && Insert(s, x)[0] == s[0])
    decreases |s|
  {
    if |s| > 0 {
      if KeyLess(x, s[0]) {
        KeyLessAsymmetric(x, s[0]);
      } else {
        InsertSorted(s[1..], x);
        var t := Insert(s[1..], x);
        assert Insert(s, x) == [s[0]] + t;
        if |s| > 1 && t[0] == s[1] {
          assert !KeyLess(s[1], s[0]);
        }
      }
    }
  }

  /** The table's records ordered by station, then client id: a stable insertion sort. */
  function Listing(cs: seq<GuiClient>): (r: seq<GuiClient>)
    ensures multiset(r) == multiset(cs)
    decreases |cs|
  {
    if |cs| == 0 then []
    else
      var init := cs[..|cs| - 1];
      assert cs == init + [cs[|cs| - 1]];
      Insert(Listing(init), cs[|cs| - 1])
  }

  /** The listing holds the same clients, ordered by (station, client_id). */
  lemma {:induction false} ListingSorted(cs: seq<GuiClient>)
    ensures Sorted(Listing(cs))
    ensures |Listing(cs)| == |cs|
    decreases |cs|
  {
    assert |multiset(Listing(cs))| == |multiset(cs)|;
    if |cs| > 0 {
      ListingSorted(cs[..|cs| - 1]);
      InsertSorted(Listing(cs[..|cs| - 1]), cs[|cs| - 1]);
    }
  }

  /** Inserting a client with a new id keeps ids distinct. */
  lemma {:induction false} InsertTable(s: seq<GuiClient>, x: GuiClient)
    requires Table(s) && x.clientId != ""
    requires forall k :: 0 <= k < |s| ==> s[k].clientId != x.clientId
    ensures Table(Insert(s, x))
    decreases |s|
  {
    if |s| > 0 {
      if KeyLess(x, s[0]) {
        forall y | y in s ensures y.clientId != x.clientId {
          var k :| 0 <= k < |s| && s[k] == y;
        }
        ConsTable(x, s);
      } else {
        InsertTable(s[1..], x);
        InsertFrom(s, x);
        ConsTable(s[0], Insert(s[1..], x));
      }
    }
  }

  /** A client put in front of a table with none of its id leaves a table. */
  lemma ConsTable(h: GuiClient, t: seq<GuiClient>)
    requires Table(t) && h.clientId != ""
    requires forall y :: y in t ==> y.clientId != h.clientId
    ensures Table([h] + t)
  {
    var r := [h] + t;
    forall i, j | 0 <= i < j < |r| ensures r[i].clientId != r[j].clientId {
      assert r[j] == t[j - 1];
      if i > 0 {
        assert r[i] == t[i - 1];
      }
    }
  }

  /** Past the head, the insertion holds `x` and the rest of `s`, none with the head's id. */
  lemma InsertFrom(s: seq<GuiClient>, x: GuiClient)
    requires |s| > 0 && Table(s) && x.clientId != s[0].clientId
    ensures forall y :: y in Insert(s[1..], x) ==> y.clientId != s[0].clientId
  {
    var t := Insert(s[1..], x);
    forall y | y in t ensures y.clientId != s[0].clientId {
      assert y in multiset(t);
      if y != x {
        assert y in multiset(s[1..]);
        var k :| 0 <= k < |s[1..]| && s[1..][k] == y;
        assert s[k + 1] == y;
      }
    }
  }

  /** The listing of a table is a table. */
  lemma {:induction false} ListingTable(cs: seq<GuiClient>)
    requires Table(cs)
    ensures Table(Listing(cs))
    decreases |cs|
  {
    if |cs| > 0 {
      var init := cs[..|cs| - 1];
      var x := cs[|cs| - 1];
      ListingTable(init);
      var l := Listing(init);
      forall k | 0 <= k < |l| ensures l[k].clientId != x.clientId {
        assert l[k] in multiset(init);
        var j :| 0 <= j < |init| && init[j] == l[k];
        assert cs[j] == l[k];
      }
      InsertTable(l, x);
    }
  }

  /**
   * With distinct ids no two listed clients have the same key, so each one is
   * strictly below the next.
   */
  lemma ListingStrict(cs: seq<GuiClient>)
    requires Table(cs)
    ensures forall i :: 0 <= i < |Listing(cs)| - 1 ==> KeyLess(Listing(cs)[i], Listing(cs)[i + 1])
  {
    var r := Listing(cs);
    ListingSorted(cs);
    ListingTable(cs);
    forall i | 0 <= i < |r| - 1 ensures KeyLess(r[i], r[i + 1]) {
      StrLessTotal(r[i].station, r[i + 1].station);
      StrLessTotal(r[i].clientId, r[i + 1].clientId);
    }
  }

  /** The non-empty client ids of a listing, in its order. */
  function ListedIds(listing: seq<GuiClient>): (ids: seq<string>)
    ensures forall k :: 0 <= k < |ids| ==> ids[k] != ""
    decreases |listing|
  {
    if |listing| == 0 then []
    else if listing[0].clientId == "" then ListedIds(listing[1..])
    else [listing[0].clientId] + ListedIds(listing[1..])
  }

  /** The GUI client ids, in listing order. */
  function GuiClientIds(cs: seq<GuiClient>): seq<string> {
    ListedIds(Listing(cs))
  }

  /**
   * Every stored id is non-empty, so the id list is the listing's ids: its
   * first element belongs to the client with the least (station, client_id).
   */
  lemma GuiClientIdsOfTable(cs: seq<GuiClient>)
    requires Table(cs)
    ensures GuiClientIds(cs) == Ids(Listing(cs))
    ensures |GuiClientIds(cs)| == |cs|
  {
    var r := Listing(cs);
    ListingSorted(cs);
    forall k | 0 <= k < |r| ensures r[k].clientId != "" {
      assert r[k] in multiset(cs);
    }
    AllNamed(r);
  }

  lemma {:induction false} AllNamed(s: seq<GuiClient>)
    requires forall k :: 0 <= k < |s| ==> s[k].clientId != ""
    ensures ListedIds(s) == Ids(s)
    decreases |s|
  {
    if |s| > 0 {
      AllNamed(s[1..]);
    }
  }

  // --------------------------------------------------------- client list

  /**
   * `refresh_client_list`: every non-blank line of the `client list` reply is
   * captured; the result is the number of such lines and the growth of the
   * table. A failed command yields `(0, 0)` and changes nothing.
   */
  function Refresh(cs: seq<GuiClient>, reply: Option<string>): (r: (seq<GuiClient>, nat, nat))
  {
    match reply
    case None => (cs, 0, 0)
    case Some(text) =>
      var lines := NonBlankLines(text);
      var after := CaptureAll(cs, lines);
      (after, |lines|, if |after| >= |cs| then |after| - |cs| else 0)
  }

  /** Every payload parsed. */
  function ParseAll(payloads: seq<string>): (pcs: seq<Option<GuiClient>>)
    ensures |pcs| == |payloads| && forall k :: 0 <= k < |payloads| ==> pcs[k] == ParseClient(payloads[k])
    ensures forall k :: 0 <= k < |pcs| && pcs[k].Some? ==> pcs[k].value.clientId != ""
  {
    seq(|payloads|, k requires 0 <= k < |payloads| => ParseClient(payloads[k]))
  }

  /** The payloads captured one after the other. */
  function CaptureAll(cs: seq<GuiClient>, payloads: seq<string>): (r: seq<GuiClient>)
    ensures Table(cs) ==> Table(r)
  {
    PutAllTable(cs, ParseAll(payloads));
    PutAll(cs, ParseAll(payloads))
  }

  function PutAll(cs: seq<GuiClient>, pcs: seq<Option<GuiClient>>): seq<GuiClient>
    decreases |pcs|
  {
    if |pcs| == 0 then cs else PutAll(Put(cs, pcs[0]), pcs[1..])
  }

  predicate Named(pcs: seq<Option<GuiClient>>) {
    forall k :: 0 <= k < |pcs| && pcs[k].Some? ==> pcs[k].value.clientId != ""
  }

  /** Storing records with non-empty ids keeps the shape of the dictionary. */
  lemma {:induction false} PutAllTable(cs: seq<GuiClient>, pcs: seq<Option<GuiClient>>)
    ensures Table(cs) && Named(pcs) ==> Table(PutAll(cs, pcs))
    decreases |pcs|
  {
    if |pcs| > 0 {
      if pcs[0].Some? {
        StoreTable(cs, pcs[0].value);
      }
      PutAllTable(Put(cs, pcs[0]), pcs[1..]);
    }
  }

  /** Capturing never forgets or reorders an entry. */
  lemma {:induction false} PutAllKeeps(cs: seq<GuiClient>, pcs: seq<Option<GuiClient>>)
    ensures |PutAll(cs, pcs)| >= |cs|
    ensures forall k :: 0 <= k < |cs| ==> PutAll(cs, pcs)[k].clientId == cs[k].clientId
    decreases |pcs|
  {
    if |pcs| > 0 {
      if pcs[0].Some? {
        StoreShape(cs, pcs[0].value);
      }
      PutAllKeeps(Put(cs, pcs[0]), pcs[1..]);
    }
  }

  /** Every entry capturing adds has an id the table did not hold before. */
  lemma {:induction false} PutAllAdds(cs: seq<GuiClient>, pcs: seq<Option<GuiClient>>)
    ensures forall k, j :: |cs| <= k < |PutAll(cs, pcs)| && 0 <= j < |cs| ==>
      PutAll(cs, pcs)[k].clientId != cs[j].clientId
    decreases |pcs|
  {
    if |pcs| > 0 {
      var mid := Put(cs, pcs[0]);
      var r := PutAll(mid, pcs[1..]);
      assert PutAll(cs, pcs) == r;
      PutAdds(cs, pcs[0]);
      PutAllAdds(mid, pcs[1..]);
      PutAllKeeps(mid, pcs[1..]);
      forall k, j | |cs| <= k < |r| && 0 <= j < |cs| ensures r[k].clientId != cs[j].clientId {
        if k < |mid| {
          assert r[k].clientId == mid[k].clientId;
        } else {
          assert mid[j].clientId == cs[j].clientId;
        }
      }
    }
  }

  /** One capture step: entries stay in place and a new entry has a new id. */
  lemma PutAdds(cs: seq<GuiClient>, pc: Option<GuiClient>)
    ensures |Put(cs, pc)| >= |cs|
    ensures forall k :: 0 <= k < |cs| ==> Put(cs, pc)[k].clientId == cs[k].clientId
    ensures forall k, j :: |cs| <= k < |Put(cs, pc)| && 0 <= j < |cs| ==> Put(cs, pc)[k].clientId != cs[j].clientId
  {
    if pc.Some? {
      var c := pc.value;
      assert Put(cs, pc) == Store(cs, c);
      StoreShape(cs, c);
      if c.clientId !in Ids(cs) {
        NotInIds(cs, c.clientId);
        forall k, j | |cs| <= k < |Store(cs, c)| && 0 <= j < |cs| ensures Store(cs, c)[k].clientId != cs[j].clientId {
          assert k == |cs|;
        }
      }
    }
  }

  lemma NotInIds(cs: seq<GuiClient>, id: string)
    ensures id !in Ids(cs) ==> forall j :: 0 <= j < |cs| ==> cs[j].clientId != id
  {
    if id !in Ids(cs) {
      forall j | 0 <= j < |cs| ensures cs[j].clientId != id {
        assert Ids(cs)[j] == cs[j].clientId;
      }
    }
  }

  /**
   * The line count is the number of non-blank lines; the table keeps its
   * entries in place and the reported growth is exactly the number of entries
   * with ids it did not hold before.
   */
  lemma RefreshCounts(cs: seq<GuiClient>, text: string)
    ensures var r := Refresh(cs, Some(text));
      r.1 == |NonBlankLines(text)| && |r.0| == |cs| + r.2 &&
      (forall k :: 0 <= k < |cs| ==> r.0[k].clientId == cs[k].clientId) &&
      (forall k, j :: |cs| <= k < |r.0| && 0 <= j < |cs| ==> r.0[k].clientId != cs[j].clientId)
  {
    PutAllKeeps(cs, ParseAll(NonBlankLines(text)));
    PutAllAdds(cs, ParseAll(NonBlankLines(text)));
  }
}
