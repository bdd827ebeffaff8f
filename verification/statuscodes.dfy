/**
 * The SmartSDR status-code table and the once-only warning about codes it
 * does not name (`flexclient/common.py`).
 */
module StatusCodes {
  import opened Base
  import opened Text

  /** `SMARTSDR_STATUS_MESSAGES`. */
  const Messages: map<nat, string> := map[
    0x0000_0000 := "Success",
    0x5000_0001 := "Unable to get foundation receiver assignment",
    0x5000_0003 := "License check failed, cannot create slice receiver",
    0x5000_0005 := "Incorrect number or type of parameters",
    0x5000_0016 := "Malformed command (parse error, e.g., frequency field)",
    0x5000_002C := "Incorrect number of parameters",
    0x5000_002D := "Bad field",
    0x5000_0063 := "Operation not allowed (likely)",
    0x5000_1000 := "Command handler rejection"]

  const Unmapped: string := "unmapped status code"

  /** `message` is truthy in the source: present and non-empty. */
  predicate Named(status: nat) {
    status in Messages && |Messages[status]| > 0
  }

  /** Every message in the table is non-empty, so being named is being in the table. */
  lemma NamedIsListed(status: nat)
    ensures Named(status) <==> status in Messages
  {
  }

  /** The meaning shown for a code: its table message, or the unmapped marker. */
  function Meaning(status: nat): (m: string)
    ensures |m| > 0
  {
    if Named(status) then Messages[status] else Unmapped
  }

  /** `_format_status_detail`: `0x` and eight upper-case hex digits, then the meaning in parentheses. */
  function FormatStatusDetail(status: nat): (s: string)
    ensures |s| >= 12 && s[..2] == "0x" && s[|s| - 1] == ')'
  {
    "0x" + Hex(status, 8, true) + " (" + Meaning(status) + ")"
  }

  /** The detail reads back as the code it describes: its first word is the code in hex. */
  lemma DetailCode(status: nat)
    ensures |Words(FormatStatusDetail(status))| >= 1
    ensures ParseHex(Words(FormatStatusDetail(status))[0]) == Some(status)
  {
    CodeWord(status, Meaning(status));
  }

  lemma CodeWord(status: nat, meaning: string)
    ensures var s := "0x" + Hex(status, 8, true) + " (" + meaning + ")";
      |Words(s)| >= 1 && ParseHex(Words(s)[0]) == Some(status)
  {
    var code := "0x" + Hex(status, 8, true);
    var rest := " (" + meaning + ")";
    assert code + " (" + meaning + ")" == code + rest;
    HexNoSpace(status, 8, true);
    FirstWord(code, rest);
    PrefixedHexRoundTrip(status, 8, true);
  }

  /** The detail is marked unmapped exactly when the table has no entry for the code. */
  lemma DetailUnmapped(status: nat)
    ensures EndsWith(FormatStatusDetail(status), " (" + Unmapped + ")") <==> status !in Messages
  {
    if status in Messages {
      MappedDetail(status);
    } else {
      var b := " (" + Meaning(status) + ")";
      assert FormatStatusDetail(status) == ("0x" + Hex(status, 8, true)) + b;
      EndsWithAppend("0x" + Hex(status, 8, true), b);
    }
  }

  lemma MappedDetail(status: nat)
    requires status in Messages
    ensures !EndsWith(FormatStatusDetail(status), " (" + Unmapped + ")")
  {
    LastLetters(status);
    assert Meaning(status) == Messages[status];
    NotUnmappedTail("0x" + Hex(status, 8, true), Messages[status]);
  }

  /** A meaning whose last letter differs from the marker's cannot end the detail like the marker. */
  lemma NotUnmappedTail(code: string, m: string)
    requires |m| > 0 && m[|m| - 1] != 'e'
    ensures !EndsWith(code + " (" + m + ")", " (" + Unmapped + ")")
  {
    var tail := " (" + Unmapped + ")";
    var b := " (" + m + ")";
    var s := code + b;
    assert code + " (" + m + ")" == s;
    EndsWithAppend(code, b);
    EndsWithChar(s, b, 2);
    assert b[|b| - 2] == m[|m| - 1];
    NotEndsWith(s, tail, 2);
  }

  /** No message in the table ends in the letter the unmapped marker ends in. */
  lemma LastLetters(status: nat)
    requires status in Messages
    ensures |Messages[status]| > 0 && Messages[status][|Messages[status]| - 1] != 'e'
  {
  }

  // ---------------------------------------------------------- once-only warning

  /** The logged set holds only codes the table does not name. */
  predicate Clean(logged: set<nat>) {
    forall c :: c in logged ==> c !in Messages
  }

  /**
   * `_maybe_log_unmapped_status_code`: the logged set after seeing `status`,
   * and whether a warning is emitted.
   */
  function NoteStatus(logged: set<nat>, status: nat): (r: (set<nat>, bool))
    ensures r.1 <==> status !in Messages && status !in logged
    ensures r.0 == (if r.1 then logged + {status} else logged)
    ensures Clean(logged) ==> Clean(r.0)
  {
    if status in Messages then (logged, false)
    else if status in logged then (logged, false)
    else (logged + {status}, true)
  }

  /** The codes warned about while a sequence of statuses is seen, in order. */
  function NoteAll(logged: set<nat>, statuses: seq<nat>): (r: (set<nat>, seq<nat>))
    decreases |statuses|
  {
    if |statuses| == 0 then (logged, [])
    else
      var (l1, warn) := NoteStatus(logged, statuses[0]);
      var (l2, ws) := NoteAll(l1, statuses[1..]);
      (l2, (if warn then [statuses[0]] else []) + ws)
  }

  /**
   * Over any run: each unmapped code not logged before is warned about exactly
   * once, no named or already-logged code is ever warned about, the set only
   * grows and stays clean.
   */
  lemma {:induction false} NoteAllWarnsOnce(logged: set<nat>, statuses: seq<nat>)
    requires Clean(logged)
    ensures var (l', ws) := NoteAll(logged, statuses);
      && logged <= l' && Clean(l')
      && (forall i, j :: 0 <= i < j < |ws| ==> ws[i] != ws[j])
      && (forall c :: c in ws <==> c in statuses && c !in Messages && c !in logged)
      && l' == logged + set c | c in ws
    decreases |statuses|
  {
    if |statuses| > 0 {
      var (l1, warn) := NoteStatus(logged, statuses[0]);
      NoteAllWarnsOnce(l1, statuses[1..]);
      var (l2, ws) := NoteAll(l1, statuses[1..]);
      var all := (if warn then [statuses[0]] else []) + ws;
      assert statuses == [statuses[0]] + statuses[1..];
      forall c ensures c in all <==> c in statuses && c !in Messages && c !in logged {
        if c == statuses[0] && c !in Messages && c !in logged {
          assert warn;
        }
      }
      forall i, j | 0 <= i < j < |all| ensures all[i] != all[j] {
        if warn && i == 0 {
          assert all[j] in ws;
        }
      }
    }
  }
}
