/**
 * A radio answering the commands of one session from a script. Each command
 * sent consumes the next scripted reply; a missing reply (or an exhausted
 * script) is a timeout. The channel's correlation lemma
 * (`Channel.SendCommandOutcome`) is what justifies treating every
 * `send_command` as "the command, then the outcome of one reply".
 */
module Exchange {
  import opened Base
  import opened Channel

  datatype Radio = Radio(sent: seq<string>, script: seq<Option<Reply>>)

  /** `send_command(cmd)` against the script. */
  function Send(ex: Radio, cmd: string): (r: (Radio, Result<string, CommandError>))
    ensures r.0.sent == ex.sent + [cmd]
    ensures |ex.script| > 0 ==> r.0.script == ex.script[1..] && r.1 == Outcome(cmd, ex.script[0])
    ensures |ex.script| == 0 ==> r.0.script == [] && r.1 == Err(Timeout(cmd))
  {
    if |ex.script| == 0 then (ex.(sent := ex.sent + [cmd]), Err(Timeout(cmd)))
    else (Radio(ex.sent + [cmd], ex.script[1..]), Outcome(cmd, ex.script[0]))
  }

  /** A command is accepted exactly when its reply is there and has status 0. */
  lemma SendAccepted(ex: Radio, cmd: string)
    ensures Send(ex, cmd).1.Ok? <==> |ex.script| > 0 && ex.script[0].Some? && ex.script[0].value.status == 0
    ensures Send(ex, cmd).1.Ok? ==> Send(ex, cmd).1.value == ex.script[0].value.message
  {
  }

  /**
   * The fallback loop over alternative spellings: each command is sent in
   * turn until one is accepted; a refusal or timeout moves on to the next.
   * The result is the index of the first accepted command, if any; nothing
   * is raised either way.
   */
  function FirstAccepted(ex: Radio, cmds: seq<string>): (r: (Radio, Option<nat>))
    decreases |cmds|
  {
    if |cmds| == 0 then (ex, None)
    else
      var (ex1, res) := Send(ex, cmds[0]);
      if res.Ok? then (ex1, Some(0))
      else
        var (ex2, k) := FirstAccepted(ex1, cmds[1..]);
        (ex2, if k.Some? then Some(k.value + 1) else None)
  }

  /**
   * The commands tried are a prefix of `cmds`: up to and including the first
   * accepted one, or all of them when none was accepted.
   */
  lemma {:induction false} FirstAcceptedTries(ex: Radio, cmds: seq<string>)
    ensures var (ex', k) := FirstAccepted(ex, cmds);
      var n := if k.Some? then k.value + 1 else |cmds|;
      && n <= |cmds|
      && ex'.sent == ex.sent + cmds[..n]
    decreases |cmds|
  {
    if |cmds| > 0 {
      var (ex1, res) := Send(ex, cmds[0]);
      assert ex1.sent == ex.sent + [cmds[0]];
      if !res.Ok? {
        FirstAcceptedTries(ex1, cmds[1..]);
        var (ex2, k) := FirstAccepted(ex1, cmds[1..]);
        assert FirstAccepted(ex, cmds) == (ex2, if k.Some? then Some(k.value + 1) else None);
        var n := if k.Some? then k.value + 1 else |cmds| - 1;
        assert ex2.sent == ex1.sent + cmds[1..][..n];
        assert cmds[..n + 1] == [cmds[0]] + cmds[1..][..n];
      } else {
        assert cmds[..1] == [cmds[0]];
      }
    }
  }

  /** With two commands: the second is tried only when the first is refused. */
  lemma FallbackPair(ex: Radio, first: string, second: string)
    ensures var (ex', k) := FirstAccepted(ex, [first, second]);
      && (Send(ex, first).1.Ok? ==> ex'.sent == ex.sent + [first] && k == Some(0))
      && (!Send(ex, first).1.Ok? ==>
            ex'.sent == ex.sent + [first, second] && (k == Some(1) <==> Send(Send(ex, first).0, second).1.Ok?))
  {
    var (ex1, res) := Send(ex, first);
    assert [first, second][1..] == [second];
    assert [second][1..] == [];
    if !res.Ok? {
      var (ex2, res2) := Send(ex1, second);
      assert FirstAccepted(ex1, [second]) == (ex2, if res2.Ok? then Some(0) else None);
    }
  }
}
