/**
 * The `key=value` token dictionaries built the same way by discovery parsing
 * and GUI-client capture: every whitespace token holding `=` is split at its
 * first `=`, both halves stripped, and a later key replaces an earlier one.
 */
module KeyValue {
  import opened Base
  import opened Text

  /** The stripped key and value of a token that holds `=` (split at its first `=`). */
  function Pair(token: string): (r: Option<(string, string)>)
    ensures r.Some? <==> '=' in token
  {
    match SplitOnce(token, '=')
    case None => None
    case Some((k, v)) => Some((Strip(k), Strip(v)))
  }

  /** The split of every token, in order. */
  function Pairs(tokens: seq<string>): (ps: seq<Option<(string, string)>>)
    ensures |ps| == |tokens| && forall i :: 0 <= i < |tokens| ==> ps[i] == Pair(tokens[i])
  {
    seq(|tokens|, i requires 0 <= i < |tokens| => Pair(tokens[i]))
  }

  /** Folding the splits into a dictionary, left to right. */
  function Collect(ps: seq<Option<(string, string)>>): map<string, string>
    decreases |ps|
  {
    if |ps| == 0 then map[]
    else
      var m := Collect(ps[..|ps| - 1]);
      match ps[|ps| - 1]
      case None => m
      case Some((k, v)) => m[k := v]
  }

  /** The dictionary of the tokens: a later key replaces an earlier one. */
  function KeyValues(tokens: seq<string>): map<string, string> {
    Collect(Pairs(tokens))
  }

  /** The value under `key`, or `default` when it is missing. */
  function Get(m: map<string, string>, key: string, default: string): string {
    if key in m then m[key] else default
  }

  predicate Carries(p: Option<(string, string)>, key: string) {
    p.Some? && p.value.0 == key
  }

  /** The index of the last split carrying `key`, if any. */
  function LastWith(ps: seq<Option<(string, string)>>, key: string): (r: Option<nat>)
    ensures r.Some? ==> r.value < |ps| && Carries(ps[r.value], key)
    ensures r.Some? ==> forall j :: r.value < j < |ps| ==> !Carries(ps[j], key)
    ensures r.None? ==> forall j :: 0 <= j < |ps| ==> !Carries(ps[j], key)
    decreases |ps|
  {
    if |ps| == 0 then None
    else if Carries(ps[|ps| - 1], key) then Some(|ps| - 1)
    else LastWith(ps[..|ps| - 1], key)
  }

  lemma {:induction false} CollectLast(ps: seq<Option<(string, string)>>, key: string)
    ensures key in Collect(ps) <==> LastWith(ps, key).Some?
    ensures key in Collect(ps) ==> Collect(ps)[key] == ps[LastWith(ps, key).value].value.1
    decreases |ps|
  {
    if |ps| > 0 {
      CollectLast(ps[..|ps| - 1], key);
    }
  }

  /**
   * A key is in the dictionary exactly when some token carries it, and its
   * value is the one of the LAST token carrying it.
   */
  lemma KeyValuesLast(tokens: seq<string>, key: string)
    ensures key in KeyValues(tokens) <==> exists i :: 0 <= i < |tokens| && Carries(Pair(tokens[i]), key)
    ensures key in KeyValues(tokens) ==>
      exists i :: 0 <= i < |tokens| && Carries(Pair(tokens[i]), key) &&
        KeyValues(tokens)[key] == Pair(tokens[i]).value.1 &&
        forall j :: i < j < |tokens| ==> !Carries(Pair(tokens[j]), key)
  {
    var ps := Pairs(tokens);
    CollectLast(ps, key);
    match LastWith(ps, key)
    case None =>
    case Some(i) =>
      assert Carries(Pair(tokens[i]), key);
  }

  /** A token `key=value` whose halves hold no whitespace and whose key holds no `=`. */
  function Token(key: string, value: string): string {
    key + "=" + value
  }

  lemma PairOfToken(key: string, value: string)
    requires '=' !in key && NoSpace(key) && NoSpace(value)
    ensures Pair(Token(key, value)) == Some((key, value))
  {
    var t := Token(key, value);
    assert t == key + ['='] + value;
    SplitOnceAt(key, '=', value);
    StripNoSpace(key);
    StripNoSpace(value);
  }

  /** The tokens `key=value` of a list of fields. */
  function TokensOf(kvs: seq<(string, string)>): (ts: seq<string>)
    ensures |ts| == |kvs| && forall i :: 0 <= i < |kvs| ==> ts[i] == Token(kvs[i].0, kvs[i].1)
  {
    seq(|kvs|, i requires 0 <= i < |kvs| => Token(kvs[i].0, kvs[i].1))
  }

  predicate DistinctKeys(kvs: seq<(string, string)>) {
    forall i, j :: 0 <= i < j < |kvs| ==> kvs[i].0 != kvs[j].0
  }

  /**
   * Fields with distinct plain keys, written as tokens, read back as a
   * dictionary mapping every key to its value.
   */
  lemma KeyValuesOfTokens(kvs: seq<(string, string)>)
    requires DistinctKeys(kvs)
    requires forall i :: 0 <= i < |kvs| ==> '=' !in kvs[i].0 && NoSpace(kvs[i].0) && NoSpace(kvs[i].1)
    ensures forall i :: 0 <= i < |kvs| ==> kvs[i].0 in KeyValues(TokensOf(kvs)) && KeyValues(TokensOf(kvs))[kvs[i].0] == kvs[i].1
  {
    var ps := Pairs(TokensOf(kvs));
    forall i | 0 <= i < |kvs| ensures ps[i] == Some(kvs[i]) {
      PairOfToken(kvs[i].0, kvs[i].1);
    }
    forall i | 0 <= i < |kvs| ensures kvs[i].0 in Collect(ps) && Collect(ps)[kvs[i].0] == kvs[i].1 {
      CollectLast(ps, kvs[i].0);
      var j := LastWith(ps, kvs[i].0).value;
      assert Carries(ps[j], kvs[i].0);
      assert j == i;
    }
  }
}
