/**
 * The command connection's byte stream cut into `\n`-terminated lines: every
 * complete line is handed on in arrival order and whatever follows the last
 * newline stays buffered until more bytes arrive.
 */
module Lines {
  import opened Base
  import opened Text

  predicate NoNewline(s: string) {
    '\n' !in s
  }

  /**
   * The complete lines of `buf` and the unterminated rest, as the receive
   * loop leaves them after cutting off one line at each newline while there is one.
   */
  function Drain(buf: string): (r: (seq<string>, string))
    ensures NoNewline(r.1)
    ensures forall k :: 0 <= k < |r.0| ==> NoNewline(r.0[k])
    decreases |buf|
  {
    match Find(buf, '\n')
    case None => ([], buf)
    case Some(i) =>
      var rest := Drain(buf[i + 1..]);
      ([buf[..i]] + rest.0, rest.1)
  }

  /** The lines, each followed by its `\n`, then the rest. */
  function Unsplit(lines: seq<string>, rest: string): string
    decreases |lines|
  {
    if |lines| == 0 then rest else lines[0] + "\n" + Unsplit(lines[1..], rest)
  }

  /** Nothing is lost or reordered: the handled lines and the rest rebuild the buffer. */
  lemma {:induction false} DrainRebuilds(buf: string)
    ensures Unsplit(Drain(buf).0, Drain(buf).1) == buf
    decreases |buf|
  {
    match Find(buf, '\n')
    case None =>
    case Some(i) =>
      DrainRebuilds(buf[i + 1..]);
      assert buf == buf[..i] + "\n" + buf[i + 1..];
  }

  /** Lines free of newlines, with their terminators and a rest, drain back into themselves. */
  lemma {:induction false} DrainUnsplit(lines: seq<string>, rest: string)
    requires forall k :: 0 <= k < |lines| ==> NoNewline(lines[k])
    requires NoNewline(rest)
    ensures Drain(Unsplit(lines, rest)) == (lines, rest)
    decreases |lines|
  {
    if |lines| > 0 {
      var tail := Unsplit(lines[1..], rest);
      var s := Unsplit(lines, rest);
      assert s == lines[0] + ['\n'] + tail;
      assert s[..|lines[0]|] == lines[0] && s[|lines[0]|] == '\n';
      FindFirst(s, '\n', |lines[0]|);
      assert s[|lines[0]| + 1..] == tail;
      DrainUnsplit(lines[1..], rest);
      assert Drain(s) == ([lines[0]] + Drain(tail).0, Drain(tail).1);
      assert [lines[0]] + lines[1..] == lines;
    }
  }

  /**
   * Chunking does not matter: draining `a` and then the leftover followed by
   * `b` yields the same lines and the same leftover as draining `a + b`.
   */
  lemma {:induction false} DrainAppend(a: string, b: string)
    ensures Drain(a + b).0 == Drain(a).0 + Drain(Drain(a).1 + b).0
    ensures Drain(a + b).1 == Drain(Drain(a).1 + b).1
    decreases |a|
  {
    match Find(a, '\n')
    case None =>
      DrainNoLine(a, b);
    case Some(i) =>
      DrainFirstLine(a, b, i);
      DrainAppend(a[i + 1..], b);
      ConsAssoc(a[..i], Drain(a[i + 1..]).0, Drain(Drain(a).1 + b).0);
  }

  lemma ConsAssoc(x: string, p: seq<string>, q: seq<string>)
    ensures [x] + (p + q) == ([x] + p) + q
  {
  }

  lemma DrainNoLine(a: string, b: string)
    requires Find(a, '\n').None?
    ensures Drain(a + b).0 == Drain(a).0 + Drain(Drain(a).1 + b).0
    ensures Drain(a + b).1 == Drain(Drain(a).1 + b).1
  {
    assert Drain(a) == ([], a);
    assert Drain(a).0 + Drain(a + b).0 == Drain(a + b).0;
  }

  /** The first line of `a` is also the first line of `a + b`. */
  lemma DrainFirstLine(a: string, b: string, i: nat)
    requires Find(a, '\n') == Some(i)
    ensures Drain(a + b) == ([a[..i]] + Drain(a[i + 1..] + b).0, Drain(a[i + 1..] + b).1)
  {
    var ab := a + b;
    assert ab[..i] == a[..i] && ab[i] == '\n';
    FindFirst(ab, '\n', i);
    assert ab[i + 1..] == a[i + 1..] + b;
  }

  /** `Find` stops at the first occurrence. */
  lemma FindFirst(s: string, c: char, i: nat)
    requires i < |s| && s[i] == c && c !in s[..i]
    ensures Find(s, c) == Some(i)
  {
    assert s == s[..i] + [c] + s[i + 1..];
    SplitOnceAt(s[..i], c, s[i + 1..]);
  }

  /** The leftover of one step, fed with the next chunk, is the state of the loop. */
  function Feed(buf: string, chunk: string): (r: (seq<string>, string)) {
    Drain(buf + chunk)
  }

  /** Feeding chunk after chunk from an empty buffer. */
  function FeedAll(buf: string, chunks: seq<string>): (r: (seq<string>, string))
    decreases |chunks|
  {
    if |chunks| == 0 then ([], buf)
    else
      var step := Feed(buf, chunks[0]);
      var more := FeedAll(step.1, chunks[1..]);
      (step.0 + more.0, more.1)
  }

  function Concat(chunks: seq<string>): string
    decreases |chunks|
  {
    if |chunks| == 0 then "" else chunks[0] + Concat(chunks[1..])
  }

  /** However the bytes are split into chunks, the same lines come out in order. */
  lemma {:induction false} FeedAllConcat(buf: string, chunks: seq<string>)
    requires NoNewline(buf)
    ensures FeedAll(buf, chunks) == Drain(buf + Concat(chunks))
    decreases |chunks|
  {
    if |chunks| == 0 {
      assert buf + Concat(chunks) == buf;
      assert Find(buf, '\n').None?;
    } else {
      var step := Feed(buf, chunks[0]);
      FeedAllConcat(step.1, chunks[1..]);
      assert buf + Concat(chunks) == (buf + chunks[0]) + Concat(chunks[1..]);
      DrainAppend(buf + chunks[0], Concat(chunks[1..]));
      NoNewlineDrain(step.1);
    }
  }

  /** A string without newlines drains to no lines and itself. */
  lemma NoNewlineDrain(s: string)
    requires NoNewline(s)
    ensures Drain(s) == ([], s)
  {
  }
}
