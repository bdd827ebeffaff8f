/**
 * The string primitives the client's text protocol relies on, with Python's
 * semantics: `str.split()`, `str.strip()`, `str.split(c)`, `str.splitlines()`,
 * `str.startswith`, `in`, `int(s)`, `int(s, 16)`, `float(s)` and the `%d`,
 * `%0Nx`/`%0NX` formats.
 */
module Text {
  import opened Base

  /** The characters `str.isspace()` accepts; `split()` and `strip()` use them. */
  predicate IsSpace(c: char) {
    || c == ' ' || ('\t' <= c <= '\r') || ('\U{1C}' <= c <= '\U{1F}')
    || c == '\U{85}' || c == '\U{A0}' || c == '\U{1680}'
    || ('\U{2000}' <= c <= '\U{200A}') || c == '\U{2028}' || c == '\U{2029}'
    || c == '\U{202F}' || c == '\U{205F}' || c == '\U{3000}'
  }

  /** The line boundaries of `str.splitlines()`. */
  predicate IsLineBreak(c: char) {
    || ('\n' <= c <= '\r') || ('\U{1C}' <= c <= '\U{1E}')
    || c == '\U{85}' || c == '\U{2028}' || c == '\U{2029}'
  }

  predicate NoSpace(s: string) {
    forall i :: 0 <= i < |s| ==> !IsSpace(s[i])
  }

  predicate StartsWith(s: string, prefix: string) {
    |prefix| <= |s| && s[..|prefix|] == prefix
  }

  predicate EndsWith(s: string, suffix: string) {
    |suffix| <= |s| && s[|s| - |suffix|..] == suffix
  }

  lemma EndsWithAppend(a: string, b: string)
    ensures EndsWith(a + b, b)
  {
    assert (a + b)[|a|..] == b;
  }

  /** A string ends with the same characters as each of its suffixes. */
  lemma EndsWithChar(s: string, t: string, k: nat)
    requires EndsWith(s, t) && 0 < k <= |t|
    ensures s[|s| - k] == t[|t| - k]
  {
    assert s[|s| - |t|..][|t| - k] == s[|s| - k];
  }

  /** One differing character near the end rules a suffix out. */
  lemma NotEndsWith(s: string, t: string, k: nat)
    requires 0 < k <= |t| && k <= |s| && s[|s| - k] != t[|t| - k]
    ensures !EndsWith(s, t)
  {
    if EndsWith(s, t) {
      EndsWithChar(s, t, k);
    }
  }

  /** Python's `sub in s`. */
  predicate Contains(s: string, sub: string)
    decreases |s|
  {
    StartsWith(s, sub) || (|s| > 0 && Contains(s[1..], sub))
  }

  /** `sub` occurs wherever it is placed. */
  lemma {:induction false} ContainsAt(a: string, sub: string, b: string)
    ensures Contains(a + sub + b, sub)
    decreases |a|
  {
    if |a| == 0 {
      assert (a + sub + b)[..|sub|] == sub;
    } else {
      ContainsAt(a[1..], sub, b);
      assert (a + sub + b)[1..] == a[1..] + sub + b;
    }
  }

  /** `sub` occurs where a slice of `s` equals it. */
  lemma ContainsSlice(s: string, sub: string, k: nat)
    requires k + |sub| <= |s| && s[k..k + |sub|] == sub
    ensures Contains(s, sub)
  {
    assert s == s[..k] + sub + s[k + |sub|..];
    ContainsAt(s[..k], sub, s[k + |sub|..]);
  }

  /** The first position of `sub` in `s` (`s.find(sub)`), if any. */
  function FindSub(s: string, sub: string): (r: Option<nat>)
    ensures r.Some? ==> r.value + |sub| <= |s| && s[r.value..r.value + |sub|] == sub
    ensures r.Some? <==> Contains(s, sub)
    ensures r.Some? ==> forall j :: 0 <= j < r.value ==> !StartsWith(s[j..], sub)
    decreases |s|
  {
    if StartsWith(s, sub) then Some(0)
    else if |s| == 0 then None
    else match FindSub(s[1..], sub)
      case None => None
      case Some(i) =>
        assert forall j :: 1 <= j <= |s| ==> s[j..] == s[1..][j - 1..];
        Some(i + 1)
  }

  /** `a < b` on Python strings: lexicographic by code point, a proper prefix first. */
  predicate StrLess(a: string, b: string)
    decreases |a|
  {
    if |a| == 0 then |b| > 0
    else if |b| == 0 then false
    else if a[0] != b[0] then a[0] < b[0]
    else StrLess(a[1..], b[1..])
  }

  /** No two strings are each below the other. */
  lemma {:induction false} StrLessAsymmetric(a: string, b: string)
    ensures !(StrLess(a, b) && StrLess(b, a))
    decreases |a|
  {
    if |a| > 0 && |b| > 0 && a[0] == b[0] {
      StrLessAsymmetric(a[1..], b[1..]);
    }
  }

  /** The order on strings is transitive. */
  lemma {:induction false} StrLessTransitive(a: string, b: string, c: string)
    requires StrLess(a, b) && StrLess(b, c)
    ensures StrLess(a, c)
    decreases |a|
  {
    if |a| > 0 && a[0] == b[0] && b[0] == c[0] {
      StrLessTransitive(a[1..], b[1..], c[1..]);
    }
  }

  /** Two different strings are ordered one way or the other. */
  lemma {:induction false} StrLessTotal(a: string, b: string)
    ensures a == b || StrLess(a, b) || StrLess(b, a)
    decreases |a|
  {
    if |a| > 0 && |b| > 0 && a[0] == b[0] {
      StrLessTotal(a[1..], b[1..]);
      if a[1..] == b[1..] {
        assert a == [a[0]] + a[1..] && b == [b[0]] + b[1..];
      }
    }
  }

  /** Digit strings hold none of the characters that are not digits. */
  lemma DigitsExclude(s: string, base: nat, c: char)
    requires AllDigits(s, base) && DigitValue(c).None?
    ensures c !in s
  {
    forall i | 0 <= i < |s| ensures s[i] != c {
      assert DigitValue(s[i]).Some?;
    }
  }

  /** A string that neither starts nor ends with whitespace is its own `strip()`. */
  lemma StripTrimmed(s: string)
    requires |s| > 0 && !IsSpace(s[0]) && !IsSpace(s[|s| - 1])
    ensures Strip(s) == s
  {
  }

  // ---------------------------------------------------------------- splitting

  /** The position of the first character satisfying `p`, if any. */
  function FindWhere(s: string, p: char -> bool): (r: Option<nat>)
    ensures r.Some? ==> r.value < |s| && p(s[r.value])
    ensures r.Some? ==> forall i :: 0 <= i < r.value ==> !p(s[i])
    ensures r.None? ==> forall i :: 0 <= i < |s| ==> !p(s[i])
  {
    if |s| == 0 then None
    else if p(s[0]) then Some(0)
    else match FindWhere(s[1..], p)
      case None => None
      case Some(i) => Some(i + 1)
  }

  function Find(s: string, c: char): (r: Option<nat>)
    ensures r.Some? ==> r.value < |s| && s[r.value] == c && c !in s[..r.value]
    ensures r.None? ==> c !in s
  {
    var r := FindWhere(s, x => x == c);
    assert r.Some? ==> forall i :: 0 <= i < r.value ==> s[..r.value][i] != c;
    r
  }

  /** `s.split(c, 1)` when it yields two parts: the text around the first `c`. */
  function SplitOnce(s: string, c: char): (r: Option<(string, string)>)
    ensures r.None? <==> c !in s
    ensures r.Some? ==> c !in r.value.0 && s == r.value.0 + [c] + r.value.1
  {
    match Find(s, c)
    case None => None
    case Some(i) => Some((s[..i], s[i + 1..]))
  }

  /** The first `c` of `a + [c] + b` is the one after `a` when `a` has none. */
  lemma SplitOnceAt(a: string, c: char, b: string)
    requires c !in a
    ensures SplitOnce(a + [c] + b, c) == Some((a, b))
  {
    var s := a + [c] + b;
    assert s[|a|] == c;
    assert s[..|a|] == a && s[|a| + 1..] == b;
  }

  /** Splitting at every character satisfying `sep`, keeping empty parts. */
  function SplitWhere(s: string, sep: char -> bool): (parts: seq<string>)
    ensures |parts| >= 1
    ensures forall k, i :: 0 <= k < |parts| && 0 <= i < |parts[k]| ==> !sep(parts[k][i])
    decreases |s|
  {
    match FindWhere(s, sep)
    case None => [s]
    case Some(i) => [s[..i]] + SplitWhere(s[i + 1..], sep)
  }

  /** `s.split(c)`. */
  function SplitChar(s: string, c: char): seq<string> {
    SplitWhere(s, x => x == c)
  }

  /** `c.join(parts)` for a one-character separator. */
  function JoinChar(parts: seq<string>, c: char): string
    requires |parts| >= 1
  {
    if |parts| == 1 then parts[0] else parts[0] + [c] + JoinChar(parts[1..], c)
  }

  /** Joining the pieces of `s.split(c)` with `c` gives back `s`. */
  lemma {:induction false} JoinSplitChar(s: string, c: char)
    ensures JoinChar(SplitChar(s, c), c) == s
    decreases |s|
  {
    match FindWhere(s, x => x == c)
    case None =>
    case Some(i) =>
      JoinSplitChar(s[i + 1..], c);
      assert SplitChar(s, c) == [s[..i]] + SplitChar(s[i + 1..], c);
      assert s == s[..i] + [c] + s[i + 1..];
  }

  /** Every piece of `s.split(c)` is free of `c`. */
  lemma SplitCharPieces(s: string, c: char)
    ensures forall k :: 0 <= k < |SplitChar(s, c)| ==> c !in SplitChar(s, c)[k]
  {
    var parts := SplitChar(s, c);
    forall k | 0 <= k < |parts| ensures c !in parts[k] {
      forall i | 0 <= i < |parts[k]| ensures parts[k][i] != c {
        assert !(x => x == c)(parts[k][i]);
      }
    }
  }

  /** Splitting pieces free of `c` joined with `c` gives back the pieces. */
  lemma {:induction false} SplitJoinChar(parts: seq<string>, c: char)
    requires |parts| >= 1
    requires forall k :: 0 <= k < |parts| ==> c !in parts[k]
    ensures SplitChar(JoinChar(parts, c), c) == parts
    decreases |parts|
  {
    if |parts| > 1 {
      var rest := JoinChar(parts[1..], c);
      var s := parts[0] + [c] + rest;
      assert JoinChar(parts, c) == s;
      var i := |parts[0]|;
      assert s[i] == c;
      var f := FindWhere(s, x => x == c);
      assert f.Some? && f.value <= i;
      assert forall j :: 0 <= j < i ==> s[j] == parts[0][j];
      assert f.value == i;
      assert s[..i] == parts[0] && s[i + 1..] == rest;
      SplitJoinChar(parts[1..], c);
      assert parts == [parts[0]] + parts[1..];
    } else {
      assert forall j :: 0 <= j < |parts[0]| ==> parts[0][j] != c;
      assert FindWhere(parts[0], x => x == c).None?;
    }
  }

  /** The non-empty pieces of `s.split(c)`, in order. */
  function NonEmpty(parts: seq<string>): (r: seq<string>)
    ensures forall k :: 0 <= k < |r| ==> |r[k]| > 0
    ensures forall x :: x in r <==> x in parts && |x| > 0
  {
    if |parts| == 0 then []
    else if |parts[0]| == 0 then NonEmpty(parts[1..])
    else [parts[0]] + NonEmpty(parts[1..])
  }

  /** Dropping empty pieces keeps a list that has none. */
  lemma {:induction false} NonEmptyKeeps(parts: seq<string>)
    requires forall k :: 0 <= k < |parts| ==> |parts[k]| > 0
    ensures NonEmpty(parts) == parts
    decreases |parts|
  {
    if |parts| > 0 {
      NonEmptyKeeps(parts[1..]);
      assert parts == [parts[0]] + parts[1..];
    }
  }

  /**
   * The lines of `s.splitlines()` with surrounding whitespace stripped and
   * blank lines dropped. `\r\n` counts as one boundary in Python; splitting it
   * twice only adds an empty line, which is dropped here anyway.
   */
  function NonBlankLines(s: string): (lines: seq<string>)
    ensures forall k :: 0 <= k < |lines| ==> |lines[k]| > 0
  {
    NonEmpty(StripAll(SplitWhere(s, IsLineBreak)))
  }

  function StripAll(parts: seq<string>): (r: seq<string>)
    ensures |r| == |parts|
    ensures forall k :: 0 <= k < |r| ==> r[k] == Strip(parts[k])
  {
    if |parts| == 0 then [] else [Strip(parts[0])] + StripAll(parts[1..])
  }

  // ------------------------------------------------------- whitespace tokens

  /** The length of the run of non-whitespace characters that starts `s`. */
  function TokenLen(s: string): (n: nat)
    ensures n <= |s| && NoSpace(s[..n])
    ensures n < |s| ==> IsSpace(s[n])
  {
    if |s| == 0 || IsSpace(s[0]) then 0 else 1 + TokenLen(s[1..])
  }

  /** `s.split()`: the maximal runs of non-whitespace characters, in order. */
  function Words(s: string): (ws: seq<string>)
    ensures forall k :: 0 <= k < |ws| ==> |ws[k]| > 0 && NoSpace(ws[k])
    decreases |s|
  {
    if |s| == 0 then []
    else if IsSpace(s[0]) then Words(s[1..])
    else
      var n := TokenLen(s);
      [s[..n]] + Words(s[n..])
  }

  /** `" ".join(ws)`. */
  function JoinSpace(ws: seq<string>): string {
    if |ws| == 0 then ""
    else if |ws| == 1 then ws[0]
    else ws[0] + " " + JoinSpace(ws[1..])
  }

  lemma {:induction false} TokenLenOfWord(w: string, rest: string)
    requires NoSpace(w)
    requires |rest| == 0 || IsSpace(rest[0])
    ensures TokenLen(w + rest) == |w|
    decreases |w|
  {
    if |w| > 0 {
      assert (w + rest)[1..] == w[1..] + rest;
      TokenLenOfWord(w[1..], rest);
    }
  }

  /** A word followed by whitespace is the first word. */
  lemma FirstWord(w: string, rest: string)
    requires |w| > 0 && NoSpace(w)
    requires |rest| == 0 || IsSpace(rest[0])
    ensures |Words(w + rest)| >= 1 && Words(w + rest)[0] == w
  {
    TokenLenOfWord(w, rest);
    assert (w + rest)[..|w|] == w;
  }

  /** Splitting a space-joined list of non-empty tokens gives back the tokens. */
  lemma {:induction false} WordsOfJoinSpace(ws: seq<string>)
    requires forall k :: 0 <= k < |ws| ==> |ws[k]| > 0 && NoSpace(ws[k])
    ensures Words(JoinSpace(ws)) == ws
    decreases |ws|
  {
    if |ws| == 1 {
      TokenLenOfWord(ws[0], "");
      assert ws[0][|ws[0]|..] == "";
      assert ws[0][..|ws[0]|] == ws[0];
    } else if |ws| > 1 {
      var s := JoinSpace(ws);
      var rest := JoinSpace(ws[1..]);
      assert s == ws[0] + (" " + rest);
      TokenLenOfWord(ws[0], " " + rest);
      assert s[..|ws[0]|] == ws[0];
      assert s[|ws[0]|..] == " " + rest;
      assert (" " + rest)[1..] == rest;
      WordsOfJoinSpace(ws[1..]);
    }
  }

  // ----------------------------------------------------------------- strip

  function LStrip(s: string): (r: string)
    ensures |r| <= |s| && r == s[|s| - |r|..]
    ensures |r| == 0 || !IsSpace(r[0])
    ensures forall i :: 0 <= i < |s| - |r| ==> IsSpace(s[i])
  {
    if |s| > 0 && IsSpace(s[0]) then LStrip(s[1..]) else s
  }

  function RStrip(s: string): (r: string)
    ensures |r| <= |s| && r == s[..|r|]
    ensures |r| == 0 || !IsSpace(r[|r| - 1])
    ensures forall i :: |r| <= i < |s| ==> IsSpace(s[i])
  {
    if |s| > 0 && IsSpace(s[|s| - 1]) then RStrip(s[..|s| - 1]) else s
  }

  /** `s.strip()`. */
  function Strip(s: string): string {
    RStrip(LStrip(s))
  }

  /** Stripping a string without whitespace leaves it alone. */
  lemma StripNoSpace(s: string)
    requires NoSpace(s)
    ensures LStrip(s) == s && RStrip(s) == s && Strip(s) == s
  {
  }

  /** `s.rstrip(c)` for one character `c`. */
  function RStripChar(s: string, c: char): (r: string)
    ensures |r| <= |s| && r == s[..|r|]
    ensures |r| == 0 || r[|r| - 1] != c
    ensures forall i :: |r| <= i < |s| ==> s[i] == c
  {
    if |s| > 0 && s[|s| - 1] == c then RStripChar(s[..|s| - 1], c) else s
  }

  // --------------------------------------------------------------- numbers

  function Pow(base: nat, k: nat): (r: nat)
    ensures r >= 1 || base == 0
  {
    if k == 0 then 1 else base * Pow(base, k - 1)
  }

  function DigitChar(d: nat, upper: bool): char
    requires d < 16
  {
    if d < 10 then ('0' as int + d) as char
    else if upper then ('A' as int + d - 10) as char
    else ('a' as int + d - 10) as char
  }

  /** The value of a hexadecimal (or decimal) digit in either case. */
  function DigitValue(c: char): (r: Option<nat>)
    ensures r.Some? ==> r.value < 16
  {
    if '0' <= c <= '9' then Some(c as int - '0' as int)
    else if 'a' <= c <= 'f' then Some(c as int - 'a' as int + 10)
    else if 'A' <= c <= 'F' then Some(c as int - 'A' as int + 10)
    else None
  }

  lemma DigitRoundTrip(d: nat, upper: bool)
    requires d < 16
    ensures DigitValue(DigitChar(d, upper)) == Some(d)
  {
  }

  predicate AllDigits(s: string, base: nat) {
    forall i :: 0 <= i < |s| ==> DigitValue(s[i]).Some? && DigitValue(s[i]).value < base
  }

  /** The value of a digit string, most significant digit first. */
  function DigitsValue(s: string, base: nat): nat
    requires AllDigits(s, base)
  {
    if |s| == 0 then 0
    else DigitsValue(s[..|s| - 1], base) * base + DigitValue(s[|s| - 1]).value
  }

  /** The shortest digit string of `n` in `base` (Python's `str(n)`, `format(n, "x")`). */
  function ToDigits(n: nat, base: nat, upper: bool): (s: string)
    requires 2 <= base <= 16
    ensures |s| >= 1 && AllDigits(s, base)
    decreases n
  {
    DivMod(n, base);
    if n < base then [DigitChar(n, upper)]
    else ToDigits(n / base, base, upper) + [DigitChar(n % base, upper)]
  }

  lemma DivMod(n: nat, b: nat)
    requires 2 <= b
    ensures n == (n / b) * b + n % b && 0 <= n % b < b
    ensures n >= b ==> 0 < n / b < n
  {
    if n >= b {
      assert (n / b) * b <= n;
      assert n / b >= 1;
    }
  }

  function ParseDigits(s: string, base: nat): (r: Option<nat>)
    ensures r.Some? <==> |s| > 0 && AllDigits(s, base)
  {
    if |s| > 0 && AllDigits(s, base) then Some(DigitsValue(s, base)) else None
  }

  /** `str(n)` for a natural number. */
  function Decimal(n: nat): string {
    ToDigits(n, 10, false)
  }

  function Zeros(k: nat): (z: string)
    ensures |z| == k && forall i :: 0 <= i < k ==> z[i] == '0'
  {
    if k == 0 then "" else "0" + Zeros(k - 1)
  }

  /** `format(n, "0<width>x")` (or `"0<width>X"` when `upper`). */
  function Hex(n: nat, width: nat, upper: bool): (s: string)
    ensures |s| >= width && AllDigits(s, 16)
  {
    var d := ToDigits(n, 16, upper);
    Zeros(if |d| < width then width - |d| else 0) + d
  }

  lemma DigitsNoSpace(s: string, base: nat)
    requires AllDigits(s, base)
    ensures NoSpace(s)
  {
    assert forall i :: 0 <= i < |s| ==> DigitValue(s[i]).Some?;
  }

  /** Hex digits, with or without the `0x` prefix, hold no whitespace. */
  lemma HexNoSpace(n: nat, width: nat, upper: bool)
    ensures NoSpace(Hex(n, width, upper)) && NoSpace("0x" + Hex(n, width, upper))
  {
    var h := Hex(n, width, upper);
    assert forall i :: 0 <= i < |h| ==> DigitValue(h[i]).Some?;
    var p := "0x" + h;
    assert forall i :: 2 <= i < |p| ==> p[i] == h[i - 2];
  }

  /** `int(s)` restricted to ASCII digits. */
  function ParseNat(s: string): Option<nat> {
    ParseDigits(s, 10)
  }

  /** `int(s, 16)`: hex digits after an optional `0x`/`0X` prefix. */
  function ParseHex(s: string): Option<nat> {
    if |s| >= 2 && s[0] == '0' && (s[1] == 'x' || s[1] == 'X') then ParseDigits(s[2..], 16)
    else ParseDigits(s, 16)
  }

  lemma {:induction false} ToDigitsValue(n: nat, base: nat, upper: bool)
    requires 2 <= base <= 16
    ensures DigitsValue(ToDigits(n, base, upper), base) == n
    decreases n
  {
    var s := ToDigits(n, base, upper);
    DivMod(n, base);
    if n < base {
      DigitRoundTrip(n, upper);
    } else {
      ToDigitsValue(n / base, base, upper);
      assert s[..|s| - 1] == ToDigits(n / base, base, upper);
      DigitRoundTrip(n % base, upper);
      assert DigitsValue(s, base) == (n / base) * base + n % base;
    }
  }

  lemma {:induction false} LeadingZeros(k: nat, s: string, base: nat)
    requires 2 <= base && AllDigits(s, base)
    ensures AllDigits(Zeros(k) + s, base)
    ensures DigitsValue(Zeros(k) + s, base) == DigitsValue(s, base)
    decreases |s|
  {
    var z := Zeros(k) + s;
    assert forall i :: 0 <= i < |z| ==> z[i] == (if i < k then '0' else s[i - k]);
    if |s| == 0 {
      assert z == Zeros(k);
      ZerosValue(k, base);
    } else {
      assert z[..|z| - 1] == Zeros(k) + s[..|s| - 1];
      LeadingZeros(k, s[..|s| - 1], base);
    }
  }

  lemma {:induction false} ZerosValue(k: nat, base: nat)
    requires 2 <= base
    ensures AllDigits(Zeros(k), base) && DigitsValue(Zeros(k), base) == 0
  {
    if k > 0 {
      assert Zeros(k)[..k - 1] == Zeros(k - 1);
      ZerosValue(k - 1, base);
    }
  }

  /** Parsing `str(n)` gives back `n`. */
  lemma DecimalRoundTrip(n: nat)
    ensures ParseNat(Decimal(n)) == Some(n)
  {
    ToDigitsValue(n, 10, false);
  }

  /** Parsing a zero-padded hex rendering of `n` gives back `n`, in either case. */
  lemma HexValue(n: nat, width: nat, upper: bool)
    ensures DigitsValue(Hex(n, width, upper), 16) == n
  {
    var d := ToDigits(n, 16, upper);
    var k := if |d| < width then width - |d| else 0;
    ToDigitsValue(n, 16, upper);
    LeadingZeros(k, d, 16);
    assert Hex(n, width, upper) == Zeros(k) + d;
  }

  /** The `0x`-prefixed form reads back too. */
  lemma PrefixedHexRoundTrip(n: nat, width: nat, upper: bool)
    ensures ParseHex("0x" + Hex(n, width, upper)) == Some(n)
  {
    var p := "0x" + Hex(n, width, upper);
    assert p[2..] == Hex(n, width, upper);
    HexValue(n, width, upper);
  }

  /** Parsing a zero-padded hex rendering of `n` gives back `n`, in either case. */
  lemma HexRoundTrip(n: nat, width: nat, upper: bool)
    ensures ParseHex(Hex(n, width, upper)) == Some(n)
  {
    var s := Hex(n, width, upper);
    HexValue(n, width, upper);
    if |s| >= 2 {
      assert DigitValue(s[1]).Some?;
    }
  }

  /** The value of `whole.frac` where `frac` has `places` digits. */
  function FixedValue(whole: nat, frac: nat, places: nat): (r: real)
    ensures r >= whole as real
  {
    whole as real + frac as real / Pow(10, places) as real
  }

  /**
   * `float(s)` restricted to plain decimal notation: digits with at most one
   * `.`, at least one digit in all. The value is exact, not rounded to a double.
   */
  function ParseReal(s: string): (r: Option<real>)
    ensures r.Some? ==> r.value >= 0.0
  {
    match Find(s, '.')
    case None =>
      (match ParseNat(s)
       case None => None
       case Some(v) => Some(v as real))
    case Some(i) =>
      var whole := s[..i];
      var frac := s[i + 1..];
      if |whole| + |frac| == 0 || !AllDigits(whole, 10) || !AllDigits(frac, 10) then None
      else Some(FixedValue(DigitsValue(whole, 10), DigitsValue(frac, 10), |frac|))
  }

  /** A plain integer parses as a real with the same value. */
  lemma ParseRealOfDecimal(n: nat)
    ensures ParseReal(Decimal(n)) == Some(n as real)
  {
    DecimalRoundTrip(n);
    var s := Decimal(n);
    assert '.' !in s by {
      forall i | 0 <= i < |s| ensures s[i] != '.' { assert DigitValue(s[i]).Some?; }
    }
  }

  /** `str(i)` for an integer of either sign. */
  function IntText(i: int): string {
    if i < 0 then "-" + Decimal(-i) else Decimal(i)
  }

  /** `int(s)` restricted to an optional sign followed by decimal digits. */
  function ParseInt(s: string): (r: Option<int>)
    ensures r.Some? ==> |s| > 0
  {
    if |s| > 0 && (s[0] == '-' || s[0] == '+') then
      match ParseNat(s[1..])
      case None => None
      case Some(n) => Some(if s[0] == '-' then -(n as int) else n as int)
    else
      match ParseNat(s)
      case None => None
      case Some(n) => Some(n)
  }

  /** Parsing `str(i)` gives back `i`, for either sign. */
  lemma IntRoundTrip(i: int)
    ensures ParseInt(IntText(i)) == Some(i)
  {
    if i < 0 {
      DecimalRoundTrip(-i);
      assert IntText(i)[1..] == Decimal(-i);
    } else {
      DecimalRoundTrip(i);
      var d := Decimal(i);
      assert DigitValue(d[0]).Some?;
    }
  }

  /** The decimal form of a natural number holds no whitespace. */
  lemma IntTextNoSpace(i: int)
    ensures |IntText(i)| > 0 && NoSpace(IntText(i))
  {
    if i < 0 {
      DigitsNoSpace(Decimal(-i), 10);
      var t := IntText(i);
      assert forall k :: 1 <= k < |t| ==> t[k] == Decimal(-i)[k - 1];
    } else {
      DigitsNoSpace(Decimal(i), 10);
    }
  }
}
