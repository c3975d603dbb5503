/** Python string semantics the driver relies on: str.strip, str.strip(chars),
    the `in` substring test, str.startswith, str.split(sep), str.split(),
    str.join and int() on a decimal literal. Strings are sequences of code
    points, as in Python 3. */
module TextOps {

  datatype Option<T> = None | Some(value: T)

  /** The code points for which str.isspace() holds. */
  const Whitespace: set<char> := {
    '\U{9}', '\U{A}', '\U{B}', '\U{C}', '\U{D}', '\U{1C}', '\U{1D}', '\U{1E}', '\U{1F}', ' ',
    '\U{85}', '\U{A0}', '\U{1680}', '\U{2000}', '\U{2001}', '\U{2002}', '\U{2003}', '\U{2004}',
    '\U{2005}', '\U{2006}', '\U{2007}', '\U{2008}', '\U{2009}', '\U{200A}', '\U{2028}', '\U{2029}',
    '\U{202F}', '\U{205F}', '\U{3000}'}

  predicate IsSpace(c: char) { c in Whitespace }

  predicate IsQuote(c: char) { c == '"' }

  predicate NoSpace(s: string) { forall i :: 0 <= i < |s| ==> !IsSpace(s[i]) }

  // ---------------------------------------------------------------------------
  // Stripping

  /** The two character classes the driver strips: whitespace (str.strip())
      and double quotes (str.strip('"')). */
  datatype Trimmed = Spaces | Quotes

  predicate Drops(kind: Trimmed, c: char) {
    match kind
    case Spaces => IsSpace(c)
    case Quotes => IsQuote(c)
  }

  /** Drops the leading characters of the given class. */
  function TrimStart(s: string, kind: Trimmed): string
    decreases |s|
  {
    if s != [] && Drops(kind, s[0]) then TrimStart(s[1..], kind) else s
  }

  /** Drops the trailing characters of the given class. */
  function TrimEnd(s: string, kind: Trimmed): string
    decreases |s|
  {
    if s != [] && Drops(kind, s[|s| - 1]) then TrimEnd(s[..|s| - 1], kind) else s
  }

  /** TrimStart removes a prefix made only of characters of the class, and
      what remains does not start with one. */
  lemma {:induction false} TrimStartFacts(s: string, kind: Trimmed)
    ensures var r := TrimStart(s, kind);
      && |r| <= |s| && r == s[|s| - |r|..]
      && (forall i :: 0 <= i < |s| - |r| ==> Drops(kind, s[i]))
      && (r == [] || !Drops(kind, r[0]))
    decreases |s|
  {
    if s != [] && Drops(kind, s[0]) {
      TrimStartFacts(s[1..], kind);
    }
  }

  /** TrimEnd removes a suffix made only of characters of the class, and what
      remains does not end with one. */
  lemma {:induction false} TrimEndFacts(s: string, kind: Trimmed)
    ensures var r := TrimEnd(s, kind);
      && |r| <= |s| && r == s[..|r|]
      && (forall i :: |r| <= i < |s| ==> Drops(kind, s[i]))
      && (r == [] || !Drops(kind, r[|r| - 1]))
    decreases |s|
  {
    if s != [] && Drops(kind, s[|s| - 1]) {
      TrimEndFacts(s[..|s| - 1], kind);
    }
  }

  /** str.strip(): the text without surrounding whitespace. */
  function Strip(s: string): (r: string)
    ensures forall c :: c in r ==> c in s
    ensures r == [] || (!IsSpace(r[0]) && !IsSpace(r[|r| - 1]))
    ensures (forall i :: 0 <= i < |s| ==> IsSpace(s[i])) <==> r == []
  {
    TrimStartFacts(s, Spaces);
    var u := TrimStart(s, Spaces);
    TrimEndFacts(u, Spaces);
    var r := TrimEnd(u, Spaces);
    assert r != [] ==> r[0] == u[0];
    r
  }

  /** str.strip('"'): the text without surrounding double quotes. */
  function StripQuotes(s: string): (r: string)
    ensures r == [] || (!IsQuote(r[0]) && !IsQuote(r[|r| - 1]))
  {
    TrimStartFacts(s, Quotes);
    var u := TrimStart(s, Quotes);
    TrimEndFacts(u, Quotes);
    var r := TrimEnd(u, Quotes);
    assert r != [] ==> r[0] == u[0];
    r
  }

  lemma TrimStartNoop(s: string, kind: Trimmed)
    requires s == [] || !Drops(kind, s[0])
    ensures TrimStart(s, kind) == s
  {
  }

  lemma TrimEndNoop(s: string, kind: Trimmed)
    requires s == [] || !Drops(kind, s[|s| - 1])
    ensures TrimEnd(s, kind) == s
  {
  }

  /** str.strip('"') gives back the text between a pair of double quotes when
      that text neither starts nor ends with one. */
  lemma StripQuotesOfQuoted(x: string)
    requires x == [] || (!IsQuote(x[0]) && !IsQuote(x[|x| - 1]))
    ensures StripQuotes("\"" + x + "\"") == x
  {
    var s := "\"" + x + "\"";
    assert s[0] == '"' && s[1..] == x + "\"";
    var inner := x + "\"";
    if x == [] {
      assert inner[1..] == [];
      assert TrimStart(inner, Quotes) == [];
    } else {
      assert inner[0] == x[0];
      TrimStartNoop(inner, Quotes);
      assert inner[..|inner| - 1] == x;
      TrimEndNoop(x, Quotes);
    }
  }

  /** Stripping twice is stripping once. */
  lemma StripIdempotent(s: string)
    ensures Strip(Strip(s)) == Strip(s)
  {
    var r := Strip(s);
    TrimStartNoop(r, Spaces);
    TrimEndNoop(r, Spaces);
  }

  /** A string without surrounding whitespace is its own strip. */
  lemma StripNoop(s: string)
    requires s == [] || (!IsSpace(s[0]) && !IsSpace(s[|s| - 1]))
    ensures Strip(s) == s
  {
    TrimStartNoop(s, Spaces);
    TrimEndNoop(s, Spaces);
  }

  // ---------------------------------------------------------------------------
  // Substring tests

  predicate OccursAt(s: string, p: string, i: int) {
    0 <= i && i + |p| <= |s| && s[i..i + |p|] == p
  }

  /** Python's `p in s`. */
  predicate Contains(s: string, p: string) {
    exists i | 0 <= i <= |s| - |p| :: OccursAt(s, p, i)
  }

  /** str.startswith(p). */
  predicate StartsWith(s: string, p: string) {
    |p| <= |s| && s[..|p|] == p
  }

  lemma OccurrenceShift(a: string, b: string, p: string, i: int)
    requires OccursAt(b, p, i)
    ensures OccursAt(a + b, p, |a| + i)
  {
    assert (a + b)[|a| + i..|a| + i + |p|] == b[i..i + |p|];
  }

  /** A pattern free of the separator lies on one side of it. */
  lemma ContainsAroundSeparator(a: string, sep: char, b: string, p: string)
    requires sep !in p
    ensures Contains(a + [sep] + b, p) <==> Contains(a, p) || Contains(b, p)
  {
    var w := a + [sep] + b;
    if Contains(a, p) {
      var i :| 0 <= i <= |a| - |p| && OccursAt(a, p, i);
      assert w[i..i + |p|] == a[i..i + |p|];
      assert OccursAt(w, p, i);
    }
    if Contains(b, p) {
      var i :| 0 <= i <= |b| - |p| && OccursAt(b, p, i);
      OccurrenceShift(a + [sep], b, p, i);
    }
    if Contains(w, p) {
      var i :| 0 <= i <= |w| - |p| && OccursAt(w, p, i);
      assert forall k :: i <= k < i + |p| ==> p[k - i] == w[k];
      assert w[|a|] == sep;
      if i + |p| <= |a| {
        assert w[i..i + |p|] == a[i..i + |p|];
        assert OccursAt(a, p, i);
      } else {
        assert w[i..i + |p|] == b[i - |a| - 1..i - |a| - 1 + |p|];
        assert OccursAt(b, p, i - |a| - 1);
      }
    }
  }

  /** Leftmost occurrence of `p` at or after `k`. */
  function IndexFrom(s: string, p: string, k: nat): (r: Option<nat>)
    ensures r.Some? ==> k <= r.value && OccursAt(s, p, r.value)
    ensures forall j :: k <= j && (r.None? || j < r.value) ==> !OccursAt(s, p, j)
    decreases |s| - k
  {
    if k + |p| > |s| then None
    else if OccursAt(s, p, k) then Some(k)
    else IndexFrom(s, p, k + 1)
  }

  lemma IndexFromContains(s: string, p: string)
    ensures Contains(s, p) <==> IndexFrom(s, p, 0).Some?
  {
  }

  /** s.split(p)[1] for a non-empty `p` that occurs in `s`: the text between the
      first occurrence of `p` and the next one (or the end). */
  function SecondPiece(s: string, p: string): string
    requires p != [] && Contains(s, p)
  {
    IndexFromContains(s, p);
    var i := IndexFrom(s, p, 0).value;
    var start := i + |p|;
    match IndexFrom(s, p, start)
    case None => s[start..]
    case Some(j) => s[start..j]
  }

  /** A piece of a split never holds the separator. */
  lemma SecondPieceWithoutSeparator(s: string, p: string)
    requires p != [] && Contains(s, p)
    ensures !Contains(SecondPiece(s, p), p)
  {
    IndexFromContains(s, p);
    var start := IndexFrom(s, p, 0).value + |p|;
    var next := IndexFrom(s, p, start);
    var end := if next.None? then |s| else next.value;
    assert SecondPiece(s, p) == s[start..end];
    PieceWithoutSeparator(s, p, start, end);
  }

  /** A stretch of `s` in which `p` starts nowhere holds no occurrence of `p`. */
  lemma PieceWithoutSeparator(s: string, p: string, start: nat, end: nat)
    requires p != [] && start <= end <= |s|
    requires forall j :: start <= j < end ==> !OccursAt(s, p, j)
    ensures !Contains(s[start..end], p)
  {
    var piece := s[start..end];
    forall i | 0 <= i <= |piece| - |p|
      ensures !OccursAt(piece, p, i)
    {
      if OccursAt(piece, p, i) {
        var here, there := piece[i..i + |p|], s[start + i..start + i + |p|];
        assert forall k :: 0 <= k < |p| ==> here[k] == there[k];
        assert here == there;
        assert OccursAt(s, p, start + i);
      }
    }
  }

  // ---------------------------------------------------------------------------
  // Joining and splitting lines

  /** sep.join(parts). */
  function Join(parts: seq<string>, sep: string): string
  {
    if parts == [] then ""
    else if |parts| == 1 then parts[0]
    else parts[0] + sep + Join(parts[1..], sep)
  }

  /** s.split(sep) for a one-character separator: never empty, keeps empty pieces. */
  function Split(s: string, sep: char): (r: seq<string>)
    ensures |r| >= 1
    ensures forall k :: 0 <= k < |r| ==> sep !in r[k]
    ensures Join(r, [sep]) == s
    decreases |s|
  {
    if s == [] then [""]
    else
      var rest := Split(s[1..], sep);
      if s[0] == sep then
        assert Join([""] + rest, [sep]) == [sep] + Join(rest, [sep]) by {
          assert ([""] + rest)[1..] == rest;
        }
        [""] + rest
      else
        var r := [[s[0]] + rest[0]] + rest[1..];
        assert Join(r, [sep]) == [s[0]] + Join(rest, [sep]) by {
          assert r[1..] == rest[1..];
          if |rest| > 1 {
            assert Join(rest, [sep]) == rest[0] + [sep] + Join(rest[1..], [sep]);
          }
        }
        r
  }

  lemma SplitNoSeparator(a: string, sep: char)
    requires sep !in a
    ensures Split(a, sep) == [a]
    decreases |a|
  {
    if a != [] {
      SplitNoSeparator(a[1..], sep);
      assert [a[0]] + a[1..] == a;
    }
  }

  lemma {:induction false} SplitAtSeparator(a: string, sep: char, b: string)
    requires sep !in a
    ensures Split(a + [sep] + b, sep) == [a] + Split(b, sep)
    decreases |a|
  {
    var s := a + [sep] + b;
    if a == [] {
      assert s[1..] == b;
    } else {
      assert s[1..] == a[1..] + [sep] + b;
      SplitAtSeparator(a[1..], sep, b);
      assert [a[0]] + a[1..] == a;
    }
  }

  /** Splitting the joined pieces gives the pieces back. */
  lemma {:induction false} SplitJoin(parts: seq<string>, sep: char)
    requires |parts| >= 1
    requires forall k :: 0 <= k < |parts| ==> sep !in parts[k]
    ensures Split(Join(parts, [sep]), sep) == parts
    decreases |parts|
  {
    if |parts| == 1 {
      SplitNoSeparator(parts[0], sep);
    } else {
      SplitJoin(parts[1..], sep);
      SplitAtSeparator(parts[0], sep, Join(parts[1..], [sep]));
      assert [parts[0]] + parts[1..] == parts;
    }
  }

  /** A pattern free of the separator occurs in the joined text exactly when it
      occurs in one of the pieces. */
  lemma {:induction false} ContainsJoin(parts: seq<string>, sep: char, p: string)
    requires p != [] && sep !in p
    ensures Contains(Join(parts, [sep]), p) <==> exists k :: 0 <= k < |parts| && Contains(parts[k], p)
    decreases |parts|
  {
    if parts == [] {
      assert !OccursAt("", p, 0);
    } else if |parts| > 1 {
      ContainsJoin(parts[1..], sep, p);
      ContainsAroundSeparator(parts[0], sep, Join(parts[1..], [sep]), p);
      if exists k :: 0 <= k < |parts| && Contains(parts[k], p) {
        var k :| 0 <= k < |parts| && Contains(parts[k], p);
        if k > 0 { assert parts[1..][k - 1] == parts[k]; }
      }
    }
  }

  // ---------------------------------------------------------------------------
  // Tokens and integers

  /** The leading run of non-whitespace characters. */
  function Token(u: string): (t: string)
    ensures |t| <= |u| && t == u[..|t|] && NoSpace(t)
    ensures |t| == |u| || IsSpace(u[|t|])
    decreases |u|
  {
    if u == [] || IsSpace(u[0]) then [] else [u[0]] + Token(u[1..])
  }

  /** s.split()[0], or None where Python raises IndexError (no token at all). */
  function FirstToken(s: string): (r: Option<string>)
    ensures r.Some? ==> r.value != [] && NoSpace(r.value)
  {
    TrimStartFacts(s, Spaces);
    var u := TrimStart(s, Spaces);
    if u == [] then None else Some(Token(u))
  }

  lemma {:induction false} TokenOfPrefix(u: string, m: nat)
    requires m <= |u|
    requires forall i :: m <= i < |u| ==> IsSpace(u[i])
    ensures Token(u[..m]) == Token(u)
    decreases |u|
  {
    if u != [] && !IsSpace(u[0]) {
      assert m > 0;
      assert u[..m][1..] == u[1..][..m - 1];
      TokenOfPrefix(u[1..], m - 1);
    }
  }

  /** Splitting on whitespace ignores the whitespace that strip() removes. */
  lemma FirstTokenOfStrip(s: string)
    ensures FirstToken(Strip(s)) == FirstToken(s)
  {
    TrimStartFacts(s, Spaces);
    var u := TrimStart(s, Spaces);
    TrimEndFacts(u, Spaces);
    var w := TrimEnd(u, Spaces);
    assert Strip(s) == w;
    if u != [] {
      assert w != [] && w[0] == u[0];
      TrimStartNoop(w, Spaces);
      TokenOfPrefix(u, |w|);
    }
  }

  lemma {:induction false} TokenOfWord(a: string, b: string)
    requires a != [] && NoSpace(a)
    requires b == [] || IsSpace(b[0])
    ensures Token(a + b) == a
    decreases |a|
  {
    if |a| == 1 {
      assert (a + b)[1..] == b;
    } else {
      assert (a + b)[1..] == a[1..] + b;
      TokenOfWord(a[1..], b);
      assert [a[0]] + a[1..] == a;
    }
  }

  predicate IsDigit(c: char) { '0' <= c <= '9' }

  predicate AllDigits(s: string) { forall i :: 0 <= i < |s| ==> IsDigit(s[i]) }

  function DigitValue(c: char): nat
    requires IsDigit(c)
  {
    (c as int) - ('0' as int)
  }

  function DigitChar(d: nat): (c: char)
    requires d < 10
    ensures IsDigit(c) && DigitValue(c) == d
  {
    ((d + '0' as int) as char)
  }

  /** The value of a run of decimal digits. */
  function DigitsValue(ds: string): nat
    requires AllDigits(ds)
    decreases |ds|
  {
    if ds == [] then 0 else DigitsValue(ds[..|ds| - 1]) * 10 + DigitValue(ds[|ds| - 1])
  }

  /** A decimal integer literal as int() accepts it: an optional sign and at
      least one digit. */
  predicate IsIntLiteral(s: string) {
    if |s| > 0 && (s[0] == '+' || s[0] == '-') then |s| > 1 && AllDigits(s[1..])
    else |s| > 0 && AllDigits(s)
  }

  /** int(s) for a token; None where Python raises ValueError. */
  function ParseInt(s: string): (r: Option<int>)
    ensures r.Some? <==> IsIntLiteral(s)
  {
    if |s| > 0 && (s[0] == '+' || s[0] == '-') then
      if |s| > 1 && AllDigits(s[1..]) then
        var n: int := DigitsValue(s[1..]);
        Some(if s[0] == '-' then -n else n)
      else None
    else if |s| > 0 && AllDigits(s) then Some(DigitsValue(s))
    else None
  }

  /** str(n) for a natural number. */
  function NatText(n: nat): (r: string)
    ensures r != [] && AllDigits(r)
    decreases n
  {
    if n < 10 then [DigitChar(n)] else NatText(n / 10) + [DigitChar(n % 10)]
  }

  /** str(v) for an integer. */
  function IntText(v: int): (r: string)
    ensures r != [] && NoSpace(r) && (IsDigit(r[0]) || r[0] == '-')
    ensures forall i :: 1 <= i < |r| ==> IsDigit(r[i])
  {
    if v < 0 then "-" + NatText(-v) else NatText(v)
  }

  lemma {:induction false} NatTextValue(n: nat)
    ensures DigitsValue(NatText(n)) == n
    decreases n
  {
    if n >= 10 {
      NatTextValue(n / 10);
      var r := NatText(n);
      assert r[..|r| - 1] == NatText(n / 10);
    }
  }

  /** int(str(v)) == v. */
  lemma ParseIntText(v: int)
    ensures ParseInt(IntText(v)) == Some(v)
  {
    if v < 0 {
      NatTextValue(-v);
      assert IntText(v)[1..] == NatText(-v);
    } else {
      NatTextValue(v);
    }
  }
}
