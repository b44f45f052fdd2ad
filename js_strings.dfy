/**
 * The parts of JavaScript's String and Array behaviour the application relies
 * on, written out: `split` on one character, `split` on a capturing regular
 * expression that matches one literal, `join`, `slice`, `trim`,
 * `toLowerCase` and the decimal rendering of a count in a template literal.
 */
module JsStrings {
  import opened Results

  /** The code points ECMAScript calls WhiteSpace or LineTerminator: what
      `trim()` strips and what the regular-expression class `\s` matches. */
  predicate IsWhitespace(c: char) {
    || c == '\t' || c == '\n' || c == '\U{000B}' || c == '\U{000C}' || c == '\r'
    || c == ' ' || c == '\U{00A0}' || c == '\U{1680}'
    || ('\U{2000}' <= c <= '\U{200A}')
    || c == '\U{2028}' || c == '\U{2029}' || c == '\U{202F}' || c == '\U{205F}'
    || c == '\U{3000}' || c == '\U{FEFF}'
  }

  /** Number of occurrences of `c` in `s`. */
  function Count(s: string, c: char): nat {
    if s == [] then 0 else (if s[0] == c then 1 else 0) + Count(s[1..], c)
  }

  /** `s.split(c)` for a one-character string `c`: the pieces between the
      occurrences of `c`, which are dropped. */
  function Split(s: string, c: char): (parts: seq<string>)
    ensures |parts| == Count(s, c) + 1
    ensures forall i :: 0 <= i < |parts| ==> c !in parts[i]
  {
    if s == [] then [""]
    else
      var rest := Split(s[1..], c);
      if s[0] == c then [""] + rest else [[s[0]] + rest[0]] + rest[1..]
  }

  /** A leading separator splits off an empty first piece. */
  lemma SplitLeading(s: string, c: char)
    ensures Split([c] + s, c) == [""] + Split(s, c)
  {
    assert ([c] + s)[1..] == s;
  }

  /** A trailing separator after separator-free text splits off an empty
      last piece. */
  lemma {:induction false} SplitTrailing(s: string, c: char)
    requires c !in s
    ensures Split(s + [c], c) == [s, ""]
  {
    assert s + [c] == s + [c] + [];
    SplitAround(s, [], c);
    SplitWithout(s, c);
    SplitWithout([], c);
  }

  /** `parts.join(sep)`. */
  function Join(parts: seq<string>, sep: string): string {
    if |parts| == 0 then ""
    else if |parts| == 1 then parts[0]
    else parts[0] + sep + Join(parts[1..], sep)
  }

  lemma JoinCons(x: string, parts: seq<string>, sep: string)
    requires |parts| > 0
    ensures Join([x] + parts, sep) == x + sep + Join(parts, sep)
  {
    assert ([x] + parts)[1..] == parts;
  }

  /** Joining the pieces of a split with the separator gives back the string. */
  lemma {:induction false} JoinSplit(s: string, c: char)
    ensures Join(Split(s, c), [c]) == s
  {
    if s != [] {
      var rest := Split(s[1..], c);
      JoinSplit(s[1..], c);
      if s[0] == c {
        JoinCons("", rest, [c]);
      } else if |rest| == 1 {
        assert Split(s, c) == [[s[0]] + rest[0]];
      } else {
        JoinCons([s[0]] + rest[0], rest[1..], [c]);
        JoinCons(rest[0], rest[1..], [c]);
        assert rest == [rest[0]] + rest[1..];
      }
    }
  }

  /** A string without the separator splits into itself alone. */
  lemma {:induction false} SplitWithout(s: string, c: char)
    requires c !in s
    ensures Split(s, c) == [s]
  {
    if s != [] {
      SplitWithout(s[1..], c);
      assert s == [s[0]] + s[1..];
    }
  }

  /** One occurrence of the separator cuts the split in two. */
  lemma {:induction false} SplitAround(a: string, b: string, c: char)
    ensures Split(a + [c] + b, c) == Split(a, c) + Split(b, c)
  {
    if a == [] {
      assert a + [c] + b == [c] + b;
      assert ([c] + b)[1..] == b;
    } else {
      assert (a + [c] + b)[1..] == a[1..] + [c] + b;
      SplitAround(a[1..], b, c);
    }
  }

  /** Splitting a join gives back the pieces, when no piece holds the
      separator. */
  lemma {:induction false} SplitJoin(parts: seq<string>, c: char)
    requires |parts| > 0
    requires forall i :: 0 <= i < |parts| ==> c !in parts[i]
    ensures Split(Join(parts, [c]), c) == parts
  {
    if |parts| == 1 {
      SplitWithout(parts[0], c);
    } else {
      SplitJoin(parts[1..], c);
      SplitAround(parts[0], Join(parts[1..], [c]), c);
      SplitWithout(parts[0], c);
      assert parts == [parts[0]] + parts[1..];
    }
  }

  /** The concatenation of a list of lists, in order; on strings, the
      result of appending them one after another with `+=`. */
  function Flatten<T>(xss: seq<seq<T>>): seq<T> {
    if xss == [] then [] else Flatten(xss[..|xss| - 1]) + xss[|xss| - 1]
  }

  /** Flattening one more element of a sequence appends that element. */
  lemma FlattenPrefix<T>(xss: seq<seq<T>>, n: nat)
    requires n < |xss|
    ensures Flatten(xss[..n + 1]) == Flatten(xss[..n]) + xss[n]
  {
    assert xss[..n + 1][..n] == xss[..n];
  }

  /** Flattening keeps order: the flattening of two runs is the flattening of
      the first followed by that of the second. */
  lemma {:induction false} FlattenAppend<T>(a: seq<seq<T>>, b: seq<seq<T>>)
    ensures Flatten(a + b) == Flatten(a) + Flatten(b)
    decreases |b|
  {
    if b == [] {
      assert a + b == a;
    } else {
      var b' := b[..|b| - 1];
      assert (a + b)[..|a + b| - 1] == a + b';
      assert (a + b)[|a + b| - 1] == b[|b| - 1];
      FlattenAppend(a, b');
    }
  }

  /** `xs.slice(begin, end)`: negative positions count from the end, and
      positions are clipped to the sequence. */
  function Slice<T>(xs: seq<T>, begin: int, end: int): seq<T> {
    var n := |xs|;
    var from := if begin < 0 then (if n + begin < 0 then 0 else n + begin)
                else (if begin < n then begin else n);
    var to := if end < 0 then (if n + end < 0 then 0 else n + end)
              else (if end < n then end else n);
    if from < to then xs[from..to] else []
  }

  /** `slice(b)` with `b` inside the sequence drops the first `b` elements. */
  lemma SliceFrom<T>(xs: seq<T>, b: nat)
    requires b <= |xs|
    ensures Slice(xs, b, |xs|) == xs[b..]
  {
  }

  /** `slice(1, -1)` drops exactly the first and the last element. */
  lemma SliceDropsEnds<T>(xs: seq<T>)
    ensures |xs| >= 2 ==> Slice(xs, 1, -1) == xs[1..|xs| - 1]
    ensures |xs| < 2 ==> Slice(xs, 1, -1) == []
  {
  }

  /** `s.trimStart()`: what it removes is all whitespace, and what is left
      does not start with whitespace. */
  function TrimStart(s: string): (r: string)
    ensures |r| <= |s|
    ensures forall i :: 0 <= i < |s| - |r| ==> IsWhitespace(s[i])
    ensures r == [] || !IsWhitespace(r[0])
  {
    if s != [] && IsWhitespace(s[0]) then
      var r := TrimStart(s[1..]);
      assert forall i :: 1 <= i < |s| ==> s[i] == s[1..][i - 1];
      r
    else s
  }

  /** `s.trimEnd()`: what it removes is all whitespace, and what is left does
      not end with whitespace. */
  function TrimEnd(s: string): (r: string)
    ensures |r| <= |s|
    ensures forall i :: |r| <= i < |s| ==> IsWhitespace(s[i])
    ensures r == [] || !IsWhitespace(r[|r| - 1])
  {
    if s != [] && IsWhitespace(s[|s| - 1]) then TrimEnd(s[..|s| - 1]) else s
  }

  /** What trimStart leaves is a suffix of the string. */
  lemma {:induction false} TrimStartSuffix(s: string)
    ensures TrimStart(s) == s[|s| - |TrimStart(s)|..]
  {
    if s != [] && IsWhitespace(s[0]) {
      TrimStartSuffix(s[1..]);
    }
  }

  /** What trimEnd leaves is a prefix of the string. */
  lemma {:induction false} TrimEndPrefix(s: string)
    ensures TrimEnd(s) == s[..|TrimEnd(s)|]
  {
    if s != [] && IsWhitespace(s[|s| - 1]) {
      TrimEndPrefix(s[..|s| - 1]);
    }
  }

  /** `s.trim()`. */
  function Trim(s: string): string {
    TrimEnd(TrimStart(s))
  }

  /** A string that neither starts nor ends with whitespace is its own trim. */
  lemma TrimUnchanged(s: string)
    requires s == [] || (!IsWhitespace(s[0]) && !IsWhitespace(s[|s| - 1]))
    ensures Trim(s) == s
  {
  }

  /** Trimming twice is trimming once. */
  lemma TrimIdempotent(s: string)
    ensures Trim(Trim(s)) == Trim(s)
  {
    var t := Trim(s);
    if t != [] {
      TrimEndPrefix(TrimStart(s));
      assert t == TrimStart(s)[..|t|];
      assert !IsWhitespace(t[0]);
    }
    TrimUnchanged(t);
  }

  /** `s.trim().startsWith(c)` for a one-character string `c`. */
  predicate TrimmedStartsWith(s: string, c: char) {
    var t := Trim(s);
    |t| > 0 && t[0] == c
  }

  /** Trimming only removes characters, so a trimmed string can start with
      `c` only when `c` occurs in the string. */
  lemma TrimmedStartOccurs(s: string, c: char)
    requires TrimmedStartsWith(s, c)
    ensures c in s
  {
    var a := TrimStart(s);
    TrimStartSuffix(s);
    TrimEndPrefix(a);
    assert Trim(s)[0] == a[0] == s[|s| - |a|];
  }

  /** `toLowerCase()` restricted to the ASCII letters. */
  function LowerChar(c: char): char {
    if IsUpper(c) then (c as int + 32) as char else c
  }

  predicate IsUpper(c: char) {
    'A' <= c <= 'Z'
  }

  /** Lower-casing leaves no upper-case letter: each one becomes its
      lower-case partner, 32 code points on, and every other character is
      kept. */
  function ToLower(s: string): (r: string)
    ensures |r| == |s|
    ensures forall i :: 0 <= i < |r| ==> !IsUpper(r[i])
    ensures forall i :: 0 <= i < |s| && IsUpper(s[i]) ==> r[i] as int == s[i] as int + 32
    ensures forall i :: 0 <= i < |s| && !IsUpper(s[i]) ==> r[i] == s[i]
  {
    seq(|s|, i requires 0 <= i < |s| => LowerChar(s[i]))
  }

  /** A string with no upper-case letter is its own lower-case form, so
      lower-casing twice is lower-casing once. */
  lemma ToLowerIdempotent(s: string)
    ensures ToLower(ToLower(s)) == ToLower(s)
  {
  }

  /** Whether the literal `pat` occurs in `s` at position `i`. */
  predicate MatchAt(s: string, i: nat, pat: string) {
    i + |pat| <= |s| && s[i..i + |pat|] == pat
  }

  /** The leftmost occurrence of `pat` in `s` at or after `from`. */
  function IndexFrom(s: string, pat: string, from: nat): (r: Option<nat>)
    requires |pat| > 0
    ensures r.Some? ==> from <= r.value && MatchAt(s, r.value, pat)
    ensures r.Some? ==> forall j :: from <= j < r.value ==> !MatchAt(s, j, pat)
    ensures r.None? ==> forall j :: from <= j ==> !MatchAt(s, j, pat)
    decreases |s| - from
  {
    if from + |pat| > |s| then None
    else if MatchAt(s, from, pat) then Some(from)
    else IndexFrom(s, pat, from + 1)
  }

  /** `s.split(/(pat)/)` for a regular expression that matches exactly the
      non-empty literal `pat`: the pieces between the leftmost
      non-overlapping occurrences, with each occurrence kept, because it is
      captured, as an element of its own between its two neighbours. */
  function SplitKeeping(s: string, pat: string): (parts: seq<string>)
    requires |pat| > 0
    ensures |parts| % 2 == 1
    ensures forall i :: 0 <= i < |parts| && i % 2 == 1 ==> parts[i] == pat
    decreases |s|
  {
    match IndexFrom(s, pat, 0)
    case None => [s]
    case Some(i) => [s[..i], pat] + SplitKeeping(s[i + |pat|..], pat)
  }

  /** Nothing is lost by a capturing split: its pieces concatenate back to
      the input. */
  lemma {:induction false} SplitKeepingJoin(s: string, pat: string)
    requires |pat| > 0
    ensures Flatten(SplitKeeping(s, pat)) == s
    decreases |s|
  {
    match IndexFrom(s, pat, 0)
    case None =>
      assert SplitKeeping(s, pat) == [s];
      FlattenSingle(s);
    case Some(i) =>
      var tail := s[i + |pat|..];
      var rest := SplitKeeping(tail, pat);
      assert SplitKeeping(s, pat) == [s[..i], pat] + rest;
      SplitKeepingJoin(tail, pat);
      FlattenAroundMatch(s, pat, i, rest);
  }

  /** The text before a match, the match and pieces that concatenate to the
      text after it concatenate back to the whole. */
  lemma FlattenAroundMatch(s: string, pat: string, i: nat, rest: seq<string>)
    requires MatchAt(s, i, pat) && Flatten(rest) == s[i + |pat|..]
    ensures Flatten([s[..i], pat] + rest) == s
  {
    FlattenAppend([s[..i], pat], rest);
    FlattenPair(s[..i], pat);
    assert s == s[..i] + s[i..i + |pat|] + s[i + |pat|..];
  }

  lemma FlattenSingle<T>(a: seq<T>)
    ensures Flatten([a]) == a
  {
    assert [a][..0] == [];
    assert Flatten([a]) == Flatten([a][..0]) + a;
    assert [] + a == a;
  }

  lemma FlattenPair<T>(a: seq<T>, b: seq<T>)
    ensures Flatten([a, b]) == a + b
  {
    assert [a, b][..1] == [a];
    assert Flatten([a, b]) == Flatten([a]) + b;
    FlattenSingle(a);
  }

  /** The text pieces of a capturing split (the even positions) never contain
      the separator. */
  lemma {:induction false} SplitKeepingPieces(s: string, pat: string, k: nat, j: nat)
    requires |pat| > 0
    requires k < |SplitKeeping(s, pat)| && k % 2 == 0
    ensures !MatchAt(SplitKeeping(s, pat)[k], j, pat)
    decreases |s|
  {
    var parts := SplitKeeping(s, pat);
    match IndexFrom(s, pat, 0)
    case None =>
    case Some(i) =>
      var tail := s[i + |pat|..];
      assert parts == [s[..i], pat] + SplitKeeping(tail, pat);
      if k == 0 {
        if MatchAt(s[..i], j, pat) {
          assert j < i;
          assert s[..i][j..j + |pat|] == s[j..j + |pat|];
          assert MatchAt(s, j, pat);
          assert false;
        }
      } else {
        assert parts[k] == SplitKeeping(tail, pat)[k - 2];
        SplitKeepingPieces(tail, pat, k - 2, j);
      }
  }

  function DigitChar(d: nat): char
    requires d < 10
  {
    "0123456789"[d]
  }

  /** The decimal text of `n`, as a template literal renders a count. */
  function NatToString(n: nat): (s: string)
    ensures |s| > 0
    ensures forall i :: 0 <= i < |s| ==> '0' <= s[i] <= '9'
    ensures n > 0 ==> s[0] != '0'
    decreases n
  {
    if n < 10 then [DigitChar(n)] else NatToString(n / 10) + [DigitChar(n % 10)]
  }

  /** The number a string of decimal digits denotes. */
  function DecimalValue(s: string): nat
    requires forall i :: 0 <= i < |s| ==> '0' <= s[i] <= '9'
  {
    if s == [] then 0
    else DecimalValue(s[..|s| - 1]) * 10 + (s[|s| - 1] as int - '0' as int)
  }

  /** Reading the rendered count back gives the count. */
  lemma {:induction false} DecimalRoundTrip(n: nat)
    ensures DecimalValue(NatToString(n)) == n
    decreases n
  {
    var s := NatToString(n);
    if n >= 10 {
      DecimalRoundTrip(n / 10);
      assert s[..|s| - 1] == NatToString(n / 10);
    }
  }
}
