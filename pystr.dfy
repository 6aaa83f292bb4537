/**
 * The parts of Python's `str` (and of slicing and `int()`) that the modelled code relies on,
 * written out so that their edge cases are those of Python.
 */
module PyStr {
  import opened Wrappers

  /** `c.isspace()`: the characters Python treats as whitespace (also what `\s` matches). */
  predicate IsSpace(c: char) {
    c == ' ' || c == '\t' || c == '\n' || c == '\r' || c == '\U{B}' || c == '\U{C}'
    || ('\U{1C}' <= c <= '\U{1F}') || c == '\U{85}' || c == '\U{A0}' || c == '\U{1680}'
    || ('\U{2000}' <= c <= '\U{200A}') || c == '\U{2028}' || c == '\U{2029}'
    || c == '\U{202F}' || c == '\U{205F}' || c == '\U{3000}'
  }

  /** An ASCII decimal digit. */
  predicate IsDigit(c: char) { '0' <= c <= '9' }

  predicate IsHexDigit(c: char) { IsDigit(c) || 'a' <= c <= 'f' || 'A' <= c <= 'F' }

  predicate IsUpper(c: char) { 'A' <= c <= 'Z' }

  predicate IsLower(c: char) { 'a' <= c <= 'z' }

  /** `s.isdigit()` for ASCII digits: non-empty and digits only. */
  predicate IsDigits(s: string) {
    |s| > 0 && forall i :: 0 <= i < |s| ==> IsDigit(s[i])
  }

  predicate StartsWith(s: string, p: string) { |p| <= |s| && s[..|p|] == p }

  /** Adjacent slices join into one. */
  lemma SliceJoin(s: string, i: nat, j: nat, k: nat)
    requires i <= j <= k <= |s|
    ensures s[i..k] == s[i..j] + s[j..k]
  {
  }

  /** A prefix of a prefix is a prefix. */
  lemma StartsWithTrans(s: string, p: string, q: string)
    requires StartsWith(s, p) && StartsWith(p, q)
    ensures StartsWith(s, q)
  {
    assert s[..|q|] == s[..|p|][..|q|];
  }

  predicate EndsWith(s: string, p: string) { |p| <= |s| && s[|s| - |p|..] == p }

  /** `p in s` for strings. */
  predicate Contains(s: string, p: string)
    decreases |s|
  {
    StartsWith(s, p) || (|s| > 0 && Contains(s[1..], p))
  }

  /** `s.find(p)`: the lowest index at which `p` occurs, or -1. */
  function Find(s: string, p: string): (r: int)
    ensures -1 <= r <= |s|
    ensures r >= 0 ==> r + |p| <= |s| && s[r..r + |p|] == p
    ensures r >= 0 ==> forall j :: 0 <= j < r ==> !StartsWith(s[j..], p)
    ensures r < 0 <==> !Contains(s, p)
    decreases |s|
  {
    if StartsWith(s, p) then 0
    else if |s| == 0 then -1
    else
      var r := Find(s[1..], p);
      assert forall j :: 1 <= j <= |s| ==> s[j..] == s[1..][j - 1..];
      if r < 0 then -1 else r + 1
  }

  /** `s.split(c)` for a one-character separator. */
  function Split(s: string, c: char): (r: seq<string>)
    ensures |r| >= 1
    decreases |s|
  {
    if |s| == 0 then [""]
    else
      var rest := Split(s[1..], c);
      if s[0] == c then [""] + rest else [[s[0]] + rest[0]] + rest[1..]
  }

  /** `sep.join(parts)`. */
  function Join(parts: seq<string>, sep: string): string
    decreases |parts|
  {
    if |parts| == 0 then ""
    else if |parts| == 1 then parts[0]
    else parts[0] + sep + Join(parts[1..], sep)
  }

  lemma {:induction false} SplitJoin(s: string, c: char)
    ensures Join(Split(s, c), [c]) == s
    decreases |s|
  {
    if |s| > 0 {
      var rest := Split(s[1..], c);
      SplitJoin(s[1..], c);
      if s[0] == c {
        assert Split(s, c) == [""] + rest;
        assert ([""] + rest)[1..] == rest;
      } else {
        if |rest| > 1 {
          assert Join(rest, [c]) == rest[0] + [c] + Join(rest[1..], [c]);
          assert ([[s[0]] + rest[0]] + rest[1..])[1..] == rest[1..];
        }
      }
    }
  }

  /** A string splits into more than one part exactly when it holds the separator. */
  lemma {:induction false} SplitMany(s: string, c: char)
    ensures |Split(s, c)| > 1 <==> c in s
    decreases |s|
  {
    if |s| > 0 {
      SplitMany(s[1..], c);
    }
  }

  lemma {:induction false} SplitParts(s: string, c: char)
    ensures forall k :: 0 <= k < |Split(s, c)| ==> c !in Split(s, c)[k]
    decreases |s|
  {
    if |s| > 0 {
      SplitParts(s[1..], c);
    }
  }

  lemma {:induction false} SplitNoSep(s: string, c: char)
    requires c !in s
    ensures Split(s, c) == [s]
    decreases |s|
  {
    if |s| > 0 {
      SplitNoSep(s[1..], c);
      assert [s[0]] + s[1..] == s;
    }
  }

  lemma {:induction false} SplitAround(a: string, c: char, b: string)
    ensures Split(a + [c] + b, c) == Split(a, c) + Split(b, c)
    decreases |a|
  {
    if |a| == 0 {
      assert a + [c] + b == [c] + b;
      assert ([c] + b)[1..] == b;
    } else {
      assert (a + [c] + b)[1..] == a[1..] + [c] + b;
      SplitAround(a[1..], c, b);
    }
  }

  /**
   * The last part of a split is what follows the last separator: a suffix without the separator,
   * preceded by the separator when there are several parts, and the whole string when there is one.
   */
  lemma {:induction false} SplitLast(s: string, c: char)
    ensures LastPartOk(s, c, Split(s, c))
    decreases |s|
  {
    if |s| > 0 {
      SplitLast(s[1..], c);
      var rest := Split(s[1..], c);
      assert Split(s, c) == if s[0] == c then [""] + rest else [[s[0]] + rest[0]] + rest[1..];
      LastPartStep(s, c, rest, Split(s, c));
    }
  }

  /**
   * The last of the parts `p` of `s` split at `c` holds no `c` and ends `s`, preceded by `c` when
   * there are several parts; with one part it is `s` itself.
   */
  predicate LastPartOk(s: string, c: char, p: seq<string>)
    requires |p| >= 1
  {
    var l := p[|p| - 1];
    c !in l && EndsWith(s, l) && (|p| > 1 ==> EndsWith(s, [c] + l)) && (|p| == 1 ==> l == s)
  }

  /** The step of `SplitLast`: from the parts of the tail to the parts of the whole. */
  lemma LastPartStep(s: string, c: char, rest: seq<string>, p: seq<string>)
    requires |s| > 0 && |rest| >= 1 && LastPartOk(s[1..], c, rest)
    requires p == if s[0] == c then [""] + rest else [[s[0]] + rest[0]] + rest[1..]
    ensures LastPartOk(s, c, p)
  {
    var l := rest[|rest| - 1];
    if s[0] == c || |rest| > 1 {
      assert p[|p| - 1] == l;
      EndsWithTail(s, l);
      if |rest| == 1 {
        assert s == [c] + s[1..];
      } else {
        EndsWithTail(s, [c] + l);
      }
    } else {
      assert s == [s[0]] + s[1..];
    }
  }

  /** A suffix of the tail is a suffix of the whole. */
  lemma EndsWithTail(s: string, l: string)
    requires |s| > 0 && EndsWith(s[1..], l)
    ensures EndsWith(s, l)
  {
    assert s[|s| - |l|..] == s[1..][|s| - 1 - |l|..];
  }

  lemma {:induction false} SplitOfJoin(parts: seq<string>, c: char)
    requires |parts| >= 1
    requires forall k :: 0 <= k < |parts| ==> c !in parts[k]
    ensures Split(Join(parts, [c]), c) == parts
    decreases |parts|
  {
    if |parts| == 1 {
      SplitNoSep(parts[0], c);
    } else {
      SplitOfJoin(parts[1..], c);
      SplitNoSep(parts[0], c);
      SplitAround(parts[0], c, Join(parts[1..], [c]));
      assert [parts[0]] + parts[1..] == parts;
    }
  }

  /** `s.replace(o, n)` for a non-empty `o`: every non-overlapping occurrence, left to right. */
  function ReplaceAll(s: string, o: string, n: string): string
    requires |o| > 0
    decreases |s|
  {
    if StartsWith(s, o) then n + ReplaceAll(s[|o|..], o, n)
    else if |s| == 0 then ""
    else [s[0]] + ReplaceAll(s[1..], o, n)
  }

  /** Replacing a single character removes every occurrence of it. */
  lemma {:induction false} ReplaceCharRemoves(s: string, c: char, n: string)
    requires c !in n
    ensures c !in ReplaceAll(s, [c], n)
    decreases |s|
  {
    if StartsWith(s, [c]) {
      ReplaceCharRemoves(s[1..], c, n);
    } else if |s| > 0 {
      ReplaceCharRemoves(s[1..], c, n);
    }
  }

  /** Replacing never introduces a character absent from both the text and the replacement. */
  lemma {:induction false} ReplaceKeepsAbsent(s: string, o: string, n: string, d: char)
    requires |o| > 0 && d !in s && d !in n
    ensures d !in ReplaceAll(s, o, n)
    decreases |s|
  {
    if StartsWith(s, o) {
      ReplaceKeepsAbsent(s[|o|..], o, n, d);
    } else if |s| > 0 {
      ReplaceKeepsAbsent(s[1..], o, n, d);
    }
  }

  /** Replacing one character by another maps the string position by position. */
  lemma {:induction false} ReplaceCharMap(s: string, c: char, d: char)
    ensures |ReplaceAll(s, [c], [d])| == |s|
    ensures forall i :: 0 <= i < |s| ==> ReplaceAll(s, [c], [d])[i] == (if s[i] == c then d else s[i])
    decreases |s|
  {
    if |s| > 0 {
      ReplaceCharMap(s[1..], c, d);
      var t := ReplaceAll(s[1..], [c], [d]);
      if StartsWith(s, [c]) {
        assert s[0] == c && ReplaceAll(s, [c], [d]) == [d] + t;
      } else {
        assert s[0] != c && ReplaceAll(s, [c], [d]) == [s[0]] + t;
      }
    }
  }

  /** Replacing a text that does not occur leaves the string as it is. */
  lemma {:induction false} ReplaceAbsent(s: string, o: string, n: string)
    requires |o| > 0 && !Contains(s, o)
    ensures ReplaceAll(s, o, n) == s
    decreases |s|
  {
    if |s| > 0 {
      ReplaceAbsent(s[1..], o, n);
    }
  }

  /** `s.lstrip()`: a suffix of `s` that does not start with whitespace. */
  function LStrip(s: string): (r: string)
    ensures |r| <= |s|
    ensures |r| == 0 || !IsSpace(r[0])
    decreases |s|
  {
    if |s| > 0 && IsSpace(s[0]) then LStrip(s[1..]) else s
  }

  /** `lstrip` removes a prefix, and what it removes is whitespace. */
  lemma {:induction false} LStripSpaces(s: string)
    ensures LStrip(s) == s[|s| - |LStrip(s)|..]
    ensures forall i :: 0 <= i < |s| - |LStrip(s)| ==> IsSpace(s[i])
    decreases |s|
  {
    if |s| > 0 && IsSpace(s[0]) {
      LStripSpaces(s[1..]);
    }
  }

  /** `s.rstrip()`: a prefix of `s` that does not end with whitespace. */
  function RStrip(s: string): (r: string)
    ensures |r| <= |s|
    ensures |r| == 0 || !IsSpace(r[|r| - 1])
    decreases |s|
  {
    if |s| > 0 && IsSpace(s[|s| - 1]) then RStrip(s[..|s| - 1]) else s
  }

  /** `rstrip` removes a suffix, and what it removes is whitespace. */
  lemma {:induction false} RStripSpaces(s: string)
    ensures RStrip(s) == s[..|RStrip(s)|]
    ensures forall i :: |RStrip(s)| <= i < |s| ==> IsSpace(s[i])
    decreases |s|
  {
    if |s| > 0 && IsSpace(s[|s| - 1]) {
      RStripSpaces(s[..|s| - 1]);
    }
  }

  /** `s.strip()`: leading and trailing whitespace removed. */
  function Strip(s: string): (r: string)
    ensures |r| <= |s|
    ensures |r| == 0 || (!IsSpace(r[0]) && !IsSpace(r[|r| - 1]))
  {
    RStripSpaces(LStrip(s));
    RStrip(LStrip(s))
  }

  /** A text that neither starts nor ends with whitespace is its own strip. */
  lemma StripUnchanged(s: string)
    requires |s| > 0 && !IsSpace(s[0]) && !IsSpace(s[|s| - 1])
    ensures Strip(s) == s
  {
    assert LStrip(s) == s;
    assert RStrip(s) == s;
  }

  /** Stripping leaves nothing exactly when the string is all whitespace. */
  lemma StripBlank(s: string)
    ensures Strip(s) == "" <==> forall i :: 0 <= i < |s| ==> IsSpace(s[i])
  {
    StripFacts(s);
  }

  lemma StripFacts(s: string)
    ensures var r := RStrip(LStrip(s));
      (|r| == 0 || (!IsSpace(r[0]) && !IsSpace(r[|r| - 1])))
      && (|r| == 0 <==> forall i :: 0 <= i < |s| ==> IsSpace(s[i]))
  {
    var l := LStrip(s);
    var r := RStrip(l);
    LStripSpaces(s);
    RStripSpaces(l);
    assert |r| > 0 ==> r[0] == l[0];
    if |r| > 0 {
      assert !IsSpace(s[|s| - |l|]);
    }
  }

  /** `strip` keeps a slice of the string, so it adds no character. */
  lemma StripInside(s: string, c: char)
    requires c !in s
    ensures c !in Strip(s)
  {
    var l := LStrip(s);
    LStripSpaces(s);
    RStripSpaces(l);
    assert forall i :: 0 <= i < |l| ==> l[i] == s[|s| - |l| + i];
  }

  /** A string stripped of whitespace never starts with whitespace, so never with an indent. */
  lemma StrippedNotIndented(s: string, p: string)
    requires |p| > 0 && IsSpace(p[0])
    ensures !StartsWith(Strip(s), p)
  {
  }

  /** The longest prefix of `t` free of whitespace. */
  function Word(t: string): (w: string)
    ensures |w| <= |t| && w == t[..|w|]
    ensures forall i :: 0 <= i < |w| ==> !IsSpace(w[i])
    ensures |w| < |t| ==> IsSpace(t[|w|])
    decreases |t|
  {
    if |t| == 0 || IsSpace(t[0]) then "" else [t[0]] + Word(t[1..])
  }

  /** `s.split()` with no argument: the maximal runs of non-whitespace characters. */
  function Words(s: string): (r: seq<string>)
    ensures forall k :: 0 <= k < |r| ==> |r[k]| > 0
    decreases |s|
  {
    var t := LStrip(s);
    if |t| == 0 then []
    else
      var w := Word(t);
      [w] + Words(t[|w|..])
  }

  /** The length of the longest run of accepted characters starting at `i`. */
  function Span(s: string, i: nat, accept: char -> bool): (n: nat)
    requires i <= |s|
    ensures i + n <= |s|
    ensures i + n == |s| || !accept(s[i + n])
    decreases |s| - i
  {
    if i == |s| || !accept(s[i]) then 0 else 1 + Span(s, i + 1, accept)
  }

  /** Every character of the run is accepted, so the run is the longest one. */
  lemma {:induction false} SpanAccepts(s: string, i: nat, accept: char -> bool)
    requires i <= |s|
    ensures forall k :: i <= k < i + Span(s, i, accept) ==> accept(s[k])
    decreases |s| - i
  {
    if i < |s| && accept(s[i]) {
      SpanAccepts(s, i + 1, accept);
    }
  }

  /** A rejected character does not occur in the span. */
  lemma SpanExcludes(s: string, i: nat, accept: char -> bool, c: char)
    requires i <= |s| && !accept(c)
    ensures c !in s[i..i + Span(s, i, accept)]
  {
    SpanAccepts(s, i, accept);
  }

  /** A run of `n` accepted characters that ends at a rejected one (or at the end) is the span. */
  lemma {:induction false} SpanOf(s: string, i: nat, n: nat, accept: char -> bool)
    requires i + n <= |s| && (forall k :: i <= k < i + n ==> accept(s[k])) && (i + n == |s| || !accept(s[i + n]))
    ensures Span(s, i, accept) == n
    decreases n
  {
    if n > 0 {
      SpanOf(s, i + 1, n - 1, accept);
    }
  }

  /**
   * `re.search` for a pattern given by what it matches at each position: the match at the lowest
   * position from `p` to `n`.
   */
  function Search<T>(at: nat -> Option<T>, p: nat, n: nat): Option<T>
    decreases n - p
  {
    if p > n then None
    else if at(p).Some? then at(p)
    else Search(at, p + 1, n)
  }

  /** The search finds the leftmost position with a match, and finds nothing only when there is none. */
  lemma {:induction false} SearchLeftmost<T>(at: nat -> Option<T>, p: nat, n: nat)
    ensures Search(at, p, n).Some? ==>
              exists q: nat :: p <= q <= n && at(q) == Search(at, p, n) && forall j: nat :: p <= j < q ==> at(j).None?
    ensures Search(at, p, n).None? <==> forall q: nat :: p <= q <= n ==> at(q).None?
    decreases n - p
  {
    if p <= n && at(p).None? {
      SearchLeftmost(at, p + 1, n);
      if Search(at, p, n).Some? {
        var q: nat :| p + 1 <= q <= n && at(q) == Search(at, p, n) && forall j: nat :: p + 1 <= j < q ==> at(j).None?;
        assert forall j: nat :: p <= j < q ==> at(j).None?;
      }
    }
  }

  /** A match at `q` with none before it is what the search finds. */
  lemma {:induction false} SearchAt<T>(at: nat -> Option<T>, p: nat, q: nat, n: nat)
    requires p <= q <= n && at(q).Some? && forall j: nat :: p <= j < q ==> at(j).None?
    ensures Search(at, p, n) == at(q)
    decreases q - p
  {
    if p < q {
      SearchAt(at, p + 1, q, n);
    }
  }

  /**
   * `re.sub` for a pattern that never matches the empty string, given by what it matches at each
   * position: the end of the match and its replacement. Matches are taken left to right, and the
   * scan resumes after each one, so replaced text is not scanned again.
   */
  function Sub(s: string, at: nat -> Option<(nat, string)>, p: nat): string
    decreases |s| - p
  {
    if p >= |s| then ""
    else if at(p).Some? && p < at(p).value.0 <= |s| then at(p).value.1 + Sub(s, at, at(p).value.0)
    else [s[p]] + Sub(s, at, p + 1)
  }

  /** Where the pattern matches nowhere from `p` on, the text is left as it is. */
  lemma {:induction false} SubNoMatch(s: string, at: nat -> Option<(nat, string)>, p: nat)
    requires p <= |s| && forall q: nat :: p <= q < |s| ==> at(q).None?
    ensures Sub(s, at, p) == s[p..]
    decreases |s| - p
  {
    if p < |s| {
      SubNoMatch(s, at, p + 1);
      assert s[p..] == [s[p]] + s[p + 1..];
    }
  }

  /** The last newline at a position from `lo` up to `hi - 1`. */
  function LastNewline(s: string, lo: nat, hi: nat): (r: Option<nat>)
    requires hi <= |s|
    ensures r.Some? ==> lo <= r.value < hi && s[r.value] == '\n' && forall j :: r.value < j < hi ==> s[j] != '\n'
    ensures r.None? ==> forall j :: lo <= j < hi ==> s[j] != '\n'
    decreases hi
  {
    if hi <= lo then None
    else if s[hi - 1] == '\n' then Some(hi - 1)
    else LastNewline(s, lo, hi - 1)
  }

  /**
   * `re.findall` for a pattern that never matches the empty string, given by what it matches at
   * each position: the end of the match and its groups. The scan resumes after each match.
   */
  function FindAll<T>(s: string, at: nat -> Option<(nat, T)>, p: nat): seq<T>
    decreases |s| - p
  {
    if p >= |s| then []
    else if at(p).Some? && p < at(p).value.0 <= |s| then [at(p).value.1] + FindAll(s, at, at(p).value.0)
    else FindAll(s, at, p + 1)
  }

  /** `findall` finds nothing exactly when the pattern matches at no position. */
  lemma {:induction false} FindAllEmpty<T>(s: string, at: nat -> Option<(nat, T)>, p: nat)
    ensures FindAll(s, at, p) == [] <==> forall q: nat :: p <= q < |s| ==> !(at(q).Some? && q < at(q).value.0 <= |s|)
    decreases |s| - p
  {
    if p < |s| && !(at(p).Some? && p < at(p).value.0 <= |s|) {
      FindAllEmpty(s, at, p + 1);
    }
  }

  /** What holds of every match the pattern can make holds of everything `findall` returns. */
  lemma {:induction false} FindAllAll<T>(s: string, at: nat -> Option<(nat, T)>, p: nat, ok: T -> bool)
    requires forall q: nat :: at(q).Some? ==> ok(at(q).value.1)
    ensures forall i :: 0 <= i < |FindAll(s, at, p)| ==> ok(FindAll(s, at, p)[i])
    decreases |s| - p
  {
    if p < |s| {
      if at(p).Some? && p < at(p).value.0 <= |s| {
        FindAllAll(s, at, at(p).value.0, ok);
      } else {
        FindAllAll(s, at, p + 1, ok);
      }
    }
  }

  /** Replacing a text that occurs only as the suffix `o` replaces just that suffix. */
  lemma {:induction false} ReplaceSuffix(s: string, o: string, n: string)
    requires |o| > 0 && forall j :: 0 <= j < |s| ==> !StartsWith((s + o)[j..], o)
    ensures ReplaceAll(s + o, o, n) == ReplaceAll(s, o, n) + n
    decreases |s|
  {
    if |s| == 0 {
      assert s + o == o;
      assert (s + o)[|o|..] == "";
    } else {
      assert !StartsWith(s + o, o) by { assert (s + o)[0..] == s + o; }
      assert (s + o)[1..] == s[1..] + o;
      forall j | 0 <= j < |s[1..]|
        ensures !StartsWith((s[1..] + o)[j..], o)
      {
        assert (s[1..] + o)[j..] == (s + o)[j + 1..];
      }
      ReplaceSuffix(s[1..], o, n);
    }
  }

  /** `s.lower()` for ASCII letters. */
  function Lower(s: string): (r: string)
    ensures |r| == |s|
    ensures forall i :: 0 <= i < |s| ==> r[i] == (if IsUpper(s[i]) then (s[i] as int + 32) as char else s[i])
  {
    if |s| == 0 then ""
    else [if IsUpper(s[0]) then (s[0] as int + 32) as char else s[0]] + Lower(s[1..])
  }

  /** `min(a, b)`. */
  function Min(a: int, b: int): int { if a <= b then a else b }

  /** `s[:n]` in Python, where a negative `n` counts from the end. */
  function PyPrefix<T>(s: seq<T>, n: int): (r: seq<T>)
    ensures n >= 0 ==> r == s[..if n <= |s| then n else |s|]
    ensures n < 0 ==> r == s[..if -n <= |s| then |s| + n else 0]
  {
    if n >= 0 then (if n <= |s| then s[..n] else s)
    else (if -n <= |s| then s[..|s| + n] else [])
  }

  /** `s * n` for a string. */
  function Repeat(s: string, n: nat): (r: string)
    ensures |r| == n * |s|
  {
    if n == 0 then "" else s + Repeat(s, n - 1)
  }

  function Reverse<T>(s: seq<T>): (r: seq<T>)
    ensures |r| == |s|
    ensures forall i :: 0 <= i < |s| ==> r[i] == s[|s| - 1 - i]
  {
    if |s| == 0 then [] else Reverse(s[1..]) + [s[0]]
  }

  function DigitChar(d: nat): char
    requires d < 10
  {
    ('0' as int + d) as char
  }

  /** `str(n)` for a natural number. */
  function NatToStr(n: nat): (r: string)
    ensures IsDigits(r)
  {
    if n < 10 then [DigitChar(n)] else NatToStr(n / 10) + [DigitChar(n % 10)]
  }

  /** `str(i)` for an integer. */
  function IntToStr(i: int): string {
    if i < 0 then "-" + NatToStr(-i) else NatToStr(i)
  }

  /** The value of a string of ASCII digits, ignoring underscores. */
  function DecValue(s: string): nat
    decreases |s|
  {
    if |s| == 0 then 0
    else if IsDigit(s[|s| - 1]) then DecValue(s[..|s| - 1]) * 10 + (s[|s| - 1] as int - '0' as int)
    else DecValue(s[..|s| - 1])
  }

  lemma {:induction false} DecValueOfNatToStr(n: nat)
    ensures DecValue(NatToStr(n)) == n
  {
    if n >= 10 {
      var s := NatToStr(n / 10) + [DigitChar(n % 10)];
      assert s[..|s| - 1] == NatToStr(n / 10);
      DecValueOfNatToStr(n / 10);
    }
  }

  /** Digits in `accept`, with single underscores allowed only between two of them. */
  predicate UnderscoredRun(s: string, accept: char -> bool) {
    |s| > 0 && accept(s[0]) && accept(s[|s| - 1])
    && (forall i :: 0 <= i < |s| ==> accept(s[i]) || s[i] == '_')
    && (forall i :: 0 <= i < |s| - 1 ==> !(s[i] == '_' && s[i + 1] == '_'))
  }

  /** The text after an optional leading sign. */
  function Unsigned(t: string): string {
    if |t| > 0 && (t[0] == '+' || t[0] == '-') then t[1..] else t
  }

  /** `int(s)`: surrounding whitespace, a sign, ASCII digits with single underscores; else ValueError. */
  function PyInt(s: string): (r: Result<int>)
    ensures r.Ok? <==> UnderscoredRun(Unsigned(Strip(s)), IsDigit)
  {
    var t := Strip(s);
    var body := Unsigned(t);
    if !UnderscoredRun(body, IsDigit) then Err(ValueError)
    else if |t| > 0 && t[0] == '-' then Ok(0 - DecValue(body) as int)
    else Ok(DecValue(body))
  }

  /** A text of ASCII digits is read by `int()` as its decimal value. */
  lemma PyIntOfDigits(s: string)
    requires IsDigits(s)
    ensures PyInt(s) == Ok(DecValue(s))
  {
    StripUnchanged(s);
    assert Unsigned(s) == s;
  }

  lemma PyIntOfNatToStr(n: nat)
    ensures PyInt(NatToStr(n)) == Ok(n)
  {
    var s := NatToStr(n);
    assert IsDigits(s);
    PyIntOfDigits(s);
    DecValueOfNatToStr(n);
  }

  /** `int(s)` fails when the text ends in a character that is neither whitespace, a digit nor '_'. */
  lemma PyIntRejectsTrailing(s: string)
    requires |s| > 0 && !IsSpace(s[|s| - 1]) && !IsDigit(s[|s| - 1]) && s[|s| - 1] != '_'
    ensures PyInt(s).Err?
  {
    var l := LStrip(s);
    LStripSpaces(s);
    assert |l| > 0 && l[|l| - 1] == s[|s| - 1];
    var t := RStrip(l);
    assert t == l;
    var body := Unsigned(t);
    assert |body| > 0 ==> body[|body| - 1] == s[|s| - 1];
  }

  /** `int(s, 16)` succeeds: whitespace, a sign, an optional 0x prefix (an underscore may follow it), hex digits. */
  predicate IsHexInt(s: string) {
    var body := Unsigned(Strip(s));
    if |body| >= 2 && body[0] == '0' && (body[1] == 'x' || body[1] == 'X') then
      var rest := body[2..];
      UnderscoredRun(rest, IsHexDigit) || (|rest| > 0 && rest[0] == '_' && UnderscoredRun(rest[1..], IsHexDigit))
    else UnderscoredRun(body, IsHexDigit)
  }
}
