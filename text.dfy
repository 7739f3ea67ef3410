/**
 * The Python `str` operations that both scanners rely on, over `string`
 * (a sequence of Unicode scalar values): substring search, ASCII lower-casing,
 * `split`, `join`, `readlines`, `splitlines`, `strip`/`rstrip`, integer
 * formatting and code-point ordering of strings.
 */
module Text {

  /**
   * The regular-expression engine (Python's `re.search`), which is not part of
   * this model: does the pattern whose source text is the first argument match
   * somewhere in the second?
   */
  type RegexSearch = (string, string) -> bool

  // ---------------------------------------------------------------------------
  // Substrings

  /** `pre` is a prefix of `s` (Python `s.startswith(pre)`). */
  predicate IsPrefix(pre: string, s: string) {
    |pre| <= |s| && s[..|pre|] == pre
  }

  /** `suf` is a suffix of `s` (Python `s.endswith(suf)`). */
  predicate EndsWith(s: string, suf: string) {
    |suf| <= |s| && s[|s| - |suf|..] == suf
  }

  /** Python's `sub in s`: `sub` occurs somewhere in `s`. */
  predicate Contains(s: string, sub: string)
    decreases |s|
  {
    IsPrefix(sub, s) || (|s| > 0 && Contains(s[1..], sub))
  }

  /** `sub` occurs in `s` at index `i`. */
  predicate OccursAt(s: string, sub: string, i: int) {
    0 <= i && i + |sub| <= |s| && s[i..i + |sub|] == sub
  }

  /** An occurrence at a position makes `Contains` true. */
  lemma {:induction false} OccursImpliesContains(s: string, sub: string, i: int)
    requires OccursAt(s, sub, i)
    ensures Contains(s, sub)
    decreases i
  {
    if i == 0 {
      assert IsPrefix(sub, s);
    } else {
      assert s[1..][i - 1..i - 1 + |sub|] == s[i..i + |sub|];
      OccursImpliesContains(s[1..], sub, i - 1);
    }
  }

  /** `Contains` agrees with the positional definition of an occurrence. */
  lemma {:induction false} ContainsIffOccurs(s: string, sub: string)
    ensures Contains(s, sub) <==> exists i :: OccursAt(s, sub, i)
    decreases |s|
  {
    forall i | OccursAt(s, sub, i) ensures Contains(s, sub) {
      OccursImpliesContains(s, sub, i);
    }
    if IsPrefix(sub, s) {
      assert OccursAt(s, sub, 0);
    } else if |s| > 0 && Contains(s[1..], sub) {
      ContainsIffOccurs(s[1..], sub);
      var i :| OccursAt(s[1..], sub, i);
      assert s[i + 1..i + 1 + |sub|] == s[1..][i..i + |sub|];
      assert OccursAt(s, sub, i + 1);
    }
  }

  /** An occurrence in a part is an occurrence in the whole. */
  lemma ContainsInConcat(a: string, b: string, sub: string)
    ensures Contains(a, sub) ==> Contains(a + b, sub)
    ensures Contains(b, sub) ==> Contains(a + b, sub)
  {
    ContainsIffOccurs(a, sub);
    ContainsIffOccurs(b, sub);
    ContainsIffOccurs(a + b, sub);
    if Contains(a, sub) {
      var i :| OccursAt(a, sub, i);
      assert (a + b)[i..i + |sub|] == a[i..i + |sub|];
      assert OccursAt(a + b, sub, i);
    }
    if Contains(b, sub) {
      var i :| OccursAt(b, sub, i);
      assert (a + b)[|a| + i..|a| + i + |sub|] == b[i..i + |sub|];
      assert OccursAt(a + b, sub, |a| + i);
    }
  }

  // ---------------------------------------------------------------------------
  // Case folding

  /** Lower-case of one character; only the ASCII letters change. */
  function LowerChar(c: char): char {
    if 'A' <= c <= 'Z' then (c as int + 32) as char else c
  }

  /** Python's `s.lower()`, restricted to ASCII case folding. */
  function Lower(s: string): (r: string)
    ensures |r| == |s|
    ensures forall i :: 0 <= i < |s| ==> r[i] == LowerChar(s[i])
  {
    seq(|s|, i requires 0 <= i < |s| => LowerChar(s[i]))
  }

  // ---------------------------------------------------------------------------
  // Subsequences

  /** `sub` is `s` with some elements left out and the rest in their order:
      `idx` lists, increasing, the positions in `s` that were kept. */
  predicate SubsequenceAt<T(==)>(idx: seq<nat>, sub: seq<T>, s: seq<T>) {
    && |idx| == |sub|
    && (forall k :: 0 <= k < |idx| ==> idx[k] < |s| && s[idx[k]] == sub[k])
    && (forall k :: 0 < k < |idx| ==> idx[k - 1] < idx[k])
  }

  /** Positions one further on. */
  function Shifted(idx: seq<nat>): (r: seq<nat>)
    ensures |r| == |idx| && forall k :: 0 <= k < |r| ==> r[k] == idx[k] + 1
  {
    seq(|idx|, k requires 0 <= k < |idx| => idx[k] + 1)
  }

  /** An element put in front of the sequence may be dropped or kept. */
  lemma SubsequenceCons<T>(idx: seq<nat>, sub: seq<T>, s: seq<T>, x: T)
    requires SubsequenceAt(idx, sub, s)
    ensures SubsequenceAt(Shifted(idx), sub, [x] + s)
    ensures SubsequenceAt([0] + Shifted(idx), [x] + sub, [x] + s)
  {
    var sh := Shifted(idx);
    assert forall k :: 0 <= k < |sh| ==> ([x] + s)[sh[k]] == s[idx[k]];
  }

  /** An element put at the end of the sequence may be dropped or kept. */
  lemma SubsequenceSnoc<T>(idx: seq<nat>, sub: seq<T>, s: seq<T>, x: T)
    requires SubsequenceAt(idx, sub, s)
    ensures SubsequenceAt(idx, sub, s + [x])
    ensures SubsequenceAt(idx + [|s|], sub + [x], s + [x])
  {
    var idx2, sub2 := idx + [|s|], sub + [x];
    assert forall k :: 0 <= k < |idx| ==> (s + [x])[idx[k]] == s[idx[k]];
    assert forall k :: 0 <= k < |idx2| ==> idx2[k] < |s| + 1 && (s + [x])[idx2[k]] == sub2[k] by {
      forall k | 0 <= k < |idx2|
        ensures idx2[k] < |s| + 1 && (s + [x])[idx2[k]] == sub2[k]
      {
        if k < |idx| {
          assert idx2[k] == idx[k] && sub2[k] == sub[k];
        }
      }
    }
  }

  // ---------------------------------------------------------------------------
  // Splitting and joining

  /** Python's `s.split(sep)` for a one-character separator. */
  function Split(s: string, sep: char): (parts: seq<string>)
    ensures |parts| >= 1
    ensures forall k :: 0 <= k < |parts| ==> sep !in parts[k]
    decreases |s|
  {
    if |s| == 0 then [""]
    else
      var rest := Split(s[1..], sep);
      if s[0] == sep then [""] + rest
      else [[s[0]] + rest[0]] + rest[1..]
  }

  /** Python's `sep.join(parts)`. */
  function Join(parts: seq<string>, sep: string): string
    decreases |parts|
  {
    if |parts| == 0 then ""
    else if |parts| == 1 then parts[0]
    else parts[0] + sep + Join(parts[1..], sep)
  }

  /** A join starts with its first part. */
  lemma JoinStartsWithFirst(parts: seq<string>, sep: string)
    requires |parts| >= 1
    ensures IsPrefix(parts[0], Join(parts, sep))
  {
    if |parts| > 1 {
      var j := parts[0] + sep + Join(parts[1..], sep);
      assert j[..|parts[0]|] == parts[0];
    }
  }

  /** A join ends with its last part. */
  lemma {:induction false} JoinEndsWithLast(parts: seq<string>, sep: string)
    requires |parts| >= 1
    ensures EndsWith(Join(parts, sep), parts[|parts| - 1])
    decreases |parts|
  {
    if |parts| > 1 {
      var last := parts[|parts| - 1];
      var rest := Join(parts[1..], sep);
      JoinEndsWithLast(parts[1..], sep);
      assert parts[1..][|parts[1..]| - 1] == last;
      var head := parts[0] + sep;
      assert Join(parts, sep) == head + rest;
      assert (head + rest)[|head + rest| - |last|..] == rest[|rest| - |last|..];
    }
  }

  /** Joining the pieces of a split with the separator gives the text back. */
  lemma {:induction false} JoinSplit(s: string, sep: char)
    ensures Join(Split(s, sep), [sep]) == s
    decreases |s|
  {
    if |s| > 0 {
      var rest := Split(s[1..], sep);
      JoinSplit(s[1..], sep);
      if s[0] == sep {
        assert s == [sep] + s[1..];
      } else if |rest| == 1 {
        assert s == [s[0]] + s[1..];
      } else {
        assert Join(rest, [sep]) == rest[0] + [sep] + Join(rest[1..], [sep]);
        assert s == [s[0]] + s[1..];
      }
    }
  }

  /** Splitting a join of separator-free pieces gives the pieces back. */
  lemma {:induction false} SplitJoin(parts: seq<string>, sep: char)
    requires |parts| >= 1
    requires forall k :: 0 <= k < |parts| ==> sep !in parts[k]
    ensures Split(Join(parts, [sep]), sep) == parts
    decreases |parts|, |parts[0]|
  {
    var p := parts[0];
    if |p| == 0 {
      if |parts| > 1 {
        SplitJoin(parts[1..], sep);
        var j := Join(parts, [sep]);
        assert j == [sep] + Join(parts[1..], [sep]);
        assert j[1..] == Join(parts[1..], [sep]);
        assert parts == [""] + parts[1..];
      }
    } else {
      var tail := [p[1..]] + parts[1..];
      assert tail[1..] == parts[1..];
      SplitJoin(tail, sep);
      var j := Join(parts, [sep]);
      if |parts| == 1 {
        assert j[1..] == Join(tail, [sep]);
      } else {
        assert j == p + [sep] + Join(parts[1..], [sep]);
        assert j[1..] == p[1..] + [sep] + Join(parts[1..], [sep]);
        assert j[1..] == Join(tail, [sep]);
      }
      assert j[0] == p[0] && p[0] != sep;
      assert [p[0]] + p[1..] == p;
      assert parts == [p] + tail[1..];
    }
  }

  /** Appending is associative (stated once so that long appends stay cheap). */
  lemma AppendAssoc<T>(a: seq<T>, b: seq<T>, c: seq<T>)
    ensures (a + b) + c == a + (b + c)
  {
  }

  /** Concatenation of a sequence of strings. */
  function Concat(parts: seq<string>): string
    decreases |parts|
  {
    if |parts| == 0 then "" else parts[0] + Concat(parts[1..])
  }

  /**
   * Python's `f.readlines()` on a file opened in text mode, given the text
   * after newline translation: every line keeps its terminating `'\n'`, and a
   * last line without one is kept if it is not empty.
   */
  function ReadLines(t: string): (lines: seq<string>)
    ensures forall k :: 0 <= k < |lines| ==> |lines[k]| > 0
    decreases |t|
  {
    if |t| == 0 then []
    else
      var rest := ReadLines(t[1..]);
      if t[0] == '\n' then ["\n"] + rest
      else if |rest| == 0 then [[t[0]]]
      else [[t[0]] + rest[0]] + rest[1..]
  }

  /** The lines read from a text are the text, cut into pieces. */
  lemma {:induction false} ConcatReadLines(t: string)
    ensures Concat(ReadLines(t)) == t
    decreases |t|
  {
    if |t| > 0 {
      var rest := ReadLines(t[1..]);
      ConcatReadLines(t[1..]);
      if t[0] == '\n' {
        assert t == "\n" + t[1..];
      } else if |rest| == 0 {
        assert t == [t[0]];
      } else {
        assert Concat(rest) == rest[0] + Concat(rest[1..]);
        assert t == [t[0]] + t[1..];
      }
    }
  }

  /** A line boundary of Python's `str.splitlines` (`\r\n` is handled apart). */
  predicate IsLineBoundary(c: char) {
    c == '\n' || c == '\r' || c == '\U{0B}' || c == '\U{0C}'
    || c == '\U{1C}' || c == '\U{1D}' || c == '\U{1E}'
    || c == '\U{85}' || c == '\U{2028}' || c == '\U{2029}'
  }

  /** Python's `text.splitlines()`: boundaries are dropped, no trailing empty line. */
  function SplitLines(t: string): (lines: seq<string>)
    ensures |lines| <= |t|
    decreases |t|
  {
    if |t| == 0 then []
    else if t[0] == '\r' && |t| >= 2 && t[1] == '\n' then [""] + SplitLines(t[2..])
    else if IsLineBoundary(t[0]) then [""] + SplitLines(t[1..])
    else
      var rest := SplitLines(t[1..]);
      if |rest| == 0 then [[t[0]]] else [[t[0]] + rest[0]] + rest[1..]
  }

  /** No line produced by `splitlines` holds a line boundary. */
  lemma {:induction false} SplitLinesHaveNoBoundary(t: string)
    ensures forall k, j :: 0 <= k < |SplitLines(t)| && 0 <= j < |SplitLines(t)[k]| ==>
              !IsLineBoundary(SplitLines(t)[k][j])
    decreases |t|
  {
    if |t| == 0 {
    } else if t[0] == '\r' && |t| >= 2 && t[1] == '\n' {
      SplitLinesHaveNoBoundary(t[2..]);
    } else if IsLineBoundary(t[0]) {
      SplitLinesHaveNoBoundary(t[1..]);
    } else {
      SplitLinesHaveNoBoundary(t[1..]);
    }
  }

  /** Every line read but the last ends at its newline, and no line holds a
      newline before its last character. */
  lemma {:induction false} ReadLinesEndAtNewlines(t: string)
    ensures forall k :: 0 <= k < |ReadLines(t)| - 1 ==> ReadLines(t)[k][|ReadLines(t)[k]| - 1] == '\n'
    ensures forall k, j :: 0 <= k < |ReadLines(t)| && 0 <= j < |ReadLines(t)[k]| - 1 ==> ReadLines(t)[k][j] != '\n'
    decreases |t|
  {
    if |t| > 0 {
      ReadLinesEndAtNewlines(t[1..]);
      var rest := ReadLines(t[1..]);
      var lines := ReadLines(t);
      if t[0] == '\n' {
        assert lines == ["\n"] + rest;
        forall k | 0 <= k < |lines| - 1 ensures lines[k][|lines[k]| - 1] == '\n' {
          if k > 0 { assert lines[k] == rest[k - 1]; }
        }
        forall k, j | 0 <= k < |lines| && 0 <= j < |lines[k]| - 1 ensures lines[k][j] != '\n' {
          assert k > 0 && lines[k] == rest[k - 1];
        }
      } else if |rest| > 0 {
        var first := [t[0]] + rest[0];
        assert lines == [first] + rest[1..];
        forall k | 0 <= k < |lines| - 1 ensures lines[k][|lines[k]| - 1] == '\n' {
          if k > 0 { assert lines[k] == rest[k]; }
          else { assert first[|first| - 1] == rest[0][|rest[0]| - 1]; }
        }
        forall k, j | 0 <= k < |lines| && 0 <= j < |lines[k]| - 1 ensures lines[k][j] != '\n' {
          if k > 0 { assert lines[k] == rest[k]; }
          else if j > 0 { assert first[j] == rest[0][j - 1]; }
        }
      } else {
        assert lines == [[t[0]]];
      }
    }
  }

  /** The text has no line boundary other than `'\n'`. */
  predicate OnlyNewlineBreaks(t: string) {
    forall i :: 0 <= i < |t| ==> t[i] == '\n' || !IsLineBoundary(t[i])
  }

  /** On text whose only line boundary is `'\n'`, `splitlines` is `split('\n')`
      without the empty piece after a final newline. */
  lemma {:induction false} SplitLinesOfNewlineText(t: string)
    requires OnlyNewlineBreaks(t)
    ensures Split(t, '\n') == SplitLines(t) + (if |t| == 0 || t[|t| - 1] == '\n' then [""] else [])
    decreases |t|
  {
    if |t| > 0 {
      var u := t[1..];
      assert OnlyNewlineBreaks(u) by {
        forall i | 0 <= i < |u| ensures u[i] == '\n' || !IsLineBoundary(u[i]) {
          assert u[i] == t[i + 1];
        }
      }
      SplitLinesOfNewlineText(u);
      var pieces := Split(u, '\n');
      var rest := SplitLines(u);
      var tailPiece: seq<string> := if |u| == 0 || u[|u| - 1] == '\n' then [""] else [];
      assert pieces == rest + tailPiece;
      if |u| > 0 {
        assert t[|t| - 1] == u[|u| - 1];
      }
      if t[0] == '\n' {
        assert Split(t, '\n') == [""] + pieces;
        assert SplitLines(t) == [""] + rest;
      } else {
        assert t[0] == t[0] && !IsLineBoundary(t[0]);
        assert Split(t, '\n') == [[t[0]] + pieces[0]] + pieces[1..];
        if |rest| == 0 {
          assert |u| == 0 && pieces == [""];
          assert [t[0]] + pieces[0] == [t[0]];
          assert SplitLines(t) == [[t[0]]];
        } else {
          assert SplitLines(t) == [[t[0]] + rest[0]] + rest[1..];
          assert pieces[0] == rest[0];
          assert pieces[1..] == rest[1..] + tailPiece;
        }
      }
    }
  }

  // ---------------------------------------------------------------------------
  // Whitespace

  /** The characters Python's `str.isspace` accepts. */
  predicate IsSpace(c: char) {
    ('\t' <= c <= '\r') || ('\U{1C}' <= c <= ' ')
    || c == '\U{85}' || c == '\U{A0}' || c == '\U{1680}'
    || ('\U{2000}' <= c <= '\U{200A}') || c == '\U{2028}' || c == '\U{2029}'
    || c == '\U{202F}' || c == '\U{205F}' || c == '\U{3000}'
  }

  /** Python's `s.rstrip()`: drops the whitespace at the end. */
  function RStrip(s: string): string
    decreases |s|
  {
    if |s| == 0 || !IsSpace(s[|s| - 1]) then s else RStrip(s[..|s| - 1])
  }

  /** `rstrip` keeps the longest prefix that does not end in whitespace. */
  lemma {:induction false} RStripTrims(s: string)
    ensures IsPrefix(RStrip(s), s)
    ensures RStrip(s) == [] || !IsSpace(RStrip(s)[|RStrip(s)| - 1])
    ensures forall k :: |RStrip(s)| <= k < |s| ==> IsSpace(s[k])
    decreases |s|
  {
    if |s| > 0 && IsSpace(s[|s| - 1]) {
      var t := s[..|s| - 1];
      RStripTrims(t);
      assert RStrip(s) == RStrip(t);
      assert forall k :: |RStrip(s)| <= k < |t| ==> s[k] == t[k];
      assert s[..|RStrip(s)|] == t[..|RStrip(s)|];
    }
  }

  /** `rstrip` keeps a prefix that ends in a non-blank character. */
  lemma RStripKeepsPrefix(p: string, s: string)
    requires IsPrefix(p, s) && |p| >= 1 && !IsSpace(p[|p| - 1])
    ensures IsPrefix(p, RStrip(s))
  {
    RStripTrims(s);
    assert s[|p| - 1] == p[|p| - 1];
  }

  /** Python's `s.lstrip()`: drops the whitespace at the start. */
  function LStrip(s: string): string
    decreases |s|
  {
    if |s| == 0 || !IsSpace(s[0]) then s else LStrip(s[1..])
  }

  /** `lstrip` keeps the longest suffix that does not start with whitespace. */
  lemma {:induction false} LStripTrims(s: string)
    ensures EndsWith(s, LStrip(s))
    ensures LStrip(s) == [] || !IsSpace(LStrip(s)[0])
    ensures forall k :: 0 <= k < |s| - |LStrip(s)| ==> IsSpace(s[k])
    decreases |s|
  {
    if |s| > 0 && IsSpace(s[0]) {
      var r := LStrip(s[1..]);
      LStripTrims(s[1..]);
      assert LStrip(s) == r;
      assert s[1..][|s| - 1 - |r|..] == s[|s| - |r|..];
      assert forall k :: 1 <= k < |s| - |r| ==> s[k] == s[1..][k - 1];
    }
  }

  /** Python's `s.strip()`. */
  function Strip(s: string): string {
    LStrip(RStrip(s))
  }

  /** `strip` leaves a piece of the string that neither starts nor ends with
      whitespace, and stripping it again changes nothing. */
  lemma StripTrims(s: string)
    ensures Strip(s) == [] || (!IsSpace(Strip(s)[0]) && !IsSpace(Strip(s)[|Strip(s)| - 1]))
    ensures |Strip(s)| <= |s|
    ensures Strip(Strip(s)) == Strip(s)
  {
    var right := RStrip(s);
    var r := Strip(s);
    RStripTrims(s);
    LStripTrims(right);
    if r != [] {
      assert r[|r| - 1] == right[|right| - 1];
    }
  }

  // ---------------------------------------------------------------------------
  // Decimal formatting

  /** The decimal digit for `d`. */
  function DigitChar(d: nat): char
    requires d < 10
  {
    ('0' as int + d) as char
  }

  /** Python's `str(n)` for a non-negative integer. */
  function NatToString(n: nat): (r: string)
    ensures |r| >= 1
    ensures forall k :: 0 <= k < |r| ==> '0' <= r[k] <= '9'
    ensures |r| > 1 ==> r[0] != '0'
    decreases n
  {
    if n < 10 then [DigitChar(n)] else NatToString(n / 10) + [DigitChar(n % 10)]
  }

  /** The value of a string of decimal digits. */
  function DecimalValue(s: string): nat
    requires forall k :: 0 <= k < |s| ==> '0' <= s[k] <= '9'
    decreases |s|
  {
    if |s| == 0 then 0
    else 10 * DecimalValue(s[..|s| - 1]) + (s[|s| - 1] as int - '0' as int)
  }

  /** Reading back the decimal text of `n` gives `n`. */
  lemma {:induction false} DecimalValueOfNatToString(n: nat)
    ensures DecimalValue(NatToString(n)) == n
    decreases n
  {
    if n >= 10 {
      DecimalValueOfNatToString(n / 10);
      var r := NatToString(n);
      assert r[..|r| - 1] == NatToString(n / 10);
    }
  }

  // ---------------------------------------------------------------------------
  // Ordering

  /** Python's `a < b` on strings: lexicographic order by code point. */
  predicate Less(a: string, b: string)
    decreases |a|
  {
    if |a| == 0 then |b| > 0
    else if |b| == 0 then false
    else if a[0] != b[0] then a[0] < b[0]
    else Less(a[1..], b[1..])
  }

  lemma {:induction false} LessIrreflexive(a: string)
    ensures !Less(a, a)
    decreases |a|
  {
    if |a| > 0 { LessIrreflexive(a[1..]); }
  }

  lemma {:induction false} LessTransitive(a: string, b: string, c: string)
    requires Less(a, b) && Less(b, c)
    ensures Less(a, c)
    decreases |a|
  {
    if |a| > 0 && a[0] == b[0] && b[0] == c[0] {
      LessTransitive(a[1..], b[1..], c[1..]);
    }
  }

  /** Any two different strings are ordered one way or the other. */
  lemma {:induction false} LessTotal(a: string, b: string)
    requires a != b
    ensures Less(a, b) || Less(b, a)
    decreases |a|
  {
    if |a| > 0 && |b| > 0 && a[0] == b[0] {
      assert a == [a[0]] + a[1..] && b == [b[0]] + b[1..];
      LessTotal(a[1..], b[1..]);
    }
  }

  lemma {:induction false} LessAsymmetric(a: string, b: string)
    requires Less(a, b)
    ensures !Less(b, a)
  {
    if Less(b, a) {
      LessTransitive(a, b, a);
      LessIrreflexive(a);
    }
  }

  /** Every element of `s` is strictly below the next one. */
  predicate StrictlySorted(s: seq<string>) {
    forall i, j :: 0 <= i < j < |s| ==> Less(s[i], s[j])
  }

  /** `m` is the smallest member of `keys`. */
  predicate IsLeast(m: string, keys: set<string>) {
    m in keys && forall k :: k in keys ==> k == m || Less(m, k)
  }

  /** A non-empty finite set of strings has a least member, and only one. */
  lemma {:induction false} LeastExists(keys: set<string>)
    requires keys != {}
    ensures exists m :: IsLeast(m, keys)
    ensures forall a, b :: IsLeast(a, keys) && IsLeast(b, keys) ==> a == b
    decreases keys
  {
    var x :| x in keys;
    if keys - {x} == {} {
      assert keys == {x};
      assert IsLeast(x, keys);
    } else {
      LeastExists(keys - {x});
      var m :| IsLeast(m, keys - {x});
      if Less(x, m) {
        forall k | k in keys ensures k == x || Less(x, k) {
          if k != x && k != m { LessTransitive(x, m, k); }
        }
        assert IsLeast(x, keys);
      } else {
        LessTotal(x, m);
        assert IsLeast(m, keys);
      }
    }
    forall a, b | IsLeast(a, keys) && IsLeast(b, keys) ensures a == b {
      if a != b { LessAsymmetric(a, b); }
    }
  }

  /** Python's `sorted(keys)` for a set of distinct strings. */
  function SortedStrings(keys: set<string>): (r: seq<string>)
    ensures |r| == |keys|
    ensures forall k :: k in r <==> k in keys
    decreases keys
  {
    if keys == {} then []
    else
      LeastExists(keys);
      var m :| IsLeast(m, keys);
      [m] + SortedStrings(keys - {m})
  }

  /** `sorted` lists the keys in strictly ascending order, so each exactly once. */
  lemma {:induction false} SortedStringsAscending(keys: set<string>)
    ensures StrictlySorted(SortedStrings(keys))
    decreases keys
  {
    if keys != {} {
      LeastExists(keys);
      var m :| IsLeast(m, keys);
      var rest := SortedStrings(keys - {m});
      SortedStringsAscending(keys - {m});
      assert SortedStrings(keys) == [m] + rest;
      forall j | 0 <= j < |rest| ensures Less(m, rest[j]) {
        assert rest[j] in keys - {m};
      }
    }
  }


  // ---------------------------------------------------------------------------
  // File names

  /** The final `/`-separated component of a path string (pathlib's `name`). */
  function BaseName(p: string): string
    decreases |p|
  {
    if |p| == 0 || p[|p| - 1] == '/' then ""
    else BaseName(p[..|p| - 1]) + [p[|p| - 1]]
  }

  /** A base name holds no `/`. */
  lemma {:induction false} BaseNameHasNoSlash(p: string)
    ensures '/' !in BaseName(p)
    decreases |p|
  {
    if |p| > 0 && p[|p| - 1] != '/' {
      BaseNameHasNoSlash(p[..|p| - 1]);
    }
  }

  /** The base name is the part of the path after its last `/`. */
  lemma {:induction false} BaseNameIsLastComponent(p: string)
    ensures EndsWith(p, BaseName(p))
    ensures |BaseName(p)| < |p| ==> p[|p| - |BaseName(p)| - 1] == '/'
    decreases |p|
  {
    if |p| > 0 && p[|p| - 1] != '/' {
      var q := p[..|p| - 1];
      var c := p[|p| - 1];
      var r := BaseName(q);
      assert p == q + [c];
      assert BaseName(p) == r + [c];
      BaseNameIsLastComponent(q);
      assert q[|q| - |r|..] == r;
      calc {
        p[|p| - |r| - 1..];
        (q + [c])[|q| - |r|..];
        q[|q| - |r|..] + [c];
      }
      if |r| + 1 < |p| {
        assert p[|p| - |r| - 2] == q[|q| - |r| - 1];
      }
    }
  }

  /** Index of the last `c` in `s`, or -1 (Python's `s.rfind(c)`). */
  function LastIndexOf(s: string, c: char): (i: int)
    ensures -1 <= i < |s|
    decreases |s|
  {
    if |s| == 0 then -1
    else if s[|s| - 1] == c then |s| - 1
    else LastIndexOf(s[..|s| - 1], c)
  }

  /** `rfind` finds the last occurrence, and -1 only when there is none. */
  lemma {:induction false} LastIndexOfIsLast(s: string, c: char)
    ensures 0 <= LastIndexOf(s, c) ==> s[LastIndexOf(s, c)] == c
    ensures forall k :: LastIndexOf(s, c) < k < |s| ==> s[k] != c
    decreases |s|
  {
    if |s| > 0 && s[|s| - 1] != c {
      LastIndexOfIsLast(s[..|s| - 1], c);
    }
  }

  /** pathlib's `suffix` of a file name: from its last dot, unless that dot
      starts or ends the name. */
  function FileSuffix(name: string): string {
    var i := LastIndexOf(name, '.');
    if 0 < i < |name| - 1 then name[i..] else ""
  }

  /** A suffix is empty or a dot, then at least one character and no other
      dot, ending the name and not the whole of it. */
  lemma FileSuffixShape(name: string)
    ensures var r := FileSuffix(name);
            r == [] || (r[0] == '.' && |r| >= 2 && '.' !in r[1..] && EndsWith(name, r) && |r| < |name|)
  {
    var i := LastIndexOf(name, '.');
    LastIndexOfIsLast(name, '.');
    if 0 < i < |name| - 1 {
      var r := name[i..];
      assert forall k :: 1 <= k < |r| ==> r[k] == name[i + k];
    }
  }
}
