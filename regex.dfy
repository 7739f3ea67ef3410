/**
 * The fragment of Python's `re` search that two of the legacy audit patterns
 * use: alternatives of literal characters, `.` (any character but a newline)
 * and `.*`, without groups. The scanners themselves take the regular
 * expression engine as a parameter; this fragment only serves to state what
 * those two patterns, as written, can and cannot match.
 */
module Regex {
  import opened Text

  /** A literal character, or `.`. */
  datatype Atom = Char(c: char) | Any

  /** An atom on its own, or repeated any number of times (`*`). */
  datatype Item = One(atom: Atom) | Star(atom: Atom)

  /** A pattern without groups: its `|`-separated alternatives. */
  type Pattern = seq<seq<Item>>

  predicate AtomMatches(a: Atom, ch: char) {
    match a
    case Char(c) => ch == c
    case Any => ch != '\n'
  }

  /** The items match some prefix of `s`, backtracking over the stars. */
  predicate MatchHere(items: seq<Item>, s: string)
    decreases |s|, |items|
  {
    if |items| == 0 then true
    else
      match items[0]
      case One(a) => |s| > 0 && AtomMatches(a, s[0]) && MatchHere(items[1..], s[1..])
      case Star(a) => MatchHere(items[1..], s) || (|s| > 0 && AtomMatches(a, s[0]) && MatchHere(items, s[1..]))
  }

  /** Some alternative matches at the start of `s`. */
  predicate MatchAt(p: Pattern, s: string) {
    exists k :: 0 <= k < |p| && MatchHere(p[k], s)
  }

  /** `re.search`: the pattern matches at some position of `s`. */
  predicate Search(p: Pattern, s: string)
    decreases |s|
  {
    MatchAt(p, s) || (|s| > 0 && Search(p, s[1..]))
  }

  /** The items that match the characters of `w` literally. */
  function Literal(w: string): (r: seq<Item>)
    ensures |r| == |w|
    ensures forall i :: 0 <= i < |w| ==> r[i] == One(Char(w[i]))
  {
    seq(|w|, i requires 0 <= i < |w| => One(Char(w[i])))
  }

  /** A literal matches at the start of `s` exactly when it is a prefix of `s`. */
  lemma {:induction false} LiteralMatch(w: string, s: string)
    ensures MatchHere(Literal(w), s) <==> IsPrefix(w, s)
    decreases |w|
  {
    if |w| > 0 {
      LiteralMatch(w[1..], if |s| > 0 then s[1..] else s);
      assert Literal(w)[1..] == Literal(w[1..]);
      if |s| > 0 && s[0] == w[0] {
        assert IsPrefix(w, s) <==> IsPrefix(w[1..], s[1..]);
      }
    }
  }

  /** A literal followed by more items matches when the literal is a prefix and
      the rest matches after it. */
  lemma {:induction false} LiteralThen(w: string, rest: seq<Item>, s: string)
    requires IsPrefix(w, s) && MatchHere(rest, s[|w|..])
    ensures MatchHere(Literal(w) + rest, s)
    decreases |w|
  {
    if |w| > 0 {
      assert (Literal(w) + rest)[0] == One(Char(w[0]));
      assert (Literal(w) + rest)[1..] == Literal(w[1..]) + rest;
      assert s[1..][|w| - 1..] == s[|w|..];
      LiteralThen(w[1..], rest, s[1..]);
    } else {
      assert Literal(w) + rest == rest && s[|w|..] == s;
    }
  }

  /**
   * A character that an alternative needs on its own (not under a star) must
   * occur in the subject for that alternative to match.
   */
  lemma {:induction false} RequiredCharMissing(items: seq<Item>, s: string, c: char)
    requires One(Char(c)) in items && c !in s
    ensures !MatchHere(items, s)
    decreases |s|, |items|
  {
    if items[0] == One(Char(c)) {
      assert |s| == 0 || s[0] != c;
    } else {
      assert One(Char(c)) in items[1..];
      match items[0]
      case One(a) =>
        if |s| > 0 {
          assert c !in s[1..];
          RequiredCharMissing(items[1..], s[1..], c);
        }
      case Star(a) =>
        RequiredCharMissing(items[1..], s, c);
        if |s| > 0 {
          assert c !in s[1..];
          RequiredCharMissing(items, s[1..], c);
        }
    }
  }

  /** When every alternative needs a character that the subject lacks, the
      pattern is found nowhere in it. */
  lemma {:induction false} SearchNeedsChars(p: Pattern, required: seq<char>, s: string)
    requires |required| == |p|
    requires forall k :: 0 <= k < |p| ==> One(Char(required[k])) in p[k] && required[k] !in s
    ensures !Search(p, s)
    decreases |s|
  {
    forall k | 0 <= k < |p| ensures !MatchHere(p[k], s) {
      RequiredCharMissing(p[k], s, required[k]);
    }
    if |s| > 0 {
      SearchNeedsChars(p, required, s[1..]);
    }
  }

  /** The alternatives that match the given words literally. */
  function Literals(words: seq<string>): (p: Pattern)
    ensures |p| == |words|
    ensures forall k :: 0 <= k < |words| ==> p[k] == Literal(words[k])
  {
    seq(|words|, k requires 0 <= k < |words| => Literal(words[k]))
  }

  /** An alternation of literal words is found exactly in the lines that contain one of the words. */
  lemma {:induction false} SearchLiterals(words: seq<string>, s: string)
    ensures Search(Literals(words), s) <==> exists k :: 0 <= k < |words| && Contains(s, words[k])
    decreases |s|
  {
    var p := Literals(words);
    forall k | 0 <= k < |words| ensures MatchHere(p[k], s) <==> IsPrefix(words[k], s) {
      LiteralMatch(words[k], s);
    }
    if |s| > 0 {
      SearchLiterals(words, s[1..]);
    }
  }
}
