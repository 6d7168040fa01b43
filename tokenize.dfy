/**
 * The two counts the clarity rule takes: `len(body.split())`, the number of
 * words, and `len(re.split(r"[.!?]+", body))`, the number of sentence
 * fragments. Each tokeniser below follows the library function it stands
 * for, working from the front of the string; `RunCount` is an independent
 * reference count, the number of positions at which a maximal run of a
 * character class begins, and lemmas tie the two together.
 */
module Tokenize {
  import opened Text

  /** The character classes the two splitters distinguish. */
  datatype CharClass = Whitespace | NonWhitespace | Terminator | NonTerminator

  predicate InClass(c: char, k: CharClass)
  {
    match k
    case Whitespace => IsSpace(c)
    case NonWhitespace => !IsSpace(c)
    case Terminator => IsTerminator(c)
    case NonTerminator => !IsTerminator(c)
  }

  /** Position `i` of `s` begins a maximal run of class `k`. */
  predicate StartsRun(s: string, i: int, k: CharClass)
    requires 0 <= i < |s|
  {
    InClass(s[i], k) && (i == 0 || !InClass(s[i - 1], k))
  }

  /** The number of positions of `s` that begin a maximal run of class `k`, counted from the end. */
  function RunCount(s: string, k: CharClass): nat
    decreases |s|
  {
    if s == [] then 0
    else RunCount(s[..|s| - 1], k) + (if StartsRun(s, |s| - 1, k) then 1 else 0)
  }

  /** The length of the longest prefix of `s` whose characters all lie in class `k`. */
  function Span(s: string, k: CharClass): (n: nat)
    ensures n <= |s|
    ensures forall i :: 0 <= i < n ==> InClass(s[i], k)
    ensures n < |s| ==> !InClass(s[n], k)
    decreases |s|
  {
    if s == [] || !InClass(s[0], k) then 0 else 1 + Span(s[1..], k)
  }

  /**
   * `s.split()` with no separator: the maximal runs of non-whitespace
   * characters, in order; leading, trailing and repeated whitespace yields
   * no empty words.
   */
  function Words(s: string): (words: seq<string>)
    ensures forall w <- words :: w != [] && forall c <- w :: !IsSpace(c)
    decreases |s|
  {
    if s == [] then []
    else if IsSpace(s[0]) then Words(s[1..])
    else
      var n := Span(s, NonWhitespace);
      [s[..n]] + Words(s[n..])
  }

  /**
   * `re.split(r"[.!?]+", s)`: the fragments between maximal runs of
   * terminators. The fragments before a leading run and after a trailing run
   * are kept, even when empty, so there is always at least one fragment.
   */
  function Fragments(s: string): (fragments: seq<string>)
    ensures |fragments| >= 1
    ensures forall f <- fragments :: forall c <- f :: !IsTerminator(c)
    decreases |s|
  {
    var m := Span(s, NonTerminator);
    if m == |s| then [s]
    else
      var k := Span(s[m..], Terminator);
      [s[..m]] + Fragments(s[m + k..])
  }

  /** Prepending one character adds a run exactly when it is in class and does not join the run after it. */
  lemma {:induction false} RunCountCons(c: char, t: string, k: CharClass)
    ensures RunCount([c] + t, k) ==
            (if InClass(c, k) then 1 else 0) + RunCount(t, k)
            - (if InClass(c, k) && |t| > 0 && InClass(t[0], k) then 1 else 0)
    decreases |t|
  {
    var s := [c] + t;
    if t == [] {
      assert s[..|s| - 1] == [];
    } else {
      var front := t[..|t| - 1];
      assert s[..|s| - 1] == [c] + front;
      RunCountCons(c, front, k);
      if |t| >= 2 {
        assert front[0] == t[0];
      }
    }
  }

  /** A character outside the class in front of a string adds no run. */
  lemma RunCountSkip(s: string, k: CharClass)
    requires |s| > 0 && !InClass(s[0], k)
    ensures RunCount(s, k) == RunCount(s[1..], k)
  {
    assert s == [s[0]] + s[1..];
    RunCountCons(s[0], s[1..], k);
  }

  /** A prefix of `n` characters outside the class adds no run. */
  lemma {:induction false} RunCountSkipPrefix(s: string, n: nat, k: CharClass)
    requires n <= |s|
    requires forall i :: 0 <= i < n ==> !InClass(s[i], k)
    ensures RunCount(s, k) == RunCount(s[n..], k)
    decreases n
  {
    if n > 0 {
      RunCountSkip(s, k);
      assert s[1..][n - 1..] == s[n..];
      RunCountSkipPrefix(s[1..], n - 1, k);
    }
  }

  /** A maximal run of `n >= 1` characters in class at the front adds exactly one run. */
  lemma {:induction false} RunCountRun(s: string, n: nat, k: CharClass)
    requires 0 < n <= |s|
    requires forall i :: 0 <= i < n ==> InClass(s[i], k)
    requires n < |s| ==> !InClass(s[n], k)
    ensures RunCount(s, k) == 1 + RunCount(s[n..], k)
    decreases n
  {
    assert s == [s[0]] + s[1..];
    RunCountCons(s[0], s[1..], k);
    if n > 1 {
      assert s[1..][n - 1..] == s[n..];
      RunCountRun(s[1..], n - 1, k);
    }
  }

  /** The number of words is the number of maximal runs of non-whitespace. */
  lemma {:induction false} WordsCount(s: string)
    ensures |Words(s)| == RunCount(s, NonWhitespace)
    decreases |s|
  {
    if s == [] {
    } else if IsSpace(s[0]) {
      RunCountSkip(s, NonWhitespace);
      WordsCount(s[1..]);
    } else {
      var n := Span(s, NonWhitespace);
      RunCountRun(s, n, NonWhitespace);
      WordsCount(s[n..]);
    }
  }

  /** The part of `s` that `Fragments` recurses on: what follows the first fragment and the run of terminators after it. */
  function AfterFirstRun(s: string): (rest: string)
    requires Span(s, NonTerminator) < |s|
    ensures |rest| < |s|
  {
    var m := Span(s, NonTerminator);
    s[m + Span(s[m..], Terminator)..]
  }

  /**
   * Skipping the first fragment (`m` characters) and the run of `k`
   * terminators after it removes exactly one run of terminators.
   */
  lemma RunCountFirstRun(s: string, m: nat, k: nat)
    requires m == Span(s, NonTerminator) && m < |s|
    requires k == Span(s[m..], Terminator)
    ensures m + k <= |s|
    ensures RunCount(s, Terminator) == 1 + RunCount(s[m + k..], Terminator)
  {
    var rest := s[m..];
    var after := s[m + k..];
    assert rest[k..] == after;
    RunCountSkipFragment(s, m);
    RunCountDropRun(rest, k);
  }

  /** The first fragment holds no terminator, so skipping it keeps the count of terminator runs. */
  lemma RunCountSkipFragment(s: string, m: nat)
    requires m == Span(s, NonTerminator)
    ensures RunCount(s, Terminator) == RunCount(s[m..], Terminator)
  {
    assert forall i :: 0 <= i < m ==> !InClass(s[i], Terminator);
    RunCountSkipPrefix(s, m, Terminator);
  }

  /** A leading run of `k` terminators is exactly one run. */
  lemma RunCountDropRun(rest: string, k: nat)
    requires |rest| > 0 && !InClass(rest[0], NonTerminator)
    requires k == Span(rest, Terminator)
    ensures RunCount(rest, Terminator) == 1 + RunCount(rest[k..], Terminator)
  {
    RunCountRun(rest, k, Terminator);
  }

  /** The number of fragments is one more than the number of maximal runs of terminators. */
  lemma {:induction false} FragmentsCount(s: string)
    ensures |Fragments(s)| == 1 + RunCount(s, Terminator)
    decreases |s|
  {
    var m := Span(s, NonTerminator);
    if m < |s| {
      var after := AfterFirstRun(s);
      assert RunCount(s, Terminator) == 1 + RunCount(after, Terminator) by {
        RunCountFirstRun(s, m, Span(s[m..], Terminator));
      }
      assert Fragments(s) == [s[..m]] + Fragments(after);
      FragmentsCount(after);
    } else {
      RunCountSkipPrefix(s, m, Terminator);
    }
  }

  /** The words are the non-whitespace characters of the text, in order, cut at whitespace. */
  lemma {:induction false} WordsKeepText(s: string)
    ensures Concat(Words(s)) == Strip(s)
    decreases |s|
  {
    if s == [] {
    } else if IsSpace(s[0]) {
      WordsKeepText(s[1..]);
    } else {
      var n := Span(s, NonWhitespace);
      WordsKeepText(s[n..]);
      StripPrefix(s, n);
      ConcatCons(s[..n], Words(s[n..]));
    }
  }

  /** The characters of `s` that are not whitespace, in order. */
  function Strip(s: string): string
    decreases |s|
  {
    if s == [] then [] else (if IsSpace(s[0]) then [] else [s[0]]) + Strip(s[1..])
  }

  function Concat(parts: seq<string>): string
  {
    if parts == [] then [] else parts[0] + Concat(parts[1..])
  }

  lemma ConcatCons(p: string, parts: seq<string>)
    ensures Concat([p] + parts) == p + Concat(parts)
  {
  }

  /** Stripping a prefix free of whitespace keeps it whole. */
  lemma {:induction false} StripPrefix(s: string, n: nat)
    requires n <= |s|
    requires forall i :: 0 <= i < n ==> !IsSpace(s[i])
    ensures Strip(s) == s[..n] + Strip(s[n..])
    decreases n
  {
    if n > 0 {
      StripPrefix(s[1..], n - 1);
      assert s[1..][n - 1..] == s[n..];
      assert s[..n] == [s[0]] + s[1..][..n - 1];
    }
  }
}
