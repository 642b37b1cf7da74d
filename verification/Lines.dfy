/** Cutting a text into lines at its newlines. */
module Lines {

  /** Where the first newline is, or the end. */
  function LineEnd<T(==)>(s: seq<T>, newline: T): (n: nat)
    ensures n <= |s|
    ensures n < |s| ==> s[n] == newline
    ensures forall i :: 0 <= i < n ==> s[i] != newline
  {
    if s == [] || s[0] == newline then 0 else 1 + LineEnd(s[1..], newline)
  }

  /** What follows the first line. */
  function AfterLine<T(==)>(s: seq<T>, newline: T): seq<T> {
    var n := LineEnd(s, newline);
    if n < |s| then s[n + 1..] else []
  }

  /** The lines, without their newlines; an end of text just after a newline begins no line. */
  function LinesOf<T(==)>(s: seq<T>, newline: T): seq<seq<T>>
    decreases |s|
  {
    if s == [] then [] else [s[..LineEnd(s, newline)]] + LinesOf(AfterLine(s, newline), newline)
  }

  lemma LineEndIs<T>(s: seq<T>, newline: T, n: nat)
    requires n <= |s| && (n < |s| ==> s[n] == newline)
    requires forall i :: 0 <= i < n ==> s[i] != newline
    ensures LineEnd(s, newline) == n
  {
  }

  /** A piece with no newline in it goes before the first line. */
  lemma LineEndAfter<T>(seen: seq<T>, rest: seq<T>, newline: T)
    requires forall i :: 0 <= i < |seen| ==> seen[i] != newline
    ensures LineEnd(seen + rest, newline) == |seen| + LineEnd(rest, newline)
    ensures AfterLine(seen + rest, newline) == AfterLine(rest, newline)
    ensures (seen + rest)[..LineEnd(seen + rest, newline)] == seen + rest[..LineEnd(rest, newline)]
  {
    var n := LineEnd(rest, newline);
    LineEndIs(seen + rest, newline, |seen| + n);
    assert (seen + rest)[..|seen| + n] == seen + rest[..n];
    if n < |rest| {
      assert (seen + rest)[|seen| + n + 1..] == rest[n + 1..];
    }
  }

  /** The lines put together again, each with its newline. */
  function Joined<T>(lines: seq<seq<T>>, newline: T): seq<T> {
    if lines == [] then [] else lines[0] + [newline] + Joined(lines[1..], newline)
  }

  lemma {:induction false} LinesHoldNone<T>(s: seq<T>, newline: T, i: nat, j: nat)
    requires i < |LinesOf(s, newline)| && j < |LinesOf(s, newline)[i]|
    ensures LinesOf(s, newline)[i][j] != newline
    decreases |s|
  {
    var first, rest := s[..LineEnd(s, newline)], LinesOf(AfterLine(s, newline), newline);
    assert LinesOf(s, newline) == [first] + rest;
    if i > 0 {
      hide LinesOf;
      assert ([first] + rest)[i] == rest[i - 1];
      LinesHoldNone(AfterLine(s, newline), newline, i - 1, j);
    }
  }

  lemma JoinedFirst<T>(line: seq<T>, lines: seq<seq<T>>, newline: T)
    ensures Joined([line] + lines, newline) == line + [newline] + Joined(lines, newline)
  {
  }

  lemma SplitAtLineEnd<T>(s: seq<T>, newline: T)
    ensures LineEnd(s, newline) == |s| ==> s[..LineEnd(s, newline)] == s && AfterLine(s, newline) == []
    ensures LineEnd(s, newline) < |s| ==> s == s[..LineEnd(s, newline)] + [newline] + AfterLine(s, newline)
  {
    var n := LineEnd(s, newline);
    if n < |s| {
      assert s == s[..n] + [s[n]] + s[n + 1..];
    }
  }

  /** The text with a newline at its end, if it lacks one and is not empty. */
  function Closed<T(==)>(s: seq<T>, newline: T): seq<T> {
    if s == [] || s[|s| - 1] == newline then s else s + [newline]
  }

  lemma ClosedAfter<T>(line: seq<T>, rest: seq<T>, newline: T)
    ensures Closed(line + [newline] + rest, newline) == line + [newline] + Closed(rest, newline)
  {
  }

  /** The lines, joined, are the text again, but for a newline it may lack at its end. */
  lemma {:induction false} LinesRejoin<T>(s: seq<T>, newline: T)
    ensures Joined(LinesOf(s, newline), newline) == Closed(s, newline)
    decreases |s|
  {
    if s != [] {
      var n := LineEnd(s, newline);
      var rest := AfterLine(s, newline);
      LinesRejoin(rest, newline);
      JoinedFirst(s[..n], LinesOf(rest, newline), newline);
      SplitAtLineEnd(s, newline);
      if n < |s| {
        hide LineEnd, AfterLine, Closed, Joined;
        ClosedAfter(s[..n], rest, newline);
      } else {
        assert Joined<T>([], newline) == [];
        assert s[..n] + [newline] + [] == s + [newline];
      }
    }
  }

  /** Nothing after the first newline changes the first line. */
  lemma LineEndWithin<T>(a: seq<T>, b: seq<T>, newline: T)
    requires LineEnd(a, newline) < |a|
    ensures LineEnd(a + b, newline) == LineEnd(a, newline)
    ensures (a + b)[..LineEnd(a, newline)] == a[..LineEnd(a, newline)]
  {
    LineEndIs(a + b, newline, LineEnd(a, newline));
  }
}
