/** Reading console lines from a buffered reader, whatever chunks it delivers. */
module Console {
  import opened Prelude
  import opened Lines

  const MAX_LINE := 8 * 1024
  const NEWLINE: byte := 10
  const RETURN: byte := 13

  /** A buffered reader over input that arrives in pieces. */
  class Source {
    var chunks: seq<Bytes>

    ghost predicate Valid()
      reads this
    {
      forall i :: 0 <= i < |chunks| ==> chunks[i] != []
    }

    ghost function Rest(): Bytes
      reads this
    {
      Flat(chunks)
    }

    constructor (chunks: seq<Bytes>)
      requires forall i :: 0 <= i < |chunks| ==> chunks[i] != []
      ensures Valid() && Rest() == Flat(chunks)
    {
      this.chunks := chunks;
    }

    /** What is buffered: empty only at the end of the input. */
    method FillBuf() returns (available: Bytes)
      requires Valid()
      ensures available == [] <==> Rest() == []
      ensures available <= Rest()
      ensures chunks != [] ==> available == chunks[0]
      ensures chunks == [] ==> available == []
    {
      if chunks == [] {
        return [];
      }
      return chunks[0];
    }

    method Consume(n: nat)
      requires Valid() && chunks != [] && n <= |chunks[0]|
      modifies this
      ensures Valid() && Rest() == old(Rest())[n..]
    {
      var rest := chunks[1..];
      assert old(Rest()) == chunks[0] + Flat(rest);
      if n == |chunks[0]| {
        chunks := rest;
      } else {
        assert ([chunks[0][n..]] + rest)[1..] == rest;
        chunks := [chunks[0][n..]] + rest;
      }
      assert old(Rest())[n..] == old(chunks)[0][n..] + Flat(rest);
    }
  }

  function Flat(chunks: seq<Bytes>): Bytes {
    if chunks == [] then [] else chunks[0] + Flat(chunks[1..])
  }

  /** One read: the end of the input, a line too long to keep, or a line. */
  datatype Line = Ended | TooLong | Text(octets: Bytes)

  function WithoutReturns(line: Bytes): Bytes {
    if line != [] && line[|line| - 1] == RETURN then WithoutReturns(line[..|line| - 1]) else line
  }

  /** What a line reads as: rejected for its length alone, carriage returns at its end dropped. */
  function Judged(line: Bytes): Line {
    if |line| > MAX_LINE then TooLong else Text(WithoutReturns(line))
  }

  function ReadOf(input: Bytes): Line {
    if input == [] then Ended else Judged(input[..LineEnd(input, NEWLINE)])
  }

  method Position(available: Bytes) returns (i: nat)
    ensures i == LineEnd(available, NEWLINE)
  {
    i := 0;
    while i < |available| && available[i] != NEWLINE
      invariant i <= |available|
      invariant forall j :: 0 <= j < i ==> available[j] != NEWLINE
    {
      i := i + 1;
    }
    LineEndIs(available, NEWLINE, i);
  }

  /** A piece the line ends in. */
  lemma LastPiece(seen: Bytes, available: Bytes, more: Bytes)
    requires forall j :: 0 <= j < |seen| ==> seen[j] != NEWLINE
    requires LineEnd(available, NEWLINE) < |available|
    ensures var rest := available + more;
            var i := LineEnd(available, NEWLINE);
            && (seen + rest)[..LineEnd(seen + rest, NEWLINE)] == seen + available[..i]
            && AfterLine(seen + rest, NEWLINE) == rest[i + 1..]
  {
    hide LineEnd;
    LineEndAfter(seen, available + more, NEWLINE);
    LineEndWithin(available, more, NEWLINE);
  }

  lemma Reassociate(a: Bytes, b: Bytes, c: Bytes)
    ensures a + (b + c) == (a + b) + c
  {
  }

  method DropReturns(line: Bytes) returns (text: Bytes)
    ensures text == WithoutReturns(line)
  {
    text := line;
    while text != [] && text[|text| - 1] == RETURN
      invariant WithoutReturns(text) == WithoutReturns(line)
      decreases |text|
    {
      text := text[..|text| - 1];
    }
  }

  /** What is kept of the octets of the line seen so far: all of them, or none once they are too many. */
  predicate Keeps(buf: Bytes, tooLong: bool, seen: Bytes) {
    if tooLong then buf == [] && |seen| > MAX_LINE else buf == seen && |seen| <= MAX_LINE
  }

  /** Nothing of the line is left behind and no newline was passed. */
  ghost predicate Reading(whole: Bytes, seen: Bytes, rest: Bytes) {
    whole == seen + rest && forall j :: 0 <= j < |seen| ==> seen[j] != NEWLINE
  }

  /** The line is complete, and what is left starts after it. */
  ghost predicate Complete(whole: Bytes, seen: Bytes, rest: Bytes) {
    whole != [] && seen == whole[..LineEnd(whole, NEWLINE)] && rest == AfterLine(whole, NEWLINE)
  }

  lemma PieceTaken(whole: Bytes, seen: Bytes, available: Bytes, rest: Bytes)
    requires Reading(whole, seen, rest) && available <= rest && available != []
    ensures var i := LineEnd(available, NEWLINE);
            var seen' := seen + available[..i];
            if i < |available| then Complete(whole, seen', rest[i + 1..]) else Reading(whole, seen', rest[i..])
  {
    var more := rest[|available|..];
    assert rest == available + more;
    var i := LineEnd(available, NEWLINE);
    if i < |available| {
      LastPiece(seen, available, more);
    } else {
      Reassociate(seen, available, more);
      assert available[..i] == available && rest[i..] == more;
    }
    hide LineEnd, AfterLine;
  }

  /** A line is read as its octets alone decide, in whatever pieces they arrive; the
    next read starts at the line after it, and no more than the limit is ever kept. */
  method ReadLine(input: Source) returns (line: Line)
    requires input.Valid()
    modifies input
    ensures input.Valid()
    ensures line == ReadOf(old(input.Rest()))
    ensures input.Rest() == AfterLine(old(input.Rest()), NEWLINE)
  {
    hide LineEnd, AfterLine, WithoutReturns, Reading, Complete, Flat;
    var buf: Bytes := [];
    var tooLong, any, done := false, false, false;
    ghost var whole := input.Rest();
    ghost var seen: Bytes := [];
    BeginReading(whole);
    while !done
      invariant input.Valid() && |buf| <= MAX_LINE && Keeps(buf, tooLong, seen)
      invariant !done ==> Reading(whole, seen, input.Rest()) && (any <==> seen != [])
      invariant done ==> any && Complete(whole, seen, input.Rest())
      decreases !done, |input.Rest()|
    {
      var available := input.FillBuf();
      if available == [] {
        break;
      }
      PieceTaken(whole, seen, available, input.Rest());
      var upto := Position(available);
      var used := if upto < |available| then upto + 1 else upto;
      any := true;
      if !tooLong {
        if |buf| + upto > MAX_LINE {
          tooLong, buf := true, [];
        } else {
          buf := buf + available[..upto];
        }
      }
      done := upto < |available|;
      seen := seen + available[..upto];
      input.Consume(used);
    }
    if !done {
      WholeRead(whole, seen);
    }
    LineRead(whole, seen, input.Rest());
    if !any {
      return Ended;
    }
    if tooLong {
      return TooLong;
    }
    var text := DropReturns(buf);
    return Text(text);
  }

  lemma BeginReading(whole: Bytes)
    ensures Reading(whole, [], whole)
  {
  }

  /** A last line without a newline, or no line at all. */
  lemma WholeRead(whole: Bytes, seen: Bytes)
    requires Reading(whole, seen, [])
    ensures whole == seen && (seen != [] ==> Complete(whole, seen, [])) && AfterLine(whole, NEWLINE) == []
  {
  }

  lemma LineRead(whole: Bytes, seen: Bytes, rest: Bytes)
    ensures Complete(whole, seen, rest) ==> ReadOf(whole) == Judged(seen) && rest == AfterLine(whole, NEWLINE)
  {
  }

  lemma EmptyRead(s: Bytes)
    ensures s == [] ==> AfterLine(s, NEWLINE) == []
  {
  }

  // ---- Reading to the end ----

  function JudgedAll(lines: seq<Bytes>): seq<Line> {
    seq(|lines|, i requires 0 <= i < |lines| => Judged(lines[i]))
  }

  /** Reading until the input ends gives what cutting it at its newlines gives, line by
    line: the lines longer than the limit are rejected and every other one is read whole. */
  method ReadAll(input: Source) returns (lines: seq<Line>)
    requires input.Valid()
    modifies input
    ensures lines == JudgedAll(LinesOf(old(input.Rest()), NEWLINE))
    ensures input.Rest() == []
  {
    lines := [];
    ghost var all := LinesOf(input.Rest(), NEWLINE);
    ghost var done: seq<Bytes> := [];
    hide LineEnd, AfterLine, Judged;
    assert [] + all == all;
    var more := true;
    while more
      invariant input.Valid()
      invariant all == done + LinesOf(input.Rest(), NEWLINE) && lines == JudgedAll(done)
      invariant !more ==> input.Rest() == []
      decreases more, |input.Rest()|
    {
      ghost var before := input.Rest();
      var line := ReadLine(input);
      if line == Ended {
        NeverEnded(before);
        more := false;
        EmptyRead(before);
      } else {
        Shrinks(before);
        ghost var first := before[..LineEnd(before, NEWLINE)];
        NextLine(done, before);
        JudgedNext(done, first);
        lines := lines + [line];
        done := done + [first];
      }
    }
    assert all == done + [];
    assert done + [] == done;
  }

  lemma NextLine(done: seq<Bytes>, s: Bytes)
    requires s != []
    ensures done + LinesOf(s, NEWLINE) == done + [s[..LineEnd(s, NEWLINE)]] + LinesOf(AfterLine(s, NEWLINE), NEWLINE)
  {
  }

  lemma JudgedNext(done: seq<Bytes>, line: Bytes)
    ensures JudgedAll(done + [line]) == JudgedAll(done) + [Judged(line)]
  {
  }

  lemma NeverEnded(s: Bytes)
    ensures ReadOf(s) == Ended <==> s == []
  {
  }

  lemma Shrinks(s: Bytes)
    requires s != []
    ensures |AfterLine(s, NEWLINE)| < |s|
  {
  }
}
