/** The text form of the state file: a header line, comment lines, and wrapped hex. */
module StateFile {
  import opened Prelude
  import opened Lines
  import opened Hex

  const HEADER := "# swtrust TPM state v1"
  const LINE_WIDTH := 64
  const MAX_STATE_FILE_BYTES := 8 * 1024 * 1024

  datatype Loaded = NoFile | TooLarge | MissingHeader | NotHex | State(data: Bytes)

  // ---- Lines and trimming ----

  /** A carriage return right before the newline is not part of the line. */
  function WithoutReturn(line: string): string {
    if line != "" && line[|line| - 1] == '\r' then line[..|line| - 1] else line
  }

  function FirstLine(text: string): string {
    var n := LineEnd(text, '\n');
    if n < |text| then WithoutReturn(text[..n]) else text
  }

  function FileLines(text: string): seq<string>
    decreases |text|
  {
    if text == "" then [] else [FirstLine(text)] + FileLines(AfterLine(text, '\n'))
  }

  /** White space, of the characters a state file may hold. */
  predicate IsSpace(c: char) {
    c == ' ' || '\t' <= c <= '\r'
  }

  function TrimStart(s: string): string {
    if s != "" && IsSpace(s[0]) then TrimStart(s[1..]) else s
  }

  function TrimEnd(s: string): string {
    if s != "" && IsSpace(s[|s| - 1]) then TrimEnd(s[..|s| - 1]) else s
  }

  predicate IsComment(line: string) {
    var s := TrimStart(line);
    s != "" && s[0] == '#'
  }

  function Body(lines: seq<string>): string {
    if lines == [] then "" else (if IsComment(lines[0]) then "" else lines[0]) + Body(lines[1..])
  }

  // ---- Loading and saving ----

  function LoadedHex(body: string): Loaded {
    match DecodeOf(body) case Octets(data) => State(data) case _ => NotHex
  }

  function Load(file: Option<string>): Loaded {
    if file.None? then NoFile
    else if |file.value| > MAX_STATE_FILE_BYTES then TooLarge
    else
      var lines := FileLines(file.value);
      if lines == [] || TrimEnd(lines[0]) != HEADER then MissingHeader else LoadedHex(Body(lines[1..]))
  }

  method LoadState(file: Option<string>) returns (r: Loaded)
    ensures r == Load(file)
  {
    if file.None? {
      return NoFile;
    }
    var text := file.value;
    if |text| > MAX_STATE_FILE_BYTES {
      return TooLarge;
    }
    if text == "" || TrimEnd(FirstLine(text)) != HEADER {
      return MissingHeader;
    }
    var rest := AfterLine(text, '\n');
    ghost var lines := FileLines(rest);
    assert FileLines(text) == [FirstLine(text)] + lines && FileLines(text)[1..] == lines;
    hide LineEnd, AfterLine, FirstLine, IsComment;
    var body := "";
    assert "" + Body(lines) == Body(lines);
    while rest != ""
      invariant body + Body(FileLines(rest)) == Body(lines)
      decreases |rest|
    {
      BodyStep(body, rest);
      Shrinks(rest);
      var line := FirstLine(rest);
      if !IsComment(line) {
        body := body + line;
      }
      rest := AfterLine(rest, '\n');
    }
    assert body + "" == body;
    var d := Decode(body);
    match d {
      case Octets(data) => return State(data);
      case _ => return NotHex;
    }
  }

  lemma Shrinks(s: string)
    requires s != ""
    ensures |AfterLine(s, '\n')| < |s|
  {
  }

  lemma BodyStep(body: string, rest: string)
    requires rest != ""
    ensures body + Body(FileLines(rest))
         == (if IsComment(FirstLine(rest)) then body else body + FirstLine(rest)) + Body(FileLines(AfterLine(rest, '\n')))
  {
    hide LineEnd, AfterLine, FirstLine, IsComment;
    var lines := FileLines(rest);
    var more := Body(FileLines(AfterLine(rest, '\n')));
    assert lines[1..] == FileLines(AfterLine(rest, '\n'));
    assert body + (FirstLine(rest) + more) == body + FirstLine(rest) + more;
    assert "" + more == more;
  }

  function Saved(data: Bytes): string {
    HEADER + "\n" + (Wrapped(data, LINE_WIDTH) + "\n")
  }

  method SaveState(data: Bytes) returns (text: string)
    ensures text == Saved(data)
  {
    hide Wrapped;
    text := HEADER;
    text := text + "\n";
    var wrapped := EncodeWrapped(data, LINE_WIDTH);
    text := text + wrapped;
    text := text + "\n";
  }

  // ---- What a text without comments loads as ----

  predicate NoMark(s: string) {
    forall i :: 0 <= i < |s| ==> s[i] != '#'
  }

  lemma {:induction false} StripJoins(a: string, b: string)
    ensures Strip(a + b) == Strip(a) + Strip(b)
    decreases |a|
  {
    if a == "" {
      assert a + b == b;
    } else {
      assert (a + b)[1..] == a[1..] + b;
      StripJoins(a[1..], b);
    }
  }

  lemma {:induction false} TrimStartWithin(s: string)
    ensures exists n :: 0 <= n <= |s| && TrimStart(s) == s[n..]
    decreases |s|
  {
    if s != "" && IsSpace(s[0]) {
      TrimStartWithin(s[1..]);
      var n :| 0 <= n <= |s[1..]| && TrimStart(s[1..]) == s[1..][n..];
      assert s[1..][n..] == s[n + 1..];
    } else {
      assert s[0..] == s;
    }
  }

  lemma NoMarkNoComment(line: string)
    requires NoMark(line)
    ensures !IsComment(line)
  {
    TrimStartWithin(line);
    var n :| 0 <= n <= |line| && TrimStart(line) == line[n..];
  }

  lemma LineStrips(line: string)
    ensures Strip(WithoutReturn(line)) == Strip(line)
  {
    if line != "" && line[|line| - 1] == '\r' {
      var front := line[..|line| - 1];
      assert line == front + "\r";
      StripJoins(front, "\r");
      StripOne('\r');
    }
  }

  lemma StripOne(c: char)
    requires IsWhitespace(c)
    ensures Strip([c]) == ""
  {
  }

  lemma FirstLineStrips(text: string)
    requires text != "" && NoMark(text)
    ensures Strip(FirstLine(text)) + Strip(AfterLine(text, '\n')) == Strip(text)
    ensures NoMark(FirstLine(text)) && NoMark(AfterLine(text, '\n'))
  {
    var n := LineEnd(text, '\n');
    SplitAtLineEnd(text, '\n');
    hide LineEnd;
    if n < |text| {
      var line, rest := text[..n], text[n + 1..];
      LineStrips(line);
      StripJoins(line, "\n");
      StripOne('\n');
      StripJoins(line + "\n", rest);
      assert Strip(line) + "" == Strip(line);
      hide Strip;
    } else {
      assert Strip(text) + "" == Strip(text);
    }
  }

  /** With no comment mark in it, the body differs from the text in white space alone. */
  lemma {:induction false} BodyStrips(text: string)
    requires NoMark(text)
    ensures Strip(Body(FileLines(text))) == Strip(text)
    decreases |text|
  {
    if text != "" {
      var line, rest := FirstLine(text), AfterLine(text, '\n');
      FirstLineStrips(text);
      Shrinks(text);
      NoMarkNoComment(line);
      hide LineEnd, FirstLine, AfterLine, NoMark, IsComment, Strip;
      BodyStep("", text);
      BodyStrips(rest);
      StripJoins(line, Body(FileLines(rest)));
      assert "" + Body(FileLines(text)) == Body(FileLines(text)) && "" + line == line;
    }
  }

  lemma HeaderFirst(rest: string)
    ensures FileLines(HEADER + "\n" + rest) == [HEADER] + FileLines(rest)
    ensures TrimEnd(HEADER) == HEADER
  {
    var text := HEADER + "\n" + rest;
    NoNewline(HEADER);
    LineEndIs(text, '\n', |HEADER|);
    assert text[..|HEADER|] == HEADER && text[|HEADER| + 1..] == rest;
  }

  lemma NoNewline(s: string)
    requires s == HEADER
    ensures forall i :: 0 <= i < |s| ==> s[i] != '\n'
  {
  }

  /** What follows the header, when it fits and holds no comment mark, loads as the
    octets its digits spell, in either case of letter and whatever its white space. */
  lemma LoadIsExact(rest: string, data: Bytes)
    requires NoMark(rest) && |HEADER + "\n" + rest| <= MAX_STATE_FILE_BYTES
    ensures Load(Some(HEADER + "\n" + rest)) == State(data) <==> Lowered(Strip(rest)) == HexOf(data)
  {
    HeaderFirst(rest);
    BodyStrips(rest);
    DecodeIsExact(Body(FileLines(rest)), data);
    hide HexOf, Strip, Lowered, Body, FileLines, DecodeOf;
  }

  /** Loading undoes saving, for every state whose text fits. */
  lemma LoadUndoesSave(data: Bytes)
    requires |Saved(data)| <= MAX_STATE_FILE_BYTES
    ensures Load(Some(Saved(data))) == State(data)
  {
    var wrapped := Wrapped(data, LINE_WIDTH);
    DecodeUndoesWrapped(data, LINE_WIDTH);
    HexIsPlain(data);
    StripJoins(wrapped, "\n");
    StripOne('\n');
    assert Strip(wrapped) + "" == Strip(wrapped);
    assert NoMark(wrapped + "\n");
    hide Wrapped, HexOf, Strip, Lowered, Load, Plain;
    LoadIsExact(wrapped + "\n", data);
  }

  // ---- Comment lines ----

  /** The text is empty or ends a line. */
  predicate EndsLine(s: string) {
    s == "" || s[|s| - 1] == '\n'
  }

  lemma {:induction false} LinesJoin(a: string, b: string)
    requires EndsLine(a)
    ensures FileLines(a + b) == FileLines(a) + FileLines(b)
    decreases |a|
  {
    if a == "" {
      assert a + b == b;
    } else {
      var n := LineEnd(a, '\n');
      LineEndWithinLine(a);
      LineEndWithin(a, b, '\n');
      assert AfterLine(a + b, '\n') == AfterLine(a, '\n') + b;
      assert FirstLine(a + b) == FirstLine(a);
      assert EndsLine(AfterLine(a, '\n'));
      LinesJoin(AfterLine(a, '\n'), b);
      hide LineEnd, AfterLine, FirstLine;
    }
  }

  lemma LineEndWithinLine(a: string)
    requires a != "" && EndsLine(a)
    ensures LineEnd(a, '\n') < |a|
  {
  }

  lemma {:induction false} BodyJoins(a: seq<string>, b: seq<string>)
    ensures Body(a + b) == Body(a) + Body(b)
    decreases |a|
  {
    if a == [] {
      assert a + b == b;
    } else {
      assert (a + b)[1..] == a[1..] + b;
      BodyJoins(a[1..], b);
    }
  }

  lemma {:induction false} CommentSurvives(c: string)
    requires IsComment(c)
    ensures IsComment(WithoutReturn(c))
    decreases |c|
  {
    if IsSpace(c[0]) {
      CommentSurvives(c[1..]);
      if |c| > 1 {
        assert c[1..][|c| - 2] == c[|c| - 1];
        assert WithoutReturn(c)[1..] == WithoutReturn(c[1..]);
      }
    }
  }

  lemma CommentLine(comment: string, b: string)
    requires IsComment(comment) && forall i :: 0 <= i < |comment| ==> comment[i] != '\n'
    ensures Body(FileLines(comment + "\n" + b)) == Body(FileLines(b))
  {
    var text := comment + "\n" + b;
    LineEndIs(text, '\n', |comment|);
    assert text[..|comment|] == comment && text[|comment| + 1..] == b;
    CommentSurvives(comment);
    hide LineEnd, IsComment, WithoutReturn;
    assert FileLines(text) == [WithoutReturn(comment)] + FileLines(b);
    assert FileLines(text)[1..] == FileLines(b);
  }

  /** A comment line put in at any line boundary after the header changes nothing. */
  lemma CommentsAreIgnored(a: string, comment: string, b: string)
    requires EndsLine(a) && IsComment(comment) && forall i :: 0 <= i < |comment| ==> comment[i] != '\n'
    requires |HEADER + "\n" + (a + (comment + "\n" + b))| <= MAX_STATE_FILE_BYTES
    ensures Load(Some(HEADER + "\n" + (a + (comment + "\n" + b)))) == Load(Some(HEADER + "\n" + (a + b)))
  {
    hide FileLines, Body, IsComment, EndsLine, TrimEnd, LoadedHex;
    var commented := comment + "\n" + b;
    CommentLine(comment, b);
    LinesJoin(a, commented);
    LinesJoin(a, b);
    BodyJoins(FileLines(a), FileLines(commented));
    BodyJoins(FileLines(a), FileLines(b));
    HeaderFirst(a + commented);
    HeaderFirst(a + b);
  }
}
