/** Hex text for the state file and the log. */
module Hex {
  import opened Prelude

  datatype Decoded = Octets(value: Bytes) | BadCharacter(offset: nat) | OddDigits

  function Digit(n: int): char
    requires 0 <= n < 16
  {
    "0123456789abcdef"[n]
  }

  predicate IsWhitespace(c: char) {
    c == ' ' || c == '\t' || c == '\n' || c == '\U{0C}' || c == '\r'
  }

  function Nibble(c: char): Option<int>
  {
    if '0' <= c <= '9' then Some(c as int - '0' as int)
    else if 'a' <= c <= 'f' then Some(c as int - 'a' as int + 10)
    else if 'A' <= c <= 'F' then Some(c as int - 'A' as int + 10)
    else None
  }

  /** Two lower-case digits an octet. */
  function HexOf(bytes: Bytes): string {
    if bytes == [] then "" else [Digit(bytes[0] / 16), Digit(bytes[0] % 16)] + HexOf(bytes[1..])
  }

  // ---- The encoder and the decoder ----

  lemma HexGrows(out: string, bytes: Bytes, i: nat)
    requires i < |bytes|
    ensures out + HexOf(bytes[i..])
         == out + [Digit(bytes[i] / 16)] + [Digit(bytes[i] % 16)] + HexOf(bytes[i + 1..])
  {
  }

  method Encode(bytes: Bytes) returns (out: string)
    ensures out == HexOf(bytes)
  {
    hide HexOf;
    out := "";
    assert bytes[0..] == bytes;
    for i := 0 to |bytes|
      invariant out + HexOf(bytes[i..]) == HexOf(bytes)
    {
      HexGrows(out, bytes, i);
      out := out + [Digit(bytes[i] / 16)];
      out := out + [Digit(bytes[i] % 16)];
    }
    assert HexOf(bytes[|bytes|..]) == "" by {
      HexStep(bytes[|bytes|..]);
    }
  }

  /** `text` from position `i` on, with a line break before every `width`th character. */
  function WrapFrom(text: string, width: nat, i: nat): string
    requires width > 0 && i <= |text|
    decreases |text| - i
  {
    if i == |text| then ""
    else (if i > 0 && i % width == 0 then "\n" else "") + [text[i]] + WrapFrom(text, width, i + 1)
  }

  function Wrapped(bytes: Bytes, width: nat): string {
    if width == 0 then HexOf(bytes) else WrapFrom(HexOf(bytes), width, 0)
  }

  method EncodeWrapped(bytes: Bytes, width: nat) returns (out: string)
    ensures out == Wrapped(bytes, width)
  {
    hide HexOf;
    var flat := Encode(bytes);
    if width == 0 {
      return flat;
    }
    out := "";
    assert "" + WrapFrom(flat, width, 0) == WrapFrom(flat, width, 0);
    for i := 0 to |flat|
      invariant out + WrapFrom(flat, width, i) == WrapFrom(flat, width, 0)
    {
      ghost var rest := WrapFrom(flat, width, i + 1);
      if i > 0 && i % width == 0 {
        assert out + ("\n" + [flat[i]] + rest) == out + "\n" + [flat[i]] + rest;
        out := out + "\n";
      } else {
        assert out + ("" + [flat[i]] + rest) == out + [flat[i]] + rest;
      }
      out := out + [flat[i]];
    }
  }

  /** Decoding from position `i` on, with `high` the digit still waiting for its pair. */
  function DecodeFrom(text: string, i: nat, high: Option<int>): Decoded
    requires i <= |text| && (high.Some? ==> 0 <= high.value < 16)
    decreases |text| - i
  {
    if i == |text| then (if high.Some? then OddDigits else Octets([]))
    else if IsWhitespace(text[i]) then DecodeFrom(text, i + 1, high)
    else match Nibble(text[i])
      case None => BadCharacter(i)
      case Some(n) =>
        if high.None? then DecodeFrom(text, i + 1, Some(n))
        else Ahead([high.value * 16 + n], DecodeFrom(text, i + 1, None))
  }

  function DecodeOf(text: string): Decoded {
    DecodeFrom(text, 0, None)
  }

  function Ahead(front: Bytes, d: Decoded): Decoded {
    match d case Octets(rest) => Octets(front + rest) case e => e
  }

  lemma OctetFollows(front: Bytes, b: byte, rest: Decoded)
    ensures Ahead(front, Ahead([b], rest)) == Ahead(front + [b], rest)
  {
  }

  method Decode(text: string) returns (d: Decoded)
    ensures d == DecodeOf(text)
  {
    var out: Bytes := [];
    var high: Option<int> := None;
    ghost var whole := DecodeOf(text);
    assert whole.Octets? ==> [] + whole.value == whole.value;
    for i := 0 to |text|
      invariant high.Some? ==> 0 <= high.value < 16
      invariant whole == Ahead(out, DecodeFrom(text, i, high))
    {
      if IsWhitespace(text[i]) {
        continue;
      }
      var n := Nibble(text[i]);
      if n.None? {
        return BadCharacter(i);
      }
      match high {
        case None =>
          high := n;
        case Some(h) =>
          OctetFollows(out, h * 16 + n.value, DecodeFrom(text, i + 1, None));
          out := out + [h * 16 + n.value];
          high := None;
      }
    }
    if high.Some? {
      return OddDigits;
    }
    assert out + [] == out;
    return Octets(out);
  }

  // ---- What decoding accepts ----

  /** The text without its whitespace. */
  function Strip(text: string): string {
    if text == "" then ""
    else if IsWhitespace(text[0]) then Strip(text[1..])
    else [text[0]] + Strip(text[1..])
  }

  function Lower(c: char): char {
    if 'A' <= c <= 'F' then (c as int + 32) as char else c
  }

  function Lowered(text: string): string {
    if text == "" then "" else [Lower(text[0])] + Lowered(text[1..])
  }

  /** What is left to decode, with the digit already held put back in front. */
  function Pending(text: string, i: nat, high: Option<int>): string
    requires i <= |text| && (high.Some? ==> 0 <= high.value < 16)
  {
    (if high.Some? then [Digit(high.value)] else "") + Lowered(Strip(text[i..]))
  }

  lemma NibbleOfDigit(c: char, n: int)
    requires 0 <= n < 16
    ensures Nibble(c) == Some(n) <==> Lower(c) == Digit(n)
  {
  }

  lemma DigitsAreText(n: int)
    requires 0 <= n < 16
    ensures !IsWhitespace(Digit(n)) && Lower(Digit(n)) == Digit(n) && Digit(n) != '#'
  {
  }

  lemma {:induction false} DecodeFromExact(text: string, i: nat, high: Option<int>, b: Bytes)
    requires i <= |text| && (high.Some? ==> 0 <= high.value < 16)
    ensures DecodeFrom(text, i, high) == Octets(b) <==> Pending(text, i, high) == HexOf(b)
    decreases |text| - i
  {
    if i == |text| {
      assert text[i..] == "";
      if b != [] {
        assert |HexOf(b)| >= 2;
      }
    } else {
      var tail := text[i + 1..];
      assert text[i..][0] == text[i] && text[i..][1..] == tail;
      if IsWhitespace(text[i]) {
        DecodeFromExact(text, i + 1, high, b);
      } else {
        assert Strip(text[i..])[0] == text[i] && Strip(text[i..])[1..] == Strip(tail);
        assert Lowered(Strip(text[i..])) == [Lower(text[i])] + Lowered(Strip(tail));
        match Nibble(text[i]) {
          case None =>
            NotADigit(text[i], b);
            assert Pending(text, i, high)[|if high.Some? then [Digit(high.value)] else ""|] == Lower(text[i]);
            if Pending(text, i, high) == HexOf(b) {
              HexDigitsOnly(b, |if high.Some? then [Digit(high.value)] else ""|);
            }
          case Some(n) =>
            NibbleOfDigit(text[i], n);
            if high.None? {
              DecodeFromExact(text, i + 1, Some(n), b);
              assert Pending(text, i, high) == Pending(text, i + 1, Some(n));
            } else {
              if b != [] {
                DecodeFromExact(text, i + 1, None, b[1..]);
              }
              PairDecodes(text, i, high.value, n, b);
            }
        }
      }
    }
  }

  lemma NotADigit(c: char, b: Bytes)
    requires Nibble(c).None?
    ensures forall n :: 0 <= n < 16 ==> Lower(c) != Digit(n)
  {
  }

  lemma {:induction false} HexDigitsOnly(b: Bytes, k: nat)
    requires k < |HexOf(b)|
    ensures exists n :: 0 <= n < 16 && HexOf(b)[k] == Digit(n)
    decreases |b|
  {
    if k >= 2 {
      HexDigitsOnly(b[1..], k - 2);
    }
  }

  /** The step that completes an octet. */
  lemma PairDecodes(text: string, i: nat, high: int, n: int, b: Bytes)
    requires i < |text| && 0 <= high < 16 && !IsWhitespace(text[i]) && Nibble(text[i]) == Some(n)
    requires Pending(text, i, Some(high)) == [Digit(high), Digit(n)] + Pending(text, i + 1, None)
    requires b != [] ==>
      (DecodeFrom(text, i + 1, None) == Octets(b[1..]) <==> Pending(text, i + 1, None) == HexOf(b[1..]))
    ensures DecodeFrom(text, i, Some(high)) == Octets(b) <==> Pending(text, i, Some(high)) == HexOf(b)
  {
    var rest := DecodeFrom(text, i + 1, None);
    if b != [] {
      DigitsInjective(high, b[0] / 16);
      DigitsInjective(n, b[0] % 16);
      PairsEqual(Digit(high), Digit(n), Pending(text, i + 1, None),
                 Digit(b[0] / 16), Digit(b[0] % 16), HexOf(b[1..]));
      assert high * 16 + n == b[0] <==> high == b[0] / 16 && n == b[0] % 16;
      if rest.Octets? {
        assert ([high * 16 + n] + rest.value)[1..] == rest.value;
        assert b == [b[0]] + b[1..];
      }
    }
  }

  lemma DigitsInjective(m: int, n: int)
    requires 0 <= m < 16 && 0 <= n < 16
    ensures Digit(m) == Digit(n) <==> m == n
  {
  }

  lemma PairsEqual(a: char, b: char, s: string, c: char, d: char, t: string)
    ensures [a, b] + s == [c, d] + t <==> a == c && b == d && s == t
  {
    if [a, b] + s == [c, d] + t {
      assert ([a, b] + s)[0] == a && ([a, b] + s)[1] == b && ([a, b] + s)[2..] == s;
      assert ([c, d] + t)[0] == c && ([c, d] + t)[1] == d && ([c, d] + t)[2..] == t;
    }
  }

  /** Decoding yields exactly the octets whose digits the text spells, in
    either case of letter and with whitespace anywhere. */
  lemma DecodeIsExact(text: string, b: Bytes)
    ensures DecodeOf(text) == Octets(b) <==> Lowered(Strip(text)) == HexOf(b)
  {
    DecodeFromExact(text, 0, None, b);
    assert text[0..] == text;
    assert "" + Lowered(Strip(text)) == Lowered(Strip(text));
  }

  /** Two texts that differ only in whitespace decode alike. */
  lemma WhitespaceIsIgnored(s: string, t: string)
    requires Strip(s) == Strip(t)
    ensures DecodeOf(s).Octets? == DecodeOf(t).Octets?
    ensures DecodeOf(s).Octets? ==> DecodeOf(s) == DecodeOf(t)
  {
    if DecodeOf(s).Octets? {
      DecodeIsExact(s, DecodeOf(s).value);
      DecodeIsExact(t, DecodeOf(s).value);
    }
    if DecodeOf(t).Octets? {
      DecodeIsExact(t, DecodeOf(t).value);
      DecodeIsExact(s, DecodeOf(t).value);
    }
  }

  /** Nothing in the text is whitespace, except line breaks where `breaks` allows them, or a comment mark. */
  predicate Plain(s: string, breaks: bool) {
    forall i :: 0 <= i < |s| ==> s[i] != '#' && (IsWhitespace(s[i]) ==> breaks && s[i] == '\n')
  }

  lemma PlainStep(c: char, s: string, breaks: bool)
    ensures Strip([c] + s) == if IsWhitespace(c) then Strip(s) else [c] + Strip(s)
    ensures Lowered([c] + s) == [Lower(c)] + Lowered(s)
    ensures Plain(s, breaks) && c != '#' && (IsWhitespace(c) ==> breaks && c == '\n') ==> Plain([c] + s, breaks)
  {
  }

  lemma HexStep(b: Bytes)
    ensures b == [] ==> HexOf(b) == ""
    ensures b != [] ==> HexOf(b) == [Digit(b[0] / 16)] + ([Digit(b[0] % 16)] + HexOf(b[1..]))
  {
  }

  lemma {:induction false} HexIsPlain(b: Bytes)
    ensures Strip(HexOf(b)) == HexOf(b) && Lowered(HexOf(b)) == HexOf(b) && Plain(HexOf(b), false)
    decreases |b|
  {
    HexStep(b);
    if b != [] {
      hide HexOf, Strip, Lowered, Plain;
      HexIsPlain(b[1..]);
      DigitsAreText(b[0] / 16);
      DigitsAreText(b[0] % 16);
      PlainStep(Digit(b[0] % 16), HexOf(b[1..]), false);
      PlainStep(Digit(b[0] / 16), [Digit(b[0] % 16)] + HexOf(b[1..]), false);
    }
  }

  lemma WrapStep(text: string, width: nat, i: nat)
    requires width > 0 && i < |text|
    ensures WrapFrom(text, width, i)
         == if i > 0 && i % width == 0 then ['\n'] + ([text[i]] + WrapFrom(text, width, i + 1))
            else [text[i]] + WrapFrom(text, width, i + 1)
  {
  }

  lemma BrokenLine(c: char, rest: string)
    requires c != '#' && !IsWhitespace(c) && Plain(rest, true)
    ensures Strip([c] + rest) == [c] + Strip(rest) && Plain([c] + rest, true)
    ensures Strip(['\n'] + ([c] + rest)) == [c] + Strip(rest) && Plain(['\n'] + ([c] + rest), true)
  {
  }

  /** Line breaks are all that wrapping adds. */
  lemma {:induction false} WrapOnlyAddsBreaks(text: string, width: nat, i: nat)
    requires width > 0 && i <= |text|
    requires Plain(text, false)
    ensures Strip(WrapFrom(text, width, i)) == text[i..] && Plain(WrapFrom(text, width, i), true)
    decreases |text| - i
  {
    if i < |text| {
      assert text[i] != '#' && !IsWhitespace(text[i]) && text[i..] == [text[i]] + text[i + 1..];
      hide WrapFrom, Strip, Lowered, Plain;
      WrapStep(text, width, i);
      WrapOnlyAddsBreaks(text, width, i + 1);
      var rest := WrapFrom(text, width, i + 1);
      BrokenLine(text[i], rest);
    }
  }

  /** Decoding undoes wrapped encoding, whatever the width. */
  lemma DecodeUndoesWrapped(b: Bytes, width: nat)
    ensures DecodeOf(Wrapped(b, width)) == Octets(b)
    ensures Strip(Wrapped(b, width)) == HexOf(b) && Plain(Wrapped(b, width), true)
  {
    HexIsPlain(b);
    if width > 0 {
      WrapOnlyAddsBreaks(HexOf(b), width, 0);
    }
    DecodeIsExact(Wrapped(b, width), b);
  }
}
