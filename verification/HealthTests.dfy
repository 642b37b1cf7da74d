/** The SP 800-90B health tests for an entropy source: the streaming counters,
  and what they decide about the whole stream (sections 4.4.1 and 4.4.2 of
  NIST SP 800-90B). */
module HealthTests {
  import opened Prelude

  const REPETITION_CUTOFF := 32

  datatype Verdict = Passed | RepetitionCount | AdaptiveProportion

  /** The counters the tests carry from one octet to the next. */
  datatype Counters = Counters(
    last: Option<byte>, repetitions: nat,
    windowValue: byte, windowCount: nat, windowSeen: nat,
    window: nat, cutoff: nat)

  function Max(a: nat, b: nat): nat {
    if a > b then a else b
  }

  function Fresh(window: nat, cutoff: nat): Counters {
    Counters(None, 0, 0, 0, window, Max(window, 1), cutoff)
  }

  /** One octet through both tests. */
  function Feed(t: Counters, b: byte): (Counters, Verdict) {
    var same := t.last == Some(b);
    var t1 := if same then t.(repetitions := t.repetitions + 1) else t.(last := Some(b), repetitions := 1);
    if same && t1.repetitions >= REPETITION_CUTOFF then (t1, RepetitionCount)
    else if t1.windowSeen >= t1.window then (t1.(windowValue := b, windowCount := 1, windowSeen := 1), Passed)
    else
      var t2 := t1.(windowSeen := t1.windowSeen + 1);
      if b != t2.windowValue then (t2, Passed)
      else
        var t3 := t2.(windowCount := t2.windowCount + 1);
        (t3, if t3.windowCount >= t3.cutoff then AdaptiveProportion else Passed)
  }

  /** Octets in order, up to the first that fails. */
  function FeedAll(t: Counters, data: Bytes): (Counters, Verdict)
    decreases |data|
  {
    if data == [] then (t, Passed)
    else
      var (t1, v) := Feed(t, data[0]);
      if v != Passed then (t1, v) else FeedAll(t1, data[1..])
  }

  class Tests {
    var last: Option<byte>
    var repetitions: nat
    var windowValue: byte
    var windowCount: nat
    var windowSeen: nat
    var window: nat
    var cutoff: nat

    function Value(): Counters
      reads this
    {
      Counters(last, repetitions, windowValue, windowCount, windowSeen, window, cutoff)
    }

    constructor WithWindow(window: nat, cutoff: nat)
      ensures Value() == Fresh(window, cutoff)
    {
      last, repetitions := None, 0;
      windowValue, windowCount := 0, 0;
      windowSeen := window;
      this.window := if window > 1 then window else 1;
      this.cutoff := cutoff;
    }

    method Check(data: Bytes) returns (verdict: Verdict)
      modifies this
      ensures (Value(), verdict) == FeedAll(old(Value()), data)
    {
      for i := 0 to |data|
        invariant FeedAll(old(Value()), data) == FeedAll(Value(), data[i..])
      {
        var b := data[i];
        ghost var before := Value();
        assert data[i..][0] == b && data[i..][1..] == data[i + 1..];
        match last {
          case Some(prev) =>
            if prev == b {
              repetitions := repetitions + 1;
              if repetitions >= REPETITION_CUTOFF {
                return RepetitionCount;
              }
            } else {
              last, repetitions := Some(b), 1;
            }
          case None =>
            last, repetitions := Some(b), 1;
        }
        if windowSeen >= window {
          windowValue, windowCount, windowSeen := b, 1, 1;
          assert Feed(before, b) == (Value(), Passed);
          continue;
        }
        windowSeen := windowSeen + 1;
        if b == windowValue {
          windowCount := windowCount + 1;
          if windowCount >= cutoff {
            return AdaptiveProportion;
          }
        }
        assert Feed(before, b) == (Value(), Passed);
      }
      return Passed;
    }
  }

  // ---- What a bad stream is ----

  predicate Constant(s: Bytes) {
    forall i :: 0 <= i < |s| ==> s[i] == s[0]
  }

  predicate RunAt(s: Bytes, i: nat) {
    i + REPETITION_CUTOFF <= |s| && Constant(s[i..i + REPETITION_CUTOFF])
  }

  ghost predicate HasRun(s: Bytes) {
    exists i: nat :: RunAt(s, i)
  }

  function Count(s: Bytes, v: byte): nat {
    if s == [] then 0 else Count(s[..|s| - 1], v) + if s[|s| - 1] == v then 1 else 0
  }

  /** The first value of the window fills `cutoff` places of it; one place never does. */
  predicate Crowded(w: Bytes, cutoff: nat) {
    w != [] && Count(w, w[0]) >= Max(cutoff, 2)
  }

  /** The `k`th aligned window of width `width`, as much of it as the stream holds. */
  function Window(s: Bytes, width: nat, k: nat): Bytes {
    var start := k * width;
    if start >= |s| then [] else if start + width >= |s| then s[start..] else s[start..start + width]
  }

  ghost predicate HasCrowdedWindow(s: Bytes, width: nat, cutoff: nat) {
    exists k: nat :: Crowded(Window(s, width, k), cutoff)
  }

  /** A width of zero starts inside a window that counts zeros, which only a cutoff below two can fail. */
  predicate ZeroStart(s: Bytes, width: nat, cutoff: nat) {
    width == 0 && cutoff <= 1 && s != [] && s[0] == 0
  }

  ghost predicate Bad(s: Bytes, width: nat, cutoff: nat) {
    HasRun(s) || HasCrowdedWindow(s, Max(width, 1), cutoff) || ZeroStart(s, width, cutoff)
  }

  // ---- Runs ----

  /** The length of the run a stream ends with. */
  function TrailingRun(s: Bytes): nat {
    if s == [] then 0
    else if |s| >= 2 && s[|s| - 2] == s[|s| - 1] then TrailingRun(s[..|s| - 1]) + 1
    else 1
  }

  lemma {:induction false} TrailingRunExact(s: Bytes, n: nat)
    requires 1 <= n <= |s|
    ensures TrailingRun(s) >= n <==> Constant(s[|s| - n..])
  {
    if n > 1 {
      var p := s[..|s| - 1];
      TrailingRunExact(p, n - 1);
      ConstantGrows(p[|p| - (n - 1)..], s[|s| - 1]);
      assert p[|p| - (n - 1)..] + [s[|s| - 1]] == s[|s| - n..];
    }
  }

  lemma ConstantGrows(w: Bytes, b: byte)
    requires w != []
    ensures Constant(w + [b]) <==> Constant(w) && b == w[|w| - 1]
  {
    var v := w + [b];
    assert forall i :: 0 <= i < |w| ==> v[i] == w[i];
    assert v[|w|] == b;
    if Constant(v) {
      assert v[|w| - 1] == v[0];
    }
  }

  lemma RunGrows(p: Bytes, b: byte)
    ensures HasRun(p + [b]) <==> HasRun(p) || TrailingRun(p + [b]) >= REPETITION_CUTOFF
  {
    var s := p + [b];
    forall i: nat | i + REPETITION_CUTOFF <= |p| ensures RunAt(s, i) == RunAt(p, i) {
      assert p[i..i + REPETITION_CUTOFF] == s[i..i + REPETITION_CUTOFF];
    }
    TrailingRunWithin(s);
    if |s| >= REPETITION_CUTOFF {
      TrailingRunExact(s, REPETITION_CUTOFF);
      var i := |s| - REPETITION_CUTOFF;
      assert s[i..i + REPETITION_CUTOFF] == s[i..];
      assert RunAt(s, i) <==> TrailingRun(s) >= REPETITION_CUTOFF;
    }
    if HasRun(s) {
      var i: nat :| RunAt(s, i);
      assert i + REPETITION_CUTOFF <= |p| ==> RunAt(p, i);
    }
    if HasRun(p) {
      var i: nat :| RunAt(p, i);
      assert RunAt(s, i);
    }
  }

  lemma {:induction false} TrailingRunWithin(s: Bytes)
    ensures TrailingRun(s) <= |s|
    ensures s != [] ==> TrailingRun(s) >= 1
  {
    if |s| >= 2 {
      TrailingRunWithin(s[..|s| - 1]);
    }
  }

  // ---- Windows ----

  /** Which window the last octet of a stream is in. */
  function LastWindow(n: nat, width: nat): nat
    requires n > 0 && width > 0
  {
    if n <= width then 0 else LastWindow(n - width, width) + 1
  }

  lemma {:induction false} LastWindowExact(n: nat, width: nat)
    requires n > 0 && width > 0
    ensures var k := LastWindow(n, width); k * width < n <= k * width + width
    decreases n
  {
    if n > width {
      LastWindowExact(n - width, width);
      var k := LastWindow(n - width, width);
      assert (k + 1) * width == k * width + width;
    }
  }

  lemma WindowsDoNotOverlap(j: nat, k: nat, width: nat)
    requires j < k
    ensures j * width + width <= k * width
  {
    assert (k - j - 1) * width >= 0;
    assert k * width == j * width + width + (k - j - 1) * width;
  }

  lemma LastWindowUnique(n: nat, width: nat, k: nat)
    requires n > 0 && width > 0 && k * width < n <= k * width + width
    ensures k == LastWindow(n, width)
  {
    LastWindowExact(n, width);
    var l := LastWindow(n, width);
    if k < l {
      WindowsDoNotOverlap(k, l, width);
    } else if l < k {
      WindowsDoNotOverlap(l, k, width);
    }
  }

  /** The window in progress at the end of a stream. */
  function Current(s: Bytes, width: nat): (r: Bytes)
    requires s != [] && width > 0
    ensures 1 <= |r| <= width
  {
    LastWindowExact(|s|, width);
    Window(s, width, LastWindow(|s|, width))
  }

  /** A finished window starts another; an unfinished one takes the octet in. */
  lemma CurrentGrows(p: Bytes, b: byte, width: nat)
    requires p != [] && width > 0
    ensures Current(p + [b], width) == if |Current(p, width)| >= width then [b] else Current(p, width) + [b]
  {
    var k := LastWindow(|p|, width);
    var s := p + [b];
    LastWindowExact(|p|, width);
    assert Current(p, width) == p[k * width..];
    if |p| == k * width + width {
      assert (k + 1) * width == |p|;
      LastWindowUnique(|s|, width, k + 1);
      assert s[|p|..] == [b];
    } else {
      LastWindowUnique(|s|, width, k);
      assert s[k * width..] == p[k * width..] + [b];
    }
  }

  lemma CrowdGrows(w: Bytes, b: byte, cutoff: nat)
    requires w != []
    ensures (w + [b])[0] == w[0]
    ensures Count(w + [b], w[0]) == Count(w, w[0]) + if b == w[0] then 1 else 0
  {
  }

  lemma {:induction false} CountsItself(w: Bytes)
    requires w != []
    ensures Count(w, w[0]) >= 1
    decreases |w|
  {
    if |w| > 1 {
      CountsItself(w[..|w| - 1]);
    }
  }

  lemma CrowdedWindowGrows(p: Bytes, b: byte, width: nat, cutoff: nat)
    requires width > 0
    ensures HasCrowdedWindow(p + [b], width, cutoff)
       <==> HasCrowdedWindow(p, width, cutoff) || Crowded(Current(p + [b], width), cutoff)
  {
    var s := p + [b];
    var l := LastWindow(|s|, width);
    assert Current(s, width) == Window(s, width, l);
    LastWindowGrows(p, b, width, cutoff);
    forall k: nat | k != l ensures Window(s, width, k) == Window(p, width, k) {
      OtherWindowsStay(p, b, width, k);
    }
    hide Window, Crowded, Current;
    if HasCrowdedWindow(p, width, cutoff) {
      var k: nat :| Crowded(Window(p, width, k), cutoff);
      assert Crowded(Window(s, width, k), cutoff);
    }
    if HasCrowdedWindow(s, width, cutoff) {
      var k: nat :| Crowded(Window(s, width, k), cutoff);
      assert k != l ==> Crowded(Window(p, width, k), cutoff);
    }
  }

  /** A crowded last window stays crowded. */
  lemma LastWindowGrows(p: Bytes, b: byte, width: nat, cutoff: nat)
    requires width > 0
    ensures var l := LastWindow(|p| + 1, width);
            Crowded(Window(p, width, l), cutoff) ==> Crowded(Window(p + [b], width, l), cutoff)
  {
    var l := LastWindow(|p| + 1, width);
    LastWindowExact(|p| + 1, width);
    var w := Window(p, width, l);
    assert Window(p + [b], width, l) == w + [b];
    if w != [] {
      CrowdGrows(w, b, cutoff);
    }
  }

  lemma OtherWindowsStay(p: Bytes, b: byte, width: nat, k: nat)
    requires width > 0 && k != LastWindow(|p| + 1, width)
    ensures Window(p + [b], width, k) == Window(p, width, k)
  {
    var l := LastWindow(|p| + 1, width);
    LastWindowExact(|p| + 1, width);
    if k < l {
      WindowsDoNotOverlap(k, l, width);
      assert (p + [b])[k * width..k * width + width] == p[k * width..k * width + width];
    } else {
      WindowsDoNotOverlap(l, k, width);
    }
  }

  // ---- The counters track the stream ----

  /** What the counters hold after the stream `p` has passed. */
  predicate Tracks(t: Counters, p: Bytes, width: nat, cutoff: nat) {
    var w := Max(width, 1);
    && t.window == w && t.cutoff == cutoff
    && if p == [] then t == Fresh(width, cutoff)
       else
         && t.last == Some(p[|p| - 1])
         && t.repetitions == TrailingRun(p) < REPETITION_CUTOFF
         && t.windowSeen == |Current(p, w)|
         && (w > 1 ==> t.windowValue == Current(p, w)[0] && t.windowCount == Count(Current(p, w), t.windowValue))
  }

  lemma RepetitionTracks(p: Bytes, b: byte)
    ensures TrailingRun(p + [b]) == if p != [] && p[|p| - 1] == b then TrailingRun(p) + 1 else 1
  {
    var s := p + [b];
    assert s[..|s| - 1] == p && s[|s| - 1] == b;
    if p != [] {
      assert s[|s| - 2] == p[|p| - 1];
    }
  }

  /** An octet fails exactly when it makes a stream that was not bad bad. */
  lemma FeedTracks(t: Counters, p: Bytes, b: byte, width: nat, cutoff: nat)
    requires Tracks(t, p, width, cutoff) && !Bad(p, width, cutoff)
    ensures var (t1, v) := Feed(t, b);
            if v == Passed then Tracks(t1, p + [b], width, cutoff) && !Bad(p + [b], width, cutoff)
            else Bad(p + [b], width, cutoff) && (v == RepetitionCount <==> HasRun(p + [b]))
  {
    hide HasRun, HasCrowdedWindow, TrailingRun, Current, Crowded, Feed;
    RunGrows(p, b);
    RepetitionTracks(p, b);
    CrowdedWindowGrows(p, b, Max(width, 1), cutoff);
    assert (p + [b])[|p|] == b;
    if p == [] {
      assert p + [b] == [b];
      FirstFeedTracks(b, width, cutoff);
    } else {
      assert (p + [b])[0] == p[0];
      NextFeedTracks(t, p, b, width, cutoff);
    }
  }

  lemma FirstFeedTracks(b: byte, width: nat, cutoff: nat)
    requires HasRun([b]) <==> TrailingRun([b]) >= REPETITION_CUTOFF
    requires HasCrowdedWindow([b], Max(width, 1), cutoff) <==> Crowded(Current([b], Max(width, 1)), cutoff)
    ensures var (t1, v) := Feed(Fresh(width, cutoff), b);
            if v == Passed then Tracks(t1, [b], width, cutoff) && !Bad([b], width, cutoff)
            else Bad([b], width, cutoff) && (v == RepetitionCount <==> HasRun([b]))
  {
  }

  lemma NextFeedTracks(t: Counters, p: Bytes, b: byte, width: nat, cutoff: nat)
    requires p != [] && Tracks(t, p, width, cutoff) && !Bad(p, width, cutoff)
    requires HasRun(p + [b]) <==> HasRun(p) || TrailingRun(p + [b]) >= REPETITION_CUTOFF
    requires TrailingRun(p + [b]) == if p[|p| - 1] == b then TrailingRun(p) + 1 else 1
    requires HasCrowdedWindow(p + [b], Max(width, 1), cutoff)
        <==> HasCrowdedWindow(p, Max(width, 1), cutoff) || Crowded(Current(p + [b], Max(width, 1)), cutoff)
    ensures var (t1, v) := Feed(t, b);
            if v == Passed then Tracks(t1, p + [b], width, cutoff) && !Bad(p + [b], width, cutoff)
            else Bad(p + [b], width, cutoff) && (v == RepetitionCount <==> HasRun(p + [b]))
  {
    hide Current, HasRun, HasCrowdedWindow, TrailingRun, Count;
    var w := Max(width, 1);
    var c := Current(p, w);
    CurrentGrows(p, b, w);
    CrowdGrows(c, b, cutoff);
    CountsItself(c);
    assert (p + [b])[0] == p[0] && (p + [b])[|p|] == b;
    OneCounts(b);
    NotCrowdedYet(p, w, cutoff);
  }

  lemma OneCounts(b: byte)
    ensures Count([b], b) == 1
  {
    assert [b][..0] == [];
  }

  /** The window in progress of a stream that is not bad is not crowded. */
  lemma NotCrowdedYet(p: Bytes, width: nat, cutoff: nat)
    requires p != [] && width > 0 && !HasCrowdedWindow(p, width, cutoff)
    ensures !Crowded(Current(p, width), cutoff)
  {
  }

  lemma BadGrows(p: Bytes, b: byte, width: nat, cutoff: nat)
    requires Bad(p, width, cutoff)
    ensures Bad(p + [b], width, cutoff)
  {
    RunGrows(p, b);
    CrowdedWindowGrows(p, b, Max(width, 1), cutoff);
    assert p != [] ==> (p + [b])[0] == p[0];
  }

  lemma {:induction false} BadStays(p: Bytes, data: Bytes, width: nat, cutoff: nat)
    requires Bad(p, width, cutoff)
    ensures Bad(p + data, width, cutoff)
    decreases |data|
  {
    hide Bad;
    if data == [] {
      assert p + data == p;
    } else {
      BadGrows(p, data[0], width, cutoff);
      BadStays(p + [data[0]], data[1..], width, cutoff);
      assert p + [data[0]] + data[1..] == p + data;
    }
  }

  // ---- Which octet, which test ----

  /** How many octets are looked at: all, or those up to the first that fails. */
  function Consumed(t: Counters, data: Bytes): nat
    decreases |data|
  {
    if data == [] then 0
    else
      var (t1, v) := Feed(t, data[0]);
      if v != Passed then 1 else 1 + Consumed(t1, data[1..])
  }

  lemma {:induction false} ConsumedTracks(t: Counters, p: Bytes, data: Bytes, width: nat, cutoff: nat)
    requires Tracks(t, p, width, cutoff) && !Bad(p, width, cutoff)
    ensures var n, v := Consumed(t, data), FeedAll(t, data).1;
            && n <= |data|
            && FeedAll(t, data[..n]) == FeedAll(t, data)
            && if v == Passed then n == |data| && !Bad(p + data, width, cutoff)
               else
                 && n > 0 && !Bad(p + data[..n - 1], width, cutoff) && Bad(p + data[..n], width, cutoff)
                 && (v == RepetitionCount <==> HasRun(p + data[..n]))
    decreases |data|
  {
    hide Bad, Tracks, Feed, HasRun;
    if data == [] {
      assert data[..0] == data && p + data == p;
    } else {
      var b, rest := data[0], data[1..];
      var (t1, v) := Feed(t, b);
      FeedTracks(t, p, b, width, cutoff);
      var n := Consumed(t, data);
      if v == Passed {
        ConsumedTracks(t1, p + [b], rest, width, cutoff);
        assert p + [b] + rest == p + data;
        assert data[..n][0] == b && data[..n][1..] == rest[..n - 1];
        assert p + [b] + rest[..n - 1] == p + data[..n];
        if n > 1 {
          assert p + [b] + rest[..n - 2] == p + data[..n - 1];
        }
      } else {
        assert data[..1] == [b] && data[..1][1..] == [];
        assert p + data[..0] == p;
      }
    }
  }

  lemma FreshTracks(width: nat, cutoff: nat)
    ensures Tracks(Fresh(width, cutoff), [], width, cutoff) && !Bad([], width, cutoff)
  {
    assert forall k: nat :: Window([], Max(width, 1), k) == [];
  }

  lemma NotBadBefore(data: Bytes, m: nat, n: nat, width: nat, cutoff: nat)
    requires m <= n <= |data| && !Bad(data[..n], width, cutoff)
    ensures !Bad(data[..m], width, cutoff)
  {
    hide Bad;
    assert data[..m] + data[m..n] == data[..n];
    if Bad(data[..m], width, cutoff) {
      BadStays(data[..m], data[m..n], width, cutoff);
    }
  }

  // ---- Main results ----

  /** A fresh source fails exactly when its stream holds a run or a crowded window. */
  lemma FreshCheckIsExact(data: Bytes, width: nat, cutoff: nat)
    ensures FeedAll(Fresh(width, cutoff), data).1 == Passed <==> !Bad(data, width, cutoff)
  {
    hide Bad, HasRun, Tracks, FeedAll, Consumed, Fresh;
    FreshTracks(width, cutoff);
    ConsumedTracks(Fresh(width, cutoff), [], data, width, cutoff);
    var n := Consumed(Fresh(width, cutoff), data);
    assert [] + data == data && [] + data[..n] == data[..n] && data[..|data|] == data;
    if !Bad(data, width, cutoff) {
      NotBadBefore(data, n, |data|, width, cutoff);
    }
  }

  /** A fresh check stops at the first octet that makes the stream bad, and at no other. The
    repetition count fails there if that octet ends a run, the adaptive proportion otherwise. */
  lemma FirstFailureIsExact(data: Bytes, width: nat, cutoff: nat)
    ensures var start := Fresh(width, cutoff);
            var n, v := Consumed(start, data), FeedAll(start, data).1;
            && n <= |data|
            && FeedAll(start, data) == FeedAll(start, data[..n])
            && if v == Passed then n == |data|
               else
                 && n > 0 && Bad(data[..n], width, cutoff)
                 && (forall m :: 0 <= m < n ==> !Bad(data[..m], width, cutoff))
                 && v == if HasRun(data[..n]) then RepetitionCount else AdaptiveProportion
  {
    hide Bad, HasRun, Tracks, FeedAll, Consumed, Fresh;
    var start := Fresh(width, cutoff);
    FreshTracks(width, cutoff);
    ConsumedTracks(start, [], data, width, cutoff);
    var n := Consumed(start, data);
    assert [] + data[..n] == data[..n];
    if FeedAll(start, data).1 != Passed {
      assert [] + data[..n - 1] == data[..n - 1];
      forall m | 0 <= m < n ensures !Bad(data[..m], width, cutoff) {
        NotBadBefore(data, m, n - 1, width, cutoff);
      }
    }
  }

  /** Checking chunk by chunk is checking the concatenation. */
  lemma {:induction false} ChunksConcatenate(t: Counters, a: Bytes, b: Bytes)
    ensures FeedAll(t, a + b)
         == var (t1, v) := FeedAll(t, a); if v == Passed then FeedAll(t1, b) else (t1, v)
    decreases |a|
  {
    if a == [] {
      assert a + b == b;
    } else {
      var (t1, v) := Feed(t, a[0]);
      assert (a + b)[0] == a[0] && (a + b)[1..] == a[1..] + b;
      ChunksConcatenate(t1, a[1..], b);
    }
  }
}
