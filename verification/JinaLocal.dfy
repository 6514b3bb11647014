/**
 The local embedding provider (jina_local.py): spans between blank-line separators, and the sliding
 window that hands them to the model.  The tokenizer is an arbitrary length function of the text.
 */
module JinaLocal {
  import opened Basics

  datatype Span = Span(start: nat, end: nat) {
    predicate Holds(p: nat) { start <= p < end }
  }

  /** Spans j and k are non-empty, within n characters, in order and without overlap. */
  ghost predicate InOrder(spans: seq<Span>, j: nat, k: nat, n: nat)
    requires j <= k < |spans|
  {
    spans[j].start < spans[j].end <= n && (j < k ==> spans[j].end <= spans[k].start)
  }

  /** Non-empty intervals of a text of n characters, in order and without overlap. */
  ghost predicate Ordered(spans: seq<Span>, n: nat) {
    forall j, k :: 0 <= j <= k < |spans| ==> InOrder(spans, j, k, n)
  }

  lemma OrderedMeans(spans: seq<Span>, n: nat)
    ensures Ordered(spans, n) <==>
              && (forall k :: 0 <= k < |spans| ==> spans[k].start < spans[k].end <= n)
              && (forall j, k :: 0 <= j < k < |spans| ==> spans[j].end <= spans[k].start)
  {
    if Ordered(spans, n) {
      forall k | 0 <= k < |spans| ensures spans[k].start < spans[k].end <= n {
        assert InOrder(spans, k, k, n);
      }
      forall j, k | 0 <= j < k < |spans| ensures spans[j].end <= spans[k].start {
        assert InOrder(spans, j, k, n);
      }
    }
  }

  lemma OrderedWithin(spans: seq<Span>, m: nat, n: nat)
    requires Ordered(spans, m) && m <= n
    ensures Ordered(spans, n)
  {
    forall j, k | 0 <= j <= k < |spans| ensures InOrder(spans, j, k, n) {
      assert InOrder(spans, j, k, m);
    }
  }

  lemma OrderedSnoc(spans: seq<Span>, start: nat, end: nat)
    requires Ordered(spans, start) && start < end
    ensures Ordered(spans + [Span(start, end)], end)
  {
    OrderedMeans(spans, start);
    OrderedMeans(spans + [Span(start, end)], end);
  }

  ghost predicate Covers(spans: seq<Span>, p: nat) {
    exists k :: 0 <= k < |spans| && spans[k].Holds(p)
  }

  // ---------------------------------------------------------------- spans

  /** Of the first n characters, those outside the separators are in spans, and no others. */
  ghost predicate Tiled(spans: seq<Span>, separators: seq<Span>, n: nat) {
    forall p: nat :: p < n ==> (Covers(spans, p) <==> !Covers(separators, p))
  }

  /** Spans do not touch: each is a longest run of characters outside the separators. */
  ghost predicate Apart(spans: seq<Span>) {
    forall j, k :: 0 <= j < k < |spans| ==> spans[j].end < spans[k].start
  }

  lemma CoversSnoc(spans: seq<Span>, s: Span, p: nat)
    ensures Covers(spans + [s], p) <==> Covers(spans, p) || s.Holds(p)
  {
    var more := spans + [s];
    if Covers(spans, p) {
      var k :| 0 <= k < |spans| && spans[k].Holds(p);
      assert more[k].Holds(p);
    }
    if s.Holds(p) {
      assert more[|spans|].Holds(p);
    }
  }

  /** The text from `start` to the separator at `end` becomes a span. */
  lemma AddSpan(spans: seq<Span>, separators: seq<Span>, k: nat, start: nat, end: nat)
    requires k <= |separators| && Tiled(spans, separators, start) && start < end
    requires forall j :: 0 <= j < k ==> separators[j].end <= start
    requires forall j :: k <= j < |separators| ==> end <= separators[j].start
    requires forall j :: 0 <= j < |spans| ==> spans[j].end <= start
    ensures Tiled(spans + [Span(start, end)], separators, end)
  {
    forall p: nat | p < end ensures Covers(spans + [Span(start, end)], p) <==> !Covers(separators, p) {
      CoversSnoc(spans, Span(start, end), p);
    }
  }

  lemma SkipSeparator(spans: seq<Span>, separators: seq<Span>, k: nat)
    requires k < |separators| && Tiled(spans, separators, separators[k].start)
    requires forall j :: 0 <= j < |spans| ==> spans[j].end <= separators[k].start
    ensures Tiled(spans, separators, separators[k].end)
  {
    forall p: nat | separators[k].start <= p < separators[k].end ensures Covers(separators, p) && !Covers(spans, p) {
      assert separators[k].Holds(p);
    }
  }

  /**
   Theorem: for any separators found in a text, the spans are non-empty, in order, never touch, and
   every character is in a span or in a separator, never both.
   */
  method IdentifySpans(text: string, separators: seq<Span>) returns (spans: seq<Span>)
    requires Ordered(separators, |text|)
    ensures Ordered(spans, |text|) && Apart(spans) && Tiled(spans, separators, |text|)
  {
    OrderedMeans(separators, |text|);
    spans := [];
    var start: nat := 0;
    for k := 0 to |separators|
      invariant start <= |text| && Ordered(spans, start) && Apart(spans) && Tiled(spans, separators, start)
      invariant forall j :: 0 <= j < |spans| ==> spans[j].end < start
      invariant forall j :: 0 <= j < k ==> separators[j].end <= start
      invariant forall j :: k <= j < |separators| ==> start <= separators[j].start
    {
      var end := separators[k].start;
      if end > start {
        AddSpan(spans, separators, k, start, end);
        OrderedSnoc(spans, start, end);
        spans := spans + [Span(start, end)];
      }
      SkipSeparator(spans, separators, k);
      OrderedWithin(spans, end, separators[k].end);
      start := separators[k].end;
    }
    if start < |text| {
      AddSpan(spans, separators, |separators|, start, |text|);
      OrderedSnoc(spans, start, |text|);
      spans := spans + [Span(start, |text|)];
    }
  }

  // ---------------------------------------------------------------- windows

  const MAX_LENGTH := 8192
  const TOKEN_LIMIT := MAX_LENGTH - 2
  const CHAR_WINDOW_LIMIT := (MAX_LENGTH - 500) * 4

  /** One call of the model: a stretch of the text and the spans pooled from it. */
  datatype Window = Window(start: nat, end: nat, spans: seq<Span>)

  /** The stretch of the text is no more than the model takes, which is 8192 tokens with two special ones. */
  ghost predicate Fits(text: string, length: string -> nat, start: nat, end: nat) {
    start <= end <= |text| && length(text[start..end]) <= 8190
  }

  /** From span hi on, every span starts outside the 30768 characters of the window or makes it too long. */
  ghost predicate Stopped(text: string, length: string -> nat, spans: seq<Span>, start: nat, hi: nat) {
    forall h :: hi <= h < |spans| ==> spans[h].start >= start + 30768 || !Fits(text, length, start, spans[h].end)
  }

  /** The next window starts where the last one ended, or with its first span if that is outside the character window. */
  ghost predicate StartsAt(spans: seq<Span>, lo: nat, from: nat, start: nat)
    requires lo < |spans|
  {
    start == if spans[lo].start < from + 30768 then from else spans[lo].start
  }

  /**
   A window whose first span is spans[lo], after one that ended at `from`: it ends with its last span, which starts
   inside the character window, fits the token limit unless it has a single span, and has as many spans as the limits allow.
   */
  ghost predicate Proper(text: string, length: string -> nat, spans: seq<Span>, w: Window, lo: nat, from: nat) {
    var hi := lo + |w.spans|;
    && lo < hi <= |spans|
    && StartsAt(spans, lo, from, w.start) && w.start <= spans[lo].start && w.end == spans[hi-1].end
    && spans[hi-1].start < w.start + 30768
    && (hi == lo + 1 || Fits(text, length, w.start, w.end))
    && Stopped(text, length, spans, w.start, hi)
  }

  /** Where the last window ended. */
  function EndOf(windows: seq<Window>): nat { if windows == [] then 0 else windows[|windows|-1].end }

  /** The windows take the first n spans, each window going on where the one before stopped. */
  ghost predicate Consecutive(text: string, length: string -> nat, spans: seq<Span>, windows: seq<Window>, n: nat)
    decreases |windows|
  {
    if windows == [] then n == 0
    else
      var before, w := windows[..|windows|-1], windows[|windows|-1];
      && |w.spans| <= n && Proper(text, length, spans, w, n - |w.spans|, EndOf(before))
      && Consecutive(text, length, spans, before, n - |w.spans|)
  }

  lemma NextWindow(text: string, length: string -> nat, spans: seq<Span>, windows: seq<Window>, w: Window, n: nat)
    requires Consecutive(text, length, spans, windows, n) && Proper(text, length, spans, w, n, EndOf(windows))
    ensures Consecutive(text, length, spans, windows + [w], n + |w.spans|)
  {
    assert (windows + [w])[..|windows|] == windows;
  }

  /** The spans in the order in which the model gets them. */
  function Handed(windows: seq<Window>): seq<Span>
    decreases |windows|
  {
    if windows == [] then [] else Handed(windows[..|windows|-1]) + windows[|windows|-1].spans
  }

  lemma OneMoreWindow(spans: seq<Span>, windows: seq<Window>, w: Window, done: nat)
    requires done + |w.spans| <= |spans| && w.spans == spans[done..done + |w.spans|]
    requires Handed(windows) == spans[..done]
    ensures Handed(windows + [w]) == spans[..done + |w.spans|]
  {
    assert (windows + [w])[..|windows|] == windows;
  }

  /** The first span that starts at or after `current`, delivered or not. */
  method NextStart(spans: seq<Span>, current: nat) returns (next: int)
    ensures next == -1 ==> forall k :: 0 <= k < |spans| ==> spans[k].start < current
    ensures next != -1 ==> exists k :: 0 <= k < |spans| && next == spans[k].start >= current
                                       && forall j :: 0 <= j < k ==> spans[j].start < current
  {
    for i := 0 to |spans|
      invariant forall k :: 0 <= k < i ==> spans[k].start < current
    {
      if spans[i].start >= current {
        return spans[i].start;
      }
    }
    return -1;
  }

  /** Drops spans from the end until the window fits or only one is left. */
  method Shrink(text: string, length: string -> nat, spans: seq<Span>, current: nat, selected: seq<Span>,
                ghost done: nat, ghost upTo: nat)
      returns (window: Window)
    requires done < upTo <= |spans| && selected == spans[done..upTo]
    requires forall k :: done <= k < upTo ==> current <= spans[k].start < spans[k].end <= |text|
    requires forall k :: done <= k < upTo ==> spans[k].start < current + CHAR_WINDOW_LIMIT
    requires Stopped(text, length, spans, current, upTo)
    ensures window.start == current && 1 <= |window.spans| <= upTo - done
    ensures window.spans == spans[done..done + |window.spans|] && window.end == spans[done + |window.spans| - 1].end
    ensures spans[done + |window.spans| - 1].start < current + CHAR_WINDOW_LIMIT
    ensures |window.spans| == 1 || Fits(text, length, current, window.end)
    ensures Stopped(text, length, spans, current, done + |window.spans|)
  {
    var kept := selected;
    var end := Min(kept[|kept|-1].end, |text|);
    while length(text[current..end]) > TOKEN_LIMIT && |kept| > 1
      invariant 1 <= |kept| <= upTo - done && kept == spans[done..done + |kept|]
      invariant end == spans[done + |kept| - 1].end && current < end <= |text|
      invariant Stopped(text, length, spans, current, done + |kept|)
      decreases |kept|
    {
      ghost var hi := done + |kept| - 1;
      assert !Fits(text, length, current, spans[hi].end);
      kept := kept[..|kept|-1];
      assert kept == spans[done..hi];
      end := kept[|kept|-1].end;
    }
    window := Window(current, end, kept);
  }

  function Elements(spans: seq<Span>): set<Span> { set s | s in spans }

  ghost predicate Placed(spans: seq<Span>, k: nat, done: nat, current: nat)
    requires k < |spans|
  {
    if k < done then spans[k].end <= current else current <= spans[k].start
  }

  /** The first `done` spans are delivered and lie before `current`; the others lie after it. */
  ghost predicate Between(spans: seq<Span>, seen: set<Span>, done: nat, current: nat) {
    && done <= |spans| && seen == Elements(spans[..done])
    && forall k :: 0 <= k < |spans| ==> Placed(spans, k, done, current)
  }

  lemma ElementsConcat(a: seq<Span>, b: seq<Span>)
    ensures Elements(a + b) == Elements(a) + Elements(b)
  {
  }

  lemma AfterWindow(spans: seq<Span>, n: nat, seen: set<Span>, done: nat, current: nat, w: Window)
    requires Ordered(spans, n) && Between(spans, seen, done, current)
    requires w.spans != [] && done + |w.spans| <= |spans| && w.spans == spans[done..done + |w.spans|]
    requires w.end == spans[done + |w.spans| - 1].end
    ensures Between(spans, seen + Elements(w.spans), done + |w.spans|, w.end)
  {
    OrderedMeans(spans, n);
    var to := done + |w.spans|;
    assert spans[..to] == spans[..done] + w.spans;
    ElementsConcat(spans[..done], w.spans);
    forall k | 0 <= k < |spans| ensures Placed(spans, k, to, w.end) {
      assert k < to - 1 ==> spans[k].end <= spans[to-1].start;
      assert k >= to ==> spans[to-1].end <= spans[k].start;
    }
  }

  lemma SeenOrNot(spans: seq<Span>, n: nat, done: nat, k: nat)
    requires Ordered(spans, n) && done <= |spans| && k < |spans|
    ensures spans[k] in Elements(spans[..done]) <==> k < done
  {
    OrderedMeans(spans, n);
    if k < done {
      assert spans[..done][k] == spans[k];
    } else {
      assert forall j :: 0 <= j < done ==> spans[..done][j] == spans[j] && spans[j].end <= spans[k].start;
    }
  }

  lemma NotYetSeen(spans: seq<Span>, n: nat, seen: set<Span>, done: nat, current: nat)
    requires Ordered(spans, n) && Between(spans, seen, done, current)
    ensures forall k :: 0 <= k < done ==> spans[k] in seen
    ensures forall k :: done <= k < |spans| ==> spans[k] !in seen && current <= spans[k].start
    ensures done > 0 ==> spans[done-1].end <= current
  {
    forall k | 0 <= k < |spans| ensures (spans[k] in seen <==> k < done) && Placed(spans, k, done, current) {
      SeenOrNot(spans, n, done, k);
    }
  }

  /** The comprehension over all spans: what is not delivered yet and starts inside the character window. */
  method SelectSpans(spans: seq<Span>, current: nat, windowEnd: nat, seen: set<Span>, ghost done: nat)
      returns (selected: seq<Span>, ghost upTo: nat)
    requires done <= |spans| && forall k :: 0 <= k < done ==> spans[k] in seen
    requires forall k :: done <= k < |spans| ==> spans[k] !in seen && current <= spans[k].start
    requires forall j, k :: 0 <= j < k < |spans| ==> spans[j].start <= spans[k].start
    ensures done <= upTo <= |spans| && selected == spans[done..upTo]
    ensures forall k :: done <= k < upTo ==> current <= spans[k].start < windowEnd
    ensures upTo < |spans| ==> windowEnd <= spans[upTo].start
  {
    selected, upTo := [], done;
    for i := 0 to |spans|
      invariant done <= upTo <= |spans| && selected == spans[done..upTo]
      invariant forall k :: done <= k < upTo ==> current <= spans[k].start < windowEnd
      invariant if i <= done then upTo == done else upTo == i || (upTo < i && windowEnd <= spans[upTo].start)
    {
      if current <= spans[i].start < windowEnd && spans[i] !in seen {
        selected := selected + [spans[i]];
        upTo := i + 1;
      }
    }
  }

  lemma StartsInside(spans: seq<Span>, n: nat, k: nat, current: nat)
    requires Ordered(spans, n) && k < |spans| && Placed(spans, k, k, current)
    ensures current < n
  {
    OrderedMeans(spans, n);
  }

  lemma NothingLeft(spans: seq<Span>, n: nat, seen: set<Span>, done: nat, current: nat)
    requires Ordered(spans, n) && Between(spans, seen, done, current) && n <= current
    ensures done == |spans|
  {
    if done < |spans| {
      StartsInside(spans, n, done, current);
    }
  }

  /** The loop looks at the end of the last window, or at the next span if that is far off. */
  ghost predicate Reached(spans: seq<Span>, done: nat, from: nat, current: nat) {
    current == from || (done < |spans| && current == spans[done].start >= from + 30768)
  }

  /** The invariant of the sliding window. */
  ghost predicate Sliding(text: string, length: string -> nat, spans: seq<Span>, windows: seq<Window>, seen: set<Span>,
                          done: nat, current: nat)
  {
    && current <= |text| && Between(spans, seen, done, current) && Reached(spans, done, EndOf(windows), current)
    && Consecutive(text, length, spans, windows, done) && Handed(windows) == spans[..done]
  }

  lemma WindowTaken(text: string, length: string -> nat, spans: seq<Span>, windows: seq<Window>, seen: set<Span>,
                    done: nat, current: nat, w: Window)
    requires Ordered(spans, |text|) && Sliding(text, length, spans, windows, seen, done, current)
    requires w.end <= |text| && Proper(text, length, spans, w, done, EndOf(windows)) && w.spans == spans[done..done + |w.spans|]
    ensures Sliding(text, length, spans, windows + [w], seen + Elements(w.spans), done + |w.spans|, w.end)
  {
    OrderedMeans(spans, |text|);
    NextWindow(text, length, spans, windows, w, done);
    OneMoreWindow(spans, windows, w, done);
    AfterWindow(spans, |text|, seen, done, current, w);
  }

  /** Where the loop looks on when no span starts in the character window; -1 if no span is left. */
  method JumpAhead(text: string, length: string -> nat, spans: seq<Span>, windows: seq<Window>, seen: set<Span>,
                   ghost done: nat, current: nat)
      returns (start: int)
    requires Ordered(spans, |text|) && Sliding(text, length, spans, windows, seen, done, current)
    requires done < |spans| ==> current + 30768 <= spans[done].start
    ensures start == -1 ==> done == |spans|
    ensures start != -1 ==> start > current && Sliding(text, length, spans, windows, seen, done, start)
  {
    OrderedMeans(spans, |text|);
    forall k | 0 <= k < |spans|
      ensures Placed(spans, k, done, current)
      ensures (k < done ==> spans[k].start < current) && (k > done ==> spans[done].start <= spans[k].start)
    {
      assert spans[k].start < spans[k].end;
    }
    start := NextStart(spans, current);
    if start != -1 {
      assert done < |spans| && start == spans[done].start;
      assert forall k :: 0 <= k < |spans| ==> Placed(spans, k, done, current) ==> Placed(spans, k, done, start);
    }
  }

  /** The spans a window at `current` may take. */
  method Candidates(text: string, spans: seq<Span>, length: string -> nat, current: nat, seen: set<Span>, ghost done: nat)
      returns (selected: seq<Span>, ghost upTo: nat)
    requires Ordered(spans, |text|) && current < |text| && Between(spans, seen, done, current)
    ensures done <= upTo <= |spans| && selected == spans[done..upTo]
    ensures forall k :: done <= k < upTo ==> current <= spans[k].start < spans[k].end <= |text|
    ensures forall k :: done <= k < upTo ==> spans[k].start < current + CHAR_WINDOW_LIMIT
    ensures done > 0 ==> spans[done-1].end <= current
    ensures Stopped(text, length, spans, current, upTo)
    ensures selected == [] && done < |spans| ==> current + 30768 <= spans[done].start
    ensures selected != [] ==> spans[done].start < current + 30768
  {
    var windowEnd := Min(current + CHAR_WINDOW_LIMIT, |text|);
    OrderedMeans(spans, |text|);
    NotYetSeen(spans, |text|, seen, done, current);
    selected, upTo := SelectSpans(spans, current, windowEnd, seen, done);
  }

  /** The window that starts at `current`, unless no span starts in the character window. */
  method TakeWindow(text: string, spans: seq<Span>, length: string -> nat, current: nat, seen: set<Span>, ghost done: nat,
                    ghost from: nat)
      returns (window: Option<Window>)
    requires Ordered(spans, |text|) && current < |text| && Between(spans, seen, done, current) && Reached(spans, done, from, current)
    ensures window.None? && done < |spans| ==> current + 30768 <= spans[done].start
    ensures window.Some? ==>
              var w := window.value;
              && current < w.end <= |text| && Proper(text, length, spans, w, done, from)
              && w.spans == spans[done..done + |w.spans|]
  {
    var selected; ghost var upTo;
    selected, upTo := Candidates(text, spans, length, current, seen, done);
    if selected == [] {
      return None;
    }
    var w := Shrink(text, length, spans, current, selected, done, upTo);
    return Some(w);
  }

  method AddWindow(text: string, spans: seq<Span>, length: string -> nat, current: nat, seen: set<Span>, windows: seq<Window>,
                   ghost done: nat)
      returns (window: Option<Window>)
    requires Ordered(spans, |text|) && current < |text| && Sliding(text, length, spans, windows, seen, done, current)
    ensures window.None? && done < |spans| ==> current + 30768 <= spans[done].start
    ensures window.Some? ==>
              var w := window.value;
              && current < w.end
              && Sliding(text, length, spans, windows + [w], seen + Elements(w.spans), done + |w.spans|, w.end)
  {
    window := TakeWindow(text, spans, length, current, seen, done, EndOf(windows));
    if window.Some? {
      WindowTaken(text, length, spans, windows, seen, done, current, window.value);
    }
  }

  /** One turn of the loop; false if no span is left. */
  method Turn(text: string, spans: seq<Span>, length: string -> nat, current: nat, seen: set<Span>, windows: seq<Window>,
              ghost done: nat)
      returns (more: bool, next: nat, nowSeen: set<Span>, nowWindows: seq<Window>, ghost nowDone: nat)
    requires Ordered(spans, |text|) && current < |text| && Sliding(text, length, spans, windows, seen, done, current)
    ensures Sliding(text, length, spans, nowWindows, nowSeen, nowDone, next)
    ensures if more then next > current else nowDone == |spans|
  {
    hide Sliding, Ordered, Elements;
    var window := AddWindow(text, spans, length, current, seen, windows, done);
    if window.Some? {
      var w := window.value;
      return true, w.end, seen + Elements(w.spans), windows + [w], done + |w.spans|;
    }
    var start := JumpAhead(text, length, spans, windows, seen, done, current);
    if start == -1 {
      return false, current, seen, windows, done;
    } else {
      return true, start, seen, windows, done;
    }
  }

  method SlideWindow(text: string, spans: seq<Span>, length: string -> nat) returns (windows: seq<Window>)
    requires Ordered(spans, |text|)
    ensures Consecutive(text, length, spans, windows, |spans|) && Handed(windows) == spans
  {
    windows := [];
    var current: nat := 0;
    var seen: set<Span> := {};
    ghost var done: nat := 0;
    var more := true;
    while current < |text|
      invariant Sliding(text, length, spans, windows, seen, done, current)
      decreases |text| - current
    {
      more, current, seen, windows, done := Turn(text, spans, length, current, seen, windows, done);
      if !more {
        return;
      }
    }
    OrderedMeans(spans, |text|);
    NothingLeft(spans, |text|, seen, done, current);
  }

  /**
   Theorem: for any tokenizer, the loop ends and hands every span over exactly once, in order; each
   window fits the token limit or has a single span, and is closed no earlier than the limits demand.
   A text that fits as a whole is one window.
   */
  method ChunkAndEncode(text: string, separators: seq<Span>, length: string -> nat)
      returns (windows: seq<Window>, spans: seq<Span>)
    requires Ordered(separators, |text|)
    ensures Ordered(spans, |text|) && Apart(spans) && Tiled(spans, separators, |text|)
    ensures Handed(windows) == spans
    ensures spans != [] && length(text) <= 8190 ==> windows == [Window(0, |text|, spans)]
    ensures spans == [] || length(text) > 8190 ==> Consecutive(text, length, spans, windows, |spans|)
  {
    spans := IdentifySpans(text, separators);
    windows := [];
    if spans == [] {
      return;
    }
    if length(text) <= TOKEN_LIMIT {
      windows := [Window(0, |text|, spans)];
      return;
    }
    OrderedMeans(spans, |text|);
    windows := SlideWindow(text, spans, length);
  }
}
