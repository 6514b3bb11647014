/**
 The heading splitter (splitter_strategies.py).  Headings found in a text are given as matches; short
 sections wait and are merged into the next section, which is labelled with its heading path.
 */
module HeadingSplitter {
  import opened Basics
  import opened ParagraphSplitter
  import opened Texts

  /** A match of the heading pattern: where it starts, its level (number of # or 1 + clause depth), its title. */
  datatype Heading = Heading(start: nat, level: int, title: string)

  /** The matches of a pattern in a text of n characters. */
  ghost predicate InText(hs: seq<Heading>, n: nat) {
    && (forall i :: 0 <= i < |hs| ==> hs[i].start < n)
    && forall i, j :: 0 <= i < j < |hs| ==> hs[i].start < hs[j].start
  }

  // ---------------------------------------------------------------- heading paths

  /** s[:k] */
  function Upto<T>(s: seq<T>, k: int): seq<T> {
    if k >= 0 then s[..Min(k, |s|)] else s[..Max(|s| + k, 0)]
  }

  /** The heading stack after some headings; those without a title are ignored. */
  function StackOf(hs: seq<Heading>): seq<Heading>
    decreases |hs|
  {
    if hs == [] then []
    else
      var h := hs[|hs|-1];
      var stack := StackOf(hs[..|hs|-1]);
      if h.title == "" then stack else Upto(stack, h.level - 2) + [h]
  }

  /** The headings that have a title. */
  function WithTitle(hs: seq<Heading>): seq<Heading>
    decreases |hs|
  {
    if hs == [] then []
    else WithTitle(hs[..|hs|-1]) + if hs[|hs|-1].title == "" then [] else [hs[|hs|-1]]
  }

  function Titles(hs: seq<Heading>): seq<string> {
    seq(|hs|, k requires 0 <= k < |hs| => hs[k].title)
  }

  /** Heading j is open at the end of hs: no later heading has its level or a smaller one. */
  predicate IsOpen(hs: seq<Heading>, j: nat)
    requires j < |hs|
  {
    forall k :: j < k < |hs| ==> hs[j].level < hs[k].level
  }

  /** The open headings among the first n, in order. */
  function OpenAmong(hs: seq<Heading>, n: nat): seq<Heading>
    requires n <= |hs|
  {
    if n == 0 then [] else OpenAmong(hs, n - 1) + if IsOpen(hs, n - 1) then [hs[n-1]] else []
  }

  /** The chain of open headings: where the end of hs is in the outline. */
  function Chain(hs: seq<Heading>): seq<Heading> { OpenAmong(hs, |hs|) }

  function Above(hs: seq<Heading>, level: int): seq<Heading> {
    if hs == [] then []
    else Above(hs[..|hs|-1], level) + if hs[|hs|-1].level < level then [hs[|hs|-1]] else []
  }

  lemma AboveSnoc(hs: seq<Heading>, h: Heading, level: int)
    ensures Above(hs + [h], level) == Above(hs, level) + if h.level < level then [h] else []
  {
    assert (hs + [h])[..|hs|] == hs;
  }

  lemma IsOpenAfter(hs: seq<Heading>, h: Heading, j: nat)
    requires j < |hs|
    ensures IsOpen(hs + [h], j) <==> IsOpen(hs, j) && hs[j].level < h.level
  {
    var more := hs + [h];
    assert more[|hs|] == h;
    assert forall k :: 0 <= k < |hs| ==> more[k] == hs[k];
  }

  lemma {:induction false} OpenAfterOneMore(hs: seq<Heading>, h: Heading, n: nat)
    requires n <= |hs|
    ensures OpenAmong(hs + [h], n) == Above(OpenAmong(hs, n), h.level)
  {
    if n > 0 {
      OpenAfterOneMore(hs, h, n - 1);
      IsOpenAfter(hs, h, n - 1);
      AboveSnoc(OpenAmong(hs, n - 1), hs[n-1], h.level);
      assert OpenAmong(hs, n - 1) + [] == OpenAmong(hs, n - 1);
    }
  }

  lemma ChainSnoc(hs: seq<Heading>, h: Heading)
    ensures Chain(hs + [h]) == Above(Chain(hs), h.level) + [h]
  {
    OpenAfterOneMore(hs, h, |hs|);
  }

  ghost predicate Rising(hs: seq<Heading>) {
    forall i, j :: 0 <= i < j < |hs| ==> hs[i].level < hs[j].level
  }

  /** How many of the headings have a smaller level; if the levels rise, these come first. */
  lemma {:induction false} AboveIsPrefix(hs: seq<Heading>, level: int)
    requires Rising(hs)
    ensures |Above(hs, level)| <= |hs| && Above(hs, level) == hs[..|Above(hs, level)|]
    ensures forall k :: 0 <= k < |hs| ==> (hs[k].level < level <==> k < |Above(hs, level)|)
    decreases |hs|
  {
    if hs != [] {
      AboveIsPrefix(hs[..|hs|-1], level);
    }
  }

  lemma RisingSnoc(hs: seq<Heading>, n: nat, h: Heading)
    requires Rising(hs) && n <= |hs| && forall k :: 0 <= k < n ==> hs[k].level < h.level
    ensures Rising(hs[..n] + [h])
  {
  }

  lemma {:induction false} ChainRises(hs: seq<Heading>)
    ensures Rising(Chain(hs))
    decreases |hs|
  {
    if hs != [] {
      var before, h := hs[..|hs|-1], hs[|hs|-1];
      ChainRises(before);
      assert hs == before + [h];
      ChainSnoc(before, h);
      AboveIsPrefix(Chain(before), h.level);
      RisingSnoc(Chain(before), |Above(Chain(before), h.level)|, h);
    }
  }

  /**
   Level L - 2 headings stay on the stack, and these must be the open headings above the new one: either all
   levels from 2 to L - 1 are open, or none of the open headings has to be closed.
   */
  predicate Fits(hs: seq<Heading>, h: Heading) {
    |Above(Chain(hs), h.level)| == if h.level >= 2 then Min(h.level - 2, |Chain(hs)|) else Max(|Chain(hs)| + h.level - 2, 0)
  }

  lemma PrefixesDiffer(s: seq<Heading>, m: nat, n: nat, h: Heading)
    requires m <= |s| && n <= |s|
    ensures s[..m] + [h] == s[..n] + [h] <==> m == n
  {
    assert |s[..m] + [h]| == m + 1 && |s[..n] + [h]| == n + 1;
  }

  lemma StackSnoc(hs: seq<Heading>, h: Heading)
    requires h.title != ""
    ensures StackOf(hs + [h]) == Upto(StackOf(hs), h.level - 2) + [h]
  {
    assert (hs + [h])[..|hs|] == hs;
  }

  lemma KeptOrAbove(chain: seq<Heading>, h: Heading)
    requires Rising(chain)
    ensures Upto(chain, h.level - 2) + [h] == Above(chain, h.level) + [h]
       <==> |Above(chain, h.level)| == |Upto(chain, h.level - 2)|
  {
    AboveIsPrefix(chain, h.level);
    PrefixesDiffer(chain, |Upto(chain, h.level - 2)|, |Above(chain, h.level)|, h);
  }

  /** `hs` are the titled headings so far, and `stack` the heading stack. */
  lemma OneHeadingMore(stack: seq<Heading>, hs: seq<Heading>, h: Heading)
    requires stack == Chain(hs)
    ensures Upto(stack, h.level - 2) + [h] == Chain(hs + [h]) <==> Fits(hs, h)
  {
    assert Chain(hs + [h]) == Above(stack, h.level) + [h] by {
      ChainSnoc(hs, h);
    }
    ChainRises(hs);
    KeptOrAbove(stack, h);
  }

  /** Every heading path is the chain of open headings, among those with a title. */
  predicate AllChains(hs: seq<Heading>)
    decreases |hs|
  {
    hs == [] || (AllChains(hs[..|hs|-1]) && StackOf(hs) == Chain(WithTitle(hs)))
  }

  predicate AllFit(hs: seq<Heading>)
    decreases |hs|
  {
    hs == [] || (AllFit(hs[..|hs|-1]) && (hs[|hs|-1].title == "" || Fits(WithTitle(hs[..|hs|-1]), hs[|hs|-1])))
  }

  lemma WithTitleSnoc(before: seq<Heading>, h: Heading)
    ensures WithTitle(before + [h]) == if h.title == "" then WithTitle(before) else WithTitle(before) + [h]
    ensures h.title == "" ==> StackOf(before + [h]) == StackOf(before)
  {
    assert (before + [h])[..|before|] == before;
  }

  /** Theorem: for any headings every path is the chain of open ones exactly when every titled heading fits. */
  lemma {:induction false} PathsAreChains(hs: seq<Heading>)
    ensures AllChains(hs) <==> AllFit(hs)
    decreases |hs|
  {
    if hs != [] {
      var before, h := hs[..|hs|-1], hs[|hs|-1];
      PathsAreChains(before);
      assert hs == before + [h];
      WithTitleSnoc(before, h);
      if AllChains(before) {
        ChainHolds(before);
        if h.title != "" {
          StackSnoc(before, h);
          OneHeadingMore(StackOf(before), WithTitle(before), h);
        }
      }
    }
  }

  lemma ChainHolds(hs: seq<Heading>)
    requires AllChains(hs)
    ensures StackOf(hs) == Chain(WithTitle(hs))
  {
    if hs == [] {
      assert Chain(WithTitle(hs)) == [];
    }
  }

  /** Levels that start at 2, stay at 2 or more and rise by at most 1. */
  predicate Regular(hs: seq<Heading>)
    decreases |hs|
  {
    hs == [] || (Regular(hs[..|hs|-1]) && 2 <= hs[|hs|-1].level <= if |hs| == 1 then 2 else hs[|hs|-2].level + 1)
  }

  ghost predicate Levels(chain: seq<Heading>) {
    forall k :: 0 <= k < |chain| ==> chain[k].level == k + 2
  }

  lemma RegularStep(chain: seq<Heading>, h: Heading)
    requires 2 <= h.level <= |chain| + 2 && Levels(chain)
    ensures |Above(chain, h.level)| == h.level - 2 == |Upto(chain, h.level - 2)|
    ensures Levels(Above(chain, h.level) + [h])
  {
    AboveIsPrefix(chain, h.level);
    assert h.level - 2 < |chain| ==> chain[h.level - 2].level == h.level;
    assert h.level - 3 >= 0 ==> chain[h.level - 3].level == h.level - 1;
  }

  /** The open headings have levels 2, 3, ... up to that of the last heading. */
  lemma {:induction false} RegularChain(hs: seq<Heading>)
    requires Regular(hs) && hs != []
    ensures |Chain(hs)| == hs[|hs|-1].level - 1 && Levels(Chain(hs))
    ensures Fits(hs[..|hs|-1], hs[|hs|-1])
    decreases |hs|
  {
    var before, h := hs[..|hs|-1], hs[|hs|-1];
    assert hs == before + [h];
    if before == [] {
      assert Chain(before) == [];
    } else {
      RegularChain(before);
    }
    ChainSnoc(before, h);
    RegularStep(Chain(before), h);
  }

  /** Theorem: if the titled headings are regular, every heading path is the chain of open ones, with levels 2, 3, ... */
  lemma {:induction false} RegularPathsAreChains(hs: seq<Heading>)
    requires Regular(WithTitle(hs))
    ensures AllChains(hs)
    ensures Levels(StackOf(hs))
    decreases |hs|
  {
    if hs != [] {
      var before, h := hs[..|hs|-1], hs[|hs|-1];
      assert hs == before + [h];
      WithTitleSnoc(before, h);
      assert h.title != "" ==> WithTitle(hs)[..|WithTitle(hs)|-1] == WithTitle(before);
      RegularPathsAreChains(before);
      PathsAreChains(before);
      if h.title != "" {
        RegularChain(WithTitle(hs));
      }
      PathsAreChains(hs);
      ChainHolds(hs);
    }
  }

  lemma OfOne(a: Heading)
    requires a.title != ""
    ensures Chain([a]) == [a] == StackOf([a])
  {
    assert [a] == [] + [a];
    ChainSnoc([], a);
    StackSnoc([], a);
  }

  lemma OfTwo(a: Heading, b: Heading)
    requires a.level < b.level && a.title != "" && b.title != ""
    ensures Chain([a, b]) == [a, b] && StackOf([a, b]) == if b.level > 2 then [a, b] else [b]
  {
    assert [a, b] == [a] + [b] && [a] == [] + [a];
    OfOne(a);
    ChainSnoc([a], b);
    StackSnoc([a], b);
    AboveSnoc([], a, b.level);
  }

  lemma AboveOfTwo(a: Heading, b: Heading, level: int)
    requires a.level < level <= b.level
    ensures Above([a, b], level) == [a]
  {
    assert [a, b] == [a] + [b] && [a] == [] + [a];
    AboveSnoc([], a, level);
    AboveSnoc([a], b, level);
  }

  /** Two headings of level 4 under one of level 2: the second is taken for a child of the first. */
  lemma SkippedLevelNests(a: Heading, b: Heading, c: Heading)
    requires a.level == 2 && b.level == 4 && c.level == 4 && a.title != "" && b.title != "" && c.title != ""
    ensures Chain([a, b, c]) == [a, c] && StackOf([a, b, c]) == [a, b, c]
  {
    hide Chain, StackOf, Above;
    OfTwo(a, b);
    AboveOfTwo(a, b, 4);
    ChainSnoc([a, b], c);
    StackSnoc([a, b], c);
    assert Upto([a, b], 2) == [a, b];
    assert [a, b] + [c] == [a, b, c] && [a] + [c] == [a, c];
  }

  /** A heading of level 2 under one of level 1 loses its parent. */
  lemma TopLevelIsDropped(a: Heading, b: Heading)
    requires a.level == 1 && b.level == 2 && a.title != "" && b.title != ""
    ensures Chain([a, b]) == [a, b] && StackOf([a, b]) == [b]
  {
    OfTwo(a, b);
  }

  /** A heading of level 1 closes only the innermost heading of the path and nests under the others. */
  lemma TopLevelNests(hs: seq<Heading>, h: Heading)
    requires h.level == 1 && h.title != "" && StackOf(hs) != [] && forall k :: 0 <= k < |hs| ==> hs[k].level >= 1
    ensures Chain(WithTitle(hs + [h])) == [h]
    ensures StackOf(hs + [h]) == StackOf(hs)[..|StackOf(hs)|-1] + [h]
  {
    StackSnoc(hs, h);
    WithTitleSnoc(hs, h);
    ChainSnoc(WithTitle(hs), h);
    NoneAboveTop(hs, |WithTitle(hs)|);
  }

  lemma {:induction false} TitledAreAmong(hs: seq<Heading>)
    ensures forall h :: h in WithTitle(hs) ==> h in hs
    decreases |hs|
  {
    if hs != [] {
      TitledAreAmong(hs[..|hs|-1]);
    }
  }

  lemma {:induction false} NoneAboveTop(hs: seq<Heading>, n: nat)
    requires n <= |WithTitle(hs)| && forall k :: 0 <= k < |hs| ==> hs[k].level >= 1
    ensures Above(OpenAmong(WithTitle(hs), n), 1) == []
  {
    if n > 0 {
      NoneAboveTop(hs, n - 1);
      TitledAreAmong(hs);
      assert WithTitle(hs)[n-1] in hs;
      AboveSnoc(OpenAmong(WithTitle(hs), n - 1), WithTitle(hs)[n-1], 1);
      assert OpenAmong(WithTitle(hs), n - 1) + [] == OpenAmong(WithTitle(hs), n - 1);
    }
  }

  // ---------------------------------------------------------------- short sections wait

  const SHORT := 150

  /** Where heading n starts; behind the last heading, the end of the text. */
  function StartOf(text: string, hs: seq<Heading>, n: nat): nat {
    if n < |hs| then hs[n].start else |text|
  }

  /** The text from heading i up to the next one. */
  function Segment(text: string, hs: seq<Heading>, i: nat): string {
    Slice(text, 0, StartOf(text, hs, i), StartOf(text, hs, i + 1))
  }

  predicate Waits(text: string, hs: seq<Heading>, i: nat) {
    |Strip(Segment(text, hs, i))| < SHORT && i + 1 < |hs|
  }

  /** Headings whose sections are merged, oldest first, and those that still wait. */
  datatype Scanned = Scanned(groups: seq<seq<nat>>, pending: seq<nat>)

  function Scan(text: string, hs: seq<Heading>, n: nat): Scanned
    requires n <= |hs|
  {
    if n == 0 then Scanned([], [])
    else
      var s, i := Scan(text, hs, n - 1), n - 1;
      if hs[i].title == "" then s
      else if Waits(text, hs, i) then s.(pending := s.pending + [i])
      else Scanned(s.groups + [s.pending + [i]], [])
  }

  /** One heading more: without a title it changes nothing, else its section waits or closes a group. */
  lemma ScanAfter(text: string, hs: seq<Heading>, n: nat)
    requires n < |hs|
    ensures var s := Scan(text, hs, n);
            Scan(text, hs, n + 1) ==
            if hs[n].title == "" then s
            else if Waits(text, hs, n) then s.(pending := s.pending + [n])
            else Scanned(s.groups + [s.pending + [n]], [])
  {
  }

  function Titled(hs: seq<Heading>, n: nat): seq<nat>
    requires n <= |hs|
  {
    if n == 0 then [] else Titled(hs, n - 1) + if hs[n-1].title == "" then [] else [n - 1]
  }

  /** Theorem: every titled section is in exactly one group or still waits, in order. */
  lemma {:induction false} EverySectionOnce(text: string, hs: seq<Heading>, n: nat)
    requires n <= |hs|
    ensures Flatten(Scan(text, hs, n).groups) + Scan(text, hs, n).pending == Titled(hs, n)
  {
    if n > 0 {
      var s := Scan(text, hs, n - 1);
      var flat: seq<nat> := Flatten(s.groups);
      var last: seq<nat> := s.pending + [n - 1];
      EverySectionOnce(text, hs, n - 1);
      FlattenSnoc(s.groups, last);
      assert flat + last == flat + s.pending + [n - 1];
    }
  }

  ghost predicate AllWait(text: string, hs: seq<Heading>, group: seq<nat>) {
    forall k :: 0 <= k < |group| ==> group[k] < |hs| && hs[group[k]].title != "" && Waits(text, hs, group[k])
  }

  /** A group is a run of short sections closed by one that does not wait. */
  ghost predicate Closed(text: string, hs: seq<Heading>, group: seq<nat>) {
    && group != [] && AllWait(text, hs, group[..|group|-1])
    && group[|group|-1] < |hs| && hs[group[|group|-1]].title != "" && !Waits(text, hs, group[|group|-1])
  }

  /** Theorem: only short sections wait, and each waits until the next section that is not short. */
  lemma {:induction false} GroupsAreClosed(text: string, hs: seq<Heading>, n: nat)
    requires n <= |hs|
    ensures AllWait(text, hs, Scan(text, hs, n).pending)
    ensures forall k :: 0 <= k < |Scan(text, hs, n).groups| ==> Closed(text, hs, Scan(text, hs, n).groups[k])
  {
    if n > 0 {
      var s := Scan(text, hs, n - 1);
      GroupsAreClosed(text, hs, n - 1);
      assert (s.pending + [n - 1])[..|s.pending|] == s.pending;
    }
  }

  // ---------------------------------------------------------------- spans

  function First(text: string, hs: seq<Heading>, group: seq<nat>): nat {
    if group == [] then |text| else StartOf(text, hs, group[0])
  }

  function Last(group: seq<nat>): nat { if group == [] then 0 else group[|group|-1] }

  /** The end of the last span if the spans of all groups follow each other from `from` on. */
  function EndOf(text: string, hs: seq<Heading>, groups: seq<seq<nat>>, from: nat): Option<nat>
    decreases |groups|
  {
    if groups == [] then Some(from)
    else
      var g := groups[|groups|-1];
      var end := EndOf(text, hs, groups[..|groups|-1], from);
      if end == Some(First(text, hs, g)) then Some(StartOf(text, hs, Last(g) + 1)) else None
  }

  lemma EndOfSnoc(text: string, hs: seq<Heading>, groups: seq<seq<nat>>, g: seq<nat>, from: nat)
    ensures EndOf(text, hs, groups + [g], from) ==
            if EndOf(text, hs, groups, from) == Some(First(text, hs, g)) then Some(StartOf(text, hs, Last(g) + 1)) else None
  {
    assert (groups + [g])[..|groups|] == groups;
  }

  /** The text before heading n is covered, up to the sections that wait. */
  predicate CoveredUpTo(text: string, hs: seq<Heading>, n: nat)
    requires n <= |hs|
  {
    var s := Scan(text, hs, n);
    EndOf(text, hs, s.groups, StartOf(text, hs, 0)) ==
      Some(if s.pending == [] then StartOf(text, hs, n) else StartOf(text, hs, s.pending[0]))
  }

  /** No heading without a title comes when nothing waits. */
  predicate NothingSkipped(text: string, hs: seq<Heading>, n: nat)
    requires n <= |hs|
  {
    n == 0 || (NothingSkipped(text, hs, n - 1) && (hs[n-1].title == "" ==> Scan(text, hs, n - 1).pending != []))
  }

  lemma StartsRise(text: string, hs: seq<Heading>, n: nat)
    requires n < |hs| && InText(hs, |text|)
    ensures StartOf(text, hs, n) < StartOf(text, hs, n + 1)
  {
  }

  lemma EndOfClosed(text: string, hs: seq<Heading>, n: nat, from: nat)
    requires n < |hs|
    ensures var s := Scan(text, hs, n); var e := EndOf(text, hs, s.groups + [s.pending + [n]], from);
            e.None? || e == Some(StartOf(text, hs, n + 1))
  {
    EndOfSnoc(text, hs, Scan(text, hs, n).groups, Scan(text, hs, n).pending + [n], from);
  }

  lemma NoGroups(text: string, hs: seq<Heading>)
    ensures EndOf(text, hs, Scan(text, hs, 0).groups, StartOf(text, hs, 0)) == Some(StartOf(text, hs, 0))
  {
  }

  lemma {:induction false} EndIsBehind(text: string, hs: seq<Heading>, n: nat)
    requires n <= |hs| && InText(hs, |text|)
    ensures var e := EndOf(text, hs, Scan(text, hs, n).groups, StartOf(text, hs, 0));
            e.Some? ==> e.value <= StartOf(text, hs, n)
  {
    hide Scan, EndOf, Waits, StartOf, InText;
    if n == 0 {
      NoGroups(text, hs);
    } else {
      EndIsBehind(text, hs, n - 1);
      StartsRise(text, hs, n - 1);
      ScanAfter(text, hs, n - 1);
      EndOfClosed(text, hs, n - 1, StartOf(text, hs, 0));
    }
  }

  lemma CoveredByOneMore(text: string, hs: seq<Heading>, n: nat)
    requires n < |hs| && hs[n].title != "" && !Waits(text, hs, n)
    ensures CoveredUpTo(text, hs, n + 1) <==> CoveredUpTo(text, hs, n)
  {
    var s := Scan(text, hs, n);
    EndOfSnoc(text, hs, s.groups, s.pending + [n], StartOf(text, hs, 0));
    assert Scan(text, hs, n + 1) == Scanned(s.groups + [s.pending + [n]], []);
    assert First(text, hs, s.pending + [n]) == if s.pending == [] then StartOf(text, hs, n) else StartOf(text, hs, s.pending[0]);
  }

  lemma CoveredByWaiting(text: string, hs: seq<Heading>, n: nat)
    requires n < |hs| && hs[n].title != "" && Waits(text, hs, n)
    ensures CoveredUpTo(text, hs, n + 1) <==> CoveredUpTo(text, hs, n)
  {
    var s := Scan(text, hs, n);
    assert (s.pending + [n])[0] == if s.pending == [] then n else s.pending[0];
  }

  lemma CoveredByUntitled(text: string, hs: seq<Heading>, n: nat)
    requires n < |hs| && InText(hs, |text|) && hs[n].title == ""
    ensures CoveredUpTo(text, hs, n + 1) <==> CoveredUpTo(text, hs, n) && Scan(text, hs, n).pending != []
  {
    EndIsBehind(text, hs, n);
    StartsRise(text, hs, n);
  }

  /**
   Theorem: the spans of the groups cover the text without a gap exactly when every heading without a
   title comes while a section waits.
   */
  lemma {:induction false} CoveredIffNothingSkipped(text: string, hs: seq<Heading>, n: nat)
    requires n <= |hs| && InText(hs, |text|)
    ensures CoveredUpTo(text, hs, n) <==> NothingSkipped(text, hs, n)
  {
    if n > 0 {
      assert NothingSkipped(text, hs, n) <==>
               NothingSkipped(text, hs, n - 1) && (hs[n-1].title == "" ==> Scan(text, hs, n - 1).pending != []);
      hide CoveredUpTo, NothingSkipped, Scan, Waits;
      CoveredIffNothingSkipped(text, hs, n - 1);
      if hs[n-1].title == "" {
        CoveredByUntitled(text, hs, n - 1);
      } else if Waits(text, hs, n - 1) {
        CoveredByWaiting(text, hs, n - 1);
      } else {
        CoveredByOneMore(text, hs, n - 1);
      }
    }
  }

  /** The last of the first n headings that has a title. */
  function LastTitled(hs: seq<Heading>, n: nat): Option<nat>
    requires n <= |hs|
  {
    if n == 0 then None else if hs[n-1].title != "" then Some(n - 1) else LastTitled(hs, n - 1)
  }

  /** Theorem: a section waits before heading n exactly when the last titled section before it is short. */
  lemma {:induction false} WaitsIffLastIsShort(text: string, hs: seq<Heading>, n: nat)
    requires n <= |hs|
    ensures Scan(text, hs, n).pending != [] <==>
              LastTitled(hs, n).Some? && |Strip(Segment(text, hs, LastTitled(hs, n).value))| < 150 && LastTitled(hs, n).value + 1 < |hs|
  {
    if n > 0 {
      WaitsIffLastIsShort(text, hs, n - 1);
    }
  }

  lemma {:induction false} TitledSkipsNothing(text: string, hs: seq<Heading>, n: nat)
    requires n <= |hs| && forall i :: 0 <= i < n ==> hs[i].title != ""
    ensures NothingSkipped(text, hs, n)
  {
    if n > 0 {
      TitledSkipsNothing(text, hs, n - 1);
    }
  }

  // ---------------------------------------------------------------- sections

  function PathOf(hs: seq<Heading>, i: nat): seq<string> {
    Titles(StackOf(hs[..Min(i + 1, |hs|)]))
  }

  function ContentOf(text: string, hs: seq<Heading>, group: seq<nat>): string {
    Join(seq(|group|, k requires 0 <= k < |group| => Strip(Segment(text, hs, group[k]))))
  }

  function GroupSection(text: string, hs: seq<Heading>, group: seq<nat>, end: nat): Section {
    Section(ContentOf(text, hs, group), Path(PathOf(hs, Last(group))), First(text, hs, group), end)
  }

  /** The section of a group, or its parts if it is over the limit. */
  function Emit(text: string, hs: seq<Heading>, group: seq<nat>, max: int): seq<Section> {
    var s := GroupSection(text, hs, group, StartOf(text, hs, Last(group) + 1));
    if |s.content| > max then LongSplit(s.content, s.heading.titles, s.start, max) else [s]
  }

  function Emitted(text: string, hs: seq<Heading>, groups: seq<seq<nat>>, max: int): seq<Section>
    decreases |groups|
  {
    if groups == [] then []
    else Emitted(text, hs, groups[..|groups|-1], max) + Emit(text, hs, groups[|groups|-1], max)
  }

  function PreambleOf(text: string, hs: seq<Heading>): seq<Section> {
    var before := Strip(Slice(text, 0, 0, StartOf(text, hs, 0)));
    if before == "" then [] else [Section(before, Preamble, 0, StartOf(text, hs, 0))]
  }

  /** Sections that wait at the end of the text, because headings without a title come last. */
  function Leftover(text: string, hs: seq<Heading>, pending: seq<nat>): seq<Section> {
    if pending == [] then [] else [GroupSection(text, hs, pending, |text|)]
  }

  function HeadingSplit(text: string, hs: seq<Heading>, max: int): seq<Section> {
    var s := Scan(text, hs, |hs|);
    PreambleOf(text, hs) + Emitted(text, hs, s.groups, max) + Leftover(text, hs, s.pending)
  }

  /** The sections follow each other without a gap from `from` to `to`. */
  predicate Tile(sections: seq<Section>, from: nat, to: nat)
    decreases |sections|
  {
    if sections == [] then from == to
    else
      var s := sections[|sections|-1];
      s.end == to && Tile(sections[..|sections|-1], from, s.start)
  }

  lemma {:induction false} EmittedTile(text: string, hs: seq<Heading>, groups: seq<seq<nat>>, max: int, from: nat, to: nat)
    requires forall k :: 0 <= k < |groups| ==> |ContentOf(text, hs, groups[k])| <= max
    ensures Tile(Emitted(text, hs, groups, max), from, to) <==> EndOf(text, hs, groups, from) == Some(to)
    ensures |Emitted(text, hs, groups, max)| == |groups|
    decreases |groups|
  {
    if groups != [] {
      var before, g := groups[..|groups|-1], groups[|groups|-1];
      EmittedTile(text, hs, before, max, from, First(text, hs, g));
      assert |ContentOf(text, hs, groups[|before|])| <= max;
      var s := GroupSection(text, hs, g, StartOf(text, hs, Last(g) + 1));
      TileSnoc(Emitted(text, hs, before, max), s, from, to);
    }
  }

  lemma TileSnoc(sections: seq<Section>, s: Section, from: nat, to: nat)
    ensures Tile(sections + [s], from, to) <==> s.end == to && Tile(sections, from, s.start)
  {
    assert (sections + [s])[..|sections|] == sections;
  }

  lemma {:induction false} TileAfter(s: Section, sections: seq<Section>, from: nat, to: nat)
    ensures Tile([s] + sections, from, to) <==> s.start == from && Tile(sections, s.end, to)
    decreases |sections|
  {
    if sections == [] {
      assert [s] + sections == [] + [s];
      TileSnoc([], s, from, to);
    } else {
      var before, last := sections[..|sections|-1], sections[|sections|-1];
      assert [s] + sections == [s] + before + [last];
      TileSnoc([s] + before, last, from, to);
      TileAfter(s, before, from, last.start);
    }
  }

  lemma BodyTiles(text: string, hs: seq<Heading>, max: int)
    requires InText(hs, |text|)
    requires forall k :: 0 <= k < |Scan(text, hs, |hs|).groups| ==> |ContentOf(text, hs, Scan(text, hs, |hs|).groups[k])| <= max
    ensures var s := Scan(text, hs, |hs|);
            Tile(Emitted(text, hs, s.groups, max) + Leftover(text, hs, s.pending), StartOf(text, hs, 0), |text|)
            <==> NothingSkipped(text, hs, |hs|)
  {
    var s, from := Scan(text, hs, |hs|), StartOf(text, hs, 0);
    var emitted := Emitted(text, hs, s.groups, max);
    CoveredIffNothingSkipped(text, hs, |hs|);
    EmittedTile(text, hs, s.groups, max, from, First(text, hs, s.pending));
    if s.pending == [] {
      assert emitted + Leftover(text, hs, s.pending) == emitted;
    } else {
      TileSnoc(emitted, GroupSection(text, hs, s.pending, |text|), from, |text|);
    }
  }

  /**
   Theorem: if no section is over the limit, the spans tile the text, from the preamble or the first heading
   to the end, exactly when every heading without a title comes while a section waits.
   */
  lemma SectionsTile(text: string, hs: seq<Heading>, max: int)
    requires InText(hs, |text|)
    requires forall k :: 0 <= k < |Scan(text, hs, |hs|).groups| ==> |ContentOf(text, hs, Scan(text, hs, |hs|).groups[k])| <= max
    ensures Tile(HeadingSplit(text, hs, max), if PreambleOf(text, hs) == [] then StartOf(text, hs, 0) else 0, |text|)
            <==> NothingSkipped(text, hs, |hs|)
  {
    var s := Scan(text, hs, |hs|);
    var body := Emitted(text, hs, s.groups, max) + Leftover(text, hs, s.pending);
    var preamble := PreambleOf(text, hs);
    BodyTiles(text, hs, max);
    assert HeadingSplit(text, hs, max) == preamble + body;
    if preamble == [] {
      assert preamble + body == body;
    } else {
      TileAfter(preamble[0], body, 0, |text|);
      assert preamble == [preamble[0]];
    }
  }

  // ---------------------------------------------------------------- what a section is made of

  lemma TitlesOfKept(stack: seq<Heading>, k: int, h: Heading)
    ensures Titles(Upto(stack, k) + [h]) == Upto(Titles(stack), k) + [h.title]
  {
  }

  lemma NextPath(hs: seq<Heading>, i: nat)
    requires i < |hs| && hs[i].title != ""
    ensures PathOf(hs, i) == Titles(StackOf(hs[..i+1])) == Upto(Titles(StackOf(hs[..i])), hs[i].level - 2) + [hs[i].title]
  {
    assert hs[..i+1][..i] == hs[..i];
    TitlesOfKept(StackOf(hs[..i]), hs[i].level - 2, hs[i]);
  }

  /** The section is labelled with the path of heading i: its title comes last, below those of the headings open there. */
  ghost predicate Labelled(hs: seq<Heading>, i: nat, s: Section) {
    && i < |hs| && !s.heading.Preamble? && s.heading.titles != []
    && s.heading.titles[|s.heading.titles|-1] == hs[i].title
    && (AllFit(hs[..i+1]) ==> s.heading.titles == Titles(Chain(WithTitle(hs[..i+1]))))
  }

  lemma PathIsLabel(hs: seq<Heading>, i: nat, s: Section)
    requires i < |hs| && hs[i].title != "" && !s.heading.Preamble? && s.heading.titles == PathOf(hs, i)
    ensures Labelled(hs, i, s)
  {
    NextPath(hs, i);
    if AllFit(hs[..i+1]) {
      PathsAreChains(hs[..i+1]);
      ChainHolds(hs[..i+1]);
    }
  }

  lemma {:induction false} PrefixesFit(hs: seq<Heading>, n: nat)
    requires AllFit(hs) && n <= |hs|
    ensures AllFit(hs[..n])
    decreases |hs|
  {
    if n < |hs| {
      PrefixesFit(hs[..|hs|-1], n);
      assert hs[..|hs|-1][..n] == hs[..n];
    } else {
      assert hs[..n] == hs;
    }
  }

  /** If all titled headings fit, the label is the chain of the headings open at heading i. */
  lemma LabelsAreChains(hs: seq<Heading>, i: nat, s: Section)
    requires AllFit(hs) && Labelled(hs, i, s)
    ensures s.heading.titles == Titles(Chain(WithTitle(hs[..i+1])))
  {
    PrefixesFit(hs, i + 1);
  }

  /** Merging puts a blank line between the sections that waited and the one that closes the group. */
  lemma MergedByBlankLines(text: string, hs: seq<Heading>, group: seq<nat>, i: nat)
    ensures ContentOf(text, hs, [i]) == Strip(Segment(text, hs, i))
    ensures group != [] ==> ContentOf(text, hs, group + [i]) == ContentOf(text, hs, group) + "\n\n" + Strip(Segment(text, hs, i))
  {
    assert Stripped(text, hs, group + [i]) == Stripped(text, hs, group) + [Strip(Segment(text, hs, i))];
    if group != [] {
      JoinSnoc(Stripped(text, hs, group), Strip(Segment(text, hs, i)));
    }
  }

  lemma ContentEndsWritten(text: string, hs: seq<Heading>, group: seq<nat>)
    requires group != [] && Strip(Segment(text, hs, group[|group|-1])) != ""
    ensures EndsWritten(ContentOf(text, hs, group))
  {
    var before, last := group[..|group|-1], group[|group|-1];
    StripEnds(Segment(text, hs, last));
    assert group == before + [last];
    MergedByBlankLines(text, hs, before, last);
  }

  /** Theorem: every section of a group, be it whole or a part, is labelled with the path of the heading that closes the group. */
  lemma SectionsCarryTheirPath(text: string, hs: seq<Heading>, max: int, group: seq<nat>)
    requires Closed(text, hs, group)
    ensures forall s :: s in Emit(text, hs, group, max) ==> Labelled(hs, group[|group|-1], s)
  {
    var last, content, from := group[|group|-1], ContentOf(text, hs, group), StartOf(text, hs, group[0]);
    var titles, sections := PathOf(hs, last), Emit(text, hs, group, max);
    hide Waits, ContentOf, PathOf, StartOf, Segment, PartIsAtOrigin, LongSplit, Labelled;
    if |content| > max {
      LongSplitIsFaithful(content, titles, from, max);
    }
    forall s | s in sections ensures Labelled(hs, last, s) {
      PathIsLabel(hs, last, s);
    }
  }

  /** Theorem: a group within the limit is one section, from where its first heading starts to the end of its last segment. */
  lemma ShortGroupsAreWhole(text: string, hs: seq<Heading>, max: int, group: seq<nat>)
    requires group != [] && |ContentOf(text, hs, group)| <= max
    ensures var sections := Emit(text, hs, group, max);
            && |sections| == 1 && sections[0].content == ContentOf(text, hs, group) && sections[0].heading.Path?
            && sections[0].start == StartOf(text, hs, group[0]) && sections[0].end == StartOf(text, hs, group[|group|-1] + 1)
  {
    hide ContentOf, PathOf;
  }

  /**
   Theorem: a group over the limit is given by its parts.  Each lies at its origin in the merged content, counted
   from where the first heading of the group starts, and unless the last segment is blank they are numbered from 1,
   a single one not at all.
   */
  lemma LongGroupsAreParts(text: string, hs: seq<Heading>, max: int, group: seq<nat>)
    requires group != [] && |ContentOf(text, hs, group)| > max
    ensures var parts := Emit(text, hs, group, max);
            forall k :: 0 <= k < |parts| ==>
              && PartIsAtOrigin(ContentOf(text, hs, group), StartOf(text, hs, group[0]), max, parts[k], k)
              && !parts[k].heading.Preamble?
              && (Strip(Segment(text, hs, group[|group|-1])) != "" ==>
                    if |parts| == 1 then parts[k].heading.Path? else parts[k].heading == Part(parts[k].heading.titles, k + 1))
  {
    var last, content, from := group[|group|-1], ContentOf(text, hs, group), StartOf(text, hs, group[0]);
    var titles := PathOf(hs, last);
    assert Emit(text, hs, group, max) == LongSplit(content, titles, from, max);
    if Strip(Segment(text, hs, last)) != "" {
      ContentEndsWritten(text, hs, group);
      PartsAreNumbered(content, titles, from, max);
    }
    hide Emit, ContentOf, PathOf, StartOf, Segment, PartIsAtOrigin, LongSplit, EndsWritten;
    LongSplitIsFaithful(content, titles, from, max);
  }

  /** What still waits at the end is one section up to the end of the text, with the path of the last that waits. */
  lemma LeftoverCarriesItsPath(text: string, hs: seq<Heading>, pending: seq<nat>)
    requires AllWait(text, hs, pending) && pending != []
    ensures |Leftover(text, hs, pending)| == 1
    ensures var s := Leftover(text, hs, pending)[0];
            && Labelled(hs, pending[|pending|-1], s)
            && s.heading.Path? && s.content == ContentOf(text, hs, pending)
            && s.start == StartOf(text, hs, pending[0]) && s.end == |text|
  {
    PathIsLabel(hs, pending[|pending|-1], Leftover(text, hs, pending)[0]);
  }

  /** The section is labelled with the path of one of the headings. */
  ghost predicate Emerges(text: string, hs: seq<Heading>, s: Section) {
    exists i :: 0 <= i < |hs| && hs[i].title != "" && Labelled(hs, i, s)
  }

  lemma {:induction false} EmittedAreLabelled(text: string, hs: seq<Heading>, groups: seq<seq<nat>>, max: int)
    requires forall k :: 0 <= k < |groups| ==> Closed(text, hs, groups[k])
    ensures forall s :: s in Emitted(text, hs, groups, max) ==> Emerges(text, hs, s)
    decreases |groups|
  {
    if groups != [] {
      var before, g := groups[..|groups|-1], groups[|groups|-1];
      EmittedAreLabelled(text, hs, before, max);
      SectionsCarryTheirPath(text, hs, max, g);
    }
  }

  /**
   Theorem: the first section is the preamble exactly when something is written before the first heading, and every
   other section is labelled with the path of one of the headings.
   */
  lemma EverySectionIsLabelled(text: string, hs: seq<Heading>, max: int, k: nat)
    requires k < |HeadingSplit(text, hs, max)|
    ensures var s, before := HeadingSplit(text, hs, max)[k], Strip(Slice(text, 0, 0, StartOf(text, hs, 0)));
            if k == 0 && before != "" then s == Section(before, Preamble, 0, StartOf(text, hs, 0)) else Emerges(text, hs, s)
  {
    var scanned := Scan(text, hs, |hs|);
    GroupsAreClosed(text, hs, |hs|);
    EmittedAreLabelled(text, hs, scanned.groups, max);
    assert HeadingSplit(text, hs, max) == PreambleOf(text, hs) + Emitted(text, hs, scanned.groups, max) + Leftover(text, hs, scanned.pending);
    hide Scan, Emitted, HeadingSplit, Labelled, Strip, StartOf, Slice;
    if scanned.pending != [] {
      LeftoverCarriesItsPath(text, hs, scanned.pending);
      assert Emerges(text, hs, Leftover(text, hs, scanned.pending)[0]);
    }
  }

  // ---------------------------------------------------------------- nothing written is lost

  /** What is written in the segments of the given headings. */
  function InkOf(text: string, hs: seq<Heading>, group: seq<nat>): string
    decreases |group|
  {
    if group == [] then "" else InkOf(text, hs, group[..|group|-1]) + Ink(Segment(text, hs, group[|group|-1]))
  }

  lemma {:induction false} InkOfConcat(text: string, hs: seq<Heading>, a: seq<nat>, b: seq<nat>)
    ensures InkOf(text, hs, a + b) == InkOf(text, hs, a) + InkOf(text, hs, b)
    decreases |b|
  {
    if b == [] {
      assert a + b == a;
    } else {
      var before, last := b[..|b|-1], Ink(Segment(text, hs, b[|b|-1]));
      InkOfConcat(text, hs, a, before);
      assert (a + b)[..|a + b|-1] == a + before && (a + b)[|a + b|-1] == b[|b|-1];
      assert InkOf(text, hs, a) + InkOf(text, hs, before) + last == InkOf(text, hs, a) + (InkOf(text, hs, before) + last);
    }
  }

  function Stripped(text: string, hs: seq<Heading>, group: seq<nat>): seq<string> {
    seq(|group|, k requires 0 <= k < |group| => Strip(Segment(text, hs, group[k])))
  }

  lemma {:induction false} InkOfStripped(text: string, hs: seq<Heading>, group: seq<nat>)
    ensures InkAll(Stripped(text, hs, group)) == InkOf(text, hs, group)
    decreases |group|
  {
    if group != [] {
      var before, last := group[..|group|-1], Segment(text, hs, group[|group|-1]);
      InkOfStripped(text, hs, before);
      InkStrip(last);
      InkAllSnoc(Stripped(text, hs, before), Strip(last));
      assert Stripped(text, hs, group) == Stripped(text, hs, before) + [Strip(last)];
    }
  }

  lemma InkOfContent(text: string, hs: seq<Heading>, group: seq<nat>)
    ensures Ink(ContentOf(text, hs, group)) == InkOf(text, hs, group)
  {
    assert ContentOf(text, hs, group) == Join(Stripped(text, hs, group));
    InkJoin(Stripped(text, hs, group));
    InkOfStripped(text, hs, group);
  }

  lemma InkOfOne(s: Section)
    ensures InkAll(Contents([s])) == Ink(s.content)
  {
    assert Contents([s]) == [] + [s.content];
    InkAllSnoc([], s.content);
    assert "" + Ink(s.content) == Ink(s.content);
  }

  lemma ContentsConcat(a: seq<Section>, b: seq<Section>)
    ensures InkAll(Contents(a + b)) == InkAll(Contents(a)) + InkAll(Contents(b))
  {
    assert Contents(a + b) == Contents(a) + Contents(b);
    FlattenConcat(Contents(a), Contents(b));
    InkConcat(Flatten(Contents(a)), Flatten(Contents(b)));
  }

  lemma InkOfEmit(text: string, hs: seq<Heading>, group: seq<nat>, max: int)
    ensures InkAll(Contents(Emit(text, hs, group, max))) == InkOf(text, hs, group)
  {
    var s := GroupSection(text, hs, group, StartOf(text, hs, Last(group) + 1));
    InkOfContent(text, hs, group);
    if |s.content| > max {
      LongSplitIsFaithful(s.content, s.heading.titles, s.start, max);
    } else {
      InkOfOne(s);
    }
  }

  lemma NextGroup(text: string, hs: seq<Heading>, groups: seq<seq<nat>>, group: seq<nat>, max: int)
    ensures Emitted(text, hs, groups + [group], max) == Emitted(text, hs, groups, max) + Emit(text, hs, group, max)
  {
    assert (groups + [group])[..|groups|] == groups;
  }

  lemma InkOfBoth(text: string, hs: seq<Heading>, a: seq<Section>, b: seq<Section>, groups: seq<seq<nat>>, group: seq<nat>)
    requires InkAll(Contents(a)) == InkOf(text, hs, Flatten(groups)) && InkAll(Contents(b)) == InkOf(text, hs, group)
    ensures InkAll(Contents(a + b)) == InkOf(text, hs, Flatten(groups + [group]))
  {
    ContentsConcat(a, b);
    FlattenSnoc(groups, group);
    InkOfConcat(text, hs, Flatten(groups), group);
  }

  lemma OneGroupMore(text: string, hs: seq<Heading>, groups: seq<seq<nat>>, g: seq<nat>, max: int)
    requires InkAll(Contents(Emitted(text, hs, groups, max))) == InkOf(text, hs, Flatten(groups))
    ensures InkAll(Contents(Emitted(text, hs, groups + [g], max))) == InkOf(text, hs, Flatten(groups + [g]))
  {
    InkOfEmit(text, hs, g, max);
    InkOfBoth(text, hs, Emitted(text, hs, groups, max), Emit(text, hs, g, max), groups, g);
    NextGroup(text, hs, groups, g, max);
  }

  lemma {:induction false} InkOfEmitted(text: string, hs: seq<Heading>, groups: seq<seq<nat>>, max: int)
    ensures InkAll(Contents(Emitted(text, hs, groups, max))) == InkOf(text, hs, Flatten(groups))
    decreases |groups|
  {
    if groups == [] {
      assert Contents([]) == [];
    } else {
      var before, g := groups[..|groups|-1], groups[|groups|-1];
      assert groups == before + [g];
      InkOfEmitted(text, hs, before, max);
      OneGroupMore(text, hs, before, g, max);
    }
  }

  lemma InkOfLeftover(text: string, hs: seq<Heading>, pending: seq<nat>)
    ensures InkAll(Contents(Leftover(text, hs, pending))) == InkOf(text, hs, pending)
  {
    if pending == [] {
      assert Contents([]) == [];
    } else {
      InkOfContent(text, hs, pending);
      InkOfOne(GroupSection(text, hs, pending, |text|));
    }
  }

  lemma InkOfPreamble(text: string, hs: seq<Heading>)
    ensures InkAll(Contents(PreambleOf(text, hs))) == Ink(Slice(text, 0, 0, StartOf(text, hs, 0)))
  {
    var before := Slice(text, 0, 0, StartOf(text, hs, 0));
    InkStrip(before);
    StripBlank(before);
    if Strip(before) == "" {
      assert Contents([]) == [];
    } else {
      InkOfOne(PreambleOf(text, hs)[0]);
    }
  }

  /**
   Theorem: for any headings and any limit, the sections hold, in order, exactly what is written before the
   first heading and in the segments of the headings that have a title.
   */
  lemma SectionsHoldTheText(text: string, hs: seq<Heading>, max: int)
    ensures InkAll(Contents(HeadingSplit(text, hs, max))) ==
            Ink(Slice(text, 0, 0, StartOf(text, hs, 0))) + InkOf(text, hs, Titled(hs, |hs|))
  {
    var s := Scan(text, hs, |hs|);
    InkOfPreamble(text, hs);
    InkOfEmitted(text, hs, s.groups, max);
    InkOfLeftover(text, hs, s.pending);
    InkOfThree(text, hs, PreambleOf(text, hs), Emitted(text, hs, s.groups, max), Leftover(text, hs, s.pending),
               Ink(Slice(text, 0, 0, StartOf(text, hs, 0))), Flatten(s.groups), s.pending);
    EverySectionOnce(text, hs, |hs|);
  }

  lemma Regroup(a: string, b: string, c: string)
    ensures (a + b) + c == a + (b + c)
  {
  }

  lemma InkOfThree(text: string, hs: seq<Heading>, a: seq<Section>, b: seq<Section>, c: seq<Section>,
                   ink: string, closed: seq<nat>, pending: seq<nat>)
    requires InkAll(Contents(a)) == ink
    requires InkAll(Contents(b)) == InkOf(text, hs, closed) && InkAll(Contents(c)) == InkOf(text, hs, pending)
    ensures InkAll(Contents(a + b + c)) == ink + InkOf(text, hs, closed + pending)
  {
    assert InkAll(Contents(a + b + c)) == InkAll(Contents(a)) + InkAll(Contents(b)) + InkAll(Contents(c)) by {
      ContentsConcat(a + b, c);
      ContentsConcat(a, b);
    }
    assert InkOf(text, hs, closed + pending) == InkOf(text, hs, closed) + InkOf(text, hs, pending) by {
      InkOfConcat(text, hs, closed, pending);
    }
    Regroup(ink, InkOf(text, hs, closed), InkOf(text, hs, pending));
  }

  lemma OneSegmentMore(text: string, hs: seq<Heading>, n: nat)
    requires n < |hs| && InText(hs, |text|)
    ensures Ink(text[..StartOf(text, hs, n + 1)]) == Ink(text[..StartOf(text, hs, n)]) + Ink(Segment(text, hs, n))
  {
    var from, to := StartOf(text, hs, n), StartOf(text, hs, n + 1);
    StartsRise(text, hs, n);
    assert text[..to] == text[..from] + text[from..to];
    InkConcat(text[..from], text[from..to]);
  }

  lemma InkOfSnoc(text: string, hs: seq<Heading>, group: seq<nat>, i: nat)
    ensures InkOf(text, hs, group + [i]) == InkOf(text, hs, group) + Ink(Segment(text, hs, i))
  {
    assert (group + [i])[..|group|] == group;
  }

  lemma TitledSnoc(hs: seq<Heading>, n: nat)
    requires n < |hs| && hs[n].title != ""
    ensures Titled(hs, n + 1) == Titled(hs, n) + [n]
  {
  }

  lemma NoSegments(text: string, hs: seq<Heading>)
    requires InText(hs, |text|)
    ensures Ink(text[..StartOf(text, hs, 0)]) == Ink(text[..StartOf(text, hs, 0)]) + InkOf(text, hs, Titled(hs, 0))
  {
    hide Ink, Strip;
  }

  lemma {:induction false} SegmentsAreTheText(text: string, hs: seq<Heading>, n: nat)
    requires n <= |hs| && InText(hs, |text|) && forall i :: 0 <= i < n ==> hs[i].title != ""
    ensures Ink(text[..StartOf(text, hs, n)]) == Ink(text[..StartOf(text, hs, 0)]) + InkOf(text, hs, Titled(hs, n))
  {
    hide Ink, InkOf, Titled, Segment;
    if n == 0 {
      NoSegments(text, hs);
    } else {
      SegmentsAreTheText(text, hs, n - 1);
      OneSegmentMore(text, hs, n - 1);
      TitledSnoc(hs, n - 1);
      InkOfSnoc(text, hs, Titled(hs, n - 1), n - 1);
      Regroup(Ink(text[..StartOf(text, hs, 0)]), InkOf(text, hs, Titled(hs, n - 1)), Ink(Segment(text, hs, n - 1)));
    }
  }

  lemma TextIsSegments(text: string, hs: seq<Heading>)
    requires InText(hs, |text|) && forall i :: 0 <= i < |hs| ==> hs[i].title != ""
    ensures Ink(Slice(text, 0, 0, StartOf(text, hs, 0))) + InkOf(text, hs, Titled(hs, |hs|)) == Ink(text)
  {
    SegmentsAreTheText(text, hs, |hs|);
    assert Slice(text, 0, 0, StartOf(text, hs, 0)) == text[..StartOf(text, hs, 0)];
    assert text[..StartOf(text, hs, |hs|)] == text;
  }

  /** Theorem: if all headings have titles, nothing written in the text is lost, whatever the limit. */
  lemma NothingIsLost(text: string, hs: seq<Heading>, max: int)
    requires InText(hs, |text|) && forall i :: 0 <= i < |hs| ==> hs[i].title != ""
    ensures InkAll(Contents(HeadingSplit(text, hs, max))) == Ink(text)
  {
    SectionsHoldTheText(text, hs, max);
    TextIsSegments(text, hs);
  }

  // ---------------------------------------------------------------- the splitter

  /** A section that waits. */
  datatype Pending = Pending(content: string, path: seq<string>, start: nat)

  function Record(text: string, hs: seq<Heading>, i: nat): Pending {
    Pending(Strip(Segment(text, hs, i)), PathOf(hs, i), StartOf(text, hs, i))
  }

  function Records(text: string, hs: seq<Heading>, group: seq<nat>): seq<Pending> {
    seq(|group|, k requires 0 <= k < |group| => Record(text, hs, group[k]))
  }

  lemma Untitled(text: string, hs: seq<Heading>, i: nat)
    requires i < |hs| && hs[i].title == ""
    ensures StackOf(hs[..i+1]) == StackOf(hs[..i]) && Scan(text, hs, i + 1) == Scan(text, hs, i)
  {
    assert hs[..i+1][..i] == hs[..i];
  }

  lemma NextRecord(text: string, hs: seq<Heading>, group: seq<nat>, i: nat)
    ensures Records(text, hs, group + [i]) == Records(text, hs, group) + [Record(text, hs, i)]
  {
  }

  class SemanticHeadingSplitter {
    const fallback: RecursiveTextSplitter

    constructor () {
      fallback := new RecursiveTextSplitter();
    }

    method Combine(pending: seq<Pending>, last: seq<string>, ghost text: string, ghost hs: seq<Heading>, ghost group: seq<nat>)
        returns (content: string)
      requires pending == Records(text, hs, group)
      ensures content == Join(Stripped(text, hs, group) + last)
    {
      var contents := seq(|pending|, k requires 0 <= k < |pending| => pending[k].content);
      assert contents == Stripped(text, hs, group);
      content := Join(contents + last);
    }

    /** A section that does not wait, with those that waited for it. */
    method Merge(text: string, hs: seq<Heading>, i: nat, path: seq<string>, pending: seq<Pending>, max: int, ghost group: seq<nat>)
        returns (emitted: seq<Section>)
      requires i < |hs| && pending == Records(text, hs, group) && path == PathOf(hs, i)
      ensures emitted == Emit(text, hs, group + [i], max)
    {
      var content := Strip(Segment(text, hs, i));
      var start, end := StartOf(text, hs, i), StartOf(text, hs, i + 1);
      assert Stripped(text, hs, group + [i]) == Stripped(text, hs, group) + [content];
      assert ContentOf(text, hs, group + [i]) == Join(Stripped(text, hs, group + [i]));
      if pending != [] {
        content := Combine(pending, [content], text, hs, group);
        start := pending[0].start;
      }
      if |content| > max {
        emitted := SplitLongSection(content, path, start, max);
      } else {
        emitted := [Section(content, Path(path), start, end)];
      }
    }

    method SplitPreamble(text: string, hs: seq<Heading>) returns (sections: seq<Section>)
      requires InText(hs, |text|) && hs != []
      ensures sections == PreambleOf(text, hs)
    {
      sections := [];
      if hs[0].start > 0 {
        var preamble := Strip(text[..hs[0].start]);
        if preamble != "" {
          sections := [Section(preamble, Preamble, 0, hs[0].start)];
        }
      }
    }

    /** The loop over the headings: the sections of all groups, and what still waits at the end. */
    method SplitSections(text: string, hs: seq<Heading>, max: int) returns (sections: seq<Section>, pending: seq<Pending>)
      requires InText(hs, |text|)
      ensures sections == Emitted(text, hs, Scan(text, hs, |hs|).groups, max)
      ensures pending == Records(text, hs, Scan(text, hs, |hs|).pending)
    {
      sections, pending := [], [];
      var stack: seq<string> := [];
      assert Titles(StackOf(hs[..0])) == [] && Records(text, hs, []) == [] && Emitted(text, hs, [], max) == [];
      assert Scan(text, hs, 0) == Scanned([], []);
      hide Scan, Titles, StackOf, Records, Emitted;
      for i := 0 to |hs|
        invariant stack == Titles(StackOf(hs[..i]))
        invariant pending == Records(text, hs, Scan(text, hs, i).pending)
        invariant sections == Emitted(text, hs, Scan(text, hs, i).groups, max)
      {
        ScanAfter(text, hs, i);
        if hs[i].title == "" {
          Untitled(text, hs, i);
          continue;
        }
        NextPath(hs, i);
        stack := Upto(stack, hs[i].level - 2) + [hs[i].title];
        ghost var s := Scan(text, hs, i);
        var content := Strip(Segment(text, hs, i));
        if |content| < SHORT && i + 1 < |hs| {
          NextRecord(text, hs, s.pending, i);
          pending := pending + [Pending(content, stack, hs[i].start)];
        } else {
          NextGroup(text, hs, s.groups, s.pending + [i], max);
          var emitted := Merge(text, hs, i, stack, pending, max, s.pending);
          pending := [];
          sections := sections + emitted;
        }
      }
    }

    method SplitLeftover(text: string, hs: seq<Heading>, pending: seq<Pending>, ghost group: seq<nat>)
        returns (sections: seq<Section>)
      requires pending == Records(text, hs, group)
      ensures sections == Leftover(text, hs, group)
    {
      sections := [];
      if pending != [] {
        var content := Combine(pending, [], text, hs, group);
        assert Stripped(text, hs, group) + [] == Stripped(text, hs, group);
        assert content == ContentOf(text, hs, group);
        sections := [Section(content, Path(pending[|pending|-1].path), pending[0].start, |text|)];
      }
    }

    method Split(text: string, hs: seq<Heading>, max: nat) returns (sections: seq<Section>)
      requires InText(hs, |text|) && max > 0
      ensures sections == if hs == [] then RecursiveSplit(text, max) else HeadingSplit(text, hs, max)
    {
      if hs == [] {
        sections := fallback.Split(text, max);
        return;
      }
      var preamble := SplitPreamble(text, hs);
      var emitted, pending := SplitSections(text, hs, max);
      var leftover := SplitLeftover(text, hs, pending, Scan(text, hs, |hs|).pending);
      sections := preamble + emitted + leftover;
    }
  }
}
