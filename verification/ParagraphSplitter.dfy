/**
 The paragraph splitter and the splitting of over-long sections (splitter_strategies.py):
 paragraphs are packed into blocks of limited size, each with a span in the text.
 */
module ParagraphSplitter {
  import opened Basics
  import opened Texts

  /** heading_path: titles joined by " > ", the same with " (parte n)", or the preamble mark. */
  datatype Label = Preamble | Path(titles: seq<string>) | Part(titles: seq<string>, number: nat)

  datatype Section = Section(content: string, heading: Label, start: nat, end: nat)

  const SEP := "\n\n"

  // ---------------------------------------------------------------- split and join

  /** text.split("\n\n"): cuts at the leftmost separators. */
  function SplitText(text: string): (parts: seq<string>)
    ensures parts != []
  {
    if |text| < 2 then [text]
    else if text[0] == '\n' && text[1] == '\n' then [""] + SplitText(text[2..])
    else
      var rest := SplitText(text[1..]);
      [[text[0]] + rest[0]] + rest[1..]
  }

  /** "\n\n".join(parts) */
  function Join(parts: seq<string>): string {
    if parts == [] then "" else if |parts| == 1 then parts[0] else parts[0] + SEP + Join(parts[1..])
  }

  /** Theorem: joining what split gives restores the text. */
  lemma {:induction false} JoinUndoesSplit(text: string)
    ensures Join(SplitText(text)) == text
    decreases |text|
  {
    if |text| >= 2 {
      if text[0] == '\n' && text[1] == '\n' {
        JoinUndoesSplit(text[2..]);
        assert SplitText(text)[1..] == SplitText(text[2..]);
        assert text == SEP + text[2..];
      } else {
        JoinUndoesSplit(text[1..]);
        var rest := SplitText(text[1..]);
        assert SplitText(text)[1..] == rest[1..];
        assert text == [text[0]] + text[1..];
      }
    }
  }

  /** The text has no blank line at position i. */
  predicate NoSeparatorAt(s: string, i: nat) { i + 1 < |s| ==> !(s[i] == '\n' && s[i+1] == '\n') }

  lemma {:induction false} FirstPartIsPrefix(text: string)
    ensures SplitText(text)[0] <= text
    decreases |text|
  {
    if |text| >= 2 && !(text[0] == '\n' && text[1] == '\n') {
      FirstPartIsPrefix(text[1..]);
    }
  }

  /** Theorem: no paragraph contains a separator. */
  lemma {:induction false} PartsHaveNoSeparator(text: string, k: nat, i: nat)
    requires k < |SplitText(text)|
    ensures NoSeparatorAt(SplitText(text)[k], i)
    decreases |text|
  {
    if |text| >= 2 {
      if text[0] == '\n' && text[1] == '\n' {
        if k > 0 {
          PartsHaveNoSeparator(text[2..], k - 1, i);
        }
      } else if k > 0 || i > 0 {
        PartsHaveNoSeparator(text[1..], k, if k == 0 then i - 1 else i);
      } else {
        FirstPartIsPrefix(text[1..]);
      }
    }
  }

  lemma {:induction false} JoinSnoc(parts: seq<string>, last: string)
    ensures Join(parts + [last]) == if parts == [] then last else Join(parts) + SEP + last
    decreases |parts|
  {
    if |parts| == 1 {
      assert (parts + [last])[1..] == [last];
    } else if parts != [] {
      JoinSnoc(parts[1..], last);
      assert (parts + [last])[1..] == parts[1..] + [last];
    }
  }

  /** Where part i starts in the joined text. */
  function Offset(parts: seq<string>, i: nat): nat
    requires i <= |parts|
  {
    if i == 0 then 0 else Offset(parts, i - 1) + |parts[i-1]| + |SEP|
  }

  lemma {:induction false} OffsetOfTail(parts: seq<string>, i: nat)
    requires 0 < i <= |parts|
    ensures Offset(parts, i) == |parts[0]| + |SEP| + Offset(parts[1..], i - 1)
  {
    if i > 1 {
      OffsetOfTail(parts, i - 1);
    }
  }

  /** The joined text has part i at its offset. */
  lemma {:induction false} JoinSlice(parts: seq<string>, i: nat)
    requires i < |parts|
    ensures Offset(parts, i) + |parts[i]| <= |Join(parts)|
    ensures Join(parts)[Offset(parts, i)..Offset(parts, i) + |parts[i]|] == parts[i]
    decreases |parts|
  {
    if |parts| > 1 && i > 0 {
      var head := parts[0] + SEP;
      JoinSlice(parts[1..], i - 1);
      OffsetOfTail(parts, i);
      assert Join(parts) == head + Join(parts[1..]);
    }
  }

  // ---------------------------------------------------------------- packing

  datatype Block = Block(raw: string, start: nat) {
    function End(): nat { start + |raw| }
  }

  /** The blocks that are closed, the block being filled, and where it starts. */
  datatype Packing = Packing(blocks: seq<Block>, current: string, start: nat)

  function Feed(p: Packing, unit: string, max: int): Packing {
    if p.current != "" && |p.current| + |unit| + 2 > max then
      Packing(p.blocks + [Block(p.current, p.start)], unit, p.start + |p.current| + 2)
    else
      p.(current := (if p.current != "" then p.current + SEP else "") + unit)
  }

  function Pack(units: seq<string>, base: nat, max: int): Packing {
    if units == [] then Packing([], "", base)
    else Feed(Pack(units[..|units|-1], base, max), units[|units|-1], max)
  }

  /** The texts of all blocks, the unfinished one last. */
  function Raws(p: Packing): seq<string> {
    seq(|p.blocks|, k requires 0 <= k < |p.blocks| => p.blocks[k].raw) + [p.current]
  }

  /** The effect of one unit: it closes the current block and starts a new one, or extends it. */
  lemma FeedEffect(p: Packing, unit: string, max: int)
    ensures var before, after := Raws(p), Raws(Feed(p, unit, max));
            if p.current != "" && |p.current| + |unit| + 2 > max then after == before + [unit]
            else after == before[..|before|-1] + [(if p.current != "" then p.current + SEP else "") + unit]
  {
  }

  /** Where block k starts if the blocks before it are in place. */
  function StartAfter(blocks: seq<Block>, k: nat, base: nat): nat
    requires k <= |blocks|
  {
    if k == 0 then base else blocks[k-1].End() + |SEP|
  }

  ghost predicate Spaced(p: Packing, base: nat) {
    && p.start == StartAfter(p.blocks, |p.blocks|, base)
    && forall k {:trigger StartAfter(p.blocks, k, base)} :: 0 <= k < |p.blocks| ==> p.blocks[k].start == StartAfter(p.blocks, k, base)
  }

  /** A further block moves no block before it. */
  lemma StartAfterSnoc(blocks: seq<Block>, b: Block, k: nat, base: nat)
    requires k <= |blocks|
    ensures StartAfter(blocks + [b], k, base) == StartAfter(blocks, k, base)
    ensures StartAfter(blocks + [b], |blocks| + 1, base) == b.End() + |SEP|
    ensures (blocks + [b])[k] == if k < |blocks| then blocks[k] else b
  {
  }

  lemma ClosedSpaced(p: Packing, base: nat, unit: string)
    requires Spaced(p, base)
    ensures Spaced(Packing(p.blocks + [Block(p.current, p.start)], unit, p.start + |p.current| + 2), base)
  {
    hide StartAfter;
    var more := p.blocks + [Block(p.current, p.start)];
    StartAfterSnoc(p.blocks, Block(p.current, p.start), |p.blocks|, base);
    forall k | 0 <= k < |more| ensures more[k].start == StartAfter(more, k, base) {
      StartAfterSnoc(p.blocks, Block(p.current, p.start), k, base);
    }
  }

  lemma FeedSpaced(p: Packing, base: nat, unit: string, max: int)
    requires Spaced(p, base)
    ensures Spaced(Feed(p, unit, max), base)
  {
    ClosedSpaced(p, base, unit);
  }

  /** Theorem: every block starts two characters after the end of the one before, the first at the base. */
  lemma {:induction false} SpansAreSpaced(units: seq<string>, base: nat, max: int)
    ensures Spaced(Pack(units, base, max), base)
    decreases |units|
  {
    if units != [] {
      SpansAreSpaced(units[..|units|-1], base, max);
      FeedSpaced(Pack(units[..|units|-1], base, max), base, units[|units|-1], max);
    }
  }

  lemma RawAt(p: Packing, k: nat)
    requires k <= |p.blocks|
    ensures |Raws(p)| == |p.blocks| + 1 && Raws(p)[k] == if k < |p.blocks| then p.blocks[k].raw else p.current
  {
  }

  lemma {:induction false} SpacedOffset(p: Packing, base: nat, k: nat)
    requires Spaced(p, base) && k <= |p.blocks|
    ensures |Raws(p)| == |p.blocks| + 1 && StartAfter(p.blocks, k, base) == base + Offset(Raws(p), k)
  {
    hide Raws;
    RawAt(p, k);
    if k > 0 {
      SpacedOffset(p, base, k - 1);
      RawAt(p, k - 1);
    }
  }

  ghost predicate Limited(parts: seq<string>, max: int) {
    forall k :: 0 <= k < |parts| ==> |parts[k]| <= max
  }

  /** No part would fit into one block with the part before it. */
  ghost predicate Tight(parts: seq<string>, max: int) {
    forall k :: 0 < k < |parts| ==> |parts[k-1]| + 2 + |parts[k]| > max
  }

  lemma FeedFull(p: Packing, unit: string, max: int)
    requires Tight(Raws(p), max)
    ensures Tight(Raws(Feed(p, unit, max)), max)
    ensures Limited(Raws(p), max) && |unit| <= max ==> Limited(Raws(Feed(p, unit, max)), max)
  {
    var before, after := Raws(p), Raws(Feed(p, unit, max));
    var last := |before| - 1;
    assert forall k :: 0 <= k < last ==> after[k] == before[k];
    assert if |after| > |before| then after[last] == p.current && after[last + 1] == unit
           else |after[last]| >= |p.current|;
    assert before[last] == p.current;
  }

  /** Theorem: blocks of units within the limit stay within it, and no two neighbours would fit in one block. */
  lemma {:induction false} BlocksAreFull(units: seq<string>, base: nat, max: int)
    ensures Tight(Raws(Pack(units, base, max)), max)
    ensures Limited(units, max) && 0 <= max ==> Limited(Raws(Pack(units, base, max)), max)
    decreases |units|
  {
    if units != [] {
      var before, unit := units[..|units|-1], units[|units|-1];
      BlocksAreFull(before, base, max);
      FeedFull(Pack(before, base, max), unit, max);
      assert Limited(units, max) ==> Limited(before, max);
    }
  }

  /** How many separators are dropped: each unit, except the first, that meets an empty current block. */
  function Lost(units: seq<string>, base: nat, max: int): nat {
    if |units| <= 1 then 0
    else
      var before := units[..|units|-1];
      Lost(before, base, max) + if Pack(before, base, max).current == "" then 1 else 0
  }

  lemma JoinExtended(init: seq<string>, last: string, more: string)
    ensures Join(init + [last + more]) == Join(init + [last]) + more
  {
    hide Join;
    JoinSnoc(init, last);
    JoinSnoc(init, last + more);
    assert Join(init) + SEP + (last + more) == Join(init) + SEP + last + more;
  }

  lemma JoinOfFeed(p: Packing, unit: string, max: int)
    ensures Join(Raws(Feed(p, unit, max))) == Join(Raws(p)) + ((if p.current == "" then "" else SEP) + unit)
  {
    var raws := Raws(p);
    var init := raws[..|raws|-1];
    var more := (if p.current == "" then "" else SEP) + unit;
    assert raws == init + [p.current];
    FeedEffect(p, unit, max);
    if p.current != "" && |p.current| + |unit| + 2 > max {
      JoinSnoc(raws, unit);
      assert Join(raws) + SEP + unit == Join(raws) + more;
    } else {
      JoinExtended(init, p.current, more);
      assert (if p.current != "" then p.current + SEP else "") + unit == p.current + more;
    }
  }

  lemma LostSnoc(before: seq<string>, unit: string, base: nat, max: int)
    ensures Pack(before + [unit], base, max) == Feed(Pack(before, base, max), unit, max)
    ensures Lost(before + [unit], base, max) == Lost(before, base, max)
              + if before != [] && Pack(before, base, max).current == "" then 1 else 0
  {
    assert (before + [unit])[..|before|] == before;
  }

  lemma {:induction false} LengthAccount(units: seq<string>, base: nat, max: int)
    ensures |Join(Raws(Pack(units, base, max)))| + 2 * Lost(units, base, max) == |Join(units)|
    ensures Lost(units, base, max) == 0 ==> Join(Raws(Pack(units, base, max))) == Join(units)
    decreases |units|
  {
    if units == [] {
      assert Raws(Pack(units, base, max)) == [""];
    } else {
      var before, unit := units[..|units|-1], units[|units|-1];
      LengthAccount(before, base, max);
      assert units == before + [unit];
      OneUnitMore(before, unit, base, max);
    }
  }

  /** The account of one unit: `joined` are the blocks and `whole` the units so far. */
  lemma AccountOfOne(joined: string, whole: string, lost: nat, unit: string, first: bool, empty: bool)
    requires |joined| + 2 * lost == |whole| && (lost == 0 ==> joined == whole)
    requires first ==> empty && joined == "" && whole == ""
    ensures var longer := if first then unit else whole + SEP + unit;
            var more := joined + ((if empty then "" else SEP) + unit);
            var nowLost := lost + if !first && empty then 1 else 0;
            |more| + 2 * nowLost == |longer| && (nowLost == 0 ==> more == longer)
  {
  }

  lemma OneUnitMore(before: seq<string>, unit: string, base: nat, max: int)
    requires |Join(Raws(Pack(before, base, max)))| + 2 * Lost(before, base, max) == |Join(before)|
    requires Lost(before, base, max) == 0 ==> Join(Raws(Pack(before, base, max))) == Join(before)
    ensures |Join(Raws(Pack(before + [unit], base, max)))| + 2 * Lost(before + [unit], base, max) == |Join(before + [unit])|
    ensures Lost(before + [unit], base, max) == 0 ==> Join(Raws(Pack(before + [unit], base, max))) == Join(before + [unit])
  {
    var p := Pack(before, base, max);
    LostSnoc(before, unit, base, max);
    JoinOfFeed(p, unit, max);
    JoinSnoc(before, unit);
    AccountOfOne(Join(Raws(p)), Join(before), Lost(before, base, max), unit, before == [], p.current == "");
  }

  /** Theorem: the blocks joined give the text back exactly when no separator is dropped. */
  lemma ExactIffNothingLost(units: seq<string>, base: nat, max: int)
    ensures Join(Raws(Pack(units, base, max))) == Join(units) <==> Lost(units, base, max) == 0
  {
    LengthAccount(units, base, max);
  }

  /** Without empty units no separator is dropped. */
  lemma {:induction false} NonEmptyLosesNothing(units: seq<string>, base: nat, max: int)
    requires forall k :: 0 <= k < |units| ==> units[k] != ""
    ensures Lost(units, base, max) == 0 && (units != [] ==> Pack(units, base, max).current != "")
    decreases |units|
  {
    if units != [] {
      NonEmptyLosesNothing(units[..|units|-1], base, max);
    }
  }

  // ---------------------------------------------------------------- sections

  function SectionOf(b: Block, heading: Label): Section { Section(Strip(b.raw), heading, b.start, b.End()) }

  /** The sections of the closed blocks; `numbered` sections are parts 1, 2, ... of a longer one. */
  function Sections(blocks: seq<Block>, titles: seq<string>, numbered: bool): seq<Section> {
    seq(|blocks|, k requires 0 <= k < |blocks| =>
      SectionOf(blocks[k], if numbered then Part(titles, k + 1) else Path(titles)))
  }

  /** The section of the last block, unless it is blank; a part that is alone has no number. */
  function Rest(p: Packing, titles: seq<string>, numbered: bool): seq<Section> {
    if Strip(p.current) == "" then []
    else [SectionOf(Block(p.current, p.start),
                    if numbered && |p.blocks| > 0 then Part(titles, |p.blocks| + 1) else Path(titles))]
  }

  function AllSections(p: Packing, titles: seq<string>, numbered: bool): seq<Section> {
    Sections(p.blocks, titles, numbered) + Rest(p, titles, numbered)
  }

  /** The stretch of a text that a span delimits; the text begins at `base`. */
  function Slice(text: string, base: nat, start: nat, end: nat): string {
    if base <= start <= end <= base + |text| then text[start - base..end - base] else ""
  }

  function Slices(text: string, sections: seq<Section>): seq<string> {
    seq(|sections|, k requires 0 <= k < |sections| => Slice(text, 0, sections[k].start, sections[k].end))
  }

  /** The section is exactly the stretch of the text its span delimits, up to white space at its ends. */
  predicate Exact(text: string, base: nat, s: Section) {
    && base <= s.start <= s.end <= base + |text|
    && s.content == Strip(Slice(text, base, s.start, s.end))
  }

  function BlockAt(p: Packing, k: nat): Block
    requires k <= |p.blocks|
  {
    if k < |p.blocks| then p.blocks[k] else Block(p.current, p.start)
  }

  lemma SectionAt(p: Packing, titles: seq<string>, numbered: bool, k: nat)
    requires k < |AllSections(p, titles, numbered)|
    ensures k <= |p.blocks| && AllSections(p, titles, numbered)[k].content == Strip(BlockAt(p, k).raw)
    ensures var s := AllSections(p, titles, numbered)[k]; s.start == BlockAt(p, k).start && s.end == BlockAt(p, k).End()
  {
    if k < |p.blocks| {
      assert AllSections(p, titles, numbered)[k] == Sections(p.blocks, titles, numbered)[k];
    }
  }

  /** In the text that all blocks join to, every block is where its start says. */
  lemma BlockInPlace(p: Packing, base: nat, k: nat)
    requires Spaced(p, base) && k <= |p.blocks|
    ensures var b := BlockAt(p, k);
            base <= b.start && b.End() <= base + |Join(Raws(p))| && Slice(Join(Raws(p)), base, b.start, b.End()) == b.raw
  {
    hide Raws, Join, Offset, Slice;
    SpacedOffset(p, base, k);
    RawAt(p, k);
    JoinSlice(Raws(p), k);
    SliceAt(Join(Raws(p)), base, BlockAt(p, k), Offset(Raws(p), k), Raws(p)[k]);
  }

  lemma SliceAt(text: string, base: nat, b: Block, offset: nat, raw: string)
    requires raw == b.raw && b.start == base + offset && offset + |raw| <= |text| && text[offset..offset + |raw|] == raw
    ensures b.End() <= base + |text| && Slice(text, base, b.start, b.End()) == raw
  {
  }

  /** Theorem: if no separator is dropped, every section is exactly the text its span delimits. */
  lemma SectionsAreExact(units: seq<string>, base: nat, max: int, titles: seq<string>, numbered: bool, k: nat)
    requires Lost(units, base, max) == 0
    requires k < |AllSections(Pack(units, base, max), titles, numbered)|
    ensures Exact(Join(units), base, AllSections(Pack(units, base, max), titles, numbered)[k])
  {
    var p := Pack(units, base, max);
    LengthAccount(units, base, max);
    SpansAreSpaced(units, base, max);
    SectionAt(p, titles, numbered, k);
    BlockInPlace(p, base, k);
  }

  // ---------------------------------------------------------------- where the blocks really are

  /**
   The unit with which each block's content begins, the unfinished block last: the one that closed the block
   before, or the last one that met an empty block.
   */
  function Firsts(units: seq<string>, base: nat, max: int): seq<nat> {
    if units == [] then [0]
    else
      var before, unit := units[..|units|-1], units[|units|-1];
      FeedFirsts(Firsts(before, base, max), Pack(before, base, max).current, |before|, |unit|, max)
  }

  function FeedFirsts(firsts: seq<nat>, current: string, n: nat, size: nat, max: int): seq<nat> {
    if current != "" && |current| + size + 2 > max then firsts + [n]
    else if current == "" && firsts != [] then firsts[..|firsts|-1] + [n]
    else firsts
  }

  /** The text has the content of the block at `offset`, two characters behind its start for each of the `drops`. */
  predicate IsAt(text: string, base: nat, b: Block, offset: nat, drops: nat) {
    && b.start + 2 * drops == base + offset
    && offset + |b.raw| <= |text| && text[offset..offset + |b.raw|] == b.raw
  }

  /** The content of a block is found where its first unit is. */
  ghost predicate Found(units: seq<string>, base: nat, max: int, b: Block, first: nat) {
    first < |units| && IsAt(Join(units), base, b, Offset(units, first), Lost(units[..first + 1], base, max))
  }

  lemma {:induction false} JoinLength(parts: seq<string>)
    requires parts != []
    ensures Offset(parts, |parts|) == |Join(parts)| + 2
    decreases |parts|
  {
    if |parts| > 1 {
      JoinLength(parts[1..]);
      OffsetOfTail(parts, |parts|);
    }
  }

  lemma {:induction false} OffsetOfPrefix(before: seq<string>, unit: string, i: nat)
    requires i <= |before|
    ensures Offset(before + [unit], i) == Offset(before, i)
  {
    if i > 0 {
      OffsetOfPrefix(before, unit, i - 1);
    }
  }

  /** The block that is being filled ends where the text so far ends. */
  ghost predicate AtEnd(units: seq<string>, base: nat, max: int, first: nat) {
    && first < |units| && Offset(units, first) + |Pack(units, base, max).current| == |Join(units)|
    && Lost(units, base, max) == Lost(units[..first + 1], base, max)
  }

  /** A unit that starts a block, behind the text so far. */
  lemma UnitIsAt(whole: string, base: nat, p: Packing, lost: nat, unit: string, max: int)
    requires p.start + |p.current| + 2 * lost == base + |whole|
    requires p.current == "" || |p.current| + |unit| + 2 > max
    ensures var q := Feed(p, unit, max);
            && q.current == unit
            && IsAt(whole + SEP + unit, base, Block(unit, q.start), |whole| + 2, lost + if p.current == "" then 1 else 0)
  {
    assert "" + unit == unit;
    assert (whole + SEP + unit)[|whole| + 2..] == unit;
  }

  lemma FirstUnitIsAt(base: nat, unit: string, max: int)
    ensures Pack([unit], base, max) == Packing([], unit, base) && IsAt(Join([unit]), base, Block(unit, base), 0, 0)
  {
    LostSnoc([], unit, base, max);
    assert [] + [unit] == [unit] && "" + unit == unit && unit[..|unit|] == unit;
  }

  /** A unit that extends a block, at the end of the text so far. */
  lemma BlockGrows(whole: string, base: nat, b: Block, offset: nat, drops: nat, unit: string)
    requires IsAt(whole, base, b, offset, drops) && offset + |b.raw| == |whole|
    ensures IsAt(whole + SEP + unit, base, Block(b.raw + SEP + unit, b.start), offset, drops)
    ensures offset + |b.raw + SEP + unit| == |whole + SEP + unit|
  {
    var grown := whole + SEP + unit;
    assert whole[offset..] == b.raw && grown[offset..] == whole[offset..] + SEP + unit;
  }

  /** A further unit behind the text moves no block. */
  lemma BlockStays(whole: string, base: nat, b: Block, offset: nat, drops: nat, unit: string)
    requires IsAt(whole, base, b, offset, drops)
    ensures IsAt(whole + SEP + unit, base, b, offset, drops)
  {
    assert (whole + SEP + unit)[..|whole|] == whole;
    assert (whole + SEP + unit)[offset..offset + |b.raw|] == whole[offset..offset + |b.raw|];
  }

  /** All blocks are found, and the last one ends with the text. */
  ghost predicate AllFound(units: seq<string>, base: nat, max: int) {
    var p, firsts := Pack(units, base, max), Firsts(units, base, max);
    && |firsts| == |p.blocks| + 1 && AtEnd(units, base, max, firsts[|p.blocks|])
    && forall k :: 0 <= k <= |p.blocks| ==> Found(units, base, max, BlockAt(p, k), firsts[k])
  }

  lemma FirstsSnoc(before: seq<string>, unit: string, base: nat, max: int)
    ensures Firsts(before + [unit], base, max) ==
            FeedFirsts(Firsts(before, base, max), Pack(before, base, max).current, |before|, |unit|, max)
  {
    assert (before + [unit])[..|before|] == before;
  }

  lemma OtherStaysFound(before: seq<string>, unit: string, base: nat, max: int, b: Block, first: nat)
    requires before != [] && Found(before, base, max, b, first)
    ensures Found(before + [unit], base, max, b, first)
  {
    OffsetOfPrefix(before, unit, first);
    JoinSnoc(before, unit);
    assert (before + [unit])[..first + 1] == before[..first + 1];
    BlockStays(Join(before), base, b, Offset(before, first), Lost(before[..first + 1], base, max), unit);
    hide Join, Offset, Lost, IsAt;
  }

  lemma NewIsFound(before: seq<string>, unit: string, base: nat, max: int)
    requires before != []
    requires var p := Pack(before, base, max);
             && (p.current == "" || |p.current| + |unit| + 2 > max)
             && p.start + |p.current| + 2 * Lost(before, base, max) == base + |Join(before)|
    ensures var q := Pack(before + [unit], base, max);
            Found(before + [unit], base, max, Block(q.current, q.start), |before|) && AtEnd(before + [unit], base, max, |before|)
  {
    hide Join, Offset, Lost, Pack, IsAt, Feed;
    var units, p := before + [unit], Pack(before, base, max);
    LostSnoc(before, unit, base, max);
    JoinSnoc(before, unit);
    OffsetOfPrefix(before, unit, |before|);
    JoinLength(before);
    assert units[..|before| + 1] == units;
    UnitIsAt(Join(before), base, p, Lost(before, base, max), unit, max);
  }

  lemma GrownIsFound(before: seq<string>, unit: string, base: nat, max: int, first: nat)
    requires before != [] && AtEnd(before, base, max, first)
    requires var p := Pack(before, base, max);
             p.current != "" && |p.current| + |unit| + 2 <= max && Found(before, base, max, Block(p.current, p.start), first)
    ensures var q := Pack(before + [unit], base, max);
            Found(before + [unit], base, max, Block(q.current, q.start), first) && AtEnd(before + [unit], base, max, first)
  {
    hide Join, Offset, Lost, Pack;
    var units, p := before + [unit], Pack(before, base, max);
    LostSnoc(before, unit, base, max);
    assert Pack(units, base, max).current == p.current + SEP + unit;
    JoinSnoc(before, unit);
    OffsetOfPrefix(before, unit, first);
    assert units[..first + 1] == before[..first + 1];
    BlockGrows(Join(before), base, Block(p.current, p.start), Offset(before, first), Lost(before, base, max), unit);
    hide IsAt;
  }

  /** What one unit does to the blocks and their first units. */
  lemma OneMoreBlock(before: seq<string>, unit: string, base: nat, max: int)
    requires |Firsts(before, base, max)| == |Pack(before, base, max).blocks| + 1
    ensures var p, q := Pack(before, base, max), Pack(before + [unit], base, max);
            var firsts, more := Firsts(before, base, max), Firsts(before + [unit], base, max);
            var n, m := |p.blocks|, |q.blocks|;
            && |more| == m + 1 && (m == n || m == n + 1)
            && (m == n + 1 ==> p.current != "" && |p.current| + |unit| + 2 > max && BlockAt(q, n) == BlockAt(p, n) && more[n] == firsts[n])
            && (m == n && p.current != "" ==> |p.current| + |unit| + 2 <= max)
            && more[m] == (if p.current == "" || |p.current| + |unit| + 2 > max then |before| else firsts[n])
            && forall k :: 0 <= k < n ==> BlockAt(q, k) == BlockAt(p, k) && more[k] == firsts[k]
  {
    LostSnoc(before, unit, base, max);
    FirstsSnoc(before, unit, base, max);
    hide Pack, Firsts;
  }

  lemma OneMoreFound(before: seq<string>, unit: string, base: nat, max: int)
    requires before != [] && AllFound(before, base, max)
    ensures AllFound(before + [unit], base, max)
  {
    hide Pack, Firsts, Lost, Join, Offset;
    var p, firsts := Pack(before, base, max), Firsts(before, base, max);
    var q, more := Pack(before + [unit], base, max), Firsts(before + [unit], base, max);
    var n := |p.blocks|;
    OneMoreBlock(before, unit, base, max);
    assert BlockAt(p, n) == Block(p.current, p.start) && Found(before, base, max, BlockAt(p, n), firsts[n]);
    if p.current == "" || |p.current| + |unit| + 2 > max {
      NewIsFound(before, unit, base, max);
    } else {
      GrownIsFound(before, unit, base, max, firsts[n]);
    }
    hide Found, AtEnd, IsAt;
    forall k | 0 <= k < |q.blocks| ensures Found(before + [unit], base, max, BlockAt(q, k), more[k]) {
      OtherStaysFound(before, unit, base, max, BlockAt(p, k), firsts[k]);
    }
  }

  /**
   Theorem: the content of every block is in the text at the place of its first unit, and its start is short
   of that by two for every separator dropped up to there.
   */
  lemma {:induction false} BlocksAreFound(units: seq<string>, base: nat, max: int)
    requires units != []
    ensures AllFound(units, base, max)
    decreases |units|
  {
    var before, unit := units[..|units|-1], units[|units|-1];
    assert units == before + [unit];
    if before == [] {
      FirstsSnoc([], unit, base, max);
      FirstUnitIsAt(base, unit, max);
      assert [unit][..1] == [unit] && [] + [unit] == [unit];
    } else {
      BlocksAreFound(before, base, max);
      OneMoreFound(before, unit, base, max);
    }
  }

  /** The place in the units' text of the first unit of block k. */
  function Origin(units: seq<string>, base: nat, max: int, k: nat): nat
    requires k < |Firsts(units, base, max)| && Firsts(units, base, max)[k] <= |units|
  {
    Offset(units, Firsts(units, base, max)[k])
  }

  /** The separators dropped up to there. */
  function Drops(units: seq<string>, base: nat, max: int, k: nat): nat
    requires k < |Firsts(units, base, max)| && Firsts(units, base, max)[k] < |units|
  {
    Lost(units[..Firsts(units, base, max)[k] + 1], base, max)
  }

  /** The text has the section's content at `origin`; the section's start lags behind by two for each of the `drops`. */
  predicate LiesAt(text: string, base: nat, s: Section, origin: nat, drops: nat) {
    && s.start + 2 * drops == base + origin
    && s.start <= s.end && origin + (s.end - s.start) <= |text|
    && s.content == Strip(text[origin..origin + (s.end - s.start)])
  }

  lemma SectionIsFound(units: seq<string>, base: nat, max: int, titles: seq<string>, numbered: bool, k: nat)
    requires units != [] && k < |AllSections(Pack(units, base, max), titles, numbered)|
    ensures k < |Firsts(units, base, max)| && Firsts(units, base, max)[k] < |units|
    ensures LiesAt(Join(units), base, AllSections(Pack(units, base, max), titles, numbered)[k],
                   Origin(units, base, max, k), Drops(units, base, max, k))
  {
    hide Pack, Firsts, Lost, Join, Offset, AllSections;
    BlocksAreFound(units, base, max);
    SectionAt(Pack(units, base, max), titles, numbered, k);
    assert Found(units, base, max, BlockAt(Pack(units, base, max), k), Firsts(units, base, max)[k]);
  }

  lemma {:induction false} LostGrows(units: seq<string>, base: nat, max: int, n: nat)
    requires n <= |units|
    ensures Lost(units[..n], base, max) <= Lost(units, base, max)
    decreases |units|
  {
    if n < |units| {
      var before := units[..|units|-1];
      assert units == before + [units[|units|-1]] && before[..n] == units[..n];
      LostGrows(before, base, max, n);
    } else {
      assert units[..n] == units;
    }
  }

  /** With an empty first unit no block begins before the second. */
  lemma {:induction false} EmptyFirstUnit(units: seq<string>, base: nat, max: int)
    requires |units| >= 2 && units[0] == ""
    ensures forall k :: 0 <= k < |Firsts(units, base, max)| ==> Firsts(units, base, max)[k] >= 1
    decreases |units|
  {
    var before, unit := units[..|units|-1], units[|units|-1];
    assert units == before + [unit];
    FirstsSnoc(before, unit, base, max);
    if |before| == 1 {
      assert before == [] + [""];
      FirstUnitIsAt(base, "", max);
      FirstsSnoc([], "", base, max);
    } else {
      EmptyFirstUnit(before, base, max);
    }
  }

  lemma EmptyFirstUnitIsDropped(units: seq<string>, base: nat, max: int, n: nat)
    requires 2 <= n <= |units| && units[0] == ""
    ensures Lost(units[..n], base, max) >= 1
  {
    LostGrows(units[..n], base, max, 2);
    assert units[..n][..2] == [""] + [units[1]];
    FirstUnitIsAt(base, "", max);
    LostSnoc([""], units[1], base, max);
  }

  // ---------------------------------------------------------------- nothing written is lost

  function InkAll(parts: seq<string>): string { Ink(Flatten(parts)) }

  lemma InkAllSnoc(parts: seq<string>, last: string)
    ensures InkAll(parts + [last]) == InkAll(parts) + Ink(last)
  {
    FlattenSnoc(parts, last);
    InkConcat(Flatten(parts), last);
  }

  lemma InkOfSeparator()
    ensures Ink(SEP) == ""
  {
    assert SEP[1..] == "\n" && "\n"[1..] == "";
  }

  lemma InkAcross(a: string, b: string)
    ensures Ink(a + SEP + b) == Ink(a) + Ink(b)
  {
    InkConcat(a + SEP, b);
    InkConcat(a, SEP);
    InkOfSeparator();
    assert Ink(a) + "" == Ink(a);
  }

  lemma {:induction false} InkJoin(parts: seq<string>)
    ensures Ink(Join(parts)) == InkAll(parts)
    decreases |parts|
  {
    if parts != [] {
      var before, last := parts[..|parts|-1], parts[|parts|-1];
      assert parts == before + [last];
      InkJoin(before);
      InkAllSnoc(before, last);
      JoinSnoc(before, last);
      InkAcross(Join(before), last);
      assert before == [] ==> Ink(Join(before)) + Ink(last) == Ink(last);
    }
  }

  lemma {:induction false} InkPack(units: seq<string>, base: nat, max: int)
    ensures InkAll(Raws(Pack(units, base, max))) == InkAll(units)
    decreases |units|
  {
    if units == [] {
      assert Raws(Pack(units, base, max)) == [] + [""];
      InkAllSnoc([], "");
    } else {
      var before, unit := units[..|units|-1], units[|units|-1];
      InkPack(before, base, max);
      InkOfFeed(Pack(before, base, max), unit, max);
      InkAllSnoc(before, unit);
      assert units == before + [unit];
    }
  }

  lemma InkOfFeed(p: Packing, unit: string, max: int)
    ensures InkAll(Raws(Feed(p, unit, max))) == InkAll(Raws(p)) + Ink(unit)
  {
    var sep := if p.current == "" then "" else SEP;
    InkJoin(Raws(p));
    InkJoin(Raws(Feed(p, unit, max)));
    JoinOfFeed(p, unit, max);
    InkConcat(Join(Raws(p)), sep + unit);
    InkConcat(sep, unit);
    InkOfSeparator();
  }

  function Contents(sections: seq<Section>): seq<string> {
    seq(|sections|, k requires 0 <= k < |sections| => sections[k].content)
  }

  lemma {:induction false} InkOfSections(blocks: seq<Block>, raws: seq<string>, titles: seq<string>, numbered: bool)
    requires |raws| == |blocks| && forall k :: 0 <= k < |raws| ==> raws[k] == blocks[k].raw
    ensures InkAll(Contents(Sections(blocks, titles, numbered))) == InkAll(raws)
    decreases |blocks|
  {
    if blocks != [] {
      var n := |blocks| - 1;
      InkOfSections(blocks[..n], raws[..n], titles, numbered);
      InkStrip(raws[n]);
      InkAllSnoc(raws[..n], raws[n]);
      InkAllSnoc(Contents(Sections(blocks[..n], titles, numbered)), Strip(raws[n]));
      assert raws == raws[..n] + [raws[n]];
      assert Contents(Sections(blocks, titles, numbered)) ==
             Contents(Sections(blocks[..n], titles, numbered)) + [Strip(raws[n])];
    }
  }

  /**
   Theorem: whatever separators are dropped or inserted, the characters written in the sections are,
   in order, exactly those written in the units.
   */
  lemma NothingWrittenIsLost(units: seq<string>, base: nat, max: int, titles: seq<string>, numbered: bool)
    ensures InkAll(Contents(AllSections(Pack(units, base, max), titles, numbered))) == InkAll(units)
  {
    var p := Pack(units, base, max);
    var closed := Raws(p)[..|p.blocks|];
    var contents := Contents(Sections(p.blocks, titles, numbered));
    InkPack(units, base, max);
    InkOfSections(p.blocks, closed, titles, numbered);
    InkStrip(p.current);
    InkAllSnoc(closed, p.current);
    InkAllSnoc(contents, Strip(p.current));
    assert Raws(p) == closed + [p.current];
    var all := Contents(AllSections(p, titles, numbered));
    assert all == if Strip(p.current) == "" then contents else contents + [Strip(p.current)];
  }

  // ---------------------------------------------------------------- over-long paragraphs

  /** A paragraph longer than the limit is cut into slices of the limit. */
  function UnitsOf(para: string, max: nat): seq<string>
    requires max > 0
  {
    if |para| > max then Cut(para, max) else [para]
  }

  function Units(paras: seq<string>, max: nat): seq<string>
    requires max > 0
  {
    if paras == [] then [] else Units(paras[..|paras|-1], max) + UnitsOf(paras[|paras|-1], max)
  }

  lemma InkOfUnits(para: string, max: nat)
    requires max > 0
    ensures Limited(UnitsOf(para, max), max) && InkAll(UnitsOf(para, max)) == Ink(para)
  {
    CutIsLossless(para, max);
    assert Flatten([para]) == para;
  }

  lemma LimitedConcat(a: seq<string>, b: seq<string>, max: int)
    ensures Limited(a + b, max) <==> Limited(a, max) && Limited(b, max)
  {
    if Limited(a + b, max) {
      assert forall k :: 0 <= k < |a| ==> (a + b)[k] == a[k];
      assert forall k :: 0 <= k < |b| ==> (a + b)[|a| + k] == b[k];
    }
  }

  lemma {:induction false} UnitsFacts(paras: seq<string>, max: nat)
    requires max > 0
    ensures Limited(Units(paras, max), max) && InkAll(Units(paras, max)) == InkAll(paras)
    ensures Limited(paras, max) ==> Units(paras, max) == paras
    decreases |paras|
  {
    if paras != [] {
      var before, last := paras[..|paras|-1], paras[|paras|-1];
      var units, more := Units(before, max), UnitsOf(last, max);
      assert paras == before + [last];
      UnitsFacts(before, max);
      InkOfUnits(last, max);
      LimitedConcat(units, more, max);
      LimitedConcat(before, [last], max);
      assert Limited([last], max) ==> |[last][0]| <= max;
      FlattenConcat(units, more);
      InkConcat(Flatten(units), Flatten(more));
      InkAllSnoc(before, last);
    }
  }

  /** Paragraph k becomes these units: itself within the limit, else consecutive slices of max characters and a rest. */
  ghost predicate CutInto(para: string, units: seq<string>, max: nat) {
    && Flatten(units) == para
    && if |para| <= max then units == [para]
       else units != [] && (forall i :: 0 <= i < |units| - 1 ==> |units[i]| == max) && 1 <= |units[|units|-1]| <= max
  }

  /** Theorem: each paragraph in turn becomes units of its own. */
  lemma UnitsAreCut(paras: seq<string>, max: nat, para: string)
    requires max > 0
    ensures Units(paras + [para], max) == Units(paras, max) + UnitsOf(para, max)
    ensures CutInto(para, UnitsOf(para, max), max)
  {
    assert (paras + [para])[..|paras|] == paras;
    if |para| > max {
      CutIsLossless(para, max);
      forall i | 0 <= i < |Cut(para, max)| - 1 ensures |Cut(para, max)[i]| == max {
        CutIsFull(para, max, i);
      }
    } else {
      assert Flatten([para]) == para;
    }
  }

  // ---------------------------------------------------------------- the splitters

  lemma SectionWithin(p: Packing, titles: seq<string>, numbered: bool, max: int, k: nat)
    requires Limited(Raws(p), max) && k < |AllSections(p, titles, numbered)|
    ensures var s := AllSections(p, titles, numbered)[k]; |s.content| <= s.end - s.start <= max
  {
    SectionAt(p, titles, numbered, k);
    InkStrip(BlockAt(p, k).raw);
    assert Raws(p)[k] == BlockAt(p, k).raw;
  }

  function RecursiveSplit(text: string, max: nat): seq<Section>
    requires max > 0
  {
    AllSections(Pack(Units(SplitText(text), max), 0, max), [], false)
  }

  lemma UnnumberedHeading(p: Packing, titles: seq<string>, k: nat)
    requires k < |AllSections(p, titles, false)|
    ensures AllSections(p, titles, false)[k].heading == Path(titles)
  {
    if k < |p.blocks| {
      assert AllSections(p, titles, false)[k] == Sections(p.blocks, titles, false)[k];
    }
  }

  /**
   Theorem: for any text, no section or span exceeds the limit, nothing written is lost, and the heading path of every
   section is empty.
   */
  lemma RecursiveSplitIsSafe(text: string, max: nat)
    requires max > 0
    ensures forall k :: 0 <= k < |RecursiveSplit(text, max)| ==>
              var s := RecursiveSplit(text, max)[k]; |s.content| <= s.end - s.start <= max && s.heading == Path([])
    ensures InkAll(Contents(RecursiveSplit(text, max))) == Ink(text)
  {
    var paras := SplitText(text);
    var units := Units(paras, max);
    var p := Pack(units, 0, max);
    UnitsFacts(paras, max);
    BlocksAreFull(units, 0, max);
    NothingWrittenIsLost(units, 0, max, [], false);
    JoinUndoesSplit(text);
    InkJoin(paras);
    forall k | 0 <= k < |RecursiveSplit(text, max)|
      ensures var s := RecursiveSplit(text, max)[k]; |s.content| <= s.end - s.start <= max && s.heading == Path([])
    {
      SectionWithin(p, [], false, max, k);
      UnnumberedHeading(p, [], k);
    }
  }

  /**
   Theorem: if no paragraph exceeds the limit, the blocks join to the text exactly when no separator is
   dropped, and then every section is exactly the text its span delimits.
   */
  lemma RecursiveSplitIsExact(text: string, max: nat)
    requires max > 0 && Limited(SplitText(text), max)
    ensures Join(Raws(Pack(Units(SplitText(text), max), 0, max))) == text <==> Lost(SplitText(text), 0, max) == 0
    ensures Lost(SplitText(text), 0, max) == 0 ==>
              forall k :: 0 <= k < |RecursiveSplit(text, max)| ==> Exact(text, 0, RecursiveSplit(text, max)[k])
  {
    var paras := SplitText(text);
    UnitsFacts(paras, max);
    JoinUndoesSplit(text);
    ExactIffNothingLost(paras, 0, max);
    if Lost(paras, 0, max) == 0 {
      forall k | 0 <= k < |RecursiveSplit(text, max)| ensures Exact(text, 0, RecursiveSplit(text, max)[k]) {
        SectionsAreExact(paras, 0, max, [], false, k);
      }
    }
  }

  /**
   Theorem: without over-long paragraphs the content of every section is in the text at its origin, its start
   is two short of that for every separator dropped up to there, and so is right if and only if there is none.
   */
  lemma SpansDriftByDrops(text: string, max: nat, k: nat)
    requires max > 0 && Limited(SplitText(text), max) && k < |RecursiveSplit(text, max)|
    ensures var paras, s := SplitText(text), RecursiveSplit(text, max)[k];
            && k < |Firsts(paras, 0, max)| && Firsts(paras, 0, max)[k] < |paras|
            && LiesAt(text, 0, s, Origin(paras, 0, max, k), Drops(paras, 0, max, k))
            && (s.start == Origin(paras, 0, max, k) <==> Drops(paras, 0, max, k) == 0)
  {
    hide SplitText, Pack, Units, Firsts, Lost, Join, Offset, AllSections;
    UnitsFacts(SplitText(text), max);
    JoinUndoesSplit(text);
    SectionIsFound(SplitText(text), 0, max, [], false, k);
  }

  /** Theorem: in a text that begins with a blank line every section starts further on than its span says. */
  lemma LeadingSeparatorDrifts(text: string, max: nat, k: nat)
    requires max > 0 && SEP <= text && Limited(SplitText(text), max) && k < |RecursiveSplit(text, max)|
    ensures k < |Firsts(SplitText(text), 0, max)| && Firsts(SplitText(text), 0, max)[k] < |SplitText(text)|
    ensures RecursiveSplit(text, max)[k].start + 2 <= Origin(SplitText(text), 0, max, k)
  {
    var paras := SplitText(text);
    SpansDriftByDrops(text, max, k);
    assert paras[0] == "" && |paras| >= 2;
    EmptyFirstUnit(paras, 0, max);
    EmptyFirstUnitIsDropped(paras, 0, max, Firsts(paras, 0, max)[k] + 1);
  }

  /** Theorem: without blank or over-long paragraphs the slices of the spans join to the text. */
  lemma SlicesJoinToText(text: string, max: nat)
    requires max > 0 && Limited(SplitText(text), max)
    requires forall k :: 0 <= k < |SplitText(text)| ==> Strip(SplitText(text)[k]) != ""
    ensures Join(Slices(text, RecursiveSplit(text, max))) == text
  {
    var paras := SplitText(text);
    UnitsFacts(paras, max);
    JoinUndoesSplit(text);
    BlankIsNotWritten();
    NonEmptyLosesNothing(paras, 0, max);
    LengthAccount(paras, 0, max);
    SlicesAreRaws(paras, max);
  }

  lemma SlicesAreRaws(units: seq<string>, max: int)
    requires units != [] && Strip(units[|units|-1]) != "" && Lost(units, 0, max) == 0
    ensures Slices(Join(units), AllSections(Pack(units, 0, max), [], false)) == Raws(Pack(units, 0, max))
  {
    var p := Pack(units, 0, max);
    var sections := AllSections(p, [], false);
    LengthAccount(units, 0, max);
    LastIsWritten(units, 0, max);
    SpansAreSpaced(units, 0, max);
    forall k | 0 <= k < |sections| ensures Slice(Join(units), 0, sections[k].start, sections[k].end) == Raws(p)[k] {
      SectionAt(p, [], false, k);
      BlockInPlace(p, 0, k);
    }
  }

  /** If no unit is blank, neither is the last block. */
  lemma LastIsWritten(units: seq<string>, base: nat, max: int)
    requires units != [] && Strip(units[|units|-1]) != ""
    ensures Strip(Pack(units, base, max).current) != ""
  {
    var before, unit := units[..|units|-1], units[|units|-1];
    var p := Pack(before, base, max);
    StripBlank(unit);
    StripBlank(Pack(units, base, max).current);
    InkConcat(p.current + SEP, unit);
    assert [] + unit == unit;
  }

  /** The loop variables of both splitters stand for the packing p. */
  ghost predicate Stands(sections: seq<Section>, current: string, start: int, p: Packing, titles: seq<string>, numbered: bool) {
    sections == Sections(p.blocks, titles, numbered) && current == p.current && start == p.start
  }

  /** One unit in the loop of both splitters. */
  method Add(sections: seq<Section>, current: string, start: nat, unit: string, max: int, heading: Label,
             ghost p: Packing, ghost titles: seq<string>, ghost numbered: bool)
      returns (s: seq<Section>, c: string, t: nat)
    requires Stands(sections, current, start, p, titles, numbered)
    requires heading == if numbered then Part(titles, |p.blocks| + 1) else Path(titles)
    ensures Stands(s, c, t, Feed(p, unit, max), titles, numbered)
  {
    if current != "" && |current| + |unit| + 2 > max {
      s := sections + [Section(Strip(current), heading, start, start + |current|)];
      t := start + |current| + 2;
      c := unit;
    } else {
      s, t := sections, start;
      c := current + (if current != "" then SEP else "") + unit;
    }
  }

  /** The last block, unless it is blank. */
  method Finish(sections: seq<Section>, current: string, start: nat, heading: Label,
                ghost p: Packing, ghost titles: seq<string>, ghost numbered: bool)
      returns (s: seq<Section>)
    requires Stands(sections, current, start, p, titles, numbered)
    requires heading == if numbered && |p.blocks| > 0 then Part(titles, |p.blocks| + 1) else Path(titles)
    ensures s == AllSections(p, titles, numbered)
  {
    s := sections;
    if Strip(current) != "" {
      s := s + [Section(Strip(current), heading, start, start + |current|)];
    }
  }

  class RecursiveTextSplitter {
    constructor () {}

    method AddSubs(sections: seq<Section>, current: string, start: nat, subs: seq<string>, max: nat, ghost before: seq<string>)
        returns (s: seq<Section>, c: string, t: nat)
      requires Stands(sections, current, start, Pack(before, 0, max), [], false)
      ensures Stands(s, c, t, Pack(before + subs, 0, max), [], false)
    {
      s, c, t := sections, current, start;
      assert before + subs[..0] == before;
      for j := 0 to |subs|
        invariant Stands(s, c, t, Pack(before + subs[..j], 0, max), [], false)
      {
        assert (before + subs[..j+1])[..|before|+j] == before + subs[..j];
        s, c, t := Add(s, c, t, subs[j], max, Path([]), Pack(before + subs[..j], 0, max), [], false);
      }
      assert subs[..|subs|] == subs;
    }

    method Split(text: string, max: nat) returns (sections: seq<Section>)
      requires max > 0
      ensures sections == RecursiveSplit(text, max)
    {
      var paras := SplitText(text);
      sections := [];
      var current, start: nat := "", 0;
      for i := 0 to |paras|
        invariant Stands(sections, current, start, Pack(Units(paras[..i], max), 0, max), [], false)
      {
        assert paras[..i+1][..i] == paras[..i];
        var subs := if |paras[i]| > max then Cut(paras[i], max) else [paras[i]];
        sections, current, start := AddSubs(sections, current, start, subs, max, Units(paras[..i], max));
      }
      assert paras[..|paras|] == paras;
      sections := Finish(sections, current, start, Path([]), Pack(Units(paras, max), 0, max), [], false);
    }
  }

  // ---------------------------------------------------------------- parts of a long section

  /** `_split_long_section`: parts of a section whose content begins at `base` in the text. */
  function LongSplit(content: string, titles: seq<string>, base: nat, max: int): seq<Section> {
    AllSections(Pack(SplitText(content), base, max), titles, true)
  }

  method SplitLongSection(content: string, titles: seq<string>, base: nat, max: int) returns (sections: seq<Section>)
    ensures sections == LongSplit(content, titles, base, max)
  {
    var paras := SplitText(content);
    sections := [];
    var current, start: nat, partNum := "", base, 0;
    for i := 0 to |paras|
      invariant Stands(sections, current, start, Pack(paras[..i], base, max), titles, true) && partNum == |sections|
    {
      assert paras[..i+1][..i] == paras[..i];
      var more;
      more, current, start :=
        Add(sections, current, start, paras[i], max, Part(titles, partNum + 1), Pack(paras[..i], base, max), titles, true);
      if |more| > |sections| {
        partNum := partNum + 1;
      }
      sections := more;
    }
    assert paras[..|paras|] == paras;
    partNum := partNum + 1;
    sections := Finish(sections, current, start, if partNum > 1 then Part(titles, partNum) else Path(titles),
                       Pack(paras, base, max), titles, true);
  }

  /** The part's content is in the section at the origin of block k. */
  ghost predicate PartIsAtOrigin(content: string, base: nat, max: int, part: Section, k: nat) {
    var paras := SplitText(content);
    && k < |Firsts(paras, base, max)| && Firsts(paras, base, max)[k] < |paras|
    && LiesAt(content, base, part, Origin(paras, base, max, k), Drops(paras, base, max, k))
    && (part.start == base + Origin(paras, base, max, k) <==> Drops(paras, base, max, k) == 0)
  }

  lemma PartsAreAtOrigin(content: string, titles: seq<string>, base: nat, max: int, k: nat)
    requires k < |LongSplit(content, titles, base, max)|
    ensures PartIsAtOrigin(content, base, max, LongSplit(content, titles, base, max)[k], k)
  {
    hide SplitText, Pack, Firsts, Lost, Join, Offset, AllSections;
    JoinUndoesSplit(content);
    SectionIsFound(SplitText(content), base, max, titles, true, k);
  }

  /** A text that ends with a written character. */
  predicate EndsWritten(s: string) { s != "" && !IsSpace(s[|s|-1]) }

  lemma WrittenEndIsNotBlank(s: string)
    requires EndsWritten(s)
    ensures Strip(s) != ""
  {
    hide Strip, Ink;
    var before, c := s[..|s|-1], s[|s|-1];
    StripBlank(s);
    assert s == before + [c];
    InkConcat(before, [c]);
    InkOfWritten(c);
  }

  lemma InkOfWritten(c: char)
    requires !IsSpace(c)
    ensures Ink([c]) == [c]
  {
    assert [c][1..] == [];
    assert [c] + [] == [c];
  }

  /** If a text ends with a written character, so does its last paragraph. */
  lemma LastParagraphIsWritten(content: string)
    requires EndsWritten(content)
    ensures EndsWritten(SplitText(content)[|SplitText(content)|-1])
  {
    var paras := SplitText(content);
    var before, last := paras[..|paras|-1], paras[|paras|-1];
    JoinUndoesSplit(content);
    assert paras == before + [last];
    JoinSnoc(before, last);
    hide SplitText, Join;
    if before != [] {
      assert content == Join(before) + SEP + last;
    }
  }

  /** A section with a written end is split into parts numbered from 1, and keeps its label if there is only one. */
  lemma PartsAreNumbered(content: string, titles: seq<string>, base: nat, max: int)
    requires EndsWritten(content)
    ensures var parts := LongSplit(content, titles, base, max);
            && parts != []
            && forall k :: 0 <= k < |parts| ==> parts[k].heading == if |parts| == 1 then Path(titles) else Part(titles, k + 1)
  {
    var paras := SplitText(content);
    LastParagraphIsWritten(content);
    WrittenEndIsNotBlank(paras[|paras|-1]);
    LastIsWritten(paras, base, max);
  }

  /**
   Theorem: the parts carry all that is written in the section; they are numbered in order unless there is
   only one block; each part's content is in the section at its origin, and its start, counted from the
   base, is right if and only if no separator is dropped up to there.
   */
  lemma LongSplitIsFaithful(content: string, titles: seq<string>, base: nat, max: int)
    ensures InkAll(Contents(LongSplit(content, titles, base, max))) == Ink(content)
    ensures var parts := LongSplit(content, titles, base, max);
            forall k :: 0 <= k < |parts| ==>
              && parts[k].heading in {Part(titles, k + 1), Path(titles)}
              && (|parts| > 1 ==> parts[k].heading.Part?)
              && PartIsAtOrigin(content, base, max, parts[k], k)
              && (Lost(SplitText(content), base, max) == 0 ==> Exact(content, base, parts[k]))
  {
    hide SplitText, Pack, Firsts, Lost, Join, Offset, Origin, Drops, PartIsAtOrigin, Exact;
    var paras := SplitText(content);
    var parts := LongSplit(content, titles, base, max);
    JoinUndoesSplit(content);
    InkJoin(paras);
    NothingWrittenIsLost(paras, base, max, titles, true);
    forall k | 0 <= k < |parts| ensures PartIsAtOrigin(content, base, max, parts[k], k) {
      PartsAreAtOrigin(content, titles, base, max, k);
    }
    if Lost(paras, base, max) == 0 {
      forall k | 0 <= k < |parts| ensures Exact(content, base, parts[k]) {
        SectionsAreExact(paras, base, max, titles, true, k);
      }
    }
  }
}
