/**
 Removal of the table of contents (facade.py, _strip_toc_block): the loop over the lines, and what it
 means to be the table of contents of a document.
 */
module TocStripper {
  import opened Basics

  /**
   How the regular expressions and keyword lists class a stripped line: blank, like a line of a table of
   contents, any other line of more than 90 characters, or any other short line.
   */
  datatype Kind = Blank | TocLike | Body | Noise

  /** `header`: the line is one of the titles of a table of contents, which all are TocLike. */
  datatype Line = Line(text: string, kind: Kind, header: bool) {
    predicate Valid() { header ==> kind.TocLike? }
  }

  const MIN_LINES := 30
  const MIN_ENTRIES := 8
  const LOOK_BACK := 5

  // ---------------------------------------------------------------- the declarative meaning

  /** The lines from p up to q that look like those of a table of contents. */
  function EntryLines(lines: seq<Line>, p: nat, q: nat): set<nat>
    requires p <= q <= |lines|
  {
    set k: nat | p <= k < q && lines[k].kind.TocLike?
  }

  function Entries(lines: seq<Line>, p: nat, q: nat): nat
    requires p <= q <= |lines|
  {
    |EntryLines(lines, p, q)|
  }

  lemma EntriesSnoc(lines: seq<Line>, p: nat, q: nat)
    requires p <= q < |lines|
    ensures Entries(lines, p, q + 1) == Entries(lines, p, q) + if lines[q].kind.TocLike? then 1 else 0
    ensures Entries(lines, p, p) == 0
  {
    assert EntryLines(lines, p, p) == {};
    assert EntryLines(lines, p, q + 1) == EntryLines(lines, p, q) + if lines[q].kind.TocLike? then {q} else {};
  }

  ghost predicate NoBody(lines: seq<Line>, p: nat, q: nat)
    requires p <= q <= |lines|
  {
    forall k :: p <= k < q ==> !lines[k].kind.Body?
  }

  /** A longest run of lines without body text among the first `limit` lines. */
  ghost predicate Stretch(lines: seq<Line>, limit: nat, p: nat, q: nat)
    requires limit <= |lines|
  {
    && p <= q <= limit && NoBody(lines, p, q)
    && (p == 0 || lines[p-1].kind.Body?) && (q == limit || lines[q].kind.Body?)
  }

  /** A stretch with enough lines like those of a table of contents, and no such stretch before it. */
  ghost predicate FirstDense(lines: seq<Line>, limit: nat, p: nat, q: nat)
    requires limit <= |lines|
  {
    && Stretch(lines, limit, p, q) && Entries(lines, p, q) >= 8
    && NoDenseBefore(lines, limit, p)
  }

  ghost predicate NoDenseBefore(lines: seq<Line>, limit: nat, p: nat)
    requires limit <= |lines|
  {
    forall a: nat, b: nat :: a < p && Stretch(lines, limit, a, b) ==> Entries(lines, a, b) < 8
  }

  ghost predicate FirstEntry(lines: seq<Line>, p: nat, s: nat) {
    p <= s < |lines| && lines[s].kind.TocLike? && forall k :: p <= k < s ==> !lines[k].kind.TocLike?
  }

  /** The lines from s up to e are the table of contents found by the first pass. */
  ghost predicate IsToc(lines: seq<Line>, limit: nat, s: nat, e: nat)
    requires limit <= |lines|
  {
    exists p: nat :: FirstDense(lines, limit, p, e) && FirstEntry(lines, p, s)
  }

  /** Two stretches are the same or one ends before the other starts. */
  lemma StretchesAreApart(lines: seq<Line>, limit: nat, a: nat, b: nat, p: nat, q: nat)
    requires limit <= |lines| && Stretch(lines, limit, a, b) && Stretch(lines, limit, p, q) && a <= p
    ensures (a == p && b == q) || b < p
  {
  }

  /** Theorem: a document has at most one table of contents. */
  lemma TocIsUnique(lines: seq<Line>, limit: nat, s: nat, e: nat, t: nat, f: nat)
    requires limit <= |lines| && IsToc(lines, limit, s, e) && IsToc(lines, limit, t, f)
    ensures s == t && e == f
  {
    var p: nat :| FirstDense(lines, limit, p, e) && FirstEntry(lines, p, s);
    var q: nat :| FirstDense(lines, limit, q, f) && FirstEntry(lines, q, t);
    assert p == q;
    StretchesAreApart(lines, limit, p, e, q, f);
  }

  /** Theorem: the table of contents lies in the scanned part, holds 8 entries and no body line. */
  lemma TocHasNoBody(lines: seq<Line>, limit: nat, s: nat, e: nat)
    requires limit <= |lines| && IsToc(lines, limit, s, e)
    ensures s < e <= limit && NoBody(lines, s, e) && Entries(lines, s, e) >= 8
  {
    var p: nat :| FirstDense(lines, limit, p, e) && FirstEntry(lines, p, s);
    if e <= s {
      NoEntries(lines, p, e);
    } else {
      NoEntries(lines, p, s);
      EntriesSplit(lines, p, s, e);
    }
  }

  lemma NoEntries(lines: seq<Line>, p: nat, q: nat)
    requires p <= q <= |lines| && forall k :: p <= k < q ==> !lines[k].kind.TocLike?
    ensures Entries(lines, p, q) == 0
  {
    assert EntryLines(lines, p, q) == {};
  }

  lemma EntriesSplit(lines: seq<Line>, p: nat, m: nat, q: nat)
    requires p <= m <= q <= |lines|
    ensures Entries(lines, p, q) == Entries(lines, p, m) + Entries(lines, m, q)
  {
    assert EntryLines(lines, p, q) == EntryLines(lines, p, m) + EntryLines(lines, m, q);
  }

  // ---------------------------------------------------------------- the header

  /** Where the removed block starts: at the first header up to 5 lines above the first entry, if any. */
  ghost predicate StartsAt(lines: seq<Line>, s: nat, h: nat) {
    && s <= h + 5 && h <= s < |lines|
    && (h < s ==> lines[h].header)
    && forall k :: 0 <= k < h && s <= k + 5 ==> !lines[k].header
  }

  /**
   Theorem: a header is itself an entry, so one found above the first entry lies in an earlier stretch:
   the block then starts before a body line, which is removed with it.
   */
  lemma HeaderLiesBehindBody(lines: seq<Line>, limit: nat, s: nat, e: nat, h: nat)
    requires limit <= |lines| && IsToc(lines, limit, s, e) && StartsAt(lines, s, h)
    requires forall k :: 0 <= k < |lines| ==> lines[k].Valid()
    ensures NoBody(lines, h, s) <==> h == s
    ensures h < s ==> exists k :: h < k < s && lines[k].kind.Body?
  {
    var p: nat :| FirstDense(lines, limit, p, e) && FirstEntry(lines, p, s);
    if h < s {
      assert lines[h].Valid() && h < p;
      assert lines[p-1].kind.Body? && h < p - 1;
    }
  }

  // ---------------------------------------------------------------- the loops

  /** Pass 1. */
  method FindToc(lines: seq<Line>, limit: nat) returns (toc: Option<(nat, nat)>)
    requires limit <= |lines|
    ensures toc.Some? ==> IsToc(lines, limit, toc.value.0, toc.value.1)
    ensures toc.None? ==> forall s: nat, e: nat :: !IsToc(lines, limit, s, e)
  {
    var runStart: Option<nat> := None;
    var count: nat := 0;
    ghost var p: nat := 0;
    NoEntries(lines, 0, 0);
    for i := 0 to limit
      invariant p <= i && NoBody(lines, p, i) && (p == 0 || lines[p-1].kind.Body?)
      invariant count == Entries(lines, p, i) && NoDenseBefore(lines, limit, p)
      invariant runStart.None? ==> count == 0
      invariant if runStart.Some? then FirstEntry(lines, p, runStart.value) && runStart.value < i
                else forall k :: p <= k < i ==> !lines[k].kind.TocLike?
    {
      EntriesSnoc(lines, p, i);
      match lines[i].kind {
        case Blank =>
        case TocLike =>
          if runStart.None? {
            runStart := Some(i);
          }
          count := count + 1;
        case Body =>
          if count >= MIN_ENTRIES {
            assert FirstDense(lines, limit, p, i);
            return Some((runStart.value, i));
          }
          NextStretch(lines, limit, p, i);
          runStart, count := None, 0;
          p := i + 1;
          NoEntries(lines, p, p);
        case Noise =>
      }
    }
    if count >= MIN_ENTRIES && runStart.Some? {
      assert FirstDense(lines, limit, p, limit);
      return Some((runStart.value, limit));
    }
    NothingDense(lines, limit, p);
    return None;
  }

  lemma NextStretch(lines: seq<Line>, limit: nat, p: nat, i: nat)
    requires p <= i < limit <= |lines| && NoDenseBefore(lines, limit, p)
    requires NoBody(lines, p, i) && lines[i].kind.Body? && Entries(lines, p, i) < MIN_ENTRIES
    requires p == 0 || lines[p-1].kind.Body?
    ensures NoDenseBefore(lines, limit, i + 1)
  {
    forall a: nat, b: nat | a < i + 1 && Stretch(lines, limit, a, b) ensures Entries(lines, a, b) < MIN_ENTRIES {
      if a >= p {
        assert Stretch(lines, limit, p, i);
        StretchesAreApart(lines, limit, p, i, a, b);
      }
    }
  }

  lemma NothingDense(lines: seq<Line>, limit: nat, p: nat)
    requires p <= limit <= |lines| && NoDenseBefore(lines, limit, p)
    requires NoBody(lines, p, limit) && (p == 0 || lines[p-1].kind.Body?) && Entries(lines, p, limit) < MIN_ENTRIES
    ensures forall s: nat, e: nat :: !IsToc(lines, limit, s, e)
  {
    forall a: nat, b: nat | Stretch(lines, limit, a, b) ensures Entries(lines, a, b) < MIN_ENTRIES {
      if a >= p {
        StretchesAreApart(lines, limit, p, limit, a, b);
      }
    }
  }

  /** Pass 2. */
  method FindHeader(lines: seq<Line>, s: nat) returns (h: nat)
    requires s < |lines|
    ensures StartsAt(lines, s, h)
  {
    for j := Max(0, s - LOOK_BACK) to s
      invariant forall k :: Max(0, s - LOOK_BACK) <= k < j ==> !lines[k].header
    {
      if lines[j].header {
        return j;
      }
    }
    return s;
  }

  /**
   Theorem: a document of less than 30 lines, or one without a table of contents, is unchanged; otherwise the table of
   contents is removed from its header, if it has one, and nothing else is.
   */
  method StripTocBlock(lines: seq<Line>) returns (result: seq<Line>)
    ensures |lines| < 30 ==> result == lines
    ensures var limit := if |lines| <= 60 then |lines| else if |lines| < 240 then 60 else |lines| / 4;
            && ((forall s: nat, e: nat :: !IsToc(lines, limit, s, e)) ==> result == lines)
            && forall s: nat, e: nat :: |lines| >= 30 && IsToc(lines, limit, s, e) ==>
                 exists h: nat :: StartsAt(lines, s, h) && h < e <= limit && result == lines[..h] + lines[e..]
  {
    if |lines| < MIN_LINES {
      return lines;
    }
    var limit := Min(Max(60, |lines| / 4), |lines|);
    var toc := FindToc(lines, limit);
    if toc.None? {
      return lines;
    }
    var (s, e) := toc.value;
    TocHasNoBody(lines, limit, s, e);
    var h := FindHeader(lines, s);
    result := lines[..h] + lines[e..];
    forall t: nat, f: nat | IsToc(lines, limit, t, f)
      ensures StartsAt(lines, t, h) && h < f <= limit && result == lines[..h] + lines[f..]
    {
      TocIsUnique(lines, limit, s, e, t, f);
    }
  }
}
