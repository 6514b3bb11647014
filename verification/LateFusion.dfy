/** Quota fusion of the three retrieval pipelines (fusion.py, fuse_late_results). */
module LateFusion {
  import opened Basics
  import opened Texts

  /** A retrieved item; `rowId` is the id of its row, empty if it has none. */
  datatype Item = Item(rowId: string, source: string, content: string, score: real)

  /** Items with the same identity are duplicates of each other. */
  function Identity(item: Item): string {
    if Strip(item.rowId) != "" then "row::" + Strip(item.rowId)
    else
      var content := Strip(item.content);
      "fallback::" + Strip(item.source) + "::" + content[..Min(120, |content|)]
  }

  /** What of a content tells items without a row apart. */
  function Key(item: Item): string {
    if |Strip(item.content)| <= 120 then Strip(item.content) else Strip(item.content)[..120]
  }

  /**
   Theorem: items with rows are duplicates if and only if their row ids agree, an item with a row never is one of an
   item without, and items of one source without rows are if and only if the first 120 characters of their contents agree.
   */
  lemma DuplicatesAre(a: Item, b: Item)
    ensures Strip(a.rowId) != "" || Strip(b.rowId) != "" ==> (Identity(a) == Identity(b) <==> Strip(a.rowId) == Strip(b.rowId))
    ensures Strip(a.rowId) == "" && Strip(b.rowId) == "" && Strip(a.source) == Strip(b.source) ==>
              (Identity(a) == Identity(b) <==> Key(a) == Key(b))
  {
    assert forall item: Item {:trigger Key(item)} :: Strip(item.content)[..Min(120, |Strip(item.content)|)] == Key(item);
    if Strip(a.rowId) != "" && Strip(b.rowId) != "" {
      SamePrefix("row::", Strip(a.rowId), Strip(b.rowId));
    } else if Strip(a.rowId) != "" {
      assert Identity(a)[0] == 'r' && Identity(b)[0] == 'f';
    } else if Strip(b.rowId) != "" {
      assert Identity(b)[0] == 'r' && Identity(a)[0] == 'f';
    } else if Strip(a.source) == Strip(b.source) {
      SamePrefix("fallback::" + Strip(a.source) + "::", Key(a), Key(b));
    }
  }

  lemma SamePrefix(p: string, s: string, t: string)
    ensures p + s == p + t <==> s == t
  {
    if p + s == p + t {
      assert (p + s)[|p|..] == s && (p + t)[|p|..] == t;
    }
  }

  function Ids(items: seq<Item>): set<string> { set k | 0 <= k < |items| :: Identity(items[k]) }

  ghost predicate Distinct(items: seq<Item>) {
    forall i, j :: 0 <= i < j < |items| ==> Identity(items[i]) != Identity(items[j])
  }

  lemma IdsConcat(a: seq<Item>, b: seq<Item>)
    ensures Ids(a + b) == Ids(a) + Ids(b)
  {
    var ab := a + b;
    forall id | id in Ids(a) + Ids(b) ensures id in Ids(ab) {
      if id in Ids(a) {
        var k :| 0 <= k < |a| && Identity(a[k]) == id;
        assert Identity(ab[k]) == id;
      } else {
        var k :| 0 <= k < |b| && Identity(b[k]) == id;
        assert Identity(ab[|a| + k]) == id;
      }
    }
  }

  /** The items that are neither seen nor repeated, in order. */
  function Fresh(items: seq<Item>, seen: set<string>): seq<Item>
    decreases |items|
  {
    if items == [] then []
    else
      var before, last := Fresh(items[..|items|-1], seen), items[|items|-1];
      if Identity(last) in seen + Ids(before) then before else before + [last]
  }

  lemma {:induction false} FreshFacts(items: seq<Item>, seen: set<string>)
    ensures Distinct(Fresh(items, seen)) && Ids(Fresh(items, seen)) == Ids(items) - seen
    decreases |items|
  {
    if items != [] {
      var before, last := items[..|items|-1], items[|items|-1];
      FreshFacts(before, seen);
      assert items == before + [last];
      IdsConcat(before, [last]);
      IdsConcat(Fresh(before, seen), [last]);
      assert Ids([last]) == {Identity(last)} by {
        assert Identity([last][0]) == Identity(last);
      }
    }
  }

  lemma {:induction false} FreshPrefix(items: seq<Item>, seen: set<string>, n: nat)
    requires n <= |items|
    ensures Fresh(items[..n], seen) <= Fresh(items, seen)
    decreases |items|
  {
    if n == |items| {
      assert items[..n] == items;
    } else {
      FreshPrefix(items[..|items|-1], seen, n);
      assert items[..|items|-1][..n] == items[..n];
    }
  }

  /** Of items with the same identity the first one is kept, behind those kept before it. */
  lemma FirstIsKept(items: seq<Item>, seen: set<string>, p: nat)
    requires p < |items| && Identity(items[p]) !in seen + Ids(items[..p])
    ensures Fresh(items[..p], seen) + [items[p]] <= Fresh(items, seen)
  {
    FreshPrefix(items, seen, p + 1);
    FreshFacts(items[..p], seen);
    assert items[..p+1][..p] == items[..p];
  }

  /** Where the first item with this identity is; behind all items if there is none. */
  function Place(items: seq<Item>, id: string): nat {
    if items == [] then 0
    else
      var before := Place(items[..|items|-1], id);
      if before < |items| - 1 || Identity(items[|items|-1]) == id then before else |items|
  }

  lemma {:induction false} PlaceFacts(items: seq<Item>, id: string)
    ensures Place(items, id) <= |items| && (Place(items, id) < |items| ==> Identity(items[Place(items, id)]) == id)
    ensures forall k :: 0 <= k < Place(items, id) ==> Identity(items[k]) != id
    decreases |items|
  {
    hide Identity;
    if items != [] {
      PlaceFacts(items[..|items|-1], id);
    }
  }

  lemma PlaceSnoc(items: seq<Item>, last: Item, id: string)
    ensures Place(items, id) < |items| ==> Place(items + [last], id) == Place(items, id)
    ensures Place(items, id) == |items| && Identity(last) == id ==> Place(items + [last], id) == |items|
  {
    assert (items + [last])[..|items|] == items;
  }

  lemma PlaceOfKnown(items: seq<Item>, id: string)
    ensures Place(items, id) <= |items| && (Place(items, id) < |items| <==> id in Ids(items))
  {
    PlaceFacts(items, id);
    hide Identity;
    if id in Ids(items) {
      var k :| 0 <= k < |items| && Identity(items[k]) == id;
    }
  }

  /** Fresh item i is the first of its identity and comes behind fresh item i - 1. */
  ghost predicate InPlace(items: seq<Item>, part: seq<Item>, i: nat)
    requires i < |part|
  {
    var p := Place(items, Identity(part[i]));
    p < |items| && items[p] == part[i] && (i > 0 ==> Place(items, Identity(part[i-1])) < p)
  }

  /** One item more: it is not fresh, or it follows the others as the first of its identity. */
  lemma FreshGrows(before: seq<Item>, last: Item, seen: set<string>)
    ensures var kept, all := Fresh(before, seen), Fresh(before + [last], seen);
            all == kept || (all == kept + [last] && Identity(last) !in Ids(before))
  {
    hide Identity;
    FreshFacts(before, seen);
    assert (before + [last])[..|before|] == before;
  }

  lemma StillInPlace(before: seq<Item>, last: Item, kept: seq<Item>, i: nat)
    requires i < |kept| && InPlace(before, kept, i) && (i > 0 ==> InPlace(before, kept, i - 1))
    ensures InPlace(before + [last], kept, i) && InPlace(before + [last], kept + [last], i)
  {
    PlaceSnoc(before, last, Identity(kept[i]));
    if i > 0 {
      PlaceSnoc(before, last, Identity(kept[i-1]));
    }
    hide Identity, Place;
  }

  lemma LastInPlace(before: seq<Item>, last: Item, kept: seq<Item>)
    requires Identity(last) !in Ids(before) && (kept != [] ==> InPlace(before, kept, |kept| - 1))
    ensures InPlace(before + [last], kept + [last], |kept|)
  {
    PlaceOfKnown(before, Identity(last));
    PlaceSnoc(before, last, Identity(last));
    if kept != [] {
      PlaceSnoc(before, last, Identity(kept[|kept|-1]));
    }
    hide Identity, Place;
  }

  /** Theorem: the fresh items are the first ones of their identities, in the order in which they come. */
  lemma {:induction false} FreshAreFirst(items: seq<Item>, seen: set<string>, i: nat)
    requires i < |Fresh(items, seen)|
    ensures InPlace(items, Fresh(items, seen), i)
    decreases |items|
  {
    hide Fresh, InPlace, Ids, Identity, Place;
    FreshLength(items, seen);
    var before, last := items[..|items|-1], items[|items|-1];
    var kept := Fresh(before, seen);
    assert items == before + [last];
    FreshGrows(before, last, seen);
    if i > 0 {
      FreshAreFirst(before, seen, i - 1);
    }
    if i < |kept| {
      FreshAreFirst(before, seen, i);
      StillInPlace(before, last, kept, i);
    } else {
      LastInPlace(before, last, kept);
    }
  }

  function Take(items: seq<Item>, n: int): seq<Item> { items[..Max(0, Min(n, |items|))] }

  /** One pipeline after another: at most `limit` fresh items of the source follow what is merged already. */
  function Extended(merged: seq<Item>, source: seq<Item>, limit: int): seq<Item> {
    merged + Take(Fresh(source, Ids(merged)), limit)
  }

  lemma {:induction false} FreshConcat(a: seq<Item>, b: seq<Item>, seen: set<string>)
    ensures Fresh(a + b, seen) == Fresh(a, seen) + Fresh(b, seen + Ids(a))
    decreases |b|
  {
    hide Identity, Ids;
    if b == [] {
      assert a + b == a;
    } else {
      var before, last := b[..|b|-1], b[|b|-1];
      FreshConcat(a, before, seen);
      FreshFacts(a, seen);
      IdsConcat(Fresh(a, seen), Fresh(before, seen + Ids(a)));
      assert (a + b)[..|a + b|-1] == a + before && (a + b)[|a + b|-1] == last;
    }
  }

  const QUOTA_CHUNKS := 3
  const QUOTA_GRAPH := 2
  const QUOTA_RAPTOR := 1

  function Quota(chunks: seq<Item>, graph: seq<Item>, raptor: seq<Item>): seq<Item> {
    Extended(Extended(Extended([], chunks, QUOTA_CHUNKS), graph, QUOTA_GRAPH), raptor, QUOTA_RAPTOR)
  }

  /** All items, in the order of their rank: the quota block, then what is left of each pipeline. */
  function Ranking(chunks: seq<Item>, graph: seq<Item>, raptor: seq<Item>): seq<Item> {
    All(All(All(Quota(chunks, graph, raptor), chunks), graph), raptor)
  }

  function All(merged: seq<Item>, source: seq<Item>): seq<Item> {
    Extended(merged, source, |source|)
  }

  lemma {:induction false} FreshLength(items: seq<Item>, seen: set<string>)
    ensures |Fresh(items, seen)| <= |items|
    decreases |items|
  {
    if items != [] {
      FreshLength(items[..|items|-1], seen);
    }
  }

  lemma DistinctConcat(a: seq<Item>, b: seq<Item>)
    requires Distinct(a) && Distinct(b) && Ids(a) !! Ids(b)
    ensures Distinct(a + b)
  {
    forall i, j | 0 <= i < |a| && 0 <= j < |b| ensures Identity(a[i]) != Identity(b[j]) {
      assert Identity(a[i]) in Ids(a) && Identity(b[j]) in Ids(b);
    }
    hide Identity;
  }

  lemma TakeFacts(items: seq<Item>, n: int)
    requires Distinct(items)
    ensures Distinct(Take(items, n)) && Ids(Take(items, n)) <= Ids(items) && (n >= |items| ==> Take(items, n) == items)
  {
    hide Identity;
    var taken := Take(items, n);
    IdsConcat(taken, items[|taken|..]);
    assert items == taken + items[|taken|..];
  }

  lemma ExtendedFacts(merged: seq<Item>, source: seq<Item>, limit: int)
    requires Distinct(merged)
    ensures Distinct(Extended(merged, source, limit))
    ensures Ids(merged) <= Ids(Extended(merged, source, limit)) <= Ids(merged) + Ids(source)
    ensures limit >= |source| ==> Ids(Extended(merged, source, limit)) == Ids(merged) + Ids(source)
  {
    hide Fresh, Ids, Distinct, Take;
    var unseen := Fresh(source, Ids(merged));
    FreshFacts(source, Ids(merged));
    FreshLength(source, Ids(merged));
    TakeFacts(unseen, limit);
    IdsConcat(merged, Take(unseen, limit));
    DistinctConcat(merged, Take(unseen, limit));
  }

  /** Theorem: the ranking holds every identity of the three pipelines exactly once. */
  lemma RankingIsComplete(chunks: seq<Item>, graph: seq<Item>, raptor: seq<Item>)
    ensures Distinct(Ranking(chunks, graph, raptor))
    ensures Ids(Ranking(chunks, graph, raptor)) == Ids(chunks) + Ids(graph) + Ids(raptor)
  {
    var q1 := Extended([], chunks, QUOTA_CHUNKS);
    var q2 := Extended(q1, graph, QUOTA_GRAPH);
    var q3 := Extended(q2, raptor, QUOTA_RAPTOR);
    assert Ids([]) == {};
    ExtendedFacts([], chunks, QUOTA_CHUNKS);
    ExtendedFacts(q1, graph, QUOTA_GRAPH);
    ExtendedFacts(q2, raptor, QUOTA_RAPTOR);
    ExtendedFacts(q3, chunks, |chunks|);
    ExtendedFacts(All(q3, chunks), graph, |graph|);
    ExtendedFacts(All(All(q3, chunks), graph), raptor, |raptor|);
  }

  lemma DistinctCount(items: seq<Item>)
    requires Distinct(items)
    ensures |Ids(items)| == |items|
  {
    var names := seq(|items|, k requires 0 <= k < |items| => Identity(items[k]));
    forall id ensures id in Ids(items) <==> id in names {
      if id in Ids(items) {
        var k :| 0 <= k < |items| && Identity(items[k]) == id;
        assert names[k] == id;
      }
    }
    CountWithoutRepeats(names, Ids(items));
  }

  /** The overflow, as long as there are fewer than k items. */
  function Overflow(merged: seq<Item>, source: seq<Item>, k: int): seq<Item> {
    if |merged| < k then Extended(merged, source, k - |merged|) else merged
  }

  function Fused(chunks: seq<Item>, graph: seq<Item>, raptor: seq<Item>, k: int): seq<Item> {
    Upto(Overflow(Overflow(Overflow(Quota(chunks, graph, raptor), chunks, k), graph, k), raptor, k), k)
  }

  /** items[:k], which for a negative k drops items from the end. */
  function Upto(items: seq<Item>, k: int): seq<Item> {
    if k >= 0 then Take(items, k) else Take(items, |items| + k)
  }

  lemma OverflowIsPrefix(merged: seq<Item>, full: seq<Item>, source: seq<Item>, k: nat)
    requires if |full| <= k then merged == full else merged <= full && k <= |merged|
    ensures var more, all := Overflow(merged, source, k), All(full, source);
            if |all| <= k then more == all else more <= all && k <= |more|
  {
    FreshLength(source, Ids(full));
  }

  /** Theorem: the result is the first k items of one ranking, whatever k is. */
  lemma FusedIsPrefix(chunks: seq<Item>, graph: seq<Item>, raptor: seq<Item>, k: nat)
    ensures Fused(chunks, graph, raptor, k) == Take(Ranking(chunks, graph, raptor), k)
  {
    hide Quota, Overflow, All;
    var q := Quota(chunks, graph, raptor);
    var c, g := Overflow(q, chunks, k), Overflow(Overflow(q, chunks, k), graph, k);
    OverflowIsPrefix(q, q, chunks, k);
    OverflowIsPrefix(c, All(q, chunks), graph, k);
    OverflowIsPrefix(g, All(All(q, chunks), graph), raptor, k);
  }

  /** Theorem: no duplicates, as many items as asked for or all identities, and a larger k only appends. */
  lemma FusionIsStable(chunks: seq<Item>, graph: seq<Item>, raptor: seq<Item>, k: nat, m: nat)
    requires k <= m
    ensures Distinct(Fused(chunks, graph, raptor, k))
    ensures |Fused(chunks, graph, raptor, k)| == Min(k, |Ids(chunks) + Ids(graph) + Ids(raptor)|)
    ensures Fused(chunks, graph, raptor, k) <= Fused(chunks, graph, raptor, m)
  {
    hide Fused, Ranking, Ids, Identity;
    RankingIsComplete(chunks, graph, raptor);
    DistinctCount(Ranking(chunks, graph, raptor));
    FusedIsPrefix(chunks, graph, raptor, k);
    FusedIsPrefix(chunks, graph, raptor, m);
  }

  /**
   Theorem: the quota block has the first 3 items of the chunks, the first 2 of the graph that are no duplicates of
   these and the first 1 of the summaries that is none of all these, or all there are.
   */
  lemma QuotaBlock(chunks: seq<Item>, graph: seq<Item>, raptor: seq<Item>)
    ensures var c := Take(Fresh(chunks, {}), 3);
            var g := Take(Fresh(graph, Ids(c)), 2);
            Quota(chunks, graph, raptor) == c + g + Take(Fresh(raptor, Ids(c + g)), 1)
  {
    assert Ids([]) == {};
    assert [] + Take(Fresh(chunks, {}), 3) == Take(Fresh(chunks, {}), 3);
  }

  /** Behind the quota block come all other items, by their first place in the chunks, the graph and the summaries. */
  lemma RankingByPlace(chunks: seq<Item>, graph: seq<Item>, raptor: seq<Item>)
    ensures var q := Quota(chunks, graph, raptor);
            Ranking(chunks, graph, raptor) == q + Fresh(chunks + graph + raptor, Ids(q))
  {
    var q := Quota(chunks, graph, raptor);
    hide Quota, Ids, Fresh, All;
    var seen := Ids(q);
    AllIsFresh(q, chunks);
    AllIsFresh(All(q, chunks), graph);
    AllIsFresh(All(All(q, chunks), graph), raptor);
    FreshOfThree(chunks, graph, raptor, seen);
    Appended(q, Fresh(chunks, seen), Fresh(graph, seen + Ids(chunks)), Fresh(raptor, seen + Ids(chunks) + Ids(graph)));
  }

  lemma FreshOfThree(a: seq<Item>, b: seq<Item>, c: seq<Item>, seen: set<string>)
    ensures Fresh(a + b + c, seen) == Fresh(a, seen) + Fresh(b, seen + Ids(a)) + Fresh(c, seen + Ids(a) + Ids(b))
  {
    FreshConcat(a, b, seen);
    FreshConcat(a + b, c, seen);
    IdsConcat(a, b);
    assert seen + Ids(a) + Ids(b) == seen + (Ids(a) + Ids(b));
  }

  lemma Appended(q: seq<Item>, a: seq<Item>, b: seq<Item>, c: seq<Item>)
    ensures q + a + b + c == q + (a + b + c)
  {
  }

  lemma AllIsFresh(merged: seq<Item>, source: seq<Item>)
    ensures All(merged, source) == merged + Fresh(source, Ids(merged))
    ensures Ids(All(merged, source)) == Ids(merged) + Ids(source)
  {
    FreshLength(source, Ids(merged));
    FreshFacts(source, Ids(merged));
    hide Identity, Fresh;
    IdsConcat(merged, Fresh(source, Ids(merged)));
  }

  /**
   Theorem: behind the quota block the items are those of no identity of the block, first the chunks, then the graph,
   then the summaries, each in the order of its pipeline, and of duplicates only the first.
   */
  lemma OverflowInOrder(chunks: seq<Item>, graph: seq<Item>, raptor: seq<Item>, i: nat)
    requires |Quota(chunks, graph, raptor)| + i < |Ranking(chunks, graph, raptor)|
    ensures var q := |Quota(chunks, graph, raptor)|;
            InPlace(chunks + graph + raptor, Ranking(chunks, graph, raptor)[q..], i)
  {
    var q := Quota(chunks, graph, raptor);
    RankingByPlace(chunks, graph, raptor);
    assert (q + Fresh(chunks + graph + raptor, Ids(q)))[|q|..] == Fresh(chunks + graph + raptor, Ids(q));
    FreshAreFirst(chunks + graph + raptor, Ids(q), i);
  }

  /** With a negative count the result is the quota block without as many items at its end. */
  lemma NegativeCountsDrop(chunks: seq<Item>, graph: seq<Item>, raptor: seq<Item>, k: int)
    requires k < 0
    ensures var q := Quota(chunks, graph, raptor);
            Fused(chunks, graph, raptor, k) == if |q| + k > 0 then q[..|q| + k] else []
  {
    hide Quota;
  }

  /** Theorem: from k = 6 on, every pipeline has its quota of items in the result or none of its items is missing. */
  lemma QuotaIsKept(chunks: seq<Item>, graph: seq<Item>, raptor: seq<Item>, k: nat)
    requires k >= 6
    ensures Quota(chunks, graph, raptor) <= Fused(chunks, graph, raptor, k)
    ensures var c := Take(Fresh(chunks, {}), 3);
            var g := c + Take(Fresh(graph, Ids(c)), 2);
            && c <= g <= Quota(chunks, graph, raptor)
            && (|c| == 3 || Ids(chunks) <= Ids(c))
            && (|g| == |c| + 2 || Ids(graph) <= Ids(g))
            && (|Quota(chunks, graph, raptor)| == |g| + 1 || Ids(raptor) <= Ids(Quota(chunks, graph, raptor)))
  {
    var c := Take(Fresh(chunks, {}), 3);
    var g := c + Take(Fresh(graph, Ids(c)), 2);
    QuotaBlock(chunks, graph, raptor);
    FirstOfQuota(chunks);
    QuotaOrAll(c, graph, 2);
    QuotaOrAll(g, raptor, 1);
    QuotaInFront(chunks, graph, raptor, k);
    hide Fresh, Ids, Take, Quota, Fused;
  }

  lemma FirstOfQuota(chunks: seq<Item>)
    ensures var c := Take(Fresh(chunks, {}), 3); |c| <= 3 && (|c| == 3 || Ids(chunks) <= Ids(c))
  {
    assert Ids([]) == {} && [] + Take(Fresh(chunks, {}), 3) == Take(Fresh(chunks, {}), 3);
    QuotaOrAll([], chunks, 3);
  }

  lemma QuotaInFront(chunks: seq<Item>, graph: seq<Item>, raptor: seq<Item>, k: nat)
    requires k >= 6
    ensures |Quota(chunks, graph, raptor)| <= 6 && Quota(chunks, graph, raptor) <= Fused(chunks, graph, raptor, k)
  {
    FusedIsPrefix(chunks, graph, raptor, k);
    hide Fused, Fresh, Ids;
  }

  lemma QuotaOrAll(merged: seq<Item>, source: seq<Item>, limit: nat)
    ensures merged <= Extended(merged, source, limit) && |Extended(merged, source, limit)| <= |merged| + limit
    ensures |Extended(merged, source, limit)| == |merged| + limit || Ids(source) <= Ids(Extended(merged, source, limit))
  {
    var unseen := Fresh(source, Ids(merged));
    FreshFacts(source, Ids(merged));
    IdsConcat(merged, Take(unseen, limit));
    if |unseen| <= limit {
      assert Take(unseen, limit) == unseen;
    }
  }

  lemma FreshSnoc(items: seq<Item>, seen: set<string>, item: Item)
    ensures var before := Fresh(items, seen);
            Fresh(items + [item], seen) == if Identity(item) in seen + Ids(before) then before else before + [item]
  {
    assert (items + [item])[..|items|] == items;
  }

  lemma IdsSnoc(items: seq<Item>, item: Item)
    ensures Ids(items + [item]) == Ids(items) + {Identity(item)}
  {
    IdsConcat(items, [item]);
    assert Ids([item]) == {Identity(item)} by {
      assert Identity([item][0]) == Identity(item);
    }
  }

  lemma TakePart(part: seq<Item>, all: seq<Item>, limit: nat)
    requires part <= all && (|part| == limit || (part == all && |part| <= limit))
    ensures Take(all, limit) == part
  {
  }

  lemma ExtendedBy(merged: seq<Item>, seen: set<string>, source: seq<Item>, limit: nat, part: seq<Item>)
    requires seen == Ids(merged) && part <= Fresh(source, seen)
    requires |part| == limit || (part == Fresh(source, seen) && |part| <= limit)
    ensures Extended(merged, source, limit) == merged + part
  {
    TakePart(part, Fresh(source, seen), limit);
  }

  /** One item of the source: fresh ones follow those merged before. */
  lemma OneItemMore(merged: seq<Item>, seen: set<string>, items: seq<Item>, item: Item)
    requires seen == Ids(merged)
    ensures var more := merged + Fresh(items, seen);
            var next := if Identity(item) in Ids(more) then more else more + [item];
            && merged + Fresh(items + [item], seen) == next && Ids(next) == Ids(more) + {Identity(item)}
            && |Fresh(items + [item], seen)| == |Fresh(items, seen)| + |next| - |more|
  {
    hide Fresh, Ids, Identity;
    FreshSnoc(items, seen, item);
    IdsConcat(merged, Fresh(items, seen));
    IdsSnoc(merged + Fresh(items, seen), item);
    assert merged + Fresh(items, seen) + [item] == merged + (Fresh(items, seen) + [item]);
  }

  /** The loop variables stand for the items met so far. */
  ghost predicate Stands(merged: seq<Item>, items: seq<Item>, more: seq<Item>, nowSeen: set<string>, added: nat) {
    && more == merged + Fresh(items, Ids(merged)) && added == |Fresh(items, Ids(merged))| && nowSeen == Ids(more)
  }

  /** One turn of the loop: an item whose identity is not seen yet follows those merged. */
  method AddItem(item: Item, more: seq<Item>, nowSeen: set<string>, added: nat, ghost merged: seq<Item>, ghost items: seq<Item>)
      returns (next: seq<Item>, nextSeen: set<string>, nextAdded: nat)
    requires Stands(merged, items, more, nowSeen, added)
    ensures Stands(merged, items + [item], next, nextSeen, nextAdded) && nextAdded <= added + 1
  {
    hide Fresh, Ids, Identity;
    OneItemMore(merged, Ids(merged), items, item);
    var identity := Identity(item);
    if identity in nowSeen {
      next, nextSeen, nextAdded := more, nowSeen, added;
    } else {
      next, nextSeen, nextAdded := more + [item], nowSeen + {identity}, added + 1;
    }
  }

  /** The nested function of the source: appends fresh items to the merged list and their identities to the set. */
  method AddItems(merged: seq<Item>, seen: set<string>, source: seq<Item>, limit: nat)
      returns (more: seq<Item>, nowSeen: set<string>)
    requires seen == Ids(merged) && limit > 0
    ensures more == Extended(merged, source, limit) && nowSeen == Ids(more)
  {
    more, nowSeen := merged, seen;
    var added: nat := 0;
    assert Stands(merged, source[..0], more, nowSeen, added);
    hide Fresh, Ids, Identity, Take, Extended;
    for i := 0 to |source|
      invariant added <= limit && Stands(merged, source[..i], more, nowSeen, added)
    {
      if added >= limit {
        FreshPrefix(source, seen, i);
        ExtendedBy(merged, seen, source, limit, Fresh(source[..i], seen));
        return;
      }
      assert source[..i+1] == source[..i] + [source[i]];
      more, nowSeen, added := AddItem(source[i], more, nowSeen, added, merged, source[..i]);
    }
    assert source[..|source|] == source;
    ExtendedBy(merged, seen, source, limit, Fresh(source, seen));
  }

  method FuseLateResults(chunks: seq<Item>, graph: seq<Item>, raptor: seq<Item>, k: int) returns (result: seq<Item>)
    ensures result == Fused(chunks, graph, raptor, k)
  {
    var merged: seq<Item>, seen: set<string> := [], {};
    assert Ids([]) == {};
    hide Extended, Ids, Upto, Identity, Fresh, Take;
    merged, seen := AddItems(merged, seen, chunks, QUOTA_CHUNKS);
    merged, seen := AddItems(merged, seen, graph, QUOTA_GRAPH);
    merged, seen := AddItems(merged, seen, raptor, QUOTA_RAPTOR);
    if |merged| < k {
      merged, seen := AddItems(merged, seen, chunks, k - |merged|);
    }
    if |merged| < k {
      merged, seen := AddItems(merged, seen, graph, k - |merged|);
    }
    if |merged| < k {
      merged, seen := AddItems(merged, seen, raptor, k - |merged|);
    }
    result := Upto(merged, k);
  }
}
