/**
 Reciprocal rank fusion (fusion.py, rrf_merge), over the reals.  The dictionary of items by identity is
 represented by its values in insertion order.
 */
module Rrf {
  import opened Basics
  import opened LateFusion

  /** What an item gains by being at place n (from 1) of a list. */
  function Gain(k: nat, n: nat): real
    requires n > 0
  {
    1.0 / (k + n) as real
  }

  /** The gains of an identity in the first n places of one list. */
  function ScoreIn(names: seq<string>, id: string, k: nat, n: nat): real
    requires n <= |names|
  {
    if n == 0 then 0.0 else ScoreIn(names, id, k, n - 1) + if names[n-1] == id then Gain(k, n) else 0.0
  }

  /** The gains of an identity in the first g lists. */
  function Score(lists: seq<seq<string>>, id: string, k: nat, g: nat): real
    requires g <= |lists|
  {
    if g == 0 then 0.0 else Score(lists, id, k, g - 1) + ScoreIn(lists[g-1], id, k, |lists[g-1]|)
  }

  // ---------------------------------------------------------------- scores of lists without repeats

  lemma GainFalls(k: nat, m: nat, n: nat)
    requires 0 < m <= n
    ensures 0.0 < Gain(k, n) <= Gain(k, m)
  {
    var a, b := (k + m) as real, (k + n) as real;
    assert 0.0 < a <= b;
    assert 1.0 / b <= 1.0 / a by {
      assert (1.0 / a) * a == 1.0 && (1.0 / b) * b == 1.0;
    }
  }

  lemma {:induction false} ScoreInWithout(names: seq<string>, id: string, k: nat, n: nat)
    requires n <= |names| && forall r :: 0 <= r < n ==> names[r] != id
    ensures ScoreIn(names, id, k, n) == 0.0
  {
    if n > 0 {
      ScoreInWithout(names, id, k, n - 1);
    }
  }

  /** In a list without repeats an identity gains once, for its place. */
  lemma {:induction false} ScoreInOnce(names: seq<string>, r: nat, k: nat, n: nat)
    requires r < n <= |names| && NoRepeats(names)
    ensures ScoreIn(names, names[r], k, n) == Gain(k, r + 1)
  {
    if r == n - 1 {
      ScoreInWithout(names, names[r], k, r);
    } else {
      ScoreInOnce(names, r, k, n - 1);
    }
  }

  ghost predicate InList(names: seq<string>, id: string) {
    exists r :: 0 <= r < |names| && names[r] == id
  }

  /** Wherever b is in the list, a is at the same place or before it. */
  ghost predicate RankedAtLeast(names: seq<string>, a: string, b: string) {
    forall r :: 0 <= r < |names| && names[r] == b ==> InList(names[..r+1], a)
  }

  /** What an identity gains in a list without repeats: nothing, or the gain of its place. */
  lemma PlaceOf(names: seq<string>, id: string, k: nat) returns (n: nat)
    requires NoRepeats(names)
    ensures n == 0 ==> !InList(names, id) && ScoreIn(names, id, k, |names|) == 0.0
    ensures n > 0 ==> n <= |names| && names[n-1] == id && ScoreIn(names, id, k, |names|) == Gain(k, n)
  {
    if InList(names, id) {
      var r :| 0 <= r < |names| && names[r] == id;
      ScoreInOnce(names, r, k, |names|);
      n := r + 1;
    } else {
      ScoreInWithout(names, id, k, |names|);
      n := 0;
    }
  }

  lemma PlaceInPrefix(names: seq<string>, a: string, r: nat, n: nat)
    requires NoRepeats(names) && r < |names| && InList(names[..r+1], a)
    requires n == 0 ==> !InList(names, a)
    requires n > 0 ==> n <= |names| && names[n-1] == a
    ensures 0 < n <= r + 1
  {
    var s :| 0 <= s < |names[..r+1]| && names[..r+1][s] == a;
    assert names[..r+1][s] == names[s];
  }

  lemma DominatesInList(names: seq<string>, a: string, b: string, k: nat)
    requires NoRepeats(names) && RankedAtLeast(names, a, b)
    ensures ScoreIn(names, a, k, |names|) >= ScoreIn(names, b, k, |names|)
  {
    var m := PlaceOf(names, a, k);
    var n := PlaceOf(names, b, k);
    if n > 0 {
      PlaceInPrefix(names, a, n - 1, m);
      GainFalls(k, m, n);
    } else if m > 0 {
      GainFalls(k, m, m);
    }
  }

  lemma ScoreInBounds(names: seq<string>, id: string, k: nat)
    requires NoRepeats(names)
    ensures 0.0 <= ScoreIn(names, id, k, |names|) <= Gain(k, 1)
  {
    var n := PlaceOf(names, id, k);
    GainFalls(k, 1, if n > 0 then n else 1);
  }

  /** Theorem: what is ranked at least as well as another item in every list scores at least as much. */
  lemma {:induction false} Dominates(lists: seq<seq<string>>, a: string, b: string, k: nat, g: nat)
    requires g <= |lists|
    requires forall i :: 0 <= i < g ==> NoRepeats(lists[i]) && RankedAtLeast(lists[i], a, b)
    ensures Score(lists, a, k, g) >= Score(lists, b, k, g)
  {
    if g > 0 {
      Dominates(lists, a, b, k, g - 1);
      DominatesInList(lists[g-1], a, b, k);
    }
  }

  function Times(g: nat, gain: real): real {
    if g == 0 then 0.0 else Times(g - 1, gain) + gain
  }

  lemma {:induction false} TimesIsProduct(g: nat, gain: real)
    ensures Times(g, gain) == g as real * gain
  {
    if g > 0 {
      TimesIsProduct(g - 1, gain);
      assert g as real * gain == (g - 1) as real * gain + gain;
    }
  }

  lemma {:induction false} ScoreIsCapped(lists: seq<seq<string>>, id: string, k: nat, g: nat)
    requires g <= |lists| && forall i :: 0 <= i < g ==> NoRepeats(lists[i])
    ensures 0.0 <= Score(lists, id, k, g) <= Times(g, Gain(k, 1))
  {
    if g > 0 {
      ScoreIsCapped(lists, id, k, g - 1);
      ScoreInBounds(lists[g-1], id, k);
    }
  }

  /** Theorem: over lists without repeats no score exceeds the number of lists times 1/(rrf_k + 1). */
  lemma ScoreIsBounded(lists: seq<seq<string>>, id: string, k: nat)
    requires forall i :: 0 <= i < |lists| ==> NoRepeats(lists[i])
    ensures 0.0 <= Score(lists, id, k, |lists|) <= |lists| as real * Gain(k, 1)
  {
    ScoreIsCapped(lists, id, k, |lists|);
    TimesIsProduct(|lists|, Gain(k, 1));
  }

  lemma {:induction false} ScoreInSuffix(names: seq<string>, id: string, k: nat, m: nat, n: nat)
    requires m <= n <= |names| && forall r :: m <= r < n ==> names[r] != id
    ensures ScoreIn(names, id, k, n) == ScoreIn(names, id, k, m)
    decreases n - m
  {
    if m < n {
      ScoreInSuffix(names, id, k, m, n - 1);
    }
  }

  lemma {:induction false} ScoreInGrows(names: seq<string>, id: string, k: nat, m: nat, n: nat)
    requires m <= n <= |names|
    ensures 0.0 <= ScoreIn(names, id, k, m) <= ScoreIn(names, id, k, n)
    decreases n
  {
    if n > 0 {
      GainFalls(k, n, n);
      ScoreInGrows(names, id, k, if m < n then m else n - 1, n - 1);
    }
  }

  /** The places, from 1, at which a list has an identity twice, and nowhere else. */
  ghost predicate TwiceAt(names: seq<string>, id: string, m: nat, n: nat) {
    && 0 < m < n <= |names| && names[m-1] == id && names[n-1] == id
    && forall r :: 0 <= r < |names| && names[r] == id ==> r == m - 1 || r == n - 1
  }

  lemma ScoreOfTwice(names: seq<string>, id: string, k: nat, m: nat, n: nat)
    requires TwiceAt(names, id, m, n)
    ensures ScoreIn(names, id, k, |names|) == Gain(k, m) + Gain(k, n)
  {
    ScoreInWithout(names, id, k, m - 1);
    ScoreInSuffix(names, id, k, m, n - 1);
    ScoreInSuffix(names, id, k, n, |names|);
  }

  /** 1/a + 1/b against 1/d. */
  lemma SumOfInverses(a: real, b: real, d: real)
    requires a > 0.0 && b > 0.0 && d > 0.0
    ensures 1.0 / a + 1.0 / b > 1.0 / d <==> d * (a + b) > a * b
  {
    var x, y, z := 1.0 / a, 1.0 / b, 1.0 / d;
    assert x * a == 1.0 && y * b == 1.0 && z * d == 1.0;
    var gap, scale := x + y - z, a * b * d;
    assert scale > 0.0 by { assert a * b > 0.0; }
    assert gap * scale == d * (a + b) - a * b by {
      assert x * scale == (x * a) * (b * d) && y * scale == (y * b) * (a * d) && z * scale == (z * d) * (a * b);
    }
    assert gap > 0.0 <==> gap * scale > 0.0;
  }

  lemma RealProduct(a: nat, b: nat)
    ensures (a * b) as real == a as real * b as real
  {
  }

  lemma GainsExceed(k: nat, m: nat, n: nat)
    requires 0 < m && 0 < n
    ensures Gain(k, m) + Gain(k, n) > Gain(k, 1) <==> (k + m) * (k + n) < (k + 1) * (2 * k + m + n)
  {
    var both := 2 * k + m + n;
    SumOfInverses((k + m) as real, (k + n) as real, (k + 1) as real);
    RealProduct(k + m, k + n);
    RealProduct(k + 1, both);
    assert (k + m) as real + (k + n) as real == both as real;
  }

  lemma OneList(names: seq<string>, id: string, k: nat)
    ensures Score([names], id, k, 1) == ScoreIn(names, id, k, |names|)
  {
    assert Score([names], id, k, 0) == 0.0;
  }

  /** The places, from 1, of an identity among the first n of one list. */
  function PlacesIn(names: seq<string>, id: string, n: nat): (places: seq<nat>)
    requires n <= |names|
    ensures forall i :: 0 <= i < |places| ==> places[i] > 0
  {
    if n == 0 then [] else PlacesIn(names, id, n - 1) + if names[n-1] == id then [n] else []
  }

  /** Its places in the first g lists. */
  function Places(lists: seq<seq<string>>, id: string, g: nat): (places: seq<nat>)
    requires g <= |lists|
    ensures forall i :: 0 <= i < |places| ==> places[i] > 0
  {
    if g == 0 then [] else Places(lists, id, g - 1) + PlacesIn(lists[g-1], id, |lists[g-1]|)
  }

  function Gains(places: seq<nat>, k: nat): real
    requires forall i :: 0 <= i < |places| ==> places[i] > 0
  {
    if places == [] then 0.0 else Gains(places[..|places|-1], k) + Gain(k, places[|places|-1])
  }

  /** How far the places stay behind first places: (p - 1)/(k + p) for each. */
  function Lag(places: seq<nat>, k: nat): real
    requires forall i :: 0 <= i < |places| ==> places[i] > 0
  {
    if places == [] then 0.0
    else Lag(places[..|places|-1], k) + (places[|places|-1] - 1) as real * Gain(k, places[|places|-1])
  }

  lemma {:induction false} GainsConcat(a: seq<nat>, b: seq<nat>, k: nat)
    requires forall i :: 0 <= i < |a| ==> a[i] > 0
    requires forall i :: 0 <= i < |b| ==> b[i] > 0
    ensures Gains(a + b, k) == Gains(a, k) + Gains(b, k)
    decreases |b|
  {
    if b == [] {
      assert a + b == a;
    } else {
      GainsConcat(a, b[..|b|-1], k);
      assert (a + b)[..|a + b|-1] == a + b[..|b|-1];
    }
  }

  lemma {:induction false} ScoreInIsGains(names: seq<string>, id: string, k: nat, n: nat)
    requires n <= |names|
    ensures ScoreIn(names, id, k, n) == Gains(PlacesIn(names, id, n), k)
  {
    if n > 0 {
      ScoreInIsGains(names, id, k, n - 1);
      var before := PlacesIn(names, id, n - 1);
      assert (before + [n])[..|before|] == before && before + [] == before;
    }
  }

  /** Theorem: a score is the sum of the gains of all places, in whatever lists they are. */
  lemma {:induction false} ScoreIsGains(lists: seq<seq<string>>, id: string, k: nat, g: nat)
    requires g <= |lists|
    ensures Score(lists, id, k, g) == Gains(Places(lists, id, g), k)
  {
    if g > 0 {
      ScoreIsGains(lists, id, k, g - 1);
      ScoreInIsGains(lists[g-1], id, k, |lists[g-1]|);
      GainsConcat(Places(lists, id, g - 1), PlacesIn(lists[g-1], id, |lists[g-1]|), k);
    }
  }

  lemma GainTimes(k: nat, p: nat)
    requires p > 0
    ensures (k + 1) as real * Gain(k, p) == 1.0 - (p - 1) as real * Gain(k, p)
  {
    assert (k + p) as real * Gain(k, p) == 1.0;
    assert (k + 1) as real + (p - 1) as real == (k + p) as real;
  }

  /** Times rrf_k + 1, each place counts one but for its lag. */
  lemma {:induction false} GainsAndLag(places: seq<nat>, k: nat)
    requires forall i :: 0 <= i < |places| ==> places[i] > 0
    ensures (k + 1) as real * Gains(places, k) == |places| as real - Lag(places, k) && Lag(places, k) >= 0.0
    decreases |places|
  {
    if places != [] {
      var before, p := places[..|places|-1], places[|places|-1];
      GainsAndLag(before, k);
      GainTimes(k, p);
      GainFalls(k, p, p);
      assert (k + 1) as real * (Gains(before, k) + Gain(k, p)) == (k + 1) as real * Gains(before, k) + (k + 1) as real * Gain(k, p);
      assert (p - 1) as real * Gain(k, p) >= 0.0;
    }
  }

  lemma ScaledOrder(score: real, bound: real, scale: real)
    requires scale > 0.0
    ensures score > bound <==> scale * score > scale * bound
  {
    assert scale * (score - bound) == scale * score - scale * bound;
    assert score > bound <==> scale * (score - bound) > 0.0;
  }

  lemma Unscaled(scale: real, gain: real, lists: real)
    requires scale * gain == 1.0
    ensures scale * (lists * gain) == lists
  {
    assert scale * (lists * gain) == (scale * gain) * lists;
  }

  /** More than every list should give. */
  predicate Exceeds(score: real, lists: nat, k: nat) { score > lists as real * Gain(k, 1) }

  lemma ExceedsIff(score: real, lists: nat, k: nat, places: nat, lag: real)
    requires (k + 1) as real * score == places as real - lag
    ensures Exceeds(score, lists, k) <==> lag < places as real - lists as real
  {
    var scale, gain := (k + 1) as real, Gain(k, 1);
    assert scale * gain == 1.0;
    Unscaled(scale, gain, lists as real);
    ScaledOrder(score, lists as real * gain, scale);
  }

  /**
   Theorem: over any lists, with any repeats, a score exceeds the number of lists times 1/(rrf_k + 1) if and only if
   the lag of its places, the sum of (p - 1)/(rrf_k + p), is smaller than the surplus of places over lists.
   */
  lemma RepeatsExceedTheBoundIff(lists: seq<seq<string>>, id: string, k: nat)
    ensures var places := Places(lists, id, |lists|);
            Exceeds(Score(lists, id, k, |lists|), |lists|, k) <==> Lag(places, k) < |places| as real - |lists| as real
  {
    hide Exceeds, Score, Gains, Lag, Gain, Places;
    var places := Places(lists, id, |lists|);
    ScoreIsGains(lists, id, k, |lists|);
    GainsAndLag(places, k);
    ExceedsIff(Score(lists, id, k, |lists|), |lists|, k, |places|, Lag(places, k));
  }

  /** Theorem: so no score exceeds that bound without more places than lists. */
  lemma ExceedingNeedsRepeats(lists: seq<seq<string>>, id: string, k: nat)
    requires Exceeds(Score(lists, id, k, |lists|), |lists|, k)
    ensures |Places(lists, id, |lists|)| > |lists|
  {
    hide Exceeds, Score, Gains, Lag, Gain, Places;
    RepeatsExceedTheBoundIff(lists, id, k);
    GainsAndLag(Places(lists, id, |lists|), k);
  }

  /**
   For one list that has an identity at places m and n that is: it gains 1/(rrf_k + m) + 1/(rrf_k + n), and exceeds what
   one list should give exactly when (rrf_k + m)(rrf_k + n) < (rrf_k + 1)(2 rrf_k + m + n).
   */
  lemma TwoPlacesExceedIff(names: seq<string>, id: string, k: nat, m: nat, n: nat)
    requires TwiceAt(names, id, m, n)
    ensures Score([names], id, k, 1) == Gain(k, m) + Gain(k, n)
    ensures Score([names], id, k, 1) > Gain(k, 1) <==> (k + m) * (k + n) < (k + 1) * (2 * k + m + n)
  {
    OneList(names, id, k);
    ScoreOfTwice(names, id, k, m, n);
    GainsExceed(k, m, n);
  }

  /** Theorem: a list that repeats its first item exceeds the bound, whatever rrf_k and the rest of the list. */
  lemma RepeatedFirstExceeds(names: seq<string>, k: nat, r: nat)
    requires 0 < r < |names| && names[r] == names[0]
    ensures Score([names], names[0], k, 1) > Gain(k, 1)
  {
    OneList(names, names[0], k);
    assert ScoreIn(names, names[0], k, 0) == 0.0;
    assert ScoreIn(names, names[0], k, 1) == Gain(k, 1);
    ScoreInGrows(names, names[0], k, 1, r);
    GainFalls(k, r + 1, r + 1);
    ScoreInGrows(names, names[0], k, r + 1, |names|);
  }

  // ---------------------------------------------------------------- ranking

  /** a comes before b: by score, and at equal scores by place. */
  predicate Precedes(scores: seq<real>, a: nat, b: nat)
    requires a < |scores| && b < |scores|
  {
    scores[a] > scores[b] || (scores[a] == scores[b] && a < b)
  }

  function Inserted(scores: seq<real>, x: nat, order: seq<nat>): seq<nat>
    requires x < |scores| && forall i :: 0 <= i < |order| ==> order[i] < |scores|
  {
    if order == [] || scores[x] > scores[order[0]] then [x] + order
    else [order[0]] + Inserted(scores, x, order[1..])
  }

  /** sorted(keys, key=score, reverse=True), on the places of the keys: stable. */
  function Ranking(scores: seq<real>, n: nat): (order: seq<nat>)
    requires n <= |scores|
    ensures forall i :: 0 <= i < |order| ==> order[i] < |scores|
  {
    if n == 0 then []
    else
      var before := Ranking(scores, n - 1);
      InsertedFacts(scores, n - 1, before);
      Inserted(scores, n - 1, before)
  }

  lemma {:induction false} InsertedFacts(scores: seq<real>, x: nat, order: seq<nat>)
    requires x < |scores| && forall i :: 0 <= i < |order| ==> order[i] < |scores|
    ensures forall y :: y in Inserted(scores, x, order) <==> y == x || y in order
    ensures |Inserted(scores, x, order)| == |order| + 1
    ensures forall i :: 0 <= i < |order| + 1 ==> Inserted(scores, x, order)[i] < |scores|
    decreases |order|
  {
    if order != [] && scores[x] <= scores[order[0]] {
      assert order == [order[0]] + order[1..];
      InsertedFacts(scores, x, order[1..]);
    }
  }

  ghost predicate Ranked(scores: seq<real>, order: seq<nat>) {
    && (forall i :: 0 <= i < |order| ==> order[i] < |scores|)
    && forall i, j :: 0 <= i < j < |order| ==> Precedes(scores, order[i], order[j])
  }

  lemma {:induction false} InsertedIsRanked(scores: seq<real>, x: nat, order: seq<nat>)
    requires x < |scores| && Ranked(scores, order) && forall i :: 0 <= i < |order| ==> order[i] < x
    ensures Ranked(scores, Inserted(scores, x, order))
    decreases |order|
  {
    InsertedFacts(scores, x, order);
    if order != [] && scores[x] <= scores[order[0]] {
      var tail := Inserted(scores, x, order[1..]);
      InsertedFacts(scores, x, order[1..]);
      InsertedIsRanked(scores, x, order[1..]);
      forall j | 0 <= j < |tail| ensures Precedes(scores, order[0], tail[j]) {
        assert tail[j] in tail;
        assert tail[j] != x ==> tail[j] in order[1..];
      }
    }
  }

  /** Theorem: the ranking holds every place once, best score first, ties in the order of first occurrence. */
  lemma {:induction false} RankingFacts(scores: seq<real>, n: nat)
    requires n <= |scores|
    ensures Ranked(scores, Ranking(scores, n)) && |Ranking(scores, n)| == n
    ensures forall i: nat :: i in Ranking(scores, n) <==> i < n
  {
    if n > 0 {
      var before := Ranking(scores, n - 1);
      RankingFacts(scores, n - 1);
      InsertedFacts(scores, n - 1, before);
      forall i | 0 <= i < |before| ensures before[i] < n - 1 {
        assert before[i] in before;
      }
      InsertedIsRanked(scores, n - 1, before);
    }
  }

  // ---------------------------------------------------------------- the merge

  function Names(items: seq<Item>): seq<string> { seq(|items|, i requires 0 <= i < |items| => Identity(items[i])) }

  function Lists(groups: seq<seq<Item>>): seq<seq<string>> { seq(|groups|, g requires 0 <= g < |groups| => Names(groups[g])) }

  /** The score of every kept item. */
  function Scores(groups: seq<seq<Item>>, k: nat, kept: seq<Item>): seq<real> {
    seq(|kept|, i requires 0 <= i < |kept| => Score(Lists(groups), Identity(kept[i]), k, |groups|))
  }

  /** The first `count` kept items of an order, with their scores. */
  function Picked(kept: seq<Item>, scores: seq<real>, order: seq<nat>, count: nat): seq<Item>
    requires |scores| == |kept| && forall i :: 0 <= i < |order| ==> order[i] < |kept|
  {
    seq(Min(count, |order|), p requires 0 <= p < Min(count, |order|) => kept[order[p]].(score := scores[order[p]]))
  }

  /** The merged list: the first item of each identity, by descending score, cut to max(1, topK). */
  function Merged(groups: seq<seq<Item>>, k: nat, topK: int): seq<Item> {
    var kept := Fresh(Flatten(groups), {});
    var scores := Scores(groups, k, kept);
    Picked(kept, scores, Ranking(scores, |scores|), Max(1, topK))
  }

  lemma PickedFacts(kept: seq<Item>, scores: seq<real>, order: seq<nat>, count: nat)
    requires |scores| == |kept| && Ranked(scores, order) && Distinct(kept)
    ensures var m := Picked(kept, scores, order, count);
            && |m| == Min(count, |order|) && Distinct(m)
            && (forall p :: 0 <= p < |m| ==> m[p].score == scores[order[p]] && Identity(m[p]) == Identity(kept[order[p]]))
            && (forall p, q :: 0 <= p < q < |m| ==> m[p].score >= m[q].score)
  {
    var m := Picked(kept, scores, order, count);
    forall p, q | 0 <= p < q < |m| ensures m[p].score >= m[q].score && Identity(m[p]) != Identity(m[q]) {
      assert Precedes(scores, order[p], order[q]);
    }
  }

  /** What is not picked ranks behind what is. */
  lemma NotPicked(kept: seq<Item>, scores: seq<real>, order: seq<nat>, count: nat, i: nat, p: nat)
    requires |scores| == |kept| && Ranked(scores, order) && i < |kept| && i in order
    requires p < |Picked(kept, scores, order, count)|
    requires Identity(kept[i]) !in Ids(Picked(kept, scores, order, count))
    ensures scores[i] <= scores[order[p]]
  {
    var m := Picked(kept, scores, order, count);
    var q :| 0 <= q < |order| && order[q] == i;
    assert q < |m| ==> Identity(m[q]) in Ids(m);
    assert Precedes(scores, order[p], order[q]);
  }

  /** Theorem: every merged item has the sum of the gains of its identity over all lists as its score. */
  lemma MergedScores(groups: seq<seq<Item>>, k: nat, topK: int, p: nat)
    requires p < |Merged(groups, k, topK)|
    ensures var item := Merged(groups, k, topK)[p]; item.score == Score(Lists(groups), Identity(item), k, |groups|)
  {
    var kept := Fresh(Flatten(groups), {});
    var scores := Scores(groups, k, kept);
    FreshFacts(Flatten(groups), {});
    RankingFacts(scores, |scores|);
    PickedFacts(kept, scores, Ranking(scores, |scores|), Max(1, topK));
  }

  /** Theorem: the scores never increase, no identity comes twice, and there are as many as asked for or all. */
  lemma MergedIsRanked(groups: seq<seq<Item>>, k: nat, topK: int)
    ensures var m := Merged(groups, k, topK);
            && |m| == Min(Max(1, topK), |Ids(Flatten(groups))|) && Distinct(m)
            && forall p, q :: 0 <= p < q < |m| ==> m[p].score >= m[q].score
  {
    var kept := Fresh(Flatten(groups), {});
    var scores := Scores(groups, k, kept);
    FreshFacts(Flatten(groups), {});
    DistinctCount(kept);
    RankingFacts(scores, |scores|);
    PickedFacts(kept, scores, Ranking(scores, |scores|), Max(1, topK));
  }

  lemma OutsideIsBehind(kept: seq<Item>, scores: seq<real>, order: seq<nat>, count: nat, id: string, p: nat) returns (i: nat)
    requires |scores| == |kept| && Ranked(scores, order) && Distinct(kept) && forall x: nat :: x < |kept| ==> x in order
    requires p < |Picked(kept, scores, order, count)| && id in Ids(kept) - Ids(Picked(kept, scores, order, count))
    ensures i < |kept| && Identity(kept[i]) == id && scores[i] <= Picked(kept, scores, order, count)[p].score
  {
    PickedFacts(kept, scores, order, count);
    i :| 0 <= i < |kept| && Identity(kept[i]) == id;
    NotPicked(kept, scores, order, count, i, p);
  }

  /** Of two kept items the one kept first comes first in the lists. */
  lemma {:induction false} KeptByPlace(items: seq<Item>, a: nat, b: nat)
    requires a < b < |Fresh(items, {})|
    ensures Place(items, Identity(Fresh(items, {})[a])) < Place(items, Identity(Fresh(items, {})[b]))
    decreases b - a
  {
    hide Fresh, Place, Identity;
    FreshAreFirst(items, {}, b);
    if a < b - 1 {
      KeptByPlace(items, a, b - 1);
    }
  }

  lemma PickedItem(kept: seq<Item>, scores: seq<real>, order: seq<nat>, count: nat, p: nat)
    requires |scores| == |kept| && (forall i :: 0 <= i < |order| ==> order[i] < |kept|) && p < |Picked(kept, scores, order, count)|
    ensures p < |order| && Picked(kept, scores, order, count)[p] == kept[order[p]].(score := scores[order[p]])
  {
  }

  /**
   Theorem: every merged item is the first of its identity in all the lists, with its score replaced, and of items
   with equal scores the one that comes first in the lists comes first.
   */
  lemma MergedItemsAreFirst(groups: seq<seq<Item>>, k: nat, topK: int, p: nat)
    requires p < |Merged(groups, k, topK)|
    ensures var item, place := Merged(groups, k, topK)[p], Place(Flatten(groups), Identity(Merged(groups, k, topK)[p]));
            place < |Flatten(groups)| && item == Flatten(groups)[place].(score := item.score)
    ensures forall q :: p < q < |Merged(groups, k, topK)| && Merged(groups, k, topK)[q].score == Merged(groups, k, topK)[p].score ==>
              Place(Flatten(groups), Identity(Merged(groups, k, topK)[p])) < Place(Flatten(groups), Identity(Merged(groups, k, topK)[q]))
  {
    var all, kept := Flatten(groups), Fresh(Flatten(groups), {});
    var scores := Scores(groups, k, kept);
    var order := Ranking(scores, |scores|);
    FreshFacts(all, {});
    RankingFacts(scores, |scores|);
    PickedFacts(kept, scores, order, Max(1, topK));
    PickedItem(kept, scores, order, Max(1, topK), p);
    FreshAreFirst(all, {}, order[p]);
    var m := Merged(groups, k, topK);
    hide Fresh, Place, Merged, Scores, Ranking, Identity;
    forall q | p < q < |m| && m[q].score == m[p].score ensures Place(all, Identity(m[p])) < Place(all, Identity(m[q])) {
      PickedItem(kept, scores, order, Max(1, topK), q);
      assert Precedes(scores, order[p], order[q]);
      KeptByPlace(all, order[p], order[q]);
    }
  }

  /** Theorem: no identity that is left out has a higher score than one that is in. */
  lemma NoneOmittedIsBetter(groups: seq<seq<Item>>, k: nat, topK: int, id: string, p: nat)
    requires id in Ids(Flatten(groups)) - Ids(Merged(groups, k, topK)) && p < |Merged(groups, k, topK)|
    ensures Score(Lists(groups), id, k, |groups|) <= Merged(groups, k, topK)[p].score
  {
    var kept := Fresh(Flatten(groups), {});
    var scores := Scores(groups, k, kept);
    FreshFacts(Flatten(groups), {});
    RankingFacts(scores, |scores|);
    var i := OutsideIsBehind(kept, scores, Ranking(scores, |scores|), Max(1, topK), id, p);
  }

  // ---------------------------------------------------------------- the loops

  /** The gains in the first g lists and the first n places of the next one. */
  function Sum(lists: seq<seq<string>>, id: string, k: nat, g: nat, n: nat): real
    requires g < |lists| && n <= |lists[g]|
  {
    Score(lists, id, k, g) + ScoreIn(lists[g], id, k, n)
  }

  function Get(score: map<string, real>, id: string): real { if id in score then score[id] else 0.0 }

  ghost predicate TalliedAll(lists: seq<seq<string>>, k: nat, g: nat, score: map<string, real>)
    requires g <= |lists|
  {
    forall id: string :: Get(score, id) == Score(lists, id, k, g)
  }

  ghost predicate Tallied(lists: seq<seq<string>>, k: nat, g: nat, n: nat, score: map<string, real>)
    requires g < |lists| && n <= |lists[g]|
  {
    forall id: string :: Get(score, id) == Sum(lists, id, k, g, n)
  }

  lemma OneGain(lists: seq<seq<string>>, k: nat, g: nat, n: nat, score: map<string, real>)
    requires g < |lists| && n < |lists[g]| && Tallied(lists, k, g, n, score)
    ensures var name := lists[g][n];
            Tallied(lists, k, g, n + 1, score[name := Get(score, name) + Gain(k, n + 1)])
  {
    var name := lists[g][n];
    var now := score[name := Get(score, name) + Gain(k, n + 1)];
    forall id: string ensures Get(now, id) == Sum(lists, id, k, g, n + 1) {
      assert Get(score, id) == Sum(lists, id, k, g, n);
    }
  }

  lemma StartOfList(lists: seq<seq<string>>, k: nat, g: nat, score: map<string, real>)
    requires g < |lists| && TalliedAll(lists, k, g, score)
    ensures Tallied(lists, k, g, 0, score)
  {
    forall id: string ensures Get(score, id) == Sum(lists, id, k, g, 0) {
      assert Get(score, id) == Score(lists, id, k, g);
    }
  }

  lemma EndOfList(lists: seq<seq<string>>, k: nat, g: nat, score: map<string, real>)
    requires g < |lists| && Tallied(lists, k, g, |lists[g]|, score)
    ensures TalliedAll(lists, k, g + 1, score)
  {
    forall id: string ensures Get(score, id) == Score(lists, id, k, g + 1) {
      assert Get(score, id) == Sum(lists, id, k, g, |lists[g]|);
    }
  }

  lemma OneItem(before: seq<Item>, kept: seq<Item>, item: Item)
    requires kept == Fresh(before, {})
    ensures Fresh(before + [item], {}) == if Identity(item) in Ids(kept) then kept else kept + [item]
  {
    assert (before + [item])[..|before|] == before;
  }

  lemma IdsOfOneMore(kept: seq<Item>, item: Item)
    ensures Ids(kept + [item]) == Ids(kept) + {Identity(item)}
  {
    IdsConcat(kept, [item]);
    assert Ids([item]) == {Identity(item)} by {
      assert Identity([item][0]) == Identity(item);
    }
  }

  /** The kept items are the first of each identity met so far, and these identities have scores. */
  ghost predicate Known(before: seq<Item>, score: map<string, real>, kept: seq<Item>) {
    kept == Fresh(before, {}) && score.Keys == Ids(kept)
  }

  lemma KnownOneMore(before: seq<Item>, score: map<string, real>, kept: seq<Item>, item: Item, gain: real)
    requires Known(before, score, kept)
    ensures Known(before + [item], score[Identity(item) := gain], if Identity(item) in score then kept else kept + [item])
  {
    OneItem(before, kept, item);
    IdsOfOneMore(kept, item);
  }

  /** One item of a list, at place n + 1. */
  method TallyItem(item: Item, n: nat, k: nat, score: map<string, real>, kept: seq<Item>,
                   ghost lists: seq<seq<string>>, ghost g: nat, ghost before: seq<Item>)
      returns (now: map<string, real>, nowKept: seq<Item>)
    requires g < |lists| && n < |lists[g]| && lists[g][n] == Identity(item) && Tallied(lists, k, g, n, score)
    requires Known(before, score, kept)
    ensures Tallied(lists, k, g, n + 1, now)
    ensures Known(before + [item], now, nowKept)
  {
    hide Tallied, Known;
    var id := Identity(item);
    OneGain(lists, k, g, n, score);
    KnownOneMore(before, score, kept, item, Get(score, id) + Gain(k, n + 1));
    nowKept := if id in score then kept else kept + [item];
    now := score[id := Get(score, id) + Gain(k, n + 1)];
  }

  /** The inner loop: one list. */
  method TallyList(items: seq<Item>, k: nat, score: map<string, real>, kept: seq<Item>,
                   ghost lists: seq<seq<string>>, ghost g: nat, ghost before: seq<Item>)
      returns (now: map<string, real>, nowKept: seq<Item>)
    requires g < |lists| && lists[g] == Names(items) && TalliedAll(lists, k, g, score)
    requires Known(before, score, kept)
    ensures TalliedAll(lists, k, g + 1, now)
    ensures Known(before + items, now, nowKept)
  {
    hide Tallied, TalliedAll, Known;
    now, nowKept := score, kept;
    StartOfList(lists, k, g, score);
    assert before + items[..0] == before;
    for n := 0 to |items|
      invariant Tallied(lists, k, g, n, now)
      invariant Known(before + items[..n], now, nowKept)
    {
      assert before + items[..n+1] == before + items[..n] + [items[n]];
      now, nowKept := TallyItem(items[n], n, k, now, nowKept, lists, g, before + items[..n]);
    }
    assert items[..|items|] == items;
    EndOfList(lists, k, g, now);
  }

  method RrfMerge(groups: seq<seq<Item>>, k: nat, topK: int) returns (merged: seq<Item>)
    ensures merged == Merged(groups, k, topK)
  {
    ghost var lists := Lists(groups);
    var score: map<string, real>, kept: seq<Item> := map[], [];
    assert Ids([]) == {};
    for g := 0 to |groups|
      invariant TalliedAll(lists, k, g, score)
      invariant Known(Flatten(groups[..g]), score, kept)
    {
      FlattenSnoc(groups[..g], groups[g]);
      assert groups[..g+1] == groups[..g] + [groups[g]];
      score, kept := TallyList(groups[g], k, score, kept, lists, g, Flatten(groups[..g]));
    }
    assert groups[..|groups|] == groups;
    assert forall i :: 0 <= i < |kept| ==> Identity(kept[i]) in Ids(kept);
    var scores := seq(|kept|, i requires 0 <= i < |kept| => Get(score, Identity(kept[i])));
    assert scores == Scores(groups, k, kept);
    merged := Picked(kept, scores, Ranking(scores, |scores|), Max(1, topK));
  }
}
