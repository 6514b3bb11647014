/**
 Round-robin balancing over the requested standards (fusion.py, stratify_results).  Rows are represented by
 their positions in the input, and each has its normalised scope.
 */
module Stratify {
  import opened Basics
  import opened Texts

  // ---------------------------------------------------------------- which scope a row belongs to

  /** Equal, or one is part of the other. */
  predicate Matches(target: string, scope: string) {
    scope == target || Find(scope, target, 0) >= 0 || Find(target, scope, 0) >= 0
  }

  /** The first target from j on that matches the scope; |targets| if there is none. */
  function TargetOf(targets: seq<string>, scope: string, j: nat): (r: nat)
    requires j <= |targets|
    ensures j <= r <= |targets| && (r < |targets| ==> Matches(targets[r], scope))
    ensures forall k :: j <= k < r ==> !Matches(targets[k], scope)
    decreases |targets| - j
  {
    if j == |targets| || Matches(targets[j], scope) then j else TargetOf(targets, scope, j + 1)
  }

  /** For each row the target it belongs to. */
  function Owners(scopes: seq<string>, targets: seq<string>): seq<nat> {
    seq(|scopes|, r requires 0 <= r < |scopes| => TargetOf(targets, scopes[r], 0))
  }

  /** One text is part of the other, or they are equal. */
  ghost predicate Related(a: string, b: string) { Contains(a, b) || Contains(b, a) }

  lemma MatchesIff(target: string, scope: string)
    ensures Matches(target, scope) <==> Related(target, scope)
  {
    ContainsIff(scope, target);
    ContainsIff(target, scope);
    assert At(target, target, 0);
  }

  /** Theorem: a row belongs to the first target whose name is part of its scope or has its scope as a part, if any. */
  lemma RowsGoToFirstRelated(scopes: seq<string>, targets: seq<string>, r: nat)
    requires r < |scopes|
    ensures var j := Owners(scopes, targets)[r];
            && j <= |targets| && (j < |targets| ==> Related(targets[j], scopes[r]))
            && forall k :: 0 <= k < j ==> !Related(targets[k], scopes[r])
  {
    forall k | 0 <= k < |targets| ensures Matches(targets[k], scopes[r]) <==> Related(targets[k], scopes[r]) {
      MatchesIff(targets[k], scopes[r]);
    }
  }

  /** Which of the first n rows belong to target j, in order. */
  function Members(owners: seq<nat>, j: nat, n: nat): seq<nat>
    requires n <= |owners|
  {
    if n == 0 then [] else if owners[n-1] == j then Members(owners, j, n - 1) + [n - 1] else Members(owners, j, n - 1)
  }

  lemma {:induction false} MembersFacts(owners: seq<nat>, j: nat, n: nat)
    requires n <= |owners|
    ensures forall r: nat :: r in Members(owners, j, n) <==> r < n && owners[r] == j
    ensures Ascending(Members(owners, j, n))
  {
    if n > 0 {
      var before: seq<nat> := Members(owners, j, n - 1);
      MembersFacts(owners, j, n - 1);
      forall a | 0 <= a < |before| ensures before[a] < n - 1 {
        assert before[a] in before;
      }
      AscendingSnoc(before, n - 1);
    }
  }

  ghost predicate Ascending(m: seq<nat>) {
    forall a, b :: 0 <= a < b < |m| ==> m[a] < m[b]
  }

  lemma AscendingSnoc(m: seq<nat>, last: nat)
    requires Ascending(m) && forall a :: 0 <= a < |m| ==> m[a] < last
    ensures Ascending(m + [last])
  {
  }

  /** The first target with the same text as target j. */
  function FirstAlike(targets: seq<string>, j: nat): (r: nat)
    requires j < |targets|
    ensures r <= j && targets[r] == targets[j] && forall k :: 0 <= k < r ==> targets[k] != targets[j]
  {
    FirstFrom(targets, targets[j], 0, j)
  }

  function FirstFrom(targets: seq<string>, t: string, k: nat, j: nat): (r: nat)
    requires k <= j < |targets| && targets[j] == t
    ensures k <= r <= j && targets[r] == t && forall i :: k <= i < r ==> targets[i] != t
    decreases j - k
  {
    if targets[k] == t then k else FirstFrom(targets, t, k + 1, j)
  }

  /** Repeated targets share one bucket, that of the first. */
  function Bucket(scopes: seq<string>, targets: seq<string>, j: nat): seq<nat>
    requires j < |targets|
  {
    Members(Owners(scopes, targets), FirstAlike(targets, j), |scopes|)
  }

  function Others(scopes: seq<string>, targets: seq<string>): seq<nat> {
    Members(Owners(scopes, targets), |targets|, |scopes|)
  }

  // ---------------------------------------------------------------- round robin

  /** A turn: in which round which target is asked. */
  datatype Slot = Slot(round: nat, target: nat)

  /** The turns before target j of round i at which a row is taken, given the sizes of the buckets. */
  function Turns(sizes: seq<nat>, i: nat, j: nat): seq<Slot>
    requires j <= |sizes|
    decreases i, j
  {
    if j > 0 && i < sizes[j-1] then Turns(sizes, i, j - 1) + [Slot(i, j - 1)]
    else if j > 0 then Turns(sizes, i, j - 1)
    else if i > 0 then Turns(sizes, i - 1, |sizes|)
    else []
  }

  predicate Before(s: Slot, i: nat, j: nat) { s.round < i || (s.round == i && s.target < j) }

  ghost predicate InTurn(t: seq<Slot>) {
    forall a, b :: 0 <= a < b < |t| ==> Before(t[a], t[b].round, t[b].target)
  }

  lemma {:induction false} TurnsFacts(sizes: seq<nat>, i: nat, j: nat)
    requires j <= |sizes|
    ensures forall s :: s in Turns(sizes, i, j) <==> s.target < |sizes| && s.round < sizes[s.target] && Before(s, i, j)
    ensures InTurn(Turns(sizes, i, j))
    decreases i, j
  {
    if j > 0 {
      TurnsFacts(sizes, i, j - 1);
      var before := Turns(sizes, i, j - 1);
      forall a | 0 <= a < |before| ensures Before(before[a], i, j - 1) {
        assert before[a] in before;
      }
    } else if i > 0 {
      TurnsFacts(sizes, i - 1, |sizes|);
    }
  }

  /** However many turns are taken, they are those before some target of some round. */
  lemma {:induction false} CutAnywhere(sizes: seq<nat>, i: nat, j: nat, n: nat) returns (a: nat, b: nat)
    requires j <= |sizes| && n <= |Turns(sizes, i, j)|
    ensures b <= |sizes| && Turns(sizes, a, b) == Turns(sizes, i, j)[..n]
    decreases i, j
  {
    if n == |Turns(sizes, i, j)| {
      a, b := i, j;
      assert Turns(sizes, i, j)[..n] == Turns(sizes, i, j);
    } else if j > 0 {
      a, b := CutAnywhere(sizes, i, j - 1, n);
      assert Turns(sizes, i, j)[..n] == Turns(sizes, i, j - 1)[..n];
    } else {
      a, b := CutAnywhere(sizes, i - 1, |sizes|, n);
    }
  }

  /** How many rows of target t are taken before target b of round a. */
  function Taken(size: nat, t: nat, a: nat, b: nat): nat {
    Min(size, if t < b then a + 1 else a)
  }

  /** Counts that differ by at most one, unless the smaller bucket is used up. */
  ghost predicate Balanced(sizes: seq<nat>, counts: seq<nat>) {
    && |counts| == |sizes|
    && forall s, t :: 0 <= s < |sizes| && 0 <= t < |sizes| && counts[s] > counts[t] + 1 ==> counts[t] == sizes[t]
  }

  /**
   Theorem: after any number of turns every target has had its first rows, in order, and no target is more
   than one row ahead of another that still has rows.
   */
  lemma TurnsAreBalanced(sizes: seq<nat>, i: nat, n: nat) returns (counts: seq<nat>)
    requires n <= |Turns(sizes, i, 0)|
    ensures Balanced(sizes, counts)
    ensures forall s: Slot :: s in Turns(sizes, i, 0)[..n] <==> s.target < |sizes| && s.round < counts[s.target]
  {
    var a, b := CutAnywhere(sizes, i, 0, n);
    TurnsFacts(sizes, a, b);
    counts := seq(|sizes|, t requires 0 <= t < |sizes| => Taken(sizes[t], t, a, b));
  }

  // ---------------------------------------------------------------- all rows in the order of their rank

  function Sizes(scopes: seq<string>, targets: seq<string>): seq<nat> {
    seq(|targets|, j requires 0 <= j < |targets| => |Bucket(scopes, targets, j)|)
  }

  function Longest(sizes: seq<nat>): nat {
    if sizes == [] then 0 else Max(Longest(sizes[..|sizes|-1]), sizes[|sizes|-1])
  }

  lemma {:induction false} LongestIsLongest(sizes: seq<nat>, j: nat)
    requires j < |sizes|
    ensures sizes[j] <= Longest(sizes)
    decreases |sizes|
  {
    if j < |sizes| - 1 {
      LongestIsLongest(sizes[..|sizes|-1], j);
    }
  }

  function AllTurns(scopes: seq<string>, targets: seq<string>): seq<Slot> {
    Turns(Sizes(scopes, targets), Longest(Sizes(scopes, targets)), 0)
  }

  predicate IsTurn(scopes: seq<string>, targets: seq<string>, s: Slot) {
    s.target < |targets| && s.round < |Bucket(scopes, targets, s.target)|
  }

  lemma AllTurnsFacts(scopes: seq<string>, targets: seq<string>)
    ensures forall s :: s in AllTurns(scopes, targets) <==> IsTurn(scopes, targets, s)
    ensures InTurn(AllTurns(scopes, targets))
  {
    var sizes := Sizes(scopes, targets);
    TurnsFacts(sizes, Longest(sizes), 0);
    forall s: Slot | IsTurn(scopes, targets, s) ensures Before(s, Longest(sizes), 0) {
      LongestIsLongest(sizes, s.target);
    }
  }

  /** The row taken at a turn. */
  function RowAt(scopes: seq<string>, targets: seq<string>, s: Slot): nat {
    if IsTurn(scopes, targets, s) then Bucket(scopes, targets, s.target)[s.round] else 0
  }

  function RowsAt(scopes: seq<string>, targets: seq<string>, turns: seq<Slot>): seq<nat> {
    seq(|turns|, k requires 0 <= k < |turns| => RowAt(scopes, targets, turns[k]))
  }

  /** All rows: round robin over the targets, then the rows that match none. */
  function Ranking(scopes: seq<string>, targets: seq<string>): seq<nat> {
    RowsAt(scopes, targets, AllTurns(scopes, targets)) + Others(scopes, targets)
  }

  function Take(rows: seq<nat>, n: int): seq<nat> { rows[..Max(0, Min(n, |rows|))] }

  lemma RowFacts(scopes: seq<string>, targets: seq<string>, s: Slot)
    requires IsTurn(scopes, targets, s)
    ensures RowAt(scopes, targets, s) < |scopes|
    ensures Owners(scopes, targets)[RowAt(scopes, targets, s)] == FirstAlike(targets, s.target)
  {
    MembersFacts(Owners(scopes, targets), FirstAlike(targets, s.target), |scopes|);
    assert RowAt(scopes, targets, s) in Bucket(scopes, targets, s.target);
  }

  /** Two turns give the same row only if they ask the same scope, requested twice, in the same round. */
  lemma SameRow(scopes: seq<string>, targets: seq<string>, s: Slot, t: Slot)
    requires IsTurn(scopes, targets, s) && IsTurn(scopes, targets, t)
    ensures RowAt(scopes, targets, s) == RowAt(scopes, targets, t)
       <==> targets[s.target] == targets[t.target] && s.round == t.round
  {
    RowFacts(scopes, targets, s);
    RowFacts(scopes, targets, t);
    if targets[s.target] == targets[t.target] {
      assert FirstAlike(targets, s.target) == FirstAlike(targets, t.target);
      MembersFacts(Owners(scopes, targets), FirstAlike(targets, s.target), |scopes|);
    }
  }

  /** Every requested scope that is requested again has no rows. */
  predicate RepeatsAreEmpty(scopes: seq<string>, targets: seq<string>) {
    forall j, k :: 0 <= j < k < |targets| && targets[j] == targets[k] ==> Bucket(scopes, targets, k) == []
  }

  lemma OthersFacts(scopes: seq<string>, targets: seq<string>)
    ensures forall r: nat :: r in Others(scopes, targets) <==> r < |scopes| && Owners(scopes, targets)[r] == |targets|
    ensures Ascending(Others(scopes, targets))
  {
    MembersFacts(Owners(scopes, targets), |targets|, |scopes|);
  }

  lemma TurnRowsAreDistinct(scopes: seq<string>, targets: seq<string>)
    requires RepeatsAreEmpty(scopes, targets)
    ensures NoRepeats(RowsAt(scopes, targets, AllTurns(scopes, targets)))
  {
    var turns := AllTurns(scopes, targets);
    AllTurnsFacts(scopes, targets);
    forall a, b | 0 <= a < b < |turns| ensures RowAt(scopes, targets, turns[a]) != RowAt(scopes, targets, turns[b]) {
      assert turns[a] in turns && turns[b] in turns;
      SameRow(scopes, targets, turns[a], turns[b]);
      assert turns[a].round == turns[b].round ==> turns[a].target < turns[b].target;
    }
  }

  lemma RankingIsDistinct(scopes: seq<string>, targets: seq<string>)
    requires RepeatsAreEmpty(scopes, targets)
    ensures NoRepeats(Ranking(scopes, targets))
  {
    var rows, others := RowsAt(scopes, targets, AllTurns(scopes, targets)), Others(scopes, targets);
    TurnRowsAreDistinct(scopes, targets);
    AllTurnsFacts(scopes, targets);
    OthersFacts(scopes, targets);
    forall a, b | 0 <= a < |rows| && 0 <= b < |others| ensures rows[a] != others[b] {
      var s := AllTurns(scopes, targets)[a];
      assert s in AllTurns(scopes, targets) && others[b] in others;
      RowFacts(scopes, targets, s);
    }
    JoinedNoRepeats(rows, others);
  }

  lemma JoinedNoRepeats(a: seq<nat>, b: seq<nat>)
    requires NoRepeats(a) && Ascending(b) && forall i, j :: 0 <= i < |a| && 0 <= j < |b| ==> a[i] != b[j]
    ensures NoRepeats(a + b)
  {
  }

  /** Theorem: no row is used twice exactly when scopes that are requested again have no rows. */
  lemma NoRowTwiceIff(scopes: seq<string>, targets: seq<string>)
    ensures NoRepeats(Ranking(scopes, targets)) <==> RepeatsAreEmpty(scopes, targets)
  {
    if RepeatsAreEmpty(scopes, targets) {
      RankingIsDistinct(scopes, targets);
    } else {
      var j, k :| 0 <= j < k < |targets| && targets[j] == targets[k] && Bucket(scopes, targets, k) != [];
      var s, t := Slot(0, j), Slot(0, k);
      var turns := AllTurns(scopes, targets);
      AllTurnsFacts(scopes, targets);
      assert FirstAlike(targets, j) == FirstAlike(targets, k);
      assert IsTurn(scopes, targets, s) && IsTurn(scopes, targets, t);
      SameRow(scopes, targets, s, t);
      var a :| 0 <= a < |turns| && turns[a] == s;
      var b :| 0 <= b < |turns| && turns[b] == t;
      assert Ranking(scopes, targets)[a] == Ranking(scopes, targets)[b];
    }
  }

  /** The ranking leaves out no row, and holds nothing else. */
  lemma EveryRowIsRanked(scopes: seq<string>, targets: seq<string>, r: nat)
    ensures r in Ranking(scopes, targets) <==> r < |scopes|
  {
    var turns := AllTurns(scopes, targets);
    AllTurnsFacts(scopes, targets);
    OthersFacts(scopes, targets);
    if r < |scopes| && Owners(scopes, targets)[r] < |targets| {
      var j := Owners(scopes, targets)[r];
      assert FirstAlike(targets, j) == j;
      MembersFacts(Owners(scopes, targets), j, |scopes|);
      var i :| 0 <= i < |Bucket(scopes, targets, j)| && Bucket(scopes, targets, j)[i] == r;
      assert IsTurn(scopes, targets, Slot(i, j));
      var a :| 0 <= a < |turns| && turns[a] == Slot(i, j);
      assert Ranking(scopes, targets)[a] == r;
    }
    if r in RowsAt(scopes, targets, turns) {
      var a :| 0 <= a < |turns| && RowAt(scopes, targets, turns[a]) == r;
      assert turns[a] in turns;
      RowFacts(scopes, targets, turns[a]);
    }
  }

  function Positions(n: nat): seq<nat> { seq(n, r requires 0 <= r < n => r) }

  /** Theorem: with distinct scopes the result has as many rows as asked for, or all of them. */
  lemma AsManyAsAsked(scopes: seq<string>, targets: seq<string>, count: nat)
    requires RepeatsAreEmpty(scopes, targets)
    ensures |Take(Ranking(scopes, targets), count)| == Min(count, |scopes|)
    ensures NoRepeats(Take(Ranking(scopes, targets), count))
  {
    var positions := Positions(|scopes|);
    var all := set r | r in positions;
    NoRowTwiceIff(scopes, targets);
    forall r: nat ensures r in all <==> r in Ranking(scopes, targets) {
      EveryRowIsRanked(scopes, targets, r);
      assert r < |scopes| ==> positions[r] == r;
    }
    CountWithoutRepeats(Ranking(scopes, targets), all);
    CountWithoutRepeats(positions, all);
  }

  /**
   Theorem: for any count, every scope has had its first rows in the result, in order, no scope is more than
   one row ahead of another that still has rows, and rows of no scope come only when all scopes are used up.
   */
  lemma ResultIsFair(scopes: seq<string>, targets: seq<string>, count: nat) returns (turns: seq<Slot>, counts: seq<nat>)
    ensures turns <= AllTurns(scopes, targets) && InTurn(turns) && Balanced(Sizes(scopes, targets), counts)
    ensures forall s: Slot :: s in turns <==> s.target < |targets| && s.round < counts[s.target]
    ensures RowsAt(scopes, targets, turns) <= Take(Ranking(scopes, targets), count)
    ensures |Take(Ranking(scopes, targets), count)| > |turns| ==> turns == AllTurns(scopes, targets)
  {
    var all := AllTurns(scopes, targets);
    turns := all[..Min(count, |all|)];
    counts := TurnsAreBalanced(Sizes(scopes, targets), Longest(Sizes(scopes, targets)), |turns|);
    AllTurnsFacts(scopes, targets);
    assert RowsAt(scopes, targets, turns) == RowsAt(scopes, targets, all)[..|turns|];
  }

  /** A row without a scope matches every target, since the empty text is part of any: the first one gets it. */
  lemma UnscopedGoesFirst(targets: seq<string>)
    requires targets != []
    ensures TargetOf(targets, "", 0) == 0
  {
    assert At(targets[0], "", 0);
  }

  // ---------------------------------------------------------------- the loops

  lemma FirstAlikeOfOwner(targets: seq<string>, scope: string, k: nat)
    requires k < |targets| && TargetOf(targets, scope, 0) < |targets|
    ensures FirstAlike(targets, k) == TargetOf(targets, scope, 0) <==> targets[k] == targets[TargetOf(targets, scope, 0)]
  {
    var j := TargetOf(targets, scope, 0);
    if targets[k] == targets[j] {
      assert FirstAlike(targets, k) == FirstAlike(targets, j);
      assert Matches(targets[FirstAlike(targets, j)], scope);
    }
  }

  method FindTarget(targets: seq<string>, scope: string) returns (j: nat)
    ensures j == TargetOf(targets, scope, 0)
  {
    for k := 0 to |targets|
      invariant TargetOf(targets, scope, 0) == TargetOf(targets, scope, k)
    {
      if Matches(targets[k], scope) {
        return k;
      }
    }
    return |targets|;
  }

  /** The buckets, keyed by the texts of the targets, hold the first r rows that belong to them. */
  ghost predicate Filled(owners: seq<nat>, targets: seq<string>, buckets: map<string, seq<nat>>, r: nat)
    requires r <= |owners|
  {
    forall j :: 0 <= j < |targets| ==>
      targets[j] in buckets && buckets[targets[j]] == Members(owners, FirstAlike(targets, j), r)
  }

  lemma FilledWith(owners: seq<nat>, targets: seq<string>, buckets: map<string, seq<nat>>, r: nat)
    requires r < |owners| && owners[r] < |targets| && Filled(owners, targets, buckets, r)
    requires forall k :: 0 <= k < |targets| ==> (FirstAlike(targets, k) == owners[r] <==> targets[k] == targets[owners[r]])
    ensures var t := targets[owners[r]]; Filled(owners, targets, buckets[t := buckets[t] + [r]], r + 1)
  {
    var t := targets[owners[r]];
    var now := buckets[t := buckets[t] + [r]];
    forall j | 0 <= j < |targets|
      ensures targets[j] in now && now[targets[j]] == Members(owners, FirstAlike(targets, j), r + 1)
    {
      assert targets[j] in buckets && buckets[targets[j]] == Members(owners, FirstAlike(targets, j), r);
    }
  }

  lemma FilledWithout(owners: seq<nat>, targets: seq<string>, buckets: map<string, seq<nat>>, r: nat)
    requires r < |owners| && owners[r] == |targets| && Filled(owners, targets, buckets, r)
    ensures Filled(owners, targets, buckets, r + 1)
  {
  }

  method PlaceRow(scope: string, targets: seq<string>, buckets: map<string, seq<nat>>, others: seq<nat>, r: nat, ghost owners: seq<nat>)
      returns (nowBuckets: map<string, seq<nat>>, nowOthers: seq<nat>)
    requires r < |owners| && owners[r] == TargetOf(targets, scope, 0)
    requires Filled(owners, targets, buckets, r) && others == Members(owners, |targets|, r)
    ensures Filled(owners, targets, nowBuckets, r + 1) && nowOthers == Members(owners, |targets|, r + 1)
  {
    var j := FindTarget(targets, scope);
    if j < |targets| {
      forall k | 0 <= k < |targets| ensures FirstAlike(targets, k) == j <==> targets[k] == targets[j] {
        FirstAlikeOfOwner(targets, scope, k);
      }
      FilledWith(owners, targets, buckets, r);
      return buckets[targets[j] := buckets[targets[j]] + [r]], others;
    } else {
      FilledWithout(owners, targets, buckets, r);
      return buckets, others + [r];
    }
  }

  lemma NothingFilled(owners: seq<nat>, targets: seq<string>, buckets: map<string, seq<nat>>)
    requires forall j :: 0 <= j < |targets| ==> targets[j] in buckets && buckets[targets[j]] == []
    ensures Filled(owners, targets, buckets, 0)
  {
  }

  /** Distributes the rows over the buckets. */
  method FillBuckets(scopes: seq<string>, targets: seq<string>, ghost owners: seq<nat>)
      returns (buckets: map<string, seq<nat>>, others: seq<nat>)
    requires |owners| == |scopes| && forall r :: 0 <= r < |scopes| ==> owners[r] == TargetOf(targets, scopes[r], 0)
    ensures Filled(owners, targets, buckets, |scopes|) && others == Members(owners, |targets|, |scopes|)
  {
    buckets := map t | t in targets :: [];
    others := [];
    NothingFilled(owners, targets, buckets);
    for r := 0 to |scopes|
      invariant Filled(owners, targets, buckets, r) && others == Members(owners, |targets|, r)
    {
      buckets, others := PlaceRow(scopes[r], targets, buckets, others, r, owners);
    }
  }

  lemma OneTurn(scopes: seq<string>, targets: seq<string>, i: nat, k: nat)
    requires k < |targets|
    ensures var sizes, bucket := Sizes(scopes, targets), Bucket(scopes, targets, k);
            var before, after := RowsAt(scopes, targets, Turns(sizes, i, k)), RowsAt(scopes, targets, Turns(sizes, i, k + 1));
            if i < |bucket| then after == before + [bucket[i]] else after == before
  {
    var turns := Turns(Sizes(scopes, targets), i, k);
    if i < |Bucket(scopes, targets, k)| {
      assert RowsAt(scopes, targets, turns + [Slot(i, k)]) ==
             RowsAt(scopes, targets, turns) + [RowAt(scopes, targets, Slot(i, k))];
    }
  }

  method AskOne(scopes: seq<string>, targets: seq<string>, buckets: map<string, seq<nat>>, i: nat, k: nat, rows: seq<nat>)
      returns (more: seq<nat>)
    requires k < |targets| && Filled(Owners(scopes, targets), targets, buckets, |scopes|)
    requires rows == RowsAt(scopes, targets, Turns(Sizes(scopes, targets), i, k))
    ensures more == RowsAt(scopes, targets, Turns(Sizes(scopes, targets), i, k + 1)) && |more| <= |rows| + 1
  {
    OneTurn(scopes, targets, i, k);
    var bucket := buckets[targets[k]];
    more := if i < |bucket| then rows + [bucket[i]] else rows;
  }

  lemma NextRound(sizes: seq<nat>, i: nat)
    ensures Turns(sizes, i + 1, 0) == Turns(sizes, i, |sizes|)
  {
  }

  /** One round; stops when there are enough rows. */
  method AskAll(scopes: seq<string>, targets: seq<string>, buckets: map<string, seq<nat>>, i: nat, rows: seq<nat>, count: int)
      returns (more: seq<nat>, enough: bool, ghost j: nat)
    requires Filled(Owners(scopes, targets), targets, buckets, |scopes|)
    requires rows == RowsAt(scopes, targets, Turns(Sizes(scopes, targets), i, 0)) && (rows == [] || |rows| < count)
    ensures j <= |targets| && more == RowsAt(scopes, targets, Turns(Sizes(scopes, targets), i, j))
    ensures |more| <= Max(1, count) && (enough ==> |more| >= count)
    ensures !enough ==> j == |targets| && (more == [] || |more| < count)
  {
    hide RowsAt, Turns, Filled, Owners;
    more, enough, j := rows, false, 0;
    for k := 0 to |targets|
      invariant more == RowsAt(scopes, targets, Turns(Sizes(scopes, targets), i, k)) && (|more| == 0 || |more| < count)
    {
      more := AskOne(scopes, targets, buckets, i, k, more);
      if |more| >= count {
        enough, j := true, k + 1;
        return;
      }
    }
    j := |targets|;
  }

  lemma {:induction false} TurnsPrefix(sizes: seq<nat>, a: nat, b: nat, i: nat, j: nat)
    requires b <= |sizes| && j <= |sizes| && (a < i || (a == i && b <= j))
    ensures Turns(sizes, a, b) <= Turns(sizes, i, j)
    decreases i, j
  {
    if a == i && b == j {
    } else if j > 0 {
      TurnsPrefix(sizes, a, b, i, j - 1);
    } else {
      TurnsPrefix(sizes, a, b, i - 1, |sizes|);
    }
  }

  function LongestBucket(scopes: seq<string>, targets: seq<string>): nat { Longest(Sizes(scopes, targets)) }

  /** max over the lengths of all buckets */
  method FindLongest(targets: seq<string>, buckets: map<string, seq<nat>>, ghost sizes: seq<nat>) returns (longest: nat)
    requires |sizes| == |targets|
    requires forall k :: 0 <= k < |targets| ==> targets[k] in buckets && |buckets[targets[k]]| == sizes[k]
    ensures longest == Longest(sizes)
  {
    longest := 0;
    for k := 0 to |targets|
      invariant longest == Longest(sizes[..k])
    {
      assert sizes[..k+1][..k] == sizes[..k];
      longest := Max(longest, |buckets[targets[k]]|);
    }
    assert sizes[..|targets|] == sizes;
  }

  lemma RowsOfPrefix(scopes: seq<string>, targets: seq<string>, a: nat, b: nat)
    requires b <= |targets| && (a < LongestBucket(scopes, targets) || (a == LongestBucket(scopes, targets) && b == 0))
    ensures RowsAt(scopes, targets, Turns(Sizes(scopes, targets), a, b)) <= RowsAt(scopes, targets, AllTurns(scopes, targets))
  {
    TurnsPrefix(Sizes(scopes, targets), a, b, LongestBucket(scopes, targets), 0);
  }

  lemma FilledSizes(scopes: seq<string>, targets: seq<string>, buckets: map<string, seq<nat>>)
    requires Filled(Owners(scopes, targets), targets, buckets, |scopes|)
    ensures |Sizes(scopes, targets)| == |targets|
    ensures forall k :: 0 <= k < |targets| ==> targets[k] in buckets && |buckets[targets[k]]| == Sizes(scopes, targets)[k]
  {
  }

  /** The rounds: enough rows in the order of the ranking, or those of all turns. */
  method RoundRobin(scopes: seq<string>, targets: seq<string>, buckets: map<string, seq<nat>>, count: int) returns (rows: seq<nat>)
    requires Filled(Owners(scopes, targets), targets, buckets, |scopes|)
    ensures rows <= RowsAt(scopes, targets, AllTurns(scopes, targets)) && |rows| <= Max(1, count)
    ensures |rows| < count ==> rows == RowsAt(scopes, targets, AllTurns(scopes, targets))
  {
    rows := [];
    ghost var sizes := Sizes(scopes, targets);
    assert RowsAt(scopes, targets, Turns(sizes, 0, 0)) == [];
    FilledSizes(scopes, targets, buckets);
    hide RowsAt, Turns, Filled, Owners, Sizes;
    var longest := FindLongest(targets, buckets, sizes);
    for i := 0 to longest
      invariant rows == RowsAt(scopes, targets, Turns(Sizes(scopes, targets), i, 0)) && (rows == [] || |rows| < count)
    {
      var enough; ghost var j;
      rows, enough, j := AskAll(scopes, targets, buckets, i, rows, count);
      if enough {
        RowsOfPrefix(scopes, targets, i, j);
        return;
      }
      NextRound(Sizes(scopes, targets), i);
    }
  }

  /** Theorem: the result is the first `count` rows of the ranking. */
  method StratifyResults(scopes: seq<string>, targets: seq<string>, requested: bool, count: int) returns (result: seq<nat>)
    requires targets != [] ==> requested
    ensures count >= 0 ==> result == Take(Ranking(scopes, targets), count)
    ensures count < 0 ==> result == if requested then [] else Take(Positions(|scopes|), |scopes| + count)
  {
    if !requested || scopes == [] {
      NoTargets(scopes, targets);
      result := Take(Positions(|scopes|), if count >= 0 then count else |scopes| + count);
      return;
    }
    var buckets, others := FillBuckets(scopes, targets, Owners(scopes, targets));
    var rows := RoundRobin(scopes, targets, buckets, count);
    if count >= 0 {
      FirstRows(rows, RowsAt(scopes, targets, AllTurns(scopes, targets)), others, count);
    }
    if |rows| < count {
      rows := rows + Take(others, count - |rows|);
    }
    result := Take(rows, if count >= 0 then count else |rows| + count);
  }

  lemma FirstRows(rows: seq<nat>, turns: seq<nat>, others: seq<nat>, count: nat)
    requires rows <= turns && (|rows| < count ==> rows == turns)
    ensures Take(turns + others, count) == Take(if |rows| < count then rows + Take(others, count - |rows|) else rows, count)
  {
  }

  lemma {:induction false} AllMembers(owners: seq<nat>, j: nat, n: nat)
    requires n <= |owners| && forall r :: 0 <= r < n ==> owners[r] == j
    ensures Members(owners, j, n) == Positions(n)
  {
    if n > 0 {
      AllMembers(owners, j, n - 1);
    }
  }

  /** Without requested scopes, or without rows, the ranking is the input. */
  lemma NoTargets(scopes: seq<string>, targets: seq<string>)
    requires targets == [] || scopes == []
    ensures Ranking(scopes, targets) == Positions(|scopes|)
  {
    AllTurnsFacts(scopes, targets);
    if AllTurns(scopes, targets) != [] {
      assert IsTurn(scopes, targets, AllTurns(scopes, targets)[0]);
    }
    AllMembers(Owners(scopes, targets), |targets|, |scopes|);
  }
}
