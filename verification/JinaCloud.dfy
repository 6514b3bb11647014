/**
 The cloud embedding provider (jina_cloud.py): adaptive batch sizes, batching of the pieces of long
 texts, and regrouping of the returned vectors per text.

 The service is represented by its replies: rows in any order, whose vectors may depend on the whole batch.
 */
module JinaCloud {
  import opened Basics

  type Vec = seq<real>

  // ---------------------------------------------------------------- adaptive batch size

  datatype Settings = Settings(configured: nat, minSize: nat, step: nat, adaptive: bool) {
    predicate Valid() { 1 <= minSize <= configured && step >= 1 }
    predicate Allows(size: nat) { minSize <= size <= configured }
  }

  /** A batch of the given size was rate limited, or some batch succeeded. */
  datatype Event = RateLimited(batchSize: nat) | Succeeded

  function NextSize(st: Settings, size: nat, e: Event): nat
    requires st.Valid()
  {
    if !st.adaptive then size
    else
      match e
      case RateLimited(n) => Min(size, Max(st.minSize, n / 2))
      case Succeeded => if size >= st.configured then size else Min(st.configured, size + st.step)
  }

  function SizeAfter(st: Settings, size: nat, events: seq<Event>): nat
    requires st.Valid()
  {
    if events == [] then size else NextSize(st, SizeAfter(st, size, events[..|events|-1]), events[|events|-1])
  }

  /** Theorem: no schedule of rate limits and successes, of any calls, takes the size out of range. */
  lemma {:induction false} SizeStaysInRange(st: Settings, size: nat, events: seq<Event>)
    requires st.Valid() && st.Allows(size)
    ensures st.Allows(SizeAfter(st, size, events))
    decreases |events|
  {
    if events != [] {
      SizeStaysInRange(st, size, events[..|events|-1]);
    }
  }

  /** The configured size, or n steps above the given one if that is less. */
  function Restored(st: Settings, size: nat, n: nat): nat {
    Min(st.configured, size + n * st.step)
  }

  lemma OneStepMore(st: Settings, size: nat, n: nat)
    requires st.Valid() && st.adaptive && size <= st.configured
    ensures NextSize(st, Restored(st, size, n), Succeeded) == Restored(st, size, n + 1)
  {
    var sum := n * st.step;
    assert (n + 1) * st.step == sum + st.step;
  }

  /** Theorem: a run of n successes raises the size by n steps, up to the configured size. */
  lemma {:induction false} SuccessesRestoreSize(st: Settings, size: nat, events: seq<Event>)
    requires st.Valid() && st.adaptive && st.Allows(size)
    requires forall k :: 0 <= k < |events| ==> events[k].Succeeded?
    ensures SizeAfter(st, size, events) == Restored(st, size, |events|)
    decreases |events|
  {
    if events != [] {
      SuccessesRestoreSize(st, size, events[..|events|-1]);
      OneStepMore(st, size, |events| - 1);
    }
  }

  function Halved(size: nat, n: nat): nat {
    if n == 0 then size else Halved(size, n - 1) / 2
  }

  /** Every event is a rate limit that strikes a batch of the size current at that moment. */
  predicate AllLimited(st: Settings, size: nat, events: seq<Event>)
    requires st.Valid()
    decreases |events|
  {
    events == [] || (AllLimited(st, size, events[..|events|-1])
                     && events[|events|-1] == RateLimited(SizeAfter(st, size, events[..|events|-1])))
  }

  /** Theorem: a run of n rate limits halves the size n times, down to the minimum. */
  lemma {:induction false} LimitsHalveSize(st: Settings, size: nat, events: seq<Event>)
    requires st.Valid() && st.adaptive && st.Allows(size) && AllLimited(st, size, events)
    ensures SizeAfter(st, size, events) == Max(st.minSize, Halved(size, |events|))
    decreases |events|
  {
    if events != [] {
      LimitsHalveSize(st, size, events[..|events|-1]);
    }
  }

  /** Theorem: without adaptation the size never changes. */
  lemma {:induction false} FixedSizeStays(st: Settings, size: nat, events: seq<Event>)
    requires st.Valid() && !st.adaptive
    ensures SizeAfter(st, size, events) == size
    decreases |events|
  {
    if events != [] {
      FixedSizeStays(st, size, events[..|events|-1]);
    }
  }

  lemma {:induction false} SizeAfterConcat(st: Settings, size: nat, a: seq<Event>, b: seq<Event>)
    requires st.Valid()
    ensures SizeAfter(st, size, a + b) == SizeAfter(st, SizeAfter(st, size, a), b)
    decreases |b|
  {
    if b == [] {
      assert a + b == a;
    } else {
      assert (a + b)[..|a + b|-1] == a + b[..|b|-1] && (a + b)[|a + b|-1] == b[|b|-1];
      SizeAfterConcat(st, size, a, b[..|b|-1]);
    }
  }

  // ---------------------------------------------------------------- splitting long texts

  const MAX_CHARS := 15000
  const MARGIN := 1000

  function Pieces(chunks: seq<string>): seq<string> {
    if chunks == [] then []
    else (if |chunks[0]| > MAX_CHARS + MARGIN then Cut(chunks[0], MAX_CHARS) else [chunks[0]]) + Pieces(chunks[1..])
  }

  /** `wrap` stands for textwrap.wrap at MAX_CHARS, which may drop white space and never splits a word. */
  function SafeSplit(text: string, wrap: string -> seq<string>): seq<string> {
    if |text| <= MAX_CHARS then [text] else Pieces(wrap(text))
  }

  lemma {:induction false} PiecesAreLossless(chunks: seq<string>)
    ensures Flatten(Pieces(chunks)) == Flatten(chunks)
    ensures forall p :: p in Pieces(chunks) ==> |p| <= MAX_CHARS + MARGIN
    decreases |chunks|
  {
    if chunks != [] {
      var first := if |chunks[0]| > MAX_CHARS + MARGIN then Cut(chunks[0], MAX_CHARS) else [chunks[0]];
      CutIsLossless(chunks[0], MAX_CHARS);
      PiecesAreLossless(chunks[1..]);
      FlattenConcat(first, Pieces(chunks[1..]));
      assert Flatten([chunks[0]]) == chunks[0];
    }
  }

  /** Theorem: no piece is too long for the service, and the pieces carry all the wrapped text. */
  lemma SplitIsSafe(text: string, wrap: string -> seq<string>)
    ensures forall p :: p in SafeSplit(text, wrap) ==> |p| <= MAX_CHARS + MARGIN
    ensures Flatten(SafeSplit(text, wrap)) == if |text| <= MAX_CHARS then text else Flatten(wrap(text))
  {
    if |text| <= MAX_CHARS {
      assert Flatten([text]) == text;
    } else {
      PiecesAreLossless(wrap(text));
    }
  }

  lemma {:induction false} PiecesAreWhole(chunks: seq<string>)
    ensures (forall c :: c in chunks ==> |c| <= 16000) ==> Pieces(chunks) == chunks
    ensures forall p :: p in Pieces(chunks) && |p| > 15000 ==> p in chunks
    decreases |chunks|
  {
    if chunks != [] {
      var chunk, rest := chunks[0], chunks[1..];
      var first := if |chunk| > MAX_CHARS + MARGIN then Cut(chunk, MAX_CHARS) else [chunk];
      assert Pieces(chunks) == first + Pieces(rest) && chunks == [chunk] + rest;
      CutIsLossless(chunk, MAX_CHARS);
      hide Pieces, Cut, Flatten;
      PiecesAreWhole(rest);
      assert forall p :: p in first && |p| > 15000 ==> p == chunk;
    }
  }

  /**
   Theorem: a text within 15000 characters is one piece, a longer one is given by its wrapped chunks, and only
   chunks of more than 16000 characters are cut, into pieces of at most 15000.
   */
  lemma OnlyLongTextsAreCut(text: string, wrap: string -> seq<string>)
    ensures |text| <= 15000 ==> SafeSplit(text, wrap) == [text]
    ensures |text| > 15000 && (forall c :: c in wrap(text) ==> |c| <= 16000) ==> SafeSplit(text, wrap) == wrap(text)
    ensures |text| > 15000 ==> forall p :: p in SafeSplit(text, wrap) && |p| > 15000 ==> p in wrap(text)
  {
    PiecesAreWhole(wrap(text));
  }

  // ---------------------------------------------------------------- one reply

  /** One row of a reply: the position in the batch it answers, and the vector. */
  datatype Row = Row(index: int, vec: Vec)

  function Inserted(e: Row, rows: seq<Row>): seq<Row> {
    if rows == [] || e.index < rows[0].index then [e] + rows else [rows[0]] + Inserted(e, rows[1..])
  }

  /** sorted(rows, key=index): stable. */
  function Sorted(rows: seq<Row>): seq<Row> {
    if rows == [] then [] else Inserted(rows[|rows|-1], Sorted(rows[..|rows|-1]))
  }

  /** The service answered every position of a batch of n pieces exactly once. */
  ghost predicate Complete(rows: seq<Row>, n: nat) {
    && |rows| == n
    && (forall r :: r in rows ==> 0 <= r.index < n)
    && (forall i, j :: 0 <= i < j < |rows| ==> rows[i].index != rows[j].index)
  }

  ghost predicate Increasing(rows: seq<Row>) { forall i, j :: 0 <= i < j < |rows| ==> rows[i].index < rows[j].index }

  lemma {:induction false} InsertedKeeps(e: Row, rows: seq<Row>)
    ensures forall r :: r in Inserted(e, rows) <==> r == e || r in rows
    decreases |rows|
  {
    if !(rows == [] || e.index < rows[0].index) {
      assert rows == [rows[0]] + rows[1..];
      InsertedKeeps(e, rows[1..]);
    }
  }

  lemma {:induction false} SortedKeeps(rows: seq<Row>)
    ensures forall r :: r in Sorted(rows) <==> r in rows
    decreases |rows|
  {
    if rows != [] {
      var before, last := rows[..|rows|-1], rows[|rows|-1];
      assert rows == before + [last];
      SortedKeeps(before);
      InsertedKeeps(last, Sorted(before));
    }
  }

  lemma {:induction false} InsertedFacts(e: Row, rows: seq<Row>)
    requires Increasing(rows) && forall r :: r in rows ==> r.index != e.index
    ensures |Inserted(e, rows)| == |rows| + 1 && Increasing(Inserted(e, rows))
    decreases |rows|
  {
    if !(rows == [] || e.index < rows[0].index) {
      var tail := Inserted(e, rows[1..]);
      InsertedFacts(e, rows[1..]);
      InsertedKeeps(e, rows[1..]);
      forall j | 0 <= j < |tail| ensures rows[0].index < tail[j].index {
        assert tail[j] in tail;
        assert rows[0].index != e.index;
      }
    }
  }

  lemma {:induction false} SortedFacts(rows: seq<Row>)
    requires forall i, j :: 0 <= i < j < |rows| ==> rows[i].index != rows[j].index
    ensures |Sorted(rows)| == |rows| && Increasing(Sorted(rows))
    decreases |rows|
  {
    SortedKeeps(rows);
    if rows != [] {
      var before, last := rows[..|rows|-1], rows[|rows|-1];
      assert rows == before + [last];
      SortedFacts(before);
      SortedKeeps(before);
      InsertedFacts(last, Sorted(before));
    }
  }

  lemma {:induction false} IncreasingSteps(rows: seq<Row>, i: nat, j: nat)
    requires Increasing(rows) && i <= j < |rows|
    ensures rows[j].index >= rows[i].index + (j - i)
    decreases j - i
  {
    if i < j {
      IncreasingSteps(rows, i, j - 1);
    }
  }

  /** The rows with one index, in order. */
  function WithIndex(rows: seq<Row>, index: int): seq<Row> {
    if rows == [] then []
    else (if rows[0].index == index then [rows[0]] else []) + WithIndex(rows[1..], index)
  }

  ghost predicate NonDecreasing(rows: seq<Row>) { forall i, j :: 0 <= i < j < |rows| ==> rows[i].index <= rows[j].index }

  lemma {:induction false} WithIndexConcat(a: seq<Row>, b: seq<Row>, index: int)
    ensures WithIndex(a + b, index) == WithIndex(a, index) + WithIndex(b, index)
    decreases |a|
  {
    if a == [] {
      assert a + b == b;
    } else {
      var first := if a[0].index == index then [a[0]] else [];
      assert (a + b)[0] == a[0] && (a + b)[1..] == a[1..] + b;
      assert WithIndex(a, index) == first + WithIndex(a[1..], index);
      assert WithIndex(a + b, index) == first + WithIndex(a[1..] + b, index);
      WithIndexConcat(a[1..], b, index);
      hide WithIndex;
      assert first + (WithIndex(a[1..], index) + WithIndex(b, index)) == (first + WithIndex(a[1..], index)) + WithIndex(b, index);
    }
  }

  lemma {:induction false} NoneBelow(rows: seq<Row>, index: int)
    requires forall r :: r in rows ==> index < r.index
    ensures WithIndex(rows, index) == []
    decreases |rows|
  {
    if rows != [] {
      assert rows[0] in rows;
      NoneBelow(rows[1..], index);
    }
  }

  lemma {:induction false} InsertedStaysSorted(e: Row, rows: seq<Row>)
    requires NonDecreasing(rows)
    ensures NonDecreasing(Inserted(e, rows))
    decreases |rows|
  {
    if rows != [] && e.index >= rows[0].index {
      var tail := Inserted(e, rows[1..]);
      InsertedStaysSorted(e, rows[1..]);
      InsertedKeeps(e, rows[1..]);
      forall j | 0 <= j < |tail| ensures rows[0].index <= tail[j].index {
        assert tail[j] in tail;
      }
    }
  }

  /** A row goes behind those of its own index. */
  lemma {:induction false} InsertedBehind(e: Row, rows: seq<Row>, index: int)
    requires NonDecreasing(rows)
    ensures WithIndex(Inserted(e, rows), index) == WithIndex(rows, index) + if e.index == index then [e] else []
    decreases |rows|
  {
    if rows == [] || e.index < rows[0].index {
      assert ([e] + rows)[1..] == rows;
      if e.index == index {
        assert forall r :: r in rows ==> index < r.index;
        NoneBelow(rows, index);
      }
    } else {
      var tail := Inserted(e, rows[1..]);
      var first, own := if rows[0].index == index then [rows[0]] else [], if e.index == index then [e] else [];
      InsertedBehind(e, rows[1..], index);
      assert Inserted(e, rows)[1..] == tail;
      assert WithIndex(Inserted(e, rows), index) == first + WithIndex(tail, index);
      assert WithIndex(rows, index) == first + WithIndex(rows[1..], index);
      hide WithIndex, Inserted;
      assert first + (WithIndex(rows[1..], index) + own) == (first + WithIndex(rows[1..], index)) + own;
    }
  }

  /** Theorem: sorting orders the rows by index and keeps, for every index, its rows in the order they came in. */
  lemma {:induction false} SortedIsStable(rows: seq<Row>, index: int)
    ensures NonDecreasing(Sorted(rows)) && WithIndex(Sorted(rows), index) == WithIndex(rows, index)
    decreases |rows|
  {
    if rows != [] {
      var before, last := rows[..|rows|-1], rows[|rows|-1];
      SortedIsStable(before, index);
      InsertedStaysSorted(last, Sorted(before));
      InsertedBehind(last, Sorted(before), index);
      assert rows == before + [last];
      WithIndexConcat(before, [last], index);
      assert [last][1..] == [];
    }
  }

  function Vecs(rows: seq<Row>): seq<Vec> { seq(|rows|, i requires 0 <= i < |rows| => rows[i].vec) }

  // ---------------------------------------------------------------- one vector per text

  function ColumnSum(vecs: seq<Vec>, c: nat): real
    requires forall v :: v in vecs ==> c < |v|
  {
    if vecs == [] then 0.0 else ColumnSum(vecs[..|vecs|-1], c) + vecs[|vecs|-1][c]
  }

  predicate SameLength(vecs: seq<Vec>) { forall v :: v in vecs ==> |v| == |vecs[0]| }

  /** np.mean(vecs, axis=0) */
  function Mean(vecs: seq<Vec>): Vec
    requires vecs != [] && SameLength(vecs)
  {
    seq(|vecs[0]|, c requires 0 <= c < |vecs[0]| => ColumnSum(vecs, c) / |vecs| as real)
  }

  /**
   The vector of a text from the vectors of its pieces: zeros if none, the vector if one, else the mean, which
   raises if they differ in length.
   */
  function Pool(vecs: seq<Vec>, dims: nat): Option<Vec> {
    if vecs == [] then Some(seq(dims, _ => 0.0))
    else if |vecs| == 1 then Some(vecs[0])
    else if SameLength(vecs) then Some(Mean(vecs))
    else None
  }

  lemma Divided(sum: real, n: real)
    requires n > 0.0
    ensures n * (sum / n) == sum
  {
  }

  function Times(n: nat, x: real): real { n as real * x }

  lemma OneTermMore(n: nat, x: real, sum: real, last: real)
    ensures Times(0, x) == 0.0
    ensures Times(n, x) <= sum && x < last ==> Times(n + 1, x) < sum + last
    ensures Times(n, x) >= sum && x > last ==> Times(n + 1, x) > sum + last
  {
    assert (n + 1) as real == n as real + 1.0;
    assert Times(n + 1, x) == Times(n, x) + x;
  }

  /** If all components c are above x, their sum is above that many times x. */
  lemma {:induction false} SumIsAbove(vecs: seq<Vec>, c: nat, x: real)
    requires vecs != [] && forall v :: v in vecs ==> c < |v| && v[c] > x
    ensures Times(|vecs|, x) < ColumnSum(vecs, c)
    decreases |vecs|
  {
    hide Times;
    var before, last := vecs[..|vecs|-1], vecs[|vecs|-1];
    assert last in vecs && forall v :: v in before ==> v in vecs;
    assert before == [] ==> ColumnSum(before, c) == 0.0;
    if before != [] {
      SumIsAbove(before, c, x);
    }
    OneTermMore(|before|, x, ColumnSum(before, c), last[c]);
  }

  /** If all are below x, so is their sum. */
  lemma {:induction false} SumIsBelow(vecs: seq<Vec>, c: nat, x: real)
    requires vecs != [] && forall v :: v in vecs ==> c < |v| && v[c] < x
    ensures Times(|vecs|, x) > ColumnSum(vecs, c)
    decreases |vecs|
  {
    hide Times;
    var before, last := vecs[..|vecs|-1], vecs[|vecs|-1];
    assert last in vecs && forall v :: v in before ==> v in vecs;
    assert before == [] ==> ColumnSum(before, c) == 0.0;
    if before != [] {
      SumIsBelow(before, c, x);
    }
    OneTermMore(|before|, x, ColumnSum(before, c), last[c]);
  }

  lemma {:induction false} SumConcat(a: seq<Vec>, b: seq<Vec>, c: nat)
    requires forall v :: v in a + b ==> c < |v|
    ensures (forall v :: v in a ==> c < |v|) && (forall v :: v in b ==> c < |v|)
    ensures ColumnSum(a + b, c) == ColumnSum(a, c) + ColumnSum(b, c)
    decreases |b|
  {
    assert forall v :: v in a ==> v in a + b;
    assert forall v :: v in b ==> v in a + b;
    if b == [] {
      assert a + b == a;
    } else {
      var before := b[..|b|-1];
      assert (a + b)[..|a + b|-1] == a + before;
      assert forall v :: v in a + before ==> v in a + b;
      SumConcat(a, before, c);
    }
  }

  /** The vectors and r have one length, and no component of r is below all of theirs or above all of theirs. */
  ghost predicate Between(vecs: seq<Vec>, r: Vec) {
    && (forall v :: v in vecs ==> |v| == |r|)
    && forall c :: 0 <= c < |r| ==> BetweenAt(vecs, c, r[c])
  }

  ghost predicate BetweenAt(vecs: seq<Vec>, c: nat, x: real)
    requires forall v :: v in vecs ==> c < |v|
  {
    (exists v :: v in vecs && v[c] <= x) && exists v :: v in vecs && x <= v[c]
  }

  /** n times the pooled vector is the sum of the vectors. */
  lemma PoolTimesCount(vecs: seq<Vec>, dims: nat, c: nat)
    requires vecs != [] && SameLength(vecs) && c < |vecs[0]|
    ensures Pool(vecs, dims).Some? && |Pool(vecs, dims).value| == |vecs[0]|
    ensures |vecs| as real * Pool(vecs, dims).value[c] == ColumnSum(vecs, c)
  {
    if |vecs| == 1 {
      assert ColumnSum(vecs[..0], c) == 0.0;
    } else {
      Divided(ColumnSum(vecs, c), |vecs| as real);
    }
  }

  lemma ComponentIsBetween(vecs: seq<Vec>, dims: nat, c: nat)
    requires vecs != [] && SameLength(vecs) && c < |vecs[0]|
    ensures Pool(vecs, dims).Some? && |Pool(vecs, dims).value| == |vecs[0]|
    ensures BetweenAt(vecs, c, Pool(vecs, dims).value[c])
  {
    PoolTimesCount(vecs, dims, c);
    var x := Pool(vecs, dims).value[c];
    if forall v :: v in vecs ==> v[c] > x {
      SumIsAbove(vecs, c, x);
    } else if forall v :: v in vecs ==> v[c] < x {
      SumIsBelow(vecs, c, x);
    }
  }

  /**
   Theorem: without pieces a text gets `dims` zeros; vectors of one length pool to one of that length that lies
   between them in every component; others cannot be pooled.
   */
  lemma PoolIsBetween(vecs: seq<Vec>, dims: nat)
    ensures vecs == [] ==> Pool(vecs, dims) == Some(seq(dims, _ => 0.0))
    ensures vecs != [] ==> (Pool(vecs, dims).Some? <==> forall v: Vec :: v in vecs ==> |v| == |vecs[0]|)
    ensures vecs != [] && Pool(vecs, dims).Some? ==> Between(vecs, Pool(vecs, dims).value)
  {
    if vecs != [] && Pool(vecs, dims).Some? {
      var r := Pool(vecs, dims).value;
      assert SameLength(vecs) && |r| == |vecs[0]|;
      hide Pool, BetweenAt;
      forall c | 0 <= c < |r| ensures BetweenAt(vecs, c, r[c]) {
        ComponentIsBetween(vecs, dims, c);
      }
    }
  }

  /** Theorem: equal vectors pool to themselves. */
  lemma EqualVectorsStay(vecs: seq<Vec>, dims: nat, v: Vec)
    requires vecs != [] && forall w :: w in vecs ==> w == v
    ensures Pool(vecs, dims) == Some(v)
  {
    PoolIsBetween(vecs, dims);
    assert vecs[0] in vecs;
    var r := Pool(vecs, dims).value;
    assert |r| == |v|;
    hide Pool;
    forall c | 0 <= c < |r| ensures r[c] == v[c] {
      assert BetweenAt(vecs, c, r[c]);
    }
    assert r == v;
  }

  /** Theorem: n times the pooled vector of n vectors adds up over the parts of a list. */
  lemma PoolIsAdditive(a: seq<Vec>, b: seq<Vec>, dims: nat, c: nat)
    requires a != [] && b != [] && SameLength(a + b) && c < |(a + b)[0]|
    ensures Pool(a, dims).Some? && Pool(b, dims).Some? && Pool(a + b, dims).Some?
    ensures |Pool(a, dims).value| == |Pool(b, dims).value| == |Pool(a + b, dims).value| == |a[0]|
    ensures |a + b| as real * Pool(a + b, dims).value[c]
            == |a| as real * Pool(a, dims).value[c] + |b| as real * Pool(b, dims).value[c]
  {
    hide Pool, ColumnSum;
    assert forall v :: v in a ==> v in a + b;
    assert forall v :: v in b ==> v in a + b;
    assert b[0] in a + b && (a + b)[0] == a[0];
    SumConcat(a, b, c);
    PoolTimesCount(a, dims, c);
    PoolTimesCount(b, dims, c);
    PoolTimesCount(a + b, dims, c);
  }

  /** What a text gets for the vectors of its pieces. */
  ghost predicate Represents(own: seq<Vec>, dims: nat, r: Vec) {
    if own == [] then r == seq(dims, _ => 0.0) else Between(own, r)
  }

  lemma PoolRepresents(own: seq<Vec>, dims: nat)
    requires Pool(own, dims).Some?
    ensures Represents(own, dims, Pool(own, dims).value)
  {
    PoolIsBetween(own, dims);
  }

  lemma MembersOf(a: seq<Vec>, b: seq<Vec>)
    requires multiset(a) == multiset(b)
    ensures |a| == |b| && forall v :: v in a <==> v in b
  {
    assert |multiset(a)| == |multiset(b)|;
    assert forall v :: v in a <==> v in multiset(a);
    assert forall v :: v in b <==> v in multiset(b);
  }

  function WithoutOne(vecs: seq<Vec>, p: nat): seq<Vec>
    requires p < |vecs|
  {
    vecs[..p] + vecs[p+1..]
  }

  lemma SumWithoutOne(vecs: seq<Vec>, p: nat, c: nat)
    requires p < |vecs| && forall v :: v in vecs ==> c < |v|
    ensures forall v :: v in WithoutOne(vecs, p) ==> c < |v|
    ensures ColumnSum(vecs, c) == ColumnSum(WithoutOne(vecs, p), c) + vecs[p][c]
    ensures |WithoutOne(vecs, p)| == |vecs| - 1 && multiset(WithoutOne(vecs, p)) == multiset(vecs) - multiset{vecs[p]}
  {
    var before, x, after := vecs[..p], vecs[p], vecs[p+1..];
    assert vecs == before + [x] + after;
    assert forall v :: v in before + after ==> v in vecs;
    var one: seq<Vec> := [x];
    assert |one[..0]| == 0;
    SumConcat(before + [x], after, c);
    SumConcat(before, [x], c);
    SumConcat(before, after, c);
    assert ColumnSum(one, c) == x[c];
  }

  lemma {:induction false} SumIgnoresOrder(a: seq<Vec>, b: seq<Vec>, c: nat)
    requires multiset(a) == multiset(b) && (forall v :: v in a ==> c < |v|) && forall v :: v in b ==> c < |v|
    ensures ColumnSum(a, c) == ColumnSum(b, c)
    decreases |a|
  {
    MembersOf(a, b);
    if a != [] {
      hide ColumnSum, WithoutOne;
      assert a[0] in b;
      var p :| 0 <= p < |b| && b[p] == a[0];
      SumWithoutOne(a, 0, c);
      SumWithoutOne(b, p, c);
      SumIgnoresOrder(WithoutOne(a, 0), WithoutOne(b, p), c);
    }
  }

  lemma Cancelled(n: real, x: real, y: real)
    requires n > 0.0 && n * x == n * y
    ensures x == y
  {
  }

  lemma ComponentIgnoresOrder(a: seq<Vec>, b: seq<Vec>, dims: nat, c: nat)
    requires a != [] && multiset(a) == multiset(b) && SameLength(a) && SameLength(b) && |a[0]| == |b[0]| && c < |a[0]|
    requires |a| == |b|
    ensures Pool(a, dims).Some? && Pool(b, dims).Some? && |Pool(a, dims).value| == |Pool(b, dims).value| == |a[0]|
    ensures Pool(a, dims).value[c] == Pool(b, dims).value[c]
  {
    SumIgnoresOrder(a, b, c);
    PoolTimesCount(a, dims, c);
    PoolTimesCount(b, dims, c);
    hide Pool, ColumnSum;
    Cancelled(|a| as real, Pool(a, dims).value[c], Pool(b, dims).value[c]);
  }

  /** Theorem: the pooled vector does not depend on the order of the vectors. */
  lemma PoolIgnoresOrder(a: seq<Vec>, b: seq<Vec>, dims: nat)
    requires multiset(a) == multiset(b)
    ensures Pool(a, dims) == Pool(b, dims)
  {
    MembersOf(a, b);
    PoolIsBetween(a, dims);
    PoolIsBetween(b, dims);
    if a != [] {
      assert a[0] in b && b[0] in a;
      hide Pool, Between;
      if Pool(a, dims).Some? {
        var r, s := Pool(a, dims).value, Pool(b, dims).value;
        PoolHasLength(a, dims);
        PoolHasLength(b, dims);
        forall c | 0 <= c < |r| ensures r[c] == s[c] {
          ComponentIgnoresOrder(a, b, dims, c);
        }
        assert r == s;
      }
    }
  }

  lemma PoolHasLength(vecs: seq<Vec>, dims: nat)
    requires vecs != [] && Pool(vecs, dims).Some?
    ensures |Pool(vecs, dims).value| == |vecs[0]|
  {
  }

  /** Number of pieces of the first i texts. */
  function Offset(parts: seq<seq<string>>, i: nat): nat
    requires i <= |parts|
  {
    if i == 0 then 0 else Offset(parts, i - 1) + |parts[i-1]|
  }

  lemma {:induction false} OffsetMonotone(parts: seq<seq<string>>, i: nat, j: nat)
    requires i <= j <= |parts|
    ensures Offset(parts, i) <= Offset(parts, j)
    decreases j - i
  {
    if i < j {
      OffsetMonotone(parts, i, j - 1);
    }
  }

  /** `owner[g]` is the text that piece g belongs to. */
  ghost predicate Owners(parts: seq<seq<string>>, n: nat, owner: seq<nat>) {
    && n <= |parts| && |owner| == Offset(parts, n)
    && forall g :: 0 <= g < |owner| ==> owner[g] < n && Offset(parts, owner[g]) <= g < Offset(parts, owner[g] + 1)
  }

  lemma {:induction false} OffsetStable(parts: seq<seq<string>>, last: seq<string>, i: nat)
    requires i <= |parts|
    ensures Offset(parts + [last], i) == Offset(parts, i)
  {
    if i > 0 {
      OffsetStable(parts, last, i - 1);
    }
  }

  lemma {:induction false} FlattenLength(parts: seq<seq<string>>, n: nat)
    requires n <= |parts|
    ensures |Flatten(parts[..n])| == Offset(parts, n)
  {
    if n > 0 {
      FlattenLength(parts, n - 1);
      assert parts[..n] == parts[..n-1] + [parts[n-1]];
      FlattenSnoc(parts[..n-1], parts[n-1]);
    }
  }

  lemma OwnersSnoc(parts: seq<seq<string>>, owner: seq<nat>, last: seq<string>)
    requires Owners(parts, |parts|, owner)
    ensures Owners(parts + [last], |parts| + 1, owner + seq(|last|, _ => |parts|))
  {
    var more, longer := parts + [last], owner + seq(|last|, _ => |parts|);
    OffsetStable(parts, last, |parts|);
    forall g | 0 <= g < |longer|
      ensures longer[g] < |more| && Offset(more, longer[g]) <= g < Offset(more, longer[g] + 1)
    {
      if g < |owner| {
        OffsetStable(parts, last, owner[g]);
        OffsetStable(parts, last, owner[g] + 1);
      }
    }
  }

  /** The vectors a reply yields, in the order of its pieces. */
  function InOrder(rows: seq<Row>): seq<Vec> { Vecs(Sorted(rows)) }

  /**
   Theorem: whatever the order of the rows in a complete reply, the vector at place k is the one the
   service returned for position k.
   */
  lemma InOrderIsByPosition(rows: seq<Row>, n: nat)
    requires Complete(rows, n)
    ensures |InOrder(rows)| == n && RowsOf(rows, InOrder(rows))
  {
    SortedFacts(rows);
    SortedKeeps(rows);
    var s := Sorted(rows);
    forall k | 0 <= k < n ensures s[k].index == k && s[k] in rows {
      IncreasingSteps(s, 0, k);
      IncreasingSteps(s, k, n - 1);
      assert s[0] in s && s[k] in s && s[n-1] in s;
    }
  }

  /** A request: `size` pieces from piece `start` on. */
  datatype Batch = Batch(start: nat, size: nat)

  /** The replies to all requests a call may make; a request without a reply failed on every retry. */
  type Replies = map<Batch, seq<Row>>

  /** The batches follow each other from piece 0 up to piece n, and none is empty or larger than `cap`. */
  predicate Partition(batches: seq<Batch>, n: nat, cap: nat)
    decreases |batches|
  {
    if batches == [] then n == 0
    else
      var last := batches[|batches|-1];
      1 <= last.size <= cap && last.start + last.size == n && Partition(batches[..|batches|-1], last.start, cap)
  }

  /** What the loop collects: the vectors of each reply in turn. */
  function Received(replies: Replies, batches: seq<Batch>): seq<Vec>
    decreases |batches|
  {
    if batches == [] then []
    else
      var last := batches[|batches|-1];
      Received(replies, batches[..|batches|-1]) + if last in replies then InOrder(replies[last]) else []
  }

  /** The vector at place k is that of the row that answers position k. */
  ghost predicate RowsOf(rows: seq<Row>, own: seq<Vec>) {
    forall k :: 0 <= k < |own| ==> Row(k, own[k]) in rows
  }

  /** Every piece of the batch has the vector the service returned for its position in the batch. */
  ghost predicate AnsweredBy(replies: Replies, batch: Batch, vecs: seq<Vec>) {
    && batch in replies && batch.start + batch.size <= |vecs|
    && RowsOf(replies[batch], vecs[batch.start..batch.start + batch.size])
  }

  ghost predicate Delivered(replies: Replies, batches: seq<Batch>, vecs: seq<Vec>) {
    forall b :: 0 <= b < |batches| ==> AnsweredBy(replies, batches[b], vecs)
  }

  /** The service answered every position of the batch exactly once. */
  ghost predicate Answered(replies: Replies, batch: Batch) {
    batch in replies && Complete(replies[batch], batch.size)
  }

  /** Theorem: once every batch has a complete reply, each piece has the vector returned for its own position. */
  lemma {:induction false} EachPieceGetsItsVector(replies: Replies, batches: seq<Batch>, n: nat, cap: nat)
    requires Partition(batches, n, cap) && Satisfied(replies, batches)
    ensures |Received(replies, batches)| == n && Delivered(replies, batches, Received(replies, batches))
    decreases |batches|
  {
    if batches != [] {
      var before, last := batches[..|batches|-1], batches[|batches|-1];
      assert batches == before + [last];
      assert Satisfied(replies, before) by {
        assert forall b :: 0 <= b < |before| ==> before[b] == batches[b];
      }
      EachPieceGetsItsVector(replies, before, last.start, cap);
      assert Answered(replies, batches[|before|]);
      OneMoreReply(replies, before, Received(replies, before), last);
    }
  }

  lemma OneMoreReply(replies: Replies, before: seq<Batch>, vecs: seq<Vec>, last: Batch)
    requires Delivered(replies, before, vecs) && |vecs| == last.start && Answered(replies, last)
    ensures |InOrder(replies[last])| == last.size
    ensures Delivered(replies, before + [last], vecs + InOrder(replies[last]))
  {
    InOrderIsByPosition(replies[last], last.size);
    var tail := InOrder(replies[last]);
    assert (vecs + tail)[last.start..last.start + last.size] == tail;
    assert AnsweredBy(replies, last, vecs + tail);
    forall b | 0 <= b < |before| ensures AnsweredBy(replies, before[b], vecs + tail) {
      StillAnswered(replies, before[b], vecs, tail);
    }
  }

  lemma StillAnswered(replies: Replies, batch: Batch, vecs: seq<Vec>, tail: seq<Vec>)
    requires AnsweredBy(replies, batch, vecs)
    ensures AnsweredBy(replies, batch, vecs + tail)
  {
    assert (vecs + tail)[batch.start..batch.start + batch.size] == vecs[batch.start..batch.start + batch.size];
  }

  /** A sequence without the entry at p. */
  function Except(indices: seq<int>, p: nat): seq<int>
    requires p < |indices|
  {
    indices[..p] + indices[p+1..]
  }

  lemma ExceptAt(indices: seq<int>, p: nat, i: nat)
    requires p < |indices| && i < |indices| && i != p
    ensures Except(indices, p)[if i < p then i else i - 1] == indices[i]
  {
  }

  lemma StillOccurs(indices: seq<int>, p: nat, k: int)
    requires p < |indices| && k in indices && k != indices[p]
    ensures k in Except(indices, p)
  {
    var q :| 0 <= q < |indices| && indices[q] == k;
    ExceptAt(indices, p, q);
  }

  lemma Reinserted(indices: seq<int>, p: nat, m: nat)
    requires p < |indices| && indices[p] == m && |indices| == m + 1
    requires NoRepeats(Except(indices, p)) && forall i :: 0 <= i < m ==> 0 <= Except(indices, p)[i] < m
    ensures NoRepeats(indices) && forall i :: 0 <= i < m + 1 ==> 0 <= indices[i] < m + 1
  {
    forall i | 0 <= i < m + 1 && i != p ensures 0 <= indices[i] < m {
      ExceptAt(indices, p, i);
    }
    forall i, j | 0 <= i < j < m + 1 ensures indices[i] != indices[j] {
      if i != p && j != p {
        ExceptAt(indices, p, i);
        ExceptAt(indices, p, j);
      }
    }
  }

  /** If all of 0, 1, ..., m - 1 occur, there are at least m entries; if exactly m, none is repeated or out of range. */
  lemma {:induction false} Pigeons(indices: seq<int>, m: nat)
    requires forall k :: 0 <= k < m ==> k in indices
    ensures |indices| >= m
    ensures |indices| == m ==> NoRepeats(indices) && forall i :: 0 <= i < m ==> 0 <= indices[i] < m
    decreases m
  {
    if m > 0 {
      assert m - 1 in indices;
      var p :| 0 <= p < |indices| && indices[p] == m - 1;
      var rest := Except(indices, p);
      assert |rest| == |indices| - 1;
      hide Except, NoRepeats;
      forall k | 0 <= k < m - 1 ensures k in rest {
        StillOccurs(indices, p, k);
      }
      Pigeons(rest, m - 1);
      if |indices| == m {
        Reinserted(indices, p, m - 1);
      }
    }
  }

  function Indices(rows: seq<Row>): seq<int> { seq(|rows|, i requires 0 <= i < |rows| => rows[i].index) }

  /** Every position of the batch is answered, perhaps more than once. */
  ghost predicate Indexed(replies: Replies, batch: Batch) {
    batch in replies && forall k :: 0 <= k < batch.size ==> k in Indices(replies[batch])
  }

  lemma AnsweredIsIndexed(replies: Replies, batch: Batch, vecs: seq<Vec>)
    requires AnsweredBy(replies, batch, vecs)
    ensures Indexed(replies, batch)
  {
    var own, rows := vecs[batch.start..batch.start + batch.size], replies[batch];
    forall k | 0 <= k < batch.size ensures k in Indices(rows) {
      assert Row(k, own[k]) in rows;
      var i :| 0 <= i < |rows| && rows[i] == Row(k, own[k]);
      assert Indices(rows)[i] == k;
    }
  }

  lemma IndexedIsComplete(replies: Replies, batch: Batch)
    requires Indexed(replies, batch)
    ensures |replies[batch]| >= batch.size && (|replies[batch]| == batch.size ==> Answered(replies, batch))
  {
    var rows := replies[batch];
    Pigeons(Indices(rows), batch.size);
    if |rows| == batch.size {
      forall r | r in rows ensures 0 <= r.index < batch.size {
        var i :| 0 <= i < |rows| && rows[i] == r;
        assert Indices(rows)[i] == r.index;
      }
      forall i, j | 0 <= i < j < |rows| ensures rows[i].index != rows[j].index {
        assert Indices(rows)[i] != Indices(rows)[j];
      }
    }
  }

  lemma {:induction false} SortedLength(rows: seq<Row>)
    ensures |Sorted(rows)| == |rows|
    decreases |rows|
  {
    if rows != [] {
      SortedLength(rows[..|rows|-1]);
      InsertedLength(rows[|rows|-1], Sorted(rows[..|rows|-1]));
    }
  }

  lemma {:induction false} InsertedLength(e: Row, rows: seq<Row>)
    ensures |Inserted(e, rows)| == |rows| + 1
    decreases |rows|
  {
    if !(rows == [] || e.index < rows[0].index) {
      InsertedLength(e, rows[1..]);
    }
  }

  lemma SatisfiedSnoc(replies: Replies, before: seq<Batch>, last: Batch)
    ensures Satisfied(replies, before) && Answered(replies, last) ==> Satisfied(replies, before + [last])
  {
  }

  lemma ReceivedSnoc(replies: Replies, before: seq<Batch>, last: Batch)
    requires last in replies
    ensures |Received(replies, before + [last])| == |Received(replies, before)| + |replies[last]|
  {
    assert (before + [last])[..|before|] == before;
    SortedLength(replies[last]);
  }

  lemma OneBatchMore(replies: Replies, before: seq<Batch>, last: Batch)
    requires Indexed(replies, last) && |Received(replies, before)| >= last.start
    requires |Received(replies, before)| == last.start ==> Satisfied(replies, before)
    ensures |Received(replies, before + [last])| >= last.start + last.size
    ensures |Received(replies, before + [last])| == last.start + last.size ==> Satisfied(replies, before + [last])
  {
    ReceivedSnoc(replies, before, last);
    IndexedIsComplete(replies, last);
    SatisfiedSnoc(replies, before, last);
  }

  lemma {:induction false} NothingToSpare(replies: Replies, batches: seq<Batch>, n: nat, cap: nat)
    requires Partition(batches, n, cap)
    requires forall b :: 0 <= b < |batches| ==> Indexed(replies, batches[b])
    ensures |Received(replies, batches)| >= n
    ensures |Received(replies, batches)| == n ==> Satisfied(replies, batches)
    decreases |batches|
  {
    if batches != [] {
      var before, last := batches[..|batches|-1], batches[|batches|-1];
      assert batches == before + [last];
      assert Indexed(replies, batches[|before|]);
      forall b | 0 <= b < |before| ensures Indexed(replies, before[b]) {
        assert before[b] == batches[b];
      }
      NothingToSpare(replies, before, last.start, cap);
      OneBatchMore(replies, before, last);
    }
  }

  /** Theorem: every piece has its own vector, and there is none too many, exactly when all replies are complete. */
  lemma DeliveredIffComplete(replies: Replies, batches: seq<Batch>, n: nat, cap: nat)
    requires Partition(batches, n, cap)
    ensures |Received(replies, batches)| == n && Delivered(replies, batches, Received(replies, batches))
       <==> Satisfied(replies, batches)
  {
    var vecs := Received(replies, batches);
    if Satisfied(replies, batches) {
      EachPieceGetsItsVector(replies, batches, n, cap);
    } else if |vecs| == n && Delivered(replies, batches, vecs) {
      forall b | 0 <= b < |batches| ensures Indexed(replies, batches[b]) {
        AnsweredIsIndexed(replies, batches[b], vecs);
      }
      NothingToSpare(replies, batches, n, cap);
    }
  }

  /** Every piece position but those of text `i` lies wholly before or wholly after piece g of text i. */
  lemma OthersApart(parts: seq<seq<string>>, i: nat, g: nat, k: nat)
    requires i < |parts| && k < |parts| && k != i && Offset(parts, i) <= g < Offset(parts, i + 1)
    ensures Offset(parts, k + 1) <= g || g < Offset(parts, k)
  {
    if k < i {
      OffsetMonotone(parts, k + 1, i);
    } else {
      OffsetMonotone(parts, i + 1, k);
    }
  }

  /** The vectors of text i among the first n. */
  function VecsUpTo(parts: seq<seq<string>>, vecs: seq<Vec>, n: nat, i: nat): seq<Vec>
    requires i < |parts| && n <= |vecs|
  {
    var lo, hi := Min(Offset(parts, i), n), Min(Offset(parts, i + 1), n);
    vecs[lo..Max(lo, hi)]
  }

  /** The vectors at the places of the pieces of text i, as far as there are any. */
  function VecsOf(parts: seq<seq<string>>, vecs: seq<Vec>, i: nat): (r: seq<Vec>)
    requires i < |parts|
    ensures forall v :: v in r ==> v in vecs
  {
    VecsUpTo(parts, vecs, Min(Offset(parts, |parts|), |vecs|), i)
  }

  lemma PiecesBefore(parts: seq<seq<string>>, i: nat)
    requires i <= |parts|
    ensures Offset(parts, i) == |Flatten(parts[..i])|
  {
    FlattenLength(parts, i);
  }

  /** Theorem: with a vector for every piece, text i has those at the places of its own pieces. */
  lemma TextsHaveTheirOwn(parts: seq<seq<string>>, vecs: seq<Vec>, i: nat)
    requires i < |parts| && |vecs| >= |Flatten(parts)|
    ensures |VecsOf(parts, vecs, i)| == |parts[i]| && |Flatten(parts[..i])| + |parts[i]| <= |vecs|
    ensures forall j :: 0 <= j < |parts[i]| ==> VecsOf(parts, vecs, i)[j] == vecs[|Flatten(parts[..i])| + j]
  {
    PiecesBefore(parts, i);
    PiecesBefore(parts, |parts|);
    assert parts[..|parts|] == parts;
    OffsetMonotone(parts, i + 1, |parts|);
  }

  function FirstShares(parts: seq<seq<string>>, vecs: seq<Vec>, n: nat): (r: seq<seq<Vec>>)
    requires n <= |parts|
    ensures |r| == n && forall i :: 0 <= i < n ==> r[i] == VecsOf(parts, vecs, i)
  {
    seq(n, i requires 0 <= i < n => VecsOf(parts, vecs, i))
  }

  lemma ShareOf(parts: seq<seq<string>>, vecs: seq<Vec>, i: nat)
    requires i < |parts|
    ensures Offset(parts, i) <= Offset(parts, i + 1)
    ensures VecsOf(parts, vecs, i) == vecs[Min(Offset(parts, i), |vecs|)..Min(Offset(parts, i + 1), |vecs|)]
  {
    OffsetMonotone(parts, i, i + 1);
    OffsetMonotone(parts, i + 1, |parts|);
  }

  /** Theorem: however many vectors arrive, the texts together get them all once and in order, up to one for each piece. */
  lemma {:induction false} TextsShareTheVectors(parts: seq<seq<string>>, vecs: seq<Vec>, n: nat)
    requires n <= |parts|
    ensures Flatten(FirstShares(parts, vecs, n)) == vecs[..Min(|Flatten(parts[..n])|, |vecs|)]
  {
    PiecesBefore(parts, n);
    if n > 0 {
      hide Offset, VecsOf, Flatten, FirstShares;
      TextsShareTheVectors(parts, vecs, n - 1);
      PiecesBefore(parts, n - 1);
      ShareOf(parts, vecs, n - 1);
      var shares, last := FirstShares(parts, vecs, n - 1), VecsOf(parts, vecs, n - 1);
      assert FirstShares(parts, vecs, n) == shares + [last];
      FlattenSnoc(shares, last);
      var lo, hi := Min(Offset(parts, n - 1), |vecs|), Min(Offset(parts, n), |vecs|);
      Joined(vecs, lo, hi);
    }
  }

  lemma Joined(vecs: seq<Vec>, lo: nat, hi: nat)
    requires lo <= hi <= |vecs|
    ensures vecs[..lo] + vecs[lo..hi] == vecs[..hi]
  {
  }

  lemma OneMoreVector(parts: seq<seq<string>>, vecs: seq<Vec>, owner: seq<nat>, n: nat, k: nat)
    requires Owners(parts, |parts|, owner) && n < |vecs| && n < |owner| && k < |parts|
    ensures VecsUpTo(parts, vecs, n + 1, k) ==
            if k == owner[n] then VecsUpTo(parts, vecs, n, k) + [vecs[n]] else VecsUpTo(parts, vecs, n, k)
  {
    OffsetMonotone(parts, k, k + 1);
    if k != owner[n] {
      OthersApart(parts, owner[n], n, k);
    }
  }

  /** A reply without its row: the next text's vector goes to the text before it. */
  lemma MissingRowShifts(v: Vec)
    ensures var replies := map[Batch(0, 1) := [], Batch(1, 1) := [Row(0, v)]];
            var parts, vecs := [["a"], ["b"]], Received(replies, [Batch(0, 1), Batch(1, 1)]);
            VecsOf(parts, vecs, 0) == [v] && VecsOf(parts, vecs, 1) == []
  {
    var replies := map[Batch(0, 1) := [], Batch(1, 1) := [Row(0, v)]];
    var batches := [Batch(0, 1), Batch(1, 1)];
    assert batches[..1] == [Batch(0, 1)] && batches[..1][..0] == [];
    assert Received(replies, []) == [];
    assert InOrder([]) == [];
    assert Sorted([Row(0, v)]) == [Row(0, v)] by {
      assert [Row(0, v)][..0] == [];
    }
    assert Received(replies, batches[..1]) == [];
    assert Received(replies, batches) == [v];
    var parts := [["a"], ["b"]];
    assert Offset(parts, 0) == 0 && Offset(parts, 1) == 1 && Offset(parts, 2) == 2;
  }

  function GroupAt(groups: map<nat, seq<Vec>>, i: nat): seq<Vec> { if i in groups then groups[i] else [] }

  /** The groups hold the first n vectors, each with the text its piece came from. */
  ghost predicate Grouped(parts: seq<seq<string>>, vecs: seq<Vec>, groups: map<nat, seq<Vec>>, n: nat)
    requires n <= |vecs|
  {
    forall i :: 0 <= i < |parts| ==> GroupAt(groups, i) == VecsUpTo(parts, vecs, n, i)
  }

  lemma OneVectorGrouped(parts: seq<seq<string>>, vecs: seq<Vec>, owner: seq<nat>, groups: map<nat, seq<Vec>>, n: nat)
    requires Owners(parts, |parts|, owner) && n < |vecs| && n < |owner| && Grouped(parts, vecs, groups, n)
    ensures Grouped(parts, vecs, groups[owner[n] := GroupAt(groups, owner[n]) + [vecs[n]]], n + 1)
  {
    var now := groups[owner[n] := GroupAt(groups, owner[n]) + [vecs[n]]];
    forall i | 0 <= i < |parts| ensures GroupAt(now, i) == VecsUpTo(parts, vecs, n + 1, i) {
      OneMoreVector(parts, vecs, owner, n, i);
      assert GroupAt(groups, i) == VecsUpTo(parts, vecs, n, i);
    }
  }

  function AllPieces(texts: seq<string>, wrap: string -> seq<string>): seq<seq<string>> {
    seq(|texts|, i requires 0 <= i < |texts| => SafeSplit(texts[i], wrap))
  }

  ghost predicate Satisfied(replies: Replies, batches: seq<Batch>) {
    forall b :: 0 <= b < |batches| ==> Answered(replies, batches[b])
  }

  lemma AllRepresent(parts: seq<seq<string>>, vecs: seq<Vec>, dims: nat, result: seq<Vec>)
    requires |result| == |parts| && forall i :: 0 <= i < |parts| ==> Pool(VecsOf(parts, vecs, i), dims) == Some(result[i])
    ensures forall i :: 0 <= i < |parts| ==> Represents(VecsOf(parts, vecs, i), dims, result[i])
  {
    hide Pool, VecsOf, Represents;
    forall i | 0 <= i < |parts| ensures Represents(VecsOf(parts, vecs, i), dims, result[i]) {
      PoolRepresents(VecsOf(parts, vecs, i), dims);
    }
  }

  // ---------------------------------------------------------------- the pace of a call

  /** The events while the given batches of a call are sent, `events[i]` around the request that starts at piece i. */
  function History(events: seq<seq<Event>>, batches: seq<Batch>): seq<Event>
    decreases |batches|
  {
    if batches == [] then []
    else
      var last := batches[|batches|-1];
      History(events, batches[..|batches|-1]) + (if last.start < |events| then events[last.start] else []) + [Succeeded]
  }

  /** Every batch has the size that the events up to then allow, or what is left of the n pieces. */
  ghost predicate Paced(st: Settings, size: nat, events: seq<seq<Event>>, batches: seq<Batch>, n: nat)
    requires st.Valid()
  {
    forall b :: 0 <= b < |batches| ==>
      batches[b].size == Min(if st.adaptive then SizeAfter(st, size, History(events, batches[..b])) else st.configured,
                             n - batches[b].start)
  }

  lemma NothingPaced(st: Settings, size: nat, events: seq<seq<Event>>, n: nat)
    requires st.Valid()
    ensures Paced(st, size, events, [], n) && SizeAfter(st, size, History(events, [])) == size
  {
  }

  lemma PacedSnoc(st: Settings, size: nat, events: seq<seq<Event>>, batches: seq<Batch>, n: nat, last: Batch)
    requires st.Valid() && Paced(st, size, events, batches, n)
    requires last.size == Min(if st.adaptive then SizeAfter(st, size, History(events, batches)) else st.configured, n - last.start)
    ensures Paced(st, size, events, batches + [last], n)
  {
    var more := batches + [last];
    forall b | 0 <= b < |more|
      ensures more[b].size ==
              Min(if st.adaptive then SizeAfter(st, size, History(events, more[..b])) else st.configured, n - more[b].start)
    {
      assert more[..b] == if b < |batches| then batches[..b] else batches;
    }
  }

  lemma HistorySnoc(st: Settings, size: nat, events: seq<seq<Event>>, batches: seq<Batch>, last: Batch)
    requires st.Valid() && last.start < |events|
    ensures SizeAfter(st, size, History(events, batches + [last])) ==
            NextSize(st, SizeAfter(st, SizeAfter(st, size, History(events, batches)), events[last.start]), Succeeded)
  {
    assert (batches + [last])[..|batches|] == batches;
    var before := History(events, batches) + events[last.start];
    assert (before + [Succeeded])[..|before|] == before;
    SizeAfterConcat(st, size, History(events, batches), events[last.start]);
  }

  lemma {:induction false} QuietHistory(events: seq<seq<Event>>, batches: seq<Batch>)
    requires forall i :: 0 <= i < |events| ==> events[i] == []
    ensures |History(events, batches)| == |batches| && forall k :: 0 <= k < |batches| ==> History(events, batches)[k].Succeeded?
    decreases |batches|
  {
    if batches != [] {
      QuietHistory(events, batches[..|batches|-1]);
    }
  }

  /** Theorem: while nothing else happens, each batch of a call may be a step larger than the one before, up to the configured size. */
  lemma QuietCallsSpeedUp(st: Settings, size: nat, events: seq<seq<Event>>, batches: seq<Batch>, n: nat, b: nat)
    requires st.Valid() && st.adaptive && st.Allows(size) && Paced(st, size, events, batches, n) && b < |batches|
    requires forall i :: 0 <= i < |events| ==> events[i] == []
    ensures batches[b].size == Min(Min(st.configured, size + b * st.step), n - batches[b].start)
  {
    QuietHistory(events, batches[..b]);
    SuccessesRestoreSize(st, size, History(events, batches[..b]));
  }

  // ---------------------------------------------------------------- the provider

  class JinaCloudProvider {
    const settings: Settings
    const dimensions: nat
    var dynamicBatchSize: nat

    ghost predicate Valid()
      reads this
    {
      settings.Valid() && settings.Allows(dynamicBatchSize)
    }

    constructor (settings: Settings, dimensions: nat)
      requires settings.Valid()
      ensures Valid() && this.settings == settings && this.dimensions == dimensions
      ensures dynamicBatchSize == settings.configured
    {
      this.settings, this.dimensions, dynamicBatchSize := settings, dimensions, settings.configured;
    }

    method GetCurrentBatchSize() returns (size: nat)
      requires Valid()
      ensures settings.Allows(size) && size == if settings.adaptive then dynamicBatchSize else settings.configured
    {
      size := if settings.adaptive then dynamicBatchSize else settings.configured;
    }

    method RegisterBatchRateLimit(currentBatchSize: nat)
      requires Valid()
      modifies this
      ensures Valid() && dynamicBatchSize == NextSize(settings, old(dynamicBatchSize), RateLimited(currentBatchSize))
      ensures dynamicBatchSize == if settings.adaptive then Min(old(dynamicBatchSize), Max(settings.minSize, currentBatchSize / 2))
                                  else old(dynamicBatchSize)
    {
      if settings.adaptive {
        var target := Max(settings.minSize, currentBatchSize / 2);
        if target < dynamicBatchSize {
          dynamicBatchSize := target;
        }
      }
    }

    method RegisterBatchSuccess()
      requires Valid()
      modifies this
      ensures Valid() && dynamicBatchSize == NextSize(settings, old(dynamicBatchSize), Succeeded)
    {
      if settings.adaptive && dynamicBatchSize < settings.configured {
        dynamicBatchSize := Min(settings.configured, dynamicBatchSize + settings.step);
      }
    }

    /** Events of this and other calls happen while this call waits. */
    method Register(events: seq<Event>)
      requires Valid()
      modifies this
      ensures Valid() && dynamicBatchSize == SizeAfter(settings, old(dynamicBatchSize), events)
    {
      for i := 0 to |events|
        invariant Valid() && dynamicBatchSize == SizeAfter(settings, old(dynamicBatchSize), events[..i])
      {
        assert events[..i+1][..i] == events[..i];
        match events[i] {
          case RateLimited(n) => RegisterBatchRateLimit(n);
          case Succeeded => RegisterBatchSuccess();
        }
      }
      assert events[..|events|] == events;
    }

    /** Lines the pieces of all texts up, remembering which text each came from. */
    method LineUp(parts: seq<seq<string>>) returns (pieces: seq<string>, owner: seq<nat>)
      ensures pieces == Flatten(parts) && Owners(parts, |parts|, owner)
    {
      pieces, owner := [], [];
      for i := 0 to |parts|
        invariant pieces == Flatten(parts[..i]) && Owners(parts[..i], i, owner)
      {
        FlattenSnoc(parts[..i], parts[i]);
        OwnersSnoc(parts[..i], owner, parts[i]);
        assert parts[..i+1] == parts[..i] + [parts[i]];
        pieces := pieces + parts[i];
        owner := owner + seq(|parts[i]|, _ => i);
      }
      assert parts[..|parts|] == parts;
    }

    /** zip: groups the vectors by the text their piece came from; what one list has too many of is dropped. */
    method GroupByText(owner: seq<nat>, vecs: seq<Vec>, ghost parts: seq<seq<string>>) returns (groups: map<nat, seq<Vec>>)
      requires Owners(parts, |parts|, owner)
      ensures Grouped(parts, vecs, groups, Min(|owner|, |vecs|))
    {
      groups := map[];
      for n := 0 to Min(|owner|, |vecs|)
        invariant Grouped(parts, vecs, groups, n)
      {
        OneVectorGrouped(parts, vecs, owner, groups, n);
        groups := groups[owner[n] := GroupAt(groups, owner[n]) + [vecs[n]]];
      }
    }

    method InTextOrder(byText: map<nat, seq<Vec>>, vecs: seq<Vec>, parts: seq<seq<string>>) returns (grouped: seq<seq<Vec>>)
      requires Grouped(parts, vecs, byText, Min(Offset(parts, |parts|), |vecs|))
      ensures |grouped| == |parts| && forall i :: 0 <= i < |parts| ==> grouped[i] == VecsOf(parts, vecs, i)
    {
      grouped := [];
      for i := 0 to |parts|
        invariant |grouped| == i && forall k :: 0 <= k < i ==> grouped[k] == VecsOf(parts, vecs, k)
      {
        grouped := grouped + [GroupAt(byText, i)];
      }
    }

    /** Pools the vectors of each text, unless those of one text have no mean. */
    method PoolAll(grouped: seq<seq<Vec>>) returns (result: Option<seq<Vec>>)
      ensures result.Some? ==> |result.value| == |grouped|
                               && forall i :: 0 <= i < |grouped| ==> Pool(grouped[i], dimensions) == Some(result.value[i])
      ensures result.None? ==> exists i :: 0 <= i < |grouped| && Pool(grouped[i], dimensions).None?
    {
      hide Pool;
      var final: seq<Vec> := [];
      for i := 0 to |grouped|
        invariant |final| == i && forall k :: 0 <= k < i ==> Pool(grouped[k], dimensions) == Some(final[k])
      {
        var pooled := Pool(grouped[i], dimensions);
        if pooled.None? {
          return None;
        }
        final := final + [pooled.value];
      }
      return Some(final);
    }

    /** One vector per text: the pooled vectors of its own pieces, unless the vectors of one text have no mean. */
    method Regroup(owner: seq<nat>, vecs: seq<Vec>, parts: seq<seq<string>>) returns (result: Option<seq<Vec>>)
      requires Owners(parts, |parts|, owner)
      ensures result.Some? ==>
                |result.value| == |parts|
                && forall i :: 0 <= i < |parts| ==>
                     && Pool(VecsOf(parts, vecs, i), dimensions) == Some(result.value[i])
                     && Represents(VecsOf(parts, vecs, i), dimensions, result.value[i])
      ensures result.None? ==> exists i :: 0 <= i < |parts| && Pool(VecsOf(parts, vecs, i), dimensions).None?
    {
      var byText := GroupByText(owner, vecs, parts);
      var grouped := InTextOrder(byText, vecs, parts);
      hide Pool, VecsOf, Represents, Owners, Grouped;
      result := PoolAll(grouped);
      if result.Some? {
        AllRepresent(parts, vecs, dimensions, result.value);
      } else {
        var i :| 0 <= i < |grouped| && Pool(grouped[i], dimensions).None?;
        assert Pool(VecsOf(parts, vecs, i), dimensions).None?;
      }
    }

    method NextBatch(pieces: seq<string>, i: nat) returns (batch: seq<string>)
      requires Valid() && i < |pieces|
      ensures 1 <= |batch| <= settings.configured && i + |batch| <= |pieces| && batch == pieces[i..i + |batch|]
      ensures |batch| == Min(if settings.adaptive then dynamicBatchSize else settings.configured, |pieces| - i)
    {
      var batchSize := GetCurrentBatchSize();
      batch := pieces[i..Min(i + batchSize, |pieces|)];
    }

    /** One request, with the events of this and other calls that happen around it. */
    method SendBatch(pieces: seq<string>, i: nat, events: seq<Event>) returns (batch: Batch)
      requires Valid() && i < |pieces|
      modifies this
      ensures Valid() && batch.start == i && 1 <= batch.size <= settings.configured && i + batch.size <= |pieces|
      ensures batch.size == Min(if settings.adaptive then old(dynamicBatchSize) else settings.configured, |pieces| - i)
      ensures dynamicBatchSize == SizeAfter(settings, old(dynamicBatchSize), events)
    {
      var input := NextBatch(pieces, i);
      Register(events);
      batch := Batch(i, |input|);
    }

    /**
     The batching loop.  The batches partition the pieces in order, whatever sizes the events of this
     and other calls dictate, and the vectors collected are those received for them.
     */
    method SendAll(pieces: seq<string>, replies: Replies, events: seq<seq<Event>>)
        returns (vecs: Option<seq<Vec>>, batches: seq<Batch>)
      requires Valid() && |events| >= |pieces|
      modifies this
      ensures Valid()
      ensures vecs.Some? ==> Partition(batches, |pieces|, settings.configured) && vecs.value == Received(replies, batches)
                             && forall b :: 0 <= b < |batches| ==> batches[b] in replies
      ensures vecs.None? ==> |batches| > 0 && batches[|batches|-1] !in replies
      ensures Paced(settings, old(dynamicBatchSize), events, batches, |pieces|)
      ensures vecs.Some? ==> dynamicBatchSize == SizeAfter(settings, old(dynamicBatchSize), History(events, batches))
    {
      hide Paced, SizeAfter, History;
      var all: seq<Vec> := [];
      batches := [];
      var i := 0;
      NothingPaced(settings, dynamicBatchSize, events, |pieces|);
      while i < |pieces|
        invariant 0 <= i <= |pieces| && Valid()
        invariant Paced(settings, old(dynamicBatchSize), events, batches, |pieces|)
        invariant dynamicBatchSize == SizeAfter(settings, old(dynamicBatchSize), History(events, batches))
        invariant Partition(batches, i, settings.configured) && all == Received(replies, batches)
        invariant forall b :: 0 <= b < |batches| ==> batches[b] in replies
      {
        var batch := SendBatch(pieces, i, events[i]);
        ghost var before := batches;
        PacedSnoc(settings, old(dynamicBatchSize), events, batches, |pieces|, batch);
        HistorySnoc(settings, old(dynamicBatchSize), events, batches, batch);
        batches := batches + [batch];
        assert batches[..|batches|-1] == before;
        if batch !in replies {
          return None, batches;
        }
        all := all + InOrder(replies[batch]);
        RegisterBatchSuccess();
        i := i + batch.size;
      }
      return Some(all), batches;
    }

    /**
     Theorem: the batches partition the pieces of all texts in order, and text i gets the pooled vectors
     of the places of its own pieces, for any texts, any schedule of batch sizes and any order of the rows
     in each reply; when the replies are complete, those are the vectors returned for its own pieces.  It
     raises only after a request failed for good, or when the vectors of one text differ in length.
     */
    method Embed(texts: seq<string>, wrap: string -> seq<string>, replies: Replies, events: seq<seq<Event>>)
        returns (result: Option<seq<Vec>>, batches: seq<Batch>)
      requires Valid() && |events| >= Offset(AllPieces(texts, wrap), |texts|)
      modifies this
      ensures Valid()
      ensures result.Some? ==>
                var parts, vecs := AllPieces(texts, wrap), Received(replies, batches);
                && Partition(batches, Offset(parts, |texts|), settings.configured) && |result.value| == |texts|
                && (forall i :: 0 <= i < |texts| ==>
                      && Pool(VecsOf(parts, vecs, i), dimensions) == Some(result.value[i])
                      && Represents(VecsOf(parts, vecs, i), dimensions, result.value[i]))
                && (Satisfied(replies, batches) ==> Delivered(replies, batches, vecs))
      ensures Paced(settings, old(dynamicBatchSize), events, batches, Offset(AllPieces(texts, wrap), |texts|))
      ensures result.Some? ==> dynamicBatchSize == SizeAfter(settings, old(dynamicBatchSize), History(events, batches))
      ensures result.None? ==>
                var parts, vecs := AllPieces(texts, wrap), Received(replies, batches);
                || (|batches| > 0 && batches[|batches|-1] !in replies)
                || exists i :: 0 <= i < |texts| && Pool(VecsOf(parts, vecs, i), dimensions).None?
    {
      var parts := AllPieces(texts, wrap);
      if texts == [] {
        return Some([]), [];
      }
      var pieces, owner := LineUp(parts);
      FlattenLength(parts, |parts|);
      assert parts[..|parts|] == parts;
      var sent;
      sent, batches := SendAll(pieces, replies, events);
      if sent.None? {
        return None, batches;
      }
      if Satisfied(replies, batches) {
        EachPieceGetsItsVector(replies, batches, |pieces|, settings.configured);
      }
      result := Regroup(owner, sent.value, parts);
    }
  }
}
