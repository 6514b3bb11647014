/** Small vocabulary shared by the other modules. */
module Basics {

  datatype Option<+T> = None | Some(value: T)

  /** The concatenation of a sequence of sequences. */
  function Flatten<T>(parts: seq<seq<T>>): seq<T> {
    if parts == [] then [] else parts[0] + Flatten(parts[1..])
  }

  lemma {:induction false} FlattenConcat<T>(a: seq<seq<T>>, b: seq<seq<T>>)
    ensures Flatten(a + b) == Flatten(a) + Flatten(b)
    decreases |a|
  {
    if a == [] {
      assert a + b == b;
    } else {
      FlattenConcat(a[1..], b);
      assert (a + b)[0] == a[0] && (a + b)[1..] == a[1..] + b;
    }
  }

  lemma FlattenSnoc<T>(parts: seq<seq<T>>, last: seq<T>)
    ensures Flatten(parts + [last]) == Flatten(parts) + last
  {
    FlattenConcat(parts, [last]);
    assert [last][1..] == [];
  }

  function Max(a: int, b: int): int { if a > b then a else b }

  function Min(a: int, b: int): int { if a < b then a else b }

  /** `c` in slices of n characters. */
  function Cut(c: string, n: nat): seq<string>
    requires n > 0
    decreases |c|
  {
    if c == [] then [] else [c[..Min(n, |c|)]] + Cut(c[Min(n, |c|)..], n)
  }

  lemma {:induction false} CutIsLossless(c: string, n: nat)
    requires n > 0
    ensures Flatten(Cut(c, n)) == c && forall p :: p in Cut(c, n) ==> 1 <= |p| <= n
    decreases |c|
  {
    if c != [] {
      var m := Min(n, |c|);
      CutIsLossless(c[m..], n);
      assert Cut(c, n)[1..] == Cut(c[m..], n);
      assert c == c[..m] + c[m..];
    }
  }

  /** All slices but the last have n characters. */
  lemma {:induction false} CutIsFull(c: string, n: nat, k: nat)
    requires n > 0 && k + 1 < |Cut(c, n)|
    ensures |Cut(c, n)[k]| == n
    decreases |c|
  {
    var m := Min(n, |c|);
    if k > 0 {
      CutIsFull(c[m..], n, k - 1);
    }
  }

  ghost predicate NoRepeats<T>(s: seq<T>) {
    forall i, j :: 0 <= i < j < |s| ==> s[i] != s[j]
  }

  /** A sequence without repeats has as many elements as the set of its elements. */
  lemma {:induction false} CountWithoutRepeats<T>(s: seq<T>, all: set<T>)
    requires NoRepeats(s) && forall x :: x in all <==> x in s
    ensures |s| == |all|
    decreases |s|
  {
    if s == [] {
      assert all == {};
    } else {
      var before, last := s[..|s|-1], s[|s|-1];
      assert s == before + [last];
      CountWithoutRepeats(before, all - {last});
    }
  }
}
