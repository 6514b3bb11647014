/**
 The embedding service's query cache (embeddings.py): an LRU with a time to live, in-request
 deduplication and scatter of results, in front of an embedding provider.

 Only query calls use the cache, so its key is the text.  Times are integers of a monotonic clock.
 Each critical section on the cache is one operation; other calls may run any operations while a
 call waits for its provider.
 */
module EmbeddingCache {
  import opened Basics

  type Vec = seq<real>

  datatype Entry = Entry(text: string, vec: Vec, expires: int)

  /** Least recently used first. */
  type Cache = seq<Entry>

  datatype Config = Config(maxSize: nat, ttl: int)

  ghost predicate Distinct(c: Cache) {
    forall i, j :: 0 <= i < j < |c| ==> c[i].text != c[j].text
  }

  function Find(c: Cache, text: string): Option<Entry> {
    if c == [] then None else if c[0].text == text then Some(c[0]) else Find(c[1..], text)
  }

  lemma {:induction false} FindFacts(c: Cache, text: string)
    ensures Find(c, text).None? <==> forall e :: e in c ==> e.text != text
    ensures Find(c, text).Some? ==> Find(c, text).value in c && Find(c, text).value.text == text
    decreases |c|
  {
    if c != [] {
      FindFacts(c[1..], text);
      assert c == [c[0]] + c[1..];
    }
  }

  function Without(c: Cache, text: string): Cache {
    if c == [] then []
    else if c[0].text == text then Without(c[1..], text)
    else [c[0]] + Without(c[1..], text)
  }

  lemma {:induction false} WithoutFacts(c: Cache, text: string)
    ensures forall e :: e in Without(c, text) <==> e in c && e.text != text
    ensures |Without(c, text)| <= |c| && ((exists e :: e in c && e.text == text) ==> |Without(c, text)| < |c|)
    decreases |c|
  {
    if c != [] {
      WithoutFacts(c[1..], text);
      assert c == [c[0]] + c[1..];
    }
  }

  lemma {:induction false} WithoutDistinct(c: Cache, text: string)
    requires Distinct(c)
    ensures Distinct(Without(c, text))
    decreases |c|
  {
    if c != [] {
      WithoutDistinct(c[1..], text);
      WithoutFacts(c[1..], text);
      assert forall e :: e in c[1..] ==> e.text != c[0].text;
    }
  }

  /** Entries are dropped from the least recently used end until at most `max` are left. */
  function Trimmed(c: Cache, max: nat): Cache {
    if |c| > max then c[|c| - max..] else c
  }

  /** The entry at the head is the first to go. */
  lemma TrimmedFromHead(c: Cache, max: nat)
    requires |c| > max
    ensures Trimmed(c, max) == Trimmed(c[1..], max)
  {
    assert c[1..][|c| - 1 - max..] == c[|c| - max..];
  }

  lemma NothingTrimmed(c: Cache, max: nat)
    requires |c| <= max
    ensures Trimmed(c, max) == c
  {
  }

  // ---------------------------------------------------------------- the two critical sections

  /** One text of a query call: a live entry is returned and moved to the end, an expired one dropped. */
  function LookedUpOne(c: Cache, text: string, now: int): (Cache, Option<Vec>) {
    match Find(c, text)
    case None => (c, None)
    case Some(e) => if e.expires > now then (Without(c, text) + [e], Some(e.vec)) else (Without(c, text), None)
  }

  function LookedUp(c: Cache, texts: seq<string>, now: int): (r: (Cache, seq<Option<Vec>>))
    ensures |r.1| == |texts|
    decreases |texts|
  {
    if texts == [] then (c, [])
    else
      var one := LookedUpOne(c, texts[0], now);
      var rest := LookedUp(one.0, texts[1..], now);
      (rest.0, [one.1] + rest.1)
  }

  lemma LookedUpSingle(c: Cache, text: string, now: int)
    ensures LookedUp(c, [text], now) == (LookedUpOne(c, text, now).0, [LookedUpOne(c, text, now).1])
  {
    var one := LookedUpOne(c, text, now);
    assert [text][1..] == [];
    assert LookedUp(one.0, [], now) == (one.0, []);
    assert [one.1] + [] == [one.1];
  }

  lemma {:induction false} LookedUpSnoc(c: Cache, texts: seq<string>, text: string, now: int)
    ensures var most := LookedUp(c, texts, now); var one := LookedUpOne(most.0, text, now);
            LookedUp(c, texts + [text], now) == (one.0, most.1 + [one.1])
    decreases |texts|
  {
    if texts == [] {
      LookedUpSingle(c, text, now);
      var one := LookedUpOne(c, text, now);
      assert texts + [text] == [text] && LookedUp(c, [], now).1 + [one.1] == [one.1];
    } else {
      var first := LookedUpOne(c, texts[0], now);
      LookedUpSnoc(first.0, texts[1..], text, now);
      assert (texts + [text])[0] == texts[0] && (texts + [text])[1..] == texts[1..] + [text];
      var rest := LookedUp(first.0, texts[1..], now);
      var one := LookedUpOne(rest.0, text, now);
      assert [first.1] + (rest.1 + [one.1]) == ([first.1] + rest.1) + [one.1];
    }
  }

  function Stored(cf: Config, c: Cache, text: string, vec: Vec, now: int): Cache {
    Trimmed(Without(c, text) + [Entry(text, vec, now + cf.ttl)], cf.maxSize)
  }

  datatype Op = Look(texts: seq<string>, now: int) | Put(text: string, vec: Vec, now: int)

  function Performed(cf: Config, c: Cache, op: Op): Cache {
    match op
    case Look(texts, now) => LookedUp(c, texts, now).0
    case Put(text, vec, now) => Stored(cf, c, text, vec, now)
  }

  function Run(cf: Config, c: Cache, ops: seq<Op>): Cache
    decreases |ops|
  {
    if ops == [] then c else Performed(cf, Run(cf, c, ops[..|ops|-1]), ops[|ops|-1])
  }

  lemma RunOfNothing(cf: Config, c: Cache)
    ensures Run(cf, c, []) == c
  {
  }

  lemma RunSnoc(cf: Config, c: Cache, ops: seq<Op>, op: Op)
    ensures Run(cf, c, ops + [op]) == Performed(cf, Run(cf, c, ops), op)
  {
    assert (ops + [op])[..|ops|] == ops;
  }

  lemma {:induction false} RunConcat(cf: Config, c: Cache, a: seq<Op>, b: seq<Op>)
    ensures Run(cf, c, a + b) == Run(cf, Run(cf, c, a), b)
    decreases |b|
  {
    if b == [] {
      assert a + b == a;
    } else {
      var rest, last := b[..|b|-1], b[|b|-1];
      RunConcat(cf, c, a, rest);
      assert (a + b)[..|a + b|-1] == a + rest && (a + b)[|a + b|-1] == last;
      assert Run(cf, c, a + b) == Performed(cf, Run(cf, c, a + rest), last);
    }
  }

  // ---------------------------------------------------------------- what every run keeps

  /** Every cached vector is what the provider would answer. */
  ghost predicate Coherent(c: Cache, embed: string -> Vec) {
    forall e :: e in c ==> e.vec == embed(e.text)
  }

  ghost predicate Faithful(ops: seq<Op>, embed: string -> Vec) {
    forall op :: op in ops && op.Put? ==> op.vec == embed(op.text)
  }

  ghost predicate WellKept(cf: Config, c: Cache) { |c| <= cf.maxSize && Distinct(c) }

  lemma {:induction false} LookUpKeeps(cf: Config, c: Cache, texts: seq<string>, now: int)
    requires WellKept(cf, c)
    ensures var r := LookedUp(c, texts, now);
            && WellKept(cf, r.0) && (forall e :: e in r.0 ==> e in c)
            && (forall i :: 0 <= i < |texts| && r.1[i].Some? ==>
                  exists e :: e in c && e.text == texts[i] && e.vec == r.1[i].value && e.expires > now)
    decreases |texts|
  {
    if texts != [] {
      FindFacts(c, texts[0]);
      WithoutFacts(c, texts[0]);
      WithoutDistinct(c, texts[0]);
      var one := LookedUpOne(c, texts[0], now);
      LookUpKeeps(cf, one.0, texts[1..], now);
    }
  }

  lemma OneEntryEach(c: Cache, e: Entry, f: Entry)
    requires Distinct(c) && e in c && f in c && e.text == f.text
    ensures e == f
  {
    var i :| 0 <= i < |c| && c[i] == e;
    var j :| 0 <= j < |c| && c[j] == f;
    assert i == j;
  }

  lemma LookUpOneIsExact(c: Cache, text: string, now: int)
    requires Distinct(c)
    ensures var r := LookedUpOne(c, text, now);
            && (forall e :: e in r.0 <==> e in c && (e.text == text ==> e.expires > now))
            && (forall e :: e in c && e.text == text ==> r.1 == if e.expires > now then Some(e.vec) else None)
            && ((forall e :: e in c ==> e.text != text) ==> r.1.None?)
  {
    FindFacts(c, text);
    WithoutFacts(c, text);
    forall e | e in c && e.text == text ensures Find(c, text) == Some(e) {
      OneEntryEach(c, e, Find(c, text).value);
    }
  }

  /** The cache has this vector for the text, and it has not expired. */
  ghost predicate Live(c: Cache, text: string, vec: Vec, now: int) {
    exists e :: e in c && e.text == text && e.vec == vec && e.expires > now
  }

  lemma LiveAfterOne(c: Cache, text: string, now: int)
    requires Distinct(c)
    ensures forall t, v :: Live(LookedUpOne(c, text, now).0, t, v, now) <==> Live(c, t, v, now)
    ensures forall v :: LookedUpOne(c, text, now).1 == Some(v) <==> Live(c, text, v, now)
  {
    LookUpOneIsExact(c, text, now);
    hide LookedUpOne;
  }

  /** What is left of the cache: all but the expired entries of the texts looked up. */
  lemma {:induction false} LookUpRemovesExpired(cf: Config, c: Cache, texts: seq<string>, now: int)
    requires WellKept(cf, c)
    ensures forall e :: e in LookedUp(c, texts, now).0 <==> e in c && (e.text in texts ==> e.expires > now)
    decreases |texts|
  {
    if texts != [] {
      LookUpOneIsExact(c, texts[0], now);
      OneLookUpKeeps(cf, c, texts[0], now);
      LookUpRemovesExpired(cf, LookedUpOne(c, texts[0], now).0, texts[1..], now);
      hide LookedUpOne, WellKept;
      assert texts == [texts[0]] + texts[1..];
    }
  }

  /**
   A lookup hits at exactly the texts with a live entry and returns its vector; what it removes from the cache
   are exactly the expired entries of the texts looked up.
   */
  lemma {:induction false} LookUpIsExact(cf: Config, c: Cache, texts: seq<string>, now: int)
    requires WellKept(cf, c)
    ensures var r := LookedUp(c, texts, now);
            && (forall e :: e in r.0 <==> e in c && (e.text in texts ==> e.expires > now))
            && (forall i, v :: 0 <= i < |texts| ==> (r.1[i] == Some(v) <==> Live(c, texts[i], v, now)))
    decreases |texts|
  {
    LookUpRemovesExpired(cf, c, texts, now);
    if texts != [] {
      var one, rest := LookedUpOne(c, texts[0], now), texts[1..];
      var r, more := LookedUp(c, texts, now), LookedUp(one.0, rest, now);
      assert r == (more.0, [one.1] + more.1);
      LiveAfterOne(c, texts[0], now);
      OneLookUpKeeps(cf, c, texts[0], now);
      LookUpIsExact(cf, one.0, rest, now);
      hide LookedUpOne, LookedUp, WellKept, Live;
      forall i, v | 0 <= i < |texts| ensures r.1[i] == Some(v) <==> Live(c, texts[i], v, now) {
        if i > 0 {
          assert r.1[i] == more.1[i-1] && texts[i] == rest[i-1];
        }
      }
    }
  }

  lemma OneLookUpKeeps(cf: Config, c: Cache, text: string, now: int)
    requires WellKept(cf, c)
    ensures WellKept(cf, LookedUpOne(c, text, now).0)
  {
    LookUpKeeps(cf, c, [text], now);
    LookedUpSingle(c, text, now);
  }

  lemma StoreKeeps(cf: Config, c: Cache, text: string, vec: Vec, now: int)
    requires WellKept(cf, c)
    ensures var r := Stored(cf, c, text, vec, now);
            WellKept(cf, r) && forall e :: e in r ==> e in c || e == Entry(text, vec, now + cf.ttl)
  {
    WithoutFacts(c, text);
    WithoutDistinct(c, text);
  }

  lemma {:induction false} RunKeeps(cf: Config, c: Cache, ops: seq<Op>)
    requires WellKept(cf, c)
    ensures WellKept(cf, Run(cf, c, ops))
    decreases |ops|
  {
    if ops != [] {
      var before := ops[..|ops|-1];
      RunKeeps(cf, c, before);
      var last := ops[|ops|-1];
      if last.Look? {
        LookUpKeeps(cf, Run(cf, c, before), last.texts, last.now);
      } else {
        StoreKeeps(cf, Run(cf, c, before), last.text, last.vec, last.now);
      }
    }
  }

  /** Where each entry of a cache that started empty comes from: a put of this run, exactly ttl before it expires. */
  ghost predicate Traced(cf: Config, c: Cache, ops: seq<Op>) {
    forall e :: e in c ==> Put(e.text, e.vec, e.expires - cf.ttl) in ops
  }

  lemma {:induction false} RunIsTraced(cf: Config, ops: seq<Op>)
    ensures WellKept(cf, Run(cf, [], ops)) && Traced(cf, Run(cf, [], ops), ops)
    decreases |ops|
  {
    RunKeeps(cf, [], ops);
    if ops != [] {
      var before, last := ops[..|ops|-1], ops[|ops|-1];
      RunIsTraced(cf, before);
      if last.Look? {
        LookUpKeeps(cf, Run(cf, [], before), last.texts, last.now);
      } else {
        StoreKeeps(cf, Run(cf, [], before), last.text, last.vec, last.now);
      }
      assert forall op :: op in before ==> op in ops;
      assert last in ops;
    }
  }

  /**
   Theorem: after any run of operations of any calls, a hit returns a vector that some call stored
   for that text less than the time to live ago; serving it in between does not extend its life.
   */
  lemma HitsAreFresh(cf: Config, ops: seq<Op>, texts: seq<string>, now: int, i: nat)
    requires i < |texts| && LookedUp(Run(cf, [], ops), texts, now).1[i].Some?
    ensures exists at :: Put(texts[i], LookedUp(Run(cf, [], ops), texts, now).1[i].value, at) in ops && now < at + cf.ttl
  {
    RunIsTraced(cf, ops);
    var c := Run(cf, [], ops);
    LookUpKeeps(cf, c, texts, now);
    var e :| e in c && e.text == texts[i] && e.vec == LookedUp(c, texts, now).1[i].value && e.expires > now;
    assert Put(e.text, e.vec, e.expires - cf.ttl) in ops;
  }

  lemma {:induction false} RunKeepsCoherent(cf: Config, c: Cache, ops: seq<Op>, embed: string -> Vec)
    requires WellKept(cf, c) && Coherent(c, embed) && Faithful(ops, embed)
    ensures Coherent(Run(cf, c, ops), embed)
    decreases |ops|
  {
    if ops != [] {
      var before, last := ops[..|ops|-1], ops[|ops|-1];
      assert forall op :: op in before ==> op in ops;
      RunKeepsCoherent(cf, c, before, embed);
      RunKeeps(cf, c, before);
      assert last in ops;
      if last.Look? {
        LookUpKeeps(cf, Run(cf, c, before), last.texts, last.now);
      } else {
        StoreKeeps(cf, Run(cf, c, before), last.text, last.vec, last.now);
      }
    }
  }

  // ---------------------------------------------------------------- least recently used

  function Texts(c: Cache): (r: seq<string>)
    ensures |r| == |c| && forall i :: 0 <= i < |c| ==> r[i] == c[i].text
  {
    seq(|c|, i requires 0 <= i < |c| => c[i].text)
  }

  function Removed(l: seq<string>, t: string): seq<string> {
    if l == [] then [] else (if l[0] == t then [] else [l[0]]) + Removed(l[1..], t)
  }

  lemma {:induction false} RemovedFacts(l: seq<string>, t: string)
    ensures forall u :: u in Removed(l, t) <==> u in l && u != t
    decreases |l|
  {
    if l != [] {
      RemovedFacts(l[1..], t);
      assert l == [l[0]] + l[1..];
    }
  }

  function Suffix(l: seq<string>, n: nat): seq<string> { if |l| > n then l[|l| - n..] else l }

  /** The distinct texts asked so far, in the order of their last question. */
  function Recency(asked: seq<string>): seq<string> {
    if asked == [] then []
    else Removed(Recency(asked[..|asked|-1]), asked[|asked|-1]) + [asked[|asked|-1]]
  }

  /** Position of the last question for `t`. */
  function LastAsk(asked: seq<string>, t: string): (r: int)
    ensures r == -1 <==> t !in asked
    ensures r != -1 ==> 0 <= r < |asked| && asked[r] == t && t !in asked[r+1..]
  {
    if asked == [] then -1
    else if asked[|asked|-1] == t then |asked| - 1
    else
      var r := LastAsk(asked[..|asked|-1], t);
      assert asked == asked[..|asked|-1] + [asked[|asked|-1]];
      assert r != -1 ==> asked[r+1..] == asked[..|asked|-1][r+1..] + [asked[|asked|-1]];
      r
  }

  lemma {:induction false} RemovedKeepsOrder(l: seq<string>, t: string, i: nat, j: nat)
    requires i < j < |Removed(l, t)|
    ensures exists x, y :: 0 <= x < y < |l| && l[x] == Removed(l, t)[i] && l[y] == Removed(l, t)[j]
    decreases |l|
  {
    var r := Removed(l[1..], t);
    RemovedFacts(l[1..], t);
    if l[0] == t {
      RemovedKeepsOrder(l[1..], t, i, j);
      var x, y :| 0 <= x < y < |l[1..]| && l[1..][x] == r[i] && l[1..][y] == r[j];
      assert l[x+1] == r[i] && l[y+1] == r[j];
    } else if i == 0 {
      assert r[j-1] in r;
      var y :| 0 <= y < |l[1..]| && l[1..][y] == r[j-1];
      assert l[0] == Removed(l, t)[0] && l[y+1] == Removed(l, t)[j];
    } else {
      RemovedKeepsOrder(l[1..], t, i - 1, j - 1);
      var x, y :| 0 <= x < y < |l[1..]| && l[1..][x] == r[i-1] && l[1..][y] == r[j-1];
      assert l[x+1] == r[i-1] && l[y+1] == r[j-1];
    }
  }

  /** Recency lists exactly the texts asked, ordered by their last question. */
  lemma {:induction false} RecencyIsByLastAsk(asked: seq<string>)
    ensures forall t :: t in Recency(asked) <==> t in asked
    ensures forall i, j :: 0 <= i < j < |Recency(asked)| ==> LastAsk(asked, Recency(asked)[i]) < LastAsk(asked, Recency(asked)[j])
    decreases |asked|
  {
    if asked != [] {
      var before, t := asked[..|asked|-1], asked[|asked|-1];
      RecencyIsByLastAsk(before);
      RemovedFacts(Recency(before), t);
      var old', new' := Recency(before), Recency(asked);
      assert asked == before + [t];
      forall i, j | 0 <= i < j < |new'| ensures LastAsk(asked, new'[i]) < LastAsk(asked, new'[j]) {
        if j == |new'| - 1 {
          assert new'[j] == t;
          assert Removed(old', t)[i] in Removed(old', t);
        } else {
          RemovedKeepsOrder(old', t, i, j);
          assert Removed(old', t)[i] in Removed(old', t) && Removed(old', t)[j] in Removed(old', t);
        }
      }
    }
  }

  lemma {:induction false} TextsWithout(c: Cache, t: string)
    ensures Texts(Without(c, t)) == Removed(Texts(c), t)
    decreases |c|
  {
    if c != [] {
      TextsWithout(c[1..], t);
      assert Texts(c)[1..] == Texts(c[1..]);
    }
  }

  lemma {:induction false} RemovedConcat(a: seq<string>, b: seq<string>, t: string)
    ensures Removed(a + b, t) == Removed(a, t) + Removed(b, t)
    decreases |a|
  {
    if a == [] {
      assert a + b == b;
    } else {
      RemovedConcat(a[1..], b, t);
      assert (a + b)[0] == a[0] && (a + b)[1..] == a[1..] + b;
      assert Removed(a + b, t) == (if a[0] == t then [] else [a[0]]) + (Removed(a[1..], t) + Removed(b, t));
    }
  }

  lemma {:induction false} RemovedAbsent(l: seq<string>, t: string)
    requires t !in l
    ensures Removed(l, t) == l
    decreases |l|
  {
    if l != [] {
      RemovedAbsent(l[1..], t);
    }
  }

  lemma {:induction false} RemovedOnce(l: seq<string>, t: string)
    requires t in l && NoRepeats(l)
    ensures |Removed(l, t)| == |l| - 1
    decreases |l|
  {
    if l[0] == t {
      assert t !in l[1..];
      RemovedAbsent(l[1..], t);
    } else {
      RemovedOnce(l[1..], t);
    }
  }

  lemma SuffixOfConcat(a: seq<string>, b: seq<string>, n: nat)
    requires |b| >= n
    ensures Suffix(a + b, n) == Suffix(b, n)
  {
    assert (a + b)[|a| + |b| - n..] == b[|b| - n..];
  }

  /** Moving a text to the end commutes with forgetting all but the last n texts. */
  lemma MoveToEndInSuffix(l: seq<string>, t: string, n: nat)
    requires n > 0 && NoRepeats(l)
    ensures Suffix(Removed(Suffix(l, n), t) + [t], n) == Suffix(Removed(l, t) + [t], n)
  {
    if |l| > n {
      var a, s := l[..|l| - n], l[|l| - n..];
      RemovedConcat(a, s, t);
      assert l == a + s;
      assert |Removed(s, t) + [t]| >= n by {
        if t in s { RemovedOnce(s, t); } else { RemovedAbsent(s, t); }
      }
      SuffixOfConcat(Removed(a, t), Removed(s, t) + [t], n);
      assert Removed(l, t) + [t] == Removed(a, t) + (Removed(s, t) + [t]);
    }
  }

  /** A successful query call for one text that nothing interrupts. */
  datatype Question = Question(text: string, answer: Vec, asked: int, stored: int)

  function Answered(cf: Config, c: Cache, q: Question): Cache {
    var looked := LookedUp(c, [q.text], q.asked);
    if looked.1[0].Some? then looked.0 else Stored(cf, looked.0, q.text, q.answer, q.stored)
  }

  function AfterQuestions(cf: Config, qs: seq<Question>): Cache {
    if qs == [] then [] else Answered(cf, AfterQuestions(cf, qs[..|qs|-1]), qs[|qs|-1])
  }

  function Asked(qs: seq<Question>): seq<string> {
    seq(|qs|, i requires 0 <= i < |qs| => qs[i].text)
  }

  lemma TextsSnoc(c: Cache, e: Entry)
    ensures Texts(c + [e]) == Texts(c) + [e.text]
  {
  }

  lemma TextsTrimmed(c: Cache, n: nat)
    ensures Texts(Trimmed(c, n)) == Suffix(Texts(c), n)
  {
  }

  lemma StoredMovesToEnd(cf: Config, c: Cache, text: string, vec: Vec, now: int)
    ensures Texts(Stored(cf, c, text, vec, now)) == Suffix(Removed(Texts(c), text) + [text], cf.maxSize)
  {
    hide Texts, Suffix, Removed, Without, Trimmed;
    var put := Without(c, text) + [Entry(text, vec, now + cf.ttl)];
    assert Texts(put) == Removed(Texts(c), text) + [text] by {
      TextsWithout(c, text);
      TextsSnoc(Without(c, text), Entry(text, vec, now + cf.ttl));
    }
    TextsTrimmed(put, cf.maxSize);
  }

  lemma AnsweredMovesToEnd(cf: Config, c: Cache, q: Question)
    requires cf.maxSize > 0 && WellKept(cf, c)
    ensures Texts(Answered(cf, c, q)) == Suffix(Removed(Texts(c), q.text) + [q.text], cf.maxSize)
  {
    LookedUpSingle(c, q.text, q.asked);
    TextsWithout(c, q.text);
    RemovedFacts(Texts(c), q.text);
    FindFacts(c, q.text);
    WithoutFacts(c, q.text);
    match Find(c, q.text) {
      case None =>
        StoredMovesToEnd(cf, c, q.text, q.answer, q.stored);
      case Some(e) =>
        if e.expires > q.asked {
          TextsSnoc(Without(c, q.text), e);
        } else {
          StoredMovesToEnd(cf, Without(c, q.text), q.text, q.answer, q.stored);
          RemovedAbsent(Removed(Texts(c), q.text), q.text);
        }
    }
  }

  lemma AnsweredKeeps(cf: Config, c: Cache, q: Question)
    requires WellKept(cf, c)
    ensures WellKept(cf, Answered(cf, c, q))
  {
    LookUpKeeps(cf, c, [q.text], q.asked);
    StoreKeeps(cf, LookedUp(c, [q.text], q.asked).0, q.text, q.answer, q.stored);
  }

  lemma RecencySnoc(asked: seq<string>, t: string)
    ensures Recency(asked + [t]) == Removed(Recency(asked), t) + [t]
  {
    assert (asked + [t])[..|asked|] == asked;
  }

  lemma AskedSnoc(qs: seq<Question>, q: Question)
    ensures Asked(qs + [q]) == Asked(qs) + [q.text]
  {
  }

  lemma RecencyHasNoRepeats(asked: seq<string>)
    ensures NoRepeats(Recency(asked))
  {
    RecencyIsByLastAsk(asked);
  }

  /**
   Theorem: after any sequence of single-text query calls, hits, misses and expiries alike, the
   cached texts in order are exactly the last maxSize distinct texts asked, by most recent use.
   */
  lemma {:induction false} CacheIsRecentTexts(cf: Config, qs: seq<Question>)
    requires cf.maxSize > 0
    ensures WellKept(cf, AfterQuestions(cf, qs))
    ensures Texts(AfterQuestions(cf, qs)) == Suffix(Recency(Asked(qs)), cf.maxSize)
    decreases |qs|
  {
    if qs == [] {
      assert Asked(qs) == [] && Texts([]) == [];
    } else {
      var before, q := qs[..|qs|-1], qs[|qs|-1];
      CacheIsRecentTexts(cf, before);
      AnsweredKeeps(cf, AfterQuestions(cf, before), q);
      AnsweredMovesToEnd(cf, AfterQuestions(cf, before), q);
      RecencyHasNoRepeats(Asked(before));
      MoveToEndInSuffix(Recency(Asked(before)), q.text, cf.maxSize);
      AskedSnoc(before, q);
      assert qs == before + [q];
      RecencySnoc(Asked(before), q.text);
    }
  }

  /** Every entry was stored by a question for its text, with its answer, a time to live before it expires. */
  lemma {:induction false} EntriesAreAnswers(cf: Config, qs: seq<Question>)
    ensures WellKept(cf, AfterQuestions(cf, qs))
    ensures forall e :: e in AfterQuestions(cf, qs) ==>
              exists q :: q in qs && q.text == e.text && q.answer == e.vec && e.expires == q.stored + cf.ttl
    decreases |qs|
  {
    if qs != [] {
      var before, q := qs[..|qs|-1], qs[|qs|-1];
      EntriesAreAnswers(cf, before);
      var c := AfterQuestions(cf, before);
      AnsweredKeeps(cf, c, q);
      LookUpKeeps(cf, c, [q.text], q.asked);
      StoreKeeps(cf, LookedUp(c, [q.text], q.asked).0, q.text, q.answer, q.stored);
      assert qs == before + [q];
    }
  }

  /**
   Theorem: a text among the last maxSize distinct ones asked, none of whose answers is as old as the time to
   live, is served from the cache, with one of these answers.
   */
  lemma RecentTextsAreServed(cf: Config, qs: seq<Question>, t: string, now: int)
    requires cf.maxSize > 0 && t in Suffix(Recency(Asked(qs)), cf.maxSize)
    requires forall q :: q in qs && q.text == t ==> now < q.stored + cf.ttl
    ensures exists q :: q in qs && q.text == t && LookedUp(AfterQuestions(cf, qs), [t], now).1[0] == Some(q.answer)
  {
    var c := AfterQuestions(cf, qs);
    CacheIsRecentTexts(cf, qs);
    EntriesAreAnswers(cf, qs);
    LookUpIsExact(cf, c, [t], now);
    hide AfterQuestions, LookedUp, Suffix, Recency;
    var i :| 0 <= i < |Texts(c)| && Texts(c)[i] == t;
    assert c[i] in c;
  }

  // ---------------------------------------------------------------- the service

  /** What a provider answers to a batch: vectors, or an error (technical ones may fall back). */
  datatype Reply = Vectors(vecs: seq<Vec>) | Error(technical: bool)

  /** The provider answers every batch it does not fail with one vector per text, text by text. */
  ghost predicate Pointwise(provider: seq<string> -> Reply, embed: string -> Vec) {
    forall texts :: provider(texts).Vectors? ==>
      && |provider(texts).vecs| == |texts|
      && forall i :: 0 <= i < |texts| ==> provider(texts).vecs[i] == embed(texts[i])
  }

  /** All of `positions` come before `n`, hold text `t` and were not found in the cache. */
  ghost predicate AllWaitFor(texts: seq<string>, found: seq<Option<Vec>>, n: nat, t: string, positions: seq<nat>) {
    n <= |texts| == |found|
    && forall m :: 0 <= m < |positions| ==> positions[m] < n && texts[positions[m]] == t && found[positions[m]].None?
  }

  /** The texts still missing, each once, and the positions that wait for each of them. */
  ghost predicate Grouped(texts: seq<string>, found: seq<Option<Vec>>, unique: seq<string>, waiting: map<string, seq<nat>>) {
    && |found| == |texts|
    && (forall t :: t in waiting <==> t in unique)
    && (forall t :: t in waiting ==> AllWaitFor(texts, found, |texts|, t, waiting[t]))
    && (forall i :: 0 <= i < |texts| && found[i].None? ==> texts[i] in waiting && i in waiting[texts[i]])
  }

  /** The texts not found among the first n, each once, in the order of their first occurrence. */
  function Missing(texts: seq<string>, found: seq<Option<Vec>>, n: nat): seq<string>
    requires n <= |texts| == |found|
  {
    if n == 0 then []
    else
      var before := Missing(texts, found, n - 1);
      if found[n-1].None? && texts[n-1] !in before then before + [texts[n-1]] else before
  }

  lemma {:induction false} MissingFacts(texts: seq<string>, found: seq<Option<Vec>>, n: nat)
    requires n <= |texts| == |found|
    ensures NoRepeats(Missing(texts, found, n))
    ensures forall t :: t in Missing(texts, found, n) <==> exists i :: 0 <= i < n && texts[i] == t && found[i].None?
  {
    if n > 0 {
      MissingFacts(texts, found, n - 1);
    }
  }

  /** What a call finds before it asks a provider: only query calls look into the cache. */
  function FoundBy(c: Cache, texts: seq<string>, isQuery: bool, now: int): (found: seq<Option<Vec>>)
    ensures |found| == |texts|
  {
    if isQuery then LookedUp(c, texts, now).1 else seq(|texts|, _ => None)
  }

  /** The texts a call asks a provider for. */
  function AskedFor(c: Cache, texts: seq<string>, isQuery: bool, now: int): seq<string> {
    Missing(texts, FoundBy(c, texts, isQuery, now), |texts|)
  }

  lemma NothingAsked(c: Cache, isQuery: bool, now: int)
    ensures AskedFor(c, [], isQuery, now) == []
  {
  }

  /** A call that finds nothing asks for something. */
  lemma NonQueryAsks(texts: seq<string>, found: seq<Option<Vec>>)
    requires |texts| == |found|
    ensures texts != [] && found[0].None? ==> Missing(texts, found, |texts|) != []
    ensures Missing(texts, found, |texts|) == [] ==> forall i :: 0 <= i < |texts| ==> found[i].Some?
  {
    hide Missing;
    MissingFacts(texts, found, |texts|);
    forall i | 0 <= i < |texts| && found[i].None? ensures texts[i] in Missing(texts, found, |texts|) {
      assert texts[i] == texts[i];
    }
  }

  /** Whether the fallback provider is asked as well: after a technical error, and not for queries. */
  predicate FallsBack(reply: Reply, isQuery: bool, fallback: Option<seq<string> -> Reply>) {
    reply.Error? && reply.technical && !isQuery && fallback.Some?
  }

  /** The reply a call goes on with. */
  function ReplyTo(batch: seq<string>, isQuery: bool, provider: seq<string> -> Reply, fallback: Option<seq<string> -> Reply>): Reply {
    if FallsBack(provider(batch), isQuery, fallback) then fallback.value(batch) else provider(batch)
  }

  /** Position i holds its cached vector, or the vector of its text if one has arrived. */
  ghost predicate Scattered(texts: seq<string>, found: seq<Option<Vec>>, unique: seq<string>, vecs: seq<Vec>, n: nat, final: seq<Option<Vec>>) {
    && |final| == |found| == |texts| && n <= |unique| && n <= |vecs|
    && (forall i :: 0 <= i < |texts| && found[i].Some? ==> final[i] == found[i])
    && (forall i, k :: 0 <= i < |texts| && found[i].None? && 0 <= k < n && texts[i] == unique[k] ==> final[i] == Some(vecs[k]))
  }

  /** What a provider without any cache would return for `texts`. */
  ghost predicate PlainAnswer(texts: seq<string>, embed: string -> Vec, result: seq<Option<Vec>>) {
    |result| == |texts| && forall i :: 0 <= i < |texts| ==> result[i] == Some(embed(texts[i]))
  }

  lemma AllFound(texts: seq<string>, found: seq<Option<Vec>>, embed: string -> Vec)
    requires |texts| == |found| && forall i :: 0 <= i < |texts| ==> found[i].Some?
    requires forall i :: 0 <= i < |texts| && found[i].Some? ==> found[i] == Some(embed(texts[i]))
    ensures PlainAnswer(texts, embed, found)
  {
  }

  ghost predicate ByOthers(others: seq<seq<Op>>, op: Op) { exists k :: 0 <= k < |others| && op in others[k] }

  /** A call's own operations are `own`, in this order, at the places `at`; all the others are somebody else's. */
  ghost predicate OwnAt(trace: seq<Op>, at: seq<nat>, own: seq<Op>, others: seq<seq<Op>>) {
    && Placed(trace, at, own)
    && (forall j, k :: 0 <= j < k < |at| ==> at[j] < at[k])
    && (forall p :: 0 <= p < |trace| && p !in at ==> ByOthers(others, trace[p]))
  }

  ghost predicate Placed(trace: seq<Op>, at: seq<nat>, own: seq<Op>) {
    |at| == |own| && forall k :: 0 <= k < |at| ==> at[k] < |trace| && trace[at[k]] == own[k]
  }

  lemma NothingOwn(others: seq<seq<Op>>)
    ensures OwnAt([], [], [], others)
  {
  }

  lemma NothingScattered(texts: seq<string>, found: seq<Option<Vec>>, unique: seq<string>, vecs: seq<Vec>, waiting: map<string, seq<nat>>)
    requires Grouped(texts, found, unique, waiting)
    ensures Scattered(texts, found, unique, vecs, 0, found)
  {
  }

  lemma OwnThenOthers(trace: seq<Op>, at: seq<nat>, own: seq<Op>, others: seq<seq<Op>>, k: nat)
    requires OwnAt(trace, at, own, others) && k < |others|
    ensures OwnAt(trace + others[k], at, own, others)
  {
    forall p | |trace| <= p < |trace + others[k]| ensures ByOthers(others, (trace + others[k])[p]) {
      assert (trace + others[k])[p] == others[k][p - |trace|];
    }
  }

  lemma OwnSnoc(trace: seq<Op>, at: seq<nat>, own: seq<Op>, others: seq<seq<Op>>, op: Op)
    requires OwnAt(trace, at, own, others)
    ensures OwnAt(trace + [op], at + [|trace|], own + [op], others)
  {
    forall p | 0 <= p < |trace + [op]| && p !in at + [|trace|] ensures ByOthers(others, (trace + [op])[p]) {
      assert (at + [|trace|])[|at|] == |trace|;
      assert forall q :: q in at ==> q in at + [|trace|];
    }
  }

  function Shifted(at: seq<nat>, offset: nat): (r: seq<nat>)
    ensures |r| == |at| && forall k :: 0 <= k < |at| ==> r[k] == at[k] + offset
  {
    seq(|at|, k requires 0 <= k < |at| => at[k] + offset)
  }

  lemma OutsideShifted(at: seq<nat>, at': seq<nat>, offset: nat, p: nat)
    requires p !in at + Shifted(at', offset)
    ensures p !in at && (p >= offset ==> p - offset !in at')
  {
    forall k | 0 <= k < |at'| ensures at'[k] + offset != p {
      assert Shifted(at', offset)[k] in Shifted(at', offset);
    }
  }

  lemma PlacedInside(trace: seq<Op>, at: seq<nat>, own: seq<Op>)
    requires Placed(trace, at, own)
    ensures forall k :: 0 <= k < |at| ==> at[k] < |trace|
  {
  }

  lemma PlacedConcat(trace: seq<Op>, at: seq<nat>, own: seq<Op>, trace': seq<Op>, at': seq<nat>, own': seq<Op>)
    requires Placed(trace, at, own) && Placed(trace', at', own')
    ensures Placed(trace + trace', at + Shifted(at', |trace|), own + own')
  {
    var all, both := at + Shifted(at', |trace|), trace + trace';
    forall k | 0 <= k < |all| ensures all[k] < |both| && both[all[k]] == (own + own')[k] {
      if k >= |at| {
        assert at'[k - |at|] < |trace'| && trace'[at'[k - |at|]] == own'[k - |at|];
      }
    }
  }

  lemma OwnConcat(trace: seq<Op>, at: seq<nat>, own: seq<Op>, trace': seq<Op>, at': seq<nat>, own': seq<Op>, others: seq<seq<Op>>)
    requires OwnAt(trace, at, own, others) && OwnAt(trace', at', own', others)
    ensures OwnAt(trace + trace', at + Shifted(at', |trace|), own + own', others)
  {
    hide ByOthers, Placed;
    PlacedConcat(trace, at, own, trace', at', own');
    assert forall k :: 0 <= k < |at| ==> at[k] < |trace| by { PlacedInside(trace, at, own); }
    var all := at + Shifted(at', |trace|);
    forall p | 0 <= p < |trace + trace'| && p !in all ensures ByOthers(others, (trace + trace')[p]) {
      OutsideShifted(at, at', |trace|, p);
    }
  }

  /** With more others around, the operations of a call are still its own. */
  lemma OwnAmongMore(trace: seq<Op>, at: seq<nat>, own: seq<Op>, others: seq<seq<Op>>)
    requires others != [] && OwnAt(trace, at, own, others[1..])
    ensures OwnAt(trace, at, own, others)
  {
    forall p | 0 <= p < |trace| && p !in at ensures ByOthers(others, trace[p]) {
      var k :| 0 <= k < |others[1..]| && trace[p] in others[1..][k];
      assert others[k+1] == others[1..][k];
    }
  }

  /** Left alone, a call runs its own operations and nothing else. */
  lemma OwnAlone(trace: seq<Op>, at: seq<nat>, own: seq<Op>)
    requires OwnAt(trace, at, own, [])
    ensures trace == own
  {
    assert forall p :: 0 <= p < |trace| ==> p in at;
    IncreasingAndFull(at, |trace|);
  }

  /** Increasing positions that leave none out are all of them in order. */
  lemma {:induction false} IncreasingAndFull(at: seq<nat>, n: nat)
    requires forall k :: 0 <= k < |at| ==> at[k] < n
    requires forall j, k :: 0 <= j < k < |at| ==> at[j] < at[k]
    requires forall p :: 0 <= p < n ==> p in at
    ensures |at| == n && forall k :: 0 <= k < n ==> at[k] == k
    decreases |at|
  {
    if at == [] {
      assert n > 0 ==> 0 in at;
    } else {
      assert at[0] < n && n - 1 in at;
      assert at[|at|-1] == n - 1;
      var before := at[..|at|-1];
      forall p | 0 <= p < n - 1 ensures p in before {
        assert p in at && at == before + [n - 1];
      }
      IncreasingAndFull(before, n - 1);
    }
  }

  /** The stores of a call that has received `vecs` for `unique`. */
  function Puts(unique: seq<string>, vecs: seq<Vec>, clock: nat -> int): (r: seq<Op>)
    requires |vecs| == |unique|
    ensures |r| == |unique| && forall k :: 0 <= k < |unique| ==> r[k] == Put(unique[k], vecs[k], clock(k))
  {
    seq(|unique|, k requires 0 <= k < |unique| => Put(unique[k], vecs[k], clock(k)))
  }

  lemma PutsOfReply(unique: seq<string>, vecs: seq<Vec>, clock: nat -> int, embed: string -> Vec)
    requires |vecs| == |unique| && forall k :: 0 <= k < |unique| ==> vecs[k] == embed(unique[k])
    ensures Puts(unique, vecs, clock) == seq(|unique|, k requires 0 <= k < |unique| => Put(unique[k], embed(unique[k]), clock(k)))
    ensures Faithful(Puts(unique, vecs, clock), embed)
  {
  }

  lemma PutsSnoc(unique: seq<string>, vecs: seq<Vec>, clock: nat -> int, k: nat)
    requires |vecs| == |unique| && k < |unique|
    ensures Puts(unique[..k+1], vecs[..k+1], clock) == Puts(unique[..k], vecs[..k], clock) + [Put(unique[k], vecs[k], clock(k))]
  {
  }

  /** A call starts with its lookup, if it has one. */
  lemma OpeningIsOwn(opening: seq<Op>, at: seq<nat>, others: seq<seq<Op>>)
    requires (opening == [] && at == []) || (|opening| == 1 && at == [0])
    ensures OwnAt(opening, at, opening, others)
  {
  }

  lemma OwnAreFaithful(trace: seq<Op>, at: seq<nat>, own: seq<Op>, others: seq<seq<Op>>, embed: string -> Vec)
    requires OwnAt(trace, at, own, others) && Faithful(own, embed)
    requires forall op :: ByOthers(others, op) && op.Put? ==> op.vec == embed(op.text)
    ensures Faithful(trace, embed)
  {
    forall p | 0 <= p < |trace| && trace[p].Put? ensures trace[p].vec == embed(trace[p].text) {
      if p in at {
        var k :| 0 <= k < |at| && at[k] == p;
        assert own[k] in own;
      }
    }
  }

  /** A query for one text that nobody interrupts and that succeeds is one question. */
  lemma AloneIsAnswered(cf: Config, c: Cache, texts: seq<string>, now: int, clock: nat -> int,
                        trace: seq<Op>, at: seq<nat>, own: seq<Op>, embed: string -> Vec)
    requires |texts| == 1 && OwnAt(trace, at, own, [])
    requires var batch := AskedFor(c, texts, true, now);
             own == [Look(texts, now)] + seq(|batch|, k requires 0 <= k < |batch| => Put(batch[k], embed(batch[k]), clock(k)))
    ensures Run(cf, c, trace) == Answered(cf, c, Question(texts[0], embed(texts[0]), now, clock(0)))
  {
    OwnAlone(trace, at, own);
    hide OwnAt, LookedUp, Stored, Missing;
    var found, batch := LookedUp(c, texts, now).1, AskedFor(c, texts, true, now);
    assert texts == [texts[0]];
    MissingSingle(texts, found);
    assert batch == if found[0].None? then [texts[0]] else [];
    OwnOfOne(texts, now, clock, own, batch, embed);
    hide AskedFor, Run;
    LookThenPut(cf, c, texts, now, Put(texts[0], embed(texts[0]), clock(0)));
  }

  lemma OwnOfOne(texts: seq<string>, now: int, clock: nat -> int, own: seq<Op>, batch: seq<string>, embed: string -> Vec)
    requires |batch| <= 1
    requires own == [Look(texts, now)] + seq(|batch|, k requires 0 <= k < |batch| => Put(batch[k], embed(batch[k]), clock(k)))
    ensures own == if batch == [] then [Look(texts, now)] else [Look(texts, now)] + [Put(batch[0], embed(batch[0]), clock(0))]
  {
  }

  lemma LookThenPut(cf: Config, c: Cache, texts: seq<string>, now: int, put: Op)
    requires put.Put?
    ensures Run(cf, c, [Look(texts, now)]) == LookedUp(c, texts, now).0
    ensures Run(cf, c, [Look(texts, now)] + [put]) == Stored(cf, LookedUp(c, texts, now).0, put.text, put.vec, put.now)
  {
    hide LookedUp, Stored;
    RunOfNothing(cf, c);
    RunSnoc(cf, c, [], Look(texts, now));
    assert [] + [Look(texts, now)] == [Look(texts, now)];
    RunSnoc(cf, c, [Look(texts, now)], put);
  }

  lemma MissingSingle(texts: seq<string>, found: seq<Option<Vec>>)
    requires |texts| == |found| == 1
    ensures Missing(texts, found, |texts|) == if found[0].None? then [texts[0]] else []
  {
    assert Missing(texts, found, 0) == [];
  }

  lemma AnsweredSnoc(cf: Config, c: Cache, q: Question)
    ensures forall qs :: c == AfterQuestions(cf, qs) ==> Answered(cf, c, q) == AfterQuestions(cf, qs + [q])
  {
    forall qs | c == AfterQuestions(cf, qs) ensures Answered(cf, c, q) == AfterQuestions(cf, qs + [q]) {
      assert (qs + [q])[..|qs|] == qs;
    }
  }

  class JinaEmbeddingService {
    const config: Config
    var cache: Cache

    constructor (config: Config)
      ensures this.config == config && cache == []
    {
      this.config, cache := config, [];
    }

    method LookUpOne(text: string, now: int) returns (vec: Option<Vec>)
      modifies this`cache
      ensures (cache, vec) == LookedUpOne(old(cache), text, now)
    {
      var cached := Find(cache, text);
      if cached.None? {
        return None;
      }
      cache := Without(cache, text);
      if cached.value.expires > now {
        cache := cache + [cached.value];
        return Some(cached.value.vec);
      }
      return None;
    }

    /** The first critical section: hits are served, expired entries dropped. */
    method LookUp(texts: seq<string>, now: int) returns (found: seq<Option<Vec>>)
      modifies this`cache
      ensures (cache, found) == LookedUp(old(cache), texts, now)
    {
      found := [];
      for i := 0 to |texts|
        invariant (cache, found) == LookedUp(old(cache), texts[..i], now)
      {
        LookedUpSnoc(old(cache), texts[..i], texts[i], now);
        assert texts[..i+1] == texts[..i] + [texts[i]];
        var vec := LookUpOne(texts[i], now);
        found := found + [vec];
      }
      assert texts[..|texts|] == texts;
    }

    method Store(text: string, vec: Vec, now: int)
      modifies this`cache
      ensures cache == Performed(config, old(cache), Put(text, vec, now))
    {
      cache := Without(cache, text) + [Entry(text, vec, now + config.ttl)];
      assert Performed(config, old(cache), Put(text, vec, now)) == Trimmed(cache, config.maxSize);
      hide Performed, Without, Trimmed;
      while |cache| > config.maxSize
        invariant Performed(config, old(cache), Put(text, vec, now)) == Trimmed(cache, config.maxSize)
      {
        TrimmedFromHead(cache, config.maxSize);
        cache := cache[1..];
      }
      NothingTrimmed(cache, config.maxSize);
    }

    static method Group(texts: seq<string>, found: seq<Option<Vec>>) returns (unique: seq<string>, waiting: map<string, seq<nat>>)
      requires |found| == |texts|
      ensures Grouped(texts, found, unique, waiting) && unique == Missing(texts, found, |texts|)
      ensures forall t :: t in unique ==> t in texts
      ensures forall i, j :: 0 <= i < j < |unique| ==> unique[i] != unique[j]
    {
      unique, waiting := [], map[];
      for i := 0 to |texts|
        invariant forall t :: t in waiting <==> t in unique
        invariant unique == Missing(texts, found, i)
        invariant forall t :: t in unique ==> t in texts
        invariant forall a, b :: 0 <= a < b < |unique| ==> unique[a] != unique[b]
        invariant forall t :: t in waiting ==> AllWaitFor(texts, found, i, t, waiting[t])
        invariant forall k :: 0 <= k < i && found[k].None? ==> texts[k] in waiting && k in waiting[texts[k]]
      {
        if found[i].None? {
          if texts[i] !in waiting {
            waiting := waiting[texts[i] := []];
            ghost var old' := unique;
            unique := unique + [texts[i]];
            assert forall t :: t in unique <==> t in old' || t == texts[i];
            assert forall t :: t in unique <==> t in waiting;
          }
          ghost var before := waiting[texts[i]];
          waiting := waiting[texts[i] := waiting[texts[i]] + [i]];
          assert waiting[texts[i]][|before|] == i && before <= waiting[texts[i]];
        }
      }
    }

    /** Vector k goes to every position waiting for unique text k. */
    static method Deliver(texts: seq<string>, found: seq<Option<Vec>>, unique: seq<string>, waiting: map<string, seq<nat>>,
                          vecs: seq<Vec>, n: nat, final: seq<Option<Vec>>) returns (r: seq<Option<Vec>>)
      requires Grouped(texts, found, unique, waiting) && Scattered(texts, found, unique, vecs, n, final)
      requires n < |unique| && n < |vecs| && forall i, j :: 0 <= i < j < |unique| ==> unique[i] != unique[j]
      ensures Scattered(texts, found, unique, vecs, n + 1, r)
    {
      r := final;
      assert unique[n] in unique && unique[n] in waiting;
      var targets := waiting[unique[n]];
      assert AllWaitFor(texts, found, |texts|, unique[n], targets);
      for k := 0 to |targets|
        invariant |r| == |final|
        invariant forall i :: 0 <= i < |r| && i !in targets[..k] ==> r[i] == final[i]
        invariant forall i :: 0 <= i < |r| && i in targets[..k] ==> r[i] == Some(vecs[n])
      {
        assert targets[k] in targets && targets[..k+1] == targets[..k] + [targets[k]];
        r := r[targets[k] := Some(vecs[n])];
      }
      assert targets[..|targets|] == targets;
    }

    /** Other calls run `ops` on the shared cache while this call waits. */
    method Interleave(ops: seq<Op>)
      modifies this`cache
      ensures cache == Run(config, old(cache), ops)
    {
      for i := 0 to |ops|
        invariant cache == Run(config, old(cache), ops[..i])
      {
        assert ops[..i+1][..i] == ops[..i];
        cache := Performed(config, cache, ops[i]);
      }
      assert ops[..|ops|] == ops;
    }

    /** Stores and scatters the provider's vectors, letting `others[k]` run before vector k is stored. */
    method Merge(texts: seq<string>, isQuery: bool, found: seq<Option<Vec>>, unique: seq<string>, waiting: map<string, seq<nat>>,
                 vecs: seq<Vec>, others: seq<seq<Op>>, clock: nat -> int)
        returns (final: seq<Option<Vec>>, ghost trace: seq<Op>, ghost at: seq<nat>)
      requires Grouped(texts, found, unique, waiting) && |vecs| == |unique|
      requires forall i, j :: 0 <= i < j < |unique| ==> unique[i] != unique[j]
      modifies this`cache
      ensures Scattered(texts, found, unique, vecs, |unique|, final)
      ensures cache == Run(config, old(cache), trace)
      ensures OwnAt(trace, at, if isQuery then Puts(unique, vecs, clock) else [], others)
    {
      hide Run, Grouped, Scattered, OwnAt, ByOthers;
      final, trace, at := found, [], [];
      RunOfNothing(config, cache);
      NothingScattered(texts, found, unique, vecs, waiting);
      NothingOwn(others);
      for k := 0 to |unique|
        invariant Scattered(texts, found, unique, vecs, k, final)
        invariant cache == Run(config, old(cache), trace)
        invariant OwnAt(trace, at, if isQuery then Puts(unique[..k], vecs[..k], clock) else [], others)
      {
        final := Deliver(texts, found, unique, waiting, vecs, k, final);
        ghost var own := if isQuery then Puts(unique[..k], vecs[..k], clock) else [];
        if k < |others| {
          Interleave(others[k]);
          RunConcat(config, old(cache), trace, others[k]);
          OwnThenOthers(trace, at, own, others, k);
          trace := trace + others[k];
        }
        if isQuery {
          Store(unique[k], vecs[k], clock(k));
          ghost var put := Put(unique[k], vecs[k], clock(k));
          RunSnoc(config, old(cache), trace, put);
          OwnSnoc(trace, at, own, others, put);
          PutsSnoc(unique, vecs, clock, k);
          trace, at := trace + [put], at + [|trace|];
        }
      }
      assert unique[..|unique|] == unique && vecs[..|unique|] == vecs;
    }

    lemma KeepsCache(c: Cache, trace: seq<Op>, embed: string -> Vec)
      requires WellKept(config, c) && Coherent(c, embed) && Faithful(trace, embed)
      ensures WellKept(config, Run(config, c, trace)) && Coherent(Run(config, c, trace), embed)
    {
      RunKeeps(config, c, trace);
      RunKeepsCoherent(config, c, trace, embed);
    }

    /** Up to the await: query calls look every text up, the others miss them all. */
    method Begin(texts: seq<string>, isQuery: bool, now: int, ghost embed: string -> Vec)
        returns (found: seq<Option<Vec>>, ghost trace: seq<Op>)
      requires WellKept(config, cache) && Coherent(cache, embed)
      modifies this`cache
      ensures cache == Run(config, old(cache), trace) && trace == if isQuery then [Look(texts, now)] else []
      ensures found == FoundBy(old(cache), texts, isQuery, now) && (!isQuery ==> forall i :: 0 <= i < |texts| ==> found[i].None?)
      ensures forall i :: 0 <= i < |texts| && found[i].Some? ==> found[i] == Some(embed(texts[i]))
    {
      trace := [];
      found := seq(|texts|, _ => None);
      if isQuery {
        found := LookUp(texts, now);
        trace := [Look(texts, now)];
        LookUpKeeps(config, old(cache), texts, now);
        assert trace[..0] == [];
      }
    }

    /** After the await, with the vectors in hand. */
    method Complete(texts: seq<string>, isQuery: bool, found: seq<Option<Vec>>, unique: seq<string>, waiting: map<string, seq<nat>>,
                    vecs: seq<Vec>, others: seq<seq<Op>>, clock: nat -> int, ghost embed: string -> Vec)
        returns (final: seq<Option<Vec>>, ghost trace: seq<Op>, ghost at: seq<nat>)
      requires Grouped(texts, found, unique, waiting)
      requires forall i, j :: 0 <= i < j < |unique| ==> unique[i] != unique[j]
      requires |vecs| == |unique| && forall k :: 0 <= k < |unique| ==> vecs[k] == embed(unique[k])
      requires forall i :: 0 <= i < |texts| && found[i].Some? ==> found[i] == Some(embed(texts[i]))
      modifies this`cache
      ensures |final| == |texts| && forall i :: 0 <= i < |texts| ==> final[i] == Some(embed(texts[i]))
      ensures cache == Run(config, old(cache), trace)
      ensures OwnAt(trace, at, if isQuery then Puts(unique, vecs, clock) else [], others)
    {
      hide Run, OwnAt;
      final, trace, at := Merge(texts, isQuery, found, unique, waiting, vecs, others, clock);
      forall i | 0 <= i < |texts| ensures final[i] == Some(embed(texts[i])) {
        if found[i].None? {
          assert texts[i] in unique;
        }
      }
    }

    /** Until the reply: lookup, deduplication and request, with `others[0]` running during the request if there is one. */
    method Ask(texts: seq<string>, isQuery: bool, now: int, others: seq<seq<Op>>, ghost embed: string -> Vec)
        returns (found: seq<Option<Vec>>, unique: seq<string>, waiting: map<string, seq<nat>>,
                 ghost trace: seq<Op>, ghost own: seq<Op>, ghost at: seq<nat>)
      requires texts != [] && WellKept(config, cache) && Coherent(cache, embed)
      requires forall op :: ByOthers(others, op) && op.Put? ==> op.vec == embed(op.text)
      modifies this`cache
      ensures WellKept(config, cache) && Coherent(cache, embed)
      ensures cache == Run(config, old(cache), trace) && OwnAt(trace, at, own, others)
      ensures own == if isQuery then [Look(texts, now)] else []
      ensures |found| == |texts| && Grouped(texts, found, unique, waiting) && unique == AskedFor(old(cache), texts, isQuery, now)
      ensures forall i, j :: 0 <= i < j < |unique| ==> unique[i] != unique[j]
      ensures forall i :: 0 <= i < |texts| && found[i].Some? ==> isQuery && found[i] == Some(embed(texts[i]))
      ensures unique == [] ==> isQuery && forall i :: 0 <= i < |texts| ==> found[i].Some?
    {
      hide Run, WellKept, Coherent, LookedUp, Missing, OwnAt, ByOthers;
      ghost var opening;
      found, opening := Begin(texts, isQuery, now, embed);
      trace, own, at := opening, opening, if isQuery then [0] else [];
      OpeningIsOwn(opening, at, others);
      unique, waiting := Group(texts, found);
      NonQueryAsks(texts, found);
      if unique != [] && |others| > 0 {
        Interleave(others[0]);
        RunConcat(config, old(cache), trace, others[0]);
        OwnThenOthers(trace, at, own, others, 0);
        trace := trace + others[0];
      }
      OwnAreFaithful(trace, at, own, others, embed);
      KeepsCache(old(cache), trace, embed);
    }

    /** The call for at least one text: lookup, request and merge, with `others[0]` running during the request. */
    method Serve(texts: seq<string>, isQuery: bool, now: int, clock: nat -> int, provider: seq<string> -> Reply,
                 fallback: Option<seq<string> -> Reply>, others: seq<seq<Op>>,
                 ghost embed: string -> Vec, ghost fallbackEmbed: string -> Vec)
        returns (result: Option<seq<Option<Vec>>>, ghost trace: seq<Op>, ghost own: seq<Op>, ghost at: seq<nat>)
      requires texts != [] && WellKept(config, cache) && Coherent(cache, embed)
      requires forall op :: ByOthers(others, op) && op.Put? ==> op.vec == embed(op.text)
      requires Pointwise(provider, embed) && (fallback.Some? ==> Pointwise(fallback.value, fallbackEmbed))
      modifies this`cache
      ensures WellKept(config, cache) && Coherent(cache, embed)
      ensures cache == Run(config, old(cache), trace) && OwnAt(trace, at, own, others)
      ensures own == if !isQuery then [] else
                var batch := AskedFor(old(cache), texts, isQuery, now);
                [Look(texts, now)]
                  + if result.None? then []
                    else seq(|batch|, k requires 0 <= k < |batch| => Put(batch[k], embed(batch[k]), clock(k)))
      ensures var batch := AskedFor(old(cache), texts, isQuery, now);
              && (result.None? <==> batch != [] && ReplyTo(batch, isQuery, provider, fallback).Error?)
              && (result.Some? ==>
                    var answer := if FallsBack(provider(batch), isQuery, fallback) then fallbackEmbed else embed;
                    PlainAnswer(texts, answer, result.value))
    {
      hide Run, WellKept, Coherent, LookedUp, Grouped, Missing, FoundBy, AskedFor, OwnAt, ByOthers, Puts, Shifted;
      var found, unique, waiting;
      found, unique, waiting, trace, own, at := Ask(texts, isQuery, now, others, embed);
      if unique == [] {
        AllFound(texts, found, embed);
        return Some(found), trace, own, at;
      }
      var later := if |others| > 0 then others[1..] else [];
      var reply := provider(unique);
      ghost var answer := embed;
      if reply.Error? && reply.technical && !isQuery && fallback.Some? {
        reply := fallback.value(unique);
        answer := fallbackEmbed;
      }
      if reply.Error? {
        return None, trace, own, at;
      }
      var final, rest, places := Complete(texts, isQuery, found, unique, waiting, reply.vecs, later, clock, answer);
      ghost var puts := if isQuery then Puts(unique, reply.vecs, clock) else [];
      PutsOfReply(unique, reply.vecs, clock, answer);
      if |others| > 0 { OwnAmongMore(rest, places, puts, others); }
      RunConcat(config, old(cache), trace, rest);
      OwnConcat(trace, at, own, rest, places, puts, others);
      trace, own, at := trace + rest, own + puts, at + Shifted(places, |trace|);
      OwnAreFaithful(trace, at, own, others, embed);
      KeepsCache(old(cache), trace, embed);
      return Some(final), trace, own, at;
    }

    /**
     Theorem (refinement): whatever the cache holds and whatever other calls do meanwhile, a query
     call that succeeds returns embed(texts[i]) at every position i, as a plain provider call would;
     the cache stays within bounds and coherent.  Only other calls may answer from the fallback provider,
     and they leave the cache to the query calls.  A call fails exactly if the one request for its distinct
     missing texts does, that of the fallback included.

     `at` are the places of the call's own operations among those of others: a query looks all its texts up, and
     one that succeeds then stores the vector of each text it asked for, in that order.  Left alone, a query for
     one text therefore does to the cache what a question does, so CacheIsRecentTexts and HitsAreFresh hold of
     any sequence of such calls.
     */
    method EmbedTexts(texts: seq<string>, isQuery: bool, now: int, clock: nat -> int, provider: seq<string> -> Reply,
                      fallback: Option<seq<string> -> Reply>, others: seq<seq<Op>>,
                      ghost embed: string -> Vec, ghost fallbackEmbed: string -> Vec)
        returns (result: Option<seq<Option<Vec>>>, ghost trace: seq<Op>, ghost own: seq<Op>, ghost at: seq<nat>)
      requires WellKept(config, cache) && Coherent(cache, embed)
      requires forall op :: ByOthers(others, op) && op.Put? ==> op.vec == embed(op.text)
      requires Pointwise(provider, embed) && (fallback.Some? ==> Pointwise(fallback.value, fallbackEmbed))
      modifies this`cache
      ensures WellKept(config, cache) && Coherent(cache, embed)
      ensures cache == Run(config, old(cache), trace)
      ensures forall ops :: old(cache) == Run(config, [], ops) ==> cache == Run(config, [], ops + trace)
      ensures OwnAt(trace, at, own, others)
      ensures own == if !isQuery || texts == [] then [] else
                var batch := AskedFor(old(cache), texts, isQuery, now);
                [Look(texts, now)]
                  + if result.None? then []
                    else seq(|batch|, k requires 0 <= k < |batch| => Put(batch[k], embed(batch[k]), clock(k)))
      ensures isQuery && |texts| == 1 && others == [] && result.Some? ==>
                var q := Question(texts[0], embed(texts[0]), now, clock(0));
                forall qs :: old(cache) == AfterQuestions(config, qs) ==> cache == AfterQuestions(config, qs + [q])
      ensures var batch := AskedFor(old(cache), texts, isQuery, now);
              && (result.None? <==> batch != [] && ReplyTo(batch, isQuery, provider, fallback).Error?)
              && (result.Some? ==>
                    var answer := if FallsBack(provider(batch), isQuery, fallback) then fallbackEmbed else embed;
                    PlainAnswer(texts, answer, result.value))
    {
      hide Run, WellKept, Coherent, LookedUp, Grouped, Missing, FoundBy, OwnAt, AfterQuestions;
      result, trace, own, at := Some([]), [], [], [];
      NothingOwn(others);
      RunOfNothing(config, cache);
      if texts == [] {
        NothingAsked(old(cache), isQuery, now);
      } else {
        result, trace, own, at := Serve(texts, isQuery, now, clock, provider, fallback, others, embed, fallbackEmbed);
      }
      forall ops | old(cache) == Run(config, [], ops) ensures cache == Run(config, [], ops + trace) {
        RunConcat(config, [], ops, trace);
      }
      if isQuery && |texts| == 1 && others == [] && result.Some? {
        AloneIsAnswered(config, old(cache), texts, now, clock, trace, at, own, embed);
        AnsweredSnoc(config, old(cache), Question(texts[0], embed(texts[0]), now, clock(0)));
      }
    }
  }
}
