/**
 Whole runs of the embedding service (embeddings.py): any number of calls, of query and other tasks, whose
 critical sections on the one cache interleave in any order, with replies, errors and cancellations in between.
 */
module EmbeddingRuns {
  import opened Basics
  import opened EmbeddingCache

  type CallId = nat

  /** How far a call has got. */
  datatype Stage =
    | Fresh
    | Waiting(found: seq<Option<Vec>>, unique: seq<string>)     // for the provider, or for its fallback
    | Merging(found: seq<Option<Vec>>, unique: seq<string>, vecs: seq<Vec>, fellBack: bool, stored: nat)
    | Returned(result: seq<Option<Vec>>, fellBack: bool)
    | Over                                                      // failed or cancelled

  datatype Call = Call(texts: seq<string>, isQuery: bool, stage: Stage)

  datatype Service = Service(cache: Cache, calls: map<CallId, Call>)

  datatype Event =
    | Arrive(id: CallId, texts: seq<string>, isQuery: bool)
    | Begin(id: CallId, now: int)                               // the lookup, up to the request
    | Receive(id: CallId, reply: Reply, fellBack: bool)
    | StoreNext(id: CallId, now: int)                           // the next unique text: stored by queries, scattered by all
    | Cancel(id: CallId)

  /** The providers that answer: one for all queries, and a fallback for other tasks. */
  datatype Providers = Providers(embed: string -> Vec, fallback: string -> Vec) {
    function Of(fellBack: bool): string -> Vec { if fellBack then fallback else embed }

    /** A reply has one vector per text, text by text. */
    ghost predicate Answers(unique: seq<string>, reply: Reply, fellBack: bool) {
      reply.Vectors? ==> |reply.vecs| == |unique| && forall k :: 0 <= k < |unique| ==> reply.vecs[k] == Of(fellBack)(unique[k])
    }
  }

  function IndexOf(unique: seq<string>, t: string): (k: nat)
    ensures k <= |unique| && (k < |unique| ==> unique[k] == t) && (t in unique ==> k < |unique|)
  {
    if unique == [] then 0 else if unique[0] == t then 0 else IndexOf(unique[1..], t) + 1
  }

  /** What is cached at each position, or else the vector received for its text. */
  function Filled(texts: seq<string>, found: seq<Option<Vec>>, unique: seq<string>, vecs: seq<Vec>): seq<Option<Vec>>
    requires |found| == |texts| && |vecs| == |unique|
  {
    seq(|texts|, i requires 0 <= i < |texts| =>
      if found[i].Some? then found[i]
      else if IndexOf(unique, texts[i]) < |unique| then Some(vecs[IndexOf(unique, texts[i])]) else None)
  }

  /** The stages of a call that has been asked `texts` are of the right shape. */
  predicate Shaped(call: Call) {
    match call.stage
    case Waiting(found, unique) => |found| == |call.texts| && unique != []
    case Merging(found, unique, vecs, _, stored) => |found| == |call.texts| && |vecs| == |unique| && stored < |unique|
    case _ => true
  }

  ghost predicate Enabled(ps: Providers, s: Service, e: Event) {
    if e.Arrive? then e.id !in s.calls
    else
      && e.id in s.calls && Shaped(s.calls[e.id])
      && var call := s.calls[e.id];
         match e
         case Begin(_, _) => call.stage.Fresh?
         case Receive(_, reply, fellBack) =>
           call.stage.Waiting? && (fellBack ==> !call.isQuery) && ps.Answers(call.stage.unique, reply, fellBack)
         case StoreNext(_, _) => call.stage.Merging?
         case Cancel(_) => !call.stage.Returned? && !call.stage.Over?
         case Arrive(_, _, _) => false
  }

  /** The stage of a call after its lookup. */
  function Looked(texts: seq<string>, found: seq<Option<Vec>>): Stage
    requires |found| == |texts|
  {
    var unique := Missing(texts, found, |texts|);
    if unique == [] then Returned(found, false) else Waiting(found, unique)
  }

  /** The stage after one more unique text is stored. */
  function Merged(texts: seq<string>, stage: Stage): Stage
    requires stage.Merging? && Shaped(Call(texts, true, stage))
  {
    if stage.stored + 1 < |stage.unique| then stage.(stored := stage.stored + 1)
    else Returned(Filled(texts, stage.found, stage.unique, stage.vecs), stage.fellBack)
  }

  function NextStage(c: Cache, call: Call, e: Event): Stage
    requires Shaped(call) && (e.StoreNext? ==> call.stage.Merging?) && (e.Receive? ==> call.stage.Waiting?)
    requires e.Receive? && e.reply.Vectors? ==> |e.reply.vecs| == |call.stage.unique|
  {
    match e
    case Begin(_, now) => Looked(call.texts, FoundBy(c, call.texts, call.isQuery, now))
    case Receive(_, reply, fellBack) =>
      if reply.Error? then Over else Merging(call.stage.found, call.stage.unique, reply.vecs, fellBack, 0)
    case StoreNext(_, _) => Merged(call.texts, call.stage)
    case _ => Over
  }

  /** The critical section of an event, if it has one: only query calls touch the cache. */
  function OpsOf(call: Call, e: Event): seq<Op>
    requires e.StoreNext? ==> call.stage.Merging? && Shaped(call)
  {
    match e
    case Begin(_, now) => if call.isQuery then [Look(call.texts, now)] else []
    case StoreNext(_, now) =>
      if call.isQuery then [Put(call.stage.unique[call.stage.stored], call.stage.vecs[call.stage.stored], now)] else []
    case _ => []
  }

  ghost function Step(cf: Config, ps: Providers, s: Service, e: Event): Service
    requires Enabled(ps, s, e)
  {
    if e.Arrive? then s.(calls := s.calls[e.id := Call(e.texts, e.isQuery, Fresh)])
    else
      var call := s.calls[e.id];
      Service(Run(cf, s.cache, OpsOf(call, e)), s.calls[e.id := call.(stage := NextStage(s.cache, call, e))])
  }

  /** The service after some events; None when one of them was not possible. */
  ghost function After(cf: Config, ps: Providers, s: Service, events: seq<Event>): Option<Service>
    decreases |events|
  {
    if events == [] then Some(s)
    else if !Enabled(ps, s, events[0]) then None
    else After(cf, ps, Step(cf, ps, s, events[0]), events[1..])
  }

  // ---------------------------------------------------------------- what every run keeps

  ghost predicate Hits(texts: seq<string>, found: seq<Option<Vec>>, embed: string -> Vec) {
    |found| == |texts| && forall i :: 0 <= i < |texts| && found[i].Some? ==> found[i] == Some(embed(texts[i]))
  }

  /** What a call has in hand is what the providers answer. */
  ghost predicate Right(ps: Providers, call: Call) {
    && Shaped(call)
    && match call.stage
       case Waiting(found, unique) =>
         && unique == Missing(call.texts, found, |call.texts|) && Hits(call.texts, found, ps.embed)
         && (!call.isQuery ==> Hits(call.texts, found, ps.fallback))
       case Merging(found, unique, vecs, fellBack, _) =>
         && unique == Missing(call.texts, found, |call.texts|) && Hits(call.texts, found, ps.Of(fellBack))
         && (fellBack ==> !call.isQuery)
         && forall k :: 0 <= k < |unique| ==> vecs[k] == ps.Of(fellBack)(unique[k])
       case Returned(result, fellBack) => PlainAnswer(call.texts, ps.Of(fellBack), result) && (fellBack ==> !call.isQuery)
       case _ => true
  }

  ghost predicate Sound(cf: Config, ps: Providers, s: Service) {
    WellKept(cf, s.cache) && Coherent(s.cache, ps.embed) && forall id :: id in s.calls ==> Right(ps, s.calls[id])
  }

  lemma LookIsRight(cf: Config, ps: Providers, c: Cache, call: Call, now: int)
    requires WellKept(cf, c) && Coherent(c, ps.embed)
    ensures Right(ps, call.(stage := Looked(call.texts, FoundBy(c, call.texts, call.isQuery, now))))
  {
    var found := FoundBy(c, call.texts, call.isQuery, now);
    assert Hits(call.texts, found, ps.embed) && (!call.isQuery ==> Hits(call.texts, found, ps.fallback)) by {
      LookUpKeeps(cf, c, call.texts, now);
    }
    NonQueryAsks(call.texts, found);
    hide FoundBy, Missing;
  }

  lemma FilledIsPlain(texts: seq<string>, found: seq<Option<Vec>>, unique: seq<string>, vecs: seq<Vec>, embed: string -> Vec)
    requires Hits(texts, found, embed) && unique == Missing(texts, found, |texts|)
    requires |vecs| == |unique| && forall k :: 0 <= k < |unique| ==> vecs[k] == embed(unique[k])
    ensures PlainAnswer(texts, embed, Filled(texts, found, unique, vecs))
  {
    hide Missing;
    MissingFacts(texts, found, |texts|);
    forall i | 0 <= i < |texts| ensures Filled(texts, found, unique, vecs)[i] == Some(embed(texts[i])) {
      if found[i].None? {
        assert texts[i] in unique;
      }
    }
  }

  lemma NextIsRight(cf: Config, ps: Providers, c: Cache, call: Call, e: Event)
    requires WellKept(cf, c) && Coherent(c, ps.embed) && Right(ps, call) && !e.Arrive?
    requires Enabled(ps, Service(c, map[e.id := call]), e)
    ensures Right(ps, call.(stage := NextStage(c, call, e)))
  {
    match e
    case Begin(_, now) => LookIsRight(cf, ps, c, call, now);
    case StoreNext(_, _) =>
      var stage := call.stage;
      FilledIsPlain(call.texts, stage.found, stage.unique, stage.vecs, ps.Of(stage.fellBack));
    case _ =>
  }

  lemma OpsAreFaithful(ps: Providers, call: Call, e: Event)
    requires Right(ps, call) && (e.StoreNext? ==> call.stage.Merging?)
    ensures Faithful(OpsOf(call, e), ps.embed)
  {
  }

  lemma StepKeepsSound(cf: Config, ps: Providers, s: Service, e: Event)
    requires Sound(cf, ps, s) && Enabled(ps, s, e)
    ensures Sound(cf, ps, Step(cf, ps, s, e))
  {
    if !e.Arrive? {
      var call := s.calls[e.id];
      OpsAreFaithful(ps, call, e);
      RunKeeps(cf, s.cache, OpsOf(call, e));
      RunKeepsCoherent(cf, s.cache, OpsOf(call, e), ps.embed);
      NextIsRight(cf, ps, s.cache, call, e);
    }
  }

  lemma {:induction false} RunKeepsSound(cf: Config, ps: Providers, s: Service, events: seq<Event>)
    requires Sound(cf, ps, s) && After(cf, ps, s, events).Some?
    ensures Sound(cf, ps, After(cf, ps, s, events).value)
    decreases |events|
  {
    if events != [] {
      StepKeepsSound(cf, ps, s, events[0]);
      RunKeepsSound(cf, ps, Step(cf, ps, s, events[0]), events[1..]);
    }
  }

  /**
   Theorem: however the calls interleave, fail, fall back or are cancelled, the cache stays within bounds and holds
   only the provider's vectors, every call that returns has the plain answer of its provider at every position, and
   no query call has it from the fallback.
   */
  lemma EveryAnswerIsPlain(cf: Config, ps: Providers, events: seq<Event>, id: CallId)
    requires After(cf, ps, Service([], map[]), events).Some? && id in After(cf, ps, Service([], map[]), events).value.calls
    ensures var s := After(cf, ps, Service([], map[]), events).value;
            && WellKept(cf, s.cache) && Coherent(s.cache, ps.embed)
            && (s.calls[id].stage.Returned? ==>
                  && PlainAnswer(s.calls[id].texts, ps.Of(s.calls[id].stage.fellBack), s.calls[id].stage.result)
                  && (s.calls[id].isQuery ==> !s.calls[id].stage.fellBack))
  {
    RunKeepsSound(cf, ps, Service([], map[]), events);
    assert Right(ps, After(cf, ps, Service([], map[]), events).value.calls[id]);
  }

  lemma OneOp(cf: Config, c: Cache, op: Op)
    ensures Run(cf, c, [op]) == Performed(cf, c, op)
  {
    RunSnoc(cf, c, [], op);
    RunOfNothing(cf, c);
    assert [] + [op] == [op];
  }

  /**
   Theorem: only query calls touch the cache: their lookup serves and moves live entries, and each of their stores
   puts the next vector they received; no event changes another call.
   */
  lemma OnlyQueriesTouchTheCache(cf: Config, ps: Providers, s: Service, e: Event)
    requires Enabled(ps, s, e)
    ensures var next := Step(cf, ps, s, e);
            && next.calls.Keys == s.calls.Keys + {e.id} && (forall id :: id in s.calls && id != e.id ==> next.calls[id] == s.calls[id])
            && next.cache ==
               if e.Begin? && s.calls[e.id].isQuery then LookedUp(s.cache, s.calls[e.id].texts, e.now).0
               else if e.StoreNext? && s.calls[e.id].isQuery then
                 var stage := s.calls[e.id].stage;
                 Stored(cf, s.cache, stage.unique[stage.stored], stage.vecs[stage.stored], e.now)
               else s.cache
  {
    RunOfNothing(cf, s.cache);
    if e.Begin? {
      OneOp(cf, s.cache, Look(s.calls[e.id].texts, e.now));
    } else if e.StoreNext? {
      var stage := s.calls[e.id].stage;
      OneOp(cf, s.cache, Put(stage.unique[stage.stored], stage.vecs[stage.stored], e.now));
    }
    hide Run, LookedUp, Stored, Looked, Merged;
  }

  // ---------------------------------------------------------------- calls get through

  function Stores(id: CallId, now: int, n: nat): seq<Event> { seq(n, _ => StoreNext(id, now)) }

  lemma AfterFirst(cf: Config, ps: Providers, s: Service, e: Event, rest: seq<Event>)
    requires Enabled(ps, s, e)
    ensures After(cf, ps, s, [e] + rest) == After(cf, ps, Step(cf, ps, s, e), rest)
  {
    assert ([e] + rest)[0] == e && ([e] + rest)[1..] == rest;
  }

  /** A call with n vectors left to store returns with the n-th. */
  lemma {:induction false} StoresReturn(cf: Config, ps: Providers, s: Service, id: CallId, now: int, n: nat)
    requires id in s.calls && s.calls[id].stage.Merging? && Shaped(s.calls[id])
    requires s.calls[id].stage.stored + n == |s.calls[id].stage.unique|
    ensures After(cf, ps, s, Stores(id, now, n)).Some?
    ensures var end := After(cf, ps, s, Stores(id, now, n)).value; id in end.calls && end.calls[id].stage.Returned?
    decreases n
  {
    var e := StoreNext(id, now);
    assert Stores(id, now, n) == [e] + Stores(id, now, n - 1);
    AfterFirst(cf, ps, s, e, Stores(id, now, n - 1));
    var next := Step(cf, ps, s, e);
    if n == 1 {
      assert Stores(id, now, 0) == [];
      assert After(cf, ps, next, []) == Some(next);
    } else {
      StoresReturn(cf, ps, next, id, now, n - 1);
    }
  }

  /** Theorem: at any moment a new call can arrive and, if its provider answers, return, whatever the others are doing. */
  lemma CallsGetThrough(cf: Config, ps: Providers, s: Service, id: CallId, texts: seq<string>, isQuery: bool, now: int)
      returns (events: seq<Event>)
    requires Sound(cf, ps, s) && id !in s.calls
    ensures forall e :: e in events ==> e.id == id
    ensures After(cf, ps, s, events).Some?
    ensures var end := After(cf, ps, s, events).value;
            && id in end.calls && end.calls[id].texts == texts && end.calls[id].isQuery == isQuery
            && end.calls[id].stage.Returned? && PlainAnswer(texts, ps.embed, end.calls[id].stage.result)
  {
    var arrive, begin := Arrive(id, texts, isQuery), Begin(id, now);
    var s1 := Step(cf, ps, s, arrive);
    var s2 := Step(cf, ps, s1, begin);
    StepKeepsSound(cf, ps, s, arrive);
    StepKeepsSound(cf, ps, s1, begin);
    var rest := RestOfCall(cf, ps, s2, id, now);
    AfterFirst(cf, ps, s, arrive, [begin] + rest);
    AfterFirst(cf, ps, s1, begin, rest);
    events := [arrive] + ([begin] + rest);
  }

  /** A call that waits is answered and stores what it got. */
  lemma RestOfCall(cf: Config, ps: Providers, s: Service, id: CallId, now: int) returns (events: seq<Event>)
    requires Sound(cf, ps, s) && id in s.calls
    requires s.calls[id].stage.Waiting? || (s.calls[id].stage.Returned? && !s.calls[id].stage.fellBack)
    ensures forall e :: e in events ==> e.id == id
    ensures After(cf, ps, s, events).Some?
    ensures var end := After(cf, ps, s, events).value;
            && id in end.calls && end.calls[id].texts == s.calls[id].texts && end.calls[id].isQuery == s.calls[id].isQuery
            && end.calls[id].stage.Returned? && PlainAnswer(s.calls[id].texts, ps.embed, end.calls[id].stage.result)
  {
    assert Right(ps, s.calls[id]);
    if s.calls[id].stage.Returned? {
      events := [];
    } else {
      var unique := s.calls[id].stage.unique;
      var e := Receive(id, Vectors(seq(|unique|, k requires 0 <= k < |unique| => ps.embed(unique[k]))), false);
      var next := Step(cf, ps, s, e);
      StepKeepsSound(cf, ps, s, e);
      StoresReturn(cf, ps, next, id, now, |unique|);
      AfterFirst(cf, ps, s, e, Stores(id, now, |unique|));
      events := [e] + Stores(id, now, |unique|);
      RunKeepsSound(cf, ps, s, events);
      StoresKeepCall(cf, ps, next, id, now, |unique|);
      assert Right(ps, After(cf, ps, s, events).value.calls[id]);
    }
  }

  /** Storing changes neither what a call was asked nor whose answer it has. */
  lemma {:induction false} StoresKeepCall(cf: Config, ps: Providers, s: Service, id: CallId, now: int, n: nat)
    requires id in s.calls && (s.calls[id].stage.Merging? || s.calls[id].stage.Returned?)
    requires After(cf, ps, s, Stores(id, now, n)).Some?
    ensures var end := After(cf, ps, s, Stores(id, now, n)).value;
            && id in end.calls && end.calls[id].texts == s.calls[id].texts && end.calls[id].isQuery == s.calls[id].isQuery
            && (end.calls[id].stage.Merging? || end.calls[id].stage.Returned?)
            && end.calls[id].stage.fellBack == s.calls[id].stage.fellBack
    decreases n
  {
    if n > 0 {
      var e := StoreNext(id, now);
      assert Stores(id, now, n)[0] == e && Stores(id, now, n)[1..] == Stores(id, now, n - 1);
      StoresKeepCall(cf, ps, Step(cf, ps, s, e), id, now, n - 1);
    }
  }

  // ---------------------------------------------------------------- what a returned query leaves behind

  lemma {:induction false} AfterSnoc(cf: Config, ps: Providers, s: Service, events: seq<Event>, e: Event)
    requires After(cf, ps, s, events + [e]).Some?
    ensures After(cf, ps, s, events).Some? && Enabled(ps, After(cf, ps, s, events).value, e)
    ensures After(cf, ps, s, events + [e]).value == Step(cf, ps, After(cf, ps, s, events).value, e)
    decreases |events|
  {
    if events == [] {
      assert events + [e] == [e] && [e][1..] == [];
    } else {
      assert (events + [e])[0] == events[0] && (events + [e])[1..] == events[1..] + [e];
      AfterSnoc(cf, ps, Step(cf, ps, s, events[0]), events[1..], e);
    }
  }

  /** The service that has just started, after some events. */
  ghost function Started(cf: Config, ps: Providers, events: seq<Event>): Option<Service> {
    After(cf, ps, Service([], map[]), events)
  }

  /** Event n was the lookup of call `id`, and `t` was live in the cache then. */
  ghost predicate WasLive(cf: Config, ps: Providers, events: seq<Event>, id: CallId, t: string, n: nat) {
    && n < |events| && events[n].Begin? && events[n].id == id && Started(cf, ps, events[..n]).Some?
    && exists entry :: entry in Started(cf, ps, events[..n]).value.cache && entry.text == t && entry.expires > events[n].now
  }

  /** Event n was a store of call `id`, and its newest entry is the provider's vector of `t`, fresh for the time to live. */
  ghost predicate WasStored(cf: Config, ps: Providers, events: seq<Event>, id: CallId, t: string, n: nat) {
    && n < |events| && events[n].StoreNext? && events[n].id == id && Started(cf, ps, events[..n+1]).Some?
    && var c := Started(cf, ps, events[..n+1]).value.cache;
       c != [] && c[|c|-1] == Entry(t, ps.embed(t), events[n].now + cf.ttl)
  }

  ghost predicate WasCached(cf: Config, ps: Providers, events: seq<Event>, id: CallId, t: string) {
    exists n :: WasLive(cf, ps, events, id, t, n) || WasStored(cf, ps, events, id, t, n)
  }

  lemma CachedBefore(cf: Config, ps: Providers, events: seq<Event>, e: Event, id: CallId, t: string)
    requires WasCached(cf, ps, events, id, t)
    ensures WasCached(cf, ps, events + [e], id, t)
  {
    var n: nat :| WasLive(cf, ps, events, id, t, n) || WasStored(cf, ps, events, id, t, n);
    assert 0 <= n < |events|;
    assert (events + [e])[..n] == events[..n] && (events + [e])[..n+1] == events[..n+1];
    assert WasLive(cf, ps, events + [e], id, t, n) || WasStored(cf, ps, events + [e], id, t, n);
  }

  /** The texts a query call is done with: those it found, and those it has stored so far. */
  ghost predicate DoneWith(call: Call, t: string) {
    match call.stage
    case Waiting(found, _) => |found| == |call.texts| && exists i :: 0 <= i < |found| && found[i].Some? && call.texts[i] == t
    case Merging(found, unique, _, _, stored) =>
      && |found| == |call.texts| && stored <= |unique|
      && ((exists i :: 0 <= i < |found| && found[i].Some? && call.texts[i] == t) || t in unique[..stored])
    case Returned(_, _) => t in call.texts
    case _ => false
  }

  /** A store puts its entry at the recent end. */
  lemma StoreIsNewest(cf: Config, c: Cache, op: Op)
    requires op.Put? && cf.maxSize > 0
    ensures var r := Run(cf, c, [op]); r != [] && r[|r|-1] == Entry(op.text, op.vec, op.now + cf.ttl)
  {
    RunSnoc(cf, c, [], op);
    RunOfNothing(cf, c);
    assert [] + [op] == [op];
  }

  /** A lookup is done with the texts that are live. */
  lemma LookIsDoneWith(cf: Config, c: Cache, call: Call, now: int, t: string)
    requires WellKept(cf, c) && call.isQuery
    requires DoneWith(call.(stage := Looked(call.texts, FoundBy(c, call.texts, true, now))), t)
    ensures exists entry :: entry in c && entry.text == t && entry.expires > now
  {
    LookUpKeeps(cf, c, call.texts, now);
    NonQueryAsks(call.texts, FoundBy(c, call.texts, true, now));
    hide Missing, LookedUp, WellKept;
  }

  /** A store adds its own text to those a call is done with; the last one completes the texts. */
  lemma MergeIsDoneWith(ps: Providers, call: Call, t: string)
    requires Right(ps, call) && call.stage.Merging? && DoneWith(call.(stage := Merged(call.texts, call.stage)), t)
    ensures DoneWith(call, t) || t == call.stage.unique[call.stage.stored]
  {
    var stage := call.stage;
    MissingFacts(call.texts, stage.found, |call.texts|);
    hide Missing, Filled;
    assert stage.unique[..stage.stored+1] == stage.unique[..stage.stored] + [stage.unique[stage.stored]];
    if stage.stored + 1 == |stage.unique| {
      assert stage.unique[..stage.stored+1] == stage.unique;
      var i :| 0 <= i < |call.texts| && call.texts[i] == t;
      if stage.found[i].None? {
        assert t in stage.unique;
      }
    }
  }

  /** A query call that takes a step is done with what it was done with before, and with what it found or stored now. */
  lemma StepIsDoneWith(cf: Config, ps: Providers, s: Service, e: Event, t: string)
    requires cf.maxSize > 0 && Sound(cf, ps, s) && Enabled(ps, s, e) && !e.Arrive? && s.calls[e.id].isQuery
    requires DoneWith(Step(cf, ps, s, e).calls[e.id], t)
    ensures || DoneWith(s.calls[e.id], t)
            || (e.Begin? && exists entry :: entry in s.cache && entry.text == t && entry.expires > e.now)
            || (e.StoreNext? && var c := Step(cf, ps, s, e).cache;
                                c != [] && c[|c|-1] == Entry(t, ps.embed(t), e.now + cf.ttl))
  {
    var call := s.calls[e.id];
    assert Right(ps, call);
    hide Run, WellKept, Coherent, Missing, Looked, Merged;
    match e
    case Begin(_, now) =>
      LookIsDoneWith(cf, s.cache, call, now, t);
    case StoreNext(_, now) =>
      MergeIsDoneWith(ps, call, t);
      StoreIsNewest(cf, s.cache, Put(call.stage.unique[call.stage.stored], call.stage.vecs[call.stage.stored], now));
    case Receive(_, reply, _) =>
      assert call.stage.unique[..0] == [];
    case _ =>
  }

  /**
   Theorem: every text of a query call that has returned was either live in the cache when the call looked it up, or
   stored by the call, as the newest entry and with the provider's vector, in any interleaving.
   */
  lemma {:induction false} ReturnedTextsWereCached(cf: Config, ps: Providers, events: seq<Event>, id: CallId, t: string)
    requires cf.maxSize > 0 && Started(cf, ps, events).Some? && id in Started(cf, ps, events).value.calls
    requires var call := Started(cf, ps, events).value.calls[id]; call.isQuery && DoneWith(call, t)
    ensures WasCached(cf, ps, events, id, t)
    decreases |events|
  {
    if events != [] {
      var before, e := events[..|events|-1], events[|events|-1];
      assert events == before + [e];
      AfterSnoc(cf, ps, Service([], map[]), before, e);
      RunKeepsSound(cf, ps, Service([], map[]), before);
      var s := Started(cf, ps, before).value;
      if id == e.id && !e.Arrive? {
        StepIsDoneWith(cf, ps, s, e, t);
      }
      hide After, Step, Sound, Enabled, DoneWith;
      if id in s.calls && DoneWith(s.calls[id], t) && s.calls[id].isQuery {
        ReturnedTextsWereCached(cf, ps, before, id, t);
        CachedBefore(cf, ps, before, e, id, t);
      } else {
        assert events[..|before|] == before && events[..|before|+1] == events;
        assert WasLive(cf, ps, events, id, t, |before|) || WasStored(cf, ps, events, id, t, |before|);
      }
    }
  }
}
