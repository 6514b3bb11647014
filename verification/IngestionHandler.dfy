/**
 The ingestion handler (job_dispatcher.py) around the lookup and the tenant slot, with an exception or a
 cancellation possible at every await.
 */
module IngestionHandler {
  import opened Basics
  import opened SourceLookup

  /** What comes of an await.  `landed`: the update under way took effect although its reply was lost. */
  datatype Reply = Done | Refused | Throws(landed: bool) | Interrupted(landed: bool)
  {
    predicate TookEffect() { Done? || ((Throws? || Interrupted?) && landed) }
  }

  datatype Effect = MetricsStart | Processed | Progress(success: bool) | MetricsFinish

  datatype Verdict = Result(ok: bool, reason: string) | Exception | Cancelled

  /** The await at which the handler stands; `ending` is the verdict on its way out. */
  datatype Place =
    | Entering                    // tenant_slot
    | Starting                    // metrics, "start"
    | Processing                  // processor.process
    | Succeeding                  // update_batch_progress, success=True
    | Failing                     // update_batch_progress, success=False
    | Finishing(ending: Verdict)  // metrics, "finish"
    | Leaving(ending: Verdict)    // the exit of tenant_slot
    | Over(ending: Verdict)

  datatype Body = Body(place: Place, effects: seq<Effect>)

  const START := Body(Entering, [])
  const SUCCESS := Result(true, "")

  /** update_batch_progress does nothing for a record without a batch. */
  function Reported(hasBatch: bool, success: bool, reply: Reply): seq<Effect> {
    if hasBatch && reply.TookEffect() then [Progress(success)] else []
  }

  /** Where an exception or a cancellation at an await of the way out leads. */
  function Overridden(ending: Verdict, reply: Reply): Verdict {
    if reply.Throws? then Exception else if reply.Interrupted? then Cancelled else ending
  }

  /** Only the slot refuses, with AlreadyProcessingError. */
  predicate CanReply(b: Body, reply: Reply) {
    !b.place.Over? && (reply.Refused? ==> b.place.Entering?)
  }

  function Resume(hasBatch: bool, b: Body, reply: Reply): Body
    requires CanReply(b, reply)
  {
    match b.place
    case Entering =>
      if reply.Done? then b.(place := Starting)
      else if reply.Refused? then b.(place := Over(Result(false, "already_processing")))
      else b.(place := Over(Overridden(SUCCESS, reply)))
    case Starting =>
      if reply.Done? then Body(Processing, b.effects + [MetricsStart])
      else b.(place := if reply.Throws? then Failing else Finishing(Cancelled))
    case Processing =>
      if reply.Done? then Body(Succeeding, b.effects + [Processed])
      else b.(place := if reply.Throws? then Failing else Finishing(Cancelled))
    case Succeeding =>
      Body(Finishing(if reply.Interrupted? then Cancelled else SUCCESS), b.effects + Reported(hasBatch, true, reply))
    case Failing =>
      Body(Finishing(if reply.Interrupted? then Cancelled else Exception), b.effects + Reported(hasBatch, false, reply))
    case Finishing(ending) =>
      Body(Leaving(Overridden(ending, reply)), b.effects + if reply.Done? then [MetricsFinish] else [])
    case Leaving(ending) =>
      b.(place := Over(Overridden(ending, reply)))
  }

  function Run(hasBatch: bool, b: Body, replies: seq<Reply>): Option<Body>
    decreases |replies|
  {
    if replies == [] then Some(b)
    else if !CanReply(b, replies[0]) then None
    else Run(hasBatch, Resume(hasBatch, b, replies[0]), replies[1..])
  }

  // ---------------------------------------------------------------- the order of effects

  function Rank(e: Effect): nat {
    match e
    case MetricsStart => 0
    case Processed => 1
    case Progress(_) => 2
    case MetricsFinish => 3
  }

  /** Each effect at most once, one progress update in all, and in the order of the source. */
  ghost predicate InOrder(effects: seq<Effect>) {
    forall i, j :: 0 <= i < j < |effects| ==> Rank(effects[i]) < Rank(effects[j])
  }

  /** The effects that are still to come at a place rank above these. */
  function Ceiling(place: Place): nat {
    match place
    case Entering => 0
    case Starting => 0
    case Processing => 1
    case Succeeding => 2
    case Failing => 2
    case Finishing(_) => 3
    case Leaving(_) => 4
    case Over(_) => 4
  }

  ghost predicate Below(effects: seq<Effect>, ceiling: nat) { forall e :: e in effects ==> Rank(e) < ceiling }

  ghost predicate Ordered(b: Body) { InOrder(b.effects) && Below(b.effects, Ceiling(b.place)) }

  /** What the effects so far say about the way the handler has taken. */
  ghost predicate Telling(b: Body) {
    && (Progress(true) in b.effects ==> Processed in b.effects)
    && (Processed in b.effects ==> MetricsStart in b.effects)
    && (b.place.Processing? ==> MetricsStart in b.effects)
    && (b.place.Succeeding? ==> Processed in b.effects)
    && (b.place.Failing? ==> Processed !in b.effects)
    && (Progress(false) in b.effects ==> Processed !in b.effects && (b.place.Finishing? || b.place.Leaving? || b.place.Over?)
                                         && !b.place.ending.Result?)
    && ((b.place.Finishing? || b.place.Leaving? || b.place.Over?) && b.place.ending == SUCCESS ==> Processed in b.effects)
    && ((b.place.Leaving? || b.place.Over?) && b.place.ending == SUCCESS ==> MetricsFinish in b.effects)
    && (b.place.Finishing? || b.place.Leaving? ==> b.place.ending.Result? ==> b.place.ending == SUCCESS)
  }

  lemma Appended(effects: seq<Effect>, more: seq<Effect>, ceiling: nat)
    requires InOrder(effects) && Below(effects, ceiling) && |more| <= 1 && (more != [] ==> Rank(more[0]) >= ceiling)
    ensures InOrder(effects + more) && (forall k: nat :: k >= ceiling && (more != [] ==> k > Rank(more[0])) ==> Below(effects + more, k))
    ensures forall x :: x in effects + more <==> x in effects || (more != [] && x == more[0])
  {
  }

  /** The effects of one resumption. */
  function More(hasBatch: bool, place: Place, reply: Reply): seq<Effect> {
    match place
    case Starting => if reply.Done? then [MetricsStart] else []
    case Processing => if reply.Done? then [Processed] else []
    case Succeeding => Reported(hasBatch, true, reply)
    case Failing => Reported(hasBatch, false, reply)
    case Finishing(_) => if reply.Done? then [MetricsFinish] else []
    case _ => []
  }

  lemma ResumeAppends(hasBatch: bool, b: Body, reply: Reply)
    requires CanReply(b, reply)
    ensures Resume(hasBatch, b, reply).effects == b.effects + More(hasBatch, b.place, reply)
  {
    assert b.effects + [] == b.effects;
  }

  lemma ResumeKeepsOrder(hasBatch: bool, b: Body, reply: Reply)
    requires Ordered(b) && CanReply(b, reply)
    ensures Ordered(Resume(hasBatch, b, reply))
  {
    ResumeAppends(hasBatch, b, reply);
    Appended(b.effects, More(hasBatch, b.place, reply), Ceiling(b.place));
    hide InOrder, Below;
  }

  lemma ResumeKeepsTelling(hasBatch: bool, b: Body, reply: Reply)
    requires Ordered(b) && Telling(b) && CanReply(b, reply)
    ensures Telling(Resume(hasBatch, b, reply))
  {
    ResumeAppends(hasBatch, b, reply);
    Appended(b.effects, More(hasBatch, b.place, reply), Ceiling(b.place));
    assert Ceiling(b.place) <= Rank(Processed) ==> Processed !in b.effects;
    hide InOrder, Below, Ordered;
  }

  lemma {:induction false} RunKeepsSound(hasBatch: bool, b: Body, replies: seq<Reply>)
    requires Ordered(b) && Telling(b) && Run(hasBatch, b, replies).Some?
    ensures Ordered(Run(hasBatch, b, replies).value) && Telling(Run(hasBatch, b, replies).value)
    decreases |replies|
  {
    if replies != [] {
      ResumeKeepsOrder(hasBatch, b, replies[0]);
      ResumeKeepsTelling(hasBatch, b, replies[0]);
      RunKeepsSound(hasBatch, Resume(hasBatch, b, replies[0]), replies[1..]);
    }
  }

  /**
   Theorem: wherever exceptions and cancellations strike, effects keep their order and happen at most once,
   a batch is never told both success and failure, it is told success only of a processed document and
   failure only of one that was not, and a successful result has a processed document and complete metrics.
   */
  lemma EffectsAreSound(hasBatch: bool, replies: seq<Reply>)
    requires Run(hasBatch, START, replies).Some?
    ensures var b := Run(hasBatch, START, replies).value;
            && InOrder(b.effects)
            && (Progress(true) in b.effects ==> Processed in b.effects && Progress(false) !in b.effects)
            && (Progress(false) in b.effects ==> Processed !in b.effects && (b.place.Over? ==> !b.place.ending.Result?))
            && (b.place == Over(SUCCESS) ==> [MetricsStart, Processed] <= b.effects && b.effects[|b.effects| - 1] == MetricsFinish)
  {
    RunKeepsSound(hasBatch, START, replies);
    var effects := Run(hasBatch, START, replies).value.effects;
    if Processed in effects {
      StartsWith(effects);
    }
    if MetricsFinish in effects {
      EndsWith(effects);
    }
  }

  lemma {:induction false} RanksRise(effects: seq<Effect>, i: nat)
    requires InOrder(effects) && i < |effects|
    ensures Rank(effects[i]) >= i
    decreases i
  {
    if i > 0 {
      RanksRise(effects, i - 1);
    }
  }

  lemma StartsWith(effects: seq<Effect>)
    requires InOrder(effects) && MetricsStart in effects && Processed in effects
    ensures [MetricsStart, Processed] <= effects
  {
    var i :| 0 <= i < |effects| && effects[i] == MetricsStart;
    var j :| 0 <= j < |effects| && effects[j] == Processed;
    RanksRise(effects, i);
    RanksRise(effects, j);
    assert i < j;
  }

  lemma EndsWith(effects: seq<Effect>)
    requires InOrder(effects) && MetricsFinish in effects
    ensures effects[|effects| - 1] == MetricsFinish
  {
    var i :| 0 <= i < |effects| && effects[i] == MetricsFinish;
    if i < |effects| - 1 {
      assert Rank(effects[i]) < Rank(effects[|effects| - 1]);
    }
  }

  // ---------------------------------------------------------------- the verdict

  predicate Ends(hasBatch: bool, b: Body, replies: seq<Reply>) {
    Run(hasBatch, b, replies).Some? && Run(hasBatch, b, replies).value.place.Over?
  }

  function VerdictOf(hasBatch: bool, b: Body, replies: seq<Reply>): Verdict
    requires Ends(hasBatch, b, replies)
  {
    Run(hasBatch, b, replies).value.place.ending
  }

  function EffectsOf(hasBatch: bool, b: Body, replies: seq<Reply>): seq<Effect>
    requires Ends(hasBatch, b, replies)
  {
    Run(hasBatch, b, replies).value.effects
  }

  lemma Continues(hasBatch: bool, b: Body, replies: seq<Reply>)
    requires Ends(hasBatch, b, replies) && !b.place.Over?
    ensures replies != [] && CanReply(b, replies[0]) && Run(hasBatch, Resume(hasBatch, b, replies[0]), replies[1..]) == Run(hasBatch, b, replies)
  {
  }

  lemma Stops(hasBatch: bool, b: Body, replies: seq<Reply>)
    requires Run(hasBatch, b, replies).Some? && b.place.Over?
    ensures replies == []
  {
  }

  /** The way out: metrics, then the exit of the slot. */
  lemma FromFinishing(hasBatch: bool, b: Body, replies: seq<Reply>)
    requires b.place.Finishing? && Ends(hasBatch, b, replies)
    ensures |replies| == 2 && !replies[0].Refused? && !replies[1].Refused?
    ensures VerdictOf(hasBatch, b, replies) == Overridden(Overridden(b.place.ending, replies[0]), replies[1])
    ensures EffectsOf(hasBatch, b, replies) == b.effects + if replies[0].Done? then [MetricsFinish] else []
  {
    Continues(hasBatch, b, replies);
    Continues(hasBatch, Resume(hasBatch, b, replies[0]), replies[1..]);
    assert replies[1..][1..] == replies[2..];
    Stops(hasBatch, Resume(hasBatch, Resume(hasBatch, b, replies[0]), replies[1]), replies[2..]);
  }

  /** Both updates of the batch swallow exceptions but not cancellation. */
  lemma FromTelling(hasBatch: bool, b: Body, replies: seq<Reply>)
    requires (b.place.Succeeding? || b.place.Failing?) && Ends(hasBatch, b, replies)
    ensures |replies| == 3 && !replies[0].Refused? && !replies[1].Refused? && !replies[2].Refused?
    ensures var ending := if replies[0].Interrupted? then Cancelled else if b.place.Succeeding? then SUCCESS else Exception;
            VerdictOf(hasBatch, b, replies) == Overridden(Overridden(ending, replies[1]), replies[2])
    ensures EffectsOf(hasBatch, b, replies) == b.effects + Reported(hasBatch, b.place.Succeeding?, replies[0])
                                                + if replies[1].Done? then [MetricsFinish] else []
  {
    FromFinishing(hasBatch, Resume(hasBatch, b, replies[0]), replies[1..]);
  }

  /** Whichever of the first awaits fails. */
  lemma FromTrying(hasBatch: bool, b: Body, replies: seq<Reply>)
    requires (b.place.Starting? || b.place.Processing?) && Ends(hasBatch, b, replies) && !replies[0].Done?
    ensures |replies| == if replies[0].Throws? then 4 else 3
    ensures replies[0].Throws? ==>
              VerdictOf(hasBatch, b, replies) ==
              Overridden(Overridden(if replies[1].Interrupted? then Cancelled else Exception, replies[2]), replies[3])
    ensures replies[0].Interrupted? ==> VerdictOf(hasBatch, b, replies) == Overridden(Overridden(Cancelled, replies[1]), replies[2])
    ensures EffectsOf(hasBatch, b, replies) ==
            if replies[0].Throws? then b.effects + Reported(hasBatch, false, replies[1]) + (if replies[2].Done? then [MetricsFinish] else [])
            else b.effects + if replies[1].Done? then [MetricsFinish] else []
  {
    var next := Resume(hasBatch, b, replies[0]);
    if replies[0].Throws? {
      FromTelling(hasBatch, next, replies[1..]);
    } else {
      FromFinishing(hasBatch, next, replies[1..]);
    }
  }

  /** The first three awaits went well: the document was processed. */
  predicate Works(replies: seq<Reply>) { |replies| >= 3 && replies[0].Done? && replies[1].Done? && replies[2].Done? }

  /** The body raised; the next await is that of telling the batch. */
  predicate Breaks(replies: seq<Reply>, k: nat) {
    1 <= k <= 2 && k + 3 < |replies| && replies[0].Done? && (k == 2 ==> replies[1].Done?) && replies[k].Throws?
  }

  /** A completed run whose document was processed. */
  lemma FromWorking(hasBatch: bool, replies: seq<Reply>)
    requires Ends(hasBatch, START, replies) && Works(replies)
    ensures |replies| == 6 && !replies[4].Refused? && !replies[5].Refused?
    ensures VerdictOf(hasBatch, START, replies) ==
            Overridden(Overridden(if replies[3].Interrupted? then Cancelled else SUCCESS, replies[4]), replies[5])
    ensures EffectsOf(hasBatch, START, replies) ==
            [MetricsStart, Processed] + Reported(hasBatch, true, replies[3]) + if replies[4].Done? then [MetricsFinish] else []
  {
    var b1 := Resume(hasBatch, START, replies[0]);
    var b2 := Resume(hasBatch, b1, replies[1]);
    var b3 := Resume(hasBatch, b2, replies[2]);
    Continues(hasBatch, START, replies);
    Continues(hasBatch, b1, replies[1..]);
    assert replies[1..][1..] == replies[2..] && replies[2..][1..] == replies[3..];
    Continues(hasBatch, b2, replies[2..]);
    assert b3.effects == [MetricsStart, Processed];
    FromTelling(hasBatch, b3, replies[3..]);
  }

  lemma TryingTells(hasBatch: bool, b: Body, replies: seq<Reply>)
    requires (b.place.Starting? || b.place.Processing?) && Ends(hasBatch, b, replies) && !replies[0].Done?
    requires b.effects == [] || b.effects == [MetricsStart]
    ensures !VerdictOf(hasBatch, b, replies).Result? && Processed !in EffectsOf(hasBatch, b, replies)
    ensures Progress(true) !in EffectsOf(hasBatch, b, replies) && |replies| >= 3
    ensures Progress(false) in EffectsOf(hasBatch, b, replies) <==> hasBatch && replies[0].Throws? && replies[1].TookEffect()
    ensures replies[0].Throws? ==> |replies| == 4
  {
    FromTrying(hasBatch, b, replies);
  }

  /** A completed run that does not get so far. */
  lemma FromFailing(hasBatch: bool, replies: seq<Reply>)
    requires Ends(hasBatch, START, replies) && !Works(replies)
    ensures if replies == [Refused] then VerdictOf(hasBatch, START, replies) == Result(false, "already_processing")
            else !VerdictOf(hasBatch, START, replies).Result?
    ensures Processed !in EffectsOf(hasBatch, START, replies) && Progress(true) !in EffectsOf(hasBatch, START, replies)
    ensures Progress(false) in EffectsOf(hasBatch, START, replies) <==>
            hasBatch && exists k :: Breaks(replies, k) && replies[k + 1].TookEffect()
  {
    var b1 := Body(Starting, []);
    Continues(hasBatch, START, replies);
    if !replies[0].Done? {
      Stops(hasBatch, Resume(hasBatch, START, replies[0]), replies[1..]);
    } else {
      Continues(hasBatch, b1, replies[1..]);
      hide Run;
      if !replies[1].Done? {
        TryingTells(hasBatch, b1, replies[1..]);
        assert replies[1].Throws? ==> Breaks(replies, 1);
      } else {
        FailingLater(hasBatch, replies);
      }
    }
  }

  lemma FailingLater(hasBatch: bool, replies: seq<Reply>)
    requires |replies| >= 2 && replies[0].Done? && replies[1].Done? && !Works(replies)
    requires Ends(hasBatch, Body(Starting, []), replies[1..])
    ensures var b := Body(Starting, []);
            && !VerdictOf(hasBatch, b, replies[1..]).Result? && Processed !in EffectsOf(hasBatch, b, replies[1..])
            && Progress(true) !in EffectsOf(hasBatch, b, replies[1..])
            && (Progress(false) in EffectsOf(hasBatch, b, replies[1..]) <==>
                hasBatch && exists k :: Breaks(replies, k) && replies[k + 1].TookEffect())
  {
    var b2 := Body(Processing, [MetricsStart]);
    Continues(hasBatch, Body(Starting, []), replies[1..]);
    assert replies[1..][1..] == replies[2..] && [] + [MetricsStart] == [MetricsStart];
    Continues(hasBatch, b2, replies[2..]);
    hide Run;
    TryingTells(hasBatch, b2, replies[2..]);
    assert replies[2].Throws? ==> Breaks(replies, 2);
  }

  /**
   Theorem: a completed run returns success exactly when the document was processed and neither the update of
   the batch, which only a cancellation can break off, nor the way out fails.  The batch is told success
   exactly when it was processed and the update took effect, whatever the verdict then is; it is told failure
   exactly when the body raised and the update took effect, also if a cancellation strikes while telling it.
   */
  lemma OutcomesAreExact(hasBatch: bool, replies: seq<Reply>)
    requires Ends(hasBatch, START, replies)
    ensures var verdict, effects := VerdictOf(hasBatch, START, replies), EffectsOf(hasBatch, START, replies);
            && (verdict == SUCCESS <==> Works(replies) && |replies| == 6 && !replies[3].Interrupted? && replies[4].Done? && replies[5].Done?)
            && (verdict == Result(false, "already_processing") <==> replies == [Refused])
            && (Processed in effects <==> Works(replies))
            && (Progress(true) in effects <==> Works(replies) && hasBatch && |replies| == 6 && replies[3] in {Done, Throws(true), Interrupted(true)})
            && (Progress(false) in effects <==>
                  hasBatch && exists k :: Breaks(replies, k) && replies[k + 1] in {Done, Throws(true), Interrupted(true)})
  {
    if Works(replies) {
      FromWorking(hasBatch, replies);
      assert Progress(false) !in EffectsOf(hasBatch, START, replies);
      assert forall k :: !Breaks(replies, k);
    } else {
      FromFailing(hasBatch, replies);
    }
  }

  /** An exception of the update of the batch goes no further: after the document was processed, or after the body raised. */
  ghost predicate Swallowed(replies: seq<Reply>, i: int) {
    0 <= i < |replies| && replies[i].Throws? && ((Works(replies) && i == 3) || exists k: nat :: Breaks(replies, k) && i == k + 1)
  }

  /** The last exception or cancellation that goes further. */
  ghost predicate Decides(replies: seq<Reply>, i: int) {
    && 0 <= i < |replies| && (replies[i].Throws? || replies[i].Interrupted?) && !Swallowed(replies, i)
    && forall j :: i < j < |replies| ==> replies[j].Done? || Swallowed(replies, j)
  }

  /** The verdict before the two awaits of the way out. */
  ghost predicate LeavesWith(replies: seq<Reply>, inner: Verdict, verdict: Verdict) {
    && |replies| >= 4 && (forall j :: |replies| - 2 <= j < |replies| ==> !replies[j].Refused? && !Swallowed(replies, j))
    && verdict == Overridden(Overridden(inner, replies[|replies|-2]), replies[|replies|-1])
  }

  /** An exception or a cancellation on the way out overrides what came before. */
  lemma WayOutDecides(replies: seq<Reply>, inner: Verdict, verdict: Verdict, i: nat)
    requires LeavesWith(replies, inner, verdict)
    requires inner == SUCCESS || inner == Exception || inner == Cancelled
    requires if inner == SUCCESS then forall j :: 0 <= j < |replies| - 2 ==> replies[j].Done? || Swallowed(replies, j)
             else i < |replies| - 2 && (if inner == Exception then replies[i].Throws? else replies[i].Interrupted?)
                  && !Swallowed(replies, i) && forall j :: i < j < |replies| - 2 ==> replies[j].Done? || Swallowed(replies, j)
    ensures verdict == Exception <==> exists d :: Decides(replies, d) && replies[d].Throws?
    ensures verdict == Cancelled <==> exists d :: Decides(replies, d) && replies[d].Interrupted?
  {
    var n := |replies|;
    hide Swallowed;
    if !replies[n-1].Done? {
      assert Decides(replies, n - 1);
    } else if !replies[n-2].Done? {
      assert Decides(replies, n - 2);
    } else if inner != SUCCESS {
      assert Decides(replies, i);
    }
  }

  /** A run that processed the document. */
  lemma WorkingVerdict(hasBatch: bool, replies: seq<Reply>)
    requires Ends(hasBatch, START, replies) && Works(replies)
    ensures var verdict, effects := VerdictOf(hasBatch, START, replies), EffectsOf(hasBatch, START, replies);
            && |replies| == 6 && MetricsStart in effects && (MetricsFinish in effects <==> replies[4].Done?)
            && (verdict == Exception <==> exists d :: Decides(replies, d) && replies[d].Throws?)
            && (verdict == Cancelled <==> exists d :: Decides(replies, d) && replies[d].Interrupted?)
  {
    FromWorking(hasBatch, replies);
    var inner := if replies[3].Interrupted? then Cancelled else SUCCESS;
    assert forall k :: !Breaks(replies, k);
    assert Swallowed(replies, 3) <==> replies[3].Throws?;
    Continues(hasBatch, START, replies);
    NotRefusedWorking(hasBatch, replies);
    WayOutDecides(replies, inner, VerdictOf(hasBatch, START, replies), 3);
  }

  lemma NotRefusedWorking(hasBatch: bool, replies: seq<Reply>)
    requires Ends(hasBatch, START, replies) && Works(replies) && |replies| == 6
    ensures !replies[3].Refused?
  {
    var b1 := Resume(hasBatch, START, replies[0]);
    var b2 := Resume(hasBatch, b1, replies[1]);
    Continues(hasBatch, START, replies);
    Continues(hasBatch, b1, replies[1..]);
    assert replies[1..][1..] == replies[2..] && replies[2..][1..] == replies[3..];
    Continues(hasBatch, b2, replies[2..]);
    Continues(hasBatch, Resume(hasBatch, b2, replies[2]), replies[3..]);
  }

  /** A run that entered the slot and whose body then broke at the k-th reply: the metrics. */
  lemma BrokenMetrics(hasBatch: bool, b: Body, replies: seq<Reply>, k: nat)
    requires 1 <= k <= 2 && k < |replies| && !replies[k].Done?
    requires (if k == 1 then b == Body(Starting, []) else b == Body(Processing, [MetricsStart])) && Ends(hasBatch, b, replies[k..])
    ensures |replies| == k + if replies[k].Throws? then 4 else 3
    ensures var effects := EffectsOf(hasBatch, b, replies[k..]);
            (MetricsStart in effects <==> k == 2) && (MetricsFinish in effects <==> replies[|replies|-2].Done?)
  {
    Continues(hasBatch, b, replies[k..]);
    FromTrying(hasBatch, b, replies[k..]);
    hide Run, Resume, Ends, VerdictOf;
  }

  /** And its verdict. */
  lemma BrokenVerdict(hasBatch: bool, b: Body, replies: seq<Reply>, k: nat)
    requires 1 <= k <= 2 && k < |replies| && replies[0].Done? && (k == 2 ==> replies[1].Done?) && !replies[k].Done?
    requires (if k == 1 then b == Body(Starting, []) else b == Body(Processing, [MetricsStart])) && Ends(hasBatch, b, replies[k..])
    ensures var verdict := VerdictOf(hasBatch, b, replies[k..]);
            && (verdict == Exception <==> exists d :: Decides(replies, d) && replies[d].Throws?)
            && (verdict == Cancelled <==> exists d :: Decides(replies, d) && replies[d].Interrupted?)
  {
    var rest := replies[k..];
    Continues(hasBatch, b, rest);
    FromTrying(hasBatch, b, rest);
    BrokenReplies(hasBatch, b, rest);
    var verdict := VerdictOf(hasBatch, b, rest);
    assert forall j :: 0 <= j < |rest| ==> rest[j] == replies[k + j];
    SwallowedWhenBroken(replies, k);
    hide Run, Resume, Ends, VerdictOf, EffectsOf, Works, Breaks, Decides, Swallowed, Reported;
    if !replies[k].Throws? {
      WayOutDecides(replies, Cancelled, verdict, k);
    } else if replies[k+1].Interrupted? {
      WayOutDecides(replies, Cancelled, verdict, k + 1);
    } else {
      WayOutDecides(replies, Exception, verdict, k);
    }
  }

  lemma SwallowedWhenBroken(replies: seq<Reply>, k: nat)
    requires 1 <= k <= 2 && k < |replies| && replies[0].Done? && (k == 2 ==> replies[1].Done?) && !replies[k].Done?
    requires |replies| == k + if replies[k].Throws? then 4 else 3
    ensures forall j :: Swallowed(replies, j) <==> replies[k].Throws? && j == k + 1 && replies[j].Throws?
  {
    assert !Works(replies);
    assert replies[k].Throws? ==> Breaks(replies, k);
    forall j ensures Swallowed(replies, j) <==> replies[k].Throws? && j == k + 1 && replies[j].Throws? {
      assert forall m: nat :: Breaks(replies, m) ==> m == k;
    }
  }

  /** None of the replies after a failed start or process refuses. */
  lemma BrokenReplies(hasBatch: bool, b: Body, replies: seq<Reply>)
    requires (b.place.Starting? || b.place.Processing?) && Ends(hasBatch, b, replies) && !replies[0].Done?
    ensures |replies| == if replies[0].Throws? then 4 else 3
    ensures forall j :: 0 <= j < |replies| ==> !replies[j].Refused?
  {
    var next := Resume(hasBatch, b, replies[0]);
    Continues(hasBatch, b, replies);
    if replies[0].Throws? {
      FromTelling(hasBatch, next, replies[1..]);
      assert forall j :: 1 <= j < |replies| ==> replies[j] == replies[1..][j-1];
    } else {
      FromFinishing(hasBatch, next, replies[1..]);
      assert forall j :: 1 <= j < |replies| ==> replies[j] == replies[1..][j-1];
    }
  }

  /**
   Theorem: a completed run raises or is cancelled exactly if its last exception or cancellation that is not an
   exception of telling the batch is one.  The metrics are started exactly if the slot was entered and the start
   went well, and finished exactly if the slot was entered and the finish went well, whatever happened in between.
   */
  lemma LastTroubleDecides(hasBatch: bool, replies: seq<Reply>)
    requires Ends(hasBatch, START, replies)
    ensures var verdict, effects := VerdictOf(hasBatch, START, replies), EffectsOf(hasBatch, START, replies);
            && (verdict == Exception <==> exists d :: Decides(replies, d) && replies[d].Throws?)
            && (verdict == Cancelled <==> exists d :: Decides(replies, d) && replies[d].Interrupted?)
            && (MetricsStart in effects <==> |replies| >= 2 && replies[0].Done? && replies[1].Done?)
            && (MetricsFinish in effects <==> |replies| >= 2 && replies[0].Done? && replies[|replies|-2].Done?)
  {
    Continues(hasBatch, START, replies);
    if Works(replies) {
      WorkingVerdict(hasBatch, replies);
    } else if !replies[0].Done? {
      Stops(hasBatch, Resume(hasBatch, START, replies[0]), replies[1..]);
      assert |replies| == 1 && !Swallowed(replies, 0);
      assert !replies[0].Refused? ==> Decides(replies, 0);
    } else {
      var b1, b2 := Body(Starting, []), Body(Processing, [MetricsStart]);
      Continues(hasBatch, b1, replies[1..]);
      assert replies[1..][1..] == replies[2..] && [] + [MetricsStart] == [MetricsStart];
      if !replies[1].Done? {
        BrokenMetrics(hasBatch, b1, replies, 1);
        BrokenVerdict(hasBatch, b1, replies, 1);
      } else {
        Continues(hasBatch, b2, replies[2..]);
        BrokenMetrics(hasBatch, b2, replies, 2);
        BrokenVerdict(hasBatch, b2, replies, 2);
      }
    }
  }

  // ---------------------------------------------------------------- the handler

  /** What every await of one call brings; the batch is told at most once. */
  datatype Awaits = Awaits(enter: Reply, start: Reply, process: Reply, tell: Reply, finish: Reply, leave: Reply)
  {
    predicate Valid() { !start.Refused? && !process.Refused? && !tell.Refused? && !finish.Refused? && !leave.Refused? }

    function At(place: Place): Reply {
      match place
      case Entering => enter
      case Starting => start
      case Processing => process
      case Succeeding => tell
      case Failing => tell
      case Finishing(_) => finish
      case _ => leave
    }
  }

  /** How many awaits are ahead, at most. */
  function Ahead(place: Place): nat {
    match place
    case Entering => 6
    case Starting => 5
    case Processing => 4
    case Succeeding => 3
    case Failing => 3
    case Finishing(_) => 2
    case Leaving(_) => 1
    case Over(_) => 0
  }

  /** Where the steps lead. */
  function Final(hasBatch: bool, b: Body, awaits: Awaits): Body
    requires awaits.Valid()
    decreases Ahead(b.place)
  {
    if b.place.Over? then b else Final(hasBatch, Resume(hasBatch, b, awaits.At(b.place)), awaits)
  }

  lemma OneAwaitFurther(hasBatch: bool, b: Body, awaits: Awaits)
    requires awaits.Valid() && !b.place.Over?
    ensures Final(hasBatch, b, awaits) == Final(hasBatch, Resume(hasBatch, b, awaits.At(b.place)), awaits)
  {
  }

  lemma FinalWhenLeaving(hasBatch: bool, verdict: Verdict, effects: seq<Effect>, awaits: Awaits)
    requires awaits.Valid()
    ensures Final(hasBatch, Body(Leaving(verdict), effects), awaits) == Body(Over(Overridden(verdict, awaits.leave)), effects)
  {
  }

  /** That is the end of a run. */
  lemma {:induction false} FinalIsRun(hasBatch: bool, b: Body, awaits: Awaits) returns (replies: seq<Reply>)
    requires awaits.Valid()
    ensures Ends(hasBatch, b, replies) && Run(hasBatch, b, replies) == Some(Final(hasBatch, b, awaits))
    decreases Ahead(b.place)
  {
    replies := [];
    if !b.place.Over? {
      var reply := awaits.At(b.place);
      var rest := FinalIsRun(hasBatch, Resume(hasBatch, b, reply), awaits);
      replies := [reply] + rest;
      assert replies[1..] == rest;
    }
  }

  class WorkerJobDispatcher {
    const jobProcessor: SourceDocumentJobProcessor

    constructor (jobProcessor: SourceDocumentJobProcessor)
      ensures this.jobProcessor == jobProcessor
    {
      this.jobProcessor := jobProcessor;
    }

    /** update_batch_progress: one step of the handler, past telling the batch; no exception gets out of it. */
    method UpdateBatchProgress(hasBatch: bool, success: bool, reply: Reply) returns (effects: seq<Effect>, interrupted: bool)
      requires !reply.Refused?
      ensures forall before ::
                Resume(hasBatch, Body(if success then Succeeding else Failing, before), reply) ==
                Body(Finishing(if interrupted then Cancelled else if success then SUCCESS else Exception), before + effects)
    {
      effects := if hasBatch && reply.TookEffect() then [Progress(success)] else [];
      interrupted := reply.Interrupted?;
    }

    /**
     The body of the slot: start, process and tell success; on an exception tell failure; finally the metrics.
     `raised`: the exception or cancellation that is on its way out, if any.
     */
    method RunBody(hasBatch: bool, awaits: Awaits) returns (verdict: Verdict, effects: seq<Effect>)
      requires awaits.Valid()
      ensures Final(hasBatch, Body(Starting, []), awaits) == Body(Over(Overridden(verdict, awaits.leave)), effects)
    {
      hide Final;
      ghost var b := Body(Starting, []);
      ghost var end := Final(hasBatch, b, awaits);
      effects, verdict := [], SUCCESS;
      var raised := awaits.start;
      OneAwaitFurther(hasBatch, b, awaits);
      b := Resume(hasBatch, b, awaits.start);
      if awaits.start.Done? {
        effects := effects + [MetricsStart];
        raised := awaits.process;
        OneAwaitFurther(hasBatch, b, awaits);
        b := Resume(hasBatch, b, awaits.process);
        if awaits.process.Done? {
          effects := effects + [Processed];
          var told, interrupted := UpdateBatchProgress(hasBatch, true, awaits.tell);
          effects := effects + told;
          raised := if interrupted then awaits.tell else Done;
          OneAwaitFurther(hasBatch, b, awaits);
          b := Resume(hasBatch, b, awaits.tell);
        }
      }
      assert b == Body(if raised.Throws? then Failing else Finishing(Overridden(SUCCESS, raised)), effects);
      verdict := Overridden(SUCCESS, raised);
      if raised.Throws? {
        var told, interrupted := UpdateBatchProgress(hasBatch, false, awaits.tell);
        effects := effects + told;
        OneAwaitFurther(hasBatch, b, awaits);
        b := Resume(hasBatch, b, awaits.tell);
        verdict := if interrupted then Cancelled else Exception;
      }
      assert b == Body(Finishing(verdict), effects);
      OneAwaitFurther(hasBatch, b, awaits);
      if awaits.finish.Done? {
        effects := effects + [MetricsFinish];
      } else {
        assert effects + [] == effects;
        verdict := Overridden(verdict, awaits.finish);
      }
      FinalWhenLeaving(hasBatch, verdict, effects, awaits);
    }

    /** handle_ingestion: what it does with a record is the run of the steps above, to its end. */
    method HandleIngestion(call: Call, hasBatch: bool, awaits: Awaits) returns (verdict: Verdict, effects: seq<Effect>)
      requires jobProcessor.Valid() && awaits.Valid()
      modifies jobProcessor
      ensures jobProcessor.Valid() && jobProcessor.history == old(jobProcessor.history) + [call]
      ensures var answer := Answer(jobProcessor.maxSourceLookupRequeues, old(jobProcessor.sourceLookupRequeues), call);
              match answer
              case Record => Body(Over(verdict), effects) == Final(hasBatch, START, awaits)
              case NoRecord => verdict == Result(false, "source_document_not_found") && effects == []
              case Requeued => verdict == Cancelled && effects == []
              case Raised => verdict == Exception && effects == []
    {
      effects := [];
      var r := jobProcessor.LoadRecordWithRetries(call);
      match r {
        case NoRecord => verdict := Result(false, "source_document_not_found");
        case Raised => verdict := Exception;
        case Requeued => verdict := Cancelled;
        case Record =>
          assert Final(hasBatch, START, awaits) == Final(hasBatch, Resume(hasBatch, START, awaits.enter), awaits);
          if awaits.enter.Refused? {
            verdict := Result(false, "already_processing");
          } else if !awaits.enter.Done? {
            verdict := Overridden(SUCCESS, awaits.enter);
          } else {
            verdict, effects := RunBody(hasBatch, awaits);
            verdict := Overridden(verdict, awaits.leave);
          }
      }
    }
  }
}
