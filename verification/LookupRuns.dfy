/**
 Lookups of source documents within runs of the job queue: the counters of each worker process
 (job_processor.py) and the pollers that a lookup requeue ends (worker.py).
 */
module LookupRuns {
  import opened Basics
  import opened SourceLookup
  import JobQueue

  type PollerId = JobQueue.PollerId

  const INGEST := "ingest_document"

  /** How far the handler of a poller's last claim has got with its lookup. */
  datatype Stage =
    | NoClaim
    | Looking(job: JobId)
    | Requeuing(job: JobId)       // failed within the budget: the job is to be given back
    | GaveUp(job: JobId)          // failed beyond it: the handler returns "not found"
    | Known(job: JobId)           // the load answered
    | Erring(job: JobId)          // an exception reaches the worker
  {
    predicate Of(j: JobId) { !NoClaim? && job == j }
  }

  /**
   counters: those of each worker process; errors: lookup requeues that raised, by process and job;
   gaveUp, answered: jobs with a lookup that gave up, or that the document store answered.
   */
  datatype World = World(queue: JobQueue.State, stages: map<PollerId, Stage>, counters: map<nat, Counters>,
                         errors: map<(nat, JobId), nat>, gaveUp: set<JobId>, answered: set<JobId>)

  datatype Event = Act(action: JobQueue.Action) | Look(p: PollerId, loaded: Loaded)

  function CountersOf(w: World, worker: nat): Counters {
    if worker in w.counters then w.counters[worker] else map[]
  }

  function Errors(w: World, worker: nat, j: JobId): nat {
    if (worker, j) in w.errors then w.errors[(worker, j)] else 0
  }

  function StageOf(w: World, p: PollerId): Stage { if p in w.stages then w.stages[p] else NoClaim }

  /** The handler reports what its lookup made of the job. */
  predicate Allowed(stage: Stage, m: JobQueue.Move) {
    match m
    case Send(Complete) => stage.GaveUp? || stage.Known?
    case Send(GiveBack) => stage.Requeuing?
    case Raise => stage.Erring? || stage.Known?
    case _ => true
  }

  /** The requeue of a failed lookup raises. */
  predicate RequeueRaises(phase: JobQueue.Phase, m: JobQueue.Move) {
    m.GiveUp? && phase.Awaiting? && phase.report.GiveBack?
  }

  function StageAfter(stage: Stage, phase: JobQueue.Phase, m: JobQueue.Move): Stage {
    if m.Claim? then Looking(m.job) else if RequeueRaises(phase, m) then Erring(phase.job) else stage
  }

  /** Enrichment looks once; ingestion within its budget. */
  function Looked(max: nat, counters: Counters, jobType: string, job: JobId, loaded: Loaded): Stage {
    if loaded.Answered? then Known(job)
    else if jobType != INGEST then Erring(job)
    else
      match Answer(max, counters, Call(job, loaded, true))
      case Requeued => Requeuing(job)
      case NoRecord => GaveUp(job)
      case _ => Erring(job)
  }

  predicate Enabled(c: JobQueue.Config, w: World, e: Event) {
    match e
    case Act(a) => JobQueue.Enabled(c, w.queue, a) && (a.Do? ==> Allowed(StageOf(w, a.p), a.move))
    case Look(p, _) => p in w.queue.pollers && w.queue.pollers[p].phase.Working? && StageOf(w, p).Looking?
  }

  function Step(c: JobQueue.Config, max: nat, w: World, e: Event): World
    requires Enabled(c, w, e)
  {
    match e
    case Act(a) =>
      if !a.Do? then w.(queue := JobQueue.Step(c, w.queue, a))
      else
        var poller := w.queue.pollers[a.p];
        w.(queue := JobQueue.Step(c, w.queue, a),
           stages := w.stages[a.p := StageAfter(StageOf(w, a.p), poller.phase, a.move)],
           errors := if RequeueRaises(poller.phase, a.move)
                     then w.errors[(poller.worker, poller.phase.job) := Errors(w, poller.worker, poller.phase.job) + 1] else w.errors)
    case Look(p, loaded) =>
      var poller, job := w.queue.pollers[p], StageOf(w, p).job;
      var counters := CountersOf(w, poller.worker);
      var stage := Looked(max, counters, poller.jobType, job, loaded);
      w.(stages := w.stages[p := stage],
         counters := if poller.jobType == INGEST then w.counters[poller.worker := NextCounters(max, counters, Call(job, loaded, true))]
                     else w.counters,
         gaveUp := if stage.GaveUp? then w.gaveUp + {job} else w.gaveUp,
         answered := if loaded.Answered? then w.answered + {job} else w.answered)
  }

  function Run(c: JobQueue.Config, max: nat, w: World, events: seq<Event>): Option<World>
    decreases |events|
  {
    if events == [] then Some(w)
    else if !Enabled(c, w, events[0]) then None
    else Run(c, max, Step(c, max, w, events[0]), events[1..])
  }

  /** Fresh worker processes. */
  predicate Start(w: World) {
    JobQueue.Start(w.queue) && w.stages == map[] && w.counters == map[] && w.errors == map[] && w.gaveUp == {} && w.answered == {}
  }

  // ---------------------------------------------------------------- what lookups and reports have to do with each other

  /** The stage of a poller fits where it is. */
  predicate Fits(stage: Stage, phase: JobQueue.Phase) {
    && (phase.HasHeart() ==> stage.Of(phase.job))
    && (stage.Requeuing? ==> phase.Stopped? || phase.Working? || (phase.Awaiting? && phase.report.GiveBack?))
    && (phase.Awaiting? && phase.report.Complete? ==> stage.GaveUp? || stage.Known?)
  }

  lemma MoveKeepsFit(c: JobQueue.Config, gateOpen: bool, now: int, stage: Stage, phase: JobQueue.Phase, m: JobQueue.Move)
    requires JobQueue.Can(c, now, phase, m) && Allowed(stage, m) && Fits(stage, phase)
    ensures Fits(StageAfter(stage, phase, m), JobQueue.Next(c, gateOpen, now, phase, m))
  {
  }

  ghost predicate AllFit(w: World) {
    forall p :: p in w.queue.pollers ==> Fits(StageOf(w, p), w.queue.pollers[p].phase)
  }

  lemma MoverFits(c: JobQueue.Config, max: nat, w: World, p: PollerId, m: JobQueue.Move)
    requires AllFit(w) && Enabled(c, w, Act(JobQueue.Do(p, m)))
    ensures var n := Step(c, max, w, Act(JobQueue.Do(p, m)));
            p in n.queue.pollers && Fits(StageOf(n, p), n.queue.pollers[p].phase)
  {
    hide JobQueue.Apply, JobQueue.LeftBehind, JobQueue.Next, JobQueue.EffectOf, Fits, StageAfter;
    var s := w.queue;
    MoveKeepsFit(c, JobQueue.GateOpen(c, s, p), s.now, StageOf(w, p), s.pollers[p].phase, m);
  }

  lemma MoveKeepsAllFit(c: JobQueue.Config, max: nat, w: World, p: PollerId, m: JobQueue.Move)
    requires AllFit(w) && Enabled(c, w, Act(JobQueue.Do(p, m)))
    ensures AllFit(Step(c, max, w, Act(JobQueue.Do(p, m))))
  {
    MoverFits(c, max, w, p, m);
    hide JobQueue.Moved, JobQueue.Apply, JobQueue.LeftBehind, JobQueue.Next, Fits, StageAfter;
    JobQueue.MovedFacts(c, w.queue, p, m);
  }

  lemma LookKeepsAllFit(c: JobQueue.Config, max: nat, w: World, p: PollerId, loaded: Loaded)
    requires AllFit(w) && Enabled(c, w, Look(p, loaded))
    ensures AllFit(Step(c, max, w, Look(p, loaded)))
  {
    hide NextCounters, JobQueue.Step, JobQueue.Enabled;
  }

  lemma OthersKeepAllFit(c: JobQueue.Config, max: nat, w: World, a: JobQueue.Action)
    requires AllFit(w) && Enabled(c, w, Act(a)) && !a.Do?
    ensures AllFit(Step(c, max, w, Act(a)))
  {
    hide Fits, JobQueue.Apply;
  }

  lemma StepKeepsFit(c: JobQueue.Config, max: nat, w: World, e: Event)
    requires AllFit(w) && Enabled(c, w, e)
    ensures AllFit(Step(c, max, w, e))
  {
    hide AllFit, Step;
    match e
    case Act(a) =>
      if a.Do? { MoveKeepsAllFit(c, max, w, a.p, a.move); } else { OthersKeepAllFit(c, max, w, a); }
    case Look(p, loaded) => LookKeepsAllFit(c, max, w, p, loaded);
  }

  /** The job was looked up to an end: some lookup of it gave up or was answered. */
  predicate LookedUp(w: World, j: JobId) { j in w.gaveUp || j in w.answered }

  /** Whatever completes a job, or has completed it, comes after such a lookup. */
  ghost predicate Accounted(w: World, j: JobId) {
    && (forall p :: p in w.queue.pollers && (StageOf(w, p) == GaveUp(j) || StageOf(w, p) == Known(j)) ==> LookedUp(w, j))
    && (forall x :: x in w.queue.strays && x.statement == JobQueue.Outcome(j, JobQueue.Complete) ==> LookedUp(w, j))
    && (IsCompleted(w.queue.table, j) ==> LookedUp(w, j))
  }

  predicate IsCompleted(t: JobQueue.Table, j: JobId) { j in t && t[j].status.Completed? }

  lemma CompletedBy(t: JobQueue.Table, e: JobQueue.Effect, now: int, j: JobId)
    requires IsCompleted(JobQueue.Apply(t, e, now), j) && !IsCompleted(t, j)
    ensures e.Lands? && e.statement == JobQueue.Outcome(j, JobQueue.Complete)
  {
  }

  /** A poller whose completion of `j` is under way has looked `j` up. */
  lemma CompletingIsAccounted(w: World, p: PollerId, j: JobId)
    requires AllFit(w) && Accounted(w, j) && p in w.queue.pollers
    requires w.queue.pollers[p].phase.Awaiting? && w.queue.pollers[p].phase.job == j && w.queue.pollers[p].phase.report.Complete?
    ensures LookedUp(w, j)
  {
    assert Fits(StageOf(w, p), w.queue.pollers[p].phase);
  }

  lemma EffectIsAccounted(c: JobQueue.Config, w: World, a: JobQueue.Action, j: JobId)
    requires AllFit(w) && Accounted(w, j) && JobQueue.Enabled(c, w.queue, a)
    requires var e := JobQueue.ActionEffect(c, w.queue, a); e.Lands? && e.statement == JobQueue.Outcome(j, JobQueue.Complete)
    ensures LookedUp(w, j)
  {
    if a.Do? {
      CompletingIsAccounted(w, a.p, j);
    }
  }

  lemma LeftIsAccounted(c: JobQueue.Config, w: World, p: PollerId, m: JobQueue.Move, x: JobQueue.Stray, j: JobId)
    requires AllFit(w) && Accounted(w, j) && JobQueue.CanMove(c, w.queue, p, m)
    requires x in JobQueue.Moved(c, w.queue, p, m).strays && x.statement == JobQueue.Outcome(j, JobQueue.Complete)
    ensures LookedUp(w, j)
  {
    var s := w.queue;
    JobQueue.LeftFacts(c, JobQueue.GateOpen(c, s, p), s.now, s.pollers[p].jobType, s.pollers[p].phase, m);
    if x !in s.strays {
      CompletingIsAccounted(w, p, j);
    }
  }

  lemma ActKeepsAccounted(c: JobQueue.Config, max: nat, w: World, a: JobQueue.Action, j: JobId)
    requires AllFit(w) && Accounted(w, j) && Enabled(c, w, Act(a))
    ensures Accounted(Step(c, max, w, Act(a)), j)
  {
    var n := Step(c, max, w, Act(a));
    JobQueue.TableAfter(c, w.queue, a);
    if IsCompleted(n.queue.table, j) && !IsCompleted(w.queue.table, j) {
      CompletedBy(w.queue.table, JobQueue.ActionEffect(c, w.queue, a), w.queue.now, j);
      EffectIsAccounted(c, w, a, j);
    }
    forall x | x in n.queue.strays && x.statement == JobQueue.Outcome(j, JobQueue.Complete) ensures LookedUp(w, j) {
      if a.Do? {
        LeftIsAccounted(c, w, a.p, a.move, x, j);
      }
    }
  }

  lemma StepKeepsAccounted(c: JobQueue.Config, max: nat, w: World, e: Event, j: JobId)
    requires AllFit(w) && Accounted(w, j) && Enabled(c, w, e)
    ensures Accounted(Step(c, max, w, e), j)
  {
    match e
    case Act(a) => ActKeepsAccounted(c, max, w, a, j);
    case Look(p, loaded) =>
  }

  // ---------------------------------------------------------------- every failure within the budget costs a poller

  /** Pollers of a process that stand at, or have stopped after, giving `j` back after a failed lookup. */
  ghost function Standing(w: World, worker: nat, j: JobId): set<PollerId> {
    set p | p in w.queue.pollers && w.queue.pollers[p].worker == worker && StageOf(w, p) == Requeuing(j)
  }

  /** The ingestion pollers of a process. */
  ghost function Lookers(queue: JobQueue.State, worker: nat): set<PollerId> {
    set p | p in queue.pollers && queue.pollers[p].worker == worker && queue.pollers[p].jobType == INGEST
  }

  /** The counter of a job is covered by the pollers it has stopped and the requeues that raised. */
  ghost predicate Covered(w: World, worker: nat, j: JobId) {
    Stored(CountersOf(w, worker), j) <= |Standing(w, worker, j)| + Errors(w, worker, j)
  }

  /** One process has had the claims it takes to give up on `j`. */
  ghost predicate Spent(max: nat, w: World, worker: nat, j: JobId) {
    Lookers(w.queue, worker) != {} && |Lookers(w.queue, worker)| + Errors(w, worker, j) > max
  }

  ghost predicate OnlyIngestRequeues(w: World) {
    forall p :: p in w.queue.pollers && StageOf(w, p).Requeuing? ==> w.queue.pollers[p].jobType == INGEST
  }

  /** What every run keeps. */
  ghost predicate Budgeted(max: nat, w: World) {
    && AllFit(w) && OnlyIngestRequeues(w)
    && (forall worker, j :: Covered(w, worker, j))
    && (forall j :: j in w.gaveUp ==> exists worker :: Spent(max, w, worker, j))
  }

  /** No action changes what a poller is. */
  predicate SamePollers(before: JobQueue.State, after: JobQueue.State) {
    && after.pollers.Keys == before.pollers.Keys
    && forall p :: p in before.pollers ==>
         after.pollers[p].worker == before.pollers[p].worker && after.pollers[p].jobType == before.pollers[p].jobType
  }

  lemma StepKeepsPollers(c: JobQueue.Config, max: nat, w: World, e: Event)
    requires Enabled(c, w, e)
    ensures SamePollers(w.queue, Step(c, max, w, e).queue)
  {
    if e.Act? && e.action.Do? {
      JobQueue.MovedFacts(c, w.queue, e.action.p, e.action.move);
    }
    hide JobQueue.Moved, JobQueue.Apply, JobQueue.LeftBehind;
  }

  lemma SameLookers(before: JobQueue.State, after: JobQueue.State, worker: nat)
    requires SamePollers(before, after)
    ensures Lookers(after, worker) == Lookers(before, worker)
  {
  }

  /** A poller stops standing only when its requeue raises. */
  lemma StillStanding(c: JobQueue.Config, max: nat, w: World, a: JobQueue.Action, worker: nat, j: JobId)
    requires AllFit(w) && Enabled(c, w, Act(a))
    ensures var n := Step(c, max, w, Act(a));
            if a.Do? && RequeueRaises(w.queue.pollers[a.p].phase, a.move) && w.queue.pollers[a.p].worker == worker
               && w.queue.pollers[a.p].phase.job == j
            then Standing(w, worker, j) - {a.p} <= Standing(n, worker, j)
            else Standing(w, worker, j) <= Standing(n, worker, j)
  {
    StepKeepsPollers(c, max, w, Act(a));
    if a.Do? {
      assert Fits(StageOf(w, a.p), w.queue.pollers[a.p].phase);
    }
  }

  lemma Smaller(a: set<PollerId>, b: set<PollerId>)
    requires a <= b
    ensures |a| <= |b|
    decreases |a|
  {
    if a != {} {
      var x :| x in a;
      Smaller(a - {x}, b - {x});
    }
  }

  lemma ActKeepsCovered(c: JobQueue.Config, max: nat, w: World, a: JobQueue.Action, worker: nat, j: JobId)
    requires AllFit(w) && Enabled(c, w, Act(a)) && Covered(w, worker, j)
    ensures Covered(Step(c, max, w, Act(a)), worker, j)
    ensures Errors(Step(c, max, w, Act(a)), worker, j) >= Errors(w, worker, j)
  {
    var n := Step(c, max, w, Act(a));
    StillStanding(c, max, w, a, worker, j);
    if a.Do? && RequeueRaises(w.queue.pollers[a.p].phase, a.move) && w.queue.pollers[a.p].worker == worker
       && w.queue.pollers[a.p].phase.job == j {
      Smaller(Standing(w, worker, j) - {a.p}, Standing(n, worker, j));
    } else {
      Smaller(Standing(w, worker, j), Standing(n, worker, j));
    }
  }

  lemma StandingAfterLook(c: JobQueue.Config, max: nat, w: World, p: PollerId, loaded: Loaded, worker: nat, j: JobId)
    requires Enabled(c, w, Look(p, loaded))
    ensures var n := Step(c, max, w, Look(p, loaded));
            && p !in Standing(w, worker, j)
            && Standing(n, worker, j) ==
               Standing(w, worker, j) + if StageOf(n, p) == Requeuing(j) && w.queue.pollers[p].worker == worker then {p} else {}
  {
  }

  /** A counter grows only with a poller that gives its job back. */
  lemma CountersAfterLook(c: JobQueue.Config, max: nat, w: World, p: PollerId, loaded: Loaded, worker: nat, j: JobId)
    requires Enabled(c, w, Look(p, loaded))
    ensures var n := Step(c, max, w, Look(p, loaded));
            var requeues := StageOf(n, p) == Requeuing(j) && w.queue.pollers[p].worker == worker;
            Stored(CountersOf(n, worker), j) <= Stored(CountersOf(w, worker), j) + if requeues then 1 else 0
  {
  }

  lemma LookKeepsCovered(c: JobQueue.Config, max: nat, w: World, p: PollerId, loaded: Loaded, worker: nat, j: JobId)
    requires Enabled(c, w, Look(p, loaded)) && Covered(w, worker, j)
    ensures Covered(Step(c, max, w, Look(p, loaded)), worker, j)
  {
    StandingAfterLook(c, max, w, p, loaded, worker, j);
    CountersAfterLook(c, max, w, p, loaded, worker, j);
    hide CountersOf, Standing;
  }

  /** A lookup that gives up is that of a further poller. */
  lemma GivingUpIsPaid(c: JobQueue.Config, max: nat, w: World, p: PollerId, loaded: Loaded)
    requires Enabled(c, w, Look(p, loaded)) && OnlyIngestRequeues(w)
    requires StageOf(Step(c, max, w, Look(p, loaded)), p).GaveUp?
    requires Covered(w, w.queue.pollers[p].worker, StageOf(w, p).job)
    ensures Spent(max, Step(c, max, w, Look(p, loaded)), w.queue.pollers[p].worker, StageOf(w, p).job)
  {
    var worker, j := w.queue.pollers[p].worker, StageOf(w, p).job;
    assert w.queue.pollers[p].jobType == INGEST && Stored(CountersOf(w, worker), j) + 1 > max;
    assert Standing(w, worker, j) + {p} <= Lookers(w.queue, worker);
    Smaller(Standing(w, worker, j) + {p}, Lookers(w.queue, worker));
  }

  lemma StepKeepsSpent(c: JobQueue.Config, max: nat, w: World, e: Event, j: JobId)
    requires Budgeted(max, w) && Enabled(c, w, e) && j in Step(c, max, w, e).gaveUp
    ensures exists worker :: Spent(max, Step(c, max, w, e), worker, j)
  {
    var n := Step(c, max, w, e);
    StepKeepsPollers(c, max, w, e);
    if j in w.gaveUp {
      var worker :| Spent(max, w, worker, j);
      SameLookers(w.queue, n.queue, worker);
      if e.Act? {
        assert Covered(w, worker, j);
        ActKeepsCovered(c, max, w, e.action, worker, j);
      }
      assert Spent(max, n, worker, j);
    } else {
      assert Covered(w, w.queue.pollers[e.p].worker, j);
      GivingUpIsPaid(c, max, w, e.p, e.loaded);
    }
  }

  lemma StepKeepsIngest(c: JobQueue.Config, max: nat, w: World, e: Event)
    requires AllFit(w) && OnlyIngestRequeues(w) && Enabled(c, w, e)
    ensures OnlyIngestRequeues(Step(c, max, w, e))
  {
    StepKeepsPollers(c, max, w, e);
  }

  lemma StepKeepsBudgeted(c: JobQueue.Config, max: nat, w: World, e: Event)
    requires Budgeted(max, w) && Enabled(c, w, e)
    ensures Budgeted(max, Step(c, max, w, e))
  {
    var n := Step(c, max, w, e);
    StepKeepsFit(c, max, w, e);
    StepKeepsIngest(c, max, w, e);
    forall worker, j ensures Covered(n, worker, j) {
      assert Covered(w, worker, j);
      match e
      case Act(a) => ActKeepsCovered(c, max, w, a, worker, j);
      case Look(p, loaded) => LookKeepsCovered(c, max, w, p, loaded, worker, j);
    }
    forall j | j in n.gaveUp ensures exists worker :: Spent(max, n, worker, j) {
      StepKeepsSpent(c, max, w, e, j);
    }
  }

  lemma StartIsBudgeted(max: nat, w: World)
    requires Start(w)
    ensures Budgeted(max, w)
  {
  }

  lemma {:induction false} RunKeepsBudgeted(c: JobQueue.Config, max: nat, w: World, events: seq<Event>, j: JobId)
    requires Budgeted(max, w) && Accounted(w, j) && Run(c, max, w, events).Some?
    ensures Budgeted(max, Run(c, max, w, events).value) && Accounted(Run(c, max, w, events).value, j)
    ensures SamePollers(w.queue, Run(c, max, w, events).value.queue)
    decreases |events|
  {
    if events != [] {
      StepKeepsBudgeted(c, max, w, events[0]);
      StepKeepsAccounted(c, max, w, events[0], j);
      StepKeepsPollers(c, max, w, events[0]);
      RunKeepsBudgeted(c, max, Step(c, max, w, events[0]), events[1..], j);
    }
  }

  /**
   Theorem: in any run of any worker processes, if a job ends completed although the document store never
   answered for it, then in one process its lookups failed at more than `max` claims: a different ingestion
   poller for each, as the requeue ends the poller, but for the requeues that themselves raised.
   */
  lemma CompletedUnreadIsPaid(c: JobQueue.Config, max: nat, w: World, events: seq<Event>, j: JobId)
    requires Start(w) && !IsCompleted(w.queue.table, j) && Run(c, max, w, events).Some?
    requires IsCompleted(Run(c, max, w, events).value.queue.table, j) && j !in Run(c, max, w, events).value.answered
    ensures exists worker :: Lookers(w.queue, worker) != {}
                             && |Lookers(w.queue, worker)| + Errors(Run(c, max, w, events).value, worker, j) > max
  {
    StartIsBudgeted(max, w);
    RunKeepsBudgeted(c, max, w, events, j);
    var n := Run(c, max, w, events).value;
    var worker :| Spent(max, n, worker, j);
    SameLookers(w.queue, n.queue, worker);
  }

  /** Theorem: over any run, the failed lookups a process counts for a job have each stopped a poller of it, or raised. */
  lemma CountersArePaid(c: JobQueue.Config, max: nat, w: World, events: seq<Event>, worker: nat, j: JobId)
    requires Start(w) && !IsCompleted(w.queue.table, j) && Run(c, max, w, events).Some?
    ensures var n := Run(c, max, w, events).value;
            Stored(CountersOf(n, worker), j) <= |Standing(n, worker, j)| + Errors(n, worker, j)
  {
    StartIsBudgeted(max, w);
    RunKeepsBudgeted(c, max, w, events, j);
    assert Covered(Run(c, max, w, events).value, worker, j);
  }

  // ---------------------------------------------------------------- a process with enough pollers

  ghost predicate Leads(c: JobQueue.Config, max: nat, w: World, n: World) {
    exists events :: Run(c, max, w, events) == Some(n)
  }

  lemma {:induction false} RunConcat(c: JobQueue.Config, max: nat, w: World, first: seq<Event>, second: seq<Event>)
    requires Run(c, max, w, first).Some?
    ensures Run(c, max, w, first + second) == Run(c, max, Run(c, max, w, first).value, second)
    decreases |first|
  {
    if first == [] {
      assert first + second == second;
    } else {
      assert (first + second)[1..] == first[1..] + second;
      RunConcat(c, max, Step(c, max, w, first[0]), first[1..], second);
    }
  }

  lemma LeadsOn(c: JobQueue.Config, max: nat, w: World, m: World, n: World)
    requires Leads(c, max, w, m) && Leads(c, max, m, n)
    ensures Leads(c, max, w, n)
  {
    var first :| Run(c, max, w, first) == Some(m);
    var second :| Run(c, max, m, second) == Some(n);
    RunConcat(c, max, w, first, second);
    assert Run(c, max, w, first + second) == Some(n);
  }

  lemma EventLeads(c: JobQueue.Config, max: nat, w: World, e: Event)
    requires Enabled(c, w, e)
    ensures Leads(c, max, w, Step(c, max, w, e))
  {
    assert [e][1..] == [] && Run(c, max, Step(c, max, w, e), []) == Some(Step(c, max, w, e));
    assert Run(c, max, w, [e]) == Some(Step(c, max, w, e));
  }

  /** From `w` to `n` only poller `p` has moved, and nothing has been answered. */
  ghost predicate Apart(w: World, n: World, p: PollerId) {
    && n.queue.pollers.Keys == w.queue.pollers.Keys && p in w.queue.pollers
    && (forall q :: q in w.queue.pollers && q != p ==> n.queue.pollers[q] == w.queue.pollers[q])
    && n.queue.pollers[p].worker == w.queue.pollers[p].worker && n.queue.pollers[p].jobType == w.queue.pollers[p].jobType
    && n.answered == w.answered
  }

  /** Nor has anything raised. */
  ghost predicate OnlyMoves(w: World, n: World, p: PollerId) { Apart(w, n, p) && n.errors == w.errors }

  lemma MoveLeads(c: JobQueue.Config, max: nat, w: World, p: PollerId, m: JobQueue.Move) returns (n: World)
    requires Enabled(c, w, Act(JobQueue.Do(p, m)))
    ensures Leads(c, max, w, n) && Apart(w, n, p) && n.counters == w.counters
    ensures n.errors == if RequeueRaises(w.queue.pollers[p].phase, m) then OneMoreError(w, p) else w.errors
    ensures n.queue.now == w.queue.now
    ensures n.queue.pollers[p].phase == JobQueue.NextPhase(c, w.queue, p, m)
    ensures n.queue.table == JobQueue.Apply(w.queue.table, JobQueue.ActionEffect(c, w.queue, JobQueue.Do(p, m)), w.queue.now)
    ensures StageOf(n, p) == StageAfter(StageOf(w, p), w.queue.pollers[p].phase, m)
  {
    hide Leads;
    n := Step(c, max, w, Act(JobQueue.Do(p, m)));
    EventLeads(c, max, w, Act(JobQueue.Do(p, m)));
    JobQueue.TableAfter(c, w.queue, JobQueue.Do(p, m));
    JobQueue.MovedFacts(c, w.queue, p, m);
    hide JobQueue.Moved, JobQueue.Apply, JobQueue.LeftBehind, JobQueue.NextPhase, JobQueue.ActionEffect;
  }

  function OneMoreError(w: World, p: PollerId): map<(nat, JobId), nat>
    requires p in w.queue.pollers && w.queue.pollers[p].phase.HasHeart()
  {
    var poller := w.queue.pollers[p];
    w.errors[(poller.worker, poller.phase.job) := Errors(w, poller.worker, poller.phase.job) + 1]
  }

  predicate IsRow(w: World, j: JobId, status: JobQueue.Status) {
    j in w.queue.table && w.queue.table[j].jobType == INGEST && w.queue.table[j].status == status
  }

  /** Poller `p` sweeps if it is time to, and is about to claim. */
  lemma GetsReady(c: JobQueue.Config, max: nat, w: World, p: PollerId, j: JobId) returns (n: World)
    requires p in w.queue.pollers && w.queue.pollers[p].phase.Idle? && IsRow(w, j, JobQueue.Pending)
    ensures Leads(c, max, w, n) && OnlyMoves(w, n, p) && n.counters == w.counters
    ensures n.queue.pollers[p].phase.Fetching? && IsRow(n, j, JobQueue.Pending)
  {
    hide Leads;
    n := MoveLeads(c, max, w, p, JobQueue.BeginSweep);
    if n.queue.pollers[p].phase.Sweeping? {
      var m := n;
      n := MoveLeads(c, max, m, p, JobQueue.LandSweep);
      LeadsOn(c, max, w, m, n);
    }
  }

  /** Poller `p` claims `j`, and its lookup fails. */
  lemma ClaimsAndFails(c: JobQueue.Config, max: nat, w: World, p: PollerId, j: JobId) returns (n: World)
    requires p in w.queue.pollers && w.queue.pollers[p].phase.Fetching? && w.queue.pollers[p].jobType == INGEST
    requires IsRow(w, j, JobQueue.Pending)
    ensures Leads(c, max, w, n) && OnlyMoves(w, n, p) && IsRow(n, j, JobQueue.Processing)
    ensures n.queue.pollers[p].phase.Working? && n.queue.pollers[p].phase.job == j
    ensures var worker := w.queue.pollers[p].worker; var counters := CountersOf(w, worker);
            && CountersOf(n, worker) == NextCounters(max, counters, Call(j, Transient, true))
            && StageOf(n, p) == if Stored(counters, j) + 1 > max then GaveUp(j) else Requeuing(j)
  {
    hide Leads;
    var m := MoveLeads(c, max, w, p, JobQueue.Claim(j));
    n := Step(c, max, m, Look(p, Transient));
    EventLeads(c, max, m, Look(p, Transient));
    LeadsOn(c, max, w, m, n);
  }

  /** A move that neither touches the table nor raises out of a requeue. */
  lemma QuietMove(c: JobQueue.Config, max: nat, w: World, p: PollerId, m: JobQueue.Move, j: JobId, status: JobQueue.Status)
    returns (n: World)
    requires p in w.queue.pollers && JobQueue.Can(c, w.queue.now, w.queue.pollers[p].phase, m) && IsRow(w, j, status)
    requires (m.Send? && Allowed(StageOf(w, p), m)) || m.ReportLost? || (m.GiveUp? && w.queue.pollers[p].phase.report.Fail?)
    ensures Leads(c, max, w, n) && OnlyMoves(w, n, p) && n.counters == w.counters && IsRow(n, j, status)
    ensures n.queue.now == w.queue.now
    ensures var phase, after := w.queue.pollers[p].phase, n.queue.pollers[p].phase;
            if m.Send? then after == JobQueue.Awaiting(phase.job, phase.heart, m.report, w.queue.now, JobQueue.InFlight)
            else if m.ReportLost? then after == phase.(wire := JobQueue.Lost)
            else after.Idle?
  {
    hide Leads;
    n := MoveLeads(c, max, w, p, m);
  }

  /** Poller `p` sends its report, and it lands. */
  lemma ReportArrives(c: JobQueue.Config, max: nat, w: World, p: PollerId, j: JobId, report: JobQueue.Report) returns (n: World)
    requires p in w.queue.pollers && w.queue.pollers[p].phase.Working? && w.queue.pollers[p].phase.job == j
    requires !report.Fail? && Allowed(StageOf(w, p), JobQueue.Send(report)) && IsRow(w, j, JobQueue.Processing)
    ensures Leads(c, max, w, n) && OnlyMoves(w, n, p) && n.counters == w.counters && n.queue.pollers[p].phase.Awaiting?
    ensures n.queue.pollers[p].phase.job == j && n.queue.pollers[p].phase.report == report
    ensures IsRow(n, j, if report.GiveBack? then JobQueue.Pending else JobQueue.Completed)
  {
    hide Leads;
    var m := QuietMove(c, max, w, p, JobQueue.Send(report), j, JobQueue.Processing);
    n := MoveLeads(c, max, m, p, JobQueue.ReportLands);
    LeadsOn(c, max, w, m, n);
  }

  /** One claim by a further poller, which fails to look up the job. */
  lemma FurtherClaim(c: JobQueue.Config, max: nat, w: World, p: PollerId, j: JobId) returns (n: World)
    requires p in w.queue.pollers && w.queue.pollers[p].phase.Idle? && w.queue.pollers[p].jobType == INGEST
    requires IsRow(w, j, JobQueue.Pending)
    ensures Leads(c, max, w, n) && OnlyMoves(w, n, p) && n.queue.pollers[p].phase.Awaiting?
    ensures var worker := w.queue.pollers[p].worker; var counters := CountersOf(w, worker);
            && CountersOf(n, worker) == NextCounters(max, counters, Call(j, Transient, true))
            && IsRow(n, j, if Stored(counters, j) + 1 > max then JobQueue.Completed else JobQueue.Pending)
  {
    hide Leads;
    var w1 := GetsReady(c, max, w, p, j);
    var w2 := ClaimsAndFails(c, max, w1, p, j);
    LeadsOn(c, max, w, w1, w2);
    n := ReportArrives(c, max, w2, p, j, if StageOf(w2, p).GaveUp? then JobQueue.Complete else JobQueue.GiveBack);
    LeadsOn(c, max, w, w2, n);
  }

  /** Nothing has stopped: no requeue that took effect has been heard of yet. */
  ghost predicate AllAlive(w: World) { forall p :: p in w.queue.pollers ==> !w.queue.pollers[p].phase.Stopped? }

  /** These pollers of one process are idle. */
  ghost predicate Free(w: World, worker: nat, idle: set<PollerId>) {
    forall p :: p in idle ==>
      p in w.queue.pollers && w.queue.pollers[p].worker == worker && w.queue.pollers[p].jobType == INGEST && w.queue.pollers[p].phase.Idle?
  }

  /** Enough idle pollers claim the job one after the other, before any of them hears of its requeue. */
  lemma {:induction false} PollersUseUpBudget(c: JobQueue.Config, max: nat, w: World, worker: nat, j: JobId, idle: set<PollerId>)
    returns (n: World)
    requires Free(w, worker, idle) && IsRow(w, j, JobQueue.Pending) && AllAlive(w)
    requires Stored(CountersOf(w, worker), j) <= max < Stored(CountersOf(w, worker), j) + |idle|
    ensures Leads(c, max, w, n) && IsRow(n, j, JobQueue.Completed) && AllAlive(n)
    ensures n.errors == w.errors && n.answered == w.answered
    decreases |idle|
  {
    hide Leads;
    var p :| p in idle;
    var m := FurtherClaim(c, max, w, p, j);
    if Stored(CountersOf(w, worker), j) + 1 > max {
      n := m;
    } else {
      n := PollersUseUpBudget(c, max, m, worker, j, idle - {p});
      LeadsOn(c, max, w, m, n);
    }
  }

  /** The requeue takes effect but raises, and so does the record of that failure, which is lost: the poller is idle again. */
  lemma RequeueRaisesOnce(c: JobQueue.Config, max: nat, w: World, p: PollerId, j: JobId) returns (n: World)
    requires p in w.queue.pollers && w.queue.pollers[p].phase.Working? && w.queue.pollers[p].phase.job == j
    requires StageOf(w, p).Requeuing? && IsRow(w, j, JobQueue.Processing)
    ensures Leads(c, max, w, n) && Apart(w, n, p) && n.counters == w.counters && n.queue.pollers[p].phase.Idle?
    ensures IsRow(n, j, JobQueue.Pending) && n.errors == OneMoreError(w, p)
  {
    hide Leads;
    var w1 := ReportArrives(c, max, w, p, j, JobQueue.GiveBack);
    var w2 := MoveLeads(c, max, w1, p, JobQueue.GiveUp);
    LeadsOn(c, max, w, w1, w2);
    n := FailureIsLost(c, max, w2, p, j);
    LeadsOn(c, max, w, w2, n);
  }

  lemma FailureIsLost(c: JobQueue.Config, max: nat, w: World, p: PollerId, j: JobId) returns (n: World)
    requires p in w.queue.pollers && w.queue.pollers[p].phase.Raised? && IsRow(w, j, JobQueue.Pending)
    ensures Leads(c, max, w, n) && OnlyMoves(w, n, p) && n.counters == w.counters && n.queue.pollers[p].phase.Idle?
    ensures IsRow(n, j, JobQueue.Pending)
  {
    hide Leads, IsRow;
    var w1 := QuietMove(c, max, w, p, JobQueue.Send(JobQueue.Fail), j, JobQueue.Pending);
    var w2 := QuietMove(c, max, w1, p, JobQueue.ReportLost, j, JobQueue.Pending);
    LeadsOn(c, max, w, w1, w2);
    n := QuietMove(c, max, w2, p, JobQueue.GiveUp, j, JobQueue.Pending);
    LeadsOn(c, max, w, w2, n);
  }

  /** One claim whose requeue raises. */
  lemma RaisingClaim(c: JobQueue.Config, max: nat, w: World, p: PollerId, j: JobId) returns (n: World)
    requires p in w.queue.pollers && w.queue.pollers[p].phase.Idle? && w.queue.pollers[p].jobType == INGEST
    requires IsRow(w, j, JobQueue.Pending) && Stored(CountersOf(w, w.queue.pollers[p].worker), j) < max
    ensures Leads(c, max, w, n) && Apart(w, n, p) && n.queue.pollers[p].phase.Idle? && IsRow(n, j, JobQueue.Pending)
    ensures var worker := w.queue.pollers[p].worker;
            && Stored(CountersOf(n, worker), j) == Stored(CountersOf(w, worker), j) + 1
            && n.errors == w.errors[(worker, j) := Errors(w, worker, j) + 1]
  {
    hide Leads;
    var w1 := GetsReady(c, max, w, p, j);
    var w2 := ClaimsAndFails(c, max, w1, p, j);
    LeadsOn(c, max, w, w1, w2);
    n := RequeueRaisesOnce(c, max, w2, p, j);
    LeadsOn(c, max, w, w2, n);
  }

  /** The state after a number of such claims by one poller of the process. */
  ghost predicate Raising(w: World, n: World, p: PollerId, j: JobId, times: nat) {
    && Apart(w, n, p) && n.queue.pollers[p].phase.Idle? && IsRow(n, j, JobQueue.Pending)
    && Stored(CountersOf(n, w.queue.pollers[p].worker), j) == Stored(CountersOf(w, w.queue.pollers[p].worker), j) + times
    && forall worker :: Errors(n, worker, j) ==
         Errors(w, worker, j) + if worker == w.queue.pollers[p].worker then times else 0
  }

  lemma {:induction false} RaisingClaims(c: JobQueue.Config, max: nat, w: World, p: PollerId, j: JobId, times: nat) returns (n: World)
    requires p in w.queue.pollers && w.queue.pollers[p].phase.Idle? && w.queue.pollers[p].jobType == INGEST
    requires IsRow(w, j, JobQueue.Pending) && Stored(CountersOf(w, w.queue.pollers[p].worker), j) + times <= max
    ensures Leads(c, max, w, n) && Raising(w, n, p, j, times)
    decreases times
  {
    if times == 0 {
      n := w;
      assert Run(c, max, w, []) == Some(w);
    } else {
      hide Leads;
      var m := RaisingClaim(c, max, w, p, j);
      n := RaisingClaims(c, max, m, p, j, times - 1);
      LeadsOn(c, max, w, m, n);
    }
  }

  /** Some run with at most `raised` raising requeues of the job in any process completes it with no lookup of it answered. */
  ghost predicate CanCompleteUnread(c: JobQueue.Config, max: nat, w: World, j: JobId, raised: nat) {
    exists n :: Leads(c, max, w, n) && UnreadEnd(n, j, raised)
  }

  ghost predicate UnreadEnd(n: World, j: JobId, raised: nat) {
    IsCompleted(n.queue.table, j) && j !in n.answered && forall worker :: Errors(n, worker, j) <= raised
  }

  lemma SparePollersSuffice(c: JobQueue.Config, max: nat, w: World, worker: nat, j: JobId, raised: nat) returns (n: World)
    requires Start(w) && IsRow(w, j, JobQueue.Pending)
    requires Lookers(w.queue, worker) != {} && |Lookers(w.queue, worker)| + raised > max
    ensures Leads(c, max, w, n) && UnreadEnd(n, j, raised)
  {
    hide Leads;
    var lookers := Lookers(w.queue, worker);
    var p :| p in lookers;
    var m := RaisingClaims(c, max, w, p, j, if raised < max then raised else max);
    n := PollersUseUpBudget(c, max, m, worker, j, lookers);
    LeadsOn(c, max, w, m, n);
    forall other ensures Errors(n, other, j) <= raised {
      assert Errors(n, other, j) == Errors(m, other, j) && Errors(w, other, j) == 0;
    }
  }

  /**
   Theorem: however many requeues of a job may raise, a pending ingestion job whose document stays unreachable can
   end completed if and only if some worker process has an ingestion poller, and its ingestion pollers and those
   requeues together outnumber the budget of lookup requeues.  Otherwise each process stops before its counter is
   used up, and loses it.
   */
  lemma CompletesUnreadExactlyWithSparePollers(c: JobQueue.Config, max: nat, w: World, j: JobId, raised: nat)
    requires Start(w) && IsRow(w, j, JobQueue.Pending)
    ensures CanCompleteUnread(c, max, w, j, raised) <==>
              exists worker :: Lookers(w.queue, worker) != {} && |Lookers(w.queue, worker)| + raised > max
  {
    if CanCompleteUnread(c, max, w, j, raised) {
      var n :| Leads(c, max, w, n) && UnreadEnd(n, j, raised);
      var events :| Run(c, max, w, events) == Some(n);
      CompletedUnreadIsPaid(c, max, w, events, j);
    }
    if worker :| Lookers(w.queue, worker) != {} && |Lookers(w.queue, worker)| + raised > max {
      var n := SparePollersSuffice(c, max, w, worker, j, raised);
    }
  }

  // ---------------------------------------------------------------- the queue and the counters within a run

  /** What happens to the queue in a run. */
  function ActionsOf(events: seq<Event>): seq<JobQueue.Action> {
    if events == [] then [] else (if events[0].Act? then [events[0].action] else []) + ActionsOf(events[1..])
  }

  /** Theorem: lookups are no steps of the job queue, so what a run does to the queue is a run of the protocol. */
  lemma {:induction false} QueueFollowsProtocol(c: JobQueue.Config, max: nat, w: World, events: seq<Event>)
    requires Run(c, max, w, events).Some?
    ensures JobQueue.Run(c, w.queue, ActionsOf(events)) == Some(Run(c, max, w, events).value.queue)
    decreases |events|
  {
    if events != [] {
      var n := Step(c, max, w, events[0]);
      QueueFollowsProtocol(c, max, n, events[1..]);
      hide JobQueue.Step, JobQueue.Enabled;
      if events[0].Act? {
        var a := events[0].action;
        assert n.queue == JobQueue.Step(c, w.queue, a);
        assert ([a] + ActionsOf(events[1..]))[0] == a && ([a] + ActionsOf(events[1..]))[1..] == ActionsOf(events[1..]);
      } else {
        assert [] + ActionsOf(events[1..]) == ActionsOf(events[1..]);
      }
    }
  }

  /** The lookups of ingestion jobs by one process in a run. */
  function CallsOf(c: JobQueue.Config, max: nat, w: World, events: seq<Event>, worker: nat): seq<Call>
    requires Run(c, max, w, events).Some?
    decreases |events|
  {
    if events == [] then []
    else
      CallOf(c, w, events[0], worker) + CallsOf(c, max, Step(c, max, w, events[0]), events[1..], worker)
  }

  /** The lookup of an ingestion job by this process, if the event is one. */
  function CallOf(c: JobQueue.Config, w: World, e: Event, worker: nat): seq<Call>
    requires Enabled(c, w, e)
  {
    if e.Look? && w.queue.pollers[e.p].worker == worker && w.queue.pollers[e.p].jobType == INGEST
    then [Call(StageOf(w, e.p).job, e.loaded, true)] else []
  }

  lemma OneEventCounted(c: JobQueue.Config, max: nat, w: World, e: Event, worker: nat, history: seq<Call>)
    requires Enabled(c, w, e) && CountersOf(w, worker) == After(max, history)
    ensures CountersOf(Step(c, max, w, e), worker) == After(max, history + CallOf(c, w, e, worker))
  {
    var calls := CallOf(c, w, e, worker);
    if calls == [] {
      assert history + calls == history;
    } else {
      assert (history + calls)[..|history|] == history;
    }
    hide JobQueue.Step, JobQueue.Enabled;
  }

  lemma {:induction false} CountersGoOn(c: JobQueue.Config, max: nat, w: World, events: seq<Event>, worker: nat, history: seq<Call>)
    requires Run(c, max, w, events).Some? && CountersOf(w, worker) == After(max, history)
    ensures CountersOf(Run(c, max, w, events).value, worker) == After(max, history + CallsOf(c, max, w, events, worker))
    decreases |events|
  {
    hide Step, Enabled, After, CountersOf, CallOf, JobQueue.Step, JobQueue.Enabled;
    if events == [] {
      assert history + [] == history;
    } else {
      var e, n, rest := events[0], Step(c, max, w, events[0]), events[1..];
      var calls := CallOf(c, w, e, worker);
      OneEventCounted(c, max, w, e, worker, history);
      CountersGoOn(c, max, n, rest, worker, history + calls);
      assert history + calls + CallsOf(c, max, n, rest, worker) == history + (calls + CallsOf(c, max, n, rest, worker));
    }
  }

  /**
   Theorem: the counter that a process keeps for a job is its number of failed ingestion lookups of the job since the last
   one that was answered, modulo the budget plus one, whatever pollers and processes there are.
   */
  lemma CountersAreFailureRuns(c: JobQueue.Config, max: nat, w: World, events: seq<Event>, worker: nat, j: JobId)
    requires Start(w) && Run(c, max, w, events).Some?
    ensures Stored(CountersOf(Run(c, max, w, events).value, worker), j) ==
            Failures(CallsOf(c, max, w, events, worker), j) % (max + 1)
  {
    CountersGoOn(c, max, w, events, worker, []);
    assert [] + CallsOf(c, max, w, events, worker) == CallsOf(c, max, w, events, worker);
    CounterIsFailureRun(max, CallsOf(c, max, w, events, worker), j);
  }

  // ---------------------------------------------------------------- jobs get done

  /** Poller `p` claims `j`, and its load is answered or raises at once. */
  lemma ClaimsAndLoads(c: JobQueue.Config, max: nat, w: World, p: PollerId, j: JobId, loaded: Loaded) returns (n: World)
    requires p in w.queue.pollers && w.queue.pollers[p].phase.Fetching? && w.queue.pollers[p].jobType == INGEST
    requires IsRow(w, j, JobQueue.Pending) && !loaded.Transient?
    ensures Leads(c, max, w, n) && IsRow(n, j, JobQueue.Processing) && n.queue.pollers.Keys == w.queue.pollers.Keys
    ensures n.queue.pollers[p].phase.Working? && n.queue.pollers[p].phase.job == j
    ensures StageOf(n, p) == if loaded.Answered? then Known(j) else Erring(j)
  {
    hide Leads;
    var m := MoveLeads(c, max, w, p, JobQueue.Claim(j));
    n := Step(c, max, m, Look(p, loaded));
    EventLeads(c, max, m, Look(p, loaded));
    LeadsOn(c, max, w, m, n);
  }

  /** Theorem: whatever has happened so far, an idle poller can complete a pending ingestion job whose document it can load. */
  lemma LoadedJobsComplete(c: JobQueue.Config, max: nat, w: World, p: PollerId, j: JobId, found: bool) returns (n: World)
    requires p in w.queue.pollers && w.queue.pollers[p].phase.Idle? && w.queue.pollers[p].jobType == INGEST
    requires IsRow(w, j, JobQueue.Pending)
    ensures Leads(c, max, w, n) && IsRow(n, j, JobQueue.Completed)
  {
    hide Leads;
    var w1 := GetsReady(c, max, w, p, j);
    var w2 := ClaimsAndLoads(c, max, w1, p, j, Answered(found));
    LeadsOn(c, max, w, w1, w2);
    n := ReportArrives(c, max, w2, p, j, JobQueue.Complete);
    LeadsOn(c, max, w, w2, n);
  }

  /** Theorem: if its load or, after that, its handler raises, the job can end failed. */
  lemma RaisingJobsFail(c: JobQueue.Config, max: nat, w: World, p: PollerId, j: JobId, loaded: Loaded) returns (n: World)
    requires p in w.queue.pollers && w.queue.pollers[p].phase.Idle? && w.queue.pollers[p].jobType == INGEST
    requires IsRow(w, j, JobQueue.Pending) && !loaded.Transient?
    ensures Leads(c, max, w, n) && IsRow(n, j, JobQueue.Failed)
  {
    hide Leads;
    var w1 := GetsReady(c, max, w, p, j);
    var w2 := ClaimsAndLoads(c, max, w1, p, j, loaded);
    LeadsOn(c, max, w, w1, w2);
    n := FailureArrives(c, max, w2, p, j);
    LeadsOn(c, max, w, w2, n);
  }

  lemma FailureArrives(c: JobQueue.Config, max: nat, w: World, p: PollerId, j: JobId) returns (n: World)
    requires p in w.queue.pollers && w.queue.pollers[p].phase.Working? && w.queue.pollers[p].phase.job == j
    requires (StageOf(w, p).Known? || StageOf(w, p).Erring?) && IsRow(w, j, JobQueue.Processing)
    ensures Leads(c, max, w, n) && IsRow(n, j, JobQueue.Failed)
  {
    hide Leads, IsRow;
    var w1 := HandlerRaises(c, max, w, p, j);
    var w2 := QuietMove(c, max, w1, p, JobQueue.Send(JobQueue.Fail), j, JobQueue.Processing);
    LeadsOn(c, max, w, w1, w2);
    n := FailureLands(c, max, w2, p, j);
    LeadsOn(c, max, w, w2, n);
  }

  lemma HandlerRaises(c: JobQueue.Config, max: nat, w: World, p: PollerId, j: JobId) returns (n: World)
    requires p in w.queue.pollers && w.queue.pollers[p].phase.Working? && w.queue.pollers[p].phase.job == j
    requires (StageOf(w, p).Known? || StageOf(w, p).Erring?) && IsRow(w, j, JobQueue.Processing)
    ensures Leads(c, max, w, n) && IsRow(n, j, JobQueue.Processing) && n.queue.pollers.Keys == w.queue.pollers.Keys
    ensures n.queue.pollers[p].phase.Raised? && n.queue.pollers[p].phase.job == j
  {
    hide Leads;
    n := MoveLeads(c, max, w, p, JobQueue.Raise);
  }

  lemma FailureLands(c: JobQueue.Config, max: nat, w: World, p: PollerId, j: JobId) returns (n: World)
    requires p in w.queue.pollers && w.queue.pollers[p].phase.Awaiting? && w.queue.pollers[p].phase.job == j
    requires w.queue.pollers[p].phase.report.Fail? && w.queue.pollers[p].phase.wire.InFlight? && IsRow(w, j, JobQueue.Processing)
    ensures Leads(c, max, w, n) && IsRow(n, j, JobQueue.Failed)
  {
    hide Leads;
    n := MoveLeads(c, max, w, p, JobQueue.ReportLands);
  }
}
