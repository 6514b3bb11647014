/**
 The job queue protocol: rows of `job_queue` (job_store.py) and the pollers that claim, heartbeat,
 sweep and finalise them (base_worker.py).

 A database call is sent, its statement lands on the table or is lost, and its caller learns so, gives up
 with an exception, or is cancelled.  A statement whose caller has gone on while it was under way is a
 stray, which may still land.  Pollers of any number of worker processes interleave freely.  Time is an
 integer number of microseconds and advances only by Tick.
 */
module JobQueue {

  type JobId = string
  type PollerId = nat

  import opened Basics

  datatype Status = Pending | Processing | Completed | Failed
  {
    predicate Final() { Completed? || Failed? }
  }

  datatype Row = Row(jobType: string, status: Status, updatedAt: int)

  type Table = map<JobId, Row>

  // ---------------------------------------------------------------- statements on the table

  /** mark_job_final: no status guard. */
  function MarkFinal(t: Table, job: JobId, status: Status): Table {
    if job in t then t[job := t[job].(status := status)] else t
  }

  /** requeue_job_for_retry: only a processing row goes back to pending. */
  function RequeueForRetry(t: Table, job: JobId): Table {
    if job in t && t[job].status.Processing? then t[job := t[job].(status := Pending)] else t
  }

  /** One heartbeat: stamps a row that is still processing. */
  function Heartbeat(t: Table, job: JobId, stamp: int): Table {
    if job in t && t[job].status.Processing? then t[job := t[job].(updatedAt := stamp)] else t
  }

  /** The claim behind fetch_next_job: a pending row becomes processing, stamped now. */
  function Claimed(t: Table, job: JobId, now: int): Table
    requires job in t
  {
    t[job := t[job].(status := Processing, updatedAt := now)]
  }

  predicate Stale(row: Row, jobType: string, cutoff: int) {
    row.jobType == jobType && row.status.Processing? && row.updatedAt < cutoff
  }

  /** maybe_requeue_stale_processing_jobs: every stale processing row goes back to pending. */
  function Swept(t: Table, jobType: string, cutoff: int): Table {
    map j | j in t :: if Stale(t[j], jobType, cutoff) then t[j].(status := Pending) else t[j]
  }

  /** What a poller reports about its job: it gives the job back after a failed lookup, or ends it. */
  datatype Report = GiveBack | Complete | Fail

  function Reported(t: Table, job: JobId, report: Report): Table {
    match report
    case GiveBack => RequeueForRetry(t, job)
    case Complete => MarkFinal(t, job, Completed)
    case Fail => MarkFinal(t, job, Failed)
  }

  // ---------------------------------------------------------------- pollers

  /**
   The heartbeat task of a claimed job: `base` is the stamp this poller last put on the row (the
   claim, at first), `since` the start of the current sleep, `inFlight` a stamp on its way to the table.
   */
  datatype Heart = Heart(base: int, since: int, inFlight: Option<int>)

  /** Where the statement of a report is. */
  datatype Wire = InFlight | Landed | Lost

  datatype Phase =
    | Idle                                               // top of run_job_loop
    | Sweeping(cutoff: int)                              // stale sweep sent
    | Fetching                                           // about to claim
    | Working(job: JobId, heart: Heart)                  // the handler runs
    | Awaiting(job: JobId, heart: Heart, report: Report, sentAt: int, wire: Wire)
    | Raised(job: JobId, heart: Heart)                   // an exception is about to be recorded
    | Stopped                                            // the loop has ended
  {
    predicate HasHeart() { Working? || Awaiting? || Raised? }

    /** The handler of `j` runs, or its lookup requeue is under way. */
    predicate Holds(j: JobId) { (Working? && job == j) || (Awaiting? && job == j && report.GiveBack? && wire.InFlight?) }

    /** The poller still has to do with its claim of `j`: it has not given the row back. */
    predicate Claims(j: JobId) { HasHeart() && job == j && !(Awaiting? && report.GiveBack? && wire.Landed?) }

    /** No report of this claim has reached the table, nor has any been given up. */
    predicate Unreported() { Working? || (Awaiting? && !report.Fail? && !wire.Landed?) }

    predicate Ended() { Awaiting? && !report.GiveBack? && wire.Landed? }

    predicate Touches(j: JobId) { HasHeart() && job == j }
  }

  /** Pollers of one worker process share its job store, hence its sweep gate. */
  datatype Poller = Poller(worker: nat, jobType: string, phase: Phase)

  datatype Config = Config(interval: int, delay: int, latency: int, cutoff: int, sweepEvery: int) {
    /**
     interval: sleep between heartbeats; delay: how much later than that the next heartbeat may land;
     latency: how long a heartbeat or a report may take to the table; cutoff, sweepEvery: settings.
     */
    predicate Valid() { interval > 0 && 0 <= latency <= delay && cutoff > 0 && sweepEvery > 0 }

    /** The longest time between the last heartbeat of a poller and a report it sends. */
    function Cycle(): int { interval + delay }
  }

  datatype Statement =
    | Beat(job: JobId)
    | Outcome(job: JobId, report: Report)
    | Sweep(jobType: string, cutoff: int)
    | Fetch(jobType: string)

  /**
   A statement under way whose sender no longer waits for it; `goesOn`: the sender took it for failed and
   goes on to record that.  The stamp of a heartbeat is the time it was sent.
   */
  datatype Stray = Stray(statement: Statement, sentAt: int, goesOn: bool) {
    predicate Holds(j: JobId) { statement == Outcome(j, GiveBack) }
    predicate Claims(j: JobId) { statement.Outcome? && statement.job == j }

    predicate Touches(j: JobId) { (statement.Beat? || statement.Outcome?) && statement.job == j }
  }

  /**
   unheardRequeue, unheardFinal: a lookup requeue, or the final status of a handler that returned, took
   effect although its sender took it for failed.
   */
  datatype State = State(now: int, table: Table, pollers: map<PollerId, Poller>, lastSweep: map<(nat, string), int>,
                         strays: multiset<Stray>, unheardRequeue: bool, unheardFinal: bool)

  datatype Move =
    | BeginSweep
    | LandSweep
    | LeaveSweep                  // the call fails; its statement may still land
    | Claim(job: JobId)
    | ClaimLost(job: JobId)       // claimed, but the reply is lost
    | LeaveFetch                  // the call fails; its statement may still land
    | FetchNothing
    | Wake
    | BeatDone(landed: bool)
    | Send(report: Report)
    | Raise
    | ReportLands
    | ReportLost
    | Heard
    | GiveUp                      // the call raises, whatever became of its statement
    | Kill                        // CancelledError at the current await

  datatype Action =
    | Tick(to: int)
    | Do(p: PollerId, move: Move)
    | StrayLands(stray: Stray)
    | StrayClaims(stray: Stray, job: JobId)
    | StrayDies(stray: Stray)

  predicate Claimable(t: Table, j: JobId, jobType: string) {
    j in t && t[j].status.Pending? && t[j].jobType == jobType
  }

  /** What an action does to the table. */
  datatype Effect = Nothing | Lands(statement: Statement, sentAt: int) | Takes(job: JobId)

  function Apply(t: Table, e: Effect, now: int): Table {
    match e
    case Nothing => t
    case Takes(j) => if j in t then Claimed(t, j, now) else t
    case Lands(statement, sentAt) =>
      match statement
      case Beat(j) => Heartbeat(t, j, sentAt)
      case Outcome(j, report) => Reported(t, j, report)
      case Sweep(jobType, cutoff) => Swept(t, jobType, cutoff)
      case Fetch(_) => t
  }

  // What a poller does next depends on its own phase alone, and on the gate when it begins.

  predicate Can(c: Config, now: int, phase: Phase, m: Move) {
    match m
    case BeginSweep => phase.Idle?
    case LandSweep => phase.Sweeping?
    case LeaveSweep => phase.Sweeping?
    case Claim(_) => phase.Fetching?
    case ClaimLost(_) => phase.Fetching?
    case LeaveFetch => phase.Fetching?
    case FetchNothing => phase.Fetching?
    case Wake => phase.HasHeart() && phase.heart.inFlight.None? && now >= phase.heart.since + c.interval
    case BeatDone(_) => phase.HasHeart() && phase.heart.inFlight.Some?
    case Send(report) => if report.Fail? then phase.Raised? else phase.Working?
    case Raise => phase.Working?
    case ReportLands => phase.Awaiting? && phase.wire.InFlight?
    case ReportLost => phase.Awaiting? && phase.wire.InFlight?
    case Heard => phase.Awaiting? && phase.wire.Landed?
    case GiveUp => phase.Awaiting?
    case Kill => !phase.Stopped?
  }

  /** Where the poller's own control flow goes next (base_worker.py). */
  function Next(c: Config, gateOpen: bool, now: int, phase: Phase, m: Move): Phase
    requires Can(c, now, phase, m)
  {
    match m
    case BeginSweep => if gateOpen then Sweeping(now - c.cutoff) else Fetching
    case LandSweep => Fetching
    case LeaveSweep => Fetching
    case Claim(j) => Working(j, Heart(now, now, None))
    case ClaimLost(_) => Fetching
    case LeaveFetch => Fetching
    case FetchNothing => Idle
    case Wake => phase.(heart := phase.heart.(inFlight := Some(now)))
    case BeatDone(landed) =>
      phase.(heart := Heart(if landed then phase.heart.inFlight.value else phase.heart.base, now, None))
    case Send(report) => Awaiting(phase.job, phase.heart, report, now, InFlight)
    case Raise => Raised(phase.job, phase.heart)
    case ReportLands => phase.(wire := Landed)
    case ReportLost => phase.(wire := Lost)
    case Heard => if phase.report.GiveBack? then Stopped else Idle
    case GiveUp => if phase.report.Fail? then Idle else Raised(phase.job, phase.heart)
    case Kill => Stopped
  }

  function EffectOf(c: Config, now: int, jobType: string, phase: Phase, m: Move): Effect
    requires Can(c, now, phase, m)
  {
    match m
    case LandSweep => Lands(Sweep(jobType, phase.cutoff), 0)
    case Claim(j) => Takes(j)
    case ClaimLost(j) => Takes(j)
    case BeatDone(landed) => if landed then Lands(Beat(phase.job), phase.heart.inFlight.value) else Nothing
    case ReportLands => Lands(Outcome(phase.job, phase.report), phase.sentAt)
    case _ => Nothing
  }

  function One(cond: bool, x: Stray): multiset<Stray> { if cond then multiset{x} else multiset{} }

  /** The heartbeat task is cancelled together with its poller, or a heartbeat fails. */
  function BeatLeft(before: Phase, m: Move, after: Phase): multiset<Stray> {
    if before.HasHeart() && before.heart.inFlight.Some? && (!after.HasHeart() || m == BeatDone(false))
    then multiset{Stray(Beat(before.job), before.heart.inFlight.value, false)} else multiset{}
  }

  /** The statements that a poller leaves under way when it goes on. */
  function LeftBehind(jobType: string, before: Phase, m: Move, after: Phase): multiset<Stray> {
    match before
    case Sweeping(cutoff) => One(m.LeaveSweep? || m.Kill?, Stray(Sweep(jobType, cutoff), 0, false))
    case Fetching => One(m.LeaveFetch? || m.Kill?, Stray(Fetch(jobType), 0, false))
    case Awaiting(job, heart, report, sentAt, wire) =>
      BeatLeft(before, m, after) + One(wire.InFlight? && (m.GiveUp? || m.Kill?), Stray(Outcome(job, report), sentAt, after.Raised?))
    case _ => BeatLeft(before, m, after)
  }

  predicate CanMove(c: Config, s: State, p: PollerId, m: Move) {
    && p in s.pollers && Can(c, s.now, s.pollers[p].phase, m)
    && (m.Claim? ==> Claimable(s.table, m.job, s.pollers[p].jobType))
    && (m.ClaimLost? ==> Claimable(s.table, m.job, s.pollers[p].jobType))
  }

  predicate GateOpen(c: Config, s: State, p: PollerId)
    requires p in s.pollers
  {
    var key := (s.pollers[p].worker, s.pollers[p].jobType);
    s.now - (if key in s.lastSweep then s.lastSweep[key] else 0) >= c.sweepEvery
  }

  function NextPhase(c: Config, s: State, p: PollerId, m: Move): Phase
    requires CanMove(c, s, p, m)
  {
    Next(c, GateOpen(c, s, p), s.now, s.pollers[p].phase, m)
  }

  predicate Enabled(c: Config, s: State, a: Action) {
    match a
    case Tick(to) => to > s.now
    case Do(p, m) => CanMove(c, s, p, m)
    case StrayLands(x) => x in s.strays && !x.statement.Fetch?
    case StrayClaims(x, j) => x in s.strays && x.statement.Fetch? && Claimable(s.table, j, x.statement.jobType)
    case StrayDies(x) => x in s.strays
  }

  /** One poller goes on. */
  function Moved(c: Config, s: State, p: PollerId, m: Move): State
    requires CanMove(c, s, p, m)
  {
    var poller := s.pollers[p];
    var phase := NextPhase(c, s, p, m);
    var ignored := m.GiveUp? && poller.phase.wire.Landed?;
    s.(table := Apply(s.table, EffectOf(c, s.now, poller.jobType, poller.phase, m), s.now),
       pollers := s.pollers[p := poller.(phase := phase)],
       lastSweep := if m.BeginSweep? && GateOpen(c, s, p)
                    then s.lastSweep[(poller.worker, poller.jobType) := s.now] else s.lastSweep,
       strays := s.strays + LeftBehind(poller.jobType, poller.phase, m, phase),
       unheardRequeue := s.unheardRequeue || (ignored && poller.phase.report.GiveBack?),
       unheardFinal := s.unheardFinal || (ignored && poller.phase.report.Complete?))
  }

  function Step(c: Config, s: State, a: Action): State
    requires Enabled(c, s, a)
  {
    match a
    case Tick(to) => s.(now := to)
    case Do(p, m) => Moved(c, s, p, m)
    case StrayLands(x) =>
      s.(table := Apply(s.table, Lands(x.statement, x.sentAt), s.now), strays := s.strays - multiset{x},
         unheardRequeue := s.unheardRequeue || (x.goesOn && x.statement.Outcome? && x.statement.report.GiveBack?),
         unheardFinal := s.unheardFinal || (x.goesOn && x.statement.Outcome? && x.statement.report.Complete?))
    case StrayClaims(x, j) => s.(table := Apply(s.table, Takes(j), s.now), strays := s.strays - multiset{x})
    case StrayDies(x) => s.(strays := s.strays - multiset{x})
  }

  /** What the action does to the table. */
  function ActionEffect(c: Config, s: State, a: Action): Effect
    requires Enabled(c, s, a)
  {
    match a
    case Do(p, m) => EffectOf(c, s.now, s.pollers[p].jobType, s.pollers[p].phase, m)
    case StrayLands(x) => Lands(x.statement, x.sentAt)
    case StrayClaims(x, j) => Takes(j)
    case _ => Nothing
  }

  lemma TableAfter(c: Config, s: State, a: Action)
    requires Enabled(c, s, a)
    ensures Step(c, s, a).table == Apply(s.table, ActionEffect(c, s, a), s.now)
  {
  }

  lemma TakesPending(c: Config, s: State, a: Action)
    requires Enabled(c, s, a) && ActionEffect(c, s, a).Takes?
    ensures var j := ActionEffect(c, s, a).job; j in s.table && s.table[j].status.Pending?
  {
  }

  /** Time passes only while every heartbeat keeps its schedule and nothing under way takes too long. */
  predicate Timely(c: Config, s: State, a: Action) {
    a.Tick? ==>
      && (forall p :: p in s.pollers && s.pollers[p].phase.HasHeart() ==>
            var phase := s.pollers[p].phase;
            && a.to <= phase.heart.base + c.Cycle()
            && (phase.heart.inFlight.Some? ==> a.to <= phase.heart.inFlight.value + c.latency)
            && (phase.Awaiting? && phase.wire.InFlight? ==> a.to <= phase.sentAt + c.latency))
      && (forall x :: x in s.strays && (x.statement.Beat? || x.statement.Outcome?) ==> a.to <= x.sentAt + c.latency)
  }

  function Run(c: Config, s: State, acts: seq<Action>): Option<State>
    decreases |acts|
  {
    if acts == [] then Some(s)
    else if !Enabled(c, s, acts[0]) then None
    else Run(c, Step(c, s, acts[0]), acts[1..])
  }

  lemma {:induction false} RunConcat(c: Config, s: State, first: seq<Action>, second: seq<Action>)
    requires Run(c, s, first).Some?
    ensures Run(c, s, first + second) == Run(c, Run(c, s, first).value, second)
    decreases |first|
  {
    if first == [] {
      assert first + second == second;
    } else {
      assert (first + second)[1..] == first[1..] + second;
      RunConcat(c, Step(c, s, first[0]), first[1..], second);
    }
  }

  lemma RunSnoc(c: Config, s: State, acts: seq<Action>, a: Action)
    requires Run(c, s, acts).Some? && Enabled(c, Run(c, s, acts).value, a)
    ensures Run(c, s, acts + [a]) == Some(Step(c, Run(c, s, acts).value, a))
  {
    RunConcat(c, s, acts, [a]);
    assert [a][1..] == [];
  }

  /** As Run, and None as well when some heartbeat or report misses its schedule. */
  function TimelyRun(c: Config, s: State, acts: seq<Action>): Option<State>
    decreases |acts|
  {
    if acts == [] then Some(s)
    else if !Enabled(c, s, acts[0]) || !Timely(c, s, acts[0]) then None
    else TimelyRun(c, Step(c, s, acts[0]), acts[1..])
  }

  /** Workers start with idle pollers on whatever table an earlier worker left behind. */
  predicate Start(s: State) {
    && s.now >= 0 && s.strays == multiset{} && s.lastSweep == map[] && !s.unheardRequeue && !s.unheardFinal
    && forall p :: p in s.pollers ==> s.pollers[p].phase.Idle?
  }

  /** What a poller can leave under way: the very statements it was waiting for. */
  predicate LeftFrom(jobType: string, before: Phase, after: Phase, x: Stray) {
    || (before.Sweeping? && x == Stray(Sweep(jobType, before.cutoff), 0, false))
    || (before.Fetching? && x == Stray(Fetch(jobType), 0, false))
    || (before.HasHeart() && before.heart.inFlight.Some? && x == Stray(Beat(before.job), before.heart.inFlight.value, false))
    || OutcomeLeft(before, after, x)
  }

  predicate OutcomeLeft(before: Phase, after: Phase, x: Stray) {
    && before.Awaiting? && before.wire.InFlight?
    && x == Stray(Outcome(before.job, before.report), before.sentAt, after.Raised?)
  }

  lemma LeftFacts(c: Config, gateOpen: bool, now: int, jobType: string, phase: Phase, m: Move)
    requires Can(c, now, phase, m)
    ensures var after := Next(c, gateOpen, now, phase, m);
            var left := LeftBehind(jobType, phase, m, after);
            && (forall x :: x in left ==> LeftFrom(jobType, phase, after, x))
            && (forall x :: x in left && x.statement.Outcome? ==> (m.GiveUp? || m.Kill?) && OutcomeLeft(phase, after, x) && left[x] == 1)
  {
  }

  // ---------------------------------------------------------------- final rows stay final

  predicate IsFinal(t: Table, j: JobId) { j in t && t[j].status.Final() }

  lemma StepKeepsFinal(c: Config, s: State, a: Action, j: JobId)
    requires IsFinal(s.table, j) && Enabled(c, s, a)
    ensures IsFinal(Step(c, s, a).table, j)
  {
    TableAfter(c, s, a);
    if ActionEffect(c, s, a).Takes? {
      TakesPending(c, s, a);
    }
    EffectKeepsFinal(s.table, ActionEffect(c, s, a), s.now, j);
  }

  lemma EffectKeepsFinal(t: Table, e: Effect, now: int, j: JobId)
    requires IsFinal(t, j) && (e.Takes? ==> e.job in t && t[e.job].status.Pending?)
    ensures IsFinal(Apply(t, e, now), j)
  {
  }

  /**
   Theorem: a completed or failed row never becomes pending or processing again, in any run,
   timely or not: late heartbeats, stale sweeps, lookup requeues and late finalisations included.
   */
  lemma {:induction false} FinalForever(c: Config, s: State, acts: seq<Action>, j: JobId)
    requires IsFinal(s.table, j) && Run(c, s, acts).Some?
    ensures IsFinal(Run(c, s, acts).value.table, j)
    decreases |acts|
  {
    if acts != [] {
      StepKeepsFinal(c, s, acts[0], j);
      FinalForever(c, Step(c, s, acts[0]), acts[1..], j);
    }
  }

  // ---------------------------------------------------------------- abandoned rows come back

  predicate RowIs(t: Table, j: JobId, row: Row) { j in t && t[j] == row }

  /** `j` is processing and nobody is left to run, refresh, give back or finalise it. */
  predicate Abandoned(s: State, j: JobId, row: Row) {
    && row.status.Processing? && RowIs(s.table, j, row)
    && (forall p :: p in s.pollers ==> !s.pollers[p].phase.Touches(j))
    && (forall x :: x in s.strays ==> !x.Touches(j))
  }

  /** The effect is a sweep of the row's type that began more than the cutoff after the row's stamp. */
  predicate Rescue(e: Effect, row: Row) {
    e.Lands? && e.statement.Sweep? && e.statement.cutoff > row.updatedAt && e.statement.jobType == row.jobType
  }

  /** Action `a` lands such a sweep, be it awaited or a stray. */
  predicate Rescues(c: Config, s: State, a: Action, row: Row)
    requires Enabled(c, s, a)
  {
    Rescue(ActionEffect(c, s, a), row)
  }

  predicate NoRescue(c: Config, s: State, acts: seq<Action>, row: Row)
    requires Run(c, s, acts).Some?
    decreases |acts|
  {
    acts != [] ==> !Rescues(c, s, acts[0], row) && NoRescue(c, Step(c, s, acts[0]), acts[1..], row)
  }

  lemma NextTouches(c: Config, gateOpen: bool, now: int, phase: Phase, m: Move, j: JobId)
    requires Can(c, now, phase, m) && !phase.Touches(j)
    ensures Next(c, gateOpen, now, phase, m).Touches(j) ==> m == Claim(j)
  {
  }

  lemma EffectTouches(c: Config, now: int, jobType: string, phase: Phase, m: Move, j: JobId)
    requires Can(c, now, phase, m) && !phase.Touches(j)
    ensures var e := EffectOf(c, now, jobType, phase, m);
            e.Lands? && (e.statement.Beat? || e.statement.Outcome?) ==> e.statement.job != j
  {
  }

  /** What a move does to the pollers and to the statements left behind. */
  lemma MovedFacts(c: Config, s: State, p: PollerId, m: Move)
    requires CanMove(c, s, p, m)
    ensures var n, poller := Moved(c, s, p, m), s.pollers[p];
            && n.now == s.now && n.pollers == s.pollers[p := poller.(phase := NextPhase(c, s, p, m))]
            && n.strays == s.strays + LeftBehind(poller.jobType, poller.phase, m, NextPhase(c, s, p, m))
  {
  }

  lemma MoveKeepsAway(c: Config, s: State, p: PollerId, m: Move, j: JobId, row: Row)
    requires Abandoned(s, j, row) && CanMove(c, s, p, m)
    ensures var n := Moved(c, s, p, m);
            && (forall q :: q in n.pollers ==> !n.pollers[q].phase.Touches(j))
            && (forall x :: x in n.strays ==> !x.Touches(j))
  {
    MovedFacts(c, s, p, m);
    hide Moved, LeftBehind, Next;
    var poller := s.pollers[p];
    NextTouches(c, GateOpen(c, s, p), s.now, poller.phase, m, j);
    LeftFacts(c, GateOpen(c, s, p), s.now, poller.jobType, poller.phase, m);
  }

  lemma RowWithout(t: Table, e: Effect, now: int, j: JobId, row: Row)
    requires RowIs(t, j, row) && row.status.Processing?
    requires e.Takes? ==> e.job in t && t[e.job].status.Pending?
    requires e.Lands? && (e.statement.Beat? || e.statement.Outcome?) ==> e.statement.job != j
    ensures RowIs(Apply(t, e, now), j, if Rescue(e, row) then row.(status := Pending) else row)
  {
  }

  lemma StepKeepsAbandoned(c: Config, s: State, a: Action, j: JobId, row: Row)
    requires Abandoned(s, j, row) && Enabled(c, s, a)
    ensures RowIs(Step(c, s, a).table, j, if Rescues(c, s, a, row) then row.(status := Pending) else row)
    ensures !Rescues(c, s, a, row) ==> Abandoned(Step(c, s, a), j, row)
  {
    TableAfter(c, s, a);
    if a.Do? {
      EffectTouches(c, s.now, s.pollers[a.p].jobType, s.pollers[a.p].phase, a.move, j);
      MoveKeepsAway(c, s, a.p, a.move, j, row);
    }
    if ActionEffect(c, s, a).Takes? {
      TakesPending(c, s, a);
    }
    RowWithout(s.table, ActionEffect(c, s, a), s.now, j, row);
  }

  /**
   Theorem: an abandoned row waits unchanged, however long and whatever else happens, and the first
   sweep of its type that began after the cutoff returns it to pending; nothing else does.
   */
  lemma {:induction false} AbandonedRowsComeBack(c: Config, s: State, acts: seq<Action>, a: Action, j: JobId, row: Row)
    requires Abandoned(s, j, row) && Run(c, s, acts).Some? && NoRescue(c, s, acts, row)
    requires Enabled(c, Run(c, s, acts).value, a)
    ensures var last := Run(c, s, acts).value;
            && RowIs(last.table, j, row)
            && (Rescues(c, last, a, row) <==> RowIs(Step(c, last, a).table, j, row.(status := Pending)))
    decreases |acts|
  {
    if acts == [] {
      StepKeepsAbandoned(c, s, a, j, row);
    } else {
      StepKeepsAbandoned(c, s, acts[0], j, row);
      AbandonedRowsComeBack(c, Step(c, s, acts[0]), acts[1..], a, j, row);
    }
  }

  // ---------------------------------------------------------------- sweeps happen when they are due

  /** A poller of the process begins a sweep of the type. */
  predicate BeginsSweep(c: Config, s: State, a: Action, worker: nat, jobType: string)
    requires Enabled(c, s, a)
  {
    && a.Do? && a.move.BeginSweep? && s.pollers[a.p].worker == worker && s.pollers[a.p].jobType == jobType
    && Step(c, s, a).pollers[a.p].phase.Sweeping?
  }

  /** When the last sweep of the type by the process began; `before`, if there is none among `acts`. */
  function SweptAt(c: Config, s: State, acts: seq<Action>, worker: nat, jobType: string, before: int): int
    requires Run(c, s, acts).Some?
    decreases |acts|
  {
    if acts == [] then before
    else
      SweptAt(c, Step(c, s, acts[0]), acts[1..], worker, jobType, if BeginsSweep(c, s, acts[0], worker, jobType) then s.now else before)
  }

  function Remembered(s: State, worker: nat, jobType: string): int {
    if (worker, jobType) in s.lastSweep then s.lastSweep[(worker, jobType)] else 0
  }

  lemma StepRemembers(c: Config, s: State, a: Action, worker: nat, jobType: string)
    requires Enabled(c, s, a)
    ensures Remembered(Step(c, s, a), worker, jobType) ==
            if BeginsSweep(c, s, a, worker, jobType) then s.now else Remembered(s, worker, jobType)
  {
  }

  lemma {:induction false} RunRemembers(c: Config, s: State, acts: seq<Action>, worker: nat, jobType: string)
    requires Run(c, s, acts).Some?
    ensures Remembered(Run(c, s, acts).value, worker, jobType) == SweptAt(c, s, acts, worker, jobType, Remembered(s, worker, jobType))
    decreases |acts|
  {
    if acts != [] {
      StepRemembers(c, s, acts[0], worker, jobType);
      hide Step, Enabled, BeginsSweep, Remembered;
      RunRemembers(c, Step(c, s, acts[0]), acts[1..], worker, jobType);
    }
  }

  /** The last sweep of its own type by its own process began at least `sweepEvery` ago, or there was none since time 0. */
  predicate Due(c: Config, s: State, acts: seq<Action>, p: PollerId)
    requires Run(c, s, acts).Some? && p in Run(c, s, acts).value.pollers
  {
    var n := Run(c, s, acts).value;
    n.now - SweptAt(c, s, acts, n.pollers[p].worker, n.pollers[p].jobType, 0) >= c.sweepEvery
  }

  /**
   Theorem: after any run an idle poller begins with a sweep, of what is older than the cutoff, exactly when one is due,
   and goes straight to its claim otherwise.
   */
  lemma SweepsExactlyWhenDue(c: Config, s: State, acts: seq<Action>, p: PollerId)
    requires Start(s) && Run(c, s, acts).Some?
    requires p in Run(c, s, acts).value.pollers && Run(c, s, acts).value.pollers[p].phase.Idle?
    ensures var n := Run(c, s, acts).value;
            && Enabled(c, n, Do(p, BeginSweep))
            && Step(c, n, Do(p, BeginSweep)).pollers[p].phase == if Due(c, s, acts, p) then Sweeping(n.now - c.cutoff) else Fetching
  {
    var n := Run(c, s, acts).value;
    RunRemembers(c, s, acts, n.pollers[p].worker, n.pollers[p].jobType);
    hide Run, SweptAt;
  }

  lemma LandedSweepRescues(c: Config, s: State, p: PollerId, j: JobId, row: Row)
    requires p in s.pollers && s.pollers[p].phase.Sweeping? && s.pollers[p].jobType == row.jobType
    requires RowIs(s.table, j, row) && row.status.Processing? && row.updatedAt < s.pollers[p].phase.cutoff
    ensures Enabled(c, s, Do(p, LandSweep)) && RowIs(Step(c, s, Do(p, LandSweep)).table, j, row.(status := Pending))
  {
    TableAfter(c, s, Do(p, LandSweep));
    hide Step;
  }

  /**
   Theorem: a row that has been processing without a stamp for longer than the cutoff goes back to pending as soon as
   an idle poller of its type, whose process is due to sweep, gets its next two statements through.
   */
  lemma StaleRowsAreRescued(c: Config, s: State, acts: seq<Action>, p: PollerId, j: JobId, row: Row)
    requires Start(s) && Run(c, s, acts).Some?
    requires p in Run(c, s, acts).value.pollers && Run(c, s, acts).value.pollers[p].phase.Idle? && Due(c, s, acts, p)
    requires RowIs(Run(c, s, acts).value.table, j, row) && row.status.Processing?
    requires row.jobType == Run(c, s, acts).value.pollers[p].jobType && row.updatedAt < Run(c, s, acts).value.now - c.cutoff
    ensures var rescue := Run(c, s, acts + [Do(p, BeginSweep), Do(p, LandSweep)]);
            rescue.Some? && RowIs(rescue.value.table, j, row.(status := Pending))
  {
    var n := Run(c, s, acts).value;
    SweepsExactlyWhenDue(c, s, acts, p);
    var m := Step(c, n, Do(p, BeginSweep));
    assert m.table == n.table && m.pollers[p].jobType == n.pollers[p].jobType;
    LandedSweepRescues(c, m, p, j, row);
    hide Run, Step, Enabled, Due;
    RunSnoc(c, s, acts, Do(p, BeginSweep));
    RunSnoc(c, s, acts + [Do(p, BeginSweep)], Do(p, LandSweep));
    assert acts + [Do(p, BeginSweep)] + [Do(p, LandSweep)] == acts + [Do(p, BeginSweep), Do(p, LandSweep)];
  }

  // ---------------------------------------------------------------- heartbeats go on

  /** The row of the job is stamped, if the job is still processing. */
  ghost predicate Stamped(before: Table, after: Table, j: JobId, stamp: int) {
    && after.Keys == before.Keys && (forall k :: k in before && k != j ==> after[k] == before[k])
    && (j in before ==> after[j] == if before[j].status.Processing? then before[j].(updatedAt := stamp) else before[j])
  }

  /** The state with another heart of poller p. */
  function WithHeart(s: State, p: PollerId, heart: Heart): State
    requires p in s.pollers && s.pollers[p].phase.HasHeart()
  {
    s.(pollers := s.pollers[p := s.pollers[p].(phase := s.pollers[p].phase.(heart := heart))])
  }

  lemma RunTwo(c: Config, s: State, a: Action, b: Action)
    requires Enabled(c, s, a) && Enabled(c, Step(c, s, a), b)
    ensures Run(c, s, [a, b]) == Some(Step(c, Step(c, s, a), b))
  {
    hide Step, Enabled;
    assert Run(c, s, []) == Some(s) && [] + [a] == [a] && [a] + [b] == [a, b];
    RunSnoc(c, s, [], a);
    RunSnoc(c, s, [a], b);
  }

  lemma WakeStep(c: Config, s: State, p: PollerId)
    requires p in s.pollers && Can(c, s.now, s.pollers[p].phase, Wake)
    ensures Enabled(c, s, Do(p, Wake))
    ensures Step(c, s, Do(p, Wake)) == WithHeart(s, p, s.pollers[p].phase.heart.(inFlight := Some(s.now)))
  {
    assert s.strays + multiset{} == s.strays;
  }

  lemma BeatLandsStep(c: Config, s: State, p: PollerId)
    requires p in s.pollers && Can(c, s.now, s.pollers[p].phase, BeatDone(true))
    ensures Enabled(c, s, Do(p, BeatDone(true)))
    ensures var phase := s.pollers[p].phase; var stamp := phase.heart.inFlight.value;
            Step(c, s, Do(p, BeatDone(true))) ==
            WithHeart(s, p, Heart(stamp, s.now, None)).(table := Heartbeat(s.table, phase.job, stamp))
  {
    hide Heartbeat;
    assert LeftBehind(s.pollers[p].jobType, s.pollers[p].phase, BeatDone(true), NextPhase(c, s, p, BeatDone(true))) == multiset{};
    assert s.strays + multiset{} == s.strays;
    hide LeftBehind, BeatLeft;
  }

  lemma BeatFailsStep(c: Config, s: State, p: PollerId)
    requires p in s.pollers && Can(c, s.now, s.pollers[p].phase, BeatDone(false))
    ensures Enabled(c, s, Do(p, BeatDone(false)))
    ensures var phase := s.pollers[p].phase; var stamp := phase.heart.inFlight.value;
            Step(c, s, Do(p, BeatDone(false))) ==
            WithHeart(s, p, Heart(phase.heart.base, s.now, None)).(strays := s.strays + multiset{Stray(Beat(phase.job), stamp, false)})
  {
    hide Heartbeat;
    var phase := s.pollers[p].phase;
    assert LeftBehind(s.pollers[p].jobType, phase, BeatDone(false), NextPhase(c, s, p, BeatDone(false)))
        == multiset{Stray(Beat(phase.job), phase.heart.inFlight.value, false)};
    hide LeftBehind, BeatLeft;
  }

  lemma HeartTwice(s: State, p: PollerId, heart: Heart, after: Heart)
    requires p in s.pollers && s.pollers[p].phase.HasHeart()
    ensures WithHeart(s, p, heart).pollers[p].phase == s.pollers[p].phase.(heart := heart)
    ensures WithHeart(WithHeart(s, p, heart), p, after) == WithHeart(s, p, after)
  {
    assert WithHeart(WithHeart(s, p, heart), p, after).pollers == WithHeart(s, p, after).pollers;
  }

  /**
   Theorem: a poller that holds a job, whatever it is doing, can wake for a heartbeat once the interval has passed, and one
   that is answered stamps the row with that moment and starts the next interval; so heartbeats go on.
   */
  lemma HeartbeatsGoOn(c: Config, s: State, p: PollerId)
    requires p in s.pollers && s.pollers[p].phase.HasHeart() && s.pollers[p].phase.heart.inFlight.None?
    requires s.now >= s.pollers[p].phase.heart.since + c.interval
    ensures var end := Run(c, s, [Do(p, Wake), Do(p, BeatDone(true))]);
            && end.Some? && Stamped(s.table, end.value.table, s.pollers[p].phase.job, s.now)
            && end.value == WithHeart(s, p, Heart(s.now, s.now, None)).(table := end.value.table)
  {
    hide WithHeart, Step, Enabled, Run, Heartbeat, Stamped;
    var heart := s.pollers[p].phase.heart;
    WakeStep(c, s, p);
    HeartTwice(s, p, heart.(inFlight := Some(s.now)), Heart(s.now, s.now, None));
    WithHeartIsOf(s, p, heart.(inFlight := Some(s.now)));
    BeatLandsStep(c, Step(c, s, Do(p, Wake)), p);
    WithHeartIsOf(s, p, Heart(s.now, s.now, None));
    RunTwo(c, s, Do(p, Wake), Do(p, BeatDone(true)));
    HeartbeatStamps(s.table, s.pollers[p].phase.job, s.now);
  }

  lemma HeartbeatStamps(t: Table, j: JobId, stamp: int)
    ensures Stamped(t, Heartbeat(t, j, stamp), j, stamp)
  {
  }

  lemma WithHeartIsOf(s: State, p: PollerId, heart: Heart)
    requires p in s.pollers && s.pollers[p].phase.HasHeart()
    ensures var n := WithHeart(s, p, heart); p in n.pollers && n.now == s.now && n.table == s.table && n.strays == s.strays
  {
  }

  /** Theorem: a heartbeat that fails starts the next interval as well; its statement stays under way and may land, once. */
  lemma FailedBeatsMayLand(c: Config, s: State, p: PollerId)
    requires p in s.pollers && s.pollers[p].phase.HasHeart() && s.pollers[p].phase.heart.inFlight.None?
    requires s.now >= s.pollers[p].phase.heart.since + c.interval
    ensures var beat := Stray(Beat(s.pollers[p].phase.job), s.now, false);
            var end := Run(c, s, [Do(p, Wake), Do(p, BeatDone(false))]);
            && end.Some?
            && end.value == WithHeart(s, p, Heart(s.pollers[p].phase.heart.base, s.now, None)).(strays := s.strays + multiset{beat})
            && Enabled(c, end.value, StrayLands(beat))
            && var late := Step(c, end.value, StrayLands(beat));
               Stamped(s.table, late.table, s.pollers[p].phase.job, s.now) && late == end.value.(table := late.table, strays := s.strays)
  {
    hide WithHeart;
    var heart, beat := s.pollers[p].phase.heart, Stray(Beat(s.pollers[p].phase.job), s.now, false);
    WakeStep(c, s, p);
    HeartTwice(s, p, heart.(inFlight := Some(s.now)), Heart(heart.base, s.now, None));
    WithHeartIsOf(s, p, heart.(inFlight := Some(s.now)));
    BeatFailsStep(c, Step(c, s, Do(p, Wake)), p);
    WithHeartIsOf(s, p, Heart(heart.base, s.now, None));
    StrayBeatStep(c, WithHeart(s, p, Heart(heart.base, s.now, None)), beat);
    hide Step, Enabled;
    RunTwo(c, s, Do(p, Wake), Do(p, BeatDone(false)));
  }

  lemma StrayBeatStep(c: Config, s: State, beat: Stray)
    requires beat.statement.Beat? && !beat.goesOn
    ensures var n := s.(strays := s.strays + multiset{beat});
            && Enabled(c, n, StrayLands(beat))
            && var late := Step(c, n, StrayLands(beat));
               Stamped(s.table, late.table, beat.statement.job, beat.sentAt) && late == n.(table := late.table, strays := s.strays)
  {
    assert s.strays + multiset{beat} - multiset{beat} == s.strays;
  }

  // ---------------------------------------------------------------- one runner per job

  /** The row is out of reach of claims, and of sweeps with a cutoff up to `from`. */
  predicate Held(t: Table, j: JobId, from: int) {
    j in t && !t[j].status.Pending? && (t[j].status.Processing? ==> t[j].updatedAt >= from)
  }

  /** Everything under way is recent, and every heartbeat is on schedule. */
  ghost predicate OnSchedule(c: Config, s: State) {
    && (forall p :: p in s.pollers ==> PhaseOnSchedule(c, s.now, s.pollers[p].phase))
    && (forall x :: x in s.strays ==> StrayOnSchedule(c, s.now, x))
  }

  predicate PhaseOnSchedule(c: Config, now: int, phase: Phase) {
    && (phase.Sweeping? ==> phase.cutoff <= now - c.cutoff)
    && (phase.HasHeart() ==>
          && phase.heart.base <= now <= phase.heart.base + c.Cycle()
          && (phase.heart.inFlight.Some? ==> phase.heart.inFlight.value <= now <= phase.heart.inFlight.value + c.latency))
    && (phase.Awaiting? && phase.wire.InFlight? ==> phase.sentAt <= now <= phase.sentAt + c.latency)
  }

  predicate StrayOnSchedule(c: Config, now: int, x: Stray) {
    && (x.statement.Sweep? ==> x.statement.cutoff <= now - c.cutoff)
    && (x.statement.Beat? || x.statement.Outcome? ==> x.sentAt <= now <= x.sentAt + c.latency)
  }

  lemma MoveKeepsSchedule(c: Config, gateOpen: bool, now: int, phase: Phase, m: Move)
    requires c.Valid() && Can(c, now, phase, m) && PhaseOnSchedule(c, now, phase)
    ensures PhaseOnSchedule(c, now, Next(c, gateOpen, now, phase, m))
  {
  }

  lemma TickKeepsSchedule(c: Config, s: State, to: int)
    requires c.Valid() && OnSchedule(c, s) && Timely(c, s, Tick(to)) && to > s.now
    ensures OnSchedule(c, s.(now := to))
  {
    forall p | p in s.pollers ensures PhaseOnSchedule(c, to, s.pollers[p].phase) {
      assert PhaseOnSchedule(c, s.now, s.pollers[p].phase);
    }
    forall x | x in s.strays ensures StrayOnSchedule(c, to, x) {
      assert StrayOnSchedule(c, s.now, x);
    }
  }

  lemma LeftKeepsSchedule(c: Config, gateOpen: bool, now: int, jobType: string, phase: Phase, m: Move, x: Stray)
    requires c.Valid() && Can(c, now, phase, m) && PhaseOnSchedule(c, now, phase)
    requires x in LeftBehind(jobType, phase, m, Next(c, gateOpen, now, phase, m))
    ensures StrayOnSchedule(c, now, x)
  {
    LeftFacts(c, gateOpen, now, jobType, phase, m);
  }

  lemma StepKeepsSchedule(c: Config, s: State, a: Action)
    requires c.Valid() && OnSchedule(c, s) && Enabled(c, s, a) && Timely(c, s, a)
    ensures OnSchedule(c, Step(c, s, a))
  {
    match a
    case Tick(to) => TickKeepsSchedule(c, s, to);
    case Do(p, m) =>
      var n, poller := Moved(c, s, p, m), s.pollers[p];
      MoveKeepsSchedule(c, GateOpen(c, s, p), s.now, poller.phase, m);
      forall x | x in n.strays ensures StrayOnSchedule(c, s.now, x) {
        if x in LeftBehind(poller.jobType, poller.phase, m, n.pollers[p].phase) {
          LeftKeepsSchedule(c, GateOpen(c, s, p), s.now, poller.jobType, poller.phase, m, x);
        }
      }
    case _ =>
  }

  // Who has a hand on a job: always the pollers that run it and the lookup requeues under way; all claims and
  // reports under way as long as no lookup requeue went unheard.

  predicate Has(phase: Phase, j: JobId, all: bool) { if all then phase.Claims(j) else phase.Holds(j) }

  predicate HasStray(x: Stray, j: JobId, all: bool) { if all then x.Claims(j) else x.Holds(j) }

  /** The poller has given up a report, and is past it. */
  predicate Past(phase: Phase) { phase.Raised? || (phase.Awaiting? && phase.report.Fail?) }

  /** Two reports of one job are under way only if they are a given-up one and a later final status. */
  predicate Together(x: Stray, y: Stray) {
    && (x.goesOn || y.goesOn)
    && (x.statement.Outcome? && x.statement.report.GiveBack? ==> x.goesOn)
    && (y.statement.Outcome? && y.statement.report.GiveBack? ==> y.goesOn)
    && !(x.statement.Outcome? && x.statement.report.GiveBack? && y.statement.Outcome? && y.statement.report.GiveBack?)
  }

  /** Only one poller has a hand on a job; a report under way beside it is one it has given up. */
  ghost predicate Lone(s: State, all: bool) {
    && (forall p, q, j :: p in s.pollers && q in s.pollers && Has(s.pollers[p].phase, j, all) && Has(s.pollers[q].phase, j, all)
          ==> p == q)
    && (forall p, x, j :: p in s.pollers && x in s.strays && Has(s.pollers[p].phase, j, all) && HasStray(x, j, all)
          ==> x.goesOn && Past(s.pollers[p].phase))
    && (forall x, y, j :: x in s.strays && y in s.strays - multiset{x} && HasStray(x, j, all) && HasStray(y, j, all)
          ==> Together(x, y))
  }

  function From(c: Config, phase: Phase): int
    requires phase.HasHeart()
  {
    phase.heart.base - c.latency
  }

  function StrayFrom(c: Config, x: Stray): int { x.sentAt - c.Cycle() - c.latency }

  /** The rows of these jobs are out of reach. */
  ghost predicate RowsHeld(c: Config, s: State, all: bool) {
    && (forall p, j :: p in s.pollers && Has(s.pollers[p].phase, j, all) ==> Held(s.table, j, From(c, s.pollers[p].phase)))
    && (forall x, j :: x in s.strays && HasStray(x, j, all) ==> Held(s.table, j, StrayFrom(c, x)))
  }

  /** A poller gives up a lookup requeue that took effect. */
  predicate GoesUnheard(phase: Phase, m: Move) {
    m.GiveUp? && phase.Awaiting? && phase.report.GiveBack? && phase.wire.Landed?
  }

  lemma HasAfter(c: Config, gateOpen: bool, now: int, phase: Phase, m: Move, j: JobId, all: bool)
    requires Can(c, now, phase, m) && (all ==> !GoesUnheard(phase, m))
    ensures var after := Next(c, gateOpen, now, phase, m);
            Has(after, j, all) ==> m == Claim(j) || (Has(phase, j, all) && (Past(phase) ==> Past(after)))
  {
  }

  lemma LeftIsOutcome(c: Config, gateOpen: bool, now: int, jobType: string, phase: Phase, m: Move, x: Stray, j: JobId, all: bool)
    requires Can(c, now, phase, m) && HasStray(x, j, all)
    requires x in LeftBehind(jobType, phase, m, Next(c, gateOpen, now, phase, m))
    ensures (m.GiveUp? || m.Kill?) && Has(phase, j, all) && OutcomeLeft(phase, Next(c, gateOpen, now, phase, m), x)
  {
    LeftFacts(c, gateOpen, now, jobType, phase, m);
    assert x.statement.Outcome?;
    assert phase.job == j && (all || phase.report.GiveBack?);
  }

  lemma LeftHas(c: Config, gateOpen: bool, now: int, jobType: string, phase: Phase, m: Move, x: Stray, j: JobId, all: bool)
    requires Can(c, now, phase, m) && HasStray(x, j, all)
    requires x in LeftBehind(jobType, phase, m, Next(c, gateOpen, now, phase, m))
    ensures var after := Next(c, gateOpen, now, phase, m);
            && (m.GiveUp? || m.Kill?) && Has(phase, j, all) && OutcomeLeft(phase, after, x)
            && (Has(after, j, all) ==> x.goesOn && Past(after))
            && (Past(phase) ==> !x.goesOn && phase.report.Fail?)
  {
    LeftIsOutcome(c, gateOpen, now, jobType, phase, m, x, j, all);
  }

  lemma PendingIsFree(c: Config, s: State, all: bool, j: JobId)
    requires RowsHeld(c, s, all) && j in s.table && s.table[j].status.Pending?
    ensures forall p :: p in s.pollers ==> !Has(s.pollers[p].phase, j, all)
    ensures forall x :: x in s.strays ==> !HasStray(x, j, all)
  {
  }

  /** Whoever has a hand on a job after the move had it before, unless the move is the claim. */
  lemma HandsAfter(c: Config, s: State, p: PollerId, m: Move, j: JobId, all: bool)
    requires RowsHeld(c, s, all) && CanMove(c, s, p, m)
    requires all ==> !GoesUnheard(s.pollers[p].phase, m)
    ensures var n := Moved(c, s, p, m);
            if m == Claim(j) then
              && (forall q :: q in s.pollers ==> !Has(s.pollers[q].phase, j, all))
              && (forall x :: x in s.strays ==> !HasStray(x, j, all))
            else
              Has(n.pollers[p].phase, j, all) ==>
                Has(s.pollers[p].phase, j, all) && (Past(s.pollers[p].phase) ==> Past(n.pollers[p].phase))
  {
    if m == Claim(j) {
      PendingIsFree(c, s, all, j);
    } else {
      HasAfter(c, GateOpen(c, s, p), s.now, s.pollers[p].phase, m, j, all);
    }
  }

  lemma MoveKeepsLoner(c: Config, s: State, p: PollerId, m: Move, all: bool, q: PollerId, r: PollerId, j: JobId)
    requires Lone(s, all) && RowsHeld(c, s, all) && CanMove(c, s, p, m)
    requires all ==> !GoesUnheard(s.pollers[p].phase, m)
    requires var n := Moved(c, s, p, m);
             q in n.pollers && r in n.pollers && Has(n.pollers[q].phase, j, all) && Has(n.pollers[r].phase, j, all)
    ensures q == r
  {
    HandsAfter(c, s, p, m, j, all);
  }

  lemma LeftIsPast(c: Config, s: State, p: PollerId, m: Move, all: bool, q: PollerId, x: Stray, j: JobId)
    requires Lone(s, all) && RowsHeld(c, s, all) && CanMove(c, s, p, m)
    requires all ==> !GoesUnheard(s.pollers[p].phase, m)
    requires var n := Moved(c, s, p, m);
             q in n.pollers && x in n.strays && Has(n.pollers[q].phase, j, all) && HasStray(x, j, all)
    ensures x.goesOn && Past(Moved(c, s, p, m).pollers[q].phase)
  {
    var poller := s.pollers[p];
    HandsAfter(c, s, p, m, j, all);
    if x in LeftBehind(poller.jobType, poller.phase, m, Moved(c, s, p, m).pollers[p].phase) {
      LeftHas(c, GateOpen(c, s, p), s.now, poller.jobType, poller.phase, m, x, j, all);
    }
  }

  lemma LeftTogether(c: Config, s: State, p: PollerId, m: Move, all: bool, x: Stray, y: Stray, j: JobId)
    requires Lone(s, all) && RowsHeld(c, s, all) && CanMove(c, s, p, m)
    requires var n := Moved(c, s, p, m);
             x in n.strays && y in n.strays - multiset{x} && HasStray(x, j, all) && HasStray(y, j, all)
    ensures Together(x, y)
  {
    var poller := s.pollers[p];
    var left := LeftBehind(poller.jobType, poller.phase, m, Moved(c, s, p, m).pollers[p].phase);
    LeftFacts(c, GateOpen(c, s, p), s.now, poller.jobType, poller.phase, m);
    if x in left {
      LeftHas(c, GateOpen(c, s, p), s.now, poller.jobType, poller.phase, m, x, j, all);
    }
    if y in left {
      LeftHas(c, GateOpen(c, s, p), s.now, poller.jobType, poller.phase, m, y, j, all);
    }
  }

  lemma MoveKeepsLone(c: Config, s: State, p: PollerId, m: Move, all: bool)
    requires Lone(s, all) && RowsHeld(c, s, all) && CanMove(c, s, p, m)
    requires all ==> !GoesUnheard(s.pollers[p].phase, m)
    ensures Lone(Moved(c, s, p, m), all)
  {
    var n := Moved(c, s, p, m);
    forall q, r, j | q in n.pollers && r in n.pollers && Has(n.pollers[q].phase, j, all) && Has(n.pollers[r].phase, j, all)
      ensures q == r
    {
      MoveKeepsLoner(c, s, p, m, all, q, r, j);
    }
    forall q, x, j | q in n.pollers && x in n.strays && Has(n.pollers[q].phase, j, all) && HasStray(x, j, all)
      ensures x.goesOn && Past(n.pollers[q].phase)
    {
      LeftIsPast(c, s, p, m, all, q, x, j);
    }
    forall x, y, j | x in n.strays && y in n.strays - multiset{x} && HasStray(x, j, all) && HasStray(y, j, all)
      ensures Together(x, y)
    {
      LeftTogether(c, s, p, m, all, x, y, j);
    }
  }

  lemma StepKeepsLone(c: Config, s: State, a: Action, all: bool)
    requires Lone(s, all) && RowsHeld(c, s, all) && Enabled(c, s, a) && (all ==> !Step(c, s, a).unheardRequeue)
    ensures Lone(Step(c, s, a), all)
  {
    if a.Do? {
      MoveKeepsLone(c, s, a.p, a.move, all);
    }
  }

  /** The cutoff leaves room for a full heartbeat cycle, one stray heartbeat and one stray report. */
  predicate RoomyCutoff(c: Config) { c.Cycle() + 2 * c.latency <= c.cutoff }

  /** The effect is not older than the schedule allows. */
  predicate Timed(c: Config, t: Table, e: Effect, now: int) {
    match e
    case Nothing => true
    case Takes(j) => j in t && t[j].status.Pending?
    case Lands(statement, sentAt) =>
      && (statement.Beat? ==> sentAt >= now - c.latency)
      && (statement.Sweep? ==> statement.cutoff <= now - c.cutoff)
  }

  predicate GivesBack(e: Effect, j: JobId) { e.Lands? && e.statement == Outcome(j, GiveBack) }

  lemma HeldAfter(c: Config, t: Table, e: Effect, now: int, j: JobId, from: int)
    requires Held(t, j, from) && Timed(c, t, e, now) && now - c.cutoff <= from <= now - c.latency && !GivesBack(e, j)
    ensures Held(Apply(t, e, now), j, from)
  {
  }

  lemma EffectIsTimed(c: Config, s: State, a: Action)
    requires OnSchedule(c, s) && Enabled(c, s, a)
    ensures Timed(c, s.table, ActionEffect(c, s, a), s.now)
  {
    if ActionEffect(c, s, a).Takes? {
      TakesPending(c, s, a);
    } else if a.Do? {
      assert PhaseOnSchedule(c, s.now, s.pollers[a.p].phase);
    } else if a.StrayLands? {
      assert StrayOnSchedule(c, s.now, a.stray);
    }
  }

  /** A lookup requeue that lands leaves nobody else with a hand on the job, unless it was given up. */
  lemma GivenBackIsFree(c: Config, s: State, a: Action, all: bool, j: JobId)
    requires Lone(s, all) && Enabled(c, s, a) && GivesBack(ActionEffect(c, s, a), j)
    requires all ==> !Step(c, s, a).unheardRequeue
    ensures var n := Step(c, s, a);
            && (forall p :: p in n.pollers ==> !Has(n.pollers[p].phase, j, all))
            && (forall x :: x in n.strays ==> !HasStray(x, j, all))
  {
    if a.Do? {
      ReportGivesBack(c, s, a.p, a.move, all, j);
    } else {
      StrayGivesBack(c, s, a.stray, all, j);
    }
  }

  lemma ReportGivesBack(c: Config, s: State, p: PollerId, m: Move, all: bool, j: JobId)
    requires Lone(s, all) && CanMove(c, s, p, m) && GivesBack(ActionEffect(c, s, Do(p, m)), j)
    ensures var n := Moved(c, s, p, m);
            && (forall q :: q in n.pollers ==> !Has(n.pollers[q].phase, j, all))
            && (forall x :: x in n.strays ==> !HasStray(x, j, all))
  {
    var phase := s.pollers[p].phase;
    assert m.ReportLands? && phase.Awaiting? && Has(phase, j, all) && !Past(phase);
    MovedFacts(c, s, p, m);
    assert !Has(NextPhase(c, s, p, m), j, all);
    LeftFacts(c, GateOpen(c, s, p), s.now, s.pollers[p].jobType, phase, m);
    hide Moved, LeftBehind, Next;
    assert forall x :: x in s.strays ==> !HasStray(x, j, all);
    assert forall q :: q in s.pollers && q != p ==> !Has(s.pollers[q].phase, j, all);
  }

  lemma StrayGivesBack(c: Config, s: State, x: Stray, all: bool, j: JobId)
    requires Lone(s, all) && x in s.strays && x.statement == Outcome(j, GiveBack) && (all ==> !x.goesOn)
    ensures forall p :: p in s.pollers ==> !Has(s.pollers[p].phase, j, all)
    ensures forall y :: y in s.strays - multiset{x} ==> !HasStray(y, j, all)
  {
    assert HasStray(x, j, all);
    forall p | p in s.pollers ensures !Has(s.pollers[p].phase, j, all) {
      assert Has(s.pollers[p].phase, j, all) ==> x.goesOn && Past(s.pollers[p].phase);
    }
    forall y | y in s.strays - multiset{x} ensures !HasStray(y, j, all) {
      assert HasStray(y, j, all) ==> Together(x, y);
    }
  }

  /** A hand on a job at schedule: no sweep under way can select a row held from there on. */
  lemma Window(c: Config, now: int, phase: Phase)
    requires RoomyCutoff(c) && c.Valid() && PhaseOnSchedule(c, now, phase) && phase.HasHeart()
    ensures now - c.cutoff <= From(c, phase) <= now - c.latency
  {
  }

  lemma StrayWindow(c: Config, now: int, x: Stray, j: JobId, all: bool)
    requires RoomyCutoff(c) && c.Valid() && StrayOnSchedule(c, now, x) && HasStray(x, j, all)
    ensures now - c.cutoff <= StrayFrom(c, x) <= now - c.latency
  {
  }

  /** What the claim or its own heartbeat makes of the row of a poller. */
  lemma OwnRowAfter(c: Config, s: State, p: PollerId, m: Move, j: JobId, all: bool)
    requires c.Valid() && RoomyCutoff(c) && OnSchedule(c, s) && RowsHeld(c, s, all) && CanMove(c, s, p, m)
    requires all ==> !GoesUnheard(s.pollers[p].phase, m)
    requires Has(Moved(c, s, p, m).pollers[p].phase, j, all)
    requires !GivesBack(ActionEffect(c, s, Do(p, m)), j)
    ensures Held(Moved(c, s, p, m).table, j, From(c, Moved(c, s, p, m).pollers[p].phase))
  {
    var phase, after := s.pollers[p].phase, Moved(c, s, p, m).pollers[p].phase;
    if m != Claim(j) {
      HasAfter(c, GateOpen(c, s, p), s.now, phase, m, j, all);
      EffectIsTimed(c, s, Do(p, m));
      Window(c, s.now, phase);
      HeldAfter(c, s.table, ActionEffect(c, s, Do(p, m)), s.now, j, From(c, phase));
      assert From(c, after) != From(c, phase) ==> m == BeatDone(true);
    }
  }

  lemma OtherRowAfter(c: Config, s: State, a: Action, q: PollerId, j: JobId, all: bool)
    requires c.Valid() && RoomyCutoff(c) && OnSchedule(c, s) && RowsHeld(c, s, all) && Enabled(c, s, a)
    requires q in s.pollers && Has(s.pollers[q].phase, j, all) && !GivesBack(ActionEffect(c, s, a), j)
    ensures Held(Step(c, s, a).table, j, From(c, s.pollers[q].phase))
  {
    TableAfter(c, s, a);
    EffectIsTimed(c, s, a);
    assert PhaseOnSchedule(c, s.now, s.pollers[q].phase);
    Window(c, s.now, s.pollers[q].phase);
    HeldAfter(c, s.table, ActionEffect(c, s, a), s.now, j, From(c, s.pollers[q].phase));
  }

  lemma StrayRowAfter(c: Config, s: State, a: Action, x: Stray, j: JobId, all: bool)
    requires c.Valid() && RoomyCutoff(c) && OnSchedule(c, s) && RowsHeld(c, s, all) && Enabled(c, s, a)
    requires x in s.strays && HasStray(x, j, all) && !GivesBack(ActionEffect(c, s, a), j)
    ensures Held(Step(c, s, a).table, j, StrayFrom(c, x))
  {
    TableAfter(c, s, a);
    EffectIsTimed(c, s, a);
    StrayWindow(c, s.now, x, j, all);
    HeldAfter(c, s.table, ActionEffect(c, s, a), s.now, j, StrayFrom(c, x));
  }

  /** A report left under way was sent at most one heartbeat cycle after the poller's last stamp. */
  lemma LeftRowAfter(c: Config, s: State, p: PollerId, m: Move, x: Stray, j: JobId, all: bool)
    requires c.Valid() && OnSchedule(c, s) && RowsHeld(c, s, all) && CanMove(c, s, p, m) && HasStray(x, j, all)
    requires var poller := s.pollers[p];
             x in LeftBehind(poller.jobType, poller.phase, m, Moved(c, s, p, m).pollers[p].phase)
    ensures Held(Moved(c, s, p, m).table, j, StrayFrom(c, x))
  {
    var poller := s.pollers[p];
    LeftHas(c, GateOpen(c, s, p), s.now, poller.jobType, poller.phase, m, x, j, all);
    assert PhaseOnSchedule(c, s.now, poller.phase);
    assert Held(s.table, j, From(c, poller.phase)) && StrayFrom(c, x) <= From(c, poller.phase);
    assert Moved(c, s, p, m).table == s.table;
  }

  lemma StepKeepsHeld(c: Config, s: State, a: Action, all: bool)
    requires c.Valid() && RoomyCutoff(c) && OnSchedule(c, s) && Lone(s, all) && RowsHeld(c, s, all) && Enabled(c, s, a)
    requires all ==> !Step(c, s, a).unheardRequeue
    ensures RowsHeld(c, Step(c, s, a), all)
  {
    var n := Step(c, s, a);
    forall q, j | q in n.pollers && Has(n.pollers[q].phase, j, all) ensures Held(n.table, j, From(c, n.pollers[q].phase)) {
      if GivesBack(ActionEffect(c, s, a), j) {
        GivenBackIsFree(c, s, a, all, j);
      } else if a.Do? && a.p == q {
        OwnRowAfter(c, s, q, a.move, j, all);
      } else {
        OtherRowAfter(c, s, a, q, j, all);
      }
    }
    forall x, j | x in n.strays && HasStray(x, j, all) ensures Held(n.table, j, StrayFrom(c, x)) {
      if GivesBack(ActionEffect(c, s, a), j) {
        GivenBackIsFree(c, s, a, all, j);
      } else if x in s.strays {
        StrayRowAfter(c, s, a, x, j, all);
      } else {
        LeftRowAfter(c, s, a.p, a.move, x, j, all);
      }
    }
  }

  predicate IsProcessing(t: Table, j: JobId) { j in t && t[j].status.Processing? }

  /** The rows of claims without a report are processing. */
  ghost predicate Unfinished(s: State) {
    forall p :: p in s.pollers && s.pollers[p].phase.Unreported() ==> IsProcessing(s.table, s.pollers[p].phase.job)
  }

  /** Every claim and every last report under way finds a processing row; a final report is never gone on from as a failure. */
  ghost predicate Open(s: State) {
    && (forall p, j :: p in s.pollers && s.pollers[p].phase.Claims(j) && !s.pollers[p].phase.Ended() ==> IsProcessing(s.table, j))
    && (forall x :: x in s.strays && x.statement.Outcome? && !x.goesOn ==> IsProcessing(s.table, x.statement.job))
    && (forall x :: x in s.strays && x.statement.Outcome? && x.goesOn ==> !x.statement.report.Fail?)
  }

  predicate Reports(e: Effect, j: JobId) { e.Lands? && e.statement.Outcome? && e.statement.job == j }

  lemma ProcessingAfter(c: Config, t: Table, e: Effect, now: int, j: JobId, from: int)
    requires Held(t, j, from) && IsProcessing(t, j) && Timed(c, t, e, now) && now - c.cutoff <= from && !Reports(e, j)
    ensures IsProcessing(Apply(t, e, now), j)
  {
  }

  lemma StaysProcessing(c: Config, s: State, a: Action, q: PollerId, j: JobId)
    requires c.Valid() && RoomyCutoff(c) && OnSchedule(c, s) && RowsHeld(c, s, true) && Enabled(c, s, a)
    requires q in s.pollers && s.pollers[q].phase.Claims(j) && IsProcessing(s.table, j) && !Reports(ActionEffect(c, s, a), j)
    ensures IsProcessing(Step(c, s, a).table, j)
  {
    TableAfter(c, s, a);
    EffectIsTimed(c, s, a);
    assert Has(s.pollers[q].phase, j, true) && PhaseOnSchedule(c, s.now, s.pollers[q].phase);
    Window(c, s.now, s.pollers[q].phase);
    ProcessingAfter(c, s.table, ActionEffect(c, s, a), s.now, j, From(c, s.pollers[q].phase));
  }

  lemma StrayStaysProcessing(c: Config, s: State, a: Action, x: Stray, j: JobId)
    requires c.Valid() && RoomyCutoff(c) && OnSchedule(c, s) && RowsHeld(c, s, true) && Enabled(c, s, a)
    requires x in s.strays && x.Claims(j) && IsProcessing(s.table, j) && !Reports(ActionEffect(c, s, a), j)
    ensures IsProcessing(Step(c, s, a).table, j)
  {
    TableAfter(c, s, a);
    EffectIsTimed(c, s, a);
    assert HasStray(x, j, true) && StrayOnSchedule(c, s.now, x);
    StrayWindow(c, s.now, x, j, true);
    ProcessingAfter(c, s.table, ActionEffect(c, s, a), s.now, j, StrayFrom(c, x));
  }

  /** Who can report on a job besides a poller that claims it. */
  lemma ReporterOf(c: Config, s: State, a: Action, q: PollerId, j: JobId)
    requires Lone(s, true) && Enabled(c, s, a) && q in s.pollers && s.pollers[q].phase.Claims(j)
    requires Reports(ActionEffect(c, s, a), j)
    ensures (a.Do? && a.p == q && a.move.ReportLands?) || (a.StrayLands? && a.stray.goesOn && Past(s.pollers[q].phase))
  {
    assert Has(s.pollers[q].phase, j, true);
    if a.Do? {
      assert a.move.ReportLands? && Has(s.pollers[a.p].phase, j, true);
    } else {
      assert HasStray(a.stray, j, true);
    }
  }

  lemma UnreportedClaims(phase: Phase)
    requires phase.Unreported()
    ensures phase.Claims(phase.job) && !phase.Ended() && !Past(phase)
  {
  }

  lemma UnreportedBefore(c: Config, gateOpen: bool, now: int, phase: Phase, m: Move)
    requires Can(c, now, phase, m) && Next(c, gateOpen, now, phase, m).Unreported()
    ensures var after := Next(c, gateOpen, now, phase, m);
            m == Claim(after.job) || (phase.Unreported() && phase.job == after.job && !m.ReportLands?)
  {
  }

  lemma ClaimIsProcessing(c: Config, s: State, q: PollerId, j: JobId)
    requires CanMove(c, s, q, Claim(j))
    ensures IsProcessing(Moved(c, s, q, Claim(j)).table, j)
  {
  }

  lemma StepKeepsUnfinished(c: Config, s: State, a: Action)
    requires c.Valid() && RoomyCutoff(c) && OnSchedule(c, s) && Lone(s, true) && RowsHeld(c, s, true) && Unfinished(s)
    requires Enabled(c, s, a)
    ensures Unfinished(Step(c, s, a))
  {
    var n := Step(c, s, a);
    forall q | q in n.pollers && n.pollers[q].phase.Unreported() ensures IsProcessing(n.table, n.pollers[q].phase.job) {
      var j := n.pollers[q].phase.job;
      if a.Do? && a.p == q {
        UnreportedBefore(c, GateOpen(c, s, q), s.now, s.pollers[q].phase, a.move);
      }
      if a == Do(q, Claim(j)) {
        ClaimIsProcessing(c, s, q, j);
      } else {
        UnreportedClaims(s.pollers[q].phase);
        if Reports(ActionEffect(c, s, a), j) {
          ReporterOf(c, s, a, q, j);
        } else {
          StaysProcessing(c, s, a, q, j);
        }
      }
    }
  }

  lemma OpenBefore(c: Config, gateOpen: bool, now: int, phase: Phase, m: Move, j: JobId)
    requires Can(c, now, phase, m) && !GoesUnheard(phase, m) && !(m.GiveUp? && phase.wire.Landed? && phase.report.Complete?)
    requires var after := Next(c, gateOpen, now, phase, m); after.Claims(j) && !after.Ended()
    ensures m == Claim(j) || (phase.Claims(j) && !phase.Ended() && !m.ReportLands?)
  {
  }

  lemma StepKeepsOpenClaims(c: Config, s: State, a: Action, q: PollerId, j: JobId)
    requires c.Valid() && RoomyCutoff(c) && OnSchedule(c, s) && Lone(s, true) && RowsHeld(c, s, true) && Open(s)
    requires Enabled(c, s, a) && !Step(c, s, a).unheardRequeue && !Step(c, s, a).unheardFinal
    requires q in s.pollers && Step(c, s, a).pollers[q].phase.Claims(j) && !Step(c, s, a).pollers[q].phase.Ended()
    ensures IsProcessing(Step(c, s, a).table, j)
  {
    if a.Do? && a.p == q {
      OpenBefore(c, GateOpen(c, s, q), s.now, s.pollers[q].phase, a.move, j);
    }
    if a == Do(q, Claim(j)) {
      ClaimIsProcessing(c, s, q, j);
    } else if Reports(ActionEffect(c, s, a), j) {
      ReporterOf(c, s, a, q, j);
      NoGivenUpReport(c, s, a, j);
    } else {
      StaysProcessing(c, s, a, q, j);
    }
  }

  /** While nothing goes unheard, no report that was given up lands. */
  lemma NoGivenUpReport(c: Config, s: State, a: Action, j: JobId)
    requires Open(s) && Enabled(c, s, a) && Reports(ActionEffect(c, s, a), j)
    requires !Step(c, s, a).unheardRequeue && !Step(c, s, a).unheardFinal
    ensures a.StrayLands? ==> !a.stray.goesOn
  {
  }

  lemma StepKeepsOpen(c: Config, s: State, a: Action)
    requires c.Valid() && RoomyCutoff(c) && OnSchedule(c, s) && Lone(s, true) && RowsHeld(c, s, true) && Open(s)
    requires Enabled(c, s, a) && !Step(c, s, a).unheardRequeue && !Step(c, s, a).unheardFinal
    ensures Open(Step(c, s, a))
  {
    var n := Step(c, s, a);
    forall q, j | q in n.pollers && n.pollers[q].phase.Claims(j) && !n.pollers[q].phase.Ended() ensures IsProcessing(n.table, j) {
      StepKeepsOpenClaims(c, s, a, q, j);
    }
    forall x | x in n.strays && x.statement.Outcome?
      ensures if x.goesOn then !x.statement.report.Fail? else IsProcessing(n.table, x.statement.job)
    {
      StepKeepsOpenStray(c, s, a, x, x.statement.job);
    }
  }

  /** Beside a last report under way only one that was given up can reach the table. */
  lemma OnlyStrayReports(c: Config, s: State, a: Action, x: Stray, j: JobId)
    requires Lone(s, true) && Enabled(c, s, a) && Reports(ActionEffect(c, s, a), j)
    requires x in s.strays && x in Step(c, s, a).strays && x.Claims(j) && !x.goesOn
    ensures a.StrayLands? && a.stray.goesOn
  {
    assert HasStray(x, j, true);
    if a.Do? {
      assert a.move.ReportLands? && Has(s.pollers[a.p].phase, j, true);
    } else {
      assert HasStray(a.stray, j, true) && x in s.strays - multiset{a.stray};
      assert Together(a.stray, x);
    }
  }

  lemma StepKeepsOpenStray(c: Config, s: State, a: Action, x: Stray, j: JobId)
    requires c.Valid() && RoomyCutoff(c) && OnSchedule(c, s) && Lone(s, true) && RowsHeld(c, s, true) && Open(s)
    requires Enabled(c, s, a) && !Step(c, s, a).unheardRequeue && !Step(c, s, a).unheardFinal
    requires x in Step(c, s, a).strays && x.Claims(j)
    ensures if x.goesOn then !x.statement.report.Fail? else IsProcessing(Step(c, s, a).table, j)
  {
    if x in s.strays {
      if !x.goesOn {
        assert HasStray(x, j, true);
        if Reports(ActionEffect(c, s, a), j) {
          OnlyStrayReports(c, s, a, x, j);
        } else {
          StrayStaysProcessing(c, s, a, x, j);
        }
      }
    } else {
      var poller := s.pollers[a.p];
      LeftHas(c, GateOpen(c, s, a.p), s.now, poller.jobType, poller.phase, a.move, x, j, true);
      assert !poller.phase.Ended();
    }
  }

  /** What every timely run keeps. */
  ghost predicate Guarded(c: Config, s: State) {
    && OnSchedule(c, s) && Lone(s, false) && RowsHeld(c, s, false)
    && (!s.unheardRequeue ==> Lone(s, true) && RowsHeld(c, s, true) && Unfinished(s))
    && (!s.unheardRequeue && !s.unheardFinal ==> Open(s))
  }

  lemma StepKeepsGuarded(c: Config, s: State, a: Action)
    requires c.Valid() && RoomyCutoff(c) && Guarded(c, s) && Enabled(c, s, a) && Timely(c, s, a)
    ensures Guarded(c, Step(c, s, a))
  {
    StepKeepsSchedule(c, s, a);
    StepKeepsLone(c, s, a, false);
    StepKeepsHeld(c, s, a, false);
    var n := Step(c, s, a);
    if !n.unheardRequeue {
      StepKeepsLone(c, s, a, true);
      StepKeepsHeld(c, s, a, true);
      StepKeepsUnfinished(c, s, a);
      if !n.unheardFinal {
        StepKeepsOpen(c, s, a);
      }
    }
  }

  lemma {:induction false} RunKeepsGuarded(c: Config, s: State, acts: seq<Action>)
    requires c.Valid() && RoomyCutoff(c) && Guarded(c, s) && TimelyRun(c, s, acts).Some?
    ensures Guarded(c, TimelyRun(c, s, acts).value)
    decreases |acts|
  {
    if acts != [] {
      StepKeepsGuarded(c, s, acts[0]);
      RunKeepsGuarded(c, Step(c, s, acts[0]), acts[1..]);
    }
  }

  lemma StartIsGuarded(c: Config, s: State)
    requires Start(s)
    ensures Guarded(c, s)
  {
  }

  /** At most one poller runs the handler of any job. */
  ghost predicate OneRunner(s: State) {
    forall p, q :: p in s.pollers && q in s.pollers && s.pollers[p].phase.Working? && s.pollers[q].phase.Working?
                   && s.pollers[p].phase.job == s.pollers[q].phase.job
                   ==> p == q
  }

  /** Holds when the protocol never lets two pollers run one job while everything keeps its schedule. */
  ghost predicate NeverTwoRunners(c: Config) {
    forall s, acts :: Start(s) && TimelyRun(c, s, acts).Some? ==> OneRunner(TimelyRun(c, s, acts).value)
  }

  /** A sweep in a guarded state passes over the row of every running handler. */
  lemma SweepsMissHeldRows(c: Config, s: State, q: PollerId, p: PollerId)
    requires c.Valid() && RoomyCutoff(c) && RowsHeld(c, s, false) && OnSchedule(c, s)
    requires q in s.pollers && s.pollers[q].phase.Working? && p in s.pollers && s.pollers[p].phase.Sweeping?
    ensures var j := s.pollers[q].phase.job;
            j in s.table && !Stale(s.table[j], s.pollers[p].jobType, s.pollers[p].phase.cutoff)
  {
    var phase := s.pollers[q].phase;
    assert Has(phase, phase.job, false) && PhaseOnSchedule(c, s.now, phase) && PhaseOnSchedule(c, s.now, s.pollers[p].phase);
    Window(c, s.now, phase);
    assert Held(s.table, phase.job, From(c, phase));
  }

  lemma RoomyMeansOneRunner(c: Config, s: State, acts: seq<Action>)
    requires c.Valid() && RoomyCutoff(c) && Start(s) && TimelyRun(c, s, acts).Some?
    ensures OneRunner(TimelyRun(c, s, acts).value)
  {
    StartIsGuarded(c, s);
    RunKeepsGuarded(c, s, acts);
    var n := TimelyRun(c, s, acts).value;
    forall p, q | p in n.pollers && q in n.pollers && n.pollers[p].phase.Working? && n.pollers[q].phase.Working?
                  && n.pollers[p].phase.job == n.pollers[q].phase.job
      ensures p == q
    {
      assert Has(n.pollers[p].phase, n.pollers[p].phase.job, false) && Has(n.pollers[q].phase, n.pollers[p].phase.job, false);
    }
  }

  /**
   Theorem: with a roomy cutoff, while a handler runs its row is never pending, no sweep under way can
   select it, no lookup requeue of the job is under way, no other poller runs it, and it stays processing
   unless some lookup requeue took effect although its sender took it for failed.
   */
  lemma RunningJobsAreProtected(c: Config, s: State, acts: seq<Action>, p: PollerId)
    requires c.Valid() && RoomyCutoff(c) && Start(s) && TimelyRun(c, s, acts).Some?
    requires p in TimelyRun(c, s, acts).value.pollers && TimelyRun(c, s, acts).value.pollers[p].phase.Working?
    ensures var n := TimelyRun(c, s, acts).value; var j := n.pollers[p].phase.job;
            && j in n.table && !n.table[j].status.Pending?
            && (!n.unheardRequeue ==> n.table[j].status.Processing?)
            && (forall q :: q in n.pollers && n.pollers[q].phase.Sweeping? ==>
                  !Stale(n.table[j], n.pollers[q].jobType, n.pollers[q].phase.cutoff))
            && (forall q :: q in n.pollers && n.pollers[q].phase.Holds(j) ==> q == p)
            && (forall x :: x in n.strays ==> !x.Holds(j))
  {
    StartIsGuarded(c, s);
    RunKeepsGuarded(c, s, acts);
    var n := TimelyRun(c, s, acts).value;
    var phase := n.pollers[p].phase;
    assert Has(phase, phase.job, false) && phase.Unreported();
    assert Held(n.table, phase.job, From(c, phase));
    forall q | q in n.pollers && n.pollers[q].phase.Sweeping?
      ensures !Stale(n.table[phase.job], n.pollers[q].jobType, n.pollers[q].phase.cutoff)
    {
      SweepsMissHeldRows(c, n, p, q);
    }
    forall q | q in n.pollers && n.pollers[q].phase.Holds(phase.job) ensures q == p {
      assert Has(n.pollers[q].phase, phase.job, false);
    }
    forall x | x in n.strays ensures !x.Holds(phase.job) {
      assert HasStray(x, phase.job, false) ==> Past(phase);
    }
  }

  // ---------------------------------------------------------------- one outcome per job

  lemma ReportsFrom(c: Config, now: int, jobType: string, phase: Phase, m: Move, j: JobId)
    requires Can(c, now, phase, m)
    ensures Reports(EffectOf(c, now, jobType, phase, m), j) ==> m.ReportLands? && phase.Claims(j) && !phase.Ended()
  {
  }

  lemma NoPollerReports(c: Config, s: State, p: PollerId, m: Move, j: JobId)
    requires Open(s) && IsFinal(s.table, j) && CanMove(c, s, p, m)
    ensures !Reports(ActionEffect(c, s, Do(p, m)), j)
  {
    var poller := s.pollers[p];
    assert poller.phase.Claims(j) && !poller.phase.Ended() ==> IsProcessing(s.table, j);
    ReportsFrom(c, s.now, poller.jobType, poller.phase, m, j);
    assert ActionEffect(c, s, Do(p, m)) == EffectOf(c, s.now, poller.jobType, poller.phase, m);
  }

  lemma NoStrayReports(c: Config, s: State, x: Stray, j: JobId)
    requires Open(s) && IsFinal(s.table, j) && Enabled(c, s, StrayLands(x))
    requires !Step(c, s, StrayLands(x)).unheardRequeue && !Step(c, s, StrayLands(x)).unheardFinal
    ensures !Reports(Lands(x.statement, x.sentAt), j)
  {
    var n := Step(c, s, StrayLands(x));
    assert n.unheardRequeue || n.unheardFinal || !(x.statement.Outcome? && x.goesOn);
  }

  /** Nothing under way reports on a final row. */
  lemma NoReport(c: Config, s: State, a: Action, j: JobId)
    requires Open(s) && IsFinal(s.table, j) && Enabled(c, s, a)
    requires !Step(c, s, a).unheardRequeue && !Step(c, s, a).unheardFinal
    ensures !Reports(ActionEffect(c, s, a), j)
  {
    match a
    case Do(p, m) => NoPollerReports(c, s, p, m, j);
    case StrayLands(x) => NoStrayReports(c, s, x, j);
    case _ =>
  }

  lemma FinalRowAfter(t: Table, e: Effect, now: int, j: JobId, row: Row)
    requires RowIs(t, j, row) && row.status.Final() && !Reports(e, j) && (e.Takes? ==> e.job in t && t[e.job].status.Pending?)
    ensures RowIs(Apply(t, e, now), j, row)
  {
  }

  lemma StepKeepsFinalRow(c: Config, s: State, a: Action, j: JobId, row: Row)
    requires Open(s) && RowIs(s.table, j, row) && row.status.Final() && Enabled(c, s, a)
    requires !Step(c, s, a).unheardRequeue && !Step(c, s, a).unheardFinal
    ensures RowIs(Step(c, s, a).table, j, row)
  {
    NoReport(c, s, a, j);
    TableAfter(c, s, a);
    if ActionEffect(c, s, a).Takes? {
      TakesPending(c, s, a);
    }
    FinalRowAfter(s.table, ActionEffect(c, s, a), s.now, j, row);
  }

  /**
   Theorem: with a roomy cutoff, everything on schedule and every report heard or lost, the first final
   status of a job is its only one: nothing ever overwrites a final row.
   */
  lemma {:induction false} FirstOutcomeStands(c: Config, s: State, acts: seq<Action>, j: JobId, row: Row)
    requires c.Valid() && RoomyCutoff(c) && Guarded(c, s) && RowIs(s.table, j, row) && row.status.Final()
    requires TimelyRun(c, s, acts).Some?
    requires !TimelyRun(c, s, acts).value.unheardRequeue && !TimelyRun(c, s, acts).value.unheardFinal
    ensures !s.unheardRequeue && !s.unheardFinal && RowIs(TimelyRun(c, s, acts).value.table, j, row)
    decreases |acts|
  {
    if acts != [] {
      var n := Step(c, s, acts[0]);
      StepKeepsGuarded(c, s, acts[0]);
      FlagsStay(c, n, acts[1..]);
      StepKeepsFinalRow(c, s, acts[0], j, row);
      FirstOutcomeStands(c, n, acts[1..], j, row);
    }
  }

  lemma {:induction false} FlagsStay(c: Config, s: State, acts: seq<Action>)
    requires TimelyRun(c, s, acts).Some?
    ensures s.unheardRequeue ==> TimelyRun(c, s, acts).value.unheardRequeue
    ensures s.unheardFinal ==> TimelyRun(c, s, acts).value.unheardFinal
    decreases |acts|
  {
    if acts != [] {
      FlagsStay(c, Step(c, s, acts[0]), acts[1..]);
    }
  }

  // ---------------------------------------------------------------- the failing runs

  /** Some on-schedule run leads from `s` to `n`. */
  ghost predicate Leads(c: Config, s: State, n: State) {
    exists acts :: TimelyRun(c, s, acts) == Some(n)
  }

  lemma {:induction false} TimelyRunConcat(c: Config, s: State, first: seq<Action>, second: seq<Action>)
    requires TimelyRun(c, s, first).Some?
    ensures TimelyRun(c, s, first + second) == TimelyRun(c, TimelyRun(c, s, first).value, second)
    decreases |first|
  {
    if first == [] {
      assert first + second == second;
    } else {
      assert (first + second)[1..] == first[1..] + second;
      TimelyRunConcat(c, Step(c, s, first[0]), first[1..], second);
    }
  }

  lemma LeadsOn(c: Config, s: State, m: State, n: State)
    requires Leads(c, s, m) && Leads(c, m, n)
    ensures Leads(c, s, n)
  {
    var first :| TimelyRun(c, s, first) == Some(m);
    var second :| TimelyRun(c, m, second) == Some(n);
    TimelyRunConcat(c, s, first, second);
    assert TimelyRun(c, s, first + second) == Some(n);
  }

  lemma ActionLeads(c: Config, s: State, a: Action)
    requires Enabled(c, s, a) && Timely(c, s, a)
    ensures Leads(c, s, Step(c, s, a))
  {
    assert [a][1..] == [] && TimelyRun(c, Step(c, s, a), []) == Some(Step(c, s, a));
    assert TimelyRun(c, s, [a]) == Some(Step(c, s, a));
  }

  lemma TickLeads(c: Config, s: State, to: int)
    requires to >= s.now && (to > s.now ==> Timely(c, s, Tick(to)))
    ensures Leads(c, s, s.(now := to))
  {
    if to > s.now {
      ActionLeads(c, s, Tick(to));
    } else {
      assert TimelyRun(c, s, []) == Some(s);
    }
  }

  function WithPhase(s: State, p: PollerId, phase: Phase): State
    requires p in s.pollers
  {
    s.(pollers := s.pollers[p := s.pollers[p].(phase := phase)])
  }

  /** As `s`, with another phase of poller `p`, another table and other strays. */
  function At(s: State, p: PollerId, phase: Phase, table: Table, strays: multiset<Stray>): State
    requires p in s.pollers
  {
    WithPhase(s, p, phase).(table := table, strays := strays)
  }

  lemma MoveLeads(c: Config, s: State, p: PollerId, m: Move, table: Table, strays: multiset<Stray>)
    requires CanMove(c, s, p, m) && !m.GiveUp? && !m.BeginSweep?
    requires var poller, after := s.pollers[p], NextPhase(c, s, p, m);
             && Apply(s.table, EffectOf(c, s.now, poller.jobType, poller.phase, m), s.now) == table
             && s.strays + LeftBehind(poller.jobType, poller.phase, m, after) == strays
    ensures Leads(c, s, At(s, p, NextPhase(c, s, p, m), table, strays))
  {
    ActionLeads(c, s, Do(p, m));
  }

  lemma BeginSweepLeads(c: Config, s: State, p: PollerId)
    requires p in s.pollers && s.pollers[p].phase.Idle? && GateOpen(c, s, p)
    ensures Leads(c, s, WithPhase(s, p, Sweeping(s.now - c.cutoff))
                        .(lastSweep := s.lastSweep[(s.pollers[p].worker, s.pollers[p].jobType) := s.now]))
  {
    hide Leads;
    assert Step(c, s, Do(p, BeginSweep)) ==
           WithPhase(s, p, Sweeping(s.now - c.cutoff))
           .(lastSweep := s.lastSweep[(s.pollers[p].worker, s.pollers[p].jobType) := s.now]) by {
      assert s.strays + multiset{} == s.strays;
    }
    ActionLeads(c, s, Do(p, BeginSweep));
  }

  lemma SendLeads(c: Config, s: State, p: PollerId, report: Report)
    requires p in s.pollers && Can(c, s.now, s.pollers[p].phase, Send(report))
    ensures var phase := s.pollers[p].phase;
            Leads(c, s, WithPhase(s, p, Awaiting(phase.job, phase.heart, report, s.now, InFlight)))
  {
    var phase := s.pollers[p].phase;
    var after := Awaiting(phase.job, phase.heart, report, s.now, InFlight);
    assert LeftBehind(s.pollers[p].jobType, phase, Send(report), after) == multiset{};
    assert s.strays + multiset{} == s.strays;
    MoveLeads(c, s, p, Send(report), s.table, s.strays);
  }

  lemma ReportLandsLeads(c: Config, s: State, p: PollerId)
    requires p in s.pollers && s.pollers[p].phase.Awaiting? && s.pollers[p].phase.wire.InFlight?
    ensures var phase := s.pollers[p].phase;
            Leads(c, s, At(s, p, phase.(wire := Landed), Reported(s.table, phase.job, phase.report), s.strays))
  {
    var phase := s.pollers[p].phase;
    assert LeftBehind(s.pollers[p].jobType, phase, ReportLands, phase.(wire := Landed)) == multiset{};
    assert s.strays + multiset{} == s.strays;
    MoveLeads(c, s, p, ReportLands, Reported(s.table, phase.job, phase.report), s.strays);
  }

  /** Poller `p` sends the report, and it lands. */
  lemma SendAndLand(c: Config, s: State, p: PollerId, report: Report)
    requires p in s.pollers && Can(c, s.now, s.pollers[p].phase, Send(report))
    ensures var phase := s.pollers[p].phase;
            Leads(c, s, At(s, p, Awaiting(phase.job, phase.heart, report, s.now, Landed),
                           Reported(s.table, phase.job, report), s.strays))
  {
    hide Leads;
    var phase := s.pollers[p].phase;
    var s1 := WithPhase(s, p, Awaiting(phase.job, phase.heart, report, s.now, InFlight));
    var s2 := At(s, p, Awaiting(phase.job, phase.heart, report, s.now, Landed), Reported(s.table, phase.job, report), s.strays);
    SendLeads(c, s, p, report);
    ReportLandsLeads(c, s1, p);
    assert At(s1, p, s2.pollers[p].phase, s2.table, s2.strays).pollers == s2.pollers;
    LeadsOn(c, s, s1, s2);
  }

  function AfterSweepAndClaim(c: Config, s: State, p: PollerId, j: JobId): State
    requires p in s.pollers && j in s.table
  {
    var poller := s.pollers[p];
    WithPhase(s, p, Working(j, Heart(s.now, s.now, None)))
      .(table := Claimed(Swept(s.table, poller.jobType, s.now - c.cutoff), j, s.now),
        lastSweep := s.lastSweep[(poller.worker, poller.jobType) := s.now])
  }

  lemma LandSweepLeads(c: Config, s: State, p: PollerId)
    requires p in s.pollers && s.pollers[p].phase.Sweeping?
    ensures Leads(c, s, At(s, p, Fetching, Swept(s.table, s.pollers[p].jobType, s.pollers[p].phase.cutoff), s.strays))
  {
    assert s.strays + multiset{} == s.strays;
    MoveLeads(c, s, p, LandSweep, Swept(s.table, s.pollers[p].jobType, s.pollers[p].phase.cutoff), s.strays);
  }

  lemma ClaimMoveLeads(c: Config, s: State, p: PollerId, j: JobId)
    requires p in s.pollers && s.pollers[p].phase.Fetching? && Claimable(s.table, j, s.pollers[p].jobType)
    ensures Leads(c, s, At(s, p, Working(j, Heart(s.now, s.now, None)), Claimed(s.table, j, s.now), s.strays))
  {
    assert s.strays + multiset{} == s.strays;
    MoveLeads(c, s, p, Claim(j), Claimed(s.table, j, s.now), s.strays);
  }

  /** An idle poller whose gate is open sweeps, then claims `j`. */
  lemma SweepAndClaimLeads(c: Config, s: State, p: PollerId, j: JobId)
    requires p in s.pollers && s.pollers[p].phase.Idle? && GateOpen(c, s, p) && j in s.table
    requires Claimable(Swept(s.table, s.pollers[p].jobType, s.now - c.cutoff), j, s.pollers[p].jobType)
    ensures Leads(c, s, AfterSweepAndClaim(c, s, p, j))
  {
    hide Leads;
    var poller := s.pollers[p];
    var s1 := WithPhase(s, p, Sweeping(s.now - c.cutoff)).(lastSweep := s.lastSweep[(poller.worker, poller.jobType) := s.now]);
    var s2 := At(s1, p, Fetching, Swept(s.table, poller.jobType, s.now - c.cutoff), s.strays);
    var s3 := At(s2, p, Working(j, Heart(s.now, s.now, None)), Claimed(s2.table, j, s.now), s.strays);
    BeginSweepLeads(c, s, p);
    LandSweepLeads(c, s1, p);
    ClaimMoveLeads(c, s2, p, j);
    LeadsOn(c, s, s1, s2);
    LeadsOn(c, s, s2, s3);
    assert s3.pollers == AfterSweepAndClaim(c, s, p, j).pollers;
  }

  /** Nothing but the heartbeats of poller `p` has a schedule to keep. */
  ghost predicate OnlyHeart(s: State, p: PollerId) {
    s.strays == multiset{} && forall q :: q in s.pollers && q != p ==> !s.pollers[q].phase.HasHeart()
  }

  lemma WakeLeads(c: Config, s: State, p: PollerId, j: JobId, heart: Heart)
    requires p in s.pollers && s.pollers[p].phase == Working(j, heart)
    requires heart.inFlight.None? && s.now >= heart.since + c.interval
    ensures Leads(c, s, WithPhase(s, p, Working(j, heart.(inFlight := Some(s.now)))))
  {
    assert s.strays + multiset{} == s.strays;
    MoveLeads(c, s, p, Wake, s.table, s.strays);
  }

  /** The first heartbeat of poller `p` sets out, and time passes while it is under way. */
  lemma FirstBeatLeads(c: Config, s: State, p: PollerId, j: JobId)
    requires c.Valid() && p in s.pollers && OnlyHeart(s, p)
    requires s.pollers[p].phase == Working(j, Heart(s.now, s.now, None))
    ensures Leads(c, s, WithPhase(s, p, Working(j, Heart(s.now, s.now, Some(s.now + c.interval))))
                        .(now := s.now + c.interval + c.latency))
  {
    hide Leads;
    var s1 := s.(now := s.now + c.interval);
    var s2 := WithPhase(s1, p, Working(j, Heart(s.now, s.now, Some(s1.now))));
    TickLeads(c, s, s1.now);
    WakeLeads(c, s1, p, j, Heart(s.now, s.now, None));
    TickLeads(c, s2, s1.now + c.latency);
    LeadsOn(c, s, s1, s2);
    LeadsOn(c, s, s2, s2.(now := s1.now + c.latency));
  }

  lemma HeardLeads(c: Config, s: State, p: PollerId, j: JobId, heart: Heart, sentAt: int, stamp: int)
    requires p in s.pollers && s.pollers[p].phase == Awaiting(j, heart, GiveBack, sentAt, Landed)
    requires heart.inFlight == Some(stamp) && s.strays == multiset{}
    ensures Leads(c, s, At(s, p, Stopped, s.table, multiset{Stray(Beat(j), stamp, false)}))
  {
    assert LeftBehind(s.pollers[p].jobType, s.pollers[p].phase, Heard, Stopped) == multiset{Stray(Beat(j), stamp, false)};
    MoveLeads(c, s, p, Heard, s.table, multiset{Stray(Beat(j), stamp, false)});
  }

  /** A lookup requeue that is heard ends the poller and leaves its heartbeat under way. */
  lemma GiveBackLeads(c: Config, s: State, p: PollerId, j: JobId, heart: Heart, stamp: int)
    requires p in s.pollers && j in s.table && s.table[j].status.Processing?
    requires s.pollers[p].phase == Working(j, heart) && heart.inFlight == Some(stamp) && s.strays == multiset{}
    ensures Leads(c, s, At(s, p, Stopped, s.table[j := s.table[j].(status := Pending)], multiset{Stray(Beat(j), stamp, false)}))
  {
    hide Leads;
    var table := s.table[j := s.table[j].(status := Pending)];
    var s1 := WithPhase(s, p, Awaiting(j, heart, GiveBack, s.now, InFlight));
    var s2 := At(s1, p, Awaiting(j, heart, GiveBack, s.now, Landed), table, multiset{});
    var s3 := At(s2, p, Stopped, table, multiset{Stray(Beat(j), stamp, false)});
    SendLeads(c, s, p, GiveBack);
    ReportLandsLeads(c, s1, p);
    HeardLeads(c, s2, p, j, heart, s.now, stamp);
    LeadsOn(c, s, s1, s2);
    LeadsOn(c, s, s2, s3);
    assert s3.pollers == WithPhase(s, p, Stopped).pollers;
  }

  lemma StrayLandsLeads(c: Config, s: State, x: Stray)
    requires s.strays == multiset{x} && !x.statement.Fetch? && !x.goesOn
    ensures Leads(c, s, s.(table := Apply(s.table, Lands(x.statement, x.sentAt), s.now), strays := multiset{}))
  {
    assert s.strays - multiset{x} == multiset{};
    ActionLeads(c, s, StrayLands(x));
  }

  /** The stray heartbeat lands on the next claim, and a full heartbeat cycle passes. */
  lemma StrayBeatThenCycle(c: Config, s: State, p: PollerId, j: JobId, stamp: int)
    requires c.Valid() && p in s.pollers && j in s.table && s.table[j].status.Processing?
    requires s.pollers[p].phase == Working(j, Heart(s.now, s.now, None))
    requires s.strays == multiset{Stray(Beat(j), stamp, false)} && OnlyHeart(s.(strays := multiset{}), p)
    ensures Leads(c, s, s.(now := s.now + c.Cycle(), strays := multiset{},
                           table := s.table[j := s.table[j].(updatedAt := stamp)]))
  {
    hide Leads;
    StrayLandsLeads(c, s, Stray(Beat(j), stamp, false));
    var s1 := s.(table := s.table[j := s.table[j].(updatedAt := stamp)], strays := multiset{});
    var s2 := s1.(now := s.now + c.Cycle());
    TickLeads(c, s1, s2.now);
    LeadsOn(c, s, s1, s2);
  }

  lemma KillLeads(c: Config, s: State, p: PollerId, j: JobId, heart: Heart)
    requires p in s.pollers && s.pollers[p].phase == Awaiting(j, heart, GiveBack, s.now, InFlight)
    requires heart.inFlight.None? && s.strays == multiset{}
    ensures Leads(c, s, At(s, p, Stopped, s.table, multiset{Stray(Outcome(j, GiveBack), s.now, false)}))
  {
    var x := Stray(Outcome(j, GiveBack), s.now, false);
    assert LeftBehind(s.pollers[p].jobType, s.pollers[p].phase, Kill, Stopped) == multiset{x};
    MoveLeads(c, s, p, Kill, s.table, multiset{x});
  }

  /** The poller is cancelled while its lookup requeue is under way, which then takes its time. */
  lemma KilledWhileGivingBack(c: Config, s: State, p: PollerId, j: JobId, heart: Heart)
    requires c.Valid() && p in s.pollers && s.pollers[p].phase == Working(j, heart)
    requires heart.inFlight.None? && OnlyHeart(s, p)
    ensures Leads(c, s, At(s, p, Stopped, s.table, multiset{Stray(Outcome(j, GiveBack), s.now, false)}).(now := s.now + c.latency))
  {
    hide Leads;
    var s1 := WithPhase(s, p, Awaiting(j, heart, GiveBack, s.now, InFlight));
    var s2 := At(s, p, Stopped, s.table, multiset{Stray(Outcome(j, GiveBack), s.now, false)});
    SendLeads(c, s, p, GiveBack);
    KillLeads(c, s1, p, j, heart);
    assert At(s1, p, Stopped, s.table, s2.strays).pollers == s2.pollers;
    LeadsOn(c, s, s1, s2);
    TickLeads(c, s2, s.now + c.latency);
    LeadsOn(c, s, s2, s2.(now := s.now + c.latency));
  }

  /** Four workers with one idle poller each, and one pending job. */
  function Fresh(now: int): State {
    State(now, map["job" := Row("ingest", Pending, 0)],
          map[1 := Poller(1, "ingest", Idle), 2 := Poller(2, "ingest", Idle), 3 := Poller(3, "ingest", Idle),
              4 := Poller(4, "ingest", Idle)],
          map[], multiset{}, false, false)
  }

  /** Pollers p, ..., 4 are idle and have never swept. */
  ghost predicate Waiting(s: State, p: PollerId) {
    && s.pollers.Keys == {1, 2, 3, 4}
    && forall q :: p <= q <= 4 ==> q in s.pollers && s.pollers[q] == Poller(q, "ingest", Idle) && (q, "ingest") !in s.lastSweep
  }

  ghost predicate JobIs(s: State, status: Status, updatedAt: int) { RowIs(s.table, "job", Row("ingest", status, updatedAt)) }

  lemma FreshIsWaiting(now: int)
    ensures var s := Fresh(now);
            && Waiting(s, 1) && JobIs(s, Pending, 0) && s.now == now && s.strays == multiset{}
            && !s.unheardRequeue && !s.unheardFinal && forall p :: p in s.pollers ==> s.pollers[p].phase.Idle?
  {
  }

  lemma ClaimLeads(c: Config, s: State, p: PollerId, updatedAt: int) returns (n: State)
    requires c.Valid() && s.now >= c.sweepEvery && 1 <= p <= 4 && Waiting(s, p)
    requires JobIs(s, Pending, updatedAt) || (JobIs(s, Processing, updatedAt) && updatedAt < s.now - c.cutoff)
    ensures Leads(c, s, n) && n.now == s.now && n.strays == s.strays && Waiting(n, p + 1) && JobIs(n, Processing, s.now)
    ensures n.unheardRequeue == s.unheardRequeue && n.unheardFinal == s.unheardFinal
    ensures n.pollers == s.pollers[p := Poller(p, "ingest", Working("job", Heart(s.now, s.now, None)))]
  {
    SweepAndClaimLeads(c, s, p, "job");
    n := AfterSweepAndClaim(c, s, p, "job");
  }

  /** Poller 1 claims the job, and its first heartbeat is under way for as long as it may be. */
  lemma ClaimAndBeat(c: Config) returns (n: State)
    requires c.Valid()
    ensures Leads(c, Fresh(c.sweepEvery), n) && n.now == c.sweepEvery + c.interval + c.latency && n.strays == multiset{}
    ensures Waiting(n, 2) && JobIs(n, Processing, c.sweepEvery)
    ensures n.pollers[1].phase == Working("job", Heart(c.sweepEvery, c.sweepEvery, Some(n.now - c.latency)))
  {
    hide Leads, Claimed, Swept;
    var s0 := Fresh(c.sweepEvery);
    FreshIsWaiting(c.sweepEvery);
    hide Fresh;
    var s1 := ClaimLeads(c, s0, 1, 0);
    FirstBeatLeads(c, s1, 1, "job");
    n := WithPhase(s1, 1, Working("job", Heart(s0.now, s0.now, Some(s0.now + c.interval)))).(now := s0.now + c.interval + c.latency);
    LeadsOn(c, s0, s1, n);
  }

  /** It gives the job back and leaves that heartbeat under way; poller 2 claims the job. */
  lemma HandOver(c: Config) returns (n: State)
    requires c.Valid()
    ensures Leads(c, Fresh(c.sweepEvery), n) && n.now == c.sweepEvery + c.interval + c.latency
    ensures Waiting(n, 3) && JobIs(n, Processing, n.now)
    ensures n.pollers[1].phase.Stopped? && n.pollers[2].phase == Working("job", Heart(n.now, n.now, None))
    ensures n.strays == multiset{Stray(Beat("job"), n.now - c.latency, false)}
  {
    hide Leads;
    var j, s0 := "job", Fresh(c.sweepEvery);
    var s1 := ClaimAndBeat(c);
    var stamp := s1.now - c.latency;
    GiveBackLeads(c, s1, 1, j, s1.pollers[1].phase.heart, stamp);
    var s2 := At(s1, 1, Stopped, s1.table[j := s1.table[j].(status := Pending)], multiset{Stray(Beat(j), stamp, false)});
    LeadsOn(c, s0, s1, s2);
    n := ClaimLeads(c, s2, 2, s0.now);
    LeadsOn(c, s0, s2, n);
  }

  /** The stray heartbeat puts the row back; a cycle later poller 2 is cancelled while giving it back. */
  lemma CutShort(c: Config) returns (n: State)
    requires c.Valid()
    ensures Leads(c, Fresh(c.sweepEvery), n) && n.now >= c.sweepEvery
    ensures Waiting(n, 3) && JobIs(n, Processing, n.now - c.latency - c.Cycle() - c.latency)
    ensures n.pollers[1].phase.Stopped? && n.pollers[2].phase.Stopped?
    ensures n.strays == multiset{Stray(Outcome("job", GiveBack), n.now - c.latency, false)}
  {
    hide Leads;
    var j, s0 := "job", Fresh(c.sweepEvery);
    var s1 := HandOver(c);
    var stamp := s1.now - c.latency;
    StrayBeatThenCycle(c, s1, 2, j, stamp);
    var s2 := s1.(now := s1.now + c.Cycle(), strays := multiset{}, table := s1.table[j := s1.table[j].(updatedAt := stamp)]);
    LeadsOn(c, s0, s1, s2);
    KilledWhileGivingBack(c, s2, 2, j, s2.pollers[2].phase.heart);
    n := At(s2, 2, Stopped, s2.table, multiset{Stray(Outcome(j, GiveBack), s2.now, false)}).(now := s2.now + c.latency);
    LeadsOn(c, s0, s2, n);
  }

  /** Theorem (tightness): if the cutoff is any tighter, some on-schedule run has two runners. */
  lemma TightCutoffFails(c: Config)
    requires c.Valid() && !RoomyCutoff(c)
    ensures !NeverTwoRunners(c)
  {
    hide Leads;
    var j, s0 := "job", Fresh(c.sweepEvery);
    var s1 := CutShort(c);
    var x := Stray(Outcome(j, GiveBack), s1.now - c.latency, false);
    var s2 := ClaimLeads(c, s1, 3, s1.now - c.latency - c.Cycle() - c.latency);
    LeadsOn(c, s0, s1, s2);
    StrayLandsLeads(c, s2, x);
    var s3 := s2.(table := Apply(s2.table, Lands(x.statement, x.sentAt), s2.now), strays := multiset{});
    LeadsOn(c, s0, s2, s3);
    var s4 := ClaimLeads(c, s3, 4, s2.now);
    LeadsOn(c, s0, s3, s4);
    assert s4.pollers[3].phase.Working? && s4.pollers[4].phase.Working? && s4.pollers[3].phase.job == s4.pollers[4].phase.job;
    assert Start(s0) && !OneRunner(s4);
  }

  /**
   Theorem: while heartbeats and reports keep their schedule, no job ever has a second runner if and only if
   the stale cutoff covers one heartbeat interval, its delay, and twice the time a statement may take: that of
   a heartbeat left behind by the last runner, and that of a lookup requeue left behind by this one.
   */
  lemma OneRunnerExactlyWhenRoomy(c: Config)
    requires c.Valid()
    ensures NeverTwoRunners(c) <==> c.interval + c.delay + 2 * c.latency <= c.cutoff
  {
    if RoomyCutoff(c) {
      forall s, acts | Start(s) && TimelyRun(c, s, acts).Some? ensures OneRunner(TimelyRun(c, s, acts).value) {
        RoomyMeansOneRunner(c, s, acts);
      }
    } else {
      TightCutoffFails(c);
    }
  }

  // ---------------------------------------------------------------- outcomes that were taken for failures

  function GivenUp(s: State, p: PollerId): State
    requires p in s.pollers && s.pollers[p].phase.Awaiting?
  {
    var phase := s.pollers[p].phase;
    WithPhase(s, p, Raised(phase.job, phase.heart))
      .(unheardRequeue := s.unheardRequeue || phase.report.GiveBack?, unheardFinal := s.unheardFinal || phase.report.Complete?)
  }

  /** A report that took effect is taken for failed. */
  lemma GiveUpLeads(c: Config, s: State, p: PollerId)
    requires p in s.pollers && s.pollers[p].phase.Awaiting? && s.pollers[p].phase.wire.Landed? && !s.pollers[p].phase.report.Fail?
    ensures Leads(c, s, GivenUp(s, p))
  {
    hide Leads;
    var poller := s.pollers[p];
    assert LeftBehind(poller.jobType, poller.phase, GiveUp, Raised(poller.phase.job, poller.phase.heart)) == multiset{};
    assert s.strays + multiset{} == s.strays;
    assert Moved(c, s, p, GiveUp) == GivenUp(s, p);
    ActionLeads(c, s, Do(p, GiveUp));
  }

  /** A poller runs the job although its row has failed. */
  ghost predicate RunsFailedJob(s: State, p: PollerId) {
    p in s.pollers && s.pollers[p].phase.Working? && RowFailed(s.table, s.pollers[p].phase.job)
  }

  predicate RowFailed(t: Table, j: JobId) { j in t && t[j].status.Failed? }

  /** Poller 1 claims the job, and its report takes effect. */
  lemma ClaimAndReport(c: Config, report: Report) returns (n: State)
    requires c.Valid() && !report.Fail?
    ensures Leads(c, Fresh(c.sweepEvery), n) && n.now == c.sweepEvery && !n.unheardRequeue && !n.unheardFinal
    ensures Waiting(n, 2) && JobIs(n, if report.GiveBack? then Pending else Completed, c.sweepEvery)
    ensures n.pollers[1].phase == Awaiting("job", Heart(c.sweepEvery, c.sweepEvery, None), report, c.sweepEvery, Landed)
  {
    hide Leads;
    var s := Fresh(c.sweepEvery);
    FreshIsWaiting(c.sweepEvery);
    hide Fresh;
    var s1 := ClaimLeads(c, s, 1, 0);
    SendAndLand(c, s1, 1, report);
    n := At(s1, 1, Awaiting("job", Heart(s.now, s.now, None), report, s.now, Landed), Reported(s1.table, "job", report), s1.strays);
    LeadsOn(c, s, s1, n);
  }

  /** Poller 1 takes a report for failed that took effect. */
  lemma ReportGoesUnheard(c: Config, report: Report) returns (n: State)
    requires c.Valid() && !report.Fail?
    ensures Leads(c, Fresh(c.sweepEvery), n) && n.now == c.sweepEvery
    ensures n.unheardRequeue == report.GiveBack? && n.unheardFinal == report.Complete?
    ensures Waiting(n, 2) && JobIs(n, if report.GiveBack? then Pending else Completed, c.sweepEvery)
    ensures n.pollers[1].phase == Raised("job", Heart(c.sweepEvery, c.sweepEvery, None))
  {
    hide Leads;
    var s1 := ClaimAndReport(c, report);
    GiveUpLeads(c, s1, 1);
    n := GivenUp(s1, 1);
    LeadsOn(c, Fresh(c.sweepEvery), s1, n);
  }

  /**
   Theorem: the exception in RunningJobsAreProtected is real, whatever the cutoff: after a lookup requeue
   that was taken for failed the next runner's row is marked failed under it.
   */
  lemma UnheardRequeueFailsARunningJob(c: Config) returns (s: State, n: State, p: PollerId)
    requires c.Valid()
    ensures Start(s) && Leads(c, s, n) && n.unheardRequeue && !n.unheardFinal && RunsFailedJob(n, p)
  {
    hide Leads;
    s := Fresh(c.sweepEvery);
    var s1 := ReportGoesUnheard(c, GiveBack);
    var s2 := ClaimLeads(c, s1, 2, c.sweepEvery);
    LeadsOn(c, s, s1, s2);
    SendAndLand(c, s2, 1, Fail);
    n := At(s2, 1, Awaiting("job", Heart(s.now, s.now, None), Fail, s.now, Landed), MarkFinal(s2.table, "job", Failed), s2.strays);
    LeadsOn(c, s, s2, n);
    p := 2;
  }

  /** Theorem: so is that in FirstOutcomeStands: a completed row is overwritten by the failure to hear of it. */
  lemma UnheardFinalIsOverwritten(c: Config) returns (s: State, m: State, n: State, j: JobId)
    requires c.Valid()
    ensures Start(s) && Leads(c, s, m) && Leads(c, m, n) && !n.unheardRequeue && n.unheardFinal
    ensures j in m.table && m.table[j].status.Completed? && RowFailed(n.table, j)
  {
    hide Leads;
    s, j := Fresh(c.sweepEvery), "job";
    m := ReportGoesUnheard(c, Complete);
    SendAndLand(c, m, 1, Fail);
    n := At(m, 1, Awaiting(j, Heart(s.now, s.now, None), Fail, s.now, Landed), MarkFinal(m.table, j, Failed), m.strays);
  }
}
