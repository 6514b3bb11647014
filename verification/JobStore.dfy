/**
 The job store of one worker process (job_store.py) and one pass of a poller (base_worker.py), with every
 database call answered, or failed with or without its statement on the table.  What the methods do is
 proved to be a run of the protocol in JobQueue.
 */
module JobStore {
  import opened Basics
  import opened JobQueue

  /** What comes of a database call: an answer, or an exception, after its statement took effect or not. */
  datatype Reply = Answered | Errored(landed: bool)
  {
    predicate Lands() { Answered? || landed }
  }

  // ---------------------------------------------------------------- runs

  /** The moves by which a poller reports on its job. */
  function Exchange(report: Report, reply: Reply): seq<Action> {
    [Do(0, Send(report)), Do(0, if reply.Lands() then ReportLands else ReportLost), Do(0, if reply.Answered? then Heard else GiveUp)]
  }

  /** Where the reply leads: an exception is recorded as a failure, and one while doing so reaches the loop. */
  function AfterReply(phase: Phase, reply: Reply): Phase
    requires phase.Awaiting?
  {
    if reply.Answered? then (if phase.report.GiveBack? then Stopped else Idle)
    else if phase.report.Fail? then Idle else Raised(phase.job, phase.heart)
  }

  function Sent(s: State, report: Report): State
    requires 0 in s.pollers && s.pollers[0].phase.HasHeart()
  {
    WithPhase(s, 0, Awaiting(s.pollers[0].phase.job, s.pollers[0].phase.heart, report, s.now, InFlight))
  }

  lemma SendStep(c: Config, s: State, report: Report)
    requires 0 in s.pollers && Can(c, s.now, s.pollers[0].phase, Send(report))
    ensures Enabled(c, s, Do(0, Send(report))) && Step(c, s, Do(0, Send(report))) == Sent(s, report)
  {
    assert s.strays + multiset{} == s.strays;
  }

  function Settled(s: State, landed: bool): State
    requires 0 in s.pollers && s.pollers[0].phase.Awaiting?
  {
    var phase := s.pollers[0].phase;
    WithPhase(s, 0, phase.(wire := if landed then Landed else Lost))
      .(table := if landed then Reported(s.table, phase.job, phase.report) else s.table)
  }

  lemma WireStep(c: Config, s: State, landed: bool)
    requires 0 in s.pollers && s.pollers[0].phase.Awaiting? && s.pollers[0].phase.wire.InFlight?
    ensures var a := Do(0, if landed then ReportLands else ReportLost);
            Enabled(c, s, a) && Step(c, s, a) == Settled(s, landed)
  {
    assert s.strays + multiset{} == s.strays && s.strays + (multiset{} + multiset{}) == s.strays;
  }

  function Replied(s: State, reply: Reply): State
    requires 0 in s.pollers && s.pollers[0].phase.Awaiting?
  {
    var report := s.pollers[0].phase.report;
    WithPhase(s, 0, AfterReply(s.pollers[0].phase, reply))
      .(unheardRequeue := s.unheardRequeue || (report.GiveBack? && reply == Errored(true)),
        unheardFinal := s.unheardFinal || (report.Complete? && reply == Errored(true)))
  }

  lemma ReplyStep(c: Config, s: State, reply: Reply)
    requires 0 in s.pollers && s.pollers[0].phase.Awaiting? && s.pollers[0].phase.heart.inFlight.None?
    requires s.pollers[0].phase.wire == if reply.Lands() then Landed else Lost
    ensures var a := Do(0, if reply.Answered? then Heard else GiveUp);
            Enabled(c, s, a) && Step(c, s, a) == Replied(s, reply)
  {
    assert s.strays + multiset{} == s.strays && s.strays + (multiset{} + multiset{}) == s.strays;
  }

  lemma RunThree(c: Config, s: State, acts: seq<Action>, s1: State, s2: State)
    requires |acts| == 3 && Enabled(c, s, acts[0]) && Step(c, s, acts[0]) == s1
    requires Enabled(c, s1, acts[1]) && Step(c, s1, acts[1]) == s2 && Enabled(c, s2, acts[2])
    ensures Run(c, s, acts) == Some(Step(c, s2, acts[2]))
  {
    hide Step, Enabled;
    RunSnoc(c, s, [], acts[0]);
    RunSnoc(c, s, [acts[0]], acts[1]);
    RunSnoc(c, s, [acts[0], acts[1]], acts[2]);
    assert [] + [acts[0]] == [acts[0]] && [acts[0]] + [acts[1]] == [acts[0], acts[1]];
    assert [acts[0], acts[1]] + [acts[2]] == acts;
  }

  /** The state of a lone poller after it reported. */
  function Exchanged(s: State, report: Report, reply: Reply): State
    requires 0 in s.pollers && s.pollers[0].phase.HasHeart()
  {
    Replied(Settled(Sent(s, report), reply.Lands()), reply)
  }

  lemma ExchangeRuns(c: Config, s: State, report: Report, reply: Reply)
    requires 0 in s.pollers && Can(c, s.now, s.pollers[0].phase, Send(report)) && s.pollers[0].phase.heart.inFlight.None?
    ensures Run(c, s, Exchange(report, reply)) == Some(Exchanged(s, report, reply))
  {
    hide Run, Step, Enabled;
    var s1 := Sent(s, report);
    var s2 := Settled(s1, reply.Lands());
    SendStep(c, s, report);
    WireStep(c, s1, reply.Lands());
    ReplyStep(c, s2, reply);
    RunThree(c, s, Exchange(report, reply), s1, s2);
  }

  // ---------------------------------------------------------------- a poller on its own

  /** Poller 0 alone, with nothing under way. */
  function Alone(worker: nat, jobType: string, now: int, table: Table, lastSweep: map<(nat, string), int>, phase: Phase,
                 unheardRequeue: bool, unheardFinal: bool): State {
    State(now, table, map[0 := Poller(worker, jobType, phase)], lastSweep, multiset{}, unheardRequeue, unheardFinal)
  }

  lemma ExchangedAlone(c: Config, worker: nat, jobType: string, now: int, table: Table, lastSweep: map<(nat, string), int>,
                       phase: Phase, ur: bool, uf: bool, report: Report, reply: Reply)
    requires phase.HasHeart() && phase.heart.inFlight.None? && (if report.Fail? then phase.Raised? else phase.Working?)
    ensures Run(c, Alone(worker, jobType, now, table, lastSweep, phase, ur, uf), Exchange(report, reply)) ==
            Some(Alone(worker, jobType, now, if reply.Lands() then Reported(table, phase.job, report) else table, lastSweep,
                       AfterReply(Awaiting(phase.job, phase.heart, report, now, InFlight), reply),
                       ur || (report.GiveBack? && reply == Errored(true)), uf || (report.Complete? && reply == Errored(true))))
  {
    hide Run, Step, Enabled;
    var s := Alone(worker, jobType, now, table, lastSweep, phase, ur, uf);
    ExchangeRuns(c, s, report, reply);
    ExchangedIsAlone(worker, jobType, now, table, lastSweep, phase, ur, uf, report, reply);
  }

  lemma AloneWith(worker: nat, jobType: string, now: int, table: Table, lastSweep: map<(nat, string), int>, phase: Phase, ur: bool,
                  uf: bool, after: Phase)
    ensures WithPhase(Alone(worker, jobType, now, table, lastSweep, phase, ur, uf), 0, after) ==
            Alone(worker, jobType, now, table, lastSweep, after, ur, uf)
  {
    assert WithPhase(Alone(worker, jobType, now, table, lastSweep, phase, ur, uf), 0, after).pollers ==
           map[0 := Poller(worker, jobType, after)];
  }

  lemma SettledAlone(worker: nat, jobType: string, now: int, table: Table, lastSweep: map<(nat, string), int>, phase: Phase, ur: bool,
                     uf: bool, landed: bool)
    requires phase.Awaiting?
    ensures Settled(Alone(worker, jobType, now, table, lastSweep, phase, ur, uf), landed) ==
            Alone(worker, jobType, now, if landed then Reported(table, phase.job, phase.report) else table, lastSweep,
                  phase.(wire := if landed then Landed else Lost), ur, uf)
  {
    AloneWith(worker, jobType, now, table, lastSweep, phase, ur, uf, phase.(wire := if landed then Landed else Lost));
  }

  lemma RepliedAlone(worker: nat, jobType: string, now: int, table: Table, lastSweep: map<(nat, string), int>, phase: Phase, ur: bool,
                     uf: bool, reply: Reply)
    requires phase.Awaiting?
    ensures Replied(Alone(worker, jobType, now, table, lastSweep, phase, ur, uf), reply) ==
            Alone(worker, jobType, now, table, lastSweep, AfterReply(phase, reply),
                  ur || (phase.report.GiveBack? && reply == Errored(true)), uf || (phase.report.Complete? && reply == Errored(true)))
  {
    AloneWith(worker, jobType, now, table, lastSweep, phase, ur, uf, AfterReply(phase, reply));
  }

  lemma ExchangedIsAlone(worker: nat, jobType: string, now: int, table: Table, lastSweep: map<(nat, string), int>, phase: Phase,
                         ur: bool, uf: bool, report: Report, reply: Reply)
    requires phase.HasHeart()
    ensures Exchanged(Alone(worker, jobType, now, table, lastSweep, phase, ur, uf), report, reply) ==
            Alone(worker, jobType, now, if reply.Lands() then Reported(table, phase.job, report) else table, lastSweep,
                  AfterReply(Awaiting(phase.job, phase.heart, report, now, InFlight), reply),
                  ur || (report.GiveBack? && reply == Errored(true)), uf || (report.Complete? && reply == Errored(true)))
  {
    var sent := Awaiting(phase.job, phase.heart, report, now, InFlight);
    var settled := sent.(wire := if reply.Lands() then Landed else Lost);
    AloneWith(worker, jobType, now, table, lastSweep, phase, ur, uf, sent);
    assert Sent(Alone(worker, jobType, now, table, lastSweep, phase, ur, uf), report) ==
           Alone(worker, jobType, now, table, lastSweep, sent, ur, uf);
    hide Sent, Settled, Replied, Alone, Reported, WithPhase;
    SettledAlone(worker, jobType, now, table, lastSweep, sent, ur, uf, reply.Lands());
    RepliedAlone(worker, jobType, now, if reply.Lands() then Reported(table, phase.job, report) else table, lastSweep, settled, ur, uf, reply);
  }

  lemma RaiseRun(c: Config, worker: nat, jobType: string, now: int, table: Table, lastSweep: map<(nat, string), int>, j: JobId,
                 heart: Heart)
    requires heart.inFlight.None?
    ensures Run(c, Alone(worker, jobType, now, table, lastSweep, Working(j, heart), false, false), [Do(0, Raise)]) ==
            Some(Alone(worker, jobType, now, table, lastSweep, Raised(j, heart), false, false))
  {
    hide Run;
    var s, n := Alone(worker, jobType, now, table, lastSweep, Working(j, heart), false, false),
                Alone(worker, jobType, now, table, lastSweep, Raised(j, heart), false, false);
    RunOne(c, s, Do(0, Raise));
    assert Step(c, s, Do(0, Raise)) == n by {
      assert Step(c, s, Do(0, Raise)).pollers == n.pollers;
    }
  }

  function SweepActs(c: Config, now: int, jobType: string, landed: bool): seq<Action> {
    if landed then [Do(0, BeginSweep), Do(0, LandSweep)]
    else [Do(0, BeginSweep), Do(0, LeaveSweep), StrayDies(Stray(Sweep(jobType, now - c.cutoff), 0, false))]
  }

  lemma RunOne(c: Config, s: State, a: Action)
    requires Enabled(c, s, a)
    ensures Run(c, s, [a]) == Some(Step(c, s, a))
  {
    assert [a][1..] == [];
  }

  lemma GateStaysShut(c: Config, worker: nat, jobType: string, now: int, table: Table, lastSweep: map<(nat, string), int>)
    requires !GateOpen(c, Alone(worker, jobType, now, table, lastSweep, Idle, false, false), 0)
    ensures Run(c, Alone(worker, jobType, now, table, lastSweep, Idle, false, false), [Do(0, BeginSweep)]) ==
            Some(Alone(worker, jobType, now, table, lastSweep, Fetching, false, false))
  {
    hide Run;
    var s, n := Alone(worker, jobType, now, table, lastSweep, Idle, false, false),
                Alone(worker, jobType, now, table, lastSweep, Fetching, false, false);
    RunOne(c, s, Do(0, BeginSweep));
    assert Step(c, s, Do(0, BeginSweep)) == n by {
      assert Step(c, s, Do(0, BeginSweep)).pollers == n.pollers;
    }
  }

  lemma GateOpens(c: Config, worker: nat, jobType: string, now: int, table: Table, lastSweep: map<(nat, string), int>, landed: bool)
    requires GateOpen(c, Alone(worker, jobType, now, table, lastSweep, Idle, false, false), 0)
    ensures Run(c, Alone(worker, jobType, now, table, lastSweep, Idle, false, false), SweepActs(c, now, jobType, landed)) ==
            Some(Alone(worker, jobType, now, if landed then Swept(table, jobType, now - c.cutoff) else table,
                       lastSweep[(worker, jobType) := now], Fetching, false, false))
  {
    var s, cutoff := Alone(worker, jobType, now, table, lastSweep, Idle, false, false), now - c.cutoff;
    var s1 := Alone(worker, jobType, now, table, lastSweep[(worker, jobType) := now], Sweeping(cutoff), false, false);
    BeginSweepStep(c, worker, jobType, now, table, lastSweep);
    hide Run, Step, Enabled, GateOpen;
    if landed {
      RunOne(c, s, Do(0, BeginSweep));
      LandedSweep(c, s1);
      RunSnoc(c, s, [Do(0, BeginSweep)], Do(0, LandSweep));
      assert [Do(0, BeginSweep)] + [Do(0, LandSweep)] == SweepActs(c, now, jobType, true);
    } else {
      LeftSweep(c, s1);
      var x := Stray(Sweep(jobType, cutoff), 0, false);
      RunThree(c, s, SweepActs(c, now, jobType, false), s1, s1.(pollers := map[0 := Poller(worker, jobType, Fetching)], strays := multiset{x}));
    }
  }

  lemma BeginSweepStep(c: Config, worker: nat, jobType: string, now: int, table: Table, lastSweep: map<(nat, string), int>)
    requires GateOpen(c, Alone(worker, jobType, now, table, lastSweep, Idle, false, false), 0)
    ensures var s := Alone(worker, jobType, now, table, lastSweep, Idle, false, false);
            && Enabled(c, s, Do(0, BeginSweep))
            && Step(c, s, Do(0, BeginSweep)) ==
               Alone(worker, jobType, now, table, lastSweep[(worker, jobType) := now], Sweeping(now - c.cutoff), false, false)
  {
    var s := Alone(worker, jobType, now, table, lastSweep, Idle, false, false);
    assert Step(c, s, Do(0, BeginSweep)).pollers == map[0 := Poller(worker, jobType, Sweeping(now - c.cutoff))];
  }

  lemma LandedSweep(c: Config, s: State)
    requires s.pollers.Keys == {0} && s.pollers[0].phase.Sweeping? && s.strays == multiset{}
    ensures Enabled(c, s, Do(0, LandSweep))
    ensures Step(c, s, Do(0, LandSweep)) ==
            s.(table := Swept(s.table, s.pollers[0].jobType, s.pollers[0].phase.cutoff),
               pollers := map[0 := s.pollers[0].(phase := Fetching)])
  {
    assert Step(c, s, Do(0, LandSweep)).pollers == map[0 := s.pollers[0].(phase := Fetching)];
  }

  lemma LeftSweep(c: Config, s: State)
    requires s.pollers.Keys == {0} && s.pollers[0].phase.Sweeping? && s.strays == multiset{}
    ensures var x := Stray(Sweep(s.pollers[0].jobType, s.pollers[0].phase.cutoff), 0, false);
            var n := s.(pollers := map[0 := s.pollers[0].(phase := Fetching)], strays := multiset{x});
            && Enabled(c, s, Do(0, LeaveSweep)) && Step(c, s, Do(0, LeaveSweep)) == n
            && Enabled(c, n, StrayDies(x)) && Step(c, n, StrayDies(x)) == n.(strays := multiset{})
  {
    assert Step(c, s, Do(0, LeaveSweep)).pollers == map[0 := s.pollers[0].(phase := Fetching)];
  }

  lemma ClaimStep(c: Config, worker: nat, jobType: string, now: int, table: Table, lastSweep: map<(nat, string), int>, j: JobId,
                  heard: bool)
    requires Claimable(table, j, jobType)
    ensures var s := Alone(worker, jobType, now, table, lastSweep, Fetching, false, false);
            var a := Do(0, if heard then Claim(j) else ClaimLost(j));
            && Enabled(c, s, a)
            && Step(c, s, a) == Alone(worker, jobType, now, Claimed(table, j, now), lastSweep,
                                      if heard then Working(j, Heart(now, now, None)) else Fetching, false, false)
  {
    var s := Alone(worker, jobType, now, table, lastSweep, Fetching, false, false);
    var a := Do(0, if heard then Claim(j) else ClaimLost(j));
    assert Step(c, s, a).pollers == map[0 := Poller(worker, jobType, if heard then Working(j, Heart(now, now, None)) else Fetching)];
  }

  lemma FetchNothingStep(c: Config, worker: nat, jobType: string, now: int, table: Table, lastSweep: map<(nat, string), int>)
    ensures var s := Alone(worker, jobType, now, table, lastSweep, Fetching, false, false);
            && Enabled(c, s, Do(0, FetchNothing))
            && Step(c, s, Do(0, FetchNothing)) == Alone(worker, jobType, now, table, lastSweep, Idle, false, false)
  {
    var s := Alone(worker, jobType, now, table, lastSweep, Fetching, false, false);
    assert Step(c, s, Do(0, FetchNothing)).pollers == map[0 := Poller(worker, jobType, Idle)];
  }

  /** How a job's handler ends, when nothing cancels it. */
  datatype Handled = Returns | Raises | RequeuesLookup

  /** The handler's own outcome, when its statement takes effect. */
  function Ended(handled: Handled, outcome: Reply): Status {
    if handled.Raises? || !outcome.Lands() then Processing else if handled.Returns? then Completed else Pending
  }

  /** The failure is recorded when the handler raises or its outcome is not acknowledged. */
  predicate RecordsFailure(handled: Handled, outcome: Reply) { handled.Raises? || outcome.Errored? }

  /** What the row says in the end. */
  function Recorded(handled: Handled, outcome: Reply, failure: Reply): Status {
    if RecordsFailure(handled, outcome) && failure.Lands() then Failed else Ended(handled, outcome)
  }

  /**
   A row ends failed if and only if the handler raised or its outcome was not acknowledged, and the failure took effect;
   it ends completed, or pending after a lookup requeue, if and only if that outcome took effect and no failure overwrote
   it; else it is left processing.
   */
  lemma RecordedExactly(handled: Handled, outcome: Reply, failure: Reply)
    ensures Recorded(handled, outcome, failure).Failed? <==> (handled.Raises? || !outcome.Answered?) && failure != Errored(false)
    ensures Recorded(handled, outcome, failure).Completed?
       <==> handled.Returns? && (outcome.Answered? || (outcome == Errored(true) && failure == Errored(false)))
    ensures Recorded(handled, outcome, failure).Pending?
       <==> handled.RequeuesLookup? && (outcome.Answered? || (outcome == Errored(true) && failure == Errored(false)))
  {
  }

  /** One attempt of fetch_next_job; an error is transient or not. */
  datatype Attempt = Attempt(reply: Reply, transient: bool)

  datatype Fetched = Job(job: JobId) | NoJob | FetchRaised

  /** The attempts that are made: up to the first that is answered or fails for good. */
  function Made(attempts: seq<Attempt>): (n: nat)
    requires attempts != []
    ensures 1 <= n <= |attempts|
  {
    if |attempts| == 1 || attempts[0].reply.Answered? || !attempts[0].transient then 1 else 1 + Made(attempts[1..])
  }

  /** All attempts made but the last one failed for the moment; the last is answered, fails for good or is the final one. */
  lemma {:induction false} AttemptsMade(attempts: seq<Attempt>)
    requires attempts != []
    ensures var n := Made(attempts);
            && (forall i :: 0 <= i < n - 1 ==> attempts[i].reply.Errored? && attempts[i].transient)
            && (n == |attempts| || attempts[n-1].reply.Answered? || !attempts[n-1].transient)
    decreases |attempts|
  {
    if |attempts| > 1 {
      AttemptsMade(attempts[1..]);
    }
  }

  /** The rows of `jobs` are claimed, the others are as before. */
  ghost predicate ClaimsOnly(before: Table, after: Table, jobs: seq<JobId>, jobType: string, now: int) {
    && after.Keys == before.Keys && NoRepeats(jobs)
    && (forall j :: j in jobs ==> Claimable(before, j, jobType) && after[j] == before[j].(status := Processing, updatedAt := now))
    && (forall j :: j in before && j !in jobs ==> after[j] == before[j])
  }

  /** A pass changes the rows it claims and no others: that of its job has the status recorded, the others are lost. */
  ghost predicate PassOnly(before: Table, after: Table, claims: seq<JobId>, jobType: string, now: int, fetched: Fetched, recorded: Status) {
    && after.Keys == before.Keys && NoRepeats(claims)
    && (forall j :: j in claims ==>
          && Claimable(before, j, jobType)
          && after[j] == before[j].(status := if fetched == Job(j) then recorded else Processing, updatedAt := now))
    && (forall j :: j in before && j !in claims ==> after[j] == before[j])
  }

  lemma PassOfJob(before: Table, mid: Table, after: Table, claims: seq<JobId>, jobType: string, now: int, job: JobId, recorded: Status)
    requires ClaimsOnly(before, mid, claims, jobType, now) && job in claims
    requires after == mid[job := mid[job].(status := recorded)]
    ensures PassOnly(before, after, claims, jobType, now, Job(job), recorded)
  {
  }

  lemma ClaimsMore(before: Table, mid: Table, after: Table, jobs: seq<JobId>, taken: seq<JobId>, jobType: string, now: int)
    requires ClaimsOnly(before, mid, jobs, jobType, now)
    requires if taken == [] then after == mid
             else |taken| == 1 && Claimable(mid, taken[0], jobType) && after == Claimed(mid, taken[0], now)
    ensures ClaimsOnly(before, after, jobs + taken, jobType, now)
  {
    if taken == [] {
      assert jobs + taken == jobs;
    }
  }

  lemma MadeAt(attempts: seq<Attempt>, i: nat)
    requires i < |attempts|
    ensures Made(attempts[i..]) ==
            if i == |attempts| - 1 || attempts[i].reply.Answered? || !attempts[i].transient then 1 else 1 + Made(attempts[i + 1..])
  {
    assert attempts[i..][0] == attempts[i] && attempts[i..][1..] == attempts[i + 1..];
  }

  /** The job store of one worker process: the shared table and the process's own sweep gates. */
  class SupabaseJobStore {
    const config: Config
    const worker: nat
    var table: Table
    var lastStaleRequeueAt: map<(nat, string), int>   // this process's entries only

    constructor (config: Config, worker: nat, table: Table)
      ensures this.config == config && this.worker == worker && this.table == table && lastStaleRequeueAt == map[]
    {
      this.config, this.worker, this.table, lastStaleRequeueAt := config, worker, table, map[];
    }

    /** The protocol state seen by a poller of this process when nobody else acts. */
    ghost function View(now: int, jobType: string, phase: Phase): State
      reads this
    {
      Alone(worker, jobType, now, table, lastStaleRequeueAt, phase, false, false)
    }

    method MarkJobFinal(job: JobId, status: Status, reply: Reply) returns (raised: bool)
      modifies this`table
      ensures raised == reply.Errored?
      ensures table == if reply.Lands() then MarkFinal(old(table), job, status) else old(table)
    {
      if reply.Lands() && job in table {
        table := table[job := table[job].(status := status)];
      }
      raised := reply.Errored?;
    }

    method RequeueJobForRetry(job: JobId, reply: Reply) returns (raised: bool)
      modifies this`table
      ensures raised == reply.Errored?
      ensures table == if reply.Lands() then RequeueForRetry(old(table), job) else old(table)
    {
      if reply.Lands() && job in table && table[job].status.Processing? {
        table := table[job := table[job].(status := Pending)];
      }
      raised := reply.Errored?;
    }

    /** The sweep runs only when the gate of `jobType` has been shut for long enough; its errors are swallowed. */
    method MaybeRequeueStaleProcessingJobs(jobType: string, now: int, reply: Reply) returns (ghost acts: seq<Action>)
      modifies this
      ensures var key := (worker, jobType);
              var open := now - (if key in old(lastStaleRequeueAt) then old(lastStaleRequeueAt)[key] else 0) >= config.sweepEvery;
              && lastStaleRequeueAt == (if open then old(lastStaleRequeueAt)[(worker, jobType) := now] else old(lastStaleRequeueAt))
              && table == if open && reply.Lands() then Swept(old(table), jobType, now - config.cutoff) else old(table)
      ensures Run(config, old(View(now, jobType, Idle)), acts) == Some(View(now, jobType, Fetching))
    {
      hide Run;
      var key := (worker, jobType);
      var last := if key in lastStaleRequeueAt then lastStaleRequeueAt[key] else 0;
      acts := [Do(0, BeginSweep)];
      if now - last < config.sweepEvery {
        GateStaysShut(config, worker, jobType, now, table, lastStaleRequeueAt);
        return;
      }
      lastStaleRequeueAt := lastStaleRequeueAt[key := now];
      GateOpens(config, worker, jobType, now, table, old(lastStaleRequeueAt), reply.Lands());
      if reply.Lands() {
        var cutoff := now - config.cutoff;
        table := map j | j in table :: if Stale(table[j], jobType, cutoff) then table[j].(status := Pending) else table[j];
      }
      acts := SweepActs(config, now, jobType, reply.Lands());
    }

    /** One call of the database function, which claims a pending row if there is one. */
    method CallFetchNextJob(jobType: string, now: int, reply: Reply)
      returns (found: Option<JobId>, ghost taken: seq<JobId>, ghost acts: seq<Action>)
      modifies this`table
      ensures if taken == [] then table == old(table)
              else |taken| == 1 && Claimable(old(table), taken[0], jobType) && table == Claimed(old(table), taken[0], now)
      ensures reply.Lands() && taken == [] ==> forall j :: !Claimable(table, j, jobType)
      ensures !reply.Lands() ==> taken == []
      ensures found == if reply.Answered? && taken != [] then Some(taken[0]) else None
      ensures Run(config, old(View(now, jobType, Fetching)), acts) ==
              Some(View(now, jobType, if found.Some? then Working(found.value, Heart(now, now, None)) else Fetching))
    {
      found, taken, acts := None, [], [];
      if reply.Lands() {
        if j :| j in table && Claimable(table, j, jobType) {
          ClaimStep(config, worker, jobType, now, table, lastStaleRequeueAt, j, reply.Answered?);
          acts := [Do(0, if reply.Answered? then Claim(j) else ClaimLost(j))];
          RunOne(config, View(now, jobType, Fetching), acts[0]);
          taken := [j];
          table := Claimed(table, j, now);
          if reply.Answered? {
            found := Some(j);
          }
        }
      }
    }

    /** Claims one pending row; an attempt whose reply is lost may have claimed one for nobody. */
    method FetchNextJob(jobType: string, now: int, attempts: seq<Attempt>)
      returns (fetched: Fetched, ghost claims: seq<JobId>, ghost acts: seq<Action>)
      requires attempts != []
      modifies this`table
      ensures ClaimsOnly(old(table), table, claims, jobType, now) && |claims| <= Made(attempts)
      ensures fetched.Job? ==> claims != [] && fetched.job == claims[|claims| - 1]
      ensures fetched.NoJob? ==> forall j :: !Claimable(table, j, jobType)
      ensures fetched.FetchRaised? <==> attempts[Made(attempts) - 1].reply.Errored?
      ensures Run(config, old(View(now, jobType, Fetching)), acts) ==
              Some(View(now, jobType, if fetched.Job? then Working(fetched.job, Heart(now, now, None)) else Fetching))
    {
      claims, acts := [], [];
      ghost var s := View(now, jobType, Fetching);
      assert Run(config, s, []) == Some(s) && attempts[0..] == attempts && ClaimsOnly(table, table, [], jobType, now);
      hide Run, Step, Enabled, Claimable, ClaimsOnly, Made;
      var attempt := 0;
      while true
        invariant 0 <= attempt < |attempts| && Made(attempts) == attempt + Made(attempts[attempt..])
        invariant |claims| <= attempt && ClaimsOnly(old(table), table, claims, jobType, now)
        invariant Run(config, s, acts) == Some(View(now, jobType, Fetching))
        decreases |attempts| - attempt
      {
        var reply := attempts[attempt].reply;
        ghost var before := table;
        var found, taken, more := CallFetchNextJob(jobType, now, reply);
        RunConcat(config, s, acts, more);
        acts := acts + more;
        MadeAt(attempts, attempt);
        ClaimsMore(old(table), before, table, claims, taken, jobType, now);
        claims := claims + taken;
        if reply.Answered? {
          fetched := if found.Some? then Job(found.value) else NoJob;
          return;
        }
        if !attempts[attempt].transient || attempt == |attempts| - 1 {
          fetched := FetchRaised;
          return;
        }
        attempt := attempt + 1;
      }
    }

    /** The protocol state after the handler's outcome went unheard, if it did. */
    ghost function Flagged(s: State, handled: Handled, outcome: Reply): State {
      s.(unheardRequeue := handled.RequeuesLookup? && outcome == Errored(true),
         unheardFinal := handled.Returns? && outcome == Errored(true))
    }

    /**
     The handler of the claimed job ends, and its outcome is recorded: a failure to do so is recorded as
     a failure of the job, and a failure to record that is left to the poll loop.
     */
    method Record(job: JobId, jobType: string, now: int, handled: Handled, outcome: Reply, failure: Reply)
      returns (cancelled: bool, ghost acts: seq<Action>)
      requires job in table && table[job].status.Processing?
      modifies this`table
      ensures cancelled <==> handled.RequeuesLookup? && outcome.Answered?
      ensures table == old(table)[job := old(table)[job].(status := Recorded(handled, outcome, failure))]
      ensures Run(config, old(View(now, jobType, Working(job, Heart(now, now, None)))), acts) ==
              Some(Flagged(View(now, jobType, if cancelled then Stopped else Idle), handled, outcome))
    {
      hide Run, Step, Enabled;
      var raised;
      ghost var heart := Heart(now, now, None);
      ghost var before := View(now, jobType, Working(job, heart));
      match handled {
        case Returns =>
          acts := Exchange(Complete, outcome);
          ExchangedAlone(config, worker, jobType, now, table, lastStaleRequeueAt, Working(job, heart), false, false, Complete, outcome);
          raised := MarkJobFinal(job, Completed, outcome);
        case Raises =>
          acts := [Do(0, Raise)];
          RaiseRun(config, worker, jobType, now, table, lastStaleRequeueAt, job, heart);
          raised := true;
        case RequeuesLookup =>
          acts := Exchange(GiveBack, outcome);
          ExchangedAlone(config, worker, jobType, now, table, lastStaleRequeueAt, Working(job, heart), false, false, GiveBack, outcome);
          raised := RequeueJobForRetry(job, outcome);
      }
      assert Run(config, before, acts) ==
             Some(Flagged(View(now, jobType, if raised then Raised(job, heart) else if handled.RequeuesLookup? then Stopped else Idle),
                          handled, outcome));
      if !raised {
        return handled.RequeuesLookup?, acts;
      }
      ExchangedAlone(config, worker, jobType, now, table, lastStaleRequeueAt, Raised(job, heart),
                     handled.RequeuesLookup? && outcome == Errored(true), handled.Returns? && outcome == Errored(true), Fail, failure);
      RunConcat(config, before, acts, Exchange(Fail, failure));
      acts := acts + Exchange(Fail, failure);
      raised := MarkJobFinal(job, Failed, failure);
      cancelled := false;
    }

    /**
     One pass of _process_one_job: sweep if due, claim, handle, record, whatever fails on the way.  What it
     does is a run of the protocol that ends idle, or stopped after a lookup requeue that was heard.
     */
    method ProcessOneJob(jobType: string, now: int, sweep: Reply, attempts: seq<Attempt>, handled: Handled, outcome: Reply, failure: Reply)
      returns (fetched: Fetched, cancelled: bool, ghost claims: seq<JobId>, ghost acts: seq<Action>)
      requires attempts != []
      modifies this
      ensures cancelled <==> fetched.Job? && handled.RequeuesLookup? && outcome.Answered?
      ensures fetched.FetchRaised? <==> attempts[Made(attempts) - 1].reply.Errored?
      ensures |claims| <= Made(attempts) && (fetched.Job? ==> claims != [] && fetched.job == claims[|claims| - 1])
      ensures var key := (worker, jobType);
              var open := now - (if key in old(lastStaleRequeueAt) then old(lastStaleRequeueAt)[key] else 0) >= config.sweepEvery;
              var swept := if open && sweep.Lands() then Swept(old(table), jobType, now - config.cutoff) else old(table);
              && lastStaleRequeueAt == (if open then old(lastStaleRequeueAt)[(worker, jobType) := now] else old(lastStaleRequeueAt))
              && PassOnly(swept, table, claims, jobType, now, fetched, Recorded(handled, outcome, failure))
              && (fetched.NoJob? ==> forall j :: !Claimable(table, j, jobType))
      ensures Run(config, old(View(now, jobType, Idle)), acts) ==
              Some(if fetched.Job? then Flagged(View(now, jobType, if cancelled then Stopped else Idle), handled, outcome)
                   else View(now, jobType, Idle))
    {
      hide Run, Step, Enabled, Recorded, Made, GateOpen, Swept;
      ghost var s := View(now, jobType, Idle);
      ghost var more;
      acts := MaybeRequeueStaleProcessingJobs(jobType, now, sweep);
      ghost var swept := table;
      fetched, claims, more := FetchNextJob(jobType, now, attempts);
      RunConcat(config, s, acts, more);
      acts := acts + more;
      ghost var mid := table;
      if fetched.Job? {
        assert fetched.job in claims && fetched.job in swept;
        cancelled, more := Record(fetched.job, jobType, now, handled, outcome, failure);
        RunConcat(config, s, acts, more);
        acts := acts + more;
        PassOfJob(swept, mid, table, claims, jobType, now, fetched.job, Recorded(handled, outcome, failure));
      } else {
        FetchNothingStep(config, worker, jobType, now, table, lastStaleRequeueAt);
        RunSnoc(config, s, acts, Do(0, FetchNothing));
        acts := acts + [Do(0, FetchNothing)];
        cancelled := false;
      }
    }
  }
}
