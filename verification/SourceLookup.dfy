/**
 Looking up a job's source document, with its per-job retry budget (job_processor.py).
 */
module SourceLookup {
  import opened Basics
  import JobQueue

  type JobId = JobQueue.JobId

  /** What load_source_document did: it answered (with or without a row), or raised. */
  datatype Loaded = Answered(found: bool) | Transient | OtherError

  /** How _load_record_with_retries ends. */
  datatype Lookup = Record | NoRecord | Requeued | Raised

  /** One call: for which job, what the load did, and whether a requeue statement was acknowledged. */
  datatype Call = Call(job: JobId, loaded: Loaded, requeueHeard: bool)

  type Counters = map<JobId, nat>

  function Stored(counters: Counters, job: JobId): nat {
    if job in counters then counters[job] else 0
  }

  function NextCounters(max: nat, counters: Counters, call: Call): Counters {
    match call.loaded
    case Answered(_) => counters - {call.job}
    case OtherError => counters
    case Transient =>
      var attempts := Stored(counters, call.job) + 1;
      if attempts > max then counters - {call.job} else counters[call.job := attempts]
  }

  function Answer(max: nat, counters: Counters, call: Call): Lookup {
    match call.loaded
    case Answered(found) => if found then Record else NoRecord
    case OtherError => Raised
    case Transient =>
      if Stored(counters, call.job) + 1 > max then NoRecord
      else if call.requeueHeard then Requeued else Raised
  }

  function After(max: nat, history: seq<Call>): Counters {
    if history == [] then map[]
    else NextCounters(max, After(max, history[..|history|-1]), history[|history|-1])
  }

  /** Transient failures of `job` since its last answered load. */
  function Failures(history: seq<Call>, job: JobId): nat {
    if history == [] then 0
    else
      var last, before := history[|history|-1], history[..|history|-1];
      if last.job != job || last.loaded.OtherError? then Failures(before, job)
      else if last.loaded.Answered? then 0
      else Failures(before, job) + 1
  }

  lemma DivisionIsUnique(a: int, q: int, r: int, m: int)
    requires m > 0 && a == q * m + r && 0 <= r < m
    ensures a % m == r
  {
    var d := a / m - q;
    assert d * m == r - a % m by { assert d * m == (a / m) * m - q * m; }
    assert d >= 1 ==> d * m >= m;
    assert d <= -1 ==> d * m <= -m;
  }

  lemma NextMod(n: nat, m: nat)
    requires m > 0
    ensures (n + 1) % m == if n % m + 1 == m then 0 else n % m + 1
  {
    var q, r := n / m, n % m;
    if r + 1 == m {
      assert (q + 1) * m == q * m + m;
      DivisionIsUnique(n + 1, q + 1, 0, m);
    } else {
      DivisionIsUnique(n + 1, q, r + 1, m);
    }
  }

  /** What one call does to the counter of a job and to its run of failures. */
  lemma OneCallMore(max: nat, before: seq<Call>, call: Call, job: JobId)
    ensures var was, now := After(max, before), After(max, before + [call]);
            var fails := Failures(before + [call], job);
            if call.job != job || call.loaded.OtherError? then
              Stored(now, job) == Stored(was, job) && (job in now <==> job in was) && fails == Failures(before, job)
            else if call.loaded.Answered? || Stored(was, job) + 1 > max then
              job !in now && fails == if call.loaded.Answered? then 0 else Failures(before, job) + 1
            else
              job in now && now[job] == Stored(was, job) + 1 && fails == Failures(before, job) + 1
  {
    assert (before + [call])[..|before|] == before;
  }

  /**
   Theorem: over any sequence of calls a job's counter is its run of transient failures, counted
   afresh after every max + 1 of them; it is stored exactly while positive and never exceeds max.
   */
  lemma {:induction false} CounterIsFailureRun(max: nat, history: seq<Call>, job: JobId)
    ensures Stored(After(max, history), job) == Failures(history, job) % (max + 1)
    ensures job in After(max, history) ==> 1 <= After(max, history)[job] <= max
  {
    if history != [] {
      hide After, Failures;
      var before, last := history[..|history|-1], history[|history|-1];
      assert history == before + [last];
      CounterIsFailureRun(max, before, job);
      OneCallMore(max, before, last, job);
      NextMod(Failures(before, job), max + 1);
    }
  }

  /** Theorem: a transient failure gives up exactly when it completes a run of max + 1; otherwise it requeues. */
  lemma GivesUpExactlyAfterMax(max: nat, history: seq<Call>, call: Call)
    requires call.loaded.Transient?
    ensures var counters := After(max, history);
            && (Answer(max, counters, call) == NoRecord <==> Failures(history + [call], call.job) % (max + 1) == 0)
            && (Answer(max, counters, call) == NoRecord ==> call.job !in After(max, history + [call]))
            && (Answer(max, counters, call) == NoRecord || (Answer(max, counters, call) == Requeued <==> call.requeueHeard))
  {
    CounterIsFailureRun(max, history, call.job);
    CounterIsFailureRun(max, history + [call], call.job);
    assert (history + [call])[..|history|] == history;
    NextMod(Failures(history, call.job), max + 1);
  }

  // ---------------------------------------------------------------- the processor

  class SourceDocumentJobProcessor {
    const maxSourceLookupRequeues: nat
    var sourceLookupRequeues: Counters
    ghost var history: seq<Call>

    ghost predicate Valid()
      reads this
    {
      sourceLookupRequeues == After(maxSourceLookupRequeues, history)
    }

    constructor (max: nat)
      ensures Valid() && history == [] && maxSourceLookupRequeues == max
    {
      maxSourceLookupRequeues, sourceLookupRequeues, history := max, map[], [];
    }

    method LoadRecordWithRetries(call: Call) returns (r: Lookup)
      requires Valid()
      modifies this
      ensures Valid() && history == old(history) + [call]
      ensures r == Answer(maxSourceLookupRequeues, old(sourceLookupRequeues), call)
      ensures r == match call.loaded
                   case Answered(found) => if found then Record else NoRecord
                   case OtherError => Raised
                   case Transient =>
                     if Failures(history, call.job) % (maxSourceLookupRequeues + 1) == 0 then NoRecord
                     else if call.requeueHeard then Requeued else Raised
    {
      if call.loaded.Transient? {
        GivesUpExactlyAfterMax(maxSourceLookupRequeues, history, call);
      }
      history := history + [call];
      assert After(maxSourceLookupRequeues, history) ==
             NextCounters(maxSourceLookupRequeues, old(sourceLookupRequeues), call) by {
        assert history[..|history|-1] == old(history);
      }
      match call.loaded {
        case Answered(found) =>
          sourceLookupRequeues := sourceLookupRequeues - {call.job};
          r := if found then Record else NoRecord;
        case OtherError =>
          r := Raised;
        case Transient =>
          var attempts := (if call.job in sourceLookupRequeues then sourceLookupRequeues[call.job] else 0) + 1;
          sourceLookupRequeues := sourceLookupRequeues[call.job := attempts];
          if attempts > maxSourceLookupRequeues {
            sourceLookupRequeues := sourceLookupRequeues - {call.job};
            assert sourceLookupRequeues == old(sourceLookupRequeues) - {call.job};
            return NoRecord;
          }
          r := if call.requeueHeard then Requeued else Raised;
      }
    }
  }
}
