/**
 * Bulk-import jobs: a `Job` object whose state setter marks the start and
 * measures the duration once, the callbacks of an import that update it,
 * and the process-wide job table with its id counter.
 *
 * The performance clock is a parameter `now` of every operation that reads
 * it; the clock only moves forward, so every `now` is at least the time of
 * the job's start mark (`ClockAfterMark`). Each state-changing method of `Job` is specified by a function on
 * `JobView`, the job's fields as a value; the properties are proved about
 * those functions.
 */
module Jobs {
  import opened Wrappers
  import opened KvKeys

  datatype JobState = Pending | Processing | Aborted | Done | Errored

  /** The states whose first assignment takes the duration measurement. */
  predicate IsTerminal(s: JobState)
  {
    s.Aborted? || s.Done? || s.Errored?
  }

  /** A value the import may throw: `truthy` is its JavaScript truthiness and
      `text` is `String(value)`. A job's error starts `Undefined`. */
  datatype ErrorValue = Undefined | Thrown(truthy: bool, text: string)

  /** What the import reports when it settles. */
  datatype ImportResult = ImportResult(count: nat, skipped: nat, errors: nat, aborted: bool)

  /** The fields of a job. `mark` is the time of its start mark, `measure` the
      duration measured once (`#measure`). */
  datatype JobView = JobView(
    id: nat,
    prefix: Key,
    state: JobState,
    mark: Option<nat>,
    measure: Option<nat>,
    count: nat,
    skipped: nat,
    errors: nat,
    error: ErrorValue)

  /** The fields of a newly constructed job. */
  function NewJob(id: nat, prefix: Key): (v: JobView)
    ensures v.state == Pending && v.measure.None? && v.error == Undefined
    ensures v.count == 0 && v.skipped == 0 && v.errors == 0
    ensures v.id == id && v.prefix == prefix
  {
    JobView(id, prefix, Pending, None, None, 0, 0, 0, Undefined)
  }

  /** The invariant of a job: a job that has left `pending` has a start mark,
      so a measurement always finds one; a job in a terminal state has been
      measured. */
  predicate WellFormed(v: JobView)
  {
    && (v.state != Pending ==> v.mark.Some?)
    && (v.measure.Some? ==> v.mark.Some?)
    && (IsTerminal(v.state) ==> v.measure.Some?)
  }

  /** The clock has not gone back since the job's start mark. */
  predicate ClockAfterMark(v: JobView, now: nat)
  {
    v.mark.Some? ==> v.mark.value <= now
  }

  /** The `state` setter: leaving `pending` sets the start mark, the first
      terminal assignment measures the time since the mark, and the value is
      always stored (there is no guard against leaving a terminal state). */
  function Assign(v: JobView, value: JobState, now: nat): (r: JobView)
    requires WellFormed(v) && ClockAfterMark(v, now)
    ensures WellFormed(r) && ClockAfterMark(r, now)
    ensures r.state == value
    ensures r == v.(state := value, mark := r.mark, measure := r.measure)
    ensures v.state == Pending && value != Pending ==> r.mark == Some(now)
    ensures !(v.state == Pending && value != Pending) ==> r.mark == v.mark
    ensures v.measure.Some? ==> r.measure == v.measure
    ensures v.measure.None? ==> (r.measure.Some? <==> IsTerminal(value))
    ensures v.measure.None? && IsTerminal(value) ==> r.measure == Some(now - r.mark.value)
  {
    var mark := if v.state == Pending && value != Pending then Some(now) else v.mark;
    var measure := if v.measure.None? && IsTerminal(value) then Some(now - mark.value) else v.measure;
    v.(state := value, mark := mark, measure := measure)
  }

  /** One assignment to the `state` setter, at a time on the clock. */
  datatype Assignment = Assignment(value: JobState, now: nat)

  /** The assignments happen at non-decreasing times, none before the mark. */
  predicate ClockForward(v: JobView, steps: seq<Assignment>)
  {
    && (forall i :: 0 <= i < |steps| ==> ClockAfterMark(v, steps[i].now))
    && (forall i, j :: 0 <= i < j < |steps| ==> steps[i].now <= steps[j].now)
  }

  /** After one assignment the rest of a forward-running series is still
      forward-running. */
  lemma ClockForwardStep(v: JobView, steps: seq<Assignment>)
    requires WellFormed(v) && steps != [] && ClockForward(v, steps)
    ensures ClockForward(Assign(v, steps[0].value, steps[0].now), steps[1..])
  {
    var w := Assign(v, steps[0].value, steps[0].now);
    forall i | 0 <= i < |steps[1..]| ensures ClockAfterMark(w, steps[1..][i].now) {
      assert steps[1..][i] == steps[i + 1];
    }
    forall i, j | 0 <= i < j < |steps[1..]| ensures steps[1..][i].now <= steps[1..][j].now {
      assert steps[1..][i] == steps[i + 1] && steps[1..][j] == steps[j + 1];
    }
  }

  /** A series of assignments to the setter, in order. */
  function Run(v: JobView, steps: seq<Assignment>): (r: JobView)
    requires WellFormed(v) && ClockForward(v, steps)
    ensures WellFormed(r)
    ensures steps != [] ==> r.state == steps[|steps| - 1].value
    ensures r.id == v.id && r.count == v.count && r.error == v.error
    decreases |steps|
  {
    if steps == [] then v
    else
      ClockForwardStep(v, steps);
      Run(Assign(v, steps[0].value, steps[0].now), steps[1..])
  }

  /** The duration is measured at most once: once defined it never changes,
      and it is defined exactly when some assignment was terminal. */
  lemma {:induction false} DurationMeasuredOnce(v: JobView, steps: seq<Assignment>)
    requires WellFormed(v) && ClockForward(v, steps)
    ensures v.measure.Some? ==> Run(v, steps).measure == v.measure
    ensures v.measure.None? ==>
              (Run(v, steps).measure.Some? <==> exists i :: 0 <= i < |steps| && IsTerminal(steps[i].value))
    decreases |steps|
  {
    if steps != [] {
      var w := Assign(v, steps[0].value, steps[0].now);
      ClockForwardStep(v, steps);
      DurationMeasuredOnce(w, steps[1..]);
      if v.measure.None? && !IsTerminal(steps[0].value) {
        assert forall i :: 1 <= i < |steps| ==> steps[i] == steps[1..][i - 1];
        if Run(v, steps).measure.Some? {
          var j :| 0 <= j < |steps[1..]| && IsTerminal(steps[1..][j].value);
          assert IsTerminal(steps[j + 1].value);
        }
      }
    }
  }

  /** The progress callback: `pending` becomes `processing`, any other state is
      kept, and the counters are overwritten. */
  function Progress(v: JobView, count: nat, skipped: nat, errors: nat, now: nat): (r: JobView)
    requires WellFormed(v) && ClockAfterMark(v, now)
    ensures WellFormed(r) && ClockAfterMark(r, now)
    ensures r.state != v.state ==> v.state == Pending && r.state == Processing
    ensures v.state == Pending ==> r.state == Processing
    ensures r.measure == v.measure && r.error == v.error && r.id == v.id
    ensures r.count == count && r.skipped == skipped && r.errors == errors
    ensures r.prefix == v.prefix && r.mark == (if v.state == Pending then Some(now) else v.mark)
  {
    var w := if v.state == Pending then Assign(v, Processing, now) else v;
    w.(count := count, skipped := skipped, errors := errors)
  }

  /** The completion callback: `aborted` when the import says so, `done`
      otherwise (whatever the state was), and the counters are overwritten. */
  function Complete(v: JobView, result: ImportResult, now: nat): (r: JobView)
    requires WellFormed(v) && ClockAfterMark(v, now)
    ensures WellFormed(r) && ClockAfterMark(r, now)
    ensures r.state == (if result.aborted then Aborted else Done)
    ensures r.measure.Some? && (v.measure.Some? ==> r.measure == v.measure)
    ensures r.count == result.count && r.skipped == result.skipped && r.errors == result.errors
    ensures r.error == v.error && r.id == v.id
    ensures r.prefix == v.prefix && r.mark == (if v.state == Pending then Some(now) else v.mark)
    ensures v.measure.None? ==> r.measure == Some(now - r.mark.value)
  {
    Assign(v, if result.aborted then Aborted else Done, now)
      .(count := result.count, skipped := result.skipped, errors := result.errors)
  }

  /** The failure callback: `errored`, with the thrown value recorded. */
  function Fail(v: JobView, error: ErrorValue, now: nat): (r: JobView)
    requires WellFormed(v) && ClockAfterMark(v, now)
    ensures WellFormed(r) && ClockAfterMark(r, now)
    ensures r.state == Errored && r.error == error
    ensures r.measure.Some? && (v.measure.Some? ==> r.measure == v.measure)
    ensures r.count == v.count && r.skipped == v.skipped && r.errors == v.errors && r.id == v.id
    ensures r.prefix == v.prefix && r.mark == (if v.state == Pending then Some(now) else v.mark)
    ensures v.measure.None? ==> r.measure == Some(now - r.mark.value)
  {
    Assign(v, Errored, now).(error := error)
  }

  /** A job aborted while processing and then completed by an import that
      did not itself abort ends `done`, with the duration measured at the
      abort. */
  lemma CompletionOverwritesAbort(v: JobView, result: ImportResult, t1: nat, t2: nat)
    requires WellFormed(v) && v.state == Processing && v.measure.None? && !result.aborted
    requires ClockAfterMark(v, t1) && t1 <= t2
    ensures var aborted := Assign(v, Aborted, t1);
            && aborted.state == Aborted
            && Complete(aborted, result, t2).state == Done
            && Complete(aborted, result, t2).measure == Some(t1 - v.mark.value)
  {
  }

  /** The serialised form of a job (`toJSON`). */
  datatype JobJson = JobJson(
    id: nat,
    count: nat,
    skipped: nat,
    state: JobState,
    duration: Option<nat>,
    error: Option<string>)

  /** `toJSON`: id, count, skipped, state and duration always; the error as a
      string only when it is truthy; never `errors` or `prefix`. */
  function ToJson(v: JobView): (j: JobJson)
    ensures j.error.Some? <==> v.error.Thrown? && v.error.truthy
    ensures j.error.Some? ==> j.error.value == v.error.text
    ensures j.id == v.id && j.count == v.count && j.skipped == v.skipped
    ensures j.state == v.state && j.duration == v.measure
  {
    var error := if v.error.Thrown? && v.error.truthy then Some(v.error.text) else None;
    JobJson(v.id, v.count, v.skipped, v.state, v.measure, error)
  }

  /** `toJSON` does not depend on the error counter, the prefix or the mark. */
  lemma ToJsonOmits(v: JobView, errors: nat, prefix: Key, mark: Option<nat>)
    ensures ToJson(v) == ToJson(v.(errors := errors, prefix := prefix, mark := mark))
  {
  }

  class Job {
    const id: nat
    const prefix: Key
    var state: JobState
    var mark: Option<nat>
    var measure: Option<nat>
    var count: nat
    var error: ErrorValue
    var errors: nat
    var skipped: nat

    function View(): JobView
      reads this
    {
      JobView(id, prefix, state, mark, measure, count, skipped, errors, error)
    }

    predicate Valid()
      reads this
    {
      WellFormed(View())
    }

    constructor (id: nat, prefix: Key)
      ensures Valid() && View() == NewJob(id, prefix)
    {
      this.id := id;
      this.prefix := prefix;
      state := Pending;
      mark := None;
      measure := None;
      count := 0;
      error := Undefined;
      errors := 0;
      skipped := 0;
    }

    /** The `duration` getter: the one measurement, defined in every terminal
        state and only once a start mark exists. */
    function Duration(): (d: Option<nat>)
      reads this
      requires Valid()
      ensures d == View().measure
      ensures IsTerminal(state) ==> d.Some?
      ensures d.Some? ==> mark.Some?
    {
      measure
    }

    /** The `state` setter. */
    method SetState(value: JobState, now: nat)
      requires Valid() && ClockAfterMark(View(), now)
      modifies this
      ensures Valid() && View() == Assign(old(View()), value, now)
    {
      if state == Pending && value != Pending {
        mark := Some(now);
      }
      if measure.None? && IsTerminal(value) {
        measure := Some(now - mark.value);
      }
      state := value;
    }

    /** The progress callback of the import. */
    method OnProgress(count: nat, skipped: nat, errors: nat, now: nat)
      requires Valid() && ClockAfterMark(View(), now)
      modifies this
      ensures Valid() && View() == Progress(old(View()), count, skipped, errors, now)
    {
      if state == Pending {
        SetState(Processing, now);
      }
      this.count := count;
      this.skipped := skipped;
      this.errors := errors;
    }

    /** The callback run when the import settles. */
    method OnComplete(result: ImportResult, now: nat)
      requires Valid() && ClockAfterMark(View(), now)
      modifies this
      ensures Valid() && View() == Complete(old(View()), result, now)
    {
      SetState(if result.aborted then Aborted else Done, now);
      count := result.count;
      skipped := result.skipped;
      errors := result.errors;
    }

    /** The callback run when the import throws. */
    method OnFailure(error: ErrorValue, now: nat)
      requires Valid() && ClockAfterMark(View(), now)
      modifies this
      ensures Valid() && View() == Fail(old(View()), error, now)
    {
      SetState(Errored, now);
      this.error := error;
    }
  }

  /** The module state: the id counter `jobUid` and the `jobs` map, whose
      insertion order is `order`. */
  class JobTable {
    var jobUid: nat
    var jobs: map<nat, Job>
    var order: seq<nat>

    /** The table's invariant: every job is filed under its own id, ids are at
        most the counter, and `order` lists the ids once each, increasing.
        Each job keeps its own invariant, `Job.Valid`. */
    ghost predicate Valid()
      reads this
    {
      && (forall id :: id in jobs ==> 1 <= id <= jobUid && jobs[id].id == id)
      && (forall id :: id in jobs <==> id in order)
      && (forall i, j :: 0 <= i < j < |order| ==> order[i] < order[j])
    }

    constructor ()
      ensures Valid() && jobUid == 0 && jobs == map[] && order == []
    {
      jobUid := 0;
      jobs := map[];
      order := [];
    }

    /** `importNdJson` up to the start of the import: a new job with the next
        id, registered in the table before it is returned. */
    method ImportNdJson(prefix: Key) returns (job: Job)
      requires Valid()
      modifies this
      ensures Valid() && fresh(job)
      ensures job.id == old(jobUid) + 1 && jobUid == job.id
      ensures job.View() == NewJob(job.id, prefix)
      ensures jobs == old(jobs)[job.id := job] && job.id !in old(jobs)
      ensures order == old(order) + [job.id]
      ensures GetJob(job.id) == Some(job)
    {
      forall i | 0 <= i < |order| ensures order[i] <= jobUid {
        assert order[i] in order;
      }
      jobUid := jobUid + 1;
      job := new Job(jobUid, prefix);
      jobs := jobs[job.id := job];
      order := order + [job.id];
    }

    /** `abort`: only a pending or processing job is aborted. */
    method Abort(id: int, now: nat) returns (aborted: bool)
      requires Valid()
      requires id >= 0 && id in jobs ==> jobs[id].Valid() && ClockAfterMark(jobs[id].View(), now)
      modifies if id >= 0 && id in jobs then {jobs[id]} else {}
      ensures Valid() && unchanged(this)
      ensures id >= 0 && id in jobs ==> jobs[id].Valid()
      ensures aborted <==> id >= 0 && id in jobs && old(jobs[id].state) in {Pending, Processing}
      ensures aborted ==> jobs[id].View() == Assign(old(jobs[id].View()), Aborted, now)
      ensures !aborted && id >= 0 && id in jobs ==> unchanged(jobs[id])
    {
      if id >= 0 && id in jobs && jobs[id].state in {Pending, Processing} {
        jobs[id].SetState(Aborted, now);
        aborted := true;
      } else {
        aborted := false;
      }
    }

    /** `getJob`. */
    function GetJob(id: int): (r: Option<Job>)
      reads this
      requires Valid()
      ensures r.Some? <==> id >= 0 && id in jobs
      ensures r.Some? ==> r.value.id == id && r.value in jobs.Values
    {
      if id >= 0 && id in jobs then Some(jobs[id]) else None
    }

    /** `getJobs`: every job, in insertion order, which is increasing id order. */
    function GetJobs(): (r: seq<Job>)
      reads this
      requires Valid()
      ensures |r| == |order|
      ensures forall i :: 0 <= i < |r| ==> order[i] in jobs && r[i] == jobs[order[i]]
      ensures forall i, j :: 0 <= i < j < |r| ==> r[i].id < r[j].id
      ensures forall id :: id in jobs ==> jobs[id] in r
    {
      var ids, table := order, jobs;
      seq(|ids|, i requires 0 <= i < |ids| && ids[i] in table => table[ids[i]])
    }
  }

  /** An import that is aborted while processing and then completes without
      aborting: the job ends `done`, its duration is the one measured at the
      abort, and the table stays consistent and still holds it. */
  method AbortedImportCompletes(table: JobTable, prefix: Key, result: ImportResult, t0: nat, t1: nat, t2: nat)
    returns (job: Job)
    requires table.Valid() && !result.aborted && t0 <= t1 <= t2
    modifies table
    ensures table.Valid() && fresh(job) && table.GetJob(job.id) == Some(job)
    ensures job.Valid() && job.state == Done && job.Duration() == Some(t1 - t0)
  {
    job := table.ImportNdJson(prefix);
    job.OnProgress(1, 0, 0, t0);
    var aborted := table.Abort(job.id, t1);
    assert aborted && job.state == Aborted;
    job.OnComplete(result, t2);
  }
}
