/** The scheduler's job table and the log store, as the tasks use them:
    APScheduler's `add_job` (with and without `replace_existing`), `get_job`,
    `remove_job`, `pause_job`, `get_jobs`, its bookkeeping when a job fires,
    and the module-level `logs` dict, overwritten per key. */
module Registry {
  import opened Base
  import opened Jobs

  /** The scheduler's job store: at most one job per id. */
  type JobTable = map<string, Job>

  /** The table agrees with `before` on every id outside `ids`. */
  ghost predicate UnchangedExcept(before: JobTable, after: JobTable, ids: set<string>)
  {
    forall k :: k !in ids ==> (k in before <==> k in after) && (k in before ==> after[k] == before[k])
  }

  /** `add_job(..., id=id, replace_existing=replaceExisting)`: a taken id is
      refused unless replacing is asked for, in which case the new job takes
      the place of the old one. */
  function Add(jobs: JobTable, id: string, job: Job, replaceExisting: bool): (r: Result<JobTable>)
    ensures r.Err? <==> id in jobs && !replaceExisting
    ensures r.Err? ==> r.error == ConflictingIdError(id)
    ensures r.Ok? ==> r.value.Keys == jobs.Keys + {id} && r.value[id] == job
    ensures r.Ok? ==> UnchangedExcept(jobs, r.value, {id})
  {
    if id in jobs && !replaceExisting then Err(ConflictingIdError(id)) else Ok(jobs[id := job])
  }

  /** `get_job(id)`: the job, or `None` when no job has that id. */
  function Lookup(jobs: JobTable, id: string): (r: Option<Job>)
    ensures r.Some? <==> id in jobs
    ensures r.Some? ==> r.value == jobs[id]
  {
    if id in jobs then Some(jobs[id]) else None
  }

  /** `get_job` after the table changes: a replacing `add_job` makes the id
      find the new job, a `remove_job` makes it find nothing, and neither
      changes what another id finds. */
  lemma LookupSeesAddAndRemove(jobs: JobTable, id: string, job: Job, other: string)
    ensures Lookup(Add(jobs, id, job, true).value, id) == Some(job)
    ensures id in jobs ==> Lookup(Remove(jobs, id).value, id) == None
    ensures other != id ==> Lookup(Add(jobs, id, job, true).value, other) == Lookup(jobs, other)
    ensures other != id && id in jobs ==> Lookup(Remove(jobs, id).value, other) == Lookup(jobs, other)
  {
  }

  /** `remove_job(id)`: drops the job; an unknown id raises `JobLookupError`. */
  function Remove(jobs: JobTable, id: string): (r: Result<JobTable>)
    ensures r.Err? <==> id !in jobs
    ensures r.Err? ==> r.error == JobLookupError(id)
    ensures r.Ok? ==> r.value.Keys == jobs.Keys - {id} && UnchangedExcept(jobs, r.value, {id})
  {
    if id in jobs then Ok(jobs - {id}) else Err(JobLookupError(id))
  }

  /** `pause_job(id)`: the job stays in the table, with no next run time;
      an unknown id raises `JobLookupError`. */
  function Pause(jobs: JobTable, id: string): (r: Result<JobTable>)
    ensures r.Err? <==> id !in jobs
    ensures r.Err? ==> r.error == JobLookupError(id)
    ensures r.Ok? ==> r.value.Keys == jobs.Keys && UnchangedExcept(jobs, r.value, {id})
    ensures r.Ok? ==> (r.value[id].Paused()
                       && r.value[id].kind == jobs[id].kind && r.value[id].trigger == jobs[id].trigger)
  {
    if id in jobs then Ok(jobs[id := jobs[id].(nextRun := None)]) else Err(JobLookupError(id))
  }

  /** What APScheduler does to the table when it starts a due job: a date
      job has no further run time and is removed; an interval job is kept,
      due again one period after the run it just started. */
  function AfterRun(jobs: JobTable, id: string): (r: JobTable)
    requires id in jobs && !jobs[id].Paused()
    ensures UnchangedExcept(jobs, r, {id})
    ensures jobs[id].trigger.Date? ==> id !in r
    ensures jobs[id].trigger.Interval? ==>
              id in r && r[id].kind == jobs[id].kind && r[id].trigger == jobs[id].trigger
              && r[id].nextRun == Some(jobs[id].nextRun.value + jobs[id].trigger.seconds)
  {
    var job := jobs[id];
    match job.trigger
    case Date(_) => jobs - {id}
    case Interval(s) => jobs[id := job.(nextRun := Some(job.nextRun.value + s))]
  }

  /** `after` is `before` re-registered under `id` by
      `add_job(f, 'interval', seconds=calc_new_interval_between(lo, hi), id=id,
      replace_existing=True)` at time `now`: exactly that entry is new, it is
      an unpaused interval job of `kind` whose period lies in [lo, hi], and no
      other id changed. */
  ghost predicate Rescheduled(before: JobTable, after: JobTable, id: string, kind: Kind, lo: real, hi: real, now: real)
  {
    && id in after
    && after == before[id := after[id]]
    && after[id].kind == kind
    && after[id].trigger.Interval?
    && lo <= after[id].trigger.seconds <= hi
    && after[id].nextRun == Some(now + after[id].trigger.seconds)
  }

  /** `calc_new_interval_between(x, y)`, that is `random.uniform(x, y)`,
      which computes `x + (y - x) * random()`; the draw `u` of `random()`
      in [0, 1) is a parameter. The result lies between the two bounds,
      in either order. */
  function CalcNewIntervalBetween(x: real, y: real, u: real): (d: real)
    requires 0.0 <= u < 1.0
    ensures x <= y ==> x <= d <= y
    ensures y < x ==> y <= d <= x
  {
    UniformBetween(x, y, u);
    x + Scale(y - x, u)
  }

  lemma UniformBetween(x: real, y: real, u: real)
    requires 0.0 <= u < 1.0
    ensures x <= y ==> x <= x + Scale(y - x, u) <= y
    ensures y < x ==> y <= x + Scale(y - x, u) <= x
  {
    if x <= y {
      ScaledWithin(y - x, u);
    } else {
      ScaledWithin(x - y, u);
      ScaleNegates(x - y, u);
    }
  }

  lemma ScaleNegates(a: real, u: real)
    ensures Scale(-a, u) == -Scale(a, u)
  {
  }

  function Scale(a: real, u: real): real
  {
    a * u
  }

  /** A fraction of a non-negative length stays within that length. */
  lemma ScaledWithin(a: real, u: real)
    requires 0.0 <= a && 0.0 <= u <= 1.0
    ensures 0.0 <= Scale(a, u) <= a
  {
    assert a * u + a * (1.0 - u) == a;
    assert 0.0 <= a * (1.0 - u);
  }

  /** A job as `get_jobs()` lists it. */
  datatype JobView = JobView(id: string, job: Job)

  /** The `BackgroundScheduler`'s job store. */
  class Scheduler {
    var jobs: JobTable

    constructor ()
      ensures jobs == map[]
    {
      jobs := map[];
    }

    method AddJob(id: string, job: Job, replaceExisting: bool) returns (err: Option<Error>)
      modifies this
      ensures Add(old(jobs), id, job, replaceExisting).Ok? ==>
                err.None? && jobs == Add(old(jobs), id, job, replaceExisting).value
      ensures Add(old(jobs), id, job, replaceExisting).Err? ==>
                jobs == old(jobs) && err == Some(ConflictingIdError(id))
    {
      var r := Add(jobs, id, job, replaceExisting);
      if r.Ok? {
        jobs := r.value;
        err := None;
      } else {
        err := Some(r.error);
      }
    }

    function GetJob(id: string): Option<Job>
      reads this
    {
      Lookup(jobs, id)
    }

    method RemoveJob(id: string) returns (err: Option<Error>)
      modifies this
      ensures err.None? <==> id in old(jobs)
      ensures err.None? ==> jobs == old(jobs) - {id}
      ensures err.Some? ==> jobs == old(jobs) && err.value == JobLookupError(id)
    {
      var r := Remove(jobs, id);
      if r.Ok? {
        jobs := r.value;
        err := None;
      } else {
        err := Some(r.error);
      }
    }

    method PauseJob(id: string) returns (err: Option<Error>)
      modifies this
      ensures err.None? <==> id in old(jobs)
      ensures err.None? ==> jobs == Pause(old(jobs), id).value
      ensures err.Some? ==> jobs == old(jobs) && err.value == JobLookupError(id)
    {
      var r := Pause(jobs, id);
      if r.Ok? {
        jobs := r.value;
        err := None;
      } else {
        err := Some(r.error);
      }
    }

    /** The scheduler starts the due job `id` (the body then runs as a task step). */
    method Fire(id: string)
      requires id in jobs && !jobs[id].Paused()
      modifies this
      ensures jobs == AfterRun(old(jobs), id)
    {
      jobs := AfterRun(jobs, id);
    }

    /** The re-registration each task ends with:
        `add_job(task, 'interval', seconds=calc_new_interval_between(lo, hi),
        id=f"{username}_{KIND}", replace_existing=True)`, with `u` the draw
        of `random()`. */
    method Reregister(kind: Kind, username: string, lo: real, hi: real, u: real, now: real)
      requires lo <= hi && 0.0 <= u < 1.0
      modifies this
      ensures Rescheduled(old(jobs), jobs, Key(username, kind), kind, lo, hi, now)
      ensures jobs[Key(username, kind)].trigger.seconds == CalcNewIntervalBetween(lo, hi, u)
    {
      var seconds := CalcNewIntervalBetween(lo, hi, u);
      var _ := AddJob(Key(username, kind), IntervalJob(kind, seconds, now), true);
    }

    /** `get_jobs()`: every job of the table, once each. */
    method GetJobs() returns (snapshot: seq<JobView>)
      ensures |snapshot| == |jobs|
      ensures forall i :: 0 <= i < |snapshot| ==> snapshot[i].id in jobs && jobs[snapshot[i].id] == snapshot[i].job
      ensures forall i, j :: 0 <= i < j < |snapshot| ==> snapshot[i].id != snapshot[j].id
      ensures forall id :: id in jobs ==> exists i :: 0 <= i < |snapshot| && snapshot[i].id == id
    {
      snapshot := ListJobs(jobs);
    }
  }

  /** The jobs of `table`, each once, in the order the key set is walked. */
  method ListJobs(table: JobTable) returns (snapshot: seq<JobView>)
    ensures |snapshot| == |table|
    ensures forall i :: 0 <= i < |snapshot| ==> snapshot[i].id in table && table[snapshot[i].id] == snapshot[i].job
    ensures forall i, j :: 0 <= i < j < |snapshot| ==> snapshot[i].id != snapshot[j].id
    ensures forall id :: id in table ==> exists i :: 0 <= i < |snapshot| && snapshot[i].id == id
  {
    snapshot := [];
    var rest := table.Keys;
    while rest != {}
      invariant rest <= table.Keys
      invariant |snapshot| + |rest| == |table|
      invariant Listed(table, snapshot, rest)
      decreases |rest|
    {
      var id :| id in rest;
      ListStep(table, snapshot, rest, id);
      snapshot := snapshot + [JobView(id, table[id])];
      rest := rest - {id};
    }
    assert table.Keys - rest == table.Keys;
  }

  /** `snapshot` lists, once each and with their jobs, exactly the ids of
      `table` outside `rest`. */
  ghost predicate Listed(table: JobTable, snapshot: seq<JobView>, rest: set<string>)
  {
    && (forall i :: 0 <= i < |snapshot| ==> snapshot[i].id in table.Keys - rest && table[snapshot[i].id] == snapshot[i].job)
    && (forall i, j :: 0 <= i < j < |snapshot| ==> snapshot[i].id != snapshot[j].id)
    && (forall id :: id in table.Keys - rest ==> exists i :: 0 <= i < |snapshot| && snapshot[i].id == id)
  }

  /** Listing one more id of `rest` keeps `Listed`. */
  lemma ListStep(table: JobTable, snapshot: seq<JobView>, rest: set<string>, id: string)
    requires rest <= table.Keys && id in rest && Listed(table, snapshot, rest)
    ensures Listed(table, snapshot + [JobView(id, table[id])], rest - {id})
  {
    var next := snapshot + [JobView(id, table[id])];
    forall i | 0 <= i < |next|
      ensures next[i].id in table.Keys - (rest - {id}) && table[next[i].id] == next[i].job
    {
      if i < |snapshot| {
        assert next[i] == snapshot[i];
      }
    }
    forall i, j | 0 <= i < j < |next|
      ensures next[i].id != next[j].id
    {
      assert next[i] == snapshot[i];
      if j < |snapshot| {
        assert next[j] == snapshot[j];
      }
    }
    forall k | k in table.Keys - (rest - {id})
      ensures exists i :: 0 <= i < |next| && next[i].id == k
    {
      if k == id {
        assert next[|snapshot|].id == k;
      } else {
        assert k in table.Keys - rest;
        var i :| 0 <= i < |snapshot| && snapshot[i].id == k;
        assert next[i].id == k;
      }
    }
  }

  /** The module-level `logs` dict: the latest message per job id. */
  class LogStore {
    var entries: map<string, string>

    constructor ()
      ensures entries == map[]
    {
      entries := map[];
    }

    /** `logs[id] = msg`: the message replaces whatever was logged for `id`. */
    method Write(id: string, msg: string)
      modifies this
      ensures entries == old(entries)[id := msg]
    {
      entries := entries[id := msg];
    }
  }

  /** `logs.get(id, '')` */
  function LogFor(logs: map<string, string>, id: string): (msg: string)
    ensures id in logs ==> msg == logs[id]
    ensures id !in logs ==> msg == ""
  {
    if id in logs then logs[id] else ""
  }

  /** What the status table shows for an id after `logs[id] = msg`: the new
      message for that id, and the old one for every other id. */
  lemma LogForAfterWrite(logs: map<string, string>, id: string, msg: string, other: string)
    ensures LogFor(logs[id := msg], id) == msg
    ensures other != id ==> LogFor(logs[id := msg], other) == LogFor(logs, other)
  {
  }

  /** Replacing twice under one id leaves only the second job: re-registering
      never piles up entries under a key. */
  lemma ReplaceTwiceKeepsLast(jobs: JobTable, id: string, first: Job, second: Job)
    ensures Add(Add(jobs, id, first, true).value, id, second, true) == Add(jobs, id, second, true)
  {
    assert jobs[id := first][id := second] == jobs[id := second];
  }

  /** A firing whose body does not re-register an interval job leaves it
      scheduled: it runs again one period later, never dormant. */
  lemma IntervalJobKeepsFiring(jobs: JobTable, id: string)
    requires id in jobs && !jobs[id].Paused() && jobs[id].trigger.Interval?
    requires jobs[id].trigger.seconds > 0.0
    ensures id in AfterRun(jobs, id) && !AfterRun(jobs, id)[id].Paused()
    ensures AfterRun(jobs, id)[id].nextRun.value > jobs[id].nextRun.value
  {
  }

  /** Re-registering one account's job leaves every job of another account as it was. */
  lemma RescheduleIsolatesAccounts(before: JobTable, after: JobTable, user: string, kind: Kind,
                                   lo: real, hi: real, now: real, other: string, otherKind: Kind)
    requires Rescheduled(before, after, Key(user, kind), kind, lo, hi, now)
    requires other != user
    ensures (Key(other, otherKind) in after <==> Key(other, otherKind) in before)
    ensures Key(other, otherKind) in before ==> after[Key(other, otherKind)] == before[Key(other, otherKind)]
  {
    if Key(other, otherKind) == Key(user, kind) {
      KeyInjective(other, otherKind, user, kind);
    }
  }
}
