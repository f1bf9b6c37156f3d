/** The row logic of `generate_job_scheduler_table_from`: the scheduler's
    jobs sorted by (id, countdown), and per account the rows of the jobs
    whose id contains its username, each with its countdown in whole
    seconds and its latest log message. */
module Status {
  import opened Base
  import opened Text
  import opened Jobs
  import opened Registry

  /** The countdown shown for a job that has no next run time (paused). */
  const NoCountdown: real := 999.0

  /** `999 if job.next_run_time is None else (job.next_run_time - now).total_seconds()` */
  function Countdown(job: Job, now: real): (c: real)
    ensures job.nextRun.Some? ==> c + now == job.nextRun.value
    ensures job.nextRun.None? ==> c == NoCountdown
  {
    if job.nextRun.None? then NoCountdown else job.nextRun.value - now
  }

  /** For scheduled jobs the countdowns order the jobs as their next run
      times do, and each countdown falls by the time that passes; a paused
      job keeps showing 999. */
  lemma CountdownTracksNextRun(a: Job, b: Job, now: real, later: real)
    ensures a.nextRun.Some? && b.nextRun.Some? ==>
              (Countdown(a, now) < Countdown(b, now) <==> a.nextRun.value < b.nextRun.value)
    ensures a.nextRun.Some? ==> Countdown(a, later) == Countdown(a, now) - (later - now)
    ensures a.nextRun.Some? ==> (Countdown(a, now) <= 0.0 <==> a.nextRun.value <= now)
    ensures a.nextRun.None? ==> Countdown(a, later) == Countdown(a, now) == NoCountdown
  {
  }

  /** Python's `int(x)` on a float: the integer part, truncated toward zero. */
  function Truncate(x: real): (n: int)
    ensures 0.0 <= x ==> 0 <= n && n as real <= x < n as real + 1.0
    ensures x < 0.0 ==> n <= 0 && n as real - 1.0 < x <= n as real
  {
    if x >= 0.0 then x.Floor else -((-x).Floor)
  }

  /** Truncation is odd: a countdown overdue by `x` shows as minus the
      countdown `x` ahead would. */
  lemma TruncateIsOdd(x: real)
    ensures Truncate(-x) == -Truncate(x)
  {
    if x == 0.0 {
      assert -x == 0.0;
    }
  }

  /** The sort key `(job.id, countdown)`, compared as Python compares tuples. */
  predicate KeyLess(a: JobView, b: JobView, now: real)
  {
    LexLess(a.id, b.id) || (a.id == b.id && Countdown(a.job, now) < Countdown(b.job, now))
  }

  lemma KeyLessTransitive(a: JobView, b: JobView, c: JobView, now: real)
    requires KeyLess(a, b, now) && KeyLess(b, c, now)
    ensures KeyLess(a, c, now)
  {
    if LexLess(a.id, b.id) && LexLess(b.id, c.id) {
      LexLessTransitive(a.id, b.id, c.id);
    }
  }

  /** Neither comes before the other only when both parts of the key agree. */
  lemma KeyLessTotal(a: JobView, b: JobView, now: real)
    ensures KeyLess(a, b, now) || KeyLess(b, a, now) || (a.id == b.id && Countdown(a.job, now) == Countdown(b.job, now))
  {
    if a.id != b.id {
      LexLessTotal(a.id, b.id);
    }
  }

  lemma KeyLessAsymmetric(a: JobView, b: JobView, now: real)
    requires KeyLess(a, b, now)
    ensures !KeyLess(b, a, now)
  {
    if LexLess(a.id, b.id) {
      LexLessAsymmetric(a.id, b.id);
    } else {
      LexLessIrreflexive(a.id);
    }
  }

  /** No element comes after a later one. */
  predicate SortedByKey(s: seq<JobView>, now: real)
  {
    forall i, j :: 0 <= i < j < |s| ==> !KeyLess(s[j], s[i], now)
  }

  /** Insertion that keeps equal keys in their original order. */
  function Insert(x: JobView, s: seq<JobView>, now: real): seq<JobView>
  {
    if s == [] || KeyLess(x, s[0], now) then [x] + s
    else [s[0]] + Insert(x, s[1..], now)
  }

  /** `sorted(jobs, key=...)`, as a stable insertion sort. */
  function SortJobs(jobs: seq<JobView>, now: real): seq<JobView>
  {
    if jobs == [] then [] else Insert(jobs[|jobs| - 1], SortJobs(jobs[..|jobs| - 1], now), now)
  }

  lemma {:induction false} InsertKeepsElements(x: JobView, s: seq<JobView>, now: real)
    ensures multiset(Insert(x, s, now)) == multiset(s) + multiset{x}
  {
    if s != [] && !KeyLess(x, s[0], now) {
      InsertKeepsElements(x, s[1..], now);
      assert s == [s[0]] + s[1..];
    }
  }

  lemma {:induction false} InsertKeepsOrder(x: JobView, s: seq<JobView>, now: real)
    requires SortedByKey(s, now)
    ensures SortedByKey(Insert(x, s, now), now)
    decreases |s|
  {
    if s == [] {
    } else if KeyLess(x, s[0], now) {
      InsertInFront(x, s, now);
    } else {
      assert SortedByKey(s[1..], now) by {
        forall i, j | 0 <= i < j < |s[1..]|
          ensures !KeyLess(s[1..][j], s[1..][i], now)
        {
          assert s[1..][j] == s[j + 1] && s[1..][i] == s[i + 1];
        }
      }
      InsertKeepsOrder(x, s[1..], now);
      InsertBehind(x, s, now);
    }
  }

  /** An element smaller than the head goes first, and the order holds. */
  lemma InsertInFront(x: JobView, s: seq<JobView>, now: real)
    requires SortedByKey(s, now) && s != [] && KeyLess(x, s[0], now)
    ensures SortedByKey([x] + s, now)
  {
    var r := [x] + s;
    forall i, j | 0 <= i < j < |r|
      ensures !KeyLess(r[j], r[i], now)
    {
      if i == 0 && j == 1 {
        KeyLessAsymmetric(x, s[0], now);
      } else if i == 0 {
        assert r[j] == s[j - 1];
        assert !KeyLess(s[j - 1], s[0], now);
        if KeyLess(r[j], x, now) {
          KeyLessTransitive(r[j], x, s[0], now);
        }
      } else {
        assert r[i] == s[i - 1] && r[j] == s[j - 1];
      }
    }
  }

  /** An element not smaller than the head goes behind it, and the order
      holds when it holds for the insertion into the tail. */
  lemma InsertBehind(x: JobView, s: seq<JobView>, now: real)
    requires SortedByKey(s, now) && s != [] && !KeyLess(x, s[0], now)
    requires SortedByKey(Insert(x, s[1..], now), now)
    ensures SortedByKey([s[0]] + Insert(x, s[1..], now), now)
  {
    var rest := Insert(x, s[1..], now);
    InsertKeepsElements(x, s[1..], now);
    var r := [s[0]] + rest;
    forall j | 0 < j < |r|
      ensures !KeyLess(r[j], s[0], now)
    {
      assert r[j] == rest[j - 1];
      assert r[j] in multiset(rest);
      if r[j] != x {
        assert r[j] in multiset(s[1..]);
        var k :| 0 <= k < |s[1..]| && s[1..][k] == r[j];
        assert s[k + 1] == r[j];
      }
    }
    forall i, j | 0 <= i < j < |r|
      ensures !KeyLess(r[j], r[i], now)
    {
      if i > 0 {
        assert r[i] == rest[i - 1] && r[j] == rest[j - 1];
      }
    }
  }

  /** The sort orders the jobs by key ... */
  lemma {:induction false} SortJobsIsSorted(jobs: seq<JobView>, now: real)
    ensures SortedByKey(SortJobs(jobs, now), now)
  {
    if jobs != [] {
      SortJobsIsSorted(jobs[..|jobs| - 1], now);
      InsertKeepsOrder(jobs[|jobs| - 1], SortJobs(jobs[..|jobs| - 1], now), now);
    }
  }

  /** ... and keeps every job, once. */
  lemma {:induction false} SortJobsIsPermutation(jobs: seq<JobView>, now: real)
    ensures multiset(SortJobs(jobs, now)) == multiset(jobs)
  {
    if jobs != [] {
      SortJobsIsPermutation(jobs[..|jobs| - 1], now);
      InsertKeepsElements(jobs[|jobs| - 1], SortJobs(jobs[..|jobs| - 1], now), now);
      assert jobs == jobs[..|jobs| - 1] + [jobs[|jobs| - 1]];
    }
  }

  predicate DistinctIds(s: seq<JobView>)
  {
    forall i, j :: 0 <= i < j < |s| ==> s[i].id != s[j].id
  }

  predicate IdsIncrease(s: seq<JobView>)
  {
    forall i, j :: 0 <= i < j < |s| ==> LexLess(s[i].id, s[j].id)
  }

  /** The jobs `get_jobs` returns have distinct ids, so the sorted list is
      in strictly increasing id order, whatever order they came in. */
  lemma SortedDistinctIdsIncrease(jobs: seq<JobView>, now: real)
    requires DistinctIds(jobs)
    ensures IdsIncrease(SortJobs(jobs, now))
  {
    var s := SortJobs(jobs, now);
    SortJobsIsSorted(jobs, now);
    SortJobsIsPermutation(jobs, now);
    forall i, j | 0 <= i < j < |s|
      ensures LexLess(s[i].id, s[j].id)
    {
      assert s[i].id != s[j].id by {
        DistinctAfterPermutation(jobs, s, i, j);
      }
      LexLessTotal(s[i].id, s[j].id);
    }
  }

  /** Two entries of a permutation of a list with distinct ids have distinct ids. */
  lemma DistinctAfterPermutation(jobs: seq<JobView>, s: seq<JobView>, i: nat, j: nat)
    requires DistinctIds(jobs) && multiset(s) == multiset(jobs)
    requires i < j < |s|
    ensures s[i].id != s[j].id
  {
    assert s[i] in multiset(s) && s[j] in multiset(s);
    var p :| 0 <= p < |jobs| && jobs[p] == s[i];
    var q :| 0 <= q < |jobs| && jobs[q] == s[j];
    OnlyOnce(jobs, p);
    CountTwo(s, i, j);
    assert p != q;
    assert p < q || q < p;
  }

  /** Entries `i` and `j` both count towards the multiplicity of entry `i`. */
  lemma CountTwo(s: seq<JobView>, i: nat, j: nat)
    requires i < j < |s|
    ensures multiset(s)[s[i]] >= if s[j] == s[i] then 2 else 1
  {
    assert s == s[..i] + [s[i]] + s[i + 1..j] + [s[j]] + s[j + 1..];
  }

  /** In a list with distinct ids an entry occurs once. */
  lemma OnlyOnce(jobs: seq<JobView>, p: nat)
    requires DistinctIds(jobs) && p < |jobs|
    ensures multiset(jobs)[jobs[p]] == 1
  {
    var x := jobs[p];
    var head, tail := jobs[..p], jobs[p + 1..];
    assert jobs == head + [x] + tail;
    forall k | 0 <= k < |head|
      ensures head[k] != x
    {
      assert head[k] == jobs[k];
    }
    forall k | 0 <= k < |tail|
      ensures tail[k] != x
    {
      assert tail[k] == jobs[p + 1 + k];
    }
    assert x !in multiset(head);
    assert x !in multiset(tail);
  }

  /** One table row: the id, the next run time, `int(countdown)` and
      `logs.get(job.id, '')`. */
  datatype StatusRow = StatusRow(id: string, nextRun: Option<real>, countdown: int, log: string)

  function RowOf(v: JobView, logs: map<string, string>, now: real): StatusRow
  {
    StatusRow(v.id, v.job.nextRun, Truncate(Countdown(v.job, now)), LogFor(logs, v.id))
  }

  /** The rows of the account with username `user`, in the order of `sorted`. */
  function AccountRows(sorted: seq<JobView>, user: string, logs: map<string, string>, now: real): seq<StatusRow>
  {
    if sorted == [] then []
    else
      var last := sorted[|sorted| - 1];
      AccountRows(sorted[..|sorted| - 1], user, logs, now)
      + (if Contains(last.id, user) then [RowOf(last, logs, now)] else [])
  }

  /** Every row of an account comes from one of its jobs ... */
  lemma {:induction false} AccountRowsComeFromItsJobs(sorted: seq<JobView>, user: string,
                                                      logs: map<string, string>, now: real, i: nat)
    requires i < |AccountRows(sorted, user, logs, now)|
    ensures exists k :: 0 <= k < |sorted| && Contains(sorted[k].id, user)
                        && AccountRows(sorted, user, logs, now)[i] == RowOf(sorted[k], logs, now)
    decreases |sorted|
  {
    var n := |sorted| - 1;
    var init := sorted[..n];
    var prev := AccountRows(init, user, logs, now);
    if i < |prev| {
      AccountRowsComeFromItsJobs(init, user, logs, now, i);
      var k :| 0 <= k < |init| && Contains(init[k].id, user) && prev[i] == RowOf(init[k], logs, now);
      assert init[k] == sorted[k];
    } else {
      assert AccountRows(sorted, user, logs, now)[i] == RowOf(sorted[n], logs, now);
    }
  }

  /** ... and every job of the account has its row ... */
  lemma {:induction false} AccountJobsHaveRows(sorted: seq<JobView>, user: string,
                                               logs: map<string, string>, now: real, k: nat)
    requires k < |sorted| && Contains(sorted[k].id, user)
    ensures exists i :: 0 <= i < |AccountRows(sorted, user, logs, now)|
                        && AccountRows(sorted, user, logs, now)[i] == RowOf(sorted[k], logs, now)
    decreases |sorted|
  {
    var n := |sorted| - 1;
    var init := sorted[..n];
    var prev := AccountRows(init, user, logs, now);
    var rows := AccountRows(sorted, user, logs, now);
    assert rows[..|prev|] == prev;
    if k < n {
      assert init[k] == sorted[k];
      AccountJobsHaveRows(init, user, logs, now, k);
      var i :| 0 <= i < |prev| && prev[i] == RowOf(init[k], logs, now);
      assert rows[i] == prev[i];
    } else {
      assert rows[|prev|] == RowOf(sorted[k], logs, now);
    }
  }

  /** ... in the id order of the list. */
  lemma {:induction false} AccountRowsIncrease(sorted: seq<JobView>, user: string, logs: map<string, string>, now: real)
    requires IdsIncrease(sorted)
    ensures var rows := AccountRows(sorted, user, logs, now);
            forall i, j :: 0 <= i < j < |rows| ==> LexLess(rows[i].id, rows[j].id)
    decreases |sorted|
  {
    if sorted != [] {
      var n := |sorted| - 1;
      var init := sorted[..n];
      assert IdsIncrease(init) by {
        forall i, j | 0 <= i < j < |init|
          ensures LexLess(init[i].id, init[j].id)
        {
          assert init[i] == sorted[i] && init[j] == sorted[j];
        }
      }
      AccountRowsIncrease(init, user, logs, now);
      var prev := AccountRows(init, user, logs, now);
      var rows := AccountRows(sorted, user, logs, now);
      forall i | 0 <= i < |prev|
        ensures LexLess(prev[i].id, sorted[n].id)
      {
        AccountRowsComeFromItsJobs(init, user, logs, now, i);
        var k :| 0 <= k < |init| && Contains(init[k].id, user) && prev[i] == RowOf(init[k], logs, now);
        assert init[k] == sorted[k];
      }
      forall i, j | 0 <= i < j < |rows|
        ensures LexLess(rows[i].id, rows[j].id)
      {
        assert rows[i] == prev[i];
        if j < |prev| {
          assert rows[j] == prev[j];
        } else {
          assert rows[j].id == sorted[n].id;
        }
      }
    }
  }

  /** The row loop for one account: a row per sorted job whose id contains
      the username. */
  method AccountTable(sorted: seq<JobView>, user: string, logs: map<string, string>, now: real)
    returns (rows: seq<StatusRow>)
    ensures rows == AccountRows(sorted, user, logs, now)
  {
    rows := [];
    for k := 0 to |sorted|
      invariant rows == AccountRows(sorted[..k], user, logs, now)
    {
      assert sorted[..k + 1][..k] == sorted[..k];
      var job := sorted[k];
      if Contains(job.id, user) {
        rows := rows + [RowOf(job, logs, now)];
      }
    }
    assert sorted[..|sorted|] == sorted;
  }

  /** `rows` is the table of the account with username `user`: exactly
      the jobs whose id contains the username, in increasing id order,
      each row read from its job and the logs. */
  ghost predicate IsAccountTable(jobs: JobTable, rows: seq<StatusRow>, user: string, logs: map<string, string>, now: real)
  {
    && (forall i, j :: 0 <= i < j < |rows| ==> LexLess(rows[i].id, rows[j].id))
    && (forall i :: 0 <= i < |rows| ==>
          (&& rows[i].id in jobs && Contains(rows[i].id, user)
           && rows[i] == RowOf(JobView(rows[i].id, jobs[rows[i].id]), logs, now)))
    && (forall id :: id in jobs && Contains(id, user) ==> exists i :: 0 <= i < |rows| && rows[i].id == id)
  }

  /** The filter is a substring test, so the table of `user` also lists
      the jobs of every account whose username starts with `user`: the
      table of "bob" shows the jobs of "bobby". */
  lemma LongerNameJobsShowUp(jobs: JobTable, rows: seq<StatusRow>, user: string, logs: map<string, string>,
                             now: real, other: string, k: Kind)
    requires IsAccountTable(jobs, rows, user, logs, now)
    requires user <= other && Key(other, k) in jobs
    ensures exists i :: 0 <= i < |rows| && rows[i].id == Key(other, k)
  {
    assert user <= Key(other, k) by {
      assert Key(other, k)[..|user|] == other[..|user|];
    }
  }

  /** `s` lists each job of `table` with its own job, and every job of
      `table` appears in it. */
  ghost predicate Lists(table: JobTable, s: seq<JobView>)
  {
    && (forall k :: 0 <= k < |s| ==> s[k].id in table && table[s[k].id] == s[k].job)
    && (forall id :: id in table ==> exists k :: 0 <= k < |s| && s[k].id == id)
  }

  /** `generate_job_scheduler_table_from`: one table per account. */
  method GenerateJobSchedulerTable(sched: Scheduler, logs: LogStore, usernames: seq<string>, now: real)
    returns (tables: seq<seq<StatusRow>>)
    ensures |tables| == |usernames|
    ensures forall a :: 0 <= a < |tables| ==> IsAccountTable(sched.jobs, tables[a], usernames[a], logs.entries, now)
  {
    var jobs := sched.GetJobs();
    assert Lists(sched.jobs, jobs) && DistinctIds(jobs);
    SortedSnapshot(sched.jobs, jobs, now);
    var sorted := SortJobs(jobs, now);
    tables := AccountTables(sorted, usernames, logs.entries, now);
    TablesOfAccounts(sched.jobs, sorted, usernames, tables, logs.entries, now);
  }

  /** The account loop: the rows of each account in turn. */
  method AccountTables(sorted: seq<JobView>, usernames: seq<string>, logs: map<string, string>, now: real)
    returns (tables: seq<seq<StatusRow>>)
    ensures |tables| == |usernames|
    ensures forall b :: 0 <= b < |tables| ==> tables[b] == AccountRows(sorted, usernames[b], logs, now)
  {
    tables := [];
    for a := 0 to |usernames|
      invariant |tables| == a
      invariant forall b :: 0 <= b < a ==> tables[b] == AccountRows(sorted, usernames[b], logs, now)
    {
      var rows := AccountTable(sorted, usernames[a], logs, now);
      tables := tables + [rows];
    }
  }

  /** Every table built from the sorted list is its account's table. */
  lemma TablesOfAccounts(jobs: JobTable, sorted: seq<JobView>, usernames: seq<string>, tables: seq<seq<StatusRow>>,
                         logs: map<string, string>, now: real)
    requires IdsIncrease(sorted)
    requires Lists(jobs, sorted)
    requires |tables| == |usernames|
    requires forall b :: 0 <= b < |tables| ==> tables[b] == AccountRows(sorted, usernames[b], logs, now)
    ensures forall a :: 0 <= a < |tables| ==> IsAccountTable(jobs, tables[a], usernames[a], logs, now)
  {
    forall a | 0 <= a < |tables|
      ensures IsAccountTable(jobs, tables[a], usernames[a], logs, now)
    {
      TableOfAccount(jobs, sorted, usernames[a], logs, now);
    }
  }

  /** The rows of one account, read back against the job table. */
  lemma TableOfAccount(jobs: JobTable, sorted: seq<JobView>, user: string, logs: map<string, string>, now: real)
    requires IdsIncrease(sorted)
    requires Lists(jobs, sorted)
    ensures IsAccountTable(jobs, AccountRows(sorted, user, logs, now), user, logs, now)
  {
    var rows := AccountRows(sorted, user, logs, now);
    AccountRowsIncrease(sorted, user, logs, now);
    forall i | 0 <= i < |rows|
      ensures rows[i].id in jobs && Contains(rows[i].id, user)
      ensures rows[i] == RowOf(JobView(rows[i].id, jobs[rows[i].id]), logs, now)
    {
      AccountRowsComeFromItsJobs(sorted, user, logs, now, i);
      var k :| 0 <= k < |sorted| && Contains(sorted[k].id, user) && rows[i] == RowOf(sorted[k], logs, now);
      assert sorted[k] == JobView(sorted[k].id, jobs[sorted[k].id]);
    }
    forall id | id in jobs && Contains(id, user)
      ensures exists i :: 0 <= i < |rows| && rows[i].id == id
    {
      var k :| 0 <= k < |sorted| && sorted[k].id == id;
      AccountJobsHaveRows(sorted, user, logs, now, k);
      var i :| 0 <= i < |rows| && rows[i] == RowOf(sorted[k], logs, now);
    }
  }

  /** The sorted `get_jobs()` list lists the table once, in increasing id order. */
  lemma SortedSnapshot(table: JobTable, jobs: seq<JobView>, now: real)
    requires Lists(table, jobs) && DistinctIds(jobs)
    ensures Lists(table, SortJobs(jobs, now)) && IdsIncrease(SortJobs(jobs, now))
  {
    var sorted := SortJobs(jobs, now);
    SortedDistinctIdsIncrease(jobs, now);
    SortJobsIsPermutation(jobs, now);
    forall k | 0 <= k < |sorted|
      ensures sorted[k].id in table && table[sorted[k].id] == sorted[k].job
    {
      assert sorted[k] in multiset(jobs);
    }
    forall id | id in table
      ensures exists k :: 0 <= k < |sorted| && sorted[k].id == id
    {
      var p :| 0 <= p < |jobs| && jobs[p].id == id;
      assert jobs[p] in multiset(sorted);
    }
  }
}
