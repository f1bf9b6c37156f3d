/** The startup block: for every account, the Gold Club check without a
    scheduler, then one interval job per enabled task, each added without
    `replace_existing`, so that an id already taken raises
    `ConflictingIdError` and ends the startup. */
module Startup {
  import opened Base
  import opened Text
  import opened Jobs
  import opened Registry
  import opened Tasks

  /** The columns of an account's row in the accounts sheet that startup reads. */
  datatype Account = Account(username: string, accountType: string, upgradeFields: bool, trainTroops: bool, raid: bool)

  /** An account together with what its Rally Point shows: whether the
      farm-list tab is there (Gold Club). */
  datatype Login = Login(account: Account, farmListButton: bool)

  /** The jobs startup adds for an account, in order, with their first
      interval in seconds. */
  function StartupPlan(acct: Account, goldClub: bool): seq<(Kind, real)>
  {
    PlanFor(acct.upgradeFields, Lower(acct.accountType) == "enforcer" && acct.trainTroops, goldClub && acct.raid)
  }

  /** The plan, given whether fields are upgraded, troops trained and farms raided. */
  function PlanFor(fields: bool, troops: bool, raids: bool): seq<(Kind, real)>
  {
    [(Adventures, 7.0), (HeroUpgrade, 14.0), (Kind.CollectMissionResources, 21.0),
     (CollectDailyQuestRewards, 28.0), (CheckForIncomingAttacks, 35.0)]
    + (if fields then [(ResourceFields, 42.0)] else [])
    + (if troops then [(Kind.TrainTroops, 70.0)] else [])
    + (if raids then [(Raids, 90.0)] else [])
    + [(Refresh, 600.0)]
  }

  /** Which tasks an account gets at startup, kind by kind: six always,
      three depending on its flags, and never the Gold Club check or the
      spending job. */
  predicate Registered(acct: Account, goldClub: bool, k: Kind)
  {
    match k
    case Adventures => true
    case HeroUpgrade => true
    case CollectMissionResources => true
    case CollectDailyQuestRewards => true
    case CheckForIncomingAttacks => true
    case Refresh => true
    case ResourceFields => acct.upgradeFields
    case TrainTroops => Lower(acct.accountType) == "enforcer" && acct.trainTroops
    case Raids => goldClub && acct.raid
    case GoldClubCheck => false
    case SpendAllResources => false
  }

  predicate InPlan(plan: seq<(Kind, real)>, k: Kind)
  {
    exists i :: 0 <= i < |plan| && plan[i].0 == k
  }

  predicate DistinctKinds(plan: seq<(Kind, real)>)
  {
    forall i, j :: 0 <= i < j < |plan| ==> plan[i].0 != plan[j].0
  }

  /** The plan holds exactly the registered kinds, each once. */
  lemma StartupPlanKinds(acct: Account, goldClub: bool, k: Kind)
    ensures InPlan(StartupPlan(acct, goldClub), k) <==> Registered(acct, goldClub, k)
    ensures DistinctKinds(StartupPlan(acct, goldClub))
  {
    var fields, troops, raids := acct.upgradeFields, Lower(acct.accountType) == "enforcer" && acct.trainTroops, goldClub && acct.raid;
    PlanForKinds(fields, troops, raids, k);
    PlanForDistinct(fields, troops, raids);
  }

  const AlwaysPlanned: seq<(Kind, real)> :=
    [(Adventures, 7.0), (HeroUpgrade, 14.0), (Kind.CollectMissionResources, 21.0),
     (CollectDailyQuestRewards, 28.0), (CheckForIncomingAttacks, 35.0)]

  lemma PlanForKinds(fields: bool, troops: bool, raids: bool, k: Kind)
    ensures InPlan(PlanFor(fields, troops, raids), k) <==>
              match k
              case ResourceFields => fields
              case TrainTroops => troops
              case Raids => raids
              case GoldClubCheck => false
              case SpendAllResources => false
              case _ => true
  {
    var base := AlwaysPlanned;
    var f := if fields then [(ResourceFields, 42.0)] else [];
    var t := if troops then [(Kind.TrainTroops, 70.0)] else [];
    var r := if raids then [(Raids, 90.0)] else [];
    var last := [(Refresh, 600.0)];
    assert PlanFor(fields, troops, raids) == base + f + t + r + last;
    AppendKinds(base, f);
    AppendKinds(base + f, t);
    AppendKinds(base + f + t, r);
    AppendKinds(base + f + t + r, last);
    BaseKinds(k);
    OneKind(f, k);
    OneKind(t, k);
    OneKind(r, k);
    OneKind(last, k);
  }

  lemma BaseKinds(k: Kind)
    ensures InPlan(AlwaysPlanned, k) <==> k.Adventures? || k.HeroUpgrade? || k.CollectMissionResources?
                                          || k.CollectDailyQuestRewards? || k.CheckForIncomingAttacks?
  {
    var p := AlwaysPlanned;
    match k
    case Adventures => assert p[0].0 == k;
    case HeroUpgrade => assert p[1].0 == k;
    case CollectMissionResources => assert p[2].0 == k;
    case CollectDailyQuestRewards => assert p[3].0 == k;
    case CheckForIncomingAttacks => assert p[4].0 == k;
    case _ =>
  }

  lemma OneKind(p: seq<(Kind, real)>, k: Kind)
    requires |p| <= 1
    ensures InPlan(p, k) <==> |p| == 1 && p[0].0 == k
  {
    if |p| == 1 && p[0].0 == k {
      assert p[0].0 == k;
    }
  }

  lemma PlanForDistinct(fields: bool, troops: bool, raids: bool)
    ensures DistinctKinds(PlanFor(fields, troops, raids))
  {
    PlanForRanks(fields, troops, raids);
    RanksDistinct(PlanFor(fields, troops, raids), 0, 9);
  }

  lemma PlanForRanks(fields: bool, troops: bool, raids: bool)
    ensures RanksIn(PlanFor(fields, troops, raids), 0, 9)
  {
    var base := AlwaysPlanned;
    var f := if fields then [(ResourceFields, 42.0)] else [];
    var t := if troops then [(Kind.TrainTroops, 70.0)] else [];
    var r := if raids then [(Raids, 90.0)] else [];
    var last := [(Refresh, 600.0)];
    assert PlanFor(fields, troops, raids) == base + f + t + r + last;
    BaseRanks();
    AppendRanks(base, f, 0, 5, 6);
    AppendRanks(base + f, t, 0, 6, 7);
    AppendRanks(base + f + t, r, 0, 7, 8);
    AppendRanks(base + f + t + r, last, 0, 8, 9);
  }

  /** Kinds of different rank differ. */
  lemma RanksDistinct(p: seq<(Kind, real)>, lo: nat, hi: nat)
    requires RanksIn(p, lo, hi)
    ensures DistinctKinds(p)
  {
    forall i, j | 0 <= i < j < |p|
      ensures p[i].0 != p[j].0
    {
      assert Rank(p[i].0) < Rank(p[j].0);
    }
  }

  /** The position of a kind in startup's order. */
  function Rank(k: Kind): nat
  {
    match k
    case Adventures => 0
    case HeroUpgrade => 1
    case CollectMissionResources => 2
    case CollectDailyQuestRewards => 3
    case CheckForIncomingAttacks => 4
    case ResourceFields => 5
    case TrainTroops => 6
    case Raids => 7
    case Refresh => 8
    case GoldClubCheck => 9
    case SpendAllResources => 10
  }

  lemma BaseRanks()
    ensures RanksIn(AlwaysPlanned, 0, 5)
  {
    assert forall i :: 0 <= i < 5 ==> Rank(AlwaysPlanned[i].0) == i;
  }

  /** The ranks of `p` increase strictly and lie in `[lo, hi)`. */
  predicate RanksIn(p: seq<(Kind, real)>, lo: nat, hi: nat)
  {
    && (forall i :: 0 <= i < |p| ==> lo <= Rank(p[i].0) < hi)
    && (forall i, j :: 0 <= i < j < |p| ==> Rank(p[i].0) < Rank(p[j].0))
  }

  lemma AppendRanks(a: seq<(Kind, real)>, b: seq<(Kind, real)>, lo: nat, mid: nat, hi: nat)
    requires lo <= mid <= hi
    requires RanksIn(a, lo, mid) && RanksIn(b, mid, hi)
    ensures RanksIn(a + b, lo, hi)
  {
    var ab := a + b;
    forall i | 0 <= i < |ab|
      ensures lo <= Rank(ab[i].0) < hi
    {
      if i < |a| {
        assert ab[i] == a[i];
      } else {
        assert ab[i] == b[i - |a|];
      }
    }
    forall i, j | 0 <= i < j < |ab|
      ensures Rank(ab[i].0) < Rank(ab[j].0)
    {
      if j < |a| {
        assert ab[i] == a[i] && ab[j] == a[j];
      } else if i >= |a| {
        assert ab[i] == b[i - |a|] && ab[j] == b[j - |a|];
      } else {
        assert ab[i] == a[i] && ab[j] == b[j - |a|];
      }
    }
  }

  /** Appending keeps the kinds of both parts. */
  lemma AppendKinds(a: seq<(Kind, real)>, b: seq<(Kind, real)>)
    ensures forall k :: InPlan(a + b, k) <==> InPlan(a, k) || InPlan(b, k)
  {
    forall k
      ensures InPlan(a + b, k) <==> InPlan(a, k) || InPlan(b, k)
    {
      if InPlan(a + b, k) {
        var i :| 0 <= i < |a + b| && (a + b)[i].0 == k;
        if i >= |a| {
          assert b[i - |a|] == (a + b)[i];
        }
      }
      if InPlan(a, k) {
        var i :| 0 <= i < |a| && a[i].0 == k;
        assert (a + b)[i] == a[i];
      }
      if InPlan(b, k) {
        var i :| 0 <= i < |b| && b[i].0 == k;
        assert (a + b)[|a| + i] == b[i];
      }
    }
  }

  /** The `add_job` calls for one account, in plan order, without
      replacing: the table after them, and the error that stopped them. */
  function RegisterPlan(jobs: JobTable, user: string, plan: seq<(Kind, real)>, now: real): (JobTable, Option<Error>)
    decreases |plan|
  {
    if plan == [] then (jobs, None)
    else
      match Add(jobs, Key(user, plan[0].0), IntervalJob(plan[0].0, plan[0].1, now), false)
      case Err(e) => (jobs, Some(e))
      case Ok(next) => RegisterPlan(next, user, plan[1..], now)
  }

  /** Whether `key` is the id of one of the plan's jobs for `user`. */
  predicate PlanKey(user: string, plan: seq<(Kind, real)>, key: string)
  {
    exists i :: 0 <= i < |plan| && key == Key(user, plan[i].0)
  }

  /** When none of the plan's ids is taken, every job of the plan is added,
      as an interval job due one interval from now, and nothing else changes. */
  lemma {:induction false} RegisterPlanSucceeds(jobs: JobTable, user: string, plan: seq<(Kind, real)>, now: real)
    requires DistinctKinds(plan)
    requires forall i :: 0 <= i < |plan| ==> Key(user, plan[i].0) !in jobs
    ensures RegisterPlan(jobs, user, plan, now).1 == None
    ensures var after := RegisterPlan(jobs, user, plan, now).0;
            forall key :: key in after <==> key in jobs || PlanKey(user, plan, key)
    ensures var after := RegisterPlan(jobs, user, plan, now).0;
            forall key :: key in jobs ==> key in after && after[key] == jobs[key]
    ensures var after := RegisterPlan(jobs, user, plan, now).0;
            forall i :: 0 <= i < |plan| ==>
              Key(user, plan[i].0) in after && after[Key(user, plan[i].0)] == IntervalJob(plan[i].0, plan[i].1, now)
    decreases |plan|
  {
    if plan != [] {
      var key := Key(user, plan[0].0);
      var next := jobs[key := IntervalJob(plan[0].0, plan[0].1, now)];
      var rest := plan[1..];
      RestIsFree(jobs, user, plan, now);
      RegisterPlanSucceeds(next, user, rest, now);
      var after := RegisterPlan(jobs, user, plan, now).0;
      assert after == RegisterPlan(next, user, rest, now).0;
      forall k
        ensures k in after <==> k in jobs || PlanKey(user, plan, k)
      {
        PlanKeySplits(user, plan, k);
      }
      forall i | 0 <= i < |plan|
        ensures Key(user, plan[i].0) in after && after[Key(user, plan[i].0)] == IntervalJob(plan[i].0, plan[i].1, now)
      {
        if i > 0 {
          assert rest[i - 1] == plan[i];
        }
      }
    }
  }

  /** After the first addition, the rest of the plan still finds its ids free. */
  lemma RestIsFree(jobs: JobTable, user: string, plan: seq<(Kind, real)>, now: real)
    requires plan != [] && DistinctKinds(plan)
    requires forall i :: 0 <= i < |plan| ==> Key(user, plan[i].0) !in jobs
    ensures var next := jobs[Key(user, plan[0].0) := IntervalJob(plan[0].0, plan[0].1, now)];
            forall i :: 0 <= i < |plan[1..]| ==> Key(user, plan[1..][i].0) !in next
    ensures DistinctKinds(plan[1..])
  {
    var key := Key(user, plan[0].0);
    var next := jobs[key := IntervalJob(plan[0].0, plan[0].1, now)];
    var rest := plan[1..];
    forall i | 0 <= i < |rest|
      ensures Key(user, rest[i].0) !in next
    {
      assert rest[i] == plan[i + 1];
      if Key(user, rest[i].0) == key {
        KeyInjective(user, rest[i].0, user, plan[0].0);
      }
    }
    forall i, j | 0 <= i < j < |rest|
      ensures rest[i].0 != rest[j].0
    {
      assert rest[i] == plan[i + 1] && rest[j] == plan[j + 1];
    }
  }

  /** A key of the plan is the first entry's, or a key of the rest. */
  lemma PlanKeySplits(user: string, plan: seq<(Kind, real)>, k: string)
    requires plan != []
    ensures PlanKey(user, plan, k) <==> k == Key(user, plan[0].0) || PlanKey(user, plan[1..], k)
  {
    var rest := plan[1..];
    if PlanKey(user, rest, k) {
      var i :| 0 <= i < |rest| && k == Key(user, rest[i].0);
      assert plan[i + 1] == rest[i];
    }
    if PlanKey(user, plan, k) && k != Key(user, plan[0].0) {
      var i :| 0 <= i < |plan| && k == Key(user, plan[i].0);
      assert i > 0;
      assert rest[i - 1] == plan[i];
    }
  }

  /** An id of the plan that is already taken stops the additions with
      `ConflictingIdError` for one of the plan's ids. */
  lemma {:induction false} RegisterPlanConflicts(jobs: JobTable, user: string, plan: seq<(Kind, real)>, now: real, i: nat)
    requires i < |plan| && Key(user, plan[i].0) in jobs
    ensures var err := RegisterPlan(jobs, user, plan, now).1;
            err.Some? && err.value.ConflictingIdError? && PlanKey(user, plan, err.value.id)
    decreases |plan|
  {
    var key := Key(user, plan[0].0);
    if key !in jobs {
      var next := jobs[key := IntervalJob(plan[0].0, plan[0].1, now)];
      assert i > 0;
      assert plan[1..][i - 1] == plan[i];
      RegisterPlanConflicts(next, user, plan[1..], now, i - 1);
      var err := RegisterPlan(next, user, plan[1..], now).1;
      var j :| 0 <= j < |plan[1..]| && err.value.id == Key(user, plan[1..][j].0);
      assert plan[1..][j] == plan[j + 1];
    }
  }

  /** Where startup has got to: the job table, the logs, and whether an
      `add_job` raised. */
  datatype Boot = Boot(jobs: JobTable, logs: map<string, string>, outcome: Completion)

  /** One account: the Gold Club check (which logs when the account has no
      Gold Club), then its plan. */
  function AccountStep(jobs: JobTable, logs: map<string, string>, login: Login, now: real): Boot
  {
    var user := login.account.username;
    var member := login.farmListButton;
    var logged := if member then logs else logs[Key(user, GoldClubCheck) := GoldClubMsg][Key(user, Raids) := GoldClubMsg];
    var (after, err) := RegisterPlan(jobs, user, StartupPlan(login.account, member), now);
    Boot(after, logged, if err.None? then Normal else Raised(err.value))
  }

  /** The whole startup loop over the accounts, stopping at the first raise. */
  function StartAll(jobs: JobTable, logs: map<string, string>, logins: seq<Login>, now: real): Boot
    decreases |logins|
  {
    if logins == [] then Boot(jobs, logs, Normal)
    else
      var b := AccountStep(jobs, logs, logins[0], now);
      if b.outcome.Raised? then b else StartAll(b.jobs, b.logs, logins[1..], now)
  }

  /** The id of a job startup registers for one of the accounts. */
  predicate StartupKey(logins: seq<Login>, key: string)
  {
    exists a, k :: 0 <= a < |logins| && Registered(logins[a].account, logins[a].farmListButton, k)
                   && key == Key(logins[a].account.username, k)
  }

  predicate DistinctUsers(logins: seq<Login>)
  {
    forall a, b :: 0 <= a < b < |logins| ==> logins[a].account.username != logins[b].account.username
  }

  /** No job of the table belongs to one of the accounts. */
  predicate NoneOfTheirs(jobs: JobTable, logins: seq<Login>)
  {
    forall a, k :: 0 <= a < |logins| ==> Key(logins[a].account.username, k) !in jobs
  }

  /** With distinct usernames and none of their ids taken, startup never
      raises, and it adds exactly the registered jobs of every account. */
  lemma {:induction false} StartupSucceeds(jobs: JobTable, logs: map<string, string>, logins: seq<Login>, now: real)
    requires DistinctUsers(logins) && NoneOfTheirs(jobs, logins)
    ensures StartAll(jobs, logs, logins, now).outcome == Normal
    ensures forall key :: key in StartAll(jobs, logs, logins, now).jobs <==> key in jobs || StartupKey(logins, key)
    decreases |logins|
  {
    if logins != [] {
      var b := AccountStep(jobs, logs, logins[0], now);
      FirstAccountRegisters(jobs, logs, logins, now);
      AfterFirstAccount(jobs, logins, b.jobs, now);
      StartupSucceeds(b.jobs, b.logs, logins[1..], now);
      assert StartAll(jobs, logs, logins, now) == StartAll(b.jobs, b.logs, logins[1..], now);
      forall key
        ensures key in StartAll(jobs, logs, logins, now).jobs <==> key in jobs || StartupKey(logins, key)
      {
        PlanKeyIsStartupKey(logins, key);
        StartupKeySplits(logins, key);
      }
    }
  }

  /** The first account's step adds its plan and raises nothing. */
  lemma FirstAccountRegisters(jobs: JobTable, logs: map<string, string>, logins: seq<Login>, now: real)
    requires |logins| > 0 && NoneOfTheirs(jobs, logins)
    ensures var b := AccountStep(jobs, logs, logins[0], now);
            && b.outcome == Normal
            && forall key :: key in b.jobs <==> (key in jobs
                 || PlanKey(logins[0].account.username, StartupPlan(logins[0].account, logins[0].farmListButton), key))
  {
    var acct := logins[0].account;
    var member := logins[0].farmListButton;
    var user := acct.username;
    var plan := StartupPlan(acct, member);
    StartupPlanKinds(acct, member, Adventures);
    forall i | 0 <= i < |plan|
      ensures Key(user, plan[i].0) !in jobs
    {
      assert Key(logins[0].account.username, plan[i].0) !in jobs;
    }
    RegisterPlanSucceeds(jobs, user, plan, now);
  }

  /** The accounts after the first are not touched by its jobs. */
  lemma AfterFirstAccount(jobs: JobTable, logins: seq<Login>, after: JobTable, now: real)
    requires |logins| > 0 && DistinctUsers(logins) && NoneOfTheirs(jobs, logins)
    requires forall key :: key in after <==> (key in jobs
               || PlanKey(logins[0].account.username, StartupPlan(logins[0].account, logins[0].farmListButton), key))
    ensures DistinctUsers(logins[1..]) && NoneOfTheirs(after, logins[1..])
  {
    var rest := logins[1..];
    forall a, k | 0 <= a < |rest|
      ensures Key(rest[a].account.username, k) !in after
    {
      assert rest[a] == logins[a + 1];
      var plan := StartupPlan(logins[0].account, logins[0].farmListButton);
      if PlanKey(logins[0].account.username, plan, Key(rest[a].account.username, k)) {
        var i :| 0 <= i < |plan| && Key(rest[a].account.username, k) == Key(logins[0].account.username, plan[i].0);
        KeyInjective(rest[a].account.username, k, logins[0].account.username, plan[i].0);
      }
    }
    forall a, b | 0 <= a < b < |rest|
      ensures rest[a].account.username != rest[b].account.username
    {
      assert rest[a] == logins[a + 1] && rest[b] == logins[b + 1];
    }
  }

  /** A plan id of the first account is a startup id. */
  lemma PlanKeyIsStartupKey(logins: seq<Login>, key: string)
    requires |logins| > 0
    ensures PlanKey(logins[0].account.username, StartupPlan(logins[0].account, logins[0].farmListButton), key)
            <==> exists k :: Registered(logins[0].account, logins[0].farmListButton, k) && key == Key(logins[0].account.username, k)
  {
    var plan := StartupPlan(logins[0].account, logins[0].farmListButton);
    if PlanKey(logins[0].account.username, plan, key) {
      var i :| 0 <= i < |plan| && key == Key(logins[0].account.username, plan[i].0);
      StartupPlanKinds(logins[0].account, logins[0].farmListButton, plan[i].0);
    }
    if exists k :: Registered(logins[0].account, logins[0].farmListButton, k) && key == Key(logins[0].account.username, k) {
      var k :| Registered(logins[0].account, logins[0].farmListButton, k) && key == Key(logins[0].account.username, k);
      StartupPlanKinds(logins[0].account, logins[0].farmListButton, k);
      var i :| 0 <= i < |plan| && plan[i].0 == k;
    }
  }

  /** A startup id belongs to the first account or to one of the others. */
  lemma StartupKeySplits(logins: seq<Login>, key: string)
    requires |logins| > 0
    ensures StartupKey(logins, key) <==>
              (exists k :: Registered(logins[0].account, logins[0].farmListButton, k) && key == Key(logins[0].account.username, k))
              || StartupKey(logins[1..], key)
  {
    var rest := logins[1..];
    if StartupKey(logins, key) {
      var a, k :| 0 <= a < |logins| && Registered(logins[a].account, logins[a].farmListButton, k)
                  && key == Key(logins[a].account.username, k);
      if a > 0 {
        assert rest[a - 1] == logins[a];
      }
    }
    if StartupKey(rest, key) {
      var a, k :| 0 <= a < |rest| && Registered(rest[a].account, rest[a].farmListButton, k)
                  && key == Key(rest[a].account.username, k);
      assert rest[a] == logins[a + 1];
    }
  }

  /** On the fresh scheduler startup begins with, distinct usernames are
      enough for it to succeed. */
  lemma FreshStartupSucceeds(logs: map<string, string>, logins: seq<Login>, now: real)
    requires DistinctUsers(logins)
    ensures StartAll(map[], logs, logins, now).outcome == Normal
    ensures forall key :: key in StartAll(map[], logs, logins, now).jobs <==> StartupKey(logins, key)
  {
    StartupSucceeds(map[], logs, logins, now);
  }

  /** The `add_job` calls of one account's plan, in order. */
  method RegisterPlanJobs(sched: Scheduler, user: string, plan: seq<(Kind, real)>, now: real) returns (err: Option<Error>)
    modifies sched
    ensures (sched.jobs, err) == RegisterPlan(old(sched.jobs), user, plan, now)
  {
    for i := 0 to |plan|
      invariant RegisterPlan(old(sched.jobs), user, plan, now) == RegisterPlan(sched.jobs, user, plan[i..], now)
    {
      assert plan[i..][1..] == plan[i + 1..];
      var kind := plan[i].0;
      err := sched.AddJob(Key(user, kind), IntervalJob(kind, plan[i].1, now), false);
      if err.Some? {
        return;
      }
    }
    err := None;
  }

  /** The startup loop over the logged-in accounts. */
  method StartScheduler(sched: Scheduler, logs: LogStore, logins: seq<Login>, now: real) returns (c: Completion)
    modifies sched, logs
    ensures Boot(sched.jobs, logs.entries, c) == StartAll(old(sched.jobs), old(logs.entries), logins, now)
  {
    for a := 0 to |logins|
      invariant StartAll(old(sched.jobs), old(logs.entries), logins, now) == StartAll(sched.jobs, logs.entries, logins[a..], now)
    {
      assert logins[a..][1..] == logins[a + 1..];
      var acct := logins[a].account;
      var member := HasGoldClubMembership(null, logs, acct.username, logins[a].farmListButton, 0.0, now);
      var err := RegisterPlanJobs(sched, acct.username, StartupPlan(acct, member), now);
      if err.Some? {
        return Raised(err.value);
      }
    }
    c := Normal;
  }
}
