/** The job key scheme and the job entries the scheduler keeps.
    Every job id is `Username + "_" + KIND`, with KIND one of the module
    constants at the top of TravianAuto.py. */
module Jobs {
  import opened Base

  /** The task kinds; one job id suffix each. */
  datatype Kind =
    | Refresh
    | ResourceFields
    | Adventures
    | HeroUpgrade
    | GoldClubCheck
    | CollectMissionResources
    | CollectDailyQuestRewards
    | TrainTroops
    | CheckForIncomingAttacks
    | SpendAllResources
    | Raids

  /** The id suffix of each kind (REFRESH ... RAIDS). */
  function Suffix(k: Kind): (s: string)
    ensures |s| > 0
  {
    match k
    case Refresh => "refresh"
    case ResourceFields => "resource_fields"
    case Adventures => "adventures"
    case HeroUpgrade => "hero_upgrade"
    case GoldClubCheck => "gold_club_check"
    case CollectMissionResources => "collect_mission_resources"
    case CollectDailyQuestRewards => "collect_daily_rewards"
    case TrainTroops => "train_troops"
    case CheckForIncomingAttacks => "attack_check"
    case SpendAllResources => "spend_all"
    case Raids => "raids"
  }

  /** `f"{Username}_{KIND}"` */
  function Key(username: string, k: Kind): string
  {
    username + "_" + Suffix(k)
  }

  /** What decides when a job runs: APScheduler's 'interval' trigger with a
      period in seconds, or its 'date' trigger with one absolute run time. */
  datatype Trigger = Interval(seconds: real) | Date(runAt: real)

  /** One entry of the job table. `nextRun` is APScheduler's
      `next_run_time`: `None` exactly when the job is paused. */
  datatype Job = Job(kind: Kind, trigger: Trigger, nextRun: Option<real>)
  {
    predicate Paused()
    {
      nextRun.None?
    }
  }

  /** The job `add_job(f, 'interval', seconds=s, ...)` creates at time `now`:
      its first run is one period later. */
  function IntervalJob(kind: Kind, seconds: real, now: real): (j: Job)
    ensures j.kind == kind && !j.Paused() && j.trigger.Interval? && j.trigger.seconds == seconds
    ensures j.nextRun.value - now == j.trigger.seconds
  {
    Job(kind, Interval(seconds), Some(now + seconds))
  }

  /** The job `add_job(f, 'date', run_date=t, ...)` creates: it runs once, at `t`. */
  function DateJob(kind: Kind, runAt: real): (j: Job)
    ensures j.kind == kind && !j.Paused() && j.trigger.Date? && j.trigger.runAt == runAt
    ensures j.nextRun.value == j.trigger.runAt
  {
    Job(kind, Date(runAt), Some(runAt))
  }

  /** `s` ends with `"_" + t`. */
  predicate EndsWithTagged(s: string, t: string)
  {
    |t| < |s| && s[|s| - |t| - 1] == '_' && s[|s| - |t|..] == t
  }

  lemma TooShortToTag(s: string, t: string)
    requires |s| <= |t|
    ensures !EndsWithTagged(s, t)
  {
  }

  lemma NoTagBefore(s: string, t: string)
    requires |t| < |s| && s[|s| - |t| - 1] != '_'
    ensures !EndsWithTagged(s, t)
  {
  }

  lemma MismatchInTail(s: string, t: string, k: nat)
    requires |t| < |s| && k < |t| && s[|s| - |t| + k] != t[k]
    ensures !EndsWithTagged(s, t)
  {
  }

  lemma {:induction false} NothingTagsTheEndOfRefresh(b: Kind)
    ensures !EndsWithTagged(Suffix(Refresh), Suffix(b))
  {
    match b
    case Refresh => TooShortToTag("refresh", "refresh");
    case ResourceFields => TooShortToTag("refresh", "resource_fields");
    case Adventures => TooShortToTag("refresh", "adventures");
    case HeroUpgrade => TooShortToTag("refresh", "hero_upgrade");
    case GoldClubCheck => TooShortToTag("refresh", "gold_club_check");
    case CollectMissionResources => TooShortToTag("refresh", "collect_mission_resources");
    case CollectDailyQuestRewards => TooShortToTag("refresh", "collect_daily_rewards");
    case TrainTroops => TooShortToTag("refresh", "train_troops");
    case CheckForIncomingAttacks => TooShortToTag("refresh", "attack_check");
    case SpendAllResources => TooShortToTag("refresh", "spend_all");
    case Raids => NoTagBefore("refresh", "raids");
  }

  lemma {:induction false} NothingTagsTheEndOfResourceFields(b: Kind)
    ensures !EndsWithTagged(Suffix(ResourceFields), Suffix(b))
  {
    match b
    case Refresh => NoTagBefore("resource_fields", "refresh");
    case ResourceFields => TooShortToTag("resource_fields", "resource_fields");
    case Adventures => NoTagBefore("resource_fields", "adventures");
    case HeroUpgrade => NoTagBefore("resource_fields", "hero_upgrade");
    case GoldClubCheck => TooShortToTag("resource_fields", "gold_club_check");
    case CollectMissionResources => TooShortToTag("resource_fields", "collect_mission_resources");
    case CollectDailyQuestRewards => TooShortToTag("resource_fields", "collect_daily_rewards");
    case TrainTroops => NoTagBefore("resource_fields", "train_troops");
    case CheckForIncomingAttacks => NoTagBefore("resource_fields", "attack_check");
    case SpendAllResources => NoTagBefore("resource_fields", "spend_all");
    case Raids => NoTagBefore("resource_fields", "raids");
  }

  lemma {:induction false} NothingTagsTheEndOfAdventures(b: Kind)
    ensures !EndsWithTagged(Suffix(Adventures), Suffix(b))
  {
    match b
    case Refresh => NoTagBefore("adventures", "refresh");
    case ResourceFields => TooShortToTag("adventures", "resource_fields");
    case Adventures => TooShortToTag("adventures", "adventures");
    case HeroUpgrade => TooShortToTag("adventures", "hero_upgrade");
    case GoldClubCheck => TooShortToTag("adventures", "gold_club_check");
    case CollectMissionResources => TooShortToTag("adventures", "collect_mission_resources");
    case CollectDailyQuestRewards => TooShortToTag("adventures", "collect_daily_rewards");
    case TrainTroops => TooShortToTag("adventures", "train_troops");
    case CheckForIncomingAttacks => TooShortToTag("adventures", "attack_check");
    case SpendAllResources => NoTagBefore("adventures", "spend_all");
    case Raids => NoTagBefore("adventures", "raids");
  }

  lemma {:induction false} NothingTagsTheEndOfHeroUpgrade(b: Kind)
    ensures !EndsWithTagged(Suffix(HeroUpgrade), Suffix(b))
  {
    match b
    case Refresh => MismatchInTail("hero_upgrade", "refresh", 0);
    case ResourceFields => TooShortToTag("hero_upgrade", "resource_fields");
    case Adventures => NoTagBefore("hero_upgrade", "adventures");
    case HeroUpgrade => TooShortToTag("hero_upgrade", "hero_upgrade");
    case GoldClubCheck => TooShortToTag("hero_upgrade", "gold_club_check");
    case CollectMissionResources => TooShortToTag("hero_upgrade", "collect_mission_resources");
    case CollectDailyQuestRewards => TooShortToTag("hero_upgrade", "collect_daily_rewards");
    case TrainTroops => TooShortToTag("hero_upgrade", "train_troops");
    case CheckForIncomingAttacks => TooShortToTag("hero_upgrade", "attack_check");
    case SpendAllResources => NoTagBefore("hero_upgrade", "spend_all");
    case Raids => NoTagBefore("hero_upgrade", "raids");
  }

  lemma {:induction false} NothingTagsTheEndOfGoldClubCheck(b: Kind)
    ensures !EndsWithTagged(Suffix(GoldClubCheck), Suffix(b))
  {
    match b
    case Refresh => NoTagBefore("gold_club_check", "refresh");
    case ResourceFields => TooShortToTag("gold_club_check", "resource_fields");
    case Adventures => MismatchInTail("gold_club_check", "adventures", 0);
    case HeroUpgrade => NoTagBefore("gold_club_check", "hero_upgrade");
    case GoldClubCheck => TooShortToTag("gold_club_check", "gold_club_check");
    case CollectMissionResources => TooShortToTag("gold_club_check", "collect_mission_resources");
    case CollectDailyQuestRewards => TooShortToTag("gold_club_check", "collect_daily_rewards");
    case TrainTroops => NoTagBefore("gold_club_check", "train_troops");
    case CheckForIncomingAttacks => NoTagBefore("gold_club_check", "attack_check");
    case SpendAllResources => NoTagBefore("gold_club_check", "spend_all");
    case Raids => MismatchInTail("gold_club_check", "raids", 0);
  }

  lemma {:induction false} NothingTagsTheEndOfCollectMissionResources(b: Kind)
    ensures !EndsWithTagged(Suffix(CollectMissionResources), Suffix(b))
  {
    match b
    case Refresh => NoTagBefore("collect_mission_resources", "refresh");
    case ResourceFields => NoTagBefore("collect_mission_resources", "resource_fields");
    case Adventures => NoTagBefore("collect_mission_resources", "adventures");
    case HeroUpgrade => NoTagBefore("collect_mission_resources", "hero_upgrade");
    case GoldClubCheck => NoTagBefore("collect_mission_resources", "gold_club_check");
    case CollectMissionResources => TooShortToTag("collect_mission_resources", "collect_mission_resources");
    case CollectDailyQuestRewards => NoTagBefore("collect_mission_resources", "collect_daily_rewards");
    case TrainTroops => NoTagBefore("collect_mission_resources", "train_troops");
    case CheckForIncomingAttacks => NoTagBefore("collect_mission_resources", "attack_check");
    case SpendAllResources => MismatchInTail("collect_mission_resources", "spend_all", 0);
    case Raids => NoTagBefore("collect_mission_resources", "raids");
  }

  lemma {:induction false} NothingTagsTheEndOfCollectDailyQuestRewards(b: Kind)
    ensures !EndsWithTagged(Suffix(CollectDailyQuestRewards), Suffix(b))
  {
    match b
    case Refresh => MismatchInTail("collect_daily_rewards", "refresh", 2);
    case ResourceFields => NoTagBefore("collect_daily_rewards", "resource_fields");
    case Adventures => NoTagBefore("collect_daily_rewards", "adventures");
    case HeroUpgrade => NoTagBefore("collect_daily_rewards", "hero_upgrade");
    case GoldClubCheck => NoTagBefore("collect_daily_rewards", "gold_club_check");
    case CollectMissionResources => TooShortToTag("collect_daily_rewards", "collect_mission_resources");
    case CollectDailyQuestRewards => TooShortToTag("collect_daily_rewards", "collect_daily_rewards");
    case TrainTroops => NoTagBefore("collect_daily_rewards", "train_troops");
    case CheckForIncomingAttacks => NoTagBefore("collect_daily_rewards", "attack_check");
    case SpendAllResources => NoTagBefore("collect_daily_rewards", "spend_all");
    case Raids => NoTagBefore("collect_daily_rewards", "raids");
  }

  lemma {:induction false} NothingTagsTheEndOfTrainTroops(b: Kind)
    ensures !EndsWithTagged(Suffix(TrainTroops), Suffix(b))
  {
    match b
    case Refresh => NoTagBefore("train_troops", "refresh");
    case ResourceFields => TooShortToTag("train_troops", "resource_fields");
    case Adventures => NoTagBefore("train_troops", "adventures");
    case HeroUpgrade => TooShortToTag("train_troops", "hero_upgrade");
    case GoldClubCheck => TooShortToTag("train_troops", "gold_club_check");
    case CollectMissionResources => TooShortToTag("train_troops", "collect_mission_resources");
    case CollectDailyQuestRewards => TooShortToTag("train_troops", "collect_daily_rewards");
    case TrainTroops => TooShortToTag("train_troops", "train_troops");
    case CheckForIncomingAttacks => TooShortToTag("train_troops", "attack_check");
    case SpendAllResources => NoTagBefore("train_troops", "spend_all");
    case Raids => NoTagBefore("train_troops", "raids");
  }

  lemma {:induction false} NothingTagsTheEndOfCheckForIncomingAttacks(b: Kind)
    ensures !EndsWithTagged(Suffix(CheckForIncomingAttacks), Suffix(b))
  {
    match b
    case Refresh => NoTagBefore("attack_check", "refresh");
    case ResourceFields => TooShortToTag("attack_check", "resource_fields");
    case Adventures => NoTagBefore("attack_check", "adventures");
    case HeroUpgrade => TooShortToTag("attack_check", "hero_upgrade");
    case GoldClubCheck => TooShortToTag("attack_check", "gold_club_check");
    case CollectMissionResources => TooShortToTag("attack_check", "collect_mission_resources");
    case CollectDailyQuestRewards => TooShortToTag("attack_check", "collect_daily_rewards");
    case TrainTroops => TooShortToTag("attack_check", "train_troops");
    case CheckForIncomingAttacks => TooShortToTag("attack_check", "attack_check");
    case SpendAllResources => NoTagBefore("attack_check", "spend_all");
    case Raids => MismatchInTail("attack_check", "raids", 0);
  }

  lemma {:induction false} NothingTagsTheEndOfSpendAllResources(b: Kind)
    ensures !EndsWithTagged(Suffix(SpendAllResources), Suffix(b))
  {
    match b
    case Refresh => NoTagBefore("spend_all", "refresh");
    case ResourceFields => TooShortToTag("spend_all", "resource_fields");
    case Adventures => TooShortToTag("spend_all", "adventures");
    case HeroUpgrade => TooShortToTag("spend_all", "hero_upgrade");
    case GoldClubCheck => TooShortToTag("spend_all", "gold_club_check");
    case CollectMissionResources => TooShortToTag("spend_all", "collect_mission_resources");
    case CollectDailyQuestRewards => TooShortToTag("spend_all", "collect_daily_rewards");
    case TrainTroops => TooShortToTag("spend_all", "train_troops");
    case CheckForIncomingAttacks => TooShortToTag("spend_all", "attack_check");
    case SpendAllResources => TooShortToTag("spend_all", "spend_all");
    case Raids => NoTagBefore("spend_all", "raids");
  }

  lemma {:induction false} NothingTagsTheEndOfRaids(b: Kind)
    ensures !EndsWithTagged(Suffix(Raids), Suffix(b))
  {
    match b
    case Refresh => TooShortToTag("raids", "refresh");
    case ResourceFields => TooShortToTag("raids", "resource_fields");
    case Adventures => TooShortToTag("raids", "adventures");
    case HeroUpgrade => TooShortToTag("raids", "hero_upgrade");
    case GoldClubCheck => TooShortToTag("raids", "gold_club_check");
    case CollectMissionResources => TooShortToTag("raids", "collect_mission_resources");
    case CollectDailyQuestRewards => TooShortToTag("raids", "collect_daily_rewards");
    case TrainTroops => TooShortToTag("raids", "train_troops");
    case CheckForIncomingAttacks => TooShortToTag("raids", "attack_check");
    case SpendAllResources => TooShortToTag("raids", "spend_all");
    case Raids => TooShortToTag("raids", "raids");
  }

  /** No id suffix ends with an underscore followed by another id suffix. */
  lemma {:induction false} NoSuffixTagsAnother(a: Kind, b: Kind)
    ensures !EndsWithTagged(Suffix(a), Suffix(b))
  {
    match a
    case Refresh => NothingTagsTheEndOfRefresh(b);
    case ResourceFields => NothingTagsTheEndOfResourceFields(b);
    case Adventures => NothingTagsTheEndOfAdventures(b);
    case HeroUpgrade => NothingTagsTheEndOfHeroUpgrade(b);
    case GoldClubCheck => NothingTagsTheEndOfGoldClubCheck(b);
    case CollectMissionResources => NothingTagsTheEndOfCollectMissionResources(b);
    case CollectDailyQuestRewards => NothingTagsTheEndOfCollectDailyQuestRewards(b);
    case TrainTroops => NothingTagsTheEndOfTrainTroops(b);
    case CheckForIncomingAttacks => NothingTagsTheEndOfCheckForIncomingAttacks(b);
    case SpendAllResources => NothingTagsTheEndOfSpendAllResources(b);
    case Raids => NothingTagsTheEndOfRaids(b);
  }

  lemma SuffixInjective(a: Kind, b: Kind)
    requires Suffix(a) == Suffix(b)
    ensures a == b
  {
    match a
    case HeroUpgrade => assert Suffix(a)[0] == 'h';
    case TrainTroops => assert Suffix(a)[0] == 't';
    case CheckForIncomingAttacks => assert Suffix(a)[0] == 'a';
    case ResourceFields => assert Suffix(a)[0] == 'r';
    case GoldClubCheck => assert Suffix(a)[0] == 'g';
    case _ =>
  }

  /** Splitting `u + "_" + s` at an underscore: two such strings are equal
      only if their tails are equal or the longer tail ends with `"_"` and the
      shorter one. */
  lemma {:induction false} SplitAtTag(u1: string, s1: string, u2: string, s2: string)
    requires u1 + "_" + s1 == u2 + "_" + s2
    ensures |s1| == |s2| ==> u1 == u2 && s1 == s2
    ensures |s1| > |s2| ==> EndsWithTagged(s1, s2)
  {
    var s := u1 + "_" + s1;
    assert s == u2 + "_" + s2;
    assert s[|s| - |s1|..] == s1 && s[|s| - |s2|..] == s2;
    if |s1| == |s2| {
      assert u1 == s[..|u1|] && u2 == s[..|u2|];
    } else if |s1| > |s2| {
      assert s1[|s1| - |s2| - 1] == s[|s| - |s2| - 1] == '_';
      assert s1[|s1| - |s2|..] == s[|s| - |s2|..];
    }
  }

  /** One id names one (account, kind) pair: ids of different accounts never
      collide, and neither do two kinds of one account. */
  lemma KeyInjective(u1: string, a: Kind, u2: string, b: Kind)
    requires Key(u1, a) == Key(u2, b)
    ensures u1 == u2 && a == b
  {
    var sa, sb := Suffix(a), Suffix(b);
    SplitAtTag(u1, sa, u2, sb);
    SplitAtTag(u2, sb, u1, sa);
    NoSuffixTagsAnother(a, b);
    NoSuffixTagsAnother(b, a);
    if |sa| == |sb| {
      SuffixInjective(a, b);
    }
  }
}
