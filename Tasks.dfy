/** The firing steps of the scheduled tasks other than `incoming_attack`.
    Each step reads an observation of the page, overwrites the log entry
    of its job, and re-registers itself with a fresh delay from its own
    range when it was given a scheduler (`scheduler=None` is `null`). */
module Tasks {
  import opened Base
  import opened Text
  import opened Jobs
  import opened Registry
  import opened Fields
  import opened FarmList

  /** The delay ranges, in seconds, each task re-registers with. */
  const RefreshMin: real := 698.0
  const RefreshMax: real := 722.0
  const FieldsMin: real := 343.0
  const FieldsMax: real := 907.0
  const TrainMin: real := 1720.0
  const TrainMax: real := 3835.0
  const TrainBrokeMin: real := 10720.0
  const TrainBrokeMax: real := 13835.0
  const GoldClubMin: real := 604.0
  const GoldClubMax: real := 932.0
  const RaidsMin: real := 548.0
  const RaidsMax: real := 878.0
  const MissionMin: real := 343.0
  const MissionMax: real := 907.0
  const DailyMin: real := 24112.0
  const DailyMax: real := 43022.0
  const AdventureMin: real := 307.0
  const AdventureMax: real := 902.0
  const HeroMin: real := 12542.0
  const HeroMax: real := 24333.0

  /** The points a hero gains per level. */
  const HeroPointsPerLevel: nat := 4

  const QueueFullMsg := "Unable to upgrade resource field! Building queue full, skipping upgrade attempt."
  const NothingBuiltMsg := "Nothing currently being built, proceeding."
  const BeganUpgradeMsg := "Began upgrading resource field."
  const CannotAffordFieldMsg := "Not enough resources to upgrade!"
  const TroopNotFoundMsg := "Troop not found. Please check troop name and spelling."
  const CannotAffordTroopsMsg := "Cannot afford to train any troops!"
  const GoldClubMsg := "Please activate Travian Gold Club to gain access to farm lists."
  const NoFarmListMsg := "Please create a farm list to begin raiding!"
  const RaidsDoneMsg := "Finished raid attempt."
  const NoMissionMsg := "No mission resources to collect!"
  const CollectedMsg := "Successfully collected mission resources."
  const NoRewardsMsg := "No rewards to collect!"
  const RewardNotReadyMsg := "Reward not ready!"
  const AdventureSentMsg := "Successfully sent out hero on adventure!"
  const NoAdventuresMsg := "No adventures found."
  const HeroAwayMsg := "Hero is already on an adventure!"
  const AdventureErrorMsg := "Error attempting to start adventure."
  const NoHeroPointsMsg := "Hero has no points to spend!"

  /** f"Successfully began training {max_trainable} {troop_name}." */
  function TrainingMsg(count: nat, troopName: string): string
  {
    "Successfully began training " + NatToString(count) + " " + troopName + "."
  }

  /** f'Finished raid logic for {name}' */
  function RaidLogicMsg(name: string): string
  {
    "Finished raid logic for " + name
  }

  /** f"Successfully upgraded hero and spent points on {attribute_to_upgrade}." */
  function HeroUpgradedMsg(attribute: string): string
  {
    "Successfully upgraded hero and spent points on " + attribute + "."
  }

  /** The step ends with `if scheduler: scheduler.add_job(..., replace_existing=True)`. */
  method ReregisterIfScheduled(sched: Scheduler?, kind: Kind, user: string, lo: real, hi: real, u: real, now: real)
    requires lo <= hi && 0.0 <= u < 1.0
    modifies sched
    ensures sched != null ==> Rescheduled(old(sched.jobs), sched.jobs, Key(user, kind), kind, lo, hi, now)
  {
    if sched != null {
      sched.Reregister(kind, user, lo, hi, u, now);
    }
  }

  /** `refresh_page`: reloads the page (not modelled) and re-registers. */
  method RefreshPage(sched: Scheduler?, user: string, u: real, now: real)
    requires 0.0 <= u < 1.0
    modifies sched
    ensures sched != null ==> Rescheduled(old(sched.jobs), sched.jobs, Key(user, Refresh), Refresh, RefreshMin, RefreshMax, now)
  {
    ReregisterIfScheduled(sched, Refresh, user, RefreshMin, RefreshMax, u, now);
  }

  /** `attempt_to_upgrade_lowest_level_field`. `queued` is the number of
      `li` in `.buildingList`, `None` when there is no such list; `links`
      are the field links. The result is the field clicked, if any. */
  method AttemptToUpgradeLowestLevelField(sched: Scheduler?, logs: LogStore, user: string, goldClub: bool,
                                          queued: Option<nat>, links: seq<FieldLink>, u: real, now: real)
    returns (c: Completion, upgraded: Option<nat>)
    requires 0.0 <= u < 1.0
    modifies sched, logs
    ensures var key := Key(user, ResourceFields);
            queued.Some? && QueueFull(queued.value, goldClub) ==>
              && c == Normal && upgraded == None
              && logs.entries == old(logs.entries)[key := QueueFullMsg]
              && (sched != null ==> Rescheduled(old(sched.jobs), sched.jobs, key, ResourceFields, FieldsMin, FieldsMax, now))
    ensures var key := Key(user, ResourceFields);
            var before := if queued.None? then old(logs.entries)[key := NothingBuiltMsg] else old(logs.entries);
            !(queued.Some? && QueueFull(queued.value, goldClub)) && !AllLevelsReadable(links) ==>
              && c == Raised(ValueError) && upgraded == None
              && logs.entries == before
              && (sched != null ==> sched.jobs == old(sched.jobs))
    ensures var key := Key(user, ResourceFields);
            !(queued.Some? && QueueFull(queued.value, goldClub)) && AllLevelsReadable(links) ==>
              && c == Normal && IsFieldToUpgrade(links, upgraded)
              && logs.entries == old(logs.entries)[key := if upgraded.Some? then BeganUpgradeMsg else CannotAffordFieldMsg]
              && (sched != null ==> Rescheduled(old(sched.jobs), sched.jobs, key, ResourceFields, FieldsMin, FieldsMax, now))
  {
    var key := Key(user, ResourceFields);
    if queued.Some? && QueueFull(queued.value, goldClub) {
      logs.Write(key, QueueFullMsg);
      ReregisterIfScheduled(sched, ResourceFields, user, FieldsMin, FieldsMax, u, now);
      return Normal, None;
    }
    if queued.None? {
      logs.Write(key, NothingBuiltMsg);
    }
    var choice := ChooseFieldToUpgrade(links);
    if choice.Err? {
      return Raised(choice.error), None;
    }
    upgraded := choice.value;
    if upgraded.Some? {
      logs.Write(key, BeganUpgradeMsg);
    } else {
      logs.Write(key, CannotAffordFieldMsg);
    }
    ReregisterIfScheduled(sched, ResourceFields, user, FieldsMin, FieldsMax, u, now);
    c := Normal;
  }

  /** What `train_troops` finds in the troop building: whether the link
      with the troop name is there (before and, when resources are
      redistributed first, after the redistribution), whether the amount
      input is there, and the text of the "max trainable" link. */
  datatype TroopPage = TroopPage(linkFound: bool, linkFoundAfterRedeem: bool, hasInput: bool, maxText: string)

  /** The log `train_troops` leaves when it has got past the troop lookups:
      a failed second lookup logs and goes on with the first link. */
  function AfterLookups(logs: map<string, string>, key: string, page: TroopPage, imminent: bool): map<string, string>
  {
    if imminent && !page.linkFoundAfterRedeem then logs[key := TroopNotFoundMsg] else logs
  }

  /** `train_troops(..., troop_name, incoming_attack_imminent, scheduler)`.
      The result is the number of troops ordered, if any. */
  method TrainTroops(sched: Scheduler?, logs: LogStore, user: string, page: TroopPage, troopName: string,
                     imminent: bool, u: real, now: real)
    returns (c: Completion, ordered: Option<nat>)
    requires 0.0 <= u < 1.0
    modifies sched, logs
    ensures var key := Key(user, Kind.TrainTroops);
            !page.linkFound ==>
              && c == Raised(UnboundLocalError) && ordered == None
              && logs.entries == old(logs.entries)[key := TroopNotFoundMsg]
              && (sched != null ==> sched.jobs == old(sched.jobs))
    ensures var key := Key(user, Kind.TrainTroops);
            page.linkFound && !page.hasInput ==>
              && c == Normal && ordered == None
              && logs.entries == AfterLookups(old(logs.entries), key, page, imminent)[key := CannotAffordTroopsMsg]
              && (sched != null ==>
                    Rescheduled(old(sched.jobs), sched.jobs, key, Kind.TrainTroops, TrainBrokeMin, TrainBrokeMax, now))
    ensures var key := Key(user, Kind.TrainTroops);
            page.linkFound && page.hasInput && IntOf(page.maxText).Err? ==>
              && c == Raised(ValueError) && ordered == None
              && logs.entries == AfterLookups(old(logs.entries), key, page, imminent)
              && (sched != null ==> sched.jobs == old(sched.jobs))
    ensures var key := Key(user, Kind.TrainTroops);
            page.linkFound && page.hasInput && IntOf(page.maxText).Ok? ==>
              && c == Normal && ordered == Some(IntOf(page.maxText).value)
              && logs.entries == old(logs.entries)[key := TrainingMsg(IntOf(page.maxText).value, troopName)]
              && (sched != null ==> Rescheduled(old(sched.jobs), sched.jobs, key, Kind.TrainTroops, TrainMin, TrainMax, now))
  {
    var key := Key(user, Kind.TrainTroops);
    if !page.linkFound {
      logs.Write(key, TroopNotFoundMsg);
      return Raised(UnboundLocalError), None;
    }
    if imminent && !page.linkFoundAfterRedeem {
      logs.Write(key, TroopNotFoundMsg);
    }
    if !page.hasInput {
      logs.Write(key, CannotAffordTroopsMsg);
      ReregisterIfScheduled(sched, Kind.TrainTroops, user, TrainBrokeMin, TrainBrokeMax, u, now);
      return Normal, None;
    }
    var maxTrainable := IntOf(page.maxText);
    if maxTrainable.Err? {
      return Raised(maxTrainable.error), None;
    }
    logs.Write(key, TrainingMsg(maxTrainable.value, troopName));
    ReregisterIfScheduled(sched, Kind.TrainTroops, user, TrainMin, TrainMax, u, now);
    return Normal, Some(maxTrainable.value);
  }

  /** `spend_all_resources_on_troop_production`, the one-shot job an
      incoming attack schedules: `train_troops` with the redistribution
      first and no scheduler, so it does not re-register. */
  method SpendAllResourcesOnTroopProduction(logs: LogStore, user: string, page: TroopPage, troopName: string)
    returns (c: Completion, ordered: Option<nat>)
    modifies logs
    ensures var key := Key(user, Kind.TrainTroops);
            page.linkFound && page.hasInput && IntOf(page.maxText).Ok? ==>
              c == Normal && ordered == Some(IntOf(page.maxText).value)
              && logs.entries == old(logs.entries)[key := TrainingMsg(IntOf(page.maxText).value, troopName)]
    ensures var key := Key(user, Kind.TrainTroops);
            page.linkFound && !page.hasInput ==>
              && c == Normal && ordered == None
              && logs.entries == AfterLookups(old(logs.entries), key, page, true)[key := CannotAffordTroopsMsg]
    ensures var key := Key(user, Kind.TrainTroops);
            !page.linkFound ==>
              && c == Raised(UnboundLocalError) && ordered == None
              && logs.entries == old(logs.entries)[key := TroopNotFoundMsg]
    ensures var key := Key(user, Kind.TrainTroops);
            page.linkFound && page.hasInput && IntOf(page.maxText).Err? ==>
              && c == Raised(ValueError) && ordered == None
              && logs.entries == AfterLookups(old(logs.entries), key, page, true)
  {
    c, ordered := TrainTroops(null, logs, user, page, troopName, true, 0.0, 0.0);
  }

  /** `has_gold_club_membership`: `farmListButton` is whether the Rally
      Point shows the farm-list tab. */
  method HasGoldClubMembership(sched: Scheduler?, logs: LogStore, user: string, farmListButton: bool, u: real, now: real)
    returns (member: bool)
    requires 0.0 <= u < 1.0
    modifies sched, logs
    ensures member == farmListButton
    ensures member ==> logs.entries == old(logs.entries)
    ensures member && sched != null ==> sched.jobs == old(sched.jobs) - {Key(user, GoldClubCheck)}
    ensures !member ==> logs.entries == old(logs.entries)[Key(user, GoldClubCheck) := GoldClubMsg][Key(user, Raids) := GoldClubMsg]
    ensures !member && sched != null ==>
              Rescheduled(old(sched.jobs), sched.jobs, Key(user, GoldClubCheck), GoldClubCheck, GoldClubMin, GoldClubMax, now)
  {
    var key := Key(user, GoldClubCheck);
    if farmListButton {
      if sched != null && sched.GetJob(key).Some? {
        var _ := sched.RemoveJob(key);
      }
      return true;
    }
    logs.Write(key, GoldClubMsg);
    logs.Write(Key(user, Raids), GoldClubMsg);
    ReregisterIfScheduled(sched, GoldClubCheck, user, GoldClubMin, GoldClubMax, u, now);
    return false;
  }

  /** One farm list on the farm-list page: its name, rows and footer. */
  datatype FarmListView = FarmListView(name: string, rows: seq<FarmRow>, footer: Footer)

  /** What `send_troops_to_farm` finds: whether the browser is already on
      the farm-list page, whether the Rally Point shows the farm-list tab,
      and the farm lists (`None` when `.villageWrapper` never appears). */
  datatype FarmPage = FarmPage(onFarmListPage: bool, farmListButton: bool, lists: Option<seq<FarmListView>>)

  /** The scan `send_troops_to_farm` runs on one list, with the footer read
      as the code reads it. */
  function ListResult(list: FarmListView): Result<seq<nat>>
  {
    ScanResult(list.name, list.rows, FooterCountsAsWritten(list.footer), RaidDistanceLimit, false)
  }

  /** The first list whose scan raises, or the number of lists. */
  function FirstFailingList(lists: seq<FarmListView>): (f: nat)
    ensures f <= |lists|
    ensures forall j :: 0 <= j < f ==> ListResult(lists[j]).Ok?
    ensures f < |lists| ==> ListResult(lists[f]).Err?
  {
    if |lists| == 0 then 0
    else if ListResult(lists[0]).Err? then 0
    else 1 + FirstFailingList(lists[1..])
  }

  /** The log after the first `k` lists: the name of the last one. */
  function LogAfterLists(logs: map<string, string>, key: string, lists: seq<FarmListView>, k: nat): map<string, string>
    requires k <= |lists|
  {
    if k == 0 then logs else logs[key := RaidLogicMsg(lists[k - 1].name)]
  }

  lemma LogAfterNextList(now: map<string, string>, logs: map<string, string>, key: string, lists: seq<FarmListView>, k: nat)
    requires k < |lists| && now == LogAfterLists(logs, key, lists, k)
    ensures now[key := RaidLogicMsg(lists[k].name)] == LogAfterLists(logs, key, lists, k + 1)
  {
  }

  /** One list's scan: distance limit 7, targets under attack skipped, and
      the footer read as the code reads it. */
  method ScanFarmList(list: FarmListView) returns (r: Result<seq<nat>>)
    ensures r == ListResult(list)
  {
    r := SelectFarmListRows(list.name, list.rows, FooterCountsAsWritten(list.footer), RaidDistanceLimit, false);
    ScanResultCases(list.name, list.rows, FooterCountsAsWritten(list.footer), RaidDistanceLimit, false);
  }

  /** `ticked` holds the selections of the first `k` lists, in order. */
  predicate TickedSoFar(lists: seq<FarmListView>, ticked: seq<seq<nat>>, k: nat)
    requires k <= |lists|
  {
    |ticked| == k && forall j :: 0 <= j < k ==> ListResult(lists[j]).Ok? && ticked[j] == ListResult(lists[j]).value
  }

  /** A clean scan of list `k` extends the selections, and it comes before the first failing list. */
  lemma TickedStep(lists: seq<FarmListView>, ticked: seq<seq<nat>>, k: nat, rows: Result<seq<nat>>)
    requires k < |lists| && TickedSoFar(lists, ticked, k)
    requires rows == ListResult(lists[k]) && rows.Ok?
    ensures TickedSoFar(lists, ticked + [rows.value], k + 1)
  {
    var next := ticked + [rows.value];
    forall j | 0 <= j < k + 1
      ensures ListResult(lists[j]).Ok? && next[j] == ListResult(lists[j]).value
    {
      if j < k {
        assert next[j] == ticked[j];
      }
    }
  }

  /** A list that scans cleanly, reached without a failure, is not the first failing one. */
  lemma BeforeFirstFailing(lists: seq<FarmListView>, k: nat)
    requires k < |lists| && k <= FirstFailingList(lists) && ListResult(lists[k]).Ok?
    ensures k < FirstFailingList(lists)
  {
  }

  /** The loop of `send_troops_to_farm` over the farm lists: each list is
      scanned, and its name logged once its scan is done. `failed` is
      whether a scan raised `ValueError`, which ends the loop. */
  method RaidLists(logs: LogStore, key: string, lists: seq<FarmListView>) returns (failed: bool, ticked: seq<seq<nat>>)
    modifies logs
    ensures failed <==> FirstFailingList(lists) < |lists|
    ensures |ticked| == FirstFailingList(lists)
    ensures forall j :: 0 <= j < |ticked| ==> ticked[j] == ListResult(lists[j]).value
    ensures logs.entries == LogAfterLists(old(logs.entries), key, lists, FirstFailingList(lists))
  {
    ghost var f := FirstFailingList(lists);
    ticked := [];
    for k := 0 to |lists|
      invariant k <= f
      invariant TickedSoFar(lists, ticked, k)
      invariant logs.entries == LogAfterLists(old(logs.entries), key, lists, k)
    {
      var list := lists[k];
      var rows := ScanFarmList(list);
      if rows.Err? {
        return true, ticked;
      }
      TickedStep(lists, ticked, k, rows);
      BeforeFirstFailing(lists, k);
      ticked := ticked + [rows.value];
      LogAfterNextList(logs.entries, old(logs.entries), key, lists, k);
      logs.Write(key, RaidLogicMsg(list.name));
    }
    failed := false;
  }

  /** `send_troops_to_farm`. The result holds, per list scanned, the rows
      whose checkbox was ticked. `Raised(JobLookupError)` comes from
      pausing a `_raids` job that is not registered. */
  method SendTroopsToFarm(sched: Scheduler?, logs: LogStore, user: string, page: FarmPage, u: real, now: real)
    returns (c: Completion, ticked: seq<seq<nat>>)
    requires 0.0 <= u < 1.0
    modifies sched, logs
    ensures var key := Key(user, Raids);
            var stopped := (!page.onFarmListPage && !page.farmListButton) || page.lists.None?;
            stopped ==>
              && ticked == []
              && logs.entries == old(logs.entries)[key := if !page.onFarmListPage && !page.farmListButton then GoldClubMsg else NoFarmListMsg]
              && (sched == null ==> c == Normal)
              && (sched != null && key in old(sched.jobs) ==>
                    c == Normal && sched.jobs == Pause(old(sched.jobs), key).value)
              && (sched != null && key !in old(sched.jobs) ==>
                    c == Raised(JobLookupError(key)) && sched.jobs == old(sched.jobs))
    ensures var key := Key(user, Raids);
            var stopped := (!page.onFarmListPage && !page.farmListButton) || page.lists.None?;
            !stopped ==>
              var lists := page.lists.value;
              var f := FirstFailingList(lists);
              && |ticked| == f
              && (forall j :: 0 <= j < f ==> ticked[j] == ListResult(lists[j]).value)
              && (f < |lists| ==>
                    && c == Raised(ValueError)
                    && logs.entries == LogAfterLists(old(logs.entries), key, lists, f)
                    && (sched != null ==> sched.jobs == old(sched.jobs)))
              && (f == |lists| ==>
                    && c == Normal
                    && logs.entries == old(logs.entries)[key := RaidsDoneMsg]
                    && (sched != null ==> Rescheduled(old(sched.jobs), sched.jobs, key, Raids, RaidsMin, RaidsMax, now)))
  {
    var key := Key(user, Raids);
    ticked := [];
    if (!page.onFarmListPage && !page.farmListButton) || page.lists.None? {
      logs.Write(key, if !page.onFarmListPage && !page.farmListButton then GoldClubMsg else NoFarmListMsg);
      c := Normal;
      if sched != null {
        var err := sched.PauseJob(key);
        if err.Some? {
          c := Raised(err.value);
        }
      }
      return;
    }
    var failed;
    failed, ticked := RaidLists(logs, key, page.lists.value);
    if failed {
      return Raised(ValueError), ticked;
    }
    logs.Write(key, RaidsDoneMsg);
    ReregisterIfScheduled(sched, Raids, user, RaidsMin, RaidsMax, u, now);
    c := Normal;
  }

  /** The tasks of the mentor overview that get their reward collected:
      those whose class holds 'achieved', in page order. */
  method AchievedTasks(classes: seq<string>) returns (collected: seq<nat>)
    ensures forall j :: j in collected <==> 0 <= j < |classes| && Contains(classes[j], "achieved")
    ensures forall a, b :: 0 <= a < b < |collected| ==> collected[a] < collected[b]
  {
    collected := [];
    for i := 0 to |classes|
      invariant forall j :: j in collected <==> 0 <= j < i && Contains(classes[j], "achieved")
      invariant forall a, b :: 0 <= a < b < |collected| ==> collected[a] < collected[b] < i
      invariant forall a :: 0 <= a < |collected| ==> collected[a] < i
    {
      if Contains(classes[i], "achieved") {
        collected := collected + [i];
      }
    }
  }

  /** `collect_mission_resources`: `speechBubble` is whether the mentor
      button shows a bubble; `taskClasses` the classes of the task
      overview's entries. The result is the tasks collected. */
  method CollectMissionResources(sched: Scheduler?, logs: LogStore, user: string, speechBubble: bool,
                                 taskClasses: seq<string>, u: real, now: real)
    returns (collected: seq<nat>)
    requires 0.0 <= u < 1.0
    modifies sched, logs
    ensures !speechBubble ==> collected == []
    ensures speechBubble ==>
              forall j :: j in collected <==> 0 <= j < |taskClasses| && Contains(taskClasses[j], "achieved")
    ensures logs.entries == old(logs.entries)[Key(user, Kind.CollectMissionResources) := if speechBubble then CollectedMsg else NoMissionMsg]
    ensures sched != null ==>
              Rescheduled(old(sched.jobs), sched.jobs, Key(user, Kind.CollectMissionResources), Kind.CollectMissionResources,
                          MissionMin, MissionMax, now)
  {
    var key := Key(user, Kind.CollectMissionResources);
    if !speechBubble {
      logs.Write(key, NoMissionMsg);
      ReregisterIfScheduled(sched, Kind.CollectMissionResources, user, MissionMin, MissionMax, u, now);
      return [];
    }
    collected := AchievedTasks(taskClasses);
    logs.Write(key, CollectedMsg);
    ReregisterIfScheduled(sched, Kind.CollectMissionResources, user, MissionMin, MissionMax, u, now);
  }

  /** `collect_daily_quests_rewards`: `indicator` is whether the daily
      quests button shows one; `ready` says, per achievement, whether its
      reward is ready. The result is the achievements collected. */
  method CollectDailyQuestsRewards(sched: Scheduler?, logs: LogStore, user: string, indicator: bool,
                                   ready: seq<bool>, u: real, now: real)
    returns (collected: seq<nat>)
    requires 0.0 <= u < 1.0
    modifies sched, logs
    ensures !indicator ==> collected == []
    ensures indicator ==> forall j :: j in collected <==> 0 <= j < |ready| && ready[j]
    ensures logs.entries == old(logs.entries)[Key(user, CollectDailyQuestRewards) := if indicator then CollectedMsg else NoRewardsMsg]
    ensures sched != null ==>
              Rescheduled(old(sched.jobs), sched.jobs, Key(user, CollectDailyQuestRewards), CollectDailyQuestRewards,
                          DailyMin, DailyMax, now)
  {
    var key := Key(user, CollectDailyQuestRewards);
    if !indicator {
      logs.Write(key, NoRewardsMsg);
      ReregisterIfScheduled(sched, CollectDailyQuestRewards, user, DailyMin, DailyMax, u, now);
      return [];
    }
    collected := [];
    for i := 0 to |ready|
      invariant forall j :: j in collected <==> 0 <= j < i && ready[j]
      invariant logs.entries == old(logs.entries) || logs.entries == old(logs.entries)[key := RewardNotReadyMsg]
      invariant sched != null ==> sched.jobs == old(sched.jobs)
    {
      if !ready[i] {
        logs.Write(key, RewardNotReadyMsg);
        continue;
      }
      collected := collected + [i];
    }
    logs.Write(key, CollectedMsg);
    ReregisterIfScheduled(sched, CollectDailyQuestRewards, user, DailyMin, DailyMax, u, now);
  }

  /** What `attempt_to_start_adventure` reads: the hero status icon's
      class and the text of the adventure count badge, when there is one. */
  datatype HeroBar = HeroBar(statusClass: string, adventureBadge: Option<string>)

  /** The hero is sent out: a badge, the hero at home, and a positive count. */
  predicate SendsHero(bar: HeroBar)
  {
    bar.adventureBadge.Some? && Contains(bar.statusClass, "heroHome")
    && IntOf(bar.adventureBadge.value).Ok? && IntOf(bar.adventureBadge.value).value > 0
  }

  /** The adventure log message when the badge count could be read (or was
      not needed). */
  function AdventureMsg(bar: HeroBar): (m: string)
    requires bar.adventureBadge.Some? && Contains(bar.statusClass, "heroHome") ==> IntOf(bar.adventureBadge.value).Ok?
    ensures m == AdventureSentMsg <==> SendsHero(bar)
    ensures m == NoAdventuresMsg <==> bar.adventureBadge.None?
    ensures m == HeroAwayMsg ==> bar.adventureBadge.Some? && !SendsHero(bar) && Contains(bar.statusClass, "heroRunning")
  {
    if SendsHero(bar) then AdventureSentMsg
    else if bar.adventureBadge.None? then NoAdventuresMsg
    else if Contains(bar.statusClass, "heroRunning") then HeroAwayMsg
    else AdventureErrorMsg
  }

  /** `attempt_to_start_adventure`. `int()` of the badge text is only
      reached when there is a badge and the hero is at home. */
  method AttemptToStartAdventure(sched: Scheduler?, logs: LogStore, user: string, bar: HeroBar, u: real, now: real)
    returns (c: Completion, sent: bool)
    requires 0.0 <= u < 1.0
    modifies sched, logs
    ensures var key := Key(user, Adventures);
            bar.adventureBadge.Some? && Contains(bar.statusClass, "heroHome") && IntOf(bar.adventureBadge.value).Err? ==>
              && c == Raised(ValueError) && !sent
              && logs.entries == old(logs.entries)
              && (sched != null ==> sched.jobs == old(sched.jobs))
    ensures var key := Key(user, Adventures);
            !(bar.adventureBadge.Some? && Contains(bar.statusClass, "heroHome") && IntOf(bar.adventureBadge.value).Err?) ==>
              && c == Normal && sent == SendsHero(bar)
              && logs.entries == old(logs.entries)[key := AdventureMsg(bar)]
              && (sched != null ==> Rescheduled(old(sched.jobs), sched.jobs, key, Adventures, AdventureMin, AdventureMax, now))
  {
    var key := Key(user, Adventures);
    sent := false;
    if bar.adventureBadge.Some? && Contains(bar.statusClass, "heroHome") {
      var count := IntOf(bar.adventureBadge.value);
      if count.Err? {
        return Raised(count.error), false;
      }
      sent := count.value > 0;
    }
    if sent {
      logs.Write(key, AdventureSentMsg);
    } else if bar.adventureBadge.None? {
      logs.Write(key, NoAdventuresMsg);
    } else if Contains(bar.statusClass, "heroRunning") {
      logs.Write(key, HeroAwayMsg);
    } else {
      logs.Write(key, AdventureErrorMsg);
    }
    ReregisterIfScheduled(sched, Adventures, user, AdventureMin, AdventureMax, u, now);
    c := Normal;
  }

  /** `upgrade_hero(..., attribute_to_upgrade)`: `levelUpClass` is the
      level-up icon's class, `pointsText` the current value of the
      attribute's input. The result is the value typed into the input. */
  method UpgradeHero(sched: Scheduler?, logs: LogStore, user: string, levelUpClass: string, pointsText: string,
                     attribute: string, u: real, now: real)
    returns (c: Completion, newPoints: Option<nat>)
    requires 0.0 <= u < 1.0
    modifies sched, logs
    ensures var key := Key(user, HeroUpgrade);
            !Contains(levelUpClass, "show") ==>
              && c == Normal && newPoints == None
              && logs.entries == old(logs.entries)[key := NoHeroPointsMsg]
              && (sched != null ==> Rescheduled(old(sched.jobs), sched.jobs, key, HeroUpgrade, HeroMin, HeroMax, now))
    ensures Contains(levelUpClass, "show") && IntOf(pointsText).Err? ==>
              && c == Raised(ValueError) && newPoints == None
              && logs.entries == old(logs.entries)
              && (sched != null ==> sched.jobs == old(sched.jobs))
    ensures var key := Key(user, HeroUpgrade);
            Contains(levelUpClass, "show") && IntOf(pointsText).Ok? ==>
              && c == Normal && newPoints == Some(IntOf(pointsText).value + HeroPointsPerLevel)
              && logs.entries == old(logs.entries)[key := HeroUpgradedMsg(attribute)]
              && (sched != null ==> Rescheduled(old(sched.jobs), sched.jobs, key, HeroUpgrade, HeroMin, HeroMax, now))
  {
    var key := Key(user, HeroUpgrade);
    if !Contains(levelUpClass, "show") {
      logs.Write(key, NoHeroPointsMsg);
      ReregisterIfScheduled(sched, HeroUpgrade, user, HeroMin, HeroMax, u, now);
      return Normal, None;
    }
    var current := IntOf(pointsText);
    if current.Err? {
      return Raised(current.error), None;
    }
    logs.Write(key, HeroUpgradedMsg(attribute));
    ReregisterIfScheduled(sched, HeroUpgrade, user, HeroMin, HeroMax, u, now);
    return Normal, Some(current.value + HeroPointsPerLevel);
  }
}
