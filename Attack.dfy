/** `incoming_attack`: read the troop movements on the resource page and,
    on the first incoming attack, schedule the one-shot job that spends all
    resources on troops shortly before the attack lands. */
module Attack {
  import opened Base
  import opened Text
  import opened Jobs
  import opened Registry
  import opened Timer

  /** One `tr` of the `#movements` table: a header row (it has a `th`),
      or a movement row with the `class` of its `td/a/img`, when there is
      one, and the text of its `.timer`. */
  datatype MovementRow = Header(text: string) | Movement(image: Option<string>, timerText: string)

  /** The `#movements` section, when the page has one. */
  datatype MovementsPage = NoMovements | Movements(rows: seq<MovementRow>)

  /** How long before the attack lands the spending job runs. */
  const Margin: real := 120.0

  const AttackCheckMin: real := 678.0
  const AttackCheckMax: real := 876.0

  const NoMovementsMsg := "No troop movements found."
  const NoIncomingMsg := "No incoming troops found."
  const NoImageMsg := "No image found."
  const AttackFoundMsg := "Incoming attack found! Setting job to spend all resources before attack lands."
  const NoAttackMsg := "No incoming attacks!"

  /** `.//th[contains(text(), 'Incoming')]` finds a header. */
  predicate HasIncomingHeader(rows: seq<MovementRow>)
  {
    exists j :: 0 <= j < |rows| && rows[j].Header? && Contains(rows[j].text, "Incoming")
  }

  /** The header that opens the outgoing section, where the scan stops. */
  predicate IsOutgoingHeader(row: MovementRow)
  {
    row.Header? && Contains(row.text, "Outgoing")
  }

  /** A movement whose icon class holds 'att1': an incoming attack. */
  predicate IsAttack(row: MovementRow)
  {
    row.Movement? && row.image.Some? && Contains(row.image.value, "att1")
  }

  /** A movement row without an icon. */
  predicate IsImageless(row: MovementRow)
  {
    row.Movement? && row.image.None?
  }

  /** Where the row loop ends: at the first outgoing header or attack, or
      after the last row. */
  function ScanStop(rows: seq<MovementRow>): (s: nat)
    ensures s <= |rows|
    ensures forall j :: 0 <= j < s ==> !IsOutgoingHeader(rows[j]) && !IsAttack(rows[j])
    ensures s < |rows| ==> IsOutgoingHeader(rows[s]) || IsAttack(rows[s])
  {
    ScanStopFrom(rows, 0)
  }

  function ScanStopFrom(rows: seq<MovementRow>, i: nat): (s: nat)
    requires i <= |rows|
    requires forall j :: 0 <= j < i ==> !IsOutgoingHeader(rows[j]) && !IsAttack(rows[j])
    ensures i <= s <= |rows|
    ensures forall j :: 0 <= j < s ==> !IsOutgoingHeader(rows[j]) && !IsAttack(rows[j])
    ensures s < |rows| ==> IsOutgoingHeader(rows[s]) || IsAttack(rows[s])
    decreases |rows| - i
  {
    if i == |rows| || IsOutgoingHeader(rows[i]) || IsAttack(rows[i]) then i
    else ScanStopFrom(rows, i + 1)
  }

  /** The attack the scan acts on: the stop row, when it is an attack. */
  function FirstAttack(rows: seq<MovementRow>): (hit: Option<nat>)
    ensures hit.Some? ==> hit.value < |rows| && IsAttack(rows[hit.value])
    ensures hit.Some? ==> forall j :: 0 <= j < hit.value ==> !IsAttack(rows[j]) && !IsOutgoingHeader(rows[j])
    ensures hit.None? ==> forall j :: 0 <= j < ScanStop(rows) ==> !IsAttack(rows[j])
    ensures hit.None? && ScanStop(rows) < |rows| ==> IsOutgoingHeader(rows[ScanStop(rows)])
  {
    var s := ScanStop(rows);
    if s < |rows| && IsAttack(rows[s]) then Some(s) else None
  }

  /** Some movement row without an icon comes before row `k`. */
  predicate ImagelessBefore(rows: seq<MovementRow>, k: nat)
    requires k <= |rows|
  {
    exists j :: 0 <= j < k && IsImageless(rows[j])
  }

  /** An attack after the outgoing header is never acted on. */
  lemma AttacksAfterOutgoingAreIgnored(rows: seq<MovementRow>, h: nat, a: nat)
    requires h < a < |rows| && IsOutgoingHeader(rows[h]) && IsAttack(rows[a])
    ensures FirstAttack(rows) != Some(a)
  {
  }

  /** The job `spend_all` gets: a date job at `now + T - 120`. When the
      attack lands within two minutes that time is already past: the code
      does not move it up to `now`. */
  lemma MitigationRunsTwoMinutesEarly(now: real, t: nat)
    ensures DateJob(SpendAllResources, now + t as real - Margin).trigger.runAt + Margin == now + t as real
    ensures (t as real) < Margin ==> DateJob(SpendAllResources, now + t as real - Margin).trigger.runAt < now
  {
  }

  /** The row loop of `incoming_attack`: a header row ends the scan when
      it names the outgoing troops and is skipped otherwise, a movement
      without an icon logs "No image found." and is skipped, and the scan
      stops at the first attack. The result is the row it stopped at. */
  method ScanMovements(logs: LogStore, key: string, rows: seq<MovementRow>) returns (i: nat)
    modifies logs
    ensures i == ScanStop(rows)
    ensures logs.entries == (if ImagelessBefore(rows, i) then old(logs.entries)[key := NoImageMsg] else old(logs.entries))
  {
    ghost var stop := ScanStop(rows);
    i := 0;
    while i < |rows|
      invariant i <= stop
      invariant logs.entries == (if ImagelessBefore(rows, i) then old(logs.entries)[key := NoImageMsg] else old(logs.entries))
    {
      var row := rows[i];
      if row.Header? {
        if Contains(row.text, "Outgoing") {
          break;
        } else {
          assert ImagelessBefore(rows, i + 1) == ImagelessBefore(rows, i);
          i := i + 1;
          continue;
        }
      }
      if row.image.None? {
        logs.Write(key, NoImageMsg);
        assert ImagelessBefore(rows, i + 1);
        i := i + 1;
        continue;
      }
      if Contains(row.image.value, "att1") {
        break;
      }
      assert ImagelessBefore(rows, i + 1) == ImagelessBefore(rows, i);
      i := i + 1;
    }
  }

  /** A second message for the same id replaces the first. */
  lemma LastWriteWins(logs: map<string, string>, id: string, first: string, second: string)
    ensures logs[id := first][id := second] == logs[id := second]
  {
  }

  /** What `incoming_attack` does on the attack row, given what its timer
      reads as: add (or replace) the account's `spend_all` date job, `Margin`
      seconds before the attack lands. */
  method ScheduleSpending(sched: Scheduler, logs: LogStore, user: string, seconds: Result<nat>, now: real)
    returns (c: Completion, report: Option<(bool, int)>)
    modifies sched, logs
    ensures match seconds
            case Ok(t) =>
              && c == Normal && report == Some((true, t))
              && logs.entries == old(logs.entries)[Key(user, CheckForIncomingAttacks) := AttackFoundMsg]
              && sched.jobs == old(sched.jobs)[Key(user, SpendAllResources) := DateJob(SpendAllResources, now + t as real - Margin)]
            case Err(e) =>
              && c == Raised(e) && report == None
              && sched.jobs == old(sched.jobs) && logs.entries == old(logs.entries)
  {
    if seconds.Err? {
      return Raised(seconds.error), None;
    }
    logs.Write(Key(user, CheckForIncomingAttacks), AttackFoundMsg);
    var _ := sched.AddJob(Key(user, SpendAllResources),
                          DateJob(SpendAllResources, now + seconds.value as real - Margin), true);
    return Normal, Some((true, seconds.value));
  }

  /** What `incoming_attack` leaves behind once it has found the incoming
      header: with no attack before the outgoing header, `(False, -1)` and
      the check re-registered; on the first attack, `(True, T)` and the
      `spend_all` date job at `now + T - 120`, or the timer's error. */
  twostate predicate ScanOutcome(sched: Scheduler, logs: LogStore, user: string, rows: seq<MovementRow>, now: real,
                                 new c: Completion, new report: Option<(bool, int)>)
    reads sched, logs
  {
    var key := Key(user, CheckForIncomingAttacks);
    && (FirstAttack(rows).None? ==>
          && c == Normal && report == Some((false, -1))
          && logs.entries == old(logs.entries)[key := NoAttackMsg]
          && Rescheduled(old(sched.jobs), sched.jobs, key, CheckForIncomingAttacks, AttackCheckMin, AttackCheckMax, now))
    && (FirstAttack(rows).Some? ==>
          var row := rows[FirstAttack(rows).value];
          match ConvertTimerTimeToSeconds(row.timerText)
          case Ok(t) =>
            && c == Normal && report == Some((true, t))
            && logs.entries == old(logs.entries)[key := AttackFoundMsg]
            && sched.jobs == old(sched.jobs)[Key(user, SpendAllResources) := DateJob(SpendAllResources, now + t as real - Margin)]
          case Err(e) =>
            && c == Raised(e) && report == None
            && sched.jobs == old(sched.jobs)
            && logs.entries == (if ImagelessBefore(rows, FirstAttack(rows).value)
                                then old(logs.entries)[key := NoImageMsg] else old(logs.entries)))
  }

  /** `incoming_attack(drivers_info, driver, scheduler)` for account `user`
      at time `now`; `u` is the `random()` draw of the re-registration.
      The result is the function's return value: `None`, or
      `(attack found, seconds until it lands)`. */
  method IncomingAttack(sched: Scheduler, logs: LogStore, user: string, page: MovementsPage, now: real, u: real)
    returns (c: Completion, report: Option<(bool, int)>)
    requires 0.0 <= u < 1.0
    modifies sched, logs
    ensures var key := Key(user, CheckForIncomingAttacks);
            page.NoMovements? ==>
              && c == Normal && report == None
              && logs.entries == old(logs.entries)[key := NoMovementsMsg]
              && Rescheduled(old(sched.jobs), sched.jobs, key, CheckForIncomingAttacks, AttackCheckMin, AttackCheckMax, now)
    ensures var key := Key(user, CheckForIncomingAttacks);
            page.Movements? && !HasIncomingHeader(page.rows) ==>
              && c == Normal && report == None
              && logs.entries == old(logs.entries)[key := NoIncomingMsg]
              && Rescheduled(old(sched.jobs), sched.jobs, key, CheckForIncomingAttacks, AttackCheckMin, AttackCheckMax, now)
    ensures page.Movements? && HasIncomingHeader(page.rows) ==> ScanOutcome(sched, logs, user, page.rows, now, c, report)
  {
    var key := Key(user, CheckForIncomingAttacks);
    if page.NoMovements? {
      logs.Write(key, NoMovementsMsg);
      sched.Reregister(CheckForIncomingAttacks, user, AttackCheckMin, AttackCheckMax, u, now);
      c, report := Normal, None;
    } else if !HasIncomingHeader(page.rows) {
      logs.Write(key, NoIncomingMsg);
      sched.Reregister(CheckForIncomingAttacks, user, AttackCheckMin, AttackCheckMax, u, now);
      c, report := Normal, None;
    } else {
      c, report := ScanIncoming(sched, logs, user, page.rows, now, u);
    }
  }

  /** The part of `incoming_attack` after the incoming header is found:
      the row scan, then the spending job on an attack, or the
      re-registration when there is none. */
  method ScanIncoming(sched: Scheduler, logs: LogStore, user: string, rows: seq<MovementRow>, now: real, u: real)
    returns (c: Completion, report: Option<(bool, int)>)
    requires 0.0 <= u < 1.0
    modifies sched, logs
    ensures ScanOutcome(sched, logs, user, rows, now, c, report)
  {
    var key := Key(user, CheckForIncomingAttacks);
    var i := ScanMovements(logs, key, rows);
    if i < |rows| && IsAttack(rows[i]) {
      assert FirstAttack(rows) == Some(i);
      LastWriteWins(old(logs.entries), key, NoImageMsg, AttackFoundMsg);
      var seconds := ConvertTimerTimeToSeconds(rows[i].timerText);
      c, report := ScheduleSpending(sched, logs, user, seconds, now);
    } else {
      LastWriteWins(old(logs.entries), key, NoImageMsg, NoAttackMsg);
      logs.Write(key, NoAttackMsg);
      sched.Reregister(CheckForIncomingAttacks, user, AttackCheckMin, AttackCheckMax, u, now);
      c, report := Normal, Some((false, -1));
    }
  }
}
