/** The row selection of `activate_farm_list_raids_for`: which targets of
    one farm list get their checkbox ticked before the raid is started.
    The list is given as its table rows in page order (the last row, "Add
    target", is never visited) and its footer. */
module FarmList {
  import opened Base
  import opened Text

  /** What the scan reads from one table row. `located` is false when the
      wait for the row times out; the icons are the `class` attributes of
      the `i` elements in `.state` and `.lastRaid`, when present. */
  datatype FarmRow = FarmRow(
    located: bool,
    hasCheckbox: bool,
    stateIcon: Option<string>,
    distance: real,
    troops: nat,
    lastRaidIcon: Option<string>,
    oasisHasTroops: bool)

  /** The footer's troop counter: absent, or the texts of its two numbers. */
  datatype Footer = NoFooter | FooterText(countText: string, capacityText: string)

  /** The footer numbers as the scan uses them: `None` when the footer is
      missing, otherwise (nominator, denominator). */
  type Counts = Option<(nat, nat)>

  /** The distance limit `send_troops_to_farm` passes. */
  const RaidDistanceLimit: real := 7.0

  /** `int(re.sub(r'[^\d]', '', text))`: the digits of the text, or
      `ValueError` when it has none. */
  function ReadNumber(text: string): (r: Result<nat>)
    ensures r.Err? <==> DigitsOf(text) == ""
    ensures r.Err? ==> r.error == ValueError
    ensures r.Ok? ==> r.value == DecimalValue(DigitsOf(text))
  {
    var d := DigitsOf(text);
    if d == "" then Err(ValueError) else Ok(DecimalValue(d))
  }

  /** The footer as the code reads it: nominator and denominator both come
      from the first number's element. */
  function FooterCountsAsWritten(footer: Footer): (r: Result<Counts>)
    ensures footer.NoFooter? ==> r == Ok(None)
    ensures footer.FooterText? && r.Ok? ==> r.value.Some? && r.value.value.0 == r.value.value.1
  {
    match footer
    case NoFooter => Ok(None)
    case FooterText(count, _) =>
      match ReadNumber(count)
      case Err(e) => Err(e)
      case Ok(n) => Ok(Some((n, n)))
  }

  /** The footer read as intended: the nominator from the first number and
      the denominator from the second. */
  function FooterCounts(footer: Footer): (r: Result<Counts>)
    ensures footer.NoFooter? ==> r == Ok(None)
    ensures footer.FooterText? ==>
              (r.Err? <==> ReadNumber(footer.countText).Err? || ReadNumber(footer.capacityText).Err?)
    ensures footer.FooterText? && r.Ok? ==>
              r.value == Some((ReadNumber(footer.countText).value, ReadNumber(footer.capacityText).value))
  {
    match footer
    case NoFooter => Ok(None)
    case FooterText(count, capacity) =>
      match ReadNumber(count)
      case Err(e) => Err(e)
      case Ok(n) =>
        match ReadNumber(capacity)
        case Err(e) => Err(e)
        case Ok(d) => Ok(Some((n, d)))
  }

  /** A number the page prints between marks that are not digits (such as
      the bidirectional-text marks around Travian's counters) reads as
      that number. */
  lemma ReadNumberSkipsDecoration(before: string, n: nat, after: string)
    requires NoDigits(before) && NoDigits(after)
    ensures ReadNumber(before + NatToString(n) + after) == Ok(n)
  {
    DigitsOfConcat(before + NatToString(n), after);
    DigitsOfConcat(before, NatToString(n));
    DigitsOfNoDigits(before);
    DigitsOfNoDigits(after);
    DigitsOfDigits(NatToString(n));
    DecimalOfNatToString(n);
    assert DigitsOf(before + NatToString(n) + after) == NatToString(n);
  }

  /** A counter showing `n` of `d` (each decorated with non-digits): the
      intended read gives `(n, d)`, the code's read gives `(n, n)`. */
  lemma FooterReadsDisplayedCounts(a: string, n: nat, b: string, c: string, d: nat, e: string)
    requires NoDigits(a) && NoDigits(b) && NoDigits(c) && NoDigits(e)
    ensures FooterCounts(FooterText(a + NatToString(n) + b, c + NatToString(d) + e)) == Ok(Some((n, d)))
    ensures FooterCountsAsWritten(FooterText(a + NatToString(n) + b, c + NatToString(d) + e)) == Ok(Some((n, n)))
  {
    ReadNumberSkipsDecoration(a, n, b);
    ReadNumberSkipsDecoration(c, d, e);
  }

  /** `(not nominator and not denominator) or nominator + num_troops <= denominator`:
      a missing or all-zero footer lets every row through. */
  predicate CountsAllow(counts: Counts, troops: nat)
  {
    match counts
    case None => true
    case Some((n, d)) => (n == 0 && d == 0) || n + troops <= d
  }

  /** The target is being attacked right now: its state icon mentions 'attack_small'. */
  predicate Attacking(row: FarmRow)
  {
    row.stateIcon.Some? && Contains(row.stateIcon.value, "attack_small")
  }

  /** The last raid on the target lost troops: it has a last-raid icon
      that is not 'attack_won_withoutLosses_small'. */
  predicate SufferedLosses(row: FarmRow)
  {
    row.lastRaidIcon.Some? && !Contains(row.lastRaidIcon.value, "attack_won_withoutLosses_small")
  }

  /** The selection condition for a row that has a checkbox and is within range. */
  predicate Eligible(name: string, row: FarmRow, counts: Counts, ignoreCurrState: bool)
  {
    && (!Attacking(row) || ignoreCurrState)
    && (!SufferedLosses(row) || (Lower(name) == "oases" && !row.oasisHasTroops))
    && CountsAllow(counts, row.troops)
  }

  /** The scan stops at this row: it cannot be found, or it is a target
      (it has a checkbox) farther away than the limit. */
  predicate Stops(row: FarmRow, distanceLimit: real)
  {
    !row.located || (row.hasCheckbox && row.distance > distanceLimit)
  }

  /** The rows `range(1, len(table_rows))` visits: all but the last. */
  function Visitable(rows: seq<FarmRow>): (n: nat)
    ensures |rows| > 0 ==> n == |rows| - 1
    ensures |rows| == 0 ==> n == 0
  {
    if |rows| == 0 then 0 else |rows| - 1
  }

  /** Where the scan ends: the first visitable row at which it stops, or
      the end of the visitable rows. */
  function ScanEnd(rows: seq<FarmRow>, distanceLimit: real): (e: nat)
    ensures e <= Visitable(rows)
    ensures forall j :: 0 <= j < e ==> !Stops(rows[j], distanceLimit)
    ensures e < Visitable(rows) ==> Stops(rows[e], distanceLimit)
  {
    ScanEndFrom(rows, distanceLimit, 0)
  }

  function ScanEndFrom(rows: seq<FarmRow>, distanceLimit: real, i: nat): (e: nat)
    requires i <= Visitable(rows)
    requires forall j :: 0 <= j < i ==> !Stops(rows[j], distanceLimit)
    ensures i <= e <= Visitable(rows)
    ensures forall j :: 0 <= j < e ==> !Stops(rows[j], distanceLimit)
    ensures e < Visitable(rows) ==> Stops(rows[e], distanceLimit)
    decreases Visitable(rows) - i
  {
    if i == Visitable(rows) || Stops(rows[i], distanceLimit) then i
    else ScanEndFrom(rows, distanceLimit, i + 1)
  }

  /** The rows among the first `hi` that are selected, in page order. */
  function SelectedUpTo(name: string, rows: seq<FarmRow>, counts: Counts, ignoreCurrState: bool, hi: nat): seq<nat>
    requires hi <= |rows|
  {
    if hi == 0 then []
    else
      SelectedUpTo(name, rows, counts, ignoreCurrState, hi - 1)
      + (if rows[hi - 1].hasCheckbox && Eligible(name, rows[hi - 1], counts, ignoreCurrState) then [hi - 1] else [])
  }

  /** A row is selected exactly when it comes before `hi`, has a checkbox
      and meets the condition; the selection is in strictly increasing order. */
  lemma {:induction false} SelectedUpToMembers(name: string, rows: seq<FarmRow>, counts: Counts,
                                               ignoreCurrState: bool, hi: nat)
    requires hi <= |rows|
    ensures var s := SelectedUpTo(name, rows, counts, ignoreCurrState, hi);
            forall j :: j in s <==> 0 <= j < hi && rows[j].hasCheckbox && Eligible(name, rows[j], counts, ignoreCurrState)
    ensures var s := SelectedUpTo(name, rows, counts, ignoreCurrState, hi);
            forall a, b :: 0 <= a < b < |s| ==> s[a] < s[b]
    ensures var s := SelectedUpTo(name, rows, counts, ignoreCurrState, hi);
            forall a :: 0 <= a < |s| ==> s[a] < hi
  {
    if hi > 0 {
      SelectedUpToMembers(name, rows, counts, ignoreCurrState, hi - 1);
      var prev := SelectedUpTo(name, rows, counts, ignoreCurrState, hi - 1);
      var s := SelectedUpTo(name, rows, counts, ignoreCurrState, hi);
      forall j
        ensures j in s <==> 0 <= j < hi && rows[j].hasCheckbox && Eligible(name, rows[j], counts, ignoreCurrState)
      {
        assert j in s <==> j in prev || (j == hi - 1 && rows[hi - 1].hasCheckbox && Eligible(name, rows[hi - 1], counts, ignoreCurrState));
      }
    }
  }

  /** Whether a row with a checkbox comes before `hi`: such a row makes the
      footer be read. */
  predicate ReadsFooterBefore(rows: seq<FarmRow>, hi: nat)
    requires hi <= |rows|
  {
    exists j :: 0 <= j < hi && rows[j].hasCheckbox
  }

  /** The scan ends at the first visitable row at which it stops. */
  lemma ScanEndsAt(rows: seq<FarmRow>, distanceLimit: real, i: nat)
    requires i <= ScanEnd(rows, distanceLimit)
    requires i == Visitable(rows) || Stops(rows[i], distanceLimit)
    ensures i == ScanEnd(rows, distanceLimit)
  {
  }

  /** A row without a checkbox does not make the scan read the footer. */
  lemma NoFooterReadStep(rows: seq<FarmRow>, i: nat)
    requires i < |rows| && !ReadsFooterBefore(rows, i) && !rows[i].hasCheckbox
    ensures !ReadsFooterBefore(rows, i + 1)
  {
  }

  /** What scanning one list yields, given what reading its footer gives:
      the selected rows when the footer is readable; otherwise `ValueError`
      once a row makes the scan read it, and no selection when none does. */
  function ScanResult(name: string, rows: seq<FarmRow>, read: Result<Counts>,
                      distanceLimit: real, ignoreCurrState: bool): Result<seq<nat>>
  {
    var e := ScanEnd(rows, distanceLimit);
    match read
    case Ok(counts) => Ok(SelectedUpTo(name, rows, counts, ignoreCurrState, e))
    case Err(_) => if ReadsFooterBefore(rows, e) then Err(ValueError) else Ok([])
  }

  /** The selection loop of `activate_farm_list_raids_for(list, driver,
      distance_limit, ignore_curr_state)`. `read` is what reading the
      footer gives: `FooterCountsAsWritten` for the code as it stands,
      `FooterCounts` for the intended read. The footer is read at every
      row that has a checkbox and is within range; an unreadable number
      raises `ValueError` there. */
  method SelectFarmListRows(name: string, rows: seq<FarmRow>, read: Result<Counts>,
                            distanceLimit: real, ignoreCurrState: bool) returns (r: Result<seq<nat>>)
    ensures var e := ScanEnd(rows, distanceLimit);
            read.Ok? ==> r == Ok(SelectedUpTo(name, rows, read.value, ignoreCurrState, e))
    ensures var e := ScanEnd(rows, distanceLimit);
            read.Err? ==>
              (r.Err? <==> ReadsFooterBefore(rows, e)) && (r.Err? ==> r.error == ValueError) && (r.Ok? ==> r.value == [])
  {
    ghost var e := ScanEnd(rows, distanceLimit);
    ghost var counts: Counts := if read.Ok? then read.value else None;
    var selected: seq<nat> := [];
    var n := Visitable(rows);
    var i := 0;
    while i < n
      invariant i <= e
      invariant selected == SelectedUpTo(name, rows, counts, ignoreCurrState, i)
      invariant read.Err? ==> !ReadsFooterBefore(rows, i) && selected == []
    {
      var row := rows[i];
      if !row.located {
        ScanEndsAt(rows, distanceLimit, i);
        break;
      }
      if !row.hasCheckbox {
        if read.Err? {
          NoFooterReadStep(rows, i);
        }
        i := i + 1;
        continue;
      }
      if row.distance > distanceLimit {
        ScanEndsAt(rows, distanceLimit, i);
        break;
      }
      if read.Err? {
        assert ReadsFooterBefore(rows, e) by { assert i < e && rows[i].hasCheckbox; }
        return Err(ValueError);
      }
      if Eligible(name, row, read.value, ignoreCurrState) {
        selected := selected + [i];
      }
      i := i + 1;
    }
    if i == n {
      ScanEndsAt(rows, distanceLimit, i);
    }
    r := Ok(selected);
  }

  /** `ScanResult` by the two outcomes of the footer read. */
  lemma ScanResultCases(name: string, rows: seq<FarmRow>, read: Result<Counts>, distanceLimit: real, ignoreCurrState: bool)
    ensures var e := ScanEnd(rows, distanceLimit);
            read.Ok? ==> ScanResult(name, rows, read, distanceLimit, ignoreCurrState) == Ok(SelectedUpTo(name, rows, read.value, ignoreCurrState, e))
    ensures var e := ScanEnd(rows, distanceLimit);
            read.Err? ==> ScanResult(name, rows, read, distanceLimit, ignoreCurrState) == if ReadsFooterBefore(rows, e) then Err(ValueError) else Ok([])
  {
  }

  /** With a readable footer, a row is ticked exactly when the scan reaches
      it, it has a checkbox and it meets the condition. */
  lemma SelectedRowsAreEligible(name: string, rows: seq<FarmRow>, read: Result<Counts>, distanceLimit: real,
                                ignoreCurrState: bool, j: nat)
    requires read.Ok?
    ensures ScanResult(name, rows, read, distanceLimit, ignoreCurrState).Ok?
    ensures j in ScanResult(name, rows, read, distanceLimit, ignoreCurrState).value <==>
              (&& j < ScanEnd(rows, distanceLimit) && rows[j].hasCheckbox
               && Eligible(name, rows[j], read.value, ignoreCurrState))
  {
    SelectedUpToMembers(name, rows, read.value, ignoreCurrState, ScanEnd(rows, distanceLimit));
  }

  /** Nothing at or after a target beyond the distance limit is ticked. */
  lemma NothingBeyondTheFirstFarTarget(name: string, rows: seq<FarmRow>, counts: Counts, distanceLimit: real,
                                       ignoreCurrState: bool, far: nat, j: nat)
    requires far < Visitable(rows) && rows[far].hasCheckbox && rows[far].distance > distanceLimit
    requires far <= j
    ensures j !in SelectedUpTo(name, rows, counts, ignoreCurrState, ScanEnd(rows, distanceLimit))
  {
    SelectedUpToMembers(name, rows, counts, ignoreCurrState, ScanEnd(rows, distanceLimit));
  }

  /** As written, a footer with a non-zero count lets a row through only
      when it sends no troops: the capacity check compares the count with
      itself. */
  lemma AsWrittenCountsCompareWithItself(footer: Footer, troops: nat)
    requires FooterCountsAsWritten(footer).Ok? && footer.FooterText?
    requires FooterCountsAsWritten(footer).value.value.0 > 0
    ensures CountsAllow(FooterCountsAsWritten(footer).value, troops) <==> troops == 0
  {
  }

  /** A list whose counter reads 5 of 100 and a target raided with 10
      troops: the intended check lets the row through, the code as written
      does not. */
  lemma AsWrittenFooterRejectsRoomyList()
    ensures CountsAllow(FooterCounts(FooterText("5", "100")).value, 10)
    ensures !CountsAllow(FooterCountsAsWritten(FooterText("5", "100")).value, 10)
  {
    assert DigitsOf("5") == "5";
    assert DigitsOf("100") == "100";
    assert DecimalValue("5") == 5;
    assert DecimalValue("100") == 100 by {
      assert "100"[..2] == "10" && "10"[..1] == "1" && "1"[..0] == "";
    }
  }

  /** The same list scanned end to end: one target in range whose last
      raid used 10 troops, then the "Add target" row. The code as written
      ticks nothing; the intended read ticks the target. */
  lemma AsWrittenScanSkipsRoomyTarget()
    ensures var rows := [FarmRow(true, true, None, 1.0, 10, None, false), FarmRow(true, false, None, 0.0, 0, None, false)];
            && ScanResult("farms", rows, FooterCountsAsWritten(FooterText("5", "100")), RaidDistanceLimit, false) == Ok([])
            && ScanResult("farms", rows, FooterCounts(FooterText("5", "100")), RaidDistanceLimit, false) == Ok([0])
  {
    var rows := [FarmRow(true, true, None, 1.0, 10, None, false), FarmRow(true, false, None, 0.0, 0, None, false)];
    assert DigitsOf("5") == "5" && DecimalValue("5") == 5;
    assert DigitsOf("100") == "100";
    assert DecimalValue("100") == 100 by {
      assert "100"[..2] == "10" && "10"[..1] == "1" && "1"[..0] == "";
    }
    assert FooterCountsAsWritten(FooterText("5", "100")) == Ok(Some((5, 5)));
    assert FooterCounts(FooterText("5", "100")) == Ok(Some((5, 100)));
    assert !Attacking(rows[0]) && !SufferedLosses(rows[0]);
    assert !Eligible("farms", rows[0], Some((5, 5)), false);
    assert Eligible("farms", rows[0], Some((5, 100)), false);
    assert Visitable(rows) == 1;
    assert ScanEnd(rows, RaidDistanceLimit) == 1 by {
      assert !Stops(rows[0], RaidDistanceLimit);
    }
    assert SelectedUpTo("farms", rows, Some((5, 5)), false, 1) == SelectedUpTo("farms", rows, Some((5, 5)), false, 0) == [];
    assert SelectedUpTo("farms", rows, Some((5, 100)), false, 1) == SelectedUpTo("farms", rows, Some((5, 100)), false, 0) + [0];
    assert [] + [0] == [0];
  }
}
