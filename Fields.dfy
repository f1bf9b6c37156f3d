/** The choice behind `attempt_to_upgrade_lowest_level_field`: when the
    building queue counts as full, and which resource field gets upgraded.
    The resource page is given as its `#resourceFieldContainer` links in
    page order; link 0 is the village centre, which the search skips. */
module Fields {
  import opened Base
  import opened Text

  const Wood: nat := 1
  const Clay: nat := 2
  const Iron: nat := 3
  const Wheat: nat := 4

  /** The gid types in the order the upgrade tries them. */
  const GidTypes: seq<nat> := [Wood, Clay, Iron, Wheat]

  /** The level a field starts the search against; a field at 999 or
      higher is never chosen. */
  const NoLevel: nat := 999

  /** One `a` element of the field container: its `class` attribute and
      the text of its level `div`. */
  datatype FieldLink = FieldLink(cls: string, levelText: string)

  /** The queue of `.buildingList` entries is full: one build at a time
      without Gold Club, two with it. */
  predicate QueueFull(queued: nat, goldClub: bool)
  {
    (!goldClub && queued >= 1) || (goldClub && queued >= 2)
  }

  /** `int(text.strip() or 0)`: blank text is level 0; otherwise the text
      is read as `int` reads it. */
  function ParseLevel(text: string): (r: Result<nat>)
    ensures Strip(text) == "" ==> r == Ok(0)
    ensures Strip(text) != "" ==> r == IntOf(text)
    ensures r.Ok? ==> Strip(text) == "" || r.value == DecimalValue(Strip(text))
    ensures r.Err? <==> Strip(text) != "" && !AllDigits(Strip(text))
    ensures r.Err? ==> r.error == ValueError
  {
    if Strip(text) == "" then Ok(0) else IntOf(text)
  }

  /** Reading a level back from the number the page prints gives it again. */
  lemma ParseLevelOfNumber(n: nat)
    ensures ParseLevel(NatToString(n)) == Ok(n)
  {
    IntOfNumber(n);
  }

  /** `f'gid{gid}'` */
  function GidClass(gid: nat): (c: string)
    ensures |c| > 3 && c[..3] == "gid" && c[3..] == NatToString(gid)
  {
    "gid" + NatToString(gid)
  }

  /** Different resource types have different `gid` classes. */
  lemma GidClassInjective(a: nat, b: nat)
    requires GidClass(a) == GidClass(b)
    ensures a == b
  {
    assert NatToString(a) == GidClass(a)[3..] == GidClass(b)[3..] == NatToString(b);
    DecimalOfNatToString(a);
    DecimalOfNatToString(b);
  }

  /** Link `i` is listed by the first pass: not the village centre, and its
      class holds both 'good' and the gid class (as substrings). */
  predicate IsTarget(links: seq<FieldLink>, i: int, gid: nat)
  {
    1 <= i < |links| && Contains(links[i].cls, "good") && Contains(links[i].cls, GidClass(gid))
  }

  /** Link `i` is a target that is not under construction: a field whose level is compared. */
  predicate IsCandidate(links: seq<FieldLink>, i: int, gid: nat)
  {
    IsTarget(links, i, gid) && !Contains(links[i].cls, "underConstruction")
  }

  /** Every compared field of this gid has a readable level. */
  predicate LevelsReadable(links: seq<FieldLink>, gid: nat)
  {
    forall i :: 0 <= i < |links| && IsCandidate(links, i, gid) ==> ParseLevel(links[i].levelText).Ok?
  }

  function LevelAt(links: seq<FieldLink>, i: nat): nat
    requires i < |links| && ParseLevel(links[i].levelText).Ok?
  {
    ParseLevel(links[i].levelText).value
  }

  /** No compared field of this gid has a level below `bound`. */
  predicate NoneBelow(links: seq<FieldLink>, gid: nat, bound: nat)
    requires LevelsReadable(links, gid)
  {
    forall i :: 0 <= i < |links| && IsCandidate(links, i, gid) ==> LevelAt(links, i) >= bound
  }

  /** `found` is what `find_lowest_level_field_of_type` returns: the first
      compared field, in page order, of the strictly lowest level below 999,
      or nothing when no such field exists. */
  predicate IsLowestOfType(links: seq<FieldLink>, gid: nat, found: Option<nat>)
    requires LevelsReadable(links, gid)
  {
    match found
    case None => NoneBelow(links, gid, NoLevel)
    case Some(f) =>
      && IsCandidate(links, f, gid) && LevelAt(links, f) < NoLevel
      && NoneBelow(links, gid, LevelAt(links, f))
      && forall i :: 0 <= i < f && IsCandidate(links, i, gid) ==> LevelAt(links, i) > LevelAt(links, f)
  }

  /** `targets` lists every target link of this gid exactly once, in page order. */
  predicate IsTargetList(links: seq<FieldLink>, gid: nat, targets: seq<nat>)
  {
    && (forall k :: 0 <= k < |targets| ==> IsTarget(links, targets[k], gid))
    && (forall a, b :: 0 <= a < b < |targets| ==> targets[a] < targets[b])
    && (forall j :: 0 <= j < |links| && IsTarget(links, j, gid) ==> j in targets)
  }

  /** The first pass of `find_lowest_level_field_of_type`: links 2 to n in
      XPath numbering (1 to n - 1 here) whose class holds 'good' and the gid. */
  method CollectTargets(links: seq<FieldLink>, gid: nat) returns (targets: seq<nat>)
    ensures IsTargetList(links, gid, targets)
  {
    targets := [];
    var i := 1;
    while i < |links|
      invariant forall k :: 0 <= k < |targets| ==> IsTarget(links, targets[k], gid) && targets[k] < i
      invariant forall a, b :: 0 <= a < b < |targets| ==> targets[a] < targets[b]
      invariant forall j :: 0 <= j < i && IsTarget(links, j, gid) ==> j in targets
    {
      if Contains(links[i].cls, "good") && Contains(links[i].cls, GidClass(gid)) {
        targets := targets + [i];
      }
      i := i + 1;
    }
  }

  /** The second pass over the first `k` targets has met only readable
      levels, and `lowestField`/`lowest` hold the first strictly lowest. */
  predicate ScannedTargets(links: seq<FieldLink>, gid: nat, targets: seq<nat>, k: nat,
                           lowestField: Option<nat>, lowest: nat)
    requires forall m :: 0 <= m < |targets| ==> targets[m] < |links|
    requires k <= |targets|
  {
    && (forall m :: 0 <= m < k && IsCandidate(links, targets[m], gid) ==> ParseLevel(links[targets[m]].levelText).Ok?)
    && (forall m :: 0 <= m < k && IsCandidate(links, targets[m], gid) ==> LevelAt(links, targets[m]) >= lowest)
    && (lowestField.None? ==> lowest == NoLevel)
    && (lowestField.Some? ==>
          && (exists m :: 0 <= m < k && targets[m] == lowestField.value)
          && IsCandidate(links, lowestField.value, gid)
          && ParseLevel(links[lowestField.value].levelText) == Ok(lowest) && lowest < NoLevel
          && forall m :: 0 <= m < k && IsCandidate(links, targets[m], gid) && targets[m] < lowestField.value ==>
                           LevelAt(links, targets[m]) > lowest)
  }

  /** `find_lowest_level_field_of_type(driver, gid)`: the targets are
      collected first, then compared; an unreadable level raises. */
  method FindLowestLevelFieldOfType(links: seq<FieldLink>, gid: nat) returns (r: Result<Option<nat>>)
    ensures r.Err? <==> !LevelsReadable(links, gid)
    ensures r.Err? ==> r.error == ValueError
    ensures r.Ok? ==> IsLowestOfType(links, gid, r.value)
  {
    var targets := CollectTargets(links, gid);
    var lowestField: Option<nat> := None;
    var lowest := NoLevel;
    for k := 0 to |targets|
      invariant ScannedTargets(links, gid, targets, k, lowestField, lowest)
    {
      var field := targets[k];
      if Contains(links[field].cls, "underConstruction") {
        ScanStepSkip(links, gid, targets, k, lowestField, lowest);
        continue;
      }
      var level := ParseLevel(links[field].levelText);
      if level.Err? {
        return Err(level.error);
      }
      if level.value < lowest {
        ScanStepLower(links, gid, targets, k, lowestField, lowest);
        lowestField := Some(field);
        lowest := level.value;
      } else {
        ScanStepNotLower(links, gid, targets, k, lowestField, lowest);
      }
    }
    ScanComplete(links, gid, targets, lowestField, lowest);
    r := Ok(lowestField);
  }

  /** A strictly lower level takes the place of the best so far. */
  lemma ScanStepLower(links: seq<FieldLink>, gid: nat, targets: seq<nat>, k: nat,
                      lowestField: Option<nat>, lowest: nat)
    requires IsTargetList(links, gid, targets) && k < |targets|
    requires ScannedTargets(links, gid, targets, k, lowestField, lowest)
    requires IsCandidate(links, targets[k], gid) && ParseLevel(links[targets[k]].levelText).Ok?
    requires LevelAt(links, targets[k]) < lowest
    ensures ScannedTargets(links, gid, targets, k + 1, Some(targets[k]), LevelAt(links, targets[k]))
  {
    var l := LevelAt(links, targets[k]);
    assert lowest <= NoLevel;
    forall m | 0 <= m < k + 1 && IsCandidate(links, targets[m], gid)
      ensures ParseLevel(links[targets[m]].levelText).Ok? && LevelAt(links, targets[m]) >= l
    {
    }
    assert targets[k] == Some(targets[k]).value;
  }

  /** A level that is not strictly lower leaves the best so far, which comes earlier in page order. */
  lemma ScanStepNotLower(links: seq<FieldLink>, gid: nat, targets: seq<nat>, k: nat,
                         lowestField: Option<nat>, lowest: nat)
    requires IsTargetList(links, gid, targets) && k < |targets|
    requires ScannedTargets(links, gid, targets, k, lowestField, lowest)
    requires IsCandidate(links, targets[k], gid) && ParseLevel(links[targets[k]].levelText).Ok?
    requires LevelAt(links, targets[k]) >= lowest
    ensures ScannedTargets(links, gid, targets, k + 1, lowestField, lowest)
  {
    if lowestField.Some? {
      var a :| 0 <= a < k && targets[a] == lowestField.value;
      assert targets[a] < targets[k];
    }
  }

  /** Skipping a field under construction changes nothing. */
  lemma ScanStepSkip(links: seq<FieldLink>, gid: nat, targets: seq<nat>, k: nat,
                     lowestField: Option<nat>, lowest: nat)
    requires IsTargetList(links, gid, targets) && k < |targets|
    requires ScannedTargets(links, gid, targets, k, lowestField, lowest)
    requires !IsCandidate(links, targets[k], gid)
    ensures ScannedTargets(links, gid, targets, k + 1, lowestField, lowest)
  {
  }

  lemma ScanComplete(links: seq<FieldLink>, gid: nat, targets: seq<nat>, lowestField: Option<nat>, lowest: nat)
    requires IsTargetList(links, gid, targets)
    requires ScannedTargets(links, gid, targets, |targets|, lowestField, lowest)
    ensures LevelsReadable(links, gid)
    ensures IsLowestOfType(links, gid, lowestField)
  {
    forall i | 0 <= i < |links| && IsCandidate(links, i, gid)
      ensures ParseLevel(links[i].levelText).Ok?
      ensures LevelAt(links, i) >= lowest
      ensures lowestField.Some? && i < lowestField.value ==> LevelAt(links, i) > lowest
    {
      var m :| 0 <= m < |targets| && targets[m] == i;
    }
  }

  /** Every gid type's compared fields have readable levels. */
  predicate AllLevelsReadable(links: seq<FieldLink>)
  {
    forall t :: 0 <= t < |GidTypes| ==> LevelsReadable(links, GidTypes[t])
  }

  /** `found` is the field `attempt_to_upgrade_lowest_level_field` clicks:
      over every gid type, the lowest level below 999; among the fields at
      that level, the first in WOOD, CLAY, IRON, WHEAT order and then in
      page order. Nothing when no field is below 999. */
  predicate IsFieldToUpgrade(links: seq<FieldLink>, found: Option<nat>)
    requires AllLevelsReadable(links)
  {
    match found
    case None => forall t :: 0 <= t < |GidTypes| ==> NoneBelow(links, GidTypes[t], NoLevel)
    case Some(f) => exists t :: 0 <= t < |GidTypes| && WinsAt(links, t, f)
  }

  /** Field `f` is the lowest of gid type `t`, no type goes below its
      level, and every earlier type stays strictly above it. */
  predicate WinsAt(links: seq<FieldLink>, t: nat, f: nat)
    requires AllLevelsReadable(links) && t < |GidTypes|
  {
    && IsLowestOfType(links, GidTypes[t], Some(f))
    && (forall u :: 0 <= u < |GidTypes| ==> NoneBelow(links, GidTypes[u], LevelAt(links, f)))
    && (forall u :: 0 <= u < t ==> NoneBelow(links, GidTypes[u], LevelAt(links, f) + 1))
  }

  /** The gid loop has looked at the first `t` gid types: all of them have
      readable levels, none goes below `lowest`, and `lowestField` is the
      lowest field of type `winner`, with every earlier type strictly above it. */
  predicate GidsScanned(links: seq<FieldLink>, t: nat, lowestField: Option<nat>, lowest: nat, winner: nat)
    requires t <= |GidTypes|
  {
    && (forall u :: 0 <= u < t ==> LevelsReadable(links, GidTypes[u]) && NoneBelow(links, GidTypes[u], lowest))
    && (lowestField.None? ==> lowest == NoLevel)
    && (lowestField.Some? ==>
          && winner < t && LevelsReadable(links, GidTypes[winner])
          && IsLowestOfType(links, GidTypes[winner], lowestField)
          && LevelAt(links, lowestField.value) == lowest
          && forall u :: 0 <= u < winner ==> NoneBelow(links, GidTypes[u], lowest + 1))
  }

  /** A type whose lowest field is strictly lower than the best so far takes over. */
  lemma GidStepLower(links: seq<FieldLink>, t: nat, lowestField: Option<nat>, lowest: nat, winner: nat, found: nat)
    requires t < |GidTypes| && GidsScanned(links, t, lowestField, lowest, winner)
    requires LevelsReadable(links, GidTypes[t]) && IsLowestOfType(links, GidTypes[t], Some(found))
    requires LevelAt(links, found) < lowest
    ensures GidsScanned(links, t + 1, Some(found), LevelAt(links, found), t)
  {
    var l := LevelAt(links, found);
    forall u | 0 <= u < t + 1
      ensures LevelsReadable(links, GidTypes[u]) && NoneBelow(links, GidTypes[u], l)
    {
    }
    forall u | 0 <= u < t
      ensures NoneBelow(links, GidTypes[u], l + 1)
    {
    }
  }

  /** A type with nothing strictly lower leaves the best so far in place. */
  lemma GidStepKeep(links: seq<FieldLink>, t: nat, lowestField: Option<nat>, lowest: nat, winner: nat, found: Option<nat>)
    requires t < |GidTypes| && GidsScanned(links, t, lowestField, lowest, winner)
    requires LevelsReadable(links, GidTypes[t]) && IsLowestOfType(links, GidTypes[t], found)
    requires found.Some? ==> LevelAt(links, found.value) >= lowest
    ensures GidsScanned(links, t + 1, lowestField, lowest, winner)
  {
    assert lowest <= NoLevel;
    assert NoneBelow(links, GidTypes[t], lowest);
  }

  lemma GidsComplete(links: seq<FieldLink>, lowestField: Option<nat>, lowest: nat, winner: nat)
    requires GidsScanned(links, |GidTypes|, lowestField, lowest, winner)
    ensures AllLevelsReadable(links)
    ensures IsFieldToUpgrade(links, lowestField)
  {
    if lowestField.Some? {
      assert WinsAt(links, winner, lowestField.value);
    }
  }

  /** The gid loop of `attempt_to_upgrade_lowest_level_field`: the lowest
      field of each type, kept when strictly lower than the best so far. */
  method ChooseFieldToUpgrade(links: seq<FieldLink>) returns (r: Result<Option<nat>>)
    ensures r.Err? <==> !AllLevelsReadable(links)
    ensures r.Err? ==> r.error == ValueError
    ensures r.Ok? ==> IsFieldToUpgrade(links, r.value)
  {
    var lowestField: Option<nat> := None;
    var lowest := NoLevel;
    ghost var winner := 0;
    for t := 0 to |GidTypes|
      invariant GidsScanned(links, t, lowestField, lowest, winner)
    {
      var field := FindLowestLevelFieldOfType(links, GidTypes[t]);
      if field.Err? {
        return Err(field.error);
      }
      if field.value.Some? && LevelAt(links, field.value.value) < lowest {
        GidStepLower(links, t, lowestField, lowest, winner, field.value.value);
        lowestField := field.value;
        lowest := LevelAt(links, field.value.value);
        winner := t;
      } else {
        GidStepKeep(links, t, lowestField, lowest, winner, field.value);
      }
    }
    GidsComplete(links, lowestField, lowest, winner);
    r := Ok(lowestField);
  }

  lemma CandidateAtLeast(links: seq<FieldLink>, gid: nat, bound: nat, i: nat)
    requires LevelsReadable(links, gid) && NoneBelow(links, gid, bound)
    requires i < |links| && IsCandidate(links, i, gid)
    ensures LevelAt(links, i) >= bound
  {
  }

  lemma EarlierTypesStayAbove(links: seq<FieldLink>, t: nat, f: nat)
    requires AllLevelsReadable(links) && t < |GidTypes| && WinsAt(links, t, f)
    ensures forall u, i :: 0 <= u < t && 0 <= i < |links| && IsCandidate(links, i, GidTypes[u]) ==>
                             LevelAt(links, i) > LevelAt(links, f)
  {
    forall u, i | 0 <= u < t && 0 <= i < |links| && IsCandidate(links, i, GidTypes[u])
      ensures LevelAt(links, i) > LevelAt(links, f)
    {
      CandidateAtLeast(links, GidTypes[u], LevelAt(links, f) + 1, i);
    }
  }

  /** Within one gid type the first strictly lowest field is unique. */
  lemma LowestOfTypeIsUnique(links: seq<FieldLink>, gid: nat, a: nat, b: nat)
    requires LevelsReadable(links, gid)
    requires IsLowestOfType(links, gid, Some(a)) && IsLowestOfType(links, gid, Some(b))
    ensures a == b
  {
    CandidateAtLeast(links, gid, LevelAt(links, b), a);
    CandidateAtLeast(links, gid, LevelAt(links, a), b);
  }

  /** The choice leaves nothing open: on one page at most one field is the
      one to upgrade. */
  lemma FieldToUpgradeIsUnique(links: seq<FieldLink>, f: Option<nat>, g: Option<nat>)
    requires AllLevelsReadable(links)
    requires IsFieldToUpgrade(links, f) && IsFieldToUpgrade(links, g)
    ensures f == g
  {
    if f.Some? && g.Some? {
      var a, b := f.value, g.value;
      var ta :| 0 <= ta < |GidTypes| && WinsAt(links, ta, a);
      var tb :| 0 <= tb < |GidTypes| && WinsAt(links, tb, b);
      CandidateAtLeast(links, GidTypes[ta], LevelAt(links, b), a);
      CandidateAtLeast(links, GidTypes[tb], LevelAt(links, a), b);
      EarlierTypesStayAbove(links, ta, a);
      EarlierTypesStayAbove(links, tb, b);
      if ta == tb {
        LowestOfTypeIsUnique(links, GidTypes[ta], a, b);
      }
    }
  }
}
