/**
 Recorded rows: the harness's report (adapters/conformance/report.py), its ingestion into a result
 set and the platform precondition (conformance/adapter.py, conformance/model.py).
 */
module Reports {
  import opened Wrappers
  import opened SkipCauses
  import Grading

  datatype Status = Pass | Fail | Skip

  /** One recorded check. Titles are left out. */
  datatype CheckResult = CheckResult(id: string, status: Status, level: string, detail: string)

  datatype Refusal = NoCause | AlreadyRecorded

  predicate Unused(results: seq<CheckResult>, id: string) {
    forall i :: 0 <= i < |results| ==> results[i].id != id
  }

  predicate UniqueIds(results: seq<CheckResult>) {
    forall i, j :: 0 <= i < j < |results| ==> results[i].id != results[j].id
  }

  // ---- The harness's report ----

  ghost predicate HarnessAccepts(r: CheckResult) {
    r.status.Skip? ==> HarnessOf(r.detail).Some?
  }

  ghost predicate HarnessValid(results: seq<CheckResult>) {
    UniqueIds(results) && forall i :: 0 <= i < |results| ==> HarnessAccepts(results[i])
  }

  /** The skips of a harness report with their causes, in order. */
  ghost function HarnessSkips(results: seq<CheckResult>): seq<(string, HarnessCause)> {
    if results == [] then []
    else
      var r := results[|results| - 1];
      HarnessSkips(results[..|results| - 1])
      + if r.status.Skip? && HarnessOf(r.detail).Some? then [(r.id, HarnessOf(r.detail).value)] else []
  }

  method IsUnused(results: seq<CheckResult>, id: string) returns (unused: bool)
    ensures unused == Unused(results, id)
  {
    for i := 0 to |results|
      invariant Unused(results[..i], id)
    {
      if results[i].id == id {
        return false;
      }
    }
    assert results[..|results|] == results;
    return true;
  }

  class HarnessReport {
    var results: seq<CheckResult>

    constructor ()
      ensures results == []
    {
      results := [];
    }

    /** Records a row, or refuses it and changes nothing: a skip needs a cause, an id names one row. */
    method Add(r: CheckResult) returns (refusal: Option<Refusal>)
      requires HarnessValid(results)
      modifies this
      ensures HarnessValid(results)
      ensures refusal.None? <==> HarnessAccepts(r) && Unused(old(results), r.id)
      ensures results == if refusal.None? then old(results) + [r] else old(results)
    {
      if r.status.Skip? {
        var cause := HarnessCauseOf(r.detail);
        if cause.None? {
          return Some(NoCause);
        }
      }
      var unused := IsUnused(results, r.id);
      if !unused {
        return Some(AlreadyRecorded);
      }
      results := results + [r];
      return None;
    }

    method ListSkips() returns (out: seq<(string, HarnessCause)>)
      ensures out == HarnessSkips(results)
    {
      out := [];
      for i := 0 to |results|
        invariant out == HarnessSkips(results[..i])
      {
        assert results[..i + 1][..i] == results[..i];
        if results[i].status.Skip? {
          var cause := HarnessCauseOf(results[i].detail);
          if cause.Some? {
            out := out + [(results[i].id, cause.value)];
          }
        }
      }
      assert results[..|results|] == results;
    }
  }

  // ---- The result set ----

  ghost predicate Accepts(r: CheckResult) {
    r.status.Skip? ==> Of(r.detail).Some?
  }

  ghost predicate Valid(results: seq<CheckResult>) {
    UniqueIds(results) && forall i :: 0 <= i < |results| ==> Accepts(results[i])
  }

  ghost function Skips(results: seq<CheckResult>): seq<(string, Cause)> {
    if results == [] then []
    else
      var r := results[|results| - 1];
      Skips(results[..|results| - 1])
      + if r.status.Skip? && Of(r.detail).Some? then [(r.id, Of(r.detail).value)] else []
  }

  /** The rows of the harness's own preparation, which say nothing of the adapter. */
  predicate HarnessContext(id: string) {
    id == "C0.2" || id == "C0.3" || id == "C0.4"
  }

  /** The level a harness row is ingested at: harness context, one of the known levels, or MUST. */
  function IngestedLevel(id: string, level: string): string {
    if HarnessContext(id) then "context"
    else if level == "MUST" || level == "MUST NOT" || level == "SHOULD" || level == "MAY" || level == "context"
      then level
    else "MUST"
  }

  lemma IngestedLevelIsKnown(id: string, level: string)
    ensures IngestedLevel(id, level) in {"MUST", "MUST NOT", "SHOULD", "MAY", "context"}
    ensures IngestedLevel(id, level) == "context" <==> HarnessContext(id) || level == "context"
    ensures HarnessContext(id) <==> id in ["C0.2", "C0.3", "C0.4"]
  {
  }

  function Ingested(r: CheckResult): CheckResult {
    r.(level := IngestedLevel(r.id, r.level))
  }

  function AllIngested(results: seq<CheckResult>): seq<CheckResult> {
    if results == [] then [] else AllIngested(results[..|results| - 1]) + [Ingested(results[|results| - 1])]
  }

  /** The checks that a platform with no motion channel of its own cannot establish. */
  predicate NeedsMotionChannel(id: string) {
    id == "C3.6" || id == "C5.2" || id == "C5.3" || id == "C8.3" || id == "C14.1"
  }

  datatype Finding = Met | Unmet | Unknown

  /** The odometry topics of a plant declaration and how each was found to read. */
  type Odometry = map<string, string>

  function FindingOf(odometry: Odometry): Finding {
    if exists t <- odometry :: odometry[t] == "measured" then Met
    else if odometry != map[] && forall t <- odometry :: odometry[t] == "command-derived" then Unmet
    else Unknown
  }

  /** Some topic was found to be measured. */
  ghost predicate HasMeasured(odometry: Odometry) {
    exists t :: t in odometry && odometry[t] == "measured"
  }

  /** There is a topic, and each was found to be derived from the commands. */
  ghost predicate AllDerived(odometry: Odometry) {
    (exists t :: t in odometry) && forall t :: t in odometry ==> odometry[t] == "command-derived"
  }

  lemma FindingIs(odometry: Odometry)
    ensures FindingOf(odometry) == Met <==> HasMeasured(odometry)
    ensures FindingOf(odometry) == Unmet <==> AllDerived(odometry)
    ensures FindingOf(odometry) == Unknown <==> !HasMeasured(odometry) && !AllDerived(odometry)
  {
    if odometry != map[] {
      var t :| t in odometry;
    }
    if t :| t in odometry && odometry[t] == "measured" {
      assert odometry[t] != "command-derived";
    }
  }

  /** A row re-recorded as a skip. */
  function Unestablished(r: CheckResult, c: Cause, because: string): CheckResult {
    r.(status := Skip, detail := Spelling(c) + because)
  }

  /** How the precondition leaves a row; `why` and `note` are the wording of the report. */
  function Preconditioned(r: CheckResult, finding: Finding, why: string, note: string): CheckResult {
    if !NeedsMotionChannel(r.id) then r
    else if finding == Unmet then
      Unestablished(r, NoIndependentMotionChannel, ": " + why + r.detail)
    else r.(detail := r.detail + "; " + note)
  }

  /** The five checks by id. */
  predicate IsMotionCheck(id: string) {
    id in ["C3.6", "C5.2", "C5.3", "C8.3", "C14.1"]
  }

  /** Each of the five is a skip of the platform, its old detail kept at the end; no other row changed. */
  ghost predicate SkippedForThePlatform(r: CheckResult, after: CheckResult) {
    if IsMotionCheck(r.id) then
      && after.id == r.id && after.level == r.level
      && OutcomeOf(after) == Grading.Skipped(Some(NoIndependentMotionChannel))
      && |after.detail| >= |r.detail| && after.detail[|after.detail| - |r.detail|..] == r.detail
    else after == r
  }

  /** Each of the five keeps its status and its cause, its old detail kept at the start; no other row changed. */
  ghost predicate KeptAsRecorded(r: CheckResult, after: CheckResult) {
    if IsMotionCheck(r.id) then
      && after == r.(detail := after.detail) && OutcomeOf(after) == OutcomeOf(r) && r.detail < after.detail
    else after == r
  }

  lemma RowSkipped(r: CheckResult, why: string, note: string)
    ensures SkippedForThePlatform(r, Preconditioned(r, Unmet, why, note))
  {
    if NeedsMotionChannel(r.id) {
      var detail := Spelling(NoIndependentMotionChannel) + (": " + why + r.detail);
      assert detail == Spelling(NoIndependentMotionChannel) + (": " + why) + r.detail;
    }
  }

  lemma RowKept(r: CheckResult, finding: Finding, why: string, note: string)
    requires finding != Unmet
    ensures KeptAsRecorded(r, Preconditioned(r, finding, why, note))
  {
    if NeedsMotionChannel(r.id) {
      assert r.detail + "; " + note == r.detail + ("; " + note);
      NotesKeepTheCause(r.detail, "; " + note);
    }
  }

  lemma PreconditionedRows(
    results: seq<CheckResult>, after: seq<CheckResult>, finding: Finding, why: string, note: string)
    requires IsPreconditioned(results, after, finding, why, note)
    ensures finding == Unmet ==> forall i :: 0 <= i < |after| ==> SkippedForThePlatform(results[i], after[i])
    ensures finding != Unmet ==> forall i :: 0 <= i < |after| ==> KeptAsRecorded(results[i], after[i])
  {
    forall i | 0 <= i < |after|
      ensures finding == Unmet ==> SkippedForThePlatform(results[i], after[i])
      ensures finding != Unmet ==> KeptAsRecorded(results[i], after[i])
    {
      if finding == Unmet {
        RowSkipped(results[i], why, note);
      } else {
        RowKept(results[i], finding, why, note);
      }
    }
  }

  class ResultSet {
    var results: seq<CheckResult>

    constructor ()
      ensures results == []
    {
      results := [];
    }

    method Add(r: CheckResult) returns (refusal: Option<Refusal>)
      requires Valid(results)
      modifies this
      ensures Valid(results)
      ensures refusal.None? <==> Accepts(r) && Unused(old(results), r.id)
      ensures results == if refusal.None? then old(results) + [r] else old(results)
    {
      if r.status.Skip? {
        var cause := CauseOf(r.detail);
        if cause.None? {
          return Some(NoCause);
        }
      }
      var unused := IsUnused(results, r.id);
      if !unused {
        return Some(AlreadyRecorded);
      }
      results := results + [r];
      return None;
    }

    /** Appends a harness report's rows, unchecked. */
    method Ingest(rows: seq<CheckResult>)
      modifies this
      ensures results == old(results) + AllIngested(rows)
    {
      for i := 0 to |rows|
        invariant results == old(results) + AllIngested(rows[..i])
      {
        assert rows[..i + 1][..i] == rows[..i];
        results := results + [Ingested(rows[i])];
      }
      assert rows[..|rows|] == rows;
    }

    /** None without a plant declaration, or where no row depends on the precondition. */
    method ApplyPlatformPrecondition(plant: Option<Odometry>, why: string, note: string)
      returns (finding: Option<Finding>)
      modifies this
      ensures plant.None? ==> finding.None? && results == old(results)
      ensures plant.Some? ==>
        && |results| == |old(results)|
        && (forall i :: 0 <= i < |results| ==>
          results[i] == Preconditioned(old(results)[i], FindingOf(plant.value), why, note))
        && finding == if exists i :: 0 <= i < |results| && NeedsMotionChannel(results[i].id)
                      then Some(FindingOf(plant.value)) else None
      ensures plant.Some? && AllDerived(plant.value) ==>
        (forall i :: 0 <= i < |results| ==> SkippedForThePlatform(old(results)[i], results[i]))
      ensures plant.Some? && !AllDerived(plant.value) ==>
        (forall i :: 0 <= i < |results| ==> KeptAsRecorded(old(results)[i], results[i]))
      ensures plant.Some? && finding.Some? ==>
        && (finding.value == Met <==> HasMeasured(plant.value))
        && (finding.value == Unmet <==> AllDerived(plant.value))
    {
      if plant.None? {
        return None;
      }
      var found := FindingOf(plant.value);
      var seen := false;
      for i := 0 to |results|
        invariant |results| == |old(results)|
        invariant forall j :: 0 <= j < i ==> results[j] == Preconditioned(old(results)[j], found, why, note)
        invariant forall j :: i <= j < |results| ==> results[j] == old(results)[j]
        invariant seen <==> exists j :: 0 <= j < i && NeedsMotionChannel(results[j].id)
      {
        var r := results[i];
        if NeedsMotionChannel(r.id) {
          seen := true;
          if found == Unmet {
            results := results[i := Unestablished(r, NoIndependentMotionChannel, ": " + why + r.detail)];
          } else {
            results := results[i := r.(detail := r.detail + "; " + note)];
          }
          assert NeedsMotionChannel(results[i].id);
        }
      }
      FindingIs(plant.value);
      PreconditionedRows(old(results), results, found, why, note);
      return if seen then Some(found) else None;
    }
  }

  // ---- Causes survive ingestion ----

  lemma {:induction false} IngestedAt(results: seq<CheckResult>, i: nat)
    requires i < |results|
    ensures |AllIngested(results)| == |results| && AllIngested(results)[i] == Ingested(results[i])
  {
    var n := |results| - 1;
    if n > 0 {
      IngestedAt(results[..n], if i < n then i else 0);
    }
  }

  lemma {:induction false} IngestedLength(results: seq<CheckResult>)
    ensures |AllIngested(results)| == |results|
  {
    if results != [] {
      IngestedLength(results[..|results| - 1]);
    }
  }

  /** A report the harness accepted is one the profile layer accepts: no skip becomes unenumerated. */
  lemma IngestedIsValid(results: seq<CheckResult>)
    requires HarnessValid(results)
    ensures Valid(AllIngested(results))
  {
    IngestedLength(results);
    var after := AllIngested(results);
    forall i | 0 <= i < |after|
      ensures Accepts(after[i]) && after[i].id == results[i].id
    {
      IngestedAt(results, i);
      assert HarnessAccepts(results[i]);
      if results[i].status.Skip? {
        ReadingsAgree(results[i].detail);
      }
    }
  }

  function Translated(skips: seq<(string, HarnessCause)>): seq<(string, Cause)> {
    if skips == [] then []
    else Translated(skips[..|skips| - 1]) + [(skips[|skips| - 1].0, Translate(skips[|skips| - 1].1))]
  }

  lemma TranslatedStep(skips: seq<(string, HarnessCause)>, id: string, k: HarnessCause)
    ensures Translated(skips + [(id, k)]) == Translated(skips) + [(id, Translate(k))]
  {
  }

  /** The skips listed after ingestion are those the harness listed, in order, each under its translated cause. */
  lemma {:induction false} SkipsAreTranslated(results: seq<CheckResult>)
    requires forall i :: 0 <= i < |results| ==> HarnessAccepts(results[i])
    ensures Skips(AllIngested(results)) == Translated(HarnessSkips(results))
  {
    if results != [] {
      var n := |results| - 1;
      var before, r := results[..n], results[n];
      SkipsAreTranslated(before);
      SkipsStep(AllIngested(before), Ingested(r));
      if r.status.Skip? {
        assert HarnessAccepts(r);
        ReadingsAgree(r.detail);
        TranslatedStep(HarnessSkips(before), r.id, HarnessOf(r.detail).value);
      } else {
        assert HarnessSkips(before) + [] == HarnessSkips(before);
      }
    }
  }

  lemma SkipsStep(results: seq<CheckResult>, r: CheckResult)
    ensures Skips(results + [r])
         == Skips(results) + if r.status.Skip? && Of(r.detail).Some? then [(r.id, Of(r.detail).value)] else []
  {
  }

  // ---- Rows for grading ----

  ghost function OutcomeOf(r: CheckResult): Grading.Outcome {
    match r.status
    case Pass => Grading.Passed
    case Fail => Grading.Missed
    case Skip => Grading.Skipped(Of(r.detail))
  }

  ghost function ObservedOf(r: CheckResult): string {
    Observation(r.detail, if r.status.Skip? then Of(r.detail) else None)
  }

  ghost function RowOf(r: CheckResult): Grading.Row {
    Grading.Row(r.id, r.level == "context", OutcomeOf(r), ObservedOf(r))
  }

  ghost function RowsOf(results: seq<CheckResult>): (rows: seq<Grading.Row>)
    ensures |rows| == |results|
    ensures forall i :: 0 <= i < |results| ==> rows[i] == RowOf(results[i])
  {
    if results == [] then [] else RowsOf(results[..|results| - 1]) + [RowOf(results[|results| - 1])]
  }

  method ReadRow(r: CheckResult) returns (row: Grading.Row)
    ensures row == RowOf(r)
  {
    match r.status
    case Pass => return Grading.Row(r.id, r.level == "context", Grading.Passed, Observation(r.detail, None));
    case Fail => return Grading.Row(r.id, r.level == "context", Grading.Missed, Observation(r.detail, None));
    case Skip =>
      var cause := CauseOf(r.detail);
      return Grading.Row(r.id, r.level == "context", Grading.Skipped(cause), Observation(r.detail, cause));
  }

  /** No row of a valid result set can make grading raise an unenumerated cause. */
  lemma ValidRowsAreEnumerated(results: seq<CheckResult>)
    requires Valid(results)
    ensures Grading.AllEnumerated(RowsOf(results))
  {
  }

  /** In a valid result set no row hides another: each is the one that is graded under its id. */
  lemma {:induction false} NoRowIsHidden(results: seq<CheckResult>, i: nat)
    requires UniqueIds(results) && i < |results|
    ensures results[i].id in Grading.ById(RowsOf(results))
    ensures Grading.ById(RowsOf(results))[results[i].id] == RowOf(results[i])
  {
    var n := |results| - 1;
    var before, rows := results[..n], RowsOf(results);
    assert rows[..n] == RowsOf(before);
    if i < n {
      NoRowIsHidden(before, i);
      assert rows[n].id != results[i].id;
    }
  }

  // ---- The harness's own preparation ----

  /** Two harness reports whose rows agree, but for what was recorded of the harness's own preparation. */
  ghost predicate SameButContext(results: seq<CheckResult>, after: seq<CheckResult>) {
    && |after| == |results|
    && forall i :: 0 <= i < |results| ==> SameRowButContext(results[i], after[i])
  }

  predicate SameRowButContext(r: CheckResult, a: CheckResult) {
    a == r || (a.id == r.id && HarnessContext(r.id))
  }

  lemma {:induction false} SameButContextCounts(results: seq<CheckResult>, after: seq<CheckResult>)
    requires SameButContext(results, after)
    ensures Grading.Counting(RowsOf(AllIngested(results))) == Grading.Counting(RowsOf(AllIngested(after)))
  {
    if results != [] {
      var n := |results| - 1;
      var before, later := AllIngested(results[..n]), AllIngested(after[..n]);
      SameButContextCounts(results[..n], after[..n]);
      assert SameRowButContext(results[n], after[n]);
      IngestedLevelIsKnown(results[n].id, results[n].level);
      IngestedLevelIsKnown(after[n].id, after[n].level);
      CountingOfMore(before, Ingested(results[n]));
      CountingOfMore(later, Ingested(after[n]));
    }
  }

  lemma CountingOfMore(results: seq<CheckResult>, r: CheckResult)
    ensures Grading.Counting(RowsOf(results + [r]))
         == Grading.Counting(RowsOf(results)) + if r.level == "context" then [] else [RowOf(r)]
  {
    assert (results + [r])[..|results|] == results;
    assert RowsOf(results + [r])[..|results|] == RowsOf(results);
  }

  /** Whatever the harness recorded of its own preparation, passed, failed or skipped, the verdict is the same. */
  lemma PreparationHasNoSay(
    s: Grading.Surface, results: seq<CheckResult>, after: seq<CheckResult>, tier: string,
    applicable: map<string, bool>, hardware: bool, unlocks: Grading.Unlocks)
    requires SameButContext(results, after)
    ensures Grading.RunVerdict(s, RowsOf(AllIngested(results)), tier, applicable, hardware, unlocks)
         == Grading.RunVerdict(s, RowsOf(AllIngested(after)), tier, applicable, hardware, unlocks)
  {
    Grading.ContextHasNoSay(s, RowsOf(AllIngested(results)), tier, applicable, hardware, unlocks);
    Grading.ContextHasNoSay(s, RowsOf(AllIngested(after)), tier, applicable, hardware, unlocks);
    SameButContextCounts(results, after);
  }

  // ---- The platform precondition ----

  ghost predicate IsPreconditioned(results: seq<CheckResult>, after: seq<CheckResult>, finding: Finding, why: string,
      note: string) {
    && |after| == |results|
    && forall i :: 0 <= i < |results| ==> after[i] == Preconditioned(results[i], finding, why, note)
  }

  lemma UnmetRow(r: CheckResult, why: string, note: string)
    ensures Grading.RegradedRow(RowOf(r), RowOf(Preconditioned(r, Unmet, why, note)))
  {
  }

  lemma MetRow(r: CheckResult, finding: Finding, why: string, note: string)
    requires finding != Unmet
    ensures Grading.SameOutcome(RowOf(r), RowOf(Preconditioned(r, finding, why, note)))
  {
    if NeedsMotionChannel(r.id) {
      assert r.detail + "; " + note == r.detail + ("; " + note);
      NotesKeepTheCause(r.detail, "; " + note);
    }
  }

  /** On a platform that cannot confirm rest, applying the precondition never turns a verdict into a pass. */
  lemma UnmetNeverPasses(
    s: Grading.Surface, results: seq<CheckResult>, after: seq<CheckResult>, why: string, note: string, tier: string,
    applicable: map<string, bool>, hardware: bool, unlocks: Grading.Unlocks)
    requires IsPreconditioned(results, after, Unmet, why, note)
    requires Grading.Gradable(RowsOf(results), unlocks) && Grading.Gradable(RowsOf(after), unlocks)
    requires Grading.RunVerdict(s, RowsOf(results), tier, applicable, hardware, unlocks) != Grading.VerdictPass
    ensures Grading.RunVerdict(s, RowsOf(after), tier, applicable, hardware, unlocks) != Grading.VerdictPass
  {
    forall i | 0 <= i < |results|
      ensures Grading.RegradedRow(RowsOf(results)[i], RowsOf(after)[i])
    {
      UnmetRow(results[i], why, note);
    }
    if Grading.RunVerdict(s, RowsOf(after), tier, applicable, hardware, unlocks) == Grading.VerdictPass {
      Grading.RegradingNeverMakesAPass(s, RowsOf(results), RowsOf(after), tier, applicable, hardware, unlocks);
    }
  }

  /** On any other platform it adds a note and leaves the verdict as it was. */
  lemma OtherwiseVerdictStays(
    s: Grading.Surface, results: seq<CheckResult>, after: seq<CheckResult>, finding: Finding, why: string, note: string,
    tier: string, applicable: map<string, bool>, hardware: bool, unlocks: Grading.Unlocks)
    requires finding != Unmet && IsPreconditioned(results, after, finding, why, note)
    requires Grading.Gradable(RowsOf(results), unlocks)
    ensures Grading.RunVerdict(s, RowsOf(after), tier, applicable, hardware, unlocks)
         == Grading.RunVerdict(s, RowsOf(results), tier, applicable, hardware, unlocks)
  {
    forall i | 0 <= i < |results|
      ensures Grading.SameOutcome(RowsOf(results)[i], RowsOf(after)[i])
    {
      MetRow(results[i], finding, why, note);
    }
    Grading.SameOutcomesSameVerdict(s, RowsOf(results), RowsOf(after), tier, applicable, hardware, unlocks);
  }

  // ---- What the precondition says of the verdict ----

  /**
   Where every odometry topic is derived from the commands, each of the five rows ends as a skip of
   the platform, whatever it was; a Core check among them that the verdict reads is unestablished,
   on the platform's account if it has a row, and the verdict is not a pass.
   */
  lemma DerivedOdometryNeverPasses(
    s: Grading.Surface, results: seq<CheckResult>, after: seq<CheckResult>, odometry: Odometry, why: string,
    note: string, tier: string, applicable: map<string, bool>, hardware: bool, unlocks: Grading.Unlocks, id: string)
    requires AllDerived(odometry) && IsPreconditioned(results, after, FindingOf(odometry), why, note)
    requires Grading.Gradable(RowsOf(after), unlocks)
    requires IsMotionCheck(id) && Grading.ReadCore(s, tier, applicable, id)
    ensures forall i :: 0 <= i < |after| && IsMotionCheck(after[i].id) ==>
      OutcomeOf(after[i]) == Grading.Skipped(Some(NoIndependentMotionChannel))
    ensures Grading.RunVerdict(s, RowsOf(after), tier, applicable, hardware, unlocks) != Grading.VerdictPass
    ensures id in Grading.ById(Grading.Counting(RowsOf(after))) ==>
      Grading.Blocking(Grading.SheetOf(RowsOf(after), hardware, unlocks), id) == Some(Grading.NotSupportedByPlatform)
  {
    DerivedOdometrySkips(results, after, odometry, why, note);
    if id in Grading.ById(Grading.Counting(RowsOf(after))) {
      LastIsSkipped(after, id);
    }
    Grading.SkippedCoreBlocks(s, RowsOf(after), tier, applicable, hardware, unlocks, id);
  }

  lemma DerivedOdometrySkips(
    results: seq<CheckResult>, after: seq<CheckResult>, odometry: Odometry, why: string, note: string)
    requires AllDerived(odometry) && IsPreconditioned(results, after, FindingOf(odometry), why, note)
    ensures forall i :: 0 <= i < |after| ==> after[i].id == results[i].id
    ensures forall i :: 0 <= i < |after| && IsMotionCheck(after[i].id) ==>
      OutcomeOf(after[i]) == Grading.Skipped(Some(NoIndependentMotionChannel))
  {
    FindingIs(odometry);
    PreconditionedRows(results, after, FindingOf(odometry), why, note);
    forall i | 0 <= i < |after|
      ensures after[i].id == results[i].id
      ensures IsMotionCheck(after[i].id) ==>
        OutcomeOf(after[i]) == Grading.Skipped(Some(NoIndependentMotionChannel))
    {
      assert SkippedForThePlatform(results[i], after[i]);
    }
  }

  lemma {:induction false} LastIsSkipped(after: seq<CheckResult>, id: string)
    requires id in Grading.ById(Grading.Counting(RowsOf(after)))
    requires forall i :: 0 <= i < |after| && after[i].id == id ==>
      OutcomeOf(after[i]) == Grading.Skipped(Some(NoIndependentMotionChannel))
    ensures Grading.ById(Grading.Counting(RowsOf(after)))[id].outcome
         == Grading.Skipped(Some(NoIndependentMotionChannel))
  {
    Grading.LastCountingIsARow(RowsOf(after), id);
    var i :| 0 <= i < |after| && RowsOf(after)[i] == Grading.ById(Grading.Counting(RowsOf(after)))[id];
    assert RowOf(after[i]).id == id;
  }

  /** Where a topic was found to be measured, nothing is excused: no status, no cause and no verdict changes. */
  lemma MeasuredOdometryChangesNothing(
    s: Grading.Surface, results: seq<CheckResult>, after: seq<CheckResult>, odometry: Odometry, why: string,
    note: string, tier: string, applicable: map<string, bool>, hardware: bool, unlocks: Grading.Unlocks)
    requires HasMeasured(odometry) && IsPreconditioned(results, after, FindingOf(odometry), why, note)
    requires Grading.Gradable(RowsOf(results), unlocks)
    ensures FindingOf(odometry) == Met
    ensures forall i :: 0 <= i < |after| ==>
      && after[i].id == results[i].id && after[i].status == results[i].status
      && OutcomeOf(after[i]) == OutcomeOf(results[i])
    ensures Grading.RunVerdict(s, RowsOf(after), tier, applicable, hardware, unlocks)
         == Grading.RunVerdict(s, RowsOf(results), tier, applicable, hardware, unlocks)
  {
    FindingIs(odometry);
    PreconditionedRows(results, after, Met, why, note);
    forall i | 0 <= i < |after|
      ensures after[i].id == results[i].id && after[i].status == results[i].status
      ensures OutcomeOf(after[i]) == OutcomeOf(results[i])
    {
      assert KeptAsRecorded(results[i], after[i]);
    }
    OtherwiseVerdictStays(s, results, after, Met, why, note, tier, applicable, hardware, unlocks);
  }

  /** A gradable report stays gradable if what would unlock the platform's skip is on file for the five checks. */
  lemma DerivedOdometryIsGradable(
    results: seq<CheckResult>, after: seq<CheckResult>, odometry: Odometry, why: string, note: string,
    unlocks: Grading.Unlocks)
    requires AllDerived(odometry) && IsPreconditioned(results, after, FindingOf(odometry), why, note)
    requires Grading.Gradable(RowsOf(results), unlocks)
    requires forall id :: IsMotionCheck(id) ==>
      unlocks(id, NoIndependentMotionChannel).Some? && unlocks(id, NoIndependentMotionChannel).value != ""
    ensures Grading.Gradable(RowsOf(after), unlocks)
  {
    FindingIs(odometry);
    PreconditionedRows(results, after, Unmet, why, note);
    var rows, later := RowsOf(results), RowsOf(after);
    forall i | 0 <= i < |later| && !later[i].context
      ensures Grading.Enumerated(later[i]) && Grading.Unlockable(later[i], unlocks)
    {
      assert SkippedForThePlatform(results[i], after[i]);
      assert rows[i] == RowOf(results[i]) && later[i] == RowOf(after[i]);
    }
  }
}
