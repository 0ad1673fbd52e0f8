/**
 Grading a conformance run: support levels and the capability sheet (conformance/model.py), profiles
 (conformance/registry.py) and the verdict.

 A row here carries the cause that its detail names, read once; the source reads it from the detail
 at each use. The module of recorded rows does the reading.
 */
module Grading {
  import opened Wrappers
  import opened SkipCauses

  /** How a check came out. A skip whose detail names no cause is `Skipped(None)`. */
  datatype Outcome = Passed | Missed | Skipped(cause: Option<Cause>)

  /** `context`: recorded at the level of harness context, which counts toward nothing. */
  datatype Row = Row(id: string, context: bool, outcome: Outcome, observed: string)

  datatype Error = UnenumeratedSkipCause(id: string) | MissingUnlock(id: string)

  /** The causes that say the check was never an obligation of this implementation. */
  predicate NotApplicable(c: Cause) {
    || c == BindingNotDeclared
    || c == ContractNotDeclared
    || c == LegalAlternativePath
    || c == AdapterDeclaresNoSensorStream
    || c == AdapterDeclaresNoEnumParam
    || c == AdapterDeclaresNoCustomVerb
    || c == ContractPredatesObligation
  }

  predicate Enumerated(r: Row) {
    r.outcome != Skipped(None)
  }

  // ---- A support level ----

  datatype Kind = Pass | Fail | Skip | Inapplicable

  /** How a level counts a row. */
  function KindOf(r: Row): Kind {
    match r.outcome
    case Passed => Pass
    case Missed => Fail
    case Skipped(c) => if c.Some? && NotApplicable(c.value) then Inapplicable else Skip
  }

  function Tally(rows: seq<Row>, k: Kind): nat {
    if rows == [] then 0
    else Tally(rows[..|rows| - 1], k) + if KindOf(rows[|rows| - 1]) == k then 1 else 0
  }

  predicate Has(rows: seq<Row>, k: Kind) {
    exists i :: 0 <= i < |rows| && KindOf(rows[i]) == k
  }

  datatype LevelVerdict = LevelPass | LevelFail | LevelNotVerified | LevelNotApplicable

  datatype Stats = Stats(pass: nat, fail: nat, skip: nat, notApplicable: nat, skipped: seq<(string, Cause)>)

  datatype LevelResult = LevelResult(result: LevelVerdict, stats: Stats)

  /** What the rows establish: only Core can fail, and an unestablished obligation is never a pass. */
  function LevelVerdictOf(rows: seq<Row>, core: bool): LevelVerdict {
    if core && Has(rows, Fail) then LevelFail
    else if Has(rows, Fail) || Has(rows, Skip) then LevelNotVerified
    else if Has(rows, Pass) then LevelPass
    else LevelNotApplicable
  }

  lemma {:induction false} TallyIsPositiveIff(rows: seq<Row>, k: Kind)
    ensures Tally(rows, k) > 0 <==> Has(rows, k)
  {
    if rows != [] {
      var n := |rows| - 1;
      TallyIsPositiveIff(rows[..n], k);
      if i :| 0 <= i < n && KindOf(rows[..n][i]) == k {
        assert KindOf(rows[i]) == k;
      }
      if i :| 0 <= i < |rows| && KindOf(rows[i]) == k && i < n {
        assert KindOf(rows[..n][i]) == k;
      }
    }
  }

  /** Each row is counted once, under one of the four heads. */
  lemma {:induction false} TalliesAddUp(rows: seq<Row>)
    ensures Tally(rows, Pass) + Tally(rows, Fail) + Tally(rows, Skip) + Tally(rows, Inapplicable) == |rows|
  {
    if rows != [] {
      TalliesAddUp(rows[..|rows| - 1]);
    }
  }

  /** The skips a level lists, in order: those whose cause leaves the obligation standing. */
  function Listed(rows: seq<Row>): seq<(string, Cause)> {
    if rows == [] then []
    else
      var r := rows[|rows| - 1];
      Listed(rows[..|rows| - 1])
      + if KindOf(r) == Skip && r.outcome.cause.Some? then [(r.id, r.outcome.cause.value)] else []
  }

  function Counted(s: Stats, r: Row): Stats {
    match KindOf(r)
    case Pass => s.(pass := s.pass + 1)
    case Fail => s.(fail := s.fail + 1)
    case Inapplicable => s.(notApplicable := s.notApplicable + 1)
    case Skip =>
      s.(skip := s.skip + 1,
         skipped := s.skipped + if r.outcome.cause.Some? then [(r.id, r.outcome.cause.value)] else [])
  }

  function StatsOf(rows: seq<Row>): Stats {
    if rows == [] then Stats(0, 0, 0, 0, [])
    else Counted(StatsOf(rows[..|rows| - 1]), rows[|rows| - 1])
  }

  /** The statistics are the tallies of the four heads, and the list is of the standing skips, in order. */
  lemma {:induction false} StatsAreTallies(rows: seq<Row>)
    ensures var s := StatsOf(rows);
      && s.pass == Tally(rows, Pass) && s.fail == Tally(rows, Fail)
      && s.skip == Tally(rows, Skip) && s.notApplicable == Tally(rows, Inapplicable)
      && s.skipped == Listed(rows)
  {
    if rows != [] {
      StatsAreTallies(rows[..|rows| - 1]);
    }
  }

  lemma StatsStep(rows: seq<Row>, i: nat)
    requires i < |rows|
    ensures StatsOf(rows[..i + 1]) == Counted(StatsOf(rows[..i]), rows[i])
  {
    assert rows[..i + 1][..i] == rows[..i];
  }

  /** The verdict as the counts give it. */
  function CountsVerdict(s: Stats, core: bool): LevelVerdict {
    if s.fail > 0 && core then LevelFail
    else if s.fail > 0 || s.skip > 0 then LevelNotVerified
    else if s.pass > 0 then LevelPass
    else LevelNotApplicable
  }

  lemma CountsVerdictIs(rows: seq<Row>, core: bool)
    ensures CountsVerdict(StatsOf(rows), core) == LevelVerdictOf(rows, core)
  {
    StatsAreTallies(rows);
    TallyIsPositiveIff(rows, Fail);
    TallyIsPositiveIff(rows, Skip);
    TallyIsPositiveIff(rows, Pass);
  }

  method CountRow(s: Stats, row: Row) returns (r: Result<Stats, Error>)
    ensures r.Ok? <==> Enumerated(row)
    ensures r.Ok? ==> r.value == Counted(s, row)
  {
    match row.outcome
    case Passed => return Ok(s.(pass := s.pass + 1));
    case Missed => return Ok(s.(fail := s.fail + 1));
    case Skipped(cause) =>
      if cause.None? {
        return Err(UnenumeratedSkipCause(row.id));
      }
      if NotApplicable(cause.value) {
        return Ok(s.(notApplicable := s.notApplicable + 1));
      }
      return Ok(s.(skip := s.skip + 1, skipped := s.skipped + [(row.id, cause.value)]));
  }

  method Level(rows: seq<Row>, core: bool) returns (r: Result<LevelResult, Error>)
    ensures r.Ok? <==> forall i :: 0 <= i < |rows| ==> Enumerated(rows[i])
    ensures r.Ok? ==> r.value == LevelResult(LevelVerdictOf(rows, core), StatsOf(rows))
  {
    var stats := Stats(0, 0, 0, 0, []);
    for i := 0 to |rows|
      invariant forall j :: 0 <= j < i ==> Enumerated(rows[j])
      invariant stats == StatsOf(rows[..i])
    {
      StatsStep(rows, i);
      var counted := CountRow(stats, rows[i]);
      if counted.Err? {
        return Err(counted.error);
      }
      stats := counted.value;
    }
    assert rows[..|rows|] == rows;
    CountsVerdictIs(rows, core);
    return Ok(LevelResult(CountsVerdict(stats, core), stats));
  }

  // ---- The capability sheet ----

  datatype Grade =
    | MeasuredHardware
    | MeasuredSimulation
    | Failed
    | NotSupportedByPlatform
    | NotTestableHere
    | NotTestedSuiteGap

  predicate Measured(g: Grade) {
    g == MeasuredHardware || g == MeasuredSimulation
  }

  predicate UnlockDue(g: Grade) {
    g == NotSupportedByPlatform || g == NotTestableHere || g == NotTestedSuiteGap
  }

  /** A skipped row's grade is a function of its cause, and owes the reader an unlock. */
  function CauseGrade(c: Cause): (g: Grade)
    ensures UnlockDue(g)
    ensures NotApplicable(c) ==> g == NotSupportedByPlatform
  {
    match c
    case NotObservableOnWire | TargetDidNotReachState | NoTelemetryInRun | AllCoreSubjectsHonoured
       | NoMotionWitness => NotTestableHere
    case NeedsResidentTarget | NeedsLiveCluster | DeploymentProperty | NeedsExtendedRun
       | NeedsTargetRestart | RequiresSuccessfulReregistration => NotTestedSuiteGap
    case SurfaceNotImplemented | OptionalDeclined | OptionalNotExhibited | BindingNotDeclared
       | ContractNotDeclared | LegalAlternativePath | AdapterDeclaresNoOperatingSubject
       | AdapterDeclaresNoSensorStream | AdapterDeclaresNoAction | AdapterDeclaresNoRequiredParam
       | AdapterDeclaresNoEnumParam | AdapterDeclaresNoCustomVerb | ContractPredatesObligation
       | NoIndependentMotionChannel => NotSupportedByPlatform
  }

  datatype SheetRow = SheetRow(
    grade: Grade, cause: Option<Cause>, observed: string, unlock: Option<string>, obligation: bool)

  /** What would make a check testable: a table's answer for an id and a cause. */
  type Unlocks = (string, Cause) -> Option<string>

  predicate Unlockable(r: Row, unlocks: Unlocks) {
    r.outcome.Skipped? && r.outcome.cause.Some? ==>
      var u := unlocks(r.id, r.outcome.cause.value);
      u.Some? && u.value != ""
  }

  function SheetRowOf(r: Row, hardware: bool, unlocks: Unlocks): (s: SheetRow)
    requires Enumerated(r)
    ensures !Measured(s.grade) && s.obligation <==> KindOf(r) == Fail || KindOf(r) == Skip
    ensures s.grade == Failed <==> KindOf(r) == Fail
  {
    match r.outcome
    case Passed => SheetRow(if hardware then MeasuredHardware else MeasuredSimulation, None, r.observed, None, true)
    case Missed => SheetRow(Failed, None, r.observed, None, true)
    case Skipped(c) =>
      SheetRow(CauseGrade(c.value), c, r.observed, unlocks(r.id, c.value), !NotApplicable(c.value))
  }

  /** Rows by id: a later row replaces an earlier one. */
  function ById(rows: seq<Row>): map<string, Row> {
    if rows == [] then map[]
    else ById(rows[..|rows| - 1])[rows[|rows| - 1].id := rows[|rows| - 1]]
  }

  /** The rows that count toward conformance. */
  function Counting(rows: seq<Row>): seq<Row> {
    if rows == [] then []
    else
      var r := rows[|rows| - 1];
      Counting(rows[..|rows| - 1]) + if r.context then [] else [r]
  }

  predicate Gradable(rows: seq<Row>, unlocks: Unlocks) {
    forall i :: 0 <= i < |rows| && !rows[i].context ==> Enumerated(rows[i]) && Unlockable(rows[i], unlocks)
  }

  /** The sheet, row by row; a row that cannot be graded adds nothing. */
  function SheetOf(rows: seq<Row>, hardware: bool, unlocks: Unlocks): map<string, SheetRow> {
    if rows == [] then map[]
    else
      var before, r := SheetOf(rows[..|rows| - 1], hardware, unlocks), rows[|rows| - 1];
      if r.context || !Enumerated(r) then before
      else before[r.id := SheetRowOf(r, hardware, unlocks)]
  }

  lemma SheetStep(rows: seq<Row>, i: nat, hardware: bool, unlocks: Unlocks)
    requires i < |rows|
    ensures SheetOf(rows[..i + 1], hardware, unlocks)
         == if rows[i].context || !Enumerated(rows[i]) then SheetOf(rows[..i], hardware, unlocks)
            else SheetOf(rows[..i], hardware, unlocks)[rows[i].id := SheetRowOf(rows[i], hardware, unlocks)]
  {
    assert rows[..i + 1][..i] == rows[..i];
  }

  method GradeRow(row: Row, hardware: bool, unlocks: Unlocks) returns (r: Result<SheetRow, Error>)
    ensures r.Ok? <==> Enumerated(row) && Unlockable(row, unlocks)
    ensures r.Ok? ==> r.value == SheetRowOf(row, hardware, unlocks)
  {
    var grade;
    var cause := None;
    match row.outcome {
      case Passed => grade := if hardware then MeasuredHardware else MeasuredSimulation;
      case Missed => grade := Failed;
      case Skipped(c) =>
        if c.None? {
          return Err(UnenumeratedSkipCause(row.id));
        }
        cause, grade := c, CauseGrade(c.value);
    }
    var unlock := None;
    if UnlockDue(grade) {
      unlock := unlocks(row.id, cause.value);
      if unlock.None? || unlock.value == "" {
        return Err(MissingUnlock(row.id));
      }
    }
    return Ok(SheetRow(grade, cause, row.observed, unlock, cause.None? || !NotApplicable(cause.value)));
  }

  method BuildSheet(rows: seq<Row>, hardware: bool, unlocks: Unlocks) returns (r: Result<map<string, SheetRow>, Error>)
    ensures r.Ok? <==> Gradable(rows, unlocks)
    ensures r.Ok? ==> r.value == SheetOf(rows, hardware, unlocks)
  {
    var sheet := map[];
    for i := 0 to |rows|
      invariant Gradable(rows[..i], unlocks)
      invariant sheet == SheetOf(rows[..i], hardware, unlocks)
    {
      SheetStep(rows, i, hardware, unlocks);
      if !rows[i].context {
        var graded := GradeRow(rows[i], hardware, unlocks);
        if graded.Err? {
          return Err(graded.error);
        }
        sheet := sheet[rows[i].id := graded.value];
      }
    }
    assert rows[..|rows|] == rows;
    return Ok(sheet);
  }

  lemma {:induction false} LastRow(rows: seq<Row>, r: Row)
    ensures ById(rows + [r]) == ById(rows)[r.id := r]
  {
  }

  /** The sheet of a gradable run holds, for each id, the grade of the last counting row under it. */
  lemma {:induction false} SheetIsOfLastRows(rows: seq<Row>, hardware: bool, unlocks: Unlocks, id: string)
    requires Gradable(rows, unlocks)
    ensures id in SheetOf(rows, hardware, unlocks) <==> id in ById(Counting(rows))
    ensures id in ById(Counting(rows)) ==>
      && Enumerated(ById(Counting(rows))[id])
      && SheetOf(rows, hardware, unlocks)[id] == SheetRowOf(ById(Counting(rows))[id], hardware, unlocks)
  {
    if rows != [] {
      var before, r := rows[..|rows| - 1], rows[|rows| - 1];
      assert Gradable(before, unlocks);
      SheetIsOfLastRows(before, hardware, unlocks, id);
      if r.context {
        assert Counting(before) + [] == Counting(before);
      } else {
        LastRow(Counting(before), r);
      }
    }
  }

  // ---- Profiles ----

  datatype Profile = Profile(name: string, core: seq<string>, extended: seq<string>, conditional: bool, neverCore: bool)

  /** `tiers` says which profiles each tier requires; an untiered surface has none. */
  datatype Surface = Surface(name: string, tiers: map<string, set<string>>, profiles: seq<Profile>)

  datatype ProfileResult = ProfileResult(
    name: string, required: bool, applicable: bool, core: Option<LevelResult>, checkIds: seq<string>,
    extended: Option<LevelResult>)

  predicate Required(s: Surface, tier: string, p: Profile) {
    || (s.name == "FleetAdapter" && p.name == "edge")
    || (!p.neverCore
        && if s.tiers == map[] then p.core != [] else tier in s.tiers && p.name in s.tiers[tier])
  }

  /** The driver's verdict for a profile; without one a conditional profile does not apply. */
  predicate Applies(applicable: map<string, bool>, p: Profile) {
    if p.name in applicable then applicable[p.name] else !p.conditional
  }

  /** The rows recorded under the ids, in the order of the ids. */
  function Recorded(byId: map<string, Row>, ids: seq<string>): seq<Row> {
    if ids == [] then []
    else
      var last := ids[|ids| - 1];
      Recorded(byId, ids[..|ids| - 1]) + if last in byId then [byId[last]] else []
  }

  predicate AllEnumerated(rows: seq<Row>) {
    forall i :: 0 <= i < |rows| ==> Enumerated(rows[i])
  }

  function LevelOf(byId: map<string, Row>, ids: seq<string>, core: bool): Option<LevelResult> {
    if ids == [] then None
    else Some(LevelResult(LevelVerdictOf(Recorded(byId, ids), core), StatsOf(Recorded(byId, ids))))
  }

  function ResultOf(s: Surface, byId: map<string, Row>, tier: string, applicable: map<string, bool>,
      p: Profile): ProfileResult {
    if !Applies(applicable, p) then ProfileResult(p.name, false, false, None, [], None)
    else ProfileResult(p.name, Required(s, tier, p), true, LevelOf(byId, p.core, true), p.core,
      LevelOf(byId, p.extended, false))
  }

  predicate Gradeable(byId: map<string, Row>, applicable: map<string, bool>, p: Profile) {
    Applies(applicable, p) ==> AllEnumerated(Recorded(byId, p.core)) && AllEnumerated(Recorded(byId, p.extended))
  }

  method Select(byId: map<string, Row>, ids: seq<string>) returns (rows: seq<Row>)
    ensures rows == Recorded(byId, ids)
  {
    rows := [];
    for i := 0 to |ids|
      invariant rows == Recorded(byId, ids[..i])
    {
      assert ids[..i + 1][..i] == ids[..i];
      if ids[i] in byId {
        rows := rows + [byId[ids[i]]];
      }
    }
    assert ids[..|ids|] == ids;
  }

  method Indexed(rows: seq<Row>) returns (byId: map<string, Row>)
    ensures byId == ById(rows)
  {
    byId := map[];
    for i := 0 to |rows|
      invariant byId == ById(rows[..i])
    {
      assert rows[..i + 1][..i] == rows[..i];
      byId := byId[rows[i].id := rows[i]];
    }
    assert rows[..|rows|] == rows;
  }

  method GradeProfile(s: Surface, byId: map<string, Row>, tier: string, applicable: map<string, bool>, p: Profile)
    returns (r: Result<ProfileResult, Error>)
    ensures r.Ok? <==> Gradeable(byId, applicable, p)
    ensures r.Ok? ==> r.value == ResultOf(s, byId, tier, applicable, p)
  {
    var required := if s.tiers != map[] then tier in s.tiers && p.name in s.tiers[tier] else p.core != [];
    if p.neverCore {
      required := false;
    }
    if s.name == "FleetAdapter" && p.name == "edge" {
      required := true;
    }
    if !Applies(applicable, p) {
      return Ok(ProfileResult(p.name, false, false, None, [], None));
    }
    var core, extended := None, None;
    if p.core != [] {
      var rows := Select(byId, p.core);
      var level := Level(rows, true);
      if level.Err? {
        return Err(level.error);
      }
      core := Some(level.value);
    }
    if p.extended != [] {
      var rows := Select(byId, p.extended);
      var level := Level(rows, false);
      if level.Err? {
        return Err(level.error);
      }
      extended := Some(level.value);
    }
    return Ok(ProfileResult(p.name, required, true, core, p.core, extended));
  }

  method ProfileResults(s: Surface, rows: seq<Row>, tier: string, applicable: map<string, bool>)
    returns (r: Result<seq<ProfileResult>, Error>)
    ensures r.Ok? <==> forall i :: 0 <= i < |s.profiles| ==> Gradeable(ById(rows), applicable, s.profiles[i])
    ensures r.Ok? ==> |r.value| == |s.profiles|
    ensures r.Ok? ==>
      forall i :: 0 <= i < |s.profiles| ==> r.value[i] == ResultOf(s, ById(rows), tier, applicable, s.profiles[i])
  {
    var byId := Indexed(rows);
    var results := [];
    for i := 0 to |s.profiles|
      invariant |results| == i
      invariant forall j :: 0 <= j < i ==> Gradeable(byId, applicable, s.profiles[j])
      invariant forall j :: 0 <= j < i ==> results[j] == ResultOf(s, byId, tier, applicable, s.profiles[j])
    {
      var graded := GradeProfile(s, byId, tier, applicable, s.profiles[i]);
      if graded.Err? {
        return Err(graded.error);
      }
      results := results + [graded.value];
    }
    return Ok(results);
  }

  // ---- The verdict ----

  datatype Verdict = VerdictPass | VerdictFail | VerdictNotEstablished

  datatype Blocker = Blocker(checkId: string, profile: string, grade: Grade)

  /** A profile whose Core rows the verdict reads. */
  predicate Read(p: ProfileResult) {
    p.applicable && p.required && p.core.Some?
  }

  /** The grade under which a Core check prevents a pass, if it does. A check with no row does. */
  function Blocking(sheet: map<string, SheetRow>, id: string): Option<Grade> {
    if id !in sheet then Some(NotTestedSuiteGap)
    else if sheet[id].obligation && !Measured(sheet[id].grade) then Some(sheet[id].grade)
    else None
  }

  function ProfileBlockers(name: string, ids: seq<string>, sheet: map<string, SheetRow>): seq<Blocker> {
    if ids == [] then []
    else
      var last := ids[|ids| - 1];
      var g := Blocking(sheet, last);
      ProfileBlockers(name, ids[..|ids| - 1], sheet) + if g.Some? then [Blocker(last, name, g.value)] else []
  }

  function AllBlockers(profiles: seq<ProfileResult>, sheet: map<string, SheetRow>): seq<Blocker> {
    if profiles == [] then []
    else
      var p := profiles[|profiles| - 1];
      AllBlockers(profiles[..|profiles| - 1], sheet)
      + if Read(p) then ProfileBlockers(p.name, p.checkIds, sheet) else []
  }

  method BlockersOfProfile(name: string, ids: seq<string>, sheet: map<string, SheetRow>) returns (out: seq<Blocker>)
    ensures out == ProfileBlockers(name, ids, sheet)
  {
    out := [];
    for i := 0 to |ids|
      invariant out == ProfileBlockers(name, ids[..i], sheet)
    {
      assert ids[..i + 1][..i] == ids[..i];
      if ids[i] !in sheet {
        out := out + [Blocker(ids[i], name, NotTestedSuiteGap)];
      } else if sheet[ids[i]].obligation && !Measured(sheet[ids[i]].grade) {
        out := out + [Blocker(ids[i], name, sheet[ids[i]].grade)];
      }
    }
    assert ids[..|ids|] == ids;
  }

  method VerdictBlockers(profiles: seq<ProfileResult>, sheet: map<string, SheetRow>) returns (out: seq<Blocker>)
    ensures out == AllBlockers(profiles, sheet)
  {
    out := [];
    for i := 0 to |profiles|
      invariant out == AllBlockers(profiles[..i], sheet)
    {
      assert profiles[..i + 1][..i] == profiles[..i];
      if Read(profiles[i]) {
        var more := BlockersOfProfile(profiles[i].name, profiles[i].checkIds, sheet);
        out := out + more;
      }
    }
    assert profiles[..|profiles|] == profiles;
  }

  function VerdictOf(blockers: seq<Blocker>): Verdict {
    if exists i :: 0 <= i < |blockers| && blockers[i].grade == Failed then VerdictFail
    else if blockers != [] then VerdictNotEstablished
    else VerdictPass
  }

  // ---- The verdict and the levels agree ----

  /** Some Core check of a profile the verdict reads blocks with grade g. */
  ghost predicate Blocks(profiles: seq<ProfileResult>, sheet: map<string, SheetRow>, g: Grade) {
    exists i, id ::
      && 0 <= i < |profiles| && Read(profiles[i]) && id in profiles[i].checkIds
      && Blocking(sheet, id) == Some(g)
  }

  lemma {:induction false} ProfileBlockersIff(name: string, ids: seq<string>, sheet: map<string, SheetRow>, g: Grade)
    ensures (exists b <- ProfileBlockers(name, ids, sheet) :: b.grade == g)
       <==> (exists id <- ids :: Blocking(sheet, id) == Some(g))
  {
    if ids != [] {
      var n := |ids| - 1;
      var last := ids[n];
      ProfileBlockersIff(name, ids[..n], sheet, g);
      assert ids == ids[..n] + [last];
      var before := ProfileBlockers(name, ids[..n], sheet);
      if b :| b in before && b.grade == g {
        assert b in ProfileBlockers(name, ids, sheet);
      }
      if Blocking(sheet, last) == Some(g) {
        assert Blocker(last, name, g) in ProfileBlockers(name, ids, sheet);
      }
    }
  }

  lemma {:induction false} BlockersIff(profiles: seq<ProfileResult>, sheet: map<string, SheetRow>, g: Grade)
    ensures (exists b <- AllBlockers(profiles, sheet) :: b.grade == g) <==> Blocks(profiles, sheet, g)
  {
    if profiles != [] {
      var n := |profiles| - 1;
      var p := profiles[n];
      var before := AllBlockers(profiles[..n], sheet);
      BlockersIff(profiles[..n], sheet, g);
      ProfileBlockersIff(p.name, p.checkIds, sheet, g);
      BlocksStep(profiles, sheet, g);
      if b :| b in before && b.grade == g {
        assert b in AllBlockers(profiles, sheet);
      }
      if Read(p) {
        if b :| b in ProfileBlockers(p.name, p.checkIds, sheet) && b.grade == g {
          assert b in AllBlockers(profiles, sheet);
        }
      }
    }
  }

  lemma BlocksStep(profiles: seq<ProfileResult>, sheet: map<string, SheetRow>, g: Grade)
    requires profiles != []
    ensures var p := profiles[|profiles| - 1];
      Blocks(profiles, sheet, g)
      <==> Blocks(profiles[..|profiles| - 1], sheet, g)
           || (Read(p) && exists id <- p.checkIds :: Blocking(sheet, id) == Some(g))
  {
  }

  lemma {:induction false} RecordedHas(byId: map<string, Row>, ids: seq<string>, k: Kind)
    ensures Has(Recorded(byId, ids), k) <==> exists id <- ids :: id in byId && KindOf(byId[id]) == k
  {
    if ids != [] {
      var n := |ids| - 1;
      var before := Recorded(byId, ids[..n]);
      RecordedHas(byId, ids[..n], k);
      assert ids == ids[..n] + [ids[n]];
      if ids[n] in byId {
        HasStep(before, byId[ids[n]], k);
      } else {
        assert before + [] == before;
      }
    }
  }

  lemma HasStep(rows: seq<Row>, r: Row, k: Kind)
    ensures Has(rows + [r], k) <==> Has(rows, k) || KindOf(r) == k
  {
    var all := rows + [r];
    if i :| 0 <= i < |rows| && KindOf(rows[i]) == k {
      assert KindOf(all[i]) == k;
    }
    if KindOf(r) == k {
      assert KindOf(all[|rows|]) == k;
    }
  }

  /** A last row that counts is the last counting row. */
  lemma {:induction false} LastCounts(rows: seq<Row>, id: string)
    ensures id in ById(Counting(rows)) ==> id in ById(rows)
    ensures id in ById(rows) && !ById(rows)[id].context ==>
      id in ById(Counting(rows)) && ById(Counting(rows))[id] == ById(rows)[id]
  {
    if rows != [] {
      var before, r := rows[..|rows| - 1], rows[|rows| - 1];
      LastCounts(before, id);
      if r.context {
        assert Counting(before) + [] == Counting(before);
      } else {
        LastRow(Counting(before), r);
      }
    }
  }

  lemma {:induction false} LastCountingIsARow(rows: seq<Row>, id: string)
    requires id in ById(Counting(rows))
    ensures exists i :: 0 <= i < |rows| && rows[i] == ById(Counting(rows))[id]
    ensures ById(Counting(rows))[id].id == id && !ById(Counting(rows))[id].context
  {
    if rows != [] {
      var before, r := rows[..|rows| - 1], rows[|rows| - 1];
      if r.context {
        assert Counting(before) + [] == Counting(before);
      } else {
        LastRow(Counting(before), r);
      }
      if !r.context && r.id == id {
        assert rows[|rows| - 1] == ById(Counting(rows))[id];
      } else {
        LastCountingIsARow(before, id);
        var i :| 0 <= i < |before| && before[i] == ById(Counting(before))[id];
        assert rows[i] == ById(Counting(rows))[id];
      }
    }
  }

  /** Whether a Core check blocks, told from its last counting row alone. */
  lemma BlockingIs(rows: seq<Row>, hardware: bool, unlocks: Unlocks, id: string)
    requires Gradable(rows, unlocks)
    ensures var g, last := Blocking(SheetOf(rows, hardware, unlocks), id), ById(Counting(rows));
      && (g == Some(Failed) <==> id in last && KindOf(last[id]) == Fail)
      && (g == None <==> id in last && KindOf(last[id]) != Fail && KindOf(last[id]) != Skip)
  {
    SheetIsOfLastRows(rows, hardware, unlocks, id);
  }

  /** The profile results of a run, in the order of the registry. */
  function Results(s: Surface, rows: seq<Row>, tier: string, applicable: map<string, bool>): seq<ProfileResult> {
    seq(|s.profiles|, i requires 0 <= i < |s.profiles| => ResultOf(s, ById(rows), tier, applicable, s.profiles[i]))
  }

  function RunVerdict(
    s: Surface, rows: seq<Row>, tier: string, applicable: map<string, bool>, hardware: bool, unlocks: Unlocks): Verdict
  {
    VerdictOf(AllBlockers(Results(s, rows, tier, applicable), SheetOf(rows, hardware, unlocks)))
  }

  lemma LevelFailsIff(s: Surface, byId: map<string, Row>, tier: string, applicable: map<string, bool>, p: Profile)
    requires Read(ResultOf(s, byId, tier, applicable, p))
    ensures ResultOf(s, byId, tier, applicable, p).core.value.result == LevelFail
       <==> exists id <- p.core :: id in byId && KindOf(byId[id]) == Fail
  {
    RecordedHas(byId, p.core, Fail);
  }

  lemma LevelClearsIff(s: Surface, byId: map<string, Row>, tier: string, applicable: map<string, bool>, p: Profile)
    requires Read(ResultOf(s, byId, tier, applicable, p))
    ensures var v := ResultOf(s, byId, tier, applicable, p).core.value.result;
      (v == LevelPass || v == LevelNotApplicable)
      <==> forall id <- p.core :: id in byId ==> KindOf(byId[id]) != Fail && KindOf(byId[id]) != Skip
  {
    RecordedHas(byId, p.core, Fail);
    RecordedHas(byId, p.core, Skip);
  }

  lemma NoBlockersIff(profiles: seq<ProfileResult>, sheet: map<string, SheetRow>)
    ensures AllBlockers(profiles, sheet) == []
       <==> forall i, id :: 0 <= i < |profiles| && Read(profiles[i]) && id in profiles[i].checkIds ==>
         Blocking(sheet, id) == None
  {
    var all := AllBlockers(profiles, sheet);
    if all != [] {
      BlockersIff(profiles, sheet, all[0].grade);
      assert all[0] in all;
    } else {
      forall i, id | 0 <= i < |profiles| && Read(profiles[i]) && id in profiles[i].checkIds
        ensures Blocking(sheet, id) == None
      {
        if Blocking(sheet, id).Some? {
          BlockersIff(profiles, sheet, Blocking(sheet, id).value);
        }
      }
    }
  }

  lemma FailedBlockerIff(profiles: seq<ProfileResult>, sheet: map<string, SheetRow>)
    ensures VerdictOf(AllBlockers(profiles, sheet)) == VerdictFail <==> Blocks(profiles, sheet, Failed)
  {
    var all := AllBlockers(profiles, sheet);
    BlockersIff(profiles, sheet, Failed);
    if b :| b in all && b.grade == Failed {
      var i :| 0 <= i < |all| && all[i] == b;
      assert all[i].grade == Failed;
    }
    if i :| 0 <= i < |all| && all[i].grade == Failed {
      assert all[i] in all;
    }
  }

  /** A Core check of a profile that applies and is required. */
  ghost predicate ReadCore(s: Surface, tier: string, applicable: map<string, bool>, id: string) {
    exists i :: 0 <= i < |s.profiles| && ReadAt(s, tier, applicable, i) && id in s.profiles[i].core
  }

  predicate ReadAt(s: Surface, tier: string, applicable: map<string, bool>, i: nat)
    requires i < |s.profiles|
  {
    Applies(applicable, s.profiles[i]) && Required(s, tier, s.profiles[i]) && s.profiles[i].core != []
  }

  /** Some Core check that is read has a failed row. */
  ghost predicate CoreFails(s: Surface, tier: string, applicable: map<string, bool>, byId: map<string, Row>) {
    exists id :: ReadCore(s, tier, applicable, id) && id in byId && KindOf(byId[id]) == Fail
  }

  /** Every Core check that is read has a row, passed or not applicable. */
  ghost predicate CoreClears(s: Surface, tier: string, applicable: map<string, bool>, byId: map<string, Row>) {
    forall id :: ReadCore(s, tier, applicable, id) ==>
      id in byId && KindOf(byId[id]) != Fail && KindOf(byId[id]) != Skip
  }

  /** The verdict is fail exactly where the last counting row of a Core check that is read failed. */
  lemma FailIff(
    s: Surface, rows: seq<Row>, tier: string, applicable: map<string, bool>, hardware: bool, unlocks: Unlocks)
    requires Gradable(rows, unlocks)
    ensures RunVerdict(s, rows, tier, applicable, hardware, unlocks) == VerdictFail
       <==> CoreFails(s, tier, applicable, ById(Counting(rows)))
  {
    var results, sheet := Results(s, rows, tier, applicable), SheetOf(rows, hardware, unlocks);
    FailedBlockerIff(results, sheet);
    if i, id :|
         0 <= i < |results| && Read(results[i]) && id in results[i].checkIds && Blocking(sheet, id) == Some(Failed) {
      BlockingIs(rows, hardware, unlocks, id);
      assert ReadAt(s, tier, applicable, i);
      assert ReadCore(s, tier, applicable, id);
    }
    var last := ById(Counting(rows));
    if id :| ReadCore(s, tier, applicable, id) && id in last && KindOf(last[id]) == Fail {
      BlockingIs(rows, hardware, unlocks, id);
      var i :| 0 <= i < |s.profiles| && ReadAt(s, tier, applicable, i) && id in s.profiles[i].core;
      assert Read(results[i]) && id in results[i].checkIds;
    }
  }

  /** The verdict is pass exactly where each such check has a counting row and its last one is clear. */
  lemma PassIff(
    s: Surface, rows: seq<Row>, tier: string, applicable: map<string, bool>, hardware: bool, unlocks: Unlocks)
    requires Gradable(rows, unlocks)
    ensures RunVerdict(s, rows, tier, applicable, hardware, unlocks) == VerdictPass
       <==> CoreClears(s, tier, applicable, ById(Counting(rows)))
  {
    var results, sheet := Results(s, rows, tier, applicable), SheetOf(rows, hardware, unlocks);
    NoBlockersIff(results, sheet);
    forall id | ReadCore(s, tier, applicable, id)
      ensures exists i :: 0 <= i < |results| && Read(results[i]) && id in results[i].checkIds
    {
      var i :| 0 <= i < |s.profiles| && ReadAt(s, tier, applicable, i) && id in s.profiles[i].core;
      assert Read(results[i]) && id in results[i].checkIds;
    }
    forall i, id | 0 <= i < |results| && Read(results[i]) && id in results[i].checkIds
      ensures ReadCore(s, tier, applicable, id)
    {
      assert ReadAt(s, tier, applicable, i);
    }
    forall id: string
      ensures var last := ById(Counting(rows));
        Blocking(sheet, id) == None <==> id in last && KindOf(last[id]) != Fail && KindOf(last[id]) != Skip
    {
      BlockingIs(rows, hardware, unlocks, id);
    }
  }

  /** The Core level of some required, applicable profile is fail. */
  ghost predicate LevelsFail(s: Surface, rows: seq<Row>, tier: string, applicable: map<string, bool>) {
    exists i :: 0 <= i < |s.profiles|
                && Read(Results(s, rows, tier, applicable)[i])
                && Results(s, rows, tier, applicable)[i].core.value.result == LevelFail
  }

  /** Every such profile has a row for each Core check, and its Core level is pass or not applicable. */
  ghost predicate LevelsClear(s: Surface, rows: seq<Row>, tier: string, applicable: map<string, bool>) {
    forall i :: 0 <= i < |s.profiles| && Read(Results(s, rows, tier, applicable)[i]) ==>
      && (forall id <- s.profiles[i].core :: id in ById(rows))
      && (Results(s, rows, tier, applicable)[i].core.value.result == LevelPass
          || Results(s, rows, tier, applicable)[i].core.value.result == LevelNotApplicable)
  }

  /** The levels read the last rows, those of harness context among them. */
  lemma LevelsFailIff(s: Surface, rows: seq<Row>, tier: string, applicable: map<string, bool>)
    ensures LevelsFail(s, rows, tier, applicable) <==> CoreFails(s, tier, applicable, ById(rows))
  {
    var results := Results(s, rows, tier, applicable);
    if i :| 0 <= i < |s.profiles| && Read(results[i]) && results[i].core.value.result == LevelFail {
      LevelFailsIff(s, ById(rows), tier, applicable, s.profiles[i]);
      var id :| id in s.profiles[i].core && id in ById(rows) && KindOf(ById(rows)[id]) == Fail;
      assert ReadAt(s, tier, applicable, i);
      assert ReadCore(s, tier, applicable, id);
    }
    if id :| ReadCore(s, tier, applicable, id) && id in ById(rows) && KindOf(ById(rows)[id]) == Fail {
      var i :| 0 <= i < |s.profiles| && ReadAt(s, tier, applicable, i) && id in s.profiles[i].core;
      assert Read(results[i]);
      LevelFailsIff(s, ById(rows), tier, applicable, s.profiles[i]);
    }
  }

  lemma LevelsClearIff(s: Surface, rows: seq<Row>, tier: string, applicable: map<string, bool>)
    ensures LevelsClear(s, rows, tier, applicable) <==> CoreClears(s, tier, applicable, ById(rows))
  {
    var results := Results(s, rows, tier, applicable);
    forall i | 0 <= i < |s.profiles|
      ensures Read(results[i]) <==> ReadAt(s, tier, applicable, i)
      ensures Read(results[i]) ==>
        ((results[i].core.value.result == LevelPass || results[i].core.value.result == LevelNotApplicable)
         <==> forall id <- s.profiles[i].core :: id in ById(rows) ==>
           KindOf(ById(rows)[id]) != Fail && KindOf(ById(rows)[id]) != Skip)
    {
      if Read(results[i]) {
        LevelClearsIff(s, ById(rows), tier, applicable, s.profiles[i]);
      }
    }
    forall i, id | 0 <= i < |s.profiles| && ReadAt(s, tier, applicable, i) && id in s.profiles[i].core
      ensures ReadCore(s, tier, applicable, id)
    {
    }
  }

  /**
   The verdict and the levels agree on fail exactly where a last row of a Core check that is read
   failed just when a last counting row of one did.
   */
  lemma FailAgreesIff(
    s: Surface, rows: seq<Row>, tier: string, applicable: map<string, bool>, hardware: bool, unlocks: Unlocks)
    requires Gradable(rows, unlocks)
    ensures (RunVerdict(s, rows, tier, applicable, hardware, unlocks) == VerdictFail
      <==> LevelsFail(s, rows, tier, applicable))
       <==> (CoreFails(s, tier, applicable, ById(Counting(rows))) <==> CoreFails(s, tier, applicable, ById(rows)))
  {
    FailIff(s, rows, tier, applicable, hardware, unlocks);
    LevelsFailIff(s, rows, tier, applicable);
  }

  /** They agree on pass exactly where the last rows are clear just when the last counting rows are. */
  lemma PassAgreesIff(
    s: Surface, rows: seq<Row>, tier: string, applicable: map<string, bool>, hardware: bool, unlocks: Unlocks)
    requires Gradable(rows, unlocks)
    ensures (RunVerdict(s, rows, tier, applicable, hardware, unlocks) == VerdictPass
      <==> LevelsClear(s, rows, tier, applicable))
       <==> (CoreClears(s, tier, applicable, ById(Counting(rows))) <==> CoreClears(s, tier, applicable, ById(rows)))
  {
    PassIff(s, rows, tier, applicable, hardware, unlocks);
    LevelsClearIff(s, rows, tier, applicable);
  }

  /** No Core check that is read has a row of harness context for its last. */
  ghost predicate CoreCounts(s: Surface, rows: seq<Row>, tier: string, applicable: map<string, bool>) {
    forall id :: ReadCore(s, tier, applicable, id) && id in ById(rows) ==> !ById(rows)[id].context
  }

  /** So they agree in full on every run that records its Core checks as obligations. */
  lemma VerdictAgrees(
    s: Surface, rows: seq<Row>, tier: string, applicable: map<string, bool>, hardware: bool, unlocks: Unlocks)
    requires Gradable(rows, unlocks) && CoreCounts(s, rows, tier, applicable)
    ensures RunVerdict(s, rows, tier, applicable, hardware, unlocks) == VerdictFail
      <==> LevelsFail(s, rows, tier, applicable)
    ensures RunVerdict(s, rows, tier, applicable, hardware, unlocks) == VerdictPass
      <==> LevelsClear(s, rows, tier, applicable)
  {
    forall id | ReadCore(s, tier, applicable, id)
      ensures id in ById(rows) <==> id in ById(Counting(rows))
      ensures id in ById(rows) ==> ById(rows)[id] == ById(Counting(rows))[id]
    {
      LastCounts(rows, id);
    }
    FailAgreesIff(s, rows, tier, applicable, hardware, unlocks);
    PassAgreesIff(s, rows, tier, applicable, hardware, unlocks);
  }

  // ---- Which profiles have a say ----

  /** Required whatever the tier: the edge profile of an adapter. */
  predicate EdgeOfAdapter(s: Surface, p: Profile) {
    s.name == "FleetAdapter" && p.name == "edge"
  }

  /** The tier names the profile. */
  predicate NamedByTier(s: Surface, tier: string, p: Profile) {
    tier in s.tiers && p.name in s.tiers[tier]
  }

  /**
   The failed Core check of a profile that applies, by the driver's word or by being unconditional
   where it gives none, fails the run if the profile is the edge profile of an adapter, or if it is
   not one that is never required and the tier names it or there are no tiers.
   */
  lemma FailedCoreFailsTheRun(
    s: Surface, rows: seq<Row>, tier: string, applicable: map<string, bool>, hardware: bool, unlocks: Unlocks,
    i: nat, id: string)
    requires Gradable(rows, unlocks) && i < |s.profiles| && id in s.profiles[i].core
    requires s.profiles[i].name in applicable ==> applicable[s.profiles[i].name]
    requires s.profiles[i].name !in applicable ==> !s.profiles[i].conditional
    requires
      || EdgeOfAdapter(s, s.profiles[i])
      || (!s.profiles[i].neverCore && (s.tiers == map[] || NamedByTier(s, tier, s.profiles[i])))
    requires id in ById(Counting(rows)) && ById(Counting(rows))[id].outcome == Missed
    ensures RunVerdict(s, rows, tier, applicable, hardware, unlocks) == VerdictFail
  {
    FailIff(s, rows, tier, applicable, hardware, unlocks);
    assert ReadAt(s, tier, applicable, i);
    assert ReadCore(s, tier, applicable, id);
  }

  /** The surface without its profile i. */
  function Without(s: Surface, i: nat): (t: Surface)
    requires i < |s.profiles|
    ensures |t.profiles| == |s.profiles| - 1
  {
    s.(profiles := s.profiles[..i] + s.profiles[i + 1..])
  }

  lemma WithoutReads(s: Surface, tier: string, applicable: map<string, bool>, i: nat, id: string)
    requires i < |s.profiles| && !ReadAt(s, tier, applicable, i)
    ensures ReadCore(Without(s, i), tier, applicable, id) <==> ReadCore(s, tier, applicable, id)
  {
    var t := Without(s, i);
    if j :| 0 <= j < |s.profiles| && ReadAt(s, tier, applicable, j) && id in s.profiles[j].core {
      var k := if j < i then j else j - 1;
      assert t.profiles[k] == s.profiles[j];
      assert ReadAt(t, tier, applicable, k);
    }
    if k :| 0 <= k < |t.profiles| && ReadAt(t, tier, applicable, k) && id in t.profiles[k].core {
      var j := if k < i then k else k + 1;
      assert t.profiles[k] == s.profiles[j];
      assert ReadAt(s, tier, applicable, j);
    }
  }

  /** A verdict is told by whether it is a fail and whether it is a pass. */
  lemma SameReadsSameVerdict(
    s: Surface, t: Surface, rows: seq<Row>, tier: string, applicable: map<string, bool>, hardware: bool,
    unlocks: Unlocks)
    requires Gradable(rows, unlocks)
    requires forall id :: ReadCore(t, tier, applicable, id) <==> ReadCore(s, tier, applicable, id)
    ensures RunVerdict(t, rows, tier, applicable, hardware, unlocks)
      == RunVerdict(s, rows, tier, applicable, hardware, unlocks)
  {
    FailIff(s, rows, tier, applicable, hardware, unlocks);
    FailIff(t, rows, tier, applicable, hardware, unlocks);
    PassIff(s, rows, tier, applicable, hardware, unlocks);
    PassIff(t, rows, tier, applicable, hardware, unlocks);
  }

  /**
   And any other profile has no say: whatever its checks recorded, the verdict is that of the
   surface without it. So of one that the driver says does not apply, a conditional one that it says
   nothing of, and, but for the edge profile of an adapter,
   of one that is never required, one that the tier does not name, and one with no Core checks.
   */
  lemma OtherProfilesHaveNoSay(
    s: Surface, rows: seq<Row>, tier: string, applicable: map<string, bool>, hardware: bool, unlocks: Unlocks, i: nat)
    requires Gradable(rows, unlocks) && i < |s.profiles|
    requires
      || (s.profiles[i].name in applicable && !applicable[s.profiles[i].name])
      || (s.profiles[i].name !in applicable && s.profiles[i].conditional)
      || s.profiles[i].core == []
      || (!EdgeOfAdapter(s, s.profiles[i])
          && (s.profiles[i].neverCore || (s.tiers != map[] && !NamedByTier(s, tier, s.profiles[i]))))
    ensures RunVerdict(Without(s, i), rows, tier, applicable, hardware, unlocks)
      == RunVerdict(s, rows, tier, applicable, hardware, unlocks)
  {
    forall id: string
      ensures ReadCore(Without(s, i), tier, applicable, id) <==> ReadCore(s, tier, applicable, id)
    {
      WithoutReads(s, tier, applicable, i, id);
    }
    SameReadsSameVerdict(s, Without(s, i), rows, tier, applicable, hardware, unlocks);
  }

  /** The causes under which a Core check that was not run does not keep a run from a pass. */
  const NEVER_OWED: set<Cause> := {
    BindingNotDeclared, ContractNotDeclared, LegalAlternativePath, AdapterDeclaresNoSensorStream,
    AdapterDeclaresNoEnumParam, AdapterDeclaresNoCustomVerb, ContractPredatesObligation}

  lemma ClearIff(r: Row)
    ensures KindOf(r) != Fail && KindOf(r) != Skip <==>
      r.outcome == Passed || (r.outcome.Skipped? && r.outcome.cause.Some? && r.outcome.cause.value in NEVER_OWED)
  {
  }

  /** Pass exactly where each Core check that is read last passed, or is skipped for one of those causes. */
  lemma PassIffPassedOrNeverOwed(
    s: Surface, rows: seq<Row>, tier: string, applicable: map<string, bool>, hardware: bool, unlocks: Unlocks)
    requires Gradable(rows, unlocks)
    ensures RunVerdict(s, rows, tier, applicable, hardware, unlocks) == VerdictPass <==>
      forall id :: ReadCore(s, tier, applicable, id) ==>
        var last := ById(Counting(rows));
        && id in last
        && (last[id].outcome == Passed
            || (exists c :: c in NEVER_OWED && last[id].outcome == Skipped(Some(c))))
  {
    PassIff(s, rows, tier, applicable, hardware, unlocks);
    forall r: Row
      ensures KindOf(r) != Fail && KindOf(r) != Skip <==>
        r.outcome == Passed || (exists c :: c in NEVER_OWED && r.outcome == Skipped(Some(c)))
    {
      ClearIff(r);
    }
  }

  /**
   What a run reports of a profile: it applies by the driver's word, or by being unconditional where
   that is silent; one that does not apply is not required and has no levels; Extended never fails.
   */
  lemma ResultsSay(s: Surface, rows: seq<Row>, tier: string, applicable: map<string, bool>, i: nat)
    requires i < |s.profiles|
    ensures var r, p := Results(s, rows, tier, applicable)[i], s.profiles[i];
      && r.name == p.name
      && (r.applicable <==> if p.name in applicable then applicable[p.name] else !p.conditional)
      && (!r.applicable ==> !r.required && r.core == None && r.extended == None && r.checkIds == [])
      && (r.applicable ==>
            && (r.core.Some? <==> p.core != []) && (r.extended.Some? <==> p.extended != []) && r.checkIds == p.core
            && (r.required && !EdgeOfAdapter(s, p) ==> !p.neverCore)
            && (EdgeOfAdapter(s, p) ==> r.required))
      && (r.extended.Some? ==> r.extended.value.result != LevelFail)
  {
  }

  lemma {:induction false} RecordedEnumerated(byId: map<string, Row>, ids: seq<string>)
    ensures AllEnumerated(Recorded(byId, ids)) <==> forall id <- ids :: id in byId ==> Enumerated(byId[id])
  {
    if ids != [] {
      var n := |ids| - 1;
      var before := Recorded(byId, ids[..n]);
      RecordedEnumerated(byId, ids[..n]);
      assert ids == ids[..n] + [ids[n]];
      if ids[n] in byId {
        EnumeratedMore(before, byId[ids[n]]);
      } else {
        assert before + [] == before;
      }
    }
  }

  lemma EnumeratedMore(rows: seq<Row>, r: Row)
    ensures AllEnumerated(rows + [r]) <==> AllEnumerated(rows) && Enumerated(r)
  {
    var all := rows + [r];
    assert all[|rows|] == r;
    if AllEnumerated(all) {
      forall i | 0 <= i < |rows|
        ensures Enumerated(rows[i])
      {
        assert all[i] == rows[i];
      }
    }
  }

  /** Grading the profiles raises exactly where a profile that applies lists a check skipped without a cause. */
  lemma GradeableIff(byId: map<string, Row>, applicable: map<string, bool>, p: Profile)
    ensures Gradeable(byId, applicable, p) <==>
      (Applies(applicable, p) ==>
        forall id :: (id in p.core || id in p.extended) && id in byId ==> byId[id].outcome != Skipped(None))
  {
    RecordedEnumerated(byId, p.core);
    RecordedEnumerated(byId, p.extended);
  }

  // ---- What the sheet says ----

  /** The row of a sheet for a check, from the last counting row recorded under it. */
  predicate Says(row: SheetRow, r: Row, hardware: bool, unlocks: Unlocks) {
    && row.observed == r.observed
    && match r.outcome
       case Passed =>
         && row.grade == (if hardware then MeasuredHardware else MeasuredSimulation)
         && row.cause == None && row.unlock == None && row.obligation
       case Missed => row.grade == Failed && row.cause == None && row.unlock == None && row.obligation
       case Skipped(c) =>
         && c.Some? && row.cause == c && row.unlock == unlocks(r.id, c.value)
         && row.unlock.Some? && row.unlock.value != "" && UnlockDue(row.grade)
         && (row.obligation <==> !NotApplicable(c.value))
  }

  lemma SheetSays(rows: seq<Row>, hardware: bool, unlocks: Unlocks, id: string)
    requires Gradable(rows, unlocks) && id in ById(Counting(rows))
    ensures id in SheetOf(rows, hardware, unlocks)
    ensures Says(SheetOf(rows, hardware, unlocks)[id], ById(Counting(rows))[id], hardware, unlocks)
  {
    SheetIsOfLastRows(rows, hardware, unlocks, id);
    LastCountingIsARow(rows, id);
    var i :| 0 <= i < |rows| && rows[i] == ById(Counting(rows))[id];
    assert Unlockable(rows[i], unlocks);
  }

  /**
   A sheet of a simulation claims nothing measured on hardware, and the other way round; that
   apart, the two sheets are the same and so is the verdict.
   */
  lemma HardwareHasNoSay(
    s: Surface, rows: seq<Row>, tier: string, applicable: map<string, bool>, unlocks: Unlocks, id: string)
    requires Gradable(rows, unlocks)
    ensures var hard, sim := SheetOf(rows, true, unlocks), SheetOf(rows, false, unlocks);
      && (id in hard <==> id in sim)
      && (id in hard ==>
            && hard[id].grade != MeasuredSimulation && sim[id].grade != MeasuredHardware
            && (hard[id].grade == MeasuredHardware <==> sim[id].grade == MeasuredSimulation)
            && hard[id].(grade := sim[id].grade) == sim[id]
            && (!Measured(hard[id].grade) ==> hard[id] == sim[id]))
    ensures RunVerdict(s, rows, tier, applicable, true, unlocks)
      == RunVerdict(s, rows, tier, applicable, false, unlocks)
  {
    SheetIsOfLastRows(rows, true, unlocks, id);
    SheetIsOfLastRows(rows, false, unlocks, id);
    FailIff(s, rows, tier, applicable, true, unlocks);
    FailIff(s, rows, tier, applicable, false, unlocks);
    PassIff(s, rows, tier, applicable, true, unlocks);
    PassIff(s, rows, tier, applicable, false, unlocks);
  }

  // ---- Re-grading ----

  /** A Core check that is read and whose last counting row, if any, is a skip of the platform prevents a pass. */
  lemma SkippedCoreBlocks(
    s: Surface, rows: seq<Row>, tier: string, applicable: map<string, bool>, hardware: bool, unlocks: Unlocks,
    id: string)
    requires Gradable(rows, unlocks) && ReadCore(s, tier, applicable, id)
    requires id in ById(Counting(rows)) ==>
      ById(Counting(rows))[id].outcome == Skipped(Some(NoIndependentMotionChannel))
    ensures RunVerdict(s, rows, tier, applicable, hardware, unlocks) != VerdictPass
    ensures id in ById(Counting(rows)) ==>
      Blocking(SheetOf(rows, hardware, unlocks), id) == Some(NotSupportedByPlatform)
  {
    SheetIsOfLastRows(rows, hardware, unlocks, id);
    PassIff(s, rows, tier, applicable, hardware, unlocks);
  }

  /** Every row keeps its place, its id and its level; its outcome stays or becomes a standing skip. */
  ghost predicate Regraded(rows: seq<Row>, after: seq<Row>) {
    && |after| == |rows|
    && forall i :: 0 <= i < |rows| ==> RegradedRow(rows[i], after[i])
  }

  predicate RegradedRow(r: Row, a: Row) {
    && a.id == r.id
    && a.context == r.context
    && (a.outcome == r.outcome || a.outcome == Skipped(Some(NoIndependentMotionChannel)))
  }

  lemma {:induction false} RegradedCounting(rows: seq<Row>, after: seq<Row>, id: string)
    requires Regraded(rows, after)
    ensures id in ById(Counting(rows)) <==> id in ById(Counting(after))
    ensures id in ById(Counting(rows)) ==> RegradedRow(ById(Counting(rows))[id], ById(Counting(after))[id])
  {
    if rows != [] {
      var n := |rows| - 1;
      assert RegradedRow(rows[n], after[n]);
      RegradedCounting(rows[..n], after[..n], id);
      if rows[n].context {
        assert Counting(rows[..n]) + [] == Counting(rows[..n]);
        assert Counting(after[..n]) + [] == Counting(after[..n]);
      } else {
        LastRow(Counting(rows[..n]), rows[n]);
        LastRow(Counting(after[..n]), after[n]);
      }
    }
  }

  lemma BlockingStays(rows: seq<Row>, after: seq<Row>, hardware: bool, unlocks: Unlocks, id: string)
    requires Regraded(rows, after) && Gradable(rows, unlocks) && Gradable(after, unlocks)
    ensures Blocking(SheetOf(rows, hardware, unlocks), id).Some? ==>
      Blocking(SheetOf(after, hardware, unlocks), id).Some?
  {
    RegradedCounting(rows, after, id);
    SheetIsOfLastRows(rows, hardware, unlocks, id);
    SheetIsOfLastRows(after, hardware, unlocks, id);
  }

  /** With the applicability of profiles settled before, re-grading never makes a pass out of anything else. */
  lemma RegradingNeverMakesAPass(
    s: Surface, rows: seq<Row>, after: seq<Row>, tier: string, applicable: map<string, bool>, hardware: bool,
    unlocks: Unlocks)
    requires Regraded(rows, after) && Gradable(rows, unlocks) && Gradable(after, unlocks)
    requires RunVerdict(s, after, tier, applicable, hardware, unlocks) == VerdictPass
    ensures RunVerdict(s, rows, tier, applicable, hardware, unlocks) == VerdictPass
  {
    var before, later := Results(s, rows, tier, applicable), Results(s, after, tier, applicable);
    NoBlockersIff(before, SheetOf(rows, hardware, unlocks));
    NoBlockersIff(later, SheetOf(after, hardware, unlocks));
    forall i, id | 0 <= i < |before| && Read(before[i]) && id in before[i].checkIds
      ensures Blocking(SheetOf(rows, hardware, unlocks), id) == None
    {
      assert Read(later[i]) && id in later[i].checkIds;
      BlockingStays(rows, after, hardware, unlocks, id);
    }
  }

  /** Rows that differ at most in what was observed. */
  ghost predicate SameOutcomes(rows: seq<Row>, after: seq<Row>) {
    && |after| == |rows|
    && forall i :: 0 <= i < |rows| ==> SameOutcome(rows[i], after[i])
  }

  predicate SameOutcome(r: Row, a: Row) {
    a.id == r.id && a.context == r.context && a.outcome == r.outcome
  }

  lemma {:induction false} SameCounting(rows: seq<Row>, after: seq<Row>, id: string)
    requires SameOutcomes(rows, after)
    ensures id in ById(Counting(rows)) <==> id in ById(Counting(after))
    ensures id in ById(Counting(rows)) ==> SameOutcome(ById(Counting(rows))[id], ById(Counting(after))[id])
  {
    if rows != [] {
      var n := |rows| - 1;
      assert SameOutcome(rows[n], after[n]);
      SameCounting(rows[..n], after[..n], id);
      if rows[n].context {
        assert Counting(rows[..n]) + [] == Counting(rows[..n]);
        assert Counting(after[..n]) + [] == Counting(after[..n]);
      } else {
        LastRow(Counting(rows[..n]), rows[n]);
        LastRow(Counting(after[..n]), after[n]);
      }
    }
  }

  lemma SameGradable(rows: seq<Row>, after: seq<Row>, unlocks: Unlocks)
    requires SameOutcomes(rows, after) && Gradable(rows, unlocks)
    ensures Gradable(after, unlocks)
  {
  }

  lemma SameBlocking(rows: seq<Row>, after: seq<Row>, hardware: bool, unlocks: Unlocks, id: string)
    requires SameOutcomes(rows, after) && Gradable(rows, unlocks)
    ensures Blocking(SheetOf(rows, hardware, unlocks), id) == Blocking(SheetOf(after, hardware, unlocks), id)
  {
    SameGradable(rows, after, unlocks);
    SameCounting(rows, after, id);
    SheetIsOfLastRows(rows, hardware, unlocks, id);
    SheetIsOfLastRows(after, hardware, unlocks, id);
  }

  lemma {:induction false} SameProfileBlockers(name: string, ids: seq<string>, a: map<string, SheetRow>,
      b: map<string, SheetRow>)
    requires forall id :: Blocking(a, id) == Blocking(b, id)
    ensures ProfileBlockers(name, ids, a) == ProfileBlockers(name, ids, b)
  {
    if ids != [] {
      SameProfileBlockers(name, ids[..|ids| - 1], a, b);
    }
  }

  lemma {:induction false} SameBlockers(
    p: seq<ProfileResult>, q: seq<ProfileResult>, a: map<string, SheetRow>, b: map<string, SheetRow>)
    requires |p| == |q| && forall id :: Blocking(a, id) == Blocking(b, id)
    requires forall i :: 0 <= i < |p| ==>
      Read(p[i]) == Read(q[i]) && p[i].name == q[i].name && p[i].checkIds == q[i].checkIds
    ensures AllBlockers(p, a) == AllBlockers(q, b)
  {
    if p != [] {
      var n := |p| - 1;
      SameBlockers(p[..n], q[..n], a, b);
      SameProfileBlockers(p[n].name, p[n].checkIds, a, b);
    }
  }

  /** What was observed has no say in the verdict. */
  lemma SameOutcomesSameVerdict(
    s: Surface, rows: seq<Row>, after: seq<Row>, tier: string, applicable: map<string, bool>, hardware: bool,
    unlocks: Unlocks)
    requires SameOutcomes(rows, after) && Gradable(rows, unlocks)
    ensures RunVerdict(s, after, tier, applicable, hardware, unlocks)
      == RunVerdict(s, rows, tier, applicable, hardware, unlocks)
  {
    forall id: string
      ensures Blocking(SheetOf(rows, hardware, unlocks), id) == Blocking(SheetOf(after, hardware, unlocks), id)
    {
      SameBlocking(rows, after, hardware, unlocks, id);
    }
    SameBlockers(
      Results(s, rows, tier, applicable), Results(s, after, tier, applicable),
      SheetOf(rows, hardware, unlocks), SheetOf(after, hardware, unlocks));
  }

  lemma CountingStep(rows: seq<Row>, r: Row, hardware: bool, unlocks: Unlocks)
    requires SheetOf(Counting(rows), hardware, unlocks) == SheetOf(rows, hardware, unlocks)
    ensures SheetOf(Counting(rows + [r]), hardware, unlocks) == SheetOf(rows + [r], hardware, unlocks)
  {
    CountingMore(rows, r);
    SheetMore(rows, r, hardware, unlocks);
    SheetMore(Counting(rows), r, hardware, unlocks);
  }

  lemma CountingMore(rows: seq<Row>, r: Row)
    ensures Counting(rows + [r]) == if r.context then Counting(rows) else Counting(rows) + [r]
  {
    assert (rows + [r])[..|rows|] == rows;
  }

  lemma SheetMore(rows: seq<Row>, r: Row, hardware: bool, unlocks: Unlocks)
    ensures SheetOf(rows + [r], hardware, unlocks)
         == if r.context || !Enumerated(r) then SheetOf(rows, hardware, unlocks)
            else SheetOf(rows, hardware, unlocks)[r.id := SheetRowOf(r, hardware, unlocks)]
  {
    SheetStep(rows + [r], |rows|, hardware, unlocks);
    assert (rows + [r])[..|rows|] == rows && (rows + [r])[..|rows| + 1] == rows + [r];
  }

  lemma {:induction false} SheetOfCounting(rows: seq<Row>, hardware: bool, unlocks: Unlocks)
    ensures SheetOf(Counting(rows), hardware, unlocks) == SheetOf(rows, hardware, unlocks)
  {
    if rows != [] {
      var before := rows[..|rows| - 1];
      SheetOfCounting(before, hardware, unlocks);
      CountingStep(before, rows[|rows| - 1], hardware, unlocks);
      assert rows == before + [rows[|rows| - 1]];
    }
  }

  /** Rows of harness context have no say in the verdict. */
  lemma ContextHasNoSay(
    s: Surface, rows: seq<Row>, tier: string, applicable: map<string, bool>, hardware: bool, unlocks: Unlocks)
    ensures RunVerdict(s, rows, tier, applicable, hardware, unlocks)
         == RunVerdict(s, Counting(rows), tier, applicable, hardware, unlocks)
  {
    SheetOfCounting(rows, hardware, unlocks);
    var sheet := SheetOf(rows, hardware, unlocks);
    SameBlockers(Results(s, rows, tier, applicable), Results(s, Counting(rows), tier, applicable), sheet, sheet);
  }

  // ---- Which conditional profiles applied ----

  const EDGE_CHECKS := ["C8.1", "C8.2", "C8.3"]

  /** The edge profile applied where the run exercised one of its checks. */
  predicate EdgeApplies(rows: seq<Row>) {
    exists i :: 0 <= i < |EDGE_CHECKS| && EDGE_CHECKS[i] in ById(rows) && !ById(rows)[EDGE_CHECKS[i]].outcome.Skipped?
  }

  predicate Ran(byId: map<string, Row>, id: string) {
    id in byId && !byId[id].outcome.Skipped?
  }

  lemma EdgeAppliesWhereItRan(rows: seq<Row>)
    ensures EdgeApplies(rows) <==> Ran(ById(rows), "C8.1") || Ran(ById(rows), "C8.2") || Ran(ById(rows), "C8.3")
  {
    assert EDGE_CHECKS[0] == "C8.1" && EDGE_CHECKS[1] == "C8.2" && EDGE_CHECKS[2] == "C8.3";
  }

  lemma OneRow(r: Row)
    ensures ById([r]) == map[r.id := r]
  {
  }

  lemma OneSheet(r: Row, unlocks: Unlocks)
    requires !r.context && Enumerated(r)
    ensures SheetOf([r], false, unlocks) == map[r.id := SheetRowOf(r, false, unlocks)]
  {
  }

  lemma OneProfile(s: Surface, p: Profile, rows: seq<Row>, applicable: map<string, bool>, hardware: bool,
      unlocks: Unlocks)
    requires s.profiles == [p] && |p.core| == 1
    ensures AllBlockers(Results(s, rows, "", applicable), SheetOf(rows, hardware, unlocks))
         == var g := Blocking(SheetOf(rows, hardware, unlocks), p.core[0]);
            if Applies(applicable, p) && Required(s, "", p) && g.Some? then [Blocker(p.core[0], p.name, g.value)]
              else []
  {
    var results, sheet := Results(s, rows, "", applicable), SheetOf(rows, hardware, unlocks);
    assert results[..0] == [];
    assert p.core[..0] == [];
    assert results == [results[0]];
    assert AllBlockers(results[..0], sheet) == [];
    assert ProfileBlockers(p.name, p.core[..0], sheet) == [];
  }

  /**
   A failed Core row marked as context is counted by its level and missing from the sheet: the level
   is then fail and the verdict is not.
   */
  lemma ContextCoreDisagrees(s: Surface, p: Profile, r: Row, applicable: map<string, bool>, hardware: bool,
      unlocks: Unlocks)
    requires s.profiles == [p] && p.core == [r.id] && Applies(applicable, p) && Required(s, "", p)
    requires r.context && r.outcome == Missed
    ensures Gradable([r], unlocks)
    ensures Results(s, [r], "", applicable)[0].core.value.result == LevelFail
    ensures RunVerdict(s, [r], "", applicable, hardware, unlocks) == VerdictNotEstablished
  {
    OneRow(r);
    assert r.id in p.core;
    LevelFailsIff(s, ById([r]), "", applicable, p);
    assert SheetOf([r], hardware, unlocks) == map[] by {
      assert [r][..0] == [];
    }
    OneProfile(s, p, [r], applicable, hardware, unlocks);
    OneVerdict(Blocker(r.id, p.name, NotTestedSuiteGap));
  }

  /**
   The other way round: a later row of harness context hides a failed Core row from its level, not
   from the verdict.
   */
  lemma ContextHidesAFail(s: Surface, p: Profile, r: Row, c: Row, applicable: map<string, bool>, unlocks: Unlocks)
    requires s.profiles == [p] && p.core == [r.id] && Applies(applicable, p) && Required(s, "", p)
    requires r.outcome == Missed && !r.context
    requires c.id == r.id && c.outcome == Passed && c.context
    ensures LevelsClear(s, [r, c], "", applicable)
    ensures RunVerdict(s, [r, c], "", applicable, false, unlocks) == VerdictFail
  {
    RowThenContext(r, c);
    OnlyCore(s, p, r.id, applicable);
    FailIff(s, [r, c], "", applicable, false, unlocks);
    LevelsClearIff(s, [r, c], "", applicable);
  }

  lemma RowThenContext(r: Row, c: Row)
    requires !r.context && c.context && c.id == r.id
    ensures ById([r, c]) == map[r.id := c] && ById(Counting([r, c])) == map[r.id := r]
  {
    var rows := [r, c];
    assert rows[..1] == [r] && [r][..0] == [] && [r] + [] == [r];
    assert Counting([r]) == [r] && Counting(rows) == [r];
    OneRow(r);
  }

  lemma OnlyCore(s: Surface, p: Profile, id: string, applicable: map<string, bool>)
    requires s.profiles == [p] && p.core == [id] && Applies(applicable, p) && Required(s, "", p)
    ensures forall i :: ReadCore(s, "", applicable, i) <==> i == id
  {
    assert ReadAt(s, "", applicable, 0) && id in s.profiles[0].core;
  }

  /** The edge profile with one check, on its own. */
  const EDGE := Profile("edge", ["C8.3"], [], true, false)
  const EDGE_ONLY := Surface("FleetAdapter", map[], [EDGE])

  function EdgeVerdict(r: Row, applies: bool): Verdict {
    if !applies then VerdictPass
    else match KindOf(r)
      case Fail => VerdictFail
      case Skip => VerdictNotEstablished
      case _ => VerdictPass
  }

  lemma OneVerdict(b: Blocker)
    ensures VerdictOf([]) == VerdictPass
    ensures VerdictOf([b]) == if b.grade == Failed then VerdictFail else VerdictNotEstablished
  {
    assert [b][0].grade == b.grade;
  }

  lemma EdgeVerdictIs(r: Row, applies: bool, unlocks: Unlocks)
    requires r.id == "C8.3" && !r.context && Enumerated(r)
    ensures RunVerdict(EDGE_ONLY, [r], "", map["edge" := applies], false, unlocks) == EdgeVerdict(r, applies)
  {
    OneProfile(EDGE_ONLY, EDGE, [r], map["edge" := applies], false, unlocks);
    OneSheet(r, unlocks);
    OneVerdict(Blocker("C8.3", "edge", SheetRowOf(r, false, unlocks).grade));
  }

  lemma EdgeAppliesIff(r: Row)
    requires r.id == "C8.3"
    ensures EdgeApplies([r]) <==> !r.outcome.Skipped?
  {
    OneRow(r);
    assert EDGE_CHECKS[2] == "C8.3";
  }

  /**
   Applicability must be settled before re-grading: were it computed from the re-graded rows, a
   failed edge check would take its profile, and the verdict's reason not to pass, with it.
   */
  lemma ApplicabilityComesFirst(r: Row, a: Row, unlocks: Unlocks)
    requires r.id == "C8.3" && !r.context && r.outcome == Missed
    requires RegradedRow(r, a) && a.outcome.Skipped?
    ensures RunVerdict(EDGE_ONLY, [r], "", map["edge" := EdgeApplies([r])], false, unlocks) == VerdictFail
    ensures RunVerdict(EDGE_ONLY, [a], "", map["edge" := EdgeApplies([r])], false, unlocks) == VerdictNotEstablished
    ensures RunVerdict(EDGE_ONLY, [a], "", map["edge" := EdgeApplies([a])], false, unlocks) == VerdictPass
  {
    EdgeAppliesIff(r);
    EdgeAppliesIff(a);
    EdgeVerdictIs(r, EdgeApplies([r]), unlocks);
    EdgeVerdictIs(a, EdgeApplies([r]), unlocks);
    EdgeVerdictIs(a, EdgeApplies([a]), unlocks);
  }
}
