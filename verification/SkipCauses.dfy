/**
 Why a check was skipped: the two vocabularies and the reading of a detail string.

 A skipped row's detail begins with the spelling of a cause. The profile layer (conformance/model.py)
 has one set of spellings and two aliases; the adapter harness (adapters/conformance/report.py) has
 its own.
 */
module SkipCauses {
  import opened Wrappers

  datatype Cause =
    | NotObservableOnWire
    | SurfaceNotImplemented
    | OptionalDeclined
    | OptionalNotExhibited
    | BindingNotDeclared
    | ContractNotDeclared
    | NeedsResidentTarget
    | NeedsLiveCluster
    | TargetDidNotReachState
    | LegalAlternativePath
    | DeploymentProperty
    | NeedsExtendedRun
    | NeedsTargetRestart
    | NoTelemetryInRun
    | RequiresSuccessfulReregistration
    | AllCoreSubjectsHonoured
    | AdapterDeclaresNoOperatingSubject
    | AdapterDeclaresNoSensorStream
    | AdapterDeclaresNoAction
    | AdapterDeclaresNoRequiredParam
    | AdapterDeclaresNoEnumParam
    | AdapterDeclaresNoCustomVerb
    | ContractPredatesObligation
    | NoMotionWitness
    | NoIndependentMotionChannel

  function Spelling(c: Cause): string {
    match c
    case NotObservableOnWire => "not-observable-on-wire"
    case SurfaceNotImplemented => "surface-not-implemented"
    case OptionalDeclined => "optional-declined"
    case OptionalNotExhibited => "optional-not-exhibited"
    case BindingNotDeclared => "binding-not-declared"
    case ContractNotDeclared => "contract-not-declared"
    case NeedsResidentTarget => "needs-resident-target"
    case NeedsLiveCluster => "needs-live-cluster"
    case TargetDidNotReachState => "target-did-not-reach-state"
    case LegalAlternativePath => "legal-alternative-path"
    case DeploymentProperty => "deployment-property"
    case NeedsExtendedRun => "needs-extended-run"
    case NeedsTargetRestart => "needs-target-restart"
    case NoTelemetryInRun => "no-telemetry-in-run"
    case RequiresSuccessfulReregistration => "requires-successful-reregistration"
    case AllCoreSubjectsHonoured => "all-core-subjects-honoured"
    case AdapterDeclaresNoOperatingSubject => "adapter-declares-no-operating-subject"
    case AdapterDeclaresNoSensorStream => "adapter-declares-no-sensor-stream"
    case AdapterDeclaresNoAction => "adapter-declares-no-action"
    case AdapterDeclaresNoRequiredParam => "adapter-declares-no-required-param"
    case AdapterDeclaresNoEnumParam => "adapter-declares-no-enum-param"
    case AdapterDeclaresNoCustomVerb => "adapter-declares-no-custom-verb"
    case ContractPredatesObligation => "contract-predates-obligation"
    case NoMotionWitness => "no-motion-witness"
    case NoIndependentMotionChannel => "no-independent-motion-channel"
  }

  const ALIAS_DID_NOT_REACH := "adapter-did-not-reach-state"
  const ALIAS_RESTART := "needs-adapter-restart"

  /** The causes in the order the enumeration declares them, which is the order they are tried in. */
  const CAUSES := [
    NotObservableOnWire, SurfaceNotImplemented, OptionalDeclined, OptionalNotExhibited,
    BindingNotDeclared, ContractNotDeclared, NeedsResidentTarget, NeedsLiveCluster,
    TargetDidNotReachState, LegalAlternativePath, DeploymentProperty, NeedsExtendedRun,
    NeedsTargetRestart, NoTelemetryInRun, RequiresSuccessfulReregistration,
    AllCoreSubjectsHonoured, AdapterDeclaresNoOperatingSubject, AdapterDeclaresNoSensorStream,
    AdapterDeclaresNoAction, AdapterDeclaresNoRequiredParam, AdapterDeclaresNoEnumParam,
    AdapterDeclaresNoCustomVerb, ContractPredatesObligation, NoMotionWitness,
    NoIndependentMotionChannel]

  /** The detail begins with a spelling of the cause, its own or an alias. */
  predicate Names(detail: string, c: Cause) {
    || Spelling(c) <= detail
    || (c == TargetDidNotReachState && ALIAS_DID_NOT_REACH <= detail)
    || (c == NeedsTargetRestart && ALIAS_RESTART <= detail)
  }

  // ---- No spelling begins another ----

  function At(s: string, i: nat): char {
    if i < |s| then s[i] else ' '
  }

  /** The only cause a detail can name, read off a few of its characters. */
  function Candidate(s: string): Cause {
    match At(s, 0)
    case 'n' => if At(s, 1) == 'e' then NeedsWhat(At(s, 6)) else NoWhat(At(s, 2), At(s, 3))
    case 's' => SurfaceNotImplemented
    case 'o' => if At(s, 9) == 'd' then OptionalDeclined else OptionalNotExhibited
    case 'b' => BindingNotDeclared
    case 'c' => if At(s, 9) == 'n' then ContractNotDeclared else ContractPredatesObligation
    case 't' => TargetDidNotReachState
    case 'l' => LegalAlternativePath
    case 'd' => DeploymentProperty
    case 'r' => RequiresSuccessfulReregistration
    case _ =>
      if At(s, 1) == 'l' then AllCoreSubjectsHonoured
      else if At(s, 9) == 'i' then TargetDidNotReachState
      else DeclaresNoWhat(At(s, 20))
  }

  function NeedsWhat(a: char): Cause {
    match a
    case 'r' => NeedsResidentTarget
    case 'l' => NeedsLiveCluster
    case 'e' => NeedsExtendedRun
    case _ => NeedsTargetRestart
  }

  function NoWhat(a: char, b: char): Cause {
    if a == 't' then NotObservableOnWire
    else match b
      case 't' => NoTelemetryInRun
      case 'm' => NoMotionWitness
      case _ => NoIndependentMotionChannel
  }

  function DeclaresNoWhat(a: char): Cause {
    match a
    case 'o' => AdapterDeclaresNoOperatingSubject
    case 's' => AdapterDeclaresNoSensorStream
    case 'a' => AdapterDeclaresNoAction
    case 'r' => AdapterDeclaresNoRequiredParam
    case 'e' => AdapterDeclaresNoEnumParam
    case _ => AdapterDeclaresNoCustomVerb
  }

  lemma AtPrefix(p: string, s: string, i: nat)
    requires p <= s && i < |p|
    ensures At(s, i) == p[i]
  {
  }

  /** The six spellings that first differ at their twenty-first character. */
  predicate DeclaresNo(c: Cause) {
    || c == AdapterDeclaresNoOperatingSubject
    || c == AdapterDeclaresNoSensorStream
    || c == AdapterDeclaresNoAction
    || c == AdapterDeclaresNoRequiredParam
    || c == AdapterDeclaresNoEnumParam
    || c == AdapterDeclaresNoCustomVerb
  }

  lemma DeclaresNoIsCandidate(c: Cause, s: string)
    requires DeclaresNo(c) && Spelling(c) <= s
    ensures Candidate(s) == c
  {
    if c == AdapterDeclaresNoOperatingSubject || c == AdapterDeclaresNoSensorStream || c == AdapterDeclaresNoAction {
      DeclaresNoFirst(c, s);
    } else {
      DeclaresNoSecond(c, s);
    }
  }

  lemma DeclaresNoFirst(c: Cause, s: string)
    requires c == AdapterDeclaresNoOperatingSubject || c == AdapterDeclaresNoSensorStream
      || c == AdapterDeclaresNoAction
    requires Spelling(c) <= s
    ensures Candidate(s) == c
  {
  }

  lemma DeclaresNoSecond(c: Cause, s: string)
    requires c == AdapterDeclaresNoRequiredParam || c == AdapterDeclaresNoEnumParam || c == AdapterDeclaresNoCustomVerb
    requires Spelling(c) <= s
    ensures Candidate(s) == c
  {
  }

  /** The spellings that begin with an n. */
  predicate NeedsOrNo(c: Cause) {
    || c == NotObservableOnWire
    || c == NeedsResidentTarget
    || c == NeedsLiveCluster
    || c == NeedsExtendedRun
    || c == NeedsTargetRestart
    || c == NoTelemetryInRun
    || c == NoMotionWitness
    || c == NoIndependentMotionChannel
  }

  predicate Needs(c: Cause) {
    c == NeedsResidentTarget || c == NeedsLiveCluster || c == NeedsExtendedRun || c == NeedsTargetRestart
  }

  lemma NeedsIsCandidate(c: Cause, s: string)
    requires Needs(c) && Spelling(c) <= s
    ensures Candidate(s) == c
  {
    var p := Spelling(c);
    AtPrefix(p, s, 0);
    AtPrefix(p, s, 1);
    AtPrefix(p, s, 6);
  }

  lemma NotObservableIsCandidate(s: string)
    requires Spelling(NotObservableOnWire) <= s
    ensures Candidate(s) == NotObservableOnWire
  {
  }

  lemma NoIsCandidate(c: Cause, s: string)
    requires c == NoTelemetryInRun || c == NoMotionWitness || c == NoIndependentMotionChannel
    requires Spelling(c) <= s
    ensures Candidate(s) == c
  {
  }

  lemma OtherIsCandidate(c: Cause, s: string)
    requires !DeclaresNo(c) && !NeedsOrNo(c) && Spelling(c) <= s
    ensures Candidate(s) == c
  {
    var p := Spelling(c);
    AtPrefix(p, s, 0);
    AtPrefix(p, s, 1);
    AtPrefix(p, s, 9);
  }

  lemma AliasIsCandidate(s: string)
    ensures ALIAS_DID_NOT_REACH <= s ==> Candidate(s) == TargetDidNotReachState
    ensures ALIAS_RESTART <= s ==> Candidate(s) == NeedsTargetRestart
  {
  }

  /** A detail names at most one cause: no spelling or alias begins another. */
  lemma AtMostOneCause(detail: string, c: Cause, d: Cause)
    requires Names(detail, c) && Names(detail, d)
    ensures c == d
  {
    NamedIsCandidate(detail, c);
    NamedIsCandidate(detail, d);
  }

  lemma NamedIsCandidate(detail: string, c: Cause)
    requires Names(detail, c)
    ensures Candidate(detail) == c
  {
    AliasIsCandidate(detail);
    if Spelling(c) <= detail {
      if DeclaresNo(c) {
        DeclaresNoIsCandidate(c, detail);
      } else if Needs(c) {
        NeedsIsCandidate(c, detail);
      } else if c == NotObservableOnWire {
        NotObservableIsCandidate(detail);
      } else if NeedsOrNo(c) {
        NoIsCandidate(c, detail);
      } else {
        OtherIsCandidate(c, detail);
      }
    }
  }

  // ---- Reading the cause ----

  /** The cause a detail names, if it names one. */
  ghost function Of(detail: string): (r: Option<Cause>)
    ensures forall c: Cause :: r == Some(c) <==> Names(detail, c)
  {
    if c: Cause :| Names(detail, c) then
      assert forall d: Cause :: Names(detail, d) ==> d == c by {
        forall d: Cause | Names(detail, d)
          ensures d == c
        {
          AtMostOneCause(detail, c, d);
        }
      }
      Some(c)
    else None
  }

  function Position(c: Cause): (i: nat)
    ensures i < |CAUSES| && CAUSES[i] == c
  {
    match c
    case NotObservableOnWire => 0
    case SurfaceNotImplemented => 1
    case OptionalDeclined => 2
    case OptionalNotExhibited => 3
    case BindingNotDeclared => 4
    case ContractNotDeclared => 5
    case NeedsResidentTarget => 6
    case NeedsLiveCluster => 7
    case TargetDidNotReachState => 8
    case LegalAlternativePath => 9
    case DeploymentProperty => 10
    case NeedsExtendedRun => 11
    case NeedsTargetRestart => 12
    case NoTelemetryInRun => 13
    case RequiresSuccessfulReregistration => 14
    case AllCoreSubjectsHonoured => 15
    case AdapterDeclaresNoOperatingSubject => 16
    case AdapterDeclaresNoSensorStream => 17
    case AdapterDeclaresNoAction => 18
    case AdapterDeclaresNoRequiredParam => 19
    case AdapterDeclaresNoEnumParam => 20
    case AdapterDeclaresNoCustomVerb => 21
    case ContractPredatesObligation => 22
    case NoMotionWitness => 23
    case NoIndependentMotionChannel => 24
  }

  lemma NoneIsSpelt(detail: string)
    requires forall j :: 0 <= j < |CAUSES| ==> !(Spelling(CAUSES[j]) <= detail)
    ensures forall c: Cause :: !(Spelling(c) <= detail)
  {
    forall c: Cause
      ensures !(Spelling(c) <= detail)
    {
      assert CAUSES[Position(c)] == c;
    }
  }

  /** The first of the causes whose spelling begins the detail. */
  method FirstSpelt<T>(causes: seq<T>, spelling: T -> string, detail: string) returns (r: Option<T>)
    ensures r.Some? ==> spelling(r.value) <= detail
    ensures r.None? ==> forall j :: 0 <= j < |causes| ==> !(spelling(causes[j]) <= detail)
  {
    for i := 0 to |causes|
      invariant forall j :: 0 <= j < i ==> !(spelling(causes[j]) <= detail)
    {
      if spelling(causes[i]) <= detail {
        return Some(causes[i]);
      }
    }
    return None;
  }

  /** `SkipCause.of`: the first declared spelling that begins the detail, then the aliases. */
  method CauseOf(detail: string) returns (r: Option<Cause>)
    ensures r == Of(detail)
  {
    r := FirstSpelt(CAUSES, Spelling, detail);
    if r.None? {
      NoneIsSpelt(detail);
      if ALIAS_DID_NOT_REACH <= detail {
        return Some(TargetDidNotReachState);
      }
      if ALIAS_RESTART <= detail {
        return Some(NeedsTargetRestart);
      }
    }
  }

  // ---- The harness's vocabulary ----

  datatype HarnessCause =
    | HNotObservableOnWire
    | HRequiresSuccessfulReregistration
    | HNoTelemetryInRun
    | HDeploymentProperty
    | HOptionalDeclined
    | HOptionalNotExhibited
    | HNeedsExtendedRun
    | HAdapterDidNotReachState
    | HLegalAlternativePath
    | HAllCoreSubjectsHonoured
    | HNeedsAdapterRestart
    | HAdapterDeclaresNoOperatingSubject
    | HAdapterDeclaresNoSensorStream
    | HAdapterDeclaresNoAction
    | HAdapterDeclaresNoRequiredParam
    | HAdapterDeclaresNoEnumParam
    | HNoMotionWitness
    | HContractPredatesObligation
    | HAdapterDeclaresNoCustomVerb

  function HarnessSpelling(k: HarnessCause): string {
    match k
    case HNotObservableOnWire => "not-observable-on-wire"
    case HRequiresSuccessfulReregistration => "requires-successful-reregistration"
    case HNoTelemetryInRun => "no-telemetry-in-run"
    case HDeploymentProperty => "deployment-property"
    case HOptionalDeclined => "optional-declined"
    case HOptionalNotExhibited => "optional-not-exhibited"
    case HNeedsExtendedRun => "needs-extended-run"
    case HAdapterDidNotReachState => "adapter-did-not-reach-state"
    case HLegalAlternativePath => "legal-alternative-path"
    case HAllCoreSubjectsHonoured => "all-core-subjects-honoured"
    case HNeedsAdapterRestart => "needs-adapter-restart"
    case HAdapterDeclaresNoOperatingSubject => "adapter-declares-no-operating-subject"
    case HAdapterDeclaresNoSensorStream => "adapter-declares-no-sensor-stream"
    case HAdapterDeclaresNoAction => "adapter-declares-no-action"
    case HAdapterDeclaresNoRequiredParam => "adapter-declares-no-required-param"
    case HAdapterDeclaresNoEnumParam => "adapter-declares-no-enum-param"
    case HNoMotionWitness => "no-motion-witness"
    case HContractPredatesObligation => "contract-predates-obligation"
    case HAdapterDeclaresNoCustomVerb => "adapter-declares-no-custom-verb"
  }

  /** What the profile layer calls the harness's cause. */
  function Translate(k: HarnessCause): Cause {
    match k
    case HNotObservableOnWire => NotObservableOnWire
    case HRequiresSuccessfulReregistration => RequiresSuccessfulReregistration
    case HNoTelemetryInRun => NoTelemetryInRun
    case HDeploymentProperty => DeploymentProperty
    case HOptionalDeclined => OptionalDeclined
    case HOptionalNotExhibited => OptionalNotExhibited
    case HNeedsExtendedRun => NeedsExtendedRun
    case HAdapterDidNotReachState => TargetDidNotReachState
    case HLegalAlternativePath => LegalAlternativePath
    case HAllCoreSubjectsHonoured => AllCoreSubjectsHonoured
    case HNeedsAdapterRestart => NeedsTargetRestart
    case HAdapterDeclaresNoOperatingSubject => AdapterDeclaresNoOperatingSubject
    case HAdapterDeclaresNoSensorStream => AdapterDeclaresNoSensorStream
    case HAdapterDeclaresNoAction => AdapterDeclaresNoAction
    case HAdapterDeclaresNoRequiredParam => AdapterDeclaresNoRequiredParam
    case HAdapterDeclaresNoEnumParam => AdapterDeclaresNoEnumParam
    case HNoMotionWitness => NoMotionWitness
    case HContractPredatesObligation => ContractPredatesObligation
    case HAdapterDeclaresNoCustomVerb => AdapterDeclaresNoCustomVerb
  }

  lemma SharedSpelling(k: HarnessCause)
    requires k != HAdapterDidNotReachState && k != HNeedsAdapterRestart
    ensures HarnessSpelling(k) == Spelling(Translate(k))
  {
    if DeclaresNo(Translate(k)) {
      SharedDeclaresNo(k);
    }
  }

  lemma SharedDeclaresNo(k: HarnessCause)
    requires DeclaresNo(Translate(k))
    ensures HarnessSpelling(k) == Spelling(Translate(k))
  {
    if k == HAdapterDeclaresNoOperatingSubject || k == HAdapterDeclaresNoSensorStream || k == HAdapterDeclaresNoAction {
      SharedFirst(k);
    } else {
      SharedSecond(k);
    }
  }

  lemma SharedFirst(k: HarnessCause)
    requires k == HAdapterDeclaresNoOperatingSubject || k == HAdapterDeclaresNoSensorStream
      || k == HAdapterDeclaresNoAction
    ensures HarnessSpelling(k) == Spelling(Translate(k))
  {
  }

  lemma SharedSecond(k: HarnessCause)
    requires k == HAdapterDeclaresNoRequiredParam || k == HAdapterDeclaresNoEnumParam
      || k == HAdapterDeclaresNoCustomVerb
    ensures HarnessSpelling(k) == Spelling(Translate(k))
  {
  }

  lemma HarnessSpellingIsKnown(k: HarnessCause, detail: string)
    requires HarnessSpelling(k) <= detail
    ensures Names(detail, Translate(k))
  {
    if k != HAdapterDidNotReachState && k != HNeedsAdapterRestart {
      SharedSpelling(k);
    }
  }

  lemma TranslateIsInjective(k: HarnessCause, l: HarnessCause)
    requires Translate(k) == Translate(l)
    ensures k == l
  {
  }

  /** A detail that begins with a harness spelling, whatever follows, is read as that cause translated and no other. */
  lemma HarnessCauseIsRead(k: HarnessCause, detail: string)
    requires HarnessSpelling(k) <= detail
    ensures Of(detail) == Some(Translate(k))
    ensures forall l: HarnessCause :: HarnessSpelling(l) <= detail ==> l == k
  {
    HarnessSpellingIsKnown(k, detail);
    forall l: HarnessCause | HarnessSpelling(l) <= detail
      ensures l == k
    {
      HarnessSpellingIsKnown(l, detail);
      AtMostOneCause(detail, Translate(k), Translate(l));
      TranslateIsInjective(k, l);
    }
  }

  const HARNESS_CAUSES := [
    HNotObservableOnWire, HRequiresSuccessfulReregistration, HNoTelemetryInRun,
    HDeploymentProperty, HOptionalDeclined, HOptionalNotExhibited,
    HNeedsExtendedRun, HAdapterDidNotReachState, HLegalAlternativePath,
    HAllCoreSubjectsHonoured, HNeedsAdapterRestart, HAdapterDeclaresNoOperatingSubject,
    HAdapterDeclaresNoSensorStream, HAdapterDeclaresNoAction, HAdapterDeclaresNoRequiredParam,
    HAdapterDeclaresNoEnumParam, HNoMotionWitness, HContractPredatesObligation,
    HAdapterDeclaresNoCustomVerb]

  function HarnessPosition(k: HarnessCause): (i: nat)
    ensures i < |HARNESS_CAUSES| && HARNESS_CAUSES[i] == k
  {
    match k
    case HNotObservableOnWire => 0
    case HRequiresSuccessfulReregistration => 1
    case HNoTelemetryInRun => 2
    case HDeploymentProperty => 3
    case HOptionalDeclined => 4
    case HOptionalNotExhibited => 5
    case HNeedsExtendedRun => 6
    case HAdapterDidNotReachState => 7
    case HLegalAlternativePath => 8
    case HAllCoreSubjectsHonoured => 9
    case HNeedsAdapterRestart => 10
    case HAdapterDeclaresNoOperatingSubject => 11
    case HAdapterDeclaresNoSensorStream => 12
    case HAdapterDeclaresNoAction => 13
    case HAdapterDeclaresNoRequiredParam => 14
    case HAdapterDeclaresNoEnumParam => 15
    case HNoMotionWitness => 16
    case HContractPredatesObligation => 17
    case HAdapterDeclaresNoCustomVerb => 18
  }

  /** The cause a harness row names, if it names one. */
  ghost function HarnessOf(detail: string): (r: Option<HarnessCause>)
    ensures forall k: HarnessCause :: r == Some(k) <==> HarnessSpelling(k) <= detail
  {
    if k: HarnessCause :| HarnessSpelling(k) <= detail then
      HarnessCauseIsRead(k, detail);
      Some(k)
    else None
  }

  method HarnessCauseOf(detail: string) returns (r: Option<HarnessCause>)
    ensures r == HarnessOf(detail)
  {
    r := FirstSpelt(HARNESS_CAUSES, HarnessSpelling, detail);
    if r.None? {
      NoHarnessSpelling(detail);
    }
  }

  lemma NoHarnessSpelling(detail: string)
    requires forall j :: 0 <= j < |HARNESS_CAUSES| ==> !(HarnessSpelling(HARNESS_CAUSES[j]) <= detail)
    ensures forall k: HarnessCause :: !(HarnessSpelling(k) <= detail)
  {
    forall k: HarnessCause
      ensures !(HarnessSpelling(k) <= detail)
    {
      assert HARNESS_CAUSES[HarnessPosition(k)] == k;
    }
  }

  /** Reading a detail the harness accepts, in either vocabulary, gives the same cause. */
  lemma ReadingsAgree(detail: string)
    requires HarnessOf(detail).Some?
    ensures Of(detail) == Some(Translate(HarnessOf(detail).value))
  {
    HarnessCauseIsRead(HarnessOf(detail).value, detail);
  }

  // ---- Notes ----

  predicate Free(s: string, ch: char) {
    forall i :: 0 <= i < |s| ==> s[i] != ch
  }

  lemma NoSemicolonDeclaresNoThing(c: Cause)
    requires c == AdapterDeclaresNoOperatingSubject || c == AdapterDeclaresNoSensorStream
      || c == AdapterDeclaresNoAction
    ensures Free(Spelling(c), ';')
  {
  }

  lemma NoSemicolonDeclaresNoParam(c: Cause)
    requires c == AdapterDeclaresNoRequiredParam || c == AdapterDeclaresNoEnumParam || c == AdapterDeclaresNoCustomVerb
    ensures Free(Spelling(c), ';')
  {
  }

  lemma NoSemicolonNeedsTarget(c: Cause)
    requires c == NeedsResidentTarget || c == NeedsTargetRestart
    ensures Free(Spelling(c), ';')
  {
  }

  lemma NoSemicolonNeedsMore(c: Cause)
    requires c == NeedsLiveCluster || c == NeedsExtendedRun
    ensures Free(Spelling(c), ';')
  {
  }

  lemma NoSemicolonNotSeen(c: Cause)
    requires c == NotObservableOnWire || c == NoTelemetryInRun
    ensures Free(Spelling(c), ';')
  {
  }

  lemma NoSemicolonNoMotion(c: Cause)
    requires c == NoMotionWitness || c == NoIndependentMotionChannel
    ensures Free(Spelling(c), ';')
  {
  }

  lemma NoSemicolonOptional(c: Cause)
    requires c == OptionalDeclined || c == OptionalNotExhibited
    ensures Free(Spelling(c), ';')
  {
  }

  lemma NoSemicolonNotDeclared(c: Cause)
    requires c == BindingNotDeclared || c == ContractNotDeclared
    ensures Free(Spelling(c), ';')
  {
  }

  lemma NoSemicolonContractPredates(c: Cause)
    requires c == ContractPredatesObligation
    ensures Free(Spelling(c), ';')
  {
  }

  lemma NoSemicolonNotImplemented(c: Cause)
    requires c == SurfaceNotImplemented || c == DeploymentProperty
    ensures Free(Spelling(c), ';')
  {
  }

  lemma NoSemicolonNotReached(c: Cause)
    requires c == TargetDidNotReachState || c == LegalAlternativePath
    ensures Free(Spelling(c), ';')
  {
  }

  lemma NoSemicolonReregistration(c: Cause)
    requires c == RequiresSuccessfulReregistration
    ensures Free(Spelling(c), ';')
  {
  }

  lemma NoSemicolonHonoured(c: Cause)
    requires c == AllCoreSubjectsHonoured
    ensures Free(Spelling(c), ';')
  {
  }

  lemma SpellingsHaveNoSemicolon(c: Cause)
    ensures Free(Spelling(c), ';')
  {
    match c
    case AdapterDeclaresNoOperatingSubject | AdapterDeclaresNoSensorStream | AdapterDeclaresNoAction =>
      NoSemicolonDeclaresNoThing(c);
    case AdapterDeclaresNoRequiredParam | AdapterDeclaresNoEnumParam | AdapterDeclaresNoCustomVerb =>
      NoSemicolonDeclaresNoParam(c);
    case NeedsResidentTarget | NeedsTargetRestart => NoSemicolonNeedsTarget(c);
    case NeedsLiveCluster | NeedsExtendedRun => NoSemicolonNeedsMore(c);
    case NotObservableOnWire | NoTelemetryInRun => NoSemicolonNotSeen(c);
    case NoMotionWitness | NoIndependentMotionChannel => NoSemicolonNoMotion(c);
    case OptionalDeclined | OptionalNotExhibited => NoSemicolonOptional(c);
    case BindingNotDeclared | ContractNotDeclared => NoSemicolonNotDeclared(c);
    case ContractPredatesObligation => NoSemicolonContractPredates(c);
    case SurfaceNotImplemented | DeploymentProperty => NoSemicolonNotImplemented(c);
    case TargetDidNotReachState | LegalAlternativePath => NoSemicolonNotReached(c);
    case RequiresSuccessfulReregistration => NoSemicolonReregistration(c);
    case AllCoreSubjectsHonoured => NoSemicolonHonoured(c);
  }

  lemma BeginsBefore(p: string, s: string, t: string, ch: char)
    requires Free(p, ch) && |t| > 0 && t[0] == ch
    ensures p <= s + t <==> p <= s
  {
    assert (s + t)[|s|] == ch;
  }

  /** A note added after a semicolon neither gives a detail a cause nor takes one from it. */
  lemma NotesKeepTheCause(detail: string, note: string)
    requires |note| > 0 && note[0] == ';'
    ensures Of(detail + note) == Of(detail)
  {
    forall c: Cause
      ensures Names(detail + note, c) <==> Names(detail, c)
    {
      SpellingsHaveNoSemicolon(c);
      BeginsBefore(Spelling(c), detail, note, ';');
      BeginsBefore(ALIAS_DID_NOT_REACH, detail, note, ';');
      BeginsBefore(ALIAS_RESTART, detail, note, ';');
    }
    if c: Cause :| Names(detail, c) {
      assert Of(detail) == Some(c) && Of(detail + note) == Some(c);
    }
  }

  // ---- What the run saw ----

  /** What `str.strip` strips. */
  predicate IsSpace(ch: char) {
    var c := ch as int;
    || 9 <= c <= 13 || 28 <= c <= 32 || c == 0x85 || c == 0xA0 || c == 0x1680
    || 0x2000 <= c <= 0x200A || c == 0x2028 || c == 0x2029 || c == 0x202F || c == 0x205F || c == 0x3000
  }

  function StripLeft(s: string): string {
    if s != [] && IsSpace(s[0]) then StripLeft(s[1..]) else s
  }

  function StripRight(s: string): string {
    if s != [] && IsSpace(s[|s| - 1]) then StripRight(s[..|s| - 1]) else s
  }

  function Strip(s: string): string {
    StripRight(StripLeft(s))
  }

  function StripColons(s: string): string {
    if s != [] && s[0] == ':' then StripColons(s[1..]) else s
  }

  /** The spelling of the cause that a detail begins with, its own before an alias. */
  function SpellingUsed(detail: string, c: Cause): string
    requires Names(detail, c)
  {
    if Spelling(c) <= detail then Spelling(c)
    else if c == TargetDidNotReachState then ALIAS_DID_NOT_REACH
    else ALIAS_RESTART
  }

  /** `_observation`: the detail with the cause's spelling and the separators after it removed. */
  function Observation(detail: string, c: Option<Cause>): string
    requires c.Some? ==> Names(detail, c.value)
  {
    if c.None? then Strip(detail)
    else Strip(Strip(StripColons(detail[|SpellingUsed(detail, c.value)|..])))
  }

  lemma {:induction false} StripRightStops(s: string)
    ensures StripRight(s) == [] || !IsSpace(StripRight(s)[|StripRight(s)| - 1])
    ensures StripRight(s) <= s
  {
    if s != [] && IsSpace(s[|s| - 1]) {
      StripRightStops(s[..|s| - 1]);
    }
  }

  lemma {:induction false} StripLeftStops(s: string)
    ensures StripLeft(s) == [] || !IsSpace(StripLeft(s)[0])
  {
    if s != [] && IsSpace(s[0]) {
      StripLeftStops(s[1..]);
    }
  }

  lemma StripTwice(s: string)
    ensures Strip(Strip(s)) == Strip(s)
  {
    StripLeftStops(s);
    StripRightStops(StripLeft(s));
  }

  predicate AllColons(s: string) {
    forall i :: 0 <= i < |s| ==> s[i] == ':'
  }

  predicate AllSpace(s: string) {
    forall i :: 0 <= i < |s| ==> IsSpace(s[i])
  }

  lemma {:induction false} ColonsGo(colons: string, t: string)
    requires AllColons(colons) && (t == [] || t[0] != ':')
    ensures StripColons(colons + t) == t
  {
    if colons == [] {
      assert colons + t == t;
    } else {
      assert (colons + t)[1..] == colons[1..] + t;
      ColonsGo(colons[1..], t);
    }
  }

  lemma {:induction false} SpaceGoes(space: string, t: string)
    requires AllSpace(space)
    ensures StripLeft(space + t) == StripLeft(t)
  {
    if space == [] {
      assert space + t == t;
    } else {
      assert (space + t)[1..] == space[1..] + t;
      SpaceGoes(space[1..], t);
    }
  }

  /** What stands between a cause and its note: colons, then space. */
  predicate Separates(colons: string, space: string, note: string) {
    && AllColons(colons)
    && AllSpace(space)
    && (space == [] && note != [] ==> note[0] != ':')
  }

  lemma AfterSpelling(p: string, colons: string, space: string, note: string, c: Cause)
    requires Separates(colons, space, note)
    requires var detail := p + (colons + (space + note)); Names(detail, c) && SpellingUsed(detail, c) == p
    ensures Observation(p + (colons + (space + note)), Some(c)) == Strip(note)
  {
    assert (p + (colons + (space + note)))[|p|..] == colons + (space + note);
    assert space != [] ==> (space + note)[0] == space[0];
    ColonsGo(colons, space + note);
    SpaceGoes(space, note);
    StripTwice(note);
  }

  /** p is a spelling of the cause, its own or an alias. */
  predicate Spells(p: string, c: Cause) {
    || p == Spelling(c)
    || (c == TargetDidNotReachState && p == ALIAS_DID_NOT_REACH)
    || (c == NeedsTargetRestart && p == ALIAS_RESTART)
  }

  /**
   A skip written as a spelling of a cause, any colons, any space and a note is read back as that
   cause and the note, stripped.
   */
  lemma ObservationIsTheNote(p: string, c: Cause, colons: string, space: string, note: string)
    requires Spells(p, c) && Separates(colons, space, note)
    ensures var detail := p + (colons + (space + note));
      Of(detail) == Some(c) && Observation(detail, Of(detail)) == Strip(note)
  {
    var detail := p + (colons + (space + note));
    assert p <= detail;
    assert Names(detail, c);
    UsedSpelling(p, c, detail);
    AfterSpelling(p, colons, space, note, c);
  }

  lemma AliasIsUsed(p: string, c: Cause, detail: string)
    requires Spells(p, c) && p != Spelling(c) && p <= detail
    ensures !(Spelling(c) <= detail)
  {
    assert c == TargetDidNotReachState ==> detail[0] == 'a';
    assert c == NeedsTargetRestart ==> detail[6] == 'a';
  }

  lemma UsedSpelling(p: string, c: Cause, detail: string)
    requires Spells(p, c) && p <= detail
    ensures Names(detail, c) && SpellingUsed(detail, c) == p
  {
    if p != Spelling(c) {
      AliasIsUsed(p, c, detail);
    }
  }
}
