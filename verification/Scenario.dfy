/**
 Scenario playback: the fault timeline, the state of the hardware at a time and its delta-compressed
 report (adapters/scenarios/loader.py, adapters/simulation/sim_adapter.py). Times are reals.
 */
module Scenario {
  import opened Wrappers

  datatype Status = Healthy | Degraded | Failed

  /** What a manifest declares of a component; absent is not zero. */
  datatype Attributes = Attributes(
    kind: string, model: string, maxPayloadKg: Option<real>, resolutionMp: Option<real>, rangeM: Option<real>,
    horizontalFovDeg: Option<real>, depthCapable: Option<bool>, frameRateFps: Option<real>,
    platformLengthMm: Option<real>, platformWidthMm: Option<real>)

  datatype Component = Component(name: string, attributes: Attributes)

  datatype Event = Event(component: string, at: real, status: Status, reason: string)

  datatype State = State(attributes: Attributes, status: Status, reason: string)

  /** A line of an evaluation. */
  datatype Entry = Entry(name: string, state: State)

  // ---- Sorting the timeline ----

  /** The event goes after every event that is not later. */
  function Insert(sorted: seq<Event>, e: Event): seq<Event> {
    if sorted == [] || sorted[|sorted| - 1].at <= e.at then sorted + [e]
    else Insert(sorted[..|sorted| - 1], e) + [sorted[|sorted| - 1]]
  }

  /** A stable sort by time. */
  function Sorted(events: seq<Event>): seq<Event> {
    if events == [] then [] else Insert(Sorted(events[..|events| - 1]), events[|events| - 1])
  }

  predicate Ascending(events: seq<Event>) {
    forall i, j :: 0 <= i < j < |events| ==> events[i].at <= events[j].at
  }

  /** The events at one time, in order. */
  function Simultaneous(events: seq<Event>, t: real): seq<Event> {
    if events == [] then []
    else
      var e := events[|events| - 1];
      Simultaneous(events[..|events| - 1], t) + If(e, t)
  }

  lemma SimultaneousStep(events: seq<Event>, e: Event, t: real)
    ensures Simultaneous(events + [e], t) == Simultaneous(events, t) + If(e, t)
  {
  }

  lemma {:induction false} InsertAscends(sorted: seq<Event>, e: Event)
    requires Ascending(sorted)
    ensures Ascending(Insert(sorted, e))
    ensures multiset(Insert(sorted, e)) == multiset(sorted) + multiset{e}
  {
    if sorted != [] && sorted[|sorted| - 1].at > e.at {
      var n := |sorted| - 1;
      assert sorted == sorted[..n] + [sorted[n]];
      InsertAscends(sorted[..n], e);
      BelowLast(sorted, e, Insert(sorted[..n], e));
    }
  }

  lemma BelowLast(sorted: seq<Event>, e: Event, inserted: seq<Event>)
    requires sorted != [] && Ascending(sorted) && sorted[|sorted| - 1].at > e.at
    requires Ascending(inserted) && multiset(inserted) == multiset(sorted[..|sorted| - 1]) + multiset{e}
    ensures Ascending(inserted + [sorted[|sorted| - 1]])
  {
    var last := sorted[|sorted| - 1];
    forall i | 0 <= i < |inserted|
      ensures inserted[i].at <= last.at
    {
      assert inserted[i] in multiset(inserted);
      if inserted[i] != e {
        assert inserted[i] in multiset(sorted[..|sorted| - 1]);
      }
    }
  }

  function If(e: Event, t: real): seq<Event> {
    if e.at == t then [e] else []
  }

  lemma SwapEmpty(a: seq<Event>, x: seq<Event>, y: seq<Event>)
    requires x == [] || y == []
    ensures a + x + y == a + y + x
  {
  }

  lemma {:induction false} InsertIsStable(sorted: seq<Event>, e: Event, t: real)
    requires Ascending(sorted)
    ensures Simultaneous(Insert(sorted, e), t) == Simultaneous(sorted, t) + If(e, t)
  {
    if sorted == [] || sorted[|sorted| - 1].at <= e.at {
      SimultaneousStep(sorted, e, t);
    } else {
      var n := |sorted| - 1;
      InsertIsStable(sorted[..n], e, t);
      SimultaneousStep(Insert(sorted[..n], e), sorted[n], t);
      SwapEmpty(Simultaneous(sorted[..n], t), If(e, t), If(sorted[n], t));
    }
  }

  lemma {:induction false} SortAscends(events: seq<Event>)
    ensures Ascending(Sorted(events))
    ensures multiset(Sorted(events)) == multiset(events)
  {
    if events != [] {
      var n := |events| - 1;
      SortAscends(events[..n]);
      InsertAscends(Sorted(events[..n]), events[n]);
      assert events == events[..n] + [events[n]];
    }
  }

  /** Events at the same time keep their order. */
  lemma {:induction false} SortIsStable(events: seq<Event>, t: real)
    ensures Simultaneous(Sorted(events), t) == Simultaneous(events, t)
  {
    if events != [] {
      var n := |events| - 1;
      SortIsStable(events[..n], t);
      SortAscends(events[..n]);
      InsertIsStable(Sorted(events[..n]), events[n], t);
    }
  }

  // ---- The event in force ----

  predicate Applies(e: Event, name: string, t: real) {
    e.component == name && e.at <= t
  }

  /** The last event of a timeline that applies. */
  function LastApplying(timeline: seq<Event>, name: string, t: real): Option<Event> {
    if timeline == [] then None
    else if Applies(timeline[|timeline| - 1], name, t) then Some(timeline[|timeline| - 1])
    else LastApplying(timeline[..|timeline| - 1], name, t)
  }

  /** The event in force: the latest that applies and, of several at that time, the last one written. */
  ghost predicate InForce(events: seq<Event>, i: nat, name: string, t: real) {
    && i < |events|
    && Applies(events[i], name, t)
    && forall j :: 0 <= j < |events| && Applies(events[j], name, t) ==>
         events[j].at < events[i].at || (events[j].at == events[i].at && j <= i)
  }

  /** The event in force, found from the first event on. */
  function Latest(events: seq<Event>, name: string, t: real): Option<Event> {
    if events == [] then None
    else
      var before, e := Latest(events[..|events| - 1], name, t), events[|events| - 1];
      if Applies(e, name, t) && (before.None? || before.value.at <= e.at) then Some(e) else before
  }

  lemma {:induction false} LatestIsNoneIff(events: seq<Event>, name: string, t: real)
    ensures Latest(events, name, t).None? <==> forall i :: 0 <= i < |events| ==> !Applies(events[i], name, t)
  {
    if events != [] {
      var n := |events| - 1;
      LatestIsNoneIff(events[..n], name, t);
      assert forall i :: 0 <= i < n ==> events[..n][i] == events[i];
    }
  }

  lemma {:induction false} LatestIsInForce(events: seq<Event>, name: string, t: real) returns (i: nat)
    requires Latest(events, name, t).Some?
    ensures InForce(events, i, name, t) && events[i] == Latest(events, name, t).value
  {
    var n := |events| - 1;
    var before := events[..n];
    if Latest(before, name, t).Some? {
      i := LatestIsInForce(before, name, t);
      LatestStep(events, name, t, i);
      if Applies(events[n], name, t) && events[i].at <= events[n].at {
        i := n;
      }
    } else {
      i := n;
      LatestIsNoneIff(before, name, t);
      assert forall j :: 0 <= j < n ==> before[j] == events[j];
    }
  }

  lemma LatestStep(events: seq<Event>, name: string, t: real, i: nat)
    requires events != [] && InForce(events[..|events| - 1], i, name, t)
    ensures var n := |events| - 1;
      InForce(events, if Applies(events[n], name, t) && events[i].at <= events[n].at then n else i, name, t)
  {
  }

  lemma {:induction false} LastInserted(sorted: seq<Event>, e: Event, name: string, t: real)
    requires Ascending(sorted)
    ensures var before := LastApplying(sorted, name, t);
      LastApplying(Insert(sorted, e), name, t)
      == if Applies(e, name, t) && (before.None? || before.value.at <= e.at) then Some(e) else before
  {
    var n := |sorted| - 1;
    LastIsBelow(sorted, name, t);
    if sorted == [] || sorted[n].at <= e.at {
      LastAppended(sorted, e, name, t);
    } else {
      LastInserted(sorted[..n], e, name, t);
      LastAppended(Insert(sorted[..n], e), sorted[n], name, t);
    }
  }

  lemma LastAppended(timeline: seq<Event>, e: Event, name: string, t: real)
    ensures LastApplying(timeline + [e], name, t) == if Applies(e, name, t) then Some(e)
      else LastApplying(timeline, name, t)
  {
  }

  lemma {:induction false} LastIsBelow(sorted: seq<Event>, name: string, t: real)
    requires Ascending(sorted)
    ensures LastApplying(sorted, name, t).Some? ==>
      sorted != [] && LastApplying(sorted, name, t).value.at <= sorted[|sorted| - 1].at
  {
    if sorted != [] && !Applies(sorted[|sorted| - 1], name, t) {
      LastIsBelow(sorted[..|sorted| - 1], name, t);
    }
  }

  /** Reading a sorted timeline to its last applying event finds the event in force among the events as written. */
  lemma {:induction false} TimelineGivesTheLatest(events: seq<Event>, name: string, t: real)
    ensures LastApplying(Sorted(events), name, t) == Latest(events, name, t)
  {
    if events != [] {
      var n := |events| - 1;
      TimelineGivesTheLatest(events[..n], name, t);
      SortAscends(events[..n]);
      LastInserted(Sorted(events[..n]), events[n], name, t);
    }
  }

  // ---- The hardware at a time ----

  /** The components by name: a name declared twice keeps its last declaration. */
  function Declared(hardware: seq<Component>): map<string, Attributes> {
    if hardware == [] then map[]
    else Declared(hardware[..|hardware| - 1])[hardware[|hardware| - 1].name := hardware[|hardware| - 1].attributes]
  }

  /** The names in the order in which they are first declared. */
  function Names(hardware: seq<Component>): seq<string> {
    if hardware == [] then []
    else
      var before, name := Names(hardware[..|hardware| - 1]), hardware[|hardware| - 1].name;
      if name in before then before else before + [name]
  }

  lemma {:induction false} NamesAreDeclared(hardware: seq<Component>)
    ensures forall name :: name in Names(hardware) <==> name in Declared(hardware)
    ensures forall i, j :: 0 <= i < j < |Names(hardware)| ==> Names(hardware)[i] != Names(hardware)[j]
  {
    if hardware != [] {
      NamesAreDeclared(hardware[..|hardware| - 1]);
    }
  }

  function StateOf(attributes: Attributes, e: Option<Event>): State {
    if e.None? then State(attributes, Healthy, "") else State(attributes, e.value.status, e.value.reason)
  }

  /** A declared component is in the state its last applying event gives it. */
  function StateAt(hardware: seq<Component>, timeline: seq<Event>, t: real, name: string): State
    requires name in Declared(hardware)
  {
    StateOf(Declared(hardware)[name], LastApplying(timeline, name, t))
  }

  /** The lines for some of the declared names, in their order. */
  function Entries(names: seq<string>, hardware: seq<Component>, timeline: seq<Event>, t: real): (entries: seq<Entry>)
    requires forall name <- names :: name in Declared(hardware)
    ensures |entries| == |names|
    ensures forall i :: 0 <= i < |names| ==> entries[i] == Entry(names[i], StateAt(hardware, timeline, t, names[i]))
  {
    if names == [] then []
    else
      var name := names[|names| - 1];
      Entries(names[..|names| - 1], hardware, timeline, t) + [Entry(name, StateAt(hardware, timeline, t, name))]
  }

  /** Every declared component in its state, in the order of the manifest. */
  function HardwareAt(hardware: seq<Component>, timeline: seq<Event>, t: real): seq<Entry> {
    NamesAreDeclared(hardware);
    Entries(Names(hardware), hardware, timeline, t)
  }

  /** The table that an evaluation builds. */
  ghost predicate Tabulates(state: map<string, State>, hardware: seq<Component>, timeline: seq<Event>, t: real) {
    && (forall name :: name in state <==> name in Declared(hardware))
    && (forall name <- state :: state[name] == StateAt(hardware, timeline, t, name))
  }

  lemma TableStep(state: map<string, State>, hardware: seq<Component>, timeline: seq<Event>, e: Event, t: real)
    requires Tabulates(state, hardware, timeline, t)
    ensures Tabulates(
      if e.at <= t && e.component in state
        then state[e.component := state[e.component].(status := e.status, reason := e.reason)]
      else state, hardware, timeline + [e], t)
  {
    forall name: string
      ensures LastApplying(timeline + [e], name, t) == if Applies(e, name, t) then Some(e)
        else LastApplying(timeline, name, t)
    {
      LastAppended(timeline, e, name, t);
    }
  }

  method AllHealthy(hardware: seq<Component>, t: real) returns (state: map<string, State>, names: seq<string>)
    ensures names == Names(hardware) && Tabulates(state, hardware, [], t)
  {
    state, names := map[], [];
    for i := 0 to |hardware|
      invariant names == Names(hardware[..i]) && Tabulates(state, hardware[..i], [], t)
    {
      assert hardware[..i + 1][..i] == hardware[..i];
      NamesAreDeclared(hardware[..i]);
      if hardware[i].name !in state {
        names := names + [hardware[i].name];
      }
      state := state[hardware[i].name := State(hardware[i].attributes, Healthy, "")];
    }
    assert hardware[..|hardware|] == hardware;
  }

  method Values(names: seq<string>, state: map<string, State>, ghost hardware: seq<Component>,
      ghost timeline: seq<Event>, ghost t: real)
    returns (entries: seq<Entry>)
    requires Tabulates(state, hardware, timeline, t) && forall name <- names :: name in Declared(hardware)
    ensures entries == Entries(names, hardware, timeline, t)
  {
    entries := [];
    for i := 0 to |names|
      invariant entries == Entries(names[..i], hardware, timeline, t)
    {
      assert names[..i + 1][..i] == names[..i];
      entries := entries + [Entry(names[i], state[names[i]])];
    }
    assert names[..|names|] == names;
  }

  method Evaluate(hardware: seq<Component>, timeline: seq<Event>, t: real) returns (entries: seq<Entry>)
    ensures entries == HardwareAt(hardware, timeline, t)
  {
    var state, names := AllHealthy(hardware, t);
    for i := 0 to |timeline|
      invariant Tabulates(state, hardware, timeline[..i], t)
    {
      var e := timeline[i];
      TableStep(state, hardware, timeline[..i], e, t);
      assert timeline[..i + 1] == timeline[..i] + [e];
      if e.at <= t && e.component in state {
        state := state[e.component := state[e.component].(status := e.status, reason := e.reason)];
      }
    }
    assert timeline[..|timeline|] == timeline;
    NamesAreDeclared(hardware);
    entries := Values(names, state, hardware, timeline, t);
  }

  /** A fault changes status and reason; what a component is does not change, nor whether it is listed, once. */
  lemma AttributesNeverChange(hardware: seq<Component>, timeline: seq<Event>, t: real, name: string)
    ensures name in Declared(hardware)
      <==> exists i :: 0 <= i < |HardwareAt(hardware, timeline, t)| && HardwareAt(hardware, timeline, t)[i].name == name
    ensures forall i ::
      0 <= i < |HardwareAt(hardware, timeline, t)| && HardwareAt(hardware, timeline, t)[i].name == name ==>
      name in Declared(hardware) && HardwareAt(hardware, timeline, t)[i].state.attributes == Declared(hardware)[name]
    ensures forall i, j :: 0 <= i < j < |HardwareAt(hardware, timeline, t)| ==>
      HardwareAt(hardware, timeline, t)[i].name != HardwareAt(hardware, timeline, t)[j].name
  {
    NamesAreDeclared(hardware);
    if name in Declared(hardware) {
      var i :| 0 <= i < |Names(hardware)| && Names(hardware)[i] == name;
      assert HardwareAt(hardware, timeline, t)[i].name == name;
    }
  }

  /** With the timeline sorted as it is loaded, a component is in the state of the event in force, else healthy. */
  lemma StateIsTheEventInForce(hardware: seq<Component>, events: seq<Event>, t: real, name: string)
    requires name in Declared(hardware)
    ensures var s := StateAt(hardware, Sorted(events), t, name);
      || ((forall i :: 0 <= i < |events| ==> !Applies(events[i], name, t)) && s.status == Healthy && s.reason == "")
      || (exists i: nat :: InForce(events, i, name, t) && s.status == events[i].status && s.reason == events[i].reason)
  {
    TimelineGivesTheLatest(events, name, t);
    LatestIsNoneIff(events, name, t);
    if Latest(events, name, t).Some? {
      var i := LatestIsInForce(events, name, t);
    }
  }

  // ---- Overrides ----

  datatype Overrides = Overrides(component: Option<string>, faultAt: Option<real>, recoverAt: Option<real>)

  function Retimed(e: Event, o: Overrides): Event {
    var named := if o.component.Some? then e.(component := o.component.value) else e;
    if e.status != Healthy && o.faultAt.Some? then named.(at := o.faultAt.value)
    else if e.status == Healthy && o.recoverAt.Some? then named.(at := o.recoverAt.value)
    else named
  }

  class Preset {
    const hardware: seq<Component>
    var timeline: seq<Event>

    /** The timeline is sorted as it is parsed. */
    constructor (hardware: seq<Component>, events: seq<Event>)
      ensures this.hardware == hardware && timeline == Sorted(events)
    {
      this.hardware := hardware;
      timeline := Sorted(events);
    }

    /** False, with nothing changed, where the source raises: the component is not in the manifest. */
    method ApplyOverrides(o: Overrides) returns (ok: bool)
      modifies this
      ensures ok <==> old(timeline) == [] || o.component.None? || o.component.value in Declared(hardware)
      ensures !ok ==> timeline == old(timeline)
      ensures ok ==> exists retimed: seq<Event> ::
        && |retimed| == |old(timeline)|
        && (forall i :: 0 <= i < |retimed| ==> retimed[i] == Retimed(old(timeline)[i], o))
        && timeline == Sorted(retimed)
    {
      if timeline == [] {
        assert timeline == Sorted([]);
        return true;
      }
      if o.component.Some? {
        var known := IsDeclared(hardware, o.component.value);
        if !known {
          return false;
        }
      }
      var retimed := timeline;
      for i := 0 to |timeline|
        invariant timeline == old(timeline) && |retimed| == |timeline|
        invariant forall j :: 0 <= j < i ==> retimed[j] == Retimed(timeline[j], o)
        invariant forall j :: i <= j < |retimed| ==> retimed[j] == timeline[j]
      {
        var e := timeline[i];
        if o.component.Some? {
          e := e.(component := o.component.value);
        }
        if e.status != Healthy && o.faultAt.Some? {
          e := e.(at := o.faultAt.value);
        }
        if e.status == Healthy && o.recoverAt.Some? {
          e := e.(at := o.recoverAt.value);
        }
        retimed := retimed[i := e];
      }
      timeline := Sorted(retimed);
      return true;
    }
  }

  method IsDeclared(hardware: seq<Component>, name: string) returns (known: bool)
    ensures known <==> name in Declared(hardware)
  {
    known := false;
    for i := 0 to |hardware|
      invariant known <==> name in Declared(hardware[..i])
    {
      assert hardware[..i + 1][..i] == hardware[..i];
      if hardware[i].name == name {
        known := true;
      }
    }
    assert hardware[..|hardware|] == hardware;
  }

  /** Some event of the timeline is a fault, and some event a recovery. */
  predicate DegradesAndRecovers(events: seq<Event>) {
    (exists i :: 0 <= i < |events| && events[i].status != Healthy)
      && (exists i :: 0 <= i < |events| && events[i].status == Healthy)
  }

  /** Every fault is at one time and every recovery at another, all of one component. */
  predicate InWindow(events: seq<Event>, name: string, faultAt: real, recoverAt: real) {
    forall i :: 0 <= i < |events| ==>
      events[i].component == name && events[i].at == if events[i].status != Healthy then faultAt else recoverAt
  }

  /** At fault: the fault time has come, and no recovery later than it; at equal times the last event decides. */
  predicate AtFault(events: seq<Event>, faultAt: real, recoverAt: real, t: real)
    requires events != []
  {
    faultAt <= t && (t < recoverAt || recoverAt < faultAt
      || (recoverAt == faultAt && events[|events| - 1].status != Healthy))
  }

  lemma WindowInForce(events: seq<Event>, i: nat, name: string, faultAt: real, recoverAt: real, t: real)
    requires InWindow(events, name, faultAt, recoverAt) && DegradesAndRecovers(events) && InForce(events, i, name, t)
    ensures events[i].status != Healthy <==> AtFault(events, faultAt, recoverAt, t)
  {
  }

  lemma WindowNotOpen(events: seq<Event>, name: string, faultAt: real, recoverAt: real, t: real)
    requires InWindow(events, name, faultAt, recoverAt) && DegradesAndRecovers(events)
    requires forall i :: 0 <= i < |events| ==> !Applies(events[i], name, t)
    ensures t < faultAt && t < recoverAt
  {
  }

  /**
   With every override given, the component is at fault from the fault time on, until a later
   recovery time; with the two times equal, the last event of the timeline decides.
   */
  lemma OverridesSetTheWindow(
    hardware: seq<Component>, events: seq<Event>, retimed: seq<Event>, name: string, faultAt: real, recoverAt: real,
    t: real)
    requires name in Declared(hardware) && DegradesAndRecovers(events) && |retimed| == |events|
    requires forall i :: 0 <= i < |events| ==>
      retimed[i] == Retimed(events[i], Overrides(Some(name), Some(faultAt), Some(recoverAt)))
    ensures StateAt(hardware, Sorted(retimed), t, name).status != Healthy <==> AtFault(events, faultAt, recoverAt, t)
  {
    RetimedWindow(events, retimed, name, faultAt, recoverAt);
    TimelineGivesTheLatest(retimed, name, t);
    LatestIsNoneIff(retimed, name, t);
    if Latest(retimed, name, t).Some? {
      var i := LatestIsInForce(retimed, name, t);
      WindowInForce(retimed, i, name, faultAt, recoverAt, t);
    } else {
      WindowNotOpen(retimed, name, faultAt, recoverAt, t);
    }
  }

  lemma RetimedWindow(events: seq<Event>, retimed: seq<Event>, name: string, faultAt: real, recoverAt: real)
    requires DegradesAndRecovers(events) && |retimed| == |events|
    requires forall i :: 0 <= i < |events| ==>
      retimed[i] == Retimed(events[i], Overrides(Some(name), Some(faultAt), Some(recoverAt)))
    ensures InWindow(retimed, name, faultAt, recoverAt) && DegradesAndRecovers(retimed)
    ensures retimed[|retimed| - 1].status == events[|events| - 1].status
  {
  }

  lemma {:induction false} AscendingIsSorted(events: seq<Event>)
    requires Ascending(events)
    ensures Sorted(events) == events
  {
    if events != [] {
      var n := |events| - 1;
      var before := events[..n];
      AscendingIsSorted(before);
      assert n > 0 ==> before[n - 1].at <= events[n].at;
      assert events == before + [events[n]];
    }
  }

  /** Each override bears on what it names alone; with none a loaded timeline stays as it is. */
  lemma OverridesLeaveTheRest(timeline: seq<Event>, retimed: seq<Event>, o: Overrides)
    requires Ascending(timeline) && |retimed| == |timeline|
    requires forall i :: 0 <= i < |timeline| ==> retimed[i] == Retimed(timeline[i], o)
    ensures forall i :: 0 <= i < |timeline| ==> LeftAlone(timeline[i], retimed[i], o)
    ensures o.component.None? && o.faultAt.None? && o.recoverAt.None? ==> Sorted(retimed) == timeline
  {
    AscendingIsSorted(timeline);
    forall i | 0 <= i < |timeline|
      ensures LeftAlone(timeline[i], retimed[i], o)
    {
      RetimedLeaves(timeline[i], o);
    }
    if o.component.None? && o.faultAt.None? && o.recoverAt.None? {
      forall i | 0 <= i < |timeline|
        ensures retimed[i] == timeline[i]
      {
        RetimedLeaves(timeline[i], o);
      }
      assert retimed == timeline;
    }
  }

  predicate LeftAlone(e: Event, r: Event, o: Overrides) {
    && r.status == e.status && r.reason == e.reason
    && (o.component.None? ==> r.component == e.component)
    && (e.status != Healthy && o.faultAt.None? ==> r.at == e.at)
    && (e.status == Healthy && o.recoverAt.None? ==> r.at == e.at)
  }

  lemma RetimedLeaves(e: Event, o: Overrides)
    ensures LeftAlone(e, Retimed(e, o), o)
    ensures o.component.None? && o.faultAt.None? && o.recoverAt.None? ==> Retimed(e, o) == e
  {
  }

  // ---- Delta-compressed reports ----

  /** What a report says of a component. */
  datatype Update = Update(name: string, status: Status, reason: string)

  /** A component is reported where nothing was sent since the (re)connect, or not this status. */
  predicate Sends(last: map<string, Status>, name: string, status: Status) {
    last == map[] || name !in last || last[name] != status
  }

  function Delta(current: seq<Entry>, last: map<string, Status>): seq<Update> {
    if current == [] then []
    else
      var e := current[|current| - 1];
      Delta(current[..|current| - 1], last)
      + if Sends(last, e.name, e.state.status) then [Update(e.name, e.state.status, e.state.reason)] else []
  }

  /** What the sender remembers of a report. */
  function Remembered(last: map<string, Status>, updates: seq<Update>): map<string, Status> {
    if updates == [] then last
    else Remembered(last, updates[..|updates| - 1])[updates[|updates| - 1].name := updates[|updates| - 1].status]
  }

  /** What the receiver puts together from it. */
  function Folded(picture: map<string, Update>, updates: seq<Update>): map<string, Update> {
    if updates == [] then picture
    else Folded(picture, updates[..|updates| - 1])[updates[|updates| - 1].name := updates[|updates| - 1]]
  }

  /** The sending side: the statuses last sent, and whether the next report must be a full one. */
  class Telemetry {
    var sent: map<string, Status>
    var snapshotPending: bool

    constructor ()
      ensures sent == map[] && snapshotPending
    {
      sent, snapshotPending := map[], true;
    }

    /** One report, from the evaluation of the scenario at the time of the report. */
    method HardwareUpdates(current: seq<Entry>) returns (updates: seq<Update>)
      modifies this
      ensures !snapshotPending
      ensures updates == Delta(current, if old(snapshotPending) then map[] else old(sent))
      ensures sent == Remembered(if old(snapshotPending) then map[] else old(sent), updates)
    {
      if snapshotPending {
        sent := map[];
        snapshotPending := false;
      }
      ghost var last := sent;
      updates := Delta(current, sent);
      for i := 0 to |updates|
        invariant !snapshotPending && sent == Remembered(last, updates[..i])
      {
        assert updates[..i + 1][..i] == updates[..i];
        sent := sent[updates[i].name := updates[i].status];
      }
      assert updates[..|updates|] == updates;
    }
  }

  /** One sample of a run: the time it is taken, and whether the connection is new. */
  datatype Sample = Sample(t: real, reconnected: bool)

  /** What the sender has sent and the receiver has put together, after a number of samples. */
  datatype Exchange = Exchange(sent: map<string, Status>, picture: map<string, Update>)

  function LastSent(hardware: seq<Component>, timeline: seq<Event>, samples: seq<Sample>): map<string, Status>
    requires samples != []
    decreases |samples|, 0
  {
    if samples[|samples| - 1].reconnected then map[] else After(hardware, timeline, samples[..|samples| - 1]).sent
  }

  function After(hardware: seq<Component>, timeline: seq<Event>, samples: seq<Sample>): Exchange
    decreases |samples|, 1
  {
    if samples == [] then Exchange(map[], map[])
    else
      var last := LastSent(hardware, timeline, samples);
      var updates := Delta(HardwareAt(hardware, timeline, samples[|samples| - 1].t), last);
      Exchange(Remembered(last, updates), Folded(After(hardware, timeline, samples[..|samples| - 1]).picture, updates))
  }

  predicate Lists(current: seq<Entry>, name: string) {
    current != [] && (Lists(current[..|current| - 1], name) || current[|current| - 1].name == name)
  }

  lemma {:induction false} ListsIff(current: seq<Entry>, name: string)
    ensures Lists(current, name) <==> exists i :: 0 <= i < |current| && current[i].name == name
  {
    if current != [] {
      var n := |current| - 1;
      ListsIff(current[..n], name);
      if i :| 0 <= i < n && current[i].name == name {
        assert current[..n][i].name == name;
      }
    }
  }

  /** Where a component is listed it is listed in this state. */
  predicate ListedIn(current: seq<Entry>, name: string, state: State) {
    forall i :: 0 <= i < |current| && current[i].name == name ==> current[i].state == state
  }

  /** What one report has the sender remember of a component. */
  lemma {:induction false} SentOf(current: seq<Entry>, last: map<string, Status>, name: string, state: State)
    requires ListedIn(current, name, state)
    ensures Lookup(Remembered(last, Delta(current, last)), name)
         == if Lists(current, name) && Sends(last, name, state.status) then Some(state.status) else Lookup(last, name)
  {
    if current != [] {
      SentOf(current[..|current| - 1], last, name, state);
      ReportStep(current, last, map[]);
    }
  }

  /** And what the receiver makes of it. */
  lemma {:induction false} SeenOf(
    current: seq<Entry>, last: map<string, Status>, picture: map<string, Update>, name: string, state: State)
    requires ListedIn(current, name, state)
    ensures Lookup(Folded(picture, Delta(current, last)), name)
         == if Lists(current, name) && Sends(last, name, state.status)
           then Some(Update(name, state.status, state.reason))
            else Lookup(picture, name)
  {
    if current != [] {
      SeenOf(current[..|current| - 1], last, picture, name, state);
      ReportStep(current, last, picture);
    }
  }

  function Lookup<V>(m: map<string, V>, name: string): Option<V> {
    if name in m then Some(m[name]) else None
  }

  lemma ReportStep(current: seq<Entry>, last: map<string, Status>, picture: map<string, Update>)
    requires current != []
    ensures var before, e := Delta(current[..|current| - 1], last), current[|current| - 1];
      var sent, seen := Remembered(last, before), Folded(picture, before);
      if Sends(last, e.name, e.state.status) then
        && Remembered(last, Delta(current, last)) == sent[e.name := e.state.status]
        && Folded(picture, Delta(current, last)) == seen[e.name := Update(e.name, e.state.status, e.state.reason)]
      else Remembered(last, Delta(current, last)) == sent && Folded(picture, Delta(current, last)) == seen
  {
    var before, e := Delta(current[..|current| - 1], last), current[|current| - 1];
    var u := Update(e.name, e.state.status, e.state.reason);
    assert (before + [u])[..|before|] == before;
    assert before + [] == before;
  }

  /** The two sides hold exactly the declared components, in the statuses of the evaluation at t. */
  ghost predicate Current(x: Exchange, hardware: seq<Component>, timeline: seq<Event>, t: real) {
    forall name :: CurrentOf(x, hardware, timeline, t, name)
  }

  ghost predicate CurrentOf(x: Exchange, hardware: seq<Component>, timeline: seq<Event>, t: real, name: string) {
    && (name in x.sent <==> name in Declared(hardware))
    && (name in x.picture <==> name in Declared(hardware))
    && (name in Declared(hardware) ==>
          x.sent[name] == x.picture[name].status == StateAt(hardware, timeline, t, name).status)
  }

  lemma Listed(hardware: seq<Component>, timeline: seq<Event>, t: real, name: string)
    ensures Lists(HardwareAt(hardware, timeline, t), name) <==> name in Declared(hardware)
    ensures name in Declared(hardware) ==>
      ListedIn(HardwareAt(hardware, timeline, t), name, StateAt(hardware, timeline, t, name))
  {
    ListsIff(HardwareAt(hardware, timeline, t), name);
    AttributesNeverChange(hardware, timeline, t, name);
    NamesAreDeclared(hardware);
  }

  lemma {:induction false} UnlistedIsLeft(current: seq<Entry>, last: map<string, Status>,
      picture: map<string, Update>, name: string)
    requires !Lists(current, name)
    ensures Lookup(Remembered(last, Delta(current, last)), name) == Lookup(last, name)
    ensures Lookup(Folded(picture, Delta(current, last)), name) == Lookup(picture, name)
  {
    if current != [] {
      UnlistedIsLeft(current[..|current| - 1], last, picture, name);
      ReportStep(current, last, picture);
    }
  }

  /** After any number of reports, the receiver's statuses are those of the full evaluation at the last sample. */
  lemma {:induction false} ReceiverIsCurrent(hardware: seq<Component>, timeline: seq<Event>, samples: seq<Sample>)
    requires samples != []
    ensures Current(After(hardware, timeline, samples), hardware, timeline, samples[|samples| - 1].t)
  {
    var n := |samples| - 1;
    if n > 0 {
      ReceiverIsCurrent(hardware, timeline, samples[..n]);
    }
    forall name: string
      ensures CurrentOf(After(hardware, timeline, samples), hardware, timeline, samples[n].t, name)
    {
      if n > 0 {
        assert CurrentOf(After(hardware, timeline, samples[..n]), hardware, timeline, samples[n - 1].t, name);
      }
      ComponentIsCurrent(hardware, timeline, samples, name);
    }
  }

  lemma ComponentIsCurrent(hardware: seq<Component>, timeline: seq<Event>, samples: seq<Sample>, name: string)
    requires samples != []
    requires var n := |samples| - 1;
      n > 0 ==> CurrentOf(After(hardware, timeline, samples[..n]), hardware, timeline, samples[n - 1].t, name)
    ensures CurrentOf(After(hardware, timeline, samples), hardware, timeline, samples[|samples| - 1].t, name)
  {
    var n := |samples| - 1;
    var t, before := samples[n].t, After(hardware, timeline, samples[..n]);
    var current, last := HardwareAt(hardware, timeline, t), LastSent(hardware, timeline, samples);
    Listed(hardware, timeline, t, name);
    if name in Declared(hardware) {
      SentOf(current, last, name, StateAt(hardware, timeline, t, name));
      SeenOf(current, last, before.picture, name, StateAt(hardware, timeline, t, name));
    } else {
      UnlistedIsLeft(current, last, before.picture, name);
    }
  }

  /** A sample carries a component: it opens a connection, or the status is not that of the sample before. */
  predicate Carried(hardware: seq<Component>, timeline: seq<Event>, samples: seq<Sample>, i: nat, name: string)
    requires i < |samples| && name in Declared(hardware)
  {
    || i == 0
    || samples[i].reconnected
    || StateAt(hardware, timeline, samples[i - 1].t, name).status
      != StateAt(hardware, timeline, samples[i].t, name).status
  }

  function LastCarried(hardware: seq<Component>, timeline: seq<Event>, samples: seq<Sample>, name: string): (k: nat)
    requires samples != [] && name in Declared(hardware)
    ensures k < |samples| && Carried(hardware, timeline, samples, k, name)
    ensures forall i :: k < i < |samples| ==> !Carried(hardware, timeline, samples, i, name)
  {
    var n := |samples| - 1;
    if Carried(hardware, timeline, samples, n, name) then n
    else
      var k := LastCarried(hardware, timeline, samples[..n], name);
      assert forall i :: 0 <= i < n ==>
        Carried(hardware, timeline, samples, i, name) == Carried(hardware, timeline, samples[..n], i, name);
      k
  }

  lemma CarriedIsSent(hardware: seq<Component>, timeline: seq<Event>, samples: seq<Sample>, name: string)
    requires samples != [] && name in Declared(hardware)
    ensures var n := |samples| - 1;
      Sends(LastSent(hardware, timeline, samples), name, StateAt(hardware, timeline, samples[n].t, name).status)
      <==> Carried(hardware, timeline, samples, n, name)
  {
    var n := |samples| - 1;
    if n > 0 && !samples[n].reconnected {
      ReceiverIsCurrent(hardware, timeline, samples[..n]);
      assert CurrentOf(After(hardware, timeline, samples[..n]), hardware, timeline, samples[n - 1].t, name);
    }
  }

  ghost predicate Holds(hardware: seq<Component>, timeline: seq<Event>, t: real, picture: map<string, Update>,
      name: string)
    requires name in Declared(hardware)
  {
    var state := StateAt(hardware, timeline, t, name);
    name in picture && picture[name] == Update(name, state.status, state.reason)
  }

  /** What the receiver holds of a component is what the evaluation gave at the last sample that carried it. */
  lemma {:induction false} ReceiverHoldsTheLastCarried(
    hardware: seq<Component>, timeline: seq<Event>, samples: seq<Sample>, name: string)
    requires samples != [] && name in Declared(hardware)
    ensures Holds(
      hardware, timeline, samples[LastCarried(hardware, timeline, samples, name)].t,
      After(hardware, timeline, samples).picture, name)
  {
    var n := |samples| - 1;
    var t := samples[n].t;
    CarriedIsSent(hardware, timeline, samples, name);
    Listed(hardware, timeline, t, name);
    SeenOf(
      HardwareAt(hardware, timeline, t), LastSent(hardware, timeline, samples),
      After(hardware, timeline, samples[..n]).picture, name, StateAt(hardware, timeline, t, name));
    if !Carried(hardware, timeline, samples, n, name) {
      ReceiverHoldsTheLastCarried(hardware, timeline, samples[..n], name);
    }
  }

  /** The reason the receiver holds is that of the last sample. */
  ghost predicate ReasonIsCurrent(hardware: seq<Component>, timeline: seq<Event>, samples: seq<Sample>, name: string)
    requires samples != [] && name in Declared(hardware)
  {
    var picture := After(hardware, timeline, samples).picture;
    name in picture && picture[name].reason == StateAt(hardware, timeline, samples[|samples| - 1].t, name).reason
  }

  /** Only a change of status is carried: the reason is current exactly where it has not changed since. */
  lemma ReasonIsCurrentIff(hardware: seq<Component>, timeline: seq<Event>, samples: seq<Sample>, name: string)
    requires samples != [] && name in Declared(hardware)
    ensures var k := LastCarried(hardware, timeline, samples, name);
      ReasonIsCurrent(hardware, timeline, samples, name)
      <==> StateAt(hardware, timeline, samples[k].t, name).reason
           == StateAt(hardware, timeline, samples[|samples| - 1].t, name).reason
  {
    ReceiverHoldsTheLastCarried(hardware, timeline, samples, name);
  }

  /** Two events of a component, with one status and two reasons, and a sample at the time of each. */
  predicate ReasonChanges(timeline: seq<Event>, samples: seq<Sample>, name: string) {
    && |timeline| == |samples| == 2
    && timeline[0].component == timeline[1].component == name && timeline[0].at < timeline[1].at
    && timeline[0].status == timeline[1].status && timeline[0].reason != timeline[1].reason
    && samples[0].t == timeline[0].at && samples[1].t == timeline[1].at && !samples[1].reconnected
  }

  lemma StatesOfTwoEvents(hardware: seq<Component>, timeline: seq<Event>, samples: seq<Sample>, name: string)
    requires name in Declared(hardware) && ReasonChanges(timeline, samples, name)
    ensures LastCarried(hardware, timeline, samples, name) == 0
    ensures StateAt(hardware, timeline, samples[0].t, name).reason
      != StateAt(hardware, timeline, samples[1].t, name).reason
  {
    assert timeline == [timeline[0]] + [timeline[1]];
    LastAppended([timeline[0]], timeline[1], name, timeline[0].at);
    LastAppended([timeline[0]], timeline[1], name, timeline[1].at);
    assert !Carried(hardware, timeline, samples, 1, name);
  }

  /** So, whatever the manifest, a reason that changes under the same status does not reach the receiver. */
  lemma ReasonCanBeStale(hardware: seq<Component>, timeline: seq<Event>, samples: seq<Sample>, name: string)
    requires name in Declared(hardware) && ReasonChanges(timeline, samples, name)
    ensures !ReasonIsCurrent(hardware, timeline, samples, name)
  {
    StatesOfTwoEvents(hardware, timeline, samples, name);
    ReasonIsCurrentIff(hardware, timeline, samples, name);
  }
}
