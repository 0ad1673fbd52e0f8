/**
 The fencing and lease protocol of the reference adapter.

 The adapter keeps, per robot, the highest fencing token it accepted, the assignment accepted at
 that token, the action it is executing, and the lease that action runs under. A lease is a timer:
 `Timer.cancel` is best effort, so a cancelled timer may still fire, and each arming therefore
 carries an epoch. A run is any sequence of commands and timer firings, each handled whole. The
 action catalog and the operating subjects the adapter honours are parameters of a run; both are
 empty in the shipped adapter.
 */
module LeaseProtocol {
  import opened Wrappers

  type Robot = string

  datatype Config = Config(catalog: set<string>, honoured: set<string>)

  datatype Task = Task(
    actionId: string,
    actionType: string,
    token: Option<nat>,
    assignmentId: string,
    generation: nat,
    leaseMs: nat,
    constraints: seq<string>)

  /** `CancelAction` names an action and a token on the wire; the adapter reads neither. */
  datatype Command =
    | AssignAction(task: Task)
    | CancelAction(actionId: string, token: Option<nat>)
    | RenewLease(actionId: string, generation: nat, leaseMs: nat)
    | Scan
    | Pause
    | Resume
    | OptionalCommand

  datatype Rejection = MissingToken | StaleToken | InvalidAction | ConstraintUnmet(subjects: seq<string>)

  datatype Answer =
    | Accepted(token: nat)
    | Rejected(why: Rejection)
    | CancelledSafely
    | LeaseAnswer(renewed: bool, running: bool)
    | Snapshot(catalog: set<string>)
    | NothingPaused
    | NothingResumed
    | Unsupported

  datatype Phase = Running | Stopped | Failed | Cancelled

  /** What the adapter sends. A status does not name its robot on the wire; `robot` records whose it was. */
  datatype Out =
    | Status(robot: Robot, actionId: string, phase: Phase, token: nat, leaseExpired: bool)
    | Reply(id: nat, robot: Robot, answer: Answer)

  datatype Timer = Timer(robot: Robot, actionId: string, epoch: nat, cancelled: bool, fired: bool)

  datatype Accept = Accept(
    robot: Robot, token: nat, assignmentId: string, actionId: string, generation: nat, leased: bool)

  /** The adapter's dictionaries and outbox, every timer it ever started, and the history of its accepts. */
  datatype State = State(
    fence: map<Robot, nat>,
    assignment: map<Robot, string>,
    action: map<Robot, string>,
    generation: map<Robot, nat>,
    epoch: map<Robot, nat>,
    timer: map<Robot, nat>,
    timers: seq<Timer>,
    outbox: seq<Out>,
    accepts: seq<Accept>,
    superseded: seq<(Robot, string)>)

  const INIT := State(map[], map[], map[], map[], map[], map[], [], [], [], [])

  datatype Event =
    | Receive(id: nat, robot: Robot, command: Command)
    | Fire(i: nat)

  // ---- The adapter ----

  function FenceOf(s: State, r: Robot): nat {
    if r in s.fence then s.fence[r] else 0
  }

  function ActionOf(s: State, r: Robot): string {
    if r in s.action then s.action[r] else ""
  }

  function EpochIn(epoch: map<Robot, nat>, r: Robot): nat {
    if r in epoch then epoch[r] else 0
  }

  /** The subjects in `constraints` the adapter cannot honour, recognised or not. */
  function Unhonourable(constraints: seq<string>, honoured: set<string>): (bad: seq<string>)
    ensures bad == [] <==> forall c <- constraints :: c in honoured
    ensures forall c :: c in bad <==> c in constraints && c !in honoured
  {
    if constraints == [] then []
    else (if constraints[0] in honoured then [] else [constraints[0]]) + Unhonourable(constraints[1..], honoured)
  }

  datatype Judgement = Fresh | Redelivery | Refusal(why: Rejection)

  function Judge(cfg: Config, s: State, robot: Robot, task: Task): Judgement {
    if task.token.None? then Refusal(MissingToken)
    else if task.token.value == FenceOf(s, robot) && robot in s.assignment && task.assignmentId == s.assignment[robot]
      then Redelivery
    else if task.token.value <= FenceOf(s, robot) then Refusal(StaleToken)
    else if task.actionType !in cfg.catalog then Refusal(InvalidAction)
    else if Unhonourable(task.constraints, cfg.honoured) != []
      then Refusal(ConstraintUnmet(Unhonourable(task.constraints, cfg.honoured)))
    else Fresh
  }

  function Emit(s: State, robot: Robot, actionId: string, phase: Phase, leaseExpired: bool): State {
    if actionId == "" then s
    else s.(outbox := s.outbox + [Status(robot, actionId, phase, FenceOf(s, robot), leaseExpired)])
  }

  function CancelLease(s: State, robot: Robot): State {
    if robot in s.timer && s.timer[robot] < |s.timers| then
      var i := s.timer[robot];
      s.(timers := s.timers[i := s.timers[i].(cancelled := true)], timer := s.timer - {robot})
    else s
  }

  function ArmLease(s: State, robot: Robot, actionId: string, generation: nat): State {
    var c := CancelLease(s, robot);
    var epoch := EpochIn(c.epoch, robot) + 1;
    c.(generation := c.generation[robot := generation],
       epoch := c.epoch[robot := epoch],
       timer := c.timer[robot := |c.timers|],
       timers := c.timers + [Timer(robot, actionId, epoch, false, false)])
  }

  function AcceptOf(robot: Robot, task: Task): Accept
    requires task.token.Some?
  {
    Accept(robot, task.token.value, task.assignmentId, task.actionId, task.generation, task.leaseMs > 0)
  }

  function Take(s: State, robot: Robot, task: Task): State
    requires task.token.Some?
  {
    s.(fence := s.fence[robot := task.token.value],
       assignment := s.assignment[robot := task.assignmentId],
       action := s.action[robot := task.actionId],
       accepts := s.accepts + [AcceptOf(robot, task)],
       superseded := if ActionOf(s, robot) == "" then s.superseded else s.superseded + [(robot, ActionOf(s, robot))])
  }

  /** A new assignment: raise the mark, report RUNNING, and arm the lease if it carries one. */
  function AcceptTask(s: State, robot: Robot, task: Task): State
    requires task.token.Some?
  {
    var t := Emit(Take(s, robot, task), robot, task.actionId, Running, false);
    if task.leaseMs > 0 then ArmLease(t, robot, task.actionId, task.generation) else t
  }

  function Cancel(s: State, robot: Robot): State {
    var t := Emit(CancelLease(s, robot), robot, ActionOf(s, robot), Cancelled, false);
    t.(action := t.action[robot := ""])
  }

  predicate Renews(s: State, robot: Robot, generation: nat) {
    robot in s.generation && s.generation[robot] == generation
  }

  function Renew(s: State, robot: Robot, generation: nat): State {
    if Renews(s, robot, generation) then ArmLease(s, robot, ActionOf(s, robot), generation) else s
  }

  /** The part of `_handle_command` before the result is queued. */
  function Act(cfg: Config, s: State, robot: Robot, command: Command): State {
    match command
    case AssignAction(task) => if Judge(cfg, s, robot, task).Fresh? then AcceptTask(s, robot, task) else s
    case CancelAction(_, _) => Cancel(s, robot)
    case RenewLease(_, generation, _) => Renew(s, robot, generation)
    case _ => s
  }

  function AnswerTo(cfg: Config, s: State, robot: Robot, command: Command): Answer {
    match command
    case AssignAction(task) =>
      (match Judge(cfg, s, robot, task)
       case Refusal(why) => Rejected(why)
       case _ => Accepted(if task.token.Some? then task.token.value else 0))
    case CancelAction(_, _) => CancelledSafely
    case RenewLease(actionId, generation, _) =>
      LeaseAnswer(Renews(s, robot, generation), ActionOf(s, robot) == actionId)
    case Scan => Snapshot(cfg.catalog)
    case Pause => NothingPaused
    case Resume => NothingResumed
    case OptionalCommand => Unsupported
  }

  function Handle(cfg: Config, s: State, id: nat, robot: Robot, command: Command): State {
    var t := Act(cfg, s, robot, command);
    t.(outbox := t.outbox + [Reply(id, robot, AnswerTo(cfg, s, robot, command))])
  }

  /** The two guards of `_lease_expired`. */
  predicate Expires(s: State, i: nat)
    requires i < |s.timers|
  {
    var t := s.timers[i];
    t.robot in s.epoch && s.epoch[t.robot] == t.epoch && t.robot in s.action && s.action[t.robot] == t.actionId
  }

  function StopWork(s: State, robot: Robot, actionId: string): State {
    var t := s.(action := s.action[robot := ""]);
    Emit(Emit(t, robot, actionId, Stopped, false), robot, actionId, Failed, true)
  }

  /** A timer runs its callback once, whether or not it was cancelled. */
  function FireTimer(s: State, i: nat): State {
    if i < |s.timers| && !s.timers[i].fired then
      var t := s.(timers := s.timers[i := s.timers[i].(fired := true)]);
      if Expires(s, i) then StopWork(t, s.timers[i].robot, s.timers[i].actionId) else t
    else s
  }

  function Step(cfg: Config, s: State, e: Event): State {
    match e
    case Receive(id, robot, command) => Handle(cfg, s, id, robot, command)
    case Fire(i) => FireTimer(s, i)
  }

  function Run(cfg: Config, events: seq<Event>): State {
    if events == [] then INIT
    else Step(cfg, Run(cfg, events[..|events| - 1]), events[|events| - 1])
  }

  // ---- Timers ----

  /** Each arming of a robot's lease has its own epoch, growing with time; the recorded timer is the latest. */
  ghost predicate TimersOk(epoch: map<Robot, nat>, timer: map<Robot, nat>, timers: seq<Timer>) {
    && (forall i: nat :: i < |timers| ==> 1 <= timers[i].epoch <= EpochIn(epoch, timers[i].robot))
    && (forall i: nat, j: nat :: i < j < |timers| && timers[i].robot == timers[j].robot ==>
      timers[i].epoch < timers[j].epoch)
    && (forall r :: r in timer ==>
      timer[r] < |timers| && Latest(epoch, timers, r, timer[r]) && !timers[timer[r]].cancelled)
  }

  predicate Latest(epoch: map<Robot, nat>, timers: seq<Timer>, r: Robot, i: nat) {
    i < |timers| && timers[i].robot == r && timers[i].epoch == EpochIn(epoch, r)
  }

  ghost predicate Timed(s: State) {
    TimersOk(s.epoch, s.timer, s.timers)
  }

  /** A timer's flags may change as long as a recorded timer is never cancelled. */
  lemma FlagKeepsTimers(epoch: map<Robot, nat>, timer: map<Robot, nat>, timers: seq<Timer>, i: nat, x: Timer)
    requires TimersOk(epoch, timer, timers) && i < |timers|
    requires x == timers[i].(cancelled := x.cancelled, fired := x.fired)
    requires x.cancelled ==> timers[i].cancelled || timers[i].robot !in timer
    ensures TimersOk(epoch, timer, timers[i := x])
  {
  }

  lemma ForgetKeepsTimers(epoch: map<Robot, nat>, timer: map<Robot, nat>, timers: seq<Timer>, robot: Robot)
    requires TimersOk(epoch, timer, timers)
    ensures TimersOk(epoch, timer - {robot}, timers)
  {
  }

  lemma CancelKeepsTimers(s: State, robot: Robot)
    requires Timed(s)
    ensures Timed(CancelLease(s, robot)) && robot !in CancelLease(s, robot).timer
  {
    if robot in s.timer {
      var i := s.timer[robot];
      ForgetKeepsTimers(s.epoch, s.timer, s.timers, robot);
      FlagKeepsTimers(s.epoch, s.timer - {robot}, s.timers, i, s.timers[i].(cancelled := true));
    }
  }

  lemma StartKeepsTimers(epoch: map<Robot, nat>, timer: map<Robot, nat>, timers: seq<Timer>, robot: Robot,
      actionId: string)
    requires TimersOk(epoch, timer, timers) && robot !in timer
    ensures var n := EpochIn(epoch, robot) + 1;
            TimersOk(epoch[robot := n], timer[robot := |timers|], timers + [Timer(robot, actionId, n, false, false)])
  {
  }

  lemma ArmKeepsTimers(s: State, robot: Robot, actionId: string, generation: nat)
    requires Timed(s)
    ensures var t := ArmLease(s, robot, actionId, generation);
            && Timed(t)
            && robot in t.timer && robot in t.epoch
            && t.timers[t.timer[robot]] == Timer(robot, actionId, t.epoch[robot], false, false)
  {
    CancelKeepsTimers(s, robot);
    var c := CancelLease(s, robot);
    StartKeepsTimers(c.epoch, c.timer, c.timers, robot, actionId);
  }

  lemma FireShape(s: State, i: nat)
    requires i < |s.timers| && !s.timers[i].fired
    ensures var t := FireTimer(s, i);
            && t.timers == s.timers[i := s.timers[i].(fired := true)]
            && t.epoch == s.epoch && t.timer == s.timer && t.generation == s.generation
            && t.fence == s.fence && t.assignment == s.assignment && t.accepts == s.accepts
            && t.superseded == s.superseded
            && t.action == if Expires(s, i) then s.action[s.timers[i].robot := ""] else s.action
  {
    if Expires(s, i) {
      StopShape(s.(timers := s.timers[i := s.timers[i].(fired := true)]), s.timers[i].robot, s.timers[i].actionId);
    }
  }

  lemma StopShape(s: State, robot: Robot, actionId: string)
    ensures StopWork(s, robot, actionId)
      == s.(action := s.action[robot := ""], outbox := StopWork(s, robot, actionId).outbox)
  {
  }

  lemma FireKeepsTimers(s: State, i: nat)
    requires Timed(s)
    ensures Timed(FireTimer(s, i))
  {
    if i < |s.timers| && !s.timers[i].fired {
      FireShape(s, i);
      FlagKeepsTimers(s.epoch, s.timer, s.timers, i, s.timers[i].(fired := true));
    }
  }

  lemma ActKeepsTimers(cfg: Config, s: State, robot: Robot, command: Command)
    requires Timed(s)
    ensures Timed(Act(cfg, s, robot, command))
  {
    match command
    case AssignAction(task) =>
      if Judge(cfg, s, robot, task).Fresh? && task.leaseMs > 0 {
        ArmKeepsTimers(Emit(Take(s, robot, task), robot, task.actionId, Running, false), robot, task.actionId,
          task.generation);
      }
    case CancelAction(_, _) => CancelKeepsTimers(s, robot);
    case RenewLease(_, generation, _) =>
      if Renews(s, robot, generation) { ArmKeepsTimers(s, robot, ActionOf(s, robot), generation); }
    case _ =>
  }

  lemma {:induction false} RunKeepsTimers(cfg: Config, events: seq<Event>)
    ensures Timed(Run(cfg, events))
  {
    if events != [] {
      var s := Run(cfg, events[..|events| - 1]);
      RunKeepsTimers(cfg, events[..|events| - 1]);
      match events[|events| - 1]
      case Fire(i) => FireKeepsTimers(s, i);
      case Receive(id, robot, command) => ActKeepsTimers(cfg, s, robot, command);
    }
  }

  // ---- One robot's share of the state ----

  datatype Held = Held(
    fence: nat,
    assignment: Option<string>,
    action: Option<string>,
    generation: Option<nat>,
    epoch: nat,
    timer: Option<Timer>)

  function Lookup<V>(m: map<Robot, V>, r: Robot): Option<V> {
    if r in m then Some(m[r]) else None
  }

  function HeldBy(s: State, r: Robot): Held {
    Held(FenceOf(s, r), Lookup(s.assignment, r), Lookup(s.action, r), Lookup(s.generation, r), EpochIn(s.epoch, r),
         if r in s.timer && s.timer[r] < |s.timers| then Some(s.timers[s.timer[r]]) else None)
  }

  lemma CancelLeaseIsLocal(s: State, robot: Robot, r: Robot)
    requires Timed(s) && r != robot
    ensures HeldBy(CancelLease(s, robot), r) == HeldBy(s, r)
  {
  }

  lemma ArmIsLocal(s: State, robot: Robot, actionId: string, generation: nat, r: Robot)
    requires Timed(s) && r != robot
    ensures HeldBy(ArmLease(s, robot, actionId, generation), r) == HeldBy(s, r)
  {
    CancelLeaseIsLocal(s, robot, r);
    CancelKeepsTimers(s, robot);
  }

  lemma AcceptIsLocal(s: State, robot: Robot, task: Task, r: Robot)
    requires Timed(s) && r != robot && task.token.Some?
    ensures HeldBy(AcceptTask(s, robot, task), r) == HeldBy(s, r)
  {
    var t := Emit(Take(s, robot, task), robot, task.actionId, Running, false);
    assert HeldBy(t, r) == HeldBy(s, r);
    if task.leaseMs > 0 { ArmIsLocal(t, robot, task.actionId, task.generation, r); }
  }

  lemma ActIsLocal(cfg: Config, s: State, robot: Robot, command: Command, r: Robot)
    requires Timed(s) && r != robot
    ensures HeldBy(Act(cfg, s, robot, command), r) == HeldBy(s, r)
  {
    match command
    case AssignAction(task) =>
      if Judge(cfg, s, robot, task).Fresh? {
        AcceptIsLocal(s, robot, task, r);
      }
    case CancelAction(_, _) =>
      CancelLeaseIsLocal(s, robot, r);
    case RenewLease(_, generation, _) =>
      if Renews(s, robot, generation) { ArmIsLocal(s, robot, ActionOf(s, robot), generation, r); }
    case _ =>
  }

  function RobotOf(s: State, e: Event): Option<Robot> {
    match e
    case Receive(_, robot, _) => Some(robot)
    case Fire(i) => if i < |s.timers| then Some(s.timers[i].robot) else None
  }

  /** In no run does a command or a firing for one robot change what another robot holds. */
  lemma StepsAreLocal(cfg: Config, events: seq<Event>, e: Event, r: Robot)
    requires RobotOf(Run(cfg, events), e) != Some(r)
    ensures HeldBy(Step(cfg, Run(cfg, events), e), r) == HeldBy(Run(cfg, events), r)
  {
    var s := Run(cfg, events);
    RunKeepsTimers(cfg, events);
    match e
    case Receive(id, robot, command) => ActIsLocal(cfg, s, robot, command, r);
    case Fire(i) =>
      if i < |s.timers| && !s.timers[i].fired { FireShape(s, i); }
  }

  // ---- The lease ----

  /** A live action runs under a pending timer for exactly that robot, that action and the current epoch. */
  ghost predicate Leased(s: State, r: Robot) {
    ActionOf(s, r) != "" ==> HeldBy(s, r).timer == Some(Timer(r, ActionOf(s, r), EpochIn(s.epoch, r), false, false))
  }

  predicate TakesWork(cfg: Config, s: State, e: Event) {
    e.Receive? && e.command.AssignAction? && Judge(cfg, s, e.robot, e.command.task).Fresh?
  }

  /** Every assignment the run newly accepts carries a lease. */
  ghost predicate AllLeased(cfg: Config, events: seq<Event>) {
    events == [] ||
    (var before := events[..|events| - 1];
     var e := events[|events| - 1];
     && AllLeased(cfg, before)
     && (TakesWork(cfg, Run(cfg, before), e) ==> e.command.task.leaseMs > 0))
  }

  lemma FireKeepsLease(s: State, i: nat, r: Robot)
    requires Timed(s) && Leased(s, r)
    ensures Leased(FireTimer(s, i), r)
  {
    if i < |s.timers| && !s.timers[i].fired {
      FireShape(s, i);
    }
  }

  lemma AcceptLeases(s: State, robot: Robot, task: Task)
    requires Timed(s) && task.token.Some? && task.leaseMs > 0
    ensures Leased(AcceptTask(s, robot, task), robot)
  {
    ArmKeepsTimers(Emit(Take(s, robot, task), robot, task.actionId, Running, false), robot, task.actionId,
      task.generation);
  }

  lemma ActKeepsLease(cfg: Config, s: State, robot: Robot, command: Command, r: Robot)
    requires Timed(s) && Leased(s, r)
    requires r == robot && command.AssignAction? && Judge(cfg, s, robot, command.task).Fresh? ==>
      command.task.leaseMs > 0
    ensures Leased(Act(cfg, s, robot, command), r)
  {
    if r != robot {
      ActIsLocal(cfg, s, robot, command, r);
    } else {
      match command
      case AssignAction(task) =>
        if Judge(cfg, s, robot, task).Fresh? { AcceptLeases(s, robot, task); }
      case CancelAction(_, _) =>
      case RenewLease(_, generation, _) =>
        if Renews(s, robot, generation) { ArmKeepsTimers(s, robot, ActionOf(s, robot), generation); }
      case _ =>
    }
  }

  /** While every accepted assignment carries a lease, no action is ever live without its pending timer. */
  lemma {:induction false} LiveActionsAreLeased(cfg: Config, events: seq<Event>, r: Robot)
    requires AllLeased(cfg, events)
    ensures Leased(Run(cfg, events), r)
  {
    if events != [] {
      var before := events[..|events| - 1];
      var s := Run(cfg, before);
      LiveActionsAreLeased(cfg, before, r);
      RunKeepsTimers(cfg, before);
      match events[|events| - 1]
      case Fire(i) => FireKeepsLease(s, i, r);
      case Receive(id, robot, command) => ActKeepsLease(cfg, s, robot, command, r);
    }
  }

  /** A robot that was ever armed still has the timer of its latest arming. */
  ghost predicate HasLatest(s: State, r: Robot) {
    r in s.epoch ==> exists i: nat :: Latest(s.epoch, s.timers, r, i)
  }

  lemma ArmKeepsLatest(s: State, robot: Robot, actionId: string, generation: nat, r: Robot)
    requires HasLatest(s, r)
    ensures HasLatest(ArmLease(s, robot, actionId, generation), r)
  {
    var t := ArmLease(s, robot, actionId, generation);
    if r == robot {
      assert Latest(t.epoch, t.timers, r, |s.timers|);
    } else if r in s.epoch {
      var i: nat :| Latest(s.epoch, s.timers, r, i);
      assert Latest(t.epoch, t.timers, r, i);
    }
  }

  lemma CancelKeepsLatest(s: State, robot: Robot, r: Robot)
    requires HasLatest(s, r)
    ensures HasLatest(CancelLease(s, robot), r)
  {
    if r in s.epoch {
      var i: nat :| Latest(s.epoch, s.timers, r, i);
      assert Latest(s.epoch, CancelLease(s, robot).timers, r, i);
    }
  }

  lemma ActKeepsLatest(cfg: Config, s: State, robot: Robot, command: Command, r: Robot)
    requires HasLatest(s, r)
    ensures HasLatest(Act(cfg, s, robot, command), r)
  {
    match command
    case AssignAction(task) =>
      if Judge(cfg, s, robot, task).Fresh? {
        var t := Emit(Take(s, robot, task), robot, task.actionId, Running, false);
        assert t.epoch == s.epoch && t.timers == s.timers;
        if task.leaseMs > 0 { ArmKeepsLatest(t, robot, task.actionId, task.generation, r); }
      }
    case CancelAction(_, _) =>
      CancelKeepsLatest(s, robot, r);
      assert Cancel(s, robot).epoch == s.epoch && Cancel(s, robot).timers == CancelLease(s, robot).timers;
    case RenewLease(_, generation, _) =>
      if Renews(s, robot, generation) { ArmKeepsLatest(s, robot, ActionOf(s, robot), generation, r); }
    case _ =>
  }

  lemma FireKeepsLatest(s: State, k: nat, r: Robot)
    requires HasLatest(s, r)
    ensures HasLatest(FireTimer(s, k), r)
  {
    if k < |s.timers| && !s.timers[k].fired && r in s.epoch {
      FireShape(s, k);
      var i: nat :| Latest(s.epoch, s.timers, r, i);
      assert Latest(s.epoch, FireTimer(s, k).timers, r, i);
    }
  }

  lemma {:induction false} RunKeepsLatest(cfg: Config, events: seq<Event>, r: Robot)
    ensures HasLatest(Run(cfg, events), r)
  {
    if events != [] {
      var before := events[..|events| - 1];
      RunKeepsLatest(cfg, before, r);
      match events[|events| - 1]
      case Fire(i) => FireKeepsLatest(Run(cfg, before), i, r);
      case Receive(id, robot, command) =>
        ActKeepsLatest(cfg, Run(cfg, before), robot, command, r);
        var t := Act(cfg, Run(cfg, before), robot, command);
        assert Run(cfg, events).epoch == t.epoch && Run(cfg, events).timers == t.timers;
    }
  }

  /** Nothing but the record that the callback has run. */
  predicate OnlyMarksFired(s: State, i: nat)
    requires i < |s.timers|
  {
    FireTimer(s, i) == s.(timers := s.timers[i := s.timers[i].(fired := true)])
  }

  /**
   In every run, leased or not: a pending timer's firing does something exactly when it belongs to
   the robot's latest arming and names the action the robot is executing.
   */
  lemma FiringStopsTheCurrentLeaseOnly(cfg: Config, events: seq<Event>, i: nat)
    requires i < |Run(cfg, events).timers| && !Run(cfg, events).timers[i].fired
    ensures var s := Run(cfg, events);
            var t := s.timers[i];
            !OnlyMarksFired(s, i) <==>
              t.actionId != "" && ActionOf(s, t.robot) == t.actionId
              && forall j: nat :: i < j < |s.timers| ==> s.timers[j].robot != t.robot
  {
    var s := Run(cfg, events);
    var t := s.timers[i];
    RunKeepsTimers(cfg, events);
    RunKeepsLatest(cfg, events, t.robot);
    FireShape(s, i);
    if t.epoch == EpochIn(s.epoch, t.robot) {
      assert forall j: nat :: i < j < |s.timers| ==> s.timers[j].robot != t.robot;
    } else {
      var j: nat :| Latest(s.epoch, s.timers, t.robot, j);
      assert i < j;
    }
  }

  /** So while an action is live, every other timer of its robot, cancelled or not, fires into nothing. */
  lemma EarlierArmingsAreInert(cfg: Config, events: seq<Event>, r: Robot, i: nat)
    requires AllLeased(cfg, events)
    requires var s := Run(cfg, events);
             && ActionOf(s, r) != "" && i < |s.timers| && s.timers[i].robot == r && !s.timers[i].fired
             && Lookup(s.timer, r) != Some(i)
    ensures OnlyMarksFired(Run(cfg, events), i)
  {
    LiveActionsAreLeased(cfg, events, r);
    RunKeepsTimers(cfg, events);
    OtherTimersAreOlder(Run(cfg, events), r, i);
    OldEpochIsInert(Run(cfg, events), i);
  }

  lemma OtherTimersAreOlder(s: State, r: Robot, i: nat)
    requires Timed(s) && r in s.timer && i < |s.timers| && s.timers[i].robot == r && s.timer[r] != i
    ensures s.timers[i].epoch < EpochIn(s.epoch, r)
  {
  }

  lemma OldEpochIsInert(s: State, i: nat)
    requires i < |s.timers| && !s.timers[i].fired && s.timers[i].epoch != EpochIn(s.epoch, s.timers[i].robot)
    ensures OnlyMarksFired(s, i)
  {
  }

  /**
   What a new assignment must bring or find: a lease of its own, no action to cover, or the previous
   lease's timer, still pending and by accident for the same action.
   */
  predicate Covered(s: State, robot: Robot, task: Task) {
    || task.leaseMs > 0
    || task.actionId == ""
    || HeldBy(s, robot).timer == Some(Timer(robot, task.actionId, EpochIn(s.epoch, robot), false, false))
  }

  lemma AcceptIsCoveredIff(s: State, robot: Robot, task: Task)
    requires Timed(s) && task.token.Some?
    ensures Leased(AcceptTask(s, robot, task), robot) <==> Covered(s, robot, task)
  {
    if task.leaseMs > 0 { AcceptLeases(s, robot, task); }
  }

  /** Every assignment that the run newly accepts for the robot is covered. */
  ghost predicate AllCovered(cfg: Config, events: seq<Event>, r: Robot) {
    events == [] ||
    (var before := events[..|events| - 1];
     var e := events[|events| - 1];
     && AllCovered(cfg, before, r)
     && (TakesWork(cfg, Run(cfg, before), e) && e.robot == r ==> Covered(Run(cfg, before), r, e.command.task)))
  }

  /** The robot's live action had its pending timer all along. */
  ghost predicate AlwaysLeased(cfg: Config, events: seq<Event>, r: Robot) {
    Leased(Run(cfg, events), r) && (events != [] ==> AlwaysLeased(cfg, events[..|events| - 1], r))
  }

  lemma StepIsLeasedIff(cfg: Config, s: State, e: Event, r: Robot)
    requires Timed(s) && Leased(s, r)
    ensures Leased(Step(cfg, s, e), r) <==> (TakesWork(cfg, s, e) && e.robot == r ==> Covered(s, r, e.command.task))
  {
    match e
    case Fire(i) => FireKeepsLease(s, i, r);
    case Receive(id, robot, command) =>
      RepliesKeepLease(cfg, s, id, robot, command, r);
      if TakesWork(cfg, s, e) && robot == r {
        AcceptIsCoveredIff(s, robot, command.task);
      } else {
        ActKeepsLease(cfg, s, robot, command, r);
      }
  }

  lemma RepliesKeepLease(cfg: Config, s: State, id: nat, robot: Robot, command: Command, r: Robot)
    ensures Leased(Handle(cfg, s, id, robot, command), r) <==> Leased(Act(cfg, s, robot, command), r)
  {
  }

  /** Over every run: a robot's live action is never without its pending timer exactly when every accept is covered. */
  lemma {:induction false} AlwaysLeasedIff(cfg: Config, events: seq<Event>, r: Robot)
    ensures AlwaysLeased(cfg, events, r) <==> AllCovered(cfg, events, r)
  {
    if events != [] {
      var before := events[..|events| - 1];
      AlwaysLeasedIff(cfg, before, r);
      RunKeepsTimers(cfg, before);
      if AlwaysLeased(cfg, before, r) {
        StepIsLeasedIff(cfg, Run(cfg, before), events[|events| - 1], r);
      }
    }
  }

  /** The accident stops new work: the old lease's timer ends the new assignment, under its new token. */
  lemma OldLeaseStopsUnleasedWork(s: State, robot: Robot, task: Task)
    requires Timed(s) && task.token.Some? && task.leaseMs == 0 && task.actionId != ""
    requires HeldBy(s, robot).timer == Some(Timer(robot, task.actionId, EpochIn(s.epoch, robot), false, false))
    ensures var t := AcceptTask(s, robot, task);
            var u := FireTimer(t, s.timer[robot]);
            && ActionOf(t, robot) == task.actionId && ActionOf(u, robot) == ""
            && u.outbox == t.outbox + [Status(robot, task.actionId, Stopped, task.token.value, false),
                                       Status(robot, task.actionId, Failed, task.token.value, true)]
  {
  }

  lemma Do(cfg: Config, events: seq<Event>, s: State, e: Event) returns (longer: seq<Event>, t: State)
    requires Run(cfg, events) == s
    ensures longer == events + [e] && t == Step(cfg, s, e) == Run(cfg, longer)
  {
    longer, t := events + [e], Step(cfg, s, e);
    assert longer[..|longer| - 1] == events;
  }

  /** A run that fails it outright: a first assignment with no lease leaves its action live with no timer. */
  lemma UnleasedWorkHasNoTimer(cfg: Config, robot: Robot, task: Task) returns (events: seq<Event>)
    requires task.token == Some(1) && task.leaseMs == 0 && task.actionId != ""
    requires task.actionType in cfg.catalog && task.constraints == []
    ensures ActionOf(Run(cfg, events), robot) == task.actionId && Run(cfg, events).timers == []
    ensures !AlwaysLeased(cfg, events, robot) && !AllCovered(cfg, events, robot)
  {
    var s;
    UnleasedAccept(cfg, INIT, 1, robot, task);
    events, s := Do(cfg, [], INIT, Receive(1, robot, AssignAction(task)));
    AlwaysLeasedIff(cfg, events, robot);
  }

  lemma FirstAccept(cfg: Config, robot: Robot, task: Task) returns (events: seq<Event>, s: State)
    requires task.token == Some(1) && task.leaseMs > 0 && task.actionType in cfg.catalog && task.constraints == []
    ensures s == Run(cfg, events) && FenceOf(s, robot) == 1 && s.epoch == map[robot := 1]
    ensures s.timers == [Timer(robot, task.actionId, 1, false, false)]
  {
    events, s := Do(cfg, [], INIT, Receive(1, robot, AssignAction(task)));
  }

  lemma UnleasedAccept(cfg: Config, s: State, id: nat, robot: Robot, task: Task)
    requires task.token.Some? && Judge(cfg, s, robot, task).Fresh? && task.leaseMs == 0
    ensures var t := Step(cfg, s, Receive(id, robot, AssignAction(task)));
            t.timers == s.timers && t.epoch == s.epoch && ActionOf(t, robot) == task.actionId
              && FenceOf(t, robot) == task.token.value
  {
  }

  /** A run in which it does: the second assignment has no lease, and the first one's ends it. */
  lemma OldLeaseCanStopUnleasedWork(cfg: Config, robot: Robot, first: Task, second: Task) returns (events: seq<Event>)
    requires first.token == Some(1) && first.leaseMs > 0 && second == first.(token := Some(2), leaseMs := 0)
    requires first.actionId != "" && first.actionType in cfg.catalog && first.constraints == []
    ensures var s := Run(cfg, events);
            && ActionOf(s, robot) == first.actionId && FenceOf(s, robot) == 2
            && ActionOf(Step(cfg, s, Fire(0)), robot) == ""
            && Step(cfg, s, Fire(0)).outbox == s.outbox + [Status(robot, first.actionId, Stopped, 2, false),
                                                           Status(robot, first.actionId, Failed, 2, true)]
  {
    var s;
    events, s := FirstAccept(cfg, robot, first);
    UnleasedAccept(cfg, s, 2, robot, second);
    events, s := Do(cfg, events, s, Receive(2, robot, AssignAction(second)));
    FireShape(s, 0);
    FireOutbox(s, 0);
  }

  // ---- The fencing mark ----

  function LastAccept(accepts: seq<Accept>, r: Robot): Option<Accept> {
    if accepts == [] then None
    else if accepts[|accepts| - 1].robot == r then Some(accepts[|accepts| - 1])
    else LastAccept(accepts[..|accepts| - 1], r)
  }

  lemma LastAcceptAppend(accepts: seq<Accept>, a: Accept, r: Robot)
    ensures LastAccept(accepts + [a], r) == if a.robot == r then Some(a) else LastAccept(accepts, r)
  {
  }

  /** What is held for a robot is what its last accepted assignment said; only the action may have ended. */
  ghost predicate Marked(s: State, r: Robot) {
    match LastAccept(s.accepts, r)
    case None => FenceOf(s, r) == 0 && r !in s.assignment && ActionOf(s, r) == ""
    case Some(a) =>
      && FenceOf(s, r) == a.token && Lookup(s.assignment, r) == Some(a.assignmentId)
      && (ActionOf(s, r) == "" || ActionOf(s, r) == a.actionId)
  }

  ghost predicate Increasing(s: State) {
    && (forall i: nat, j: nat :: i < j < |s.accepts| && s.accepts[i].robot == s.accepts[j].robot ==>
      s.accepts[i].token < s.accepts[j].token)
    && (forall i: nat :: i < |s.accepts| ==> s.accepts[i].token <= FenceOf(s, s.accepts[i].robot))
  }

  /** The fields a command may change, apart from timers and outbox. */
  lemma ActShape(cfg: Config, s: State, robot: Robot, command: Command)
    ensures var t := Act(cfg, s, robot, command);
            if command.AssignAction? && Judge(cfg, s, robot, command.task).Fresh? then
              var k := Take(s, robot, command.task);
              && t.fence == k.fence && t.assignment == k.assignment && t.action == k.action
              && t.accepts == k.accepts && t.superseded == k.superseded
            else
              && t.fence == s.fence && t.assignment == s.assignment && t.accepts == s.accepts
              && t.superseded == s.superseded
              && t.action == if command.CancelAction? then s.action[robot := ""] else s.action
  {
    match command
    case AssignAction(task) => if Judge(cfg, s, robot, task).Fresh? { AcceptShape(s, robot, task); }
    case CancelAction(_, _) =>
    case RenewLease(_, generation, _) => ArmShape(s, robot, ActionOf(s, robot), generation);
    case _ =>
  }

  lemma ArmShape(s: State, robot: Robot, actionId: string, generation: nat)
    ensures var t := ArmLease(s, robot, actionId, generation);
            t == s.(generation := t.generation, epoch := t.epoch, timer := t.timer, timers := t.timers)
  {
  }

  lemma AcceptShape(s: State, robot: Robot, task: Task)
    requires task.token.Some?
    ensures var t := AcceptTask(s, robot, task);
            var k := Take(s, robot, task);
            && t.fence == k.fence && t.assignment == k.assignment && t.action == k.action
            && t.accepts == k.accepts && t.superseded == k.superseded
            && t.outbox == Emit(k, robot, task.actionId, Running, false).outbox
  {
    ArmShape(Emit(Take(s, robot, task), robot, task.actionId, Running, false), robot, task.actionId, task.generation);
  }

  lemma ActKeepsMark(cfg: Config, s: State, robot: Robot, command: Command, r: Robot)
    requires Marked(s, r)
    ensures Marked(Act(cfg, s, robot, command), r)
  {
    ActShape(cfg, s, robot, command);
    if command.AssignAction? && Judge(cfg, s, robot, command.task).Fresh? {
      var task := command.task;
      LastAcceptAppend(s.accepts, AcceptOf(robot, task), r);
    }
  }

  lemma FireKeepsMark(s: State, i: nat, r: Robot)
    requires Marked(s, r)
    ensures Marked(FireTimer(s, i), r)
  {
    if i < |s.timers| && !s.timers[i].fired { FireShape(s, i); }
  }

  lemma ActKeepsIncreasing(cfg: Config, s: State, robot: Robot, command: Command)
    requires Increasing(s)
    ensures Increasing(Act(cfg, s, robot, command))
  {
    ActShape(cfg, s, robot, command);
  }

  lemma {:induction false} RunKeepsMarks(cfg: Config, events: seq<Event>, r: Robot)
    ensures Marked(Run(cfg, events), r)
  {
    if events != [] {
      var before := events[..|events| - 1];
      RunKeepsMarks(cfg, before, r);
      match events[|events| - 1]
      case Fire(i) => FireKeepsMark(Run(cfg, before), i, r);
      case Receive(id, robot, command) => ActKeepsMark(cfg, Run(cfg, before), robot, command, r);
    }
  }

  /** Over every run, the tokens of a robot's newly accepted assignments strictly increase up to its mark. */
  lemma {:induction false} AcceptedTokensIncrease(cfg: Config, events: seq<Event>)
    ensures Increasing(Run(cfg, events))
  {
    if events != [] {
      var before := events[..|events| - 1];
      AcceptedTokensIncrease(cfg, before);
      match events[|events| - 1]
      case Fire(i) =>
        if i < |Run(cfg, before).timers| && !Run(cfg, before).timers[i].fired { FireShape(Run(cfg, before), i); }
      case Receive(id, robot, command) => ActKeepsIncreasing(cfg, Run(cfg, before), robot, command);
    }
  }

  /**
   How an assignment can end, in every reachable state. A refusal changes nothing but the outbox.
   An accept that raises no mark is the last accepted assignment delivered again, and changes
   nothing either. Any other accept is under a token above every token accepted for the robot.
   */
  lemma AssignmentOutcomes(cfg: Config, events: seq<Event>, id: nat, robot: Robot, task: Task)
    ensures var s := Run(cfg, events);
            var t := Step(cfg, s, Receive(id, robot, AssignAction(task)));
            var last := LastAccept(s.accepts, robot);
            var quiet := s.(outbox := t.outbox);
            match Judge(cfg, s, robot, task)
            case Refusal(why) => t == quiet && t.outbox == s.outbox + [Reply(id, robot, Rejected(why))]
            case Redelivery =>
              && t == quiet && t.outbox == s.outbox + [Reply(id, robot, Accepted(FenceOf(s, robot)))]
              && last.Some? && task.token == Some(last.value.token) && task.assignmentId == last.value.assignmentId
            case Fresh =>
              && task.token.Some? && (forall a <- s.accepts :: a.robot == robot ==> a.token < task.token.value)
              && t.accepts == s.accepts + [AcceptOf(robot, task)]
              && t.outbox[|t.outbox| - 1] == Reply(id, robot, Accepted(task.token.value))
  {
    var s := Run(cfg, events);
    RunKeepsMarks(cfg, events, robot);
    AcceptedTokensIncrease(cfg, events);
    ActShape(cfg, s, robot, AssignAction(task));
  }

  /** Delivering the last accepted assignment again is always acknowledged, whatever happened to its action. */
  lemma RedeliveryIsRecognised(cfg: Config, events: seq<Event>, robot: Robot, task: Task)
    ensures var s := Run(cfg, events);
            var last := LastAccept(s.accepts, robot);
            Judge(cfg, s, robot, task).Redelivery? <==>
              last.Some? && task.token == Some(last.value.token) && task.assignmentId == last.value.assignmentId
  {
    RunKeepsMarks(cfg, events, robot);
  }

  // ---- How an assignment is answered ----

  /** The token is above 0, where the mark begins, and above every token accepted for the robot. */
  ghost predicate Above(s: State, robot: Robot, token: nat) {
    token > 0 && forall a <- s.accepts :: a.robot == robot ==> a.token < token
  }

  ghost predicate Repeats(s: State, robot: Robot, task: Task) {
    var last := LastAccept(s.accepts, robot);
    last.Some? && task.token == Some(last.value.token) && task.assignmentId == last.value.assignmentId
  }

  ghost predicate Honoured(cfg: Config, task: Task) {
    forall c <- task.constraints :: c in cfg.honoured
  }

  ghost predicate Ascending(a: seq<nat>) {
    forall i, j :: 0 <= i < j < |a| ==> a[i] < a[j]
  }

  /** The positions, in order, of the constraints that are not honoured. */
  ghost predicate Positions(at: seq<nat>, constraints: seq<string>, honoured: set<string>) {
    && Ascending(at)
    && (forall p: nat :: p in at <==> p < |constraints| && constraints[p] !in honoured)
  }

  ghost predicate Picks(subjects: seq<string>, at: seq<nat>, constraints: seq<string>) {
    && |subjects| == |at|
    && forall i :: 0 <= i < |at| ==> at[i] < |constraints| && subjects[i] == constraints[at[i]]
  }

  /** The constraints that are not honoured, each as often as it is given and in the order given. */
  ghost predicate NotHonoured(subjects: seq<string>, constraints: seq<string>, honoured: set<string>) {
    exists at: seq<nat> :: Positions(at, constraints, honoured) && Picks(subjects, at, constraints)
  }

  function Shifted(at: seq<nat>): (r: seq<nat>)
    ensures |r| == |at| && forall i :: 0 <= i < |at| ==> r[i] == at[i] + 1
  {
    seq(|at|, i requires 0 <= i < |at| => at[i] + 1)
  }

  lemma ShiftedHolds(at: seq<nat>, p: nat)
    ensures p in Shifted(at) <==> p > 0 && p - 1 in at
  {
    if p > 0 && p - 1 in at {
      var i :| 0 <= i < |at| && at[i] == p - 1;
      assert Shifted(at)[i] == p;
    }
  }

  lemma PositionsLater(rest: seq<nat>, constraints: seq<string>, honoured: set<string>)
    requires constraints != [] && Positions(rest, constraints[1..], honoured)
    ensures Ascending(Shifted(rest))
    ensures forall p: nat :: p in Shifted(rest) <==> 0 < p < |constraints| && constraints[p] !in honoured
  {
    forall p: nat
      ensures p in Shifted(rest) <==> 0 < p < |constraints| && constraints[p] !in honoured
    {
      ShiftedHolds(rest, p);
      if 0 < p < |constraints| {
        assert constraints[p] == constraints[1..][p - 1];
      }
    }
  }

  lemma PositionsFirst(at: seq<nat>, constraints: seq<string>, honoured: set<string>)
    requires constraints != [] && Ascending(at)
    requires forall p: nat :: p in at <==> 0 < p < |constraints| && constraints[p] !in honoured
    ensures Positions(if constraints[0] in honoured then at else [0] + at, constraints, honoured)
  {
    if constraints[0] !in honoured {
      forall j | 0 <= j < |at|
        ensures at[j] > 0
      {
        assert at[j] in at;
      }
    }
  }

  lemma {:induction false} UnhonourableAt(constraints: seq<string>, honoured: set<string>) returns (at: seq<nat>)
    ensures Positions(at, constraints, honoured) && Picks(Unhonourable(constraints, honoured), at, constraints)
  {
    if constraints == [] {
      at := [];
    } else {
      var subjects := Unhonourable(constraints[1..], honoured);
      var rest := UnhonourableAt(constraints[1..], honoured);
      PositionsLater(rest, constraints, honoured);
      PositionsFirst(Shifted(rest), constraints, honoured);
      PicksLater(subjects, rest, constraints);
      PicksFirst(subjects, Shifted(rest), constraints);
      at := if constraints[0] in honoured then Shifted(rest) else [0] + Shifted(rest);
    }
  }

  lemma PicksLater(subjects: seq<string>, rest: seq<nat>, constraints: seq<string>)
    requires constraints != [] && Picks(subjects, rest, constraints[1..])
    ensures Picks(subjects, Shifted(rest), constraints)
  {
    forall i | 0 <= i < |rest|
      ensures Shifted(rest)[i] < |constraints| && subjects[i] == constraints[Shifted(rest)[i]]
    {
      assert constraints[1..][rest[i]] == constraints[rest[i] + 1];
    }
  }

  lemma PicksFirst(subjects: seq<string>, at: seq<nat>, constraints: seq<string>)
    requires constraints != [] && Picks(subjects, at, constraints)
    ensures Picks([constraints[0]] + subjects, [0] + at, constraints)
    ensures [] + subjects == subjects && [] + at == at
  {
  }

  lemma AboveTheMark(cfg: Config, events: seq<Event>, robot: Robot, token: nat)
    ensures token > FenceOf(Run(cfg, events), robot) <==> Above(Run(cfg, events), robot, token)
  {
    var s := Run(cfg, events);
    RunKeepsMarks(cfg, events, robot);
    AcceptedTokensIncrease(cfg, events);
    if LastAccept(s.accepts, robot).Some? {
      LastAcceptIsAmong(s.accepts, robot);
    }
  }

  lemma {:induction false} LastAcceptIsAmong(accepts: seq<Accept>, r: Robot)
    requires LastAccept(accepts, r).Some?
    ensures LastAccept(accepts, r).value in accepts && LastAccept(accepts, r).value.robot == r
  {
    if accepts[|accepts| - 1].robot != r {
      LastAcceptIsAmong(accepts[..|accepts| - 1], r);
    }
  }

  /** The answer that a step queued last. */
  ghost predicate Answers(t: State, id: nat, robot: Robot, answer: Answer) {
    t.outbox != [] && t.outbox[|t.outbox| - 1] == Reply(id, robot, answer)
  }

  lemma AnswerIs(cfg: Config, s: State, id: nat, robot: Robot, command: Command)
    ensures Answers(Step(cfg, s, Receive(id, robot, command)), id, robot, AnswerTo(cfg, s, robot, command))
  {
  }

  /**
   In every run an assignment is newly accepted exactly when its token is there and above all that
   were accepted for the robot, its type is in the catalog and each of its constraints is honoured.
   It is accepted with nothing new exactly when it repeats the last accepted one.
   */
  lemma AcceptedIff(cfg: Config, events: seq<Event>, id: nat, robot: Robot, task: Task)
    ensures var s := Run(cfg, events);
            var t := Step(cfg, s, Receive(id, robot, AssignAction(task)));
            t.accepts != s.accepts <==>
              && task.token.Some? && Above(s, robot, task.token.value)
              && task.actionType in cfg.catalog && Honoured(cfg, task)
    ensures var s := Run(cfg, events);
            var t := Step(cfg, s, Receive(id, robot, AssignAction(task)));
            && (t.accepts != s.accepts ==>
                  && t.accepts == s.accepts + [AcceptOf(robot, task)]
                  && Answers(t, id, robot, Accepted(task.token.value)))
            && (t.accepts == s.accepts && task.token.Some? && Answers(t, id, robot, Accepted(task.token.value)) <==>
                  Repeats(s, robot, task))
  {
    var s := Run(cfg, events);
    ActShape(cfg, s, robot, AssignAction(task));
    RedeliveryIsRecognised(cfg, events, robot, task);
    AnswerIs(cfg, s, id, robot, AssignAction(task));
    if task.token.Some? {
      AboveTheMark(cfg, events, robot, task.token.value);
    }
  }

  /** And rejected for a reason exactly under that reason's condition, the reasons tried in this order. */
  lemma RejectedIff(cfg: Config, events: seq<Event>, id: nat, robot: Robot, task: Task)
    ensures var s := Run(cfg, events);
            var t := Step(cfg, s, Receive(id, robot, AssignAction(task)));
            && (Answers(t, id, robot, Rejected(MissingToken)) <==> task.token.None?)
            && (Answers(t, id, robot, Rejected(StaleToken)) <==>
                  task.token.Some? && !Repeats(s, robot, task) && !Above(s, robot, task.token.value))
            && (Answers(t, id, robot, Rejected(InvalidAction)) <==>
                  task.token.Some? && Above(s, robot, task.token.value) && task.actionType !in cfg.catalog)
  {
    var s := Run(cfg, events);
    AnswerIs(cfg, s, id, robot, AssignAction(task));
    RedeliveryIsRecognised(cfg, events, robot, task);
    if task.token.Some? {
      AboveTheMark(cfg, events, robot, task.token.value);
    }
  }

  /** The last reason, with the subjects it names. */
  lemma ConstraintUnmetIff(cfg: Config, events: seq<Event>, id: nat, robot: Robot, task: Task, subjects: seq<string>)
    ensures var s := Run(cfg, events);
            var t := Step(cfg, s, Receive(id, robot, AssignAction(task)));
            Answers(t, id, robot, Rejected(ConstraintUnmet(subjects))) <==>
              && task.token.Some? && Above(s, robot, task.token.value) && task.actionType in cfg.catalog
              && !Honoured(cfg, task) && NotHonoured(subjects, task.constraints, cfg.honoured)
  {
    var s := Run(cfg, events);
    AnswerIs(cfg, s, id, robot, AssignAction(task));
    RedeliveryIsRecognised(cfg, events, robot, task);
    if task.token.Some? {
      AboveTheMark(cfg, events, robot, task.token.value);
    }
    NotHonouredIff(subjects, task.constraints, cfg.honoured);
  }

  lemma NotHonouredIff(subjects: seq<string>, constraints: seq<string>, honoured: set<string>)
    ensures NotHonoured(subjects, constraints, honoured) <==> subjects == Unhonourable(constraints, honoured)
  {
    var at := UnhonourableAt(constraints, honoured);
    if other: seq<nat> :| Positions(other, constraints, honoured) && Picks(subjects, other, constraints) {
      SamePositions(at, other, constraints, honoured);
    }
  }

  /** Ascending positions are told by which they are. */
  lemma {:induction false} SamePositions(a: seq<nat>, b: seq<nat>, constraints: seq<string>, honoured: set<string>)
    requires Positions(a, constraints, honoured) && Positions(b, constraints, honoured)
    ensures a == b
  {
    SameAscending(a, b);
  }

  ghost predicate SameMembers(a: seq<nat>, b: seq<nat>) {
    forall p: nat :: p in a <==> p in b
  }

  lemma {:induction false} SameAscending(a: seq<nat>, b: seq<nat>)
    requires Ascending(a) && Ascending(b) && SameMembers(a, b)
    ensures a == b
  {
    assert b != [] ==> b[0] in b;
    if a != [] {
      assert a[0] in b;
      SameLast(a, b);
      SameAscending(AllButLast(a), AllButLast(b));
    }
  }

  lemma SameLast(a: seq<nat>, b: seq<nat>)
    requires Ascending(a) && Ascending(b) && SameMembers(a, b) && a != [] && b != []
    ensures a[|a| - 1] == b[|b| - 1] && SameMembers(AllButLast(a), AllButLast(b))
  {
    assert a[|a| - 1] in a && b[|b| - 1] in b;
    LastIsGreatest(a, b);
  }

  ghost function AllButLast(a: seq<nat>): (c: seq<nat>)
    requires Ascending(a) && a != []
    ensures Ascending(c) && a == c + [a[|a| - 1]] && |c| < |a|
    ensures forall p: nat :: p in c <==> p in a && p != a[|a| - 1]
  {
    a[..|a| - 1]
  }

  lemma LastIsGreatest(a: seq<nat>, b: seq<nat>)
    requires Ascending(a) && Ascending(b) && a != [] && b != []
    requires a[|a| - 1] in b && b[|b| - 1] in a
    ensures a[|a| - 1] == b[|b| - 1]
  {
  }

  /** With an empty catalog, as shipped, no run accepts anything. */
  lemma {:induction false} EmptyCatalogAcceptsNothing(cfg: Config, events: seq<Event>, r: Robot)
    requires cfg.catalog == {}
    ensures NothingHeld(Run(cfg, events), r)
  {
    if events != [] {
      var s := Run(cfg, events[..|events| - 1]);
      EmptyCatalogAcceptsNothing(cfg, events[..|events| - 1], r);
      match events[|events| - 1]
      case Receive(id, robot, command) => EmptyCatalogStep(cfg, s, robot, command, r);
      case Fire(_) =>
    }
  }

  ghost predicate NothingHeld(s: State, r: Robot) {
    s.accepts == [] && s.timers == [] && s.generation == map[] && ActionOf(s, r) == ""
  }

  lemma EmptyCatalogStep(cfg: Config, s: State, robot: Robot, command: Command, r: Robot)
    requires cfg.catalog == {} && NothingHeld(s, r)
    ensures NothingHeld(Act(cfg, s, robot, command), r)
  {
  }

  /** A scan answers the catalog, and the other commands that no action hangs on change nothing. */
  lemma QueriesChangeNothing(cfg: Config, s: State, id: nat, robot: Robot, command: Command)
    requires command.Scan? || command.Pause? || command.Resume? || command.OptionalCommand?
    ensures var t := Step(cfg, s, Receive(id, robot, command));
            && t == s.(outbox := t.outbox) && |t.outbox| == |s.outbox| + 1 && s.outbox <= t.outbox
            && (command.Scan? <==> Answers(t, id, robot, Snapshot(cfg.catalog)))
            && (command.Pause? <==> Answers(t, id, robot, NothingPaused))
            && (command.Resume? <==> Answers(t, id, robot, NothingResumed))
            && (command.OptionalCommand? <==> Answers(t, id, robot, Unsupported))
  {
  }

  // ---- Cancelling ----

  /** Of a robot's timers only the recorded one is not cancelled. */
  ghost predicate OthersCancelled(timer: map<Robot, nat>, timers: seq<Timer>) {
    forall i: nat :: i < |timers| && !timers[i].cancelled ==> Lookup(timer, timers[i].robot) == Some(i)
  }

  lemma CancelLeavesOthers(s: State, robot: Robot)
    requires Timed(s) && OthersCancelled(s.timer, s.timers)
    ensures var t := CancelLease(s, robot);
            && OthersCancelled(t.timer, t.timers)
            && forall i: nat :: i < |t.timers| && t.timers[i].robot == robot ==> t.timers[i].cancelled
  {
  }

  lemma ArmLeavesOthers(s: State, robot: Robot, actionId: string, generation: nat)
    requires Timed(s) && OthersCancelled(s.timer, s.timers)
    ensures var t := ArmLease(s, robot, actionId, generation); OthersCancelled(t.timer, t.timers)
  {
    CancelLeavesOthers(s, robot);
  }

  lemma ActLeavesOthers(cfg: Config, s: State, robot: Robot, command: Command)
    requires Timed(s) && OthersCancelled(s.timer, s.timers)
    ensures var t := Act(cfg, s, robot, command); OthersCancelled(t.timer, t.timers)
  {
    match command
    case AssignAction(task) =>
      if Judge(cfg, s, robot, task).Fresh? && task.leaseMs > 0 {
        var t := Emit(Take(s, robot, task), robot, task.actionId, Running, false);
        ArmLeavesOthers(t, robot, task.actionId, task.generation);
      }
    case CancelAction(_, _) => CancelLeavesOthers(s, robot);
    case RenewLease(_, generation, _) =>
      if Renews(s, robot, generation) { ArmLeavesOthers(s, robot, ActionOf(s, robot), generation); }
    case _ =>
  }

  /** Over every run: arming again or cancelling has cancelled every timer but the recorded one. */
  lemma {:induction false} OldTimersAreCancelled(cfg: Config, events: seq<Event>)
    ensures OthersCancelled(Run(cfg, events).timer, Run(cfg, events).timers)
  {
    if events != [] {
      var before := events[..|events| - 1];
      var s := Run(cfg, before);
      OldTimersAreCancelled(cfg, before);
      RunKeepsTimers(cfg, before);
      match events[|events| - 1]
      case Fire(i) => if i < |s.timers| && !s.timers[i].fired { FireShape(s, i); }
      case Receive(id, robot, command) => ActLeavesOthers(cfg, s, robot, command);
    }
  }

  /**
   In every run a cancel, whatever it names, leaves the robot with no action and no recorded timer,
   and every timer it ever started cancelled; should one fire even so, it does nothing.
   */
  lemma CancelEndsTheLease(cfg: Config, events: seq<Event>, id: nat, robot: Robot, actionId: string, token: Option<nat>)
    ensures var t := Step(cfg, Run(cfg, events), Receive(id, robot, CancelAction(actionId, token)));
            && ActionOf(t, robot) == "" && robot !in t.timer && Answers(t, id, robot, CancelledSafely)
            && (forall i: nat :: i < |t.timers| && t.timers[i].robot == robot ==> t.timers[i].cancelled)
            && (forall i: nat :: i < |t.timers| && t.timers[i].robot == robot && !t.timers[i].fired ==>
                  OnlyMarksFired(t, i))
  {
    var s := Run(cfg, events);
    RunKeepsTimers(cfg, events);
    OldTimersAreCancelled(cfg, events);
    CancelLeavesOthers(s, robot);
    CancelKeepsTimers(s, robot);
    var t := Step(cfg, s, Receive(id, robot, CancelAction(actionId, token)));
    forall i: nat | i < |t.timers| && t.timers[i].robot == robot && !t.timers[i].fired
      ensures OnlyMarksFired(t, i)
    {
      IdleRobotsTimersAreInert(t, i);
    }
  }

  lemma IdleRobotsTimersAreInert(s: State, i: nat)
    requires i < |s.timers| && !s.timers[i].fired && s.timers[i].robot in s.action && s.action[s.timers[i].robot] == ""
    ensures OnlyMarksFired(s, i)
  {
  }

  // ---- Renewal ----

  /** The last accepted assignment of a robot that carried a lease. */
  function LastLeased(accepts: seq<Accept>, r: Robot): Option<Accept> {
    if accepts == [] then None
    else
      var last := accepts[|accepts| - 1];
      if last.robot == r && last.leased then Some(last) else LastLeased(accepts[..|accepts| - 1], r)
  }

  lemma LastLeasedAppend(accepts: seq<Accept>, a: Accept, r: Robot)
    ensures LastLeased(accepts + [a], r) == if a.robot == r && a.leased then Some(a) else LastLeased(accepts, r)
  {
  }

  function GenerationOf(a: Option<Accept>): Option<nat> {
    if a.None? then None else Some(a.value.generation)
  }

  ghost predicate RenewsLast(s: State, r: Robot) {
    Lookup(s.generation, r) == GenerationOf(LastLeased(s.accepts, r))
  }

  lemma ActKeepsGeneration(cfg: Config, s: State, robot: Robot, command: Command, r: Robot)
    requires RenewsLast(s, r)
    ensures RenewsLast(Act(cfg, s, robot, command), r)
  {
    ActShape(cfg, s, robot, command);
    if command.AssignAction? && Judge(cfg, s, robot, command.task).Fresh? {
      LastLeasedAppend(s.accepts, AcceptOf(robot, command.task), r);
    }
  }

  lemma {:induction false} RunKeepsGenerations(cfg: Config, events: seq<Event>, r: Robot)
    ensures RenewsLast(Run(cfg, events), r)
  {
    if events != [] {
      var before := events[..|events| - 1];
      var s := Run(cfg, before);
      RunKeepsGenerations(cfg, before, r);
      match events[|events| - 1]
      case Fire(i) => if i < |s.timers| && !s.timers[i].fired { FireShape(s, i); }
      case Receive(id, robot, command) => ActKeepsGeneration(cfg, s, robot, command, r);
    }
  }

  /**
   In every run a renewal succeeds exactly when it names the generation of the robot's last accepted
   assignment that carried a lease. A refused one revives nothing; a granted one puts the action the
   robot executes under a new timer, one epoch later.
   */
  lemma RenewalsFollowTheLastLease(
    cfg: Config, events: seq<Event>, id: nat, robot: Robot, actionId: string, generation: nat, ms: nat)
    ensures var s := Run(cfg, events);
            var t := Step(cfg, s, Receive(id, robot, RenewLease(actionId, generation, ms)));
            var renewed := GenerationOf(LastLeased(s.accepts, robot)) == Some(generation);
            var epoch := EpochIn(t.epoch, robot);
            && t.outbox == s.outbox + [Reply(id, robot, LeaseAnswer(renewed, ActionOf(s, robot) == actionId))]
            && t.action == s.action && t.fence == s.fence && t.assignment == s.assignment
            && (!renewed ==> t == s.(outbox := t.outbox))
            && (renewed ==>
                  && epoch == EpochIn(s.epoch, robot) + 1
                  && HeldBy(t, robot).timer == Some(Timer(robot, ActionOf(s, robot), epoch, false, false)))
  {
    var s := Run(cfg, events);
    RunKeepsGenerations(cfg, events, robot);
    RunKeepsTimers(cfg, events);
    ArmShape(s, robot, ActionOf(s, robot), generation);
    ArmKeepsTimers(s, robot, ActionOf(s, robot), generation);
  }

  /** In a leased run that is the last accepted assignment itself. */
  lemma {:induction false} LastAcceptIsLeased(cfg: Config, events: seq<Event>, r: Robot)
    requires AllLeased(cfg, events)
    ensures LastLeased(Run(cfg, events).accepts, r) == LastAccept(Run(cfg, events).accepts, r)
  {
    if events != [] {
      var before := events[..|events| - 1];
      var s := Run(cfg, before);
      LastAcceptIsLeased(cfg, before, r);
      match events[|events| - 1]
      case Fire(i) => if i < |s.timers| && !s.timers[i].fired { FireShape(s, i); }
      case Receive(id, robot, command) =>
        ActShape(cfg, s, robot, command);
        if command.AssignAction? && Judge(cfg, s, robot, command.task).Fresh? {
          LastLeasedAppend(s.accepts, AcceptOf(robot, command.task), r);
          LastAcceptAppend(s.accepts, AcceptOf(robot, command.task), r);
        }
    }
  }

  /** So there a renewal is granted exactly for the generation of the last accepted assignment. */
  lemma RenewalsFollowTheLastAccept(
    cfg: Config, events: seq<Event>, id: nat, robot: Robot, actionId: string, generation: nat, ms: nat)
    requires AllLeased(cfg, events)
    ensures var s := Run(cfg, events);
            var t := Step(cfg, s, Receive(id, robot, RenewLease(actionId, generation, ms)));
            var renewed := GenerationOf(LastAccept(s.accepts, robot)) == Some(generation);
            var epoch := EpochIn(t.epoch, robot);
            && t.outbox == s.outbox + [Reply(id, robot, LeaseAnswer(renewed, ActionOf(s, robot) == actionId))]
            && t.action == s.action && t.fence == s.fence && t.assignment == s.assignment
            && (!renewed ==> t == s.(outbox := t.outbox))
            && (renewed ==>
                  && epoch == EpochIn(s.epoch, robot) + 1
                  && HeldBy(t, robot).timer == Some(Timer(robot, ActionOf(s, robot), epoch, false, false)))
  {
    LastAcceptIsLeased(cfg, events, robot);
    RenewalsFollowTheLastLease(cfg, events, id, robot, actionId, generation, ms);
  }

  // ---- What the control plane is told ----

  function Report(robot: Robot, actionId: string, phase: Phase, token: nat, leaseExpired: bool): seq<Out> {
    if actionId == "" then [] else [Status(robot, actionId, phase, token, leaseExpired)]
  }

  /** Everything one step puts on the outbox. */
  function Sends(cfg: Config, s: State, e: Event): seq<Out> {
    match e
    case Receive(id, robot, command) =>
      var reply := [Reply(id, robot, AnswerTo(cfg, s, robot, command))];
      (match command
       case AssignAction(task) =>
         if Judge(cfg, s, robot, task).Fresh?
           then Report(robot, task.actionId, Running, task.token.value, false) + reply else reply
       case CancelAction(_, _) => Report(robot, ActionOf(s, robot), Cancelled, FenceOf(s, robot), false) + reply
       case _ => reply)
    case Fire(i) =>
      if i < |s.timers| && !s.timers[i].fired && Expires(s, i) then
        var t := s.timers[i];
        Report(t.robot, t.actionId, Stopped, FenceOf(s, t.robot), false)
          + Report(t.robot, t.actionId, Failed, FenceOf(s, t.robot), true)
      else []
  }

  lemma OutboxGrows(cfg: Config, s: State, e: Event)
    ensures Step(cfg, s, e).outbox == s.outbox + Sends(cfg, s, e)
  {
    match e
    case Fire(i) => if i < |s.timers| && !s.timers[i].fired { FireOutbox(s, i); }
    case Receive(id, robot, command) => ActOutbox(cfg, s, robot, command);
  }

  lemma ActOutbox(cfg: Config, s: State, robot: Robot, command: Command)
    ensures Act(cfg, s, robot, command).outbox == s.outbox +
              if command.AssignAction? && Judge(cfg, s, robot, command.task).Fresh? then
                Report(robot, command.task.actionId, Running, command.task.token.value, false)
              else if command.CancelAction? then Report(robot, ActionOf(s, robot), Cancelled, FenceOf(s, robot), false)
              else []
  {
    match command
    case AssignAction(task) => if Judge(cfg, s, robot, task).Fresh? { AcceptShape(s, robot, task); }
    case CancelAction(_, _) =>
    case RenewLease(_, generation, _) => ArmShape(s, robot, ActionOf(s, robot), generation);
    case _ =>
  }

  lemma FireOutbox(s: State, i: nat)
    requires i < |s.timers| && !s.timers[i].fired
    ensures var t := s.timers[i];
            FireTimer(s, i).outbox == s.outbox +
              if Expires(s, i) then
                Report(t.robot, t.actionId, Stopped, FenceOf(s, t.robot), false)
                  + Report(t.robot, t.actionId, Failed, FenceOf(s, t.robot), true)
              else []
  {
  }

  /** In every run, each status a step sends carries the token its action was last accepted under. */
  lemma StatusesCarryTheLastToken(cfg: Config, events: seq<Event>, e: Event, o: Out)
    requires o in Sends(cfg, Run(cfg, events), e) && o.Status?
    ensures var t := Step(cfg, Run(cfg, events), e);
            exists id, g, leased ::
              LastAccept(t.accepts, o.robot) == Some(Accept(o.robot, o.token, id, o.actionId, g, leased))
  {
    var s := Run(cfg, events);
    match e
    case Fire(i) =>
      FireShape(s, i);
      RunKeepsMarks(cfg, events, s.timers[i].robot);
      LastAcceptIsOfRobot(s.accepts, s.timers[i].robot);
    case Receive(id, robot, command) =>
      RunKeepsMarks(cfg, events, robot);
      LastAcceptIsOfRobot(s.accepts, robot);
      ActShape(cfg, s, robot, command);
      if command.AssignAction? {
        LastAcceptAppend(s.accepts, AcceptOf(robot, command.task), robot);
      }
  }

  lemma {:induction false} LastAcceptIsOfRobot(accepts: seq<Accept>, r: Robot)
    ensures LastAccept(accepts, r).Some? ==> LastAccept(accepts, r).value.robot == r
  {
    if accepts != [] { LastAcceptIsOfRobot(accepts[..|accepts| - 1], r); }
  }

  /** Every STOPPED is followed at once by the same action's FAILED, under the same token. */
  ghost predicate Paired(out: seq<Out>) {
    forall i: nat :: i < |out| && out[i].Status? && out[i].phase == Stopped ==>
      i + 1 < |out| && out[i + 1] == out[i].(phase := Failed, leaseExpired := true)
  }

  lemma {:induction false} StopsAreFollowedByFailures(cfg: Config, events: seq<Event>)
    ensures Paired(Run(cfg, events).outbox)
  {
    if events != [] {
      var before := events[..|events| - 1];
      var e := events[|events| - 1];
      StopsAreFollowedByFailures(cfg, before);
      OutboxGrows(cfg, Run(cfg, before), e);
      SendsArePaired(cfg, Run(cfg, before), e);
      PairedAppend(Run(cfg, before).outbox, Sends(cfg, Run(cfg, before), e));
    }
  }

  lemma SendsArePaired(cfg: Config, s: State, e: Event)
    ensures Paired(Sends(cfg, s, e))
  {
  }

  lemma PairedAppend(a: seq<Out>, b: seq<Out>)
    requires Paired(a) && Paired(b)
    ensures Paired(a + b)
  {
  }

  // ---- The ledger of an action's reports ----

  predicate Counts(o: Out, r: Robot, a: string, ends: bool) {
    o.Status? && o.robot == r && o.actionId == a &&
    (if ends then o.phase == Failed || o.phase == Cancelled else o.phase == Running)
  }

  /** RUNNING reports of an action, or its terminal ones. */
  function Reports(out: seq<Out>, r: Robot, a: string, ends: bool): nat {
    if out == [] then 0
    else Reports(out[..|out| - 1], r, a, ends) + (if Counts(out[|out| - 1], r, a, ends) then 1 else 0)
  }

  lemma {:induction false} ReportsAppend(x: seq<Out>, y: seq<Out>, r: Robot, a: string, ends: bool)
    ensures Reports(x + y, r, a, ends) == Reports(x, r, a, ends) + Reports(y, r, a, ends)
    decreases |y|
  {
    if y == [] {
      assert x + y == x;
    } else {
      ReportsAppend(x, y[..|y| - 1], r, a, ends);
      assert (x + y)[..|x + y| - 1] == x + y[..|y| - 1];
    }
  }

  lemma ReportsOfReport(robot: Robot, actionId: string, phase: Phase, token: nat, leaseExpired: bool, r: Robot,
      a: string, ends: bool)
    requires a != ""
    ensures Reports(Report(robot, actionId, phase, token, leaseExpired), r, a, ends)
         == if Counts(Status(robot, actionId, phase, token, leaseExpired), r, a, ends) then 1 else 0
  {
  }

  lemma ReportsOfReply(id: nat, robot: Robot, answer: Answer, r: Robot, a: string, ends: bool)
    ensures Reports([Reply(id, robot, answer)], r, a, ends) == 0
  {
  }

  /** The times an accepted assignment found this action still live on its robot. */
  function Overtaken(superseded: seq<(Robot, string)>, r: Robot, a: string): nat {
    if superseded == [] then 0
    else Overtaken(superseded[..|superseded| - 1], r, a) + (if superseded[|superseded| - 1] == (r, a) then 1 else 0)
  }

  lemma OvertakenAppend(superseded: seq<(Robot, string)>, x: (Robot, string), r: Robot, a: string)
    ensures Overtaken(superseded + [x], r, a) == Overtaken(superseded, r, a) + (if x == (r, a) then 1 else 0)
  {
  }

  function Live(s: State, r: Robot, a: string): nat {
    if ActionOf(s, r) == a then 1 else 0
  }

  ghost predicate Balanced(s: State, r: Robot, a: string) {
    Reports(s.outbox, r, a, false) == Reports(s.outbox, r, a, true) + Live(s, r, a) + Overtaken(s.superseded, r, a)
  }

  lemma AcceptSends(cfg: Config, s: State, id: nat, robot: Robot, task: Task, r: Robot, a: string, ends: bool)
    requires a != "" && Judge(cfg, s, robot, task).Fresh?
    ensures Reports(Sends(cfg, s, Receive(id, robot, AssignAction(task))), r, a, ends)
         == if Counts(Status(robot, task.actionId, Running, task.token.value, false), r, a, ends) then 1 else 0
  {
    ReportThenReply(robot, task.actionId, Running, task.token.value, id, AnswerTo(cfg, s, robot, AssignAction(task)),
      r, a, ends);
  }

  lemma CancelSends(cfg: Config, s: State, id: nat, robot: Robot, command: Command, r: Robot, a: string, ends: bool)
    requires a != "" && command.CancelAction?
    ensures Reports(Sends(cfg, s, Receive(id, robot, command)), r, a, ends)
         == if Counts(Status(robot, ActionOf(s, robot), Cancelled, FenceOf(s, robot), false), r, a, ends) then 1 else 0
  {
    ReportThenReply(robot, ActionOf(s, robot), Cancelled, FenceOf(s, robot), id, AnswerTo(cfg, s, robot, command), r,
      a, ends);
  }

  lemma OtherSends(cfg: Config, s: State, id: nat, robot: Robot, command: Command, r: Robot, a: string, ends: bool)
    requires !command.CancelAction? && !(command.AssignAction? && Judge(cfg, s, robot, command.task).Fresh?)
    ensures Reports(Sends(cfg, s, Receive(id, robot, command)), r, a, ends) == 0
  {
  }

  lemma ReceiveSends(cfg: Config, s: State, id: nat, robot: Robot, command: Command, r: Robot, a: string, ends: bool)
    requires a != ""
    ensures Reports(Sends(cfg, s, Receive(id, robot, command)), r, a, ends) ==
              if (!ends && StartsWork(cfg, s, robot, command, r, a)) || (ends && EndsWork(s, robot, command, r, a))
                then 1 else 0
  {
    if command.AssignAction? && Judge(cfg, s, robot, command.task).Fresh? {
      AcceptSends(cfg, s, id, robot, command.task, r, a, ends);
    } else if command.CancelAction? {
      CancelSends(cfg, s, id, robot, command, r, a, ends);
    } else {
      OtherSends(cfg, s, id, robot, command, r, a, ends);
    }
  }

  lemma ReportThenReply(robot: Robot, actionId: string, phase: Phase, token: nat, id: nat, answer: Answer, r: Robot,
      a: string, ends: bool)
    requires a != ""
    ensures Reports(Report(robot, actionId, phase, token, false) + [Reply(id, robot, answer)], r, a, ends)
         == if Counts(Status(robot, actionId, phase, token, false), r, a, ends) then 1 else 0
  {
    ReportsOfReport(robot, actionId, phase, token, false, r, a, ends);
    ReportsOfReply(id, robot, answer, r, a, ends);
    ReportsAppend(Report(robot, actionId, phase, token, false), [Reply(id, robot, answer)], r, a, ends);
  }

  lemma FireSends(cfg: Config, s: State, i: nat, r: Robot, a: string, ends: bool)
    requires a != ""
    ensures Reports(Sends(cfg, s, Fire(i)), r, a, ends) ==
              if ends && i < |s.timers| && !s.timers[i].fired && Expires(s, i) && s.timers[i].robot == r
                && s.timers[i].actionId == a
              then 1 else 0
  {
    if i < |s.timers| && !s.timers[i].fired && Expires(s, i) {
      var t := s.timers[i];
      ReportsOfReport(t.robot, t.actionId, Stopped, FenceOf(s, t.robot), false, r, a, ends);
      ReportsOfReport(t.robot, t.actionId, Failed, FenceOf(s, t.robot), true, r, a, ends);
      ReportsAppend(Report(t.robot, t.actionId, Stopped, FenceOf(s, t.robot), false),
                    Report(t.robot, t.actionId, Failed, FenceOf(s, t.robot), true), r, a, ends);
    }
  }

  predicate StartsWork(cfg: Config, s: State, robot: Robot, command: Command, r: Robot, a: string) {
    robot == r && command.AssignAction? && Judge(cfg, s, robot, command.task).Fresh? && command.task.actionId == a
  }

  predicate EndsWork(s: State, robot: Robot, command: Command, r: Robot, a: string) {
    robot == r && command.CancelAction? && ActionOf(s, r) == a
  }

  lemma ActKeepsTally(cfg: Config, s: State, robot: Robot, command: Command, r: Robot, a: string)
    requires a != ""
    ensures var t := Act(cfg, s, robot, command);
            Live(t, r, a) + Overtaken(t.superseded, r, a)
            == Live(s, r, a) + Overtaken(s.superseded, r, a)
               + (if StartsWork(cfg, s, robot, command, r, a) then 1 else 0)
                 - (if EndsWork(s, robot, command, r, a) then 1 else 0)
  {
    ActShape(cfg, s, robot, command);
    OvertakenAppend(s.superseded, (robot, ActionOf(s, robot)), r, a);
  }

  lemma ReceiveKeepsBalance(cfg: Config, s: State, id: nat, robot: Robot, command: Command, r: Robot, a: string)
    requires a != "" && Balanced(s, r, a)
    ensures Balanced(Step(cfg, s, Receive(id, robot, command)), r, a)
  {
    var e := Receive(id, robot, command);
    OutboxGrows(cfg, s, e);
    ReportsAppend(s.outbox, Sends(cfg, s, e), r, a, false);
    ReportsAppend(s.outbox, Sends(cfg, s, e), r, a, true);
    ReceiveSends(cfg, s, id, robot, command, r, a, false);
    ReceiveSends(cfg, s, id, robot, command, r, a, true);
    ActKeepsTally(cfg, s, robot, command, r, a);
    var t := Step(cfg, s, e);
    var u := Act(cfg, s, robot, command);
    assert t.superseded == u.superseded && Live(t, r, a) == Live(u, r, a);
  }

  lemma FireKeepsBalance(cfg: Config, s: State, i: nat, r: Robot, a: string)
    requires a != "" && Balanced(s, r, a)
    ensures Balanced(FireTimer(s, i), r, a)
  {
    if i < |s.timers| && !s.timers[i].fired {
      OutboxGrows(cfg, s, Fire(i));
      ReportsAppend(s.outbox, Sends(cfg, s, Fire(i)), r, a, false);
      ReportsAppend(s.outbox, Sends(cfg, s, Fire(i)), r, a, true);
      FireSends(cfg, s, i, r, a, false);
      FireSends(cfg, s, i, r, a, true);
      FireShape(s, i);
    }
  }

  /**
   Over every run, an action's RUNNING reports are accounted for one by one: each was ended by a
   terminal report, or was overtaken by a newer assignment to its robot, or is the one still live.
   */
  lemma {:induction false} EveryStartIsAccountedFor(cfg: Config, events: seq<Event>, r: Robot, a: string)
    requires a != ""
    ensures var s := Run(cfg, events);
            Reports(s.outbox, r, a, false)
              == Reports(s.outbox, r, a, true) + Live(s, r, a) + Overtaken(s.superseded, r, a)
  {
    if events != [] {
      var before := events[..|events| - 1];
      EveryStartIsAccountedFor(cfg, before, r, a);
      match events[|events| - 1]
      case Fire(i) => FireKeepsBalance(cfg, Run(cfg, before), i, r, a);
      case Receive(id, robot, command) => ReceiveKeepsBalance(cfg, Run(cfg, before), id, robot, command, r, a);
    }
  }

  // ---- The adapter object ----

  /** The adapter, with one field per dictionary. Each method performs the function above that it names. */
  class NoopAdapter {
    const cfg: Config
    var fence: map<Robot, nat>
    var assignment: map<Robot, string>
    var action: map<Robot, string>
    var leaseGen: map<Robot, nat>
    var leaseEpoch: map<Robot, nat>
    var leaseTimer: map<Robot, nat>
    var timers: seq<Timer>
    var outbox: seq<Out>
    ghost var accepts: seq<Accept>
    ghost var superseded: seq<(Robot, string)>

    ghost function View(): State
      reads this
    {
      State(fence, assignment, action, leaseGen, leaseEpoch, leaseTimer, timers, outbox, accepts, superseded)
    }

    constructor (cfg: Config)
      ensures View() == INIT && this.cfg == cfg
    {
      this.cfg := cfg;
      fence, assignment, action, leaseGen, leaseEpoch, leaseTimer := map[], map[], map[], map[], map[], map[];
      timers, outbox, accepts, superseded := [], [], [], [];
    }

    method EmitActionStatus(robot: Robot, actionId: string, phase: Phase, leaseExpired: bool)
      modifies this
      ensures View() == Emit(old(View()), robot, actionId, phase, leaseExpired)
    {
      if actionId == "" { return; }
      var token := if robot in fence then fence[robot] else 0;
      outbox := outbox + [Status(robot, actionId, phase, token, leaseExpired)];
    }

    method CancelTheLease(robot: Robot)
      modifies this
      ensures View() == CancelLease(old(View()), robot)
    {
      if robot in leaseTimer && leaseTimer[robot] < |timers| {
        var i := leaseTimer[robot];
        leaseTimer := leaseTimer - {robot};
        timers := timers[i := timers[i].(cancelled := true)];
      }
    }

    method ArmTheLease(robot: Robot, actionId: string, generation: nat)
      modifies this
      ensures View() == ArmLease(old(View()), robot, actionId, generation)
    {
      CancelTheLease(robot);
      leaseGen := leaseGen[robot := generation];
      var epoch := (if robot in leaseEpoch then leaseEpoch[robot] else 0) + 1;
      leaseEpoch := leaseEpoch[robot := epoch];
      leaseTimer := leaseTimer[robot := |timers|];
      timers := timers + [Timer(robot, actionId, epoch, false, false)];
    }

    method RenewTheLease(robot: Robot, generation: nat) returns (renewed: bool)
      modifies this
      ensures View() == Renew(old(View()), robot, generation)
      ensures renewed == old(Renews(View(), robot, generation))
    {
      renewed := robot in leaseGen && leaseGen[robot] == generation;
      if renewed {
        ArmTheLease(robot, if robot in action then action[robot] else "", generation);
      }
    }

    method AcceptAssignment(robot: Robot, task: Task)
      requires task.token.Some?
      modifies this
      ensures View() == AcceptTask(old(View()), robot, task)
    {
      superseded := if ActionOf(View(), robot) == "" then superseded
        else superseded + [(robot, ActionOf(View(), robot))];
      accepts := accepts + [AcceptOf(robot, task)];
      fence := fence[robot := task.token.value];
      assignment := assignment[robot := task.assignmentId];
      action := action[robot := task.actionId];
      EmitActionStatus(robot, task.actionId, Running, false);
      if task.leaseMs > 0 {
        ArmTheLease(robot, task.actionId, task.generation);
      }
    }

    method JudgeAssignment(robot: Robot, task: Task) returns (j: Judgement)
      ensures j == Judge(cfg, View(), robot, task)
    {
      var mark := if robot in fence then fence[robot] else 0;
      var bad := Unhonourable(task.constraints, cfg.honoured);
      if task.token.None? {
        j := Refusal(MissingToken);
      } else if task.token.value == mark && robot in assignment && task.assignmentId == assignment[robot] {
        j := Redelivery;
      } else if task.token.value <= mark {
        j := Refusal(StaleToken);
      } else if task.actionType !in cfg.catalog {
        j := Refusal(InvalidAction);
      } else if bad != [] {
        j := Refusal(ConstraintUnmet(bad));
      } else {
        j := Fresh;
      }
    }

    method CancelTheAction(robot: Robot)
      modifies this
      ensures View() == Cancel(old(View()), robot)
    {
      CancelTheLease(robot);
      EmitActionStatus(robot, if robot in action then action[robot] else "", Cancelled, false);
      action := action[robot := ""];
    }

    method HandleCommand(id: nat, robot: Robot, command: Command)
      modifies this
      ensures View() == Step(cfg, old(View()), Receive(id, robot, command))
    {
      var answer;
      match command {
        case AssignAction(task) =>
          var j := JudgeAssignment(robot, task);
          if j.Refusal? {
            answer := Rejected(j.why);
          } else {
            answer := Accepted(task.token.value);
            if j.Fresh? { AcceptAssignment(robot, task); }
          }
        case CancelAction(_, _) =>
          CancelTheAction(robot);
          answer := CancelledSafely;
        case RenewLease(actionId, generation, _) =>
          var renewed := RenewTheLease(robot, generation);
          answer := LeaseAnswer(renewed, (if robot in action then action[robot] else "") == actionId);
        case Scan => answer := Snapshot(cfg.catalog);
        case Pause => answer := NothingPaused;
        case Resume => answer := NothingResumed;
        case OptionalCommand => answer := Unsupported;
      }
      outbox := outbox + [Reply(id, robot, answer)];
    }

    /** The timer thread runs timer `i`'s callback. */
    method LeaseExpired(i: nat)
      requires i < |timers| && !timers[i].fired
      modifies this
      ensures View() == Step(cfg, old(View()), Fire(i))
    {
      var t := timers[i];
      timers := timers[i := t.(fired := true)];
      if t.robot !in leaseEpoch || leaseEpoch[t.robot] != t.epoch { return; }
      if t.robot !in action || action[t.robot] != t.actionId { return; }
      action := action[t.robot := ""];
      EmitActionStatus(t.robot, t.actionId, Stopped, false);
      EmitActionStatus(t.robot, t.actionId, Failed, true);
    }
  }
}
