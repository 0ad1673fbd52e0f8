/**
 Who may drain the harness's outbound queue, and where every queued message is.

 The conformance harness serves one adapter. Every ControlStream handler that is ever admitted
 drains the same queue, and gRPC cannot interrupt a handler parked on it, so a handler whose
 stream has died may still receive the next message. This module models the arbitration
 (`_claim_stream`), the liveness re-check (`_may_send`) and the return of a message to the head
 of the queue (`_requeue_front`) as the steps of a state machine, one step per critical section.
 Threads interleave freely: a run is any sequence of events, and an event that is not enabled
 does nothing. The class `Session` at the end is the shared object itself; each of its methods
 is one such critical section.
 */
module StreamCustody {
  import opened Wrappers

  /** A queued entry: a message, the close marker, or the request to abort the stream. */
  datatype Item = Msg(id: int) | Sentinel | Abort

  /** Where one handler thread is. */
  datatype Phase =
    | Claiming                  // has not yet looked at the live stream
    | Waiting                   // saw an active live stream; may look again or give up
    | Refused
    | Looping                   // at the loop head
    | Parked                    // in the queue's get
    | Holding(item: Item)       // has taken an item, has not checked its stream
    | Cleared(item: Item)       // the check said the stream is the live one
    | Stale(item: Item)         // the check said it is not
    | Exited(gaveBack: bool)

  datatype Stream = Stream(phase: Phase, active: bool)

  /** `reached` records whether the stream was still up when the item was handed to it. */
  datatype Delivery = Delivery(stream: nat, item: Item, reached: bool)

  /** The session together with its history (`puts`, `sent`). A stream is named by its index. */
  datatype State = State(
    streams: seq<Stream>,
    live: Option<nat>,
    queue: seq<Item>,
    closing: bool,
    refusals: nat,
    puts: seq<Item>,
    sent: seq<Delivery>)

  const INIT := State([], None, [], false, 0, [], [])

  datatype Event =
    | Arrive
    | Attempt(c: nat)
    | GiveUp(c: nat)
    | End(c: nat)
    | Put(item: Item)
    | SetClosing
    | LoopHead(c: nat)
    | Take(c: nat)
    | GetTimesOut(c: nat)
    | Check(c: nat)
    | GiveBack(c: nat)
    | Send(c: nat)

  predicate IsActive(s: State, c: nat) {
    c < |s.streams| && s.streams[c].active
  }

  /** `_may_send`: this handler's stream is the live one, and still up. */
  predicate MaySend(s: State, c: nat) {
    s.live == Some(c) && IsActive(s, c)
  }

  predicate Free(s: State) {
    s.live.None? || !IsActive(s, s.live.value)
  }

  predicate Enabled(s: State, e: Event) {
    match e
    case Arrive => true
    case Put(_) => true
    case SetClosing => true
    case Attempt(c) => c < |s.streams| && (s.streams[c].phase.Claiming? || s.streams[c].phase.Waiting?)
    case GiveUp(c) => c < |s.streams| && s.streams[c].phase.Waiting?
    case End(c) => c < |s.streams|
    case LoopHead(c) => c < |s.streams| && s.streams[c].phase.Looping?
    case Take(c) => c < |s.streams| && s.streams[c].phase.Parked? && s.queue != []
    case GetTimesOut(c) => c < |s.streams| && s.streams[c].phase.Parked?
    case Check(c) => c < |s.streams| && s.streams[c].phase.Holding?
    case GiveBack(c) => c < |s.streams| && s.streams[c].phase.Stale?
    case Send(c) => c < |s.streams| && s.streams[c].phase.Cleared?
  }

  function Move(s: State, c: nat, phase: Phase): State
    requires c < |s.streams|
  {
    s.(streams := s.streams[c := s.streams[c].(phase := phase)])
  }

  /** A handler that returns ends its stream. */
  function Leave(s: State, c: nat, phase: Phase): State
    requires c < |s.streams|
  {
    s.(streams := s.streams[c := Stream(phase, false)])
  }

  function Step(s: State, e: Event): State {
    if !Enabled(s, e) then s else
    match e
    case Arrive => s.(streams := s.streams + [Stream(Claiming, true)])
    case Put(item) => s.(queue := s.queue + [item], puts := s.puts + [item])
    case SetClosing => s.(closing := true)
    case Attempt(c) => if Free(s) then Move(s, c, Looping).(live := Some(c)) else Move(s, c, Waiting)
    case GiveUp(c) => Leave(s, c, Refused).(refusals := s.refusals + 1)
    case End(c) => s.(streams := s.streams[c := s.streams[c].(active := false)])
    case LoopHead(c) => if s.closing then Leave(s, c, Exited(false)) else Move(s, c, Parked)
    case Take(c) => Move(s, c, Holding(s.queue[0])).(queue := s.queue[1..])
    case GetTimesOut(c) => Move(s, c, Looping)
    case Check(c) =>
      var item := s.streams[c].phase.item;
      Move(s, c, if MaySend(s, c) then Cleared(item) else Stale(item))
    case GiveBack(c) =>
      Leave(s, c, Exited(true)).(queue := [s.streams[c].phase.item] + s.queue)
    case Send(c) =>
      var item := s.streams[c].phase.item;
      (if item.Msg? then Move(s, c, Looping) else Leave(s, c, Exited(false)))
      .(sent := s.sent + [Delivery(c, item, s.streams[c].active)])
  }

  /** The state after a run, from the empty session. */
  function Run(events: seq<Event>): State {
    if events == [] then INIT
    else Step(Run(events[..|events| - 1]), events[|events| - 1])
  }

  // ---- Reading a state ----

  predicate Admitted(p: Phase) {
    !p.Claiming? && !p.Waiting? && !p.Refused?
  }

  predicate Up(x: Stream) {
    Admitted(x.phase) && x.active
  }

  function Hand(p: Phase): (items: seq<Item>)
    ensures |items| <= 1
  {
    if p.Holding? || p.Cleared? || p.Stale? then [p.item] else []
  }

  /** Every item some handler has taken and neither sent nor given back. */
  function InHand(streams: seq<Stream>): seq<Item> {
    if streams == [] then []
    else InHand(streams[..|streams| - 1]) + Hand(streams[|streams| - 1].phase)
  }

  function SentItems(sent: seq<Delivery>): seq<Item> {
    if sent == [] then [] else SentItems(sent[..|sent| - 1]) + [sent[|sent| - 1].item]
  }

  /** How many handlers are in a phase. */
  function CountIn(streams: seq<Stream>, p: Phase): (n: nat)
    ensures n <= |streams|
  {
    if streams == [] then 0
    else CountIn(streams[..|streams| - 1], p) + (if streams[|streams| - 1].phase == p then 1 else 0)
  }

  function GiveBacks(streams: seq<Stream>): nat {
    CountIn(streams, Exited(true))
  }

  function CountGiveBacks(events: seq<Event>): nat {
    if events == [] then 0 else
    var before := events[..|events| - 1];
    var e := events[|events| - 1];
    CountGiveBacks(before) + (if e.GiveBack? && Enabled(Run(before), e) then 1 else 0)
  }

  // ---- Replacing one stream of a sequence ----

  lemma {:induction false} InHandConcat(a: seq<Stream>, b: seq<Stream>)
    ensures InHand(a + b) == InHand(a) + InHand(b)
    decreases |b|
  {
    if b == [] {
      assert a + b == a;
    } else {
      InHandConcat(a, b[..|b| - 1]);
      assert (a + b)[..|a + b| - 1] == a + b[..|b| - 1];
    }
  }

  lemma InHandOne(x: Stream)
    ensures InHand([x]) == Hand(x.phase)
  {
  }

  lemma InHandSplit(ss: seq<Stream>, c: nat, x: Stream)
    requires c < |ss|
    ensures InHand(ss) == InHand(ss[..c]) + Hand(ss[c].phase) + InHand(ss[c + 1..])
    ensures InHand(ss[c := x]) == InHand(ss[..c]) + Hand(x.phase) + InHand(ss[c + 1..])
  {
    assert ss == ss[..c] + [ss[c]] + ss[c + 1..];
    InHandConcat(ss[..c] + [ss[c]], ss[c + 1..]);
    InHandConcat(ss[..c], [ss[c]]);
    InHandOne(ss[c]);
    assert ss[c := x] == ss[..c] + [x] + ss[c + 1..];
    InHandConcat(ss[..c] + [x], ss[c + 1..]);
    InHandConcat(ss[..c], [x]);
    InHandOne(x);
  }

  lemma {:induction false} CountUpdate(ss: seq<Stream>, c: nat, x: Stream, p: Phase)
    requires c < |ss|
    ensures CountIn(ss[c := x], p)
         == CountIn(ss, p) - (if ss[c].phase == p then 1 else 0) + (if x.phase == p then 1 else 0)
  {
    var n := |ss| - 1;
    if c == n {
      assert ss[c := x][..n] == ss[..n];
    } else {
      CountUpdate(ss[..n], c, x, p);
      assert ss[c := x][..n] == ss[..n][c := x];
    }
  }

  lemma SentItemsAppend(sent: seq<Delivery>, d: Delivery)
    ensures SentItems(sent + [d]) == SentItems(sent) + [d.item]
  {
  }

  // ---- What every step keeps ----

  /** At most one admitted stream is up, and it is the recorded live one. */
  ghost predicate OneLiveIn(streams: seq<Stream>, live: Option<nat>) {
    && (live.Some? ==> live.value < |streams| && Admitted(streams[live.value].phase))
    && (forall c: nat :: c < |streams| && Admitted(streams[c].phase) && streams[c].active ==> live == Some(c))
    && (forall c: nat :: c < |streams| && Over(streams[c].phase) ==> !streams[c].active)
  }

  predicate Over(p: Phase) {
    p.Stale? || p.Exited? || p.Refused?
  }

  ghost predicate OneLive(s: State) {
    OneLiveIn(s.streams, s.live)
  }

  ghost predicate Conserved(s: State) {
    multiset(s.queue) + multiset(InHand(s.streams)) + multiset(SentItems(s.sent)) == multiset(s.puts)
  }

  /** A stream that is not being admitted can only lose its right to be live. */
  lemma ReplaceKeepsOneLive(ss: seq<Stream>, live: Option<nat>, c: nat, x: Stream)
    requires OneLiveIn(ss, live) && c < |ss|
    requires Admitted(x.phase) == Admitted(ss[c].phase)
    requires x.active ==> ss[c].active && !Over(x.phase)
    ensures OneLiveIn(ss[c := x], live)
  {
  }

  lemma AttemptKeepsOneLive(s: State, c: nat)
    requires OneLive(s) && Enabled(s, Attempt(c))
    ensures OneLive(Step(s, Attempt(c)))
  {
  }

  lemma CheckGoesStale(s: State, c: nat)
    requires OneLive(s) && Enabled(s, Check(c)) && !MaySend(s, c)
    ensures !s.streams[c].active
  {
  }

  lemma StepKeepsOneLive(s: State, e: Event)
    requires OneLive(s)
    ensures OneLive(Step(s, e))
  {
    if Enabled(s, e) && !e.Put? && !e.SetClosing? && !e.Arrive? {
      var t := Step(s, e);
      if e.Attempt? {
        AttemptKeepsOneLive(s, e.c);
      } else {
        if e.Check? && !MaySend(s, e.c) { CheckGoesStale(s, e.c); }
        assert t.streams == s.streams[e.c := t.streams[e.c]] && t.live == s.live;
        ReplaceKeepsOneLive(s.streams, s.live, e.c, t.streams[e.c]);
      }
    }
  }

  /** The step of a stream event rewrites that stream and leaves the others alone. */
  lemma SameHand(ss: seq<Stream>, c: nat, x: Stream)
    requires c < |ss| && Hand(x.phase) == Hand(ss[c].phase)
    ensures InHand(ss[c := x]) == InHand(ss)
  {
    InHandSplit(ss, c, x);
  }

  lemma QuietStep(s: State, e: Event)
    requires !e.Put? && !e.Take? && !e.GiveBack? && !e.Send?
    ensures var t := Step(s, e);
            t.queue == s.queue && t.sent == s.sent && t.puts == s.puts && InHand(t.streams) == InHand(s.streams)
  {
    var t := Step(s, e);
    if Enabled(s, e) {
      if e.Arrive? {
        InHandConcat(s.streams, [Stream(Claiming, true)]);
        InHandOne(Stream(Claiming, true));
      } else if !e.SetClosing? {
        SameHand(s.streams, e.c, t.streams[e.c]);
        assert t.streams == s.streams[e.c := t.streams[e.c]];
      }
    }
  }

  lemma HandFills(ss: seq<Stream>, c: nat, x: Stream, item: Item)
    requires c < |ss| && Hand(ss[c].phase) == [] && Hand(x.phase) == [item]
    ensures InHand(ss) == InHand(ss[..c]) + InHand(ss[c + 1..])
    ensures InHand(ss[c := x]) == InHand(ss[..c]) + [item] + InHand(ss[c + 1..])
  {
    InHandSplit(ss, c, x);
    assert InHand(ss[..c]) + [] == InHand(ss[..c]);
  }

  lemma HandEmpties(ss: seq<Stream>, c: nat, x: Stream, item: Item)
    requires c < |ss| && Hand(ss[c].phase) == [item] && Hand(x.phase) == []
    ensures InHand(ss) == InHand(ss[..c]) + [item] + InHand(ss[c + 1..])
    ensures InHand(ss[c := x]) == InHand(ss[..c]) + InHand(ss[c + 1..])
  {
    InHandSplit(ss, c, x);
    assert InHand(ss[..c]) + [] == InHand(ss[..c]);
  }

  lemma TakeShape(s: State, c: nat)
    requires Enabled(s, Take(c))
    ensures var t := Step(s, Take(c));
            && t.queue == s.queue[1..] && t.sent == s.sent && t.puts == s.puts
            && InHand(s.streams) == InHand(s.streams[..c]) + InHand(s.streams[c + 1..])
            && InHand(t.streams) == InHand(s.streams[..c]) + [s.queue[0]] + InHand(s.streams[c + 1..])
  {
    HandFills(s.streams, c, s.streams[c].(phase := Holding(s.queue[0])), s.queue[0]);
  }

  lemma GiveBackShape(s: State, c: nat)
    requires Enabled(s, GiveBack(c))
    ensures var t := Step(s, GiveBack(c));
            var item := s.streams[c].phase.item;
            && t.queue == [item] + s.queue && t.sent == s.sent && t.puts == s.puts
            && InHand(s.streams) == InHand(s.streams[..c]) + [item] + InHand(s.streams[c + 1..])
            && InHand(t.streams) == InHand(s.streams[..c]) + InHand(s.streams[c + 1..])
  {
    HandEmpties(s.streams, c, Stream(Exited(true), false), s.streams[c].phase.item);
  }

  lemma SendShape(s: State, c: nat)
    requires Enabled(s, Send(c))
    ensures var t := Step(s, Send(c));
            var item := s.streams[c].phase.item;
            && t.queue == s.queue && t.sent == s.sent + [Delivery(c, item, s.streams[c].active)] && t.puts == s.puts
            && InHand(s.streams) == InHand(s.streams[..c]) + [item] + InHand(s.streams[c + 1..])
            && InHand(t.streams) == InHand(s.streams[..c]) + InHand(s.streams[c + 1..])
  {
    var item := s.streams[c].phase.item;
    if item.Msg? {
      HandEmpties(s.streams, c, s.streams[c].(phase := Looping), item);
    } else {
      HandEmpties(s.streams, c, Stream(Exited(false), false), item);
    }
  }

  lemma OneMore<T>(left: seq<T>, x: T, right: seq<T>)
    ensures multiset(left + [x] + right) == multiset(left + right) + multiset{x}
  {
  }

  lemma HeadAndTail<T>(xs: seq<T>)
    requires xs != []
    ensures multiset(xs) == multiset{xs[0]} + multiset(xs[1..])
  {
    assert xs == [xs[0]] + xs[1..];
  }

  lemma StepKeepsItems(s: State, e: Event)
    requires Conserved(s)
    ensures Conserved(Step(s, e))
  {
    if Enabled(s, e) {
      match e
      case Put(item) => PutKeepsItems(s, item);
      case Take(c) => TakeKeepsItems(s, c);
      case GiveBack(c) => GiveBackKeepsItems(s, c);
      case Send(c) => SendKeepsItems(s, c);
      case _ => QuietStep(s, e);
    }
  }

  lemma TakeKeepsItems(s: State, c: nat)
    requires Conserved(s) && Enabled(s, Take(c))
    ensures Conserved(Step(s, Take(c)))
  {
    TakeShape(s, c);
    OneMore(InHand(s.streams[..c]), s.queue[0], InHand(s.streams[c + 1..]));
    HeadAndTail(s.queue);
  }

  lemma GiveBackKeepsItems(s: State, c: nat)
    requires Conserved(s) && Enabled(s, GiveBack(c))
    ensures Conserved(Step(s, GiveBack(c)))
  {
    GiveBackShape(s, c);
    OneMore(InHand(s.streams[..c]), s.streams[c].phase.item, InHand(s.streams[c + 1..]));
  }

  lemma SendKeepsItems(s: State, c: nat)
    requires Conserved(s) && Enabled(s, Send(c))
    ensures Conserved(Step(s, Send(c)))
  {
    SendShape(s, c);
    SentItemsAppend(s.sent, Delivery(c, s.streams[c].phase.item, s.streams[c].active));
    OneMore(InHand(s.streams[..c]), s.streams[c].phase.item, InHand(s.streams[c + 1..]));
  }

  lemma PutKeepsItems(s: State, item: Item)
    requires Conserved(s)
    ensures Conserved(Step(s, Put(item)))
  {
  }

  lemma StepGiveBacks(s: State, e: Event)
    ensures GiveBacks(Step(s, e).streams)
         == GiveBacks(s.streams) + (if e.GiveBack? && Enabled(s, e) then 1 else 0)
  {
    var t := Step(s, e);
    if Enabled(s, e) {
      if e.Arrive? {
        assert t.streams[..|s.streams|] == s.streams;
      } else if !e.Put? && !e.SetClosing? {
        CountUpdate(s.streams, e.c, t.streams[e.c], Exited(true));
        assert t.streams == s.streams[e.c := t.streams[e.c]];
      }
    }
  }

  // ---- Over every run ----

  lemma RunSnoc(events: seq<Event>, e: Event)
    ensures Run(events + [e]) == Step(Run(events), e)
  {
  }

  /** Whatever the claims, redials and drops, two admitted streams are never up together. */
  lemma {:induction false} OneLiveStream(events: seq<Event>)
    ensures OneLive(Run(events))
    ensures var s := Run(events);
            forall c: nat, d: nat :: c < |s.streams| && d < |s.streams| && Up(s.streams[c]) && Up(s.streams[d]) ==>
              c == d
  {
    if events != [] {
      OneLiveStream(events[..|events| - 1]);
      StepKeepsOneLive(Run(events[..|events| - 1]), events[|events| - 1]);
    }
  }

  /** Nothing is lost and nothing is duplicated, over every interleaving. */
  lemma {:induction false} NothingLost(events: seq<Event>)
    ensures var s := Run(events);
            multiset(s.queue) + multiset(InHand(s.streams)) + multiset(SentItems(s.sent)) == multiset(s.puts)
  {
    if events != [] {
      NothingLost(events[..|events| - 1]);
      StepKeepsItems(Run(events[..|events| - 1]), events[|events| - 1]);
    }
  }

  /** A handler gives back at most once, so give-backs never outnumber the streams that arrived. */
  lemma {:induction false} GiveBacksBounded(events: seq<Event>)
    ensures CountGiveBacks(events) == GiveBacks(Run(events).streams) <= |Run(events).streams|
  {
    if events != [] {
      GiveBacksBounded(events[..|events| - 1]);
      StepGiveBacks(Run(events[..|events| - 1]), events[|events| - 1]);
    }
  }

  // ---- Order ----

  /** No handler takes an item while another still holds one: take, check and return do not overlap. */
  ghost predicate Serial(events: seq<Event>) {
    events == [] ||
    (var before := events[..|events| - 1];
     var e := events[|events| - 1];
     Serial(before) && (e.Take? && Enabled(Run(before), e) ==> InHand(Run(before).streams) == []))
  }

  ghost predicate InOrder(s: State) {
    |InHand(s.streams)| <= 1 && SentItems(s.sent) + InHand(s.streams) + s.queue == s.puts
  }

  lemma StepKeepsOrder(s: State, e: Event)
    requires InOrder(s)
    requires e.Take? && Enabled(s, e) ==> InHand(s.streams) == []
    ensures InOrder(Step(s, e))
  {
    if Enabled(s, e) {
      match e
      case Put(item) =>
        assert SentItems(s.sent) + InHand(s.streams) + (s.queue + [item])
            == SentItems(s.sent) + InHand(s.streams) + s.queue + [item];
      case Take(c) => TakeKeepsOrder(s, c);
      case GiveBack(c) => GiveBackKeepsOrder(s, c);
      case Send(c) => SendKeepsOrder(s, c);
      case _ => QuietStep(s, e);
    }
  }

  lemma TakeKeepsOrder(s: State, c: nat)
    requires InOrder(s) && Enabled(s, Take(c)) && InHand(s.streams) == []
    ensures InOrder(Step(s, Take(c)))
  {
    TakeShape(s, c);
    BothEmpty(InHand(s.streams[..c]), InHand(s.streams[c + 1..]));
    FromTheHead(SentItems(s.sent), s.queue);
  }

  lemma BothEmpty(left: seq<Item>, right: seq<Item>)
    ensures left + right == [] ==> left == [] && right == []
  {
  }

  lemma FromTheHead(sent: seq<Item>, queue: seq<Item>)
    requires queue != []
    ensures sent + ([] + [queue[0]] + []) + queue[1..] == sent + [] + queue
  {
  }

  lemma AloneInHand(left: seq<Item>, item: Item, right: seq<Item>)
    requires |left + [item] + right| <= 1
    ensures left == [] && right == []
  {
  }

  lemma BackToTheHead(sent: seq<Item>, item: Item, queue: seq<Item>)
    ensures sent + ([] + []) + ([item] + queue) == sent + ([] + [item] + []) + queue
    ensures sent + [item] + ([] + []) + queue == sent + ([] + [item] + []) + queue
  {
  }

  lemma GiveBackKeepsOrder(s: State, c: nat)
    requires InOrder(s) && Enabled(s, GiveBack(c))
    ensures InOrder(Step(s, GiveBack(c)))
  {
    GiveBackShape(s, c);
    var item := s.streams[c].phase.item;
    AloneInHand(InHand(s.streams[..c]), item, InHand(s.streams[c + 1..]));
    BackToTheHead(SentItems(s.sent), item, s.queue);
  }

  lemma SendKeepsOrder(s: State, c: nat)
    requires InOrder(s) && Enabled(s, Send(c))
    ensures InOrder(Step(s, Send(c)))
  {
    SendShape(s, c);
    var item := s.streams[c].phase.item;
    AloneInHand(InHand(s.streams[..c]), item, InHand(s.streams[c + 1..]));
    SentItemsAppend(s.sent, Delivery(c, item, s.streams[c].active));
    BackToTheHead(SentItems(s.sent), item, s.queue);
  }

  /**
   While takes do not overlap, what all the successive live streams were sent is a prefix of what
   was put, in order, close markers and aborts included, however many stale handlers are parked.
   */
  lemma {:induction false} SerialRunsKeepOrder(events: seq<Event>)
    requires Serial(events)
    ensures InOrder(Run(events))
    ensures SentItems(Run(events).sent) <= Run(events).puts
  {
    if events != [] {
      SerialRunsKeepOrder(events[..|events| - 1]);
      StepKeepsOrder(Run(events[..|events| - 1]), events[|events| - 1]);
    }
  }

  /**
   Why takes must not overlap. Take and give-back are separate critical sections, and when the live
   stream takes while any other handler still has an item in hand, whether it has looked at its
   stream or not, sending what it took keeps the order exactly when the two items cannot be told
   apart.
   */
  lemma OverlapKeepsOrderOnlyForEqualItems(s: State, h: nat, c: nat)
    requires h < |s.streams| && Hand(s.streams[h].phase) != []
    requires Enabled(s, Take(c)) && MaySend(s, c)
    requires InOrder(s)
    ensures var t := Step(Step(Step(s, Take(c)), Check(c)), Send(c));
            SentItems(t.sent) <= t.puts <==> Hand(s.streams[h].phase) == [s.queue[0]]
  {
    var x := s.streams[h].phase.item;
    OnlyHand(s, h);
    LiveStreamSends(s, c);
    SentItemsAppend(s.sent, Delivery(c, s.queue[0], true));
    PrefixOfSwap(SentItems(s.sent), x, s.queue[0], s.queue);
  }

  lemma OnlyHand(s: State, h: nat)
    requires h < |s.streams| && Hand(s.streams[h].phase) != [] && InOrder(s)
    ensures InHand(s.streams) == [s.streams[h].phase.item]
  {
    InHandSplit(s.streams, h, s.streams[h]);
    AloneInHand(InHand(s.streams[..h]), s.streams[h].phase.item, InHand(s.streams[h + 1..]));
  }

  lemma LiveStreamSends(s: State, c: nat)
    requires Enabled(s, Take(c)) && MaySend(s, c)
    ensures var t := Step(Step(Step(s, Take(c)), Check(c)), Send(c));
            t.sent == s.sent + [Delivery(c, s.queue[0], true)] && t.puts == s.puts
  {
  }

  lemma PrefixOfSwap(sent: seq<Item>, x: Item, y: Item, queue: seq<Item>)
    ensures sent + [y] <= sent + [x] + queue <==> x == y
  {
    assert (sent + [x] + queue)[|sent|] == x && (sent + [y])[|sent|] == y;
  }

  /** The state once c, whose stream is not the live one, has taken the head and seen that. */
  lemma StaleTake(s: State, c: nat)
    requires Enabled(s, Take(c)) && !MaySend(s, c)
    ensures var t := Step(Step(s, Take(c)), Check(c));
            t == s.(streams := s.streams[c := s.streams[c].(phase := Stale(s.queue[0]))], queue := s.queue[1..])
  {
  }

  lemma TwoGiveBacks(s: State, first: nat, second: nat)
    requires first != second && Enabled(s, GiveBack(first)) && Enabled(s, GiveBack(second))
    ensures var t := Step(Step(s, GiveBack(first)), GiveBack(second));
            && t.queue == [s.streams[second].phase.item, s.streams[first].phase.item] + s.queue
            && t.sent == s.sent && t.puts == s.puts
  {
    assert [s.streams[second].phase.item] + ([s.streams[first].phase.item] + s.queue)
        == [s.streams[second].phase.item, s.streams[first].phase.item] + s.queue;
  }

  lemma SwappedHead(sent: seq<Item>, x: Item, y: Item, rest: seq<Item>)
    ensures sent + ([y, x] + rest) == sent + [x] + ([y] + rest) <==> x == y
    ensures sent + ([x, y] + rest) == sent + [x] + ([y] + rest)
  {
    assert (sent + ([y, x] + rest))[|sent|] == y && (sent + [x] + ([y] + rest))[|sent|] == x;
  }

  /**
   The other overlap: the taker's stream is not the live one either, so both items come back. Given
   back in the order they were taken, they change places in the queue, and the order is kept exactly
   when they cannot be told apart; given back the other way round, the order is always kept.
   */
  lemma OverlappingGiveBacksKeepOrderIff(s: State, h: nat, c: nat)
    requires h < |s.streams| && s.streams[h].phase.Stale? && h != c
    requires Enabled(s, Take(c)) && !MaySend(s, c)
    requires InOrder(s)
    ensures var u := Step(Step(s, Take(c)), Check(c));
            var t := Step(Step(u, GiveBack(h)), GiveBack(c));
            SentItems(t.sent) + t.queue == t.puts <==> s.streams[h].phase.item == s.queue[0]
    ensures var u := Step(Step(s, Take(c)), Check(c));
            var t := Step(Step(u, GiveBack(c)), GiveBack(h));
            SentItems(t.sent) + t.queue == t.puts
  {
    var u := Step(Step(s, Take(c)), Check(c));
    OnlyHand(s, h);
    StaleTake(s, c);
    TwoGiveBacks(u, h, c);
    TwoGiveBacks(u, c, h);
    assert s.queue == [s.queue[0]] + s.queue[1..];
    SwappedHead(SentItems(s.sent), s.streams[h].phase.item, s.queue[0], s.queue[1..]);
  }

  ghost predicate AtMostOneAdmitted(ss: seq<Stream>) {
    forall c: nat, d: nat :: c < |ss| && d < |ss| && Admitted(ss[c].phase) && Admitted(ss[d].phase) ==> c == d
  }

  /** Order cannot be lost before a second stream is admitted: such runs are serial. */
  lemma {:induction false} OneStreamRunsAreSerial(events: seq<Event>)
    requires AtMostOneAdmitted(Run(events).streams)
    ensures Serial(events)
  {
    if events != [] {
      var before := events[..|events| - 1];
      var e := events[|events| - 1];
      var s := Run(before);
      AdmissionsOnlyGrow(s, e);
      OneStreamRunsAreSerial(before);
      if e.Take? && Enabled(s, e) {
        EmptyHands(s.streams);
      }
    }
  }

  lemma AdmissionsOnlyGrow(s: State, e: Event)
    requires AtMostOneAdmitted(Step(s, e).streams)
    ensures AtMostOneAdmitted(s.streams)
  {
    forall c: nat, d: nat | c < |s.streams| && d < |s.streams| && Admitted(s.streams[c].phase)
      && Admitted(s.streams[d].phase)
      ensures c == d
    {
      AdmissionIsKept(s, e, c);
      AdmissionIsKept(s, e, d);
    }
  }

  lemma AdmissionIsKept(s: State, e: Event, c: nat)
    requires c < |s.streams| && Admitted(s.streams[c].phase)
    ensures c < |Step(s, e).streams| && Admitted(Step(s, e).streams[c].phase)
  {
  }

  lemma {:induction false} EmptyHands(ss: seq<Stream>)
    requires forall c: nat :: c < |ss| ==> Hand(ss[c].phase) == []
    ensures InHand(ss) == []
  {
    if ss != [] { EmptyHands(ss[..|ss| - 1]); }
  }

  lemma Do(events: seq<Event>, s: State, e: Event) returns (longer: seq<Event>, t: State)
    requires Run(events) == s
    ensures longer == events + [e] && t == Step(s, e) == Run(longer)
  {
    RunSnoc(events, e);
    longer, t := events + [e], Step(s, e);
  }

  /** A stream is dropped while its handler is parked, and the adapter redials. */
  lemma DropAndRedial() returns (events: seq<Event>, s: State)
    ensures Run(events) == s
    ensures s.streams == [Stream(Parked, false), Stream(Parked, true)] && s.live == Some(1) && !s.closing
    ensures s.queue == s.puts == [Msg(1), Msg(2)] && s.sent == []
  {
    events, s := [], INIT;
    events, s := Do(events, s, Arrive);
    events, s := Do(events, s, Attempt(0));
    events, s := Do(events, s, LoopHead(0));
    events, s := Do(events, s, End(0));
    assert s.streams == [Stream(Parked, false)];
    events, s := Do(events, s, Arrive);
    events, s := Do(events, s, Attempt(1));
    events, s := Do(events, s, LoopHead(1));
    assert s.streams == [Stream(Parked, false), Stream(Parked, true)];
    events, s := Do(events, s, Put(Msg(1)));
    events, s := Do(events, s, Put(Msg(2)));
  }

  /** The dropped stream's handler takes message 1 and has not looked at its stream yet. */
  lemma TakenTooLate() returns (events: seq<Event>, s: State)
    ensures Run(events) == s
    ensures s.streams == [Stream(Holding(Msg(1)), false), Stream(Parked, true)] && s.live == Some(1) && !s.closing
    ensures s.queue == [Msg(2)] && s.puts == [Msg(1), Msg(2)] && s.sent == []
  {
    events, s := DropAndRedial();
    events, s := Do(events, s, Take(0));
  }

  /** From there the exact condition says that the new stream's next send breaks the order. */
  lemma NextSendInverts() returns (events: seq<Event>)
    ensures var t := Step(Step(Step(Run(events), Take(1)), Check(1)), Send(1));
            InOrder(Run(events)) && !(SentItems(t.sent) <= t.puts)
  {
    var s;
    events, s := TakenTooLate();
    OneOfTwoHands(s.streams);
    OneInHandIsInOrder(s, Msg(1), [Msg(2)]);
    OverlapKeepsOrderOnlyForEqualItems(s, 0, 1);
  }

  lemma OneOfTwoHands(ss: seq<Stream>)
    requires |ss| == 2 && Hand(ss[1].phase) == []
    ensures InHand(ss) == Hand(ss[0].phase)
  {
    assert ss == [ss[0]] + [ss[1]];
    InHandConcat([ss[0]], [ss[1]]);
    InHandOne(ss[0]);
    InHandOne(ss[1]);
  }

  lemma OneInHandIsInOrder(s: State, item: Item, queue: seq<Item>)
    requires s.sent == [] && InHand(s.streams) == [item] && s.queue == queue && s.puts == [item] + queue
    ensures InOrder(s)
  {
    assert [] + [item] + queue == [item] + queue;
  }

  /** The redialled stream drops too, and the first one's handler has seen that its own is not the live one. */
  lemma BothDropped() returns (events: seq<Event>, s: State)
    ensures Run(events) == s
    ensures s.streams == [Stream(Stale(Msg(1)), false), Stream(Parked, false)] && s.live == Some(1)
    ensures s.queue == [Msg(2)] && s.puts == [Msg(1), Msg(2)] && s.sent == []
  {
    events, s := TakenTooLate();
    events, s := Do(events, s, End(1));
    assert s.streams == [Stream(Holding(Msg(1)), false), Stream(Parked, false)];
    events, s := Do(events, s, Check(0));
  }

  /** The second handler takes message 2 and sees the same. */
  lemma BothStale() returns (events: seq<Event>, s: State)
    ensures Run(events) == s
    ensures s.streams == [Stream(Stale(Msg(1)), false), Stream(Stale(Msg(2)), false)]
    ensures s.queue == [] && s.puts == [Msg(1), Msg(2)] && s.sent == []
  {
    events, s := BothDropped();
    events, s := Do(events, s, Take(1));
    assert s.streams == [Stream(Stale(Msg(1)), false), Stream(Holding(Msg(2)), false)] && s.queue == [];
    events, s := Do(events, s, Check(1));
  }

  /** The first handler gives message 1 back. */
  lemma FirstGivenBack() returns (events: seq<Event>, s: State)
    ensures Run(events) == s
    ensures s.streams == [Stream(Exited(true), false), Stream(Stale(Msg(2)), false)]
    ensures s.queue == [Msg(1)] && s.puts == [Msg(1), Msg(2)] && s.sent == []
  {
    events, s := BothStale();
    events, s := Do(events, s, GiveBack(0));
  }

  /** The second one gives message 2 back in front of it: the queue is inverted, with no hand left to mend it. */
  lemma GiveBacksCanInvert() returns (events: seq<Event>)
    ensures Run(events).puts == [Msg(1), Msg(2)] && Run(events).sent == []
    ensures Run(events).queue == [Msg(2), Msg(1)] && InHand(Run(events).streams) == []
  {
    var s;
    events, s := FirstGivenBack();
    events, s := Do(events, s, GiveBack(1));
    assert s.streams == [Stream(Exited(true), false), Stream(Exited(true), false)];
    EmptyHands(s.streams);
  }

  /** The new stream takes message 2 and sends it. */
  lemma Overtake() returns (events: seq<Event>, s: State)
    ensures Run(events) == s
    ensures s.streams == [Stream(Holding(Msg(1)), false), Stream(Looping, true)] && s.live == Some(1) && !s.closing
    ensures s.queue == [] && s.puts == [Msg(1), Msg(2)] && s.sent == [Delivery(1, Msg(2), true)]
  {
    events, s := TakenTooLate();
    events, s := Do(events, s, Take(1));
    assert s.streams == [Stream(Holding(Msg(1)), false), Stream(Holding(Msg(2)), true)] && s.queue == [];
    events, s := Do(events, s, Check(1));
    assert s.streams == [Stream(Holding(Msg(1)), false), Stream(Cleared(Msg(2)), true)];
    events, s := Do(events, s, Send(1));
  }

  /** The stale handler returns message 1 to the head, behind message 2. */
  lemma ComeBack() returns (events: seq<Event>, s: State)
    ensures Run(events) == s
    ensures s.streams == [Stream(Exited(true), false), Stream(Looping, true)] && s.live == Some(1) && !s.closing
    ensures s.queue == [Msg(1)] && s.puts == [Msg(1), Msg(2)] && s.sent == [Delivery(1, Msg(2), true)]
  {
    events, s := Overtake();
    events, s := Do(events, s, Check(0));
    assert s.streams == [Stream(Stale(Msg(1)), false), Stream(Looping, true)];
    events, s := Do(events, s, GiveBack(0));
  }

  /** With two admitted streams it can be lost: message 1 comes back to the head too late. */
  lemma TwoStreamsCanInvert() returns (events: seq<Event>)
    ensures Run(events).puts == [Msg(1), Msg(2)]
    ensures SentItems(Run(events).sent) == [Msg(2), Msg(1)]
  {
    var s;
    events, s := ComeBack();
    events, s := Do(events, s, LoopHead(1));
    assert s.streams == [Stream(Exited(true), false), Stream(Parked, true)];
    events, s := Do(events, s, Take(1));
    assert s.streams == [Stream(Exited(true), false), Stream(Holding(Msg(1)), true)];
    events, s := Do(events, s, Check(1));
    assert s.streams == [Stream(Exited(true), false), Stream(Cleared(Msg(1)), true)];
    events, s := Do(events, s, Send(1));
    TwoSent(Delivery(1, Msg(2), true), Delivery(1, Msg(1), true));
  }

  lemma TwoSent(a: Delivery, b: Delivery)
    ensures SentItems([a] + [b]) == [a.item, b.item]
  {
    SentItemsAppend([], a);
    SentItemsAppend([a], b);
    assert [] + [a] == [a];
  }

  // ---- The window between the check and the send ----

  /** No stream drops after its handler's check passed and before the item is handed over. */
  ghost predicate NoCut(events: seq<Event>) {
    events == [] ||
    (var before := events[..|events| - 1];
     var e := events[|events| - 1];
     NoCut(before) && (e.End? && e.c < |Run(before).streams| ==> !Run(before).streams[e.c].phase.Cleared?))
  }

  ghost predicate AllReached(s: State) {
    && (forall c: nat :: c < |s.streams| && s.streams[c].phase.Cleared? ==> s.streams[c].active)
    && (forall d <- s.sent :: d.reached)
  }

  lemma StepReaches(s: State, e: Event)
    requires AllReached(s) && !(e.End? && e.c < |s.streams| && s.streams[e.c].phase.Cleared?)
    ensures AllReached(Step(s, e))
  {
  }

  lemma CutIsNotReached(s: State, e: Event)
    requires e.End? && e.c < |s.streams| && s.streams[e.c].phase.Cleared?
    ensures !AllReached(Step(s, e))
  {
    assert Step(s, e).streams[e.c] == Stream(s.streams[e.c].phase, false);
  }

  /** What a drop has cut off stays cut off: the item is on a dead stream, before its send and after. */
  lemma UnreachedStays(s: State, e: Event)
    requires !AllReached(s)
    ensures !AllReached(Step(s, e))
  {
    var t := Step(s, e);
    assert s.sent <= t.sent;
    if d :| d in s.sent && !d.reached {
      assert d in t.sent;
    } else {
      var c: nat :| c < |s.streams| && s.streams[c].phase.Cleared? && !s.streams[c].active;
      DeadClearedStays(s, e, c);
    }
  }

  lemma DeadClearedStays(s: State, e: Event, c: nat)
    requires c < |s.streams| && s.streams[c].phase.Cleared? && !s.streams[c].active
    ensures !AllReached(Step(s, e))
  {
    var t := Step(s, e);
    if e == Send(c) {
      var d := Delivery(c, s.streams[c].phase.item, false);
      assert t.sent == s.sent + [d];
      assert d in t.sent;
    } else {
      assert c < |t.streams| && t.streams[c] == s.streams[c];
    }
  }

  /**
   Over every run: all that was sent, or is about to be, is on a stream that was up, exactly when no
   stream dropped between its handler's check and its send.
   */
  lemma {:induction false} SentItemsReachTheirStreamIff(events: seq<Event>)
    ensures AllReached(Run(events)) <==> NoCut(events)
  {
    if events != [] {
      var s, e := Run(events[..|events| - 1]), events[|events| - 1];
      SentItemsReachTheirStreamIff(events[..|events| - 1]);
      if !AllReached(s) {
        UnreachedStays(s, e);
      } else if e.End? && e.c < |s.streams| && s.streams[e.c].phase.Cleared? {
        CutIsNotReached(s, e);
      } else {
        StepReaches(s, e);
      }
    }
  }

  /** A drop inside that window is not caught: the item is spent on a dead stream, not given back. */
  lemma CutSpendsTheItem(s: State, c: nat)
    requires c < |s.streams| && s.streams[c].phase.Cleared?
    ensures var t := Step(Step(s, End(c)), Send(c));
            t.sent == s.sent + [Delivery(c, s.streams[c].phase.item, false)] && t.queue == s.queue
  {
  }

  /** A run in which it happens: the redialled stream drops as its handler is about to send message 1. */
  lemma CutCanHappen() returns (events: seq<Event>)
    ensures Run(events).sent == [Delivery(1, Msg(1), false)] && Run(events).queue == [Msg(2)]
    ensures !NoCut(events)
  {
    var s;
    events, s := DropAndRedial();
    events, s := Do(events, s, Take(1));
    assert s.streams == [Stream(Parked, false), Stream(Holding(Msg(1)), true)] && s.queue == [Msg(2)];
    events, s := Do(events, s, Check(1));
    assert s.streams == [Stream(Parked, false), Stream(Cleared(Msg(1)), true)];
    events, s := Do(events, s, End(1));
    assert s.streams == [Stream(Parked, false), Stream(Cleared(Msg(1)), false)];
    events, s := Do(events, s, Send(1));
    assert Delivery(1, Msg(1), false) in s.sent;
    SentItemsReachTheirStreamIff(events);
  }

  // ---- How a handler ends ----

  /** A close marker or an abort is the last thing its stream is sent, and ends the handler and the stream. */
  ghost predicate MarkersEnd(s: State) {
    && (forall i: nat :: i < |s.sent| ==> s.sent[i].stream < |s.streams|)
    && (forall i: nat :: i < |s.sent| && !s.sent[i].item.Msg? ==>
          s.streams[s.sent[i].stream] == Stream(Exited(false), false))
    && (forall i: nat, j: nat :: i < j < |s.sent| && !s.sent[i].item.Msg? ==> s.sent[j].stream != s.sent[i].stream)
  }

  lemma EndedStays(s: State, e: Event, c: nat)
    requires c < |s.streams| && s.streams[c] == Stream(Exited(false), false)
    ensures c < |Step(s, e).streams| && Step(s, e).streams[c] == s.streams[c]
  {
  }

  lemma StepKeepsMarkers(s: State, e: Event)
    requires MarkersEnd(s)
    ensures MarkersEnd(Step(s, e))
  {
    var t := Step(s, e);
    forall i: nat | i < |s.sent|
      ensures s.sent[i].stream < |t.streams|
      ensures !s.sent[i].item.Msg? ==> t.streams[s.sent[i].stream] == Stream(Exited(false), false)
    {
      if !s.sent[i].item.Msg? {
        EndedStays(s, e, s.sent[i].stream);
      }
    }
    if e.Send? && Enabled(s, e) {
      assert t.sent == s.sent + [Delivery(e.c, s.streams[e.c].phase.item, s.streams[e.c].active)];
    } else {
      assert t.sent == s.sent;
    }
  }

  /** Over every run. */
  lemma {:induction false} MarkersEndTheirStream(events: seq<Event>)
    ensures MarkersEnd(Run(events))
  {
    if events != [] {
      MarkersEndTheirStream(events[..|events| - 1]);
      StepKeepsMarkers(Run(events[..|events| - 1]), events[|events| - 1]);
    }
  }

  ghost predicate WasSentAMarker(s: State, c: nat) {
    exists i: nat :: i < |s.sent| && s.sent[i].stream == c && !s.sent[i].item.Msg?
  }

  ghost predicate ExitsHaveReasons(s: State) {
    forall c: nat :: c < |s.streams| && s.streams[c].phase == Exited(false) ==> s.closing || WasSentAMarker(s, c)
  }

  lemma StepKeepsReasons(s: State, e: Event)
    requires ExitsHaveReasons(s)
    ensures ExitsHaveReasons(Step(s, e))
  {
    var t := Step(s, e);
    forall c: nat | c < |t.streams| && t.streams[c].phase == Exited(false) && !t.closing
      ensures WasSentAMarker(t, c)
    {
      if c < |s.streams| && s.streams[c].phase == Exited(false) {
        var i: nat :| i < |s.sent| && s.sent[i].stream == c && !s.sent[i].item.Msg?;
        assert t.sent[i] == s.sent[i];
      } else {
        assert t.sent[|s.sent|].stream == c && !t.sent[|s.sent|].item.Msg?;
      }
    }
  }

  /** And nothing else ends a handler empty-handed but the closing of the session. */
  lemma {:induction false} HandlersEndForAReason(events: seq<Event>)
    ensures ExitsHaveReasons(Run(events))
  {
    if events != [] {
      HandlersEndForAReason(events[..|events| - 1]);
      StepKeepsReasons(Run(events[..|events| - 1]), events[|events| - 1]);
    }
  }

  /** What `drop_control` does: the abort ends the live stream, and the next one to ask is admitted. */
  lemma AbortMakesRoom() returns (events: seq<Event>)
    ensures Run(events).sent == [Delivery(0, Abort, true)]
    ensures Run(events).streams == [Stream(Exited(false), false), Stream(Looping, true)] && Run(events).live == Some(1)
  {
    var s;
    events, s := LiveStreamAborted();
    events, s := Do(events, s, Arrive);
    events, s := Do(events, s, Attempt(1));
  }

  lemma AbortTaken() returns (events: seq<Event>, s: State)
    ensures Run(events) == s
    ensures s.streams == [Stream(Holding(Abort), true)] && s.live == Some(0) && s.sent == []
  {
    events, s := [], INIT;
    events, s := Do(events, s, Arrive);
    events, s := Do(events, s, Attempt(0));
    events, s := Do(events, s, LoopHead(0));
    assert s.streams == [Stream(Parked, true)] && s.queue == [];
    events, s := Do(events, s, Put(Abort));
    events, s := Do(events, s, Take(0));
  }

  lemma LiveStreamAborted() returns (events: seq<Event>, s: State)
    ensures Run(events) == s
    ensures s.streams == [Stream(Exited(false), false)] && s.live == Some(0) && s.sent == [Delivery(0, Abort, true)]
  {
    events, s := AbortTaken();
    events, s := Do(events, s, Check(0));
    assert s.streams == [Stream(Cleared(Abort), true)];
    events, s := Do(events, s, Send(0));
  }

  /** A session is closing from the close on, and not before. */
  lemma {:induction false} ClosingIff(events: seq<Event>)
    ensures Run(events).closing <==> SetClosing in events
  {
    if events != [] {
      var before, e := events[..|events| - 1], events[|events| - 1];
      assert events == before + [e];
      ClosingIff(before);
    }
  }

  /** Once the session closes no handler goes back to the queue: those parked then may take once more. */
  lemma {:induction false} NoneParksAfterClosing(events: seq<Event>, more: seq<Event>, c: nat)
    requires Run(events).closing && c < |Run(events + more).streams| && Run(events + more).streams[c].phase.Parked?
    ensures Run(events + more).closing
    ensures c < |Run(events).streams| && Run(events).streams[c].phase.Parked?
    decreases |more|
  {
    if more == [] {
      assert events + more == events;
    } else {
      var before, e := more[..|more| - 1], more[|more| - 1];
      assert events + more == events + before + [e];
      RunSnoc(events + before, e);
      StaysClosing(events, before);
      ParkedBefore(Run(events + before), e, c);
      NoneParksAfterClosing(events, before, c);
    }
  }

  lemma ParkedBefore(s: State, e: Event, c: nat)
    requires s.closing && c < |Step(s, e).streams| && Step(s, e).streams[c].phase.Parked?
    ensures Step(s, e).closing && c < |s.streams| && s.streams[c].phase.Parked?
  {
  }

  lemma {:induction false} StaysClosing(events: seq<Event>, more: seq<Event>)
    requires Run(events).closing
    ensures Run(events + more).closing
    decreases |more|
  {
    if more == [] {
      assert events + more == events;
    } else {
      var before, e := more[..|more| - 1], more[|more| - 1];
      assert events + more == events + before + [e];
      RunSnoc(events + before, e);
      StaysClosing(events, before);
    }
  }

  /** A parked handler whose wait times out then ends, and its stream with it. */
  lemma ClosingEndsAParkedHandler(s: State, c: nat)
    requires s.closing && c < |s.streams| && s.streams[c].phase.Parked?
    ensures var t := Step(Step(s, GetTimesOut(c)), LoopHead(c));
            t == s.(streams := s.streams[c := Stream(Exited(false), false)])
  {
  }

  /** The refusals counted are the handlers that gave up. */
  lemma {:induction false} RefusalsAreCounted(events: seq<Event>)
    ensures Run(events).refusals == CountIn(Run(events).streams, Refused)
  {
    if events != [] {
      var s, e := Run(events[..|events| - 1]), events[|events| - 1];
      RefusalsAreCounted(events[..|events| - 1]);
      StepCountsRefusals(s, e);
    }
  }

  lemma StepCountsRefusals(s: State, e: Event)
    ensures Step(s, e).refusals - s.refusals == CountIn(Step(s, e).streams, Refused) - CountIn(s.streams, Refused)
  {
    var t := Step(s, e);
    if Enabled(s, e) {
      if e.Arrive? {
        assert t.streams[..|s.streams|] == s.streams;
      } else if !e.Put? && !e.SetClosing? {
        CountUpdate(s.streams, e.c, t.streams[e.c], Refused);
        assert t.streams == s.streams[e.c := t.streams[e.c]];
      }
    }
  }

  // ---- The shared object ----

  /**
   The session every handler and the driver share. Each method is one critical section, and each
   performs the step of the machine above that bears its name.
   */
  class Session {
    var live: Option<nat>
    var out: seq<Item>
    var closing: bool
    var refusals: nat
    var streams: seq<Stream>
    ghost var puts: seq<Item>
    ghost var sent: seq<Delivery>

    ghost function View(): State
      reads this
    {
      State(streams, live, out, closing, refusals, puts, sent)
    }

    constructor ()
      ensures View() == INIT
    {
      live, out, closing, refusals, streams, puts, sent := None, [], false, 0, [], [], [];
    }

    /** A new call reaches the servicer; its context is the next index. */
    method Open() returns (c: nat)
      modifies this
      ensures c == old(|streams|) && View() == Step(old(View()), Arrive)
    {
      c := |streams|;
      streams := streams + [Stream(Claiming, true)];
    }

    method Enter(c: nat, phase: Phase)
      requires c < |streams|
      modifies this`streams
      ensures streams == old(streams)[c := old(streams)[c].(phase := phase)]
    {
      streams := streams[c := streams[c].(phase := phase)];
    }

    method Return(c: nat, phase: Phase)
      requires c < |streams|
      modifies this`streams
      ensures streams == old(streams)[c := Stream(phase, false)]
    {
      streams := streams[c := Stream(phase, false)];
    }

    /** One turn of `_claim_stream`'s loop, under its lock. */
    method ClaimStream(c: nat) returns (admitted: bool)
      requires c < |streams| && (streams[c].phase.Claiming? || streams[c].phase.Waiting?)
      modifies this
      ensures View() == Step(old(View()), Attempt(c))
      ensures admitted <==> old(Free(View()))
    {
      admitted := live.None? || !(live.value < |streams| && streams[live.value].active);
      if admitted {
        live := Some(c);
        Enter(c, Looping);
      } else {
        Enter(c, Waiting);
      }
    }

    /** The deadline passed with another stream still up. */
    method Refuse(c: nat)
      requires c < |streams| && streams[c].phase.Waiting?
      modifies this
      ensures View() == Step(old(View()), GiveUp(c))
    {
      refusals := refusals + 1;
      Return(c, Refused);
    }

    /** The peer goes away. */
    method Drop(c: nat)
      requires c < |streams|
      modifies this
      ensures View() == Step(old(View()), End(c))
    {
      streams := streams[c := streams[c].(active := false)];
    }

    method Enqueue(item: Item)
      modifies this
      ensures View() == Step(old(View()), Put(item))
    {
      out := out + [item];
      puts := puts + [item];
    }

    method DropControl()
      modifies this
      ensures View() == Step(old(View()), Put(Abort))
    {
      Enqueue(Abort);
    }

    method CloseStreams()
      modifies this
      ensures View() == Step(Step(old(View()), SetClosing), Put(Sentinel))
    {
      closing := true;
      Enqueue(Sentinel);
    }

    method TopOfLoop(c: nat) returns (again: bool)
      requires c < |streams| && streams[c].phase.Looping?
      modifies this
      ensures View() == Step(old(View()), LoopHead(c)) && again == !closing
    {
      again := !closing;
      if again { Enter(c, Parked); } else { Return(c, Exited(false)); }
    }

    /** `get(timeout=...)`: the head of the queue, or nothing. */
    method Get(c: nat) returns (item: Option<Item>)
      requires c < |streams| && streams[c].phase.Parked?
      modifies this
      ensures old(out) == [] ==> item == None && View() == Step(old(View()), GetTimesOut(c))
      ensures old(out) != [] ==> item == Some(old(out)[0]) && View() == Step(old(View()), Take(c))
    {
      if out == [] {
        item := None;
        Enter(c, Looping);
      } else {
        item := Some(out[0]);
        Enter(c, Holding(out[0]));
        out := out[1..];
      }
    }

    method CheckMaySend(c: nat) returns (may: bool)
      requires c < |streams| && streams[c].phase.Holding?
      modifies this
      ensures View() == Step(old(View()), Check(c)) && may == old(MaySend(View(), c))
    {
      may := live == Some(c) && streams[c].active;
      Enter(c, if may then Cleared(streams[c].phase.item) else Stale(streams[c].phase.item));
    }

    method RequeueFront(c: nat)
      requires c < |streams| && streams[c].phase.Stale?
      modifies this
      ensures View() == Step(old(View()), GiveBack(c))
    {
      out := [streams[c].phase.item] + out;
      Return(c, Exited(true));
    }

    /** Yield a message, or end the stream on a close marker or an abort. */
    method Yield(c: nat)
      requires c < |streams| && streams[c].phase.Cleared?
      modifies this
      ensures View() == Step(old(View()), Send(c))
    {
      var item := streams[c].phase.item;
      sent := sent + [Delivery(c, item, streams[c].active)];
      if item.Msg? { Enter(c, Looping); } else { Return(c, Exited(false)); }
    }
  }
}
