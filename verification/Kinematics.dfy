/**
 The kinematic plant of the simulation adapter (adapters/simulation/simulator.py).

 Arithmetic is over the reals: rounding is not modelled. The square root is the parameter `h`, and
 what is proved of a run asks that it be exact at the vectors the run measures, no more.
 */
module Kinematics {
  import opened Wrappers

  const SPEED := 1.0
  const DECEL := 4.0

  type Length = (real, real) -> real

  function Product(a: real, b: real): real {
    a * b
  }

  function Squared(a: real): real {
    Product(a, a)
  }

  predicate ExactAt(h: Length, x: real, y: real) {
    h(x, y) >= 0.0 && Squared(h(x, y)) == Squared(x) + Squared(y)
  }

  datatype Robot = Robot(
    x: real, y: real, vx: real, vy: real, target: Option<(real, real)>, stopping: bool, battery: real)

  function Spawned(x: real, y: real): Robot {
    Robot(x, y, 0.0, 0.0, None, false, 100.0)
  }

  function Speed(h: Length, r: Robot): real {
    h(r.vx, r.vy)
  }

  predicate AtRest(r: Robot) {
    r.vx == 0.0 && r.vy == 0.0
  }

  function Max(a: real, b: real): real {
    if a >= b then a else b
  }

  // ---- One robot, one tick ----

  /** The tick divides by the speed of a robot that brakes and by the distance of one that drives. */
  predicate DividesByZero(h: Length, r: Robot, dt: real) {
    if r.stopping then Speed(h, r) == 0.0 > DECEL * dt
    else r.target.Some? && h(r.target.value.0 - r.x, r.target.value.1 - r.y) == 0.0 > SPEED * dt
  }

  /** The velocity and target a tick gives a robot, before it moves it. */
  function Steer(h: Length, r: Robot, dt: real): Robot
    requires !DividesByZero(h, r, dt)
  {
    if r.stopping then
      var speed := Speed(h, r);
      if speed <= DECEL * dt then r.(vx := 0.0, vy := 0.0)
      else
        var scale := (speed - DECEL * dt) / speed;
        r.(vx := r.vx * scale, vy := r.vy * scale)
    else if r.target.Some? then
      var dx, dy := r.target.value.0 - r.x, r.target.value.1 - r.y;
      var dist := h(dx, dy);
      if dist <= SPEED * dt then
        r.(x := r.target.value.0, y := r.target.value.1, vx := 0.0, vy := 0.0, target := None)
      else r.(vx := SPEED * dx / dist, vy := SPEED * dy / dist)
    else r
  }

  function Advance(h: Length, r: Robot, dt: real): Robot
    requires !DividesByZero(h, r, dt)
  {
    var s := Steer(h, r, dt);
    s.(x := Onward(s.x, s.vx, dt), y := Onward(s.y, s.vy, dt), battery := Max(0.0, s.battery - 0.01 * dt))
  }

  function Onward(x: real, v: real, dt: real): real {
    x + v * dt
  }

  function Moved(r: Robot, x: real, y: real): Robot {
    r.(stopping := false, target := Some((x, y)))
  }

  function Halted(r: Robot): Robot {
    r.(stopping := true, target := None)
  }

  function Charged(r: Robot, percent: real): Robot {
    r.(battery := if r.battery + percent <= 100.0 then r.battery + percent else 100.0)
  }

  // ---- The simulator ----

  class KinematicSim {
    const h: Length
    var robots: map<string, Robot>

    constructor (h: Length)
      ensures robots == map[] && this.h == h
    {
      this.h := h;
      robots := map[];
    }

    method Spawn(id: string, x: real, y: real)
      modifies this
      ensures robots == old(robots)[id := Spawned(x, y)]
    {
      robots := robots[id := Spawned(x, y)];
    }

    /** Commands name a robot; `ok` is false, and nothing changes, where the source raises KeyError. */
    method CommandMove(id: string, x: real, y: real) returns (ok: bool)
      modifies this
      ensures ok <==> id in old(robots)
      ensures robots == if ok then old(robots)[id := Moved(old(robots)[id], x, y)] else old(robots)
    {
      ok := id in robots;
      if ok {
        robots := robots[id := robots[id].(stopping := false)];
        robots := robots[id := robots[id].(target := Some((x, y)))];
      }
    }

    method CommandStop(id: string) returns (ok: bool)
      modifies this
      ensures ok <==> id in old(robots)
      ensures robots == if ok then old(robots)[id := Halted(old(robots)[id])] else old(robots)
    {
      ok := id in robots;
      if ok {
        robots := robots[id := robots[id].(stopping := true)];
        robots := robots[id := robots[id].(target := None)];
      }
    }

    method Charge(id: string, percent: real) returns (ok: bool)
      modifies this
      ensures ok <==> id in old(robots)
      ensures robots == if ok then old(robots)[id := Charged(old(robots)[id], percent)] else old(robots)
    {
      ok := id in robots;
      if ok {
        robots := robots[id := Charged(robots[id], percent)];
      }
    }

    /**
     Every robot advances by the same time, each on its own. `ok` is false where the source raises
     ZeroDivisionError, part of the way through, which takes a negative time.
     */
    method Tick(dt: real) returns (ok: bool)
      modifies this
      ensures ok <==> forall id <- old(robots) :: !DividesByZero(h, old(robots)[id], dt)
      ensures dt >= 0.0 ==> ok
      ensures robots.Keys == old(robots.Keys)
      ensures forall id <- robots ::
                || (!ok && robots[id] == old(robots)[id])
                || (!DividesByZero(h, old(robots)[id], dt) && robots[id] == Advance(h, old(robots)[id], dt))
    {
      var left := robots.Keys;
      while left != {}
        invariant left <= robots.Keys == old(robots.Keys)
        invariant forall id <- left :: robots[id] == old(robots)[id]
        invariant forall id <- robots.Keys - left ::
                    !DividesByZero(h, old(robots)[id], dt) && robots[id] == Advance(h, old(robots)[id], dt)
      {
        var id :| id in left;
        if DividesByZero(h, robots[id], dt) {
          return false;
        }
        robots := robots[id := Advance(h, robots[id], dt)];
        left := left - {id};
      }
      return true;
    }

    method IsStopped(id: string) returns (stopped: Option<bool>)
      ensures stopped == if id in robots then Some(AtRest(robots[id])) else None
    {
      if id !in robots {
        return None;
      }
      return Some(robots[id].vx == 0.0 && robots[id].vy == 0.0);
    }
  }

  /** A negative time does it: a spawned robot told to stop is divided by its speed, which is zero. */
  lemma NegativeTimeDividesByZero(h: Length, x: real, y: real, dt: real)
    requires h(0.0, 0.0) == 0.0 && dt < 0.0
    ensures DividesByZero(h, Halted(Spawned(x, y)), dt)
    ensures DividesByZero(h, Moved(Spawned(x, y), x, y), dt)
  {
  }

  // ---- Lengths ----

  lemma PositiveProduct(a: real, b: real)
    requires a > 0.0 && b > 0.0
    ensures Product(a, b) > 0.0
  {
  }

  lemma NegatedProduct(a: real, b: real)
    ensures Product(-a, -b) == Product(a, b)
  {
  }

  lemma PositiveSquare(a: real)
    requires a != 0.0
    ensures Squared(a) > 0.0
  {
    if a > 0.0 {
      PositiveProduct(a, a);
    } else {
      PositiveProduct(-a, -a);
      NegatedProduct(a, a);
    }
  }

  lemma Square(a: real)
    ensures Squared(a) >= 0.0
  {
  }

  lemma ConjugateProduct(a: real, b: real)
    ensures Product(b - a, b + a) == Squared(b) - Squared(a)
  {
  }

  lemma LongerSquare(a: real, b: real)
    requires 0.0 <= a < b
    ensures Squared(a) < Squared(b)
  {
    PositiveProduct(b - a, b + a);
    ConjugateProduct(a, b);
  }

  lemma SameRoot(a: real, b: real)
    requires a >= 0.0 && b >= 0.0 && Squared(a) == Squared(b)
    ensures a == b
  {
    if a < b {
      LongerSquare(a, b);
    } else if b < a {
      LongerSquare(b, a);
    }
  }

  lemma ScaledSquare(a: real, c: real)
    ensures Squared(a * c) == Squared(a) * Squared(c)
  {
  }

  lemma Distributes(a: real, x: real, y: real, k: real)
    requires a == x + y
    ensures a * k == x * k + y * k
  {
  }

  lemma ScaledLength(h: Length, x: real, y: real, c: real, x1: real, y1: real)
    requires ExactAt(h, x, y) && ExactAt(h, x1, y1) && c >= 0.0 && x1 == x * c && y1 == y * c
    ensures h(x1, y1) == h(x, y) * c
  {
    ScaledSquare(h(x, y), c);
    ScaledSquare(x, c);
    ScaledSquare(y, c);
    Distributes(Squared(h(x, y)), Squared(x), Squared(y), Squared(c));
    SameRoot(h(x1, y1), h(x, y) * c);
  }

  lemma ZeroLength(h: Length, x: real, y: real)
    requires ExactAt(h, x, y)
    ensures h(x, y) >= 0.0 && (h(x, y) == 0.0 <==> x == 0.0 && y == 0.0)
  {
    ZeroRoot(h(x, y), x, y);
  }

  lemma ZeroRoot(a: real, x: real, y: real)
    requires a >= 0.0 && Squared(a) == Squared(x) + Squared(y)
    ensures a == 0.0 <==> x == 0.0 && y == 0.0
  {
    Square(x);
    Square(y);
    assert Squared(0.0) == 0.0;
    if x != 0.0 {
      PositiveSquare(x);
    } else if y != 0.0 {
      PositiveSquare(y);
    } else {
      SameRoot(a, 0.0);
    }
  }

  /** A vector (x, y) of length s, shortened by `part` to (x1, y1), keeps its direction. */
  lemma Shortened(h: Length, x: real, y: real, s: real, part: real, x1: real, y1: real, n: real)
    requires ExactAt(h, x, y) && ExactAt(h, x1, y1) && s == h(x, y) && s > part >= 0.0 && n == h(x1, y1)
    requires x1 == x * ((s - part) / s) && y1 == y * ((s - part) / s)
    ensures n == s - part && x1 * s == x * n && y1 * s == y * n
  {
    var c := (s - part) / s;
    Ratio(s, part, c);
    ScaledLength(h, x, y, c, x1, y1);
    Scaled(s, h(x, y), c);
    assert x1 * s == x * (s * c);
    assert y1 * s == y * (s * c);
  }

  lemma Scaled(a: real, b: real, c: real)
    requires a == b
    ensures a * c == b * c
  {
  }

  lemma SameProduct(a: real, b: real, c: real, d: real)
    requires a == c && b == d
    ensures a * b == c * d
  {
  }

  lemma Ratio(a: real, part: real, c: real)
    requires a > part >= 0.0 && c == (a - part) / a
    ensures c > 0.0 && a * c == a - part
  {
  }

  /** The same ratio, taken in two steps. */
  lemma TwoSteps(a2: real, a1: real, a0: real, r2: real, r1: real, r0: real)
    requires r1 != 0.0 && a2 * r1 == a1 * r2 && a1 * r0 == a0 * r1
    ensures a2 * r0 == a0 * r2
  {
  }

  // ---- Many ticks ----

  ghost predicate Times(dts: seq<real>) {
    forall i :: 0 <= i < |dts| ==> dts[i] >= 0.0
  }

  function Elapsed(dts: seq<real>): real {
    if dts == [] then 0.0 else Elapsed(dts[..|dts| - 1]) + dts[|dts| - 1]
  }

  ghost function After(h: Length, r: Robot, dts: seq<real>): Robot
    requires Times(dts)
  {
    if dts == [] then r else Advance(h, After(h, r, dts[..|dts| - 1]), dts[|dts| - 1])
  }

  function Gap(h: Length, a: Robot, b: Robot): real {
    h(b.x - a.x, b.y - a.y)
  }

  /** The length of the path from tick to tick. */
  ghost function Path(h: Length, r: Robot, dts: seq<real>): real
    requires Times(dts)
  {
    if dts == [] then 0.0
    else
      var before := dts[..|dts| - 1];
      Path(h, r, before) + Gap(h, After(h, r, before), After(h, r, dts))
  }

  /** (x, y) is a robot's velocity, or what it has left to its target. */
  predicate VectorOf(r: Robot, x: real, y: real) {
    || (x == r.vx && y == r.vy)
    || (r.target.Some? && x == r.target.value.0 - r.x && y == r.target.value.1 - r.y)
  }

  ghost predicate Measured(h: Length, r: Robot) {
    forall x, y {:trigger ExactAt(h, x, y)} :: VectorOf(r, x, y) ==> ExactAt(h, x, y)
  }

  /** And the way from one tick to the next. */
  ghost predicate TickMeasured(h: Length, r: Robot, q: Robot) {
    && Measured(h, r) && Measured(h, q)
    && forall x, y {:trigger ExactAt(h, x, y)} :: x == q.x - r.x && y == q.y - r.y ==> ExactAt(h, x, y)
  }

  ghost predicate AllMeasured(h: Length, r: Robot, dts: seq<real>)
    requires Times(dts)
  {
    if dts == [] then Measured(h, r)
    else
      var before := dts[..|dts| - 1];
      AllMeasured(h, r, before) && TickMeasured(h, After(h, r, before), After(h, r, dts))
  }

  lemma LastMeasured(h: Length, r: Robot, dts: seq<real>)
    requires Times(dts) && AllMeasured(h, r, dts)
    ensures Measured(h, After(h, r, dts))
  {
  }

  lemma {:induction false} ElapsedIsPositive(dts: seq<real>)
    requires Times(dts)
    ensures Elapsed(dts) >= 0.0
  {
    if dts != [] {
      ElapsedIsPositive(dts[..|dts| - 1]);
    }
  }

  /** A robot that moves by its velocity goes as far as its speed takes it. */
  lemma GapIsSpeed(h: Length, r: Robot, q: Robot, dt: real)
    requires TickMeasured(h, r, q) && dt >= 0.0 && q.x == r.x + q.vx * dt && q.y == r.y + q.vy * dt
    ensures Gap(h, r, q) == Product(Speed(h, q), dt)
  {
    ScaledLength(h, q.vx, q.vy, dt, q.x - r.x, q.y - r.y);
  }

  lemma SpeedIsLength(h: Length, r: Robot)
    requires Measured(h, r)
    ensures Speed(h, r) >= 0.0 && (Speed(h, r) == 0.0 <==> AtRest(r))
  {
    ZeroLength(h, r.vx, r.vy);
  }

  lemma Slowed(h: Length, r: Robot, q: Robot, s: real, part: real, n: real)
    requires Measured(h, r) && Measured(h, q) && s == Speed(h, r) && n == Speed(h, q) && s > part >= 0.0
    requires q.vx == r.vx * ((s - part) / s) && q.vy == r.vy * ((s - part) / s)
    ensures n == s - part && q.vx * s == r.vx * n && q.vy * s == r.vy * n
  {
    Shortened(h, r.vx, r.vy, s, part, q.vx, q.vy, n);
  }

  // ---- Coming to rest ----

  lemma StopStep(h: Length, r: Robot, q: Robot, dt: real)
    requires dt >= 0.0 && r.stopping && q == Advance(h, r, dt) && Measured(h, r) && Measured(h, q)
    ensures q.stopping && Speed(h, q) == Max(0.0, Speed(h, r) - DECEL * dt)
    ensures q.vx * Speed(h, r) == r.vx * Speed(h, q) && q.vy * Speed(h, r) == r.vy * Speed(h, q)
  {
    SpeedIsLength(h, r);
    if Speed(h, r) <= DECEL * dt {
      SpeedIsLength(h, q);
    } else {
      Slowed(h, r, q, Speed(h, r), DECEL * dt, Speed(h, q));
    }
  }

  /** A stopping robot goes where its new velocity takes it. */
  lemma StopMoves(h: Length, r: Robot, q: Robot, dt: real)
    requires dt >= 0.0 && r.stopping && q == Advance(h, r, dt)
    ensures q.x == r.x + q.vx * dt && q.y == r.y + q.vy * dt
  {
  }

  lemma {:induction false} StopSpeed(h: Length, r: Robot, dts: seq<real>, q: Robot)
    requires Times(dts) && AllMeasured(h, r, dts) && r.stopping && q == After(h, r, dts)
    ensures q.stopping && Speed(h, q) == Max(0.0, Speed(h, r) - DECEL * Elapsed(dts))
    decreases |dts|
  {
    if dts == [] {
      SpeedIsLength(h, r);
    } else {
      var before := dts[..|dts| - 1];
      var p := After(h, r, before);
      StopSpeed(h, r, before, p);
      StopStep(h, p, q, dts[|dts| - 1]);
      ElapsedIsPositive(before);
    }
  }

  /** A stopping robot is at rest exactly once the time that braking takes has elapsed. */
  lemma RestIff(h: Length, r: Robot, dts: seq<real>)
    requires Times(dts) && AllMeasured(h, r, dts) && r.stopping
    ensures AtRest(After(h, r, dts)) <==> DECEL * Elapsed(dts) >= Speed(h, r)
  {
    var q := After(h, r, dts);
    StopSpeed(h, r, dts, q);
    LastMeasured(h, r, dts);
    SpeedIsLength(h, q);
  }

  lemma TurnStep(v2: real, v1: real, v0: real, s2: real, s1: real, s0: real)
    requires v2 * s1 == v1 * s2 && v1 * s0 == v0 * s1
    requires s1 == 0.0 ==> v2 == 0.0 && s2 == 0.0
    ensures v2 * s0 == v0 * s2
  {
  }

  lemma TurnX(h: Length, r: Robot, p: Robot, q: Robot, dt: real)
    requires dt >= 0.0 && p.stopping && q == Advance(h, p, dt) && Measured(h, p) && Measured(h, q)
    requires p.vx * Speed(h, r) == r.vx * Speed(h, p)
    ensures q.vx * Speed(h, r) == r.vx * Speed(h, q)
  {
    StopStep(h, p, q, dt);
    SpeedIsLength(h, q);
    TurnStep(q.vx, p.vx, r.vx, Speed(h, q), Speed(h, p), Speed(h, r));
  }

  lemma TurnY(h: Length, r: Robot, p: Robot, q: Robot, dt: real)
    requires dt >= 0.0 && p.stopping && q == Advance(h, p, dt) && Measured(h, p) && Measured(h, q)
    requires p.vy * Speed(h, r) == r.vy * Speed(h, p)
    ensures q.vy * Speed(h, r) == r.vy * Speed(h, q)
  {
    StopStep(h, p, q, dt);
    SpeedIsLength(h, q);
    TurnStep(q.vy, p.vy, r.vy, Speed(h, q), Speed(h, p), Speed(h, r));
  }

  /** Braking does not turn: the velocity keeps the direction it had. */
  lemma {:induction false} StopKeepsDirection(h: Length, r: Robot, dts: seq<real>, q: Robot)
    requires Times(dts) && AllMeasured(h, r, dts) && r.stopping && q == After(h, r, dts)
    ensures q.vx * Speed(h, r) == r.vx * Speed(h, q)
    ensures q.vy * Speed(h, r) == r.vy * Speed(h, q)
    decreases |dts|
  {
    if dts == [] {
      SameProduct(q.vx, Speed(h, r), r.vx, Speed(h, q));
      SameProduct(q.vy, Speed(h, r), r.vy, Speed(h, q));
    } else {
      var before, dt := dts[..|dts| - 1], dts[|dts| - 1];
      var p := After(h, r, before);
      StopKeepsDirection(h, r, before, p);
      StopSpeed(h, r, before, p);
      TurnX(h, r, p, q, dt);
      TurnY(h, r, p, q, dt);
    }
  }

  lemma BrakeStep(s1: real, s2: real, dt: real)
    requires s1 >= 0.0 && dt >= 0.0 && s2 == Max(0.0, s1 - DECEL * dt)
    ensures 2.0 * DECEL * Product(s2, dt) <= Squared(s1) - Squared(s2)
  {
  }

  lemma DistanceStep(h: Length, p: Robot, q: Robot, dt: real)
    requires dt >= 0.0 && p.stopping && q == Advance(h, p, dt) && TickMeasured(h, p, q)
    ensures 2.0 * DECEL * Gap(h, p, q) <= Squared(Speed(h, p)) - Squared(Speed(h, q))
  {
    StopStep(h, p, q, dt);
    StopMoves(h, p, q, dt);
    SpeedIsLength(h, p);
    GapIsSpeed(h, p, q, dt);
    BrakeStep(Speed(h, p), Speed(h, q), dt);
  }

  /** The energy a brake takes bounds the way it takes: `2 * DECEL * way <= v0 * v0 - v * v`. */
  lemma {:induction false} StopDistance(h: Length, r: Robot, dts: seq<real>, q: Robot)
    requires Times(dts) && AllMeasured(h, r, dts) && r.stopping && q == After(h, r, dts)
    ensures 2.0 * DECEL * Path(h, r, dts) <= Squared(Speed(h, r)) - Squared(Speed(h, q))
    decreases |dts|
  {
    if dts != [] {
      var before := dts[..|dts| - 1];
      var p := After(h, r, before);
      StopDistance(h, r, before, p);
      StopSpeed(h, r, before, p);
      DistanceStep(h, p, q, dts[|dts| - 1]);
    }
  }

  lemma NoProduct(a: real, b: real, c: real, d: real)
    requires a == 0.0 && d == 0.0
    ensures a * b == c * d
  {
  }

  lemma AlongStep(x2: real, x1: real, x0: real, v2: real, v0: real, s2: real, s0: real, dt: real, way: real, all: real)
    requires x2 == x1 + v2 * dt && v2 * s0 == v0 * s2 && all == way + Product(s2, dt) && (x1 - x0) * s0 == v0 * way
    ensures (x2 - x0) * s0 == v0 * all
  {
  }

  lemma AlongX(h: Length, r: Robot, p: Robot, q: Robot, dt: real, way: real, all: real)
    requires dt >= 0.0 && p.stopping && q == Advance(h, p, dt) && TickMeasured(h, p, q) && all == way + Gap(h, p, q)
    requires q.vx * Speed(h, r) == r.vx * Speed(h, q) && (p.x - r.x) * Speed(h, r) == r.vx * way
    ensures (q.x - r.x) * Speed(h, r) == r.vx * all
  {
    StopMoves(h, p, q, dt);
    GapIsSpeed(h, p, q, dt);
    AlongStep(q.x, p.x, r.x, q.vx, r.vx, Speed(h, q), Speed(h, r), dt, way, all);
  }

  lemma AlongY(h: Length, r: Robot, p: Robot, q: Robot, dt: real, way: real, all: real)
    requires dt >= 0.0 && p.stopping && q == Advance(h, p, dt) && TickMeasured(h, p, q) && all == way + Gap(h, p, q)
    requires q.vy * Speed(h, r) == r.vy * Speed(h, q) && (p.y - r.y) * Speed(h, r) == r.vy * way
    ensures (q.y - r.y) * Speed(h, r) == r.vy * all
  {
    StopMoves(h, p, q, dt);
    GapIsSpeed(h, p, q, dt);
    AlongStep(q.y, p.y, r.y, q.vy, r.vy, Speed(h, q), Speed(h, r), dt, way, all);
  }

  /** A stopping robot goes straight on: its displacement is its path, along its first velocity. */
  lemma {:induction false} StopIsStraight(h: Length, r: Robot, dts: seq<real>, q: Robot, path: real)
    requires Times(dts) && AllMeasured(h, r, dts) && r.stopping && q == After(h, r, dts) && path == Path(h, r, dts)
    ensures (q.x - r.x) * Speed(h, r) == r.vx * path
    ensures (q.y - r.y) * Speed(h, r) == r.vy * path
    decreases |dts|
  {
    if dts == [] {
      NoProduct(q.x - r.x, Speed(h, r), r.vx, path);
      NoProduct(q.y - r.y, Speed(h, r), r.vy, path);
    } else {
      var before, dt := dts[..|dts| - 1], dts[|dts| - 1];
      var p, way := After(h, r, before), Path(h, r, before);
      StopIsStraight(h, r, before, p, way);
      StopSpeed(h, r, before, p);
      StopKeepsDirection(h, r, dts, q);
      AlongX(h, r, p, q, dt, way, path);
      AlongY(h, r, p, q, dt, way, path);
    }
  }

  // ---- Staying at rest ----

  lemma RestStep(h: Length, r: Robot, dt: real)
    requires dt >= 0.0 && AtRest(r) && r.target.None?
    ensures Advance(h, r, dt) == r.(battery := Advance(h, r, dt).battery)
  {
  }

  /** From the tick that brings a stopping robot to rest on, its pose is fixed. */
  lemma {:induction false} RestIsKept(h: Length, r: Robot, dts: seq<real>, k: nat)
    requires Times(dts) && k <= |dts|
    requires AtRest(After(h, r, dts[..k])) && After(h, r, dts[..k]).target.None?
    ensures After(h, r, dts) == After(h, r, dts[..k]).(battery := After(h, r, dts).battery)
  {
    if k < |dts| {
      var before := dts[..|dts| - 1];
      assert before[..k] == dts[..k];
      RestIsKept(h, r, before, k);
      RestStep(h, After(h, r, before), dts[|dts| - 1]);
    } else {
      assert dts[..k] == dts;
    }
  }

  // ---- The battery ----

  /** Whatever the robot does, its battery drains by the elapsed time, down to empty. */
  lemma {:induction false} BatteryDrains(h: Length, r: Robot, dts: seq<real>)
    requires Times(dts) && r.battery >= 0.0
    ensures After(h, r, dts).battery == Max(0.0, r.battery - 0.01 * Elapsed(dts))
  {
    if dts != [] {
      BatteryDrains(h, r, dts[..|dts| - 1]);
      ElapsedIsPositive(dts[..|dts| - 1]);
    }
  }

  // ---- Driving to a target ----

  /** The distance a robot has left to its target. */
  function Left(h: Length, r: Robot): real {
    if r.target.None? then 0.0 else h(r.target.value.0 - r.x, r.target.value.1 - r.y)
  }

  predicate Driving(r: Robot) {
    !r.stopping && r.target.Some?
  }

  /** At the target of `r`, at rest, with nothing left to do. */
  predicate Arrived(r: Robot, q: Robot) {
    r.target.Some? && q.x == r.target.value.0 && q.y == r.target.value.1 && AtRest(q) && q.target.None? && !q.stopping
  }

  lemma DriveStep(dx: real, v: real, d: real, dt: real)
    requires d > dt >= 0.0 && v == SPEED * dx / d
    ensures dx - v * dt == dx * ((d - dt) / d)
  {
  }

  lemma UnitLength(h: Length, dx: real, dy: real, d: real, vx: real, vy: real)
    requires ExactAt(h, dx, dy) && ExactAt(h, vx, vy) && d == h(dx, dy) && d > 0.0 && vx == SPEED * dx / d
      && vy == SPEED * dy / d
    ensures h(vx, vy) == SPEED
  {
    var c := 1.0 / d;
    assert dx * c == vx && dy * c == vy;
    ScaledLength(h, dx, dy, c, vx, vy);
    assert d * c == 1.0;
  }

  lemma Cruises(h: Length, r: Robot, q: Robot, dx: real, dy: real, d: real)
    requires Measured(h, r) && Measured(h, q) && VectorOf(r, dx, dy) && d == h(dx, dy) && d > 0.0
    requires q.vx == SPEED * dx / d && q.vy == SPEED * dy / d
    ensures Speed(h, q) == SPEED
  {
    UnitLength(h, dx, dy, d, q.vx, q.vy);
  }

  lemma Closer(
    h: Length, r: Robot, q: Robot, dx: real, dy: real, ex: real, ey: real, d: real, dt: real, e: real)
    requires Measured(h, r) && Measured(h, q) && VectorOf(r, dx, dy) && VectorOf(q, ex, ey)
    requires d == h(dx, dy) && e == h(ex, ey) && d > dt >= 0.0
    requires ex == dx * ((d - dt) / d) && ey == dy * ((d - dt) / d)
    ensures e == d - dt && ex * d == dx * e && ey * d == dy * e
  {
    Shortened(h, dx, dy, d, dt, ex, ey, e);
  }

  /** The vector that is left points the same way and is shorter by the way of one tick. */
  lemma LeftStep(h: Length, r: Robot, q: Robot, dt: real, dx: real, dy: real, ex: real, ey: real, d: real, e: real)
    requires dt >= 0.0 && Driving(r) && q == Advance(h, r, dt) && Measured(h, r) && Measured(h, q)
    requires dx == r.target.value.0 - r.x && dy == r.target.value.1 - r.y && d == h(dx, dy) && d > dt
    requires ex == r.target.value.0 - q.x && ey == r.target.value.1 - q.y && e == h(ex, ey)
    ensures Driving(q) && q.target == r.target && Speed(h, q) == SPEED
    ensures e == d - dt && ex * d == dx * e && ey * d == dy * e
  {
    Cruises(h, r, q, dx, dy, d);
    DriveStep(dx, q.vx, d, dt);
    DriveStep(dy, q.vy, d, dt);
    Closer(h, r, q, dx, dy, ex, ey, d, dt, e);
  }

  lemma ArriveStep(h: Length, r: Robot, dt: real)
    requires dt >= 0.0 && Driving(r) && Left(h, r) <= SPEED * dt
    ensures Arrived(r, Advance(h, r, dt))
  {
  }

  /** On the way from `r` to its target: on the segment between them, `gone` from the start. */
  ghost predicate OnTheWay(h: Length, r: Robot, q: Robot, gone: real) {
    && Driving(r)
    && Driving(q)
    && q.target == r.target
    && Left(h, q) == Left(h, r) - SPEED * gone
    && (r.target.value.0 - q.x) * Left(h, r) == (r.target.value.0 - r.x) * Left(h, q)
    && (r.target.value.1 - q.y) * Left(h, r) == (r.target.value.1 - r.y) * Left(h, q)
  }

  lemma OnTheWayStep(h: Length, r: Robot, p: Robot, q: Robot, gone: real, dt: real)
    requires dt >= 0.0 && OnTheWay(h, r, p, gone) && q == Advance(h, p, dt) && Left(h, p) > SPEED * dt
    requires Measured(h, p) && Measured(h, q)
    ensures OnTheWay(h, r, q, gone + dt) && Speed(h, q) == SPEED
  {
    var tx, ty := r.target.value.0, r.target.value.1;
    LeftStep(h, p, q, dt, tx - p.x, ty - p.y, tx - q.x, ty - q.y, Left(h, p), h(tx - q.x, ty - q.y));
    TwoSteps(tx - q.x, tx - p.x, tx - r.x, Left(h, q), Left(h, p), Left(h, r));
    TwoSteps(ty - q.y, ty - p.y, ty - r.y, Left(h, q), Left(h, p), Left(h, r));
  }

  lemma NotStarted(h: Length, r: Robot)
    requires Driving(r)
    ensures OnTheWay(h, r, r, 0.0)
  {
  }

  /**
   A robot driven to a target arrives at the first tick by which its cruise speed covers the
   distance, and not before; until then it is on the segment, as far along as the elapsed time
   says; from then on it stays.
   */
  lemma {:induction false} DriveRun(h: Length, r: Robot, dts: seq<real>, q: Robot)
    requires Times(dts) && AllMeasured(h, r, dts) && Driving(r) && q == After(h, r, dts)
    ensures if dts == [] || SPEED * Elapsed(dts) < Left(h, r) then OnTheWay(h, r, q, Elapsed(dts)) else Arrived(r, q)
    decreases |dts|
  {
    if dts == [] {
      NotStarted(h, r);
    } else {
      var before, dt := dts[..|dts| - 1], dts[|dts| - 1];
      var p := After(h, r, before);
      DriveRun(h, r, before, p);
      if Arrived(r, p) {
        RestStep(h, p, dt);
      } else if Left(h, p) <= SPEED * dt {
        ArriveStep(h, p, dt);
      } else {
        OnTheWayStep(h, r, p, q, Elapsed(before), dt);
      }
    }
  }

  // ---- Every run ----

  datatype Event = Move(x: real, y: real) | Stop | Charge(percent: real) | Tick(dt: real)

  /** Time does not run backwards and a charge does not drain. */
  predicate Sensible(e: Event) {
    match e
    case Tick(dt) => dt >= 0.0
    case Charge(percent) => percent >= 0.0
    case _ => true
  }

  ghost function Step(h: Length, r: Robot, e: Event): Robot
    requires Sensible(e)
  {
    match e
    case Move(x, y) => Moved(r, x, y)
    case Stop => Halted(r)
    case Charge(percent) => Charged(r, percent)
    case Tick(dt) => Advance(h, r, dt)
  }

  ghost predicate AllSensible(events: seq<Event>) {
    forall i :: 0 <= i < |events| ==> Sensible(events[i])
  }

  ghost function Run(h: Length, r: Robot, events: seq<Event>): Robot
    requires AllSensible(events)
  {
    if events == [] then r
    else Step(h, Run(h, r, events[..|events| - 1]), events[|events| - 1])
  }

  /** The length is exact wherever the run measures one. */
  ghost predicate RunMeasured(h: Length, r: Robot, events: seq<Event>)
    requires AllSensible(events)
  {
    Measured(h, Run(h, r, events)) && (events != [] ==> RunMeasured(h, r, events[..|events| - 1]))
  }

  ghost predicate Sound(h: Length, r: Robot) {
    && (!r.stopping && r.target.None? ==> AtRest(r))
    && Speed(h, r) <= SPEED
    && 0.0 <= r.battery <= 100.0
  }

  lemma TickKeepsSound(h: Length, r: Robot, q: Robot, dt: real)
    requires dt >= 0.0 && Sound(h, r) && q == Advance(h, r, dt) && Measured(h, r) && Measured(h, q)
    ensures Sound(h, q)
  {
    if r.stopping {
      StopStep(h, r, q, dt);
      SpeedIsLength(h, r);
    } else if r.target.None? {
      RestStep(h, r, dt);
    } else if Left(h, r) <= SPEED * dt {
      ArriveStep(h, r, dt);
      SpeedIsLength(h, q);
    } else {
      NotStarted(h, r);
      OnTheWayStep(h, r, r, q, 0.0, dt);
    }
  }

  /** Whatever commands and ticks a spawned robot sees: an idle one is at rest and none exceeds the cruise speed. */
  lemma {:induction false} RunIsSound(h: Length, x: real, y: real, events: seq<Event>)
    requires AllSensible(events) && RunMeasured(h, Spawned(x, y), events)
    ensures Sound(h, Run(h, Spawned(x, y), events))
  {
    if events == [] {
      SpeedIsLength(h, Spawned(x, y));
    } else {
      var before, e := events[..|events| - 1], events[|events| - 1];
      RunIsSound(h, x, y, before);
      if e.Tick? {
        TickKeepsSound(h, Run(h, Spawned(x, y), before), Run(h, Spawned(x, y), events), e.dt);
      }
    }
  }

  lemma WayFromCruise(way: real, s: real, v: real)
    requires 0.0 <= s <= SPEED && 2.0 * DECEL * way <= Squared(s) - Squared(v)
    ensures 2.0 * DECEL * way <= SPEED
  {
    Square(v);
    assert Squared(SPEED) == SPEED;
    if s < SPEED {
      LongerSquare(s, SPEED);
    }
  }

  lemma {:induction false} StopForgetsTheTarget(h: Length, r: Robot, dts: seq<real>)
    requires Times(dts) && r.target.None?
    ensures After(h, r, dts).target.None?
  {
    if dts != [] {
      StopForgetsTheTarget(h, r, dts[..|dts| - 1]);
    }
  }

  /**
   A stop commanded at any point of any run: the robot goes at most an eighth of a metre more, is
   at rest once braking from the speed it had has taken its time and not before, which is a quarter
   of a second at most, however the time is cut into ticks, and has no target. The command alone
   changes neither where it is nor how it moves.
   */
  lemma StopFromAnyRun(h: Length, x: real, y: real, events: seq<Event>, dts: seq<real>, from: Robot, r: Robot)
    requires AllSensible(events) && RunMeasured(h, Spawned(x, y), events) && from == Run(h, Spawned(x, y), events)
    requires r == Step(h, from, Stop) && Times(dts) && AllMeasured(h, r, dts)
    ensures 2.0 * DECEL * Path(h, r, dts) <= SPEED
    ensures AtRest(After(h, r, dts)) <==> DECEL * Elapsed(dts) >= Speed(h, from)
    ensures DECEL * Elapsed(dts) >= SPEED ==> AtRest(After(h, r, dts))
    ensures After(h, r, dts).target.None?
    ensures r.x == from.x && r.y == from.y && r.vx == from.vx && r.vy == from.vy
  {
    StopForgetsTheTarget(h, r, dts);
    RunIsSound(h, x, y, events);
    SpeedIsLength(h, r);
    RestIff(h, r, dts);
    StopDistance(h, r, dts, After(h, r, dts));
    WayFromCruise(Path(h, r, dts), Speed(h, r), Speed(h, After(h, r, dts)));
  }

  /** On the segment from `from` to (x, y), of length d, `gone` from the start, with that target. */
  ghost predicate OnSegment(h: Length, from: Robot, x: real, y: real, d: real, q: Robot, gone: real) {
    && !q.stopping && q.target == Some((x, y)) && h(x - q.x, y - q.y) == d - gone
    && (q.x - from.x) * d == (x - from.x) * gone && (q.y - from.y) * d == (y - from.y) * gone
  }

  lemma GoneFromLeft(x: real, x0: real, x1: real, d: real, gone: real)
    requires (x - x1) * d == (x - x0) * (d - gone)
    ensures (x1 - x0) * d == (x - x0) * gone
  {
  }

  lemma OnTheWayIsOnSegment(h: Length, from: Robot, r: Robot, q: Robot, gone: real)
    requires OnTheWay(h, r, q, gone) && from.x == r.x && from.y == r.y
    ensures OnSegment(h, from, r.target.value.0, r.target.value.1, Left(h, r), q, SPEED * gone)
  {
    var tx, ty := r.target.value.0, r.target.value.1;
    SameProduct(tx - r.x, Left(h, q), tx - from.x, Left(h, r) - SPEED * gone);
    SameProduct(ty - r.y, Left(h, q), ty - from.y, Left(h, r) - SPEED * gone);
    GoneFromLeft(tx, from.x, q.x, Left(h, r), SPEED * gone);
    GoneFromLeft(ty, from.y, q.y, Left(h, r), SPEED * gone);
  }

  lemma CruisesOnTheWay(h: Length, r: Robot, dts: seq<real>, q: Robot)
    requires Times(dts) && AllMeasured(h, r, dts) && Driving(r) && q == After(h, r, dts)
    requires dts != [] && SPEED * Elapsed(dts) < Left(h, r)
    ensures Speed(h, q) == SPEED
  {
    var before, dt := dts[..|dts| - 1], dts[|dts| - 1];
    DriveRun(h, r, before, After(h, r, before));
    OnTheWayStep(h, r, After(h, r, before), q, Elapsed(before), dt);
  }

  /**
   A move commanded at any point of any run, whatever the robot was doing: it cruises along the
   segment to (tx, ty), as far as the elapsed time takes it, however the time is cut into ticks,
   and is at (tx, ty), at rest, with no target left, once that covers the distance.
   */
  lemma MoveFromAnyRun(
    h: Length, r0: Robot, events: seq<Event>, tx: real, ty: real, dts: seq<real>, from: Robot, r: Robot, q: Robot)
    requires AllSensible(events) && from == Run(h, r0, events) && r == Step(h, from, Move(tx, ty))
    requires Times(dts) && AllMeasured(h, r, dts) && q == After(h, r, dts)
    ensures var d := h(tx - from.x, ty - from.y);
            if dts == [] || SPEED * Elapsed(dts) < d then
              && OnSegment(h, from, tx, ty, d, q, SPEED * Elapsed(dts))
              && (dts != [] ==> Speed(h, q) == SPEED)
            else
              q.x == tx && q.y == ty && AtRest(q) && q.target.None? && !q.stopping
  {
    DriveRun(h, r, dts, q);
    if dts == [] || SPEED * Elapsed(dts) < Left(h, r) {
      OnTheWayIsOnSegment(h, from, r, q, Elapsed(dts));
      if dts != [] {
        CruisesOnTheWay(h, r, dts, q);
      }
    }
  }

  // ---- Charging and waiting ----

  lemma SteerIgnoresBattery(h: Length, r: Robot, battery: real, dt: real)
    requires dt >= 0.0
    ensures Steer(h, r.(battery := battery), dt) == Steer(h, r, dt).(battery := battery)
  {
  }

  lemma AdvanceIgnoresBattery(h: Length, r: Robot, battery: real, dt: real, q: Robot)
    requires dt >= 0.0 && q == Advance(h, r.(battery := battery), dt)
    ensures q == Advance(h, r, dt).(battery := q.battery)
  {
    SteerIgnoresBattery(h, r, battery, dt);
  }

  /** What a robot does does not depend on its battery. */
  lemma {:induction false} BatteryIsApart(h: Length, r: Robot, battery: real, dts: seq<real>, q: Robot)
    requires Times(dts) && q == After(h, r.(battery := battery), dts)
    ensures q == After(h, r, dts).(battery := q.battery)
    decreases |dts|
  {
    if dts != [] {
      var before := dts[..|dts| - 1];
      var p := After(h, r.(battery := battery), before);
      BatteryIsApart(h, r, battery, before, p);
      AdvanceIgnoresBattery(h, After(h, r, before), p.battery, dts[|dts| - 1], q);
    }
  }

  /** A charge at any point of any run: up to full, then drained by the time; the motion is as without it. */
  lemma ChargeFromAnyRun(
    h: Length, x: real, y: real, events: seq<Event>, percent: real, dts: seq<real>, from: Robot, r: Robot, q: Robot)
    requires AllSensible(events) && RunMeasured(h, Spawned(x, y), events) && from == Run(h, Spawned(x, y), events)
    requires percent >= 0.0 && r == Step(h, from, Charge(percent)) && Times(dts) && q == After(h, r, dts)
    ensures from.battery <= r.battery <= 100.0
    ensures r.battery == 100.0 || r.battery == from.battery + percent
    ensures q == After(h, from, dts).(battery := Max(0.0, r.battery - 0.01 * Elapsed(dts)))
  {
    RunIsSound(h, x, y, events);
    BatteryDrains(h, r, dts);
    BatteryIsApart(h, from, r.battery, dts, q);
  }

  /** A move or a stop costs nothing: the battery drains by the time alone. */
  lemma CommandsCostNothing(h: Length, x: real, y: real, events: seq<Event>, e: Event, dts: seq<real>, from: Robot)
    requires AllSensible(events) && RunMeasured(h, Spawned(x, y), events) && from == Run(h, Spawned(x, y), events)
    requires (e.Move? || e.Stop?) && Times(dts)
    ensures After(h, Step(h, from, e), dts).battery == Max(0.0, from.battery - 0.01 * Elapsed(dts))
  {
    RunIsSound(h, x, y, events);
    BatteryDrains(h, Step(h, from, e), dts);
  }

  /** A robot that is spawned and not commanded stays where it is and drains from full. */
  lemma SpawnedStays(h: Length, x: real, y: real, dts: seq<real>)
    requires Times(dts)
    ensures var q := After(h, Spawned(x, y), dts);
            && q.x == x && q.y == y && AtRest(q) && q.target.None? && !q.stopping
            && q.battery == Max(0.0, 100.0 - 0.01 * Elapsed(dts))
  {
    RestIsKept(h, Spawned(x, y), dts, 0);
    BatteryDrains(h, Spawned(x, y), dts);
  }

  // ---- Runs along an axis ----

  /** The length of a vector along the first axis, which is exact there. */
  function AxisLength(x: real, y: real): real {
    if x < 0.0 then -x else x
  }

  predicate OnAxis(r: Robot) {
    r.y == 0.0 && r.vy == 0.0 && (r.target.Some? ==> r.target.value.1 == 0.0)
  }

  predicate KeepsAxis(e: Event) {
    e.Move? ==> e.y == 0.0
  }

  lemma AxisIsExact(x: real, y: real)
    requires y == 0.0
    ensures ExactAt(AxisLength, x, y)
  {
    NegatedProduct(x, x);
    assert Squared(0.0) == 0.0;
  }

  lemma AxisStep(r: Robot, dt: real)
    requires OnAxis(r) && dt >= 0.0
    ensures OnAxis(Advance(AxisLength, r, dt))
  {
  }

  lemma AxisMeasured(r: Robot)
    requires OnAxis(r)
    ensures Measured(AxisLength, r)
  {
    AxisIsExact(r.vx, r.vy);
    if r.target.Some? {
      AxisIsExact(r.target.value.0 - r.x, r.target.value.1 - r.y);
    }
  }

  /** Every run along the axis is measured exactly, so what is proved above holds of it outright. */
  lemma {:induction false} AxisRunIsMeasured(x: real, events: seq<Event>)
    requires AllSensible(events) && forall i :: 0 <= i < |events| ==> KeepsAxis(events[i])
    ensures RunMeasured(AxisLength, Spawned(x, 0.0), events) && OnAxis(Run(AxisLength, Spawned(x, 0.0), events))
  {
    if events != [] {
      var before, e := events[..|events| - 1], events[|events| - 1];
      AxisRunIsMeasured(x, before);
      if e.Tick? {
        AxisStep(Run(AxisLength, Spawned(x, 0.0), before), e.dt);
      }
    }
    AxisMeasured(Run(AxisLength, Spawned(x, 0.0), events));
  }

  lemma {:induction false} AxisTicksAreMeasured(r: Robot, dts: seq<real>)
    requires Times(dts) && OnAxis(r)
    ensures AllMeasured(AxisLength, r, dts) && OnAxis(After(AxisLength, r, dts))
  {
    AxisMeasured(r);
    if dts != [] {
      var before := dts[..|dts| - 1];
      var p, q := After(AxisLength, r, before), After(AxisLength, r, dts);
      AxisTicksAreMeasured(r, before);
      AxisStep(p, dts[|dts| - 1]);
      AxisMeasured(q);
      AxisIsExact(q.x - p.x, q.y - p.y);
    }
  }

  /** A stop on the axis, with nothing asked of any length. */
  lemma StopOnTheAxis(x: real, events: seq<Event>, dts: seq<real>, from: Robot, r: Robot, q: Robot)
    requires AllSensible(events) && Times(dts) && forall i :: 0 <= i < |events| ==> KeepsAxis(events[i])
    requires from == Run(AxisLength, Spawned(x, 0.0), events)
    requires r == Step(AxisLength, from, Stop) && q == After(AxisLength, r, dts)
    ensures 2.0 * DECEL * Path(AxisLength, r, dts) <= SPEED
    ensures AtRest(q) <==> DECEL * Elapsed(dts) >= AxisLength(from.vx, from.vy)
    ensures DECEL * Elapsed(dts) >= SPEED ==> AtRest(q)
  {
    AxisRunIsMeasured(x, events);
    AxisTicksAreMeasured(r, dts);
    StopFromAnyRun(AxisLength, x, 0.0, events, dts, from, r);
  }

  /** Where a move to tx leaves a robot that it took `gone` of the way from x0, or all of it. */
  ghost predicate AxisMoved(x0: real, tx: real, gone: real, q: Robot, started: bool) {
    if !started || gone < AxisLength(tx - x0, 0.0) then
      && q.x == (if tx < x0 then x0 - gone else x0 + gone)
      && q.y == 0.0 && !q.stopping && q.target == Some((tx, 0.0))
    else q.x == tx && q.y == 0.0 && AtRest(q) && q.target.None? && !q.stopping
  }

  /** And a move. */
  lemma MoveOnTheAxis(x: real, events: seq<Event>, tx: real, dts: seq<real>, from: Robot, r: Robot, q: Robot)
    requires AllSensible(events) && Times(dts) && forall i :: 0 <= i < |events| ==> KeepsAxis(events[i])
    requires from == Run(AxisLength, Spawned(x, 0.0), events)
    requires r == Step(AxisLength, from, Move(tx, 0.0)) && q == After(AxisLength, r, dts)
    ensures AxisMoved(from.x, tx, SPEED * Elapsed(dts), q, dts != [])
  {
    AxisRunIsMeasured(x, events);
    AxisTicksAreMeasured(r, dts);
    MoveFromAnyRun(AxisLength, Spawned(x, 0.0), events, tx, 0.0, dts, from, r, q);
    ElapsedIsPositive(dts);
    if dts == [] || SPEED * Elapsed(dts) < AxisLength(tx - from.x, 0.0 - from.y) {
      AlongTheAxis(from, tx, q, AxisLength(tx - from.x, 0.0 - from.y), SPEED * Elapsed(dts));
    }
  }

  lemma AlongTheAxis(from: Robot, x: real, q: Robot, d: real, gone: real)
    requires d == AxisLength(x - from.x, 0.0 - from.y) && gone >= 0.0
    requires OnSegment(AxisLength, from, x, 0.0, d, q, gone)
    ensures q.x == if x < from.x then from.x - gone else from.x + gone
  {
    if x < from.x {
      Backwards(q.x - from.x, x - from.x, d, gone);
    } else if x > from.x {
      Forwards(q.x - from.x, x - from.x, d, gone);
    }
  }

  lemma Forwards(a: real, w: real, d: real, gone: real)
    requires w == d > 0.0 && a * d == w * gone
    ensures a == gone
  {
    Scaled(w, d, gone);
    SameFactor(a, gone, d);
  }

  lemma Backwards(a: real, w: real, d: real, gone: real)
    requires -w == d > 0.0 && a * d == w * gone
    ensures a == -gone
  {
    NegatedProduct(w, gone);
    Scaled(-w, d, -gone);
    SameFactor(a, -gone, d);
  }

  lemma SameFactor(a: real, b: real, d: real)
    requires d > 0.0 && a * d == b * d
    ensures a == b
  {
  }
}
