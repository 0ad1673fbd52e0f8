/**
 The simulated explore-floor action and the map it saves (adapters/simulation/floor_mapping.py).

 An action is a chain of segments; each observes one more room of its bound. Saving the artifact and
 the wording of messages are left out. Boxes are given in cells of the grid.
 */
module FloorMapping {
  const EXPLORE_SECONDS := 4.0
  const RETURN_SECONDS := 1.0

  datatype Phase = Start | Exploring | Returning | Done

  datatype Report =
    | Running(progress: nat)
    | Succeeded(revealed: nat, frontierLeft: bool)
    | Failed

  /** One segment. `named`: its action id gives a path for the artifact. */
  datatype Segment = Segment(bound: string, resume: bool, named: bool, phase: Phase, elapsed: real, frontierLeft: bool)

  /** How many rooms have been observed of each bound that was explored. */
  type Graphs = map<string, nat>

  datatype Outcome = Outcome(segment: Segment, graphs: Graphs, reports: seq<Report>)

  predicate Valid(s: Segment, graphs: Graphs) {
    s.phase == Exploring || s.phase == Returning ==> s.bound in graphs
  }

  function Saved(s: Segment, graphs: Graphs, rooms: nat): Outcome
    requires s.bound in graphs
  {
    var left := s.frontierLeft && graphs[s.bound] < rooms;
    Outcome(s.(phase := Done, frontierLeft := left), graphs, [Succeeded(graphs[s.bound], left)])
  }

  function Started(s: Segment, graphs: Graphs, rooms: nat): Outcome {
    if !s.named || (s.resume && s.bound !in graphs) then Outcome(s.(phase := Done), graphs, [Failed])
    else
      var g := if s.resume then graphs else graphs[s.bound := 0];
      if g[s.bound] >= rooms then Saved(s.(frontierLeft := false), g, rooms)
      else Outcome(s.(phase := Exploring), g, [Running(5)])
  }

  function Ticked(s: Segment, graphs: Graphs, rooms: nat, dt: real): (o: Outcome)
    requires Valid(s, graphs)
    ensures Valid(o.segment, o.graphs)
  {
    match s.phase
    case Start => Started(s, graphs, rooms)
    case Exploring =>
      if s.elapsed + dt >= EXPLORE_SECONDS then
        Outcome(s.(phase := Returning, elapsed := 0.0), graphs[s.bound := graphs[s.bound] + 1], [Running(80)])
      else Outcome(s.(elapsed := s.elapsed + dt), graphs, [])
    case Returning =>
      var t := s.(elapsed := s.elapsed + dt);
      if t.elapsed >= RETURN_SECONDS then Saved(t, graphs, rooms) else Outcome(t, graphs, [])
    case Done => Outcome(s, graphs, [])
  }

  /** The graphs are shared by the segments of an adapter. */
  class ExploreGraphs {
    var revealed: Graphs
    constructor () ensures revealed == map[] { revealed := map[]; }
  }

  class ExploreJob {
    const graphs: ExploreGraphs
    const rooms: nat
    var segment: Segment

    constructor (graphs: ExploreGraphs, rooms: nat, bound: string, resume: bool, named: bool)
      ensures this.graphs == graphs && this.rooms == rooms
      ensures segment == Segment(bound, resume, named, Start, 0.0, true)
    {
      this.graphs, this.rooms := graphs, rooms;
      segment := Segment(bound, resume, named, Start, 0.0, true);
    }

    method Save() returns (report: Report)
      requires segment.bound in graphs.revealed
      modifies this
      ensures Outcome(segment, graphs.revealed, [report]) == Saved(old(segment), graphs.revealed, rooms)
    {
      segment := segment.(phase := Done);
      if graphs.revealed[segment.bound] >= rooms {
        segment := segment.(frontierLeft := false);
      }
      return Succeeded(graphs.revealed[segment.bound], segment.frontierLeft);
    }

    method Tick(dt: real) returns (out: seq<Report>)
      requires Valid(segment, graphs.revealed)
      modifies this, graphs
      ensures Outcome(segment, graphs.revealed, out) == Ticked(old(segment), old(graphs.revealed), rooms, dt)
    {
      out := [];
      match segment.phase {
        case Start =>
          if !segment.named {
            segment := segment.(phase := Done);
            return [Failed];
          }
          if segment.resume && segment.bound !in graphs.revealed {
            segment := segment.(phase := Done);
            return [Failed];
          }
          if !segment.resume {
            graphs.revealed := graphs.revealed[segment.bound := 0];
          }
          if graphs.revealed[segment.bound] < rooms {
            segment := segment.(phase := Exploring);
            return [Running(5)];
          }
          segment := segment.(frontierLeft := false);
        case Exploring =>
          segment := segment.(elapsed := segment.elapsed + dt);
          if segment.elapsed >= EXPLORE_SECONDS {
            graphs.revealed := graphs.revealed[segment.bound := graphs.revealed[segment.bound] + 1];
            segment := segment.(phase := Returning, elapsed := 0.0);
            return [Running(80)];
          }
          return;
        case Returning =>
          segment := segment.(elapsed := segment.elapsed + dt);
          if segment.elapsed < RETURN_SECONDS {
            return;
          }
        case Done =>
          return;
      }
      var report := Save();
      return [report];
    }
  }

  // ---- A segment's reports ----

  /** A segment that ticks alone on its bound. */
  function Run(s: Segment, graphs: Graphs, rooms: nat, dts: seq<real>): (o: Outcome)
    requires Valid(s, graphs)
    ensures Valid(o.segment, o.graphs)
  {
    if dts == [] then Outcome(s, graphs, [])
    else
      var before := Run(s, graphs, rooms, dts[..|dts| - 1]);
      var last := Ticked(before.segment, before.graphs, rooms, dts[|dts| - 1]);
      Outcome(last.segment, last.graphs, before.reports + last.reports)
  }

  function NewSegment(bound: string, resume: bool, named: bool): Segment {
    Segment(bound, resume, named, Start, 0.0, true)
  }

  predicate CanStart(s: Segment, graphs: Graphs) {
    s.named && (s.resume ==> s.bound in graphs)
  }

  /** The rooms a segment starts from. */
  function StartsFrom(s: Segment, graphs: Graphs): nat {
    if s.resume && s.bound in graphs then graphs[s.bound] else 0
  }

  /** What a segment has done when it has come to a phase; everything else about the graphs is as it was. */
  ghost predicate Explained(s: Segment, graphs: Graphs, rooms: nat, o: Outcome) {
    var r := StartsFrom(s, graphs);
    var t := o.segment;
    && t.bound == s.bound
    && match t.phase
       case Start => t == s && o.graphs == graphs && o.reports == []
       case Exploring =>
         CanStart(s, graphs) && r < rooms && t.frontierLeft && o.graphs == graphs[s.bound := r]
           && o.reports == [Running(5)]
       case Returning =>
         CanStart(s, graphs) && r < rooms && t.frontierLeft && o.graphs == graphs[s.bound := r + 1]
         && o.reports == [Running(5), Running(80)]
       case Done =>
         if !CanStart(s, graphs) then o.graphs == graphs && o.reports == [Failed]
         else if r < rooms then
           o.graphs == graphs[s.bound := r + 1] && t.frontierLeft == (r + 1 < rooms)
           && o.reports == [Running(5), Running(80), Succeeded(r + 1, r + 1 < rooms)]
         else o.graphs == graphs[s.bound := r] && !t.frontierLeft && o.reports == [Succeeded(r, false)]
  }

  /**
   However a segment is ticked: at most three reports, 5 then 80 then the end, at most one of them
   terminal and that one last; one room more is observed of its bound, once, and no other bound is
   touched; with no frontier left it ends at once.
   */
  lemma {:induction false} SegmentReports(bound: string, resume: bool, named: bool, graphs: Graphs, rooms: nat,
      dts: seq<real>)
    ensures var s := NewSegment(bound, resume, named); Explained(s, graphs, rooms, Run(s, graphs, rooms, dts))
  {
    if dts != [] {
      SegmentReports(bound, resume, named, graphs, rooms, dts[..|dts| - 1]);
      var s := NewSegment(bound, resume, named);
      ExplainedStep(s, graphs, rooms, Run(s, graphs, rooms, dts[..|dts| - 1]), dts[|dts| - 1]);
    }
  }

  lemma ExplainedStep(s: Segment, graphs: Graphs, rooms: nat, before: Outcome, dt: real)
    requires s == NewSegment(s.bound, s.resume, s.named)
    requires Valid(before.segment, before.graphs) && Explained(s, graphs, rooms, before)
    ensures var last := Ticked(before.segment, before.graphs, rooms, dt);
      Explained(s, graphs, rooms, Outcome(last.segment, last.graphs, before.reports + last.reports))
  {
    var last := Ticked(before.segment, before.graphs, rooms, dt);
    match before.segment.phase
    case Start => assert before.reports + last.reports == last.reports;
    case Exploring =>
      assert before.graphs[s.bound := StartsFrom(s, graphs) + 1] == graphs[s.bound := StartsFrom(s, graphs) + 1];
    case Returning =>
    case Done => assert before.reports + [] == before.reports;
  }

  lemma StartsAtOnce(s: Segment, graphs: Graphs, rooms: nat, dt: real)
    requires s == NewSegment(s.bound, s.resume, s.named)
    ensures Run(s, graphs, rooms, [dt]) == Started(s, graphs, rooms)
  {
  }

  /** One tick of any length ends a segment exactly where it cannot start or has nothing left to observe. */
  lemma EndsAtOnceIff(s: Segment, graphs: Graphs, rooms: nat, dt: real)
    requires s == NewSegment(s.bound, s.resume, s.named)
    ensures Run(s, graphs, rooms, [dt]).segment.phase == Done
      <==> !CanStart(s, graphs) || StartsFrom(s, graphs) >= rooms
  {
    StartsAtOnce(s, graphs, rooms, dt);
  }

  // ---- A chain of segments ----

  function ChainSegment(bound: string, k: nat): Segment {
    NewSegment(bound, k > 0, true)
  }

  /** The graphs after the first k segments of a chain: the first fresh, the others resumed, each with its own ticks. */
  function ChainGraphs(bound: string, graphs: Graphs, rooms: nat, ticks: seq<seq<real>>): Graphs {
    if ticks == [] then graphs
    else
      var n := |ticks| - 1;
      Run(ChainSegment(bound, n), ChainGraphs(bound, graphs, rooms, ticks[..n]), rooms, ticks[n]).graphs
  }

  /** Every segment of the chain was ticked to its end. */
  ghost predicate AllEnd(bound: string, graphs: Graphs, rooms: nat, ticks: seq<seq<real>>) {
    forall n :: 0 <= n < |ticks| ==>
      Run(ChainSegment(bound, n), ChainGraphs(bound, graphs, rooms, ticks[..n]), rooms, ticks[n]).segment.phase == Done
  }

  function Least(a: nat, b: nat): nat {
    if a < b then a else b
  }

  lemma ShorterChainEnds(bound: string, graphs: Graphs, rooms: nat, ticks: seq<seq<real>>)
    requires ticks != [] && AllEnd(bound, graphs, rooms, ticks)
    ensures AllEnd(bound, graphs, rooms, ticks[..|ticks| - 1])
  {
    var shorter := ticks[..|ticks| - 1];
    forall i | 0 <= i < |shorter|
      ensures shorter[..i] == ticks[..i] && shorter[i] == ticks[i]
    {
    }
  }

  lemma EndedSegment(bound: string, k: nat, graphs: Graphs, rooms: nat, dts: seq<real>)
    requires k > 0 ==> bound in graphs && graphs[bound] == Least(k, rooms)
    requires Run(ChainSegment(bound, k), graphs, rooms, dts).segment.phase == Done
    ensures var after := Run(ChainSegment(bound, k), graphs, rooms, dts).graphs;
      bound in after && after[bound] == Least(k + 1, rooms)
  {
    SegmentReports(bound, k > 0, true, graphs, rooms, dts);
  }

  /** A chain observes one room a segment, up to the number of rooms, whatever was known before. */
  lemma {:induction false} ChainObservesRooms(bound: string, graphs: Graphs, rooms: nat, ticks: seq<seq<real>>)
    requires ticks != [] && AllEnd(bound, graphs, rooms, ticks)
    ensures var after := ChainGraphs(bound, graphs, rooms, ticks);
      bound in after && after[bound] == Least(|ticks|, rooms)
  {
    var n := |ticks| - 1;
    if n > 0 {
      ShorterChainEnds(bound, graphs, rooms, ticks);
      ChainObservesRooms(bound, graphs, rooms, ticks[..n]);
    }
    EndedSegment(bound, n, ChainGraphs(bound, graphs, rooms, ticks[..n]), rooms, ticks[n]);
  }

  /**
   The next segment of a chain ends at its first tick exactly once the chain has as many segments
   as the bound has rooms; it then reports every room and no frontier, and observes nothing more.
   */
  lemma ChainIsOverIff(bound: string, graphs: Graphs, rooms: nat, ticks: seq<seq<real>>, dt: real)
    requires AllEnd(bound, graphs, rooms, ticks)
    ensures var known := ChainGraphs(bound, graphs, rooms, ticks);
      var next := Run(ChainSegment(bound, |ticks|), known, rooms, [dt]);
      && (next.segment.phase == Done <==> |ticks| >= rooms)
      && (next.segment.phase == Done ==>
        next.reports == [Succeeded(rooms, false)] && (ticks != [] ==> next.graphs == known))
  {
    var known, s := ChainGraphs(bound, graphs, rooms, ticks), ChainSegment(bound, |ticks|);
    if ticks != [] {
      ChainObservesRooms(bound, graphs, rooms, ticks);
    }
    EndsAtOnceIff(s, known, rooms, dt);
    SegmentReports(bound, |ticks| > 0, true, known, rooms, [dt]);
    assert ticks != [] ==> known[bound := known[bound]] == known;
  }

  lemma RunStep(s: Segment, graphs: Graphs, rooms: nat, dts: seq<real>, dt: real)
    requires Valid(s, graphs)
    ensures var before := Run(s, graphs, rooms, dts);
      var last := Ticked(before.segment, before.graphs, rooms, dt);
      Run(s, graphs, rooms, dts + [dt]) == Outcome(last.segment, last.graphs, before.reports + last.reports)
  {
  }

  /** Three ticks, the second as long as exploring takes and the third as returning, bring any segment to its end. */
  lemma SegmentCanEnd(s: Segment, graphs: Graphs, rooms: nat, a: real, b: real, c: real)
    requires s == NewSegment(s.bound, s.resume, s.named) && b >= EXPLORE_SECONDS && c >= RETURN_SECONDS
    ensures Run(s, graphs, rooms, [a, b, c]).segment.phase == Done
  {
    StartsAtOnce(s, graphs, rooms, a);
    RunStep(s, graphs, rooms, [a], b);
    RunStep(s, graphs, rooms, [a, b], c);
    assert [a] + [b] == [a, b] && [a, b] + [c] == [a, b, c];
  }

  // ---- How long a segment takes ----

  ghost predicate Times(dts: seq<real>) {
    forall i :: 0 <= i < |dts| ==> dts[i] >= 0.0
  }

  function Total(dts: seq<real>): real {
    if dts == [] then 0.0 else Total(dts[..|dts| - 1]) + dts[|dts| - 1]
  }

  /** A segment with a room to observe. */
  ghost predicate Explores(s: Segment, graphs: Graphs, rooms: nat) {
    s == NewSegment(s.bound, s.resume, s.named) && CanStart(s, graphs) && StartsFrom(s, graphs) < rooms
  }

  lemma TotalStep(dts: seq<real>, k: nat, before: seq<real>)
    requires k < |dts| && before == dts[..|dts| - 1]
    ensures Total(dts[k..]) == Total(before[k..]) + dts[|dts| - 1]
  {
    assert dts[k..][..|dts| - 1 - k] == before[k..];
  }

  /** It explores, from its first tick on, until the ticks since take as long as exploring does. */
  lemma {:induction false} ExploresFor(s: Segment, graphs: Graphs, rooms: nat, dts: seq<real>, t: Segment)
    requires Explores(s, graphs, rooms) && Times(dts) && dts != [] && t == Run(s, graphs, rooms, dts).segment
    ensures t.phase != Start
    ensures t.phase == Exploring <==> Total(dts[1..]) < EXPLORE_SECONDS
    ensures t.phase == Exploring ==> t.elapsed == Total(dts[1..])
    decreases |dts|
  {
    if |dts| == 1 {
      assert dts == [dts[0]];
      StartsAtOnce(s, graphs, rooms, dts[0]);
    } else {
      var before := dts[..|dts| - 1];
      ExploresFor(s, graphs, rooms, before, Run(s, graphs, rooms, before).segment);
      TotalStep(dts, 1, before);
    }
  }

  /** And then returns, from tick k on that ended the exploring, until those since take as long as returning does. */
  lemma {:induction false} ReturnsFor(s: Segment, graphs: Graphs, rooms: nat, dts: seq<real>, k: nat, t: Segment)
    requires Explores(s, graphs, rooms) && Times(dts) && 2 <= k <= |dts| && t == Run(s, graphs, rooms, dts).segment
    requires Total(dts[1..k - 1]) < EXPLORE_SECONDS <= Total(dts[1..k])
    ensures if Total(dts[k..]) < RETURN_SECONDS then t.phase == Returning && t.elapsed == Total(dts[k..])
            else t.phase == Done
    decreases |dts|
  {
    var before := dts[..|dts| - 1];
    if |dts| == k {
      assert before[1..] == dts[1..k - 1] && dts[1..] == dts[1..k];
      ExploresFor(s, graphs, rooms, before, Run(s, graphs, rooms, before).segment);
      TotalStep(dts, 1, before);
    } else {
      assert before[1..k - 1] == dts[1..k - 1] && before[1..k] == dts[1..k];
      ReturnsFor(s, graphs, rooms, before, k, Run(s, graphs, rooms, before).segment);
      TotalStep(dts, k, before);
    }
  }

  // ---- The map ----

  const FREE := 254
  const OCCUPIED := 0
  const UNKNOWN := 205

  /** Columns x0 to x1 and rows y0 to y1, ends excluded; row 0 is the bottom of the map. */
  datatype Box = Box(x0: nat, y0: nat, x1: nat, y1: nat)

  predicate Within(b: Box, height: nat, width: nat) {
    b.x1 <= width && b.y1 <= height
  }

  predicate Holds(b: Box, row: int, column: int) {
    b.y0 <= row < b.y1 && b.x0 <= column < b.x1
  }

  /** The grid's first row is the top of the map. */
  function RowOf(height: nat, i: int): int {
    height - 1 - i
  }

  method Fill(grid: array2<int>, b: Box, value: int)
    requires Within(b, grid.Length0, grid.Length1)
    modifies grid
    ensures forall i, j :: 0 <= i < grid.Length0 && 0 <= j < grid.Length1 ==>
      grid[i, j] == if Holds(b, RowOf(grid.Length0, i), j) then value else old(grid[i, j])
  {
    var r := b.y0;
    while r < b.y1
      invariant forall i, j :: 0 <= i < grid.Length0 && 0 <= j < grid.Length1 ==>
        grid[i, j] == if Holds(b, RowOf(grid.Length0, i), j) && RowOf(grid.Length0, i) < r then value
          else old(grid[i, j])
    {
      var c := b.x0;
      while c < b.x1
        invariant forall i, j :: 0 <= i < grid.Length0 && 0 <= j < grid.Length1 ==>
          grid[i, j] == if Holds(b, RowOf(grid.Length0, i), j)
            && (RowOf(grid.Length0, i) < r || (RowOf(grid.Length0, i) == r && j < c)) then value else old(grid[i, j])
      {
        grid[RowOf(grid.Length0, r), c] := value;
        c := c + 1;
      }
      r := r + 1;
    }
  }

  /** A room of the floor, with the box of the walls around it. */
  datatype Room = Room(inside: Box, walls: Box)

  /** A cell may be claimed free: it lies in an observed room, or in the door once the room beyond it is observed. */
  predicate Observed(rooms: seq<Room>, door: Box, revealed: nat, row: int, column: int) {
    || (exists k :: 0 <= k < |rooms| && k < revealed && Holds(rooms[k].inside, row, column))
    || (revealed >= 2 && Holds(door, row, column))
  }

  /** The cells of the first n rooms. */
  predicate InRooms(rooms: seq<Room>, n: nat, row: int, column: int)
    requires n <= |rooms|
  {
    exists k :: 0 <= k < n && Holds(rooms[k].inside, row, column)
  }

  method FillRooms(grid: array2<int>, rooms: seq<Room>, n: nat)
    requires n <= |rooms|
    requires forall k :: 0 <= k < |rooms| ==> Within(rooms[k].inside, grid.Length0, grid.Length1)
    modifies grid
    ensures forall i, j :: 0 <= i < grid.Length0 && 0 <= j < grid.Length1 ==>
      grid[i, j] == if InRooms(rooms, n, RowOf(grid.Length0, i), j) then FREE else old(grid[i, j])
  {
    for k := 0 to n
      invariant forall i, j :: 0 <= i < grid.Length0 && 0 <= j < grid.Length1 ==>
        grid[i, j] == if InRooms(rooms, k, RowOf(grid.Length0, i), j) then FREE else old(grid[i, j])
    {
      Fill(grid, rooms[k].inside, FREE);
    }
  }

  predicate InWalls(rooms: seq<Room>, n: nat, row: int, column: int)
    requires n <= |rooms|
  {
    exists k :: 0 <= k < n && Holds(rooms[k].walls, row, column)
  }

  method FillWalls(grid: array2<int>, rooms: seq<Room>, n: nat)
    requires n <= |rooms|
    requires forall k :: 0 <= k < |rooms| ==> Within(rooms[k].walls, grid.Length0, grid.Length1)
    modifies grid
    ensures forall i, j :: 0 <= i < grid.Length0 && 0 <= j < grid.Length1 ==>
      grid[i, j] == if InWalls(rooms, n, RowOf(grid.Length0, i), j) then OCCUPIED else old(grid[i, j])
  {
    for k := 0 to n
      invariant forall i, j :: 0 <= i < grid.Length0 && 0 <= j < grid.Length1 ==>
        grid[i, j] == if InWalls(rooms, k, RowOf(grid.Length0, i), j) then OCCUPIED else old(grid[i, j])
    {
      Fill(grid, rooms[k].walls, OCCUPIED);
    }
  }

  /** What the map says of a cell: free where observed, occupied in the walls of an observed room, else unknown. */
  function Cell(rooms: seq<Room>, door: Box, revealed: nat, row: int, column: int): int {
    if Observed(rooms, door, revealed, row, column) then FREE
    else if InWalls(rooms, if revealed <= |rooms| then revealed else |rooms|, row, column) then OCCUPIED
    else UNKNOWN
  }

  /** The map claims a cell free exactly where it was observed. */
  method RenderMap(height: nat, width: nat, rooms: seq<Room>, door: Box, revealed: nat) returns (grid: array2<int>)
    requires Within(door, height, width)
    requires forall k :: 0 <= k < |rooms| ==>
      Within(rooms[k].inside, height, width) && Within(rooms[k].walls, height, width)
    ensures fresh(grid) && grid.Length0 == height && grid.Length1 == width
    ensures forall i, j :: 0 <= i < height && 0 <= j < width ==>
      grid[i, j] == Cell(rooms, door, revealed, RowOf(height, i), j)
  {
    grid := new int[height, width]((_, _) => UNKNOWN);
    var n := if revealed <= |rooms| then revealed else |rooms|;
    FillWalls(grid, rooms, n);
    FillRooms(grid, rooms, n);
    if revealed >= 2 {
      Fill(grid, door, FREE);
    }
  }

  /** A box is two boxes side by side, and a box of one cell holds that cell. */
  lemma BoxesTile(b: Box, x: nat, y: nat, row: int, column: int)
    requires b.x0 <= x <= b.x1 && b.y0 <= y <= b.y1
    ensures Holds(b, row, column) <==> Holds(b.(x1 := x), row, column) != Holds(b.(x0 := x), row, column)
    ensures Holds(b, row, column) <==> Holds(b.(y1 := y), row, column) != Holds(b.(y0 := y), row, column)
    ensures Holds(Box(x, y, x + 1, y + 1), row, column) <==> column == x && row == y
  {
  }

  /** The grid is the map upside down. */
  lemma RowsAreFlipped(height: nat, i: nat)
    requires i < height
    ensures 0 <= RowOf(height, i) < height && RowOf(height, RowOf(height, i)) == i
    ensures i + 1 < height ==> RowOf(height, i + 1) < RowOf(height, i)
  {
  }

  /**
   Rooms appear in turn: a cell of one room alone, and not of the door, is free exactly once that
   many rooms are observed, a cell of the door alone once two are, and no other cell is ever free.
   */
  lemma RoomsAppearInTurn(rooms: seq<Room>, door: Box, revealed: nat, k: nat, row: int, column: int)
    requires k < |rooms| && forall j :: 0 <= j < |rooms| && j != k ==> !Holds(rooms[j].inside, row, column)
    ensures Cell(rooms, door, revealed, row, column) == FREE <==>
      || (Holds(rooms[k].inside, row, column) && k + 1 <= revealed)
      || (Holds(door, row, column) && revealed != 0 && revealed != 1)
  {
  }

  /** So do walls: the cell of one room's walls alone, where nothing is free. */
  lemma WallsAppearInTurn(rooms: seq<Room>, door: Box, revealed: nat, k: nat, row: int, column: int)
    requires k < |rooms| && forall j :: 0 <= j < |rooms| && j != k ==> !Holds(rooms[j].walls, row, column)
    requires Cell(rooms, door, revealed, row, column) != FREE
    ensures Cell(rooms, door, revealed, row, column) == OCCUPIED <==>
      Holds(rooms[k].walls, row, column) && k + 1 <= revealed
    ensures Cell(rooms, door, revealed, row, column) == UNKNOWN <==>
      !(Holds(rooms[k].walls, row, column) && k + 1 <= revealed)
  {
  }

  /** Observing more never takes back a claim: what the map calls free stays free, what it knows stays known. */
  lemma ClaimsAreNeverRetracted(rooms: seq<Room>, door: Box, before: nat, after: nat, row: int, column: int)
    requires before <= after
    ensures Cell(rooms, door, before, row, column) == FREE ==> Cell(rooms, door, after, row, column) == FREE
    ensures Cell(rooms, door, before, row, column) != UNKNOWN ==> Cell(rooms, door, after, row, column) != UNKNOWN
  {
    var n, m := if before <= |rooms| then before else |rooms|, if after <= |rooms| then after else |rooms|;
    if InWalls(rooms, n, row, column) {
      var k :| 0 <= k < n && Holds(rooms[k].walls, row, column);
      assert k < m;
    }
  }
}
