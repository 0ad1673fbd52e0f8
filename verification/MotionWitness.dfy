/**
 Grading an early STOPPED against a motion witness (check C5.7).

 A witness is a record of the robot's true speed over time. The harness looks in it for the
 moment of rest after the emergency stop: the start of the first interval, at least as long as
 the witness's hold time, in which every sample is within its rest noise. A STOPPED that precedes
 that moment by more than the tolerance fails. Times and speeds are real numbers here; rounding
 is not modelled. The successive reads of a growing witness file, each sorted by time and limited
 to the robot under test, are a parameter.
 */
module MotionWitness {
  import opened Wrappers

  datatype Sample = Sample(t: real, speed: real)

  /** What the witness declares about itself. */
  datatype Meta = Meta(noise: real, hold: real, resolution: real)

  datatype Grade =
    | NoSamples
    | AtRestAtTheStop
    | NeverRested
    | Early(rest: real, tolerance: real)
    | OnTime(rest: real, tolerance: real)

  ghost predicate TimeOrdered(samples: seq<Sample>) {
    forall i: nat, j: nat :: i < j < |samples| ==> samples[i].t <= samples[j].t
  }

  function From(samples: seq<Sample>, since: real): seq<Sample> {
    if samples == [] then []
    else (if samples[0].t >= since then [samples[0]] else []) + From(samples[1..], since)
  }

  /** The last sample no later than `t`, or strictly before it. */
  function LastUpTo(samples: seq<Sample>, t: real, strictly: bool): (last: Option<nat>)
    ensures last.Some? ==> last.value < |samples| && Precedes(samples[last.value].t, t, strictly)
    ensures forall j: nat :: j < |samples| && (last.Some? ==> last.value < j) ==> !Precedes(samples[j].t, t, strictly)
  {
    if samples == [] then None
    else if Precedes(samples[|samples| - 1].t, t, strictly) then Some(|samples| - 1)
    else LastUpTo(samples[..|samples| - 1], t, strictly)
  }

  predicate Precedes(a: real, b: real, strictly: bool) {
    if strictly then a < b else a <= b
  }

  /** Sample `i` begins a rest: it and all within the hold after it are quiet, and the record goes on past the hold. */
  predicate BeginsRest(after: seq<Sample>, i: nat, m: Meta)
    requires i < |after|
  {
    && after[i].speed <= m.noise
    && (forall w: nat :: i <= w < |after| && after[w].t <= after[i].t + m.hold ==> after[w].speed <= m.noise)
    && (m.hold == 0.0 || exists w: nat :: i <= w < |after| && after[w].t > after[i].t + m.hold)
  }

  /** The first sample at or after the stop that begins a rest. */
  ghost predicate IsRest(after: seq<Sample>, i: nat, m: Meta) {
    i < |after| && BeginsRest(after, i, m) && forall j: nat :: j < i ==> !BeginsRest(after, j, m)
  }

  method WitnessedRest(samples: seq<Sample>, since: real, m: Meta) returns (rest: Option<real>)
    ensures rest.Some? ==>
      exists i: nat :: IsRest(From(samples, since), i, m) && rest.value == From(samples, since)[i].t
    ensures rest.None? ==> forall i: nat :: i < |From(samples, since)| ==> !BeginsRest(From(samples, since), i, m)
  {
    var after := From(samples, since);
    for i := 0 to |after|
      invariant forall j: nat :: j < i ==> !BeginsRest(after, j, m)
    {
      if BeginsRest(after, i, m) {
        return Some(after[i].t);
      }
    }
    return None;
  }

  function Max(a: real, b: real): real {
    if a < b then b else a
  }

  /** How far before the rest the last sample that is not yet in it lies. */
  function Gap(samples: seq<Sample>, rest: real): real {
    var prior := LastUpTo(samples, rest, true);
    if prior.Some? then rest - samples[prior.value].t else 0.0
  }

  function Tolerance(samples: seq<Sample>, rest: real, m: Meta): real {
    Max(m.resolution, Gap(samples, rest))
  }

  predicate MovingAt(samples: seq<Sample>, sent: real, m: Meta) {
    var before := LastUpTo(samples, sent, false);
    before.Some? && samples[before.value].speed > m.noise
  }

  /** The grade a rest found in `samples` earns. */
  function GradeOf(samples: seq<Sample>, rest: real, stopped: real, m: Meta): Grade {
    var tolerance := Tolerance(samples, rest, m);
    if rest - stopped > tolerance then Early(rest, tolerance) else OnTime(rest, tolerance)
  }

  // ---- A time-ordered record ----

  lemma {:induction false} FromAll(samples: seq<Sample>, since: real)
    requires forall s <- samples :: s.t >= since
    ensures From(samples, since) == samples
  {
    if samples != [] { FromAll(samples[1..], since); }
  }

  lemma {:induction false} FromIsSuffix(samples: seq<Sample>, since: real) returns (k: nat)
    requires TimeOrdered(samples)
    ensures k <= |samples| && From(samples, since) == samples[k..]
    ensures forall j: nat :: j < |samples| ==> (j < k <==> samples[j].t < since)
  {
    if samples == [] {
      k := 0;
    } else if samples[0].t >= since {
      k := 0;
      FromAll(samples, since);
    } else {
      var later := samples[1..];
      LaterIsOrdered(samples);
      var j := FromIsSuffix(later, since);
      k := j + 1;
      assert From(samples, since) == [] + From(later, since) == later[j..];
      assert later[j..] == samples[k..];
      forall i: nat | i < |samples|
        ensures i < k <==> samples[i].t < since
      {
        if i > 0 {
          assert later[i - 1] == samples[i];
        }
      }
    }
  }

  lemma LaterIsOrdered(samples: seq<Sample>)
    requires TimeOrdered(samples) && samples != []
    ensures TimeOrdered(samples[1..])
  {
  }

  /** A sample strictly later than `since` in which the robot moves. */
  ghost predicate MovesAt(samples: seq<Sample>, j: nat, since: real, m: Meta) {
    j < |samples| && samples[j].t > since && samples[j].speed > m.noise
  }

  /** The same, counted from the start of the whole record: `f` is the first rest at or after index `k`. */
  ghost predicate FirstRest(samples: seq<Sample>, k: nat, f: nat, m: Meta) {
    k <= f < |samples| && BeginsRest(samples, f, m) && forall j: nat :: k <= j < f ==> !BeginsRest(samples, j, m)
  }

  lemma RestInSuffix(samples: seq<Sample>, k: nat, j: nat, m: Meta)
    requires k + j < |samples|
    ensures BeginsRest(samples[k..], j, m) == BeginsRest(samples, k + j, m)
  {
  }

  lemma RestOfRecord(samples: seq<Sample>, since: real, i: nat, m: Meta) returns (k: nat)
    requires TimeOrdered(samples) && IsRest(From(samples, since), i, m)
    ensures FirstRest(samples, k, k + i, m) && From(samples, since)[i] == samples[k + i]
    ensures forall j: nat :: j < |samples| ==> (j < k <==> samples[j].t < since)
  {
    k := FromIsSuffix(samples, since);
    RestInSuffix(samples, k, i, m);
    forall j: nat | k <= j < k + i ensures !BeginsRest(samples, j, m) {
      RestInSuffix(samples, k, j - k, m);
      assert !BeginsRest(samples[k..], j - k, m);
    }
  }

  /** A quiet sample before the found rest failed to begin one only because of motion soon after it. */
  lemma QuietButNotRest(samples: seq<Sample>, k: nat, f: nat, q: nat, m: Meta) returns (w: nat)
    requires FirstRest(samples, k, f, m) && k <= q < f && samples[q].t < samples[f].t && samples[q].speed <= m.noise
    ensures q <= w < |samples| && samples[w].t <= samples[q].t + m.hold && samples[w].speed > m.noise
  {
    if m.hold != 0.0 {
      var v: nat :| f <= v < |samples| && samples[v].t > samples[f].t + m.hold;
      assert samples[v].t > samples[q].t + m.hold;
    }
    assert !BeginsRest(samples, q, m);
    w :| q <= w < |samples| && samples[w].t <= samples[q].t + m.hold && samples[w].speed > m.noise;
  }

  // ---- What the grade is ----

  /** Sample p is the last one strictly before the time. */
  predicate LastBefore(samples: seq<Sample>, p: nat, t: real) {
    p < |samples| && samples[p].t < t && forall j :: p < j < |samples| ==> samples[j].t >= t
  }

  /** STOPPED precedes the rest by more than the declared resolution, and the last sample before the rest. */
  ghost predicate TooEarly(samples: seq<Sample>, rest: real, stopped: real, m: Meta) {
    && rest - stopped > m.resolution && stopped < rest
    && forall p: nat :: LastBefore(samples, p, rest) ==> stopped < samples[p].t
  }

  /** The tolerance is the larger of the declared resolution and the gap before the rest, if there is one. */
  ghost predicate IsTolerance(samples: seq<Sample>, rest: real, m: Meta, tolerance: real) {
    && tolerance >= m.resolution && tolerance >= 0.0
    && (forall p: nat :: LastBefore(samples, p, rest) ==> tolerance >= rest - samples[p].t)
    && (|| tolerance == m.resolution
        || (exists p: nat :: LastBefore(samples, p, rest) && tolerance == rest - samples[p].t)
        || (tolerance == 0.0 && forall p: nat :: !LastBefore(samples, p, rest)))
  }

  /** The grade that a rest earns, in the terms of the record. */
  ghost predicate Graded(samples: seq<Sample>, rest: real, stopped: real, m: Meta, g: Grade) {
    && (g.Early? || g.OnTime?)
    && (g.Early? <==> TooEarly(samples, rest, stopped, m))
    && g.rest == rest && IsTolerance(samples, rest, m, g.tolerance)
  }

  lemma GradeIsExact(samples: seq<Sample>, rest: real, stopped: real, m: Meta)
    ensures Graded(samples, rest, stopped, m, GradeOf(samples, rest, stopped, m))
  {
    var prior := LastUpTo(samples, rest, true);
    if prior.Some? {
      assert LastBefore(samples, prior.value, rest);
    }
    forall p: nat | LastBefore(samples, p, rest)
      ensures prior == Some(p)
    {
    }
  }

  /** A resolution wider than the gap is not ignored: the simulator's witness and a stop within it. */
  lemma ResolutionIsTolerated(samples: seq<Sample>, m: Meta)
    requires m == Meta(0.0, 0.2, 0.2)
    requires samples == [Sample(0.0, 1.0), Sample(0.2, 0.2), Sample(0.25, 0.0), Sample(0.5, 0.0)]
    ensures GradeOf(samples, 0.25, 0.1, m) == OnTime(0.25, 0.2)
  {
    GradeIsExact(samples, 0.25, 0.1, m);
    assert LastBefore(samples, 1, 0.25);
  }

  // ---- What an early grade vouches for ----

  /** The promise behind the tolerance: a STOPPED is failed only when a strictly later sample shows motion. */
  ghost predicate Promised(samples: seq<Sample>, rest: real, m: Meta) {
    forall stopped: real :: GradeOf(samples, rest, stopped, m).Early? ==>
      exists j: nat :: MovesAt(samples, j, stopped, m)
  }

  /** The same, of a STOPPED that is not timed before `from`. */
  ghost predicate PromisedFrom(samples: seq<Sample>, rest: real, from: real, m: Meta) {
    forall stopped: real :: from <= stopped && GradeOf(samples, rest, stopped, m).Early? ==>
      exists j: nat :: MovesAt(samples, j, stopped, m)
  }

  /** Sample j shows motion no earlier than the tolerance before the rest. */
  predicate MovesNear(samples: seq<Sample>, j: nat, rest: real, m: Meta) {
    && j < |samples|
    && samples[j].speed > m.noise
    && samples[j].t >= rest - Tolerance(samples, rest, m)
  }

  ghost predicate Vouched(samples: seq<Sample>, rest: real, m: Meta) {
    exists j: nat :: MovesNear(samples, j, rest, m)
  }

  /** A time from `low` on and before `high` that no moving sample follows. */
  lemma AfterAllMotion(samples: seq<Sample>, low: real, high: real, m: Meta) returns (t: real)
    requires low < high && forall j: nat :: j < |samples| && samples[j].speed > m.noise ==> samples[j].t < high
    ensures low <= t < high && forall j: nat :: !MovesAt(samples, j, t, m)
  {
    t := low;
    for n := 0 to |samples|
      invariant low <= t < high
      invariant forall j: nat :: j < n && samples[j].speed > m.noise ==> samples[j].t <= t
    {
      if samples[n].speed > m.noise && samples[n].t > t {
        t := samples[n].t;
      }
    }
  }

  lemma VouchedKeepsThePromise(samples: seq<Sample>, rest: real, stopped: real, m: Meta) returns (j: nat)
    requires Vouched(samples, rest, m) && GradeOf(samples, rest, stopped, m).Early?
    ensures MovesAt(samples, j, stopped, m)
  {
    j :| MovesNear(samples, j, rest, m);
  }

  /** Where nothing vouches for the rest, some early STOPPED from `from` on breaks the promise. */
  lemma UnvouchedBreaksThePromise(samples: seq<Sample>, rest: real, from: real, m: Meta) returns (stopped: real)
    requires !Vouched(samples, rest, m) && from < rest - Tolerance(samples, rest, m)
    ensures from <= stopped && GradeOf(samples, rest, stopped, m).Early?
    ensures forall j: nat :: !MovesAt(samples, j, stopped, m)
  {
    forall j: nat | j < |samples| && samples[j].speed > m.noise
      ensures samples[j].t < rest - Tolerance(samples, rest, m)
    {
      assert !MovesNear(samples, j, rest, m);
    }
    stopped := AfterAllMotion(samples, from, rest - Tolerance(samples, rest, m), m);
  }

  /**
   Exactly when the promise holds of every STOPPED from some time on: the record shows motion no
   earlier than the tolerance before the rest, or no such STOPPED can be graded early at all.
   */
  lemma PromisedFromIff(samples: seq<Sample>, rest: real, from: real, m: Meta)
    ensures PromisedFrom(samples, rest, from, m)
       <==> Vouched(samples, rest, m) || rest - Tolerance(samples, rest, m) <= from
  {
    if Vouched(samples, rest, m) {
      forall stopped: real | GradeOf(samples, rest, stopped, m).Early?
        ensures exists j: nat :: MovesAt(samples, j, stopped, m)
      {
        var j := VouchedKeepsThePromise(samples, rest, stopped, m);
      }
    } else if from < rest - Tolerance(samples, rest, m) {
      var stopped := UnvouchedBreaksThePromise(samples, rest, from, m);
    }
  }

  /** Of every STOPPED whatever: exactly when the record shows such motion. */
  lemma PromisedIff(samples: seq<Sample>, rest: real, m: Meta)
    ensures Promised(samples, rest, m) <==> Vouched(samples, rest, m)
  {
    PromisedFromIff(samples, rest, rest - Tolerance(samples, rest, m) - 1.0, m);
    if Vouched(samples, rest, m) {
      forall stopped: real | GradeOf(samples, rest, stopped, m).Early?
        ensures exists j: nat :: MovesAt(samples, j, stopped, m)
      {
        var j := VouchedKeepsThePromise(samples, rest, stopped, m);
      }
    }
  }

  // ---- Which records vouch for their rest ----

  lemma ToleranceCoversGap(samples: seq<Sample>, rest: real, m: Meta)
    ensures 0.0 <= Gap(samples, rest) <= Tolerance(samples, rest, m)
  {
  }

  lemma {:induction false} MotionBeforeLaterRest(samples: seq<Sample>, k: nat, f: nat, m: Meta) returns (j: nat)
    requires TimeOrdered(samples) && FirstRest(samples, k, f, m) && k < f
    ensures MovesNear(samples, j, samples[f].t, m)
  {
    ToleranceCoversGap(samples, samples[f].t, m);
    if samples[f - 1].t < samples[f].t {
      PriorIsPredecessor(samples, f);
      if samples[f - 1].speed > m.noise {
        j := f - 1;
      } else {
        j := QuietButNotRest(samples, k, f, f - 1, m);
      }
    } else {
      j := f - 1;
      QuietTieBeginsRest(samples, f, m);
    }
  }

  /** A quiet sample at the time of the next one begins a rest with it. */
  lemma QuietTieBeginsRest(samples: seq<Sample>, f: nat, m: Meta)
    requires TimeOrdered(samples) && 0 < f < |samples| && BeginsRest(samples, f, m) && samples[f - 1].t == samples[f].t
    ensures samples[f - 1].speed <= m.noise ==> BeginsRest(samples, f - 1, m)
  {
    if m.hold != 0.0 {
      var v: nat :| f <= v < |samples| && samples[v].t > samples[f].t + m.hold;
      assert samples[v].t > samples[f - 1].t + m.hold;
    }
  }

  /** A rest that is not the first sample from the stop on is always vouched for, wherever the record begins. */
  lemma LaterRestIsVouched(samples: seq<Sample>, m: Meta, sent: real, i: nat)
    requires TimeOrdered(samples) && IsRest(From(samples, sent), i, m) && i > 0
    ensures Vouched(samples, From(samples, sent)[i].t, m)
  {
    var k := RestOfRecord(samples, sent, i, m);
    var j := MotionBeforeLaterRest(samples, k, k + i, m);
  }

  /**
   What makes up for it where the rest is that sample: the record reaches back to the stop and still
   shows the robot moving then; or, where late samples have hidden that, STOPPED is not timed before
   the stop.
   */
  ghost predicate Usable(samples: seq<Sample>, sent: real, stopped: real, m: Meta) {
    LastUpTo(samples, sent, false).Some? && (MovingAt(samples, sent, m) || sent <= stopped)
  }

  lemma FirstRestIsVouched(samples: seq<Sample>, m: Meta, sent: real, stopped: real, k: nat)
    requires TimeOrdered(samples) && Usable(samples, sent, stopped, m) && k < |samples|
    requires forall j: nat :: j < |samples| ==> (j < k <==> samples[j].t < sent)
    requires GradeOf(samples, samples[k].t, stopped, m).Early?
    ensures Vouched(samples, samples[k].t, m)
  {
    var rest, q := samples[k].t, LastUpTo(samples, sent, false).value;
    ToleranceCoversGap(samples, rest, m);
    assert MovesNear(samples, q, rest, m);
  }

  lemma UsableIsVouched(samples: seq<Sample>, m: Meta, sent: real, stopped: real, i: nat)
    requires TimeOrdered(samples) && Usable(samples, sent, stopped, m) && IsRest(From(samples, sent), i, m)
    requires GradeOf(samples, From(samples, sent)[i].t, stopped, m).Early?
    ensures Vouched(samples, From(samples, sent)[i].t, m)
  {
    if i > 0 {
      LaterRestIsVouched(samples, m, sent, i);
    } else {
      var k := RestOfRecord(samples, sent, i, m);
      FirstRestIsVouched(samples, m, sent, stopped, k);
    }
  }

  /** So on such a record an early STOPPED is failed only when a strictly later sample shows motion. */
  lemma EarlyMeansMotionLater(samples: seq<Sample>, m: Meta, sent: real, stopped: real, i: nat) returns (j: nat)
    requires TimeOrdered(samples) && IsRest(From(samples, sent), i, m)
    requires i > 0 || Usable(samples, sent, stopped, m)
    requires GradeOf(samples, From(samples, sent)[i].t, stopped, m).Early?
    ensures MovesAt(samples, j, stopped, m)
  {
    if i > 0 {
      LaterRestIsVouched(samples, m, sent, i);
    } else {
      UsableIsVouched(samples, m, sent, stopped, i);
    }
    j := VouchedKeepsThePromise(samples, From(samples, sent)[i].t, stopped, m);
  }

  /** Otherwise the promise can fail: a sample that reaches the file late can hide the motion. */
  lemma LateSamplesCanMisgrade()
    ensures var m := Meta(0.0, 1.0, 0.0);
            var first := [Sample(0.0, 1.0)];
            var fresher := first + [Sample(5.0, 0.0), Sample(12.0, 0.0), Sample(20.0, 0.0)];
            && MovingAt(first, 10.0, m) && TimeOrdered(fresher)
            && IsRest(From(fresher, 10.0), 0, m)
            && GradeOf(fresher, From(fresher, 10.0)[0].t, 4.0, m).Early?
            && (forall j: nat :: !MovesAt(fresher, j, 4.0, m))
            && !Promised(fresher, From(fresher, 10.0)[0].t, m)
            && !Vouched(fresher, From(fresher, 10.0)[0].t, m)
  {
    var m := Meta(0.0, 1.0, 0.0);
    var s := [Sample(0.0, 1.0), Sample(5.0, 0.0), Sample(12.0, 0.0), Sample(20.0, 0.0)];
    assert [Sample(0.0, 1.0)] + [Sample(5.0, 0.0), Sample(12.0, 0.0), Sample(20.0, 0.0)] == s;
    var k := FromIsSuffix(s, 10.0);
    assert k == 2 by { assert s[1].t < 10.0 <= s[2].t; }
    assert s[2..] == [Sample(12.0, 0.0), Sample(20.0, 0.0)];
    assert LastUpTo(s, 12.0, true) == Some(1) by { assert s[1].t < 12.0 <= s[2].t; }
    assert s[2..][1].t > s[2..][0].t + m.hold;
    PromisedIff(s, 12.0, m);
  }

  /** No sample shows motion at the very time the rest is placed at. */
  ghost predicate Untied(samples: seq<Sample>, rest: real, m: Meta) {
    forall j: nat :: j < |samples| && samples[j].t == rest ==> samples[j].speed <= m.noise
  }

  lemma PredecessorIsEarlier(samples: seq<Sample>, k: nat, f: nat, m: Meta)
    requires TimeOrdered(samples) && FirstRest(samples, k, f, m) && k < f && Untied(samples, samples[f].t, m)
    ensures samples[f - 1].t < samples[f].t
  {
    if samples[f - 1].t == samples[f].t {
      assert BeginsRest(samples, f, m);
      forall w: nat | f - 1 <= w < |samples| && samples[w].t <= samples[f - 1].t + m.hold
        ensures samples[w].speed <= m.noise
      {
      }
      assert m.hold != 0.0 ==> exists w: nat :: f - 1 <= w < |samples| && samples[w].t > samples[f - 1].t + m.hold;
      assert BeginsRest(samples, f - 1, m);
    }
  }

  lemma PriorIsPredecessor(samples: seq<Sample>, f: nat)
    requires TimeOrdered(samples) && 0 < f < |samples| && samples[f - 1].t < samples[f].t
    ensures LastUpTo(samples, samples[f].t, true) == Some(f - 1)
  {
  }

  lemma NoisyPredecessor(samples: seq<Sample>, k: nat, f: nat, m: Meta)
    requires TimeOrdered(samples) && FirstRest(samples, k, f, m) && k < f && samples[f - 1].t < samples[f].t
    ensures samples[f - 1].speed > m.noise
  {
    if samples[f - 1].speed <= m.noise {
      var w := QuietButNotRest(samples, k, f, f - 1, m);
    }
  }

  /** Unless motion is recorded at the very time of the found rest, the last sample before it is one of motion. */
  lemma MotionJustBeforeRest(samples: seq<Sample>, m: Meta, sent: real, i: nat)
    requires TimeOrdered(samples) && MovingAt(samples, sent, m)
    requires IsRest(From(samples, sent), i, m) && Untied(samples, From(samples, sent)[i].t, m)
    ensures var prior := LastUpTo(samples, From(samples, sent)[i].t, true);
            prior.Some? && samples[prior.value].speed > m.noise
  {
    var k := RestOfRecord(samples, sent, i, m);
    var f := k + i;
    if k < f {
      PredecessorIsEarlier(samples, k, f, m);
      NoisyPredecessor(samples, k, f, m);
      PriorIsPredecessor(samples, f);
    } else {
      MovingUpToTheStop(samples, m, sent, f);
    }
  }

  /** Where the first sample from the stop on is the rest, the sample before it is the one the robot was moving in. */
  lemma MovingUpToTheStop(samples: seq<Sample>, m: Meta, sent: real, f: nat)
    requires TimeOrdered(samples) && MovingAt(samples, sent, m) && f < |samples| && samples[f].speed <= m.noise
    requires forall j: nat :: j < |samples| ==> (j < f <==> samples[j].t < sent)
    requires Untied(samples, samples[f].t, m)
    ensures var prior := LastUpTo(samples, samples[f].t, true);
            prior.Some? && samples[prior.value].speed > m.noise
  {
  }

  /** Motion and rest at the same time, two seconds in, with a quiet sample before them. */
  predicate Tied(s: seq<Sample>) {
    && |s| == 5
    && s[0] == Sample(0.0, 1.0) && s[1] == Sample(1.0, 0.0)
    && s[2] == Sample(2.0, 1.0) && s[3] == Sample(2.0, 0.0) && s[4] == Sample(4.0, 0.0)
  }

  lemma TiedIsOrdered(s: seq<Sample>)
    requires Tied(s)
    ensures TimeOrdered(s) && From(s, 0.0) == s
  {
    FromAll(s, 0.0);
  }

  lemma TiedRests(s: seq<Sample>, m: Meta)
    requires Tied(s) && m == Meta(0.0, 1.0, 0.0)
    ensures IsRest(s, 3, m)
  {
    assert s[4].t > s[3].t + m.hold;
    assert s[2].t <= s[1].t + m.hold && s[2].speed > m.noise;
  }

  lemma TiedPrior(s: seq<Sample>)
    requires Tied(s)
    ensures LastUpTo(s, 2.0, true) == Some(1)
  {
    assert Precedes(s[1].t, 2.0, true) && !Precedes(s[2].t, 2.0, true);
  }

  lemma TiedMoves(s: seq<Sample>)
    requires Tied(s)
    ensures LastUpTo(s, 0.0, false) == Some(0)
  {
    assert Precedes(s[0].t, 0.0, false) && !Precedes(s[1].t, 0.0, false);
  }

  /** Where it is recorded at that time, the sample before can be a quiet one. */
  lemma TiedSamplesHideMotion(samples: seq<Sample>, m: Meta)
    requires Tied(samples) && m == Meta(0.0, 1.0, 0.0)
    ensures TimeOrdered(samples) && MovingAt(samples, 0.0, m)
    ensures From(samples, 0.0) == samples && IsRest(samples, 3, m)
    ensures LastUpTo(samples, samples[3].t, true) == Some(1) && samples[1].speed <= m.noise
  {
    TiedIsOrdered(samples);
    TiedRests(samples, m);
    TiedPrior(samples);
    TiedMoves(samples);
  }

  /**
   So with no such tie the grade is exact: STOPPED fails if and only if it precedes the last sample
   of motion before the rest, and the rest by more than the declared resolution.
   */
  lemma EarlyIffBeforeLastMotion(samples: seq<Sample>, m: Meta, sent: real, stopped: real, i: nat)
    requires TimeOrdered(samples) && MovingAt(samples, sent, m)
    requires IsRest(From(samples, sent), i, m) && Untied(samples, From(samples, sent)[i].t, m)
    ensures var rest := From(samples, sent)[i].t;
            var prior := LastUpTo(samples, rest, true);
            && prior.Some? && samples[prior.value].speed > m.noise
            && (GradeOf(samples, rest, stopped, m).Early? <==>
                  stopped < samples[prior.value].t && rest - stopped > m.resolution)
  {
    MotionJustBeforeRest(samples, m, sent, i);
  }

  // ---- What a confirmed rest is ----

  /** At the time of a found rest the robot is quiet, it stays so for the hold, and the record goes past it. */
  lemma RestIsHeld(samples: seq<Sample>, m: Meta, sent: real, i: nat)
    requires TimeOrdered(samples) && IsRest(From(samples, sent), i, m)
    ensures var rest := From(samples, sent)[i].t;
            && rest >= sent
            && (exists j: nat :: j < |samples| && samples[j].t == rest && samples[j].speed <= m.noise)
            && (forall j: nat :: j < |samples| && rest < samples[j].t <= rest + m.hold ==> samples[j].speed <= m.noise)
            && (m.hold == 0.0 || exists j: nat :: j < |samples| && samples[j].t > rest + m.hold)
  {
    var k := RestOfRecord(samples, sent, i, m);
    assert samples[k + i].t == From(samples, sent)[i].t;
  }

  /** And a quiet sample from the stop on, before it, was followed by motion within the hold. */
  lemma EarlierQuietWasBroken(samples: seq<Sample>, m: Meta, sent: real, i: nat, q: nat)
    requires TimeOrdered(samples) && IsRest(From(samples, sent), i, m)
    requires q < |samples| && sent <= samples[q].t < From(samples, sent)[i].t && samples[q].speed <= m.noise
    ensures exists w: nat :: q < w < |samples| && samples[w].t <= samples[q].t + m.hold && samples[w].speed > m.noise
  {
    var k := RestOfRecord(samples, sent, i, m);
    var w := QuietButNotRest(samples, k, k + i, q, m);
  }

  // ---- The grading ----

  method GradeEarlyStopped(records: seq<seq<Sample>>, m: Meta, sent: real, stopped: real)
    returns (g: Grade, ghost used: nat)
    requires records != []
    requires forall r <- records :: TimeOrdered(r)
    ensures used < |records|
    ensures g.NoSamples? <==> records[0] == []
    ensures g.AtRestAtTheStop? <==> records[0] != [] && !MovingAt(records[0], sent, m)
    ensures g.NeverRested? ==> used == |records| - 1 && forall i: nat :: i < |From(records[used], sent)| ==>
      !BeginsRest(From(records[used], sent), i, m)
    ensures g.Early? || g.OnTime? ==>
              exists i: nat ::
                IsRest(From(records[used], sent), i, m)
                && g == GradeOf(records[used], From(records[used], sent)[i].t, stopped, m)
    ensures g.Early? || g.OnTime? ==> Graded(records[used], g.rest, stopped, m, g)
    ensures g.Early? && Vouched(records[used], g.rest, m) ==> exists j: nat :: MovesAt(records[used], j, stopped, m)
    ensures g.Early? && (used == 0 || Usable(records[used], sent, stopped, m)) ==> Vouched(records[used], g.rest, m)
  {
    used := 0;
    if records[0] == [] {
      return NoSamples, 0;
    }
    if !MovingAt(records[0], sent, m) {
      return AtRestAtTheStop, 0;
    }
    var k := 0;
    var rest := WitnessedRest(records[0], sent, m);
    while rest.None? && k + 1 < |records|
      invariant k < |records|
      invariant rest.Some? ==>
        exists i: nat :: IsRest(From(records[k], sent), i, m) && rest.value == From(records[k], sent)[i].t
      invariant rest.None? ==> forall i: nat :: i < |From(records[k], sent)| ==>
        !BeginsRest(From(records[k], sent), i, m)
    {
      k := k + 1;
      rest := WitnessedRest(records[k], sent, m);
    }
    used := k;
    if rest.None? {
      return NeverRested, k;
    }
    g := GradeOf(records[k], rest.value, stopped, m);
    GradeIsExact(records[k], rest.value, stopped, m);
    ghost var i: nat :| IsRest(From(records[k], sent), i, m) && rest.value == From(records[k], sent)[i].t;
    if g.Early? {
      if Usable(records[k], sent, stopped, m) {
        UsableIsVouched(records[k], m, sent, stopped, i);
      }
      if Vouched(records[k], rest.value, m) {
        ghost var j := VouchedKeepsThePromise(records[k], rest.value, stopped, m);
      }
    }
  }
}
