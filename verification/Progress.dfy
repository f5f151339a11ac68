/** The percent normaliser: a loop-carried floor, proved to be the maximum of what a leg reported. */
module Progress {
  import opened Prelude

  const ACTIVE_CEILING: real := 99.9

  /** A number as a provider reports it; only the percent may arrive as NaN or infinite. */
  datatype Reported = Finite(value: real) | NotFinite

  datatype RawProgress = RawProgress(
    percent: Option<Reported>, downloaded: Option<real>, total: Option<real>, estimate: Option<real>,
    fragmentIndex: Option<int>, fragmentCount: Option<int>, sourceTag: nat)

  datatype Frame = Frame(progress: RawProgress, status: Status)

  function Least(a: real, b: real): real { if b < a then b else a }

  function Greatest(a: real, b: real): real { if a < b then b else a }

  /** `d / t` as a percentage, where both are known and the total is positive. */
  function Ratio(d: Option<real>, t: Option<real>): Option<real> {
    if d.Some? && t.Some? && t.value > 0.0 then Some(d.value / t.value * 100.0) else None
  }

  /** The percent inferred from byte and fragment counts. */
  function Inferred(m: RawProgress): Option<real> {
    var exact := Ratio(m.downloaded, m.total);
    if exact.Some? then exact
    else
      var estimated := Ratio(m.downloaded, m.estimate);
      if m.fragmentCount.Some? && m.fragmentIndex.Some? && m.fragmentCount.value > 0 then
        var count := m.fragmentCount.value;
        var bounded := Max(0, Min(m.fragmentIndex.value, count));
        var floor := bounded as real / count as real * 100.0;
        var ceiling := Least((bounded as real + 1.0) / count as real * 100.0, ACTIVE_CEILING);
        Some(if estimated.Some? then Least(Greatest(estimated.value, floor), ceiling) else floor)
      else if estimated.Some? && m.estimate.value > m.downloaded.value then estimated
      else None
  }

  function Usable(m: RawProgress): Option<real> {
    if m.percent.Some? && m.percent.value.Finite? then Some(m.percent.value.value) else Inferred(m)
  }

  function Clamped(p: real): real { Least(Greatest(p, 0.0), ACTIVE_CEILING) }

  class Normalizer {
    var prev: Option<real>
    var sourceTag: nat

    ghost function Now(): State
      reads this
    {
      State(prev, sourceTag)
    }

    constructor ()
      ensures Now() == NEW
    {
      prev, sourceTag := None, 0;
    }

    constructor WithPrevious(prev: Option<real>)
      ensures Now() == State(prev, 0)
    {
      this.prev, sourceTag := prev, 0;
    }

    method Reset()
      modifies this`prev
      ensures prev == None
    {
      prev := None;
    }

    method Apply(m: RawProgress, status: Status) returns (percent: real)
      modifies this
      ensures Now() == Next(old(Now()), Frame(m, status))
      ensures percent == Now().Shown()
    {
      if m.sourceTag != sourceTag {
        sourceTag := m.sourceTag;
        Reset();
      }
      if status.Finished? {
        prev := Some(100.0);
        return 100.0;
      }
      var usable := Usable(m);
      if usable == None {
        return prev.GetOr(0.0);
      }
      percent := Clamped(usable.value);
      if prev.Some? && percent < prev.value {
        return prev.value;
      }
      prev := Some(percent);
    }
  }

  datatype State = State(prev: Option<real>, sourceTag: nat) {
    /** The value a client sees. */
    function Shown(): real { prev.GetOr(0.0) }
  }

  const NEW := State(None, 0)

  /** What a frame contributes: 100 when finished, its clamped percent, or nothing. */
  function Point(f: Frame): Option<real> {
    if f.status.Finished? then Some(100.0)
    else if Usable(f.progress).Some? then Some(Clamped(Usable(f.progress).value))
    else None
  }

  function Next(s: State, f: Frame): State {
    var floor := if f.progress.sourceTag != s.sourceTag then None else s.prev;
    var point := Point(f);
    State(
      if f.status.Finished? then point
      else if point.None? || (floor.Some? && point.value < floor.value) then floor
      else point,
      f.progress.sourceTag)
  }

  function Run(s: State, frames: seq<Frame>): State {
    if frames == [] then s else Next(Run(s, frames[..|frames| - 1]), frames[|frames| - 1])
  }

  // -- the reference: the largest point of the leg --------------------------------------------

  function TagBefore(s: State, frames: seq<Frame>, i: nat): nat
    requires i <= |frames|
  {
    if i == 0 then s.sourceTag else frames[i - 1].progress.sourceTag
  }

  /** Where the current leg starts: at the last change of source, or before the first frame. */
  function LegStart(s: State, frames: seq<Frame>): (k: nat)
    ensures k <= |frames|
  {
    if frames == [] then 0
    else
      var n := |frames| - 1;
      if frames[n].progress.sourceTag != TagBefore(s, frames, n) then n else LegStart(s, frames[..n])
  }

  predicate NewLeg(s: State, frames: seq<Frame>) {
    frames != [] &&
    var k := LegStart(s, frames);
    k < |frames| && frames[k].progress.sourceTag != TagBefore(s, frames, k)
  }

  function Tail(f: Frame): seq<real> {
    if Point(f).Some? then [Point(f).value] else []
  }

  function Points(frames: seq<Frame>): seq<real> {
    if frames == [] then []
    else Points(frames[..|frames| - 1]) + Tail(frames[|frames| - 1])
  }

  predicate HasFinished(frames: seq<Frame>) { exists f :: f in frames && f.status.Finished? }

  /**
   The floor a leg starts with: the seed, for the leg that was running when it was planted. A finished
   frame brings it down to 100 if it was above.
   */
  function Floor(s: State, frames: seq<Frame>): seq<real> {
    if NewLeg(s, frames) || s.prev.None? then []
    else if HasFinished(frames[LegStart(s, frames)..]) then [Least(s.prev.value, 100.0)]
    else [s.prev.value]
  }

  ghost predicate IsMaximum(v: real, s: seq<real>) {
    v in s && forall x :: x in s ==> x <= v
  }

  /** The maximum of the leg's points and its floor, or nothing where there are none. */
  ghost predicate Peaks(r: Option<real>, s: seq<real>) {
    if s == [] then r == None else r.Some? && IsMaximum(r.value, s)
  }

  function LegPoints(s: State, frames: seq<Frame>): seq<real> {
    Floor(s, frames) + Points(frames[LegStart(s, frames)..])
  }

  lemma PointsGoOn(frames: seq<Frame>, f: Frame)
    ensures Points(frames + [f]) == Points(frames) + Tail(f)
  {
    assert (frames + [f])[..|frames|] == frames;
  }

  lemma LegStartsOver(s: State, frames: seq<Frame>, f: Frame)
    requires f.progress.sourceTag != TagBefore(s, frames, |frames|)
    ensures LegPoints(s, frames + [f]) == Tail(f)
  {
    var all, n := frames + [f], |frames|;
    assert all[..n] == frames && TagBefore(s, all, n) == TagBefore(s, frames, n);
    assert all[n..] == [] + [f];
    PointsGoOn([], f);
  }

  lemma SameLeg(s: State, frames: seq<Frame>, f: Frame)
    requires f.progress.sourceTag == TagBefore(s, frames, |frames|)
    ensures LegStart(s, frames + [f]) == LegStart(s, frames)
    ensures NewLeg(s, frames + [f]) == NewLeg(s, frames)
    ensures (frames + [f])[LegStart(s, frames)..] == frames[LegStart(s, frames)..] + [f]
  {
    var all, k := frames + [f], LegStart(s, frames);
    assert all[..|frames|] == frames;
    assert TagBefore(s, all, |frames|) == TagBefore(s, frames, |frames|);
    assert TagBefore(s, all, k) == TagBefore(s, frames, k);
  }

  lemma FinishedGrows(frames: seq<Frame>, f: Frame)
    ensures HasFinished(frames + [f]) <==> HasFinished(frames) || f.status.Finished?
  {
    if f.status.Finished? { assert f in frames + [f]; }
    if HasFinished(frames) {
      var g :| g in frames && g.status.Finished?;
      assert g in frames + [f];
    }
  }

  lemma LegContinues(s: State, frames: seq<Frame>, f: Frame)
    requires f.progress.sourceTag == TagBefore(s, frames, |frames|) && !f.status.Finished?
    ensures LegPoints(s, frames + [f]) == LegPoints(s, frames) + Tail(f)
  {
    var leg := frames[LegStart(s, frames)..];
    SameLeg(s, frames, f);
    FinishedGrows(leg, f);
    PointsGoOn(leg, f);
    var floor, points := Floor(s, frames), Points(leg);
    assert floor + (points + Tail(f)) == floor + points + Tail(f);
  }

  lemma {:induction false} TagIsLast(s: State, frames: seq<Frame>)
    ensures Run(s, frames).sourceTag == TagBefore(s, frames, |frames|)
  {}

  /** Taking one more point in keeps the maximum; a finished frame's 100 is one, unless the floor is higher. */
  lemma PeakGoesOn(r: Option<real>, s: seq<real>, point: real)
    requires Peaks(r, s)
    ensures Peaks(Some(if r.Some? && point < r.value then r.value else point), s + [point])
  {}

  /** No reported percent is above 100. */
  lemma {:induction false} PointsAreBelow(frames: seq<Frame>)
    ensures forall x :: x in Points(frames) ==> 0.0 <= x <= 100.0
  {
    if frames != [] {
      PointsAreBelow(frames[..|frames| - 1]);
    }
  }

  /** One frame: a new leg starts over, and a point is taken in. */
  lemma NextPeaks(s: State, points: seq<real>, f: Frame)
    requires Peaks(s.prev, points) && !f.status.Finished?
    ensures Peaks(Next(s, f).prev, if f.progress.sourceTag != s.sourceTag then Tail(f) else points + Tail(f))
  {
    var starts := f.progress.sourceTag != s.sourceTag;
    var floor, kept := if starts then None else s.prev, if starts then [] else points;
    if Point(f).Some? {
      PeakGoesOn(floor, kept, Point(f).value);
      assert [] + [Point(f).value] == [Point(f).value];
    } else {
      assert kept + [] == kept;
    }
  }

  /** A finished frame's 100 is the largest point of its leg, whatever the seed was. */
  lemma FinishedPeaks(s: State, frames: seq<Frame>, f: Frame)
    requires f.status.Finished?
    ensures IsMaximum(100.0, LegPoints(s, frames + [f]))
  {
    if f.progress.sourceTag != TagBefore(s, frames, |frames|) {
      LegStartsOver(s, frames, f);
    } else {
      var leg := frames[LegStart(s, frames)..];
      SameLeg(s, frames, f);
      FinishedGrows(leg, f);
      PointsGoOn(leg, f);
      PointsAreBelow(leg);
      var floor := Floor(s, frames + [f]);
      assert LegPoints(s, frames + [f]) == floor + Points(leg) + [100.0];
      assert (floor + Points(leg) + [100.0])[|floor| + |Points(leg)|] == 100.0;
    }
  }

  lemma MaximumGoesOn(s: State, frames: seq<Frame>, f: Frame)
    requires Peaks(Run(s, frames).prev, LegPoints(s, frames))
    ensures Peaks(Next(Run(s, frames), f).prev, LegPoints(s, frames + [f]))
  {
    TagIsLast(s, frames);
    if f.status.Finished? {
      FinishedPeaks(s, frames, f);
    } else if f.progress.sourceTag != TagBefore(s, frames, |frames|) {
      NextPeaks(Run(s, frames), LegPoints(s, frames), f);
      LegStartsOver(s, frames, f);
    } else {
      NextPeaks(Run(s, frames), LegPoints(s, frames), f);
      LegContinues(s, frames, f);
    }
  }

  /** The normaliser's floor is the largest thing the current leg has reported. */
  lemma {:induction false} RunsTheMaximum(s: State, frames: seq<Frame>)
    ensures Peaks(Run(s, frames).prev, LegPoints(s, frames))
  {
    if frames == [] {
      NothingYet(s);
    } else {
      var n := |frames| - 1;
      RunsTheMaximum(s, frames[..n]);
      MaximumGoesOn(s, frames[..n], frames[n]);
      assert frames == frames[..n] + [frames[n]];
    }
  }

  lemma NothingYet(s: State)
    ensures Peaks(s.prev, LegPoints(s, []))
  {
    var none: seq<Frame> := [];
    assert none[0..] == none;
    assert s.prev.Some? ==> LegPoints(s, []) == [s.prev.value];
  }

  /** From a new normaliser the percent stays within the active band until a frame of the leg is finished. */
  lemma {:induction false} StaysInBand(frames: seq<Frame>)
    ensures var shown := Run(NEW, frames).Shown();
      0.0 <= shown <= 99.9 || shown == 100.0
    ensures (forall f :: f in frames ==> !f.status.Finished?) ==> Run(NEW, frames).Shown() <= 99.9
  {
    if frames != [] {
      StaysInBand(frames[..|frames| - 1]);
      assert forall f :: f in frames[..|frames| - 1] ==> f in frames;
    }
  }

  /** A seed above 100 is still in force: its leg goes on, and no frame of it was finished. */
  predicate Overfull(s: State, frames: seq<Frame>) {
    && s.prev.Some? && s.prev.value > 100.0
    && !NewLeg(s, frames) && !HasFinished(frames[LegStart(s, frames)..])
  }

  lemma AboveExactly(s: State, frames: seq<Frame>)
    ensures Run(s, frames).Shown() > 100.0 <==> Overfull(s, frames)
  {
    var leg := frames[LegStart(s, frames)..];
    RunsTheMaximum(s, frames);
    PointsAreBelow(leg);
    var points := LegPoints(s, frames);
    if Overfull(s, frames) {
      assert points[0] == s.prev.value && points[0] in points;
    } else {
      forall x | x in points ensures x <= 100.0 { assert x in Floor(s, frames) || x in Points(leg); }
    }
  }

  lemma StepInLeg(s: State, f: Frame)
    requires f.progress.sourceTag == s.sourceTag
    ensures Next(s, f).Shown() >= s.Shown() <==> !(f.status.Finished? && s.Shown() > 100.0)
    ensures f.status.Finished? ==> Next(s, f).Shown() == 100.0
    ensures s.prev == Some(100.0) ==> Next(s, f).Shown() == 100.0
  {}

  /**
   Within a leg a frame lowers the percent exactly if it is finished and a seed above 100 was still in
   force; a finished frame shows 100 for the rest of the leg.
   */
  lemma NeverGoesDown(s: State, frames: seq<Frame>, f: Frame)
    requires f.progress.sourceTag == TagBefore(s, frames, |frames|)
    ensures Run(s, frames + [f]).Shown() >= Run(s, frames).Shown() <==> !(f.status.Finished? && Overfull(s, frames))
    ensures f.status.Finished? ==> Run(s, frames + [f]).Shown() == 100.0
    ensures Run(s, frames).prev == Some(100.0) ==> Run(s, frames + [f]).Shown() == 100.0
  {
    assert (frames + [f])[..|frames|] == frames;
    TagIsLast(s, frames);
    AboveExactly(s, frames);
    StepInLeg(Run(s, frames), f);
  }

  /** A seed above 100 is the one case in which a finished frame lowers the percent. */
  lemma OnlyAnOverfullSeedGoesDown(prev: real, f: Frame)
    requires f.status.Finished? && f.progress.sourceTag == 0
    ensures Next(State(Some(prev), 0), f).Shown() < prev <==> prev > 100.0
  {}

  lemma FractionGrows(a: real, b: real, count: real)
    requires count > 0.0 && a <= b
    ensures a / count * 100.0 <= b / count * 100.0
  {
    assert a / count <= b / count;
  }

  /** With fragments and no exact total, what is shown stays between the fragment done and the one under way. */
  lemma FragmentsBoundThePercent(m: RawProgress)
    requires Ratio(m.downloaded, m.total).None?
    requires m.fragmentCount.Some? && m.fragmentIndex.Some? && m.fragmentCount.value > 0
    ensures var count := m.fragmentCount.value as real;
      var index := Max(0, Min(m.fragmentIndex.value, m.fragmentCount.value)) as real;
      Inferred(m).Some? &&
      Clamped(index / count * 100.0) <= Clamped(Inferred(m).value) <= Clamped((index + 1.0) / count * 100.0)
  {
    var count := m.fragmentCount.value as real;
    var index := Max(0, Min(m.fragmentIndex.value, m.fragmentCount.value)) as real;
    FractionGrows(index, index + 1.0, count);
  }

  /** What a number shows as while the item is not finished. */
  predicate ShowsAs(shown: real, p: real) {
    if p < 0.0 then shown == 0.0 else if p > 99.9 then shown == 99.9 else shown == p
  }

  lemma ShareOfTotal(d: real, t: real)
    requires t > 0.0
    ensures d / t * 100.0 * t == d * 100.0
  {
    var q := d / t;
    assert q * t == d;
  }

  lemma ClampedShows(m: RawProgress, status: Status)
    requires !status.Finished?
    ensures var shown := Next(NEW, Frame(m, status)).Shown();
      if Usable(m).Some? then ShowsAs(shown, Usable(m).value) else shown == 0.0
  {
  }

  /**
   What the first frame of an unfinished item shows: the percent it reports, whatever its counts say; else the
   share of the bytes that are there; else, with fragments, the estimated share as far as the fragment under way
   allows it; else nothing.
   */
  lemma FirstFrameShows(m: RawProgress, status: Status)
    requires !status.Finished?
    ensures var shown := Next(NEW, Frame(m, status)).Shown();
      if m.percent.Some? && m.percent.value.Finite? then ShowsAs(shown, m.percent.value.value)
      else if m.downloaded.Some? && m.total.Some? && m.total.value > 0.0 then
        exists p :: p * m.total.value == m.downloaded.value * 100.0 && ShowsAs(shown, p)
      else if Fragmented(m) && EstimateFits(m) then ShowsAs(shown, Ratio(m.downloaded, m.estimate).value)
      else Inferred(m).None? ==> shown == 0.0
  {
    ClampedShows(m, status);
    if m.percent.Some? && m.percent.value.Finite? {
    } else if m.downloaded.Some? && m.total.Some? && m.total.value > 0.0 {
      ShareOfTotal(m.downloaded.value, m.total.value);
      assert ShowsAs(Next(NEW, Frame(m, status)).Shown(), Ratio(m.downloaded, m.total).value);
    } else if Fragmented(m) && EstimateFits(m) {
      FittingEstimateCounts(m);
    }
  }

  lemma FittingEstimateCounts(m: RawProgress)
    requires Ratio(m.downloaded, m.total).None? && Fragmented(m) && EstimateFits(m)
    ensures Inferred(m) == Ratio(m.downloaded, m.estimate)
  {
  }

  predicate Fragmented(m: RawProgress) {
    m.fragmentCount.Some? && m.fragmentIndex.Some? && m.fragmentCount.value > 0
  }

  /** The estimated share lies between the fragments done and the one under way. */
  predicate EstimateFits(m: RawProgress)
    requires Fragmented(m)
  {
    var count := m.fragmentCount.value as real;
    var index := Max(0, Min(m.fragmentIndex.value, m.fragmentCount.value)) as real;
    var estimated := Ratio(m.downloaded, m.estimate);
    && estimated.Some?
    && index / count * 100.0 <= estimated.value <= (index + 1.0) / count * 100.0 && estimated.value <= 99.9
  }

  lemma ShareIsBelowOne(a: real, b: real)
    requires 0.0 <= a < b
    ensures 0.0 <= a / b < 1.0
  {
    var q := a / b;
    assert q * b == a;
    if q >= 1.0 {
      ProductGrows(1.0, q, b);
    }
  }

  lemma ProductGrows(x: real, y: real, b: real)
    requires x <= y && b > 0.0
    ensures x * b <= y * b
  {}

  /** An estimate that the bytes have already reached is not believed when there are no fragments to check it. */
  lemma ReachedEstimateIsIgnored(m: RawProgress)
    requires Ratio(m.downloaded, m.total).None? && m.fragmentCount.None?
    requires m.downloaded.Some? && m.estimate.Some?
    ensures Inferred(m).Some? <==> m.estimate.value > m.downloaded.value && m.estimate.value > 0.0
    ensures Inferred(m).Some? && m.downloaded.value >= 0.0 ==> 0.0 <= Inferred(m).value < 100.0
  {
    if Inferred(m).Some? && m.downloaded.value >= 0.0 {
      ShareIsBelowOne(m.downloaded.value, m.estimate.value);
    }
  }
}
