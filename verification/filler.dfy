/** The progress filler of the loading screen: an interval callback that adds a
    random increment to the progress on every tick and, once the progress has
    reached 100, pins it there, clears itself and schedules the exit timer; plus
    the two clamps through which the view shows the progress. */
module Filler {

  /** `progress` is the raw progress state, `active` whether the progress interval is
      still scheduled, `exitPending` whether the 500 ms exit timer is scheduled and has
      not fired yet, `isLoading` whether the loading overlay is shown. */
  datatype State = State(progress: real, active: bool, exitPending: bool, isLoading: bool)

  /** State when the effect starts. */
  const Initial: State := State(0.0, true, false, true)

  /** A possible value of `Math.random() * 15 + 5`. */
  predicate ValidDraw(r: real) {
    5.0 <= r < 20.0
  }

  predicate ValidDraws(ds: seq<real>) {
    forall i :: 0 <= i < |ds| ==> ValidDraw(ds[i])
  }

  /** The state updater of one progress tick: a progress that has reached 100 is
      pinned to exactly 100, any other grows by the drawn increment. */
  function NextProgress(prev: real, r: real): (p: real)
    requires ValidDraw(r)
    ensures prev >= 100.0 ==> p == 100.0
    ensures prev < 100.0 ==> p == prev + r
    ensures prev < 100.0 ==> prev + 5.0 <= p < prev + 20.0
  {
    if prev >= 100.0 then 100.0 else prev + r
  }

  /** The filler has finished: either the exit timer is pending or it has fired. */
  predicate Completed(l: State) {
    l.exitPending || !l.isLoading
  }

  /** Raw progress stays below 120 (one increment past a value below 100); a running
      interval means the overlay is shown and no exit is pending; a pending exit or
      a hidden overlay means the progress was pinned to 100 and the interval cleared. */
  predicate Valid(l: State) {
    && 0.0 <= l.progress < 120.0
    && (l.active ==> l.isLoading && !l.exitPending)
    && (l.exitPending ==> l.isLoading && !l.active && l.progress == 100.0)
    && (!l.isLoading ==> !l.active && !l.exitPending && l.progress == 100.0)
  }

  /** One firing of the progress interval with drawn increment `r`. */
  function Tick(l: State, r: real): (n: State)
    requires ValidDraw(r)
    ensures !l.active ==> n == l
    ensures l.active && l.progress < 100.0 ==>
      && n.progress == l.progress + r
      && l.progress + 5.0 <= n.progress < l.progress + 20.0
      && n.active && n.exitPending == l.exitPending && n.isLoading == l.isLoading
    ensures l.active && l.progress >= 100.0 ==>
      n.progress == 100.0 && !n.active && n.exitPending && n.isLoading == l.isLoading
    ensures Valid(l) ==> Valid(n)
  {
    if !l.active then l
    else if l.progress >= 100.0 then l.(progress := NextProgress(l.progress, r), active := false, exitPending := true)
    else l.(progress := NextProgress(l.progress, r))
  }

  /** The 500 ms exit timer firing: it hides the overlay, once. */
  function FireExit(l: State): (n: State)
    ensures l.exitPending ==> !n.isLoading && !n.exitPending && n.progress == l.progress && n.active == l.active
    ensures !l.exitPending ==> n == l
    ensures Valid(l) ==> Valid(n)
  {
    if l.exitPending then l.(exitPending := false, isLoading := false) else l
  }

  /** The effect's cleanup on unmount: it clears the progress interval only, so a
      pending exit timer stays scheduled. */
  function Clear(l: State): (n: State)
    ensures !n.active && n.progress == l.progress
    ensures n.exitPending == l.exitPending && n.isLoading == l.isLoading
    ensures Valid(l) ==> Valid(n)
  {
    l.(active := false)
  }

  /** The percentage the view prints: `Math.min(100, Math.round(p))`, where
      `Math.round(x)` is the integer nearest to x, halves rounded up. */
  function DisplayPercent(p: real): (pct: int)
    ensures pct <= 100
    ensures p >= -0.5 ==> pct >= 0
    ensures pct == 100 <==> p >= 99.5
    ensures pct < 100 ==> pct as real - 0.5 <= p < pct as real + 0.5
  {
    var rounded := (p + 0.5).Floor;
    if rounded < 100 then rounded else 100
  }

  /** The width of the bar, in percent: `Math.min(100, p)`. */
  function BarWidth(p: real): (w: real)
    ensures w <= 100.0 && w <= p
    ensures w == p || w == 100.0
  {
    if p < 100.0 then p else 100.0
  }

  /** Both views of the progress are monotone in the raw progress. */
  lemma ViewsMonotone(p: real, q: real)
    requires p <= q
    ensures DisplayPercent(p) <= DisplayPercent(q)
    ensures BarWidth(p) <= BarWidth(q)
  {
  }

  /** No tick makes the shown percentage or the bar go back, not even the tick that
      pins an overshooting progress back to 100. */
  lemma TickViewsNeverDecrease(l: State, r: real)
    requires Valid(l) && ValidDraw(r)
    ensures DisplayPercent(l.progress) <= DisplayPercent(Tick(l, r).progress)
    ensures BarWidth(l.progress) <= BarWidth(Tick(l, r).progress)
  {
  }

  /** The raw progress itself is not monotone: from the start, increments
      19, 19, 19, 19, 19 and 15 lead to 110, and the next tick pins it down to 100,
      while the shown percentage stays at 100. */
  lemma RawProgressOvershoots()
    ensures ValidDraws([19.0, 19.0, 19.0, 19.0, 19.0, 15.0, 5.0])
    ensures Run([19.0, 19.0, 19.0, 19.0, 19.0, 15.0]).progress == 110.0
    ensures Run([19.0, 19.0, 19.0, 19.0, 19.0, 15.0, 5.0]).progress == 100.0
    ensures DisplayPercent(110.0) == DisplayPercent(100.0) == 100
  {
    var s1: seq<real> := [19.0];
    RunExtends([], 19.0);
    assert [] + [19.0] == s1;
    assert Run(s1).progress == 19.0;
    var s2 := s1 + [19.0];
    RunExtends(s1, 19.0);
    assert Run(s2).progress == 38.0;
    var s3 := s2 + [19.0];
    RunExtends(s2, 19.0);
    assert Run(s3).progress == 57.0;
    var s4 := s3 + [19.0];
    RunExtends(s3, 19.0);
    assert Run(s4).progress == 76.0;
    var s5 := s4 + [19.0];
    RunExtends(s4, 19.0);
    assert Run(s5).progress == 95.0;
    var s6 := s5 + [15.0];
    RunExtends(s5, 15.0);
    assert Run(s6).progress == 110.0;
    var s7 := s6 + [5.0];
    RunExtends(s6, 5.0);
    assert Run(s7).progress == 100.0;
    assert s6 == [19.0, 19.0, 19.0, 19.0, 19.0, 15.0];
    assert s7 == [19.0, 19.0, 19.0, 19.0, 19.0, 15.0, 5.0];
  }

  /** One more draw is one more tick. */
  lemma RunExtends(ds: seq<real>, r: real)
    requires ValidDraws(ds) && ValidDraw(r)
    ensures ValidDraws(ds + [r]) && Run(ds + [r]) == Tick(Run(ds), r)
  {
  }

  /** The filler after one tick per draw in `ds`, in order, with no other event. */
  function Run(ds: seq<real>): State
    requires ValidDraws(ds)
  {
    if |ds| == 0 then Initial else Tick(Run(ds[..|ds| - 1]), ds[|ds| - 1])
  }

  /** After n ticks the filler is either still running with a progress in
      [5n, 20n), or it has completed with the progress pinned at 100. */
  lemma {:induction false} RunBounds(ds: seq<real>)
    requires ValidDraws(ds)
    ensures Valid(Run(ds)) && Run(ds).isLoading
    ensures Run(ds).active ==> 5.0 * |ds| as real <= Run(ds).progress
    ensures Run(ds).active && |ds| > 0 ==> Run(ds).progress < 20.0 * |ds| as real
    ensures !Run(ds).active ==> Run(ds).exitPending && Run(ds).progress == 100.0
  {
    if |ds| > 0 {
      RunBounds(ds[..|ds| - 1]);
    }
  }

  /** Each increment is at least 5, so the progress reaches 100 within 20 ticks and
      the filler completes by tick 21 at the latest. */
  lemma {:induction false} CompletesWithin21Ticks(ds: seq<real>)
    requires ValidDraws(ds) && |ds| >= 21
    ensures !Run(ds).active && Run(ds).exitPending && Run(ds).progress == 100.0
  {
    var prefix := ds[..|ds| - 1];
    if |ds| == 21 {
      RunBounds(prefix);
    } else {
      CompletesWithin21Ticks(prefix);
    }
  }

  /** Each increment is below 20, so the progress is below 100 for the first 5 ticks
      and the filler cannot complete before tick 7. */
  lemma {:induction false} RunningForSixTicks(ds: seq<real>)
    requires ValidDraws(ds) && |ds| <= 6
    ensures Run(ds).active
  {
    if |ds| > 0 {
      var prefix := ds[..|ds| - 1];
      RunningForSixTicks(prefix);
      RunBounds(prefix);
    }
  }
}
