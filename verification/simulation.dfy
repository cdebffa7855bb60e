/** The whole loading screen as one state: the typist and the filler run side by
    side, and the event loop fires their callbacks in any order. */
module Simulation {
  import Typist
  import Filler

  datatype Snapshot = Snapshot(typist: Typist.State, filler: Filler.State)

  /** The callbacks the event loop can run: a firing of the typing interval, a
      firing of the progress interval with its random increment, the exit timer,
      and the cleanup of both effects when the component unmounts. */
  datatype Event = TypingTick | ProgressTick(r: real) | ExitTimer | Unmount

  predicate Possible(e: Event) {
    e.ProgressTick? ==> Filler.ValidDraw(e.r)
  }

  predicate AllPossible(es: seq<Event>) {
    forall i :: 0 <= i < |es| ==> Possible(es[i])
  }

  const Initial: Snapshot := Snapshot(Typist.Initial, Filler.Initial)

  predicate Valid(s: Snapshot) {
    Typist.Valid(s.typist) && Filler.Valid(s.filler)
  }

  /** One callback. The typing interval touches only the caption, the progress
      interval and the exit timer touch only the progress side. */
  function Step(s: Snapshot, e: Event): (n: Snapshot)
    requires Possible(e)
    ensures Valid(s) ==> Valid(n)
    ensures e.TypingTick? ==> n.filler == s.filler
    ensures e.ProgressTick? || e.ExitTimer? ==> n.typist == s.typist
    ensures n.filler.isLoading ==> s.filler.isLoading
    ensures Valid(s) && Filler.Completed(s.filler) ==> Filler.Completed(n.filler)
  {
    match e
    case TypingTick => s.(typist := Typist.Tick(s.typist))
    case ProgressTick(r) => s.(filler := Filler.Tick(s.filler, r))
    case ExitTimer => s.(filler := Filler.FireExit(s.filler))
    case Unmount => Snapshot(Typist.Clear(s.typist), Filler.Clear(s.filler))
  }

  /** The state after the callbacks `es`, in order. */
  function Run(s: Snapshot, es: seq<Event>): Snapshot
    requires AllPossible(es)
    decreases |es|
  {
    if es == [] then s else Run(Step(s, es[0]), es[1..])
  }

  /** Whatever the interleaving, the caption stays a prefix of the full caption, the
      raw progress stays in [0, 120), the shown percentage in [0, 100] and the bar
      width in [0, 100]. */
  lemma {:induction false} RunKeepsValid(s: Snapshot, es: seq<Event>)
    requires Valid(s) && AllPossible(es)
    ensures Valid(Run(s, es))
    ensures Run(s, es).typist.text <= Typist.FullText
    ensures 0 <= Filler.DisplayPercent(Run(s, es).filler.progress) <= 100
    ensures 0.0 <= Filler.BarWidth(Run(s, es).filler.progress) <= 100.0
    decreases |es|
  {
    if es != [] {
      RunKeepsValid(Step(s, es[0]), es[1..]);
    }
  }

  /** The overlay is hidden by exactly one kind of callback: the exit timer, firing
      while it is pending. No callback ever shows the overlay again. */
  lemma StepHidesOnlyOnExit(s: Snapshot, e: Event)
    requires Possible(e) && s.filler.isLoading
    ensures !Step(s, e).filler.isLoading <==> e.ExitTimer? && s.filler.exitPending
  {
  }

  /** The exit timer is scheduled by exactly one kind of callback: a progress tick
      that finds the progress at 100 or more while the interval runs. */
  lemma StepSchedulesExitOnlyOnCompletion(s: Snapshot, e: Event)
    requires Possible(e) && !s.filler.exitPending
    ensures Step(s, e).filler.exitPending <==>
      e.ProgressTick? && s.filler.active && s.filler.progress >= 100.0
  {
  }

  /** Once the overlay is hidden it stays hidden, whatever runs afterwards. */
  lemma {:induction false} HiddenStaysHidden(s: Snapshot, es: seq<Event>)
    requires AllPossible(es) && !s.filler.isLoading
    ensures !Run(s, es).filler.isLoading
    decreases |es|
  {
    if es != [] {
      HiddenStaysHidden(Step(s, es[0]), es[1..]);
    }
  }

  /** Once the filler has completed it stays completed, whatever runs afterwards:
      the loading screen never goes back to running. */
  lemma {:induction false} CompletedStaysCompleted(s: Snapshot, es: seq<Event>)
    requires Valid(s) && AllPossible(es) && Filler.Completed(s.filler)
    ensures Filler.Completed(Run(s, es).filler)
    decreases |es|
  {
    if es != [] {
      CompletedStaysCompleted(Step(s, es[0]), es[1..]);
    }
  }

  /** The shown percentage and the bar never go back, whatever the interleaving,
      even though the raw progress may overshoot 100 and be pinned back to it. */
  lemma {:induction false} ViewsNeverDecrease(s: Snapshot, es: seq<Event>)
    requires Valid(s) && AllPossible(es)
    ensures Filler.DisplayPercent(s.filler.progress) <= Filler.DisplayPercent(Run(s, es).filler.progress)
    ensures Filler.BarWidth(s.filler.progress) <= Filler.BarWidth(Run(s, es).filler.progress)
    decreases |es|
  {
    if es != [] {
      var n := Step(s, es[0]);
      if es[0].ProgressTick? {
        Filler.TickViewsNeverDecrease(s.filler, es[0].r);
      }
      ViewsNeverDecrease(n, es[1..]);
    }
  }

  /** After the unmount cleanup no interval fires any more: the caption and the
      progress never change again. The exit timer is not cancelled by the cleanup:
      its callback still runs after unmount, an orphaned callback, and the model
      records its `setIsLoading(false)` as the flag turning false. */
  lemma {:induction false} AfterUnmount(s: Snapshot, es: seq<Event>)
    requires AllPossible(es)
    ensures Run(Step(s, Unmount), es).typist == Step(s, Unmount).typist
    ensures Run(Step(s, Unmount), es).filler.progress == s.filler.progress
    ensures !Run(Step(s, Unmount), es).filler.active
    ensures s.filler.exitPending && ExitTimer in es ==> !Run(Step(s, Unmount), es).filler.isLoading
    decreases |es|
  {
    if es != [] {
      var u := Step(s, Unmount);
      var n := Step(u, es[0]);
      assert Step(n, Unmount) == n;
      AfterUnmount(n, es[1..]);
      if s.filler.exitPending && ExitTimer in es && es[0] != ExitTimer {
        assert ExitTimer in es[1..];
      }
      if !n.filler.isLoading {
        HiddenStaysHidden(n, es[1..]);
      }
    }
  }
}
