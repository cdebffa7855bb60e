/** The loading screen component: its state variables and the interval and timer
    callbacks that update them in place. */
module LoadingScreen {
  import Typist
  import Filler
  import Simulation

  class LoadingScreen {
    /** Closure counter of the typing effect. */
    var idx: nat
    /** Caption state. */
    var text: string
    /** Whether the typing interval is scheduled. */
    var typingActive: bool
    /** Raw progress state. */
    var progress: real
    /** Whether the progress interval is scheduled. */
    var progressActive: bool
    /** Whether the 500 ms exit timer is scheduled and has not fired. */
    var exitPending: bool
    /** Whether the overlay is shown. */
    var isLoading: bool

    function State(): Simulation.Snapshot
      reads this
    {
      Simulation.Snapshot(
        Typist.State(idx, text, typingActive),
        Filler.State(progress, progressActive, exitPending, isLoading))
    }

    predicate Valid()
      reads this
    {
      Simulation.Valid(State())
    }

    /** Mounting: the state starts empty and both effects schedule their intervals. */
    constructor ()
      ensures Valid() && State() == Simulation.Initial
      ensures text == "" && progress == 0.0 && isLoading
    {
      idx, text, typingActive := 0, "", true;
      progress, progressActive, exitPending, isLoading := 0.0, true, false, true;
    }

    /** The typing interval fires. */
    method TypingTick()
      requires Valid() && typingActive
      modifies this
      ensures Valid() && State() == Simulation.Step(old(State()), Simulation.TypingTick)
      ensures old(idx) <= |Typist.FullText| ==>
        text == Typist.FullText[..old(idx)] && idx == old(idx) + 1 && typingActive
      ensures old(idx) > |Typist.FullText| ==> !typingActive && text == old(text) && idx == old(idx)
      ensures progress == old(progress) && progressActive == old(progressActive)
      ensures exitPending == old(exitPending) && isLoading == old(isLoading)
    {
      if idx <= |Typist.FullText| {
        text := Typist.FullText[..idx];
        idx := idx + 1;
      } else {
        typingActive := false;
      }
    }

    /** The progress interval fires and `Math.random() * 15 + 5` draws `r`. */
    method ProgressTick(r: real)
      requires Valid() && progressActive && Filler.ValidDraw(r)
      modifies this
      ensures Valid() && State() == Simulation.Step(old(State()), Simulation.ProgressTick(r))
      ensures old(progress) < 100.0 ==>
        progress == old(progress) + r && progressActive && !exitPending
      ensures old(progress) >= 100.0 ==> progress == 100.0 && !progressActive && exitPending
      ensures isLoading == old(isLoading)
      ensures idx == old(idx) && text == old(text) && typingActive == old(typingActive)
    {
      if progress >= 100.0 {
        progressActive := false;
        exitPending := true;
        progress := 100.0;
      } else {
        progress := progress + r;
      }
    }

    /** The exit timer fires; it was scheduled by the completing progress tick. */
    method FireExitTimer()
      requires Valid() && exitPending
      modifies this
      ensures Valid() && State() == Simulation.Step(old(State()), Simulation.ExitTimer)
      ensures !isLoading && !exitPending && progress == 100.0
      ensures progressActive == old(progressActive)
      ensures idx == old(idx) && text == old(text) && typingActive == old(typingActive)
    {
      exitPending := false;
      isLoading := false;
    }

    /** Unmounting runs both cleanups: each clears its own interval. The exit timer
        is left scheduled. */
    method Unmount()
      requires Valid()
      modifies this
      ensures Valid() && State() == Simulation.Step(old(State()), Simulation.Unmount)
      ensures !typingActive && !progressActive
      ensures exitPending == old(exitPending) && isLoading == old(isLoading)
      ensures idx == old(idx) && text == old(text) && progress == old(progress)
    {
      typingActive := false;
      progressActive := false;
    }

    /** What the view shows: the caption, the percentage label and the bar width. */
    method View() returns (caption: string, percent: int, width: real)
      requires Valid()
      ensures caption == text && caption <= Typist.FullText
      ensures percent == Filler.DisplayPercent(progress) && 0 <= percent <= 100
      ensures width == Filler.BarWidth(progress) && 0.0 <= width <= 100.0
      ensures exitPending || !isLoading ==> percent == 100 && width == 100.0
    {
      caption := text;
      percent := Filler.DisplayPercent(progress);
      width := Filler.BarWidth(progress);
    }
  }
}
