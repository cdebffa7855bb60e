# Loading screen of the portfolio site, in Dafny

This project models the loading screen that the portfolio site shows before its
content (`src/components/LoadingScreen.tsx`). Two interval callbacks drive it, and
the model proves what they do.

- The **caption typist** fires every 80 ms. It shows the next prefix of the caption
  `> Initializing portfolio...` and clears itself once the whole caption has been shown.
- The **progress filler** fires every 200 ms. It adds a random increment in [5, 20)
  to the progress. Once the progress is 100 or more, it pins the progress to 100,
  clears itself and schedules a 500 ms timer that hides the overlay.

The view shows the percentage `min(100, round(progress))` and a bar of width
`min(100, progress)`.

Ticks and timers are callbacks the event loop may run in any order. The random
increment is a parameter `r` with `5 <= r < 20`.

Files:
- `typist.dfy` (module `Typist`): the caption tick as a function and the typing run.
- `filler.dfy` (module `Filler`): the progress tick, the exit timer, the cleanup,
  the two display clamps and bounds on a progress run.
- `simulation.dfy` (module `Simulation`): both machines in one state, driven by any
  sequence of callbacks.
- `loading_screen.dfy` (module `LoadingScreen`): the component as a class. Its fields
  are the state variables. Its methods update them in place, and each method's
  contract ties the new state to `Simulation.Step` applied to the old state.

One might expect the progress to be monotone and unmounting to cancel all pending
work. The code does neither, and the model follows the code.
- The raw progress is not monotone and can exceed 100. A tick from 95 with increment
  15 gives 110, and the next tick pins it back to 100. Only the shown percentage and
  the bar width are monotone and capped at 100 (`Filler.RawProgressOvershoots`,
  `Simulation.ViewsNeverDecrease`).
- Unmounting does not cancel all pending work. The cleanups clear the two intervals
  (lines 22 and 37), but the 500 ms timer set at line 30 is never cancelled. Its
  callback still runs after unmount, an orphaned callback. React discards the state
  update it makes on the unmounted component; the model records its
  `setIsLoading(false)` as the flag turning false (`Simulation.AfterUnmount`).

## Model

| member | source | states |
|---|---|---|
| Typist.Valid | src/components/LoadingScreen.tsx:9-16 | the counter never exceeds the caption length plus one, and the caption shown is a prefix of the full caption |
| Typist.Tick | src/components/LoadingScreen.tsx:13-20 | an active tick with counter at most the caption length shows the prefix of that length and advances the counter by one; past the end it clears the interval and leaves the caption; a cleared interval changes nothing; the invariant is kept |
| Typist.Clear | src/components/LoadingScreen.tsx:22 | the cleanup clears the typing interval and leaves the caption and counter unchanged |
| Typist.RunShape | src/components/LoadingScreen.tsx:11-20 | after n <= N + 1 ticks (N the caption length) the counter is n and the caption is the prefix of length n - 1; from tick N + 2 on, the interval is cleared and the whole caption stays shown |
| Typist.ActiveIff | src/components/LoadingScreen.tsx:14-18 | the typing interval is still scheduled after n ticks if and only if n < N + 2 |
| Typist.PrefixesInOrder | src/components/LoadingScreen.tsx:12-16 | ticks 1 to N + 1 show the prefixes of lengths 0 to N in order, each one character longer than the last; the last is the full caption |
| Typist.CaptionTiming | src/components/LoadingScreen.tsx:9-20 | the caption has 27 characters; the interval runs for 28 ticks and clears itself on tick 29 with the full caption shown |
| Filler.NextProgress | src/components/LoadingScreen.tsx:27-33 | the state updater pins a progress of 100 or more to exactly 100 and otherwise raises it by exactly the drawn increment (so by at least 5 and less than 20) |
| Filler.Tick | src/components/LoadingScreen.tsx:26-35 | a tick below 100 raises the progress by exactly the drawn increment (so by at least 5 and less than 20) and keeps the interval, the exit timer and the overlay flag; a tick at 100 or more pins the progress to 100, clears the interval and schedules the exit; a cleared interval changes nothing; the filler invariant (progress in [0, 120), flags consistent) is kept |
| Filler.FireExit | src/components/LoadingScreen.tsx:30 | a pending exit timer hides the overlay and is consumed; without one nothing changes; the invariant is kept |
| Filler.Clear | src/components/LoadingScreen.tsx:37 | the cleanup clears the progress interval but keeps a pending exit timer and the overlay flag |
| Filler.DisplayPercent | src/components/LoadingScreen.tsx:89 | the shown percentage is at most 100, non-negative for a non-negative progress, 100 exactly when the progress is at least 99.5, and otherwise the integer nearest to the progress |
| Filler.BarWidth | src/components/LoadingScreen.tsx:94 | the bar width is the progress capped at 100 |
| Filler.ViewsMonotone | src/components/LoadingScreen.tsx:89-94 | a larger progress never shows a smaller percentage or a narrower bar |
| Filler.TickViewsNeverDecrease | src/components/LoadingScreen.tsx:27-33 | no progress tick lowers the shown percentage or the bar width, including the tick that pins an overshoot back to 100 |
| Filler.RawProgressOvershoots | src/components/LoadingScreen.tsx:28-33 | from the start, increments 19, 19, 19, 19, 19, 15 reach a raw progress of 110 and the next tick lowers it to 100, while the shown percentage stays 100 |
| Filler.RunBounds | src/components/LoadingScreen.tsx:26-35 | after n ticks the filler is either running with progress in [5n, 20n) or has completed with progress 100 and the exit scheduled |
| Filler.CompletesWithin21Ticks | src/components/LoadingScreen.tsx:28-33 | whatever the increments, the filler has completed after 21 ticks |
| Filler.RunningForSixTicks | src/components/LoadingScreen.tsx:28-33 | whatever the increments, the filler is still running after 6 ticks, so it completes on tick 7 at the earliest |
| Simulation.Step | src/components/LoadingScreen.tsx:11-38 | each callback keeps both invariants; the typing tick leaves the progress side alone; progress ticks and the exit timer leave the caption alone; no callback shows a hidden overlay again; a completed filler stays completed |
| Simulation.RunKeepsValid | src/components/LoadingScreen.tsx:80-94 | under any interleaving the caption is a prefix of the full caption, the shown percentage is in [0, 100] and the bar width is in [0, 100] |
| Simulation.StepHidesOnlyOnExit | src/components/LoadingScreen.tsx:30 | a callback hides the shown overlay if and only if it is the exit timer firing while pending |
| Simulation.StepSchedulesExitOnlyOnCompletion | src/components/LoadingScreen.tsx:28-31 | a callback schedules the exit timer if and only if it is a running progress tick that finds the progress at 100 or more |
| Simulation.HiddenStaysHidden | src/components/LoadingScreen.tsx:5-30 | once the overlay is hidden, no sequence of callbacks shows it again |
| Simulation.CompletedStaysCompleted | src/components/LoadingScreen.tsx:28-31 | once the filler has completed (exit pending or overlay hidden), no sequence of callbacks makes it run again |
| Simulation.ViewsNeverDecrease | src/components/LoadingScreen.tsx:89-94 | under any interleaving the shown percentage and the bar width never decrease |
| Simulation.AfterUnmount | src/components/LoadingScreen.tsx:22-37 | after unmount the caption and the progress never change and the interval stays cleared, but a pending exit timer is not cancelled: its orphaned callback still runs, and the model records its `setIsLoading(false)` as the flag turning false |
| LoadingScreen.LoadingScreen.constructor | src/components/LoadingScreen.tsx:5-12 | mounting starts with an empty caption, progress 0, the overlay shown and both intervals scheduled |
| LoadingScreen.LoadingScreen.TypingTick | src/components/LoadingScreen.tsx:13-20 | the typing callback updates the fields as the typist tick does and touches no progress field |
| LoadingScreen.LoadingScreen.ProgressTick | src/components/LoadingScreen.tsx:26-35 | the progress callback adds the increment below 100, or pins to 100, clears the interval and schedules the exit; it touches no caption field |
| LoadingScreen.LoadingScreen.FireExitTimer | src/components/LoadingScreen.tsx:30 | the exit timer hides the overlay, with the progress at 100 |
| LoadingScreen.LoadingScreen.Unmount | src/components/LoadingScreen.tsx:22-37 | the cleanups clear both intervals and keep the pending exit timer and everything else |
| LoadingScreen.LoadingScreen.View | src/components/LoadingScreen.tsx:80-94 | the view shows a caption that is a prefix of the full caption, a percentage in [0, 100] and a bar width in [0, 100]; once the exit is pending or the overlay hidden, both are 100 |

## Left out

- Rendering and animation: the `motion` and `AnimatePresence` elements, their
  transitions, the logo, the cursor and the loading dots. These are presentation
  handled by a library that is not part of this model.
- Real time. The 80 ms, 200 ms and 500 ms periods are not modelled, only the order
  of callbacks. Every interleaving of the two intervals and the exit timer is allowed.
- `Math.random()`. Each progress tick takes its increment as a parameter in [5, 20).
- Floating point. The progress is a real number, so rounding of `prev + r` in
  double precision is not modelled.
- React's state machinery: batching of state updates, the updater function running
  twice under StrictMode, and the timer being scheduled from inside the updater.
- The parent page (`src/pages/Index.tsx`) is not part of this model. It unmounts the
  loading screen after its own 2500 ms timeout, whatever the progress.
