/** The caption typist of the loading screen: an interval callback that, on every
    tick, shows one more character of a fixed caption and stops itself once the
    whole caption has been shown. */
module Typist {

  /** The caption being typed. */
  const FullText: string := "> Initializing portfolio..."

  /** `index` is the closure counter of the typing effect, `text` the caption state,
      `active` whether the typing interval is still scheduled. */
  datatype State = State(index: nat, text: string, active: bool)

  /** State when the effect starts: counter 0, empty caption, interval scheduled. */
  const Initial: State := State(0, "", true)

  /** Length of the caption once the counter has reached `index`: tick k (counted
      from 1) shows the prefix of length k - 1. */
  function ShownLength(index: nat): nat {
    if index == 0 then 0 else index - 1
  }

  /** The counter never passes one beyond the caption, and the caption shown is the
      prefix that the counter says has been typed. */
  predicate Valid(t: State)
    ensures Valid(t) ==> t.text <= FullText
  {
    t.index <= |FullText| + 1 && t.text == FullText[..ShownLength(t.index)]
  }

  /** One firing of the typing interval. While the counter is at most the caption's
      length, the caption becomes the prefix of that length and the counter moves on
      by one; otherwise the interval clears itself and nothing else changes. A tick
      of a cleared interval never happens, so it changes nothing. */
  function Tick(t: State): (r: State)
    ensures !t.active ==> r == t
    ensures t.active && t.index <= |FullText| ==>
      r.active && r.index == t.index + 1 && |r.text| == t.index && r.text <= FullText
    ensures t.active && t.index > |FullText| ==> !r.active && r.text == t.text && r.index == t.index
    ensures Valid(t) ==> Valid(r)
  {
    if !t.active then t
    else if t.index <= |FullText| then State(t.index + 1, FullText[..t.index], true)
    else t.(active := false)
  }

  /** Clearing the typing interval, as the effect's cleanup does on unmount. */
  function Clear(t: State): (r: State)
    ensures !r.active && r.index == t.index && r.text == t.text
  {
    t.(active := false)
  }

  /** The typist after `n` ticks. */
  function Run(n: nat): State {
    if n == 0 then Initial else Tick(Run(n - 1))
  }

  /** Exact state after `n` ticks: up to tick |FullText| + 1 the counter equals the
      number of ticks and the caption is the prefix of length n - 1; from tick
      |FullText| + 2 on the interval is cleared and the whole caption stays shown. */
  lemma {:induction false} RunShape(n: nat)
    ensures n <= |FullText| + 1 ==> Run(n) == State(n, FullText[..ShownLength(n)], true)
    ensures n >= |FullText| + 2 ==> Run(n) == State(|FullText| + 1, FullText, false)
  {
    if n > 0 {
      RunShape(n - 1);
      if n == |FullText| + 2 {
        assert FullText[..|FullText|] == FullText;
      }
    }
  }

  /** The typing interval is still scheduled after exactly the first |FullText| + 1
      ticks, and cleared from tick |FullText| + 2 on. */
  lemma {:induction false} ActiveIff(n: nat)
    ensures Run(n).active <==> n < |FullText| + 2
  {
    RunShape(n);
  }

  /** The captions shown by ticks 1, 2, ..., |FullText| + 1 are the prefixes of
      lengths 0, 1, ..., |FullText| in that order: each tick lengthens the caption by
      exactly one character, and the last one shows the whole caption. */
  lemma {:induction false} PrefixesInOrder(k: nat)
    requires 1 <= k <= |FullText| + 1
    ensures Run(k).text == FullText[..k - 1] && |Run(k).text| == k - 1
    ensures k <= |FullText| ==> |Run(k + 1).text| == |Run(k).text| + 1
    ensures Run(|FullText| + 1).text == FullText
  {
    RunShape(k);
    RunShape(k + 1);
    RunShape(|FullText| + 1);
  }

  /** For the caption of the loading screen (27 characters) the typist is still
      running after 28 ticks, stops on tick 29, and then shows the whole caption. */
  lemma CaptionTiming()
    ensures |FullText| == 27
    ensures Run(28).active && !Run(29).active && Run(29).text == FullText
  {
    RunShape(28);
    RunShape(29);
  }
}
