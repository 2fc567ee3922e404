/**
 * The debounce / press-edge rule of `my_timer_callback`, common to
 * 10_button_with_dt/dt_button.c and 08_timer_with_button/timer_button.c.
 * Each tick shifts one raw button sample into a three-deep history; when the
 * three samples agree they become the confirmed level, and the LED is toggled
 * when the confirmed level goes from RELEASED to PRESSED.
 */
module Debounce {
  /** A GPIO level as gpio_get_value returns it for a healthy line: 0 or 1. */
  type Level = x: int | 0 <= x <= 1

  /** BUTTON_STATE: the button pulls its line low when pressed. */
  const PRESSED: Level := 0
  const RELEASED: Level := 1

  /** debounce_button1 (newest) .. debounce_button3 (oldest) and last_button_state. */
  datatype History = History(b1: Level, b2: Level, b3: Level, last: Level)

  /** The module-scope initial values: all samples RELEASED, confirmed level 0 (PRESSED). */
  const Initial: History := History(RELEASED, RELEASED, RELEASED, PRESSED)

  predicate Stable(h: History) { h.b1 == h.b2 && h.b2 == h.b3 }

  /** Shift the new sample in; the oldest one drops out. */
  function Shift(h: History, sample: Level): History
  {
    History(sample, h.b1, h.b2, h.last)
  }

  /** Whether this tick toggles the LED. */
  predicate Fires(h: History, sample: Level)
  {
    var s := Shift(h, sample);
    Stable(s) && s.b1 == PRESSED && h.last == RELEASED
  }

  /** The history after one tick. */
  function Next(h: History, sample: Level): History
  {
    var s := Shift(h, sample);
    if Stable(s) then s.(last := s.b1) else s
  }

  /** The LED level after one tick: `1 - old` on a press edge, unchanged otherwise. */
  function NextLed(h: History, sample: Level, led: Level): (r: Level)
    ensures r != led <==> Fires(h, sample)
  {
    if Fires(h, sample) then 1 - led else led
  }

  /** A tick shifts the history: b3 := b2, b2 := b1, b1 := sample. */
  lemma NextShifts(h: History, sample: Level)
    ensures Next(h, sample).b1 == sample && Next(h, sample).b2 == h.b1 && Next(h, sample).b3 == h.b2
  {
  }

  /** Noise rejection: while the three samples disagree, nothing is confirmed and nothing fires. */
  lemma UnstableIsInert(h: History, sample: Level)
    requires !Stable(Shift(h, sample))
    ensures Next(h, sample).last == h.last && !Fires(h, sample)
  {
  }

  /** Three agreeing samples become the confirmed level. */
  lemma StableConfirms(h: History, sample: Level)
    requires Stable(Shift(h, sample))
    ensures Next(h, sample).last == sample
  {
  }

  /**
   * A tick fires exactly when this sample and the two before it are PRESSED
   * and the confirmed level was RELEASED; equivalently, exactly when the
   * confirmed level moves from RELEASED to PRESSED.
   */
  lemma FiresIff(h: History, sample: Level)
    ensures Fires(h, sample) <==>
      sample == PRESSED && h.b1 == PRESSED && h.b2 == PRESSED && h.last == RELEASED
    ensures Fires(h, sample) <==> h.last == RELEASED && Next(h, sample).last == PRESSED
  {
  }

  /** Whether a tick confirms a release: the confirmed level moves from PRESSED to RELEASED. */
  predicate Releases(h: History, sample: Level)
  {
    h.last == PRESSED && Next(h, sample).last == RELEASED
  }

  /** The history after a sequence of ticks. */
  function Run(h: History, samples: seq<Level>): History
    decreases |samples|
  {
    if samples == [] then h else Run(Next(h, samples[0]), samples[1..])
  }

  /** How many of a sequence of ticks toggle the LED. */
  function Toggles(h: History, samples: seq<Level>): nat
    decreases |samples|
  {
    if samples == [] then 0
    else (if Fires(h, samples[0]) then 1 else 0) + Toggles(Next(h, samples[0]), samples[1..])
  }

  /** How many of a sequence of ticks confirm a release. */
  function ReleaseCount(h: History, samples: seq<Level>): nat
    decreases |samples|
  {
    if samples == [] then 0
    else (if Releases(h, samples[0]) then 1 else 0) + ReleaseCount(Next(h, samples[0]), samples[1..])
  }

  /** The LED level after a sequence of ticks. */
  function RunLed(h: History, samples: seq<Level>, led: Level): Level
    decreases |samples|
  {
    if samples == [] then led else RunLed(Next(h, samples[0]), samples[1..], NextLed(h, samples[0], led))
  }

  function IsReleased(h: History): nat { if h.last == RELEASED then 1 else 0 }

  /**
   * Toggles and confirmed releases alternate: over any run, the toggles plus
   * a final RELEASED level equal the releases plus an initial RELEASED level.
   */
  lemma {:induction false} TogglesBalanceReleases(h: History, samples: seq<Level>)
    ensures Toggles(h, samples) + IsReleased(Run(h, samples)) == ReleaseCount(h, samples) + IsReleased(h)
    decreases |samples|
  {
    if samples != [] {
      TogglesBalanceReleases(Next(h, samples[0]), samples[1..]);
    }
  }

  /** One toggle per press: a run from a confirmed PRESSED level toggles at most as often as it confirms a release. */
  lemma OneTogglePerPress(h: History, samples: seq<Level>)
    requires h.last == PRESSED
    ensures Toggles(h, samples) <= ReleaseCount(h, samples)
  {
    TogglesBalanceReleases(h, samples);
  }

  /**
   * After a toggle the confirmed level is PRESSED, so no later tick toggles
   * until a stable RELEASED window has been confirmed.
   */
  lemma NoRetoggleWhileHeld(h: History, sample: Level, later: seq<Level>)
    requires Fires(h, sample)
    requires ReleaseCount(Next(h, sample), later) == 0
    ensures Toggles(Next(h, sample), later) == 0
  {
    OneTogglePerPress(Next(h, sample), later);
  }

  /** From the initial state the first toggle needs a prior stable RELEASED window. */
  lemma InitialNeedsRelease(samples: seq<Level>)
    ensures Toggles(Initial, samples) <= ReleaseCount(Initial, samples)
  {
    OneTogglePerPress(Initial, samples);
  }

  /** The LED ends up flipped exactly when an odd number of ticks toggled it. */
  lemma {:induction false} RunLedParity(h: History, samples: seq<Level>, led: Level)
    ensures RunLed(h, samples, led) == if Toggles(h, samples) % 2 == 0 then led else 1 - led
    decreases |samples|
  {
    if samples != [] {
      RunLedParity(Next(h, samples[0]), samples[1..], NextLed(h, samples[0], led));
    }
  }

  /** Peeling the first tick off a run. */
  lemma TickThenRun(h: History, x: Level, xs: seq<Level>)
    ensures Run(h, [x] + xs) == Run(Next(h, x), xs)
    ensures Toggles(h, [x] + xs) == (if Fires(h, x) then 1 else 0) + Toggles(Next(h, x), xs)
  {
    assert ([x] + xs)[0] == x;
    assert ([x] + xs)[1..] == xs;
  }

  /** From any state, three RELEASED ticks followed by three PRESSED ticks toggle exactly once. */
  lemma CleanPressTogglesOnce(h: History)
    ensures Toggles(h, [RELEASED, RELEASED, RELEASED, PRESSED, PRESSED, PRESSED]) == 1
    ensures Run(h, [RELEASED, RELEASED, RELEASED, PRESSED, PRESSED, PRESSED]).last == PRESSED
  {
    var t5 := [PRESSED];
    var t4 := [PRESSED] + t5;
    var t3 := [PRESSED] + t4;
    var t2 := [RELEASED] + t3;
    var t1 := [RELEASED] + t2;
    assert [RELEASED] + t1 == [RELEASED, RELEASED, RELEASED, PRESSED, PRESSED, PRESSED];
    var h1 := Next(h, RELEASED);
    var h2 := Next(h1, RELEASED);
    var h3 := Next(h2, RELEASED);
    var h4 := Next(h3, PRESSED);
    var h5 := Next(h4, PRESSED);
    TickThenRun(h, RELEASED, t1);
    TickThenRun(h1, RELEASED, t2);
    TickThenRun(h2, RELEASED, t3);
    TickThenRun(h3, PRESSED, t4);
    TickThenRun(h4, PRESSED, t5);
    TickThenRun(h5, PRESSED, []);
    assert [PRESSED] + [] == t5;
  }

  /** A single noisy PRESSED sample inside a RELEASED stretch does not toggle, from the initial state. */
  lemma NoisySampleIgnored()
    ensures Toggles(Initial, [RELEASED, RELEASED, PRESSED, RELEASED, RELEASED, RELEASED]) == 0
  {
    var t5 := [RELEASED];
    var t4 := [RELEASED] + t5;
    var t3 := [RELEASED] + t4;
    var t2 := [PRESSED] + t3;
    var t1 := [RELEASED] + t2;
    assert [RELEASED] + t1 == [RELEASED, RELEASED, PRESSED, RELEASED, RELEASED, RELEASED];
    var h1 := Next(Initial, RELEASED);
    var h2 := Next(h1, RELEASED);
    var h3 := Next(h2, PRESSED);
    var h4 := Next(h3, RELEASED);
    var h5 := Next(h4, RELEASED);
    TickThenRun(Initial, RELEASED, t1);
    TickThenRun(h1, RELEASED, t2);
    TickThenRun(h2, PRESSED, t3);
    TickThenRun(h3, RELEASED, t4);
    TickThenRun(h4, RELEASED, t5);
    TickThenRun(h5, RELEASED, []);
    assert [RELEASED] + [] == t5;
  }

  /** Two clean presses from the initial state toggle twice and leave the LED where it started. */
  lemma TwoPressesRestoreLed(led: Level)
    ensures RunLed(Initial, [RELEASED, RELEASED, RELEASED, PRESSED, PRESSED, PRESSED,
                             RELEASED, RELEASED, RELEASED, PRESSED, PRESSED, PRESSED], led) == led
  {
    var press := [RELEASED, RELEASED, RELEASED, PRESSED, PRESSED, PRESSED];
    CleanPressTogglesOnce(Initial);
    CleanPressTogglesOnce(Run(Initial, press));
    RunAppend(Initial, press, press);
    RunLedParity(Initial, press + press, led);
    assert press + press == [RELEASED, RELEASED, RELEASED, PRESSED, PRESSED, PRESSED,
                             RELEASED, RELEASED, RELEASED, PRESSED, PRESSED, PRESSED];
  }

  /** Running two sequences back to back counts the toggles of each. */
  lemma {:induction false} RunAppend(h: History, xs: seq<Level>, ys: seq<Level>)
    ensures Run(h, xs + ys) == Run(Run(h, xs), ys)
    ensures Toggles(h, xs + ys) == Toggles(h, xs) + Toggles(Run(h, xs), ys)
    decreases |xs|
  {
    if xs == [] {
      assert xs + ys == ys;
    } else {
      assert (xs + ys)[0] == xs[0];
      assert (xs + ys)[1..] == xs[1..] + ys;
      RunAppend(Next(h, xs[0]), xs[1..], ys);
    }
  }
}
