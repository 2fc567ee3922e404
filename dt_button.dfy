/**
 * 10_button_with_dt/dt_button.c: a platform driver whose probe checks the
 * device-tree properties, acquires the button GPIO (input) and the LED GPIO
 * (output, initially low), and arms a 10 ms timer whose callback debounces the
 * button and toggles the LED on each press.
 */
module DtButton {
  import opened Kernel
  import opened Debounce

  /** The two GPIO descriptors the driver owns. */
  datatype Gpio = Button | Led

  /** What gpiod_get answers: a descriptor, or an ERR_PTR carrying a negative errno. */
  datatype Acquire = Got | Refused(err: Errno)

  /**
   * What the device tree and the GPIO subsystem answer during probe: whether
   * each required property is present, the return codes of the string reads
   * of "label" and "name" (0 on success), and the two gpiod_get answers.
   */
  datatype ProbeEnv = ProbeEnv(
    hasLabel: bool, hasMyValue: bool, hasButtonGpio: bool, hasLedGpio: bool,
    labelRead: int, nameRead: int,
    button: Acquire, led: Acquire)

  /** The resources probe leaves behind: its return code, the descriptors held and whether the timer is armed. */
  datatype Ownership = Ownership(ret: int, held: set<Gpio>, armed: bool)

  predicate PropertiesPresent(env: ProbeEnv)
  {
    env.hasLabel && env.hasMyValue && env.hasButtonGpio && env.hasLedGpio
  }

  /** The outcome of probe from an unbound driver. */
  function ProbeSpec(env: ProbeEnv): Ownership
  {
    if !PropertiesPresent(env) then Ownership(-ENODEV, {}, false)
    else if env.labelRead != 0 then Ownership(env.labelRead, {}, false)
    else if env.nameRead != 0 then Ownership(env.nameRead, {}, false)
    else match env.button
      case Refused(e) => Ownership(e, {}, false)
      case Got => match env.led
        case Refused(e) => Ownership(e, {}, false)
        case Got => Ownership(0, {Button, Led}, true)
  }

  /** A missing required property fails with -ENODEV before any GPIO is touched. */
  lemma MissingPropertyIsNoDev(env: ProbeEnv)
    requires !PropertiesPresent(env)
    ensures ProbeSpec(env) == Ownership(-ENODEV, {}, false)
  {
  }

  /**
   * A failed probe leaves nothing behind (the button is put back when the LED
   * cannot be had); a successful one holds both GPIOs and only then arms the timer.
   */
  lemma ProbeOwnership(env: ProbeEnv)
    ensures ProbeSpec(env).ret != 0 ==> ProbeSpec(env).held == {} && !ProbeSpec(env).armed
    ensures ProbeSpec(env).armed <==> ProbeSpec(env).ret == 0
    ensures ProbeSpec(env).armed ==> ProbeSpec(env).held == {Button, Led}
  {
  }

  /** Probe succeeds exactly when every property is there, both string reads succeed and both GPIOs are granted. */
  lemma ProbeSucceedsIff(env: ProbeEnv)
    ensures ProbeSpec(env).ret == 0 <==>
      PropertiesPresent(env) && env.labelRead == 0 && env.nameRead == 0 && env.button.Got? && env.led.Got?
  {
  }

  /** The LED failure path returns the LED's errno, not the button's. */
  lemma LedRefusalReported(env: ProbeEnv)
    requires PropertiesPresent(env) && env.labelRead == 0 && env.nameRead == 0
    requires env.button.Got? && env.led.Refused?
    ensures ProbeSpec(env) == Ownership(env.led.err, {}, false)
  {
  }

  /** The driver's module-scope state. */
  class Driver {
    var b1: Level
    var b2: Level
    var b3: Level
    var last: Level
    /** The level of the LED line, as gpiod_get_value(led_gpio) reads it. */
    var led: Level
    var held: set<Gpio>
    var armed: bool

    /** The timer is only ever armed while both descriptors are held. */
    predicate Valid()
      reads this
    {
      armed ==> held == {Button, Led}
    }

    predicate Unbound()
      reads this
    {
      held == {} && !armed
    }

    function History(): History
      reads this
    {
      Debounce.History(b1, b2, b3, last)
    }

    /** Module load: the debounce globals at their initial values, nothing held. */
    constructor (ledLevel: Level)
      ensures Valid() && Unbound()
      ensures History() == Initial && led == ledLevel
    {
      b1, b2, b3 := RELEASED, RELEASED, RELEASED;
      last := PRESSED;
      led := ledLevel;
      held, armed := {}, false;
    }

    /** my_timer_callback with `sample` the value gpiod_get_value(button_gpio) returned. */
    method TimerCallback(sample: Level)
      requires Valid()
      modifies this
      ensures Valid()
      ensures History() == Next(old(History()), sample)
      ensures led == NextLed(old(History()), sample, old(led))
      ensures held == old(held) && armed == old(armed)
    {
      b3 := b2;
      b2 := b1;
      b1 := sample;
      if b1 == b2 && b2 == b3 {
        if b1 == PRESSED && last == RELEASED {
          led := 1 - led;
        }
        last := b1;
      }
    }

    /** dt_button, the probe function. */
    method Probe(env: ProbeEnv) returns (ret: int)
      requires Valid() && Unbound()
      modifies this
      ensures Valid()
      ensures Ownership(ret, held, armed) == ProbeSpec(env)
      ensures ret == 0 ==> led == 0
      ensures ret != 0 ==> led == old(led)
      ensures History() == old(History())
    {
      if !env.hasLabel {
        return -ENODEV;
      }
      if !env.hasMyValue {
        return -ENODEV;
      }
      if !env.hasButtonGpio {
        return -ENODEV;
      }
      if !env.hasLedGpio {
        return -ENODEV;
      }
      if env.labelRead != 0 {
        return env.labelRead;
      }
      if env.nameRead != 0 {
        return env.nameRead;
      }
      // a failed read of "my_value" is only logged
      if env.button.Refused? {
        return env.button.err;
      }
      held := held + {Button};
      if env.led.Refused? {
        held := held - {Button};
        return env.led.err;
      }
      held := held + {Led};
      led := 0;
      armed := true;
      return 0;
    }

    /** dt_remove: put both descriptors back and disarm the timer. */
    method Remove()
      requires Valid()
      modifies this
      ensures Valid() && Unbound()
      ensures History() == old(History()) && led == old(led)
    {
      assert forall g :: g in held ==> g == Button || g == Led;
      held := held - {Button};
      held := held - {Led};
      armed := false;
    }
  }
}
