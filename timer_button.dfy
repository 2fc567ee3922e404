/**
 * 08_timer_with_button/timer_button.c: the same debounce timer, addressing
 * the button and the LED by global GPIO number (BCM pin + IO_OFFSET) through
 * the legacy integer GPIO interface, with the request/direction sequence of
 * module init and the frees of module exit.
 */
module TimerButton {
  import opened Kernel
  import opened Debounce

  const GPIO_BUTTON: nat := 17
  const GPIO_LED: nat := 18
  /** The base of the BCM2711 pin controller in the global GPIO number space. */
  const IO_OFFSET: nat := 512
  const ButtonLine: nat := GPIO_BUTTON + IO_OFFSET
  const LedLine: nat := GPIO_LED + IO_OFFSET

  /** Whether each kernel call of init succeeds, in the order init makes them. */
  datatype InitEnv = InitEnv(buttonRequest: bool, buttonInput: bool, ledRequest: bool, ledOutput: bool)

  /** What init leaves behind: its return code, the GPIO numbers still requested and whether the timer is armed. */
  datatype Ownership = Ownership(ret: int, held: set<nat>, armed: bool)

  /** The outcome of init from a freshly loaded module, with the frees the code performs. */
  function InitSpec(env: InitEnv): Ownership
  {
    if !env.buttonRequest then Ownership(-EBUSY, {}, false)
    else if !env.buttonInput then Ownership(-EIO, {}, false)
    // the free after a failed LED request names the LED, which was never requested
    else if !env.ledRequest then Ownership(-EBUSY, {ButtonLine}, false)
    // the free after a failed LED direction releases only the LED
    else if !env.ledOutput then Ownership(-EIO, {ButtonLine}, false)
    else Ownership(0, {ButtonLine, LedLine}, true)
  }

  /** Init with every failure path releasing all it had requested. */
  function InitSpecFixed(env: InitEnv): (r: Ownership)
    ensures r.ret == 0 <==> env.buttonRequest && env.buttonInput && env.ledRequest && env.ledOutput
    ensures r.ret != 0 ==> r.held == {} && !r.armed
    ensures r.ret == 0 ==> r.held == {ButtonLine, LedLine} && r.armed
  {
    if !env.buttonRequest then Ownership(-EBUSY, {}, false)
    else if !env.buttonInput then Ownership(-EIO, {}, false)
    else if !env.ledRequest then Ownership(-EBUSY, {}, false)
    else if !env.ledOutput then Ownership(-EIO, {}, false)
    else Ownership(0, {ButtonLine, LedLine}, true)
  }

  /** The failures before the LED is involved hold nothing; the return codes are -EBUSY for requests and -EIO for directions. */
  lemma InitEarlyFailures(env: InitEnv)
    ensures !env.buttonRequest ==> InitSpec(env) == Ownership(-EBUSY, {}, false)
    ensures env.buttonRequest && !env.buttonInput ==> InitSpec(env) == Ownership(-EIO, {}, false)
    ensures env.buttonRequest && env.buttonInput && !env.ledRequest ==> InitSpec(env).ret == -EBUSY
    ensures env.buttonRequest && env.buttonInput && env.ledRequest && !env.ledOutput ==> InitSpec(env).ret == -EIO
  {
  }

  /** The timer is armed exactly when init succeeds, and only with both lines requested. */
  lemma InitArmsOnlyWhenOwned(env: InitEnv)
    ensures InitSpec(env).armed <==> InitSpec(env).ret == 0
    ensures InitSpec(env).ret == 0 <==> env.buttonRequest && env.buttonInput && env.ledRequest && env.ledOutput
    ensures InitSpec(env).armed ==> InitSpec(env).held == {ButtonLine, LedLine}
  {
  }

  /** As written, a failure at either LED step leaves the button line requested by a module that failed to load. */
  lemma InitLeaksButton(env: InitEnv)
    requires env.buttonRequest && env.buttonInput
    requires !env.ledRequest || !env.ledOutput
    ensures InitSpec(env).ret != 0 && InitSpec(env).held == {ButtonLine}
  {
  }

  /** With the rollback fixed, a failed init holds no line, and success is unchanged. */
  lemma InitFixedReleasesAll(env: InitEnv)
    ensures InitSpecFixed(env).ret != 0 ==> InitSpecFixed(env).held == {} && !InitSpecFixed(env).armed
    ensures InitSpecFixed(env).ret == InitSpec(env).ret
    ensures InitSpec(env).ret == 0 ==> InitSpecFixed(env) == InitSpec(env)
  {
  }

  /** The module-scope state, with the kernel's GPIO levels seen through their global numbers. */
  class Module {
    var b1: Level
    var b2: Level
    var b3: Level
    var last: Level
    /** Line levels as gpio_get_value / gpio_set_value see them. */
    var lines: map<nat, Level>
    /** Global GPIO numbers requested by the module. */
    var held: set<nat>
    var armed: bool

    predicate Valid()
      reads this
    {
      && ButtonLine in lines && LedLine in lines
      && held <= {ButtonLine, LedLine}
      && (armed ==> held == {ButtonLine, LedLine})
    }

    function History(): History
      reads this
    {
      Debounce.History(b1, b2, b3, last)
    }

    /** Module load: the debounce globals at their initial values, nothing requested. */
    constructor (levels: map<nat, Level>)
      requires ButtonLine in levels && LedLine in levels
      ensures Valid() && History() == Initial && lines == levels
      ensures held == {} && !armed
    {
      b1, b2, b3 := RELEASED, RELEASED, RELEASED;
      last := PRESSED;
      lines := levels;
      held, armed := {}, false;
    }

    /** my_timer_callback: sample the button line, debounce, and toggle the LED line on a press edge. */
    method TimerCallback()
      requires Valid()
      modifies this
      ensures Valid()
      ensures History() == Next(old(History()), old(lines[ButtonLine]))
      ensures lines == old(lines)[LedLine := NextLed(old(History()), old(lines[ButtonLine]), old(lines[LedLine]))]
      ensures held == old(held) && armed == old(armed)
    {
      var buttonState := lines[ButtonLine];
      b3 := b2;
      b2 := b1;
      b1 := buttonState;
      if b1 == b2 && b2 == b3 {
        if b1 == PRESSED && last == RELEASED {
          lines := lines[LedLine := 1 - lines[LedLine]];
        }
        last := b1;
      }
    }

    /** my_init_module, reproducing the frees the code performs on each failure. */
    method InitModule(env: InitEnv) returns (ret: int)
      requires Valid() && held == {} && !armed
      modifies this
      ensures Valid()
      ensures Ownership(ret, held, armed) == InitSpec(env)
      ensures ret == 0 ==> lines == old(lines)[LedLine := 0]
      ensures ret != 0 ==> lines == old(lines)
      ensures History() == old(History())
    {
      if !env.buttonRequest {
        return -EBUSY;
      }
      held := held + {ButtonLine};
      if !env.buttonInput {
        held := held - {ButtonLine};
        return -EIO;
      }
      if !env.ledRequest {
        held := held - {LedLine};
        return -EBUSY;
      }
      held := held + {LedLine};
      if !env.ledOutput {
        held := held - {LedLine};
        return -EIO;
      }
      lines := lines[LedLine := 0];
      armed := true;
      return 0;
    }

    /** my_cleanup_module: free both lines, then delete the timer. */
    method CleanupModule()
      requires Valid()
      modifies this
      ensures Valid() && held == {} && !armed
      ensures lines == old(lines) && History() == old(History())
    {
      held := held - {ButtonLine};
      held := held - {LedLine};
      armed := false;
    }
  }
}
