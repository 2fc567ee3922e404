/**
 * Register access of 11_ledblink_by_mmio/hello_mmio.c: the BCM2711 GPIO block
 * seen as 32-bit words, driven through GPFSELn, GPSET0 and GPCLR0, and the
 * validation and dispatch of the proc write handler.
 */
module HelloMmio {
  /** The C `unsigned int` of the source. */
  type uint = x: int | 0 <= x < 0x1_0000_0000

  const LLL_MAX_USER_SIZE: nat := 1024
  /** Each function-select word holds ten 3-bit fields. */
  const PINS_PER_FSEL: nat := 10
  /** Word index of GPSET0, at byte offset 0x1c of the block. */
  const GPSET0: nat := 7
  /** Word index of GPCLR0, at byte offset 0x28 of the block. */
  const GPCLR0: nat := 10
  /** The mapped window must reach GPCLR0. */
  const WINDOW_WORDS: nat := GPCLR0 + 1

  function FselIndex(pin: nat): nat { pin / PINS_PER_FSEL }
  function FselPos(pin: nat): nat { pin % PINS_PER_FSEL }

  /** Bit position of the 3-bit field of the pin at position `pos` of its function-select word. */
  function FieldShift(pos: nat): bv32
    requires pos < PINS_PER_FSEL
  {
    (pos as bv32) * 3
  }

  /** Pins 0..31 live in GPFSEL0..GPFSEL3, and their fields fit in the word. */
  lemma FselBounds(pin: nat)
    requires pin < 32
    ensures FselIndex(pin) < 4 && FselPos(pin) < PINS_PER_FSEL && FieldShift(FselPos(pin)) <= 27
  {
  }

  /** Bit `i` of a register word. */
  function Bit(w: bv32, i: bv32): bv32
    requires i < 32
  {
    (w >> i) & 1
  }

  /** The 3-bit function code at `shift`. */
  function Field(w: bv32, shift: bv32): bv32
    requires shift <= 27
  {
    (w >> shift) & 7
  }

  /** `*gpio_fsel &= ~(7 << pos*3)`: the pin's field becomes 000 (input). */
  function ClearField(w: bv32, shift: bv32): bv32
    requires shift <= 27
  {
    w & !(7 << shift)
  }

  /** `*gpio_fsel |= (1 << pos*3)`: OR the output code 001 into the field. */
  function OrOutputCode(w: bv32, shift: bv32): bv32
    requires shift <= 27
  {
    w | (1 << shift)
  }

  /** The whole read-modify-write on a function-select word. */
  function SelectOutput(w: bv32, shift: bv32): bv32
    requires shift <= 27
  {
    OrOutputCode(ClearField(w, shift), shift)
  }

  /** The one-bit mask stored into GPSET0 or GPCLR0. */
  function PinBit(pin: nat): bv32
    requires pin < 32
  {
    1 << pin
  }

  /** Register contents after gpio_pin_on (`on`) or gpio_pin_off (`!on`) on `pin`. */
  function Applied(rs: seq<bv32>, pin: nat, on: bool): (r: seq<bv32>)
    requires |rs| >= WINDOW_WORDS && pin < 32
    ensures |r| == |rs|
  {
    FselBounds(pin);
    var f := FselIndex(pin);
    rs[f := SelectOutput(rs[f], FieldShift(FselPos(pin)))][(if on then GPSET0 else GPCLR0) := PinBit(pin)]
  }

  /** The field of the pin reads 001 (output) afterwards, and every bit outside the field is kept. */
  lemma SelectOutputField(w: bv32, shift: bv32)
    requires shift <= 27
    ensures Field(SelectOutput(w, shift), shift) == 1
    ensures ClearField(SelectOutput(w, shift), shift) == ClearField(w, shift)
  {
  }

  /** Bit by bit, the field reads 1, 0, 0 from its lowest bit up. */
  lemma SelectOutputFieldBits(w: bv32, shift: bv32)
    requires shift <= 27
    ensures Bit(SelectOutput(w, shift), shift) == 1
    ensures Bit(SelectOutput(w, shift), shift + 1) == 0 && Bit(SelectOutput(w, shift), shift + 2) == 0
  {
  }

  /** Bit by bit: only the three bits [shift, shift + 3) may differ. */
  lemma SelectOutputKeepsOtherBits(w: bv32, shift: bv32)
    requires shift <= 27
    ensures forall i: bv32 :: i < 32 && !(shift <= i < shift + 3) ==> Bit(SelectOutput(w, shift), i) == Bit(w, i)
  {
  }

  /** Selecting the function at one field leaves every field that does not overlap it as it was. */
  lemma SelectOutputKeepsOtherFields(w: bv32, shift: bv32, other: bv32)
    requires shift <= 27 && other <= 27 && other % 3 == 0
    requires shift + 3 <= other || other + 3 <= shift
    ensures Field(SelectOutput(w, shift), other) == Field(w, other)
  {
    // one case per field position keeps each bit-vector query small
    if other == 0 {
    } else if other == 3 {
    } else if other == 6 {
    } else if other == 9 {
    } else if other == 12 {
    } else if other == 15 {
    } else if other == 18 {
    } else if other == 21 {
    } else if other == 24 {
    } else if other == 27 {
    } else {
      assert false;
    }
  }

  /** The fields of two different pins of one word do not overlap. */
  lemma FieldsOfDistinctPinsDisjoint(pos: nat, other: nat)
    requires pos < PINS_PER_FSEL && other < PINS_PER_FSEL && pos != other
    ensures FieldShift(pos) <= 27 && FieldShift(other) <= 27 && FieldShift(other) % 3 == 0
    ensures FieldShift(pos) + 3 <= FieldShift(other) || FieldShift(other) + 3 <= FieldShift(pos)
  {
  }

  /** Selecting the function of one pin leaves the field of every other pin of the same word as it was. */
  lemma SelectOutputKeepsOtherPins(w: bv32, pos: nat, other: nat)
    requires pos < PINS_PER_FSEL && other < PINS_PER_FSEL && pos != other
    ensures FieldShift(pos) <= 27 && FieldShift(other) <= 27
    ensures Field(SelectOutput(w, FieldShift(pos)), FieldShift(other)) == Field(w, FieldShift(other))
  {
    FieldsOfDistinctPinsDisjoint(pos, other);
    SelectOutputKeepsOtherFields(w, FieldShift(pos), FieldShift(other));
  }

  lemma SelectOutputIdempotent(w: bv32, shift: bv32)
    requires shift <= 27
    ensures SelectOutput(SelectOutput(w, shift), shift) == SelectOutput(w, shift)
  {
  }

  /** The level mask names exactly the pin. */
  lemma PinBitExact(pin: nat)
    requires pin < 32
    ensures forall i: bv32 :: i < 32 ==> (Bit(PinBit(pin), i) == 1 <==> i == pin as bv32)
  {
  }

  /**
   * gpio_pin_on / gpio_pin_off: the pin's function field becomes output, the
   * chosen level word holds exactly `1 << pin`, and every other word, the other
   * level word included, is unchanged.
   */
  lemma AppliedEffect(rs: seq<bv32>, pin: nat, on: bool)
    requires |rs| >= WINDOW_WORDS && pin < 32
    ensures FselIndex(pin) < 4
    ensures FieldShift(FselPos(pin)) <= 27
    ensures Field(Applied(rs, pin, on)[FselIndex(pin)], FieldShift(FselPos(pin))) == 1
    ensures ClearField(Applied(rs, pin, on)[FselIndex(pin)], FieldShift(FselPos(pin))) ==
      ClearField(rs[FselIndex(pin)], FieldShift(FselPos(pin)))
    ensures on ==> Applied(rs, pin, on)[GPSET0] == PinBit(pin) && Applied(rs, pin, on)[GPCLR0] == rs[GPCLR0]
    ensures !on ==> Applied(rs, pin, on)[GPCLR0] == PinBit(pin) && Applied(rs, pin, on)[GPSET0] == rs[GPSET0]
    ensures forall i :: 0 <= i < |rs| && i != FselIndex(pin) && i != GPSET0 && i != GPCLR0 ==>
      Applied(rs, pin, on)[i] == rs[i]
  {
    FselBounds(pin);
    SelectOutputField(rs[FselIndex(pin)], FieldShift(FselPos(pin)));
  }

  /** The function field of every other pin 0..31 is the same after driving `pin`. */
  lemma AppliedKeepsOtherPinFunctions(rs: seq<bv32>, pin: nat, on: bool, other: nat)
    requires |rs| >= WINDOW_WORDS && pin < 32 && other < 32 && other != pin
    ensures FselIndex(other) < 4 && FieldShift(FselPos(other)) <= 27
    ensures Field(Applied(rs, pin, on)[FselIndex(other)], FieldShift(FselPos(other))) ==
      Field(rs[FselIndex(other)], FieldShift(FselPos(other)))
  {
    FselBounds(pin);
    FselBounds(other);
    if FselIndex(other) == FselIndex(pin) {
      assert FselPos(other) != FselPos(pin);
      SelectOutputKeepsOtherPins(rs[FselIndex(pin)], FselPos(pin), FselPos(other));
    }
  }

  /** Driving a pin twice leaves the block as driving it once. */
  lemma AppliedIdempotent(rs: seq<bv32>, pin: nat, on: bool)
    requires |rs| >= WINDOW_WORDS && pin < 32
    ensures Applied(Applied(rs, pin, on), pin, on) == Applied(rs, pin, on)
  {
    SelectOutputIdempotent(rs[FselIndex(pin)], FieldShift(FselPos(pin)));
  }

  /** What sscanf("%d,%d") left behind: its return value and the two targets. */
  datatype Scan = Scan(count: int, pin: uint, value: uint)

  /** The outcome of the write handler: an early return, or a drive of a pin followed by `return size`. */
  datatype Action = Reject(ret: int) | Drive(pin: nat, on: bool, ret: int)

  function Clamp(size: nat): (r: nat)
    ensures r <= LLL_MAX_USER_SIZE && r <= size
    ensures size <= LLL_MAX_USER_SIZE ==> r == size
    ensures size > LLL_MAX_USER_SIZE ==> r == LLL_MAX_USER_SIZE
  {
    if size > LLL_MAX_USER_SIZE then LLL_MAX_USER_SIZE else size
  }

  /** The range test as the handler writes it: on an unsigned pin it never holds. */
  predicate PinCheckAsWritten(pin: uint) { pin < 0 && pin > 31 }

  /** The range test the handler's message asks for: the pin must lie in 0..31. */
  predicate PinOutOfRange(pin: uint) { pin > 31 }

  /** The handler's checks and dispatch as written: a well-formed value drives whatever pin was parsed. */
  function DecideAsWritten(size: nat, faulted: bool, scan: Scan): (r: Action)
    ensures r.Drive? <==> !faulted && scan.count == 2 && (scan.value == 0 || scan.value == 1)
    ensures r.Drive? ==> r.pin == scan.pin && r.on == (scan.value == 1) && r.ret == Clamp(size)
    ensures faulted ==> r == Reject(0)
    ensures !faulted && scan.count != 2 ==> r == Reject(scan.count)
    ensures !faulted && scan.count == 2 && scan.value != 0 && scan.value != 1 ==> r == Reject(scan.value)
  {
    if faulted then Reject(0)
    else if scan.count != 2 then Reject(scan.count)
    else if PinCheckAsWritten(scan.pin) then Reject(scan.pin)
    else if scan.value != 0 && scan.value != 1 then Reject(scan.value)
    else Drive(scan.pin, scan.value == 1, Clamp(size))
  }

  function Decide(size: nat, faulted: bool, scan: Scan): (r: Action)
    ensures r.Drive? ==> r.pin < 32
  {
    if faulted then Reject(0)
    else if scan.count != 2 then Reject(scan.count)
    else if PinOutOfRange(scan.pin) then Reject(scan.pin)
    else if scan.value != 0 && scan.value != 1 then Reject(scan.value)
    else Drive(scan.pin, scan.value == 1, Clamp(size))
  }

  /** The range test as written lets every pin through. */
  lemma PinCheckAsWrittenAdmitsAll(pin: uint)
    ensures !PinCheckAsWritten(pin)
  {
  }

  /** The write `40,1` drives pin 40 as written, though GPSET0 has no bit for it. */
  lemma PinFortyDispatched()
    ensures DecideAsWritten(5, false, Scan(2, 40, 1)) == Drive(40, true, 5)
  {
  }

  /** The write `-1,1` leaves 0xFFFFFFFF in the unsigned pin, and as written that pin is driven too. */
  lemma NegativePinDispatched()
    ensures DecideAsWritten(5, false, Scan(2, 0xFFFF_FFFF, 1)) == Drive(0xFFFF_FFFF, true, 5)
  {
  }

  /** With the check corrected, the outcome differs from the code only for pins above 31. */
  lemma DecideAgreesBelow32(size: nat, faulted: bool, scan: Scan)
    ensures scan.pin < 32 ==> Decide(size, faulted, scan) == DecideAsWritten(size, faulted, scan)
    ensures !faulted && scan.count == 2 && scan.pin >= 32 ==> Decide(size, faulted, scan) == Reject(scan.pin)
  {
  }

  /** The write handler's early returns, each of which leaves the registers alone. */
  lemma DecideRejections(size: nat, faulted: bool, scan: Scan)
    ensures faulted ==> Decide(size, faulted, scan) == Reject(0)
    ensures !faulted && scan.count != 2 ==> Decide(size, faulted, scan) == Reject(scan.count)
    ensures !faulted && scan.count == 2 && scan.pin < 32 && scan.value != 0 && scan.value != 1 ==>
      Decide(size, faulted, scan) == Reject(scan.value)
  {
  }

  /** A pin is driven exactly when the input is well formed, and then the clamped size is returned. */
  lemma DecideDrives(size: nat, faulted: bool, scan: Scan)
    ensures Decide(size, faulted, scan).Drive? <==>
      !faulted && scan.count == 2 && scan.pin < 32 && (scan.value == 0 || scan.value == 1)
    ensures Decide(size, faulted, scan).Drive? ==>
      && Decide(size, faulted, scan).pin == scan.pin
      && Decide(size, faulted, scan).on == (scan.value == 1)
      && Decide(size, faulted, scan).ret == Clamp(size)
      && Decide(size, faulted, scan).ret <= LLL_MAX_USER_SIZE
  {
  }

  /** The ioremap'ed GPIO window (gpio_register_base), as an array of 32-bit words. */
  class GpioWindow {
    const regs: array<bv32>

    predicate Valid() { regs.Length >= WINDOW_WORDS }

    constructor (mapped: array<bv32>)
      requires mapped.Length >= WINDOW_WORDS
      ensures Valid() && regs == mapped
    {
      regs := mapped;
    }

    /** gpio_pin_on: select output, then store `1 << pin` into GPSET0. */
    method PinOn(pin: nat)
      requires Valid() && pin < 32
      modifies regs
      ensures regs[..] == Applied(old(regs[..]), pin, true)
    {
      FselBounds(pin);
      var fselIndex := pin / PINS_PER_FSEL;
      var fselBitpos := pin % PINS_PER_FSEL;
      var shift := FieldShift(fselBitpos);
      regs[fselIndex] := ClearField(regs[fselIndex], shift);
      regs[fselIndex] := OrOutputCode(regs[fselIndex], shift);
      regs[GPSET0] := PinBit(pin);
    }

    /** gpio_pin_off: select output, then store `1 << pin` into GPCLR0. */
    method PinOff(pin: nat)
      requires Valid() && pin < 32
      modifies regs
      ensures regs[..] == Applied(old(regs[..]), pin, false)
    {
      FselBounds(pin);
      var fselIndex := pin / PINS_PER_FSEL;
      var fselBitpos := pin % PINS_PER_FSEL;
      var shift := FieldShift(fselBitpos);
      regs[fselIndex] := ClearField(regs[fselIndex], shift);
      regs[fselIndex] := OrOutputCode(regs[fselIndex], shift);
      regs[GPCLR0] := PinBit(pin);
    }

    /**
     * lll_write after the user copy: `faulted` is copy_from_user reporting
     * uncopied bytes and `scan` is what sscanf parsed from the buffer.
     */
    method Write(size: nat, faulted: bool, scan: Scan) returns (ret: int)
      requires Valid()
      modifies regs
      ensures ret == Decide(size, faulted, scan).ret
      ensures Decide(size, faulted, scan).Reject? ==> regs[..] == old(regs[..])
      ensures Decide(size, faulted, scan).Drive? ==>
        regs[..] == Applied(old(regs[..]), scan.pin, scan.value == 1)
    {
      var accepted := size;
      if accepted > LLL_MAX_USER_SIZE {
        accepted := LLL_MAX_USER_SIZE;
      }
      if faulted {
        return 0;
      }
      if scan.count != 2 {
        return scan.count;
      }
      if scan.pin > 31 {
        return scan.pin;
      }
      if scan.value != 0 && scan.value != 1 {
        return scan.value;
      }
      if scan.value == 1 {
        PinOn(scan.pin);
      } else if scan.value == 0 {
        PinOff(scan.pin);
      }
      return accepted;
    }
  }
}
