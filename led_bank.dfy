/** The bank of three LEDs of led_controller.c, as pure operations on the
    pin levels `leds` (index 0 is LED 1 on PB0, 1 is LED 2 on PB7, 2 is LED 3
    on PB14). The class Firmware.Firmware applies them to its pin array. */
module LedBank {

  const LedCount := 3

  /** Values of `LED_State` and the error sentinel returned by `LED_GetState`. */
  const LedOff := 0
  const LedOn := 1
  const LedError := 2

  /** GPIO pin masks of port B. */
  const Led1Pin := 0x0001   // GPIO_PIN_0
  const Led2Pin := 0x0080   // GPIO_PIN_7
  const Led3Pin := 0x4000   // GPIO_PIN_14

  /** `LED_IsValidNumber`. */
  predicate IsValidNumber(n: int) { 1 <= n <= LedCount }

  /** `LED_NumberToPin`: the pin mask of an LED, 0 for an invalid number. */
  function NumberToPin(n: int): int
  {
    if n == 1 then Led1Pin
    else if n == 2 then Led2Pin
    else if n == 3 then Led3Pin
    else 0
  }

  /** A mask with exactly one bit set, 0..15. */
  ghost predicate IsSinglePin(pin: int)
  {
    exists b :: 0 <= b < 16 && pin == Pow2(b)
  }

  function Pow2(b: nat): (p: nat)
    ensures p >= 1
  {
    if b == 0 then 1 else 2 * Pow2(b - 1)
  }

  /** Valid numbers map to distinct single-bit pin masks; invalid numbers to 0. */
  lemma NumberToPinDistinct(m: int, n: int)
    ensures NumberToPin(n) != 0 <==> IsValidNumber(n)
    ensures IsValidNumber(n) ==> IsSinglePin(NumberToPin(n))
    ensures IsValidNumber(m) && IsValidNumber(n) && m != n ==> NumberToPin(m) != NumberToPin(n)
  {
    assert Pow2(0) == Led1Pin;
    assert Pow2(7) == Led2Pin by {
      assert Pow2(1) == 2 && Pow2(2) == 4 && Pow2(3) == 8 && Pow2(4) == 16;
      assert Pow2(5) == 32 && Pow2(6) == 64;
    }
    assert Pow2(14) == Led3Pin by {
      assert Pow2(7) == 128 by {
        assert Pow2(1) == 2 && Pow2(2) == 4 && Pow2(3) == 8 && Pow2(4) == 16;
        assert Pow2(5) == 32 && Pow2(6) == 64;
      }
      assert Pow2(8) == 256 && Pow2(9) == 512 && Pow2(10) == 1024;
      assert Pow2(11) == 2048 && Pow2(12) == 4096 && Pow2(13) == 8192;
    }
  }

  const AllOff: seq<bool> := [false, false, false]

  /** `LED_ForceState`: drive one LED regardless of the pattern interlock; an
      invalid number is a silent no-op. */
  function Forced(leds: seq<bool>, n: int, on: bool): (r: seq<bool>)
    requires |leds| == LedCount
    ensures |r| == LedCount
  {
    if IsValidNumber(n) then leds[n - 1 := on] else leds
  }

  /** `LED_SetState`: the interlocked write, refused for an invalid number or
      while a pattern runs. Returns the new levels and the success flag. */
  function SetState(leds: seq<bool>, n: int, on: bool, patternActive: bool): (r: (seq<bool>, bool))
    requires |leds| == LedCount
    ensures r.1 <==> IsValidNumber(n) && !patternActive
    ensures r.0 == if r.1 then Forced(leds, n, on) else leds
  {
    if !IsValidNumber(n) then (leds, false)
    else if patternActive then (leds, false)
    else (leds[n - 1 := on], true)
  }

  /** `LED_GetState`: `LedOn`/`LedOff`, or `LedError` for an invalid number. */
  function GetState(leds: seq<bool>, n: int): (s: int)
    requires |leds| == LedCount
    ensures s == LedError <==> !IsValidNumber(n)
    ensures IsValidNumber(n) ==> (s == LedOn <==> leds[n - 1])
    ensures s in {LedOff, LedOn, LedError}
  {
    if !IsValidNumber(n) then LedError
    else if leds[n - 1] then LedOn else LedOff
  }

  /** `LED_Toggle`: flip one LED; fails only on an invalid number and does not
      consult the pattern interlock. */
  function Toggled(leds: seq<bool>, n: int): (r: (seq<bool>, bool))
    requires |leds| == LedCount
    ensures |r.0| == LedCount
    ensures r.1 <==> IsValidNumber(n)
  {
    if !IsValidNumber(n) then (leds, false) else (leds[n - 1 := !leds[n - 1]], true)
  }

  /** Forcing an LED and reading it back yields the written level; the other
      two LEDs keep theirs. */
  lemma ForceThenGet(leds: seq<bool>, n: int, on: bool, m: int)
    requires |leds| == LedCount && IsValidNumber(n)
    ensures GetState(Forced(leds, n, on), n) == (if on then LedOn else LedOff)
    ensures m != n ==> GetState(Forced(leds, n, on), m) == GetState(leds, m)
  {
  }

  /** With no pattern running, a write to a valid LED succeeds and reading it
      back yields the written level, every other LED unchanged. */
  lemma SetThenGet(leds: seq<bool>, n: int, on: bool, m: int)
    requires |leds| == LedCount && IsValidNumber(n)
    ensures SetState(leds, n, on, false).1
    ensures GetState(SetState(leds, n, on, false).0, n) == (if on then LedOn else LedOff)
    ensures m != n ==> GetState(SetState(leds, n, on, false).0, m) == GetState(leds, m)
  {
    ForceThenGet(leds, n, on, m);
  }

  /** While a pattern runs, every write through the interlock is refused and
      leaves every LED as it was. */
  lemma SetRefusedWhilePatternActive(leds: seq<bool>, n: int, on: bool)
    requires |leds| == LedCount
    ensures SetState(leds, n, on, true) == (leds, false)
  {
  }

  /** Toggling a valid LED twice restores the bank; toggling touches no other LED. */
  lemma ToggleTwice(leds: seq<bool>, n: int)
    requires |leds| == LedCount
    ensures Toggled(Toggled(leds, n).0, n).0 == leds
    ensures forall i :: 0 <= i < LedCount && i != n - 1 ==> Toggled(leds, n).0[i] == leds[i]
    ensures IsValidNumber(n) ==> Toggled(leds, n).0[n - 1] == !leds[n - 1]
  {
  }
}
