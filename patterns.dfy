/** The pattern ("chenillard") and frequency engine of pattern_controller.c,
    as pure operations on an `Engine` value: the LED levels, the active
    pattern, the selected frequency tier, the step counter, the pending-update
    flag and the set of running hardware timers (one per tier). The class
    Firmware.Firmware performs the same operations in place. */
module Patterns {
  import opened LedBank

  /** `Pattern_Type` */
  const PatternNone := 0
  const Pattern1 := 1
  const Pattern2 := 2
  const Pattern3 := 3
  const PatternCount := 3

  /** `Pattern_Frequency`: 500 ms, 1 s and 3 s. */
  const Freq500ms := 0
  const Freq1s := 1
  const Freq3s := 2

  /** The ids `Pattern_Start` accepts. */
  predicate IsPattern(p: int) { PatternNone < p <= PatternCount }

  /** The tiers `Pattern_SetFrequency` accepts. */
  predicate IsFrequency(f: int) { Freq500ms <= f <= Freq3s }

  /** Number of steps of each pattern before it repeats. */
  function SequenceLength(p: int): (n: nat)
    requires IsPattern(p)
    ensures 2 <= n <= 6
  {
    if p == Pattern1 then 3 else if p == Pattern2 then 2 else 6
  }

  /** Levels written by `Pattern1_Update` at step `s`: all LEDs off, then
      LED `s + 1` on (a no-op when `s + 1` is not an LED number). */
  function Pattern1Leds(s: int): (r: seq<bool>)
    ensures |r| == LedCount
  {
    Forced(AllOff, s + 1, true)
  }

  /** Levels written by `Pattern2_Update`: odd LEDs at step 0, LED 2 otherwise. */
  function Pattern2Leds(s: int): (r: seq<bool>)
    ensures |r| == LedCount
  {
    if s == 0 then [true, false, true] else [false, true, false]
  }

  /** Levels written by `Pattern3_Update`: the switch over steps 0..4, all off
      for any other step. */
  function Pattern3Leds(s: int): (r: seq<bool>)
    ensures |r| == LedCount
  {
    if s == 0 then [true, false, false]
    else if s == 1 then [true, true, false]
    else if s == 2 then [true, true, true]
    else if s == 3 then [false, true, true]
    else if s == 4 then [false, false, true]
    else AllOff
  }

  function PatternLeds(p: int, s: int): (r: seq<bool>)
    requires IsPattern(p)
    ensures |r| == LedCount
  {
    if p == Pattern1 then Pattern1Leds(s)
    else if p == Pattern2 then Pattern2Leds(s)
    else Pattern3Leds(s)
  }

  /** The step table in closed form: pattern 1 lights only LED s+1, pattern 2
      lights the LEDs whose index has the parity of the step ({1,3} then {2}),
      pattern 3 lights LED i+1 at the three steps i..i+2 ({1}, {1,2}, {1,2,3},
      {2,3}, {3}, {}). */
  lemma StepTableClosedForm(p: int, s: nat, i: nat)
    requires IsPattern(p) && s < SequenceLength(p) && i < LedCount
    ensures p == Pattern1 ==> (PatternLeds(p, s)[i] <==> i == s)
    ensures p == Pattern2 ==> (PatternLeds(p, s)[i] <==> i % 2 == s)
    ensures p == Pattern3 ==> (PatternLeds(p, s)[i] <==> i <= s <= i + 2)
  {
  }

  datatype Engine = Engine(leds: seq<bool>, active: int, freq: int, step: nat,
                           pending: bool, timers: set<int>)

  /** The engine's invariant: three LEDs, enum values in range, and while a
      pattern runs its step is within that pattern's sequence. `patternStep` is
      a `uint8_t`; it never leaves 0..5, so it never wraps. */
  predicate Valid(e: Engine)
  {
    && |e.leds| == LedCount
    && PatternNone <= e.active <= PatternCount
    && IsFrequency(e.freq)
    && e.step < 6
    && (e.active != PatternNone ==> e.step < SequenceLength(e.active))
  }

  /** Exactly one hardware timer runs while a pattern runs, the one of the
      selected tier, and none runs otherwise. */
  predicate TimersAgree(e: Engine)
  {
    e.timers == if e.active != PatternNone then {e.freq} else {}
  }

  /** `Pattern_IsActive` */
  predicate Running(e: Engine) { e.active != PatternNone }

  /** `Pattern_Controller_Init`: no pattern, 1 s, step 0, nothing pending. The
      LEDs and the timers are not touched. */
  function Initialized(e: Engine): (r: Engine)
    ensures !Running(r) && r.freq == Freq1s && r.step == 0 && !r.pending
    ensures r.leds == e.leds && r.timers == e.timers
    ensures |e.leds| == LedCount ==> Valid(r)
    ensures e.timers == {} ==> TimersAgree(r)
  {
    e.(active := PatternNone, freq := Freq1s, step := 0, pending := false)
  }

  /** `Pattern_Stop`: refused when idle; otherwise stops the timer of the current
      tier, deselects the pattern and forces every LED off. */
  function Stop(e: Engine): (r: (Engine, bool))
    ensures r.1 <==> Running(e)
    ensures !r.1 ==> r.0 == e
    ensures r.1 ==> !Running(r.0) && r.0.leds == AllOff
    ensures r.0.freq == e.freq && r.0.step == e.step && r.0.pending == e.pending
    ensures Valid(e) ==> Valid(r.0)
    ensures TimersAgree(e) ==> TimersAgree(r.0) && r.0.timers == {}
  {
    if e.active == PatternNone then (e, false)
    else (e.(timers := e.timers - {e.freq}, active := PatternNone, leds := AllOff), true)
  }

  /** `Pattern_Start`: refused for an id outside 1..3, with nothing changed.
      Otherwise stops a running pattern first, selects `p` at step 0, starts the
      timer of the current tier and raises the pending-update flag. */
  function Start(e: Engine, p: int): (r: (Engine, bool))
    ensures r.1 <==> IsPattern(p)
    ensures !r.1 ==> r.0 == e
    ensures r.1 ==> r.0.active == p && r.0.step == 0 && r.0.pending && r.0.freq == e.freq
    ensures r.1 ==> r.0.leds == if Running(e) then AllOff else e.leds
    ensures r.1 ==> e.freq in r.0.timers
    ensures Valid(e) ==> Valid(r.0)
    ensures TimersAgree(e) ==> TimersAgree(r.0)
  {
    if p <= PatternNone || p > PatternCount then (e, false)
    else
      var s := if e.active != PatternNone then Stop(e).0 else e;
      (s.(active := p, step := 0, timers := s.timers + {s.freq}, pending := true), true)
  }

  /** `Pattern_SetFrequency`: refused for a tier outside 0..2. Otherwise records
      the tier and, while a pattern runs, swaps the old tier's timer for the new
      one; pattern, step, LEDs and pending flag are untouched. */
  function SetFrequency(e: Engine, f: int): (r: (Engine, bool))
    ensures r.1 <==> IsFrequency(f)
    ensures !r.1 ==> r.0 == e
    ensures r.1 ==> r.0 == e.(freq := f, timers := r.0.timers)
    ensures !Running(e) ==> r.0.timers == e.timers
    ensures Valid(e) ==> Valid(r.0)
    ensures TimersAgree(e) ==> TimersAgree(r.0)
  {
    if f < Freq500ms || f > Freq3s then (e, false)
    else if e.active != PatternNone then (e.(timers := (e.timers - {e.freq}) + {f}, freq := f), true)
    else (e.(freq := f), true)
  }

  /** `Pattern_TimerCallback`: a tick of tier `tier` raises the pending flag
      only while a pattern runs on that tier. */
  function TimerCallback(e: Engine, tier: int): (r: Engine)
    ensures r.pending <==> e.pending || (Running(e) && tier == e.freq)
    ensures r == e.(pending := r.pending)
  {
    if e.active != PatternNone && tier == e.freq then e.(pending := true) else e
  }

  /** `Pattern_Controller_Update`: when an update is pending and a pattern runs,
      writes that pattern's levels for the current step, advances the step
      modulo the sequence length and clears the flag; otherwise nothing. */
  function Update(e: Engine): (r: Engine)
    ensures !e.pending || !Running(e) ==> r == e
    ensures Valid(e) ==> Valid(r)
    ensures TimersAgree(e) ==> TimersAgree(r)
    ensures r.active == e.active && r.freq == e.freq && r.timers == e.timers
  {
    if !e.pending || e.active == PatternNone then e
    else if e.active == Pattern1 then e.(leds := Pattern1Leds(e.step), step := (e.step + 1) % LedCount, pending := false)
    else if e.active == Pattern2 then e.(leds := Pattern2Leds(e.step), step := (e.step + 1) % 2, pending := false)
    else if e.active == Pattern3 then e.(leds := Pattern3Leds(e.step), step := (e.step + 1) % 6, pending := false)
    else e.(pending := false)
  }

  /** One update of a valid running engine applies exactly the table entry of
      the current step, then moves to the next step of the cycle. */
  lemma UpdateAppliesOneStep(e: Engine)
    requires Valid(e) && Running(e) && e.pending
    ensures Update(e) == e.(leds := PatternLeds(e.active, e.step),
                            step := (e.step + 1) % SequenceLength(e.active),
                            pending := false)
  {
  }

  /** Starting a pattern while one runs is the same as stopping it first:
      the previous pattern's LEDs are cleared and the step restarts at 0. */
  lemma StartIsStopThenStart(e: Engine, p: int)
    requires Running(e) && IsPattern(p)
    ensures Start(e, p) == Start(Stop(e).0, p)
    ensures Start(e, p).0.leds == AllOff && Start(e, p).0.step == 0
  {
  }

  /** A frequency change while running keeps pattern, step and LEDs. While
      idle it changes nothing but the recorded tier. */
  lemma SetFrequencyKeepsStep(e: Engine, f: int)
    requires IsFrequency(f)
    ensures SetFrequency(e, f).0.step == e.step && SetFrequency(e, f).0.active == e.active
    ensures SetFrequency(e, f).0.leds == e.leds
    ensures !Running(e) ==> SetFrequency(e, f).0 == e.(freq := f)
  {
  }

  /** Ticks collapse: a second tick before the update is consumed adds nothing. */
  lemma TimerCallbackIdempotent(e: Engine, tier: int)
    ensures TimerCallback(TimerCallback(e, tier), tier) == TimerCallback(e, tier)
  {
  }

  /** One period of the running pattern: a tick of its timer, then the poll. */
  function Tick(e: Engine): Engine
  {
    Update(TimerCallback(e, e.freq))
  }

  function Ticks(e: Engine, n: nat): Engine
    decreases n
  {
    if n == 0 then e else Ticks(Tick(e), n - 1)
  }

  /** The step before step `s` in a cycle of `n` steps. */
  function PreviousStep(s: int, n: int): int
  {
    if s == 0 then n - 1 else s - 1
  }

  /** A running engine that has shown the entry of the step before its current one. */
  predicate Settled(e: Engine)
  {
    && Valid(e) && Running(e) && !e.pending
    && e.leds == PatternLeds(e.active, PreviousStep(e.step, SequenceLength(e.active)))
  }

  lemma TickSettled(e: Engine)
    requires Settled(e)
    ensures Settled(Tick(e))
    ensures Tick(e) == e.(leds := Tick(e).leds, step := (e.step + 1) % SequenceLength(e.active))
  {
    var t := TimerCallback(e, e.freq);
    assert t == e.(pending := true);
    UpdateAppliesOneStep(t);
    var L := SequenceLength(e.active);
    assert PreviousStep((e.step + 1) % L, L) == e.step by {
      if L == 2 {
        assert (e.step + 1) % 2 == if e.step == 1 then 0 else e.step + 1;
      } else if L == 3 {
        assert (e.step + 1) % 3 == if e.step == 2 then 0 else e.step + 1;
      } else {
        assert (e.step + 1) % 6 == if e.step == 5 then 0 else e.step + 1;
      }
    }
  }

  lemma {:induction false} TicksSettled(e: Engine, n: nat)
    requires Settled(e)
    ensures Settled(Ticks(e, n))
    ensures Ticks(e, n) == e.(leds := Ticks(e, n).leds, step := (e.step + n) % SequenceLength(e.active))
    decreases n
  {
    if n > 0 {
      TickSettled(e);
      var t := Tick(e);
      TicksSettled(t, n - 1);
      var L := SequenceLength(e.active);
      assert t.active == e.active && t.step == (e.step + 1) % L;
      ModAddLeft(e.step + 1, n - 1, L);
      assert (t.step + (n - 1)) % L == (e.step + n) % L;
    }
  }

  /** The sequence lengths are all constants, so these facts about remainders
      are checked one modulus at a time. */
  lemma ModAddLeft(a: nat, b: nat, m: nat)
    requires m == 2 || m == 3 || m == 6
    ensures (a % m + b) % m == (a + b) % m
  {
    var q := a / m;
    assert a == m * q + a % m;
    ModMultiple(a % m + b, q, m);
  }

  lemma {:induction false} ModMultiple(x: nat, q: nat, m: nat)
    requires m == 2 || m == 3 || m == 6
    ensures (m * q + x) % m == x % m
  {
    if q > 0 {
      ModMultiple(x, q - 1, m);
      var y := m * (q - 1) + x;
      assert m * q + x == y + m;
      if m == 2 {
        assert (y + 2) % 2 == y % 2;
      } else if m == 3 {
        assert (y + 3) % 3 == y % 3;
      } else {
        assert (y + 6) % 6 == y % 6;
      }
    }
  }

  /** Two settled engines that agree on everything except possibly the LEDs agree on the LEDs too. */
  lemma SettledDeterminedByStep(e: Engine, f: Engine)
    requires Settled(e) && Settled(f)
    requires f == e.(leds := f.leds)
    ensures f == e
  {
  }

  /** Every pattern is periodic: from a settled engine, k full sequences of
      ticks return the engine to exactly the same state. */
  lemma Periodic(e: Engine, k: nat)
    requires Settled(e)
    ensures Ticks(e, SequenceLength(e.active) * k) == e
  {
    var L := SequenceLength(e.active);
    var n := L * k;
    TicksSettled(e, n);
    var f := Ticks(e, n);
    ModMultiple(e.step, k, L);
    assert (e.step + n) % L == e.step by {
      assert e.step + n == L * k + e.step;
      if L == 2 { } else if L == 3 { } else { }
    }
    SettledDeterminedByStep(e, f);
  }

  /** The immediate update that follows `Pattern_Start` leaves a settled engine
      showing step 0; so after start, pattern p repeats every SequenceLength(p)
      ticks (pattern 2 every 2, as documented). */
  lemma StartThenUpdateIsPeriodic(e: Engine, p: int, k: nat)
    requires Valid(e) && IsPattern(p)
    ensures Settled(Update(Start(e, p).0))
    ensures Update(Start(e, p).0).leds == PatternLeds(p, 0)
    ensures Ticks(Update(Start(e, p).0), SequenceLength(p) * k) == Update(Start(e, p).0)
  {
    var s := Start(e, p).0;
    UpdateAppliesOneStep(s);
    Periodic(Update(s), k);
  }
}
