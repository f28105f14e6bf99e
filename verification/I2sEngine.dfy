/** The I2S step engine: an interrupt handler that refills a FIFO eight samples at a time from
    a waveform it generates step by step. */
module I2sEngine {

  const FIFO_RELOAD := 8
  const I2S_MAX_USEC_PER_PULSE := 20
  const UINT32 := 0x1_0000_0000

  type Word = bv32

  /** What a call of the pulse function leaves behind: the pulse and port words and the delay
      count in force. */
  datatype Step = Step(pulse: Word, port: Word, delay: nat)

  function Rep(w: Word, n: nat): (s: seq<Word>)
    ensures |s| == n && forall i :: 0 <= i < n ==> s[i] == w
  {
    seq(n, _ => w)
  }

  function PulseLength(pulseCounts: nat, s: Step): nat {
    if s.pulse == s.port then 0 else pulseCounts
  }

  /** Each step lasts at least one sample and at least as long as its pulse. */
  ghost predicate Paced(pulseCounts: nat, steps: nat -> Step) {
    forall k :: 0 < steps(k).delay < UINT32 && PulseLength(pulseCounts, steps(k)) <= steps(k).delay
  }

  /** The ideal samples of one step: its pulse, then the port word, `delay` in all. */
  function StepWave(pulseCounts: nat, s: Step): seq<Word>
    requires PulseLength(pulseCounts, s) <= s.delay
  {
    Rep(s.pulse, PulseLength(pulseCounts, s)) + Rep(s.port, s.delay - PulseLength(pulseCounts, s))
  }

  /** The ideal waveform of the first `n` steps. */
  ghost function Wave(pulseCounts: nat, steps: nat -> Step, n: nat): (w: seq<Word>)
    requires Paced(pulseCounts, steps)
    ensures |w| >= n
  {
    if n == 0 then [] else Wave(pulseCounts, steps, n - 1) + StepWave(pulseCounts, steps(n - 1))
  }

  lemma {:induction false} WaveIsPrefix(pulseCounts: nat, steps: nat -> Step, m: nat, n: nat)
    requires Paced(pulseCounts, steps) && m <= n
    ensures Wave(pulseCounts, steps, m) <= Wave(pulseCounts, steps, n)
    decreases n
  {
    if m < n {
      WaveIsPrefix(pulseCounts, steps, m, n - 1);
    }
  }

  /** C's unsigned subtraction. */
  function Sub32(a: nat, b: nat): nat
    requires b <= UINT32
  {
    (a - b + UINT32) % UINT32
  }

  lemma Sub32Exact(a: nat, b: nat)
    requires b <= a < UINT32
    ensures Sub32(a, b) == a - b
  {}

  /** What the FIFO has received once the step in progress is complete. */
  function Sent(fifo: seq<Word>, pulse: Word, pulses: nat, port: Word, delays: nat): seq<Word> {
    fifo + Rep(pulse, pulses) + Rep(port, delays)
  }

  lemma SendPulse(fifo: seq<Word>, pulse: Word, pulses: nat, port: Word, delays: nat)
    requires pulses > 0
    ensures Sent(fifo + [pulse], pulse, pulses - 1, port, delays) == Sent(fifo, pulse, pulses, port, delays)
  {
    assert Rep(pulse, pulses) == [pulse] + Rep(pulse, pulses - 1);
  }

  lemma SendDelay(fifo: seq<Word>, pulse: Word, port: Word, delays: nat)
    requires delays > 0
    ensures Sent(fifo + [port], pulse, 0, port, delays - 1) == Sent(fifo, pulse, 0, port, delays)
  {
    assert Rep(port, delays) == [port] + Rep(port, delays - 1);
    assert fifo + Rep(pulse, 0) == fifo && fifo + [port] + Rep(pulse, 0) == fifo + [port];
  }

  lemma BeginStep(fifo: seq<Word>, pulse: Word, port: Word, pulseCounts: nat, steps: nat -> Step, n: nat)
    requires Paced(pulseCounts, steps) && Sent(fifo, pulse, 0, port, 0) == Wave(pulseCounts, steps, n)
    ensures var s := steps(n);
            var pulses := PulseLength(pulseCounts, s);
            Sent(fifo, s.pulse, pulses, s.port, s.delay - pulses) == Wave(pulseCounts, steps, n + 1)
  {
    var s := steps(n);
    var pulses := PulseLength(pulseCounts, s);
    assert Sent(fifo, pulse, 0, port, 0) == fifo;
    var a, b := Rep(s.pulse, pulses), Rep(s.port, s.delay - pulses);
    assert fifo + a + b == fifo + (a + b);
  }

  lemma SentExtends(fifo: seq<Word>, pulse: Word, pulses: nat, port: Word, delays: nat)
    ensures fifo <= Sent(fifo, pulse, pulses, port, delays)
  {}

  class Engine {
    var pulseCounts: nat
    var tickDivisor: nat
    var delayCounts: nat
    var remainingPulseCounts: nat
    var remainingDelayCounts: nat
    var pulseData: Word
    var portData: Word
    var fifo: seq<Word>
    var calls: nat  // how often the pulse function has been called

    /** What is in the FIFO, then what is still to be sent, is the ideal waveform so far. */
    ghost predicate Valid(steps: nat -> Step)
      reads this
    {
      && Paced(pulseCounts, steps)
      && Sent(fifo, pulseData, remainingPulseCounts, portData, remainingDelayCounts) == Wave(pulseCounts, steps, calls)
    }

    /** The static initial values, and a port word. */
    constructor (port: Word)
      ensures pulseCounts == 2 && delayCounts == 40 && portData == port
      ensures calls == 0 && fifo == [] && remainingPulseCounts == remainingDelayCounts == 0
    {
      pulseCounts, tickDivisor, delayCounts := 2, 0, 40;
      remainingPulseCounts, remainingDelayCounts := 0, 0;
      pulseData, portData := 0, port;
      fifo, calls := [], 0;
    }

    /** init_engine(): the pulse and tick units, a first delay of 100 ticks, and the pulse width
        in force.  That delay is at least one sample exactly when the divisor is at most 100;
        without one, the interrupt of an idle engine could not end. */
    method InitEngine(pulseUs: nat, frequency: nat, frameUs: nat) returns (width: nat)
      requires frameUs in {1, 2, 4} && TickDivisor(frequency, frameUs) > 0
      modifies this`pulseCounts, this`tickDivisor, this`delayCounts
      modifies this`remainingPulseCounts, this`remainingDelayCounts
      ensures pulseCounts == PulseCounts(pulseUs, frameUs)
      ensures tickDivisor * 1000000 <= frequency * frameUs % UINT32 < (tickDivisor + 1) * 1000000
      ensures remainingPulseCounts == remainingDelayCounts == 0
      ensures delayCounts * tickDivisor <= 100 < (delayCounts + 1) * tickDivisor
      ensures delayCounts >= 1 <==> tickDivisor <= 100
      ensures width == pulseCounts * frameUs
      ensures width >= pulseUs || width >= I2S_MAX_USEC_PER_PULSE
    {
      var us := pulseUs;
      if us < frameUs {
        us := frameUs;
      }
      if us > I2S_MAX_USEC_PER_PULSE {
        us := I2S_MAX_USEC_PER_PULSE;
      }
      pulseCounts := (us + frameUs - 1) / frameUs;
      tickDivisor := TickDivisor(frequency, frameUs);
      remainingPulseCounts, remainingDelayCounts := 0, 0;
      DivBounds(frequency * frameUs % UINT32, 1000000);
      SetTimerTicks(100);
      if delayCounts >= 1 {
        MulMonotone(1, delayCounts, tickDivisor);
      }
      width := pulseCounts * frameUs;
    }

    /** set_timer_ticks() */
    method SetTimerTicks(ticks: nat)
      requires tickDivisor > 0
      modifies this`delayCounts
      ensures ticks == 0 ==> delayCounts == old(delayCounts)
      ensures ticks > 0 ==> delayCounts * tickDivisor <= ticks < (delayCounts + 1) * tickDivisor
    {
      hide TickDivisor;
      if ticks != 0 {
        delayCounts := ticks / tickDivisor;
        DivBounds(ticks, tickDivisor);
      }
    }

    /** The call of the pulse function and the reload of the counters after it. */
    method NextStep(steps: nat -> Step)
      requires Valid(steps) && remainingPulseCounts == remainingDelayCounts == 0
      modifies this
      ensures Valid(steps) && pulseCounts == old(pulseCounts) && fifo == old(fifo) && calls == old(calls) + 1
      ensures remainingPulseCounts + remainingDelayCounts == steps(old(calls)).delay
    {
      hide Wave;
      hide Sent;
      BeginStep(fifo, pulseData, portData, pulseCounts, steps, calls);
      pulseData := portData;
      var s := steps(calls);
      pulseData, portData, delayCounts := s.pulse, s.port, s.delay;
      calls := calls + 1;
      remainingPulseCounts := if pulseData == portData then 0 else pulseCounts;
      Sub32Exact(delayCounts, remainingPulseCounts);
      remainingDelayCounts := Sub32(delayCounts, remainingPulseCounts);
    }

    /** i2s_isr(): eight more samples, whatever the step in progress. */
    method Isr(steps: nat -> Step)
      requires Valid(steps)
      modifies this
      ensures Valid(steps) && pulseCounts == old(pulseCounts)
      ensures |fifo| == |old(fifo)| + 8 && old(fifo) <= fifo
    {
      hide Wave;
      hide Sent;
      var i := FIFO_RELOAD;
      while i != 0
        invariant 0 <= i <= FIFO_RELOAD
        invariant Valid(steps) && pulseCounts == old(pulseCounts)
        invariant |fifo| == |old(fifo)| + FIFO_RELOAD - i && old(fifo) <= fifo
        decreases i, if remainingPulseCounts + remainingDelayCounts == 0 then 1 else 0
      {
        if remainingPulseCounts != 0 {
          SendPulse(fifo, pulseData, remainingPulseCounts, portData, remainingDelayCounts);
          fifo := fifo + [pulseData];
          i := i - 1;
          remainingPulseCounts := remainingPulseCounts - 1;
        } else if remainingDelayCounts != 0 {
          SendDelay(fifo, pulseData, portData, remainingDelayCounts);
          fifo := fifo + [portData];
          i := i - 1;
          remainingDelayCounts := remainingDelayCounts - 1;
        } else {
          NextStep(steps);
        }
      }
    }

    /** Any number of interrupts. */
    method Interrupts(steps: nat -> Step, n: nat)
      requires Valid(steps) && fifo == []
      modifies this
      ensures pulseCounts == old(pulseCounts) && |fifo| == 8 * n
      ensures Valid(steps)
      ensures forall m :: |Wave(pulseCounts, steps, m)| >= |fifo| ==>
                fifo == Wave(pulseCounts, steps, m)[..|fifo|]
    {
      for i := 0 to n
        invariant Valid(steps) && pulseCounts == old(pulseCounts) && |fifo| == 8 * i
      {
        Isr(steps);
      }
      SentExtends(fifo, pulseData, remainingPulseCounts, portData, remainingDelayCounts);
      forall m | |Wave(pulseCounts, steps, m)| >= |fifo| ensures fifo == Wave(pulseCounts, steps, m)[..|fifo|] {
        PrefixOfWave(pulseCounts, steps, calls, m, fifo);
      }
    }
  }

  /** Whatever prefix of the waveform has been sent, it is a prefix of every longer one. */
  lemma PrefixOfWave(pulseCounts: nat, steps: nat -> Step, k: nat, m: nat, sent: seq<Word>)
    requires Paced(pulseCounts, steps) && sent <= Wave(pulseCounts, steps, k)
    requires |Wave(pulseCounts, steps, m)| >= |sent|
    ensures sent == Wave(pulseCounts, steps, m)[..|sent|]
  {
    if m <= k {
      WaveIsPrefix(pulseCounts, steps, m, k);
    } else {
      WaveIsPrefix(pulseCounts, steps, k, m);
    }
  }

  // ----- Step rates ------------------------------------------------------------------------

  function PulseCounts(pulseUs: nat, frameUs: nat): (n: nat)
    requires frameUs in {1, 2, 4}
    ensures n * frameUs >= pulseUs || n * frameUs >= I2S_MAX_USEC_PER_PULSE
    ensures n >= 1
  {
    var atLeast := if pulseUs < frameUs then frameUs else pulseUs;
    var clamped := if atLeast > I2S_MAX_USEC_PER_PULSE then I2S_MAX_USEC_PER_PULSE else atLeast;
    (clamped + frameUs - 1) / frameUs
  }

  /** Timer ticks per sample, by uint32_t arithmetic. */
  function TickDivisor(frequency: nat, frameUs: nat): nat {
    frequency * frameUs % UINT32 / 1000000
  }

  lemma DivisorBelow(frequency: nat, frameUs: nat)
    ensures TickDivisor(frequency, frameUs) * 1000000 <= frequency * frameUs
  {
    DivUpper(frequency * frameUs % UINT32, 1000000);
    assert frequency * frameUs % UINT32 <= frequency * frameUs;
  }

  function MaxPulsesPerSec(pulseCounts: nat, frameUs: nat): nat
    requires pulseCounts > 0 && frameUs > 0
  {
    1000000 / (2 * pulseCounts * frameUs)
  }

  lemma DivLower(a: nat, d: nat, q: nat)
    requires d > 0 && q * d <= a
    ensures a / d >= q
  {
    var k := a / d;
    assert a == k * d + a % d;
    assert (k + 1) * d > a;
    if k + 1 <= q {
      MulMonotone(k + 1, q, d);
      assert false;
    }
  }

  lemma MulMonotone(x: nat, y: nat, d: nat)
    requires x <= y
    ensures x * d <= y * d
  {}

  lemma DivBounds(a: nat, d: nat)
    requires d > 0
    ensures a / d * d <= a < (a / d + 1) * d
  {
    assert a == a / d * d + a % d;
  }

  lemma DivUpper(a: nat, d: nat)
    requires d > 0
    ensures (a / d) * d <= a
  {}

  /** rate * p * td * m <= rate * p * (f * u) <= m * f */
  lemma RateChain(p: nat, td: nat, rate: nat, m: nat, f: nat, u: nat)
    requires rate * (p * u) <= m && td * m <= f * u && m > 0
    ensures p * td * rate <= f
  {
    var x := p * td * rate;
    MulMonotone(td * m, f * u, p * rate);
    MulMonotone(rate * (p * u), m, f);
    RegroupTicks(p, td, rate, m);
    RegroupFrame(p, rate, f, u);
    if f < x {
      MulMonotone(f + 1, x, m);
      assert false;
    }
  }

  lemma RegroupTicks(p: nat, td: nat, rate: nat, m: nat)
    ensures td * m * (p * rate) == p * td * rate * m
  {}

  lemma RegroupFrame(p: nat, rate: nat, f: nat, u: nat)
    ensures f * u * (p * rate) == rate * (p * u) * f
  {}

  /** At every rate the engine admits, a step's delay is at least twice its pulse: the counter
      subtraction cannot wrap, and the low time is at least the pulse width. */
  lemma DelayCoversPulse(frequency: nat, frameUs: nat, pulseCounts: nat, rate: nat)
    requires frameUs > 0 && pulseCounts > 0 && 0 < rate <= MaxPulsesPerSec(pulseCounts, frameUs)
    requires TickDivisor(frequency, frameUs) > 0
    ensures var ticks := frequency / rate;
            ticks > 0 && ticks / TickDivisor(frequency, frameUs) >= 2 * pulseCounts
  {
    hide TickDivisor;
    var p, m, td := 2 * pulseCounts, 1000000, TickDivisor(frequency, frameUs);
    var c := p * frameUs;
    DivUpper(m, c);
    MulMonotone(rate, m / c, c);
    DivisorBelow(frequency, frameUs);
    var need := p * td;
    RateChain(p, td, rate, m, frequency, frameUs);
    DivLower(frequency, rate, need);
    DivLower(frequency / rate, td, p);
  }

  /** A pulse function that times every step at an admitted rate paces the engine: this is all
      that the interrupt handler needs. */
  lemma RatesPaceTheEngine(frequency: nat, frameUs: nat, pulseCounts: nat, rates: nat -> nat, steps: nat -> Step)
    requires frameUs > 0 && pulseCounts > 0 && frequency < UINT32 && TickDivisor(frequency, frameUs) > 0
    requires forall k :: 0 < rates(k) <= MaxPulsesPerSec(pulseCounts, frameUs)
    requires forall k :: steps(k).delay == frequency / rates(k) / TickDivisor(frequency, frameUs)
    ensures Paced(pulseCounts, steps)
  {
    forall k ensures 0 < steps(k).delay < UINT32 && PulseLength(pulseCounts, steps(k)) <= steps(k).delay {
      var rate, td := rates(k), TickDivisor(frequency, frameUs);
      assert steps(k).delay == frequency / rate / td;
      DelayCoversPulse(frequency, frameUs, pulseCounts, rate);
      QuotientBelow(frequency, rate);
      QuotientBelow(frequency / rate, td);
    }
  }

  lemma QuotientBelow(a: nat, d: nat)
    requires d > 0
    ensures a / d <= a
  {
    DivUpper(a, d);
    MulMonotone(1, d, a / d);
  }

  /** The time of a step is the requested one: with the divisor that init_engine() leaves and the
      delay that set_timer_ticks() then leaves, `delay` frames last no longer than `ticks` ticks
      of the timer, and one frame more lasts longer; up to the rounding of the divisor, and
      exactly so when a frame is a whole number of ticks. */
  lemma StepIntervalIsRequested(frequency: nat, frameUs: nat, divisor: nat, ticks: nat, delay: nat)
    requires frequency * frameUs < UINT32
    requires divisor * 1000000 <= frequency * frameUs % UINT32 < (divisor + 1) * 1000000
    requires delay * divisor <= ticks < (delay + 1) * divisor
    ensures delay * (frequency * frameUs - 999999) <= ticks * 1000000 < (delay + 1) * (frequency * frameUs)
    ensures frequency * frameUs % 1000000 == 0 ==>
              delay * (frequency * frameUs) <= ticks * 1000000 < (delay + 1) * (frequency * frameUs)
  {
    var rate, whole := frequency * frameUs, divisor * 1000000;
    Regroup(delay, divisor);
    Regroup(delay + 1, divisor);
    if rate >= 999999 {
      MulMonotone(rate - 999999, whole, delay);
    } else {
      MulNegative(delay, rate - 999999);
    }
    MulMonotone(whole, rate, delay + 1);
    if rate % 1000000 == 0 {
      assert rate == whole;
    }
  }

  lemma Regroup(n: nat, d: nat)
    ensures n * d * 1000000 == n * (d * 1000000)
  {}

  lemma MulNegative(n: nat, x: int)
    requires x <= 0
    ensures n * x <= 0
  {}

  /** The number of frames of a pulse is the least that covers the pulse, held between one frame
      and 20 us. */
  lemma PulseCountsIsLeast(pulseUs: nat, frameUs: nat)
    requires frameUs in {1, 2, 4}
    ensures var us := if pulseUs < frameUs then frameUs else if pulseUs > 20 then 20 else pulseUs;
            var n := PulseCounts(pulseUs, frameUs);
            (n - 1) * frameUs < us <= n * frameUs
  {}

  /** The advertised maximum is the highest rate at which every step has room for its pulse and as
      much again. */
  lemma MaxRateIsHighest(pulseCounts: nat, frameUs: nat, rate: nat)
    requires pulseCounts > 0 && frameUs > 0
    ensures rate <= MaxPulsesPerSec(pulseCounts, frameUs) <==> rate * (2 * pulseCounts * frameUs) <= 1000000
  {
    var c := 2 * pulseCounts * frameUs;
    DivBounds(1000000, c);
    if rate <= 1000000 / c {
      MulMonotone(rate, 1000000 / c, c);
    } else {
      MulMonotone(1000000 / c + 1, rate, c);
    }
  }

  /** One step's samples: its pulse word as long as the pulse lasts, when it differs from the port
      word, and then the port word. */
  lemma StepWaveAt(pulseCounts: nat, s: Step, i: nat)
    requires pulseCounts <= s.delay && i < s.delay
    ensures |StepWave(pulseCounts, s)| == s.delay
    ensures StepWave(pulseCounts, s)[i] == if i < pulseCounts then s.pulse else s.port
  {}
}
