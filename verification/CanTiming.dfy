/** Integer clock arithmetic: the system clock that `Mcu.c` derives from the crystal
  * and the bit timing that `Can_ChangeBaudrate` derives from the system clock. */
module CanTiming {
  import opened Basics
  import opened CanConfig
  import opened CanBtr

  /** Bit time in quanta as the hardware counts it from the register fields. */
  function BitQuanta(t: BitTiming): nat { 1 + (t.bs1 + 1) + (t.bs2 + 1) }

  /** Truncated to the `uint16` prescaler field. */
  function Prescaler(clock: nat, bitClock: nat): nat
    requires 0 < bitClock
  {
    clock / bitClock % 65536
  }

  /** Clock cycles per second that a prescaler of one would need. */
  function BitClock(rate: nat, quanta: nat): (r: nat)
    requires 0 < rate && 0 < quanta
    ensures 0 < r
  {
    rate * 1000 * quanta
  }

  /** What the driver hands to `CAN_Init`. */
  function Program(b: Baudrate, systemClock: nat): (t: BitTiming)
    requires 0 < DriverBitClock(b)
    ensures Typed(t)
  {
    BitTiming(Prescaler(systemClock / 2, DriverBitClock(b)),
              Segment1(b), Segment2(b), (b.jumpWidth - 1) % 256, 0)
  }

  /** What the hardware then runs on. */
  function OnWire(t: BitTiming): (r: BitTiming)
    ensures 0 < r.prescaler
  {
    Decoded(Register(t))
  }

  /** The segments and the prescaler fit their register fields, and the clock, a 32-bit
    * number, is fast enough for the requested rate. */
  predicate Fits(b: Baudrate, systemClock: nat) {
    && systemClock < TWO32 && 0 < b.rate && 1 <= b.seg1 + b.propSeg <= 16 && 1 <= b.seg2 <= 8
    && BitClock(b.rate, Quanta(b)) <= systemClock / 2 < 1025 * BitClock(b.rate, Quanta(b))
  }

  /** The prescaler is the rounded-down quotient exactly if it brackets the clock. */
  lemma QuotientIff(clock: nat, d: nat, p: nat)
    requires 0 < d
    ensures p == clock / d <==> p * d <= clock < p * d + d
  {
    if p * d <= clock < p * d + d {
      DivModUnique(clock, d, p, clock - p * d);
    } else {
      assert d * (clock / d) + clock % d == clock;
    }
  }

  lemma PrescalerFits(clock: nat, d: nat)
    requires 0 < d <= clock < 1025 * d
    ensures 1 <= clock / d <= 1024 && Prescaler(clock, d) == clock / d
  {
    var q := clock / d;
    QuotientIff(clock, d, q);
    if q > 1024 {
      Apart(d, 1024, q);
    }
  }

  /** A divisor that does not exceed the clock has not wrapped. */
  lemma BitClockFits(b: Baudrate, clock: nat)
    requires 0 < b.rate && DriverQuanta(b) == Quanta(b) && BitClock(b.rate, Quanta(b)) <= clock < TWO32
    ensures DriverBitClock(b) == BitClock(b.rate, Quanta(b))
  {
    hide DriverQuanta;
  }

  /** The prescaler is computed from a 32-bit divisor into 16 bits. With a divisor that fits
    * it is the exact quotient if and only if that fits as well; a larger divisor is replaced
    * by its remainder, where the exact quotient would be 0. */
  lemma PrescalerExactIff(b: Baudrate, systemClock: nat)
    requires systemClock < 0x1_0000_0000 && 1 <= b.seg1 + b.propSeg && 1 <= b.seg2 && Quanta(b) < 256
    requires 0 < DriverBitClock(b)
    ensures var p, d := Program(b, systemClock).prescaler, b.rate * 1000 * (1 + b.propSeg + b.seg1 + b.seg2);
            && 0 < d
            && (d < 0x1_0000_0000 ==> (p == systemClock / 2 / d <==> systemClock / 2 / d < 0x1_0000))
            && (d >= 0x1_0000_0000 ==>
                  && 0 < d % 0x1_0000_0000 && systemClock / 2 / d == 0
                  && p == systemClock / 2 / (d % 0x1_0000_0000) % 0x1_0000)
  {
    hide Program, DriverBitClock, DriverQuanta, Segment1, Segment2;
    QuantaFit(b);
    PrescalerIs(b, systemClock, b.rate * 1000 * Quanta(b));
    QuotientCases(systemClock / 2, b.rate * 1000 * Quanta(b));
  }

  lemma PrescalerIs(b: Baudrate, systemClock: nat, d: nat)
    requires 0 < DriverBitClock(b) && d == b.rate * 1000 * DriverQuanta(b)
    ensures 0 < d % 0x1_0000_0000
    ensures Program(b, systemClock).prescaler == systemClock / 2 / (d % 0x1_0000_0000) % 0x1_0000
  {
  }

  lemma QuotientCases(clock: nat, d: nat)
    requires clock < 0x8000_0000 && 0 < d % 0x1_0000_0000
    ensures 0 < d
    ensures d < 0x1_0000_0000 ==>
              (clock / (d % 0x1_0000_0000) % 0x1_0000 == clock / d <==> clock / d < 0x1_0000)
    ensures d >= 0x1_0000_0000 ==> clock / d == 0
  {
    if d >= 0x1_0000_0000 {
      QuotientIff(clock, d, 0);
    }
  }

  /** Driver and hardware agree on the timing: the configured number of quanta is counted in
    * front of and behind the sample point, the jump width is the configured one if it fits,
    * and the prescaler is the largest one that does not fall below the requested rate. The
    * controller takes part in the bus, neither looped back nor silent, exactly if the jump
    * width is not too large. */
  lemma TimingBound(b: Baudrate, systemClock: nat)
    requires Fits(b, systemClock)
    ensures 0 < DriverBitClock(b)
    ensures var t := OnWire(Program(b, systemClock));
            var clock, d := systemClock / 2, BitClock(b.rate, Quanta(b));
            && BitQuanta(t) == Quanta(b) && t.prescaler == clock / d
            && t.prescaler * d <= clock < t.prescaler * d + d
            && t.bs1 + 1 == b.propSeg + b.seg1 && t.bs2 + 1 == b.seg2
            && (1 <= b.jumpWidth <= 4 ==> t.sjw + 1 == b.jumpWidth)
            && (t.mode == 0 <==> (b.jumpWidth - 1) % 256 < 64)
  {
    hide BitClock, Prescaler, OnWire, Program, DriverBitClock, Segment1, Segment2, DriverQuanta;
    QuantaFit(b);
    var clock, d := systemClock / 2, BitClock(b.rate, Quanta(b));
    BitClockFits(b, clock);
    PrescalerFits(clock, d);
    QuotientIff(clock, d, clock / d);
    TimingFields(b, systemClock);
  }

  lemma TimingFields(b: Baudrate, systemClock: nat)
    requires 0 < DriverBitClock(b) && 1 <= b.seg1 + b.propSeg <= 16 && 1 <= b.seg2 <= 8
    requires 1 <= Prescaler(systemClock / 2, DriverBitClock(b)) <= 1024
    ensures var t := OnWire(Program(b, systemClock));
            && t.prescaler == Prescaler(systemClock / 2, DriverBitClock(b))
            && t.bs1 + 1 == b.propSeg + b.seg1 && t.bs2 + 1 == b.seg2
            && (1 <= b.jumpWidth <= 4 ==> t.sjw + 1 == b.jumpWidth)
            && (t.mode == 0 <==> (b.jumpWidth - 1) % 256 < 64)
  {
    hide BitClock, Prescaler, Decoded, Register, DriverBitClock, Segment1, Segment2;
    QuantaFit(b);
    TimingSurvives(Program(b, systemClock));
  }

  /** Bits per second on the wire. */
  function RealisedRate(t: BitTiming, systemClock: nat): real
    requires 0 < t.prescaler
  {
    Quotient((systemClock / 2) as real, t.prescaler as real, BitQuanta(t) as real)
  }

  function Quotient(clock: real, p: real, q: real): real
    requires 0.0 < p && 0.0 < q
  {
    clock / (p * q)
  }

  /** The realised rate is never below the requested one (in kbit/s) and exceeds it by a
    * factor below 1 + 1/prescaler. */
  predicate Serves(t: BitTiming, rate: nat, systemClock: nat)
    requires 0 < t.prescaler
  {
    var requested := (rate * 1000) as real;
    requested <= RealisedRate(t, systemClock) < requested * (1.0 + 1.0 / t.prescaler as real)
  }

  lemma DivideReal(c: real, n: real, bound: real)
    requires 0.0 < n
    ensures bound <= c / n <==> n * bound <= c
  {
    assert n * (c / n) == c;
    if bound <= c / n {
      Scale(n, bound, c / n);
    } else {
      Scale(n, c / n, bound);
    }
  }

  lemma Scale(n: real, x: real, y: real)
    requires 0.0 < n && x <= y
    ensures n * x <= n * y && (x < y ==> n * x < n * y)
  {
  }

  lemma ServesInReals(clock: real, p: real, q: real, rate: real)
    requires 1.0 <= p && 1.0 <= q
    ensures rate <= Quotient(clock, p, q) < rate * (1.0 + 1.0 / p) <==>
            p * (rate * q) <= clock < p * (rate * q) + rate * q
  {
    var n := p * q;
    DivideReal(clock, n, rate);
    DivideReal(clock, n, rate * (1.0 + 1.0 / p));
    assert p * (rate * q) == n * rate;
    assert p * (rate * q) + rate * q == n * (rate * (1.0 + 1.0 / p)) by {
      assert p * (1.0 / p) == 1.0;
      assert n * (rate * (1.0 + 1.0 / p)) == rate * q * (p * (1.0 + 1.0 / p));
    }
  }

  lemma BoundInReals(clock: nat, p: nat, rate: nat, q: nat)
    requires 0 < rate && 0 < q
    ensures p * BitClock(rate, q) <= clock < p * BitClock(rate, q) + BitClock(rate, q) <==>
            var d := (rate * 1000) as real * q as real;
            p as real * d <= clock as real < p as real * d + d
  {
    var d := BitClock(rate, q);
    assert d as real == (rate * 1000) as real * q as real;
    assert (p * d) as real == p as real * d as real;
  }

  /** Whatever timing the hardware runs on, it serves a rate if and only if its prescaler
    * is the one that would be computed for that rate with its number of quanta. */
  lemma ServesIff(t: BitTiming, rate: nat, systemClock: nat)
    requires 0 < t.prescaler && 0 < rate
    ensures Serves(t, rate, systemClock) <==>
            t.prescaler == systemClock / 2 / BitClock(rate, BitQuanta(t))
  {
    hide BitClock, Quotient;
    var clock, p, q := systemClock / 2, t.prescaler, BitQuanta(t);
    QuotientIff(clock, BitClock(rate, q), p);
    BoundInReals(clock, p, rate, q);
    ServesInReals(clock as real, p as real, q as real, (rate * 1000) as real);
  }

  /** So the rate a fitting table entry asks for is served. */
  lemma RealisedRateBound(b: Baudrate, systemClock: nat)
    requires Fits(b, systemClock)
    ensures 0 < DriverBitClock(b) && Serves(OnWire(Program(b, systemClock)), b.rate, systemClock)
  {
    hide Serves, Program, BitClock, OnWire, DriverBitClock;
    TimingBound(b, systemClock);
    ServesIff(OnWire(Program(b, systemClock)), b.rate, systemClock);
  }

  // ----------------------------------------------------------- system clock

  /** `Mcu_Arc_GetSystemClock` on the connectivity line; absent 32-bit overflow. */
  function SystemClock(extal: nat, pll1: nat, pll2: nat): nat {
    extal / 5 * pll2 / 5 * pll1
  }

  /** The two truncating divisions never overshoot, and lose at most
    * pll1 * (4 * pll2 + 20) twenty-fifths of a hertz: precisely what their remainders come
    * to. */
  lemma SystemClockBound(extal: nat, pll1: nat, pll2: nat)
    ensures extal * pll2 * pll1 - 25 * SystemClock(extal, pll1, pll2) ==
            (extal % 5 * pll2 + 5 * (extal / 5 * pll2 % 5)) * pll1
    ensures 0 <= extal * pll2 * pll1 - 25 * SystemClock(extal, pll1, pll2) <= (4 * pll2 + 20) * pll1
  {
    var a, r := extal / 5, extal % 5;
    var m := a * pll2;
    var lost := r * pll2 + 5 * (m % 5);
    MulRange(r, 4, pll2);
    MulRange(lost, 4 * pll2 + 20, pll1);
    Expand(a, r, pll2, m / 5, m % 5, pll1);
  }

  lemma Expand(a: nat, r: nat, pll2: nat, b: nat, s: nat, pll1: nat)
    requires a * pll2 == 5 * b + s
    ensures (5 * a + r) * pll2 * pll1 - 25 * (b * pll1) == (r * pll2 + 5 * s) * pll1
  {
    assert (5 * a + r) * pll2 == 5 * (a * pll2) + r * pll2 == 25 * b + (r * pll2 + 5 * s);
    assert (25 * b + (r * pll2 + 5 * s)) * pll1 == 25 * (b * pll1) + (r * pll2 + 5 * s) * pll1;
  }

  lemma MulRange(x: nat, high: nat, k: nat)
    requires x <= high
    ensures 0 <= x * k <= high * k
  {
  }
}
