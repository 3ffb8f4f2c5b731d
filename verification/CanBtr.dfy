/** The bit timing register: how `CAN_Init` packs the timing fields into CAN_BTR, without
  * masking them, and what the hardware reads from it. */
module CanBtr {
  import opened Basics

  /** The timing fields handed to `CAN_Init`, or read back by the hardware: segments are
    * stored minus one, the prescaler is its logical value. The mode is normal (0), loop-back
    * (1), silent (2) or both. */
  datatype BitTiming = BitTiming(prescaler: nat, bs1: nat, bs2: nat, sjw: nat, mode: nat)

  /** As wide as the C types of the structure's members. */
  predicate Typed(t: BitTiming) {
    t.prescaler < 65536 && t.bs1 < 256 && t.bs2 < 256 && t.sjw < 256 && t.mode < 4
  }

  function Half(w: nat): nat { w / 2 }

  function Bit(w: nat): (b: nat)
    ensures b == 0 || b == 1
  {
    w % 2
  }

  /** Bitwise or. */
  function Or(a: nat, b: nat): nat
    decreases a + b
  {
    if a == 0 && b == 0 then 0 else 2 * Or(Half(a), Half(b)) + if Bit(a) == 1 || Bit(b) == 1 then 1 else 0
  }

  /** The register. The prescaler field is the logical value minus one in 32 bits. */
  function Register(t: BitTiming): nat {
    Or(Or(Or(Or(t.mode * 0x4000_0000, t.sjw * 0x100_0000), t.bs1 * 0x1_0000), t.bs2 * 0x10_0000),
       if t.prescaler == 0 then 0xFFFF_FFFF else t.prescaler - 1)
  }

  /** BRP has 10 bits, TS1 4, TS2 3 and SJW 2; LBKM and SILM are at the top. */
  function Decoded(w: nat): BitTiming {
    BitTiming(w % 1024 + 1, w / 0x1_0000 % 16, w / 0x10_0000 % 8, w / 0x100_0000 % 4, w / 0x4000_0000 % 4)
  }

  // ------------------------------------------------------------ bits of an or

  function Power(k: nat): (p: nat)
    ensures p > 0
  {
    if k == 0 then 1 else 2 * Power(k - 1)
  }

  /** The bits from `k` on. */
  function High(w: nat, k: nat): nat { if k == 0 then w else High(Half(w), k - 1) }

  /** The bits below `k`. */
  function Low(w: nat, k: nat): nat { if k == 0 then 0 else 2 * Low(Half(w), k - 1) + Bit(w) }

  lemma Doubled(x: nat, b: nat)
    requires b < 2
    ensures Half(2 * x + b) == x && Bit(2 * x + b) == b
  {
  }

  lemma OrBits(a: nat, b: nat)
    ensures Half(Or(a, b)) == Or(Half(a), Half(b))
    ensures Bit(Or(a, b)) == if Bit(a) == 1 || Bit(b) == 1 then 1 else 0
  {
    if a != 0 || b != 0 {
      Doubled(Or(Half(a), Half(b)), if Bit(a) == 1 || Bit(b) == 1 then 1 else 0);
    }
  }

  lemma {:induction false} OrHigh(a: nat, b: nat, k: nat)
    ensures High(Or(a, b), k) == Or(High(a, k), High(b, k))
    decreases k
  {
    hide Or, Half, Bit;
    if k > 0 {
      OrBits(a, b);
      OrHigh(Half(a), Half(b), k - 1);
    }
  }

  lemma {:induction false} OrLow(a: nat, b: nat, k: nat)
    ensures Low(Or(a, b), k) == Or(Low(a, k), Low(b, k))
    decreases k
  {
    hide Half, Bit, Or;
    OrZero(0);
    if k > 0 {
      OrBits(a, b);
      OrLow(Half(a), Half(b), k - 1);
      Doubled(Low(Half(a), k - 1), Bit(a));
      Doubled(Low(Half(b), k - 1), Bit(b));
      OrUnfold(Low(a, k), Low(b, k));
    }
  }

  lemma OrUnfold(a: nat, b: nat)
    ensures Or(a, b) == 2 * Or(Half(a), Half(b)) + if Bit(a) == 1 || Bit(b) == 1 then 1 else 0
  {
  }

  lemma {:induction false} OrZero(a: nat)
    ensures Or(a, 0) == a && Or(0, a) == a
  {
    if a > 0 {
      OrZero(a / 2);
    }
  }

  lemma HalfDivMod(w: nat, m: nat)
    requires 0 < m
    ensures w / (2 * m) == Half(w) / m && w % (2 * m) == 2 * (Half(w) % m) + Bit(w)
  {
    var q, r, b := Half(w) / m, Half(w) % m, Bit(w);
    assert w == 2 * Half(w) + b && Half(w) == m * q + r;
    assert w == 2 * m * q + (2 * r + b);
    DivModUnique(w, 2 * m, q, 2 * r + b);
  }

  lemma {:induction false} SplitAt(w: nat, k: nat)
    ensures High(w, k) == w / Power(k) && Low(w, k) == w % Power(k)
    decreases k
  {
    hide Half, Bit;
    if k > 0 {
      HalfDivMod(w, Power(k - 1));
      SplitAt(Half(w), k - 1);
    }
  }

  function Field(w: nat, from: nat, width: nat): nat { w / Power(from) % Power(width) }

  /** A field of an or is the or of the fields. */
  lemma OrField(a: nat, b: nat, from: nat, width: nat)
    ensures Field(Or(a, b), from, width) == Or(Field(a, from, width), Field(b, from, width))
  {
    hide Or, Power, High, Low;
    SplitAt(a, from);
    SplitAt(b, from);
    SplitAt(Or(a, b), from);
    OrHigh(a, b, from);
    SplitAt(High(a, from), width);
    SplitAt(High(b, from), width);
    SplitAt(High(Or(a, b), from), width);
    OrLow(High(a, from), High(b, from), width);
  }

  lemma Powers()
    ensures Power(0) == 1 && Power(2) == 4 && Power(3) == 8 && Power(4) == 16 && Power(10) == 1024
    ensures Power(16) == 0x1_0000 && Power(20) == 0x10_0000 && Power(24) == 0x100_0000
    ensures Power(30) == 0x4000_0000
  {
    assert Power(4) == 16;
    assert Power(8) == 16 * Power(4);
    assert Power(10) == 4 * Power(8);
    assert Power(12) == 16 * Power(8);
    assert Power(16) == 16 * Power(12);
    assert Power(20) == 16 * Power(16);
    assert Power(24) == 16 * Power(20);
    assert Power(28) == 16 * Power(24);
    assert Power(30) == 4 * Power(28);
  }

  lemma DecodedFields(w: nat)
    ensures Decoded(w) ==
            BitTiming(Field(w, 0, 10) + 1, Field(w, 16, 4), Field(w, 20, 3), Field(w, 24, 2), Field(w, 30, 2))
  {
    Powers();
  }

  // Where each of the five parts of the register reaches.

  lemma ModeFields(mode: nat)
    requires mode < 4
    ensures var m := mode * 0x4000_0000;
            && Field(m, 0, 10) == 0 && Field(m, 16, 4) == 0 && Field(m, 20, 3) == 0
            && Field(m, 24, 2) == 0 && Field(m, 30, 2) == mode
  {
    hide Power;
    Powers();
  }

  lemma JumpWidthFields(sjw: nat)
    requires sjw < 256
    ensures var s := sjw * 0x100_0000;
            && Field(s, 0, 10) == 0 && Field(s, 16, 4) == 0 && Field(s, 20, 3) == 0
            && Field(s, 24, 2) == sjw % 4 && Field(s, 30, 2) == sjw / 64
  {
    hide Power;
    Powers();
    var s := sjw * 0x100_0000;
    DivModUnique(s, 1024, sjw * 0x4000, 0);
    DivModUnique(s, 0x1_0000, sjw * 256, 0);
    DivModUnique(sjw * 256, 16, sjw * 16, 0);
    DivModUnique(s, 0x10_0000, sjw * 16, 0);
    DivModUnique(sjw * 16, 8, sjw * 2, 0);
    DivModUnique(s, 0x100_0000, sjw, 0);
    DivModUnique(s, 0x4000_0000, sjw / 64, sjw % 64 * 0x100_0000);
    assert s / 1 == s;
  }

  lemma Segment1Fields(bs1: nat)
    requires bs1 < 256
    ensures var b := bs1 * 0x1_0000;
            && Field(b, 0, 10) == 0 && Field(b, 16, 4) == bs1 % 16
            && Field(b, 20, 3) == bs1 / 16 % 8 && Field(b, 24, 2) == 0 && Field(b, 30, 2) == 0
  {
    hide Power;
    Powers();
  }

  lemma Segment2Fields(bs2: nat)
    requires bs2 < 256
    ensures var b := bs2 * 0x10_0000;
            && Field(b, 0, 10) == 0 && Field(b, 16, 4) == 0
            && Field(b, 20, 3) == bs2 % 8 && Field(b, 24, 2) == bs2 / 16 % 4 && Field(b, 30, 2) == 0
  {
    hide Power;
    Powers();
  }

  lemma PrescalerFields(p: nat)
    requires p < 65536
    ensures Field(p, 0, 10) == p % 1024 && Field(p, 16, 4) == 0 && Field(p, 20, 3) == 0
    ensures Field(p, 24, 2) == 0 && Field(p, 30, 2) == 0
  {
    hide Power;
    Powers();
  }

  // -------------------------------------------------------- what is programmed

  /** What the hardware makes of the register: a prescaler beyond 1024 wraps, a
    * segment that is too long runs over into the field above it, and a jump width beyond
    * 64 turns on loop-back or silent mode. */
  lemma RegisterFields(t: BitTiming)
    requires Typed(t) && 1 <= t.prescaler
    ensures Decoded(Register(t)) ==
            BitTiming((t.prescaler - 1) % 1024 + 1, t.bs1 % 16,
                      Or(t.bs1 / 16 % 8, t.bs2 % 8), Or(t.sjw % 4, t.bs2 / 16 % 4), Or(t.mode, t.sjw / 64))
  {
    hide Or, Field, Decoded;
    DecodedFields(Register(t));
    ModeFields(t.mode);
    JumpWidthFields(t.sjw);
    Segment1Fields(t.bs1);
    Segment2Fields(t.bs2);
    PrescalerFields(t.prescaler - 1);
    FieldOfRegister(t, 0, 10);
    FieldOfRegister(t, 16, 4);
    FieldOfRegister(t, 20, 3);
    FieldOfRegister(t, 24, 2);
    FieldOfRegister(t, 30, 2);
    OrZero(0);
    OrZero((t.prescaler - 1) % 1024);
    OrZero(t.bs1 % 16);
    OrZero(t.bs1 / 16 % 8);
    OrZero(t.sjw % 4);
    OrZero(Or(t.bs1 / 16 % 8, t.bs2 % 8));
    OrZero(Or(t.sjw % 4, t.bs2 / 16 % 4));
    OrZero(Or(t.mode, t.sjw / 64));
  }

  lemma FieldOfRegister(t: BitTiming, from: nat, width: nat)
    requires 1 <= t.prescaler
    ensures Field(Register(t), from, width) ==
            Or(Or(Or(Or(Field(t.mode * 0x4000_0000, from, width), Field(t.sjw * 0x100_0000, from, width)),
                     Field(t.bs1 * 0x1_0000, from, width)),
                  Field(t.bs2 * 0x10_0000, from, width)),
               Field(t.prescaler - 1, from, width))
  {
    hide Or, Field;
    var m, s, b1, b2 := t.mode * 0x4000_0000, t.sjw * 0x100_0000, t.bs1 * 0x1_0000, t.bs2 * 0x10_0000;
    OrField(m, s, from, width);
    OrField(Or(m, s), b1, from, width);
    OrField(Or(Or(m, s), b1), b2, from, width);
    OrField(Or(Or(Or(m, s), b1), b2), t.prescaler - 1, from, width);
  }

  /** The hardware reads exactly what the driver meant if and only if every value fits
    * its field. */
  lemma RegisterExactIff(t: BitTiming)
    requires Typed(t)
    ensures Decoded(Register(t)) == t <==> 1 <= t.prescaler <= 1024 && t.bs1 < 16 && t.bs2 < 8 && t.sjw < 4
  {
    hide Or, Register;
    if 1 <= t.prescaler {
      RegisterFields(t);
      OrZero(t.bs2 % 8);
      OrZero(t.sjw % 4);
      OrZero(t.mode);
    }
  }

  /** The timing itself survives even if the jump width does not fit; the mode survives
    * exactly if the jump width field stays below it. */
  lemma TimingSurvives(t: BitTiming)
    requires Typed(t) && 1 <= t.prescaler <= 1024 && t.bs1 < 16 && t.bs2 < 8
    ensures var r := Decoded(Register(t)); r == t.(sjw := t.sjw % 4, mode := Or(t.mode, t.sjw / 64))
    ensures t.mode == 0 ==> (Decoded(Register(t)).mode == 0 <==> t.sjw < 64)
  {
    hide Or, Register;
    RegisterFields(t);
    OrZero(t.bs2 % 8);
    OrZero(t.sjw % 4);
    OrZero(t.sjw / 64);
  }
}
