/** The configuration tables that `Can_Init` receives, as values. */
module CanConfig {
  import opened Basics

  datatype ObjectType = Receive | Transmit

  datatype IdType = Standard | Extended | Mixed

  /** `Can_HardwareObjectType`; `eol` is `Can_Arc_EOL`. */
  datatype HwObject = HwObject(
    id: nat, kind: ObjectType, idType: IdType, filterCode: bv32, filterMask: bv32, eol: bool)

  /** `Can_ControllerBaudrateConfigType`. */
  datatype Baudrate = Baudrate(rate: nat, propSeg: nat, seg1: nat, seg2: nat, jumpWidth: nat)

  /** `Can_ControllerConfigType`; the `...Irq` fields say that the corresponding
    * processing is CAN_ARC_PROCESS_TYPE_INTERRUPT. */
  datatype Controller = Controller(
    id: nat, objects: seq<HwObject>, rates: seq<Baudrate>, defaultRate: nat,
    rxIrq: bool, txIrq: bool, busOffIrq: bool)

  /** The list ends at its first end-of-list element, so walking it stays inside. */
  predicate Terminated(objects: seq<HwObject>) {
    objects != [] && forall i :: 0 <= i < |objects| ==> (objects[i].eol <==> i == |objects| - 1)
  }

  /** Time quanta of one bit: the fixed synchronisation quantum and the segments. */
  function Quanta(b: Baudrate): nat { 1 + b.propSeg + b.seg1 + b.seg2 }

  // Register values, held in `uint8` variables by the driver.

  function Segment1(b: Baudrate): nat { (b.seg1 + b.propSeg - 1) % 256 }

  function Segment2(b: Baudrate): nat { (b.seg2 - 1) % 256 }

  /** The same number as the driver adds it up. */
  function DriverQuanta(b: Baudrate): nat {
    ((Segment1(b) + 1) % 256 + (Segment2(b) + 1) % 256 + 1) % 256
  }

  lemma QuantaFit(b: Baudrate)
    requires 1 <= b.seg1 + b.propSeg && 1 <= b.seg2 && Quanta(b) < 256
    ensures Segment1(b) == b.seg1 + b.propSeg - 1 && Segment2(b) == b.seg2 - 1
    ensures DriverQuanta(b) == Quanta(b)
  {
    SmallByte(b.seg1 + b.propSeg - 1);
    SmallByte(b.seg2 - 1);
    SmallByte(b.seg1 + b.propSeg);
    SmallByte(b.seg2);
    SmallByte(Quanta(b));
  }

  lemma SmallByte(n: nat)
    requires n < 256
    ensures n % 256 == n
  {
  }

  /** The divisor that the driver computes for the prescaler, in 32 bits. */
  function DriverBitClock(b: Baudrate): nat { b.rate * 1000 * DriverQuanta(b) % TWO32 }

  /** What the tables must provide so that the driver stays inside its arrays and
    * never divides by zero. */
  predicate Usable(c: Controller, unitCnt: nat, hthCnt: nat) {
    && c.id < unitCnt
    && Terminated(c.objects)
    && (forall i :: 0 <= i < |c.objects| && c.objects[i].kind.Transmit? ==> c.objects[i].id < hthCnt)
    && (c.rates != [] ==> 0 < DriverBitClock(c.rates[0]))
  }

  function CountKind(objects: seq<HwObject>, kind: ObjectType): (n: nat)
    ensures n <= |objects|
  {
    if objects == [] then 0
    else (if objects[0].kind == kind then 1 else 0) + CountKind(objects[1..], kind)
  }

  /** Two FIFOs and one transmit object are what the hardware offers. */
  predicate WithinHardware(objects: seq<HwObject>) {
    CountKind(objects, Receive) <= 2 && CountKind(objects, Transmit) <= 1
  }

  // --------------------------------------------------- the check in Can_Init

  /** How many elements of the kind the checking loop sees: it stops in front of the
    * end-of-list element. */
  function CountBeforeEnd(objects: seq<HwObject>, kind: ObjectType): nat {
    if objects == [] || objects[0].eol then 0
    else (if objects[0].kind == kind then 1 else 0) + CountBeforeEnd(objects[1..], kind)
  }

  /** The counters of the loop are eight bits wide. */
  predicate PassesCheck(objects: seq<HwObject>) {
    CountBeforeEnd(objects, Receive) % 256 <= 2 && CountBeforeEnd(objects, Transmit) % 256 <= 1
  }

  lemma {:induction false} LastIsOverlooked(objects: seq<HwObject>, kind: ObjectType)
    requires Terminated(objects)
    ensures CountKind(objects, kind) ==
            CountBeforeEnd(objects, kind) + if objects[|objects| - 1].kind == kind then 1 else 0
    ensures CountBeforeEnd(objects, kind) < |objects|
  {
    if |objects| > 1 {
      LastIsOverlooked(objects[1..], kind);
    } else {
      assert objects[1..] == [];
    }
  }

  /** The check never rejects a list the hardware can serve, but it overlooks the
    * last element: an accepted list is within the hardware if and only if neither
    * counter has wrapped and that element still fits. */
  lemma {:induction false} CheckIsSoundIff(objects: seq<HwObject>)
    requires Terminated(objects)
    ensures WithinHardware(objects) ==> PassesCheck(objects)
    ensures var last := objects[|objects| - 1].kind;
            PassesCheck(objects) ==>
              (WithinHardware(objects) <==>
               && CountBeforeEnd(objects, Receive) < 256 && CountBeforeEnd(objects, Transmit) < 256
               && CountBeforeEnd(objects, last) < if last.Receive? then 2 else 1)
  {
    LastIsOverlooked(objects, Receive);
    LastIsOverlooked(objects, Transmit);
    var rx, tx := CountBeforeEnd(objects, Receive), CountBeforeEnd(objects, Transmit);
    assert (rx < 256 ==> rx % 256 == rx) && (tx < 256 ==> tx % 256 == tx);
  }
}
