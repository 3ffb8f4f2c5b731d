/** Acceptance filters: how `Can_ChangeBaudrate` encodes a receive object into a
  * 32-bit mask-mode filter bank, which frames the hardware then accepts, and how
  * the receive interrupt attributes them to objects. Register layout as in section
  * 24.7.4 of RM0008. */
module CanFilter {
  import opened Basics
  import opened CanConfig

  /** An identifier has 11 or 29 significant bits. */
  predicate IdFits(extended: bool, id: bv32) { if extended then id <= 0x1FFF_FFFF else id <= 0x7FF }

  /** A frame on the bus. */
  datatype Frame = Frame(extended: bool, id: bv32, remote: bool, data: seq<Byte>) {
    predicate Valid() { IdFits(extended, id) && |data| <= 8 }
  }

  /** The CAN_RIxR image of a frame's identifier. */
  function IdRegister(f: Frame): bv32 {
    Image(f.extended, f.id, if f.remote then 2 else 0)
  }

  function Image(extended: bool, id: bv32, rtr: bv32): bv32 {
    (if extended then (id << 3) | 4 else id << 21) | rtr
  }

  /** One filter bank: registers FR1, FR2 and its FIFO assignment. */
  datatype Bank = Bank(fr1: bv32, fr2: bv32, fifo: nat)

  function Difference(a: bv32, b: bv32, mask: bv32): bv32 { (a ^ b) & mask }

  /** 32-bit mask mode: no bit that the mask register marks differs. */
  predicate Matches(b: Bank, f: Frame) {
    Difference(IdRegister(f), b.fr1, b.fr2) == 0
  }

  /** The usual way to say it. */
  predicate Agree(a: bv32, b: bv32, mask: bv32) { a & mask == b & mask }

  lemma NoDifference(a: bv32, b: bv32, mask: bv32)
    requires Difference(a, b, mask) == 0
    ensures Agree(a, b, mask)
  {
  }

  lemma Agreement(a: bv32, b: bv32, mask: bv32)
    requires Agree(a, b, mask)
    ensures Difference(a, b, mask) == 0
  {
  }

  /** `CAN_FilterInit`: two 16-bit halves make one register. */
  function Halves(high: bv32, low: bv32): bv32 {
    ((0xFFFF & high) << 16) | (0xFFFF & low)
  }

  function EncodeStandard(v: bv32): bv32 {
    Halves((v & 0x7FF) << 5, 0)
  }

  function EncodeExtended(v: bv32): bv32 {
    Halves((v & 0xFFFF_E000) >> 13, ((v & 0x1FFF) << 3) | 4)
  }

  function Encode(o: HwObject, fifo: nat): Bank {
    if o.idType.Standard? then Bank(EncodeStandard(o.filterCode), EncodeStandard(o.filterMask), fifo)
    else Bank(EncodeExtended(o.filterCode), EncodeExtended(o.filterMask), fifo)
  }

  // The identifier bits of a mask.

  function Low11(mask: bv32): bv32 { mask & 0x7FF }

  function Low29(mask: bv32): bv32 { mask & 0x1FFF_FFFF }

  /** The part of the identifier that is sent first: all of a standard one, the top
    * eleven bits of an extended one. */
  function BaseId(f: Frame): bv32 {
    if f.extended then f.id >> 18 else f.id
  }

  /** What an object asks for, said of identifiers instead of registers. Note the
    * two corners: a standard object also takes extended frames whose base
    * identifier agrees, and a mixed one takes extended frames only. */
  predicate Accepts(o: HwObject, f: Frame) {
    if o.idType.Standard? then Agree(BaseId(f), o.filterCode, Low11(o.filterMask))
    else f.extended && Agree(f.id, o.filterCode, Low29(o.filterMask))
  }

  /** The two register halves combine to (value << 3) | 4. */
  lemma ExtendedHalves(v: bv32)
    requires v <= 0x1FFF_FFFF
    ensures EncodeExtended(v) == (v << 3) | 4
  {
  }

  // Each direction of each case on its own: the solver settles an implication
  // between masked words quickly, an equivalence between them slowly.

  lemma StandardMatchAccepts(f: Frame, code: bv32, mask: bv32)
    requires f.Valid() && Difference(IdRegister(f), EncodeStandard(code), EncodeStandard(mask)) == 0
    ensures Difference(BaseId(f), code, Low11(mask)) == 0
  {
  }

  lemma StandardAcceptMatches(f: Frame, code: bv32, mask: bv32)
    requires f.Valid() && Difference(BaseId(f), code, Low11(mask)) == 0
    ensures Difference(IdRegister(f), EncodeStandard(code), EncodeStandard(mask)) == 0
  {
  }

  lemma ExtendedMatchAccepts(f: Frame, code: bv32, mask: bv32)
    requires f.Valid() && Difference(IdRegister(f), EncodeExtended(code), EncodeExtended(mask)) == 0
    ensures f.extended && Difference(f.id, code, Low29(mask)) == 0
  {
  }

  lemma ExtendedAcceptMatches(f: Frame, code: bv32, mask: bv32)
    requires f.Valid() && f.extended && Difference(f.id, code, Low29(mask)) == 0
    ensures Difference(IdRegister(f), EncodeExtended(code), EncodeExtended(mask)) == 0
  {
  }

  lemma MatchAccepts(o: HwObject, f: Frame, fifo: nat)
    requires f.Valid() && Matches(Encode(o, fifo), f)
    ensures Accepts(o, f)
  {
    hide Agree, Difference, EncodeStandard, EncodeExtended, IdRegister, BaseId, Low11, Low29, Frame.Valid;
    var code, mask := o.filterCode, o.filterMask;
    if o.idType.Standard? {
      StandardMatchAccepts(f, code, mask);
      NoDifference(BaseId(f), code, Low11(mask));
    } else {
      ExtendedMatchAccepts(f, code, mask);
      NoDifference(f.id, code, Low29(mask));
    }
  }

  lemma AcceptMatches(o: HwObject, f: Frame, fifo: nat)
    requires f.Valid() && Accepts(o, f)
    ensures Matches(Encode(o, fifo), f)
  {
    hide Agree, Difference, EncodeStandard, EncodeExtended, IdRegister, BaseId, Low11, Low29, Frame.Valid;
    var code, mask := o.filterCode, o.filterMask;
    if o.idType.Standard? {
      Agreement(BaseId(f), code, Low11(mask));
      StandardAcceptMatches(f, code, mask);
    } else {
      Agreement(f.id, code, Low29(mask));
      ExtendedAcceptMatches(f, code, mask);
    }
  }

  /** Register matching is acceptance by identifier, for every frame and object. */
  lemma EncodeMatches(o: HwObject, f: Frame, fifo: nat)
    requires f.Valid()
    ensures Matches(Encode(o, fifo), f) <==> Accepts(o, f)
  {
    hide Matches, Accepts;
    if Matches(Encode(o, fifo), f) {
      MatchAccepts(o, f, fifo);
    }
    if Accepts(o, f) {
      AcceptMatches(o, f, fifo);
    }
  }

  // --------------------------------------------------------------- routing

  /** The banks written by the filter loop of `Can_ChangeBaudrate`, in bank order:
    * the first receive object goes to FIFO 0, the second to FIFO 1. The running
    * FIFO number is eight bits wide. */
  function FilterSetup(objects: seq<HwObject>, fifo: nat): seq<Bank> {
    if objects == [] then []
    else if objects[0].kind.Receive? then [Encode(objects[0], fifo)] + FilterSetup(objects[1..], (fifo + 1) % 256)
    else FilterSetup(objects[1..], fifo)
  }

  /** Among banks of one kind the lowest-numbered matching one decides. */
  function HwRoute(banks: seq<Bank>, f: Frame): Option<nat> {
    if banks == [] then None
    else if Matches(banks[0], f) then Some(banks[0].fifo)
    else HwRoute(banks[1..], f)
  }

  /** The objects that the loop of `Can_RxIsr` indicates for a FIFO, `count` receive
    * objects having been passed already; the counter is eight bits wide. */
  function Indicated(objects: seq<HwObject>, fifo: nat, count: nat): seq<HwObject> {
    if objects == [] then []
    else if !objects[0].kind.Receive? then Indicated(objects[1..], fifo, count)
    else
      (if fifo == count then [objects[0]] else []) + Indicated(objects[1..], fifo, (count + 1) % 256)
  }

  /** The object a reader of the configuration expects to be served: the first
    * receive object in the list that accepts the frame. */
  function FirstAccepting(objects: seq<HwObject>, f: Frame): Option<HwObject> {
    if objects == [] then None
    else if objects[0].kind.Receive? && Accepts(objects[0], f) then Some(objects[0])
    else FirstAccepting(objects[1..], f)
  }

  /** An identifier as the upper layer knows it: the top bit tells extended ones apart. */
  function Flagged(extended: bool, id: bv32): bv32 { if extended then id | 0x8000_0000 else id }

  // What `CAN_Receive` reads from the register.

  predicate IsExtended(r: bv32) { r & 4 != 0 }

  function ExtendedPart(r: bv32): bv32 { 0x1FFF_FFFF & (r >> 3) }

  function StandardPart(r: bv32): bv32 { 0x7FF & (r >> 21) }

  /** The identifier passed to `CanIf_RxIndication`, computed from the register as
    * `CAN_Receive` and the interrupt do. */
  function IndicatedId(r: bv32): bv32 {
    if IsExtended(r) then Flagged(true, ExtendedPart(r)) else Flagged(false, StandardPart(r))
  }

  lemma ExtendedWord(id: bv32, rtr: bv32)
    requires IdFits(true, id) && (rtr == 0 || rtr == 2)
    ensures IsExtended(Image(true, id, rtr)) && ExtendedPart(Image(true, id, rtr)) == id
  {
  }

  lemma StandardWord(id: bv32, rtr: bv32)
    requires IdFits(false, id) && (rtr == 0 || rtr == 2)
    ensures !IsExtended(Image(false, id, rtr)) && StandardPart(Image(false, id, rtr)) == id
  {
  }

  /** The upper layer sees the frame's own identifier. */
  lemma IndicatedIdExact(f: Frame)
    requires f.Valid()
    ensures IndicatedId(IdRegister(f)) == Flagged(f.extended, f.id)
  {
    hide IsExtended, ExtendedPart, StandardPart, Image, Flagged, IdFits;
    if f.extended {
      ExtendedWord(f.id, if f.remote then 2 else 0);
    } else {
      StandardWord(f.id, if f.remote then 2 else 0);
    }
  }

  lemma {:induction false} NothingBehind(objects: seq<HwObject>, fifo: nat, count: nat)
    requires fifo < count && count + CountKind(objects, Receive) <= 256
    ensures Indicated(objects, fifo, count % 256) == []
  {
    if objects != [] {
      NothingBehind(objects[1..], fifo, if objects[0].kind.Receive? then count + 1 else count);
    }
  }

  lemma {:induction false} RouteFrom(objects: seq<HwObject>, base: nat, f: Frame)
    requires f.Valid() && base + CountKind(objects, Receive) < 256
    ensures var r := HwRoute(FilterSetup(objects, base), f);
            match FirstAccepting(objects, f)
            case None => r == None
            case Some(o) =>
              && r.Some? && base <= r.value < base + CountKind(objects, Receive)
              && Indicated(objects, r.value, base) == [o]
  {
    if objects != [] {
      var o := objects[0];
      if !o.kind.Receive? {
        RouteFrom(objects[1..], base, f);
      } else {
        EncodeMatches(o, f, base);
        if Accepts(o, f) {
          NothingBehind(objects[1..], base, base + 1);
        } else {
          RouteFrom(objects[1..], base + 1, f);
        }
      }
    }
  }

  /** Filter set-up and receive interrupt agree, end to end: with at most two
    * receive objects, a frame is stored exactly if some object accepts it, and the
    * interrupt of the FIFO it lands in indicates it once, for the first object in
    * the list that accepts it. */
  lemma RoutingIsExact(objects: seq<HwObject>, f: Frame)
    requires f.Valid() && CountKind(objects, Receive) <= 2
    ensures var r := HwRoute(FilterSetup(objects, 0), f);
            match FirstAccepting(objects, f)
            case None => r == None
            case Some(o) => r.Some? && r.value < 2 && Indicated(objects, r.value, 0) == [o]
  {
    RouteFrom(objects, 0, f);
  }
}
