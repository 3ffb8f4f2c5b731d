/** Receive routing and bit timing inside the whole driver: what a successful
  * baud-rate change programs, how long it lasts, and what the receive interrupt then
  * makes of a frame. */
module CanReceive {
  import opened Basics
  import opened CanConfig
  import opened CanFilter
  import opened CanBtr
  import opened CanTiming
  import opened CanSpec
  import opened CanEffects
  import CanTx

  /** Controller `x` has exactly the filters of its configured objects. */
  predicate Routed(d: Driver, x: nat) {
    && Wf(d) && d.Ready() && x < |d.units|
    && d.units[x].banks == FilterSetup(ConfigOf(d, x).objects, 0)
  }

  /** A successful change leaves exactly the configured filters if and only if the
    * window did not hold more banks than it needs; the first controller's never does,
    * because its reset has just emptied it. Banks beyond those written stay active. */
  lemma ChangeRoutesIff(d: Driver, c: nat, rate: nat, hwOk: bool)
    requires Wf(d) && ChangeBaudrate(d, c, rate, hwOk).1
    ensures Routed(ChangeBaudrate(d, c, rate, hwOk).0, c) <==>
            c == 0 || |d.units[c].banks| <= |FilterSetup(ConfigOf(d, c).objects, 0)|
  {
    hide FilterSetup;
    var setup := FilterSetup(ConfigOf(d, c).objects, 0);
    var before := if c == 0 then [] else d.units[c].banks;
    assert ChangeBaudrate(d, c, rate, hwOk).0.units[c].banks == Overlay(setup, before);
    assert |Overlay(setup, before)| == if |setup| < |before| then |before| else |setup|;
  }

  /** What the hardware of a controller runs on after a successful change. */
  function WireTiming(d: Driver, c: nat): (t: BitTiming)
    requires c < |d.units| && d.units[c].timing.Some?
    ensures 0 < t.prescaler
  {
    OnWire(d.units[c].timing.value)
  }

  lemma ChangeTiming(d: Driver, c: nat, rate: nat, hwOk: bool)
    requires Wf(d) && ChangeBaudrate(d, c, rate, hwOk).1
    ensures c < |d.units| && d.Ready()
    ensures var rates := ConfigOf(d, c).rates;
            && rates != [] && 0 < DriverBitClock(rates[0])
            && ChangeBaudrate(d, c, rate, hwOk).0.units[c].timing == Some(Program(rates[0], d.systemClock))
  {
    assert Offers(ConfigOf(d, c).rates, rate);
    assert Usable(ConfigOf(d, c), |d.units|, |d.hthMap|);
  }

  /** The change programs the timing of table entry 0 whatever entry it matched. So the
    * requested rate is served if and only if the prescaler computed for it with the
    * quanta in the register is the one in the register; and, if entry 0 fits the
    * register, if and only if entry 0 and the request come to the same prescaler. */
  lemma ChangeServesIff(d: Driver, c: nat, rate: nat, hwOk: bool)
    requires Wf(d) && ChangeBaudrate(d, c, rate, hwOk).1 && 0 < rate
    ensures var first := (ChangeTiming(d, c, rate, hwOk); ConfigOf(d, c).rates[0]);
            var r := ChangeBaudrate(d, c, rate, hwOk).0;
            && r.units[c].timing.Some?
            && var t, clock := WireTiming(r, c), d.systemClock / 2;
               && (Serves(t, rate, d.systemClock) <==> t.prescaler == clock / BitClock(rate, BitQuanta(t)))
               && (Fits(first, d.systemClock) ==>
                     (Serves(t, rate, d.systemClock) <==>
                      clock / BitClock(first.rate, Quanta(first)) == clock / BitClock(rate, Quanta(first))))
  {
    hide Program, Serves, Fits, OnWire, ChangeBaudrate, BitClock;
    ChangeTiming(d, c, rate, hwOk);
    var first := ConfigOf(d, c).rates[0];
    var t := WireTiming(ChangeBaudrate(d, c, rate, hwOk).0, c);
    ServesIff(t, rate, d.systemClock);
    if Fits(first, d.systemClock) {
      TimingBound(first, d.systemClock);
    }
  }

  /** `Can_ChangeBaudrate` gets past its checks: from there on it resets the controller,
    * whether or not the hardware then follows. */
  predicate Admitted(d: Driver, c: nat, rate: nat)
    requires Wf(d)
  {
    d.Ready() && c < |d.units| && CheckBaudrate(d, c, rate) && d.units[c].mode.Stopped?
  }

  /** The filters live in the first controller: another controller's survive a change if
    * and only if it is not the first one's, or is refused, or there were none. */
  lemma OthersKeepFiltersIff(d: Driver, c: nat, rate: nat, hwOk: bool, x: nat)
    requires Wf(d) && x < |d.units| && x != c
    ensures ChangeBaudrate(d, c, rate, hwOk).0.units[x].banks == d.units[x].banks <==>
            c != 0 || !Admitted(d, c, rate) || d.units[x].banks == []
  {
    hide FilterSetup, Overlay, CheckBaudrate;
    if Admitted(d, c, rate) {
      var after := ChangeBaudrate(d, c, rate, hwOk).0.units[x].banks;
      assert after == ResetUnits(d.units, c)[x].banks;
    }
  }

  /** And a controller without filters hears nothing. */
  lemma NoFiltersNoFrames(d: Driver, x: nat, f: Frame)
    requires Wf(d) && x < |d.units| && d.units[x].banks == []
    ensures Arrive(d, x, f) == d
  {
  }

  /** The event reprograms the filters that controller `x` uses, or drops its
    * configuration. */
  predicate Reroutes(e: Event, x: nat) {
    match e
    case EvInit(_, _) => true
    case EvDeInit => true
    case EvChangeBaudrate(c, _, _) => c == x || c == 0
    case EvSetMode(c, t, _) => t.ToStart? && (c == x || c == 0)
    case _ => false
  }

  lemma BaudrateElsewhere(d: Driver, c: nat, rate: nat, hwOk: bool, x: nat)
    requires Wf(d) && x < |d.units| && c != x && c != 0
    ensures ChangeBaudrate(d, c, rate, hwOk).0.units[x].banks == d.units[x].banks
  {
  }

  lemma StartElsewhere(d: Driver, c: nat, hwOk: bool, x: nat)
    requires Wf(d) && d.Ready() && c < |d.units| && x < |d.units| && c != x && c != 0
    ensures Start(d, c, hwOk).0.units[x].banks == d.units[x].banks
  {
    hide ChangeBaudrate;
    BaudrateElsewhere(d, c, ConfigOf(d, c).defaultRate, hwOk, x);
  }

  lemma SetModeKeepsBanks(d: Driver, c: nat, t: Transition, hwOk: bool, x: nat)
    requires Wf(d) && x < |d.units| && !Reroutes(EvSetMode(c, t, hwOk), x)
    ensures SetMode(d, c, t, hwOk).0.units[x].banks == d.units[x].banks
    ensures SameGlobals(d, SetMode(d, c, t, hwOk).0)
  {
    hide Start;
    SetModeEffectGlobals(d, c, t, hwOk, x);
    if c < |d.units| && d.Ready() && t.ToStart? && d.units[c].mode.Stopped? {
      StartElsewhere(SetUnit(d, c, d.units[c].(pending := Nothing)), c, hwOk, x);
    }
  }

  lemma SetModeEffectGlobals(d: Driver, c: nat, t: Transition, hwOk: bool, x: nat)
    requires Wf(d) && x < |d.units|
    ensures SameGlobals(d, SetMode(d, c, t, hwOk).0)
  {
    hide SetMode;
    SetModeEffect(d, c, t, hwOk, x);
  }

  lemma ErrIsrKeepsBanks(d: Driver, c: nat, wake: bool, busOff: bool, x: nat)
    requires Wf(d) && c < |d.units| && x < |d.units|
    ensures ErrIsr(d, c, wake, busOff).units[x].banks == d.units[x].banks
    ensures SameGlobals(d, ErrIsr(d, c, wake, busOff))
  {
    hide SetMode;
    StopKeepsBanks(d, c, x);
    StopKeepsBanks(d, c, c);
    var d1 := if d.units[c].enables.wku && wake then SetMode(d, c, ToStop, true).0 else d;
    if d1.units[c].enables.bof && busOff {
      var u := d1.units[c];
      var d2 := SetUnit(d1, c, u.(stats := u.stats.(busOff := (u.stats.busOff + 1) % TWO32)));
      StopKeepsBanks(d2.(calls := d2.calls + [BusOff(c)]), c, x);
    }
  }

  lemma StopKeepsBanks(d: Driver, c: nat, x: nat)
    requires Wf(d) && x < |d.units|
    ensures var r := SetMode(d, c, ToStop, true).0;
            SameGlobals(d, r) && r.units[x].banks == d.units[x].banks
  {
  }

  lemma MainKeepsBanks(d: Driver, x: nat)
    requires Wf(d) && x < |d.units|
    ensures MainFunctionMode(d).units[x].banks == d.units[x].banks && SameGlobals(d, MainFunctionMode(d))
  {
    hide MainFrom, Indications;
    if d.Ready() {
      MainFromEffect(d, 0, x);
    }
  }

  lemma StepKeepsRouting(d: Driver, e: Event, x: nat)
    requires Routed(d, x) && Possible(d, e) && !Reroutes(e, x)
    ensures Routed(Step(d, e), x)
    ensures Step(d, e).config == d.config && Step(d, e).channelMap == d.channelMap
  {
    hide Init, DeInit, ChangeBaudrate, SetMode, Write, ErrIsr, TxIsr, RxIsr, Arrive,
      MainFunctionMode, FilterSetup;
    match e
    case EvChangeBaudrate(c, rate, ok) =>
      BaudrateElsewhere(d, c, rate, ok, x);
      ChangeBaudrateEffect(d, c, rate, ok, x);
    case EvSetMode(c, t, ok) => SetModeKeepsBanks(d, c, t, ok, x);
    case EvErrIsr(c, wake, busOff) => ErrIsrKeepsBanks(d, c, wake, busOff, x);
    case EvMain => MainKeepsBanks(d, x);
    case EvWrite(hth, pdu) => WriteKeepsBanks(d, hth, pdu, x);
    case EvTxIsr(_) => IsrKeepsBanks(d, e, x);
    case EvRxIsr(_, _) => IsrKeepsBanks(d, e, x);
    case EvArrive(_, _) => IsrKeepsBanks(d, e, x);
    case _ =>
  }

  lemma WriteKeepsBanks(d: Driver, hth: nat, pdu: Option<Pdu>, x: nat)
    requires Wf(d) && WriteDefined(d, hth, pdu) && x < |d.units|
    ensures Write(d, hth, pdu).0.units[x].banks == d.units[x].banks && SameGlobals(d, Write(d, hth, pdu).0)
  {
    hide CanTx.Load, Image;
  }

  lemma IsrKeepsBanks(d: Driver, e: Event, x: nat)
    requires Wf(d) && Possible(d, e) && x < |d.units| && (e.EvTxIsr? || e.EvRxIsr? || e.EvArrive?)
    ensures Step(d, e).units[x].banks == d.units[x].banks && SameGlobals(d, Step(d, e))
  {
    hide Indicated, Confirmations, HwRoute, Store;
  }

  lemma {:induction false} RunKeepsRouting(d: Driver, es: seq<Event>, x: nat)
    requires Routed(d, x) && ValidRun(d, es)
    requires forall i :: 0 <= i < |es| ==> !Reroutes(es[i], x)
    ensures Routed(Run(d, es), x) && ConfigOf(Run(d, es), x) == ConfigOf(d, x)
    decreases |es|
  {
    hide Step;
    if es != [] {
      StepKeepsRouting(d, es[0], x);
      RunKeepsRouting(Step(d, es[0]), es[1..], x);
    }
  }

  // --------------------------------------------- what a written frame looks like

  lemma FittingStandard(id: bv32)
    requires id <= 0x7FF
    ensures IndicatedId(Image(false, id, 0)) == id
  {
  }

  lemma FittingExtended(id: bv32)
    requires id & 0x6000_0000 == 0
    ensures IndicatedId(Image(true, id, 0)) == id | 0x8000_0000
  {
    assert Image(true, id, 0) & 4 != 0;
  }

  lemma SurvivingIdFits(extended: bool, id: bv32)
    requires IndicatedId(Image(extended, id, 0)) == if extended then id | 0x8000_0000 else id
    ensures if extended then id & 0x6000_0000 == 0 else id <= 0x7FF
  {
  }

  /** From `Can_Write` to the receiving driver's indication: the identifier arrives
    * unchanged if and only if it fits the format the transmit object sends in; a
    * leading extended flag does no harm. */
  lemma WrittenIdArrivesIff(o: HwObject, id: bv32)
    ensures var ext := o.idType.Extended? || (o.idType.Mixed? && id > 0x7FF);
            IndicatedId(Image(ext, id, 0)) == (if ext then id | 0x8000_0000 else id) <==>
            if ext then id & 0x6000_0000 == 0 else id <= 0x7FF
  {
    var ext := o.idType.Extended? || (o.idType.Mixed? && id > 0x7FF);
    if IndicatedId(Image(ext, id, 0)) == (if ext then id | 0x8000_0000 else id) {
      SurvivingIdFits(ext, id);
    }
    if if ext then id & 0x6000_0000 == 0 else id <= 0x7FF {
      if ext {
        FittingExtended(id);
      } else {
        FittingStandard(id);
      }
    }
  }

  lemma FormatBit(extended: bool, id: bv32)
    ensures IsExtended(Image(extended, id, 0)) <==> extended
  {
  }

  /** The register of a written frame has its IDE bit set exactly for an extended object,
    * and for a mixed one if the identifier does not fit eleven bits. */
  lemma FormatChosen(o: HwObject, id: bv32)
    ensures IsExtended(Image(SendsExtended(o, id), id, 0)) <==>
            o.idType.Extended? || (o.idType.Mixed? && id > 0x7FF)
  {
    hide IsExtended, Image;
    FormatBit(SendsExtended(o, id), id);
  }

  /** What the write leaves, its mailbox being known. */
  lemma WriteLeaves(d: Driver, hth: nat, pdu: Pdu)
    requires Wf(d) && WriteDefined(d, hth, Some(pdu)) && Write(d, hth, Some(pdu)).1.Ok?
    ensures hth < |d.hthMap| && d.hthMap[hth].Some?
    ensures var (r, entry) := (Write(d, hth, Some(pdu)).0, d.hthMap[hth].value);
            var u, v := d.units[entry.controller], r.units[entry.controller];
            var m := CanTx.FreeBox(u.port.boxes, 0);
            && m < 3 && v.port == CanTx.Load(u.port, m, pdu.handle)
            && v.outbox == u.outbox[m := Message(Image(SendsExtended(entry.hoh, pdu.id), pdu.id, 0),
                                                 pdu.sdu.value[..pdu.length])]
            && r == d.(units := d.units[entry.controller := v])
            && v == u.(port := v.port, outbox := v.outbox, stats := v.stats)
  {
    hide Image, SendsExtended, CanTx.Load;
  }

  /** An accepted write puts exactly this into the mailbox it was given: the identifier in
    * the format just described, the data as given, the handle beside it. Apart from the
    * count of writes it changes nothing else. */
  lemma WriteFillsMailbox(d: Driver, hth: nat, pdu: Pdu)
    requires Wf(d) && WriteDefined(d, hth, Some(pdu)) && Write(d, hth, Some(pdu)).1.Ok?
    ensures var (r, entry) := (Write(d, hth, Some(pdu)).0, d.hthMap[hth].value);
            var u, v := d.units[entry.controller], r.units[entry.controller];
            exists m :: && 0 <= m < 3 && u.port.boxes[m].empty && !v.port.boxes[m].empty
                        && v.port.handles[m] == pdu.handle
                        && v.outbox[m] ==
                           Message(Image(SendsExtended(entry.hoh, pdu.id), pdu.id, 0), pdu.sdu.value[..pdu.length])
                        && r == d.(units := d.units[entry.controller := v])
                        && v == u.(port := v.port, outbox := v.outbox, stats := v.stats)
                        && forall k :: 0 <= k < 3 && k != m ==>
                             v.port.boxes[k] == u.port.boxes[k] && v.port.handles[k] == u.port.handles[k]
                             && v.outbox[k] == u.outbox[k]
  {
    hide Image, SendsExtended, Write, CanTx.FreeBox;
    WriteLeaves(d, hth, pdu);
    var entry := d.hthMap[hth].value;
    var m := CanTx.FreeBox(d.units[entry.controller].port.boxes, 0);
    assert m < 3;
  }
}
