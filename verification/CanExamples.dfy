/** Inputs at which the CAN driver does not do what one would expect. */
module CanExamples {
  import opened Basics
  import opened CanConfig
  import opened CanFilter
  import opened CanBtr
  import opened CanTiming
  import opened CanSpec
  import opened CanEffects
  import opened CanReceive
  import opened CanFifo
  import opened CanStartup
  import CanRuns
  import Tx = CanTx
  import CanTxLoss

  // ------------------------------------------------------------------ inputs

  function Rx(eol: bool): HwObject { HwObject(0, Receive, Standard, 0x100, 0x7FF, eol) }

  const ONE: seq<HwObject> := [Rx(true)]
  const TWO: seq<HwObject> := [Rx(false), Rx(true)]
  const THREE: seq<HwObject> := [Rx(false), Rx(false), Rx(true)]

  /** 500 kbit/s first, 250 kbit/s second, both with twelve quanta. */
  const RATES: seq<Baudrate> := [Baudrate(500, 1, 6, 4, 1), Baudrate(250, 1, 6, 4, 1)]

  function Ctl(id: nat, objects: seq<HwObject>): Controller {
    Controller(id, objects, RATES, 500, true, true, true)
  }

  const EMPTY: Tx.Mailbox := Tx.Mailbox(true, false, false)
  const BLANK: Message := Message(0, [])

  const UNIT: Unit :=
    Unit(Uninit, 0, Stats(0, 0, 0), Nothing, ALL_OFF,
         Tx.Port([EMPTY, EMPTY, EMPTY], [0, 0, 0]), [BLANK, BLANK, BLANK], NO_FRAMES, [], None)

  /** Two controllers after reset, at 72 MHz, `n` of them to be configured. */
  function Reset(n: nat): Driver {
    Driver(None, {}, [0, 0], [None], [UNIT, UNIT], [], n, 72_000_000)
  }

  lemma ResetIsPowerOn(n: nat)
    requires 0 < n
    ensures PowerOn(Reset(n))
  {
    assert Tx.ResetPort(UNIT.port) == UNIT.port;
  }

  lemma CtlUsable(ctl: Controller)
    requires ctl == Ctl(ctl.id, ctl.objects) && ctl.id < 2 && Terminated(ctl.objects)
    requires forall i :: 0 <= i < |ctl.objects| ==> ctl.objects[i].kind.Receive?
    ensures Usable(ctl, 2, 1) && DefaultOffered(ctl) && DriverBitClock(RATES[0]) == 6_000_000
  {
    QuantaFit(RATES[0]);
    assert ctl.rates[0].rate == 500;
  }

  // ------------------------------------------------------------ configuration

  /** Three receive objects pass the check for at most two. */
  lemma ThreeReceiversPass()
    ensures Terminated(THREE) && PassesCheck(THREE) && !WithinHardware(THREE)
  {
    assert THREE[1..] == TWO && TWO[1..] == ONE && ONE[1..] == [];
    CheckIsSoundIff(THREE);
  }

  // ------------------------------------------------------------------ transmit

  function Fresh(): Tx.State { Tx.State(UNIT.port, Tx.Idle, []) }

  lemma FreshInv()
    ensures Tx.Initial(Fresh()) && Tx.Inv(Fresh())
  {
    forall m | 0 <= m < Tx.MAILBOXES ensures Tx.BoxInv(Fresh(), m) {
    }
    assert Tx.ResetPort(UNIT.port) == UNIT.port;
  }

  /** Two writes with only the completion of the first in between: its confirmation is
    * lost. */
  lemma SecondWriteLosesFirst()
    ensures var s := Tx.Step(Tx.Step(Fresh(), Tx.Write(7)), Tx.Complete(0, true));
            Tx.Step(s, Tx.Write(8)).log == [Tx.Accepted(0, 7), Tx.Sent(0), Tx.Lost(0, 7), Tx.Accepted(0, 8)]
  {
    FreshInv();
    var a := Tx.Step(Fresh(), Tx.Write(7));
    assert a.log == [Tx.Accepted(0, 7)];
    Tx.StepKeepsInv(Fresh(), Tx.Write(7));
    var s := Tx.Step(a, Tx.Complete(0, true));
    Tx.StepKeepsInv(a, Tx.Complete(0, true));
    assert s.log == [Tx.Accepted(0, 7), Tx.Sent(0)];
    assert Tx.PhaseOf(s.log, 0) == Tx.Done(7) by {
      Tx.PhaseOfAppend([Tx.Accepted(0, 7)], Tx.Sent(0), 0);
      Tx.PhaseOfAppend([], Tx.Accepted(0, 7), 0);
      assert [] + [Tx.Accepted(0, 7)] == [Tx.Accepted(0, 7)];
    }
  }

  /** A mailbox that completes right after the interrupt has looked at it is never
    * confirmed. */
  lemma LateCompletionIsLost()
    ensures Tx.Inv(Fresh())
    ensures Tx.Lost(0, 7) in Tx.Run(Fresh(), [Tx.Write(7), Tx.IsrEnter, Tx.IsrStep] + LATE).log
  {
    hide Tx.Inv, Tx.PhaseOf;
    FreshInv();
    var es := [Tx.Write(7), Tx.IsrEnter, Tx.IsrStep] + LATE;
    var a := OneStep(Fresh(), Tx.Write(7), es);
    var b := OneStep(a, Tx.IsrEnter, es[1..]);
    var s := OneStep(b, Tx.IsrStep, es[1..][1..]);
    assert es[1..][1..][1..] == LATE;
    Unroll(s, LATE[1..]);
    Tx.InvMeans(s);
    CanTxLoss.CompletionInsidePassIsLost(s, 0, LATE[1..]);
    assert LATE == [Tx.Complete(0, true)] + LATE[1..];
  }

  const LATE: seq<Tx.Event> := [Tx.Complete(0, true), Tx.IsrStep, Tx.IsrStep, Tx.IsrStep]

  lemma Unroll(s: Tx.State, rest: seq<Tx.Event>)
    requires Tx.Inv(s) && s.isr == Tx.Check(1) && rest == [Tx.IsrStep, Tx.IsrStep, Tx.IsrStep]
    ensures Tx.Run(s, [Tx.Complete(0, true)] + rest).isr.Idle?
  {
    hide Tx.Inv, Tx.PhaseOf;
    var es := [Tx.Complete(0, true)] + rest;
    var s1 := OneStep(s, Tx.Complete(0, true), es);
    var s2 := OneStep(s1, Tx.IsrStep, es[1..]);
    var s3 := OneStep(s2, Tx.IsrStep, es[1..][1..]);
    var s4 := OneStep(s3, Tx.IsrStep, es[1..][1..][1..]);
    assert es[1..][1..][1..][1..] == [];
  }

  lemma OneStep(s: Tx.State, e: Tx.Event, es: seq<Tx.Event>) returns (t: Tx.State)
    requires Tx.Inv(s) && es != [] && es[0] == e
    ensures Tx.Inv(t) && s.port.Valid() && (s.isr.Check? ==> s.isr.next <= Tx.MAILBOXES)
    ensures t == Tx.Step(s, e) && Tx.Run(s, es) == Tx.Run(t, es[1..])
  {
    Tx.StepKeepsInv(s, e);
    t := Tx.Step(s, e);
  }

  // ---------------------------------------------------------------- bit timing

  /** 1 kbit/s with eight quanta needs a prescaler of 4500; the register keeps 404, and
    * the bus runs eleven times too fast. */
  lemma SlowRateWraps()
    ensures var b := Baudrate(1, 1, 3, 3, 1);
            && 0 < DriverBitClock(b)
            && Program(b, 72_000_000).prescaler == 4500
            && OnWire(Program(b, 72_000_000)).prescaler == 404
            && !Serves(OnWire(Program(b, 72_000_000)), 1, 72_000_000)
  {
    hide Serves, Register, Decoded, Or;
    var b := Baudrate(1, 1, 3, 3, 1);
    QuantaFit(b);
    var t := Program(b, 72_000_000);
    assert BitClock(1, 8) == 8000;
    RegisterFields(t);
    OrZero(t.bs2);
    assert t.bs1 == 3 && t.bs2 == 2;
    assert BitQuanta(OnWire(t)) == 8;
    ServesIff(OnWire(t), 1, 72_000_000);
  }

  // ------------------------------------------------------------------- filters

  /** A standard object takes an extended frame, and a mixed one refuses a standard
    * frame. */
  lemma FormatsLeak()
    ensures var f := Frame(true, 0x100 << 18, false, []);
            f.Valid() && Matches(Encode(Rx(true), 0), f)
    ensures var g := Frame(false, 0x100, false, []);
            g.Valid() && !Matches(Encode(Rx(true).(idType := Mixed), 0), g)
  {
    var f, g := Frame(true, 0x100 << 18, false, []), Frame(false, 0x100, false, []);
    EncodeMatches(Rx(true), f, 0);
    EncodeMatches(Rx(true).(idType := Mixed), g, 0);
  }

  // -------------------------------------------------------------- whole driver

  lemma OneReceiver(fifo: nat)
    ensures Terminated(ONE) && PassesCheck(ONE) && |FilterSetup(ONE, fifo)| == 1
  {
    assert ONE[1..] == [];
  }

  lemma TwoReceivers()
    ensures Terminated(TWO) && PassesCheck(TWO) && |FilterSetup(TWO, 0)| == 2
  {
    assert TWO[1..] == ONE && ONE[1..] == [];
    OneReceiver(1);
  }

  lemma RunTwo(d: Driver, a: Event, b: Event)
    requires Wf(d) && Possible(d, a) && Possible(Step(d, a), b)
    ensures ValidRun(d, [a, b]) && Run(d, [a, b]) == Step(Step(d, a), b)
  {
    hide Step, Possible;
    var es, d1 := [a, b], Step(d, a);
    assert es[0] == a && es[1..] == [b] && es[1..][0] == b && es[1..][1..] == [];
    assert ValidRun(Step(d1, b), []) && Run(Step(d1, b), []) == Step(d1, b);
    assert ValidRun(d1, es[1..]) && Run(d1, es[1..]) == Step(d1, b);
  }

  /** With one controller to configure, start-up is one turn of its loop. */
  lemma SingleInit(d: Driver, ctl: Controller)
    requires Wf(d) && !d.Ready() && d.configCnt == 1 && |d.units| == 2 && |d.hthMap| == 1
    requires Usable(ctl, 2, 1) && PassesCheck(ctl.objects)
    ensures Possible(d, EvInit(Some([ctl]), [true])) && InitAccepted(d, Some([ctl]))
    ensures var d0 := d.(config := Some([ctl])); Wf(d0) && Init(d, Some([ctl]), [true]) == InitOne(d0, 0, true)
  {
    hide InitOne;
    var d0 := d.(config := Some([ctl]));
    assert InitFrom(d0, 0, [true]) == InitFrom(InitOne(d0, 0, true), 1, [true]);
  }

  lemma InitOneEnables(d: Driver)
    requires Wf(d) && d.Ready() && d.config.value[0].rxIrq
    ensures var r := InitOne(d, 0, true);
            var c := d.config.value[0].id;
            r.units[c].lockCnt == 0 && r.units[c].enables.fmp1 && r.Ready()
  {
    hide ChangeBaudrate, MapObjects;
    var ctl := d.config.value[0];
    var c := ctl.id;
    var d1 := SetUnit(d.(channelMap := d.channelMap[c := 0], configured := d.configured + {c}),
                      c, FreshUnit(d.units[c]));
    ChangeBaudrateEffect(d1, c, ctl.defaultRate, true, c);
  }

  /** Interrupts disabled, and FIFO 1 still interrupts. */
  lemma DisabledButFifo1()
    ensures var es := [EvInit(Some([Ctl(0, ONE)]), [true]), EvDisable(0)];
            && PowerOn(Reset(1)) && ValidRun(Reset(1), es)
            && CanRuns.Gap(Run(Reset(1), es).units[0])
  {
    hide InitOne, Init, Run, ValidRun, Usable, PassesCheck, Reset, Ctl;
    var d, ctl := Reset(1), Ctl(0, ONE);
    ResetIsPowerOn(1);
    OneReceiver(0);
    CtlFields(0, ONE);
    CtlUsable(ctl);
    SingleInit(d, ctl);
    InitOneEnables(d.(config := Some([ctl])));
    RunTwo(d, EvInit(Some([ctl]), [true]), EvDisable(0));
  }

  lemma CtlFields(id: nat, objects: seq<HwObject>)
    ensures var c := Ctl(id, objects); c.id == id && c.objects == objects && c.rates == RATES && c.rxIrq
    ensures forall n: nat :: var d := Reset(n);
              d.configCnt == n && |d.units| == 2 && |d.hthMap| == 1 && d.units[0].banks == [] == d.units[1].banks
              && d.systemClock == 72_000_000
    ensures forall i :: 0 <= i < 1 ==> ONE[i].kind.Receive?
    ensures forall i :: 0 <= i < 2 ==> TWO[i].kind.Receive?
  {
  }

  /** The slave configured in front of the master ends up without filters. */
  lemma SlaveFirstIsDeaf()
    ensures var cfg := [Ctl(1, ONE), Ctl(0, ONE)];
            && Wf(Reset(2)) && Possible(Reset(2), EvInit(Some(cfg), [true, true]))
            && !Routed(Init(Reset(2), Some(cfg), [true, true]), 1)
  {
    hide FilterSetup, Init, Routed;
    var cfg := [Ctl(1, ONE), Ctl(0, ONE)];
    ResetIsPowerOn(2);
    OneReceiver(0);
    CtlUsable(Ctl(0, ONE));
    CtlUsable(Ctl(1, ONE));
    assert MasterFrom(cfg, 1) by { assert cfg[1].id == 0; }
    InitRoutesIff(Reset(2), cfg, [true, true], 0);
  }

  /** What start-up with one controller leaves of it. */
  lemma AfterSingleInit(d: Driver, ctl: Controller)
    requires Wf(d) && !d.Ready() && d.configCnt == 1 && |d.units| == 2 && |d.hthMap| == 1
    requires Usable(ctl, 2, 1) && PassesCheck(ctl.objects) && DefaultOffered(ctl)
    ensures Possible(d, EvInit(Some([ctl]), [true]))
    ensures var r := Step(d, EvInit(Some([ctl]), [true]));
            && r.config == Some([ctl]) && r.units[ctl.id].mode.Stopped? && ctl.id in r.configured
            && ConfigOf(r, ctl.id) == ctl && r.systemClock == d.systemClock
            && r.units[ctl.id].banks ==
               Overlay(FilterSetup(ctl.objects, 0), if ctl.id == 0 then [] else d.units[ctl.id].banks)
  {
    hide InitOne, Init, FilterSetup, Overlay, Usable, PassesCheck;
    SingleInit(d, ctl);
    assert ctl.id < 2 by { UsableId(ctl); }
    var d0 := d.(config := Some([ctl]));
    InitOneBanks(d0, 0, true, ctl.id);
    InitOneEffect(d0, 0, true, ctl.id);
  }

  lemma UsableId(ctl: Controller)
    requires Usable(ctl, 2, 1)
    ensures ctl.id < 2
  {
  }

  /** A request for 250 kbit/s is accepted and answered with the 500 kbit/s of entry 0. */
  lemma SecondRateIsNotServed()
    ensures var es := [EvInit(Some([Ctl(0, ONE)]), [true]), EvChangeBaudrate(0, 250, true)];
            && Wf(Reset(1)) && ValidRun(Reset(1), es)
            && var r := Run(Reset(1), es);
               r.units[0].timing.Some? && !Serves(WireTiming(r, 0), 250, 72_000_000)
  {
    hide InitOne, Init, Run, ValidRun, Usable, PassesCheck, Reset, Ctl, Serves, WireTiming, Overlay, FilterSetup;
    var d, ctl := Reset(1), Ctl(0, ONE);
    ResetIsPowerOn(1);
    OneReceiver(0);
    CtlFields(0, ONE);
    CtlUsable(ctl);
    AfterSingleInit(d, ctl);
    var d1 := Step(d, EvInit(Some([ctl]), [true]));
    NotServed(d1);
    RunTwo(d, EvInit(Some([ctl]), [true]), EvChangeBaudrate(0, 250, true));
  }

  lemma NotServed(d: Driver)
    requires Wf(d) && d.Ready() && 0 < |d.units| && d.units[0].mode.Stopped? && 0 in d.configured
    requires ConfigOf(d, 0).rates == RATES && d.systemClock == 72_000_000
    ensures var (r, ok) := ChangeBaudrate(d, 0, 250, true);
            ok && r.units[0].timing.Some? && !Serves(WireTiming(r, 0), 250, 72_000_000)
  {
    hide Serves, WireTiming, Overlay, FilterSetup, Program;
    assert RATES[1].rate == 250;
    assert CheckBaudrate(d, 0, 250);
    assert ChangeBaudrate(d, 0, 250, true).1;
    ChangeServesIff(d, 0, 250, true);
    assert Quanta(RATES[0]) == 12 && BitClock(500, 12) == 6_000_000 && BitClock(250, 12) == 3_000_000;
  }

  /** Changing the master's baud rate, to the one it has, silences the slave. */
  lemma MasterSilencesSlave()
    ensures var cfg := [Ctl(0, ONE), Ctl(1, ONE)];
            var es := [EvInit(Some(cfg), [true, true]), EvChangeBaudrate(0, 500, true)];
            && Wf(Reset(2)) && ValidRun(Reset(2), es)
            && Routed(Step(Reset(2), es[0]), 1) && Run(Reset(2), es).units[1].banks == []
  {
    hide InitFrom, Run, ValidRun, FilterSetup, Overlay, ChangeBaudrate;
    var d, cfg := Reset(2), [Ctl(0, ONE), Ctl(1, ONE)];
    ResetIsPowerOn(2);
    OneReceiver(0);
    CtlUsable(Ctl(0, ONE));
    CtlUsable(Ctl(1, ONE));
    var e := EvInit(Some(cfg), [true, true]);
    InitRoutesIff(d, cfg, [true, true], 1);
    var d1 := Step(d, e);
    assert cfg[0].id == 0 && cfg[1].id == 1;
    StepCore(d, e, 0);
    BanksFrom(d.(config := Some(cfg)), 0, 0, [true, true]);
    assert CheckBaudrate(d1, 0, 500);
    Emptied(d1, 500, 1);
    RunTwo(d, e, EvChangeBaudrate(0, 500, true));
  }

  lemma Emptied(d: Driver, rate: nat, x: nat)
    requires Wf(d) && x < |d.units| && x != 0 && Admitted(d, 0, rate)
    ensures ChangeBaudrate(d, 0, rate, true).0.units[x].banks == []
  {
    hide FilterSetup, Overlay;
  }

  /** Configured anew with one receive object instead of two, the slave keeps the second
    * filter of before. */
  lemma OldFilterStays()
    ensures var a, b := EvInit(Some([Ctl(1, TWO)]), [true]), EvInit(Some([Ctl(1, ONE)]), [true]);
            && Wf(Reset(1)) && Possible(Reset(1), a)
            && Possible(Step(Step(Reset(1), a), EvDeInit), b)
            && !Routed(Step(Step(Step(Reset(1), a), EvDeInit), b), 1)
  {
    hide InitOne, Init, Usable, PassesCheck, Reset, Ctl, FilterSetup, DeInit;
    var d := Reset(1);
    ResetIsPowerOn(1);
    OneReceiver(0);
    TwoReceivers();
    CtlFields(1, ONE);
    CtlFields(1, TWO);
    CtlUsable(Ctl(1, ONE));
    CtlUsable(Ctl(1, TWO));
    AfterSingleInit(d, Ctl(1, TWO));
    var d1 := Step(d, EvInit(Some([Ctl(1, TWO)]), [true]));
    DeInitKeepsBanks(d1, 1);
    AfterSingleInit(DeInit(d1), Ctl(1, ONE));
  }

  lemma DeInitKeepsBanks(d: Driver, x: nat)
    requires Wf(d) && x < |d.units| && d.configCnt == 1
    ensures DeInit(d).units[x].banks == d.units[x].banks && !DeInit(d).Ready()
  {
    if d.Ready() {
      assert DeInitFrom(d, 0) == DeInitFrom(DeInitOne(d, 0), 1);
    }
  }

  /** A frame for the only receive object. */
  function Sample(n: Byte): Frame { Frame(false, 0x100, false, [n]) }

  lemma SampleRoutes(n: Byte)
    ensures Sample(n).Valid() && HwRoute(FilterSetup(ONE, 0), Sample(n)) == Some(0)
  {
    hide EncodeStandard, EncodeExtended, Matches;
    assert ONE[1..] == [];
    assert FilterSetup(ONE, 0) == [Encode(Rx(true), 0)];
    EncodeMatches(Rx(true), Sample(n), 0);
  }

  lemma RunCons(d: Driver, e: Event, es: seq<Event>)
    requires Wf(d) && Possible(d, e) && ValidRun(Step(d, e), es)
    ensures ValidRun(d, [e] + es) && Run(d, [e] + es) == Run(Step(d, e), es)
  {
    hide Step, Possible;
    assert ([e] + es)[0] == e && ([e] + es)[1..] == es;
  }

  /** The controller listens with its one receive object, and `waiting` is in FIFO 0. */
  predicate Listens(d: Driver, waiting: seq<Frame>) {
    Tidy(d, 0) && ConfigOf(d, 0).objects == ONE && d.units[0].fifos[0] == waiting
  }

  lemma SampleArrives(d: Driver, waiting: seq<Frame>, n: Byte)
    requires Listens(d, waiting)
    ensures Possible(d, EvArrive(0, Sample(n)))
    ensures Listens(Step(d, EvArrive(0, Sample(n))), Store(waiting, Sample(n)))
  {
    hide Step, HwRoute, FilterSetup, Store, Sample;
    SampleRoutes(n);
    StepTidy(d, EvArrive(0, Sample(n)), 0);
    StepFifo(d, EvArrive(0, Sample(n)), 0, 0);
  }

  /** Four frames in a row. */
  lemma FourArrive(d: Driver)
    requires Listens(d, [])
    ensures var es := [EvArrive(0, Sample(1)), EvArrive(0, Sample(2)), EvArrive(0, Sample(3)), EvArrive(0, Sample(4))];
            ValidRun(d, es) && Run(d, es).units[0].fifos[0] == [Sample(1), Sample(2), Sample(4)]
  {
    hide Step, Possible, Tidy, ConfigOf, Sample;
    var e1, e2 := EvArrive(0, Sample(1)), EvArrive(0, Sample(2));
    var e3, e4 := EvArrive(0, Sample(3)), EvArrive(0, Sample(4));
    ListensMeans(d, []);
    SampleArrives(d, [], 1);
    var d1 := Step(d, e1);
    SampleArrives(d1, [Sample(1)], 2);
    var d2 := Step(d1, e2);
    SampleArrives(d2, [Sample(1), Sample(2)], 3);
    var d3 := Step(d2, e3);
    assert [Sample(1), Sample(2)] + [Sample(3)] == [Sample(1), Sample(2), Sample(3)];
    SampleArrives(d3, [Sample(1), Sample(2), Sample(3)], 4);
    var d4 := Step(d3, e4);
    assert ValidRun(d4, []) && Run(d4, []) == d4;
    RunCons(d3, e4, []);
    RunCons(d2, e3, [e4]);
    RunCons(d1, e2, [e3, e4]);
    RunCons(d, e1, [e2, e3, e4]);
  }

  lemma ListensMeans(d: Driver, waiting: seq<Frame>)
    requires Listens(d, waiting)
    ensures Wf(d)
  {
  }

  /** Initialised and started, the first controller listens. */
  lemma StartedListens(d: Driver, ctl: Controller)
    requires Wf(d) && d.Ready() && 0 < |d.units| && d.units[0].mode.Stopped? && 0 in d.configured
    requires ConfigOf(d, 0) == ctl == Ctl(0, ONE)
    ensures Listens(Step(d, EvSetMode(0, ToStart, true)), [])
  {
    hide FilterSetup, Overlay, Tidy;
    assert ctl.rates[0].rate == 500;
    var d0 := SetUnit(d, 0, d.units[0].(pending := Nothing));
    assert CheckBaudrate(d0, 0, 500) && ChangeBaudrate(d0, 0, 500, true).1;
    assert ONE[1..] == [];
    assert CountKind(ONE, Receive) == 1;
    StartTidiesIff(d, 0, true);
    SetModeEffect(d, 0, ToStart, true, 0);
  }

  /** From power-on: initialised, started, and four frames before the first receive
    * interrupt. The fourth has taken the place of the third. */
  lemma FourthFrameOverwrites()
    ensures var es := [EvInit(Some([Ctl(0, ONE)]), [true]), EvSetMode(0, ToStart, true), EvArrive(0, Sample(1)),
                       EvArrive(0, Sample(2)), EvArrive(0, Sample(3)), EvArrive(0, Sample(4))];
            && PowerOn(Reset(1)) && ValidRun(Reset(1), es)
            && Run(Reset(1), es).units[0].fifos[0] == [Sample(1), Sample(2), Sample(4)]
  {
    hide Step, Run, ValidRun, Usable, PassesCheck, Reset, Ctl, Overlay, FilterSetup, Listens, Sample;
    var d, ctl := Reset(1), Ctl(0, ONE);
    ResetIsPowerOn(1);
    OneReceiver(0);
    CtlFields(0, ONE);
    CtlUsable(ctl);
    AfterSingleInit(d, ctl);
    var e, start := EvInit(Some([ctl]), [true]), EvSetMode(0, ToStart, true);
    var es := [EvArrive(0, Sample(1)), EvArrive(0, Sample(2)), EvArrive(0, Sample(3)), EvArrive(0, Sample(4))];
    var d1 := Step(d, e);
    StartedListens(d1, ctl);
    FourArrive(Step(d1, start));
    RunCons(d1, start, es);
    RunCons(d, e, [start] + es);
    assert [e] + ([start] + es) == [e, start, es[0], es[1], es[2], es[3]];
  }

  function Disables(n: nat): seq<Event> { seq(n, _ => EvDisable(0)) }

  lemma {:induction false} DisabledOften(d: Driver, n: nat)
    requires Wf(d) && d.Ready() && 0 < |d.units|
    ensures ValidRun(d, Disables(n)) && Run(d, Disables(n)).units[0].lockCnt == (d.units[0].lockCnt + n) % TWO32
    decreases n
  {
    hide Step;
    DisabledOnce(d);
    if n > 0 {
      var d1 := Step(d, EvDisable(0));
      DisabledOften(d1, n - 1);
      RunCons(d, EvDisable(0), Disables(n - 1));
      assert [EvDisable(0)] + Disables(n - 1) == Disables(n);
      ModAdd(d.units[0].lockCnt, 1, n - 1);
    }
  }

  lemma DisabledOnce(d: Driver)
    requires Wf(d) && d.Ready() && 0 < |d.units|
    ensures var r := Step(d, EvDisable(0));
            && r.Ready() && d.units[0].lockCnt < TWO32
            && r.units[0].lockCnt == (d.units[0].lockCnt + 1) % TWO32
  {
    assert UnitOk(d.units[0]);
  }

  /** From power-on: initialised, and disabled once more than the counter can hold; it says
    * that nothing is disabled. */
  lemma LockWraps()
    ensures var es := [EvInit(Some([Ctl(0, ONE)]), [true])] + Disables(TWO32);
            && PowerOn(Reset(1)) && ValidRun(Reset(1), es)
            && Run(Reset(1), es).units[0].lockCnt == 0
  {
    hide InitOne, Init, Run, ValidRun, Usable, PassesCheck, Reset, Ctl, Disables;
    var d, ctl := Reset(1), Ctl(0, ONE);
    ResetIsPowerOn(1);
    OneReceiver(0);
    CtlFields(0, ONE);
    CtlUsable(ctl);
    SingleInit(d, ctl);
    InitOneEnables(d.(config := Some([ctl])));
    var e := EvInit(Some([ctl]), [true]);
    DisabledOften(Step(d, e), TWO32);
    RunCons(d, e, Disables(TWO32));
  }
}
