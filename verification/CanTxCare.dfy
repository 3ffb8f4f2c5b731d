/** When the whole driver loses a confirmation: the condition of the mailbox protocol,
  * said of the calls made to the driver. */
module CanTxCare {
  import opened Basics
  import opened CanConfig
  import opened CanSpec
  import opened CanEffects
  import opened CanReceive
  import opened CanStartup
  import opened CanTxRuns
  import Tx = CanTx
  import Loss = CanTxLoss

  /** An entry from `k` on brings controller `x` as far as the reset of its registers. */
  predicate ResetFrom(cfg: seq<Controller>, k: nat, x: nat) {
    exists j :: k <= j < |cfg| && cfg[j].id == x && DefaultOffered(cfg[j])
  }

  /** The call gets past its checks to the reset of the registers of controller `x`. */
  predicate Resets(d: Driver, e: Event, x: nat)
    requires Wf(d) && x < |d.units|
  {
    match e
    case EvInit(cfg, _) => InitAccepted(d, cfg) && ResetFrom(cfg.value, 0, x)
    case EvChangeBaudrate(c, rate, _) => c == x && Admitted(d, x, rate)
    case EvSetMode(c, t, _) => c == x && t.ToStart? && d.Ready() && Admitted(d, x, ConfigOf(d, x).defaultRate)
    case _ => false
  }

  /** Nothing in flight, and no CANTXOK still to be seen. */
  predicate Quiet(p: Tx.Port) {
    p.Valid() && forall m :: 0 <= m < Tx.MAILBOXES ==> p.boxes[m].empty && !p.boxes[m].StatusOk()
  }

  /** The event does no harm to the writes of controller `x`: an accepted write does not
    * get a mailbox that reads CANTXOK, and a reset finds the mailboxes quiet. */
  predicate Careful(d: Driver, e: Event, x: nat)
    requires Wf(d) && Possible(d, e) && x < |d.units|
  {
    var p := d.units[x].port;
    match e
    case EvWrite(hth, pdu) =>
      var m := Tx.FreeBox(p.boxes, 0);
      WriteTaken(d, hth, pdu, x) && m < |p.boxes| ==> !p.boxes[m].StatusOk()
    case _ => Resets(d, e, x) ==> Quiet(p)
  }

  predicate CarefulRun(d: Driver, es: seq<Event>, x: nat)
    requires Wf(d) && ValidRun(d, es) && x < |d.units|
    decreases |es|
  {
    es == [] || (Careful(d, es[0], x) && CarefulRun(Step(d, es[0]), es[1..], x))
  }

  // ------------------------------------------------------------------- resets

  lemma ResetTwice(p: Tx.Port)
    ensures Tx.ResetPort(Tx.ResetPort(p)) == Tx.ResetPort(p)
  {
  }

  function Left(p: Tx.Port, reset: bool): Tx.Port { if reset then Tx.ResetPort(p) else p }

  lemma ChangePort(d: Driver, c: nat, rate: nat, hwOk: bool, x: nat)
    requires Wf(d) && x < |d.units|
    ensures ChangeBaudrate(d, c, rate, hwOk).0.units[x].port ==
            Left(d.units[x].port, c == x && Admitted(d, x, rate))
  {
    hide CanFilter.FilterSetup, Overlay, CheckBaudrate;
  }

  lemma InitOnePort(d: Driver, k: nat, hwOk: bool, x: nat)
    requires Wf(d) && d.Ready() && k < d.configCnt && x < |d.units|
    ensures var ctl := d.config.value[k];
            InitOne(d, k, hwOk).units[x].port == Left(d.units[x].port, ctl.id == x && DefaultOffered(ctl))
  {
    hide ChangeBaudrate, Enable, MapObjects;
    var ctl := d.config.value[k];
    var c := ctl.id;
    var d1 := SetUnit(d.(channelMap := d.channelMap[c := k], configured := d.configured + {c}),
                      c, FreshUnit(d.units[c]));
    ChangePort(d1, c, ctl.defaultRate, hwOk, x);
    EnableEffect(ChangeBaudrate(d1, c, ctl.defaultRate, hwOk).0, c, x);
  }

  lemma {:induction false} InitFromPort(d: Driver, k: nat, hwOk: seq<bool>, x: nat)
    requires Wf(d) && d.Ready() && k <= d.configCnt == |hwOk| && x < |d.units|
    ensures InitFrom(d, k, hwOk).units[x].port == Left(d.units[x].port, ResetFrom(d.config.value, k, x))
    decreases d.configCnt - k
  {
    hide InitOne, DefaultOffered, Tx.ResetPort;
    if k < d.configCnt {
      InitOnePort(d, k, hwOk[k], x);
      InitFromPort(InitOne(d, k, hwOk[k]), k + 1, hwOk, x);
      ResetTwice(d.units[x].port);
    }
  }

  lemma StartPort(d: Driver, c: nat, hwOk: bool, x: nat)
    requires Wf(d) && d.Ready() && c < |d.units| && x < |d.units|
    ensures Start(d, c, hwOk).0.units[x].port ==
            Left(d.units[x].port, c == x && Admitted(d, x, ConfigOf(d, x).defaultRate))
  {
    hide ChangeBaudrate, Enable, Admitted, Tx.ResetPort;
    var rate := ConfigOf(d, c).defaultRate;
    ChangePort(d, c, rate, hwOk, x);
    var (d1, ok) := ChangeBaudrate(d, c, rate, hwOk);
    if ok {
      EnableEffect(SetUnit(d1, c, d1.units[c].(mode := Started)), c, x);
    }
  }

  lemma SetModePort(d: Driver, c: nat, t: Transition, hwOk: bool, x: nat)
    requires Wf(d) && x < |d.units|
    ensures SetMode(d, c, t, hwOk).0.units[x].port ==
            Left(d.units[x].port, Resets(d, EvSetMode(c, t, hwOk), x))
  {
    hide Start, Tx.ResetPort;
    if c < |d.units| && d.Ready() && t.ToStart? && d.units[c].mode.Stopped? {
      StartPort(SetUnit(d, c, d.units[c].(pending := Nothing)), c, hwOk, x);
    }
  }

  /** Calls other than writes, and the hardware apart, the mailboxes change by nothing
    * but these resets. */
  lemma StepPort(d: Driver, e: Event, x: nat)
    requires Wf(d) && Possible(d, e) && x < |d.units| && !e.EvWrite? && !e.EvComplete? && !e.EvTxIsr?
    ensures Step(d, e).units[x].port == Left(d.units[x].port, Resets(d, e, x))
  {
    hide InitFrom, ChangeBaudrate, SetMode, Tx.ResetPort;
    StepCore(d, e, x);
    match e
    case EvInit(cfg, oks) =>
      if InitAccepted(d, cfg) {
        InitFromPort(d.(config := cfg), 0, oks, x);
      }
    case EvChangeBaudrate(c, rate, ok) => ChangePort(d, c, rate, ok, x);
    case EvSetMode(c, t, ok) => SetModePort(d, c, t, ok, x);
    case _ =>
  }

  // ---------------------------------------------------------- lifting the runs

  lemma {:induction false} CarefulConcat(s: Tx.State, a: seq<Tx.Event>, b: seq<Tx.Event>)
    requires Tx.Inv(s)
    ensures Tx.Inv(Tx.Run(s, a))
    ensures Loss.CarefulRun(s, a + b) <==> Loss.CarefulRun(s, a) && Loss.CarefulRun(Tx.Run(s, a), b)
    decreases |a|
  {
    hide Tx.Inv, Tx.Step, Loss.Careful;
    Tx.InvMeans(s);
    Tx.RunKeepsInv(s, a);
    if a == [] {
      assert a + b == b;
    } else {
      Tx.StepKeepsInv(s, a[0]);
      CarefulConcat(Tx.Step(s, a[0]), a[1..], b);
      assert (a + b)[1..] == a[1..] + b;
    }
  }

  /** An interrupt that nothing comes in between of does no harm. */
  lemma {:induction false} InterruptIsCareful(s: Tx.State, es: seq<Tx.Event>)
    requires Tx.Inv(s) && forall i :: 0 <= i < |es| ==> es[i].IsrEnter? || es[i].IsrStep?
    ensures Loss.CarefulRun(s, es)
    decreases |es|
  {
    hide Tx.Inv, Tx.Step;
    Tx.InvMeans(s);
    if es != [] {
      Tx.StepKeepsInv(s, es[0]);
      InterruptIsCareful(Tx.Step(s, es[0]), es[1..]);
    }
  }

  lemma {:induction false} PassFromKind(m: nat)
    ensures forall i :: 0 <= i < |Tx.PassFrom(m)| ==> Tx.PassFrom(m)[i].IsrStep?
    decreases Tx.MAILBOXES - m
  {
    if m < Tx.MAILBOXES {
      PassFromKind(m + 1);
    }
  }

  lemma CarefulOne(s: Tx.State, e: Tx.Event)
    requires Tx.Inv(s) && s.port.Valid()
    ensures Loss.CarefulRun(s, [e]) <==> Loss.Careful(s, e)
  {
    hide Tx.Inv, Tx.Step, Loss.Careful;
    Tx.InvMeans(s);
    Tx.StepKeepsInv(s, e);
    assert [e][1..] == [];
    assert Loss.CarefulRun(Tx.Step(s, e), []);
  }

  /** Outside the interrupt. */
  lemma ResetCarefulIff(s: Tx.State)
    requires Tx.Inv(s) && s.isr.Idle?
    ensures s.port.Valid() && (Loss.Careful(s, Tx.Reset) <==> Quiet(s.port))
  {
    hide Tx.Inv;
    Tx.InvMeans(s);
    if Loss.Careful(s, Tx.Reset) {
      forall m | 0 <= m < Tx.MAILBOXES ensures s.port.boxes[m].empty && !s.port.boxes[m].StatusOk() {
        assert Loss.ResetHarmless(s, m);
      }
    }
  }

  lemma HardwareCareful(d: Driver, e: Event, x: nat, s: Tx.State)
    requires Wf(d) && Possible(d, e) && Mirrors(s, d, x) && (e.EvComplete? || e.EvTxIsr?)
    ensures Loss.CarefulRun(s, TxEvents(d, e, x)) && Careful(d, e, x)
  {
    hide Tx.Inv, Loss.CarefulRun, Tx.Step;
    Tx.InvMeans(s);
    InterruptIsCareful(s, []);
    match e
    case EvComplete(c, m, ok) => CarefulOne(s, Tx.Complete(m, ok));
    case EvTxIsr(c) =>
      PassFromKind(0);
      InterruptIsCareful(s, Tx.Pass());
  }

  lemma WriteCareful(d: Driver, e: Event, x: nat, s: Tx.State)
    requires Wf(d) && Possible(d, e) && Mirrors(s, d, x) && e.EvWrite?
    ensures Loss.CarefulRun(s, TxEvents(d, e, x)) <==> Careful(d, e, x)
  {
    hide Tx.Inv, WriteTaken, Loss.CarefulRun, Tx.Step;
    Tx.InvMeans(s);
    if WriteTaken(d, e.hth, e.pdu, x) {
      TakenHasPdu(d, e.hth, e.pdu, x);
      CarefulOne(s, Tx.Write(e.pdu.value.handle));
    } else {
      InterruptIsCareful(s, []);
    }
  }

  lemma StepCareful(d: Driver, e: Event, x: nat, s: Tx.State)
    requires Wf(d) && Possible(d, e) && Mirrors(s, d, x)
    ensures Loss.CarefulRun(s, TxEvents(d, e, x)) <==> Careful(d, e, x)
  {
    if e.EvWrite? {
      WriteCareful(d, e, x, s);
    } else if e.EvComplete? || e.EvTxIsr? {
      HardwareCareful(d, e, x, s);
    } else {
      hide Tx.Inv, Step, Resets, Loss.CarefulRun, Loss.Careful, Tx.Step, Quiet, Tx.ResetPort;
      Tx.InvMeans(s);
      StepPort(d, e, x);
      InterruptIsCareful(s, []);
      CarefulOne(s, Tx.Reset);
      ResetCarefulIff(s);
      QuietReset(s.port);
    }
  }

  lemma TakenHasPdu(d: Driver, hth: nat, pdu: Option<Pdu>, x: nat)
    requires Wf(d) && WriteDefined(d, hth, pdu) && x < |d.units| && WriteTaken(d, hth, pdu, x)
    ensures pdu.Some?
  {
    hide Write;
    WriteEffect(d, hth, pdu, x);
  }

  lemma QuietReset(p: Tx.Port)
    requires p.Valid()
    ensures Quiet(Tx.ResetPort(p))
  {
  }

  lemma {:induction false} RunCareful(d: Driver, es: seq<Event>, x: nat, s: Tx.State)
    requires Wf(d) && ValidRun(d, es) && Mirrors(s, d, x)
    ensures Loss.CarefulRun(s, TxEventsOf(d, es, x)) <==> CarefulRun(d, es, x)
    decreases |es|
  {
    hide Tx.Inv, Step, TxEvents, Careful, Tx.Run;
    if es != [] {
      var first := TxEvents(d, es[0], x);
      StepCareful(d, es[0], x, s);
      StepMirrors(d, es[0], x, s);
      CarefulConcat(s, first, TxEventsOf(Step(d, es[0]), es[1..], x));
      RunCareful(Step(d, es[0]), es[1..], x, Tx.Run(s, first));
    }
  }

  /** In every run of the driver from power-on no accepted write of a controller is lost or
    * cancelled if and only if every call is careful: no write is accepted into a mailbox
    * that reads CANTXOK, and no initialisation, baud-rate change or start resets the
    * controller while a frame is in flight or a CANTXOK is still to be seen. */
  lemma DriverLosesNothingIff(d: Driver, es: seq<Event>, x: nat)
    requires PowerOn(d) && ValidRun(d, es) && x < |d.units|
    ensures CarefulRun(d, es, x) <==> Loss.LosesNothing(History(d, es, x).log)
  {
    hide Run, ValidRun, TxEventsOf, Loss.CarefulRun, Tx.Run, Loss.LosesNothing, CarefulRun;
    PowerOnMirrors(d, x);
    var s := Tx.State(d.units[x].port, Tx.Idle, []);
    RunMirrors(d, es, x, s);
    RunCareful(d, es, x, s);
    Loss.NothingLostIffCareful(s, TxEventsOf(d, es, x));
    var log := History(d, es, x).log;
    assert log[|s.log|..] == log;
  }
}
