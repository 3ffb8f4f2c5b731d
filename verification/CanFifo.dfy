/** Reception over whole runs: what arrives on the bus, what waits in the FIFOs, what the
  * receive interrupt tells the upper layer, and what it counts. */
module CanFifo {
  import opened Basics
  import opened CanConfig
  import opened CanFilter
  import opened CanSpec
  import opened CanEffects
  import opened CanReceive

  /** The receive indications made for controller `x` out of FIFO `k`, oldest first. */
  function RxOf(calls: seq<Callback>, x: nat, k: nat): seq<Callback> {
    if calls == [] then []
    else RxOf(calls[..|calls| - 1], x, k) + Mine(calls[|calls| - 1], x, k)
  }

  function Mine(call: Callback, x: nat, k: nat): seq<Callback> {
    if call.RxIndication? && call.controller == x && call.fifo == k then [call] else []
  }

  lemma RxOfSnoc(calls: seq<Callback>, call: Callback, x: nat, k: nat)
    ensures RxOf(calls + [call], x, k) == RxOf(calls, x, k) + Mine(call, x, k)
  {
    assert (calls + [call])[..|calls|] == calls;
  }

  /** Calls that are all this FIFO's, or none of them, add all or nothing. */
  lemma {:induction false} RxOfConcat(calls: seq<Callback>, more: seq<Callback>, x: nat, k: nat, all: bool)
    requires forall i :: 0 <= i < |more| ==> Mine(more[i], x, k) == if all then [more[i]] else []
    ensures RxOf(calls + more, x, k) == RxOf(calls, x, k) + if all then more else []
  {
    hide RxOf, Mine;
    if more == [] {
      assert calls + more == calls;
    } else {
      var n := |more| - 1;
      RxOfConcat(calls, more[..n], x, k, all);
      RxOfSnoc(calls + more[..n], more[n], x, k);
      assert calls + more == calls + more[..n] + [more[n]];
      assert more == more[..n] + [more[n]];
    }
  }

  // ---------------------------------------------------------- one step, received

  /** The objects the receive interrupt serves in this step, for FIFO `k` of `x`. */
  function ServedNow(d: Driver, e: Event, x: nat, k: nat): seq<HwObject>
    requires Wf(d) && Possible(d, e) && x < |d.units|
  {
    if e == EvRxIsr(x, k) then Indicated(ConfigOf(d, x).objects, k, 0) else []
  }

  function RxNow(d: Driver, e: Event, x: nat, k: nat): seq<Callback>
    requires Wf(d) && Possible(d, e) && x < |d.units|
  {
    if e == EvRxIsr(x, k) then RxCalls(x, k, ServedNow(d, e, x, k), d.units[x].fifos[k][0]) else []
  }

  lemma {:induction false} MainFromRx(d: Driver, i: nat, x: nat, k: nat)
    requires Wf(d) && d.Ready() && i <= d.configCnt && x < |d.units|
    ensures var r := MainFrom(d, i);
            && RxOf(r.calls, x, k) == RxOf(d.calls, x, k)
            && r.units[x].stats == d.units[x].stats && r.units[x].fifos == d.units[x].fifos
    decreases d.configCnt - i
  {
    hide RxOf;
    if i < d.configCnt {
      var c := d.config.value[i].id;
      MainFromRx(MainOne(d, c), i + 1, x, k);
      if Indication(d.units[c]).Some? {
        RxOfSnoc(d.calls, ModeIndication(c, Indication(d.units[c]).value), x, k);
      }
    }
  }

  lemma MainRx(d: Driver, x: nat, k: nat)
    requires Wf(d) && x < |d.units|
    ensures var r := MainFunctionMode(d);
            && RxOf(r.calls, x, k) == RxOf(d.calls, x, k)
            && r.units[x].stats == d.units[x].stats && r.units[x].fifos == d.units[x].fifos
  {
    hide RxOf, MainFrom;
    if d.Ready() {
      MainFromRx(d, 0, x, k);
    }
  }

  lemma TxIsrRx(d: Driver, c: nat, x: nat, k: nat)
    requires Wf(d) && d.Ready() && c < |d.units| && x < |d.units|
    ensures var r := TxIsr(d, c);
            && RxOf(r.calls, x, k) == RxOf(d.calls, x, k)
            && r.units[x].stats == d.units[x].stats && r.units[x].fifos == d.units[x].fifos
  {
    hide RxOf, Confirmations;
    ConfirmationsKind(c, d.units[c].port, 0);
    RxOfConcat(d.calls, Confirmations(c, d.units[c].port, 0), x, k, false);
  }

  lemma RxIsrRx(d: Driver, c: nat, fifo: nat, x: nat, k: nat)
    requires Wf(d) && Possible(d, EvRxIsr(c, fifo)) && x < |d.units|
    ensures RxOf(RxIsr(d, c, fifo).calls, x, k) == RxOf(d.calls, x, k) + RxNow(d, EvRxIsr(c, fifo), x, k)
  {
    hide RxOf, Indicated;
    var objects := Indicated(ConfigOf(d, c).objects, fifo, 0);
    RxOfConcat(d.calls, RxCalls(c, fifo, objects, d.units[c].fifos[fifo][0]), x, k, c == x && fifo == k);
  }

  lemma ErrIsrRx(d: Driver, c: nat, wake: bool, busOff: bool, x: nat, k: nat)
    requires Wf(d) && c < |d.units| && x < |d.units|
    ensures var r := ErrIsr(d, c, wake, busOff);
            && RxOf(r.calls, x, k) == RxOf(d.calls, x, k)
            && r.units[x].stats.rx == d.units[x].stats.rx && r.units[x].fifos == d.units[x].fifos
  {
    hide RxOf, SetMode;
    ErrIsrEffect(d, c, wake, busOff, x);
    RxOfSnoc(d.calls, BusOff(c), x, k);
    assert d.calls + [] == d.calls;
    StopKeepsRx(d, c, x);
    StopKeepsRx(d, c, c);
    var d1 := if d.units[c].enables.wku && wake then SetMode(d, c, ToStop, true).0 else d;
    if d1.units[c].enables.bof && busOff {
      var u := d1.units[c];
      var d2 := SetUnit(d1, c, u.(stats := u.stats.(busOff := (u.stats.busOff + 1) % TWO32)));
      StopKeepsRx(d2.(calls := d2.calls + [BusOff(c)]), c, x);
    }
  }

  lemma StopKeepsRx(d: Driver, c: nat, x: nat)
    requires Wf(d) && x < |d.units|
    ensures var r := SetMode(d, c, ToStop, true).0;
            r.units[x].fifos == d.units[x].fifos && r.units[x].stats == d.units[x].stats
  {
  }

  lemma WriteRx(d: Driver, hth: nat, pdu: Option<Pdu>, x: nat)
    requires Wf(d) && WriteDefined(d, hth, pdu) && x < |d.units|
    ensures var r := Write(d, hth, pdu).0;
            r.units[x].stats.rx == d.units[x].stats.rx && r.units[x].fifos == d.units[x].fifos
  {
    hide Image;
  }

  /** Only the receive interrupt makes receive indications, and it counts them. */
  lemma StepRx(d: Driver, e: Event, x: nat, k: nat)
    requires Wf(d) && Possible(d, e) && x < |d.units|
    ensures RxOf(Step(d, e).calls, x, k) == RxOf(d.calls, x, k) + RxNow(d, e, x, k)
  {
    hide RxOf, Indicated, Init, DeInit, ChangeBaudrate, SetMode, Write, ErrIsr, TxIsr, RxIsr, Arrive, MainFunctionMode;
    match e
    case EvInit(cfg, oks) => InitCalls(d, cfg, oks, x);
    case EvDeInit => DeInitCalls(d, x);
    case EvChangeBaudrate(c, rate, ok) => ChangeBaudrateEffect(d, c, rate, ok, x);
    case EvSetMode(c, t, ok) => SetModeEffect(d, c, t, ok, x);
    case EvWrite(hth, pdu) => WriteEffect(d, hth, pdu, x);
    case EvErrIsr(c, wake, busOff) => ErrIsrRx(d, c, wake, busOff, x, k);
    case EvMain => MainRx(d, x, k);
    case EvTxIsr(c) => TxIsrRx(d, c, x, k);
    case EvRxIsr(c, fifo) => RxIsrRx(d, c, fifo, x, k);
    case EvArrive(c, f) => ArriveCalls(d, c, f);
    case _ =>
  }

  lemma ArriveCalls(d: Driver, c: nat, f: Frame)
    requires Wf(d) && c < |d.units|
    ensures Arrive(d, c, f).calls == d.calls
  {
  }

  /** The counter moves only with them, start-up and shut-down aside. */
  lemma StepCount(d: Driver, e: Event, x: nat)
    requires Wf(d) && Possible(d, e) && x < |d.units| && !e.EvInit? && !e.EvDeInit?
    ensures Step(d, e).units[x].stats.rx ==
            if e.EvRxIsr? && e.c == x then (d.units[x].stats.rx + |ServedNow(d, e, x, e.fifo)|) % TWO32
            else d.units[x].stats.rx
  {
    hide RxOf, Indicated, ChangeBaudrate, SetMode, Write, ErrIsr, TxIsr, MainFunctionMode, HwRoute, Store;
    match e
    case EvChangeBaudrate(c, rate, ok) => ChangeBaudrateEffect(d, c, rate, ok, x);
    case EvSetMode(c, t, ok) => SetModeEffect(d, c, t, ok, x);
    case EvWrite(hth, pdu) => WriteRx(d, hth, pdu, x);
    case EvErrIsr(c, wake, busOff) => ErrIsrRx(d, c, wake, busOff, x, 0);
    case EvMain => MainRx(d, x, 0);
    case EvTxIsr(c) => TxIsrRx(d, c, x, 0);
    case _ =>
  }

  // ------------------------------------------------------------------ the count

  /** All receive indications made for controller `x`. */
  function RxTotal(d: Driver, x: nat): nat { |RxOf(d.calls, x, 0)| + |RxOf(d.calls, x, 1)| }

  predicate RestartsCount(e: Event) { e.EvInit? || e.EvDeInit? }

  lemma StepTotal(d: Driver, e: Event, x: nat)
    requires Wf(d) && Possible(d, e) && x < |d.units| && !RestartsCount(e) && d.units[x].stats.rx < TWO32
    ensures RxTotal(Step(d, e), x) >= RxTotal(d, x)
    ensures Step(d, e).units[x].stats.rx == (d.units[x].stats.rx + RxTotal(Step(d, e), x) - RxTotal(d, x)) % TWO32
  {
    hide Step, RxOf, Indicated;
    StepRx(d, e, x, 0);
    StepRx(d, e, x, 1);
    StepCount(d, e, x);
  }

  /** In every run without start-up or shut-down the counter advances by the number of
    * receive indications, modulo 2^32. */
  lemma {:induction false} IndicationsAreCounted(d: Driver, es: seq<Event>, x: nat)
    requires Wf(d) && ValidRun(d, es) && x < |d.units| && d.units[x].stats.rx < TWO32
    requires forall i :: 0 <= i < |es| ==> !RestartsCount(es[i])
    ensures var r := Run(d, es);
            && RxTotal(r, x) >= RxTotal(d, x)
            && r.units[x].stats.rx == (d.units[x].stats.rx + RxTotal(r, x) - RxTotal(d, x)) % TWO32
    decreases |es|
  {
    hide Step, RxTotal;
    if es != [] {
      var d1 := Step(d, es[0]);
      StepTotal(d, es[0], x);
      IndicationsAreCounted(d1, es[1..], x);
      var a, b := RxTotal(d1, x) - RxTotal(d, x), RxTotal(Run(d, es), x) - RxTotal(d1, x);
      ModAdd(d.units[x].stats.rx, a, b);
    }
  }

  lemma ModAdd(n: nat, a: nat, b: nat)
    ensures ((n + a) % TWO32 + b) % TWO32 == (n + a + b) % TWO32
  {
  }

  lemma InitOneStats(d: Driver, k: nat, hwOk: bool, x: nat)
    requires Wf(d) && d.Ready() && k < d.configCnt && x < |d.units|
    ensures var r := InitOne(d, k, hwOk);
            && r.config == d.config
            && r.units[x].stats == if x == d.config.value[k].id then Stats(0, 0, 0) else d.units[x].stats
  {
    hide ChangeBaudrate, Enable, MapObjects;
    var ctl := d.config.value[k];
    var c := ctl.id;
    var d1 := SetUnit(d.(channelMap := d.channelMap[c := k], configured := d.configured + {c}),
                      c, FreshUnit(d.units[c]));
    ChangeBaudrateEffect(d1, c, ctl.defaultRate, hwOk, x);
    EnableEffect(ChangeBaudrate(d1, c, ctl.defaultRate, hwOk).0, c, x);
  }

  lemma {:induction false} InitFromStats(d: Driver, k: nat, hwOk: seq<bool>, x: nat)
    requires Wf(d) && d.Ready() && k <= d.configCnt == |hwOk| && x < |d.units|
    requires ConfiguresFrom(d.config.value, k, x) || d.units[x].stats == Stats(0, 0, 0)
    ensures InitFrom(d, k, hwOk).units[x].stats == Stats(0, 0, 0)
    decreases d.configCnt - k
  {
    hide InitOne;
    if k < d.configCnt {
      InitOneStats(d, k, hwOk[k], x);
      InitFromStats(InitOne(d, k, hwOk[k]), k + 1, hwOk, x);
    }
  }

  /** Initialisation starts all three counters of a configured controller at zero. */
  lemma InitRestartsCount(d: Driver, cfg: seq<Controller>, hwOk: seq<bool>, x: nat)
    requires Wf(d) && Possible(d, EvInit(Some(cfg), hwOk)) && InitAccepted(d, Some(cfg))
    requires x < |d.units| && Configures(cfg, x)
    ensures Init(d, Some(cfg), hwOk).units[x].stats == Stats(0, 0, 0)
  {
    hide InitFrom;
    InitFromStats(d.(config := Some(cfg)), 0, hwOk, x);
  }

  /** So `rxSuccessCnt` is the number of receive indications since initialisation, modulo
    * 2^32, as long as the driver is neither shut down nor initialised again. */
  lemma CountedSinceInit(d: Driver, cfg: seq<Controller>, hwOk: seq<bool>, es: seq<Event>, x: nat)
    requires Wf(d) && Possible(d, EvInit(Some(cfg), hwOk)) && InitAccepted(d, Some(cfg))
    requires x < |d.units| && Configures(cfg, x)
    requires ValidRun(Init(d, Some(cfg), hwOk), es) && forall i :: 0 <= i < |es| ==> !RestartsCount(es[i])
    ensures var d0 := Init(d, Some(cfg), hwOk);
            var r := Run(d0, es);
            r.units[x].stats.rx == (RxTotal(r, x) - RxTotal(d0, x)) % TWO32
  {
    hide Init, Run, ValidRun, RxTotal, Wf, InitAccepted, Configures, ConfigOk;
    InitRestartsCount(d, cfg, hwOk, x);
    IndicationsAreCounted(Init(d, Some(cfg), hwOk), es, x);
  }

  // ------------------------------------------------------------------ the order

  /** The event is a frame that the filters of `x` send to FIFO `k`. */
  predicate ArrivesAt(d: Driver, e: Event, x: nat, k: nat)
    requires x < |d.units|
  {
    e.EvArrive? && e.c == x && HwRoute(d.units[x].banks, e.f) == Some(k)
  }

  function NextFifo(d: Driver, e: Event, x: nat, k: nat): seq<Frame>
    requires Wf(d) && Possible(d, e) && x < |d.units| && k < 2
  {
    var waiting := d.units[x].fifos[k];
    if ArrivesAt(d, e, x, k) then Store(waiting, e.f)
    else if e == EvRxIsr(x, k) then waiting[1..]
    else waiting
  }

  lemma BaudrateKeepsFifos(d: Driver, c: nat, rate: nat, hwOk: bool, x: nat)
    requires Wf(d) && x < |d.units| && c != x
    ensures ChangeBaudrate(d, c, rate, hwOk).0.units[x].fifos == d.units[x].fifos
  {
    hide FilterSetup, Overlay, CheckBaudrate;
  }

  lemma StartKeepsFifos(d: Driver, c: nat, hwOk: bool, x: nat)
    requires Wf(d) && d.Ready() && c < |d.units| && x < |d.units| && c != x
    ensures Start(d, c, hwOk).0.units[x].fifos == d.units[x].fifos
  {
    hide ChangeBaudrate;
    BaudrateKeepsFifos(d, c, ConfigOf(d, c).defaultRate, hwOk, x);
  }

  lemma SetModeKeepsFifos(d: Driver, c: nat, t: Transition, hwOk: bool, x: nat)
    requires Wf(d) && x < |d.units| && (c != x || !t.ToStart?)
    ensures SetMode(d, c, t, hwOk).0.units[x].fifos == d.units[x].fifos
  {
    hide Start;
    if c < |d.units| && d.Ready() && t.ToStart? && d.units[c].mode.Stopped? {
      StartKeepsFifos(SetUnit(d, c, d.units[c].(pending := Nothing)), c, hwOk, x);
    }
  }

  lemma ArriveFifo(d: Driver, c: nat, f: Frame, x: nat, k: nat)
    requires Wf(d) && Possible(d, EvArrive(c, f)) && x < |d.units| && k < 2
    ensures Arrive(d, c, f).units[x].fifos[k] == NextFifo(d, EvArrive(c, f), x, k)
  {
    hide HwRoute, Store;
  }

  lemma RxIsrFifo(d: Driver, c: nat, fifo: nat, x: nat, k: nat)
    requires Wf(d) && Possible(d, EvRxIsr(c, fifo)) && x < |d.units| && k < 2
    ensures RxIsr(d, c, fifo).units[x].fifos[k] == NextFifo(d, EvRxIsr(c, fifo), x, k)
  {
    hide Indicated;
  }

  /** A FIFO changes only by arrivals and by its interrupt, as long as its controller is
    * not reset. */
  lemma StepFifo(d: Driver, e: Event, x: nat, k: nat)
    requires Wf(d) && Possible(d, e) && x < |d.units| && k < 2 && !Reroutes(e, x)
    ensures Step(d, e).units[x].fifos[k] == NextFifo(d, e, x, k)
  {
    hide ChangeBaudrate, SetMode, Write, ErrIsr, TxIsr, RxIsr, Arrive, MainFunctionMode, HwRoute, Store;
    match e
    case EvChangeBaudrate(c, rate, ok) => BaudrateKeepsFifos(d, c, rate, ok, x);
    case EvArrive(c, f) => ArriveFifo(d, c, f, x, k);
    case EvRxIsr(c, fifo) => RxIsrFifo(d, c, fifo, x, k);
    case EvSetMode(c, t, ok) => SetModeKeepsFifos(d, c, t, ok, x);
    case EvWrite(hth, pdu) => WriteRx(d, hth, pdu, x);
    case EvErrIsr(c, wake, busOff) => ErrIsrRx(d, c, wake, busOff, x, 0);
    case EvMain => MainRx(d, x, 0);
    case EvTxIsr(c) => TxIsrRx(d, c, x, 0);
    case _ =>
  }

  /** The filters are those of the configuration, and what waits was let in by them. */
  predicate Tidy(d: Driver, x: nat) {
    && Routed(d, x) && CountKind(ConfigOf(d, x).objects, Receive) <= 2
    && forall k, i :: 0 <= k < 2 && 0 <= i < |d.units[x].fifos[k]| ==> LetIn(d, x, d.units[x].fifos[k][i], k)
  }

  predicate LetIn(d: Driver, x: nat, f: Frame, k: nat)
    requires x < |d.units|
  {
    f.Valid() && HwRoute(d.units[x].banks, f) == Some(k)
  }

  lemma StepTidy(d: Driver, e: Event, x: nat)
    requires Tidy(d, x) && Possible(d, e) && !Reroutes(e, x)
    ensures Tidy(Step(d, e), x) && ConfigOf(Step(d, e), x) == ConfigOf(d, x)
  {
    hide Step, HwRoute, FilterSetup;
    StepKeepsRouting(d, e, x);
    StepFifo(d, e, x, 0);
    StepFifo(d, e, x, 1);
  }

  /** What the upper layer should be told of a frame: the first receive object that
    * accepts it, the frame's identifier and its data. */
  function Told(objects: seq<HwObject>, x: nat, k: nat, f: Frame): Callback {
    var o := FirstAccepting(objects, f);
    RxIndication(x, k, if o.Some? then o.value.id else 0, Flagged(f.extended, f.id), f.data)
  }

  function ToldAll(objects: seq<HwObject>, x: nat, k: nat, fs: seq<Frame>): seq<Callback> {
    seq(|fs|, i requires 0 <= i < |fs| => Told(objects, x, k, fs[i]))
  }

  /** The interrupt makes exactly one indication, and the right one. */
  lemma InterruptTells(d: Driver, x: nat, k: nat)
    requires Tidy(d, x) && Possible(d, EvRxIsr(x, k))
    ensures var head := d.units[x].fifos[k][0];
            && FirstAccepting(ConfigOf(d, x).objects, head).Some?
            && RxNow(d, EvRxIsr(x, k), x, k) == [Told(ConfigOf(d, x).objects, x, k, head)]
  {
    hide FilterSetup, Indicated, FirstAccepting, HwRoute, IndicatedId, IdRegister, Flagged;
    var objects, head := ConfigOf(d, x).objects, d.units[x].fifos[k][0];
    assert LetIn(d, x, head, k);
    RoutingIsExact(objects, head);
    IndicatedIdExact(head);
  }

  /** The frames that the filters send to FIFO `k` of controller `x` during a run. */
  function Arrivals(d: Driver, es: seq<Event>, x: nat, k: nat): seq<Frame>
    requires Wf(d) && ValidRun(d, es) && x < |d.units|
    decreases |es|
  {
    if es == [] then []
    else (if ArrivesAt(d, es[0], x, k) then [es[0].f] else []) + Arrivals(Step(d, es[0]), es[1..], x, k)
  }

  /** How many of them find it full. */
  function Overruns(d: Driver, es: seq<Event>, x: nat, k: nat): nat
    requires Wf(d) && ValidRun(d, es) && x < |d.units| && k < 2
    decreases |es|
  {
    if es == [] then 0
    else
      (if ArrivesAt(d, es[0], x, k) && |d.units[x].fifos[k]| >= 3 then 1 else 0)
      + Overruns(Step(d, es[0]), es[1..], x, k)
  }

  /** Between `d` and `r` FIFO `k` has served `frames` in order: those in front have been
    * told, one by one, and the others wait. */
  predicate ServedInOrder(d: Driver, r: Driver, x: nat, k: nat, frames: seq<Frame>)
    requires Wf(d) && d.Ready() && x < |d.units| && Wf(r) && x < |r.units| && k < 2
  {
    var before, after := RxOf(d.calls, x, k), RxOf(r.calls, x, k);
    var n := |after| - |before|;
    && 0 <= n <= |frames|
    && after == before + ToldAll(ConfigOf(d, x).objects, x, k, frames[..n])
    && r.units[x].fifos[k] == frames[n..]
  }

  /** Frames are conserved: told, waiting or overwritten. */
  lemma {:induction false} FramesConserved(d: Driver, es: seq<Event>, x: nat, k: nat)
    requires Tidy(d, x) && ValidRun(d, es) && k < 2 && forall i :: 0 <= i < |es| ==> !Reroutes(es[i], x)
    ensures var r := Run(d, es);
            |RxOf(r.calls, x, k)| + |r.units[x].fifos[k]| + Overruns(d, es, x, k) ==
            |RxOf(d.calls, x, k)| + |d.units[x].fifos[k]| + |Arrivals(d, es, x, k)|
    decreases |es|
  {
    hide Step, RxOf, Tidy, ConfigOf;
    if es != [] {
      TidyMeans(d, x);
      StepTidy(d, es[0], x);
      StepFifo(d, es[0], x, k);
      StepRx(d, es[0], x, k);
      if es[0] == EvRxIsr(x, k) {
        InterruptTells(d, x, k);
      }
      FramesConserved(Step(d, es[0]), es[1..], x, k);
    }
  }

  lemma TidyMeans(d: Driver, x: nat)
    requires Tidy(d, x)
    ensures Wf(d) && d.Ready() && x < |d.units|
  {
  }

  lemma ToldAllCons(objects: seq<HwObject>, x: nat, k: nat, fs: seq<Frame>)
    requires fs != []
    ensures ToldAll(objects, x, k, fs) == [Told(objects, x, k, fs[0])] + ToldAll(objects, x, k, fs[1..])
  {
    hide Told;
  }

  /** One step in front of a run that serves in order. */
  lemma ServeStep(d: Driver, e: Event, r: Driver, x: nat, k: nat, rest: seq<Frame>)
    requires Tidy(d, x) && Possible(d, e) && !Reroutes(e, x) && k < 2 && Wf(r) && x < |r.units|
    requires !(ArrivesAt(d, e, x, k) && |d.units[x].fifos[k]| >= 3)
    requires ServedInOrder(d, d, x, k, d.units[x].fifos[k])
    requires Step(d, e).Ready() && ConfigOf(Step(d, e), x) == ConfigOf(d, x)
    requires ServedInOrder(Step(d, e), r, x, k, Step(d, e).units[x].fifos[k] + rest)
    ensures ServedInOrder(d, r, x, k, d.units[x].fifos[k] + (if ArrivesAt(d, e, x, k) then [e.f] else []) + rest)
  {
    hide Step, RxOf, Tidy, ConfigOf, Told, ToldAll, HwRoute, Indicated, FirstAccepting;
    TidyMeans(d, x);
    StepFifo(d, e, x, k);
    StepRx(d, e, x, k);
    var waiting, d1 := d.units[x].fifos[k], Step(d, e);
    var frames := waiting + (if ArrivesAt(d, e, x, k) then [e.f] else []) + rest;
    if e == EvRxIsr(x, k) {
      InterruptTells(d, x, k);
      assert waiting == [waiting[0]] + waiting[1..];
      assert d1.units[x].fifos[k] + rest == frames[1..];
      var n := |RxOf(r.calls, x, k)| - |RxOf(d.calls, x, k)|;
      ToldAllCons(ConfigOf(d, x).objects, x, k, frames[..n]);
      assert frames[..n][1..] == frames[1..][..n - 1];
    } else {
      assert d1.units[x].fifos[k] + rest == frames;
    }
  }

  lemma {:induction false} NoOverrunInOrder(d: Driver, es: seq<Event>, x: nat, k: nat)
    requires Tidy(d, x) && ValidRun(d, es) && k < 2 && forall i :: 0 <= i < |es| ==> !Reroutes(es[i], x)
    requires Overruns(d, es, x, k) == 0
    ensures ServedInOrder(d, Run(d, es), x, k, d.units[x].fifos[k] + Arrivals(d, es, x, k))
    decreases |es|
  {
    hide Step, RxOf, Tidy, ConfigOf, ServedInOrder;
    TidyMeans(d, x);
    var waiting := d.units[x].fifos[k];
    assert ServedInOrder(d, d, x, k, waiting) by { Untouched(d, x, k); }
    if es == [] {
      assert waiting + [] == waiting;
    } else {
      var d1 := Step(d, es[0]);
      StepTidy(d, es[0], x);
      TidyMeans(d1, x);
      NoOverrunInOrder(d1, es[1..], x, k);
      var now := if ArrivesAt(d, es[0], x, k) then [es[0].f] else [];
      ServeStep(d, es[0], Run(d, es), x, k, Arrivals(d1, es[1..], x, k));
      assert waiting + (now + Arrivals(d1, es[1..], x, k)) == waiting + now + Arrivals(d1, es[1..], x, k);
    }
  }

  lemma Untouched(d: Driver, x: nat, k: nat)
    requires Wf(d) && d.Ready() && x < |d.units| && k < 2
    ensures ServedInOrder(d, d, x, k, d.units[x].fifos[k])
  {
  }

  /** Over every run that leaves the filters alone: what FIFO `k` held and what arrived
    * for it since is told to the upper layer in order, each frame once and for the first
    * object that accepts it, the last ones still waiting, if and only if no arrival found
    * three frames waiting. */
  lemma ArrivalsAreToldIff(d: Driver, es: seq<Event>, x: nat, k: nat)
    requires Tidy(d, x) && ValidRun(d, es) && k < 2 && forall i :: 0 <= i < |es| ==> !Reroutes(es[i], x)
    ensures ServedInOrder(d, Run(d, es), x, k, d.units[x].fifos[k] + Arrivals(d, es, x, k)) <==>
            Overruns(d, es, x, k) == 0
  {
    FramesConserved(d, es, x, k);
    if Overruns(d, es, x, k) == 0 {
      NoOverrunInOrder(d, es, x, k);
    }
  }

  /** Every frame on the bus goes where the configuration wants it: to no FIFO if no
    * receive object accepts it, and to exactly one otherwise. */
  lemma FramesAreRouted(d: Driver, x: nat, f: Frame)
    requires Tidy(d, x) && f.Valid()
    ensures match FirstAccepting(ConfigOf(d, x).objects, f)
            case None => Arrive(d, x, f) == d
            case Some(o) =>
              exists k: nat ::
                && k < 2 && Indicated(ConfigOf(d, x).objects, k, 0) == [o]
                && Arrive(d, x, f).units[x].fifos == d.units[x].fifos[k := Store(d.units[x].fifos[k], f)]
  {
    hide FilterSetup, Indicated, FirstAccepting, HwRoute;
    RoutingIsExact(ConfigOf(d, x).objects, f);
  }

  /** A successful baud-rate change empties both FIFOs; such runs begin there exactly if
    * there are no more than two receive objects and the window held no more banks than
    * they need. */
  lemma ChangeTidiesIff(d: Driver, c: nat, rate: nat, hwOk: bool)
    requires Wf(d) && ChangeBaudrate(d, c, rate, hwOk).1
    ensures var r, objects := ChangeBaudrate(d, c, rate, hwOk).0, ConfigOf(d, c).objects;
            && r.units[c].fifos == NO_FRAMES
            && (Tidy(r, c) <==>
                  CountKind(objects, Receive) <= 2 && (c == 0 || |d.units[c].banks| <= |FilterSetup(objects, 0)|))
  {
    hide FilterSetup, Overlay;
    ChangeRoutesIff(d, c, rate, hwOk);
  }

  /** And so does an accepted CAN_T_START. */
  lemma StartTidiesIff(d: Driver, c: nat, hwOk: bool)
    requires Wf(d) && SetMode(d, c, ToStart, hwOk).1
    ensures var r, objects := SetMode(d, c, ToStart, hwOk).0, ConfigOf(d, c).objects;
            && r.units[c].mode.Started? && r.units[c].fifos == NO_FRAMES
            && (Tidy(r, c) <==>
                  CountKind(objects, Receive) <= 2 && (c == 0 || |d.units[c].banks| <= |FilterSetup(objects, 0)|))
  {
    hide FilterSetup, ChangeBaudrate, Routed;
    var d0 := SetUnit(d, c, d.units[c].(pending := Nothing));
    var rate := ConfigOf(d, c).defaultRate;
    ChangeTidiesIff(d0, c, rate, hwOk);
    ChangeBaudrateEffect(d0, c, rate, hwOk, c);
    var d1 := ChangeBaudrate(d0, c, rate, hwOk).0;
    SameReception(d1, SetMode(d, c, ToStart, hwOk).0, c);
  }

  /** Filters, FIFOs and configuration are all that matters. */
  lemma SameReception(d: Driver, r: Driver, x: nat)
    requires Wf(d) && Wf(r) && x < |d.units| && x < |r.units| && d.config == r.config && d.channelMap == r.channelMap
    requires d.units[x].fifos == r.units[x].fifos && d.units[x].banks == r.units[x].banks
    ensures Tidy(d, x) <==> Tidy(r, x)
  {
    hide FilterSetup, HwRoute;
    if Tidy(d, x) {
      assert forall k, i :: 0 <= k < 2 && 0 <= i < |d.units[x].fifos[k]| ==> LetIn(d, x, d.units[x].fifos[k][i], k);
    }
    if Tidy(r, x) {
      assert forall k, i :: 0 <= k < 2 && 0 <= i < |r.units[x].fifos[k]| ==> LetIn(r, x, r.units[x].fifos[k][i], k);
    }
  }
}
