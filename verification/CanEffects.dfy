/** What each operation of the CAN driver does to one controller `x`: the
  * per-operation facts from which the whole-run theorems are built. */
module CanEffects {
  import opened Basics
  import opened CanConfig
  import opened CanFilter
  import opened CanSpec
  import Tx = CanTx

  /** Everything but the units and the callbacks is untouched. */
  predicate SameGlobals(d: Driver, r: Driver) {
    && r.config == d.config && r.configured == d.configured
    && r.channelMap == d.channelMap && r.hthMap == d.hthMap && SameShape(d, r)
  }

  predicate Configures(cfg: seq<Controller>, c: nat) {
    exists k :: 0 <= k < |cfg| && cfg[k].id == c
  }

  /** Like `Configures`, from entry `k` on. */
  predicate ConfiguresFrom(cfg: seq<Controller>, k: nat, c: nat) {
    exists j :: k <= j < |cfg| && cfg[j].id == c
  }

  predicate Stops(u: Unit) { u.mode.Stopped? && u.pending.PendingStop? }

  lemma ChangeBaudrateEffect(d: Driver, c: nat, rate: nat, hwOk: bool, x: nat)
    requires Wf(d) && x < |d.units|
    ensures var (r, ok) := ChangeBaudrate(d, c, rate, hwOk);
            var u, v := d.units[x], r.units[x];
            && SameGlobals(d, r) && r.calls == d.calls
            && (ok ==> d.Ready() && hwOk && c < |d.units| && c in d.configured && d.units[c].mode.Stopped?)
            && v.mode == u.mode && v.lockCnt == u.lockCnt && v.pending == u.pending && v.stats == u.stats
            && (v.enables != u.enables || v.port != u.port ==>
                  x == c && d.Ready() && v.enables == ALL_OFF && v.port == Tx.ResetPort(u.port))
  {
  }

  lemma EnableEffect(d: Driver, c: nat, x: nat)
    requires Wf(d) && x < |d.units|
    ensures var r := Enable(d, c);
            && SameGlobals(d, r) && r.calls == d.calls
            && r.units[x] == if x == c && d.Ready() then EnableUnit(d.units[x], ConfigOf(d, x)) else d.units[x]
  {
  }

  /** A start either fails and leaves mode and indication alone, or succeeds. */
  lemma StartEffect(d: Driver, c: nat, hwOk: bool, x: nat)
    requires Wf(d) && d.Ready() && c < |d.units| && x < |d.units| && d.units[c].pending == Nothing
    ensures var (r, ok) := Start(d, c, hwOk);
            var u, v := d.units[x], r.units[x];
            && SameGlobals(d, r) && r.calls == d.calls
            && v.lockCnt == u.lockCnt && v.stats == u.stats
            && (x != c ==> v.mode == u.mode && v.pending == u.pending && v.enables == u.enables && v.port == u.port)
            && (ok ==> hwOk && c in d.configured && d.units[c].mode.Stopped?)
            && (x == c ==>
                  && (v.port == u.port || v.port == Tx.ResetPort(u.port))
                  && (v.mode, v.pending) == (if ok then (Started, PendingStart) else (u.mode, Nothing))
                  && (u.lockCnt > 0 ==> v.enables == u.enables || v.enables == ALL_OFF))
  {
    hide Enable, ChangeBaudrate;
    var rate := ConfigOf(d, c).defaultRate;
    ChangeBaudrateEffect(d, c, rate, hwOk, x);
    ChangeBaudrateEffect(d, c, rate, hwOk, c);
    var (d1, ok) := ChangeBaudrate(d, c, rate, hwOk);
    if ok {
      var d2 := SetUnit(d1, c, d1.units[c].(mode := Started));
      EnableEffect(d2, c, x);
      EnableEffect(d2, c, c);
    }
  }

  /** A mode request changes one controller; accepted, it sets mode and indication
    * of its target, and refused, it only withdraws a pending indication. */
  lemma SetModeEffect(d: Driver, c: nat, t: Transition, hwOk: bool, x: nat)
    requires Wf(d) && x < |d.units|
    ensures var (r, ok) := SetMode(d, c, t, hwOk);
            var u, v := d.units[x], r.units[x];
            && SameGlobals(d, r) && r.calls == d.calls
            && v.lockCnt == u.lockCnt && v.stats == u.stats
            && (x != c || !d.Ready() ==>
                  v.mode == u.mode && v.pending == u.pending && v.enables == u.enables && v.port == u.port)
            && (ok ==> d.Ready() && c < |d.units|)
            && (x == c && d.Ready() ==>
                  && (v.port == u.port || v.port == Tx.ResetPort(u.port))
                  && (v.mode, v.pending) == (if ok && !t.Unknown? then Target(t) else (u.mode, Nothing))
                  && (ok && t.ToStart? ==> hwOk && c in d.configured && u.mode.Stopped?)
                  && (t.ToStop? ==> ok)
                  && (!t.ToStart? ==> v.enables == u.enables && v.port == u.port)
                  && (u.lockCnt > 0 ==> v.enables == u.enables || v.enables == ALL_OFF))
  {
    if c < |d.units| && d.Ready() && t.ToStart? && d.units[c].mode.Stopped? {
      hide Start;
      var d0 := SetUnit(d, c, d.units[c].(pending := Nothing));
      StartEffect(d0, c, hwOk, x);
    }
  }

  lemma ErrIsrEffect(d: Driver, c: nat, wake: bool, busOff: bool, x: nat)
    requires Wf(d) && c < |d.units| && x < |d.units|
    ensures var r := ErrIsr(d, c, wake, busOff);
            var u, v := d.units[x], r.units[x];
            var e := d.units[c].enables;
            && SameGlobals(d, r)
            && r.calls == d.calls + (if e.bof && busOff then [BusOff(c)] else [])
            && v.lockCnt == u.lockCnt && v.enables == u.enables && v.port == u.port
            && var taken := x == c && d.Ready() && ((e.wku && wake) || (e.bof && busOff));
               if taken then Stops(v) else v.mode == u.mode && v.pending == u.pending
  {
    hide SetMode;
    SetModeEffect(d, c, ToStop, true, x);
    SetModeEffect(d, c, ToStop, true, c);
    var d1 := if d.units[c].enables.wku && wake then SetMode(d, c, ToStop, true).0 else d;
    if d1.units[c].enables.bof && busOff {
      var u := d1.units[c];
      var d2 := SetUnit(d1, c, u.(stats := u.stats.(busOff := (u.stats.busOff + 1) % TWO32)));
      SetModeEffect(d2.(calls := d2.calls + [BusOff(c)]), c, ToStop, true, x);
    }
  }

  lemma WriteEffect(d: Driver, hth: nat, pdu: Option<Pdu>, x: nat)
    requires Wf(d) && WriteDefined(d, hth, pdu) && x < |d.units|
    ensures var (r, rv) := Write(d, hth, pdu);
            var u, v := d.units[x], r.units[x];
            && SameGlobals(d, r) && r.calls == d.calls
            && v.mode == u.mode && v.lockCnt == u.lockCnt && v.pending == u.pending && v.enables == u.enables
            && (rv.Ok? ==> pdu.Some? && d.Ready() && hth < |d.hthMap| && d.hthMap[hth].Some?)
            && var mine := rv.Ok? && d.hthMap[hth].value.controller == x;
               var m := Tx.FreeBox(u.port.boxes, 0);
               && (mine ==> m < Tx.MAILBOXES)
               && v.port == if mine then Tx.Load(u.port, m, pdu.value.handle) else u.port
  {
  }

  lemma InitOneEffect(d: Driver, k: nat, hwOk: bool, x: nat)
    requires Wf(d) && d.Ready() && k < d.configCnt && x < |d.units|
    ensures var r := InitOne(d, k, hwOk);
            var c, u, v := d.config.value[k].id, d.units[x], r.units[x];
            && r.config == d.config && r.configured == d.configured + {c} && r.calls == d.calls
            && r.hthMap == MapObjects(d.hthMap, c, d.config.value[k].objects)
            && v.pending == u.pending
            && (x != c ==> v.mode == u.mode && v.lockCnt == u.lockCnt && v.enables == u.enables && v.port == u.port)
            && (x == c ==> v.mode.Stopped? && v.lockCnt == 0 && (v.port == u.port || v.port == Tx.ResetPort(u.port)))
  {
    hide ChangeBaudrate, Enable;
    var ctl := d.config.value[k];
    var c := ctl.id;
    var d1 := SetUnit(d.(channelMap := d.channelMap[c := k], configured := d.configured + {c}),
                      c, FreshUnit(d.units[c]));
    ChangeBaudrateEffect(d1, c, ctl.defaultRate, hwOk, x);
    EnableEffect(ChangeBaudrate(d1, c, ctl.defaultRate, hwOk).0, c, x);
  }

  lemma DeInitOneEffect(d: Driver, k: nat, x: nat)
    requires Wf(d) && d.Ready() && k < d.configCnt && x < |d.units|
    ensures var r := DeInitOne(d, k);
            var c, u, v := d.config.value[k].id, d.units[x], r.units[x];
            && SameGlobals(d, r) && r.calls == d.calls
            && v.pending == u.pending && v.port == u.port
            && (x != c ==> v == u)
            && (x == c ==> v.mode.Uninit? && v.lockCnt == 0)
  {
  }

  // --------------------------------------------- start-up and shut-down loops

  lemma {:induction false} InitFromEffect(d: Driver, k: nat, hwOk: seq<bool>, x: nat)
    requires Wf(d) && d.Ready() && k <= d.configCnt == |hwOk| && x < |d.units|
    ensures var r := InitFrom(d, k, hwOk);
            var u, v := d.units[x], r.units[x];
            && r.config == d.config && r.calls == d.calls && v.pending == u.pending
            && (forall c :: c in r.configured <==> c in d.configured || ConfiguresFrom(d.config.value, k, c))
            && (v.port == u.port || v.port == Tx.ResetPort(u.port))
            && if ConfiguresFrom(d.config.value, k, x) then v.mode.Stopped? && v.lockCnt == 0
               else v.mode == u.mode && v.lockCnt == u.lockCnt && v.enables == u.enables && v.port == u.port
    decreases d.configCnt - k
  {
    hide InitOne;
    if k < d.configCnt {
      InitOneEffect(d, k, hwOk[k], x);
      InitFromEffect(InitOne(d, k, hwOk[k]), k + 1, hwOk, x);
    }
  }

  lemma {:induction false} DeInitFromEffect(d: Driver, k: nat, x: nat)
    requires Wf(d) && d.Ready() && k <= d.configCnt && x < |d.units|
    ensures var r := DeInitFrom(d, k);
            var u, v := d.units[x], r.units[x];
            && SameGlobals(d, r) && r.calls == d.calls
            && v.pending == u.pending && v.port == u.port
            && if ConfiguresFrom(d.config.value, k, x) then v.mode.Uninit? && v.lockCnt == 0 else v == u
    decreases d.configCnt - k
  {
    hide DeInitOne;
    if k < d.configCnt {
      DeInitOneEffect(d, k, x);
      DeInitFromEffect(DeInitOne(d, k), k + 1, x);
    }
  }

  /** Mode indications of controller `c`, oldest first. */
  function Indications(calls: seq<Callback>, c: nat): seq<Mode> {
    if calls == [] then []
    else
      var last := calls[|calls| - 1];
      Indications(calls[..|calls| - 1], c) +
      if last.ModeIndication? && last.controller == c then [last.mode] else []
  }

  lemma IndicationsSnoc(calls: seq<Callback>, call: Callback, c: nat)
    ensures Indications(calls + [call], c) ==
            Indications(calls, c) + if call.ModeIndication? && call.controller == c then [call.mode] else []
  {
    assert (calls + [call])[..|calls|] == calls;
  }

  lemma {:induction false} IndicationsOther(calls: seq<Callback>, more: seq<Callback>, c: nat)
    requires forall i :: 0 <= i < |more| ==> !more[i].ModeIndication?
    ensures Indications(calls + more, c) == Indications(calls, c)
  {
    if more == [] {
      assert calls + more == calls;
    } else {
      var n := |more| - 1;
      IndicationsOther(calls, more[..n], c);
      IndicationsSnoc(calls + more[..n], more[n], c);
      assert calls + more == calls + more[..n] + [more[n]];
    }
  }

  function Modes(o: Option<Mode>): seq<Mode> { if o.Some? then [o.value] else [] }

  lemma MainOneEffect(d: Driver, c: nat, x: nat)
    requires Wf(d) && c < |d.units| && x < |d.units|
    ensures var r := MainOne(d, c);
            && SameGlobals(d, r)
            && r.units[x] == (if x == c then d.units[x].(pending := Nothing) else d.units[x])
            && Indications(r.calls, x) ==
               Indications(d.calls, x) + if x == c then Modes(Indication(d.units[x])) else []
  {
    match Indication(d.units[c])
    case Some(mode) => IndicationsSnoc(d.calls, ModeIndication(c, mode), x);
    case None =>
  }

  lemma {:induction false} MainFromEffect(d: Driver, k: nat, x: nat)
    requires Wf(d) && d.Ready() && k <= d.configCnt && x < |d.units|
    ensures var r := MainFrom(d, k);
            var mine := ConfiguresFrom(d.config.value, k, x);
            && SameGlobals(d, r)
            && r.units[x] == (if mine then d.units[x].(pending := Nothing) else d.units[x])
            && Indications(r.calls, x) ==
               Indications(d.calls, x) + if mine then Modes(Indication(d.units[x])) else []
    decreases d.configCnt - k
  {
    hide MainOne, Indications;
    if k < d.configCnt {
      var c := d.config.value[k].id;
      MainOneEffect(d, c, x);
      MainFromEffect(MainOne(d, c), k + 1, x);
    }
  }

  // ------------------------------------------------ one step, one controller

  /** The part of a unit that the protocols are about. */
  datatype Core = Core(mode: Mode, lockCnt: nat, pending: Pending, enables: Enables, port: Tx.Port)

  function CoreOf(u: Unit): Core { Core(u.mode, u.lockCnt, u.pending, u.enables, u.port) }

  predicate SameOrReset(p: Tx.Port, q: Tx.Port) { q == p || q == Tx.ResetPort(p) }

  /** The error interrupt finds one of its two sources both enabled and raised. */
  predicate ErrorTaken(d: Driver, c: nat, wake: bool, busOff: bool)
    requires c < |d.units|
  {
    var e := d.units[c].enables;
    d.Ready() && ((e.wku && wake) || (e.bof && busOff))
  }

  /** The write is accepted, and for controller `x`. */
  predicate WriteTaken(d: Driver, hth: nat, pdu: Option<Pdu>, x: nat)
    requires Wf(d) && WriteDefined(d, hth, pdu)
  {
    Write(d, hth, pdu).1.Ok? && d.hthMap[hth].value.controller == x
  }

  /** What an event may make of controller `x`. */
  predicate CoreStep(d: Driver, e: Event, x: nat, v: Core)
    requires Wf(d) && Possible(d, e) && x < |d.units|
  {
    var u := CoreOf(d.units[x]);
    match e
    case EvInit(cfg, _) =>
      if InitAccepted(d, cfg) && Configures(cfg.value, x)
      then v.mode.Stopped? && v.lockCnt == 0 && v.pending == u.pending && SameOrReset(u.port, v.port)
      else v == u
    case EvDeInit =>
      if d.Ready() && Configures(d.config.value, x)
      then v.mode.Uninit? && v.lockCnt == 0 && v.pending == u.pending && v.port == u.port
      else v == u
    case EvChangeBaudrate(c, _, _) =>
      v == u || (c == x && d.Ready() && v == u.(enables := ALL_OFF, port := Tx.ResetPort(u.port)))
    case EvSetMode(c, t, ok) =>
      if c != x || !d.Ready() then v == u
      else
        var accepted := SetMode(d, c, t, ok).1;
        && v.lockCnt == u.lockCnt
        && (v.mode, v.pending) == (if accepted && !t.Unknown? then Target(t) else (u.mode, Nothing))
        && (accepted && t.ToStart? ==> ok && x in d.configured && u.mode.Stopped?)
        && (u.lockCnt > 0 ==> v.enables == u.enables || v.enables == ALL_OFF)
        && SameOrReset(u.port, v.port)
    case EvDisable(c) => v == if c == x && d.Ready() then CoreOf(DisableUnit(d.units[x])) else u
    case EvEnable(c) => v == if c == x && d.Ready() then CoreOf(EnableUnit(d.units[x], ConfigOf(d, x))) else u
    case EvWrite(hth, pdu) =>
      if WriteTaken(d, hth, pdu, x)
      then
        var m := Tx.FreeBox(u.port.boxes, 0);
        m < Tx.MAILBOXES && v == u.(port := Tx.Load(u.port, m, pdu.value.handle))
      else v == u
    case EvTxIsr(c) =>
      v == if c == x && HasTransmitter(ConfigOf(d, x).objects) then u.(port := Tx.ClearCompleted(u.port)) else u
    case EvErrIsr(c, wake, busOff) =>
      v == if c == x && ErrorTaken(d, x, wake, busOff) then u.(mode := Stopped, pending := PendingStop) else u
    case EvMain => v == if d.Ready() && Configures(d.config.value, x) then u.(pending := Nothing) else u
    case EvRxIsr(_, _) => v == u
    case EvArrive(_, _) => v == u
    case EvComplete(c, m, ok) =>
      v == if c == x && !u.port.boxes[m].empty then u.(port := Tx.Settle(u.port, m, ok)) else u
  }

  /** What an event may make of the driver's globals. */
  ghost predicate GlobalStep(d: Driver, e: Event, r: Driver) {
    match e
    case EvInit(cfg, _) =>
      if InitAccepted(d, cfg)
      then r.config == cfg && forall c :: c in r.configured <==> c in d.configured || Configures(cfg.value, c)
      else r == d
    case EvDeInit => r.config == None && r.configured == d.configured
    case _ => r.config == d.config && r.configured == d.configured
  }

  lemma InitCore(d: Driver, e: Event, x: nat)
    requires Wf(d) && Possible(d, e) && x < |d.units| && e.EvInit?
    ensures CoreStep(d, e, x, CoreOf(Step(d, e).units[x])) && GlobalStep(d, e, Step(d, e))
  {
    hide InitFrom;
    if InitAccepted(d, e.cfg) {
      InitFromEffect(d.(config := e.cfg), 0, e.hwOks, x);
    }
  }

  lemma DeInitCore(d: Driver, x: nat)
    requires Wf(d) && x < |d.units|
    ensures CoreStep(d, EvDeInit, x, CoreOf(Step(d, EvDeInit).units[x])) && GlobalStep(d, EvDeInit, Step(d, EvDeInit))
  {
    hide DeInitFrom;
    if d.Ready() {
      DeInitFromEffect(d, 0, x);
    }
  }

  lemma SetModeCore(d: Driver, e: Event, x: nat)
    requires Wf(d) && x < |d.units| && e.EvSetMode?
    ensures CoreStep(d, e, x, CoreOf(Step(d, e).units[x])) && GlobalStep(d, e, Step(d, e))
  {
    hide SetMode;
    SetModeEffect(d, e.c, e.t, e.hwOk, x);
  }

  lemma BaudrateCore(d: Driver, e: Event, x: nat)
    requires Wf(d) && x < |d.units| && e.EvChangeBaudrate?
    ensures CoreStep(d, e, x, CoreOf(Step(d, e).units[x])) && GlobalStep(d, e, Step(d, e))
  {
    hide ChangeBaudrate;
    ChangeBaudrateEffect(d, e.c, e.rate, e.hwOk, x);
  }

  lemma WriteCore(d: Driver, e: Event, x: nat)
    requires Wf(d) && Possible(d, e) && x < |d.units| && e.EvWrite?
    ensures CoreStep(d, e, x, CoreOf(Step(d, e).units[x])) && GlobalStep(d, e, Step(d, e))
  {
    hide Write;
    WriteEffect(d, e.hth, e.pdu, x);
  }

  lemma ErrIsrCore(d: Driver, e: Event, x: nat)
    requires Wf(d) && Possible(d, e) && x < |d.units| && e.EvErrIsr?
    ensures CoreStep(d, e, x, CoreOf(Step(d, e).units[x])) && GlobalStep(d, e, Step(d, e))
  {
    hide ErrIsr;
    ErrIsrEffect(d, e.c, e.wake, e.busOff, x);
  }

  lemma MainCore(d: Driver, x: nat)
    requires Wf(d) && x < |d.units|
    ensures CoreStep(d, EvMain, x, CoreOf(Step(d, EvMain).units[x])) && GlobalStep(d, EvMain, Step(d, EvMain))
  {
    hide MainFrom, Indications;
    if d.Ready() {
      MainFromEffect(d, 0, x);
    }
  }

  /** Every step is one of these, on every controller. */
  lemma StepCore(d: Driver, e: Event, x: nat)
    requires Wf(d) && Possible(d, e) && x < |d.units|
    ensures CoreStep(d, e, x, CoreOf(Step(d, e).units[x])) && GlobalStep(d, e, Step(d, e))
  {
    match e
    case EvInit(_, _) => InitCore(d, e, x);
    case EvDeInit => DeInitCore(d, x);
    case EvChangeBaudrate(_, _, _) => BaudrateCore(d, e, x);
    case EvSetMode(_, _, _) => SetModeCore(d, e, x);
    case EvWrite(_, _) => WriteCore(d, e, x);
    case EvErrIsr(_, _, _) => ErrIsrCore(d, e, x);
    case EvMain => MainCore(d, x);
    case _ =>
  }

  /** Nothing but an accepted initialisation and a shut-down touches the globals. */
  lemma StepGlobals(d: Driver, e: Event, x: nat)
    requires Wf(d) && Possible(d, e) && x < |d.units| && !e.EvDeInit? && (e.EvInit? ==> !InitAccepted(d, e.cfg))
    ensures SameGlobals(d, Step(d, e))
  {
    hide ChangeBaudrate, SetMode, Write, ErrIsr, MainFrom, Indications, Confirmations, HwRoute, Indicated;
    match e
    case EvChangeBaudrate(c, rate, ok) => ChangeBaudrateEffect(d, c, rate, ok, x);
    case EvSetMode(c, t, ok) => SetModeEffect(d, c, t, ok, x);
    case EvWrite(hth, pdu) => WriteEffect(d, hth, pdu, x);
    case EvErrIsr(c, wake, busOff) => ErrIsrEffect(d, c, wake, busOff, x);
    case EvMain =>
      if d.Ready() {
        MainFromEffect(d, 0, x);
      }
    case _ =>
  }

  // -------------------------------------------------- one step, its callbacks

  lemma {:induction false} ConfirmationsKind(c: nat, p: Tx.Port, m: nat)
    requires p.Valid()
    ensures forall i :: 0 <= i < |Confirmations(c, p, m)| ==> Confirmations(c, p, m)[i].TxConfirmation?
    decreases Tx.MAILBOXES - m
  {
    if m < Tx.MAILBOXES {
      ConfirmationsKind(c, p, m + 1);
    }
  }

  /** Only the main function indicates modes: for each configured controller, the
    * pending transition if its mode has been reached. */
  lemma StepIndications(d: Driver, e: Event, x: nat)
    requires Wf(d) && Possible(d, e) && x < |d.units|
    ensures Indications(Step(d, e).calls, x) ==
            Indications(d.calls, x) +
            if e.EvMain? && d.Ready() && Configures(d.config.value, x) then Modes(Indication(d.units[x])) else []
  {
    hide Indications, Init, DeInit, ChangeBaudrate, SetMode, Write, ErrIsr, TxIsr, RxIsr, MainFunctionMode;
    match e
    case EvInit(cfg, oks) => InitCalls(d, cfg, oks, x);
    case EvDeInit => DeInitCalls(d, x);
    case EvChangeBaudrate(c, rate, ok) => ChangeBaudrateEffect(d, c, rate, ok, x);
    case EvSetMode(c, t, ok) => SetModeEffect(d, c, t, ok, x);
    case EvWrite(hth, pdu) => WriteEffect(d, hth, pdu, x);
    case EvErrIsr(c, wake, busOff) =>
      ErrIsrEffect(d, c, wake, busOff, x);
      IndicationsSnoc(d.calls, BusOff(c), x);
      assert d.calls + [] == d.calls;
    case EvMain => MainCalls(d, x);
    case EvTxIsr(c) => TxIsrIndications(d, c, x);
    case EvRxIsr(c, fifo) => RxIsrIndications(d, c, fifo, x);
    case _ =>
  }

  lemma TxIsrIndications(d: Driver, c: nat, x: nat)
    requires Wf(d) && d.Ready() && c < |d.units|
    ensures Indications(TxIsr(d, c).calls, x) == Indications(d.calls, x)
  {
    ConfirmationsKind(c, d.units[c].port, 0);
    IndicationsOther(d.calls, Confirmations(c, d.units[c].port, 0), x);
  }

  lemma RxIsrIndications(d: Driver, c: nat, fifo: nat, x: nat)
    requires Wf(d) && Possible(d, EvRxIsr(c, fifo))
    ensures Indications(RxIsr(d, c, fifo).calls, x) == Indications(d.calls, x)
  {
    var objects := Indicated(ConfigOf(d, c).objects, fifo, 0);
    IndicationsOther(d.calls, RxCalls(c, fifo, objects, d.units[c].fifos[fifo][0]), x);
  }

  lemma InitCalls(d: Driver, cfg: Option<seq<Controller>>, oks: seq<bool>, x: nat)
    requires Wf(d) && Possible(d, EvInit(cfg, oks)) && x < |d.units|
    ensures Init(d, cfg, oks).calls == d.calls
  {
    hide InitFrom;
    if InitAccepted(d, cfg) {
      InitFromEffect(d.(config := cfg), 0, oks, x);
    }
  }

  lemma DeInitCalls(d: Driver, x: nat)
    requires Wf(d) && x < |d.units|
    ensures DeInit(d).calls == d.calls
  {
    hide DeInitFrom;
    if d.Ready() {
      DeInitFromEffect(d, 0, x);
    }
  }

  lemma MainCalls(d: Driver, x: nat)
    requires Wf(d) && x < |d.units|
    ensures Indications(MainFunctionMode(d).calls, x) ==
            Indications(d.calls, x) +
            if d.Ready() && Configures(d.config.value, x) then Modes(Indication(d.units[x])) else []
  {
    hide MainFrom, Indications;
    if d.Ready() {
      MainFromEffect(d, 0, x);
    }
  }
}
