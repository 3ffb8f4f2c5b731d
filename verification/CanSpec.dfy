/** The CAN driver as a state machine: every API function and interrupt of `Can.c`
  * is one atomic step on an explicit state. Development error detection is on. */
module CanSpec {
  import opened Basics
  import opened CanConfig
  import opened CanFilter
  import opened CanBtr
  import opened CanTiming
  import Tx = CanTx

  datatype Mode = Uninit | Started | Stopped | Sleeping

  datatype Pending = Nothing | PendingStart | PendingStop | PendingSleep

  datatype Transition = ToStart | ToStop | ToSleep | ToWakeup | Unknown

  /** The interrupt enable bits of CAN_IER that the driver touches. */
  datatype Enables = Enables(tme: bool, fmp0: bool, fmp1: bool, bof: bool, err: bool, wku: bool)

  const ALL_OFF := Enables(false, false, false, false, false, false)

  /** `Can_Arc_StatisticsType`, the counters this driver advances; all `uint32`. */
  datatype Stats = Stats(tx: nat, rx: nat, busOff: nat)

  /** What a transmit mailbox holds: its identifier register and its payload. */
  datatype Message = Message(tir: bv32, data: seq<Byte>)

  /** `Can_UnitType` together with the controller's own hardware. */
  datatype Unit = Unit(
    mode: Mode, lockCnt: nat, stats: Stats, pending: Pending,
    enables: Enables, port: Tx.Port, outbox: seq<Message>, fifos: seq<seq<Frame>>,
    banks: seq<Bank>, timing: Option<BitTiming>)

  const NO_FRAMES: seq<seq<Frame>> := [[], []]

  /** Frames a receive FIFO holds. */
  const FIFO_DEPTH: nat := 3

  datatype HthEntry = HthEntry(controller: nat, hoh: HwObject)

  /** Calls into the CAN interface layer, in order. The mailbox and the FIFO they come
    * from are noted here but not passed on. */
  datatype Callback =
    | ModeIndication(controller: nat, mode: Mode)
    | BusOff(controller: nat)
    | TxConfirmation(controller: nat, box: nat, handle: nat)
    | RxIndication(controller: nat, fifo: nat, objectId: nat, canId: bv32, data: seq<Byte>)

  /** `Can_Global`, `CanUnit[]` and the callbacks made so far. `initRun` is READY
    * exactly while `config` is set. `configCnt` is CAN_ARC_CTRL_CONFIG_CNT. */
  datatype Driver = Driver(
    config: Option<seq<Controller>>, configured: set<nat>, channelMap: seq<nat>,
    hthMap: seq<Option<HthEntry>>, units: seq<Unit>, calls: seq<Callback>,
    configCnt: nat, systemClock: nat)
  {
    predicate Ready() { config.Some? }
  }

  predicate ConfigOk(cfg: seq<Controller>, configCnt: nat, unitCnt: nat, hthCnt: nat) {
    |cfg| == configCnt && forall k :: 0 <= k < |cfg| ==> Usable(cfg[k], unitCnt, hthCnt)
  }

  predicate UnitOk(u: Unit) {
    u.port.Valid() && |u.outbox| == Tx.MAILBOXES && |u.fifos| == 2 && u.lockCnt < TWO32
  }

  predicate Wf(d: Driver) {
    && 0 < d.configCnt
    && |d.channelMap| == |d.units|
    && (forall c :: 0 <= c < |d.channelMap| ==> d.channelMap[c] < d.configCnt)
    && (forall c :: 0 <= c < |d.units| ==> UnitOk(d.units[c]))
    && (forall c :: c in d.configured ==> c < |d.units|)
    && (forall h :: 0 <= h < |d.hthMap| && d.hthMap[h].Some? ==> d.hthMap[h].value.controller < |d.units|)
    && (d.Ready() ==> ConfigOk(d.config.value, d.configCnt, |d.units|, |d.hthMap|))
  }

  /** What no step ever changes. */
  predicate SameShape(d: Driver, e: Driver) {
    && |d.units| == |e.units| && |d.hthMap| == |e.hthMap|
    && d.configCnt == e.configCnt && d.systemClock == e.systemClock
  }

  /** Power-on: statically initialised data, hardware in reset. */
  predicate PowerOn(d: Driver) {
    && Wf(d) && !d.Ready() && d.configured == {} && d.calls == []
    && forall c :: 0 <= c < |d.units| ==>
         var u := d.units[c];
         && u.mode == Uninit && u.lockCnt == 0 && u.pending == Nothing
         && u.enables == ALL_OFF && u.port == Tx.ResetPort(u.port) && u.fifos == NO_FRAMES
         && u.banks == []
  }

  function ConfigOf(d: Driver, c: nat): Controller
    requires Wf(d) && d.Ready() && c < |d.units|
  {
    d.config.value[d.channelMap[c]]
  }

  function SetUnit(d: Driver, c: nat, u: Unit): (r: Driver)
    requires Wf(d) && c < |d.units| && UnitOk(u)
    ensures Wf(r) && SameShape(d, r)
  {
    d.(units := d.units[c := u])
  }

  // ------------------------------------------------------- interrupt lock

  function Masked(e: Enables): Enables {
    e.(tme := false, fmp0 := false, bof := false, err := false, wku := false)
  }

  function Unmasked(e: Enables, ctl: Controller): Enables {
    Enables(e.tme || ctl.txIrq, e.fmp0 || ctl.rxIrq, e.fmp1 || ctl.rxIrq,
            e.bof || ctl.busOffIrq, e.err || ctl.busOffIrq, e.wku || ctl.busOffIrq)
  }

  function DisableUnit(u: Unit): Unit {
    if u.lockCnt > 0 then u.(lockCnt := (u.lockCnt + 1) % TWO32)
    else u.(lockCnt := 1, enables := Masked(u.enables))
  }

  function EnableUnit(u: Unit, ctl: Controller): Unit {
    if u.lockCnt > 1 then u.(lockCnt := u.lockCnt - 1)
    else u.(lockCnt := 0, enables := Unmasked(u.enables, ctl))
  }

  function Disable(d: Driver, c: nat): (r: Driver)
    requires Wf(d)
    ensures Wf(r) && SameShape(d, r)
  {
    if c >= |d.units| || !d.Ready() then d else SetUnit(d, c, DisableUnit(d.units[c]))
  }

  function Enable(d: Driver, c: nat): (r: Driver)
    requires Wf(d)
    ensures Wf(r) && SameShape(d, r)
  {
    if !d.Ready() || c >= |d.units| then d else SetUnit(d, c, EnableUnit(d.units[c], ConfigOf(d, c)))
  }

  // ------------------------------------------------------------ baud rate

  predicate Offers(rates: seq<Baudrate>, rate: nat) {
    exists i :: 0 <= i < |rates| && rates[i].rate == rate
  }

  predicate CheckBaudrate(d: Driver, c: nat, rate: nat)
    requires Wf(d)
  {
    d.Ready() && c in d.configured && rate <= 1000 && Offers(ConfigOf(d, c).rates, rate)
  }

  /** `CAN_DeInit`: the controller's registers return to reset. The filter banks all
    * reside in the first controller, so resetting it empties everybody's. */
  function ResetUnits(units: seq<Unit>, c: nat): (r: seq<Unit>)
    ensures |r| == |units|
  {
    seq(|units|, i requires 0 <= i < |units| =>
      var u := if c == 0 then units[i].(banks := []) else units[i];
      if i == c then u.(enables := ALL_OFF, port := Tx.ResetPort(u.port), fifos := NO_FRAMES, timing := None) else u)
  }

  /** New banks overwrite the controller's window from its start. */
  function Overlay(written: seq<Bank>, before: seq<Bank>): seq<Bank> {
    if |written| < |before| then written + before[|written|..] else written
  }

  /** `hwOk`: both acknowledge waits inside `CAN_Init` succeed. */
  function ChangeBaudrate(d: Driver, c: nat, rate: nat, hwOk: bool): (r: (Driver, bool))
    requires Wf(d)
    ensures Wf(r.0) && SameShape(d, r.0)
  {
    if !d.Ready() || c >= |d.units| || !CheckBaudrate(d, c, rate) || !d.units[c].mode.Stopped? then (d, false)
    else
      var ctl := ConfigOf(d, c);
      var units := ResetUnits(d.units, c);
      var u := units[c].(banks := Overlay(FilterSetup(ctl.objects, 0), units[c].banks));
      if !hwOk then (d.(units := units[c := u]), false)
      else (d.(units := units[c := u.(timing := Some(Program(ctl.rates[0], d.systemClock)))]), true)
  }

  // ----------------------------------------------------- controller modes

  /** CAN_T_START on a stopped controller. */
  function Start(d: Driver, c: nat, hwOk: bool): (r: (Driver, bool))
    requires Wf(d) && d.Ready() && c < |d.units|
    ensures Wf(r.0) && SameShape(d, r.0)
  {
    var (d1, ok) := ChangeBaudrate(d, c, ConfigOf(d, c).defaultRate, hwOk);
    if !ok then (d1, false)
    else
      var d2 := SetUnit(d1, c, d1.units[c].(mode := Started));
      var d3 := if d2.units[c].lockCnt == 0 then Enable(d2, c) else d2;
      (SetUnit(d3, c, d3.units[c].(pending := PendingStart)), true)
  }

  function SetMode(d: Driver, c: nat, t: Transition, hwOk: bool): (r: (Driver, bool))
    requires Wf(d)
    ensures Wf(r.0) && SameShape(d, r.0)
  {
    if c >= |d.units| || !d.Ready() then (d, false)
    else
      var u := d.units[c].(pending := Nothing);
      var d0 := SetUnit(d, c, u);
      match t
      case ToStart =>
        if u.mode.Stopped? then Start(d0, c, hwOk) else (d0, false)
      case ToWakeup =>
        if u.mode.Sleeping? || u.mode.Stopped?
        then (SetUnit(d0, c, u.(mode := Stopped, pending := PendingStop)), true)
        else (d0, false)
      case ToSleep =>
        if u.mode.Stopped? then (SetUnit(d0, c, u.(mode := Sleeping, pending := PendingSleep)), true)
        else (d0, false)
      case ToStop => (SetUnit(d0, c, u.(mode := Stopped, pending := PendingStop)), true)
      case Unknown => (d0, u.mode.Stopped?)
  }

  /** The mode an accepted transition leads to, and its pending indication. */
  function Target(t: Transition): (Mode, Pending)
    requires !t.Unknown?
  {
    match t
    case ToStart => (Started, PendingStart)
    case ToSleep => (Sleeping, PendingSleep)
    case _ => (Stopped, PendingStop)
  }

  function ErrIsr(d: Driver, c: nat, wake: bool, busOff: bool): (r: Driver)
    requires Wf(d) && c < |d.units|
    ensures Wf(r) && SameShape(d, r)
  {
    var d1 := if d.units[c].enables.wku && wake then SetMode(d, c, ToStop, true).0 else d;
    if d1.units[c].enables.bof && busOff then
      var u := d1.units[c];
      var d2 := SetUnit(d1, c, u.(stats := u.stats.(busOff := (u.stats.busOff + 1) % TWO32)));
      SetMode(d2.(calls := d2.calls + [BusOff(c)]), c, ToStop, true).0
    else d1
  }

  /** The mode to indicate, if the pending transition has been reached. */
  function Indication(u: Unit): Option<Mode> {
    match u.pending
    case PendingStart => if u.mode.Started? then Some(Started) else None
    case PendingStop => if u.mode.Stopped? then Some(Stopped) else None
    case PendingSleep => if u.mode.Sleeping? then Some(Sleeping) else None
    case Nothing => None
  }

  function MainOne(d: Driver, c: nat): (r: Driver)
    requires Wf(d) && c < |d.units|
    ensures Wf(r) && SameShape(d, r) && r.config == d.config
  {
    var u := d.units[c];
    var d1 := SetUnit(d, c, u.(pending := Nothing));
    match Indication(u)
    case Some(mode) => d1.(calls := d1.calls + [ModeIndication(c, mode)])
    case None => d1
  }

  function MainFrom(d: Driver, k: nat): (r: Driver)
    requires Wf(d) && d.Ready() && k <= d.configCnt
    ensures Wf(r) && SameShape(d, r)
    decreases d.configCnt - k
  {
    if k == d.configCnt then d else MainFrom(MainOne(d, d.config.value[k].id), k + 1)
  }

  function MainFunctionMode(d: Driver): (r: Driver)
    requires Wf(d)
    ensures Wf(r) && SameShape(d, r)
  {
    if d.Ready() then MainFrom(d, 0) else d
  }

  // --------------------------------------------------- start-up, shut-down

  function MapObjects(m: seq<Option<HthEntry>>, c: nat, objects: seq<HwObject>): (r: seq<Option<HthEntry>>)
    requires forall i :: 0 <= i < |objects| && objects[i].kind.Transmit? ==> objects[i].id < |m|
    ensures |r| == |m|
    ensures forall h :: 0 <= h < |r| && r[h].Some? ==> r[h] == m[h] || r[h].value.controller == c
    decreases |objects|
  {
    if objects == [] then m
    else if objects[0].kind.Transmit? then
      MapObjects(m[objects[0].id := Some(HthEntry(c, objects[0]))], c, objects[1..])
    else MapObjects(m, c, objects[1..])
  }

  function FreshUnit(u: Unit): Unit {
    u.(mode := Stopped, lockCnt := 0, stats := Stats(0, 0, 0))
  }

  /** What `Can_Init` does for the k-th configured controller. */
  function InitOne(d: Driver, k: nat, hwOk: bool): (r: Driver)
    requires Wf(d) && d.Ready() && k < d.configCnt
    ensures Wf(r) && SameShape(d, r) && r.config == d.config
  {
    var ctl := d.config.value[k];
    var c := ctl.id;
    var d1 := SetUnit(d.(channelMap := d.channelMap[c := k], configured := d.configured + {c}),
                      c, FreshUnit(d.units[c]));
    var d2 := Enable(ChangeBaudrate(d1, c, ctl.defaultRate, hwOk).0, c);
    d2.(hthMap := MapObjects(d2.hthMap, c, ctl.objects))
  }

  function InitFrom(d: Driver, k: nat, hwOk: seq<bool>): (r: Driver)
    requires Wf(d) && d.Ready() && k <= d.configCnt == |hwOk|
    ensures Wf(r) && SameShape(d, r) && r.config == d.config
    decreases d.configCnt - k
  {
    if k == d.configCnt then d else InitFrom(InitOne(d, k, hwOk[k]), k + 1, hwOk)
  }

  lemma InitFromUnfold(d: Driver, e: Driver, k: nat, hwOk: seq<bool>)
    requires Wf(d) && d.Ready() && k < d.configCnt == |hwOk|
    requires e == InitOne(d, k, hwOk[k])
    ensures Wf(e) && e.Ready() && e.configCnt == d.configCnt
    ensures InitFrom(d, k, hwOk) == InitFrom(e, k + 1, hwOk)
  {
  }

  predicate AllPassCheck(cfg: seq<Controller>) {
    forall k :: 0 <= k < |cfg| ==> PassesCheck(cfg[k].objects)
  }

  /** `Can_Init` gets past its parameter checks. */
  predicate InitAccepted(d: Driver, cfg: Option<seq<Controller>>) {
    !d.Ready() && cfg.Some? && AllPassCheck(cfg.value)
  }

  function Init(d: Driver, cfg: Option<seq<Controller>>, hwOk: seq<bool>): (r: Driver)
    requires Wf(d) && |hwOk| == d.configCnt
    requires cfg.Some? ==> ConfigOk(cfg.value, d.configCnt, |d.units|, |d.hthMap|)
    ensures Wf(r) && SameShape(d, r)
  {
    if InitAccepted(d, cfg) then InitFrom(d.(config := cfg), 0, hwOk) else d
  }

  function DeInitOne(d: Driver, k: nat): (r: Driver)
    requires Wf(d) && d.Ready() && k < d.configCnt
    ensures Wf(r) && SameShape(d, r) && r.config == d.config
  {
    var c := d.config.value[k].id;
    var d1 := Disable(SetUnit(d, c, d.units[c].(mode := Uninit)), c);
    SetUnit(d1, c, d1.units[c].(lockCnt := 0, stats := Stats(0, 0, 0)))
  }

  function DeInitFrom(d: Driver, k: nat): (r: Driver)
    requires Wf(d) && d.Ready() && k <= d.configCnt
    ensures Wf(r) && SameShape(d, r)
    decreases d.configCnt - k
  {
    if k == d.configCnt then d else DeInitFrom(DeInitOne(d, k), k + 1)
  }

  function DeInit(d: Driver): (r: Driver)
    requires Wf(d)
    ensures Wf(r) && SameShape(d, r)
  {
    if d.Ready() then DeInitFrom(d, 0).(config := None) else d
  }

  // ------------------------------------------------------------- transfer

  /** `Can_PduType`; a null `sdu` pointer is `None`. */
  datatype Pdu = Pdu(id: bv32, length: nat, sdu: Option<seq<Byte>>, handle: nat)

  datatype ReturnType = Ok | NotOk | Busy

  /** The index entry of a handle has been written, and the data is as long as the
    * length says: what `Can_Write` dereferences. */
  predicate WriteDefined(d: Driver, hth: nat, pdu: Option<Pdu>) {
    && (d.Ready() && hth < |d.hthMap| ==> d.hthMap[hth].Some?)
    && (pdu.Some? && pdu.value.sdu.Some? && pdu.value.length <= 8 ==> pdu.value.length <= |pdu.value.sdu.value|)
  }

  /** `Can_FindHoh`. */
  function FindHoh(d: Driver, hth: nat): Option<HthEntry>
    requires hth < |d.hthMap| && d.hthMap[hth].Some?
  {
    if d.hthMap[hth].value.hoh.kind.Transmit? then d.hthMap[hth] else None
  }

  predicate SendsExtended(o: HwObject, id: bv32) {
    o.idType.Extended? || (o.idType.Mixed? && id > 0x7FF)
  }

  function Write(d: Driver, hth: nat, pdu: Option<Pdu>): (r: (Driver, ReturnType))
    requires Wf(d) && WriteDefined(d, hth, pdu)
    ensures Wf(r.0) && SameShape(d, r.0)
  {
    if !d.Ready() || pdu.None? || pdu.value.sdu.None? || pdu.value.length > 8 || hth >= |d.hthMap| then (d, NotOk)
    else
      match FindHoh(d, hth)
      case None => (d, NotOk)
      case Some(entry) =>
        var p, c := pdu.value, entry.controller;
        var u := d.units[c];
        var m := Tx.FreeBox(u.port.boxes, 0);
        if m == Tx.MAILBOXES then (d, Busy)
        else
          var msg := Message(Image(SendsExtended(entry.hoh, p.id), p.id, 0), p.sdu.value[..p.length]);
          (SetUnit(d, c, u.(port := Tx.Load(u.port, m, p.handle), outbox := u.outbox[m := msg],
                            stats := u.stats.(tx := (u.stats.tx + 1) % TWO32))), Ok)
  }

  predicate HasTransmitter(objects: seq<HwObject>) {
    exists i :: 0 <= i < |objects| && objects[i].kind.Transmit?
  }

  /** Confirmations from mailbox `m` on, in mailbox order. */
  function Confirmations(c: nat, p: Tx.Port, m: nat): seq<Callback>
    requires p.Valid()
    decreases Tx.MAILBOXES - m
  {
    if m >= Tx.MAILBOXES then []
    else (if p.boxes[m].StatusOk() then [TxConfirmation(c, m, p.handles[m])] else []) + Confirmations(c, p, m + 1)
  }

  function TxIsr(d: Driver, c: nat): (r: Driver)
    requires Wf(d) && d.Ready() && c < |d.units|
    ensures Wf(r) && SameShape(d, r)
  {
    if !HasTransmitter(ConfigOf(d, c).objects) then d
    else
      var u := d.units[c];
      SetUnit(d, c, u.(port := Tx.ClearCompleted(u.port))).(calls := d.calls + Confirmations(c, u.port, 0))
  }

  function RxCalls(c: nat, fifo: nat, objects: seq<HwObject>, f: Frame): seq<Callback> {
    seq(|objects|, i requires 0 <= i < |objects| =>
      RxIndication(c, fifo, objects[i].id, IndicatedId(IdRegister(f)), f.data))
  }

  /** Takes the frame at the head of the FIFO and releases its place. */
  function RxIsr(d: Driver, c: nat, fifo: nat): (r: Driver)
    requires Wf(d) && d.Ready() && c < |d.units| && fifo < 2 && d.units[c].fifos[fifo] != []
    ensures Wf(r) && SameShape(d, r)
  {
    var u := d.units[c];
    var waiting := u.fifos[fifo];
    var objects := Indicated(ConfigOf(d, c).objects, fifo, 0);
    var rx := (u.stats.rx + |objects|) % TWO32;
    SetUnit(d, c, u.(fifos := u.fifos[fifo := waiting[1..]], stats := u.stats.(rx := rx)))
      .(calls := d.calls + RxCalls(c, fifo, objects, waiting[0]))
  }

  /** The FIFO is not locked: when it is full, the newest frame in it is overwritten. */
  function Store(waiting: seq<Frame>, f: Frame): seq<Frame> {
    if |waiting| < FIFO_DEPTH then waiting + [f] else waiting[..|waiting| - 1] + [f]
  }

  /** A frame arrives on the controller's bus and goes where the filters send it. */
  function Arrive(d: Driver, c: nat, f: Frame): (r: Driver)
    requires Wf(d) && c < |d.units|
    ensures Wf(r) && SameShape(d, r)
  {
    var u, k := d.units[c], HwRoute(d.units[c].banks, f);
    if k.Some? && k.value < 2 then SetUnit(d, c, u.(fifos := u.fifos[k.value := Store(u.fifos[k.value], f)])) else d
  }

  /** The hardware finishes with a pending mailbox. */
  function Complete(d: Driver, c: nat, m: nat, ok: bool): (r: Driver)
    requires Wf(d) && c < |d.units| && m < Tx.MAILBOXES
    ensures Wf(r) && SameShape(d, r)
  {
    var u := d.units[c];
    if u.port.boxes[m].empty then d else SetUnit(d, c, u.(port := Tx.Settle(u.port, m, ok)))
  }

  // ----------------------------------------------------------------- runs

  datatype Event =
    | EvInit(cfg: Option<seq<Controller>>, hwOks: seq<bool>)
    | EvDeInit
    | EvChangeBaudrate(c: nat, rate: nat, hwOk: bool)
    | EvSetMode(c: nat, t: Transition, hwOk: bool)
    | EvDisable(c: nat)
    | EvEnable(c: nat)
    | EvWrite(hth: nat, pdu: Option<Pdu>)
    | EvRxIsr(c: nat, fifo: nat)
    | EvTxIsr(c: nat)
    | EvErrIsr(c: nat, wake: bool, busOff: bool)
    | EvMain
    | EvComplete(c: nat, m: nat, ok: bool)
    | EvArrive(c: nat, f: Frame)

  /** The event is one the C code defines a behaviour for. */
  predicate Possible(d: Driver, e: Event) {
    match e
    case EvInit(cfg, oks) =>
      |oks| == d.configCnt && (cfg.Some? ==> ConfigOk(cfg.value, d.configCnt, |d.units|, |d.hthMap|))
    case EvWrite(hth, pdu) => WriteDefined(d, hth, pdu)
    case EvRxIsr(c, fifo) =>
      d.Ready() && c < |d.units| && fifo < |d.units[c].fifos| && fifo < 2 && d.units[c].fifos[fifo] != []
    case EvTxIsr(c) => d.Ready() && c < |d.units|
    case EvErrIsr(c, _, _) => c < |d.units|
    case EvComplete(c, m, _) => c < |d.units| && m < Tx.MAILBOXES
    case EvArrive(c, f) => c < |d.units| && f.Valid()
    case _ => true
  }

  function Step(d: Driver, e: Event): (r: Driver)
    requires Wf(d) && Possible(d, e)
    ensures Wf(r) && SameShape(d, r)
  {
    match e
    case EvInit(cfg, oks) => Init(d, cfg, oks)
    case EvDeInit => DeInit(d)
    case EvChangeBaudrate(c, rate, ok) => ChangeBaudrate(d, c, rate, ok).0
    case EvSetMode(c, t, ok) => SetMode(d, c, t, ok).0
    case EvDisable(c) => Disable(d, c)
    case EvEnable(c) => Enable(d, c)
    case EvWrite(hth, pdu) => Write(d, hth, pdu).0
    case EvRxIsr(c, fifo) => RxIsr(d, c, fifo)
    case EvTxIsr(c) => TxIsr(d, c)
    case EvErrIsr(c, wake, busOff) => ErrIsr(d, c, wake, busOff)
    case EvMain => MainFunctionMode(d)
    case EvComplete(c, m, ok) => Complete(d, c, m, ok)
    case EvArrive(c, f) => Arrive(d, c, f)
  }

  predicate ValidRun(d: Driver, es: seq<Event>)
    requires Wf(d)
    decreases |es|
  {
    es == [] || (Possible(d, es[0]) && ValidRun(Step(d, es[0]), es[1..]))
  }

  function Run(d: Driver, es: seq<Event>): (r: Driver)
    requires Wf(d) && ValidRun(d, es)
    ensures Wf(r) && SameShape(d, r)
    decreases |es|
  {
    if es == [] then d else Run(Step(d, es[0]), es[1..])
  }
}
