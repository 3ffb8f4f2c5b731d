/** When each call of the CAN driver is accepted, and what it then leaves behind, said of
  * the state and the arguments alone. */
module CanAnswers {
  import opened Basics
  import opened CanConfig
  import opened CanFilter
  import opened CanTiming
  import opened CanSpec
  import opened CanReceive
  import opened CanEffects
  import opened CanRuns
  import opened CanStartup
  import CanIndex
  import Tx = CanTx

  // ------------------------------------------------------------ initialisation

  /** An initialisation is accepted exactly if the driver is not ready and every list of the
    * configuration passes the object-count check; otherwise nothing changes. */
  lemma InitAnswersIff(d: Driver, cfg: Option<seq<Controller>>, hwOk: seq<bool>)
    requires Wf(d) && !d.Ready() && Possible(d, EvInit(cfg, hwOk))
    ensures Init(d, cfg, hwOk).Ready() <==>
            cfg.Some? && forall k :: 0 <= k < |cfg.value| ==>
              && CountBeforeEnd(cfg.value[k].objects, Receive) % 256 <= 2
              && CountBeforeEnd(cfg.value[k].objects, Transmit) % 256 <= 1
    ensures !Init(d, cfg, hwOk).Ready() ==> Init(d, cfg, hwOk) == d
    ensures Init(d, cfg, hwOk).Ready() ==> Init(d, cfg, hwOk).config == cfg
  {
    hide InitFrom;
    if cfg.Some? {
      assert forall k :: 0 <= k < |cfg.value| ==>
        (PassesCheck(cfg.value[k].objects) <==>
          && CountBeforeEnd(cfg.value[k].objects, Receive) % 256 <= 2
          && CountBeforeEnd(cfg.value[k].objects, Transmit) % 256 <= 1);
    }
  }

  /** While the driver is ready, nothing is initialised. */
  lemma InitTwice(d: Driver, cfg: Option<seq<Controller>>, hwOk: seq<bool>)
    requires Wf(d) && d.Ready() && Possible(d, EvInit(cfg, hwOk))
    ensures Init(d, cfg, hwOk) == d
  {
  }

  /** What the loop of `Can_Init` leaves of the controller it is at: STOPPED, unlocked,
    * counted from zero, and with exactly the sources enabled that the configuration has
    * processed by interrupt; unless its default rate is refused, when they are added to
    * those enabled before. Of other controllers only the banks may change. */
  lemma InitOneLeaves(d: Driver, k: nat, hwOk: bool)
    requires Wf(d) && d.Ready() && k < d.configCnt
    ensures var ctl, r := d.config.value[k], InitOne(d, k, hwOk);
            var c, u := ctl.id, d.units[ctl.id];
            var e := if DefaultOffered(ctl) then Enables(false, false, false, false, false, false) else u.enables;
            && r.channelMap == d.channelMap[c := k] && r.configured == d.configured + {c} && r.calls == d.calls
            && (forall x :: 0 <= x < |d.units| && x != c ==> r.units[x] == d.units[x].(banks := r.units[x].banks))
            && r.units[c] == u.(mode := Stopped, lockCnt := 0, stats := Stats(0, 0, 0),
                 port := r.units[c].port, fifos := r.units[c].fifos, timing := r.units[c].timing,
                 banks := r.units[c].banks,
                 enables := Enables(e.tme || ctl.txIrq, e.fmp0 || ctl.rxIrq, e.fmp1 || ctl.rxIrq,
                                    e.bof || ctl.busOffIrq, e.err || ctl.busOffIrq, e.wku || ctl.busOffIrq))
            && (!DefaultOffered(ctl) ==>
                  r.units[c] ==
                  u.(mode := Stopped, lockCnt := 0, stats := Stats(0, 0, 0), enables := r.units[c].enables))
  {
    hide MapObjects, ChangeBaudrate, Enable, FilterSetup;
    var ctl := d.config.value[k];
    var c := ctl.id;
    var d1 := SetUnit(d.(channelMap := d.channelMap[c := k], configured := d.configured + {c}),
                      c, FreshUnit(d.units[c]));
    ChangeAnswersIff(d1, c, ctl.defaultRate, hwOk);
    if Admitted(d1, c, ctl.defaultRate) {
      ChangeLeaves(d1, c, ctl.defaultRate, hwOk);
    }
    EnableUnmasks(ChangeBaudrate(d1, c, ctl.defaultRate, hwOk).0, c);
  }

  lemma DeInitOneLeaves(d: Driver, k: nat)
    requires Wf(d) && d.Ready() && k < d.configCnt
    ensures var c := d.config.value[k].id;
            var u, r := d.units[c], DeInitOne(d, k);
            && r == d.(units := d.units[c := r.units[c]])
            && r.units[c] == u.(mode := Uninit, lockCnt := 0, stats := Stats(0, 0, 0),
                 enables := if u.lockCnt > 0 then u.enables
                            else Enables(false, false, u.enables.fmp1, false, false, false))
  {
  }

  lemma {:induction false} DeInitFromLeaves(d: Driver, k: nat, x: nat)
    requires Wf(d) && d.Ready() && k <= d.configCnt && x < |d.units| && MaskedWhileLocked(d.units[x])
    ensures var u, r := d.units[x], DeInitFrom(d, k);
            && r == d.(units := r.units)
            && r.units[x] == if ConfiguresFrom(d.config.value, k, x)
                             then u.(mode := Uninit, lockCnt := 0, stats := Stats(0, 0, 0),
                                     enables := Enables(false, false, u.enables.fmp1, false, false, false))
                             else u
    decreases d.configCnt - k
  {
    hide DeInitOne;
    if k < d.configCnt {
      DeInitOneLeaves(d, k);
      DeInitFromLeaves(DeInitOne(d, k), k + 1, x);
    }
  }

  /** A shut-down leaves every configured controller UNINIT and unlocked, with its counters
    * at zero and all interrupts masked but that of FIFO 1, and changes nothing else; without
    * a configuration it changes nothing at all. */
  lemma DeInitLeaves(d: Driver, x: nat)
    requires Wf(d) && x < |d.units| && MaskedWhileLocked(d.units[x])
    ensures var u, r := d.units[x], DeInit(d);
            && r == d.(config := None, units := r.units)
            && r.units[x] == if d.Ready() && Configures(d.config.value, x)
                             then u.(mode := Uninit, lockCnt := 0, stats := Stats(0, 0, 0),
                                     enables := Enables(false, false, u.enables.fmp1, false, false, false))
                             else u
  {
    hide DeInitFrom;
    if d.Ready() {
      DeInitFromLeaves(d, 0, x);
    }
  }

  // ---------------------------------------------------------------- baud rate

  /** A rate can be asked for. */
  predicate Offered(d: Driver, c: nat, rate: nat)
    requires Wf(d) && d.Ready() && c < |d.units|
  {
    var rates := ConfigOf(d, c).rates;
    c in d.configured && rate <= 1000 && exists i :: 0 <= i < |rates| && rates[i].rate == rate
  }

  /** A baud-rate change succeeds exactly if the driver is ready, the controller exists, is
    * configured and STOPPED, the rate is in its table and at most 1000, and the hardware
    * follows. Refused by the checks, it changes nothing. */
  lemma ChangeAnswersIff(d: Driver, c: nat, rate: nat, hwOk: bool)
    requires Wf(d)
    ensures var allowed := d.Ready() && c < |d.units| && Offered(d, c, rate) && d.units[c].mode.Stopped?;
            && (ChangeBaudrate(d, c, rate, hwOk).1 <==> allowed && hwOk)
            && (!allowed ==> ChangeBaudrate(d, c, rate, hwOk).0 == d)
            && (allowed <==> Admitted(d, c, rate))
  {
  }

  /** Past its checks the change has reset the controller, whether or not the hardware then
    * follows: no enable, no waiting frame, empty mailboxes with their handles, its own
    * banks written over the window from its start. Of all other controllers only the banks
    * may change. */
  lemma ChangeLeaves(d: Driver, c: nat, rate: nat, hwOk: bool)
    requires Wf(d) && Admitted(d, c, rate)
    ensures var r, u := ChangeBaudrate(d, c, rate, hwOk).0, d.units[c];
            var setup, before := FilterSetup(ConfigOf(d, c).objects, 0), if c == 0 then [] else u.banks;
            && r == d.(units := r.units)
            && (forall x :: 0 <= x < |d.units| && x != c ==> r.units[x] == d.units[x].(banks := r.units[x].banks))
            && r.units[c] == u.(enables := Enables(false, false, false, false, false, false),
                 port := r.units[c].port, fifos := [[], []], timing := r.units[c].timing, banks := r.units[c].banks)
            && r.units[c].port.handles == u.port.handles && |r.units[c].port.boxes| == 3
            && (forall m :: 0 <= m < 3 ==> r.units[c].port.boxes[m] == Tx.Mailbox(true, false, false))
            && (hwOk <==> r.units[c].timing.Some?)
            && setup <= r.units[c].banks && |r.units[c].banks| >= |before|
            && (forall b :: |setup| <= b < |r.units[c].banks| ==> b < |before| && r.units[c].banks[b] == before[b])
  {
    hide FilterSetup, Program;
    if hwOk {
      ChangeTiming(d, c, rate, hwOk);
    }
  }

  // ------------------------------------------------------------ mode requests

  /** When a mode request is accepted: a start only of a STOPPED controller whose default
    * rate is offered and whose hardware follows, a wake-up of a sleeping or STOPPED one, a
    * sleep of a STOPPED one, a stop always; an unknown request counts as done on a STOPPED
    * one. */
  lemma RequestAnswersIff(d: Driver, c: nat, t: Transition, hwOk: bool)
    requires Wf(d)
    ensures SetMode(d, c, t, hwOk).1 <==>
            && d.Ready() && c < |d.units|
            && var mode := d.units[c].mode;
               match t
               case ToStart => mode == Stopped && Offered(d, c, ConfigOf(d, c).defaultRate) && hwOk
               case ToWakeup => mode == Sleeping || mode == Stopped
               case ToSleep => mode == Stopped
               case ToStop => true
               case Unknown => mode == Stopped
  {
    hide Enable;
    if c < |d.units| && d.Ready() {
      ChangeAnswersIff(SetUnit(d, c, d.units[c].(pending := Nothing)), c, ConfigOf(d, c).defaultRate, hwOk);
    }
  }

  /** A request other than a start changes mode and pending indication of one controller and
    * nothing else; refused, it withdraws the pending indication. */
  lemma RequestLeaves(d: Driver, c: nat, t: Transition, hwOk: bool)
    requires Wf(d) && d.Ready() && c < |d.units|
    ensures var (r, ok) := SetMode(d, c, t, hwOk);
            var u, v := d.units[c], r.units[c];
            && (!t.ToStart? || !u.mode.Stopped? ==>
                  r == d.(units := d.units[c := v]) && v == u.(mode := v.mode, pending := v.pending))
            && (!t.ToStart? || !ok ==>
                  (v.mode, v.pending) ==
                  if !ok || t.Unknown? then (u.mode, Nothing)
                  else if t.ToSleep? then (Sleeping, PendingSleep) else (Stopped, PendingStop))
            && (t.ToStart? && ok ==> (v.mode, v.pending) == (Started, PendingStart))
  {
    hide ChangeBaudrate, Enable;
    if t.ToStart? && d.units[c].mode.Stopped? {
      var d0 := SetUnit(d, c, d.units[c].(pending := Nothing));
      StartEffect(d0, c, hwOk, c);
    }
  }

  // ----------------------------------------------------------------- reception

  /** The receive interrupt takes the oldest frame of its FIFO and tells it to each receive
    * object that the FIFO serves, in list order, by that object's own number; it changes
    * nothing else but the counter. */
  lemma InterruptIndicates(d: Driver, c: nat, fifo: nat)
    requires Wf(d) && Possible(d, EvRxIsr(c, fifo))
    ensures var u, r := d.units[c], RxIsr(d, c, fifo);
            var f, objects := u.fifos[fifo][0], Indicated(ConfigOf(d, c).objects, fifo, 0);
            && |r.calls| == |d.calls| + |objects| && d.calls <= r.calls
            && (forall i :: 0 <= i < |objects| ==>
                  r.calls[|d.calls| + i] == RxIndication(c, fifo, objects[i].id, IndicatedId(IdRegister(f)), f.data))
            && r.units == d.units[c := u.(fifos := u.fifos[fifo := u.fifos[fifo][1..]],
                 stats := u.stats.(rx := (u.stats.rx + |objects|) % 0x1_0000_0000))]
            && r == d.(units := r.units, calls := r.calls)
  {
    hide Indicated, IndicatedId, IdRegister;
  }

  // -------------------------------------------------------------------- writes

  /** The driver, the data and the handle are such that a write gets as far as the
    * mailboxes. */
  predicate Writable(d: Driver, hth: nat, pdu: Option<Pdu>)
    requires Wf(d) && WriteDefined(d, hth, pdu)
  {
    && d.Ready() && pdu.Some? && pdu.value.sdu.Some? && pdu.value.length <= 8
    && hth < |d.hthMap| && d.hthMap[hth].value.hoh.kind.Transmit?
  }

  /** A write is accepted exactly if the driver is ready, data of at most eight bytes is
    * given, the handle is that of a transmit object, and some mailbox of its controller is
    * empty; it is answered busy exactly if only the mailbox is missing. Not accepted, it
    * changes nothing. */
  lemma WriteAnswersIff(d: Driver, hth: nat, pdu: Option<Pdu>)
    requires Wf(d) && WriteDefined(d, hth, pdu)
    ensures var (r, rv) := Write(d, hth, pdu);
            && (rv == Ok <==>
                  Writable(d, hth, pdu) &&
                  exists m :: 0 <= m < 3 && d.units[d.hthMap[hth].value.controller].port.boxes[m].empty)
            && (rv == Busy <==>
                  Writable(d, hth, pdu) &&
                  forall m :: 0 <= m < 3 ==> !d.units[d.hthMap[hth].value.controller].port.boxes[m].empty)
            && (rv != Ok ==> r == d)
  {
    hide Image, Tx.Load;
  }

  /** With a right index that is: if the handle is configured. */
  lemma ConfiguredHandleWrites(d: Driver, hth: nat, pdu: Pdu)
    requires Wf(d) && d.Ready() && hth < |d.hthMap| && WriteDefined(d, hth, Some(pdu)) && CanIndex.Indexed(d)
    requires CanIndex.Search(d.config.value, hth).Some? && pdu.sdu.Some?
    ensures var c := CanIndex.Search(d.config.value, hth).value.controller;
            && c < |d.units|
            && Write(d, hth, Some(pdu)).1 ==
               if pdu.length > 8 then NotOk
               else if exists m :: 0 <= m < 3 && d.units[c].port.boxes[m].empty then Ok else Busy
  {
    hide Write;
    CanIndex.FindHohIsSearch(d, hth);
    CanIndex.SearchFindsTransmit(d.config.value, hth);
    WriteAnswersIff(d, hth, Some(pdu));
  }
}
