/** The CAN driver in its own form: an object whose methods update the driver's
  * globals in place, each proved to perform the corresponding atomic step. */
module CanDriver {
  import opened Basics
  import opened CanConfig
  import opened CanFilter
  import CanTiming
  import Tx = CanTx
  import S = CanSpec
  import CanIndex

  // How the loops unfold what they compute.

  lemma SetupUnfolds(objects: seq<HwObject>, i: nat, fifo: nat)
    requires i < |objects|
    ensures FilterSetup(objects[i..], fifo) ==
            if objects[i].kind.Receive?
            then [Encode(objects[i], fifo)] + FilterSetup(objects[i + 1..], (fifo + 1) % 256)
            else FilterSetup(objects[i + 1..], fifo)
  {
    hide Encode;
    assert objects[i..][1..] == objects[i + 1..];
  }

  lemma SetupOfNothing(fifo: nat)
    ensures FilterSetup([], fifo) == []
  {
  }

  lemma OverlayNothing(before: seq<Bank>)
    ensures S.Overlay([], before) == before
  {
  }

  lemma OverlayNext(written: seq<Bank>, before: seq<Bank>, b: Bank)
    ensures var banks, n := S.Overlay(written, before), |written|;
            && n <= |banks|
            && S.Overlay(written + [b], before) == if n < |banks| then banks[n := b] else banks + [b]
  {
  }

  lemma ConfirmationsUnfold(c: nat, p: Tx.Port, m: nat)
    requires p.Valid()
    ensures S.Confirmations(c, p, m) ==
            if m >= Tx.MAILBOXES then []
            else
              (if p.boxes[m].StatusOk() then [S.TxConfirmation(c, m, p.handles[m])] else []) +
              S.Confirmations(c, p, m + 1)
  {
  }

  class Can {
    // Can_Global
    var ready: bool
    var config: Option<seq<Controller>>
    var configured: set<nat>
    var channelMap: seq<nat>
    var hthMap: seq<Option<S.HthEntry>>
    // CanUnit[] and the controllers' registers
    var units: seq<S.Unit>
    // calls made into the CAN interface
    var calls: seq<S.Callback>
    // CAN_ARC_CTRL_CONFIG_CNT, Mcu_Arc_GetSystemClock()
    const configCnt: nat
    const systemClock: nat

    ghost function State(): S.Driver
      reads this
    {
      S.Driver(config, configured, channelMap, hthMap, units, calls, configCnt, systemClock)
    }

    ghost predicate Valid()
      reads this
    {
      S.Wf(State()) && (ready <==> config.Some?)
    }

    /** Power-on; the handle tables hold whatever the memory held. */
    constructor (configCnt: nat, systemClock: nat, unitCnt: nat, hthCnt: nat, junk: seq<nat>)
      requires 0 < configCnt && |junk| == Tx.MAILBOXES
      ensures Valid() && S.PowerOn(State())
      ensures |units| == unitCnt && |hthMap| == hthCnt
    {
      this.configCnt, this.systemClock := configCnt, systemClock;
      ready, config, configured, calls := false, None, {}, [];
      channelMap := seq(unitCnt, _ => 0);
      hthMap := seq(hthCnt, _ => None);
      var port := Tx.ResetPort(Tx.Port(seq(Tx.MAILBOXES, _ => Tx.Mailbox(true, false, false)), junk));
      units := seq(unitCnt, _ =>
        S.Unit(S.Uninit, 0, S.Stats(0, 0, 0), S.Nothing, S.ALL_OFF, port,
               seq(Tx.MAILBOXES, _ => S.Message(0, [])), S.NO_FRAMES, [], None));
    }

    method DisableControllerInterrupts(c: nat)
      requires Valid()
      modifies this
      ensures Valid() && State() == S.Disable(old(State()), c)
    {
      if c >= |units| || !ready {
        return;
      }
      if units[c].lockCnt > 0 {
        units := units[c := units[c].(lockCnt := (units[c].lockCnt + 1) % TWO32)];
        return;
      }
      units := units[c := units[c].(lockCnt := units[c].lockCnt + 1)];
      units := units[c := units[c].(enables := units[c].enables.(tme := false))];
      units := units[c := units[c].(enables :=
        units[c].enables.(fmp0 := false, bof := false, err := false, wku := false))];
    }

    method EnableControllerInterrupts(c: nat)
      requires Valid()
      modifies this
      ensures Valid() && State() == S.Enable(old(State()), c)
    {
      if !ready || c >= |units| {
        return;
      }
      var u := units[c];
      if u.lockCnt > 1 {
        units := units[c := u.(lockCnt := u.lockCnt - 1)];
        return;
      } else if u.lockCnt == 1 {
        u := u.(lockCnt := 0);
      }
      var ctl := config.value[channelMap[c]];
      var e := u.enables;
      if ctl.rxIrq {
        e := e.(fmp0 := true, fmp1 := true);
      }
      if ctl.txIrq {
        e := e.(tme := true);
      }
      if ctl.busOffIrq {
        e := e.(bof := true, err := true, wku := true);
      }
      assert e == S.Unmasked(u.enables, ctl);
      units := units[c := u.(enables := e)];
    }

    method CheckBaudrate(c: nat, rate: nat) returns (ok: bool)
      requires Valid()
      ensures ok == S.CheckBaudrate(State(), c, rate)
    {
      if !ready || c !in configured || rate > 1000 {
        return false;
      }
      var rates := config.value[channelMap[c]].rates;
      ok := false;
      for i := 0 to |rates|
        invariant ok <==> exists j :: 0 <= j < i && rates[j].rate == rate
      {
        if rates[i].rate == rate {
          ok := true;
        }
      }
    }

    /** The filter loop, from the banks the controller's window held before; writing
      * past the window's last used bank extends it. */
    method SetUpFilters(objects: seq<HwObject>, before: seq<Bank>) returns (banks: seq<Bank>)
      requires Terminated(objects)
      ensures banks == S.Overlay(FilterSetup(objects, 0), before)
    {
      banks := before;
      ghost var written: seq<Bank> := [];
      var fifo, filter, i := 0, 0, 0;
      hide Encode, S.Overlay, FilterSetup;
      OverlayNothing(before);
      while true
        invariant 0 <= i < |objects| && filter == |written| && 0 <= fifo < 256
        invariant written + FilterSetup(objects[i..], fifo) == FilterSetup(objects, 0)
        invariant banks == S.Overlay(written, before)
        decreases |objects| - i
      {
        var o := objects[i];
        SetupUnfolds(objects, i, fifo);
        if o.kind.Receive? {
          var b := Encode(o, fifo);
          OverlayNext(written, before, b);
          banks := if filter < |banks| then banks[filter := b] else banks + [b];
          ghost var rest := FilterSetup(objects[i + 1..], (fifo + 1) % 256);
          assert written + ([b] + rest) == written + [b] + rest;
          written := written + [b];
          fifo, filter := (fifo + 1) % 256, filter + 1;
        }
        if o.eol {
          assert objects[i + 1..] == [];
          SetupOfNothing(fifo);
          assert written + [] == written;
          break;
        }
        i := i + 1;
      }
    }

    /** The search for the baud rate's table entry; whatever entry matches, the first
      * one is selected. */
    method FindEntry(rates: seq<Baudrate>, rate: nat) returns (entry: Option<Baudrate>)
      ensures entry == if S.Offers(rates, rate) then Some(rates[0]) else None
    {
      entry := None;
      for i := 0 to |rates|
        invariant entry == if exists j :: 0 <= j < i && rates[j].rate == rate then Some(rates[0]) else None
      {
        if rates[i].rate == rate {
          entry := Some(rates[0]);
        }
      }
    }

    method ChangeBaudrate(c: nat, rate: nat, hwOk: bool) returns (ok: bool)
      requires Valid()
      modifies this
      ensures Valid() && (State(), ok) == S.ChangeBaudrate(old(State()), c, rate, hwOk)
    {
      if !ready || c >= |units| {
        return false;
      }
      var supported := CheckBaudrate(c, rate);
      if !supported || units[c].mode != S.Stopped {
        return false;
      }
      var ctl := config.value[channelMap[c]];
      var entry := FindEntry(ctl.rates, rate);
      var reset := S.ResetUnits(units, c);
      var u := reset[c];
      var banks := SetUpFilters(ctl.objects, u.banks);
      u := u.(banks := banks);
      if hwOk {
        u := u.(timing := Some(CanTiming.Program(entry.value, systemClock)), mode := S.Stopped);
      }
      units := reset[c := u];
      return hwOk;
    }

    method Start(c: nat, hwOk: bool) returns (ok: bool)
      requires Valid() && ready && c < |units|
      modifies this
      ensures Valid() && (State(), ok) == S.Start(old(State()), c, hwOk)
    {
      ok := ChangeBaudrate(c, config.value[channelMap[c]].defaultRate, hwOk);
      if !ok {
        return;
      }
      units := units[c := units[c].(mode := S.Started)];
      if units[c].lockCnt == 0 {
        EnableControllerInterrupts(c);
      }
      units := units[c := units[c].(pending := S.PendingStart)];
    }

    method SetControllerMode(c: nat, t: S.Transition, hwOk: bool) returns (ok: bool)
      requires Valid()
      modifies this
      ensures Valid() && (State(), ok) == S.SetMode(old(State()), c, t, hwOk)
    {
      if c >= |units| || !ready {
        return false;
      }
      units := units[c := units[c].(pending := S.Nothing)];
      match t {
        case ToStart =>
          if units[c].mode != S.Stopped {
            return false;
          }
          ok := Start(c, hwOk);
          return ok;
        case ToWakeup =>
          if units[c].mode != S.Sleeping && units[c].mode != S.Stopped {
            return false;
          }
          units := units[c := units[c].(mode := S.Stopped, pending := S.PendingStop)];
          return true;
        case ToSleep =>
          if units[c].mode != S.Stopped {
            return false;
          }
          units := units[c := units[c].(mode := S.Sleeping, pending := S.PendingSleep)];
          return true;
        case ToStop =>
          units := units[c := units[c].(mode := S.Stopped, pending := S.PendingStop)];
          return true;
        case Unknown =>
          return units[c].mode == S.Stopped;
      }
    }

    /** `wake`, `busOff`: the hardware flags behind CAN_IT_WKU and CAN_IT_BOF. */
    method ErrIsr(c: nat, wake: bool, busOff: bool)
      requires Valid() && c < |units|
      modifies this
      ensures Valid() && State() == S.ErrIsr(old(State()), c, wake, busOff)
    {
      hide S.SetMode;
      if units[c].enables.wku && wake {
        var _ := SetControllerMode(c, S.ToStop, true);
      }
      if units[c].enables.bof && busOff {
        var stats := units[c].stats;
        units := units[c := units[c].(stats := stats.(busOff := (stats.busOff + 1) % TWO32))];
        calls := calls + [S.BusOff(c)];
        var _ := SetControllerMode(c, S.ToStop, true);
      }
    }

    method MainFunctionMode()
      requires Valid()
      modifies this
      ensures Valid() && State() == S.MainFunctionMode(old(State()))
    {
      hide S.MainOne;
      if !ready {
        return;
      }
      var k := 0;
      while k < configCnt
        invariant 0 <= k <= configCnt
        invariant Valid() && ready && config == old(config)
        invariant S.MainFrom(State(), k) == S.MainFrom(old(State()), 0)
      {
        IndicateMode(config.value[k].id);
        k := k + 1;
      }
    }

    method IndicateMode(c: nat)
      requires Valid() && c < |units|
      modifies this
      ensures Valid() && State() == S.MainOne(old(State()), c)
    {
      var u := units[c];
      var clearPending, indicate := true, S.Uninit;
      match u.pending {
        case PendingStart =>
          if u.mode == S.Started { indicate := S.Started; }
        case PendingStop =>
          if u.mode == S.Stopped { indicate := S.Stopped; }
        case PendingSleep =>
          if u.mode == S.Sleeping { indicate := S.Sleeping; }
        case Nothing =>
          clearPending := false;
      }
      if indicate != S.Uninit {
        calls := calls + [S.ModeIndication(c, indicate)];
      }
      if clearPending {
        units := units[c := u.(pending := S.Nothing)];
      }
      assert units == old(units)[c := u.(pending := S.Nothing)];
    }

    /** The counting loop in front of `Can_Init`; it stops at the end-of-list element. */
    method CheckObjects(objects: seq<HwObject>) returns (ok: bool)
      requires Terminated(objects)
      ensures ok == PassesCheck(objects)
    {
      var rx, tx, i := 0, 0, 0;
      while !objects[i].eol
        invariant 0 <= i < |objects| && 0 <= rx < 256 && 0 <= tx < 256
        invariant (rx + CountBeforeEnd(objects[i..], Receive)) % 256 == CountBeforeEnd(objects, Receive) % 256
        invariant (tx + CountBeforeEnd(objects[i..], Transmit)) % 256 == CountBeforeEnd(objects, Transmit) % 256
        decreases |objects| - i
      {
        assert objects[i..][1..] == objects[i + 1..];
        ghost var rxLeft := CountBeforeEnd(objects[i + 1..], Receive);
        ghost var txLeft := CountBeforeEnd(objects[i + 1..], Transmit);
        if objects[i].kind.Receive? {
          assert CountBeforeEnd(objects[i..], Receive) == 1 + rxLeft;
          assert CountBeforeEnd(objects[i..], Transmit) == txLeft;
          rx := WrappingIncrement(rx, rxLeft);
        } else {
          assert CountBeforeEnd(objects[i..], Receive) == rxLeft;
          assert CountBeforeEnd(objects[i..], Transmit) == 1 + txLeft;
          tx := WrappingIncrement(tx, txLeft);
        }
        i := i + 1;
      }
      return rx <= 2 && tx <= 1;
    }

    /** An eight-bit increment, seen together with what is still to be counted. */
    method WrappingIncrement(n: nat, ghost left: nat) returns (r: nat)
      requires n < 256
      ensures r < 256 && (r + left) % 256 == (n + 1 + left) % 256
    {
      r := if n == 255 then 0 else n + 1;
    }

    method CheckAll(cfg: seq<Controller>) returns (ok: bool)
      requires forall k :: 0 <= k < |cfg| ==> Terminated(cfg[k].objects)
      ensures ok == S.AllPassCheck(cfg)
    {
      for k := 0 to |cfg|
        invariant forall j :: 0 <= j < k ==> PassesCheck(cfg[j].objects)
      {
        ok := CheckObjects(cfg[k].objects);
        if !ok {
          return;
        }
      }
      return true;
    }

    /** The loop that enters a controller's transmit objects into the index. */
    method IndexObjects(c: nat, objects: seq<HwObject>)
      requires Valid() && c < |units| && Terminated(objects)
      requires forall i :: 0 <= i < |objects| && objects[i].kind.Transmit? ==> objects[i].id < |hthMap|
      modifies this`hthMap
      ensures Valid() && hthMap == S.MapObjects(old(hthMap), c, objects)
    {
      var i := 0;
      while true
        invariant 0 <= i < |objects| && |hthMap| == |old(hthMap)| && Valid()
        invariant S.MapObjects(hthMap, c, objects[i..]) == S.MapObjects(old(hthMap), c, objects)
        decreases |objects| - i
      {
        assert objects[i..][1..] == objects[i + 1..];
        if objects[i].kind.Transmit? {
          hthMap := hthMap[objects[i].id := Some(S.HthEntry(c, objects[i]))];
        }
        if objects[i].eol {
          assert objects[i + 1..] == [];
          break;
        }
        i := i + 1;
      }
    }

    method InitController(k: nat, hwOk: bool)
      requires Valid() && ready && k < configCnt
      modifies this
      ensures Valid() && ready && State() == S.InitOne(old(State()), k, hwOk)
    {
      var ctl := config.value[k];
      var c := ctl.id;
      channelMap := channelMap[c := k];
      configured := configured + {c};
      units := units[c := units[c].(mode := S.Stopped, lockCnt := 0, stats := S.Stats(0, 0, 0))];
      var _ := ChangeBaudrate(c, ctl.defaultRate, hwOk);
      EnableControllerInterrupts(c);
      IndexObjects(c, ctl.objects);
    }

    method Init(cfg: Option<seq<Controller>>, hwOk: seq<bool>)
      requires Valid() && |hwOk| == configCnt
      requires cfg.Some? ==> S.ConfigOk(cfg.value, configCnt, |units|, |hthMap|)
      modifies this
      ensures Valid() && State() == S.Init(old(State()), cfg, hwOk)
    {
      if ready || cfg.None? {
        return;
      }
      var ok := CheckAll(cfg.value);
      if !ok {
        return;
      }
      config := cfg;
      ready := true;
      InitAll(hwOk);
    }

    method InitAll(hwOk: seq<bool>)
      requires Valid() && ready && |hwOk| == configCnt
      modifies this
      ensures Valid() && State() == S.InitFrom(old(State()), 0, hwOk)
    {
      hide S.InitOne;
      var k := 0;
      while k < configCnt
        invariant 0 <= k <= configCnt
        invariant Valid() && ready
        invariant S.InitFrom(State(), k, hwOk) == S.InitFrom(old(State()), 0, hwOk)
      {
        ghost var before := State();
        InitController(k, hwOk[k]);
        S.InitFromUnfold(before, State(), k, hwOk);
        k := k + 1;
      }
    }

    method DeInitController(k: nat)
      requires Valid() && ready && k < configCnt
      modifies this
      ensures Valid() && State() == S.DeInitOne(old(State()), k)
    {
      var c := config.value[k].id;
      units := units[c := units[c].(mode := S.Uninit)];
      DisableControllerInterrupts(c);
      units := units[c := units[c].(lockCnt := 0, stats := S.Stats(0, 0, 0))];
    }

    method DeInit()
      requires Valid()
      modifies this
      ensures Valid() && State() == S.DeInit(old(State()))
    {
      hide S.DeInitOne;
      if !ready {
        return;
      }
      var k := 0;
      while k < configCnt
        invariant 0 <= k <= configCnt
        invariant Valid() && ready
        invariant S.DeInitFrom(State(), k) == S.DeInitFrom(old(State()), 0)
      {
        DeInitController(k);
        k := k + 1;
      }
      config := None;
      ready := false;
    }

    /** The entry found without searching, which is the one a search would find. */
    method FindHoh(hth: nat) returns (entry: Option<S.HthEntry>)
      requires hth < |hthMap| && hthMap[hth].Some?
      ensures entry == S.FindHoh(State(), hth)
      ensures CanIndex.Indexed(State()) && config.Some? && CanIndex.Search(config.value, hth).Some? ==>
                entry == CanIndex.Search(config.value, hth)
    {
      if CanIndex.Indexed(State()) && config.Some? && CanIndex.Search(config.value, hth).Some? {
        CanIndex.FindHohIsSearch(State(), hth);
      }
      var e := hthMap[hth].value;
      if e.hoh.kind == Transmit {
        return Some(e);
      }
      return None;
    }

    /** `CAN_Transmit`'s choice of mailbox. */
    method SelectMailbox(boxes: seq<Tx.Mailbox>) returns (m: nat)
      requires |boxes| == Tx.MAILBOXES
      ensures m == Tx.FreeBox(boxes, 0)
    {
      if boxes[0].empty {
        m := 0;
      } else if boxes[1].empty {
        m := 1;
      } else if boxes[2].empty {
        m := 2;
      } else {
        m := 3;
      }
    }

    /** The identifier register of a frame to be sent. */
    method TransmitId(hoh: HwObject, id: bv32) returns (tir: bv32)
      ensures tir == Image(S.SendsExtended(hoh, id), id, 0)
    {
      hide Image;
      if hoh.idType == Extended || (hoh.idType == Mixed && id > 0x7FF) {
        tir := Image(true, id, 0);
      } else {
        tir := Image(false, id, 0);
      }
    }

    method Write(hth: nat, pdu: Option<S.Pdu>) returns (rv: S.ReturnType)
      requires Valid() && S.WriteDefined(State(), hth, pdu)
      modifies this
      ensures Valid() && (State(), rv) == S.Write(old(State()), hth, pdu)
    {
      hide CanIndex.Indexed, CanIndex.Search, Image, S.SendsExtended, Tx.FreeBox;
      if !ready || pdu.None? || pdu.value.sdu.None? || pdu.value.length > 8 || hth >= |hthMap| {
        return S.NotOk;
      }
      var entry := FindHoh(hth);
      if entry.None? {
        return S.NotOk;
      }
      var p, c, hoh := pdu.value, entry.value.controller, entry.value.hoh;
      var data := p.sdu.value[..p.length];
      var tir := TransmitId(hoh, p.id);
      var u := units[c];
      var m := SelectMailbox(u.port.boxes);
      if m == Tx.MAILBOXES {
        return S.Busy;
      }
      var boxes := u.port.boxes[m := Tx.Mailbox(false, false, false)];
      u := u.(outbox := u.outbox[m := S.Message(tir, data)],
              stats := u.stats.(tx := (u.stats.tx + 1) % TWO32),
              port := Tx.Port(boxes, u.port.handles[m := p.handle]));
      units := units[c := u];
      return S.Ok;
    }

    /** The mailbox loop of the transmit interrupt: the confirmations it makes. */
    method Confirm(c: nat, p: Tx.Port) returns (made: seq<S.Callback>)
      requires p.Valid()
      ensures made == S.Confirmations(c, p, 0)
    {
      hide S.Confirmations, Tx.Mailbox.StatusOk;
      made := [];
      var m := 0;
      while m < Tx.MAILBOXES
        invariant 0 <= m <= Tx.MAILBOXES
        invariant made + S.Confirmations(c, p, m) == S.Confirmations(c, p, 0)
      {
        ghost var rest := S.Confirmations(c, p, m + 1);
        ConfirmationsUnfold(c, p, m);
        if p.boxes[m].StatusOk() {
          ghost var now := [S.TxConfirmation(c, m, p.handles[m])];
          assert made + (now + rest) == made + now + rest;
          made := made + [S.TxConfirmation(c, m, p.handles[m])];
        } else {
          assert [] + rest == rest;
        }
        m := m + 1;
      }
      ConfirmationsUnfold(c, p, m);
    }

    /** Walks the list to its first transmit object. */
    method FindTransmitter(objects: seq<HwObject>) returns (found: bool)
      requires Terminated(objects)
      ensures found == S.HasTransmitter(objects)
    {
      var i := 0;
      while true
        invariant 0 <= i < |objects|
        invariant forall j :: 0 <= j < i ==> objects[j].kind.Receive?
        decreases |objects| - i
      {
        if objects[i].kind == Transmit {
          return true;
        }
        if objects[i].eol {
          return false;
        }
        i := i + 1;
      }
    }

    method TxIsr(c: nat)
      requires Valid() && ready && c < |units|
      modifies this
      ensures Valid() && State() == S.TxIsr(old(State()), c)
    {
      var found := FindTransmitter(config.value[channelMap[c]].objects);
      if found {
        var p := units[c].port;
        var made := Confirm(c, p);
        calls := calls + made;
        units := units[c := units[c].(port := Tx.ClearCompleted(p))];
      }
    }

    /** The object loop of the receive interrupt: the indications it makes. */
    method Indicate(c: nat, objects: seq<HwObject>, fifo: nat, f: Frame) returns (made: seq<S.Callback>)
      requires Terminated(objects)
      ensures made == S.RxCalls(c, fifo, Indicated(objects, fifo, 0), f)
    {
      var canId := IndicatedId(IdRegister(f));
      var count, i := 0, 0;
      made := [];
      ghost var done: seq<HwObject> := [];
      while true
        invariant 0 <= i < |objects| && 0 <= count < 256
        invariant done + Indicated(objects[i..], fifo, count) == Indicated(objects, fifo, 0)
        invariant made == S.RxCalls(c, fifo, done, f)
        decreases |objects| - i
      {
        var o := objects[i];
        assert objects[i..][1..] == objects[i + 1..];
        if o.kind == Receive {
          if fifo == count {
            made := made + [S.RxIndication(c, fifo, o.id, canId, f.data)];
            assert done + [o] + Indicated(objects[i + 1..], fifo, (count + 1) % 256) == Indicated(objects, fifo, 0);
            done := done + [o];
          }
          count := (count + 1) % 256;
        }
        if o.eol {
          assert objects[i + 1..] == [];
          break;
        }
        i := i + 1;
      }
    }

    /** `CAN_Receive` takes the frame at the head of the FIFO and releases it. */
    method RxIsr(c: nat, fifo: nat)
      requires Valid() && S.Possible(State(), S.EvRxIsr(c, fifo))
      modifies this
      ensures Valid() && State() == S.RxIsr(old(State()), c, fifo)
    {
      var u := units[c];
      var f := u.fifos[fifo][0];
      units := units[c := u.(fifos := u.fifos[fifo := u.fifos[fifo][1..]])];
      var made := Indicate(c, config.value[channelMap[c]].objects, fifo, f);
      calls := calls + made;
      var stats := units[c].stats;
      units := units[c := units[c].(stats := stats.(rx := (stats.rx + |made|) % TWO32))];
    }
  }
}
