/** The statistics of `Can_Arc_StatisticsType` over whole runs: accepted writes and bus-off
  * reports. Received frames are counted in `CanFifo`. */
module CanCounts {
  import opened Basics
  import opened CanFilter
  import opened CanSpec
  import opened CanEffects
  import opened CanTxRuns
  import opened CanFifo

  /** Bus-off reports made for controller `x`. */
  function BusOffs(calls: seq<Callback>, x: nat): nat {
    if calls == [] then 0 else BusOffs(calls[..|calls| - 1], x) + (if calls[|calls| - 1] == BusOff(x) then 1 else 0)
  }

  lemma BusOffsSnoc(calls: seq<Callback>, call: Callback, x: nat)
    ensures BusOffs(calls + [call], x) == BusOffs(calls, x) + if call == BusOff(x) then 1 else 0
  {
    assert (calls + [call])[..|calls|] == calls;
  }

  lemma {:induction false} BusOffsConcat(calls: seq<Callback>, more: seq<Callback>, x: nat)
    requires forall i :: 0 <= i < |more| ==> !more[i].BusOff?
    ensures BusOffs(calls + more, x) == BusOffs(calls, x)
  {
    if more == [] {
      assert calls + more == calls;
    } else {
      var n := |more| - 1;
      BusOffsConcat(calls, more[..n], x);
      BusOffsSnoc(calls + more[..n], more[n], x);
      assert calls + more == calls + more[..n] + [more[n]];
    }
  }

  /** The error interrupt finds bus-off enabled and raised: it is reported once and counted
    * once, for that controller alone, whether or not the driver is ready. */
  predicate GoesOff(d: Driver, e: Event, x: nat)
    requires x < |d.units|
  {
    e.EvErrIsr? && e.c == x && d.units[x].enables.bof && e.busOff
  }

  lemma StopKeepsStats(d: Driver, c: nat, x: nat)
    requires Wf(d) && x < |d.units|
    ensures var r := SetMode(d, c, ToStop, true).0;
            && r.units[x].stats == d.units[x].stats && r.calls == d.calls
            && r.units[x].enables == d.units[x].enables
  {
  }

  lemma ReportCounts(d: Driver, c: nat, x: nat)
    requires Wf(d) && c < |d.units| && x < |d.units|
    ensures var u, s := d.units[c], d.units[x].stats;
            var d2 := SetUnit(d, c, u.(stats := u.stats.(busOff := (u.stats.busOff + 1) % TWO32)));
            var r := SetMode(d2.(calls := d2.calls + [BusOff(c)]), c, ToStop, true).0;
            && r.calls == d.calls + [BusOff(c)]
            && r.units[x].stats == if x == c then s.(busOff := (s.busOff + 1) % 0x1_0000_0000) else s
  {
    hide SetMode;
    var u := d.units[c];
    var d2 := SetUnit(d, c, u.(stats := u.stats.(busOff := (u.stats.busOff + 1) % TWO32)));
    StopKeepsStats(d2.(calls := d2.calls + [BusOff(c)]), c, x);
  }

  lemma ErrIsrCounts(d: Driver, c: nat, wake: bool, busOff: bool, x: nat)
    requires Wf(d) && c < |d.units| && x < |d.units|
    ensures var off := GoesOff(d, EvErrIsr(c, wake, busOff), x);
            var s := d.units[x].stats;
            && BusOffs(ErrIsr(d, c, wake, busOff).calls, x) == BusOffs(d.calls, x) + (if off then 1 else 0)
            && ErrIsr(d, c, wake, busOff).units[x].stats ==
               if off then s.(busOff := (s.busOff + 1) % 0x1_0000_0000) else s
  {
    hide SetMode, BusOffs, SetUnit;
    StopKeepsStats(d, c, x);
    StopKeepsStats(d, c, c);
    ReportCounts(if d.units[c].enables.wku && wake then SetMode(d, c, ToStop, true).0 else d, c, x);
    BusOffsSnoc(d.calls, BusOff(c), x);
  }

  lemma WriteCounts(d: Driver, hth: nat, pdu: Option<Pdu>, x: nat)
    requires Wf(d) && WriteDefined(d, hth, pdu) && x < |d.units|
    ensures var s := d.units[x].stats;
            Write(d, hth, pdu).0.units[x].stats ==
            if WriteTaken(d, hth, pdu, x) then s.(tx := (s.tx + 1) % 0x1_0000_0000) else s
  {
    hide Image;
  }

  lemma {:induction false} MainFromBusOffs(d: Driver, i: nat, x: nat)
    requires Wf(d) && d.Ready() && i <= d.configCnt && x < |d.units|
    ensures BusOffs(MainFrom(d, i).calls, x) == BusOffs(d.calls, x)
    decreases d.configCnt - i
  {
    hide BusOffs;
    if i < d.configCnt {
      var c := d.config.value[i].id;
      MainFromBusOffs(MainOne(d, c), i + 1, x);
      if Indication(d.units[c]).Some? {
        BusOffsSnoc(d.calls, ModeIndication(c, Indication(d.units[c]).value), x);
      }
    }
  }

  lemma MainCounts(d: Driver, x: nat)
    requires Wf(d) && x < |d.units|
    ensures BusOffs(MainFunctionMode(d).calls, x) == BusOffs(d.calls, x)
    ensures MainFunctionMode(d).units[x].stats == d.units[x].stats
  {
    hide BusOffs, MainFrom;
    MainRx(d, x, 0);
    if d.Ready() {
      MainFromBusOffs(d, 0, x);
    }
  }

  lemma InterruptCounts(d: Driver, e: Event, x: nat)
    requires Wf(d) && Possible(d, e) && x < |d.units| && (e.EvTxIsr? || e.EvRxIsr?)
    ensures BusOffs(Step(d, e).calls, x) == BusOffs(d.calls, x)
    ensures Step(d, e).units[x].stats.tx == d.units[x].stats.tx
    ensures Step(d, e).units[x].stats.busOff == d.units[x].stats.busOff
  {
    hide BusOffs, Indicated, Confirmations;
    match e
    case EvTxIsr(c) =>
      ConfirmationsKind(c, d.units[c].port, 0);
      BusOffsConcat(d.calls, Confirmations(c, d.units[c].port, 0), x);
    case EvRxIsr(c, fifo) =>
      var objects := Indicated(ConfigOf(d, c).objects, fifo, 0);
      BusOffsConcat(d.calls, RxCalls(c, fifo, objects, d.units[c].fifos[fifo][0]), x);
  }

  /** Start-up and shut-down aside, the two counters move by exactly the accepted writes and
    * the bus-off reports of the step. */
  lemma StepCounts(d: Driver, e: Event, x: nat)
    requires Wf(d) && Possible(d, e) && x < |d.units| && !RestartsCount(e)
    ensures var s, r := d.units[x].stats, Step(d, e);
            && r.units[x].stats.tx ==
               (if e.EvWrite? && WriteTaken(d, e.hth, e.pdu, x) then (s.tx + 1) % 0x1_0000_0000 else s.tx)
            && r.units[x].stats.busOff == (if GoesOff(d, e, x) then (s.busOff + 1) % 0x1_0000_0000 else s.busOff)
            && BusOffs(r.calls, x) == BusOffs(d.calls, x) + (if GoesOff(d, e, x) then 1 else 0)
  {
    hide BusOffs, WriteTaken, ChangeBaudrate, SetMode, Write, ErrIsr, TxIsr, RxIsr, MainFunctionMode, HwRoute, Store;
    match e
    case EvChangeBaudrate(c, rate, ok) => ChangeBaudrateEffect(d, c, rate, ok, x);
    case EvSetMode(c, t, ok) => SetModeEffect(d, c, t, ok, x);
    case EvWrite(hth, pdu) =>
      WriteCounts(d, hth, pdu, x);
      WriteEffect(d, hth, pdu, x);
    case EvErrIsr(c, wake, busOff) => ErrIsrCounts(d, c, wake, busOff, x);
    case EvMain => MainCounts(d, x);
    case EvTxIsr(c) => InterruptCounts(d, e, x);
    case EvRxIsr(c, fifo) => InterruptCounts(d, e, x);
    case _ =>
  }

  /** In every run without start-up or shut-down: the transmit counter advances by the
    * number of accepted writes, the bus-off counter by the number of bus-off reports, both
    * modulo 2^32. */
  lemma {:induction false} CountersAreExact(d: Driver, es: seq<Event>, x: nat)
    requires Wf(d) && ValidRun(d, es) && x < |d.units| && forall i :: 0 <= i < |es| ==> !RestartsCount(es[i])
    requires d.units[x].stats.tx < TWO32 && d.units[x].stats.busOff < TWO32
    ensures var s, r := d.units[x].stats, Run(d, es);
            && BusOffs(r.calls, x) >= BusOffs(d.calls, x)
            && r.units[x].stats.tx == (s.tx + |WrittenHandles(d, es, x)|) % 0x1_0000_0000
            && r.units[x].stats.busOff == (s.busOff + BusOffs(r.calls, x) - BusOffs(d.calls, x)) % 0x1_0000_0000
    decreases |es|
  {
    hide Step, BusOffs, WrittenNow, Wf, RestartsCount;
    if es != [] {
      var s, d1 := d.units[x].stats, Step(d, es[0]);
      CountStep(d, es[0], x);
      CountersAreExact(d1, es[1..], x);
      ModAdd(s.tx, |WrittenNow(d, es[0], x)|, |WrittenHandles(d1, es[1..], x)|);
      var reports := BusOffs(d1.calls, x);
      ModAdd(s.busOff, reports - BusOffs(d.calls, x), BusOffs(Run(d1, es[1..]).calls, x) - reports);
    }
  }

  lemma CountStep(d: Driver, e: Event, x: nat)
    requires Wf(d) && Possible(d, e) && x < |d.units| && !RestartsCount(e)
    requires d.units[x].stats.tx < TWO32 && d.units[x].stats.busOff < TWO32
    ensures var s, r := d.units[x].stats, Step(d, e);
            && r.units[x].stats.tx == (s.tx + |WrittenNow(d, e, x)|) % TWO32
            && BusOffs(r.calls, x) >= BusOffs(d.calls, x)
            && r.units[x].stats.busOff == (s.busOff + (BusOffs(r.calls, x) - BusOffs(d.calls, x))) % TWO32
  {
    hide Step, BusOffs, WriteTaken, GoesOff, Wf, RestartsCount;
    StepCounts(d, e, x);
  }
}
