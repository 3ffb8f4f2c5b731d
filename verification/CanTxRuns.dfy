/** The transmit protocol inside the whole driver: every run of the driver projects,
  * controller by controller, to a run of the mailbox protocol, so what was proved of
  * that protocol holds of the driver's confirmations. */
module CanTxRuns {
  import opened CanFilter
  import opened CanSpec
  import opened CanEffects
  import Tx = CanTx

  /** What the mailboxes of controller `x` see of an event. */
  function TxEvents(d: Driver, e: Event, x: nat): seq<Tx.Event>
    requires Wf(d) && Possible(d, e) && x < |d.units|
  {
    match e
    case EvWrite(hth, pdu) => if WriteTaken(d, hth, pdu, x) then [Tx.Write(pdu.value.handle)] else []
    case EvComplete(c, m, ok) => if c == x then [Tx.Complete(m, ok)] else []
    case EvTxIsr(c) => if c == x && HasTransmitter(ConfigOf(d, c).objects) then Tx.Pass() else []
    case _ => if Step(d, e).units[x].port == d.units[x].port then [] else [Tx.Reset]
  }

  function TxEventsOf(d: Driver, es: seq<Event>, x: nat): seq<Tx.Event>
    requires Wf(d) && ValidRun(d, es) && x < |d.units|
    decreases |es|
  {
    if es == [] then [] else TxEvents(d, es[0], x) + TxEventsOf(Step(d, es[0]), es[1..], x)
  }

  /** Handles of the writes that were accepted for controller `x`, in order. */
  function WrittenHandles(d: Driver, es: seq<Event>, x: nat): seq<nat>
    requires Wf(d) && ValidRun(d, es) && x < |d.units|
    decreases |es|
  {
    if es == [] then [] else WrittenNow(d, es[0], x) + WrittenHandles(Step(d, es[0]), es[1..], x)
  }

  function WrittenNow(d: Driver, e: Event, x: nat): seq<nat>
    requires Wf(d) && Possible(d, e) && x < |d.units|
  {
    if e.EvWrite? && WriteTaken(d, e.hth, e.pdu, x) then [e.pdu.value.handle] else []
  }

  /** Mailbox and handle of every confirmation made for controller `x`, in order. */
  function CallPairs(calls: seq<Callback>, x: nat): seq<(nat, nat)> {
    if calls == [] then []
    else
      var last := calls[|calls| - 1];
      CallPairs(calls[..|calls| - 1], x) +
      if last.TxConfirmation? && last.controller == x then [(last.box, last.handle)] else []
  }

  lemma CallPairsSnoc(calls: seq<Callback>, call: Callback, x: nat)
    ensures CallPairs(calls + [call], x) ==
            CallPairs(calls, x) +
            if call.TxConfirmation? && call.controller == x then [(call.box, call.handle)] else []
  {
    assert (calls + [call])[..|calls|] == calls;
  }

  lemma {:induction false} CallPairsConcat(calls: seq<Callback>, more: seq<Callback>, x: nat)
    ensures CallPairs(calls + more, x) == CallPairs(calls, x) + CallPairs(more, x)
  {
    if more == [] {
      assert calls + more == calls;
    } else {
      var n := |more| - 1;
      CallPairsConcat(calls, more[..n], x);
      CallPairsSnoc(calls + more[..n], more[n], x);
      assert calls + more == calls + more[..n] + [more[n]];
    }
  }

  lemma {:induction false} OtherPairs(more: seq<Callback>, x: nat)
    requires forall i :: 0 <= i < |more| ==> !more[i].TxConfirmation?
    ensures CallPairs(more, x) == []
  {
    if more != [] {
      OtherPairs(more[..|more| - 1], x);
    }
  }

  lemma OnePair(c: nat, m: nat, h: nat, x: nat)
    ensures CallPairs([], x) == []
    ensures CallPairs([TxConfirmation(c, m, h)], x) == if c == x then [(m, h)] else []
  {
    var one := [TxConfirmation(c, m, h)];
    assert one[..0] == [];
  }

  lemma {:induction false} ConfirmationPairs(c: nat, p: Tx.Port, m: nat, x: nat)
    requires p.Valid()
    ensures CallPairs(Confirmations(c, p, m), x) == if c == x then Tx.PassPairs(p, m) else []
    decreases Tx.MAILBOXES - m
  {
    hide CallPairs;
    if m >= Tx.MAILBOXES {
      OnePair(c, 0, 0, x);
    } else {
      var rest := Confirmations(c, p, m + 1);
      ConfirmationPairs(c, p, m + 1, x);
      if p.boxes[m].StatusOk() {
        var now := TxConfirmation(c, m, p.handles[m]);
        assert Confirmations(c, p, m) == [now] + rest;
        CallPairsConcat([now], rest, x);
        OnePair(c, m, p.handles[m], x);
      } else {
        assert Confirmations(c, p, m) == rest;
      }
    }
  }

  lemma {:induction false} MainFromPairs(d: Driver, k: nat, x: nat)
    requires Wf(d) && d.Ready() && k <= d.configCnt && x < |d.units|
    ensures CallPairs(MainFrom(d, k).calls, x) == CallPairs(d.calls, x)
    decreases d.configCnt - k
  {
    hide CallPairs;
    if k < d.configCnt {
      var c := d.config.value[k].id;
      var d1 := MainOne(d, c);
      MainFromPairs(d1, k + 1, x);
      if Indication(d.units[c]).Some? {
        CallPairsSnoc(d.calls, ModeIndication(c, Indication(d.units[c]).value), x);
      }
    }
  }

  /** Only the transmit interrupt confirms. */
  lemma StepPairs(d: Driver, e: Event, x: nat)
    requires Wf(d) && Possible(d, e) && x < |d.units|
    ensures CallPairs(Step(d, e).calls, x) ==
            CallPairs(d.calls, x) +
            if e == EvTxIsr(x) && HasTransmitter(ConfigOf(d, x).objects) then Tx.PassPairs(d.units[x].port, 0) else []
  {
    hide CallPairs, Init, DeInit, ChangeBaudrate, SetMode, Write, ErrIsr, TxIsr, RxIsr, MainFunctionMode;
    match e
    case EvInit(cfg, oks) => InitCalls(d, cfg, oks, x);
    case EvDeInit => DeInitCalls(d, x);
    case EvChangeBaudrate(c, rate, ok) => ChangeBaudrateEffect(d, c, rate, ok, x);
    case EvSetMode(c, t, ok) => SetModeEffect(d, c, t, ok, x);
    case EvWrite(hth, pdu) => WriteEffect(d, hth, pdu, x);
    case EvErrIsr(c, wake, busOff) =>
      ErrIsrEffect(d, c, wake, busOff, x);
      CallPairsSnoc(d.calls, BusOff(c), x);
      assert d.calls + [] == d.calls;
    case EvMain => MainPairs(d, x);
    case EvTxIsr(c) => TxIsrPairs(d, c, x);
    case EvRxIsr(c, fifo) => RxIsrPairs(d, c, fifo, x);
    case _ =>
  }

  lemma MainPairs(d: Driver, x: nat)
    requires Wf(d) && x < |d.units|
    ensures CallPairs(MainFunctionMode(d).calls, x) == CallPairs(d.calls, x)
  {
    hide MainFrom, CallPairs;
    if d.Ready() {
      MainFromPairs(d, 0, x);
    }
  }

  lemma TxIsrPairs(d: Driver, c: nat, x: nat)
    requires Wf(d) && d.Ready() && c < |d.units|
    ensures CallPairs(TxIsr(d, c).calls, x) ==
            CallPairs(d.calls, x) +
            if c == x && HasTransmitter(ConfigOf(d, x).objects) then Tx.PassPairs(d.units[x].port, 0) else []
  {
    hide CallPairs, Confirmations;
    CallPairsConcat(d.calls, Confirmations(c, d.units[c].port, 0), x);
    ConfirmationPairs(c, d.units[c].port, 0, x);
  }

  lemma RxIsrPairs(d: Driver, c: nat, fifo: nat, x: nat)
    requires Wf(d) && Possible(d, EvRxIsr(c, fifo))
    ensures CallPairs(RxIsr(d, c, fifo).calls, x) == CallPairs(d.calls, x)
  {
    hide CallPairs;
    var objects := Indicated(ConfigOf(d, c).objects, fifo, 0);
    var made := RxCalls(c, fifo, objects, d.units[c].fifos[fifo][0]);
    CallPairsConcat(d.calls, made, x);
    OtherPairs(made, x);
  }

  /** The protocol state `s` mirrors controller `x`. */
  predicate Mirrors(s: Tx.State, d: Driver, x: nat) {
    Tx.Inv(s) && s.isr.Idle? && x < |d.units| && s.port == d.units[x].port
  }

  lemma StepMirrors(d: Driver, e: Event, x: nat, s: Tx.State)
    requires Wf(d) && Possible(d, e) && Mirrors(s, d, x)
    ensures var t := Tx.Run(s, TxEvents(d, e, x));
            && Mirrors(t, Step(d, e), x)
            && Tx.AcceptedHandles(t.log) == Tx.AcceptedHandles(s.log) + WrittenNow(d, e, x)
            && Tx.ConfirmedPairs(t.log) == Tx.ConfirmedPairs(s.log) +
                 if e == EvTxIsr(x) && HasTransmitter(ConfigOf(d, x).objects)
                 then Tx.PassPairs(d.units[x].port, 0) else []
  {
    hide Step, Tx.Inv, Tx.ConfirmedPairs, Tx.AcceptedHandles, Tx.Pass, WriteTaken;
    StepCore(d, e, x);
    var es := TxEvents(d, e, x);
    assert Tx.Run(s, []) == s;
    if es == [] {
      assert Step(d, e).units[x].port == d.units[x].port;
    } else {
      if e.EvTxIsr? {
        Tx.PassEffect(s);
      } else {
        Tx.SingleEffect(s, es[0]);
        assert es == [es[0]];
      }
    }
  }

  lemma {:induction false} RunMirrors(d: Driver, es: seq<Event>, x: nat, s: Tx.State)
    requires Wf(d) && ValidRun(d, es) && Mirrors(s, d, x)
    ensures var t := Tx.Run(s, TxEventsOf(d, es, x));
            && Mirrors(t, Run(d, es), x)
            && Tx.AcceptedHandles(t.log) == Tx.AcceptedHandles(s.log) + WrittenHandles(d, es, x)
            && (Tx.ConfirmedPairs(s.log) == CallPairs(d.calls, x) ==>
                Tx.ConfirmedPairs(t.log) == CallPairs(Run(d, es).calls, x))
    decreases |es|
  {
    hide Step, Tx.Inv, Tx.ConfirmedPairs, Tx.AcceptedHandles, CallPairs, TxEvents, WrittenNow;
    if es == [] {
      assert Tx.Run(s, []) == s;
    } else {
      StepMirrors(d, es[0], x, s);
      StepPairs(d, es[0], x);
      var first := TxEvents(d, es[0], x);
      var rest := TxEventsOf(Step(d, es[0]), es[1..], x);
      Tx.RunConcat(s, first, rest);
      RunMirrors(Step(d, es[0]), es[1..], x, Tx.Run(s, first));
    }
  }

  /** The history of controller `x` in a run from power-on, and the state it ends in. */
  function History(d: Driver, es: seq<Event>, x: nat): (t: Tx.State)
    requires PowerOn(d) && ValidRun(d, es) && x < |d.units|
  {
    PowerOnMirrors(d, x);
    Tx.Run(Tx.State(d.units[x].port, Tx.Idle, []), TxEventsOf(d, es, x))
  }

  lemma PowerOnMirrors(d: Driver, x: nat)
    requires PowerOn(d) && x < |d.units|
    ensures var s := Tx.State(d.units[x].port, Tx.Idle, []); Tx.Initial(s) && Mirrors(s, d, x)
  {
    var s := Tx.State(d.units[x].port, Tx.Idle, []);
    assert UnitOk(d.units[x]);
    forall m | 0 <= m < Tx.MAILBOXES
      ensures Tx.BoxInv(s, m)
    {
    }
  }

  lemma HistoryMirrors(d: Driver, es: seq<Event>, x: nat)
    requires PowerOn(d) && ValidRun(d, es) && x < |d.units|
    ensures var log := History(d, es, x).log;
            && Tx.AcceptedHandles(log) == WrittenHandles(d, es, x)
            && Tx.ConfirmedPairs(log) == CallPairs(Run(d, es).calls, x)
  {
    PowerOnMirrors(d, x);
    RunMirrors(d, es, x, Tx.State(d.units[x].port, Tx.Idle, []));
  }

  /** In every run of the driver from power-on, the confirmations made for a
    * controller are, in order, the `Confirmed` entries of a protocol history whose
    * `Accepted` entries are exactly the accepted writes; and in that history each
    * confirmation is preceded by the acceptance and the sending of that same write,
    * with nothing else happening to its mailbox in between. */
  lemma DriverConfirmationsAreExact(d: Driver, es: seq<Event>, x: nat, i: nat)
    returns (j: nat, k: nat)
    requires PowerOn(d) && ValidRun(d, es) && x < |d.units|
    ensures var log := History(d, es, x).log;
            && Tx.AcceptedHandles(log) == WrittenHandles(d, es, x)
            && Tx.ConfirmedPairs(log) == CallPairs(Run(d, es).calls, x)
            && (i < |log| && log[i].Confirmed? && log[i].box < Tx.MAILBOXES ==>
                Tx.SentSince(log[..i], log[i].box, log[i].handle, j, k))
  {
    hide TxEventsOf, WrittenHandles, CallPairs, Run, ValidRun, Tx.ConfirmedPairs, Tx.AcceptedHandles, Tx.Run;
    j, k := 0, 0;
    HistoryMirrors(d, es, x);
    var log := History(d, es, x).log;
    if i < |log| && log[i].Confirmed? && log[i].box < Tx.MAILBOXES {
      PowerOnMirrors(d, x);
      var s := Tx.State(d.units[x].port, Tx.Idle, []);
      j, k := Tx.ConfirmationsAreExact(s, TxEventsOf(d, es, x), i, log[i].box, log[i].handle);
    }
  }
}
