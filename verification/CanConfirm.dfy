/** That confirmations are made: what the transmit interrupt does, and that a write which has
  * been sent is confirmed by the next one. */
module CanConfirm {
  import opened Basics
  import opened CanConfig
  import opened CanSpec
  import opened CanEffects
  import opened CanIndex
  import opened CanStartup
  import opened CanTxCare
  import CanAnswers
  import Tx = CanTx

  /** The confirmation that mailbox `m` gives rise to. */
  function Due(c: nat, p: Tx.Port, m: nat): seq<Callback>
    requires p.Valid() && m < 3
  {
    if p.boxes[m].empty && p.boxes[m].completed && p.boxes[m].ok then [TxConfirmation(c, m, p.handles[m])] else []
  }

  /** Wherever in the list a transmit object stands: the interrupt confirms every mailbox
    * that reads CANTXOK, in order and with its handle, and afterwards none does. It changes
    * nothing else, and nothing at all without a transmit object. */
  lemma TxIsrConfirms(d: Driver, c: nat)
    requires Wf(d) && d.Ready() && c < |d.units|
    ensures var objects, r := ConfigOf(d, c).objects, TxIsr(d, c);
            var p, q := d.units[c].port, r.units[c].port;
            if exists i :: 0 <= i < |objects| && objects[i].kind.Transmit? then
              && r.calls == d.calls + (Due(c, p, 0) + Due(c, p, 1) + Due(c, p, 2))
              && q.handles == p.handles && |q.boxes| == 3
              && (forall m :: 0 <= m < 3 ==> q.boxes[m] == Tx.Mailbox(p.boxes[m].empty, false, false))
              && r == d.(calls := r.calls, units := d.units[c := d.units[c].(port := q)])
            else r == d
  {
    var p := d.units[c].port;
    assert Confirmations(c, p, 3) == [];
    assert Confirmations(c, p, 2) == Due(c, p, 2);
    assert Confirmations(c, p, 1) == Due(c, p, 1) + Due(c, p, 2);
    assert Confirmations(c, p, 0) == Due(c, p, 0) + (Due(c, p, 1) + Due(c, p, 2));
  }

  // ------------------------------------------------------- from index to list

  /** The driver finds each configured controller's own configuration. */
  predicate Mapped(d: Driver) {
    d.Ready() ==> forall k :: 0 <= k < |d.config.value| && d.config.value[k].id < |d.channelMap| ==>
      d.channelMap[d.config.value[k].id] == k
  }

  lemma {:induction false} MapFrom(d: Driver, k: nat, hwOk: seq<bool>, j: nat)
    requires Wf(d) && d.Ready() && k <= d.configCnt == |hwOk| && j < d.configCnt && DistinctIds(d.config.value)
    requires j < k ==> d.channelMap[d.config.value[j].id] == j
    ensures InitFrom(d, k, hwOk).channelMap[d.config.value[j].id] == j
    decreases d.configCnt - k
  {
    hide InitOne;
    if k < d.configCnt {
      InitOneBanks(d, k, hwOk[k], d.config.value[j].id);
      MapFrom(InitOne(d, k, hwOk[k]), k + 1, hwOk, j);
    }
  }

  /** The configuration accepted in this step, if any, has distinct controllers. */
  predicate DistinctNow(d: Driver, e: Event) { e.EvInit? && InitAccepted(d, e.cfg) ==> DistinctIds(e.cfg.value) }

  lemma StepKeepsMap(d: Driver, e: Event)
    requires Wf(d) && Possible(d, e) && 0 < |d.units| && Mapped(d) && DistinctNow(d, e)
    ensures Mapped(Step(d, e))
  {
    hide InitFrom, DeInit;
    if e.EvInit? && InitAccepted(d, e.cfg) {
      var cfg, r := e.cfg.value, Step(d, e);
      forall k | 0 <= k < |cfg| && cfg[k].id < |r.channelMap| ensures r.channelMap[cfg[k].id] == k {
        MapFrom(d.(config := e.cfg), 0, e.hwOks, k);
      }
    } else if e.EvDeInit? {
      StepCore(d, e, 0);
    } else {
      hide Step;
      StepGlobals(d, e, 0);
    }
  }

  predicate DistinctThroughout(d: Driver, es: seq<Event>)
    requires Wf(d) && ValidRun(d, es)
    decreases |es|
  {
    es != [] ==> DistinctNow(d, es[0]) && DistinctThroughout(Step(d, es[0]), es[1..])
  }

  /** In every run, through shut-downs and initialisations, as long as each configuration
    * has distinct controllers. */
  lemma {:induction false} RunKeepsMap(d: Driver, es: seq<Event>)
    requires Wf(d) && ValidRun(d, es) && 0 < |d.units| && Mapped(d) && DistinctThroughout(d, es)
    ensures Mapped(Run(d, es))
    decreases |es|
  {
    hide Step, Mapped, DistinctNow;
    if es != [] {
      StepKeepsMap(d, es[0]);
      RunKeepsMap(Step(d, es[0]), es[1..]);
    }
  }

  lemma {:induction false} SearchIsConfigured(cfg: seq<Controller>, hth: nat) returns (k: nat, i: nat)
    requires Search(cfg, hth).Some?
    ensures k < |cfg| && i < |cfg[k].objects| && cfg[k].objects[i].kind.Transmit?
    ensures cfg[k].id == Search(cfg, hth).value.controller
  {
    if SearchObjects(cfg[0].objects, hth).Some? {
      k := 0;
      i := ObjectAt(cfg[0].objects, hth);
    } else {
      k, i := SearchIsConfigured(cfg[1..], hth);
      k := k + 1;
    }
  }

  lemma {:induction false} ObjectAt(objects: seq<HwObject>, hth: nat) returns (i: nat)
    requires SearchObjects(objects, hth).Some?
    ensures i < |objects| && objects[i].kind.Transmit?
  {
    if IsHth(objects[0], hth) {
      i := 0;
    } else {
      i := ObjectAt(objects[1..], hth);
      i := i + 1;
    }
  }

  // ------------------------------------------------- one mailbox, step by step

  /** Mailbox `m` of `c` holds a frame with this handle that is still to go out. */
  predicate InFlight(d: Driver, c: nat, m: nat, h: nat) {
    && Wf(d) && c < |d.units| && m < 3
    && d.units[c].port.boxes[m] == Tx.Mailbox(false, false, false) && d.units[c].port.handles[m] == h
  }

  /** It has gone out, and no interrupt has seen it. */
  predicate Unseen(d: Driver, c: nat, m: nat, h: nat) {
    && Wf(d) && c < |d.units| && m < 3
    && d.units[c].port.boxes[m] == Tx.Mailbox(true, true, true) && d.units[c].port.handles[m] == h
  }

  /** The event keeps the configuration and does not reset the controller. */
  predicate Steady(d: Driver, e: Event, c: nat)
    requires Wf(d) && c < |d.units|
  {
    !e.EvInit? && !e.EvDeInit? && !Resets(d, e, c)
  }

  lemma InFlightStays(d: Driver, e: Event, c: nat, m: nat, h: nat)
    requires InFlight(d, c, m, h) && Possible(d, e) && Steady(d, e, c)
    requires !(e.EvComplete? && e.c == c && e.m == m)
    ensures InFlight(Step(d, e), c, m, h)
  {
    hide Step, Resets, WriteTaken;
    StepCore(d, e, c);
    if !e.EvWrite? && !e.EvComplete? && !e.EvTxIsr? {
      StepPort(d, e, c);
    }
  }

  /** The event takes mailbox `m` of `c` for a new write. */
  predicate Reuses(d: Driver, e: Event, c: nat, m: nat)
    requires Wf(d) && Possible(d, e) && c < |d.units|
  {
    e.EvWrite? && WriteTaken(d, e.hth, e.pdu, c) && Tx.FreeBox(d.units[c].port.boxes, 0) == m
  }

  lemma UnseenStays(d: Driver, e: Event, c: nat, m: nat, h: nat)
    requires Unseen(d, c, m, h) && Possible(d, e) && Steady(d, e, c)
    requires e != EvTxIsr(c) && !Reuses(d, e, c, m)
    ensures Unseen(Step(d, e), c, m, h)
  {
    hide Step, Resets, WriteTaken;
    StepCore(d, e, c);
    if !e.EvWrite? && !e.EvComplete? && !e.EvTxIsr? {
      StepPort(d, e, c);
    }
  }

  predicate StaysInFlight(d: Driver, es: seq<Event>, c: nat, m: nat)
    requires Wf(d) && ValidRun(d, es) && c < |d.units|
    decreases |es|
  {
    es != [] ==>
      && Steady(d, es[0], c) && !(es[0].EvComplete? && es[0].c == c && es[0].m == m)
      && StaysInFlight(Step(d, es[0]), es[1..], c, m)
  }

  predicate StaysUnseen(d: Driver, es: seq<Event>, c: nat, m: nat)
    requires Wf(d) && ValidRun(d, es) && c < |d.units|
    decreases |es|
  {
    es != [] ==>
      && Steady(d, es[0], c) && es[0] != EvTxIsr(c) && !Reuses(d, es[0], c, m)
      && StaysUnseen(Step(d, es[0]), es[1..], c, m)
  }

  predicate SameConfig(d: Driver, r: Driver) { r.config == d.config && r.channelMap == d.channelMap }

  lemma SteadyKeepsConfig(d: Driver, e: Event, c: nat)
    requires Wf(d) && Possible(d, e) && c < |d.units| && Steady(d, e, c)
    ensures SameConfig(d, Step(d, e))
  {
    hide Step;
    StepGlobals(d, e, c);
  }

  lemma {:induction false} InFlightRun(d: Driver, es: seq<Event>, c: nat, m: nat, h: nat)
    requires InFlight(d, c, m, h) && ValidRun(d, es) && StaysInFlight(d, es, c, m)
    ensures InFlight(Run(d, es), c, m, h) && SameConfig(d, Run(d, es))
    decreases |es|
  {
    hide Step, Steady;
    if es != [] {
      InFlightStays(d, es[0], c, m, h);
      SteadyKeepsConfig(d, es[0], c);
      InFlightRun(Step(d, es[0]), es[1..], c, m, h);
    }
  }

  lemma {:induction false} UnseenRun(d: Driver, es: seq<Event>, c: nat, m: nat, h: nat)
    requires Unseen(d, c, m, h) && ValidRun(d, es) && StaysUnseen(d, es, c, m)
    ensures Unseen(Run(d, es), c, m, h) && SameConfig(d, Run(d, es))
    decreases |es|
  {
    hide Step, Steady, Reuses;
    if es != [] {
      UnseenStays(d, es[0], c, m, h);
      SteadyKeepsConfig(d, es[0], c);
      UnseenRun(Step(d, es[0]), es[1..], c, m, h);
    }
  }

  // ------------------------------------------------------------------ theorems

  lemma WriteTakesMailbox(d: Driver, hth: nat, pdu: Pdu) returns (c: nat, m: nat)
    requires Wf(d) && WriteDefined(d, hth, Some(pdu)) && Write(d, hth, Some(pdu)).1 == Ok
    ensures d.Ready() && hth < |d.hthMap| && d.hthMap[hth].Some? && c == d.hthMap[hth].value.controller
    ensures c < |d.units| && m == Tx.FreeBox(d.units[c].port.boxes, 0) < 3
    ensures InFlight(Write(d, hth, Some(pdu)).0, c, m, pdu.handle)
  {
    hide Write;
    CanAnswers.WriteAnswersIff(d, hth, Some(pdu));
    c := d.hthMap[hth].value.controller;
    WriteEffect(d, hth, Some(pdu), c);
    m := Tx.FreeBox(d.units[c].port.boxes, 0);
  }

  lemma CompletionIsUnseen(d: Driver, c: nat, m: nat, h: nat)
    requires InFlight(d, c, m, h)
    ensures Possible(d, EvComplete(c, m, true))
    ensures Unseen(Step(d, EvComplete(c, m, true)), c, m, h) && SameConfig(d, Step(d, EvComplete(c, m, true)))
  {
  }

  lemma InterruptConfirms(d: Driver, c: nat, m: nat, h: nat, i: nat)
    requires Unseen(d, c, m, h) && d.Ready()
    requires i < |ConfigOf(d, c).objects| && ConfigOf(d, c).objects[i].kind.Transmit?
    ensures Possible(d, EvTxIsr(c)) && d.calls <= Step(d, EvTxIsr(c)).calls
    ensures TxConfirmation(c, m, h) in Step(d, EvTxIsr(c)).calls[|d.calls|..]
  {
    hide TxIsr;
    TxIsrConfirms(d, c);
    var p := d.units[c].port;
    var made := Due(c, p, 0) + Due(c, p, 1) + Due(c, p, 2);
    assert (d.calls + made)[|d.calls|..] == made;
    assert TxConfirmation(c, m, h) in Due(c, p, m);
  }

  /** Liveness of confirmations: a write accepted for a configured handle, whose frame goes
    * out at some later time, is confirmed with its handle by the next transmit interrupt of
    * its controller, whatever else happens in between, unless the controller is reset or
    * initialised, or a further write is given the mailbox before that interrupt. */
  lemma SentWriteIsConfirmed(d: Driver, hth: nat, pdu: Pdu, before: seq<Event>, after: seq<Event>)
    requires Wf(d) && WriteDefined(d, hth, Some(pdu)) && Write(d, hth, Some(pdu)).1 == Ok
    requires Indexed(d) && Mapped(d) && Search(d.config.value, hth).Some?
    requires var c, d1 := Search(d.config.value, hth).value.controller, Write(d, hth, Some(pdu)).0;
             && c < |d.units|
             && var m := Tx.FreeBox(d.units[c].port.boxes, 0);
                && ValidRun(d1, before) && StaysInFlight(d1, before, c, m)
                && Possible(Run(d1, before), EvComplete(c, m, true))
                && var d3 := Step(Run(d1, before), EvComplete(c, m, true));
                   ValidRun(d3, after) && StaysUnseen(d3, after, c, m)
    ensures var c, d1 := Search(d.config.value, hth).value.controller, Write(d, hth, Some(pdu)).0;
            var m := Tx.FreeBox(d.units[c].port.boxes, 0);
            var d4 := Run(Step(Run(d1, before), EvComplete(c, m, true)), after);
            && Possible(d4, EvTxIsr(c)) && d4.calls <= Step(d4, EvTxIsr(c)).calls
            && TxConfirmation(c, m, pdu.handle) in Step(d4, EvTxIsr(c)).calls[|d4.calls|..]
  {
    hide Write, Step, Search, WriteDefined, StaysInFlight, StaysUnseen, ValidRun, Run;
    FindHohIsIndexed(d, hth, pdu);
    var c, m := WriteTakesMailbox(d, hth, pdu);
    var k, i := SearchIsConfigured(d.config.value, hth);
    var d1 := Write(d, hth, Some(pdu)).0;
    WriteEffect(d, hth, Some(pdu), c);
    InFlightRun(d1, before, c, m, pdu.handle);
    var d2 := Run(d1, before);
    CompletionIsUnseen(d2, c, m, pdu.handle);
    var d3 := Step(d2, EvComplete(c, m, true));
    UnseenRun(d3, after, c, m, pdu.handle);
    InterruptConfirms(Run(d3, after), c, m, pdu.handle, i);
  }

  lemma FindHohIsIndexed(d: Driver, hth: nat, pdu: Pdu)
    requires Wf(d) && WriteDefined(d, hth, Some(pdu)) && Write(d, hth, Some(pdu)).1 == Ok
    requires Indexed(d) && Search(d.config.value, hth).Some?
    ensures d.Ready() && hth < |d.hthMap| && d.hthMap[hth] == Search(d.config.value, hth)
  {
    hide Write;
    CanAnswers.WriteAnswersIff(d, hth, Some(pdu));
  }
}
