/** The transmit side of one bxCAN controller: three mailboxes, the handle table
  * that `Can_Write` fills, and the transmit interrupt that reads it.
  *
  * The interrupt is broken into its individual register accesses, so that a
  * mailbox may complete, and a write may arrive, between any two of them.
  */
module CanTx {
  const MAILBOXES: nat := 3

  /** The TSR bits of one mailbox: TME, RQCP and TXOK. */
  datatype Mailbox = Mailbox(empty: bool, completed: bool, ok: bool) {
    /** `CAN_TransmitStatus` answers CANTXOK. */
    predicate StatusOk() { empty && completed && ok }
  }

  /** What the driver and the hardware share: mailboxes and `swPduHandle`. */
  datatype Port = Port(boxes: seq<Mailbox>, handles: seq<nat>) {
    predicate Valid() { |boxes| == MAILBOXES && |handles| == MAILBOXES }
  }

  /** The lowest empty mailbox at or after `from`, or `|boxes|` (CAN_NO_MB). */
  function FreeBox(boxes: seq<Mailbox>, from: nat): (m: nat)
    requires from <= |boxes|
    ensures from <= m <= |boxes|
    ensures m < |boxes| ==> boxes[m].empty
    ensures forall k :: from <= k < m ==> !boxes[k].empty
    decreases |boxes| - from
  {
    if from == |boxes| || boxes[from].empty then from else FreeBox(boxes, from + 1)
  }

  /** An accepted write: transmission is requested from mailbox `m`. */
  function Load(p: Port, m: nat, handle: nat): Port
    requires p.Valid() && m < MAILBOXES
  {
    Port(p.boxes[m := Mailbox(false, false, false)], p.handles[m := handle])
  }

  function Settle(p: Port, m: nat, ok: bool): Port
    requires p.Valid() && m < MAILBOXES
  {
    p.(boxes := p.boxes[m := Mailbox(true, true, ok)])
  }

  /** `CAN_ClearITPendingBit(CAN_IT_TME)`: RQCP of every mailbox is cleared, and
    * the hardware clears TXOK with it. */
  function ClearCompleted(p: Port): Port {
    p.(boxes := seq(|p.boxes|, i requires 0 <= i < |p.boxes| => p.boxes[i].(completed := false, ok := false)))
  }

  /** The reset state that `CAN_DeInit` leaves behind. */
  function ResetPort(p: Port): Port {
    p.(boxes := seq(|p.boxes|, i => Mailbox(true, false, false)))
  }

  // ------------------------------------------------------------ histories

  datatype Entry =
    | Accepted(box: nat, handle: nat)    // Can_Write returned CAN_OK
    | Sent(box: nat)                     // the frame went out on the bus
    | Failed(box: nat)                   // the hardware gave up on the frame
    | Confirmed(box: nat, handle: nat)   // CanIf_TxConfirmation was called
    | Lost(box: nat, handle: nat)        // sent, but its flag was wiped unseen
    | Cancelled(box: nat, handle: nat)   // dropped by a controller reset

  /** Where the write that last used a mailbox stands. */
  datatype Phase = Free | InFlight(handle: nat) | Done(handle: nat) | Illegal

  function Advance(p: Phase, e: Entry, m: nat): Phase {
    if e.box != m then p else
    match e
    case Accepted(_, h) => if p.Free? then InFlight(h) else Illegal
    case Sent(_) => if p.InFlight? then Done(p.handle) else Illegal
    case Failed(_) => if p.InFlight? then Free else Illegal
    case Confirmed(_, h) => if p == Done(h) then Free else Illegal
    case Lost(_, h) => if p == Done(h) then Free else Illegal
    case Cancelled(_, h) => if p == InFlight(h) then Free else Illegal
  }

  function PhaseOf(log: seq<Entry>, m: nat): Phase {
    if log == [] then Free else Advance(PhaseOf(log[..|log| - 1], m), log[|log| - 1], m)
  }

  lemma PhaseOfAppend(log: seq<Entry>, e: Entry, m: nat)
    ensures PhaseOf(log + [e], m) == Advance(PhaseOf(log, m), e, m)
  {
    assert (log + [e])[..|log|] == log;
  }

  // ----------------------------------------------------- the state machine

  /** Program counter of the interrupt: `Check(3)` is about to clear the flags. */
  datatype Isr = Idle | Check(next: nat)

  datatype State = State(port: Port, isr: Isr, log: seq<Entry>)

  datatype Event =
    | Write(handle: nat)
    | Complete(box: nat, ok: bool)
    | IsrEnter
    | IsrStep
    | Reset

  /** Records what becomes of the write in mailbox `m` when its flags are wiped. */
  function Forget(log: seq<Entry>, m: nat, reset: bool): seq<Entry> {
    match PhaseOf(log, m)
    case Done(h) => log + [Lost(m, h)]
    case InFlight(h) => if reset then log + [Cancelled(m, h)] else log
    case _ => log
  }

  function ForgetFrom(log: seq<Entry>, m: nat, reset: bool): seq<Entry>
    decreases MAILBOXES - m
  {
    if m >= MAILBOXES then log else ForgetFrom(Forget(log, m, reset), m + 1, reset)
  }

  function Step(s: State, e: Event): State
    requires s.port.Valid() && (s.isr.Check? ==> s.isr.next <= MAILBOXES)
  {
    match e
    case Write(h) =>
      var m := FreeBox(s.port.boxes, 0);
      if m == MAILBOXES then s
      else s.(port := Load(s.port, m, h), log := Forget(s.log, m, false) + [Accepted(m, h)])
    case Complete(m, ok) =>
      if m >= MAILBOXES || s.port.boxes[m].empty then s
      else s.(port := Settle(s.port, m, ok), log := s.log + [if ok then Sent(m) else Failed(m)])
    case IsrEnter =>
      if s.isr.Idle? then s.(isr := Check(0)) else s
    case IsrStep =>
      if s.isr.Idle? then s
      else if s.isr.next == MAILBOXES then
        State(ClearCompleted(s.port), Idle, ForgetFrom(s.log, 0, false))
      else
        var m := s.isr.next;
        s.(isr := Check(m + 1),
           log := if s.port.boxes[m].StatusOk() then s.log + [Confirmed(m, s.port.handles[m])] else s.log)
    case Reset =>
      s.(port := ResetPort(s.port), log := ForgetFrom(s.log, 0, true))
  }

  predicate BoxInv(s: State, m: nat)
    requires s.port.Valid() && m < MAILBOXES
  {
    var box, h, phase := s.port.boxes[m], s.port.handles[m], PhaseOf(s.log, m);
    && phase != Illegal
    && (box.empty <==> !phase.InFlight?)
    && (phase.InFlight? ==> phase.handle == h)
    && (phase.Done? ==> box.StatusOk() && phase.handle == h)
    && (box.StatusOk() && (s.isr.Idle? || s.isr.next <= m) ==> phase == Done(h))
  }

  predicate Inv(s: State) {
    && s.port.Valid()
    && (s.isr.Check? ==> s.isr.next <= MAILBOXES)
    && (forall m :: 0 <= m < MAILBOXES ==> BoxInv(s, m))
  }

  /** After `CAN_DeInit` and before any write, whatever the handle table holds. */
  predicate Initial(s: State) {
    s.port.Valid() && s.port == ResetPort(s.port) && s.isr.Idle? && s.log == []
  }

  lemma ForgetPhase(log: seq<Entry>, m: nat, reset: bool, k: nat)
    ensures PhaseOf(Forget(log, m, reset), k) ==
            if k != m then PhaseOf(log, k)
            else if PhaseOf(log, m).Done? || (reset && PhaseOf(log, m).InFlight?) then Free
            else PhaseOf(log, m)
  {
    hide PhaseOf;
    match PhaseOf(log, m)
    case Done(h) => PhaseOfAppend(log, Lost(m, h), k);
    case InFlight(h) => PhaseOfAppend(log, Cancelled(m, h), k);
    case _ =>
  }

  lemma {:induction false} ForgetFromPhase(log: seq<Entry>, m: nat, reset: bool, k: nat)
    ensures PhaseOf(ForgetFrom(log, m, reset), k) ==
            if k < m || k >= MAILBOXES then PhaseOf(log, k)
            else if PhaseOf(log, k).Done? || (reset && PhaseOf(log, k).InFlight?) then Free
            else PhaseOf(log, k)
    decreases MAILBOXES - m
  {
    if m < MAILBOXES {
      ForgetPhase(log, m, reset, k);
      ForgetFromPhase(Forget(log, m, reset), m + 1, reset, k);
    }
  }

  lemma WriteKeepsBox(s: State, h: nat, k: nat)
    requires Inv(s) && k < MAILBOXES
    ensures BoxInv(Step(s, Write(h)), k)
  {
    hide PhaseOf;
    assert BoxInv(s, k);
    var m := FreeBox(s.port.boxes, 0);
    if m < MAILBOXES {
      assert BoxInv(s, m);
      ForgetPhase(s.log, m, false, k);
      PhaseOfAppend(Forget(s.log, m, false), Accepted(m, h), k);
    }
  }

  lemma CompleteKeepsBox(s: State, m: nat, ok: bool, k: nat)
    requires Inv(s) && k < MAILBOXES
    ensures BoxInv(Step(s, Complete(m, ok)), k)
  {
    hide PhaseOf;
    assert BoxInv(s, k);
    PhaseOfAppend(s.log, if ok then Sent(m) else Failed(m), k);
  }

  lemma IsrStepKeepsBox(s: State, k: nat)
    requires Inv(s) && k < MAILBOXES
    ensures BoxInv(Step(s, IsrStep), k)
  {
    hide PhaseOf;
    assert BoxInv(s, k);
    if s.isr.Check? && s.isr.next == MAILBOXES {
      ForgetFromPhase(s.log, 0, false, k);
    } else if s.isr.Check? {
      PhaseOfAppend(s.log, Confirmed(s.isr.next, s.port.handles[s.isr.next]), k);
    }
  }

  lemma ResetKeepsBox(s: State, k: nat)
    requires Inv(s) && k < MAILBOXES
    ensures BoxInv(Step(s, Reset), k)
  {
    hide PhaseOf;
    assert BoxInv(s, k);
    ForgetFromPhase(s.log, 0, true, k);
  }

  lemma StepKeepsInv(s: State, e: Event)
    requires Inv(s)
    ensures Inv(Step(s, e))
  {
    forall k | 0 <= k < MAILBOXES
      ensures BoxInv(Step(s, e), k)
    {
      match e
      case Write(h) => WriteKeepsBox(s, h, k);
      case Complete(m, ok) => CompleteKeepsBox(s, m, ok, k);
      case IsrEnter => assert BoxInv(s, k);
      case IsrStep => IsrStepKeepsBox(s, k);
      case Reset => ResetKeepsBox(s, k);
    }
  }

  function Run(s: State, es: seq<Event>): State
    requires Inv(s)
    decreases |es|
  {
    if es == [] then s else StepKeepsInv(s, es[0]); Run(Step(s, es[0]), es[1..])
  }

  lemma {:induction false} RunKeepsInv(s: State, es: seq<Event>)
    requires Inv(s)
    ensures Inv(Run(s, es))
    decreases |es|
  {
    if es != [] {
      StepKeepsInv(s, es[0]);
      RunKeepsInv(Step(s, es[0]), es[1..]);
    }
  }

  // -------------------------------------------------------------- theorems

  /** `log[j]` accepted handle `h` into mailbox `m`, `log[k]` sent it, and nothing
    * else has happened to that mailbox since `j`. */
  predicate SentSince(log: seq<Entry>, m: nat, h: nat, j: nat, k: nat) {
    && j < k < |log| && log[j] == Accepted(m, h) && log[k] == Sent(m)
    && forall x :: j < x < |log| && x != k ==> log[x].box != m
  }

  predicate AcceptedSince(log: seq<Entry>, m: nat, h: nat, j: nat) {
    j < |log| && log[j] == Accepted(m, h) && forall x :: j < x < |log| ==> log[x].box != m
  }

  lemma {:induction false} InFlightMeaning(log: seq<Entry>, m: nat, h: nat) returns (j: nat)
    requires PhaseOf(log, m) == InFlight(h)
    ensures AcceptedSince(log, m, h, j)
  {
    var n := |log| - 1;
    if log[n].box == m {
      j := n;
    } else {
      j := InFlightMeaning(log[..n], m, h);
    }
  }

  lemma {:induction false} DoneMeaning(log: seq<Entry>, m: nat, h: nat) returns (j: nat, k: nat)
    requires PhaseOf(log, m) == Done(h)
    ensures SentSince(log, m, h, j, k)
  {
    var n := |log| - 1;
    if log[n].box == m {
      k := n;
      j := InFlightMeaning(log[..n], m, h);
    } else {
      j, k := DoneMeaning(log[..n], m, h);
    }
  }

  /** A legal phase now means a legal phase after every prefix. */
  lemma {:induction false} LegalPrefix(log: seq<Entry>, m: nat, i: nat)
    requires PhaseOf(log, m) != Illegal && i <= |log|
    ensures PhaseOf(log[..i], m) != Illegal
  {
    if i == |log| {
      assert log[..i] == log;
    } else {
      LegalPrefix(log[..|log| - 1], m, i);
      assert log[..|log| - 1][..i] == log[..i];
    }
  }

  /** Over every interleaving of writes, completions, interrupt accesses and
    * resets, a confirmation carries the handle of the latest accepted write into
    * its mailbox, that write was sent in between, and nothing else happened to the
    * mailbox: so no write is confirmed twice and none is confirmed unsent. */
  lemma ConfirmationsAreExact(s: State, es: seq<Event>, i: nat, m: nat, h: nat) returns (j: nat, k: nat)
    requires Initial(s)
    requires m < MAILBOXES && i < |Run(s, es).log| && Run(s, es).log[i] == Confirmed(m, h)
    ensures i < |Run(s, es).log| && SentSince(Run(s, es).log[..i], m, h, j, k)
  {
    RunKeepsInv(s, es);
    var log := Run(s, es).log;
    assert BoxInv(Run(s, es), m);
    LegalPrefix(log, m, i + 1);
    assert log[..i + 1][..i] == log[..i];
    assert PhaseOf(log[..i], m) == Done(h);
    j, k := DoneMeaning(log[..i], m, h);
  }

  function Acceptances(log: seq<Entry>, m: nat): nat {
    if log == [] then 0
    else
      var e := log[|log| - 1];
      Acceptances(log[..|log| - 1], m) + if e.box == m && e.Accepted? then 1 else 0
  }

  /** How many writes into mailbox `m` have met their end, in any of the four ways. */
  function Endings(log: seq<Entry>, m: nat): nat {
    if log == [] then 0
    else
      var e := log[|log| - 1];
      Endings(log[..|log| - 1], m) +
      if e.box == m && (e.Confirmed? || e.Lost? || e.Failed? || e.Cancelled?) then 1 else 0
  }

  lemma {:induction false} Balanced(log: seq<Entry>, m: nat)
    requires PhaseOf(log, m) != Illegal
    ensures Acceptances(log, m) == Endings(log, m) + if PhaseOf(log, m).Free? then 0 else 1
  {
    if log != [] {
      LegalPrefix(log, m, |log| - 1);
      Balanced(log[..|log| - 1], m);
    }
  }

  /** Conservation: every accepted write is confirmed, lost, failed, cancelled, or
    * still in its mailbox, and exactly one of these. */
  lemma WritesAreConserved(s: State, es: seq<Event>, m: nat)
    requires Initial(s) && m < MAILBOXES
    ensures var t := Run(s, es);
            && t.port.Valid()
            && Acceptances(t.log, m) ==
               Endings(t.log, m) +
               if t.port.boxes[m].empty && !PhaseOf(t.log, m).Done? then 0 else 1
  {
    RunKeepsInv(s, es);
    assert BoxInv(Run(s, es), m);
    Balanced(Run(s, es).log, m);
  }

  // ------------------------------------------------- projections of a history

  function ConfirmedPairs(log: seq<Entry>): seq<(nat, nat)> {
    if log == [] then []
    else
      var e := log[|log| - 1];
      ConfirmedPairs(log[..|log| - 1]) + if e.Confirmed? then [(e.box, e.handle)] else []
  }

  function AcceptedHandles(log: seq<Entry>): seq<nat> {
    if log == [] then []
    else
      var e := log[|log| - 1];
      AcceptedHandles(log[..|log| - 1]) + if e.Accepted? then [e.handle] else []
  }

  lemma ProjectionsSnoc(log: seq<Entry>, e: Entry)
    ensures ConfirmedPairs(log + [e]) == ConfirmedPairs(log) + if e.Confirmed? then [(e.box, e.handle)] else []
    ensures AcceptedHandles(log + [e]) == AcceptedHandles(log) + if e.Accepted? then [e.handle] else []
  {
    assert (log + [e])[..|log|] == log;
  }

  lemma ForgetProjections(log: seq<Entry>, m: nat, reset: bool)
    ensures ConfirmedPairs(Forget(log, m, reset)) == ConfirmedPairs(log)
    ensures AcceptedHandles(Forget(log, m, reset)) == AcceptedHandles(log)
  {
    match PhaseOf(log, m)
    case Done(h) => ProjectionsSnoc(log, Lost(m, h));
    case InFlight(h) => ProjectionsSnoc(log, Cancelled(m, h));
    case _ =>
  }

  lemma {:induction false} ForgetFromProjections(log: seq<Entry>, m: nat, reset: bool)
    ensures ConfirmedPairs(ForgetFrom(log, m, reset)) == ConfirmedPairs(log)
    ensures AcceptedHandles(ForgetFrom(log, m, reset)) == AcceptedHandles(log)
    decreases MAILBOXES - m
  {
    if m < MAILBOXES {
      ForgetProjections(log, m, reset);
      ForgetFromProjections(Forget(log, m, reset), m + 1, reset);
    }
  }

  // ------------------------------------------------- an uninterrupted pass

  lemma InvMeans(s: State)
    requires Inv(s)
    ensures s.port.Valid() && (s.isr.Check? ==> s.isr.next <= MAILBOXES)
  {
  }

  lemma {:induction false} RunConcat(s: State, a: seq<Event>, b: seq<Event>)
    requires Inv(s)
    ensures Inv(Run(s, a)) && Run(s, a + b) == Run(Run(s, a), b)
    decreases |a|
  {
    hide Inv, Step;
    InvMeans(s);
    RunKeepsInv(s, a);
    if a == [] {
      assert a + b == b;
    } else {
      StepKeepsInv(s, a[0]);
      RunConcat(Step(s, a[0]), a[1..], b);
      assert (a + b)[1..] == a[1..] + b;
    }
  }

  /** What a pass confirms from mailbox `m` on. */
  function PassPairs(p: Port, m: nat): seq<(nat, nat)>
    requires p.Valid()
    decreases MAILBOXES - m
  {
    if m >= MAILBOXES then []
    else (if p.boxes[m].StatusOk() then [(m, p.handles[m])] else []) + PassPairs(p, m + 1)
  }

  function PassFrom(m: nat): seq<Event>
    decreases MAILBOXES - m
  {
    if m >= MAILBOXES then [IsrStep] else [IsrStep] + PassFrom(m + 1)
  }

  lemma PassUnfolds(p: Port, m: nat)
    requires p.Valid() && m <= MAILBOXES
    ensures PassFrom(m) == [IsrStep] + if m == MAILBOXES then [] else PassFrom(m + 1)
    ensures PassPairs(p, m) ==
            if m == MAILBOXES then []
            else (if p.boxes[m].StatusOk() then [(m, p.handles[m])] else []) + PassPairs(p, m + 1)
  {
  }

  lemma RunCons(s: State, e: Event, es: seq<Event>)
    requires Inv(s)
    ensures s.port.Valid() && (s.isr.Check? ==> s.isr.next <= MAILBOXES) && Inv(Step(s, e))
    ensures Run(s, [e] + es) == Run(Step(s, e), es)
  {
    hide Inv, Step;
    InvMeans(s);
    StepKeepsInv(s, e);
    assert ([e] + es)[0] == e && ([e] + es)[1..] == es;
  }

  lemma IsrStepIs(s: State, m: nat)
    requires s.port.Valid() && m <= MAILBOXES && s.isr == Check(m)
    ensures Step(s, IsrStep) ==
            if m == MAILBOXES then State(ClearCompleted(s.port), Idle, ForgetFrom(s.log, 0, false))
            else
              s.(isr := Check(m + 1),
                 log := if s.port.boxes[m].StatusOk() then s.log + [Confirmed(m, s.port.handles[m])] else s.log)
  {
  }

  lemma {:induction false} PassFromEffect(s: State, m: nat)
    requires Inv(s) && s.port.Valid() && m <= MAILBOXES && s.isr == Check(m)
    ensures var t := Run(s, PassFrom(m));
            && Inv(t) && t.isr.Idle? && t.port == ClearCompleted(s.port)
            && ConfirmedPairs(t.log) == ConfirmedPairs(s.log) + PassPairs(s.port, m)
            && AcceptedHandles(t.log) == AcceptedHandles(s.log)
    decreases MAILBOXES - m
  {
    hide Inv, PhaseOf, ConfirmedPairs, AcceptedHandles, ForgetFrom, Mailbox.StatusOk, ClearCompleted,
      PassFrom, PassPairs, Step;
    PassUnfolds(s.port, m);
    IsrStepIs(s, m);
    if m == MAILBOXES {
      RunCons(s, IsrStep, []);
      ForgetFromProjections(s.log, 0, false);
    } else {
      RunCons(s, IsrStep, PassFrom(m + 1));
      var s1 := Step(s, IsrStep);
      ProjectionsSnoc(s.log, Confirmed(m, s.port.handles[m]));
      PassFromEffect(s1, m + 1);
      assert ConfirmedPairs(s1.log) + PassPairs(s.port, m + 1) == ConfirmedPairs(s.log) + PassPairs(s.port, m);
    }
  }

  /** The interrupt taken as one atomic step, as the driver's model takes it. */
  function Pass(): (r: seq<Event>)
    ensures r != []
  {
    [IsrEnter] + PassFrom(0)
  }

  lemma PassEffect(s: State)
    requires Inv(s) && s.isr.Idle?
    ensures var t := Run(s, Pass());
            && Inv(t) && t.isr.Idle? && t.port == ClearCompleted(s.port)
            && ConfirmedPairs(t.log) == ConfirmedPairs(s.log) + PassPairs(s.port, 0)
            && AcceptedHandles(t.log) == AcceptedHandles(s.log)
  {
    StepKeepsInv(s, IsrEnter);
    PassFromEffect(Step(s, IsrEnter), 0);
    assert Pass()[0] == IsrEnter && Pass()[1..] == PassFrom(0);
  }

  lemma SingleEffect(s: State, e: Event)
    requires Inv(s) && s.isr.Idle? && (e.Write? || e.Complete? || e.Reset?)
    ensures Run(s, [e]) == Step(s, e) && Inv(Step(s, e)) && Step(s, e).isr.Idle?
    ensures var t := Step(s, e);
            && ConfirmedPairs(t.log) == ConfirmedPairs(s.log)
            && AcceptedHandles(t.log) == AcceptedHandles(s.log) +
                 if e.Write? && FreeBox(s.port.boxes, 0) < MAILBOXES then [e.handle] else []
  {
    hide PhaseOf, ConfirmedPairs, AcceptedHandles, Inv;
    InvMeans(s);
    StepKeepsInv(s, e);
    assert [e][1..] == [];
    match e
    case Write(h) =>
      var m := FreeBox(s.port.boxes, 0);
      if m < MAILBOXES {
        ForgetProjections(s.log, m, false);
        ProjectionsSnoc(Forget(s.log, m, false), Accepted(m, h));
      }
    case Complete(m, ok) => ProjectionsSnoc(s.log, if ok then Sent(m) else Failed(m));
    case Reset => ForgetFromProjections(s.log, 0, true);
  }
}
