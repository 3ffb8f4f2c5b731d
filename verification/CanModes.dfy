/** Deferred mode indications: `Can_SetControllerMode` only notes them, the main
  * function delivers them later. */
module CanModes {
  import opened Basics
  import opened CanSpec
  import opened CanEffects

  /** The event makes controller `x` accept a transition. */
  predicate Accepts(d: Driver, e: Event, x: nat)
    requires Wf(d) && Possible(d, e) && x < |d.units|
  {
    match e
    case EvSetMode(c, t, ok) => c == x && !t.Unknown? && SetMode(d, c, t, ok).1
    case EvErrIsr(c, wake, busOff) => c == x && ErrorTaken(d, x, wake, busOff)
    case _ => false
  }

  function Acceptances(d: Driver, es: seq<Event>, x: nat): nat
    requires Wf(d) && ValidRun(d, es) && x < |d.units|
    decreases |es|
  {
    if es == [] then 0
    else (if Accepts(d, es[0], x) then 1 else 0) + Acceptances(Step(d, es[0]), es[1..], x)
  }

  function Owed(u: Unit): nat { if u.pending.Nothing? then 0 else 1 }

  /** An indication is only ever sent for the mode the controller is in. */
  lemma IndicationsAreTrue(d: Driver, e: Event, x: nat)
    requires Wf(d) && Possible(d, e) && x < |d.units|
    ensures var r := Step(d, e);
            || Indications(r.calls, x) == Indications(d.calls, x)
            || (&& Indications(r.calls, x) == Indications(d.calls, x) + [r.units[x].mode]
                && r.units[x].mode == d.units[x].mode)
  {
    hide Step, Indications;
    StepIndications(d, e, x);
    StepCore(d, e, x);
  }

  lemma StepBudget(d: Driver, e: Event, x: nat)
    requires Wf(d) && Possible(d, e) && x < |d.units|
    ensures var r := Step(d, e);
            |Indications(r.calls, x)| + Owed(r.units[x]) <=
            |Indications(d.calls, x)| + Owed(d.units[x]) + if Accepts(d, e, x) then 1 else 0
  {
    hide Step, Indications;
    StepIndications(d, e, x);
    StepCore(d, e, x);
  }

  /** At most one indication per accepted transition, in every stretch of every run:
    * what is indicated and still owed never exceeds what was owed at the beginning
    * plus what has been accepted since. */
  lemma {:induction false} IndicationsAreBudgeted(d: Driver, es: seq<Event>, x: nat)
    requires Wf(d) && ValidRun(d, es) && x < |d.units|
    ensures var r := Run(d, es);
            |Indications(r.calls, x)| + Owed(r.units[x]) <=
            |Indications(d.calls, x)| + Owed(d.units[x]) + Acceptances(d, es, x)
    decreases |es|
  {
    hide Step, Indications;
    if es != [] {
      StepBudget(d, es[0], x);
      IndicationsAreBudgeted(Step(d, es[0]), es[1..], x);
    }
  }

  /** A mode request for `x`, an error interrupt of `x`, or a shutdown. */
  predicate Disturbs(e: Event, x: nat) {
    match e
    case EvSetMode(c, _, _) => c == x
    case EvErrIsr(c, _, _) => c == x
    case EvDeInit => true
    case _ => false
  }

  /** Controller `x` is configured and in `mode`; `pending` is still to be told. */
  predicate Waiting(d: Driver, x: nat, mode: Mode, pending: Pending) {
    && Wf(d) && d.Ready() && x < |d.units| && Configures(d.config.value, x)
    && d.units[x].mode == mode && d.units[x].pending == pending
  }

  lemma UndisturbedStep(d: Driver, e: Event, x: nat, mode: Mode, pending: Pending)
    requires Waiting(d, x, mode, pending) && Possible(d, e) && !Disturbs(e, x)
    ensures Waiting(Step(d, e), x, mode, if e.EvMain? then Nothing else pending)
    ensures Indications(Step(d, e).calls, x) ==
            Indications(d.calls, x) + if e.EvMain? then Modes(Indication(d.units[x])) else []
  {
    hide Step, Indications;
    StepIndications(d, e, x);
    StepCore(d, e, x);
  }

  lemma {:induction false} UndisturbedRun(d: Driver, es: seq<Event>, x: nat, mode: Mode, pending: Pending)
    requires Waiting(d, x, mode, pending) && ValidRun(d, es)
    requires forall i :: 0 <= i < |es| ==> !Disturbs(es[i], x)
    ensures Indications(Run(d, es).calls, x) ==
            Indications(d.calls, x) + if EvMain in es then Modes(Indication(d.units[x])) else []
    decreases |es|
  {
    hide Step, Indications;
    if es != [] {
      UndisturbedStep(d, es[0], x, mode, pending);
      var d1 := Step(d, es[0]);
      UndisturbedRun(d1, es[1..], x, mode, if es[0].EvMain? then Nothing else pending);
      assert EvMain in es <==> es[0].EvMain? || EvMain in es[1..];
    }
  }

  /** After an accepted request, as long as no further request, error interrupt or
    * shutdown intervenes, the new mode is indicated exactly once if the main
    * function runs at all, however often, and not at all if it does not. */
  lemma ExactlyOneIndication(d: Driver, x: nat, t: Transition, hwOk: bool, es: seq<Event>)
    requires Wf(d) && d.Ready() && x < |d.units| && Configures(d.config.value, x)
    requires !t.Unknown? && SetMode(d, x, t, hwOk).1
    requires ValidRun(SetMode(d, x, t, hwOk).0, es)
    requires forall i :: 0 <= i < |es| ==> !Disturbs(es[i], x)
    ensures Indications(Run(SetMode(d, x, t, hwOk).0, es).calls, x) ==
            Indications(d.calls, x) + if EvMain in es then [Target(t).0] else []
  {
    hide SetMode, Indications, Run, ValidRun;
    SetModeEffect(d, x, t, hwOk, x);
    var d1 := SetMode(d, x, t, hwOk).0;
    UndisturbedRun(d1, es, x, Target(t).0, Target(t).1);
    assert Indication(d1.units[x]) == Some(Target(t).0);
  }
}
