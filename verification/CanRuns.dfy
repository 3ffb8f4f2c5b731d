/** Whole-run theorems about the CAN driver: they hold over every sequence of API
  * calls, interrupts and hardware events. */
module CanRuns {
  import opened Basics
  import opened CanConfig
  import opened CanSpec
  import opened CanEffects

  // ------------------------------------------------------ the interrupt lock

  /** Nesting depth after an event: what a caller counting disables and enables,
    * never below zero, would say. */
  function NextDepth(d: Driver, e: Event, x: nat, depth: nat): nat {
    match e
    case EvInit(cfg, _) => if InitAccepted(d, cfg) && Configures(cfg.value, x) then 0 else depth
    case EvDeInit => if d.Ready() && Configures(d.config.value, x) then 0 else depth
    case EvDisable(c) => if c == x && d.Ready() then depth + 1 else depth
    case EvEnable(c) => if c == x && d.Ready() && depth > 0 then depth - 1 else depth
    case _ => depth
  }

  /** The transmit, FIFO 0, bus-off, error and wake-up enables are all clear. */
  predicate Silent(e: Enables) { !e.tme && !e.fmp0 && !e.bof && !e.err && !e.wku }

  predicate MaskedWhileLocked(u: Unit) { u.lockCnt > 0 ==> Silent(u.enables) }

  lemma StepLock(d: Driver, e: Event, x: nat)
    requires Wf(d) && Possible(d, e) && x < |d.units| && MaskedWhileLocked(d.units[x])
    ensures MaskedWhileLocked(Step(d, e).units[x])
    ensures Step(d, e).units[x].lockCnt == NextDepth(d, e, x, d.units[x].lockCnt) % TWO32
  {
    hide Step;
    StepCore(d, e, x);
  }

  function Depth(d: Driver, es: seq<Event>, x: nat, depth: nat): nat
    requires Wf(d) && ValidRun(d, es)
    decreases |es|
  {
    if es == [] then depth else Depth(Step(d, es[0]), es[1..], x, NextDepth(d, es[0], x, depth))
  }

  /** The nesting never exceeds what the 32-bit counter can hold. */
  predicate NeverTooDeep(d: Driver, es: seq<Event>, x: nat, depth: nat)
    requires Wf(d) && ValidRun(d, es)
    decreases |es|
  {
    && depth < TWO32
    && (es != [] ==> NeverTooDeep(Step(d, es[0]), es[1..], x, NextDepth(d, es[0], x, depth)))
  }

  /** At every point of the run the counter is the nesting depth, and while it is
    * positive the transmit, FIFO 0, bus-off, error and wake-up enables are clear. */
  predicate LockExactThroughout(d: Driver, es: seq<Event>, x: nat, depth: nat)
    requires Wf(d) && ValidRun(d, es) && x < |d.units|
    decreases |es|
  {
    && d.units[x].lockCnt == depth
    && (depth > 0 ==> var e := d.units[x].enables; !e.tme && !e.fmp0 && !e.bof && !e.err && !e.wku)
    && (es != [] ==> LockExactThroughout(Step(d, es[0]), es[1..], x, NextDepth(d, es[0], x, depth)))
  }

  lemma {:induction false} LockExactIff(d: Driver, es: seq<Event>, x: nat, depth: nat)
    requires Wf(d) && ValidRun(d, es) && x < |d.units|
    requires d.units[x].lockCnt == depth && MaskedWhileLocked(d.units[x])
    ensures LockExactThroughout(d, es, x, depth) <==> NeverTooDeep(d, es, x, depth)
    decreases |es|
  {
    hide Step, NextDepth;
    if es != [] {
      var e, next := Step(d, es[0]), NextDepth(d, es[0], x, depth);
      StepLock(d, es[0], x);
      if next < TWO32 {
        LockExactIff(e, es[1..], x, next);
      } else {
        assert e.units[x].lockCnt < TWO32 by { assert UnitOk(e.units[x]); }
      }
    }
  }

  /** In every run from power-on the lock counter is exact, and what it covers stays
    * masked while it is held, if and only if the nesting fits in 32 bits. */
  lemma LockFromPowerOn(d: Driver, es: seq<Event>, x: nat)
    requires PowerOn(d) && ValidRun(d, es) && x < |d.units|
    ensures LockExactThroughout(d, es, x, 0) <==> NeverTooDeep(d, es, x, 0)
  {
    LockExactIff(d, es, x, 0);
  }

  /** The outermost disable clears those five enables, keeps that of FIFO 1 and everything
    * else; a nested one keeps all enables. */
  lemma DisableMasks(d: Driver, x: nat)
    requires Wf(d) && d.Ready() && x < |d.units|
    ensures var u, v := d.units[x], Disable(d, x).units[x];
            if u.lockCnt == 0
            then v == u.(lockCnt := 1, enables := Enables(false, false, u.enables.fmp1, false, false, false))
            else v == u.(lockCnt := v.lockCnt)
    ensures Disable(d, x) == d.(units := d.units[x := Disable(d, x).units[x]])
  {
  }

  /** The enable that undoes the outermost disable adds the sources that the configuration
    * has processed by interrupt; a nested one leaves the enables alone. */
  lemma EnableUnmasks(d: Driver, x: nat)
    requires Wf(d) && d.Ready() && x < |d.units|
    ensures var u, v, ctl := d.units[x], Enable(d, x).units[x], ConfigOf(d, x);
            if u.lockCnt <= 1
            then v == u.(lockCnt := 0, enables :=
              Enables(u.enables.tme || ctl.txIrq, u.enables.fmp0 || ctl.rxIrq, u.enables.fmp1 || ctl.rxIrq,
                      u.enables.bof || ctl.busOffIrq, u.enables.err || ctl.busOffIrq,
                      u.enables.wku || ctl.busOffIrq))
            else v == u.(lockCnt := u.lockCnt - 1)
    ensures Enable(d, x) == d.(units := d.units[x := Enable(d, x).units[x]])
  {
  }

  /** Unlocked, exactly the sources that the configuration has processed by interrupt are
    * enabled; locked, none of them but possibly FIFO 1. */
  predicate Sourced(d: Driver, x: nat) {
    && Wf(d) && d.Ready() && x < |d.units|
    && var u, ctl := d.units[x], ConfigOf(d, x);
       && (u.lockCnt == 0 ==>
             u.enables == Enables(ctl.txIrq, ctl.rxIrq, ctl.rxIrq, ctl.busOffIrq, ctl.busOffIrq, ctl.busOffIrq))
       && (u.lockCnt > 0 ==> Silent(u.enables) && (u.enables.fmp1 ==> ctl.rxIrq))
  }

  /** The event may reset the controller or take its configuration away. */
  predicate Unsettles(e: Event, x: nat) {
    e.EvInit? || e.EvDeInit? || (e.EvChangeBaudrate? && e.c == x) || (e.EvSetMode? && e.c == x && e.t.ToStart?)
  }

  /** An accepted start leaves exactly the configured sources, unless it finds the
    * controller locked: then none. */
  lemma StartSources(d: Driver, x: nat, hwOk: bool)
    requires Wf(d) && SetMode(d, x, ToStart, hwOk).1
    ensures Sourced(SetMode(d, x, ToStart, hwOk).0, x)
  {
    hide ChangeBaudrate;
    var d0 := SetUnit(d, x, d.units[x].(pending := Nothing));
    var rate := ConfigOf(d, x).defaultRate;
    ChangeBaudrateEffect(d0, x, rate, hwOk, x);
    ChangeSilences(d0, x, rate, hwOk);
    var d1 := ChangeBaudrate(d0, x, rate, hwOk).0;
    EnableUnmasks(SetUnit(d1, x, d1.units[x].(mode := Started)), x);
  }

  lemma ChangeSilences(d: Driver, x: nat, rate: nat, hwOk: bool)
    requires Wf(d) && ChangeBaudrate(d, x, rate, hwOk).1
    ensures ChangeBaudrate(d, x, rate, hwOk).0.units[x].enables == Enables(false, false, false, false, false, false)
  {
  }

  lemma StepSources(d: Driver, e: Event, x: nat)
    requires Sourced(d, x) && Possible(d, e) && !Unsettles(e, x) && !OverflowsLock(d, e, x)
    ensures Sourced(Step(d, e), x)
  {
    hide Step, Silent;
    StepCore(d, e, x);
    if e == EvDisable(x) {
      DisableSources(d, x);
    } else if e == EvEnable(x) {
      EnableSources(d, x);
    } else {
      StepGlobals(d, e, x);
      if e.EvSetMode? && e.c == x {
        SetModeEffect(d, x, e.t, e.hwOk, x);
        SetModeStep(d, e);
      }
    }
  }

  predicate OverflowsLock(d: Driver, e: Event, x: nat)
    requires x < |d.units|
  {
    e == EvDisable(x) && d.Ready() && d.units[x].lockCnt == TWO32 - 1
  }

  lemma SetModeStep(d: Driver, e: Event)
    requires Wf(d) && e.EvSetMode?
    ensures Step(d, e) == SetMode(d, e.c, e.t, e.hwOk).0
  {
  }

  lemma DisableSources(d: Driver, x: nat)
    requires Sourced(d, x) && d.units[x].lockCnt < TWO32 - 1
    ensures Sourced(Step(d, EvDisable(x)), x)
  {
    DisableMasks(d, x);
  }

  lemma EnableSources(d: Driver, x: nat)
    requires Sourced(d, x)
    ensures Sourced(Step(d, EvEnable(x)), x)
  {
    EnableUnmasks(d, x);
  }

  /** One disable too many: the counter says unlocked, and nothing interrupts. */
  lemma OverflowUnsources(d: Driver, x: nat)
    requires Sourced(d, x) && OverflowsLock(d, EvDisable(x), x)
    ensures var ctl := ConfigOf(d, x);
            Sourced(Step(d, EvDisable(x)), x) ==> !ctl.txIrq && !ctl.rxIrq && !ctl.busOffIrq
  {
  }

  predicate SourcedThroughout(d: Driver, es: seq<Event>, x: nat)
    requires Wf(d) && ValidRun(d, es)
    decreases |es|
  {
    Sourced(d, x) && (es != [] ==> SourcedThroughout(Step(d, es[0]), es[1..], x))
  }

  /** Some processing is by interrupt. */
  predicate UsesInterrupts(ctl: Controller) { ctl.txIrq || ctl.rxIrq || ctl.busOffIrq }

  lemma SourcesStep(d: Driver, e: Event, x: nat)
    requires Sourced(d, x) && Possible(d, e) && !Unsettles(e, x) && UsesInterrupts(ConfigOf(d, x))
    ensures var r, next := Step(d, e), NextDepth(d, e, x, d.units[x].lockCnt);
            && d.units[x].lockCnt < TWO32 && (Sourced(r, x) <==> next < TWO32)
            && (next < TWO32 ==> r.units[x].lockCnt == next && ConfigOf(r, x) == ConfigOf(d, x))
  {
    hide Step, Silent;
    assert UnitOk(d.units[x]);
    StepLock(d, e, x);
    if OverflowsLock(d, e, x) {
      OverflowUnsources(d, x);
    } else {
      StepSources(d, e, x);
      StepKeepsConfig(d, e, x);
    }
  }

  /** From an accepted start on, in every run without initialisation, shut-down, or another
    * reset of the controller: whenever the counter says unlocked, exactly the configured
    * sources interrupt, if and only if the nesting fits in 32 bits. */
  lemma {:induction false} SourcesFollowConfigIff(d: Driver, es: seq<Event>, x: nat)
    requires Sourced(d, x) && ValidRun(d, es) && forall i :: 0 <= i < |es| ==> !Unsettles(es[i], x)
    requires UsesInterrupts(ConfigOf(d, x))
    ensures SourcedThroughout(d, es, x) <==> NeverTooDeep(d, es, x, d.units[x].lockCnt)
    decreases |es|
  {
    hide Step, Unsettles, Sourced, NextDepth, UsesInterrupts;
    SourcedMeans(d, x);
    if es != [] {
      SourcesStep(d, es[0], x);
      if Sourced(Step(d, es[0]), x) {
        SourcedMeans(Step(d, es[0]), x);
        SourcesFollowConfigIff(Step(d, es[0]), es[1..], x);
      }
    } else {
      assert d.units[x].lockCnt < TWO32 by { assert UnitOk(d.units[x]); }
    }
  }

  lemma SourcedMeans(d: Driver, x: nat)
    requires Sourced(d, x)
    ensures Wf(d) && d.Ready() && x < |d.units|
  {
  }

  lemma StepKeepsConfig(d: Driver, e: Event, x: nat)
    requires Wf(d) && Possible(d, e) && x < |d.units| && !Unsettles(e, x)
    ensures Step(d, e).config == d.config && Step(d, e).channelMap == d.channelMap
  {
    hide Step;
    StepGlobals(d, e, x);
  }

  // -------------------------------------------------- what the lock leaves out

  /** Locked, and still interrupted by FIFO 1. */
  predicate Gap(u: Unit) { u.lockCnt > 0 && u.enables.fmp1 }

  /** The event is an outermost disable of `x` that finds FIFO 1 enabled. */
  predicate OpensGap(d: Driver, e: Event, x: nat)
    requires x < |d.units|
  {
    e == EvDisable(x) && d.Ready() && d.units[x].lockCnt == 0 && d.units[x].enables.fmp1
  }

  lemma StepGap(d: Driver, e: Event, x: nat)
    requires Wf(d) && Possible(d, e) && x < |d.units| && !Gap(d.units[x])
    ensures Gap(Step(d, e).units[x]) <==> OpensGap(d, e, x)
  {
    hide Step;
    StepCore(d, e, x);
  }

  predicate GapFree(d: Driver, es: seq<Event>, x: nat)
    requires Wf(d) && ValidRun(d, es) && x < |d.units|
    decreases |es|
  {
    !Gap(d.units[x]) && (es != [] ==> GapFree(Step(d, es[0]), es[1..], x))
  }

  predicate NeverOpensGap(d: Driver, es: seq<Event>, x: nat)
    requires Wf(d) && ValidRun(d, es) && x < |d.units|
    decreases |es|
  {
    es != [] ==> !OpensGap(d, es[0], x) && NeverOpensGap(Step(d, es[0]), es[1..], x)
  }

  /** Disabling does not mask FIFO 1. So the lock covers it throughout a run if and only
    * if every outermost disable finds it masked already. */
  lemma {:induction false} LockCoversFifo1Iff(d: Driver, es: seq<Event>, x: nat)
    requires Wf(d) && ValidRun(d, es) && x < |d.units| && !Gap(d.units[x])
    ensures GapFree(d, es, x) <==> NeverOpensGap(d, es, x)
    decreases |es|
  {
    hide Step, Gap, OpensGap;
    if es != [] {
      StepGap(d, es[0], x);
      if !OpensGap(d, es[0], x) {
        LockCoversFifo1Iff(Step(d, es[0]), es[1..], x);
      }
    }
  }

  // -------------------------------------------------------- runs and prefixes

  lemma {:induction false} RunSnoc(d: Driver, es: seq<Event>, i: nat)
    requires Wf(d) && ValidRun(d, es) && i < |es|
    ensures ValidRun(d, es[..i]) && ValidRun(d, es[..i + 1])
    ensures Possible(Run(d, es[..i]), es[i])
    ensures Run(d, es[..i + 1]) == Step(Run(d, es[..i]), es[i])
    decreases |es|
  {
    hide Step;
    var e := Step(d, es[0]);
    if i == 0 {
      assert es[..0] == [] && es[..1][1..] == [];
    } else {
      RunSnoc(e, es[1..], i - 1);
      assert es[..i][1..] == es[1..][..i - 1] && es[..i + 1][1..] == es[1..][..i];
    }
  }

  lemma PrefixValid(d: Driver, es: seq<Event>, k: nat)
    requires Wf(d) && ValidRun(d, es) && k <= |es|
    ensures ValidRun(d, es[..k])
  {
    if k > 0 {
      RunSnoc(d, es, k - 1);
    }
  }

  /** Mode of controller `x` after the first `k` events. */
  function ModeAt(d: Driver, es: seq<Event>, k: nat, x: nat): Mode
    requires Wf(d) && ValidRun(d, es) && k <= |es| && x < |d.units|
  {
    PrefixValid(d, es, k);
    Run(d, es[..k]).units[x].mode
  }

  // ------------------------------------------------------- controller safety

  /** The only way into STARTED. */
  lemma StartedOnlyByStart(d: Driver, e: Event, x: nat)
    requires Wf(d) && Possible(d, e) && x < |d.units|
    requires !d.units[x].mode.Started? && Step(d, e).units[x].mode.Started?
    ensures e == EvSetMode(x, ToStart, true) && SetMode(d, x, ToStart, true).1
    ensures d.Ready() && d.units[x].mode.Stopped? && x in d.configured
  {
    hide Step, SetMode;
    StepCore(d, e, x);
  }

  /** `es[j]` is an accepted initialisation that configures `x`. */
  predicate InitialisedAt(d: Driver, es: seq<Event>, j: nat, x: nat)
    requires Wf(d) && ValidRun(d, es)
  {
    && j < |es| && es[j].EvInit?
    && (RunSnoc(d, es, j); InitAccepted(Run(d, es[..j]), es[j].cfg) && Configures(es[j].cfg.value, x))
  }

  lemma {:induction false} ConfiguredByInit(d: Driver, es: seq<Event>, i: nat, x: nat) returns (j: nat)
    requires PowerOn(d) && ValidRun(d, es) && x < |d.units| && i <= |es| && ValidRun(d, es[..i])
    requires x in Run(d, es[..i]).configured
    ensures j < i && InitialisedAt(d, es, j, x)
  {
    hide Step;
    if i == 0 {
      assert false;
    } else {
      RunSnoc(d, es, i - 1);
      var before := Run(d, es[..i - 1]);
      StepCore(before, es[i - 1], x);
      if x in before.configured {
        j := ConfiguredByInit(d, es, i - 1, x);
      } else {
        j := i - 1;
      }
    }
  }

  /** Controller `x` was started by `es[i]` and has been STARTED up to event `n`. */
  predicate StartedSince(d: Driver, es: seq<Event>, i: nat, n: nat, x: nat)
    requires Wf(d) && ValidRun(d, es) && x < |d.units| && n <= |es|
  {
    && i < n && es[i] == EvSetMode(x, ToStart, true) && ModeAt(d, es, i, x).Stopped?
    && forall k :: i < k <= n ==> ModeAt(d, es, k, x).Started?
  }

  /** Event `n` is the one that starts the controller. */
  lemma StartedNow(d: Driver, es: seq<Event>, n: nat, x: nat) returns (j: nat)
    requires PowerOn(d) && ValidRun(d, es) && x < |d.units| && n < |es|
    requires !ModeAt(d, es, n, x).Started? && ModeAt(d, es, n + 1, x).Started?
    ensures j < n && InitialisedAt(d, es, j, x) && StartedSince(d, es, n, n + 1, x)
  {
    hide Step;
    RunSnoc(d, es, n);
    StartedOnlyByStart(Run(d, es[..n]), es[n], x);
    j := ConfiguredByInit(d, es, n, x);
  }

  lemma UninitAtPowerOn(d: Driver, es: seq<Event>, x: nat)
    requires PowerOn(d) && ValidRun(d, es) && x < |d.units|
    ensures ModeAt(d, es, 0, x) == Uninit && Wf(d)
  {
    assert es[..0] == [];
  }

  lemma {:induction false} StartedUpTo(d: Driver, es: seq<Event>, n: nat, x: nat) returns (i: nat, j: nat)
    requires PowerOn(d) && ValidRun(d, es) && x < |d.units| && n <= |es|
    requires ModeAt(d, es, n, x).Started?
    ensures j < i && InitialisedAt(d, es, j, x) && StartedSince(d, es, i, n, x)
  {
    hide ModeAt, InitialisedAt, ValidRun, PowerOn;
    UninitAtPowerOn(d, es, x);
    if n > 0 {
      if ModeAt(d, es, n - 1, x).Started? {
        i, j := StartedUpTo(d, es, n - 1, x);
      } else {
        i := n - 1;
        j := StartedNow(d, es, n - 1, x);
      }
    }
  }

  /** Over whole runs: a controller is STARTED only because a CAN_T_START found it
    * STOPPED and changed its baud rate, with an earlier initialisation in the same
    * run that configured it, and nothing has taken it out of STARTED since. */
  lemma StartedHasHistory(d: Driver, es: seq<Event>, x: nat) returns (i: nat, j: nat)
    requires PowerOn(d) && ValidRun(d, es) && x < |d.units|
    requires Run(d, es).units[x].mode.Started?
    ensures j < i && InitialisedAt(d, es, j, x) && StartedSince(d, es, i, |es|, x)
  {
    assert es[..|es|] == es;
    i, j := StartedUpTo(d, es, |es|, x);
  }

  /** A bus-off or wake-up interrupt in the ready state always leaves its controller
    * STOPPED with a stop indication pending. */
  lemma ErrorInterruptStops(d: Driver, x: nat, wake: bool, busOff: bool)
    requires Wf(d) && x < |d.units| && ErrorTaken(d, x, wake, busOff)
    ensures Stops(Step(d, EvErrIsr(x, wake, busOff)).units[x])
  {
    hide Step;
    StepCore(d, EvErrIsr(x, wake, busOff), x);
  }
}
