/** Wake-up scheduling of `sleep.c`: a wrapping 32-bit tick, a table of timeouts, and a
  * sweep that other tasks may interrupt between any two of its memory accesses. */
module Sleep {
  import opened Basics

  /** One entry of `timeoutlist`. */
  datatype Entry = Entry(timeout: int, active: bool, mask: int)

  /** Where the sweep of `SleepTask` stands: waiting for the next tick, about to test an
    * entry, about to clear one that matched, about to signal one it has cleared. */
  datatype Phase = Idle | Testing(i: nat) | Matched(i: nat) | Cleared(i: nat)

  datatype State = State(ticks: int, list: seq<Entry>, phase: Phase)

  /** `SetEvent` on a task, and how many ticks of the run had passed. */
  datatype Signal = Signal(task: nat, mask: int, tick: nat)

  /** The sweep's own steps are the tick and each access; the calls of other tasks come
    * in between. Testing `active` and `timeout` is one step: a call between the two
    * reads sets a timeout that differs from the tick. */
  datatype Event = Tick | Sweep | CallSleep(n: int, task: nat, mask: int) | CallInit

  predicate WellFormed(s: State) {
    && 0 <= s.ticks < TWO32
    && (s.phase != Idle ==> s.phase.i < |s.list|)
    && forall k :: 0 <= k < |s.list| ==> 0 <= s.list[k].timeout < TWO32
  }

  function Next(s: State, j: nat): Phase { if j < |s.list| then Testing(j) else Idle }

  predicate Enabled(s: State, e: Event) {
    match e
    case Tick => s.phase == Idle
    case Sweep => s.phase != Idle && s.phase.i < |s.list|
    case CallSleep(n, _, _) => 0 <= n < TWO32
    case CallInit => true
  }

  function Delay(n: int): int { if n == 0 then 1 else n }

  function Arm(s: State, n: int, task: nat, mask: int): State {
    if task < |s.list| then s.(list := s.list[task := Entry((s.ticks + Delay(n)) % TWO32, true, mask)])
    else s
  }

  function Cleanup(l: seq<Entry>): seq<Entry> {
    seq(|l|, k requires 0 <= k < |l| => l[k].(active := false))
  }

  function Step(s: State, e: Event): State
    requires Enabled(s, e)
  {
    match e
    case Tick =>
      var s' := s.(ticks := (s.ticks + 1) % TWO32);
      s'.(phase := Next(s', 0))
    case CallSleep(n, task, mask) => Arm(s, n, task, mask)
    case CallInit => s.(list := Cleanup(s.list))
    case Sweep =>
      var i := s.phase.i;
      match s.phase {
        case Testing(_) =>
          s.(phase := if s.list[i].active && s.list[i].timeout == s.ticks then Matched(i) else Next(s, i + 1))
        case Matched(_) => s.(list := s.list[i := s.list[i].(active := false)], phase := Cleared(i))
        case Cleared(_) => s.(phase := Next(s, i + 1))
      }
  }

  function Emitted(s: State, e: Event, t: nat): seq<Signal>
    requires Enabled(s, e)
  {
    if e == Sweep && s.phase.Cleared? then [Signal(s.phase.i, s.list[s.phase.i].mask, t)] else []
  }

  predicate ValidRun(s: State, es: seq<Event>)
    decreases |es|
  {
    es != [] ==> Enabled(s, es[0]) && ValidRun(Step(s, es[0]), es[1..])
  }

  function Ticked(e: Event): nat { if e == Tick then 1 else 0 }

  function TickCount(es: seq<Event>): nat { if es == [] then 0 else Ticked(es[0]) + TickCount(es[1..]) }

  function Final(s: State, es: seq<Event>): State
    requires ValidRun(s, es)
    decreases |es|
  {
    if es == [] then s else Final(Step(s, es[0]), es[1..])
  }

  /** The signals of a run, `t` ticks having passed before it. */
  function Signals(s: State, es: seq<Event>, t: nat): seq<Signal>
    requires ValidRun(s, es)
    decreases |es|
  {
    if es == [] then []
    else Emitted(s, es[0], t) + Signals(Step(s, es[0]), es[1..], t + Ticked(es[0]))
  }

  function OfTask(g: seq<Signal>, i: nat): seq<Signal> {
    if g == [] then [] else if g[0].task == i then [g[0]] + OfTask(g[1..], i) else OfTask(g[1..], i)
  }

  lemma {:induction false} OfTaskConcat(a: seq<Signal>, b: seq<Signal>, i: nat)
    ensures OfTask(a + b, i) == OfTask(a, i) + OfTask(b, i)
  {
    if a == [] {
      assert a + b == b;
    } else {
      assert (a + b)[1..] == a[1..] + b && (a + b)[0] == a[0];
      OfTaskConcat(a[1..], b, i);
    }
  }

  /** A run and one more step. */
  lemma {:induction false} RunSnoc(s: State, es: seq<Event>, e: Event, t: nat)
    requires ValidRun(s, es) && Enabled(Final(s, es), e)
    ensures ValidRun(s, es + [e])
    ensures Final(s, es + [e]) == Step(Final(s, es), e)
    ensures TickCount(es + [e]) == TickCount(es) + Ticked(e)
    ensures Signals(s, es + [e], t) == Signals(s, es, t) + Emitted(Final(s, es), e, t + TickCount(es))
    decreases |es|
  {
    hide Step, Emitted;
    var es' := es + [e];
    if es == [] {
      assert es' == [e] && es'[1..] == [];
      assert ValidRun(Step(s, e), []);
    } else {
      assert es'[1..] == es[1..] + [e] && es'[0] == es[0];
      RunSnoc(Step(s, es[0]), es[1..], e, t + Ticked(es[0]));
    }
  }

  lemma StepKeepsForm(s: State, e: Event)
    requires WellFormed(s) && Enabled(s, e)
    ensures WellFormed(Step(s, e)) && |Step(s, e).list| == |s.list|
  {
  }

  // --------------------------------------------------- the sweep by itself

  /** `run` is one tick and then steps of the sweep only, leading from `s` to `s'` with
    * these signals. */
  predicate Swept(s: State, run: seq<Event>, s': State, signals: seq<Signal>) {
    && ValidRun(s, run) && Final(s, run) == s' && Signals(s, run, 0) == signals
    && TickCount(run) == 1 && |run| > 0
    && forall k :: 0 <= k < |run| ==> run[k] == if k == 0 then Tick else Sweep
  }

  lemma SweptStart(s: State)
    requires Enabled(s, Tick)
    ensures Swept(s, [Tick], Step(s, Tick), [])
  {
    assert [Tick][1..] == [];
  }

  lemma SweptMore(s: State, run: seq<Event>, s': State, signals: seq<Signal>)
    requires Swept(s, run, s', signals) && Enabled(s', Sweep)
    ensures Swept(s, run + [Sweep], Step(s', Sweep), signals + Emitted(s', Sweep, 1))
  {
    RunSnoc(s, run, Sweep, 0);
  }

  // ------------------------------------------------------- one armed task

  /** Nothing in the run arms task `i` anew or wipes the table. */
  predicate LeavesAlone(es: seq<Event>, i: nat) {
    forall k :: 0 <= k < |es| ==> es[k] != CallInit && (es[k].CallSleep? ==> es[k].task != i)
  }

  /** The sweep is between the test of entry `i` and its signal. */
  predicate InWindow(p: Phase, i: nat) { p == Matched(i) || p == Cleared(i) }

  /** The current sweep is done with entry `i`. */
  predicate Passed(p: Phase, i: nat) { p == Idle || p.i > i }

  predicate Quiet(s: State, i: nat) {
    WellFormed(s) && i < |s.list| && !s.list[i].active && !InWindow(s.phase, i)
  }

  /** Task `i` is to be signalled at the `r`-th tick from now; with `r == 0`, still in the
    * sweep under way. */
  predicate Waiting(s: State, i: nat, mask: int, r: nat) {
    && WellFormed(s) && i < |s.list| && r < TWO32 && s.list[i].mask == mask
    && (s.list[i].active || s.phase == Cleared(i))
    && (if r > 0 then s.list[i].timeout == (s.ticks + r) % TWO32 && !InWindow(s.phase, i)
        else !Passed(s.phase, i) && (InWindow(s.phase, i) || s.list[i].timeout == s.ticks)
             && (s.phase == Cleared(i) ==> !s.list[i].active))
  }

  lemma QuietStep(s: State, i: nat, e: Event, t: nat)
    requires Quiet(s, i) && Enabled(s, e) && LeavesAlone([e], i)
    ensures Quiet(Step(s, e), i) && OfTask(Emitted(s, e, t), i) == []
    ensures Passed(s.phase, i) && e != Tick ==> Passed(Step(s, e).phase, i)
  {
    assert [e][0] == e;
    StepKeepsForm(s, e);
  }

  lemma {:induction false} QuietRun(s: State, i: nat, es: seq<Event>, t: nat)
    requires Quiet(s, i) && ValidRun(s, es) && LeavesAlone(es, i)
    ensures OfTask(Signals(s, es, t), i) == []
    ensures Passed(s.phase, i) && TickCount(es) == 0 ==> Passed(Final(s, es).phase, i)
    decreases |es|
  {
    if es != [] {
      QuietStep(s, i, es[0], t);
      QuietRun(Step(s, es[0]), i, es[1..], t + Ticked(es[0]));
      OfTaskConcat(Emitted(s, es[0], t), Signals(Step(s, es[0]), es[1..], t + Ticked(es[0])), i);
    }
  }

  /** One tick less to wait. */
  lemma TickWaits(s: State, i: nat, mask: int, r: nat)
    requires Waiting(s, i, mask, r) && Enabled(s, Tick)
    ensures r > 0 && Waiting(Step(s, Tick), i, mask, r - 1)
  {
  }

  lemma SweepWaits(s: State, i: nat, mask: int, r: nat, t: nat)
    requires Waiting(s, i, mask, r) && Enabled(s, Sweep)
    ensures s.phase != Cleared(i) ==> Waiting(Step(s, Sweep), i, mask, r) && OfTask(Emitted(s, Sweep, t), i) == []
    ensures s.phase == Cleared(i) ==> r == 0 && Quiet(Step(s, Sweep), i) && Passed(Step(s, Sweep).phase, i)
                                      && OfTask(Emitted(s, Sweep, t), i) == [Signal(i, mask, t)]
  {
  }

  lemma CallWaits(s: State, i: nat, mask: int, r: nat, e: Event)
    requires Waiting(s, i, mask, r) && Enabled(s, e) && e.CallSleep? && e.task != i
    ensures Waiting(Step(s, e), i, mask, r)
  {
  }

  /** The `r`-th tick has come and its sweep has dealt with entry `i`. */
  predicate Reached(s: State, es: seq<Event>, i: nat, r: nat)
    requires ValidRun(s, es)
  {
    TickCount(es) > r || (TickCount(es) == r && Passed(Final(s, es).phase, i))
  }

  lemma {:induction false} WaitingIsSignalled(s: State, i: nat, mask: int, r: nat, es: seq<Event>, t: nat)
    requires Waiting(s, i, mask, r) && ValidRun(s, es) && LeavesAlone(es, i)
    ensures OfTask(Signals(s, es, t), i) == if Reached(s, es, i, r) then [Signal(i, mask, t + r)] else []
    decreases |es|
  {
    hide Waiting, Step, Quiet, Emitted, WellFormed, Passed, OfTask, InWindow;
    if es == [] {
      NotYet(s, i, mask, r);
    } else {
      var e, rest := es[0], es[1..];
      var s' := Step(s, e);
      OfTaskConcat(Emitted(s, e, t), Signals(s', rest, t + Ticked(e)), i);
      match e
      case Tick =>
        TickWaits(s, i, mask, r);
        WaitingIsSignalled(s', i, mask, r - 1, rest, t + 1);
        SilentSteps(s, e, t, i);
      case CallSleep(_, _, _) =>
        CallWaits(s, i, mask, r, e);
        WaitingIsSignalled(s', i, mask, r, rest, t);
        SilentSteps(s, e, t, i);
      case Sweep =>
        SweepWaits(s, i, mask, r, t);
        if s.phase == Cleared(i) {
          QuietRun(s', i, rest, t);
        } else {
          WaitingIsSignalled(s', i, mask, r, rest, t);
        }
    }
  }

  lemma NotYet(s: State, i: nat, mask: int, r: nat)
    requires Waiting(s, i, mask, r)
    ensures r == 0 ==> !Passed(s.phase, i)
    ensures OfTask([], i) == []
  {
  }

  lemma SilentSteps(s: State, e: Event, t: nat, i: nat)
    requires Enabled(s, e) && e != Sweep
    ensures OfTask(Emitted(s, e, t), i) == []
  {
  }

  // ------------------------------------------------------------ main results

  /** Every continuation from `a` that leaves task `i` alone brings it one signal, with its
    * mask, at the `r`-th tick and not before. */
  ghost predicate WakesAt(a: State, i: nat, mask: int, r: nat) {
    forall es: seq<Event> :: ValidRun(a, es) && LeavesAlone(es, i) ==>
      OfTask(Signals(a, es, 0), i) == if Reached(a, es, i, r) then [Signal(i, mask, r)] else []
  }

  /** What a caller of `Sleep` expects: the signal comes at the tick asked for, and at the
    * first one if none is asked for. */
  ghost predicate WakesOnTime(s: State, n: int, i: nat, mask: int)
    requires 0 <= n < TWO32 && i < |s.list|
  {
    && (n >= 1 ==> WakesAt(Step(s, CallSleep(n, i, mask)), i, mask, n))
    && (n == 0 ==> WakesAt(Step(s, CallSleep(n, i, mask)), i, mask, 1))
  }

  /** Sleeping works, for every delay and at every value of the wrapping tick, exactly
    * when the call does not fall between the sweep's test of the same task and its
    * signal. */
  lemma SleepWakesOnTimeIff(s: State, n: int, i: nat, mask: int)
    requires WellFormed(s) && 0 <= n < TWO32 && i < |s.list|
    ensures WakesOnTime(s, n, i, mask) <==> !InWindow(s.phase, i)
  {
    var a, r := Step(s, CallSleep(n, i, mask)), if n == 0 then 1 else n;
    if !InWindow(s.phase, i) {
      assert Waiting(a, i, mask, r);
      forall es: seq<Event> | ValidRun(a, es) && LeavesAlone(es, i)
        ensures OfTask(Signals(a, es, 0), i) == if Reached(a, es, i, r) then [Signal(i, mask, r)] else []
      {
        WaitingIsSignalled(a, i, mask, r, es, 0);
      }
    } else {
      EarlySignal(a, i, mask, r);
    }
  }

  /** A call inside the window is signalled at once, with the tick it asked for still to
    * come. */
  lemma EarlySignal(a: State, i: nat, mask: int, r: nat)
    requires WellFormed(a) && i < |a.list| && r > 0 && InWindow(a.phase, i) && a.list[i].mask == mask
    ensures exists es :: && ValidRun(a, es) && LeavesAlone(es, i) && !Reached(a, es, i, r)
                         && OfTask(Signals(a, es, 0), i) != []
  {
    if a.phase == Cleared(i) {
      var es := [Sweep];
      assert Signals(a, es, 0) == [Signal(i, mask, 0)];
      assert ValidRun(a, es) && LeavesAlone(es, i) && TickCount(es) == 0;
    } else {
      var b := Step(a, Sweep);
      var es := [Sweep, Sweep];
      assert es[1..] == [Sweep];
      assert ValidRun(b, [Sweep]);
      assert Signals(b, [Sweep], 0) == [Signal(i, mask, 0)];
      assert Signals(a, es, 0) == [Signal(i, mask, 0)];
      assert ValidRun(a, es) && LeavesAlone(es, i) && TickCount(es) == 0;
    }
  }

  /** And when it falls between test and clearing, its own tick never brings a signal:
    * its entry has been deactivated. */
  lemma WindowCallIsLost(s: State, n: int, i: nat, mask: int, es: seq<Event>)
    requires WellFormed(s) && 0 <= n < TWO32 && i < |s.list| && s.phase == Matched(i)
    requires ValidRun(Step(s, CallSleep(n, i, mask)), es) && LeavesAlone(es, i)
    ensures var a := Step(s, CallSleep(n, i, mask));
            OfTask(Signals(a, es, 0), i) == if Reached(a, es, i, 0) then [Signal(i, mask, 0)] else []
  {
    var a := Step(s, CallSleep(n, i, mask));
    assert Waiting(a, i, mask, 0);
    WaitingIsSignalled(a, i, mask, 0, es, 0);
  }

  /** A sleeping task that the sweep has not already matched is forgotten by `SleepInit`: no
    * signal comes until it sleeps again. */
  lemma InitSilences(s: State, i: nat, es: seq<Event>, t: nat)
    requires WellFormed(s) && i < |s.list| && !InWindow(s.phase, i)
    requires ValidRun(Step(s, CallInit), es) && LeavesAlone(es, i)
    ensures OfTask(Signals(Step(s, CallInit), es, t), i) == []
  {
    StepKeepsForm(s, CallInit);
    QuietRun(Step(s, CallInit), i, es, t);
  }

  // ------------------------------------------------------- no signal from nowhere

  function Armed(s: State, i: nat): nat
    requires i < |s.list|
  {
    (if s.list[i].active && s.phase != Matched(i) then 1 else 0) + (if InWindow(s.phase, i) then 1 else 0)
  }

  function SleepCalls(es: seq<Event>, i: nat): nat {
    if es == [] then 0 else (if es[0].CallSleep? && es[0].task == i then 1 else 0) + SleepCalls(es[1..], i)
  }

  /** Over every run whatever, a task is signalled at most once for each `Sleep` call it
    * was named in (and once for being armed to begin with). */
  lemma {:induction false} SignalsAreBudgeted(s: State, es: seq<Event>, i: nat, t: nat)
    requires WellFormed(s) && ValidRun(s, es) && i < |s.list|
    ensures |Final(s, es).list| == |s.list|
    ensures |OfTask(Signals(s, es, t), i)| + Armed(Final(s, es), i) <= Armed(s, i) + SleepCalls(es, i)
    decreases |es|
  {
    if es != [] {
      var e := es[0];
      StepKeepsForm(s, e);
      BudgetStep(s, e, i, t);
      SignalsAreBudgeted(Step(s, e), es[1..], i, t + Ticked(e));
      OfTaskConcat(Emitted(s, e, t), Signals(Step(s, e), es[1..], t + Ticked(e)), i);
    }
  }

  lemma BudgetStep(s: State, e: Event, i: nat, t: nat)
    requires WellFormed(s) && Enabled(s, e) && i < |s.list|
    ensures |Step(s, e).list| == |s.list|
    ensures |OfTask(Emitted(s, e, t), i)| + Armed(Step(s, e), i)
            <= Armed(s, i) + (if e.CallSleep? && e.task == i then 1 else 0)
  {
  }
}
