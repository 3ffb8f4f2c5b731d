/** The driver's view of its timers and the registers agree, over whole runs. */
module GptRuns {
  import opened Basics
  import opened GptSpec

  /** A channel's mode, registers and configuration fit together. */
  predicate Agrees(s: State, i: nat)
    requires Shaped(s) && i < |s.units|
  {
    && (s.units[i].mode == Started <==> s.timers[i].enabled)
    && 0 <= s.timers[i].count <= s.timers[i].reload < WIDTH
    && (s.timers[i].enabled ==> s.channelMap[i].Some?)
    && (s.channelMap[i].Some? ==> s.channelMap[i].value < |s.rows| && s.rows[s.channelMap[i].value].channel == i)
  }

  predicate Inv(s: State) { Shaped(s) && forall i :: 0 <= i < |s.units| ==> Agrees(s, i) }

  lemma PowerOnInv(n: nat)
    ensures Inv(PowerOn(n))
  {
  }

  // ---------------------------------------------------------- initialisation

  predicate Named(rows: seq<Row>, i: nat) { exists r :: 0 <= r < |rows| && rows[r].channel == i }

  lemma {:induction false} MapIsRight(rows: seq<Row>, n: nat, i: nat)
    requires i < n
    ensures var m := MapOf(rows, n);
            && (m[i].Some? <==> Named(rows, i))
            && (m[i].Some? ==> m[i].value < |rows| && rows[m[i].value].channel == i)
            && (m[i].Some? ==> forall r :: m[i].value < r < |rows| ==> rows[r].channel != i)
  {
    if rows != [] {
      var r := |rows| - 1;
      MapIsRight(rows[..r], n, i);
      var before := MapOf(rows[..r], n)[i];
      if before.Some? && rows[r].channel != i {
        assert forall k :: before.value < k < r ==> rows[..r][k] == rows[k];
      }
      if Named(rows[..r], i) {
        var k :| 0 <= k < r && rows[..r][k].channel == i;
        assert rows[k].channel == i;
      }
      if Named(rows, i) && rows[r].channel != i {
        var k :| 0 <= k < |rows| && rows[k].channel == i;
        assert rows[..r][k].channel == i;
      }
    }
  }

  /** No counter is running that would be marked as merely initialised, or forgotten. */
  predicate SafeToInit(s: State, rows: seq<Row>)
    requires Shaped(s)
  {
    forall i :: 0 <= i < |s.units| && s.timers[i].enabled ==> i >= |rows| && Named(rows, i)
  }

  /** Initialising again keeps mode and registers in agreement exactly when it is safe:
    * the counters are not touched. */
  lemma InitKeepsAgreementIff(s: State, rows: seq<Row>)
    requires Inv(s) && UsableRows(rows, |s.units|)
    ensures Inv(InitStep(s, rows)) <==> SafeToInit(s, rows)
  {
    var s' := InitStep(s, rows);
    forall i | 0 <= i < |s.units|
      ensures Agrees(s', i) <==> (s.timers[i].enabled ==> i >= |rows| && Named(rows, i))
    {
      assert Agrees(s, i);
      MapIsRight(rows, |s.units|, i);
    }
  }

  /** With row i holding channel i, that is: when nothing runs. */
  lemma AlignedInitIsSafeIff(s: State, rows: seq<Row>)
    requires Inv(s) && UsableRows(rows, |s.units|) && forall r :: 0 <= r < |rows| ==> rows[r].channel == r
    ensures SafeToInit(s, rows) <==> forall i :: 0 <= i < |s.units| ==> !s.timers[i].enabled
  {
  }

  /** Initialising touches no register and no unit behind the rows; the units it marks count
    * as neither started nor over, and being stopped does not change that. */
  lemma InitLeaves(s: State, rows: seq<Row>, i: nat)
    requires Shaped(s) && UsableRows(rows, |s.units|) && i < |s.units|
    ensures var s' := InitStep(s, rows);
            && s'.timers == s.timers && s'.rows == rows && Shaped(s')
            && (i >= |rows| ==> s'.units[i] == s.units[i])
            && (i < |rows| ==> s'.units[i].mode == Initialized && !Over(s'.units[i])
                               && !Over(StopStep(s', i).units[i]))
  {
  }

  /** A start takes effect in registers and unit at once: counting from the low 16 bits of the
    * period, nothing raised, nothing elapsed, and not over even if stopped at once. */
  lemma StartLeaves(s: State, i: nat, period: int)
    requires Shaped(s) && i < |s.units| && 0 <= period < TWO32
    ensures var s' := StartStep(s, i, period);
            && s'.timers[i] == Timer(true, false, period % 0x1_0000, period % 0x1_0000)
            && s'.units[i].mode == Started && Elapsed(s', i) == 0 && Remaining(s', i) == period % 0x1_0000
            && !Over(StopStep(s', i).units[i])
            && s' == s.(timers := s.timers[i := s'.timers[i]], units := s.units[i := s'.units[i]])
  {
  }

  /** Reload value and counter of a channel move by nothing but its own start and its own
    * clock: no call, and no interrupt, disturbs the time it has counted. */
  lemma CounterMovesAlone(s: State, e: Event, i: nat)
    requires Shaped(s) && Enabled(s, e) && i < |s.units| && e != Clock(i) && !(e.Start? && e.ch == i)
    ensures var s' := Step(s, e);
            i < |s'.timers| && s'.timers[i].count == s.timers[i].count && s'.timers[i].reload == s.timers[i].reload
  {
    if e == DeInit {
      StopAllStops(s, |s.units|, i);
    }
  }

  /** A stop disables the counter and clears its flag, keeps reload value and counter, and
    * is over exactly if the channel was. */
  lemma StopLeaves(s: State, i: nat)
    requires Shaped(s) && i < |s.units|
    ensures var s' := StopStep(s, i);
            && !s'.timers[i].enabled && !s'.timers[i].pending && s'.units[i].mode == Stopped
            && s'.timers[i].count == s.timers[i].count && s'.timers[i].reload == s.timers[i].reload
            && (s.units[i].mode == Started && !s.units[i].expiredWhenStopped ==> !Over(s'.units[i]))
            && (s.units[i].mode == Expired ==> Over(s'.units[i]))
            && s' == s.(timers := s.timers[i := s'.timers[i]], units := s.units[i := s'.units[i]])
  {
  }

  /** After power-on every configured channel counts as initialised exactly when no
    * channel number reaches the number of rows. */
  lemma InitMarksIff(n: nat, rows: seq<Row>)
    requires UsableRows(rows, n)
    ensures (forall i :: 0 <= i < n && Named(rows, i) ==> InitStep(PowerOn(n), rows).units[i].mode == Initialized)
            <==> forall r :: 0 <= r < |rows| ==> rows[r].channel < |rows|
  {
    var s := InitStep(PowerOn(n), rows);
    if r :| 0 <= r < |rows| && rows[r].channel >= |rows| {
      assert Named(rows, rows[r].channel);
      assert s.units[rows[r].channel].mode == Stopped;
    }
  }

  // ------------------------------------------------------------- every step

  lemma {:induction false} StopAllStops(s: State, n: nat, i: nat)
    requires Shaped(s) && n <= |s.units| && i < |s.units|
    ensures var r := StopAll(s, n);
            && r.rows == s.rows && r.channelMap == s.channelMap
            && r.units[i] == (if i < n then StopUnit(s.units[i]) else s.units[i])
            && r.timers[i] == (if i < n then StopTimer(s.timers[i]) else s.timers[i])
  {
    if n > 0 {
      StopAllStops(s, n - 1, i);
    }
  }

  /** The interrupt routine's assertion cannot fail. */
  lemma IsrNeverAsserts(s: State)
    requires Inv(s)
    ensures Enabled(s, Isr)
  {
    var ch := FirstRaised(s, 0);
    if ch < |s.units| {
      assert Agrees(s, ch);
    }
  }

  lemma StepKeepsInv(s: State, e: Event)
    requires Inv(s) && Enabled(s, e) && (e.Init? ==> SafeToInit(s, e.rows))
    ensures Inv(Step(s, e)) && |Step(s, e).units| == |s.units|
  {
    var s' := Step(s, e);
    if e.Init? {
      InitKeepsAgreementIff(s, e.rows);
    } else {
      forall i | 0 <= i < |s.units| ensures Agrees(s', i) {
        assert Agrees(s, i);
        if e == DeInit {
          StopAllStops(s, |s.units|, i);
        }
      }
    }
  }

  predicate ValidRun(s: State, es: seq<Event>)
    decreases |es|
  {
    es != [] ==>
      && Enabled(s, es[0]) && (es[0].Init? ==> SafeToInit(s, es[0].rows))
      && ValidRun(Step(s, es[0]), es[1..])
  }

  function Run(s: State, es: seq<Event>): State
    requires ValidRun(s, es)
    decreases |es|
  {
    if es == [] then s else Run(Step(s, es[0]), es[1..])
  }

  /** In every run a channel is started exactly when its counter is enabled, and its
    * counter never exceeds its reload value. */
  lemma {:induction false} RunKeepsInv(s: State, es: seq<Event>)
    requires Inv(s) && ValidRun(s, es)
    ensures Inv(Run(s, es)) && |Run(s, es).units| == |s.units|
    decreases |es|
  {
    hide Inv, Step;
    if es != [] {
      StepKeepsInv(s, es[0]);
      RunKeepsInv(Step(s, es[0]), es[1..]);
    }
  }

  // ------------------------------------------------------------- conservation

  /** Time elapsed and time remaining always make up the reload value. */
  lemma TimesAddUp(s: State, i: nat)
    requires Inv(s) && i < |s.units|
    ensures s.units[i].mode != Initialized ==> Elapsed(s, i) + Remaining(s, i) == s.timers[i].reload
    ensures s.units[i].mode == Initialized ==> Elapsed(s, i) == 0 == Remaining(s, i)
    ensures 0 <= Elapsed(s, i) < WIDTH && 0 <= Remaining(s, i) < WIDTH
  {
    assert Agrees(s, i);
    var t := s.timers[i];
    assert (t.reload - t.count) % TWO32 == t.reload - t.count;
  }

  /** Nothing in the run starts the channel again or initialises the driver. */
  predicate Leaves(es: seq<Event>, i: nat) {
    forall k :: 0 <= k < |es| ==> !es[k].Init? && (es[k].Start? ==> es[k].ch != i)
  }

  /** What a start settles stays settled: the reload value, and that the channel is past
    * initialisation; and an expired channel stays over. */
  lemma SettledStep(s: State, e: Event, i: nat)
    requires Inv(s) && Enabled(s, e) && i < |s.units| && Leaves([e], i) && s.units[i].mode != Initialized
    ensures var s' := Step(s, e);
            && |s'.units| == |s.units| && Shaped(s')
            && s'.timers[i].reload == s.timers[i].reload && s'.units[i].mode != Initialized
            && (Over(s.units[i]) ==> Over(s'.units[i]))
  {
    assert [e][0] == e;
    assert Agrees(s, i);
    if e == DeInit {
      StopAllStops(s, |s.units|, i);
    }
  }

  lemma {:induction false} SettledRun(s: State, es: seq<Event>, i: nat)
    requires Inv(s) && ValidRun(s, es) && i < |s.units| && Leaves(es, i) && s.units[i].mode != Initialized
    ensures var s' := Run(s, es);
            && |s'.units| == |s.units| && Inv(s')
            && s'.timers[i].reload == s.timers[i].reload && s'.units[i].mode != Initialized
            && (Over(s.units[i]) ==> Over(s'.units[i]))
    decreases |es|
  {
    hide Step, Over;
    if es != [] {
      StepKeepsInv(s, es[0]);
      SettledStep(s, es[0], i);
      SettledRun(Step(s, es[0]), es[1..], i);
    }
  }

  /** From a start on, until the next one: elapsed and remaining time make up the period
    * asked for, through counting, expiry, stops and repeated stops; that is, its low 16
    * bits. */
  lemma PeriodIsConserved(s: State, i: nat, period: int, es: seq<Event>)
    requires Inv(s) && Enabled(s, Start(i, period)) && ValidRun(StartStep(s, i, period), es) && Leaves(es, i)
    ensures var s' := Run(StartStep(s, i, period), es);
            && i < |s'.units| && Shaped(s')
            && Elapsed(s', i) + Remaining(s', i) == period % 0x1_0000
            && (Elapsed(s', i) + Remaining(s', i) == period <==> period < 0x1_0000)
  {
    var s1 := StartStep(s, i, period);
    StepKeepsInv(s, Start(i, period));
    SettledRun(s1, es, i);
    TimesAddUp(Run(s1, es), i);
  }

  /** Once over, a channel reports its whole period elapsed and nothing remaining, however
    * often it is stopped, until it is started again. */
  lemma ExpiryIsRemembered(s: State, i: nat, es: seq<Event>)
    requires Inv(s) && i < |s.units| && Over(s.units[i]) && ValidRun(s, es) && Leaves(es, i)
    ensures var s' := Run(s, es);
            i < |s'.units| && Shaped(s') && Remaining(s', i) == 0 && Elapsed(s', i) == s.timers[i].reload
  {
    SettledRun(s, es, i);
  }

  // ------------------------------------------------------------ notifications

  function Notifications(s: State, es: seq<Event>, i: nat): nat
    requires ValidRun(s, es)
    decreases |es|
  {
    if es == [] then 0
    else (if Notifies(s, es[0], i) then 1 else 0) + Notifications(Step(s, es[0]), es[1..], i)
  }

  function Starts(es: seq<Event>, i: nat): nat {
    if es == [] then 0 else (if es[0].Start? && es[0].ch == i then 1 else 0) + Starts(es[1..], i)
  }

  function Clocks(es: seq<Event>, i: nat): nat {
    if es == [] then 0 else (if es[0] == Clock(i) then 1 else 0) + Clocks(es[1..], i)
  }

  predicate OneShot(rows: seq<Row>, i: nat) { forall r :: 0 <= r < |rows| && rows[r].channel == i ==> rows[r].oneShot }

  /** Every configuration in force has the channel as one-shot. */
  predicate AlwaysOneShot(s: State, es: seq<Event>, i: nat) {
    OneShot(s.rows, i) && forall k :: 0 <= k < |es| ==> es[k].Init? ==> OneShot(es[k].rows, i)
  }

  function Live(s: State, i: nat): nat
    requires Shaped(s) && i < |s.units|
  {
    if s.timers[i].enabled then 1 else 0
  }

  lemma OneShotStep(s: State, e: Event, i: nat)
    requires Inv(s) && Enabled(s, e) && i < |s.units| && OneShot(s.rows, i)
    ensures var s' := Step(s, e);
            && Shaped(s') && |s'.units| == |s.units|
            && s'.rows == (if e.Init? then e.rows else s.rows)
            && (if Notifies(s, e, i) then 1 else 0) + Live(s', i)
               <= Live(s, i) + (if e.Start? && e.ch == i then 1 else 0)
  {
    assert Agrees(s, i);
    if e == DeInit {
      StopAllStops(s, |s.units|, i);
    }
  }

  /** A one-shot channel notifies at most once for each start. */
  lemma {:induction false} OneShotNotifiesOncePerStart(s: State, es: seq<Event>, i: nat)
    requires Inv(s) && ValidRun(s, es) && i < |s.units| && AlwaysOneShot(s, es, i)
    ensures Notifications(s, es, i) <= Live(s, i) + Starts(es, i)
    decreases |es|
  {
    hide Step;
    if es != [] {
      StepKeepsInv(s, es[0]);
      OneShotStep(s, es[0], i);
      OneShotNotifiesOncePerStart(Step(s, es[0]), es[1..], i);
    }
  }

  /** Counter clocks that must still come before the channel can notify. */
  function Ahead(t: Timer): int { if t.pending then 0 else t.count + 1 }

  lemma AheadStep(s: State, e: Event, i: nat)
    requires Inv(s) && Enabled(s, e) && i < |s.units| && !(e.Start? && e.ch == i)
    ensures var s' := Step(s, e);
            && Shaped(s') && |s'.units| == |s.units|
            && (s'.timers[i].enabled ==> s.timers[i].enabled)
            && (Notifies(s, e, i) ==> s.timers[i].enabled && Ahead(s.timers[i]) == 0)
            && (s'.timers[i].enabled && !Notifies(s, e, i) ==>
                  Ahead(s'.timers[i]) >= Ahead(s.timers[i]) - (if e == Clock(i) then 1 else 0))
  {
    assert Agrees(s, i);
    if e == DeInit {
      StopAllStops(s, |s.units|, i);
    }
  }

  lemma {:induction false} NotAhead(s: State, es: seq<Event>, i: nat)
    requires Inv(s) && ValidRun(s, es) && i < |s.units| && Starts(es, i) == 0 && Notifications(s, es, i) > 0
    ensures s.timers[i].enabled && Clocks(es, i) >= Ahead(s.timers[i])
    decreases |es|
  {
    hide Step, Notifies, Ahead;
    StepKeepsInv(s, es[0]);
    AheadStep(s, es[0], i);
    if !Notifies(s, es[0], i) {
      NotAhead(Step(s, es[0]), es[1..], i);
    }
  }

  /** A started channel never notifies early: not before the counter has been clocked
    * once more than the period, whatever else happens, unless it is started again. */
  lemma NeverEarly(s: State, i: nat, period: int, es: seq<Event>)
    requires Inv(s) && Enabled(s, Start(i, period)) && ValidRun(StartStep(s, i, period), es)
    requires Starts(es, i) == 0 && Notifications(StartStep(s, i, period), es, i) > 0
    ensures Clocks(es, i) >= period % WIDTH + 1
  {
    StepKeepsInv(s, Start(i, period));
    NotAhead(StartStep(s, i, period), es, i);
  }

  // ------------------------------------------------------- how often, and when over

  /** The row in force has the channel as one-shot. */
  predicate RunsOnce(s: State, i: nat)
    requires Shaped(s) && i < |s.units|
  {
    s.channelMap[i].Some? && s.channelMap[i].value < |s.rows| && s.rows[s.channelMap[i].value].oneShot
  }

  lemma OverStep(s: State, e: Event, i: nat)
    requires Inv(s) && Enabled(s, e) && i < |s.units| && Leaves([e], i)
    requires s.units[i].mode == Started ==> !s.units[i].expiredWhenStopped
    requires s.units[i].mode != Initialized
    ensures var s' := Step(s, e);
            && Shaped(s') && |s'.units| == |s.units| && s'.rows == s.rows && s'.channelMap == s.channelMap
            && (Over(s'.units[i]) <==> Over(s.units[i]) || (RunsOnce(s, i) && Notifies(s, e, i)))
            && (s'.units[i].mode == Started ==> !s'.units[i].expiredWhenStopped)
            && s'.units[i].mode != Initialized
  {
    assert [e][0] == e;
    assert Agrees(s, i);
    if e == DeInit {
      StopAllStops(s, |s.units|, i);
    }
  }

  lemma {:induction false} OverRun(s: State, es: seq<Event>, i: nat)
    requires Inv(s) && ValidRun(s, es) && i < |s.units| && Leaves(es, i)
    requires s.units[i].mode == Started ==> !s.units[i].expiredWhenStopped
    requires s.units[i].mode != Initialized
    ensures var s' := Run(s, es);
            && |s'.units| == |s.units|
            && (Over(s'.units[i]) <==> Over(s.units[i]) || (RunsOnce(s, i) && Notifications(s, es, i) > 0))
    decreases |es|
  {
    hide Step, Over, Notifies, Inv, Enabled;
    if es != [] {
      StepKeepsInv(s, es[0]);
      OverStep(s, es[0], i);
      OverRun(Step(s, es[0]), es[1..], i);
    }
  }

  /** From a start on until the next one: a channel is over, stopped or not, exactly if it is
    * one-shot and has notified since. */
  lemma OverIffNotified(s: State, i: nat, period: int, es: seq<Event>)
    requires Inv(s) && Enabled(s, Start(i, period)) && ValidRun(StartStep(s, i, period), es) && Leaves(es, i)
    ensures var s1 := StartStep(s, i, period);
            && i < |Run(s1, es).units|
            && (Over(Run(s1, es).units[i]) <==> RunsOnce(s, i) && Notifications(s1, es, i) > 0)
  {
    StepKeepsInv(s, Start(i, period));
    OverRun(StartStep(s, i, period), es, i);
  }

  /** Clocks that count towards the notifications to come. */
  function Credit(t: Timer): int { t.reload - t.count + if t.pending then t.reload + 1 else 0 }

  lemma CreditStep(s: State, e: Event, i: nat)
    requires Inv(s) && Enabled(s, e) && i < |s.units| && Leaves([e], i)
    ensures var s' := Step(s, e);
            && Shaped(s') && |s'.units| == |s.units| && s'.timers[i].reload == s.timers[i].reload
            && (if Notifies(s, e, i) then s.timers[i].reload + 1 else 0) + Credit(s'.timers[i])
               <= Credit(s.timers[i]) + (if e == Clock(i) then 1 else 0)
  {
    assert [e][0] == e;
    assert Agrees(s, i);
    if e == DeInit {
      StopAllStops(s, |s.units|, i);
    }
  }

  lemma {:induction false} CreditRun(s: State, es: seq<Event>, i: nat)
    requires Inv(s) && ValidRun(s, es) && i < |s.units| && Leaves(es, i)
    ensures i < |Run(s, es).units| && Shaped(Run(s, es))
    ensures Notifications(s, es, i) * (s.timers[i].reload + 1) + Credit(Run(s, es).timers[i])
            <= Credit(s.timers[i]) + Clocks(es, i)
    decreases |es|
  {
    hide Step, Notifies, Inv, Credit;
    InvMeans(s);
    if es != [] {
      StepKeepsInv(s, es[0]);
      CreditStep(s, es[0], i);
      var s', p := Step(s, es[0]), s.timers[i].reload + 1;
      CreditRun(s', es[1..], i);
      var n := Notifications(s', es[1..], i);
      assert (1 + n) * p == p + n * p;
    }
  }

  lemma InvMeans(s: State)
    requires Inv(s)
    ensures Shaped(s)
  {
  }

  /** One-shot or continuous, a started channel notifies at most once for every period and
    * one clock that its counter has been clocked, whatever else happens, until it is started
    * again: no expiry is notified twice. */
  lemma NotificationsAreSpaced(s: State, i: nat, period: int, es: seq<Event>)
    requires Inv(s) && Enabled(s, Start(i, period)) && ValidRun(StartStep(s, i, period), es) && Leaves(es, i)
    ensures Notifications(StartStep(s, i, period), es, i) * (period % 0x1_0000 + 1) <= Clocks(es, i)
  {
    StepKeepsInv(s, Start(i, period));
    var s1 := StartStep(s, i, period);
    CreditRun(s1, es, i);
    CountInReload(s1, es, i);
  }

  lemma CountInReload(s: State, es: seq<Event>, i: nat)
    requires Inv(s) && ValidRun(s, es) && i < |s.units|
    ensures i < |Run(s, es).units| && Shaped(Run(s, es)) && Credit(Run(s, es).timers[i]) >= 0
  {
    RunKeepsInv(s, es);
    assert Agrees(Run(s, es), i);
  }
}
