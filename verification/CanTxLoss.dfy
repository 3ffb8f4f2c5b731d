/** When the transmit protocol loses a confirmation: exactly which steps do harm, and
  * that runs without them lose nothing. */
module CanTxLoss {
  import opened CanTx

  /** The interrupt, if running, has not looked at mailbox `m` yet. */
  predicate Ahead(s: State, m: nat) { s.isr.Idle? || s.isr.next <= m }

  /** The step can do no harm: a write does not get a mailbox whose CANTXOK is still to
    * be seen, a frame is not sent from a mailbox that the running interrupt has already
    * passed, and a reset finds nothing in flight and nothing to be seen. */
  predicate Careful(s: State, e: Event)
    requires s.port.Valid()
  {
    match e
    case Write(_) =>
      var m := FreeBox(s.port.boxes, 0);
      m < MAILBOXES && Ahead(s, m) ==> !s.port.boxes[m].StatusOk()
    case Complete(m, ok) => m < MAILBOXES && ok && !s.port.boxes[m].empty ==> Ahead(s, m)
    case Reset => forall m :: 0 <= m < MAILBOXES ==> ResetHarmless(s, m)
    case _ => true
  }

  predicate ResetHarmless(s: State, m: nat)
    requires s.port.Valid() && m < MAILBOXES
  {
    s.port.boxes[m].empty && (Ahead(s, m) ==> !s.port.boxes[m].StatusOk())
  }

  predicate CarefulRun(s: State, es: seq<Event>)
    requires Inv(s)
    decreases |es|
  {
    es == [] || (Careful(s, es[0]) && (StepKeepsInv(s, es[0]); CarefulRun(Step(s, es[0]), es[1..])))
  }

  /** The mailbox was sent behind the back of the running pass. */
  predicate MissedBox(s: State, m: nat) { !Ahead(s, m) && PhaseOf(s.log, m).Done? }

  /** No mailbox the current pass has already looked at holds an unseen success. */
  predicate NothingMissed(s: State) {
    s.isr.Check? ==> forall m :: 0 <= m < s.isr.next && m < MAILBOXES ==> !PhaseOf(s.log, m).Done?
  }

  /** A write, from outside the interrupt or from a confirmation made by it, loses an
    * earlier confirmation exactly when the mailbox the hardware picks still reads CANTXOK
    * and the interrupt has not looked at it yet, or has looked before it was sent. With
    * nothing missed so far the first alternative alone decides. */
  lemma WriteLosesIff(s: State, h: nat, m: nat)
    requires Inv(s) && m == FreeBox(s.port.boxes, 0) < MAILBOXES
    ensures (exists h' :: Step(s, Write(h)).log == s.log + [Lost(m, h'), Accepted(m, h)]) <==>
            (Ahead(s, m) && s.port.boxes[m].StatusOk()) || MissedBox(s, m)
    ensures NothingMissed(s) ==> !MissedBox(s, m)
  {
    assert BoxInv(s, m);
    if PhaseOf(s.log, m).Done? {
      assert Step(s, Write(h)).log == s.log + [Lost(m, s.port.handles[m]), Accepted(m, h)];
    } else {
      assert Step(s, Write(h)).log == s.log + [Accepted(m, h)];
      assert |Step(s, Write(h)).log| == |s.log| + 1;
    }
  }

  predicate Loss(e: Entry) { e.Lost? || e.Cancelled? }

  predicate LosesNothing(entries: seq<Entry>) { forall i :: 0 <= i < |entries| ==> !Loss(entries[i]) }

  lemma {:induction false} ForgetFromNothing(log: seq<Entry>, m: nat, reset: bool)
    requires forall k :: m <= k < MAILBOXES ==> !PhaseOf(log, k).Done? && !(reset && PhaseOf(log, k).InFlight?)
    ensures ForgetFrom(log, m, reset) == log
    decreases MAILBOXES - m
  {
    if m < MAILBOXES {
      assert Forget(log, m, reset) == log;
      ForgetFromNothing(log, m + 1, reset);
    }
  }

  lemma CarefulWrite(s: State, h: nat)
    requires Inv(s) && NothingMissed(s) && Careful(s, Write(h))
    ensures NothingMissed(Step(s, Write(h)))
    ensures var t := Step(s, Write(h)); s.log <= t.log && LosesNothing(t.log[|s.log|..])
  {
    hide PhaseOf;
    var t, m := Step(s, Write(h)), FreeBox(s.port.boxes, 0);
    if m < MAILBOXES {
      assert BoxInv(s, m);
      assert Forget(s.log, m, false) == s.log;
      assert t.log == s.log + [Accepted(m, h)];
      assert t.log[|s.log|..] == [Accepted(m, h)];
      forall k | 0 <= k < MAILBOXES && !PhaseOf(s.log, k).Done? ensures !PhaseOf(t.log, k).Done? {
        PhaseOfAppend(s.log, Accepted(m, h), k);
      }
    }
  }

  lemma CarefulComplete(s: State, m: nat, ok: bool)
    requires Inv(s) && NothingMissed(s) && Careful(s, Complete(m, ok))
    ensures NothingMissed(Step(s, Complete(m, ok)))
    ensures var t := Step(s, Complete(m, ok)); s.log <= t.log && LosesNothing(t.log[|s.log|..])
  {
    var t := Step(s, Complete(m, ok));
    if m < MAILBOXES && !s.port.boxes[m].empty {
      var entry := if ok then Sent(m) else Failed(m);
      assert BoxInv(s, m) && t.log == s.log + [entry];
      forall k | 0 <= k < MAILBOXES && !Ahead(s, k) && !PhaseOf(s.log, k).Done? ensures !PhaseOf(t.log, k).Done? {
        PhaseOfAppend(s.log, entry, k);
      }
    }
  }

  lemma CarefulIsrStep(s: State)
    requires Inv(s) && NothingMissed(s)
    ensures NothingMissed(Step(s, IsrStep))
    ensures var t := Step(s, IsrStep); s.log <= t.log && LosesNothing(t.log[|s.log|..])
  {
    var t := Step(s, IsrStep);
    if s.isr.Check? && s.isr.next == MAILBOXES {
      ForgetFromNothing(s.log, 0, false);
    } else if s.isr.Check? {
      var m := s.isr.next;
      assert BoxInv(s, m);
      if s.port.boxes[m].StatusOk() {
        assert t.log == s.log + [Confirmed(m, s.port.handles[m])];
        forall k | 0 <= k <= m ensures !PhaseOf(t.log, k).Done? {
          PhaseOfAppend(s.log, Confirmed(m, s.port.handles[m]), k);
        }
      }
    }
  }

  lemma CarefulReset(s: State)
    requires Inv(s) && NothingMissed(s) && Careful(s, Reset)
    ensures NothingMissed(Step(s, Reset)) && Step(s, Reset).log == s.log
  {
    forall m | 0 <= m < MAILBOXES ensures !PhaseOf(s.log, m).Done? && !PhaseOf(s.log, m).InFlight? {
      assert BoxInv(s, m) && ResetHarmless(s, m);
    }
    ForgetFromNothing(s.log, 0, true);
  }

  /** A careful step misses nothing and loses nothing. */
  lemma CarefulStep(s: State, e: Event)
    requires Inv(s) && NothingMissed(s) && Careful(s, e)
    ensures NothingMissed(Step(s, e))
    ensures var t := Step(s, e); s.log <= t.log && LosesNothing(t.log[|s.log|..])
  {
    match e
    case Write(h) => CarefulWrite(s, h);
    case Complete(m, ok) => CarefulComplete(s, m, ok);
    case IsrEnter =>
    case IsrStep => CarefulIsrStep(s);
    case Reset => CarefulReset(s);
  }

  // Careless steps: what they lose, at once or by the end of the pass.

  lemma {:induction false} ForgetFromGrows(log: seq<Entry>, m: nat, reset: bool, k: nat)
    ensures var r := ForgetFrom(log, m, reset);
            && log <= r
            && (forall i :: |log| <= i < |r| ==> Loss(r[i]))
            && (m <= k < MAILBOXES && PhaseOf(log, k).Done? ==> Lost(k, PhaseOf(log, k).handle) in r[|log|..])
            && (m <= k < MAILBOXES && reset && PhaseOf(log, k).InFlight? ==>
                  Cancelled(k, PhaseOf(log, k).handle) in r[|log|..])
    decreases MAILBOXES - m
  {
    hide PhaseOf;
    if m < MAILBOXES {
      var next := Forget(log, m, reset);
      ForgetPhase(log, m, reset, k);
      ForgetFromGrows(next, m + 1, reset, k);
      var r := ForgetFrom(log, m, reset);
      assert next <= r;
      if |next| > |log| {
        assert r[|log|] == next[|log|] && next[|log|] in r[|log|..];
      }
    }
  }

  lemma LogGrows(s: State, e: Event)
    requires Inv(s)
    ensures s.log <= Step(s, e).log
  {
    hide PhaseOf;
    ForgetFromGrows(s.log, 0, e.Reset?, 0);
  }

  lemma {:induction false} RunLogGrows(s: State, es: seq<Event>)
    requires Inv(s)
    ensures s.log <= Run(s, es).log
    decreases |es|
  {
    hide Inv, Step;
    if es != [] {
      InvMeans(s);
      StepKeepsInv(s, es[0]);
      LogGrows(s, es[0]);
      RunLogGrows(Step(s, es[0]), es[1..]);
    }
  }

  /** The write with handle `h` is the one that was missed. */
  predicate Missed(s: State, m: nat, h: nat) {
    Inv(s) && m < MAILBOXES && MissedBox(s, m) && PhaseOf(s.log, m) == Done(h)
  }

  /** Any step keeps a missed success missed, or loses it. */
  lemma MissedStep(s: State, m: nat, h: nat, e: Event)
    requires Missed(s, m, h)
    ensures Missed(Step(s, e), m, h) || Lost(m, h) in Step(s, e).log[|s.log|..]
    ensures s.log <= Step(s, e).log
  {
    StepKeepsInv(s, e);
    LogGrows(s, e);
    assert BoxInv(s, m);
    var t := Step(s, e);
    match e
    case Write(x) =>
      var k := FreeBox(s.port.boxes, 0);
      if k == m {
        assert t.log == s.log + [Lost(m, h), Accepted(m, x)];
        assert t.log[|s.log|] == Lost(m, h);
      } else if k < MAILBOXES {
        ForgetPhase(s.log, k, false, m);
        PhaseOfAppend(Forget(s.log, k, false), Accepted(k, x), m);
      }
    case Complete(k, ok) => PhaseOfAppend(s.log, if ok then Sent(k) else Failed(k), m);
    case IsrEnter =>
    case IsrStep =>
      if s.isr.next == MAILBOXES {
        ForgetFromGrows(s.log, 0, false, m);
      } else {
        PhaseOfAppend(s.log, Confirmed(s.isr.next, s.port.handles[s.isr.next]), m);
      }
    case Reset => ForgetFromGrows(s.log, 0, true, m);
  }

  lemma {:induction false} MissedIsLost(s: State, m: nat, h: nat, es: seq<Event>)
    requires Missed(s, m, h) && Run(s, es).isr.Idle?
    ensures s.log <= Run(s, es).log && Lost(m, h) in Run(s, es).log[|s.log|..]
    decreases |es|
  {
    hide Step, PhaseOf;
    RunLogGrows(s, es);
    if es != [] {
      StepKeepsInv(s, es[0]);
      MissedStep(s, m, h, es[0]);
      var s1, t := Step(s, es[0]), Run(s, es);
      RunLogGrows(s1, es[1..]);
      if Missed(s1, m, h) {
        MissedIsLost(s1, m, h, es[1..]);
        InSuffix(t.log, |s.log|, |s1.log|, Lost(m, h));
      } else {
        InPrefix(s1.log, t.log, |s.log|, Lost(m, h));
      }
    }
  }

  lemma InSuffix(log: seq<Entry>, a: nat, b: nat, e: Entry)
    requires a <= b <= |log| && e in log[b..]
    ensures e in log[a..]
  {
    assert log[b..] == log[a..][b - a..];
  }

  lemma InPrefix(short: seq<Entry>, log: seq<Entry>, a: nat, e: Entry)
    requires short <= log && a <= |short| && e in short[a..]
    ensures e in log[a..]
  {
    var i :| 0 <= i < |short| - a && short[a..][i] == e;
    assert log[a..][i] == short[a + i];
  }

  lemma CompletedBehind(s: State, m: nat, es: seq<Event>)
    requires Inv(s) && m < MAILBOXES && !Ahead(s, m) && !s.port.boxes[m].empty
    requires Inv(Step(s, Complete(m, true))) && Run(Step(s, Complete(m, true)), es).isr.Idle?
    ensures var t := Run(Step(s, Complete(m, true)), es);
            s.log + [Sent(m)] <= t.log && Lost(m, s.port.handles[m]) in t.log[|s.log| + 1..]
  {
    assert BoxInv(s, m);
    PhaseOfAppend(s.log, Sent(m), m);
    MissedIsLost(Step(s, Complete(m, true)), m, s.port.handles[m], es);
  }

  /** The race: whenever a mailbox completes after the running pass has looked at it,
    * its write is lost by the end of that pass, whatever else happens until then. */
  lemma CompletionInsidePassIsLost(s: State, m: nat, es: seq<Event>)
    requires Inv(s) && m < MAILBOXES && !Ahead(s, m) && !s.port.boxes[m].empty
    requires Run(s, [Complete(m, true)] + es).isr.Idle?
    ensures var log := Run(s, [Complete(m, true)] + es).log;
            s.log + [Sent(m)] <= log && Lost(m, s.port.handles[m]) in log[|s.log| + 1..]
  {
    StepKeepsInv(s, Complete(m, true));
    assert ([Complete(m, true)] + es)[1..] == es;
    CompletedBehind(s, m, es);
  }

  lemma CarelessLoses(s: State, e: Event, es: seq<Event>)
    requires Inv(s) && NothingMissed(s) && !Careful(s, e)
    requires Inv(Step(s, e)) && Run(Step(s, e), es).isr.Idle?
    ensures var log := Run(Step(s, e), es).log; s.log <= log && !LosesNothing(log[|s.log|..])
  {
    hide Run;
    var s1 := Step(s, e);
    var log := Run(s1, es).log;
    LogGrows(s, e);
    RunLogGrows(s1, es);
    match e
    case Write(h) =>
      var m := FreeBox(s.port.boxes, 0);
      assert BoxInv(s, m);
      assert s1.log == s.log + [Lost(m, s.port.handles[m]), Accepted(m, h)];
      assert log[|s.log|..][0] == s1.log[|s.log|];
    case Complete(m, _) =>
      CompletedBehind(s, m, es);
      InSuffix(log, |s.log|, |s.log| + 1, Lost(m, s.port.handles[m]));
    case Reset =>
      var m :| 0 <= m < MAILBOXES && !ResetHarmless(s, m);
      assert BoxInv(s, m);
      ForgetFromGrows(s.log, 0, true, m);
      assert |s1.log| > |s.log|;
      assert log[|s.log|..][0] == s1.log[|s.log|];
    case _ =>
  }

  /** Over every run in which the last interrupt has come to its end: nothing is lost or
    * cancelled if and only if every step is careful. By conservation every write is then
    * confirmed, failed on the bus, or still in its mailbox. */
  lemma {:induction false} NothingLostIffCareful(s: State, es: seq<Event>)
    requires Inv(s) && NothingMissed(s) && Run(s, es).isr.Idle?
    ensures s.log <= Run(s, es).log
    ensures CarefulRun(s, es) <==> LosesNothing(Run(s, es).log[|s.log|..])
    decreases |es|
  {
    hide Step, Careful, Inv, NothingMissed;
    RunLogGrows(s, es);
    if es != [] {
      InvMeans(s);
      StepKeepsInv(s, es[0]);
      var s1 := Step(s, es[0]);
      if Careful(s, es[0]) {
        CarefulStep(s, es[0]);
        NothingLostIffCareful(s1, es[1..]);
        Splice(Run(s, es).log, |s.log|, s1.log);
      } else {
        CarelessLoses(s, es[0], es[1..]);
      }
    }
  }

  lemma Splice(log: seq<Entry>, a: nat, middle: seq<Entry>)
    requires a <= |middle| && middle <= log && LosesNothing(middle[a..])
    ensures LosesNothing(log[a..]) <==> LosesNothing(log[|middle|..])
  {
    var b := |middle|;
    assert log[a..] == middle[a..] + log[b..];
  }
}
