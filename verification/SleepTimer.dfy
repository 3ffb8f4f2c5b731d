/** The table and the tick of `sleep.c` as they are updated in place. */
module SleepTimer {
  import opened Basics
  import S = Sleep

  class SleepTimer {
    var ticks: int
    const timeoutlist: array<S.Entry>

    ghost predicate Valid() reads this, timeoutlist { S.WellFormed(State()) }

    /** The module as the sweep finds it between two ticks. */
    ghost function State(): S.State reads this, timeoutlist { S.State(ticks, timeoutlist[..], S.Idle) }

    constructor (tasks: nat)
      ensures Valid() && fresh(timeoutlist)
      ensures ticks == 0 && timeoutlist[..] == seq(tasks, i => S.Entry(0, false, 0))
    {
      ticks := 0;
      timeoutlist := new S.Entry[tasks](i => S.Entry(0, false, 0));
    }

    method SleepInit()
      requires Valid()
      modifies timeoutlist
      ensures Valid() && State() == S.Step(old(State()), S.CallInit)
    {
      for i := 0 to timeoutlist.Length
        invariant forall k :: 0 <= k < i ==> timeoutlist[k] == old(timeoutlist[k]).(active := false)
        invariant forall k :: i <= k < timeoutlist.Length ==> timeoutlist[k] == old(timeoutlist[k])
      {
        timeoutlist[i] := timeoutlist[i].(active := false);
      }
      assert timeoutlist[..] == S.Cleanup(old(timeoutlist[..]));
    }

    method Sleep(n: int, task: nat, mask: int) returns (error: bool)
      requires Valid() && 0 <= n < TWO32
      modifies timeoutlist
      ensures Valid() && State() == S.Step(old(State()), S.CallSleep(n, task, mask))
      ensures error <==> task >= timeoutlist.Length
      ensures !error ==> timeoutlist[task].active && timeoutlist[task].mask == mask
      ensures !error && n >= 1 ==> timeoutlist[task].timeout == (ticks + n) % TWO32
      ensures !error && n == 0 ==> timeoutlist[task].timeout == (ticks + 1) % TWO32
    {
      var delay := if n == 0 then 1 else n;
      error := task >= timeoutlist.Length;
      if !error {
        timeoutlist[task] := timeoutlist[task].(timeout := (ticks + delay) % TWO32);
        timeoutlist[task] := timeoutlist[task].(active := true);
        timeoutlist[task] := timeoutlist[task].(mask := mask);
      }
    }

    /** One turn of the endless loop of `SleepTask`, uninterrupted: a run of the sweep's
      * own steps, from the tick to waiting for the next. */
    method SweepOnce() returns (signals: seq<S.Signal>, ghost run: seq<S.Event>)
      requires Valid()
      modifies this`ticks, timeoutlist
      ensures Valid()
      ensures S.Swept(old(State()), run, State(), signals)
    {
      hide S.Swept;
      ghost var s0 := State();
      S.SweptStart(s0);
      ghost var s := S.Step(s0, S.Tick);
      ticks := (ticks + 1) % TWO32;
      signals, run := [], [S.Tick];
      for i := 0 to timeoutlist.Length
        invariant s == S.State(ticks, timeoutlist[..], if i < timeoutlist.Length then S.Testing(i) else S.Idle)
        invariant S.WellFormed(s) && S.Swept(s0, run, s, signals)
      {
        S.SweptMore(s0, run, s, signals);
        run, s := run + [S.Sweep], S.Step(s, S.Sweep);
        assert signals + [] == signals;
        if timeoutlist[i].active && timeoutlist[i].timeout == ticks {
          timeoutlist[i] := timeoutlist[i].(active := false);
          S.SweptMore(s0, run, s, signals);
          run, s := run + [S.Sweep], S.Step(s, S.Sweep);
          S.SweptMore(s0, run, s, signals);
          run, s := run + [S.Sweep], S.Step(s, S.Sweep);
          signals := signals + [S.Signal(i, timeoutlist[i].mask, 1)];
        }
      }
    }
  }
}
