/** The timer driver as it is: arrays updated by API calls and the interrupt routine. */
module Gpt {
  import opened Basics
  import opened GptSpec
  import S = GptSpec
  import GptRuns

  class Gpt {
    var config: seq<Row>
    const channelMap: array<Option<nat>>
    const units: array<Unit>
    const timers: array<Timer>

    ghost predicate Valid() {
      channelMap.Length == units.Length == timers.Length
    }

    ghost function State(): State reads this, channelMap, units, timers {
      S.State(config, channelMap[..], units[..], timers[..])
    }

    constructor (n: nat)
      ensures Valid() && fresh(channelMap) && fresh(units) && fresh(timers)
      ensures State() == PowerOn(n)
    {
      config := [];
      channelMap := new Option<nat>[n](i => None);
      units := new Unit[n](i => Unit(Stopped, false));
      timers := new Timer[n](i => Timer(false, false, WIDTH - 1, 0));
    }

    method Init(rows: seq<Row>)
      requires Valid() && Enabled(State(), S.Init(rows))
      modifies this`config, channelMap, units
      ensures State() == Step(old(State()), S.Init(rows))
    {
      for i := 0 to channelMap.Length
        invariant forall k :: 0 <= k < i ==> channelMap[k].None?
        invariant units[..] == old(units[..])
      {
        channelMap[i] := None;
      }
      assert channelMap[..] == MapOf(rows[..0], units.Length);
      for i := 0 to |rows|
        invariant channelMap[..] == MapOf(rows[..i], units.Length)
        invariant forall k :: 0 <= k < units.Length ==>
                    units[k] == if k < i then Unit(Initialized, false) else old(units[k])
      {
        assert rows[..i + 1][..i] == rows[..i];
        channelMap[rows[i].channel] := Some(i);
        units[i] := units[i].(mode := Initialized);
        units[i] := units[i].(expiredWhenStopped := false);
      }
      assert rows[..|rows|] == rows;
      config := rows;
    }

    method StartTimer(ch: nat, period: int)
      requires Valid() && Enabled(State(), Start(ch, period))
      modifies units, timers
      ensures State() == Step(old(State()), Start(ch, period))
    {
      timers[ch] := timers[ch].(reload := period % WIDTH);
      timers[ch] := timers[ch].(count := period % WIDTH);
      timers[ch] := timers[ch].(pending := false);
      timers[ch] := timers[ch].(enabled := true);
      units[ch] := units[ch].(mode := Started);
      units[ch] := units[ch].(expiredWhenStopped := false);
    }

    method StopTimer(ch: nat)
      requires Valid() && ch < units.Length
      modifies units, timers
      ensures State() == Step(old(State()), Stop(ch))
    {
      timers[ch] := timers[ch].(enabled := false);
      timers[ch] := timers[ch].(pending := false);
      if units[ch].mode == Expired {
        units[ch] := units[ch].(expiredWhenStopped := true);
      }
      units[ch] := units[ch].(mode := Stopped);
    }

    method DeInit()
      requires Valid()
      modifies units, timers
      ensures State() == Step(old(State()), S.DeInit)
    {
      for ch := 0 to units.Length
        invariant State() == StopAll(old(State()), ch)
      {
        StopTimer(ch);
      }
    }

    /** Handles the first channel that raised its interrupt; says whose notification it
      * calls. */
    method Isr() returns (notified: Option<nat>)
      requires Valid() && Enabled(State(), S.Isr)
      modifies units, timers
      ensures State() == Step(old(State()), S.Isr)
      ensures notified.Some? ==> Notifies(old(State()), S.Isr, notified.value)
      ensures notified.None? ==> forall i: nat :: !Notifies(old(State()), S.Isr, i)
    {
      var i: nat, found := 0, false;
      while i < units.Length && !found
        invariant i <= units.Length
        invariant found ==> i > 0 && FirstRaised(State(), 0) == i - 1
        invariant !found ==> FirstRaised(State(), i) == FirstRaised(State(), 0)
        decreases units.Length - i, !found
      {
        found := timers[i].pending && timers[i].enabled;
        i := i + 1;
      }
      if !found { return None; }
      var ch := i - 1;
      if config[channelMap[ch].value].oneShot {
        timers[ch] := timers[ch].(enabled := false);
        units[ch] := units[ch].(mode := Expired);
      }
      timers[ch] := timers[ch].(pending := false);
      return Some(ch);
    }

    /** What is left of the reload value when the elapsed time is taken off. */
    method GetTimeRemaining(ch: nat) returns (r: int)
      requires Valid() && ch < units.Length
      ensures r == Remaining(State(), ch)
      ensures GptRuns.Inv(State()) ==>
                && 0 <= r < WIDTH
                && (units[ch].mode != Initialized ==> r == timers[ch].reload - Elapsed(State(), ch))
                && (Over(units[ch]) ==> r == 0)
    {
      if GptRuns.Inv(State()) {
        GptRuns.TimesAddUp(State(), ch);
      }
      var u := units[ch];
      if u.mode == Initialized || u.mode == Expired || (u.mode == Stopped && u.expiredWhenStopped) { return 0; }
      return timers[ch].count;
    }

    /** What is missing from the reload value; no 32-bit wrap-around shows. */
    method GetTimeElapsed(ch: nat) returns (r: int)
      requires Valid() && ch < units.Length
      ensures r == Elapsed(State(), ch)
      ensures GptRuns.Inv(State()) ==>
                && 0 <= r < WIDTH
                && (units[ch].mode != Initialized ==> r == timers[ch].reload - Remaining(State(), ch))
                && (Over(units[ch]) ==> r == timers[ch].reload)
    {
      if GptRuns.Inv(State()) {
        GptRuns.TimesAddUp(State(), ch);
      }
      var u := units[ch];
      if u.mode == Initialized { return 0; }
      if u.mode == Expired || (u.mode == Stopped && u.expiredWhenStopped) { return timers[ch].reload; }
      return (timers[ch].reload - timers[ch].count) % TWO32;
    }
  }
}
