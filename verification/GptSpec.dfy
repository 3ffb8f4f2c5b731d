/** The timer driver of `Gpt.c` over its registers, one call, interrupt or counter clock
  * at a time, with development error detection off as the configuration sets it. */
module GptSpec {
  import opened Basics

  datatype Mode = Stopped | Started | Expired | Initialized

  /** One entry of `Gpt_Unit`. */
  datatype Unit = Unit(mode: Mode, expiredWhenStopped: bool)

  /** The registers of one timer that the driver uses: counter enable, update interrupt
    * flag, reload value and counter. Reload and counter are 16 bits wide. */
  datatype Timer = Timer(enabled: bool, pending: bool, reload: int, count: int)

  const WIDTH: int := 0x1_0000

  /** One row of the channel configuration. */
  datatype Row = Row(channel: nat, oneShot: bool)

  datatype State = State(rows: seq<Row>, channelMap: seq<Option<nat>>, units: seq<Unit>, timers: seq<Timer>)

  datatype Event = Init(rows: seq<Row>) | DeInit | Start(ch: nat, period: int) | Stop(ch: nat) | Isr | Clock(ch: nat)

  predicate Shaped(s: State) { |s.channelMap| == |s.units| == |s.timers| }

  predicate UsableRows(rows: seq<Row>, n: nat) {
    |rows| <= n && forall r :: 0 <= r < |rows| ==> rows[r].channel < n
  }

  /** Row of each channel: the last one naming it. */
  function MapOf(rows: seq<Row>, n: nat): (m: seq<Option<nat>>)
    ensures |m| == n
  {
    if rows == [] then seq(n, i => None)
    else
      var r := |rows| - 1;
      var m := MapOf(rows[..r], n);
      if rows[r].channel < n then m[rows[r].channel := Some(r)] else m
  }

  /** Rows are counted off against `Gpt_Unit`: row i marks unit i, whatever its channel. */
  function InitStep(s: State, rows: seq<Row>): State
    requires Shaped(s) && UsableRows(rows, |s.units|)
  {
    s.(rows := rows, channelMap := MapOf(rows, |s.units|),
       units := seq(|s.units|, i requires 0 <= i < |s.units| =>
                      if i < |rows| then Unit(Initialized, false) else s.units[i]))
  }

  function StartStep(s: State, ch: nat, period: int): State
    requires Shaped(s) && ch < |s.units|
  {
    s.(timers := s.timers[ch := Timer(true, false, period % WIDTH, period % WIDTH)],
       units := s.units[ch := Unit(Started, false)])
  }

  function StopUnit(u: Unit): Unit { Unit(Stopped, u.expiredWhenStopped || u.mode == Expired) }

  function StopTimer(t: Timer): Timer { t.(enabled := false, pending := false) }

  function StopStep(s: State, ch: nat): State
    requires Shaped(s) && ch < |s.units|
  {
    s.(timers := s.timers[ch := StopTimer(s.timers[ch])], units := s.units[ch := StopUnit(s.units[ch])])
  }

  function StopAll(s: State, n: nat): (r: State)
    requires Shaped(s) && n <= |s.units|
    ensures Shaped(r) && |r.units| == |s.units|
  {
    if n == 0 then s else StopStep(StopAll(s, n - 1), n - 1)
  }

  predicate Raised(t: Timer) { t.pending && t.enabled }

  /** First channel at or behind `i` that raised its interrupt. */
  function FirstRaised(s: State, i: nat): (r: nat)
    requires i <= |s.timers|
    ensures i <= r <= |s.timers|
    ensures r < |s.timers| ==> Raised(s.timers[r])
    ensures forall k :: i <= k < r ==> !Raised(s.timers[k])
    decreases |s.timers| - i
  {
    if i == |s.timers| || Raised(s.timers[i]) then i else FirstRaised(s, i + 1)
  }

  function IsrChannel(s: State, ch: nat): State
    requires Shaped(s) && ch < |s.units| && s.channelMap[ch].Some? && s.channelMap[ch].value < |s.rows|
  {
    if s.rows[s.channelMap[ch].value].oneShot then
      s.(timers := s.timers[ch := s.timers[ch].(enabled := false, pending := false)],
         units := s.units[ch := s.units[ch].(mode := Expired)])
    else s.(timers := s.timers[ch := s.timers[ch].(pending := false)])
  }

  /** The hardware counts down, and from 0 back to the reload value, raising the flag. */
  function Tick(t: Timer): Timer {
    if t.count > 0 then t.(count := t.count - 1) else t.(count := t.reload, pending := true)
  }

  /** What may happen: usable configurations, channels that exist, starts of configured
    * channels, counting of enabled counters. The interrupt routine asserts that the
    * channel it finds is configured. */
  predicate Enabled(s: State, e: Event) {
    && Shaped(s)
    && match e
       case Init(rows) => UsableRows(rows, |s.units|)
       case DeInit => true
       case Start(ch, period) => ch < |s.units| && s.channelMap[ch].Some? && 0 <= period < TWO32
       case Stop(ch) => ch < |s.units|
       case Isr =>
         var ch := FirstRaised(s, 0);
         ch < |s.units| ==> s.channelMap[ch].Some? && s.channelMap[ch].value < |s.rows|
       case Clock(ch) => ch < |s.units| && s.timers[ch].enabled
  }

  function Step(s: State, e: Event): State
    requires Enabled(s, e)
  {
    match e
    case Init(rows) => InitStep(s, rows)
    case DeInit => StopAll(s, |s.units|)
    case Start(ch, period) => StartStep(s, ch, period)
    case Stop(ch) => StopStep(s, ch)
    case Isr => var ch := FirstRaised(s, 0); if ch < |s.units| then IsrChannel(s, ch) else s
    case Clock(ch) => s.(timers := s.timers[ch := Tick(s.timers[ch])])
  }

  /** The channel whose notification function the interrupt routine calls. */
  predicate Notifies(s: State, e: Event, i: nat)
    requires Shaped(s)
  {
    e == Isr && FirstRaised(s, 0) == i < |s.units|
  }

  predicate Over(u: Unit) { u.mode == Expired || (u.mode == Stopped && u.expiredWhenStopped) }

  function Remaining(s: State, ch: nat): int
    requires Shaped(s) && ch < |s.units|
  {
    if s.units[ch].mode == Initialized || Over(s.units[ch]) then 0 else s.timers[ch].count
  }

  /** The difference is taken in 32 unsigned bits. */
  function Elapsed(s: State, ch: nat): int
    requires Shaped(s) && ch < |s.units|
  {
    if s.units[ch].mode == Initialized then 0
    else if Over(s.units[ch]) then s.timers[ch].reload
    else (s.timers[ch].reload - s.timers[ch].count) % TWO32
  }

  /** After reset: no channel configured, no counter enabled. */
  function PowerOn(n: nat): State {
    State([], seq(n, i => None), seq(n, i => Unit(Stopped, false)), seq(n, i => Timer(false, false, WIDTH - 1, 0)))
  }
}
