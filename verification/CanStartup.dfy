/** What `Can_Init` leaves of the acceptance filters once all controllers are through
  * its loop, and what a controller started from there tells the upper layer. */
module CanStartup {
  import opened Basics
  import opened CanConfig
  import opened CanFilter
  import opened CanSpec
  import opened CanReceive
  import opened CanFifo

  /** The default baud rate is one the controller offers. */
  predicate DefaultOffered(ctl: Controller) { ctl.defaultRate <= 1000 && Offers(ctl.rates, ctl.defaultRate) }

  predicate DistinctIds(cfg: seq<Controller>) {
    forall i, j | 0 <= i < j < |cfg| :: cfg[i].id != cfg[j].id
  }

  /** The first controller is configured at or behind entry `k`, with a default rate that
    * gets it as far as its reset. */
  predicate MasterFrom(cfg: seq<Controller>, k: nat) {
    exists j :: k <= j < |cfg| && cfg[j].id == 0 && DefaultOffered(cfg[j])
  }

  lemma InitOneBanks(d: Driver, k: nat, hwOk: bool, x: nat)
    requires Wf(d) && d.Ready() && k < d.configCnt && x < |d.units|
    ensures var ctl := d.config.value[k];
            var r := InitOne(d, k, hwOk);
            var before := if ctl.id == 0 && DefaultOffered(ctl) then [] else d.units[x].banks;
            && r.channelMap == d.channelMap[ctl.id := k]
            && r.units[x].banks ==
               if x == ctl.id && DefaultOffered(ctl) then Overlay(FilterSetup(ctl.objects, 0), before) else before
  {
    hide FilterSetup, MapObjects, Overlay;
  }

  /** Controllers still to come leave the filters of one that is through, unless the
    * first controller is among them: its reset empties all. */
  lemma {:induction false} LaterBanks(d: Driver, k: nat, hwOk: seq<bool>, x: nat)
    requires Wf(d) && d.Ready() && k <= d.configCnt == |hwOk| && x < |d.units|
    requires forall j :: k <= j < d.configCnt ==> d.config.value[j].id != x
    ensures var r := InitFrom(d, k, hwOk);
            && r.channelMap[x] == d.channelMap[x] && r.config == d.config
            && r.units[x].banks == if MasterFrom(d.config.value, k) then [] else d.units[x].banks
    decreases d.configCnt - k
  {
    hide InitOne;
    if k < d.configCnt {
      InitOneBanks(d, k, hwOk[k], x);
      LaterBanks(InitOne(d, k, hwOk[k]), k + 1, hwOk, x);
    }
  }

  lemma {:induction false} BanksFrom(d: Driver, i: nat, k: nat, hwOk: seq<bool>)
    requires Wf(d) && d.Ready() && i <= k < d.configCnt == |hwOk| && DistinctIds(d.config.value)
    requires d.units[d.config.value[k].id].banks == []
    ensures var cfg := d.config.value;
            var x := cfg[k].id;
            var r := InitFrom(d, i, hwOk);
            && r.config == d.config && r.channelMap[x] == k
            && r.units[x].banks ==
               if DefaultOffered(cfg[k]) && !MasterFrom(cfg, k + 1) then FilterSetup(cfg[k].objects, 0) else []
    decreases d.configCnt - i
  {
    hide InitOne;
    var x := d.config.value[k].id;
    InitOneBanks(d, i, hwOk[i], x);
    var d1 := InitOne(d, i, hwOk[i]);
    if i < k {
      BanksFrom(d1, i + 1, k, hwOk);
    } else {
      LaterBanks(d1, k + 1, hwOk, x);
    }
  }

  /** From reset, with distinct controllers: a controller has its configured filters after
    * initialisation if and only if it has no receive objects, or its default rate is one
    * it offers and no first controller with an offered default rate is configured behind
    * it. */
  lemma InitRoutesIff(d: Driver, cfg: seq<Controller>, hwOk: seq<bool>, k: nat)
    requires Wf(d) && |hwOk| == d.configCnt && k < |cfg|
    requires ConfigOk(cfg, d.configCnt, |d.units|, |d.hthMap|) && InitAccepted(d, Some(cfg))
    requires DistinctIds(cfg) && d.units[cfg[k].id].banks == []
    ensures Routed(Init(d, Some(cfg), hwOk), cfg[k].id) <==>
            FilterSetup(cfg[k].objects, 0) == [] || (DefaultOffered(cfg[k]) && !MasterFrom(cfg, k + 1))
  {
    hide InitFrom;
    BanksFrom(d.(config := Some(cfg)), 0, k, hwOk);
  }

  // -------------------------------------------------- from power-on to reception

  lemma InitOneFifos(d: Driver, k: nat, hwOk: bool, x: nat)
    requires Wf(d) && d.Ready() && k < d.configCnt && x < |d.units| && d.units[x].fifos == NO_FRAMES
    ensures InitOne(d, k, hwOk).units[x].fifos == NO_FRAMES
  {
    hide FilterSetup, MapObjects, Overlay;
  }

  lemma {:induction false} InitFromFifos(d: Driver, k: nat, hwOk: seq<bool>, x: nat)
    requires Wf(d) && d.Ready() && k <= d.configCnt == |hwOk| && x < |d.units| && d.units[x].fifos == NO_FRAMES
    ensures InitFrom(d, k, hwOk).units[x].fifos == NO_FRAMES
    decreases d.configCnt - k
  {
    hide InitOne;
    if k < d.configCnt {
      InitOneFifos(d, k, hwOk[k], x);
      InitFromFifos(InitOne(d, k, hwOk[k]), k + 1, hwOk, x);
    }
  }

  /** What a configuration needs so that its k-th controller can receive from
    * initialisation on. */
  predicate Receives(cfg: seq<Controller>, k: nat)
    requires k < |cfg|
  {
    && CountKind(cfg[k].objects, Receive) <= 2
    && (FilterSetup(cfg[k].objects, 0) == [] || (DefaultOffered(cfg[k]) && !MasterFrom(cfg, k + 1)))
  }

  /** Initialisation from power-on is where faithful reception begins, for exactly these
    * controllers. */
  lemma InitTidiesIff(d: Driver, cfg: seq<Controller>, hwOk: seq<bool>, k: nat)
    requires PowerOn(d) && Possible(d, EvInit(Some(cfg), hwOk)) && AllPassCheck(cfg)
    requires DistinctIds(cfg) && k < |cfg|
    ensures var r, x := Init(d, Some(cfg), hwOk), cfg[k].id;
            && r.Ready() && x < |r.units| && ConfigOf(r, x) == cfg[k] && r.units[x].fifos == NO_FRAMES
            && (Tidy(r, x) <==> Receives(cfg, k))
  {
    hide InitFrom, FilterSetup, HwRoute;
    assert Usable(cfg[k], |d.units|, |d.hthMap|);
    InitRoutesIff(d, cfg, hwOk, k);
    BanksFrom(d.(config := Some(cfg)), 0, k, hwOk);
    InitFromFifos(d.(config := Some(cfg)), 0, hwOk, cfg[k].id);
  }

  /** End to end: initialised from power-on, started at any later time, and from then on
    * left alone with its filters, such a controller tells the upper layer every frame that
    * arrives for a FIFO, once, in order and for the first object that accepts it, if and
    * only if no arrival finds three frames waiting. */
  lemma ToldSinceStartIff(d: Driver, cfg: seq<Controller>, oks: seq<bool>, k: nat,
                          before: seq<Event>, hwOk: bool, after: seq<Event>, fifo: nat)
    requires PowerOn(d) && Possible(d, EvInit(Some(cfg), oks)) && AllPassCheck(cfg)
    requires DistinctIds(cfg) && k < |cfg| && Receives(cfg, k) && fifo < 2
    requires var d0 := Init(d, Some(cfg), oks);
             && ValidRun(d0, before)
             && (forall i :: 0 <= i < |before| ==> !Reroutes(before[i], cfg[k].id))
             && SetMode(Run(d0, before), cfg[k].id, ToStart, hwOk).1
    requires var d2 := SetMode(Run(Init(d, Some(cfg), oks), before), cfg[k].id, ToStart, hwOk).0;
             && ValidRun(d2, after)
             && (forall i :: 0 <= i < |after| ==> !Reroutes(after[i], cfg[k].id))
    ensures var x := cfg[k].id;
            var d2 := SetMode(Run(Init(d, Some(cfg), oks), before), x, ToStart, hwOk).0;
            && Tidy(d2, x) && d2.units[x].mode.Started?
            && (ServedInOrder(d2, Run(d2, after), x, fifo, Arrivals(d2, after, x, fifo)) <==>
                Overruns(d2, after, x, fifo) == 0)
  {
    hide Init, Run, ValidRun, SetMode, Wf, Receives, Reroutes, FilterSetup, HwRoute,
      ServedInOrder, Arrivals, Overruns, AllPassCheck, DistinctIds, ConfigOk;
    var x, d0 := cfg[k].id, Init(d, Some(cfg), oks);
    InitTidiesIff(d, cfg, oks, k);
    TidyMeans(d0, x);
    RunKeepsRouting(d0, before, x);
    var d1 := Run(d0, before);
    StartTidiesIff(d1, x, hwOk);
    var d2 := SetMode(d1, x, ToStart, hwOk).0;
    ArrivalsAreToldIff(d2, after, x, fifo);
    assert d2.units[x].fifos[fifo] + Arrivals(d2, after, x, fifo) == Arrivals(d2, after, x, fifo);
  }
}
