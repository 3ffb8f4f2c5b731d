/** The transmit-handle index that `Can_Init` builds once, and the search over all
  * configured object lists that it stands for. */
module CanIndex {
  import opened Basics
  import opened CanConfig
  import opened CanSpec
  import opened CanEffects

  predicate IsHth(o: HwObject, hth: nat) { o.kind.Transmit? && o.id == hth }

  /** First transmit object with the handle, scanning controllers and their lists in
    * configuration order. */
  function SearchObjects(objects: seq<HwObject>, hth: nat): Option<HwObject> {
    if objects == [] then None
    else if IsHth(objects[0], hth) then Some(objects[0])
    else SearchObjects(objects[1..], hth)
  }

  function Search(cfg: seq<Controller>, hth: nat): Option<HthEntry> {
    if cfg == [] then None
    else
      match SearchObjects(cfg[0].objects, hth)
      case Some(o) => Some(HthEntry(cfg[0].id, o))
      case None => Search(cfg[1..], hth)
  }

  predicate HasHth(objects: seq<HwObject>, hth: nat) {
    exists i :: 0 <= i < |objects| && IsHth(objects[i], hth)
  }

  predicate AtMostOne(objects: seq<HwObject>, hth: nat) {
    forall i, j | 0 <= i < j < |objects| :: !(IsHth(objects[i], hth) && IsHth(objects[j], hth))
  }

  /** No two transmit objects of the configuration share a handle. */
  ghost predicate UniqueHandles(cfg: seq<Controller>) {
    && (forall k, h | 0 <= k < |cfg| :: AtMostOne(cfg[k].objects, h))
    && (forall k, l, h | 0 <= k < l < |cfg| :: !(HasHth(cfg[k].objects, h) && HasHth(cfg[l].objects, h)))
  }

  /** Within one list the last write wins, which is the only one if handles are
    * unique; other entries keep their value. */
  lemma {:induction false} MapObjectsAt(m: seq<Option<HthEntry>>, c: nat, objects: seq<HwObject>, hth: nat)
    requires forall i :: 0 <= i < |objects| && objects[i].kind.Transmit? ==> objects[i].id < |m|
    requires hth < |m| && AtMostOne(objects, hth)
    ensures MapObjects(m, c, objects)[hth] ==
            match SearchObjects(objects, hth)
            case Some(o) => Some(HthEntry(c, o))
            case None => m[hth]
    ensures SearchObjects(objects, hth).Some? <==> HasHth(objects, hth)
    decreases |objects|
  {
    if objects != [] {
      var o, rest := objects[0], objects[1..];
      assert forall i :: 0 <= i < |rest| ==> rest[i] == objects[i + 1];
      var m' := if o.kind.Transmit? then m[o.id := Some(HthEntry(c, o))] else m;
      MapObjectsAt(m', c, rest, hth);
      if IsHth(o, hth) {
        assert !HasHth(rest, hth);
      }
    }
  }

  lemma {:induction false} InitFromIndex(d: Driver, k: nat, hwOk: seq<bool>, hth: nat)
    requires Wf(d) && d.Ready() && k <= d.configCnt == |hwOk| && hth < |d.hthMap|
    requires UniqueHandles(d.config.value)
    ensures var found := Search(d.config.value[k..], hth);
            InitFrom(d, k, hwOk).hthMap[hth] == if found.Some? then found else d.hthMap[hth]
    ensures Search(d.config.value[k..], hth).Some? ==>
            exists j :: k <= j < |d.config.value| && HasHth(d.config.value[j].objects, hth)
    decreases d.configCnt - k
  {
    hide InitOne, IsHth;
    var cfg := d.config.value;
    if k < d.configCnt {
      assert Usable(cfg[k], |d.units|, |d.hthMap|);
      InitOneEffect(d, k, hwOk[k], cfg[k].id);
      MapObjectsAt(d.hthMap, cfg[k].id, cfg[k].objects, hth);
      InitFromIndex(InitOne(d, k, hwOk[k]), k + 1, hwOk, hth);
      assert cfg[k..][1..] == cfg[k + 1..] && cfg[k..][0] == cfg[k];
    }
  }

  lemma {:induction false} SearchFindsTransmit(cfg: seq<Controller>, hth: nat)
    requires Search(cfg, hth).Some?
    ensures IsHth(Search(cfg, hth).value.hoh, hth)
  {
    ObjectsFindTransmit(cfg[0].objects, hth);
    if SearchObjects(cfg[0].objects, hth).None? {
      SearchFindsTransmit(cfg[1..], hth);
    }
  }

  lemma {:induction false} ObjectsFindTransmit(objects: seq<HwObject>, hth: nat)
    ensures SearchObjects(objects, hth).Some? ==> IsHth(SearchObjects(objects, hth).value, hth)
  {
    if objects != [] && !IsHth(objects[0], hth) {
      ObjectsFindTransmit(objects[1..], hth);
    }
  }

  /** After `Can_Init` on any configuration with unique handles, the index answers
    * every configured handle exactly as the linear search would, whatever an earlier
    * initialisation had left in it. */
  lemma IndexEqualsSearch(d: Driver, cfg: seq<Controller>, hwOk: seq<bool>, hth: nat)
    requires Wf(d) && |hwOk| == d.configCnt && hth < |d.hthMap|
    requires ConfigOk(cfg, d.configCnt, |d.units|, |d.hthMap|) && InitAccepted(d, Some(cfg))
    requires UniqueHandles(cfg) && Search(cfg, hth).Some?
    ensures var r := Init(d, Some(cfg), hwOk);
            r.hthMap[hth].Some? && FindHoh(r, hth) == Search(cfg, hth)
  {
    hide InitFrom;
    InitFromIndex(d.(config := Some(cfg)), 0, hwOk, hth);
    assert cfg[0..] == cfg;
    SearchFindsTransmit(cfg, hth);
  }

  /** The index answers every configured handle as the search would. */
  ghost predicate Indexed(d: Driver) {
    d.Ready() ==>
      forall hth :: 0 <= hth < |d.hthMap| && Search(d.config.value, hth).Some? ==>
        d.hthMap[hth] == Search(d.config.value, hth)
  }

  /** Every configuration that is accepted in this step has unique handles. */
  ghost predicate UniqueNow(d: Driver, e: Event) {
    e.EvInit? && InitAccepted(d, e.cfg) ==> UniqueHandles(e.cfg.value)
  }

  lemma InitIndexed(d: Driver, e: Event)
    requires Wf(d) && Possible(d, e) && e.EvInit? && InitAccepted(d, e.cfg) && UniqueHandles(e.cfg.value)
    ensures Indexed(Step(d, e))
  {
    hide InitFrom;
    var cfg := e.cfg.value;
    var r := Step(d, e);
    forall hth | 0 <= hth < |r.hthMap| && Search(cfg, hth).Some? ensures r.hthMap[hth] == Search(cfg, hth) {
      InitFromIndex(d.(config := e.cfg), 0, e.hwOks, hth);
      assert cfg[0..] == cfg;
    }
  }

  lemma StepKeepsIndex(d: Driver, e: Event)
    requires Wf(d) && Possible(d, e) && 0 < |d.units| && Indexed(d) && UniqueNow(d, e)
    ensures Indexed(Step(d, e))
  {
    hide Step;
    if e.EvInit? && InitAccepted(d, e.cfg) {
      InitIndexed(d, e);
    } else if e.EvDeInit? {
      StepCore(d, e, 0);
    } else {
      StepGlobals(d, e, 0);
    }
  }

  ghost predicate UniqueThroughout(d: Driver, es: seq<Event>)
    requires Wf(d) && ValidRun(d, es)
    decreases |es|
  {
    es != [] ==> UniqueNow(d, es[0]) && UniqueThroughout(Step(d, es[0]), es[1..])
  }

  /** In every run the index stays right, through shut-downs and initialisations with
    * other configurations, as long as each of them has unique handles. */
  lemma {:induction false} RunKeepsIndex(d: Driver, es: seq<Event>)
    requires Wf(d) && ValidRun(d, es) && 0 < |d.units| && Indexed(d) && UniqueThroughout(d, es)
    ensures Indexed(Run(d, es))
    decreases |es|
  {
    hide Step, Indexed, UniqueNow;
    if es != [] {
      StepKeepsIndex(d, es[0]);
      RunKeepsIndex(Step(d, es[0]), es[1..]);
    }
  }

  /** A right index makes `Can_FindHoh` the linear search. */
  lemma FindHohIsSearch(d: Driver, hth: nat)
    requires Indexed(d) && d.Ready() && hth < |d.hthMap| && Search(d.config.value, hth).Some?
    ensures d.hthMap[hth].Some? && FindHoh(d, hth) == Search(d.config.value, hth)
  {
    SearchFindsTransmit(d.config.value, hth);
  }
}
