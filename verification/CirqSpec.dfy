/** The circular buffer of `cirq_buffer.c` over raw bytes, and the protocol by which
  * one producer and one consumer share it. Pointers are byte offsets from the start
  * of the storage. */
module CirqSpec {
  import opened Basics

  type Record = seq<Byte>

  /** `CirqBufferType` together with the storage it points into. */
  datatype Ring = Ring(maxCnt: nat, dataSize: nat, store: seq<Byte>, head: nat, tail: nat, currCnt: nat) {
    predicate Shaped() {
      && 0 < dataSize && |store| == dataSize * maxCnt
      && (0 < maxCnt ==> head + dataSize <= |store| && tail + dataSize <= |store|)
      && currCnt <= maxCnt
    }
  }

  function InitRing(maxCnt: nat, dataSize: nat, store: seq<Byte>): Ring {
    Ring(maxCnt, dataSize, store, 0, 0, 0)
  }

  /** One element further, wrapping at `bufEnd`. */
  function Next(r: Ring, p: nat): nat {
    if p + r.dataSize == |r.store| then 0 else p + r.dataSize
  }

  /** 0: pushed; 1: no room. */
  function Push(r: Ring, data: Record): (Ring, int)
    requires r.Shaped() && |data| == r.dataSize
  {
    if r.currCnt == r.maxCnt then (r, 1)
    else (r.(store := Overwrite(r.store, r.head, data), head := Next(r, r.head), currCnt := r.currCnt + 1), 0)
  }

  function Pop(r: Ring): (Ring, Option<Record>)
    requires r.Shaped()
  {
    if r.currCnt == 0 then (r, None)
    else (r.(tail := Next(r, r.tail), currCnt := r.currCnt - 1), Some(r.store[r.tail..r.tail + r.dataSize]))
  }

  function PushLock(r: Ring): (Ring, Option<nat>) {
    if r.currCnt == r.maxCnt then (r, None) else (r.(head := Next(r, r.head)), Some(r.head))
  }

  function PopLock(r: Ring): (Ring, Option<nat>) {
    if r.currCnt == 0 then (r, None) else (r.(tail := Next(r, r.tail)), Some(r.tail))
  }

  function PushRelease(r: Ring): Ring { r.(currCnt := (r.currCnt + 1) % TWO32) }

  function PopRelease(r: Ring): Ring { r.(currCnt := (r.currCnt - 1) % TWO32) }

  function Walk(r: Ring, p: nat, steps: nat): nat
    decreases steps
  {
    if steps == 0 then p else Walk(r, Next(r, p), steps - 1)
  }

  function Peek(r: Ring, offset: nat): Option<nat> {
    if r.currCnt == 0 || offset > r.currCnt then None else Some(Walk(r, r.tail, offset))
  }

  // ------------------------------------------------------------ slot geometry

  function Slot(i: nat, maxCnt: nat): nat
    requires 0 < maxCnt
  {
    i % maxCnt
  }

  function Offset(slot: nat, dataSize: nat): nat { dataSize * slot }

  lemma SlotNext(i: nat, maxCnt: nat)
    requires 0 < maxCnt
    ensures Slot(i, maxCnt) < maxCnt
    ensures Slot(i + 1, maxCnt) == if Slot(i, maxCnt) + 1 == maxCnt then 0 else Slot(i, maxCnt) + 1
  {
    var q, s := i / maxCnt, i % maxCnt;
    assert i == maxCnt * q + s;
    if s + 1 == maxCnt {
      DivModUnique(i + 1, maxCnt, q + 1, 0);
    } else {
      DivModUnique(i + 1, maxCnt, q, s + 1);
    }
  }

  lemma {:induction false} SlotAfter(i: nat, t: nat, maxCnt: nat)
    requires 0 < maxCnt && t < maxCnt
    ensures Slot(i, maxCnt) < maxCnt
    ensures Slot(i + t, maxCnt) ==
            if Slot(i, maxCnt) + t < maxCnt then Slot(i, maxCnt) + t else Slot(i, maxCnt) + t - maxCnt
  {
    hide Slot;
    SlotNext(i, maxCnt);
    if t > 0 {
      SlotAfter(i, t - 1, maxCnt);
      SlotNext(i + t - 1, maxCnt);
    }
  }

  lemma SlotsDiffer(i: nat, j: nat, maxCnt: nat)
    requires i < j < i + maxCnt
    ensures Slot(i, maxCnt) != Slot(j, maxCnt)
  {
    SlotAfter(i, j - i, maxCnt);
  }

  lemma {:induction false} OffsetsApart(a: nat, b: nat, dataSize: nat)
    requires a < b
    ensures Offset(a, dataSize) + dataSize <= Offset(b, dataSize)
  {
    assert dataSize * b == dataSize * (b - 1) + dataSize;
    if a < b - 1 {
      OffsetsApart(a, b - 1, dataSize);
    }
  }

  lemma NextOffset(r: Ring, i: nat)
    requires 0 < r.maxCnt && 0 < r.dataSize && |r.store| == r.dataSize * r.maxCnt
    ensures Next(r, Offset(Slot(i, r.maxCnt), r.dataSize)) == Offset(Slot(i + 1, r.maxCnt), r.dataSize)
    ensures Offset(Slot(i, r.maxCnt), r.dataSize) + r.dataSize <= |r.store|
  {
    SlotNext(i, r.maxCnt);
    var s := Slot(i, r.maxCnt);
    assert Offset(s, r.dataSize) + r.dataSize == Offset(s + 1, r.dataSize);
    if s + 1 < r.maxCnt {
      OffsetsApart(s + 1, r.maxCnt, r.dataSize);
    }
    OffsetsApart(s, r.maxCnt, r.dataSize);
  }

  /** The bytes of the slot that holds the i-th record ever pushed. */
  function RecordAt(r: Ring, i: nat): Record
    requires 0 < r.maxCnt && |r.store| == r.dataSize * r.maxCnt && 0 < r.dataSize
  {
    NextOffset(r, i);
    var p := Offset(Slot(i, r.maxCnt), r.dataSize);
    r.store[p..p + r.dataSize]
  }

  lemma OverwriteHere(store: seq<Byte>, p: nat, data: Record)
    requires p + |data| <= |store|
    ensures |Overwrite(store, p, data)| == |store|
    ensures Overwrite(store, p, data)[p..p + |data|] == data
  {
  }

  /** The offset is that of some slot. */
  predicate IsSlot(r: Ring, p: nat) {
    exists h :: 0 <= h < r.maxCnt && p == Offset(h, r.dataSize)
  }

  predicate Aligned(r: Ring) {
    && r.Shaped()
    && (0 < r.maxCnt ==> IsSlot(r, r.head) && IsSlot(r, r.tail))
  }

  lemma NextIsSlot(r: Ring, p: nat)
    requires r.Shaped() && 0 < r.maxCnt && IsSlot(r, p)
    ensures IsSlot(r, Next(r, p)) && Next(r, p) + r.dataSize <= |r.store|
  {
    var h: nat :| h < r.maxCnt && p == Offset(h, r.dataSize);
    DivModUnique(h, r.maxCnt, 0, h);
    SlotNext(h, r.maxCnt);
    NextOffset(r, h);
    NextOffset(r, h + 1);
    SlotNext(h + 1, r.maxCnt);
  }

  // ------------------------------------------------- the two-phase protocol

  /** The ring, which slots are locked, and everything ever pushed and popped. */
  datatype State = State(ring: Ring, filling: bool, reading: bool, pushed: seq<Record>, popped: seq<Record>)

  datatype Event =
    | DoPush(data: Record)
    | DoPop
    | DoPushLock
    | Fill(at: nat, byte: Byte)     // the producer writes into the slot it holds
    | DoPushRelease
    | DoPopLock
    | DoPopRelease                  // the consumer has used the slot it holds

  /** One producer, one consumer, and each uses lock and release alternately. */
  predicate Allowed(s: State, e: Event) {
    match e
    case DoPush(data) => !s.filling && |data| == s.ring.dataSize
    case DoPushLock => !s.filling
    case Fill(at, _) => s.filling && at < s.ring.dataSize
    case DoPushRelease => s.filling
    case DoPop => !s.reading
    case DoPopLock => !s.reading
    case DoPopRelease => s.reading
  }

  /** The record being read or next to be read, and the one being filled or next to be
    * filled, by their positions in the order of pushing. */
  predicate Inv(s: State) {
    var r, p, q := s.ring, |s.pushed|, |s.popped|;
    && r.Shaped() && r.maxCnt < TWO32
    && q <= p && r.currCnt == p - q
    && (s.filling ==> r.currCnt < r.maxCnt) && (s.reading ==> 0 < r.currCnt)
    && s.popped == s.pushed[..q]
    && (r.maxCnt == 0 ==> r.head == 0 && r.tail == 0)
    && (0 < r.maxCnt ==>
          && r.head == Offset(Slot(if s.filling then p + 1 else p, r.maxCnt), r.dataSize)
          && r.tail == Offset(Slot(if s.reading then q + 1 else q, r.maxCnt), r.dataSize)
          && forall i :: q <= i < p ==> RecordAt(r, i) == s.pushed[i])
  }

  predicate Initial(s: State) {
    && s.ring.Shaped() && s.ring.maxCnt < TWO32
    && s.ring == InitRing(s.ring.maxCnt, s.ring.dataSize, s.ring.store)
    && !s.filling && !s.reading && s.pushed == [] && s.popped == []
  }

  function Step(s: State, e: Event): State
    requires Inv(s) && Allowed(s, e)
  {
    var r := s.ring;
    match e
    case DoPush(data) =>
      var (r', rv) := Push(r, data);
      if rv == 0 then s.(ring := r', pushed := s.pushed + [data]) else s
    case DoPop =>
      var (r', data) := Pop(r);
      if data.Some? then s.(ring := r', popped := s.popped + [data.value]) else s
    case DoPushLock =>
      var (r', at) := PushLock(r);
      if at.Some? then s.(ring := r', filling := true) else s
    case Fill(at, byte) =>
      NextOffset(r, |s.pushed|);
      s.(ring := r.(store := r.store[Held(r, |s.pushed|) + at := byte]))
    case DoPushRelease =>
      s.(ring := PushRelease(r), filling := false, pushed := s.pushed + [RecordAt(r, |s.pushed|)])
    case DoPopLock =>
      var (r', at) := PopLock(r);
      if at.Some? then s.(ring := r', reading := true) else s
    case DoPopRelease =>
      s.(ring := PopRelease(r), reading := false, popped := s.popped + [RecordAt(r, |s.popped|)])
  }

  /** Offset of the slot of the i-th record: what a successful lock returned. */
  function Held(r: Ring, i: nat): nat
    requires 0 < r.maxCnt
  {
    Offset(Slot(i, r.maxCnt), r.dataSize)
  }

  /** Changing bytes of the slot of record `p` leaves the live records alone. */
  lemma OthersUntouched(r: Ring, r': Ring, p: nat, q: nat, i: nat)
    requires 0 < r.maxCnt && 0 < r.dataSize && |r.store| == r.dataSize * r.maxCnt
    requires q <= i < p < q + r.maxCnt
    requires r'.maxCnt == r.maxCnt && r'.dataSize == r.dataSize && |r'.store| == |r.store|
    requires forall k :: 0 <= k < |r.store| && !(Held(r, p) <= k < Held(r, p) + r.dataSize) ==>
               r'.store[k] == r.store[k]
    ensures RecordAt(r', i) == RecordAt(r, i)
  {
    SlotsDiffer(i, p, r.maxCnt);
    var a, b := Slot(i, r.maxCnt), Slot(p, r.maxCnt);
    if a < b {
      OffsetsApart(a, b, r.dataSize);
    } else {
      OffsetsApart(b, a, r.dataSize);
    }
    NextOffset(r, i);
    NextOffset(r, p);
  }

  lemma ProducerKeepsInv(s: State, e: Event)
    requires Inv(s) && Allowed(s, e) && (e.DoPush? || e.DoPushLock? || e.Fill? || e.DoPushRelease?)
    ensures Inv(Step(s, e))
  {
    hide Slot, Offset, Overwrite;
    if 0 < s.ring.maxCnt {
      NextOffset(s.ring, |s.pushed|);
      NextOffset(s.ring, |s.pushed| + 1);
      match e
      case DoPush(data) => PushKeeps(s, data);
      case Fill(at, byte) => FillKeeps(s, at, byte);
      case _ =>
    }
  }

  /** The ring's bytes stay, and with them its records. */
  lemma SameRecords(r: Ring, r': Ring, i: nat)
    requires 0 < r.maxCnt && 0 < r.dataSize && |r.store| == r.dataSize * r.maxCnt
    requires r'.maxCnt == r.maxCnt && r'.dataSize == r.dataSize && r'.store == r.store
    ensures RecordAt(r', i) == RecordAt(r, i)
  {
  }

  lemma PopKeeps(s: State)
    requires Inv(s) && Allowed(s, DoPop) && 0 < s.ring.currCnt
    ensures Inv(Step(s, DoPop))
  {
    hide Slot, Offset, Next;
    var r, t, q := s.ring, Step(s, DoPop), |s.popped|;
    NextOffset(r, q);
    NextOffset(r, q + 1);
    assert RecordAt(r, q) == s.pushed[q];
    assert s.popped + [s.pushed[q]] == s.pushed[..q + 1];
    forall i | q < i < |s.pushed| ensures RecordAt(t.ring, i) == s.pushed[i] {
      SameRecords(r, t.ring, i);
    }
  }

  lemma PopLockKeeps(s: State)
    requires Inv(s) && Allowed(s, DoPopLock) && 0 < s.ring.currCnt
    ensures Inv(Step(s, DoPopLock))
  {
    hide Slot, Offset, Next, RecordAt;
    var r, t := s.ring, Step(s, DoPopLock);
    NextOffset(r, |s.popped|);
    NextOffset(r, |s.popped| + 1);
    forall i | |s.popped| <= i < |s.pushed| ensures RecordAt(t.ring, i) == s.pushed[i] {
      SameRecords(r, t.ring, i);
    }
  }

  lemma PopReleaseKeeps(s: State)
    requires Inv(s) && Allowed(s, DoPopRelease)
    ensures Inv(Step(s, DoPopRelease))
  {
    hide Slot, Offset, Next, RecordAt;
    var r, t, q := s.ring, Step(s, DoPopRelease), |s.popped|;
    assert s.popped + [s.pushed[q]] == s.pushed[..q + 1];
    forall i | q < i < |s.pushed| ensures RecordAt(t.ring, i) == s.pushed[i] {
      SameRecords(r, t.ring, i);
    }
  }

  lemma ConsumerKeepsInv(s: State, e: Event)
    requires Inv(s) && Allowed(s, e) && (e.DoPop? || e.DoPopLock? || e.DoPopRelease?)
    ensures Inv(Step(s, e))
  {
    if e.DoPopRelease? {
      PopReleaseKeeps(s);
    } else if 0 < s.ring.currCnt {
      hide Step;
      if e.DoPop? {
        PopKeeps(s);
      } else {
        PopLockKeeps(s);
      }
    }
  }

  lemma StepKeepsInv(s: State, e: Event)
    requires Inv(s) && Allowed(s, e)
    ensures Inv(Step(s, e))
  {
    hide Inv, Step;
    if e.DoPop? || e.DoPopLock? || e.DoPopRelease? {
      ConsumerKeepsInv(s, e);
    } else {
      ProducerKeepsInv(s, e);
    }
  }

  lemma PushKeeps(s: State, data: Record)
    requires Inv(s) && Allowed(s, DoPush(data)) && 0 < s.ring.maxCnt
    ensures forall i :: |s.popped| <= i < |Step(s, DoPush(data)).pushed| ==>
              RecordAt(Step(s, DoPush(data)).ring, i) == Step(s, DoPush(data)).pushed[i]
  {
    var r, p, q := s.ring, |s.pushed|, |s.popped|;
    var t := Step(s, DoPush(data));
    NextOffset(r, p);
    if r.currCnt < r.maxCnt {
      OverwriteHere(r.store, r.head, data);
      forall i | q <= i < p
        ensures RecordAt(t.ring, i) == s.pushed[i]
      {
        OthersUntouched(r, t.ring, p, q, i);
      }
    }
  }

  lemma FillKeeps(s: State, at: nat, byte: Byte)
    requires Inv(s) && Allowed(s, Fill(at, byte))
    ensures var t := Step(s, Fill(at, byte));
            |t.ring.store| == |s.ring.store| &&
            forall i :: |s.popped| <= i < |s.pushed| ==> RecordAt(t.ring, i) == s.pushed[i]
  {
    var r, p, q := s.ring, |s.pushed|, |s.popped|;
    NextOffset(r, p);
    var t := Step(s, Fill(at, byte));
    forall i | q <= i < p
      ensures RecordAt(t.ring, i) == s.pushed[i]
    {
      OthersUntouched(r, t.ring, p, q, i);
    }
  }

  predicate ValidRun(s: State, es: seq<Event>)
    requires Inv(s)
    decreases |es|
  {
    es == [] || (Allowed(s, es[0]) && (StepKeepsInv(s, es[0]); ValidRun(Step(s, es[0]), es[1..])))
  }

  function Run(s: State, es: seq<Event>): (t: State)
    requires Inv(s) && ValidRun(s, es)
    ensures Inv(t)
    decreases |es|
  {
    if es == [] then s else StepKeepsInv(s, es[0]); Run(Step(s, es[0]), es[1..])
  }

  lemma InitialInv(s: State)
    requires Initial(s)
    ensures Inv(s)
  {
    if 0 < s.ring.maxCnt {
      SlotOfSmall(0, s.ring.maxCnt);
      NextOffset(s.ring, 0);
    }
  }

  // -------------------------------------------------------------- theorems

  /** Delivery is first in, first out, over every interleaving of the producer's and
    * the consumer's steps: what has been popped is always what was pushed first, and
    * what is still inside is the rest. */
  lemma FirstInFirstOut(s: State, es: seq<Event>)
    requires Initial(s) && (InitialInv(s); ValidRun(s, es))
    ensures var t := (InitialInv(s); Run(s, es));
            && t.popped <= t.pushed
            && t.ring.currCnt == |t.pushed| - |t.popped| <= t.ring.maxCnt
  {
    InitialInv(s);
    var t := Run(s, es);
    assert t.popped == t.pushed[..|t.popped|];
  }

  /** While both sides hold a slot, they hold different ones: not a byte is shared. */
  lemma LockedSlotsDisjoint(s: State, es: seq<Event>)
    requires Inv(s) && ValidRun(s, es)
    ensures var t := Run(s, es);
            t.filling && t.reading ==>
              var f, g := Held(t.ring, |t.pushed|), Held(t.ring, |t.popped|);
              f + t.ring.dataSize <= g || g + t.ring.dataSize <= f
  {
    var t := Run(s, es);
    if t.filling && t.reading {
      SlotsDiffer(|t.popped|, |t.pushed|, t.ring.maxCnt);
      var a, b := Slot(|t.popped|, t.ring.maxCnt), Slot(|t.pushed|, t.ring.maxCnt);
      if a < b {
        OffsetsApart(a, b, t.ring.dataSize);
      } else {
        OffsetsApart(b, a, t.ring.dataSize);
      }
    }
  }

  /** A lock fails exactly when the ring is full, or empty; a successful one hands out
    * exactly that slot, and the slot the consumer holds shows the oldest undelivered record
    * for as long as it is held. */
  lemma LocksHandOutSlots(s: State)
    requires Inv(s) && 0 < s.ring.maxCnt
    ensures PushLock(s.ring).1.Some? <==> |s.pushed| - |s.popped| < s.ring.maxCnt
    ensures PopLock(s.ring).1.Some? <==> |s.popped| < |s.pushed|
    ensures !s.filling && PushLock(s.ring).1.Some? ==> PushLock(s.ring).1.value == Held(s.ring, |s.pushed|)
    ensures !s.reading && PopLock(s.ring).1.Some? ==> PopLock(s.ring).1.value == Held(s.ring, |s.popped|)
    ensures s.reading ==> RecordAt(s.ring, |s.popped|) == s.pushed[|s.popped|]
  {
  }

  function Bit(b: bool): nat { if b then 1 else 0 }

  /** Counted in slots, head is tail plus the committed records, plus one being
    * filled, minus one being read, modulo the capacity. */
  lemma PointersCongruent(s: State, es: seq<Event>) returns (h: nat, l: nat)
    requires Inv(s) && ValidRun(s, es) && 0 < s.ring.maxCnt
    ensures var t := Run(s, es);
            && t.ring.maxCnt == s.ring.maxCnt && h < t.ring.maxCnt && l < t.ring.maxCnt
            && t.ring.head == Offset(h, t.ring.dataSize) && t.ring.tail == Offset(l, t.ring.dataSize)
            && h == (l + t.ring.currCnt + Bit(t.filling) - Bit(t.reading)) % t.ring.maxCnt
  {
    hide Offset, Run;
    RunKeepsShape(s, es);
    var t := Run(s, es);
    var m := t.ring.maxCnt;
    var p, q := |t.pushed| + Bit(t.filling), |t.popped| + Bit(t.reading);
    h, l := Slot(p, m), Slot(q, m);
    SlotNext(p, m);
    SlotNext(q, m);
    SlotShift(q, p - q, m);
    assert l + t.ring.currCnt + Bit(t.filling) - Bit(t.reading) == l + (p - q);
  }

  lemma {:induction false} RunKeepsShape(s: State, es: seq<Event>)
    requires Inv(s) && ValidRun(s, es)
    ensures Run(s, es).ring.maxCnt == s.ring.maxCnt
    decreases |es|
  {
    if es != [] {
      StepKeepsInv(s, es[0]);
      RunKeepsShape(Step(s, es[0]), es[1..]);
    }
  }

  /** Going on from a slot's number is going on from its record. */
  lemma {:induction false} SlotShift(a: nat, d: nat, m: nat)
    requires 0 < m
    ensures Slot(a + d, m) == Slot(Slot(a, m) + d, m)
    decreases d
  {
    hide Slot;
    SlotNext(a, m);
    if d == 0 {
      SlotOfSmall(Slot(a, m), m);
    } else {
      SlotShift(a, d - 1, m);
      SlotNext(a + d - 1, m);
      SlotNext(Slot(a, m) + d - 1, m);
    }
  }

  lemma SlotOfSmall(i: nat, maxCnt: nat)
    requires i < maxCnt
    ensures Slot(i, maxCnt) == i
  {
    DivModUnique(i, maxCnt, 0, i);
  }

  // ------------------------------------------- refinement of a bounded queue

  /** What is inside, oldest first. */
  function Contents(s: State): seq<Record>
    requires Inv(s)
  {
    s.pushed[|s.popped|..]
  }

  /** With neither side holding a slot, the byte ring is a bounded first-in first-out
    * queue: a push fails exactly when it is full and otherwise appends, a pop fails
    * exactly when it is empty and otherwise takes the oldest record. */
  lemma RefinesQueue(s: State, data: Record)
    requires Inv(s) && !s.filling && !s.reading && |data| == s.ring.dataSize
    ensures Inv(Step(s, DoPush(data))) && Inv(Step(s, DoPop))
    ensures var (r, rv) := Push(s.ring, data);
            && (rv == 1 <==> |Contents(s)| == s.ring.maxCnt)
            && r == Step(s, DoPush(data)).ring
            && Contents(Step(s, DoPush(data))) == if rv == 0 then Contents(s) + [data] else Contents(s)
    ensures var (r, out) := Pop(s.ring);
            && (out.None? <==> Contents(s) == [])
            && r == Step(s, DoPop).ring
            && (out.Some? ==> Contents(s) == [out.value] + Contents(Step(s, DoPop)))
  {
    hide Slot, Offset, Overwrite, Step, Push, Pop;
    StepKeepsInv(s, DoPush(data));
    StepKeepsInv(s, DoPop);
    PushAppends(s, data);
    PopTakesOldest(s);
  }

  lemma PushAppends(s: State, data: Record)
    requires Inv(s) && !s.filling && |data| == s.ring.dataSize
    ensures var (r, rv), t := Push(s.ring, data), Step(s, DoPush(data));
            && (rv == 0 || rv == 1) && (rv == 1 <==> |s.pushed| - |s.popped| == s.ring.maxCnt) && r == t.ring
            && t.popped == s.popped && t.pushed == if rv == 0 then s.pushed + [data] else s.pushed
  {
    hide Slot, Offset, Overwrite, RecordAt;
  }

  lemma PopTakesOldest(s: State)
    requires Inv(s) && !s.reading
    ensures var (r, out), t := Pop(s.ring), Step(s, DoPop);
            && (out.None? <==> |s.pushed| == |s.popped|) && r == t.ring && t.pushed == s.pushed
            && t.popped == (if out.Some? then s.popped + [out.value] else s.popped)
            && (out.Some? ==> out.value == s.pushed[|s.popped|])
  {
    hide Slot, Offset;
    if s.ring.currCnt > 0 {
      NextOffset(s.ring, |s.popped|);
      assert RecordAt(s.ring, |s.popped|) == s.pushed[|s.popped|];
    }
  }

  lemma {:induction false} WalkSlots(r: Ring, i: nat, steps: nat)
    requires 0 < r.maxCnt && 0 < r.dataSize && |r.store| == r.dataSize * r.maxCnt
    ensures Walk(r, Held(r, i), steps) == Held(r, i + steps)
    decreases steps
  {
    if steps > 0 {
      NextOffset(r, i);
      WalkSlots(r, i + 1, steps - 1);
    }
  }

  /** Peek answers exactly for offsets up to and including the count, whatever is locked,
    * and counts from the oldest record that is not being read. Below the count it points
    * at that many records behind it, up to the last record; from there on it points at
    * the slots that the next pushes use, which hold no record. */
  lemma PeekPoints(s: State, offset: nat)
    requires Inv(s)
    ensures Peek(s.ring, offset).Some? <==> 0 < s.ring.currCnt && offset <= s.ring.currCnt
    ensures Peek(s.ring, offset).Some? ==>
              var at, i := Peek(s.ring, offset).value, Bit(s.reading) + offset;
              && at == Held(s.ring, |s.popped| + i) && at + s.ring.dataSize <= |s.ring.store|
              && (i < |Contents(s)| ==> s.ring.store[at..at + s.ring.dataSize] == Contents(s)[i])
              && (i == |Contents(s)| + Bit(s.filling) ==> at == s.ring.head)
  {
    if Peek(s.ring, offset).Some? {
      WalkSlots(s.ring, |s.popped| + Bit(s.reading), offset);
      NextOffset(s.ring, |s.popped| + Bit(s.reading) + offset);
    }
  }
}
