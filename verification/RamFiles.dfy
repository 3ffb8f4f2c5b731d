/** Every descriptor is an independent byte sequence with a cursor. */
module RamFiles {
  import opened Basics
  import opened RamFilesSpec

  // ------------------------------------------------------- the files intended

  /** A descriptor as its users see it. One that was a file before can still be read, as
    * an empty one. */
  datatype Handle = Closed(used: bool) | Terminal | File(content: seq<Byte>, pos: nat)

  type Handles = s: seq<Handle> | |s| == MAX_OPEN_FILES witness seq(MAX_OPEN_FILES, i => Terminal)

  function FirstClosed(s: Handles, i: nat): (r: nat)
    requires i <= MAX_OPEN_FILES
    ensures i <= r <= MAX_OPEN_FILES
    decreases MAX_OPEN_FILES - i
  {
    if i == MAX_OPEN_FILES || s[i].Closed? then i else FirstClosed(s, i + 1)
  }

  /** As many of `size` bytes as there are from the cursor on. */
  function Available(h: Handle, size: nat): (r: seq<Byte>)
    requires h.File?
    ensures |r| <= size
  {
    if h.pos >= |h.content| then []
    else if h.pos + size <= |h.content| then h.content[h.pos..h.pos + size]
    else h.content[h.pos..]
  }

  function Zeros(n: nat): seq<Byte> { seq(n, i => 0) }

  /** Bytes put in at the cursor, over what is there; a hole is filled with zeros. */
  function Put(h: Handle, buf: seq<Byte>): Handle
    requires h.File?
  {
    if buf == [] then h
    else
      var c := if h.pos > |h.content| then h.content + Zeros(h.pos - |h.content|) else h.content;
      File(c[..h.pos] + buf + (if h.pos + |buf| < |c| then c[h.pos + |buf|..] else []), h.pos + |buf|)
  }

  function StartOf(h: Handle, origin: Origin): nat
    requires h.File?
  {
    match origin case SeekSet => 0 case SeekCur => h.pos case SeekEnd => |h.content|
  }

  predicate OnDescriptor(op: Op) { op.OpClose? || op.OpWrite? || op.OpRead? || op.OpSeek? }

  /** The call stays inside the descriptor table. */
  predicate InTable(op: Op) {
    OnDescriptor(op) ==> 0 <= op.fd < MAX_OPEN_FILES || (op.fd > MAX_OPEN_FILES && !op.OpRead?)
  }

  /** The call is on an open file. */
  predicate OnFile(s: Handles, op: Op) {
    OnDescriptor(op) && 0 <= op.fd < MAX_OPEN_FILES && s[op.fd].File?
  }

  /** The answer to a call on any other descriptor; standard input has number 0, which
    * reads as free. */
  function Refusal(s: Handles, op: Op): Res
    requires InTable(op) && OnDescriptor(op)
  {
    if op.fd > MAX_OPEN_FILES then Ret(9, [])
    else if op.OpRead? then
      if s[op.fd].Closed? then Ret(if s[op.fd].used then 0 else 9, []) else ConsoleIo
    else if s[op.fd].Closed? || op.fd == 0 then Ret(9, [])
    else if op.OpWrite? then ConsoleIo
    else Ret(-1, [])
  }

  /** What each call should do. */
  function Intended(s: Handles, op: Op): (Handles, Res)
    requires InTable(op)
  {
    if OnDescriptor(op) && !OnFile(s, op) then (s, Refusal(s, op))
    else
      match op
      case OpOpen =>
        var i := FirstClosed(s, 0);
        if i == MAX_OPEN_FILES then (s, Ret(-1, [])) else (s[i := File([], 0)], Ret(i, []))
      case OpOpenConsole =>
        var i := FirstClosed(s, 0);
        if i == MAX_OPEN_FILES then (s, Ret(-1, [])) else (s[i := Terminal], Ret(i, []))
      case OpClose(fd) => (s[fd := Closed(true)], Ret(0, []))
      case OpWrite(fd, buf, _) => (s[fd := Put(s[fd], buf)], Ret(|buf|, []))
      case OpRead(fd, size) =>
        var got := Available(s[fd], size);
        (s[fd := s[fd].(pos := s[fd].pos + |got|)], Ret(|got|, got))
      case OpSeek(fd, offset, origin) =>
        var to := StartOf(s[fd], origin) + offset;
        if to < 0 then (s, Ret(-1, [])) else (s[fd := s[fd].(pos := to)], Ret(0, []))
  }

  function IntendedRun(s: Handles, ops: seq<Op>): (r: (Handles, seq<Res>))
    requires Disciplined(s, ops)
    ensures |r.1| == |ops|
    decreases |ops|
  {
    if ops == [] then (s, [])
    else
      var (s1, r) := Intended(s, ops[0]);
      var (s2, rs) := IntendedRun(s1, ops[1..]);
      (s2, [r] + rs)
  }

  /** What a caller must see to on an open file: allocation succeeds and stays
    * addressable, seeks stay within the end, reads inside it. */
  predicate Careful(s: Handles, op: Op) {
    OnFile(s, op) ==>
      match op
      case OpWrite(fd, buf, heap) => heap.Some? && s[fd].pos + Max(CHUNK_SIZE, |buf|) < TWO31
      case OpRead(fd, size) => size == 0 || s[fd].content == [] || s[fd].pos + size <= |s[fd].content|
      case OpSeek(fd, offset, origin) => 0 <= StartOf(s[fd], origin) + offset <= |s[fd].content|
      case _ => true
  }

  predicate Disciplined(s: Handles, ops: seq<Op>)
    decreases |ops|
  {
    ops != [] ==>
      && InTable(ops[0]) && Careful(s, ops[0])
      && Disciplined(Intended(s, ops[0]).0, ops[1..])
  }

  // ------------------------------------------------------------- the table kept

  /** The standard handles are the console's, a descriptor knows its number, and a free
    * entry is blank: all that closing and opening rely on. */
  predicate Reusable(t: Table, i: nat)
    requires i < MAX_OPEN_FILES
  {
    && (i < 3 ==> t[i] == Boot[i])
    && (i >= 3 ==> t[i].fileNo == 0 || (t[i].fileNo == i && t[i].dev != NoDevice))
    && (t[i].fileNo == 0 ==> t[i] == BLANK.(dev := t[i].dev))
    && (t[i].dev == Console && i >= 3 ==> t[i] == BLANK.(dev := Console, fileNo := i))
  }

  predicate TableInv(t: Table) { forall i :: 0 <= i < MAX_OPEN_FILES ==> Reusable(t, i) }

  /** The end of the file is inside its block. */
  predicate Held(f: Slot) {
    && f.end <= f.asize < TWO31
    && (if f.data.Some? then |f.data.value| == f.asize else f.asize == 0)
  }

  /** And the cursor is inside the file. */
  predicate Sound(f: Slot) { Held(f) && f.pos <= f.end }

  predicate Inv(t: Table) {
    TableInv(t) && forall i :: 0 <= i < MAX_OPEN_FILES ==> Sound(t[i])
  }

  function Content(f: Slot): seq<Byte> {
    if f.data.Some? && f.end <= |f.data.value| then f.data.value[..f.end] else []
  }

  function Seen(f: Slot, i: nat): Handle {
    if i < 3 then Terminal
    else if f.fileNo == 0 then Closed(f.dev == RamFs)
    else if f.dev == Console then Terminal
    else File(Content(f), f.pos)
  }

  function View(t: Table): Handles { seq(MAX_OPEN_FILES, i requires 0 <= i < MAX_OPEN_FILES => Seen(t[i], i)) }

  lemma BootInv()
    ensures Inv(Boot) && View(Boot) == [Terminal, Terminal, Terminal, Closed(false), Closed(false)]
  {
  }

  /** Every call whatever, failed allocations and stray seeks included, keeps the table
    * reusable. */
  lemma StepKeepsTable(t: Table, op: Op)
    requires TableInv(t)
    ensures TableInv(Step(t, op).0)
  {
    var (t', _) := Step(t, op);
    forall i | 0 <= i < MAX_OPEN_FILES ensures Reusable(t', i) {
      assert Reusable(t, i);
    }
  }

  lemma RunKeepsTable(t: Table, ops: seq<Op>)
    requires TableInv(t)
    ensures TableInv(Run(t, ops).0)
    decreases |ops|
  {
    if ops != [] {
      StepKeepsTable(t, ops[0]);
      RunKeepsTable(Step(t, ops[0]).0, ops[1..]);
    }
  }

  /** After any run from start-up, opening a file gives descriptor 3 or 4, empty and at
    * its start whatever the descriptor was used for before; or fails because both are
    * taken: never more than two files are open. */
  lemma OpenedFilesAreEmpty(ops: seq<Op>)
    ensures var t := Run(Boot, ops).0;
            var (t', r) := Open(t, RamFs);
            if t[3].fileNo != 0 && t[4].fileNo != 0 then r == Ret(-1, []) && t' == t
            else
              && r.Ret? && (r.rv == 3 || r.rv == 4)
              && t[r.rv].fileNo == 0
              && t' == t[r.rv := Slot(r.rv, RamFs, None, 0, 0, 0)]
  {
    BootInv();
    RunKeepsTable(Boot, ops);
    var t := Run(Boot, ops).0;
    assert Reusable(t, 2) && Reusable(t, 3) && Reusable(t, 4);
    assert FirstFree(t, 2) == FirstFree(t, 3);
  }

  // ----------------------------------------------------------- one open file

  function AsFile(f: Slot): Handle { File(Content(f), f.pos) }

  predicate ReadMatches(f: Slot, size: nat) {
    var (g, r) := ReadFile(f, size);
    var got := Available(AsFile(f), size);
    r == Ret(|got|, got) && AsFile(g) == AsFile(f).(pos := f.pos + |got|)
  }

  /** Reading is right exactly for reads inside the end, and for those of nothing or
    * from an empty file: there is no clamping at the end of the file. */
  lemma ReadExactIff(f: Slot, size: nat)
    requires Held(f) && f.pos < TWO32
    ensures ReadMatches(f, size) <==> size == 0 || f.end == 0 || f.pos + size <= f.end
  {
  }

  predicate WriteMatches(f: Slot, buf: seq<Byte>, heap: Heap) {
    var (g, r) := WriteFile(f, buf, heap);
    r == Ret(|buf|, []) && AsFile(g) == Put(AsFile(f), buf)
  }

  /** No arithmetic on sizes wraps. */
  predicate Addressable(f: Slot, buf: seq<Byte>) { f.pos + Max(CHUNK_SIZE, |buf|) < TWO31 }

  /** The file once there is room for `n` bytes at the cursor. */
  function Grown(f: Slot, n: nat, heap: Heap): Slot
    requires heap.Some?
  {
    if f.pos + n > f.asize then
      var total := Max(CHUNK_SIZE, n) + f.pos;
      f.(data := Some(Realloc(f.data, total, heap.value)), asize := total)
    else f
  }

  lemma GrownKeeps(f: Slot, n: nat, heap: Heap)
    requires Held(f) && f.pos + Max(CHUNK_SIZE, n) < TWO31 && heap.Some?
    ensures var g := Grown(f, n, heap);
            && Held(g) && g.asize >= f.asize && Inside(g.data, g.pos, n) && f.pos + n <= g.asize
            && Content(g) == Content(f)
  {
    var g := Grown(f, n, heap);
    assert f.data.Some? ==> g.data.value[..f.end] == g.data.value[..f.asize][..f.end];
  }

  lemma WriteUnfolds(f: Slot, buf: seq<Byte>, heap: Heap)
    requires Held(f) && Addressable(f, buf) && heap.Some?
    ensures var n, g := |buf|, Grown(f, |buf|, heap);
            && Held(g) && g.asize >= f.asize && Inside(g.data, g.pos, n) && f.pos + n <= g.asize
            && Content(g) == Content(f)
            && WriteFile(f, buf, heap)
               == (g.(data := Patched(g.data, g.pos, buf), pos := g.pos + n, end := Max(g.pos + n, g.end)), Ret(n, []))
  {
    hide Realloc, Inside, Patched, Content;
    GrownKeeps(f, |buf|, heap);
    var total := Max(CHUNK_SIZE, |buf|) + f.pos;
    assert (f.pos + |buf|) % TWO32 == f.pos + |buf| && total % TWO32 == total;
  }

  lemma CutBehind(a: seq<Byte>, b: seq<Byte>, c: seq<Byte>, k: nat)
    requires k <= |c|
    ensures (a + b + c)[..|a| + |b| + k] == a + b + c[..k]
  {
  }

  lemma OverwriteIsPut(g: Slot, buf: seq<Byte>)
    requires Sound(g) && g.pos + |buf| <= g.asize && Inside(g.data, g.pos, |buf|)
    ensures var n := |buf|;
            var g' := g.(data := Patched(g.data, g.pos, buf), pos := g.pos + n, end := Max(g.pos + n, g.end));
            Sound(g') && AsFile(g') == Put(AsFile(g), buf)
  {
    var n := |buf|;
    if n > 0 {
      var d, e := g.data.value, Max(g.pos + n, g.end);
      CutBehind(d[..g.pos], buf, d[g.pos + n..], e - g.pos - n);
      assert d[g.pos + n..][..e - g.pos - n] == d[g.pos + n..e];
      assert d[..g.end][..g.pos] == d[..g.pos];
      if g.pos + n < g.end {
        assert d[..g.end][g.pos + n..] == d[g.pos + n..e];
      } else {
        assert d[g.pos + n..e] == [];
      }
    }
  }

  /** With the cursor inside the file and memory to be had, writing puts the bytes where
    * the cursor is and keeps all others, and the block only grows: if need be, to hold a
    * thousand bytes or the ones written behind the cursor. */
  lemma WriteExact(f: Slot, buf: seq<Byte>, heap: Heap)
    requires Sound(f) && Addressable(f, buf) && heap.Some?
    ensures WriteMatches(f, buf, heap)
    ensures var g := WriteFile(f, buf, heap).0; Sound(g) && g.asize >= f.asize && g.fileNo == f.fileNo && g.dev == f.dev
    ensures WriteFile(f, buf, heap).0.asize ==
            if f.pos + |buf| <= f.asize then f.asize else f.pos + if |buf| < 1000 then 1000 else |buf|
  {
    hide Realloc, Patched, Content, WriteFile, Inside, Put;
    WriteUnfolds(f, buf, heap);
    OverwriteIsPut(Grown(f, |buf|, heap), buf);
  }

  /** Another file with the same content, cursor and capacity: what is behind its end may
    * differ. */
  predicate SameFile(f: Slot, g: Slot) { g == f.(data := g.data) && Held(g) && Content(g) == Content(f) }

  /** Writing can be relied on, whatever lies behind the end and in fresh memory, exactly
    * when the cursor is not past the end: a hole is not filled with zeros, and an empty
    * write there extends the file. */
  lemma WriteExactIff(f: Slot, buf: seq<Byte>)
    requires Held(f) && Addressable(f, buf)
    ensures (forall g: Slot, heap: Heap :: SameFile(f, g) && heap.Some? ==> WriteMatches(g, buf, heap))
            <==> f.pos <= f.end
  {
    if f.pos <= f.end {
      forall g: Slot, heap: Heap | SameFile(f, g) && heap.Some? ensures WriteMatches(g, buf, heap) {
        WriteExact(g, buf, heap);
      }
    } else {
      var ones: nat -> Byte := i => 1;
      var g := f.(data := if f.data.None? then None else Some(f.data.value[..f.end] + seq(f.asize - f.end, ones)));
      assert f.data.Some? ==> g.data.value[..f.end] == f.data.value[..f.end];
      assert SameFile(f, g);
      HoleShows(g, buf, ones);
    }
  }

  lemma HoleShows(g: Slot, buf: seq<Byte>, ones: nat -> Byte)
    requires Held(g) && Addressable(g, buf) && g.pos > g.end
    requires forall i :: ones(i) == 1
    requires g.data.Some? ==> forall i :: g.end <= i < g.asize ==> g.data.value[i] == 1
    ensures !WriteMatches(g, buf, Some(ones))
  {
    hide WriteFile;
    WriteUnfolds(g, buf, Some(ones));
    var e, g' := g.end, WriteFile(g, buf, Some(ones)).0;
    if buf != [] {
      assert Content(g')[e] == 1;
      assert Put(AsFile(g), buf).content[e] == 0;
    } else {
      assert g'.end == g.pos;
    }
  }

  /** When memory has run out, a write is still right exactly if it needs no more room. */
  lemma FullHeapWriteExactIff(f: Slot, buf: seq<Byte>)
    requires Sound(f) && Addressable(f, buf)
    ensures WriteMatches(f, buf, None) <==> f.pos + |buf| <= f.asize
  {
    hide Realloc, Content, Put;
    var n, total := |buf|, Max(CHUNK_SIZE, |buf|) + f.pos;
    assert (f.pos + n) % TWO32 == f.pos + n && total % TWO32 == total;
    if f.pos + n <= f.asize {
      // no growth, so the heap is not asked
      var any: nat -> Byte := i => 0;
      assert WriteFile(f, buf, None) == WriteFile(f, buf, Some(any));
      WriteExact(f, buf, Some(any));
    }
  }

  /** A failed growth loses the file: the block is gone but its size is booked, so a
    * write into the booked room, or a read of what had been written, goes through a null
    * pointer. */
  lemma FailedGrowthLosesFile(f: Slot, buf: seq<Byte>, next: seq<Byte>, heap: Heap)
    requires Sound(f) && Addressable(f, buf) && f.pos + |buf| > f.asize
    requires next != [] && |next| <= 1000
    ensures var (g, r) := WriteFile(f, buf, None);
            && r == Ret(-28, []) && g == f.(data := None, asize := g.asize) && g.pos == f.pos && g.end == f.end
            && WriteFile(g, next, heap).1 == Fault
            && (f.end > 0 ==> forall size: nat :: size > 0 ==> ReadFile(g, size).1 == Fault)
  {
    var total := Max(CHUNK_SIZE, |buf|) + f.pos;
    assert total % TWO32 == total && (f.pos + |buf|) % TWO32 == f.pos + |buf|;
    assert (f.pos + |next|) % TWO32 == f.pos + |next|;
  }

  /** Seeking moves the cursor where it should exactly when that is not in front of the
    * file; nothing stops a seek to there. */
  lemma SeekExactIff(f: Slot, offset: int, origin: Origin)
    requires f.pos < TWO31 && f.end < TWO31 && -TWO31 <= offset < TWO31
    ensures var to := Base(f, origin) + offset;
            && (SeekFile(f, offset, origin).pos == (if to < 0 then f.pos else to) <==> 0 <= to)
            && (to < 0 ==> SeekFile(f, offset, origin) == f.(pos := to + 0x1_0000_0000))
            && (to >= 0 ==> SeekFile(f, offset, origin) == f.(pos := to))
  {
    var to := Base(f, origin) + offset;
    if to < 0 {
      assert to % TWO32 == to + TWO32;
    } else {
      assert to % TWO32 == to;
    }
  }

  /** A write from a cursor that a seek in front of the file has left at the far end of the
    * address space leaves the heap block, and the file as it was. */
  lemma WrappedCursorFaults(f: Slot, buf: seq<Byte>, heap: Heap)
    requires Held(f) && buf != [] && f.pos < 0x1_0000_0000 <= f.pos + |buf| <= 0x1_0000_0000 + f.asize
    ensures WriteFile(f, buf, heap) == (f, Fault)
  {
    assert (f.pos + |buf|) % TWO32 == f.pos + |buf| - TWO32;
  }

  /** When the room to be asked for wraps around, the block comes out too small. */
  lemma WrappedGrowthFaults(f: Slot, buf: seq<Byte>, heap: Heap)
    requires Held(f) && heap.Some? && buf != [] && f.pos + |buf| < 0x1_0000_0000 && f.asize < f.pos + |buf|
    requires f.pos + Max(1000, |buf|) >= 0x1_0000_0000
    ensures var (g, r) := WriteFile(f, buf, heap);
            r == Fault && g.asize == f.pos + Max(1000, |buf|) - 0x1_0000_0000
  {
    var total := Max(CHUNK_SIZE, |buf|) + f.pos;
    assert total % TWO32 == total - TWO32;
  }

  /** A write of two gigabytes or more is done and then taken for an error: its result is
    * negative, and the cursor and the end stay. */
  lemma HugeWriteReadsAsError(f: Slot, buf: seq<Byte>, heap: Heap)
    requires Held(f) && heap.Some? && 0x8000_0000 <= |buf| && f.pos + |buf| < 0x1_0000_0000
    ensures var (g, r) := WriteFile(f, buf, heap);
            && r == Ret(|buf| - 0x1_0000_0000, []) && g.pos == f.pos && g.end == f.end
            && g.data.Some? && |g.data.value| == f.pos + |buf| == g.asize && g.data.value[f.pos..] == buf
  {
    var total := Max(CHUNK_SIZE, |buf|) + f.pos;
    assert total % TWO32 == total && (f.pos + |buf|) % TWO32 == f.pos + |buf|;
  }

  /** Descriptor 5 and negative ones pass for descriptors, and leave the table; reading
    * looks at no bound at all. */
  lemma OutsideFaults(t: Table, op: Op)
    requires OnDescriptor(op) && !InTable(op)
    ensures op.fd < 0 || op.fd == 5 || (op.fd > 5 && op.OpRead?)
    ensures Step(t, op) == (t, Fault)
  {
  }

  // --------------------------------------------------------------- whole runs

  lemma ViewUpdate(t: Table, i: nat, f: Slot)
    requires i < MAX_OPEN_FILES
    ensures View(t[i := f]) == View(t)[i := Seen(f, i)]
  {
  }

  lemma FirstFreeIsFirstClosed(t: Table)
    requires Inv(t)
    ensures FirstFree(t, 2) == FirstClosed(View(t), 0)
  {
    assert Reusable(t, 2) && Reusable(t, 3) && Reusable(t, 4);
    var s := View(t);
    assert FirstClosed(s, 0) == FirstClosed(s, 1) == FirstClosed(s, 2) == FirstClosed(s, 3);
    assert FirstFree(t, 2) == FirstFree(t, 3);
    assert FirstFree(t, 4) == FirstClosed(s, 4);
  }

  lemma OpenRefines(t: Table, op: Op)
    requires Inv(t) && (op.OpOpen? || op.OpOpenConsole?)
    ensures Inv(Step(t, op).0)
    ensures Intended(View(t), op) == (View(Step(t, op).0), Step(t, op).1)
  {
    StepKeepsTable(t, op);
    FirstFreeIsFirstClosed(t);
    assert Reusable(t, 2);
    var i, t' := FirstFree(t, 2), Step(t, op).0;
    if i < MAX_OPEN_FILES {
      assert Reusable(t, i);
      ViewUpdate(t, i, t'[i]);
    }
  }

  /** A call on an open file only touches its entry; what that becomes decides the rest. */
  lemma EntryRefines(t: Table, op: Op)
    requires Inv(t) && OnFile(View(t), op) && Careful(View(t), op)
    ensures Inv(Step(t, op).0)
    ensures var t', fd := Step(t, op).0, op.fd;
            t' == t[fd := t'[fd]] && Intended(View(t), op) == (View(t)[fd := Seen(t'[fd], fd)], Step(t, op).1)
  {
    hide FsWrite, FsRead, WriteFile, ReadFile, Put, Available, Content, Patched, Realloc;
    StepKeepsTable(t, op);
    assert Reusable(t, op.fd);
    match op
    case OpClose(fd) =>
    case OpWrite(fd, buf, heap) => WriteExact(t[fd], buf, heap);
    case OpRead(fd, size) => ReadKeeps(t[fd], size);
    case OpSeek(fd, offset, origin) => SeekKeeps(t[fd], offset, origin);
  }

  lemma RefusalRefines(t: Table, op: Op)
    requires Inv(t) && InTable(op) && OnDescriptor(op) && !OnFile(View(t), op)
    ensures Step(t, op) == (t, Refusal(View(t), op)) && Intended(View(t), op) == (View(t), Refusal(View(t), op))
  {
    if 0 <= op.fd < MAX_OPEN_FILES {
      assert Reusable(t, op.fd);
      assert t[op.fd := t[op.fd]] == t;
    }
  }

  lemma ReadKeeps(f: Slot, size: nat)
    requires Sound(f) && (size == 0 || Content(f) == [] || f.pos + size <= |Content(f)|)
    ensures var g := ReadFile(f, size).0; ReadMatches(f, size) && Sound(g) && g == f.(pos := g.pos)
  {
    ReadExactIff(f, size);
  }

  lemma SeekKeeps(f: Slot, offset: int, origin: Origin)
    requires Sound(f) && 0 <= StartOf(AsFile(f), origin) + offset <= |Content(f)|
    ensures var to, g := StartOf(AsFile(f), origin) + offset, SeekFile(f, offset, origin);
            Sound(g) && AsFile(g) == AsFile(f).(pos := to)
  {
    var to := Base(f, origin) + offset;
    assert to % TWO32 == to;
  }

  /** A careful call does what it should, seen through the view, and keeps the table. */
  lemma StepRefines(t: Table, op: Op)
    requires Inv(t) && InTable(op) && Careful(View(t), op)
    ensures Inv(Step(t, op).0)
    ensures Intended(View(t), op) == (View(Step(t, op).0), Step(t, op).1)
  {
    hide Step, Intended, Inv;
    if op.OpOpen? || op.OpOpenConsole? {
      OpenRefines(t, op);
    } else if !OnFile(View(t), op) {
      RefusalRefines(t, op);
    } else {
      EntryRefines(t, op);
      ViewUpdate(t, op.fd, Step(t, op).0[op.fd]);
    }
  }

  /** Every disciplined run, from any state reached: the descriptors answer call by call
    * as files that are byte sequences with a cursor. */
  lemma {:induction false} FilesAreSequences(t: Table, ops: seq<Op>)
    requires Inv(t) && Disciplined(View(t), ops)
    ensures Inv(Run(t, ops).0)
    ensures IntendedRun(View(t), ops) == (View(Run(t, ops).0), Run(t, ops).1)
    decreases |ops|
  {
    hide Step, Intended, Inv, Careful;
    if ops != [] {
      StepRefines(t, ops[0]);
      FilesAreSequences(Step(t, ops[0]).0, ops[1..]);
    }
  }

  /** Until it is closed, a descriptor's capacity never shrinks nor falls below its end. */
  lemma {:induction false} CapacityNeverShrinks(t: Table, ops: seq<Op>, i: nat)
    requires Inv(t) && Disciplined(View(t), ops) && i < MAX_OPEN_FILES
    requires forall k :: 0 <= k < |ops| ==> ops[k] != OpClose(i)
    ensures var t' := Run(t, ops).0; t[i].asize <= t'[i].asize && t'[i].end <= t'[i].asize
    decreases |ops|
  {
    hide Step, Intended, Careful;
    if ops != [] {
      StepRefines(t, ops[0]);
      CapacityStep(t, ops[0], i);
      CapacityNeverShrinks(Step(t, ops[0]).0, ops[1..], i);
    }
  }

  lemma CapacityStep(t: Table, op: Op, i: nat)
    requires Inv(t) && InTable(op) && Careful(View(t), op) && i < MAX_OPEN_FILES && op != OpClose(i)
    ensures t[i].asize <= Step(t, op).0[i].asize
  {
    hide WriteFile, Content, Put;
    if op.OpWrite? && OnFile(View(t), op) {
      assert Reusable(t, op.fd);
      WriteExact(t[op.fd], op.buf, op.heap);
    } else if OnDescriptor(op) && !OnFile(View(t), op) {
      RefusalRefines(t, op);
    }
  }

  // ------------------------------------------------------------- independence

  predicate On(op: Op, i: nat) { OnDescriptor(op) && op.fd == i }

  function OnlyOn(ops: seq<Op>, i: nat): seq<Op> {
    if ops == [] then [] else (if On(ops[0], i) then [ops[0]] else []) + OnlyOn(ops[1..], i)
  }

  function ResultsOn(ops: seq<Op>, rs: seq<Res>, i: nat): seq<Res>
    requires |rs| == |ops|
  {
    if ops == [] then []
    else (if On(ops[0], i) then [rs[0]] else []) + ResultsOn(ops[1..], rs[1..], i)
  }

  /** A descriptor in use moves only by calls on it. */
  lemma OthersUntouched(t: Table, op: Op, i: nat)
    requires i < MAX_OPEN_FILES && t[i].fileNo != 0 && !On(op, i)
    ensures Step(t, op).0[i] == t[i]
  {
  }

  /** And a call on it looks at nothing else. */
  lemma SameAnswer(t: Table, u: Table, op: Op, i: nat)
    requires i < MAX_OPEN_FILES && t[i] == u[i] && t[i].fileNo != 0 && On(op, i) && !op.OpClose?
    ensures Step(t, op).1 == Step(u, op).1 && Step(t, op).0[i] == Step(u, op).0[i]
    ensures Step(t, op).0[i].fileNo != 0
  {
    hide Realloc, Patched, Inside;
  }

  /** What a descriptor in use answers, and what becomes of it, depends on nothing but its
    * own entry and the calls on it, in every run whatever: leave out all other calls, put
    * anything else into the other entries, and it answers the same. */
  lemma {:induction false} FilesAreIndependent(t: Table, u: Table, ops: seq<Op>, i: nat)
    requires i < MAX_OPEN_FILES && t[i] == u[i] && t[i].fileNo != 0
    requires forall k :: 0 <= k < |ops| ==> ops[k] != OpClose(i)
    ensures Run(u, OnlyOn(ops, i)).1 == ResultsOn(ops, Run(t, ops).1, i)
    ensures Run(u, OnlyOn(ops, i)).0[i] == Run(t, ops).0[i]
    decreases |ops|
  {
    hide Step;
    if ops != [] {
      var t1 := Step(t, ops[0]).0;
      if On(ops[0], i) {
        SameAnswer(t, u, ops[0], i);
        FilesAreIndependent(t1, Step(u, ops[0]).0, ops[1..], i);
        assert OnlyOn(ops, i)[1..] == OnlyOn(ops[1..], i);
      } else {
        OthersUntouched(t, ops[0], i);
        FilesAreIndependent(t1, u, ops[1..], i);
        assert OnlyOn(ops, i) == OnlyOn(ops[1..], i);
      }
    }
  }
}
