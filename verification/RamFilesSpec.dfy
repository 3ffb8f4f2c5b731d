/** The descriptor table of `clib_port.c` over the RAM file system of `fs_ram.c`, one
  * call at a time. */
module RamFilesSpec {
  import opened Basics

  const MAX_OPEN_FILES: nat := 5
  const CHUNK_SIZE: nat := 1000
  const EBADF: int := 9
  const ENOSPC: int := 28

  datatype Device = NoDevice | Console | RamFs

  /** One entry of `openFiles`. `data` is the heap block, NULL being `None`; `pos`,
    * `asize` and `end` are 32-bit unsigned. */
  datatype Slot = Slot(fileNo: int, dev: Device, data: Option<seq<Byte>>, asize: nat, pos: nat, end: nat)

  type Table = t: seq<Slot> | |t| == MAX_OPEN_FILES witness Boot

  const BLANK: Slot := Slot(0, NoDevice, None, 0, 0, 0)

  /** The initial table: the three standard handles on the console. */
  const Boot: seq<Slot> :=
    [BLANK.(dev := Console), BLANK.(fileNo := 1, dev := Console), BLANK.(fileNo := 2, dev := Console), BLANK, BLANK]

  /** A return value and the bytes delivered; an access outside the table or outside a
    * heap block; or console input and output, which is not modelled. */
  datatype Res = Ret(rv: int, bytes: seq<Byte>) | Fault | ConsoleIo

  datatype Origin = SeekSet | SeekCur | SeekEnd

  /** What `realloc` answers: NULL, or a block whose fresh bytes are anything. */
  type Heap = Option<nat -> Byte>

  function Max(a: int, b: int): int { if a > b then a else b }

  /** A 32-bit unsigned value read as a C `int`. */
  function AsInt(x: int): int { if x < TWO31 then x else x - TWO32 }

  // ----------------------------------------------------------------- fs_ram.c

  function Realloc(block: Option<seq<Byte>>, size: nat, junk: nat -> Byte): (r: seq<Byte>)
    ensures |r| == size
    ensures block.Some? && |block.value| <= size ==> r[..|block.value|] == block.value
  {
    seq(size, i requires 0 <= i < size => if block.Some? && i < |block.value| then block.value[i] else junk(i))
  }

  /** Whether `n` bytes from `pos` on lie inside the heap block. */
  predicate Inside(data: Option<seq<Byte>>, pos: nat, n: nat) {
    n == 0 || (data.Some? && pos + n <= |data.value|)
  }

  function Patched(d: Option<seq<Byte>>, pos: nat, buf: seq<Byte>): Option<seq<Byte>>
    requires Inside(d, pos, |buf|)
  {
    if |buf| == 0 then d else Some(Overwrite(d.value, pos, buf))
  }

  function FsWrite(f: Slot, buf: seq<Byte>, heap: Heap): (Slot, Res) {
    var n := |buf|;
    var grows := (f.pos + n) % TWO32 > f.asize;
    var total := (Max(CHUNK_SIZE, n) + f.pos) % TWO32;
    if grows && heap.None? then (f.(data := None, asize := total), Ret(-ENOSPC, []))
    else
      var g := if grows then f.(data := Some(Realloc(f.data, total, heap.value)), asize := total) else f;
      if Inside(g.data, g.pos, n) then (g.(data := Patched(g.data, g.pos, buf)), Ret(AsInt(n % TWO32), []))
      else (g, Fault)
  }

  function FsRead(f: Slot, size: nat): Res {
    if f.end == 0 then Ret(0, [])
    else if !Inside(f.data, f.pos, size) then Fault
    else Ret(AsInt(size % TWO32), if size == 0 then [] else f.data.value[f.pos..f.pos + size])
  }

  // -------------------------------------------------------------- clib_port.c

  function FirstFree(t: Table, i: nat): (r: nat)
    requires i <= MAX_OPEN_FILES
    ensures i <= r <= MAX_OPEN_FILES
    ensures r < MAX_OPEN_FILES ==> t[r].fileNo == 0
    ensures forall k :: i <= k < r ==> t[k].fileNo != 0
    decreases MAX_OPEN_FILES - i
  {
    if i == MAX_OPEN_FILES || t[i].fileNo == 0 then i else FirstFree(t, i + 1)
  }

  /** The descriptor opened, on the console or on the RAM file system; the search starts
    * at 2. */
  function Open(t: Table, dev: Device): (Table, Res) {
    var i := FirstFree(t, 2);
    if i == MAX_OPEN_FILES then (t, Ret(-1, [])) else (t[i := t[i].(fileNo := i, dev := dev)], Ret(i, []))
  }

  datatype Lookup = Bad | Outside | On(dev: Device)

  /** `validFileNo` and the device behind it. 5 passes the bound but is not in the
    * table, nor is a negative number. */
  function Find(t: Table, fd: int): Lookup {
    if fd > MAX_OPEN_FILES then Bad
    else if fd == MAX_OPEN_FILES || fd < 0 then Outside
    else if t[fd].fileNo == 0 then Bad
    else On(t[fd].dev)
  }

  function Close(t: Table, fd: int): (Table, Res) {
    match Find(t, fd)
    case Bad => (t, Ret(EBADF, []))
    case Outside => (t, Fault)
    case On(NoDevice) => (t, Fault)
    case On(Console) => (t, Ret(-1, []))
    case On(RamFs) => (t[fd := BLANK.(dev := RamFs)], Ret(0, []))
  }

  function WriteFile(f: Slot, buf: seq<Byte>, heap: Heap): (Slot, Res) {
    var (g, r) := FsWrite(f, buf, heap);
    if r.Ret? && r.rv >= 0 then
      var pos := (g.pos + |buf|) % TWO32;
      (g.(pos := pos, end := Max(pos, g.end)), r)
    else (g, r)
  }

  function Write(t: Table, fd: int, buf: seq<Byte>, heap: Heap): (Table, Res) {
    match Find(t, fd)
    case Bad => (t, Ret(EBADF, []))
    case Outside => (t, Fault)
    case On(NoDevice) => (t, Fault)
    case On(Console) => (t, ConsoleIo)
    case On(RamFs) => var (g, r) := WriteFile(t[fd], buf, heap); (t[fd := g], r)
  }

  function ReadFile(f: Slot, size: nat): (Slot, Res) {
    var r := FsRead(f, size);
    if r.Ret? && r.rv >= 0 then (f.(pos := (f.pos + r.rv) % TWO32), r) else (f, r)
  }

  /** Reading does not ask `validFileNo`: only the device pointer counts. */
  function Read(t: Table, fd: int, size: nat): (Table, Res) {
    if !(0 <= fd < MAX_OPEN_FILES) then (t, Fault)
    else match t[fd].dev
      case NoDevice => (t, Ret(EBADF, []))
      case Console => (t, ConsoleIo)
      case RamFs => var (g, r) := ReadFile(t[fd], size); (t[fd := g], r)
  }

  function Base(f: Slot, origin: Origin): nat {
    match origin case SeekSet => 0 case SeekCur => f.pos case SeekEnd => f.end
  }

  function SeekFile(f: Slot, offset: int, origin: Origin): Slot {
    f.(pos := (Base(f, origin) + offset) % TWO32)
  }

  function Seek(t: Table, fd: int, offset: int, origin: Origin): (Table, Res) {
    match Find(t, fd)
    case Bad => (t, Ret(EBADF, []))
    case Outside => (t, Fault)
    case On(NoDevice) => (t, Fault)
    case On(Console) => (t, Ret(-1, []))
    case On(RamFs) => (t[fd := SeekFile(t[fd], offset, origin)], Ret(0, []))
  }

  datatype Op =
    | OpOpen
    | OpOpenConsole
    | OpClose(fd: int)
    | OpWrite(fd: int, buf: seq<Byte>, heap: Heap)
    | OpRead(fd: int, size: nat)
    | OpSeek(fd: int, offset: int, origin: Origin)

  function Step(t: Table, op: Op): (Table, Res) {
    match op
    case OpOpen => Open(t, RamFs)
    case OpOpenConsole => Open(t, Console)
    case OpClose(fd) => Close(t, fd)
    case OpWrite(fd, buf, heap) => Write(t, fd, buf, heap)
    case OpRead(fd, size) => Read(t, fd, size)
    case OpSeek(fd, offset, origin) => Seek(t, fd, offset, origin)
  }

  function Run(t: Table, ops: seq<Op>): (r: (Table, seq<Res>))
    ensures |r.1| == |ops|
    decreases |ops|
  {
    if ops == [] then (t, [])
    else
      var (t1, r) := Step(t, ops[0]);
      var (t2, rs) := Run(t1, ops[1..]);
      (t2, [r] + rs)
  }
}
