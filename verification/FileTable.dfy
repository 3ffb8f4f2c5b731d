/** The table `openFiles` and the calls that change it in place. */
module FileTable {
  import opened Basics
  import opened RamFilesSpec
  import S = RamFilesSpec
  import RamFiles

  class FileTable {
    const openFiles: array<Slot>

    ghost predicate Valid() { openFiles.Length == MAX_OPEN_FILES }

    constructor ()
      ensures Valid() && fresh(openFiles) && openFiles[..] == Boot && RamFiles.Inv(openFiles[..])
    {
      openFiles := new Slot[MAX_OPEN_FILES](i requires 0 <= i < MAX_OPEN_FILES => Boot[i]);
      new;
      RamFiles.BootInv();
      assert openFiles[..] == Boot;
    }

    method NewFileNo() returns (fileNo: int)
      requires Valid()
      ensures fileNo == (var i := FirstFree(openFiles[..], 2); if i == MAX_OPEN_FILES then -1 else i)
    {
      var i: nat := 2;
      while i < MAX_OPEN_FILES && openFiles[i].fileNo != 0
        invariant i <= MAX_OPEN_FILES && FirstFree(openFiles[..], i) == FirstFree(openFiles[..], 2)
      {
        i := i + 1;
      }
      return if i == MAX_OPEN_FILES then -1 else i;
    }

    method Open(dev: Device) returns (r: Res)
      requires Valid()
      modifies openFiles
      ensures openFiles[..] == S.Open(old(openFiles[..]), dev).0 && r == S.Open(old(openFiles[..]), dev).1
    {
      var fileNo := NewFileNo();
      if fileNo == -1 { return Ret(-1, []); }
      openFiles[fileNo] := openFiles[fileNo].(fileNo := fileNo);
      openFiles[fileNo] := openFiles[fileNo].(dev := dev);
      return Ret(fileNo, []);
    }

    method Close(fd: int) returns (r: Res)
      requires Valid()
      modifies openFiles
      ensures openFiles[..] == S.Close(old(openFiles[..]), fd).0 && r == S.Close(old(openFiles[..]), fd).1
    {
      if fd > MAX_OPEN_FILES { return Ret(EBADF, []); }
      if fd < 0 || fd == MAX_OPEN_FILES { return Fault; }
      var f := openFiles[fd];
      if f.fileNo == 0 { return Ret(EBADF, []); }
      match f.dev {
        case NoDevice => r := Fault;
        case Console => r := Ret(-1, []);
        case RamFs =>
          openFiles[fd] := f.(data := None, asize := 0, end := 0, pos := 0, fileNo := 0);
          r := Ret(0, []);
      }
    }

    method Read(fd: int, size: nat) returns (r: Res)
      requires Valid()
      modifies openFiles
      ensures openFiles[..] == S.Read(old(openFiles[..]), fd, size).0 && r == S.Read(old(openFiles[..]), fd, size).1
    {
      if fd < 0 || fd >= MAX_OPEN_FILES { return Fault; }
      var f := openFiles[fd];
      match f.dev {
        case NoDevice => r := Ret(EBADF, []);
        case Console => r := ConsoleIo;
        case RamFs =>
          if f.end == 0 {
            r := Ret(0, []);
          } else if !Inside(f.data, f.pos, size) {
            return Fault;
          } else {
            r := Ret(AsInt(size % TWO32), if size == 0 then [] else f.data.value[f.pos..f.pos + size]);
          }
          if r.rv >= 0 {
            openFiles[fd] := f.(pos := (f.pos + r.rv) % TWO32);
          }
      }
    }

    /** `ramfs_write`: makes room in place first, then copies. */
    method RamWrite(fd: nat, buf: seq<Byte>, heap: Heap) returns (r: Res)
      requires Valid() && fd < MAX_OPEN_FILES
      modifies openFiles
      ensures r == FsWrite(old(openFiles[fd]), buf, heap).1
      ensures openFiles[..] == old(openFiles[..])[fd := FsWrite(old(openFiles[fd]), buf, heap).0]
    {
      hide Inside;
      var n := |buf|;
      var f := openFiles[fd];
      if (f.pos + n) % TWO32 > f.asize {
        var total := (Max(CHUNK_SIZE, n) + f.pos) % TWO32;
        openFiles[fd] := f.(data := if heap.None? then None else Some(Realloc(f.data, total, heap.value)));
        openFiles[fd] := openFiles[fd].(asize := total);
        if heap.None? { return Ret(-ENOSPC, []); }
      }
      f := openFiles[fd];
      if !Inside(f.data, f.pos, n) { return Fault; }
      openFiles[fd] := f.(data := Patched(f.data, f.pos, buf));
      return Ret(AsInt(n % TWO32), []);
    }

    method Write(fd: int, buf: seq<Byte>, heap: Heap) returns (r: Res)
      requires Valid()
      modifies openFiles
      ensures openFiles[..] == S.Write(old(openFiles[..]), fd, buf, heap).0
      ensures r == S.Write(old(openFiles[..]), fd, buf, heap).1
    {
      hide FsWrite;
      if fd > MAX_OPEN_FILES { return Ret(EBADF, []); }
      if fd < 0 || fd == MAX_OPEN_FILES { return Fault; }
      var f := openFiles[fd];
      if f.fileNo == 0 { return Ret(EBADF, []); }
      match f.dev {
        case NoDevice => r := Fault;
        case Console => r := ConsoleIo;
        case RamFs =>
          r := RamWrite(fd, buf, heap);
          if r.Ret? && r.rv >= 0 {
            openFiles[fd] := openFiles[fd].(pos := (openFiles[fd].pos + |buf|) % TWO32);
            openFiles[fd] := openFiles[fd].(end := Max(openFiles[fd].pos, openFiles[fd].end));
          }
      }
    }

    method Seek(fd: int, offset: int, origin: Origin) returns (r: Res)
      requires Valid()
      modifies openFiles
      ensures openFiles[..] == S.Seek(old(openFiles[..]), fd, offset, origin).0
      ensures r == S.Seek(old(openFiles[..]), fd, offset, origin).1
    {
      if fd > MAX_OPEN_FILES { return Ret(EBADF, []); }
      if fd < 0 || fd == MAX_OPEN_FILES { return Fault; }
      var f := openFiles[fd];
      if f.fileNo == 0 { return Ret(EBADF, []); }
      match f.dev {
        case NoDevice => r := Fault;
        case Console => r := Ret(-1, []);
        case RamFs =>
          var total := offset;
          if origin == SeekCur {
            total := total + f.pos;
          } else if origin == SeekEnd {
            total := total + f.end;
          }
          openFiles[fd] := f.(pos := total % TWO32);
          r := Ret(0, []);
      }
    }
  }
}
