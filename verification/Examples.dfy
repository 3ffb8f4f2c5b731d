/** Inputs at which the other components do not do what one would expect. */
module Examples {
  import opened Basics
  import Cirq = CirqSpec
  import Xtoa
  import Printf
  import PrintfSpec
  import RamSpec = RamFilesSpec
  import RamFiles
  import Sleep
  import GptSpec

  // ----------------------------------------------------------- circular buffer

  /** One record in a ring of two, and Peek answers for a second one. */
  lemma PeekPastTheLast()
    ensures var r := Cirq.Ring(2, 1, [7, 9], 1, 0, 1);
            r.Shaped() && Cirq.Peek(r, 1) == Some(1)
  {
    var r := Cirq.Ring(2, 1, [7, 9], 1, 0, 1);
    assert Cirq.Walk(r, 0, 1) == Cirq.Walk(r, 1, 0);
  }

  // ------------------------------------------------------------------- printf

  /** Five characters into a size of three: two are stored, and two returned. */
  method ResultIsNotTheLength() returns (ret: int, left: string)
    ensures ret == 2 && left == "he\0"
  {
    var buf := new char[3];
    PrintfSpec.PlainText("hello", 0, []);
    var ok;
    ret, ok := Printf.Vsnprintf(buf, 3, "hello", []);
    left := buf[..];
  }

  /** A size of 0 is no limit: all five characters and the terminator are stored. */
  method SizeZeroIsNoLimit() returns (ret: int, left: string)
    ensures ret == 5 && left == "hello\0"
  {
    var buf := new char[6];
    PrintfSpec.PlainText("hello", 0, []);
    var ok;
    ret, ok := Printf.Vsnprintf(buf, 0, "hello", []);
    left := buf[..];
  }

  /** -5 zero-padded to four reads 00-5. */
  lemma SignBehindZeros()
    ensures PrintfSpec.Pad(Xtoa.ItoaText(-5, 10), 4, PrintfSpec.Flags(true, false)) == "00-5"
  {
    var d := Xtoa.DigitsReversed(5, 10);
    assert Xtoa.LastDigit(5, 10) == 5 && Xtoa.Quotient(5, 10) == 0;
    assert d == "5";
    assert Xtoa.Reversed(d) == "5";
    assert Xtoa.ItoaText(-5, 10) == "-5";
  }

  /** The width of "%5.2d" is two. */
  lemma PrecisionIsTheWidth()
    ensures PrintfSpec.DirectiveAt("5.2d", 0) == PrintfSpec.Directive(2, 'd', 4)
  {
    PrintfSpec.PrecisionReplacesWidth("5", "2", 'd');
    assert "5" + "." + "2" + ['d'] == "5.2d";
    assert "2"[..0] == "" && Xtoa.ParseDigits("", 10) == 0;
    assert PrintfSpec.Decimal("2") == 2;
  }

  // ---------------------------------------------------------------- RAM files

  /** One byte in a block of a thousand, the cursor behind it. */
  const WRITTEN: RamSpec.Slot := RamSpec.Slot(3, RamSpec.RamFs, Some([5] + seq(999, i => 6)), 1000, 1, 1)

  /** Reading on gives a byte that was never written. */
  lemma ReadsPastTheEnd()
    ensures RamSpec.ReadFile(WRITTEN, 1).1 == RamSpec.Ret(1, [6])
  {
  }

  /** A seek in front of the file puts the cursor at the far end of the address space. */
  lemma SeekInFront()
    ensures RamSpec.SeekFile(WRITTEN, -2, RamSpec.SeekCur).pos == 0xFFFF_FFFF
  {
  }

  /** A write one byte past the end brings the old byte in between into the file. */
  lemma HoleIsOldMemory()
    ensures var f := WRITTEN.(pos := 2);
            var g := RamSpec.WriteFile(f, [7], None).0;
            RamFiles.Content(g) == [5, 6, 7]
  {
    var f := WRITTEN.(pos := 2);
    var g := RamSpec.WriteFile(f, [7], None).0;
    assert g.end == 3;
  }

  /** No memory for a file's first byte, and the next write goes through a null pointer. */
  lemma SecondWriteAfterFullHeap()
    ensures var f := RamSpec.BLANK.(fileNo := 3, dev := RamSpec.RamFs);
            var (g, r) := RamSpec.WriteFile(f, [7], None);
            r == RamSpec.Ret(-RamSpec.ENOSPC, []) && RamSpec.WriteFile(g, [7], None).1 == RamSpec.Fault
  {
  }

  /** The third file cannot be opened. */
  lemma ThirdOpenFails()
    ensures var ops := [RamSpec.OpOpen, RamSpec.OpOpen, RamSpec.OpOpen];
            RamSpec.Run(RamSpec.Boot, ops).1 == [RamSpec.Ret(3, []), RamSpec.Ret(4, []), RamSpec.Ret(-1, [])]
  {
    var ops := [RamSpec.OpOpen, RamSpec.OpOpen, RamSpec.OpOpen];
    assert ops[1..] == [RamSpec.OpOpen, RamSpec.OpOpen];
    assert ops[1..][1..] == [RamSpec.OpOpen] && ops[1..][1..][1..] == [];
    var t0: RamSpec.Table := RamSpec.Boot;
    assert RamSpec.FirstFree(t0, 2) == 3;
    var t1 := RamSpec.Step(t0, RamSpec.OpOpen).0;
    assert RamSpec.FirstFree(t1, 2) == 4;
    var t2 := RamSpec.Step(t1, RamSpec.OpOpen).0;
    assert RamSpec.FirstFree(t2, 2) == 5;
    assert RamSpec.Run(t2, [RamSpec.OpOpen]).1 == [RamSpec.Ret(-1, [])];
  }

  // -------------------------------------------------------------------- sleep

  /** Task 0 is due, the sweep has just seen that, and the task is put to sleep for five
    * more ticks: it is woken at once and never again. */
  lemma WokenAtOnce()
    ensures var s := Sleep.State(9, [Sleep.Entry(9, true, 1)], Sleep.Matched(0));
            var a := Sleep.Arm(s, 5, 0, 2);
            && Sleep.WellFormed(s) && Sleep.ValidRun(a, [Sleep.Sweep, Sleep.Sweep])
            && Sleep.Signals(a, [Sleep.Sweep, Sleep.Sweep], 0) == [Sleep.Signal(0, 2, 0)]
            && !Sleep.Final(a, [Sleep.Sweep, Sleep.Sweep]).list[0].active
  {
    var s := Sleep.State(9, [Sleep.Entry(9, true, 1)], Sleep.Matched(0));
    var a := Sleep.Arm(s, 5, 0, 2);
    var b := Sleep.Step(a, Sleep.Sweep);
    var es := [Sleep.Sweep, Sleep.Sweep];
    assert es[1..] == [Sleep.Sweep] && es[1..][1..] == [];
    var c := Sleep.Step(b, Sleep.Sweep);
    assert Sleep.ValidRun(c, []) && Sleep.Final(c, []) == c;
    assert Sleep.ValidRun(b, es[1..]) && Sleep.Final(b, es[1..]) == c;
    assert Sleep.Signals(b, es[1..], 0) == [Sleep.Signal(0, 2, 0)];
  }

  // ---------------------------------------------------------------------- Gpt

  /** The only row is for channel 1: after initialisation the channel counts as stopped,
    * and its remaining time is read from the counter. */
  lemma RowNumberIsNotTheChannel()
    ensures var s := GptSpec.InitStep(GptSpec.PowerOn(2), [GptSpec.Row(1, true)]);
            s.units[1].mode == GptSpec.Stopped && s.units[0].mode == GptSpec.Initialized
  {
  }

  /** Initialising a running channel again: it is no longer started, and its counter
    * runs. */
  lemma RunningButInitialised()
    ensures var rows := [GptSpec.Row(0, true)];
            var s := GptSpec.InitStep(GptSpec.StartStep(GptSpec.InitStep(GptSpec.PowerOn(1), rows), 0, 10), rows);
            s.timers[0].enabled && s.units[0].mode != GptSpec.Started
  {
  }

  /** A period of 65536 counts as none. */
  lemma LongPeriodVanishes()
    ensures GptSpec.StartStep(GptSpec.PowerOn(1), 0, 65536).timers[0].reload == 0
  {
  }
}
