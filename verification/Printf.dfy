/** The streaming formatter in its own form: characters go to the caller's buffer one
  * by one while a budget is counted down. */
module Printf {
  import opened Basics
  import opened Xtoa
  import opened PrintfSpec

  /** A `size_t` stored in an `int`. */
  function Signed(n: nat): int
    requires n < TWO32
  {
    if n < TWO31 then n else n - TWO32
  }

  /** How many of `len` characters reach the buffer, the terminator not counted. */
  function Stored(n: nat, len: nat): (k: nat)
    requires n < TWO32
    ensures k <= len
  {
    if 1 <= n < TWO31 && n - 1 < len then n - 1 else len
  }

  /** The buffer takes what is stored and the terminator, and the budget variable does
    * not run past the smallest `int`. */
  predicate Fits(n: nat, len: nat, capacity: nat)
    requires n < TWO32
  {
    Stored(n, len) < capacity && -TWO31 <= Signed(n) - Stored(n, len)
  }

  lemma FitsShorter(n: nat, len: nat, len': nat, capacity: nat)
    requires n < TWO32 && Fits(n, len, capacity) && len' <= len
    ensures Fits(n, len', capacity)
  {
  }

  /** `buffer`, its moving write position, and `left`. */
  class Sink {
    const buf: array<char>
    const n: nat
    var pos: nat
    var left: int
    ghost const initial: string       // the buffer before the call
    ghost var text: string            // everything offered so far

    ghost predicate Valid()
      reads this, buf
    {
      && n < TWO32
      && pos == Stored(n, |text|) && pos <= buf.Length == |initial|
      && left == Signed(n) - pos
      && buf[..pos] == text[..pos] && buf[pos..] == initial[pos..]
    }

    constructor (buf: array<char>, n: nat)
      requires n < TWO32
      ensures Valid() && text == "" && this.buf == buf && this.n == n && initial == buf[..]
    {
      this.buf, this.n := buf, n;
      pos, left := 0, Signed(n);
      initial, text := buf[..], "";
    }

    method EmitChar(c: char)
      requires Valid() && Fits(n, |text| + 1, buf.Length)
      modifies this, buf
      ensures Valid() && text == old(text) + [c]
    {
      text := text + [c];
      if left == 1 {
        return;
      }
      left := left - 1;
      buf[pos] := c;
      pos := pos + 1;
    }

    /** The budget is closed and the NUL put behind what was stored. */
    method Terminate()
      requires Valid() && pos < buf.Length
      modifies this, buf
      ensures text == old(text) && pos == old(pos) && left == 0
      ensures buf[..] == text[..pos] + ['\0'] + initial[pos + 1..]
    {
      hide Stored, Signed;
      ghost var kept := text[..pos];
      left := 0;
      buf[pos] := '\0';
      assert buf[..pos] == kept && buf[pos + 1..] == initial[pos + 1..];
    }

    /** `k` copies of one character. */
    method EmitRun(c: char, k: nat)
      requires Valid() && Fits(n, |text| + k, buf.Length)
      modifies this, buf
      ensures Valid() && text == old(text) + Repeat(c, k)
    {
      var i := 0;
      while i < k
        invariant 0 <= i <= k && Valid() && text == old(text) + Repeat(c, i)
      {
        FitsShorter(n, |old(text)| + k, |text| + 1, buf.Length);
        EmitChar(c);
        i := i + 1;
      }
    }

    method EmitAll(s: string)
      requires Valid() && Fits(n, |text| + |s|, buf.Length)
      modifies this, buf
      ensures Valid() && text == old(text) + s
    {
      var i := 0;
      while i < |s|
        invariant 0 <= i <= |s| && Valid() && text == old(text) + s[..i]
      {
        FitsShorter(n, |old(text)| + |s|, |text| + 1, buf.Length);
        EmitChar(s[i]);
        i := i + 1;
      }
      assert s[..i] == s;
    }

    method EmitString(s: string, width: nat, flags: Flags)
      requires Valid() && Fits(n, |text| + |Pad(s, width, flags)|, buf.Length)
      modifies this, buf
      ensures Valid() && text == old(text) + Pad(s, width, flags)
    {
      hide Stored, Signed, Fits, Pad, Repeat;
      PadIs(s, width, flags);
      var pad := if flags.zero then '0' else ' ';
      var fill := if |s| < width then width - |s| else 0;
      ghost var total := |text| + |Pad(s, width, flags)|;
      if flags.left {
        FitsShorter(n, total, |text| + |s|, buf.Length);
        EmitAll(s);
        EmitRun(pad, fill);
      } else {
        FitsShorter(n, total, |text| + fill, buf.Length);
        EmitRun(pad, fill);
        EmitAll(s);
      }
    }

    /** Renders through a twelve-byte local buffer. */
    method EmitInt(v: int, base: nat, signed: bool, width: nat, flags: Flags)
      requires -TWO31 <= v < TWO31 && (base == 10 || base == 16)
      requires Valid() && Fits(n, |text| + |Pad(IntText(v, base, signed), width, flags)|, buf.Length)
      modifies this, buf
      ensures Valid() && text == old(text) + Pad(IntText(v, base, signed), width, flags)
    {
      hide Stored, Signed, Fits, Pad;
      var local := new char[12];
      var negative := signed && v < 0;
      FitsTwelve(AsUnsigned(v), base, negative);
      Xtoa.Xtoa(local, AsUnsigned(v), base, negative);
      ghost var t := XtoaText(AsUnsigned(v), base, negative);
      assert local[..|t|] == t;
      TextHasNoNul(AsUnsigned(v), base, negative);
      var len := StrLen(local);
      EmitString(local[..len], width, flags);
    }
  }

  lemma PadIs(s: string, width: nat, flags: Flags)
    ensures var fill := Repeat(if flags.zero then '0' else ' ', if |s| < width then width - |s| else 0);
            Pad(s, width, flags) == if flags.left then s + fill else fill + s
  {
  }

  function IntText(v: int, base: nat, signed: bool): string
    requires -TWO31 <= v < TWO31 && 2 <= base <= 16
  {
    XtoaText(AsUnsigned(v), base, signed && v < 0)
  }

  method StrLen(a: array<char>) returns (k: nat)
    requires exists j :: 0 <= j < a.Length && a[j] == '\0'
    ensures k < a.Length && a[k] == '\0' && forall i :: 0 <= i < k ==> a[i] != '\0'
  {
    k := 0;
    while a[k] != '\0'
      invariant 0 <= k < a.Length && forall i :: 0 <= i < k ==> a[i] != '\0'
      decreases a.Length - k
    {
      k := k + 1;
    }
  }

  lemma {:induction false} DigitsHaveNoNul(v: nat, base: nat)
    requires 2 <= base <= 16
    ensures '\0' !in DigitsReversed(v, base)
    decreases v
  {
    hide Quotient, LastDigit;
    if Quotient(v, base) != 0 {
      DigitsHaveNoNul(Quotient(v, base), base);
    }
  }

  lemma TextHasNoNul(v: nat, base: nat, negative: bool)
    requires v < TWO32 && 2 <= base <= 16
    ensures '\0' !in XtoaText(v, base, negative)
  {
    hide DigitsReversed, Reversed;
    var m := if negative then Negate(v) else v;
    DigitsHaveNoNul(m, base);
    var r := DigitsReversed(m, base);
    forall c | c in Reversed(r)
      ensures c in r
    {
      var i :| 0 <= i < |r| && Reversed(r)[i] == c;
      assert r[|r| - 1 - i] == c;
    }
  }

  // ------------------------------------------------------------- directives

  method FindFlags(f: string, i: nat) returns (flags: Flags, j: nat)
    ensures (flags, j) == FlagsAt(f, i)
  {
    var ch := At(f, i);
    flags, j := Flags(false, false), i + 1;
    if ch == '0' {
      flags := Flags(true, false);
    } else if ch == ' ' {
    } else if ch == '-' {
      flags := Flags(false, true);
    } else {
      j := i;
    }
  }

  method SkipDigits(f: string, i: nat) returns (j: nat)
    requires i <= |f|
    ensures j == DigitsEnd(f, i)
  {
    j := i;
    while IsDigit(At(f, j))
      invariant i <= j <= |f| && DigitsEnd(f, j) == DigitsEnd(f, i)
      decreases |f| - j
    {
      j := j + 1;
    }
  }

  /** The loop over width, length and ignored precisions. */
  method FindDirective(f: string, start: nat) returns (d: Directive)
    requires start <= |f|
    ensures d == DirectiveAt(f, start)
  {
    var i := start;
    while true
      invariant 0 <= i <= |f| && DirectiveAt(f, i) == DirectiveAt(f, start)
      decreases |f| - i
    {
      var j := SkipDigits(f, i);
      if j > i + 3 {
        return TooWide;
      }
      var width := 0;
      if j > i {
        width := Decimal(f[i..j]);
      }
      var ch := At(f, j);
      var next := j + 1;
      if IsLength(ch) {
        ch := At(f, next);
        next := next + 1;
      }
      if ch != '.' {
        return Directive(width, ch, next);
      }
      i := next;
    }
  }

  // --------------------------------------------------------------- the loop

  /** One conversion, written to the sink. */
  method EmitConversion(sink: Sink, conv: char, width: nat, flags: Flags, arg: Arg)
    requires sink.Valid() && ArgOk(arg) && Supported(conv) && Convert(conv, width, flags, arg).Some?
    requires Fits(sink.n, |sink.text| + |Convert(conv, width, flags, arg).value|, sink.buf.Length)
    modifies sink, sink.buf
    ensures sink.Valid() && sink.text == old(sink.text) + Convert(conv, width, flags, arg).value
  {
    hide Stored, Signed, Fits, Pad;
    if conv == 'c' {
      sink.EmitChar((arg.v % 256) as char);
    } else if conv == 'd' {
      sink.EmitInt(arg.v, 10, true, width, flags);
    } else if conv == 'u' {
      sink.EmitInt(arg.v, 10, false, width, flags);
    } else if conv == 'x' || conv == 'p' {
      sink.EmitInt(arg.v, 16, false, width, flags);
    } else if arg.NullArg? {
      sink.EmitString("(null)", width, flags);
    } else {
      sink.EmitString(arg.s, width, flags);
    }
  }

  /** The format loop of `print`; false if it ran into an unsupported conversion. */
  method Interpret(sink: Sink, f: string, args: seq<Arg>) returns (ok: bool)
    requires sink.Valid() && sink.text == "" && ArgsOk(args) && !Render(f, 0, args).Undefined?
    requires Fits(sink.n, |Render(f, 0, args).text|, sink.buf.Length)
    modifies sink, sink.buf
    ensures sink.Valid() && Render(f, 0, args) == if ok then Done(sink.text) else Halts(sink.text)
  {
    hide Stored, Signed, Fits, Convert, DirectiveAt, FlagsAt;
    var i, a := 0, 0;
    ghost var whole := Render(f, 0, args);
    while i < |f|
      invariant 0 <= i <= |f| && 0 <= a <= |args| && sink.Valid()
      invariant Prepend(sink.text, Render(f, i, args[a..])) == whole
      decreases |f| - i
    {
      ghost var before, rest := sink.text, Render(f, i, args[a..]);
      if f[i] != '%' {
        PrependAssoc(before, [f[i]], Render(f, i + 1, args[a..]));
        FitsShorter(sink.n, |whole.text|, |sink.text| + 1, sink.buf.Length);
        sink.EmitChar(f[i]);
        i := i + 1;
      } else if At(f, i + 1) == '%' {
        PrependAssoc(before, "%", Render(f, i + 2, args[a..]));
        FitsShorter(sink.n, |whole.text|, |sink.text| + 1, sink.buf.Length);
        sink.EmitChar('%');
        i := i + 2;
      } else {
        var flags, j := FindFlags(f, i + 1);
        var d := FindDirective(f, j);
        if !Supported(d.conv) {
          return false;
        }
        ghost var piece := Convert(d.conv, d.width, flags, args[a]).value;
        assert args[a..][1..] == args[a + 1..];
        PrependAssoc(before, piece, Render(f, d.next, args[a + 1..]));
        FitsShorter(sink.n, |whole.text|, |sink.text| + |piece|, sink.buf.Length);
        EmitConversion(sink, d.conv, d.width, flags, args[a]);
        i, a := d.next, a + 1;
      }
    }
    return true;
  }

  lemma ResultIs(n: nat, k: nat)
    requires n < TWO32 && -TWO31 <= Signed(n) - k
    ensures (n - (Signed(n) - k)) % TWO32 == k
  {
  }

  /** Streaming output refines render-then-truncate: the buffer receives the first
    * `Stored` characters of the full rendering and one NUL, nothing else in it
    * changes, and their number is returned. For 1 <= n < 2^31 that is min(n - 1,
    * |full|) characters; for n = 0 and n >= 2^31 the budget never runs out.
    *
    * The result is the would-be length that section 7.19.6.5 of ISO/IEC 9899:1999 asks
    * for if and only if nothing was cut off: the output is shorter than the size, or the
    * size is 0 (for which that section asks that nothing be written) or counts as no
    * limit. */
  method Vsnprintf(buf: array<char>, n: nat, f: string, args: seq<Arg>) returns (ret: int, ok: bool)
    requires n < TWO32 && '\0' !in f && ArgsOk(args)
    requires !Render(f, 0, args).Undefined? && Fits(n, |Render(f, 0, args).text|, buf.Length)
    modifies buf
    ensures ok <==> Render(f, 0, args).Done?
    ensures ok ==>
              var full := Render(f, 0, args).text;
              var k := if 1 <= n < 0x8000_0000 && n - 1 < |full| then n - 1 else |full|;
              && ret == k && k < buf.Length
              && buf[..] == full[..k] + ['\0'] + old(buf[..])[k + 1..]
              && (ret == |full| <==> |full| < n || n == 0 || TWO31 <= n)
  {
    hide Render, Signed;
    var sink := new Sink(buf, n);
    ok := Interpret(sink, f, args);
    if !ok {
      return -1, false;
    }
    // the return value is computed in unsigned arithmetic
    ResultIs(n, sink.pos);
    ret := (n - sink.left) % TWO32;
    sink.Terminate();
  }
}
