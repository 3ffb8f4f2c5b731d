/** What a format string means (`printf.c`): the full rendering, with no limit on its
  * length. Format strings are C strings: they hold no NUL, and reading one past the
  * last character yields NUL. */
module PrintfSpec {
  import opened Basics
  import opened Xtoa

  /** A variadic argument; the target's `int` and pointers have 32 bits. */
  datatype Arg = IntArg(v: int) | StrArg(s: string) | NullArg

  predicate ArgOk(a: Arg) {
    match a
    case IntArg(v) => -TWO31 <= v < TWO31
    case StrArg(s) => '\0' !in s
    case NullArg => true
  }

  predicate ArgsOk(args: seq<Arg>) { forall i :: 0 <= i < |args| ==> ArgOk(args[i]) }

  datatype Flags = Flags(zero: bool, left: bool)

  function At(f: string, i: nat): char { if i < |f| then f[i] else '\0' }

  predicate IsDigit(c: char) { '0' <= c <= '9' }

  /** One flag character at most; the blank is accepted and ignored. */
  function FlagsAt(f: string, i: nat): (r: (Flags, nat))
    ensures i <= r.1 <= i + 1 && (i <= |f| ==> r.1 <= |f|)
  {
    if At(f, i) == '0' then (Flags(true, false), i + 1)
    else if At(f, i) == ' ' then (Flags(false, false), i + 1)
    else if At(f, i) == '-' then (Flags(false, true), i + 1)
    else (Flags(false, false), i)
  }

  function DigitsEnd(f: string, i: nat): (j: nat)
    requires i <= |f|
    ensures i <= j <= |f|
    ensures forall k :: i <= k < j ==> IsDigit(f[k])
    ensures !IsDigit(At(f, j))
    decreases |f| - i
  {
    if IsDigit(At(f, i)) then DigitsEnd(f, i + 1) else i
  }

  /** `strtoul` in base ten on a string of digits. */
  function Decimal(s: string): nat { ParseDigits(s, 10) }

  /** The width, the conversion character and where the format continues; or a width
    * of more digits than the driver's four-byte buffer takes. */
  datatype Directive = Directive(width: nat, conv: char, next: nat) | TooWide

  predicate IsLength(c: char) { c == 'h' || c == 'l' || c == 'L' }

  /** Width, length and conversion from position `i`. A precision is read as another
    * width, which replaces the first. */
  function DirectiveAt(f: string, i: nat): (d: Directive)
    requires i <= |f|
    ensures d.Directive? ==> i < d.next <= |f| + 1 && (d.conv != '\0' ==> d.next <= |f|)
    decreases |f| - i
  {
    var j := DigitsEnd(f, i);
    if j > i + 3 then TooWide
    else
      var width := if j > i then Decimal(f[i..j]) else 0;
      var n := if IsLength(At(f, j)) then j + 1 else j;
      if At(f, n) == '.' then DirectiveAt(f, n + 1)
      else Directive(width, At(f, n), n + 1)
  }

  function Repeat(c: char, n: nat): (r: string)
    ensures |r| == n && forall i :: 0 <= i < n ==> r[i] == c
  {
    seq(n, _ => c)
  }

  function Pad(s: string, width: nat, flags: Flags): (r: string)
    ensures |r| == if |s| < width then width else |s|
  {
    var fill := Repeat(if flags.zero then '0' else ' ', if |s| < width then width - |s| else 0);
    if flags.left then s + fill else fill + s
  }

  /** Text of one conversion; `None` if the argument has the wrong type. */
  function Convert(conv: char, width: nat, flags: Flags, arg: Arg): Option<string>
    requires ArgOk(arg)
  {
    match arg
    case IntArg(v) =>
      if conv == 'c' then Some([(v % 256) as char])
      else if conv == 'd' then Some(Pad(ItoaText(v, 10), width, flags))
      else if conv == 'u' then Some(Pad(XtoaText(AsUnsigned(v), 10, false), width, flags))
      else if conv == 'x' || conv == 'p' then Some(Pad(XtoaText(AsUnsigned(v), 16, false), width, flags))
      else None
    case StrArg(s) => if conv == 's' then Some(Pad(s, width, flags)) else None
    case NullArg => if conv == 's' then Some(Pad("(null)", width, flags)) else None
  }

  predicate Supported(conv: char) { conv in {'c', 'd', 'u', 'x', 'p', 's'} }

  /** `Done`: the whole text. `Halts`: the text up to an unsupported conversion, where
    * the code asserts. `Undefined`: too wide a width, or a missing or mismatched
    * argument, for which the C code has no defined behaviour. */
  datatype Outcome = Done(text: string) | Halts(text: string) | Undefined {
    function Text(): string { if Undefined? then "" else text }
  }

  function Prepend(s: string, o: Outcome): Outcome {
    if o.Undefined? then o else o.(text := s + o.text)
  }

  /** Rendering of the format from position `i` on. */
  function Render(f: string, i: nat, args: seq<Arg>): Outcome
    requires ArgsOk(args) && i <= |f|
    decreases |f| - i
  {
    if i == |f| then Done("")
    else if f[i] != '%' then Prepend([f[i]], Render(f, i + 1, args))
    else if At(f, i + 1) == '%' then Prepend("%", Render(f, i + 2, args))
    else
      var (flags, j) := FlagsAt(f, i + 1);
      var d := DirectiveAt(f, j);
      if d.TooWide? then Undefined
      else if !Supported(d.conv) then Halts("")
      else if args == [] || Convert(d.conv, d.width, flags, args[0]).None? then Undefined
      else Prepend(Convert(d.conv, d.width, flags, args[0]).value, Render(f, d.next, args[1..]))
  }

  lemma PrependAssoc(a: string, b: string, o: Outcome)
    ensures Prepend(a, Prepend(b, o)) == Prepend(a + b, o)
  {
    if !o.Undefined? {
      assert a + (b + o.text) == a + b + o.text;
    }
  }

  // ------------------------------------------------------ what it all means

  /** Text without conversions renders as itself, whatever the arguments. */
  lemma {:induction false} PlainText(f: string, i: nat, args: seq<Arg>)
    requires ArgsOk(args) && i <= |f| && '%' !in f
    ensures Render(f, i, args) == Done(f[i..])
    decreases |f| - i
  {
    if i < |f| {
      PlainText(f, i + 1, args);
      assert f[i..] == [f[i]] + f[i + 1..];
    }
  }

  lemma DirectiveSimple(conv: char)
    requires Supported(conv)
    ensures DirectiveAt(['%', conv], 1) == Directive(0, conv, 2) && FlagsAt(['%', conv], 1) == (Flags(false, false), 1)
  {
    var f := ['%', conv];
    assert DigitsEnd(f, 1) == 1;
  }

  lemma RenderOne(conv: char, arg: Arg)
    requires Supported(conv) && ArgOk(arg) && Convert(conv, 0, Flags(false, false), arg).Some?
    ensures Render(['%', conv], 0, [arg]) == Done(Convert(conv, 0, Flags(false, false), arg).value)
  {
    hide Convert, DirectiveAt, FlagsAt;
    var f := ['%', conv];
    DirectiveSimple(conv);
    assert [arg][1..] == [];
    assert Render(f, 2, []) == Done("");
    var piece := Convert(conv, 0, Flags(false, false), arg).value;
    assert piece + "" == piece;
  }

  /** What "%d" prints reads back as the argument, for every `int`; what "%u", "%x" and
    * "%p" print, as its unsigned value. */
  lemma PrintedNumberReadsBack(conv: char, v: int)
    requires -TWO31 <= v < TWO31 && conv in {'d', 'u', 'x', 'p'}
    ensures var o := Render(['%', conv], 0, [IntArg(v)]);
            var base := if conv == 'd' || conv == 'u' then 10 else 16;
            o.Done? && Parse(o.text, base) == if conv == 'd' then v else AsUnsigned(v)
  {
    hide ItoaText, XtoaText, Parse;
    RenderOne(conv, IntArg(v));
    if conv == 'd' {
      ItoaRoundTrip(v, 10);
      assert Pad(ItoaText(v, 10), 0, Flags(false, false)) == ItoaText(v, 10);
    } else {
      var base := if conv == 'u' then 10 else 16;
      UltoaRoundTrip(AsUnsigned(v), base);
      assert Pad(XtoaText(AsUnsigned(v), base, false), 0, Flags(false, false)) == XtoaText(AsUnsigned(v), base, false);
    }
  }

  /** Padding and text are both still there: the text whole, at its end of the field. */
  lemma PaddingKeepsText(s: string, width: nat, flags: Flags)
    ensures var r := Pad(s, width, flags);
            var k := |r| - |s|;
            && (if flags.left then r[..|s|] == s else r[k..] == s)
            && forall i :: 0 <= i < |r| && (if flags.left then |s| <= i else i < k) ==>
                 r[i] == if flags.zero then '0' else ' '
  {
  }

  lemma {:induction false} LeadingZeros(k: nat, s: string, base: nat)
    ensures ParseDigits(Repeat('0', k) + s, base) == ParseDigits(s, base)
  {
    var t := Repeat('0', k) + s;
    if s != [] {
      LeadingZeros(k, s[..|s| - 1], base);
      assert t[..|t| - 1] == Repeat('0', k) + s[..|s| - 1];
    } else if k > 0 {
      LeadingZeros(k - 1, s, base);
      assert t[..|t| - 1] == Repeat('0', k - 1) + s;
    }
  }

  /** Zero padding goes in front of the sign, so a zero-padded number reads back exactly
    * when it is not negative or needs no padding. */
  lemma ZeroPaddedReadsBackIff(v: int, width: nat)
    requires -TWO31 <= v < TWO31
    ensures var s := ItoaText(v, 10);
            Parse(Pad(s, width, Flags(true, false)), 10) == v <==> v >= 0 || width <= |s|
  {
    hide ParseDigits, DigitsReversed, Reversed;
    var s := ItoaText(v, 10);
    ItoaRoundTrip(v, 10);
    if width <= |s| {
      assert Pad(s, width, Flags(true, false)) == s;
    } else {
      LeadingZeros(width - |s|, s, 10);
      var r := Pad(s, width, Flags(true, false));
      assert r[0] == '0';
      if v >= 0 {
        NoLeadingZero(v, 10);
        assert s == Reversed(DigitsReversed(v, 10));
      }
    }
  }

  predicate AllDigits(s: string) { forall i :: 0 <= i < |s| ==> IsDigit(s[i]) }

  /** A precision is read as another width and replaces the first, so a width is honoured
    * exactly if it equals the precision behind it. */
  lemma PrecisionReplacesWidth(w: string, p: string, conv: char)
    requires AllDigits(w) && AllDigits(p) && |w| <= 3 && |p| <= 3 && Supported(conv)
    ensures var d := DirectiveAt(w + "." + p + [conv], 0);
            && d == Directive(Decimal(p), conv, |w| + |p| + 2)
            && (d.width == Decimal(w) <==> Decimal(w) == Decimal(p))
  {
    hide DigitsEnd, Decimal, DirectiveAt, Supported, AllDigits;
    var f, i := w + "." + p + [conv], |w| + 1;
    FormatParts(w, p, conv);
    PointAt(f, 0, |w|);
    ConversionAt(f, i, i + |p|);
  }

  lemma FormatParts(w: string, p: string, conv: char)
    requires AllDigits(w) && AllDigits(p)
    ensures var f, i := w + "." + p + [conv], |w| + 1;
            && f[|w|] == '.' && f[i + |p|] == conv && f[i..i + |p|] == p
            && (forall k :: 0 <= k < |w| ==> IsDigit(f[k]))
            && (forall k :: i <= k < i + |p| ==> IsDigit(f[k]))
  {
    hide IsDigit;
    var f, i := w + "." + p + [conv], |w| + 1;
    assert forall k :: 0 <= k < |w| ==> f[k] == w[k];
    assert forall k :: i <= k < i + |p| ==> f[k] == p[k - i];
  }

  lemma PointAt(f: string, i: nat, j: nat)
    requires i <= j < |f| && j <= i + 3 && f[j] == '.' && forall k :: i <= k < j ==> IsDigit(f[k])
    ensures DirectiveAt(f, i) == DirectiveAt(f, j + 1)
  {
    hide Decimal;
    assert DigitsEnd(f, i) == j;
  }

  lemma ConversionAt(f: string, i: nat, j: nat)
    requires i <= j < |f| && j <= i + 3 && Supported(f[j]) && forall k :: i <= k < j ==> IsDigit(f[k])
    ensures DirectiveAt(f, i) == Directive(Decimal(f[i..j]), f[j], j + 1)
  {
    assert DigitsEnd(f, i) == j;
    if i == j {
      assert f[i..j] == [];
    }
  }

  // ------------------------------------------- what a format does, piece by piece

  lemma {:induction false} DigitsEndShift(p: string, f: string, i: nat)
    requires i <= |f|
    ensures DigitsEnd(p + f, |p| + i) == |p| + DigitsEnd(f, i)
    decreases |f| - i
  {
    if IsDigit(At(f, i)) {
      DigitsEndShift(p, f, i + 1);
    }
  }

  lemma AtShift(p: string, f: string, i: nat)
    ensures At(p + f, |p| + i) == At(f, i)
  {
  }

  lemma DirectiveUnfolds(f: string, i: nat)
    requires i <= |f|
    ensures var j := DigitsEnd(f, i);
            var n := if IsLength(At(f, j)) then j + 1 else j;
            && (At(f, n) == '.' ==> n < |f|)
            && DirectiveAt(f, i) ==
               if j > i + 3 then TooWide
               else if At(f, n) == '.' then DirectiveAt(f, n + 1)
               else Directive(if j > i then Decimal(f[i..j]) else 0, At(f, n), n + 1)
  {
  }

  lemma {:induction false} DirectiveShift(p: string, f: string, i: nat)
    requires i <= |f|
    ensures var d := DirectiveAt(f, i);
            DirectiveAt(p + f, |p| + i) == if d.TooWide? then TooWide else d.(next := |p| + d.next)
    decreases |f| - i
  {
    hide Decimal, DigitsEnd, DirectiveAt, At, IsLength;
    DigitsEndShift(p, f, i);
    DirectiveUnfolds(f, i);
    DirectiveUnfolds(p + f, |p| + i);
    var j := DigitsEnd(f, i);
    var n := if IsLength(At(f, j)) then j + 1 else j;
    AtShift(p, f, j);
    AtShift(p, f, n);
    assert (p + f)[|p| + i..|p| + j] == f[i..j];
    if j <= i + 3 && At(f, n) == '.' {
      DirectiveShift(p, f, n + 1);
    }
  }

  /** What is in front of a position does not matter behind it. */
  lemma {:induction false} RenderShift(p: string, f: string, i: nat, args: seq<Arg>)
    requires ArgsOk(args) && i <= |f| && '\0' !in f
    ensures Render(p + f, |p| + i, args) == Render(f, i, args)
    decreases |f| - i
  {
    hide DirectiveAt, Convert;
    if i < |f| {
      if f[i] != '%' {
        RenderShift(p, f, i + 1, args);
      } else if At(f, i + 1) == '%' {
        RenderShift(p, f, i + 2, args);
      } else {
        var (flags, j) := FlagsAt(f, i + 1);
        assert FlagsAt(p + f, |p| + i + 1) == (flags, |p| + j);
        DirectiveShift(p, f, j);
        var d := DirectiveAt(f, j);
        if d.Directive? && Supported(d.conv) && args != [] {
          RenderShift(p, f, d.next, args[1..]);
        }
      }
    }
  }

  /** Text without '%' comes out as it is, in front of the rest. */
  lemma {:induction false} TextPrints(text: string, f: string, args: seq<Arg>)
    requires ArgsOk(args) && '%' !in text && '\0' !in text + f
    ensures Render(text + f, 0, args) == Prepend(text, Render(f, 0, args))
  {
    if text == "" {
      assert text + f == f;
      PrependAssoc("", "", Render(f, 0, args));
    } else {
      var more := text[1..];
      assert text + f == [text[0]] + (more + f);
      RenderShift([text[0]], more + f, 0, args);
      TextPrints(more, f, args);
      PrependAssoc([text[0]], more, Render(f, 0, args));
      assert [text[0]] + more == text;
    }
  }

  /** Two percent signs print one. */
  lemma PercentPrints(f: string, args: seq<Arg>)
    requires ArgsOk(args) && '\0' !in f
    ensures Render("%%" + f, 0, args) == Prepend("%", Render(f, 0, args))
  {
    RenderShift("%%", f, 0, args);
  }

  /** A conversion as it is written: one flag at most, a width of at most three digits that
    * does not look like a flag, one length letter at most. */
  predicate Written(flag: string, w: string, len: string) {
    && flag in {"", "0", " ", "-"} && AllDigits(w) && |w| <= 3 && len in {"", "h", "l", "L"}
    && (flag == "" && w != "" ==> w[0] != '0')
  }

  lemma DirectiveParts(pre: string, w: string, len: string, conv: char, rest: string)
    requires AllDigits(w) && |w| <= 3 && len in {"", "h", "l", "L"}
    requires !IsDigit(conv) && !IsLength(conv) && conv != '.'
    ensures DirectiveAt(pre + (w + len + [conv] + rest), |pre|)
            == Directive(Decimal(w), conv, |pre| + |w| + |len| + 1)
  {
    hide Decimal, DigitsEnd, DirectiveAt;
    var f := w + len + [conv] + rest;
    LetterParts(w, len, conv, rest);
    DigitsEndIs(f, 0, |w|);
    DirectiveUnfolds(f, 0);
    NoDigits();
    DirectiveShift(pre, f, 0);
  }

  lemma LetterParts(w: string, len: string, conv: char, rest: string)
    requires AllDigits(w) && len in {"", "h", "l", "L"} && !IsDigit(conv)
    ensures var f := w + len + [conv] + rest;
            && |w| < |f| && f[0..|w|] == w && !IsDigit(f[|w|])
            && f[|w|] == (if len == "" then conv else len[0]) && f[|w| + |len|] == conv
            && (len != "" ==> IsLength(f[|w|]))
            && forall k :: 0 <= k < |w| ==> IsDigit(f[k])
  {
    var f := w + len + [conv] + rest;
    assert forall k :: 0 <= k < |w| ==> f[k] == w[k];
  }

  lemma {:induction false} DigitsEndIs(f: string, i: nat, j: nat)
    requires i <= j < |f| && !IsDigit(f[j]) && forall k :: i <= k < j ==> IsDigit(f[k])
    ensures DigitsEnd(f, i) == j
    decreases j - i
  {
    if i < j {
      DigitsEndIs(f, i + 1, j);
    }
  }

  lemma NoDigits()
    ensures Decimal("") == 0
  {
  }

  /** The unpadded text of an argument. */
  function Bare(conv: char, arg: Arg): Option<string>
    requires ArgOk(arg)
  {
    match arg
    case IntArg(v) =>
      if conv == 'd' then Some(ItoaText(v, 10))
      else if conv == 'u' then Some(XtoaText(if v < 0 then v + 0x1_0000_0000 else v, 10, false))
      else if conv == 'x' || conv == 'p' then Some(XtoaText(if v < 0 then v + 0x1_0000_0000 else v, 16, false))
      else None
    case StrArg(s) => if conv == 's' then Some(s) else None
    case NullArg => if conv == 's' then Some("(null)") else None
  }

  /** The text stands in a field of the given width, at the left end for the flag '-' and at
    * the right end otherwise, the rest filled with zeros for the flag '0' and with blanks
    * otherwise; a field that is too narrow is no field. */
  predicate InField(piece: string, bare: string, flag: string, width: nat) {
    && |piece| == (if |bare| < width then width else |bare|)
    && var k := |piece| - |bare|;
       if flag == "-" then piece[..|bare|] == bare && forall i :: |bare| <= i < |piece| ==> piece[i] == ' '
       else
         piece[k..] == bare && forall i :: 0 <= i < k ==> piece[i] == if flag == "0" then '0' else ' '
  }

  lemma PadField(s: string, width: nat, flag: string)
    requires flag in {"", "0", " ", "-"}
    ensures InField(Pad(s, width, Flags(flag == "0", flag == "-")), s, flag, width)
  {
    PaddingKeepsText(s, width, Flags(flag == "0", flag == "-"));
  }

  lemma PiecePads(flag: string, width: nat, conv: char, arg: Arg)
    requires flag in {"", "0", " ", "-"} && ArgOk(arg) && Bare(conv, arg).Some?
    ensures var piece := Convert(conv, width, Flags(flag == "0", flag == "-"), arg);
            Supported(conv) && piece.Some? && InField(piece.value, Bare(conv, arg).value, flag, width)
  {
    hide ItoaText, XtoaText, InField, Pad;
    PadField(Bare(conv, arg).value, width, flag);
  }

  lemma FlagParts(flag: string, w: string, len: string, conv: char, rest: string)
    requires Written(flag, w, len) && !IsDigit(conv) && !IsLength(conv) && conv !in {'.', '%', ' ', '-'}
    ensures var pre, f := "%" + flag, "%" + flag + (w + len + [conv] + rest);
            && f[0] == '%' && At(f, 1) != '%'
            && FlagsAt(f, 1) == (Flags(flag == "0", flag == "-"), |pre|)
  {
    var tail := w + len + [conv] + rest;
    assert tail[0] == if w != "" then w[0] else if len != "" then len[0] else conv;
    var f := "%" + flag + tail;
    if flag == "" {
      assert f[1] == tail[0];
    } else {
      assert f[1] == flag[0];
    }
  }

  lemma RenderConversion(flag: string, w: string, len: string, conv: char, rest: string, arg: Arg, args: seq<Arg>)
    requires Written(flag, w, len) && ArgOk(arg) && ArgsOk(args) && ArgsOk([arg] + args) && '\0' !in rest
    requires Supported(conv) && Convert(conv, Decimal(w), Flags(flag == "0", flag == "-"), arg).Some?
    ensures Render("%" + flag + (w + len + [conv] + rest), 0, [arg] + args) ==
            Prepend(Convert(conv, Decimal(w), Flags(flag == "0", flag == "-"), arg).value, Render(rest, 0, args))
  {
    hide Convert, DirectiveAt, FlagsAt, Decimal, Written;
    var pre, f := "%" + flag, "%" + flag + (w + len + [conv] + rest);
    WrittenMeans(flag, w, len);
    FlagParts(flag, w, len, conv, rest);
    DirectiveParts(pre, w, len, conv, rest);
    var front := pre + w + len + [conv];
    assert f == front + rest;
    RenderShift(front, rest, 0, args);
    assert ([arg] + args)[1..] == args;
  }

  /** What one conversion other than %c prints, in whatever format it stands: its argument's
    * text, in the field that flag and width ask for; then the rest of the format. */
  lemma ConversionPrints(flag: string, w: string, len: string, conv: char, rest: string,
                         arg: Arg, args: seq<Arg>)
    returns (piece: string)
    requires Written(flag, w, len) && ArgsOk([arg] + args) && '\0' !in rest
    requires ArgOk(arg) && ArgsOk(args) && Bare(conv, arg).Some?
    ensures Render("%" + flag + (w + len + [conv] + rest), 0, [arg] + args) == Prepend(piece, Render(rest, 0, args))
    ensures InField(piece, Bare(conv, arg).value, flag, Decimal(w))
  {
    hide Convert, InField, Decimal, Written, Render, Bare;
    WrittenMeans(flag, w, len);
    PiecePads(flag, Decimal(w), conv, arg);
    piece := Convert(conv, Decimal(w), Flags(flag == "0", flag == "-"), arg).value;
    RenderConversion(flag, w, len, conv, rest, arg, args);
  }

  lemma WrittenMeans(flag: string, w: string, len: string)
    requires Written(flag, w, len)
    ensures flag in {"", "0", " ", "-"} && AllDigits(w) && |w| <= 3 && len in {"", "h", "l", "L"}
  {
  }

  /** %c prints the low byte of its argument, whatever flag and width say. */
  lemma CharPrints(flag: string, w: string, len: string, rest: string, v: int, args: seq<Arg>)
    requires Written(flag, w, len) && -TWO31 <= v < TWO31 && ArgsOk(args) && '\0' !in rest
    requires ArgsOk([IntArg(v)] + args)
    ensures Render("%" + flag + (w + len + ['c'] + rest), 0, [IntArg(v)] + args)
            == Prepend([(v % 256) as char], Render(rest, 0, args))
  {
    hide Render, Decimal, Written;
    RenderConversion(flag, w, len, 'c', rest, IntArg(v), args);
  }

  /** Any other conversion character stops at the assertion, whatever the arguments. */
  lemma UnsupportedHalts(flag: string, w: string, len: string, conv: char, rest: string, args: seq<Arg>)
    requires Written(flag, w, len) && ArgsOk(args) && conv !in {'c', 'd', 'u', 'x', 'p', 's'}
    requires !IsDigit(conv) && conv !in {'h', 'l', 'L', '.', '%', ' ', '-'}
    ensures Render("%" + flag + (w + len + [conv] + rest), 0, args) == Halts("")
  {
    hide DirectiveAt, FlagsAt, Decimal, Written;
    WrittenMeans(flag, w, len);
    FlagParts(flag, w, len, conv, rest);
    DirectiveParts("%" + flag, w, len, conv, rest);
  }

  /** A width is read as the number it is. */
  lemma WidthReadsBack(n: nat)
    requires 0 < n < 1000
    ensures var w := XtoaText(n, 10, false);
            Decimal(w) == n && AllDigits(w) && |w| <= 3 && w[0] != '0'
  {
    hide ParseDigits;
    ParseReversed(n, 10);
    NoLeadingZero(n, 10);
    assert Power(10, 3) == 1000 by { assert Power(10, 1) == 10; }
    DigitCount(n, 10, 3);
    DigitsAreDecimal(n);
    assert XtoaText(n, 10, false) == Reversed(DigitsReversed(n, 10));
  }

  lemma {:induction false} DigitsAreDecimal(v: nat)
    ensures AllDigits(DigitsReversed(v, 10))
    decreases v
  {
    hide Quotient, LastDigit;
    if Quotient(v, 10) != 0 {
      DigitsAreDecimal(Quotient(v, 10));
    }
  }
}
