/** `_strtok_r` in both modes, working in place on the caller's buffer. */
module Strtok {
  import opened Basics
  import S = StrtokSpec

  /** `s` and `*lasts` are positions in `buf`; NULL is `None`. The delimiters are read
    * from their NUL-terminated string one by one, as the scanning loops do. */
  method StrtokR(buf: array<char>, s: Option<nat>, delim: string, lasts: Option<nat>, skip: bool)
    returns (tok: Option<nat>, rest: Option<nat>)
    requires S.Delims(delim)
    requires var from := if s.Some? then s else lasts; from.Some? ==> S.Terminated(buf[..], from.value)
    modifies buf
    ensures var from := if s.Some? then s else lasts;
            if from.None? then buf[..] == old(buf[..]) && tok.None? && rest == lasts
            else S.Call(buf[..], tok, rest) == S.Strtok(old(buf[..]), from.value, delim, skip)
  {
    var from := if s.Some? then s else lasts;
    if from.None? { return None, lasts; }
    ghost var b := buf[..];
    var i := from.value;
    var hit := InDelims(buf[i], delim);
    if hit && !skip {
      buf[i] := '\0';
      return Some(i), Some(i + 1);
    }
    i := SkipDelims(buf, i, delim);
    if buf[i] == '\0' { return None, None; }
    tok := Some(i);
    S.TerminatedAfter(b, from.value, i);
    i := ScanToken(buf, i, delim);
    if buf[i] == '\0' {
      rest := None;
    } else {
      buf[i] := '\0';
      rest := Some(i + 1);
    }
  }

  /** The first loop: back to the next character as long as it is a delimiter. */
  method SkipDelims(buf: array<char>, p: nat, delim: string) returns (i: nat)
    requires S.Delims(delim) && S.Terminated(buf[..], p)
    ensures i == S.Span(buf[..], p, delim)
  {
    i := p;
    var hit := InDelims(buf[i], delim);
    while hit
      invariant S.Terminated(buf[..], i)
      invariant S.Span(buf[..], i, delim) == S.Span(buf[..], p, delim)
      invariant hit <==> buf[i] in delim
      decreases buf.Length - i
    {
      i := i + 1;
      hit := InDelims(buf[i], delim);
    }
  }

  /** The second loop: on to the next delimiter, the terminating NUL among them. */
  method ScanToken(buf: array<char>, p: nat, delim: string) returns (i: nat)
    requires S.Terminated(buf[..], p)
    ensures i == S.Break(buf[..], p, delim)
  {
    i := p;
    var hit := InDelims(buf[i], delim + [S.NUL]);
    while !hit
      invariant S.Terminated(buf[..], i)
      invariant S.Break(buf[..], i, delim) == S.Break(buf[..], p, delim)
      invariant hit <==> buf[i] in delim || buf[i] == S.NUL
      decreases buf.Length - i
    {
      i := i + 1;
      hit := InDelims(buf[i], delim + [S.NUL]);
    }
  }

  /** The inner loop over the delimiter string. */
  method InDelims(c: char, delim: string) returns (hit: bool)
    ensures hit <==> c in delim
  {
    for k := 0 to |delim|
      invariant c !in delim[..k]
    {
      if delim[k] == c { return true; }
      assert delim[..k + 1] == delim[..k] + [delim[k]];
    }
    assert delim[..|delim|] == delim;
    return false;
  }
}
