/** The destructive, resumable tokenizer of `strtok_r.c`, and the splitting of a
  * string that repeated calls amount to. */
module StrtokSpec {
  import opened Basics

  const NUL: char := '\0'

  /** The delimiter string, which is itself NUL-terminated. */
  predicate Delims(d: string) { NUL !in d }

  // ------------------------------------------------ what tokenizing should be

  /** First position holding a delimiter, or the length. */
  function FirstDelim(s: string, d: string): (k: nat)
    ensures k <= |s|
    ensures forall i :: 0 <= i < k ==> s[i] !in d
    ensures k < |s| ==> s[k] in d
  {
    if s == [] || s[0] in d then 0 else 1 + FirstDelim(s[1..], d)
  }

  /** The fields between delimiters, empty ones included. */
  function Split(s: string, d: string): (r: seq<string>)
    ensures r != []
  {
    var k := FirstDelim(s, d);
    if k == |s| then [s] else [s[..k]] + Split(s[k + 1..], d)
  }

  function NonEmpty(fields: seq<string>): seq<string> {
    if fields == [] then []
    else (if fields[0] == [] then [] else [fields[0]]) + NonEmpty(fields[1..])
  }

  function DropTrailingEmpty(fields: seq<string>): seq<string> {
    if fields != [] && fields[|fields| - 1] == [] then fields[..|fields| - 1] else fields
  }

  /** Skipping leading delimiters: the maximal delimiter-free runs. Not skipping: the
    * delimiter-terminated fields, without a trailing empty one. */
  function Tokens(s: string, d: string, skip: bool): seq<string> {
    if skip then NonEmpty(Split(s, d)) else DropTrailingEmpty(Split(s, d))
  }

  // --------------------------------------------------------------- C strings

  /** The C string at `p` ends inside the buffer. */
  predicate Terminated(b: seq<char>, p: nat) { exists k :: p <= k < |b| && b[k] == NUL }

  function End(b: seq<char>, p: nat): (e: nat)
    requires Terminated(b, p)
    ensures p <= e < |b| && b[e] == NUL
    decreases |b| - p
  {
    if b[p] == NUL then p else End(b, p + 1)
  }

  lemma EndMeans(b: seq<char>, p: nat)
    requires Terminated(b, p)
    ensures forall k :: p <= k < End(b, p) ==> b[k] != NUL
    decreases |b| - p
  {
    if b[p] != NUL {
      EndMeans(b, p + 1);
    }
  }

  function CString(b: seq<char>, p: nat): string
    requires Terminated(b, p)
  {
    b[p..End(b, p)]
  }

  // ---------------------------------------------------------------- one call

  /** First position from `p` on that does not hold a delimiter. */
  function Span(b: seq<char>, p: nat, d: string): (q: nat)
    requires Delims(d) && Terminated(b, p)
    ensures p <= q <= End(b, p) && b[q] !in d
    decreases |b| - p
  {
    if b[p] in d then Span(b, p + 1, d) else p
  }

  lemma SpanMeans(b: seq<char>, p: nat, d: string)
    requires Delims(d) && Terminated(b, p)
    ensures forall k :: p <= k < Span(b, p, d) ==> b[k] in d
    decreases |b| - p
  {
    if b[p] in d {
      SpanMeans(b, p + 1, d);
    }
  }

  /** First position from `p` on that holds a delimiter or the terminator. */
  function Break(b: seq<char>, p: nat, d: string): (e: nat)
    requires Terminated(b, p)
    ensures p <= e <= End(b, p) && (b[e] in d || b[e] == NUL)
    decreases |b| - p
  {
    if b[p] in d || b[p] == NUL then p else Break(b, p + 1, d)
  }

  lemma BreakMeans(b: seq<char>, p: nat, d: string)
    requires Terminated(b, p)
    ensures forall k :: p <= k < Break(b, p, d) ==> b[k] !in d && b[k] != NUL
    decreases |b| - p
  {
    if b[p] !in d && b[p] != NUL {
      BreakMeans(b, p + 1, d);
    }
  }

  /** Buffer afterwards, token returned, and `*lasts`; NULL pointers are `None`. */
  datatype Call = Call(buf: seq<char>, tok: Option<nat>, lasts: Option<nat>)

  function Strtok(b: seq<char>, p: nat, d: string, skip: bool): Call
    requires Delims(d) && Terminated(b, p)
  {
    if !skip && b[p] in d then Call(b[p := NUL], Some(p), Some(p + 1))
    else
      var q := Span(b, p, d);
      if b[q] == NUL then Call(b, None, None)
      else
        TerminatedAfter(b, p, q);
        var e := Break(b, q, d);
        if b[e] == NUL then Call(b, Some(q), None) else Call(b[e := NUL], Some(q), Some(e + 1))
  }

  lemma TerminatedAfter(b: seq<char>, p: nat, q: nat)
    requires Terminated(b, p) && p <= q <= End(b, p)
    ensures Terminated(b, q) && End(b, q) == End(b, p)
  {
    EndMeans(b, p);
    EndUnique(b, q, End(b, p));
  }

  lemma EndUnique(b: seq<char>, p: nat, e: nat)
    requires p <= e < |b| && b[e] == NUL && forall k :: p <= k < e ==> b[k] != NUL
    ensures Terminated(b, p) && End(b, p) == e
    decreases e - p
  {
    if p < e {
      EndUnique(b, p + 1, e);
    }
  }

  /** The rest of the string is untouched by a call. */
  lemma CallRest(b: seq<char>, p: nat, d: string, skip: bool)
    requires Delims(d) && Terminated(b, p)
    ensures var c := Strtok(b, p, d, skip);
            && |c.buf| == |b|
            && (c.lasts.Some? ==>
                  && c.tok.Some? && p < c.lasts.value <= End(b, p)
                  && c.buf[c.lasts.value..] == b[c.lasts.value..]
                  && Terminated(c.buf, c.lasts.value) && End(c.buf, c.lasts.value) == End(b, p))
  {
    var c := Strtok(b, p, d, skip);
    EndMeans(b, p);
    if c.lasts.Some? {
      TerminatedAfter(b, p, Span(b, p, d));
      EndUnique(c.buf, c.lasts.value, End(b, p));
    }
  }

  // ---------------------------------------------------------- repeated calls

  /** All tokens of repeated calls from `p` on, and the buffer they leave. */
  function Drain(b: seq<char>, p: nat, d: string, skip: bool): (r: (seq<char>, seq<nat>))
    requires Delims(d) && Terminated(b, p)
    decreases |b| - p
  {
    CallRest(b, p, d, skip);
    var c := Strtok(b, p, d, skip);
    if c.tok.None? then (c.buf, [])
    else if c.lasts.None? then (c.buf, [c.tok.value])
    else
      var (b', toks) := Drain(c.buf, c.lasts.value, d, skip);
      (b', [c.tok.value] + toks)
  }

  /** Only delimiters inside the string change, and only into NUL. */
  predicate OnlyDelimsCut(b: seq<char>, b': seq<char>, p: nat, e: nat, d: string) {
    && |b'| == |b|
    && forall k :: 0 <= k < |b| ==> b'[k] == b[k] || (p <= k < e && b[k] in d && b'[k] == NUL)
  }

  lemma {:induction false} DrainCuts(b: seq<char>, p: nat, d: string, skip: bool)
    requires Delims(d) && Terminated(b, p)
    ensures OnlyDelimsCut(b, Drain(b, p, d, skip).0, p, End(b, p), d)
    decreases |b| - p
  {
    CallRest(b, p, d, skip);
    var c := Strtok(b, p, d, skip);
    if c.tok.Some? && c.lasts.Some? {
      DrainCuts(c.buf, c.lasts.value, d, skip);
    }
  }

  // ------------------------------------------------------- splitting lemmas

  lemma FirstDelimAt(s: string, d: string, k: nat)
    requires k <= |s| && (forall i :: 0 <= i < k ==> s[i] !in d) && (k < |s| ==> s[k] in d)
    ensures FirstDelim(s, d) == k
  {
  }

  /** A leading delimiter only contributes an empty field. */
  lemma SplitDelim(s: string, d: string)
    requires s != [] && s[0] in d
    ensures Split(s, d) == [[]] + Split(s[1..], d)
  {
    FirstDelimAt(s, d, 0);
    assert s[..0] == [];
  }

  /** A delimiter-free run is one field. */
  lemma SplitRun(s: string, d: string, k: nat)
    requires k <= |s| && (forall i :: 0 <= i < k ==> s[i] !in d) && (k < |s| ==> s[k] in d)
    ensures Split(s, d) == if k == |s| then [s] else [s[..k]] + Split(s[k + 1..], d)
  {
    FirstDelimAt(s, d, k);
  }

  lemma {:induction false} SkipDelims(s: string, d: string, k: nat)
    requires k <= |s| && forall i :: 0 <= i < k ==> s[i] in d
    ensures NonEmpty(Split(s, d)) == NonEmpty(Split(s[k..], d))
  {
    if k == 0 {
      assert s[0..] == s;
    } else {
      SplitDelim(s, d);
      var f := Split(s, d);
      assert f[0] == [] && f[1..] == Split(s[1..], d);
      SkipDelims(s[1..], d, k - 1);
      assert s[1..][k - 1..] == s[k..];
    }
  }

  lemma TokensRun(s: string, d: string, skip: bool, k: nat)
    requires 0 < k <= |s| && (forall i :: 0 <= i < k ==> s[i] !in d) && (k < |s| ==> s[k] in d)
    ensures Tokens(s, d, skip) == if k == |s| then [s] else [s[..k]] + Tokens(s[k + 1..], d, skip)
  {
    SplitRun(s, d, k);
    if k == |s| {
      assert NonEmpty([s]) == [s];
    } else {
      var f := Split(s, d);
      assert f[0] == s[..k] && f[1..] == Split(s[k + 1..], d);
      Trailing(s[..k], Split(s[k + 1..], d));
    }
  }

  lemma Trailing(f: string, rest: seq<string>)
    requires rest != []
    ensures DropTrailingEmpty([f] + rest) == [f] + DropTrailingEmpty(rest)
  {
    var all := [f] + rest;
    assert all[|all| - 1] == rest[|rest| - 1];
    assert all[..|all| - 1] == [f] + rest[..|rest| - 1];
  }

  /** The text of each token, read as a C string from the final buffer. */
  predicate Reads(b: seq<char>, toks: seq<nat>, texts: seq<string>) {
    && |toks| == |texts|
    && forall i :: 0 <= i < |toks| ==> Terminated(b, toks[i]) && CString(b, toks[i]) == texts[i]
  }

  lemma ReadsCons(b: seq<char>, t: nat, text: string, toks: seq<nat>, texts: seq<string>)
    requires Terminated(b, t) && CString(b, t) == text && Reads(b, toks, texts)
    ensures Reads(b, [t] + toks, [text] + texts)
  {
  }

  /** A token cut off at `e` reads as itself once later calls are done. */
  lemma TokenReads(b: seq<char>, b': seq<char>, q: nat, e: nat)
    requires q <= e < |b| == |b'| && (forall k :: q <= k < e ==> b[k] != NUL && b'[k] == b[k]) && b'[e] == NUL
    ensures Terminated(b', q) && CString(b', q) == b[q..e]
  {
    EndUnique(b', q, e);
    assert b'[q..e] == b[q..e];
  }

  /** Leading delimiters gone, what is left of the string has the same tokens. */
  lemma TokensAfterSpan(b: seq<char>, p: nat, d: string, skip: bool)
    requires Delims(d) && Terminated(b, p) && (skip || b[p] !in d)
    ensures var q, e := Span(b, p, d), End(b, p);
            Tokens(b[p..e], d, skip) == Tokens(b[q..e], d, skip)
  {
    var q, e := Span(b, p, d), End(b, p);
    SpanMeans(b, p, d);
    if skip {
      SkipDelims(b[p..e], d, q - p);
      assert b[p..e][q - p..] == b[q..e];
    }
  }

  /** One call takes the first token off the string: it reads as a C string at the
    * returned pointer, in front of where the next call resumes, and what is left there
    * are the other tokens. */
  lemma CallTakesFirst(b: seq<char>, p: nat, d: string, skip: bool)
    requires Delims(d) && Terminated(b, p)
    ensures var c, ts := Strtok(b, p, d, skip), Tokens(CString(b, p), d, skip);
            && (c.tok.None? <==> ts == [])
            && (c.tok.Some? ==> Terminated(c.buf, c.tok.value) && CString(c.buf, c.tok.value) == ts[0])
            && (c.tok.Some? && c.lasts.None? ==> |ts| == 1)
            && (c.lasts.Some? ==>
                  && c.tok.Some? && End(c.buf, c.tok.value) < c.lasts.value
                  && Terminated(c.buf, c.lasts.value)
                  && ts[1..] == Tokens(CString(c.buf, c.lasts.value), d, skip))
  {
    hide Tokens, Span, Break, End;
    CallRest(b, p, d, skip);
    EndMeans(b, p);
    var s, e, c := CString(b, p), End(b, p), Strtok(b, p, d, skip);
    if !skip && b[p] in d {
      TokenReads(b, c.buf, p, p);
      EndUnique(c.buf, p, p);
      assert CString(c.buf, p + 1) == s[1..];
      EmptyField(s, d);
    } else {
      TokensAfterSpan(b, p, d, skip);
      var q := Span(b, p, d);
      if b[q] == NUL {
        NoTokens(d, skip);
        assert b[q..e] == [];
      } else {
        TerminatedAfter(b, p, q);
        TokensOfRun(b, q, e, d, skip);
        RunReads(b, q, e, d, c.buf);
      }
    }
  }

  /** A run reads as a C string, and the rest behind it is the rest of the string. */
  lemma RunReads(b: seq<char>, q: nat, e: nat, d: string, b': seq<char>)
    requires Terminated(b, q) && End(b, q) == e
    requires b' == if b[Break(b, q, d)] == NUL then b else b[Break(b, q, d) := NUL]
    ensures var cut := Break(b, q, d);
            && (b[cut] == NUL <==> cut == e)
            && Terminated(b', q) && End(b', q) == cut && CString(b', q) == b[q..cut]
            && (cut < e ==> Terminated(b', cut + 1) && CString(b', cut + 1) == b[cut + 1..e])
  {
    hide End, Break;
    var cut := Break(b, q, d);
    EndMeans(b, q);
    BreakMeans(b, q, d);
    EndUnique(b', q, cut);
    assert b'[q..cut] == b[q..cut];
    if cut < e {
      EndUnique(b', cut + 1, e);
      assert b'[cut + 1..e] == b[cut + 1..e];
    }
  }

  lemma {:induction false} DrainExact(b: seq<char>, p: nat, d: string, skip: bool)
    requires Delims(d) && Terminated(b, p)
    ensures Reads(Drain(b, p, d, skip).0, Drain(b, p, d, skip).1, Tokens(CString(b, p), d, skip))
    decreases |b| - p
  {
    hide Tokens, Reads, End, Strtok;
    CallRest(b, p, d, skip);
    CallTakesFirst(b, p, d, skip);
    var ts, c := Tokens(CString(b, p), d, skip), Strtok(b, p, d, skip);
    if c.tok.None? {
      NoTokens(d, skip);
    } else if c.lasts.None? {
      OneReads(c.buf, c.tok.value);
      assert ts == [ts[0]];
    } else {
      var (b', toks) := Drain(c.buf, c.lasts.value, d, skip);
      DrainExact(c.buf, c.lasts.value, d, skip);
      DrainCuts(c.buf, c.lasts.value, d, skip);
      EndMeans(c.buf, c.tok.value);
      TokenReads(c.buf, b', c.tok.value, End(c.buf, c.tok.value));
      ReadsCons(b', c.tok.value, ts[0], toks, ts[1..]);
      assert ts == [ts[0]] + ts[1..];
    }
  }

  lemma EmptyField(s: string, d: string)
    requires s != [] && s[0] in d
    ensures Tokens(s, d, false) == [[]] + Tokens(s[1..], d, false)
  {
    SplitDelim(s, d);
    Trailing([], Split(s[1..], d));
  }

  lemma NoTokens(d: string, skip: bool)
    ensures Tokens([], d, skip) == [] && forall b: seq<char> :: Reads(b, [], [])
  {
    assert Split([], d) == [[]];
    assert NonEmpty([[]]) == [];
  }

  /** The tokens of a string that starts with a run. */
  lemma TokensOfRun(b: seq<char>, q: nat, e: nat, d: string, skip: bool)
    requires Terminated(b, q) && e == End(b, q) && b[q] !in d && b[q] != NUL
    ensures var cut := Break(b, q, d);
            Tokens(b[q..e], d, skip)
            == if cut == e then [b[q..e]] else [b[q..cut]] + Tokens(b[cut + 1..e], d, skip)
  {
    hide Tokens, End;
    var cut := Break(b, q, d);
    BreakMeans(b, q, d);
    EndMeans(b, q);
    TokensRun(b[q..e], d, skip, cut - q);
    assert b[q..e][..cut - q] == b[q..cut];
    if cut < e {
      assert b[q..e][cut - q + 1..] == b[cut + 1..e];
    }
  }

  lemma OneReads(b: seq<char>, q: nat)
    requires Terminated(b, q)
    ensures Reads(b, [q], [CString(b, q)])
  {
  }

  /** Repeated calls end, and return in order exactly the tokens of the string, each
    * readable as a C string in the final buffer, in which nothing but delimiters of
    * that string has changed, and those only into NUL. */
  lemma RepeatedCallsTokenize(b: seq<char>, p: nat, d: string, skip: bool)
    requires Delims(d) && Terminated(b, p)
    ensures var (b', toks) := Drain(b, p, d, skip);
            && Reads(b', toks, Tokens(CString(b, p), d, skip))
            && OnlyDelimsCut(b, b', p, End(b, p), d)
  {
    DrainExact(b, p, d, skip);
    DrainCuts(b, p, d, skip);
  }

  // --------------------------------------------- what the reference itself means

  /** Fields and delimiters together are the whole string: joined back with the
    * delimiters they were split at, they give it back. */
  lemma {:induction false} SplitLosesNothing(s: string, d: string)
    ensures Rejoined(Split(s, d), s, d) && forall i :: 0 <= i < |Split(s, d)| ==> NoDelim(Split(s, d)[i], d)
  {
    var k := FirstDelim(s, d);
    if k < |s| {
      SplitLosesNothing(s[k + 1..], d);
      var f := Split(s, d);
      assert f[0] == s[..k] && f[1..] == Split(s[k + 1..], d);
    }
  }

  /** There is no other way to cut the string at delimiters into delimiter-free fields. */
  lemma {:induction false} SplitUnique(fields: seq<string>, s: string, d: string)
    requires Rejoined(fields, s, d) && forall i :: 0 <= i < |fields| ==> NoDelim(fields[i], d)
    ensures fields == Split(s, d)
    decreases |fields|
  {
    hide Split, FirstDelim;
    var k := |fields[0]|;
    if |fields| == 1 {
      SplitRun(s, d, k);
    } else {
      assert forall i :: 0 <= i < k ==> s[i] == s[..k][i];
      SplitRun(s, d, k);
      SplitUnique(fields[1..], s[k + 1..], d);
    }
  }

  predicate NoDelim(f: string, d: string) { forall i :: 0 <= i < |f| ==> f[i] !in d }

  /** `s` is the fields in order, one delimiter between each two. */
  predicate Rejoined(fields: seq<string>, s: string, d: string)
    decreases |fields|
  {
    if |fields| == 0 then false
    else if |fields| == 1 then s == fields[0]
    else
      && |fields[0]| < |s| && s[..|fields[0]|] == fields[0] && s[|fields[0]|] in d
      && Rejoined(fields[1..], s[|fields[0]| + 1..], d)
  }
}
