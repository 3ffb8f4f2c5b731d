/** Command registration and dispatch of `shell.c`, on top of the tokenizer. */
module Shell {
  import opened Basics
  import S = StrtokSpec
  import Strtok

  const BUF_SIZE: nat := 40
  const MAX_ARGS: nat := 10
  const DELIMS: string := " \t\n"

  const E_OK: int := 0
  const E_CMD_TOO_LONG: int := 1
  const E_CMD_IS_NULL: int := 2
  const E_NO_SUCH_CMD: int := 3

  /** A command function sees the texts of its arguments; its result is all the shell
    * uses of it. */
  datatype Command = Command(name: string, func: seq<string> -> int)

  /** The help command returns 0 whatever it prints. */
  const HELP: Command := Command("help", (argv: seq<string>) => 0)

  /** Status and `*cmdRv`, or the stop at the argument-count assertion. */
  datatype Outcome = Returned(status: int, rv: int) | AssertionFailed

  /** Which registered command was called, with which argument texts. */
  datatype Invocation = Invocation(index: nat, argv: seq<string>)

  predicate IsFirstNamed(cmds: seq<Command>, name: string, i: nat) {
    && i < |cmds| && cmds[i].name == name
    && forall j :: 0 <= j < i ==> cmds[j].name != name
  }

  /** What a line should do, said without the buffer: the rule the method meets. */
  ghost predicate Dispatches(cmds: seq<Command>, line: Option<string>, o: Outcome, call: Option<Invocation>) {
    if line.None? then o == Returned(E_CMD_IS_NULL, 1) && call.None?
    else if |line.value| >= BUF_SIZE then o == Returned(E_CMD_TOO_LONG, 1) && call.None?
    else
      var argv := S.Tokens(line.value, DELIMS, true);
      if argv == [] then o == Returned(E_CMD_IS_NULL, 1) && call.None?
      else if forall i :: 0 <= i < |cmds| ==> cmds[i].name != argv[0] then
        o == Returned(E_NO_SUCH_CMD, 1) && call.None?
      else if |argv| > MAX_ARGS then o == AssertionFailed && call.None?
      else
        && call.Some? && IsFirstNamed(cmds, argv[0], call.value.index) && call.value.argv == argv
        && o == Returned(E_OK, cmds[call.value.index].func(argv))
  }

  function Texts(b: seq<char>, toks: seq<nat>): (r: seq<string>)
    requires forall i :: 0 <= i < |toks| ==> S.Terminated(b, toks[i])
    ensures S.Reads(b, toks, r)
  {
    seq(|toks|, i requires 0 <= i < |toks| => S.CString(b, toks[i]))
  }

  /** Tokens still to come, from where `*lasts` points. */
  ghost function Pending(b: seq<char>, lasts: Option<nat>): (r: (seq<char>, seq<nat>))
    requires lasts.Some? ==> S.Terminated(b, lasts.value)
  {
    if lasts.None? then (b, []) else S.Drain(b, lasts.value, DELIMS, true)
  }

  lemma ReadsUnique(b: seq<char>, toks: seq<nat>, t1: seq<string>, t2: seq<string>)
    requires S.Reads(b, toks, t1) && S.Reads(b, toks, t2)
    ensures t1 == t2
  {
  }

  class Shell {
    var initialized: bool
    var cmds: seq<Command>
    const cmdBuf: array<char>

    ghost predicate Valid() reads this {
      cmdBuf.Length == BUF_SIZE && (!initialized ==> cmds == [])
    }

    constructor ()
      ensures Valid() && !initialized && fresh(cmdBuf)
    {
      initialized, cmds := false, [];
      cmdBuf := new char[BUF_SIZE];
    }

    /** Starts the list over: only the help command is left. */
    method Init()
      requires Valid()
      modifies this
      ensures Valid() && initialized && cmds == [HELP]
      ensures cmds[0].name == "help" && forall argv :: cmds[0].func(argv) == 0
      decreases 1
    {
      initialized := true;
      cmds := [];
      AddCmd(HELP);
    }

    method AddCmd(c: Command)
      requires Valid()
      modifies this
      ensures Valid() && initialized
      ensures cmds == (if old(initialized) then old(cmds) else [HELP]) + [c]
      decreases if initialized then 0 else 2
    {
      if !initialized {
        Init();
      }
      cmds := cmds + [c];
    }

    method RunCmd(line: Option<string>) returns (o: Outcome, call: Option<Invocation>)
      requires Valid() && (line.Some? ==> S.NUL !in line.value)
      modifies cmdBuf
      ensures Valid() && Dispatches(cmds, line, o, call)
      ensures line.None? ==> o == Returned(2, 1)
    {
      if line.None? { return Returned(E_CMD_IS_NULL, 1), None; }
      if BUF_SIZE < |line.value| + 1 { return Returned(E_CMD_TOO_LONG, 1), None; }
      Copy(line.value);
      ghost var b, ts := cmdBuf[..], S.Tokens(line.value, DELIMS, true);
      S.CallRest(b, 0, DELIMS, true);
      S.CallTakesFirst(b, 0, DELIMS, true);
      var cmdStr, rest := Strtok.StrtokR(cmdBuf, Some(0), DELIMS, None, true);
      if cmdStr.None? { return Returned(E_CMD_IS_NULL, 1), None; }
      var k := Search(S.CString(cmdBuf[..], cmdStr.value));
      if k == |cmds| { return Returned(E_NO_SUCH_CMD, 1), None; }
      var argv, tooMany := Collect(cmdStr.value, rest);
      S.RepeatedCallsTokenize(b, 0, DELIMS, true);
      if tooMany { return AssertionFailed, None; }
      var args := Texts(cmdBuf[..], argv);
      ReadsUnique(cmdBuf[..], argv, args, ts);
      return Returned(E_OK, cmds[k].func(args)), Some(Invocation(k, args));
    }

    /** The copy into a buffer that may be cut up. */
    method Copy(line: string)
      requires Valid() && S.NUL !in line && |line| < BUF_SIZE
      modifies cmdBuf
      ensures S.Terminated(cmdBuf[..], 0) && S.CString(cmdBuf[..], 0) == line
    {
      for k := 0 to |line|
        invariant cmdBuf[..k] == line[..k]
      {
        cmdBuf[k] := line[k];
      }
      cmdBuf[|line|] := '\0';
      S.EndUnique(cmdBuf[..], 0, |line|);
      assert cmdBuf[..][0..|line|] == line;
    }

    /** First registered command of that name, or the end of the list. */
    method Search(name: string) returns (k: nat)
      ensures k <= |cmds|
      ensures if k < |cmds| then IsFirstNamed(cmds, name, k) else forall j :: 0 <= j < |cmds| ==> cmds[j].name != name
    {
      k := 0;
      while k < |cmds| && cmds[k].name != name
        invariant k <= |cmds| && forall j :: 0 <= j < k ==> cmds[j].name != name
      {
        k := k + 1;
      }
    }

    /** Fills argv behind the command name, until the tokens or the places run out. */
    method Collect(first: nat, lasts: Option<nat>) returns (argv: seq<nat>, tooMany: bool)
      requires Valid() && (lasts.Some? ==> S.Terminated(cmdBuf[..], lasts.value))
      modifies cmdBuf
      ensures var (b', toks) := old(Pending(cmdBuf[..], lasts));
              && (tooMany <==> 1 + |toks| > MAX_ARGS)
              && (!tooMany ==> argv == [first] + toks && cmdBuf[..] == b')
    {
      hide Pending, S.Strtok;
      ghost var D := Pending(cmdBuf[..], lasts);
      argv, tooMany := [first], false;
      PendingCall(cmdBuf[..], lasts);
      var arg, rest := Strtok.StrtokR(cmdBuf, None, DELIMS, lasts, true);
      while arg.Some?
        invariant |argv| <= MAX_ARGS
        invariant rest.Some? ==> S.Terminated(cmdBuf[..], rest.value)
        invariant arg.None? ==> [first] + D.1 == argv && D.0 == cmdBuf[..]
        invariant arg.Some? ==> && [first] + D.1 == argv + [arg.value] + Pending(cmdBuf[..], rest).1
                                && D.0 == Pending(cmdBuf[..], rest).0
        decreases if arg.None? then 0 else if rest.None? then 1 else 2 + BUF_SIZE - rest.value
      {
        if |argv| >= MAX_ARGS { return argv, true; }
        argv := argv + [arg.value];
        PendingCall(cmdBuf[..], rest);
        arg, rest := Strtok.StrtokR(cmdBuf, None, DELIMS, rest, true);
      }
    }
  }

  /** The next call takes the next pending token. */
  lemma PendingCall(b: seq<char>, lasts: Option<nat>)
    requires lasts.Some? ==> S.Terminated(b, lasts.value)
    ensures lasts.None? ==> Pending(b, lasts) == (b, [])
    ensures lasts.Some? ==>
              var c := S.Strtok(b, lasts.value, DELIMS, true);
              && |c.buf| == |b|
              && (c.lasts.Some? ==>
                    && c.tok.Some? && lasts.value < c.lasts.value < |b|
                    && S.Terminated(c.buf, c.lasts.value))
              && (c.tok.None? ==> Pending(b, lasts) == (c.buf, []))
              && (c.tok.Some? ==>
                    var (b', rest) := Pending(c.buf, c.lasts);
                    Pending(b, lasts) == (b', [c.tok.value] + rest))
  {
    if lasts.Some? {
      S.CallRest(b, lasts.value, DELIMS, true);
      var c := S.Strtok(b, lasts.value, DELIMS, true);
      if c.tok.Some? && c.lasts.None? {
        assert [c.tok.value] + [] == [c.tok.value];
      }
    }
  }

  // ------------------------------------------------------------- what it is for

  /** Words with one delimiter between each two. */
  function Joined(words: seq<string>): string
    requires words != []
  {
    if |words| == 1 then words[0] else words[0] + " " + Joined(words[1..])
  }

  predicate Words(words: seq<string>) {
    words != [] && forall i :: 0 <= i < |words| ==> words[i] != [] && S.NoDelim(words[i], DELIMS)
  }

  lemma {:induction false} JoinedRejoins(words: seq<string>)
    requires Words(words)
    ensures S.Rejoined(words, Joined(words), DELIMS)
  {
    if |words| > 1 {
      var s, k := Joined(words), |words[0]|;
      assert s[..k] == words[0] && s[k] == ' ' && s[k + 1..] == Joined(words[1..]);
      JoinedRejoins(words[1..]);
    }
  }

  lemma {:induction false} NonEmptyWords(words: seq<string>)
    requires forall i :: 0 <= i < |words| ==> words[i] != []
    ensures S.NonEmpty(words) == words
  {
    if words != [] {
      NonEmptyWords(words[1..]);
    }
  }

  /** A line of words separated by single blanks reaches the command named first as
    * exactly those words: dispatch undoes the joining. */
  lemma JoinedWordsArrive(cmds: seq<Command>, words: seq<string>, o: Outcome, call: Option<Invocation>)
    requires Words(words) && |words| <= MAX_ARGS && |Joined(words)| < BUF_SIZE
    requires Dispatches(cmds, Some(Joined(words)), o, call)
    ensures S.Tokens(Joined(words), DELIMS, true) == words
    ensures if exists i :: 0 <= i < |cmds| && cmds[i].name == words[0]
            then call.Some? && call.value.argv == words && IsFirstNamed(cmds, words[0], call.value.index)
            else call.None? && o == Returned(E_NO_SUCH_CMD, 1)
  {
    JoinedRejoins(words);
    S.SplitUnique(words, Joined(words), DELIMS);
    NonEmptyWords(words);
  }

  /** Blanks, tabs and line ends. */
  predicate Space(g: string) { forall i :: 0 <= i < |g| ==> g[i] == ' ' || g[i] == '\t' || g[i] == '\n' }

  predicate Word(w: string) { w != "" && forall i :: 0 <= i < |w| ==> w[i] !in {' ', '\t', '\n'} }

  /** Words, each with the space behind it, which only the last may lack. */
  predicate Spacing(words: seq<string>, gaps: seq<string>) {
    && |gaps| == |words|
    && forall i :: 0 <= i < |words| ==> Word(words[i]) && Space(gaps[i]) && (i < |words| - 1 ==> gaps[i] != "")
  }

  function Spaced(words: seq<string>, gaps: seq<string>): string
    requires |gaps| == |words|
  {
    if words == [] then "" else words[0] + gaps[0] + Spaced(words[1..], gaps[1..])
  }

  lemma SpaceFirst(g: string, s: string)
    requires Space(g)
    ensures S.Tokens(g + s, DELIMS, true) == S.Tokens(s, DELIMS, true)
  {
    assert (g + s)[|g|..] == s;
    S.SkipDelims(g + s, DELIMS, |g|);
  }

  /** A word and the space behind it; at the end there may be none. */
  lemma WordFirst(w: string, g: string, rest: string)
    requires Word(w) && Space(g) && (g == "" ==> rest == "")
    ensures S.Tokens(w + g + rest, DELIMS, true) == [w] + S.Tokens(rest, DELIMS, true)
  {
    hide S.Tokens;
    var s := w + g + rest;
    assert s[..|w|] == w;
    WordHasNoDelims(w, s);
    if g == "" {
      assert s == w;
      S.NoTokens(DELIMS, true);
    } else {
      assert s[|w|] == g[0] && s[|w| + 1..] == g[1..] + rest;
      assert g[0] in DELIMS;
      SpaceFirst(g[1..], rest);
    }
    S.TokensRun(s, DELIMS, true, |w|);
  }

  lemma WordHasNoDelims(w: string, s: string)
    requires Word(w) && |w| <= |s| && s[..|w|] == w
    ensures forall i :: 0 <= i < |w| ==> s[i] !in DELIMS
  {
    assert forall i :: 0 <= i < |w| ==> s[i] == w[i];
  }

  lemma {:induction false} SpacedTokens(words: seq<string>, gaps: seq<string>)
    requires Spacing(words, gaps)
    ensures S.Tokens(Spaced(words, gaps), DELIMS, true) == words
  {
    hide S.Tokens, Word, Space;
    if words == [] {
      S.NoTokens(DELIMS, true);
    } else {
      SpacedTokens(words[1..], gaps[1..]);
      assert gaps[0] == "" ==> words[1..] == [];
      WordFirst(words[0], gaps[0], Spaced(words[1..], gaps[1..]));
    }
  }

  /** Any line at all is some words in some space: what becomes of it. Forty characters or
    * more are too long; a line without words counts as none; the first word names the
    * command; more than ten words stop at the assertion; and otherwise the first command
    * registered under that name gets exactly the words. */
  lemma LinesAreDispatched(cmds: seq<Command>, lead: string, words: seq<string>, gaps: seq<string>,
                           o: Outcome, call: Option<Invocation>)
    requires Space(lead) && Spacing(words, gaps)
    requires Dispatches(cmds, Some(lead + Spaced(words, gaps)), o, call)
    ensures if |lead + Spaced(words, gaps)| >= 40 then o == Returned(1, 1) && call.None?
            else if words == [] then o == Returned(2, 1) && call.None?
            else if forall i :: 0 <= i < |cmds| ==> cmds[i].name != words[0] then o == Returned(3, 1) && call.None?
            else if |words| > 10 then o == AssertionFailed && call.None?
            else
              && call.Some? && call.value.argv == words
              && var k := call.value.index;
                 && k < |cmds| && cmds[k].name == words[0] && o == Returned(0, cmds[k].func(words))
                 && forall j :: 0 <= j < k ==> cmds[j].name != words[0]
  {
    SpacedTokens(words, gaps);
    SpaceFirst(lead, Spaced(words, gaps));
  }

  lemma GrowWord(c: char, words: seq<string>, gaps: seq<string>)
    requires Spacing(words, gaps) && words != [] && c !in {' ', '\t', '\n'}
    ensures var words' := [[c] + words[0]] + words[1..];
            Spacing(words', gaps) && Spaced(words', gaps) == [c] + Spaced(words, gaps)
  {
    var words' := [[c] + words[0]] + words[1..];
    assert Word(words[0]) && Word(words'[0]);
    assert words'[1..] == words[1..];
    assert forall i :: 0 < i < |words| ==> words'[i] == words[i];
    assert [c] + words[0] + gaps[0] + Spaced(words[1..], gaps[1..]) == [c] + Spaced(words, gaps);
  }

  lemma NewWord(c: char, lead: string, words: seq<string>, gaps: seq<string>)
    requires Space(lead) && Spacing(words, gaps) && c !in {' ', '\t', '\n'} && (lead == "" ==> words == [])
    ensures Spacing([[c]] + words, [lead] + gaps)
    ensures Spaced([[c]] + words, [lead] + gaps) == [c] + lead + Spaced(words, gaps)
  {
    hide Space;
    var words', gaps' := [[c]] + words, [lead] + gaps;
    assert Word([c]);
    assert words'[1..] == words && gaps'[1..] == gaps;
    assert forall i :: 0 < i < |words'| ==> words'[i] == words[i - 1] && gaps'[i] == gaps[i - 1];
  }

  /** And that no line falls outside this description. */
  lemma {:induction false} EveryLineIsSpaced(line: string)
    returns (lead: string, words: seq<string>, gaps: seq<string>)
    ensures Space(lead) && Spacing(words, gaps) && line == lead + Spaced(words, gaps)
    decreases |line|
  {
    hide Spacing, Spaced;
    if line == "" {
      lead, words, gaps := "", [], [];
      NoWords();
    } else {
      lead, words, gaps := EveryLineIsSpaced(line[1..]);
      SpacingMeans(words, gaps);
      var c := line[0];
      assert line == [c] + (lead + Spaced(words, gaps));
      assert [c] + (lead + Spaced(words, gaps)) == [c] + lead + Spaced(words, gaps);
      if c in {' ', '\t', '\n'} {
        lead := [c] + lead;
      } else if lead == "" && words != [] {
        GrowWord(c, words, gaps);
        words := [[c] + words[0]] + words[1..];
      } else {
        NewWord(c, lead, words, gaps);
        lead, words, gaps := "", [[c]] + words, [lead] + gaps;
      }
    }
  }

  lemma NoWords()
    ensures Spacing([], []) && Spaced([], []) == ""
  {
  }

  lemma SpacingMeans(words: seq<string>, gaps: seq<string>)
    requires Spacing(words, gaps)
    ensures |words| == |gaps|
  {
  }
}
