/** What `parseAndExecuteCommand` decides for a command line: the command named by the
    lowercased first token, with the argument count and the size checked and the size
    clamped. The hardware side of each command is in `Execution`. */
module Commands {
  import opened CString
  import opened Tokenizer
  import Numbers
  import Config

  /** The outcome of one command line. `ReadQspi` carries the address `strtoul` read
      and the size after clamping; `Usage`, `InvalidSize`, `Help` and `Unknown` are the
      replies that only print text. */
  datatype Command =
    | NoCommand
    | ReadId
    | ReadQspi(address: nat, size: nat)
    | PageRead
    | Help
    | Usage
    | InvalidSize
    | Unknown

  /** The decision on the collected tokens `argv`. */
  function Dispatch(argv: seq<seq<char>>): (c: Command)
    ensures c == NoCommand <==> argv == []
    ensures c.ReadQspi? ==> c.address <= Numbers.ULONG_MAX && 1 <= c.size <= Config.BUFFER_SIZE
  {
    if |argv| == 0 then NoCommand
    else
      var name := ToLower(argv[0]);
      if name == "readid" then ReadId
      else if name == "readqspibytes" then
        if |argv| == 3 then
          var size := Numbers.AtoI(argv[2]);
          if size <= 0 then InvalidSize
          else ReadQspi(Numbers.StrToUL(argv[1]), if size > Config.BUFFER_SIZE then Config.BUFFER_SIZE else size)
        else Usage
      else if name == "pageread" then PageRead
      else if name == "help" then Help
      else Unknown
  }

  /** The tokens the `strtok` loop collects: the first `MAX_ARGS` of the line. */
  function Args(line: seq<char>): (argv: seq<seq<char>>)
    ensures |argv| == if |Tokens(line)| < MAX_ARGS then |Tokens(line)| else MAX_ARGS
    ensures argv == Tokens(line)[..|argv|]
  {
    var t := Tokens(line);
    if |t| < MAX_ARGS then t else t[..MAX_ARGS]
  }

  /** `parseAndExecuteCommand(line)`, as a decision. */
  function Interpret(line: seq<char>): (c: Command)
    ensures c == NoCommand <==> Tokens(line) == []
    ensures c.ReadQspi? ==> c.address <= Numbers.ULONG_MAX && 1 <= c.size <= Config.BUFFER_SIZE
  {
    Dispatch(Args(line))
  }

  // ---------------------------------------------------------------------------
  // What the decision depends on
  // ---------------------------------------------------------------------------

  /** No tokens, no action; a name none of the four spellings matches is unknown;
      `readqspibytes` needs exactly three tokens and a positive size; a read request
      carries the parsed address and a size in 1..`BUFFER_SIZE`. */
  lemma DispatchCases(argv: seq<seq<char>>)
    ensures Dispatch(argv) == NoCommand <==> argv == []
    ensures Dispatch(argv) == Unknown <==>
      |argv| > 0 && ToLower(argv[0]) !in {"readid", "readqspibytes", "pageread", "help"}
    ensures Dispatch(argv) == Usage <==>
      |argv| > 0 && ToLower(argv[0]) == "readqspibytes" && |argv| != 3
    ensures Dispatch(argv) == InvalidSize <==>
      |argv| == 3 && ToLower(argv[0]) == "readqspibytes" && Numbers.AtoI(argv[2]) <= 0
    ensures Dispatch(argv).ReadQspi? <==>
      |argv| == 3 && ToLower(argv[0]) == "readqspibytes" && Numbers.AtoI(argv[2]) > 0
    ensures Dispatch(argv).ReadQspi? ==>
      var size := Numbers.AtoI(argv[2]);
      Dispatch(argv).address == Numbers.StrToUL(argv[1]) && Dispatch(argv).address <= Numbers.ULONG_MAX &&
      1 <= Dispatch(argv).size <= Config.BUFFER_SIZE &&
      Dispatch(argv).size == if size > Config.BUFFER_SIZE then Config.BUFFER_SIZE else size
  {
  }

  /** Only the lowercased name counts: names that differ in case only do the same. */
  lemma DispatchCaseInsensitive(t: seq<char>, u: seq<char>, rest: seq<seq<char>>)
    requires ToLower(t) == ToLower(u)
    ensures Dispatch([t] + rest) == Dispatch([u] + rest)
  {
    assert ([t] + rest)[1..] == rest == ([u] + rest)[1..];
  }

  /** Lowercasing `argv[0]` in place before the comparison changes nothing. */
  lemma DispatchLowered(argv: seq<seq<char>>)
    requires |argv| > 0
    ensures Dispatch([ToLower(argv[0])] + argv[1..]) == Dispatch(argv)
  {
    ToLowerSpec(argv[0]);
    assert [argv[0]] + argv[1..] == argv;
    DispatchCaseInsensitive(ToLower(argv[0]), argv[0], argv[1..]);
  }

  /** A line does nothing exactly when it has no token. */
  lemma InterpretEmpty(line: seq<char>)
    ensures Interpret(line) == NoCommand <==> Tokens(line) == []
  {
    DispatchCases(Args(line));
  }

  /** A line trimmed to something non-empty starts with a token, so it always reaches
      the name comparison. */
  lemma TrimmedHasCommand(s: seq<char>)
    requires Trim(s) != []
    ensures Tokens(Trim(s)) != [] && Interpret(Trim(s)) != NoCommand
  {
    var t := Trim(s);
    TrimSpec(s);
    assert !IsSpace(t[0]);
    assert SkipFrom(t, 0) == 0;
    InterpretEmpty(t);
  }

  /** Words joined by spaces are dispatched as those words, at most `MAX_ARGS` of them. */
  lemma InterpretJoin(ws: seq<seq<char>>)
    requires forall k :: 0 <= k < |ws| ==> IsWord(ws[k])
    ensures Interpret(Join(ws)) == Dispatch(if |ws| < MAX_ARGS then ws else ws[..MAX_ARGS])
  {
    TokensJoin(ws);
  }

  lemma RenderedIsWord(n: nat, base: nat, prefix: seq<char>)
    requires 2 <= base <= 16 && forall k :: 0 <= k < |prefix| ==> '0' <= prefix[k] <= 'x'
    ensures IsWord(prefix + Numbers.Render(n, base))
  {
    var d := Numbers.Render(n, base);
    Numbers.RenderValue(n, base);
    forall m | 0 <= m < |prefix + d|
      ensures !IsDelim((prefix + d)[m])
    {
      if m >= |prefix| {
        assert (prefix + d)[m] == d[m - |prefix|];
        assert Numbers.IsDigit(d[m - |prefix|], base);
      }
    }
  }

  /** A `readqspibytes` line with a hexadecimal address and a decimal size: the address
      comes through unchanged, a size of 0 is invalid and a size above the buffer is
      clamped. */
  lemma ReadQspiLine(name: seq<char>, address: nat, size: nat)
    requires IsWord(name) && ToLower(name) == "readqspibytes"
    requires address <= Numbers.ULONG_MAX && size < 0x8000
    ensures Interpret(Join([name, "0x" + Numbers.Render(address, 16), Numbers.Render(size, 10)])) ==
      if size == 0 then InvalidSize
      else ReadQspi(address, if size > Config.BUFFER_SIZE then Config.BUFFER_SIZE else size)
  {
    var ws := [name, "0x" + Numbers.Render(address, 16), Numbers.Render(size, 10)];
    RenderedIsWord(address, 16, "0x");
    RenderedIsWord(size, 10, []);
    assert [] + Numbers.Render(size, 10) == Numbers.Render(size, 10);
    InterpretJoin(ws);
    Numbers.StrToULHex(address);
    Numbers.AtoIDecimal(size);
  }

  /** `readqspibytes` with any other number of arguments only prints its usage. */
  lemma ReadQspiUsage(ws: seq<seq<char>>)
    requires forall k :: 0 <= k < |ws| ==> IsWord(ws[k])
    requires |ws| > 0 && ToLower(ws[0]) == "readqspibytes" && |ws| != 3
    ensures Interpret(Join(ws)) == Usage
  {
    InterpretJoin(ws);
    var argv := if |ws| < MAX_ARGS then ws else ws[..MAX_ARGS];
    DispatchCases(argv);
  }

  // ---------------------------------------------------------------------------
  // The code on the buffer
  // ---------------------------------------------------------------------------

  /** The C string at `at`, as the comparisons and conversions read it. */
  method ReadString(a: array<char>, at: nat) returns (s: seq<char>)
    requires at <= a.Length && NUL in a[at..]
    ensures s == CStr(a[at..])
  {
    var n := Strlen(a, at);
    s := a[at..at + n];
    assert a[at..][..n] == a[at..at + n];
  }

  /** The strings the `argv` pointers designate, read one after the other. */
  method ReadArgs(a: array<char>, argv: seq<nat>, ghost ts: seq<seq<char>>) returns (args: seq<seq<char>>)
    requires |argv| == |ts|
    requires forall k :: 0 <= k < |argv| ==> Stored(a[..], argv[k], ts[k])
    ensures args == ts
  {
    args := [];
    var k := 0;
    while k < |argv|
      invariant 0 <= k <= |argv| && args == ts[..k]
    {
      StoredCStr(a[..], argv[k], ts[k]);
      var s := ReadString(a, argv[k]);
      args := args + [s];
      k := k + 1;
    }
  }

  /** `parseAndExecuteCommand` on the buffer: tokenize in place, lowercase `argv[0]` in
      place, read the arguments and decide. The decision is that of the line the
      buffer held. */
  method ParseCommand(a: array<char>) returns (cmd: Command)
    requires NUL in a[..]
    modifies a
    ensures cmd == Interpret(CStr(old(a[..])))
  {
    ghost var line := CStr(a[..]);
    ghost var toks := Tokens(line);
    var argv := Tokenize(a);
    ghost var first := Args(line);
    if |argv| == 0 {
      cmd := NoCommand;
      return;
    }
    ghost var cut := a[..];
    LowerInPlace(a, argv[0], toks[0]);
    ghost var ts := [ToLower(toks[0])] + first[1..];
    forall k | 0 <= k < |argv|
      ensures Stored(a[..], argv[k], ts[k])
    {
      if k > 0 {
        StoredOutside(cut, a[..], argv[k], toks[k], argv[0], argv[0] + |toks[0]|);
      }
    }
    var args := ReadArgs(a, argv, ts);
    DispatchLowered(first);
    cmd := Dispatch(args);
  }
}
