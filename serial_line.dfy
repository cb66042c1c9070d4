/** `serialEvent`: the characters that arrive on the serial port are collected into a
    64-byte line buffer; a newline or carriage return ends the line, which is trimmed
    and, when something is left, handed to the command parser. */
module SerialLine {
  import opened CString
  import opened Commands

  /** The size of `cmdBuffer`; one place is kept for the terminator. */
  const MAX_COMMAND_LENGTH: nat := 64

  predicate IsEol(c: char)
  {
    c == '\n' || c == '\r'
  }

  /** The command line ends: what the parser sees is the collected text up to its first
      NUL, trimmed. */
  function EndLine(line: seq<char>): (t: seq<char>)
    ensures |t| <= |line|
    ensures t == [] || (!IsSpace(t[0]) && !IsSpace(t[|t| - 1]))
  {
    Trim(CStr(line + [NUL]))
  }

  /** One character: the new line and the commands it dispatched. A line that ends empty
      or blank dispatches nothing; a character beyond 63 collected ones is dropped. */
  function Step(line: seq<char>, c: char): (r: (seq<char>, seq<Command>))
    ensures |r.1| <= 1 && forall i :: 0 <= i < |r.1| ==> r.1[i] != NoCommand
    ensures IsEol(c) ==> r.0 == []
    ensures !IsEol(c) ==> r.1 == [] && |line| <= |r.0| <= |line| + 1
    ensures |line| < MAX_COMMAND_LENGTH ==> |r.0| < MAX_COMMAND_LENGTH
  {
    if IsEol(c) then
      if |line| > 0 then
        var t := EndLine(line);
        if |t| > 0 then
          TrimmedHasCommand(CStr(line + [NUL]));
          ([], [Interpret(t)])
        else ([], [])
      else ([], [])
    else if |line| < MAX_COMMAND_LENGTH - 1 then (line + [c], [])
    else (line, [])
  }

  /** The characters of `input`, one after the other, starting from `line`. */
  function FeedAll(line: seq<char>, input: seq<char>): (r: (seq<char>, seq<Command>))
    ensures |r.1| <= |input|
    ensures |line| < MAX_COMMAND_LENGTH ==> |r.0| < MAX_COMMAND_LENGTH
    decreases |input|
  {
    if |input| == 0 then (line, [])
    else
      var r := FeedAll(line, input[..|input| - 1]);
      var s := Step(r.0, input[|input| - 1]);
      (s.0, r.1 + s.1)
  }

  // ---------------------------------------------------------------------------
  // Properties of the line discipline
  // ---------------------------------------------------------------------------

  /** The collected line never outgrows the buffer, and nothing dispatched is empty. */
  lemma {:induction false} FeedAllBounded(line: seq<char>, input: seq<char>)
    requires |line| < MAX_COMMAND_LENGTH
    ensures |FeedAll(line, input).0| < MAX_COMMAND_LENGTH
    ensures forall i :: 0 <= i < |FeedAll(line, input).1| ==> FeedAll(line, input).1[i] != NoCommand
    ensures |FeedAll(line, input).1| <= |input|
    decreases |input|
  {
    if |input| > 0 {
      FeedAllBounded(line, input[..|input| - 1]);
    }
  }

  /** Feeding in two pieces is feeding the whole: the input may be split wherever
      `Serial.available()` runs dry. */
  lemma {:induction false} FeedAllConcat(line: seq<char>, x: seq<char>, y: seq<char>)
    ensures var rx := FeedAll(line, x); var ry := FeedAll(rx.0, y);
      FeedAll(line, x + y) == (ry.0, rx.1 + ry.1)
    decreases |y|
  {
    var rx := FeedAll(line, x);
    if |y| == 0 {
      assert x + y == x;
      assert rx.1 + [] == rx.1;
    } else {
      var y' := y[..|y| - 1];
      var c := y[|y| - 1];
      assert (x + y)[..|x + y| - 1] == x + y';
      assert (x + y)[|x + y| - 1] == c;
      FeedAllConcat(line, x, y');
      var ry' := FeedAll(rx.0, y');
      var s := Step(ry'.0, c);
      assert FeedAll(line, x + y) == (s.0, (rx.1 + ry'.1) + s.1);
      assert FeedAll(rx.0, y) == (s.0, ry'.1 + s.1);
      assert (rx.1 + ry'.1) + s.1 == rx.1 + (ry'.1 + s.1);
    }
  }

  /** Without a line end the characters are appended up to 63 of them and the rest is
      dropped; nothing is dispatched. */
  lemma {:induction false} FeedAllTruncates(line: seq<char>, input: seq<char>)
    requires |line| < MAX_COMMAND_LENGTH
    requires forall i :: 0 <= i < |input| ==> !IsEol(input[i])
    ensures var all := line + input;
      FeedAll(line, input) ==
        (if |all| < MAX_COMMAND_LENGTH then all else all[..MAX_COMMAND_LENGTH - 1], [])
    decreases |input|
  {
    if |input| > 0 {
      var init := input[..|input| - 1];
      var c := input[|input| - 1];
      assert !IsEol(c);
      FeedAllTruncates(line, init);
      assert FeedAll(line, input) == (Step(FeedAll(line, init).0, c).0, FeedAll(line, init).1 + Step(FeedAll(line, init).0, c).1);
      assert line + input == (line + init) + [input[|input| - 1]];
      var all := line + init;
      if |all| >= MAX_COMMAND_LENGTH {
        assert (all + [input[|input| - 1]])[..MAX_COMMAND_LENGTH - 1] == all[..MAX_COMMAND_LENGTH - 1];
      } else if |all| == MAX_COMMAND_LENGTH - 1 {
        assert (all + [input[|input| - 1]])[..MAX_COMMAND_LENGTH - 1] == all;
      } else {
        assert Step(all, c) == (all + [c], []);
      }
      assert FeedAll(line, input).1 == [];
    } else {
      assert line + input == line;
    }
  }

  /** A line end dispatches the command of the trimmed line when that is not empty and
      empties the buffer. */
  lemma LineEnd(line: seq<char>, c: char)
    requires IsEol(c)
    ensures Step(line, c) == ([], if EndLine(line) != [] then [Interpret(EndLine(line))] else [])
  {
    if |line| == 0 {
      assert CStr(line + [NUL]) == [];
      assert EndLine(line) == [];
    }
  }

  /** A line of text ended by a newline or carriage return dispatches the command of its
      first 63 characters exactly when their trimmed text is not empty, and leaves the
      buffer empty. */
  lemma OneLine(text: seq<char>, c: char)
    requires forall i :: 0 <= i < |text| ==> !IsEol(text[i])
    requires IsEol(c)
    ensures var kept := if |text| < MAX_COMMAND_LENGTH then text else text[..MAX_COMMAND_LENGTH - 1];
      FeedAll([], text + [c]) ==
        ([], if EndLine(kept) != [] then [Interpret(EndLine(kept))] else [])
  {
    FedText(text);
    var kept := if |text| < MAX_COMMAND_LENGTH then text else text[..MAX_COMMAND_LENGTH - 1];
    EndOfKept(text, kept, c);
  }

  /** The line end after a text that left `kept` in the empty buffer. */
  lemma EndOfKept(text: seq<char>, kept: seq<char>, c: char)
    requires IsEol(c) && FeedAll([], text) == (kept, [])
    ensures FeedAll([], text + [c]) ==
      ([], if EndLine(kept) != [] then [Interpret(EndLine(kept))] else [])
  {
    FeedSnoc([], text, c);
    LineEnd(kept, c);
    assert [] + Step(kept, c).1 == Step(kept, c).1;
  }

  /** What a text without line end leaves in the empty buffer. */
  lemma FedText(text: seq<char>)
    requires forall i :: 0 <= i < |text| ==> !IsEol(text[i])
    ensures FeedAll([], text) ==
      (if |text| < MAX_COMMAND_LENGTH then text else text[..MAX_COMMAND_LENGTH - 1], [])
  {
    FeedAllTruncates([], text);
    assert [] + text == text;
  }

  /** One more character after `input`. */
  lemma FeedSnoc(line: seq<char>, input: seq<char>, c: char)
    ensures var r := FeedAll(line, input); var s := Step(r.0, c);
      FeedAll(line, input + [c]) == (s.0, r.1 + s.1)
  {
    assert (input + [c])[..|input + [c]| - 1] == input;
  }

  /** A second line end (as in `\r\n`) or a line end on an empty buffer does nothing. */
  lemma BlankLineEnd(c: char)
    requires IsEol(c)
    ensures FeedAll([], [c]) == ([], [])
  {
    assert [c][..0] == [];
    assert FeedAll([], []) == ([], []);
    assert Step([], c) == ([], []);
    assert FeedAll([], [c]) == (Step(FeedAll([], []).0, c).0, FeedAll([], []).1 + Step(FeedAll([], []).0, c).1);
    assert FeedAll([], [c]).1 == [];
    assert FeedAll([], [c]).0 == [];
  }

  /** A line holding only white space dispatches nothing. */
  lemma BlankLine(text: seq<char>, c: char)
    requires 0 < |text| < MAX_COMMAND_LENGTH && IsEol(c)
    requires forall i :: 0 <= i < |text| ==> text[i] == ' ' || text[i] == '\t'
    ensures FeedAll([], text + [c]) == ([], [])
  {
    assert forall i :: 0 <= i < |text| ==> !IsEol(text[i]);
    BlankEnd(text);
    OneLine(text, c);
  }

  /** White space trims away to nothing. */
  lemma BlankEnd(text: seq<char>)
    requires forall i :: 0 <= i < |text| ==> text[i] == ' ' || text[i] == '\t'
    ensures EndLine(text) == []
  {
    assert NUL !in text by {
      forall i | 0 <= i < |text|
        ensures text[i] != NUL
      {
      }
    }
    StrLenAt(text + [NUL], |text|);
    assert CStr(text + [NUL]) == text;
    BlankTrimmed(text);
  }

  lemma {:induction false} BlankTrimmed(s: seq<char>)
    requires forall i :: 0 <= i < |s| ==> IsSpace(s[i])
    ensures Trim(s) == []
    decreases |s|
  {
    if |s| > 0 {
      BlankTrimmed(s[1..]);
      assert TrimLeft(s) == TrimLeft(s[1..]);
      assert Trim(s) == TrimRight(TrimLeft(s[1..])) == Trim(s[1..]);
    }
  }

  // ---------------------------------------------------------------------------
  // The line buffer
  // ---------------------------------------------------------------------------

  /** `cmdBuffer` and `cmdIndex`. */
  class CommandLine {
    const cmdBuffer: array<char>
    var cmdIndex: nat

    ghost predicate Valid()
      reads this
    {
      cmdBuffer.Length == MAX_COMMAND_LENGTH && cmdIndex < MAX_COMMAND_LENGTH
    }

    /** The characters collected so far. */
    function Line(): (s: seq<char>)
      requires Valid()
      reads this, cmdBuffer
      ensures |s| < MAX_COMMAND_LENGTH
    {
      cmdBuffer[..cmdIndex]
    }

    /** The static buffer, empty at start-up. */
    constructor ()
      ensures Valid() && Line() == [] && fresh(cmdBuffer)
    {
      cmdBuffer := new char[MAX_COMMAND_LENGTH](_ => NUL);
      cmdIndex := 0;
    }

    /** The body of the `serialEvent` loop for one character. */
    method Receive(c: char) returns (cmds: seq<Command>)
      requires Valid()
      modifies this, cmdBuffer
      ensures Valid()
      ensures (Line(), cmds) == Step(old(Line()), c)
    {
      if c == '\n' || c == '\r' {
        if cmdIndex > 0 {
          ghost var line := cmdBuffer[..cmdIndex];
          cmdBuffer[cmdIndex] := NUL;
          assert cmdBuffer[..][..cmdIndex + 1] == line + [NUL];
          CStrPrefix(cmdBuffer[..], line + [NUL]);
          TrimInPlace(cmdBuffer);
          var n := Strlen(cmdBuffer, 0);
          assert cmdBuffer[0..] == cmdBuffer[..];
          if n > 0 {
            var cmd := ParseCommand(cmdBuffer);
            TrimmedHasCommand(CStr(line + [NUL]));
            cmds := [cmd];
          } else {
            cmds := [];
          }
          cmdIndex := 0;
        } else {
          cmds := [];
        }
      } else if cmdIndex < MAX_COMMAND_LENGTH - 1 {
        ghost var line := cmdBuffer[..cmdIndex];
        cmdBuffer[cmdIndex] := c;
        cmdIndex := cmdIndex + 1;
        assert cmdBuffer[..cmdIndex] == line + [c];
        cmds := [];
      } else {
        cmds := [];
      }
    }

    /** `serialEvent`: every available character in turn. The buffer and the commands it
        dispatched are those of feeding the input to the line discipline. */
    method SerialEvent(input: seq<char>) returns (cmds: seq<Command>)
      requires Valid()
      modifies this, cmdBuffer
      ensures Valid()
      ensures (Line(), cmds) == FeedAll(old(Line()), input)
    {
      ghost var start := Line();
      cmds := [];
      var i := 0;
      while i < |input|
        invariant 0 <= i <= |input| && Valid()
        invariant (Line(), cmds) == FeedAll(start, input[..i])
      {
        var more := Receive(input[i]);
        assert input[..i + 1][..i] == input[..i];
        cmds := cmds + more;
        i := i + 1;
      }
      assert input[..|input|] == input;
    }
  }
}
