/** The tokenizer of `parseAndExecuteCommand`: `strtok(command, " \t")` repeated until
    it runs out or `MAX_ARGS` tokens are taken, cutting the buffer into C strings in
    place, and the in-place lowercasing of the first token. */
module Tokenizer {
  import opened CString

  const MAX_ARGS: nat := 6

  /** The separators handed to `strtok`: space and tab. */
  predicate IsDelim(c: char)
  {
    c == ' ' || c == '\t'
  }

  // ---------------------------------------------------------------------------
  // The tokens of a string
  // ---------------------------------------------------------------------------

  /** The position of the first non-separator at or after `i` (or the end). */
  function SkipFrom(s: seq<char>, i: nat): (r: nat)
    requires i <= |s|
    ensures i <= r <= |s| && (r == |s| || !IsDelim(s[r]))
    ensures forall k :: i <= k < r ==> IsDelim(s[k])
    decreases |s| - i
  {
    if i < |s| && IsDelim(s[i]) then SkipFrom(s, i + 1) else i
  }

  /** The position of the first separator at or after `i` (or the end). */
  function WordFrom(s: seq<char>, i: nat): (r: nat)
    requires i <= |s|
    ensures i <= r <= |s| && (r == |s| || IsDelim(s[r]))
    ensures forall k :: i <= k < r ==> !IsDelim(s[k])
    decreases |s| - i
  {
    if i < |s| && !IsDelim(s[i]) then WordFrom(s, i + 1) else i
  }

  /** The maximal runs of non-separators of `s` from position `i` on, in order. */
  function TokensFrom(s: seq<char>, i: nat): (r: seq<seq<char>>)
    requires i <= |s|
    ensures |r| <= |s| - i
    decreases |s| - i
  {
    var b := SkipFrom(s, i);
    if b == |s| then []
    else
      var e := WordFrom(s, b);
      assert e == WordFrom(s, b + 1);
      [s[b..e]] + TokensFrom(s, e)
  }

  /** What `strtok(s, " \t")` and its continuing calls return, one after another. */
  function Tokens(s: seq<char>): (r: seq<seq<char>>)
    ensures |r| <= |s|
    ensures r == [] <==> forall k :: 0 <= k < |s| ==> IsDelim(s[k])
  {
    TokensFrom(s, 0)
  }

  /** A token has no separator. */
  predicate IsWord(t: seq<char>)
  {
    |t| > 0 && forall m :: 0 <= m < |t| ==> !IsDelim(t[m])
  }

  /** Every token is a non-empty run of non-separators. */
  lemma {:induction false} TokensShape(s: seq<char>, i: nat)
    requires i <= |s|
    ensures forall k :: 0 <= k < |TokensFrom(s, i)| ==> IsWord(TokensFrom(s, i)[k])
    decreases |s| - i
  {
    var b := SkipFrom(s, i);
    if b < |s| {
      var e := WordFrom(s, b);
      assert e == WordFrom(s, b + 1);
      TokensShape(s, e);
      assert forall m :: 0 <= m < e - b ==> s[b..e][m] == s[b + m];
    }
  }

  /** Every token of a string without NUL is free of NUL too. */
  lemma {:induction false} TokensNoNul(s: seq<char>, i: nat)
    requires i <= |s| && NUL !in s
    ensures forall k :: 0 <= k < |TokensFrom(s, i)| ==> NUL !in TokensFrom(s, i)[k]
    decreases |s| - i
  {
    var b := SkipFrom(s, i);
    if b < |s| {
      var e := WordFrom(s, b);
      assert e == WordFrom(s, b + 1);
      TokensNoNul(s, e);
      assert forall c :: c in s[b..e] ==> c in s;
    }
  }

  /** A separator at the continuation point changes nothing. */
  lemma TokensDelim(s: seq<char>, j: nat)
    requires j < |s| && IsDelim(s[j])
    ensures TokensFrom(s, j) == TokensFrom(s, j + 1)
  {
  }

  /** Words joined by single spaces. */
  function Join(ws: seq<seq<char>>): seq<char>
    decreases |ws|
  {
    if |ws| == 0 then []
    else if |ws| == 1 then ws[0]
    else ws[0] + [' '] + Join(ws[1..])
  }

  lemma {:induction false} WordTo(s: seq<char>, i: nat, e: nat)
    requires i <= e <= |s| && (e == |s| || IsDelim(s[e]))
    requires forall k :: i <= k < e ==> !IsDelim(s[k])
    ensures WordFrom(s, i) == e
    decreases e - i
  {
    if i < e {
      WordTo(s, i + 1, e);
    }
  }

  /** `s` holds `y` from position `d` to its end. */
  ghost predicate Agrees(s: seq<char>, d: nat, y: seq<char>)
  {
    |s| == d + |y| && forall k :: 0 <= k < |y| ==> s[d + k] == y[k]
  }

  lemma {:induction false} SkipShift(s: seq<char>, d: nat, y: seq<char>, i: nat)
    requires Agrees(s, d, y) && i <= |y|
    ensures SkipFrom(s, d + i) == d + SkipFrom(y, i)
    decreases |y| - i
  {
    if i < |y| {
      assert s[d + i] == y[i];
      if IsDelim(y[i]) {
        SkipShift(s, d, y, i + 1);
      }
    }
  }

  lemma {:induction false} WordShift(s: seq<char>, d: nat, y: seq<char>, i: nat)
    requires Agrees(s, d, y) && i <= |y|
    ensures WordFrom(s, d + i) == d + WordFrom(y, i)
    decreases |y| - i
  {
    if i < |y| {
      assert s[d + i] == y[i];
      if !IsDelim(y[i]) {
        WordShift(s, d, y, i + 1);
      }
    }
  }

  /** A prefix already passed over does not matter to the tokens that follow. */
  lemma {:induction false} TokensShift(s: seq<char>, d: nat, y: seq<char>, i: nat)
    requires Agrees(s, d, y) && i <= |y|
    ensures TokensFrom(s, d + i) == TokensFrom(y, i)
    decreases |y| - i
  {
    SkipShift(s, d, y, i);
    var b := SkipFrom(y, i);
    if b < |y| {
      var e := WordFrom(y, b);
      TokensShift(s, d, y, e);
      WordShift(s, d, y, b);
      SliceAgrees(s, d, y, b, e);
      ShiftStep(s, y, d, i, b, e);
    } else {
      TokensEnd(y, i);
      TokensEnd(s, d + i);
    }
  }

  /** Two buffers whose next tokens agree and whose tokens after them agree have the
      same tokens. */
  lemma ShiftStep(s: seq<char>, y: seq<char>, d: nat, i: nat, b: nat, e: nat)
    requires i <= |y| && SkipFrom(y, i) == b < |y| && WordFrom(y, b) == e
    requires d + i <= |s| && SkipFrom(s, d + i) == d + b < |s| && WordFrom(s, d + b) == d + e
    requires s[d + b..d + e] == y[b..e] && TokensFrom(s, d + e) == TokensFrom(y, e)
    ensures TokensFrom(s, d + i) == TokensFrom(y, i)
  {
  }

  lemma SliceAgrees(s: seq<char>, d: nat, y: seq<char>, b: nat, e: nat)
    requires Agrees(s, d, y) && b <= e <= |y|
    ensures s[d + b..d + e] == y[b..e]
  {
    forall k | 0 <= k < e - b
      ensures s[d + b..d + e][k] == y[b..e][k]
    {
      assert s[d + b + k] == y[b + k];
    }
  }

  /** No token is left once only separators remain. */
  lemma TokensEnd(s: seq<char>, i: nat)
    requires i <= |s| && SkipFrom(s, i) == |s|
    ensures TokensFrom(s, i) == []
  {
  }

  /** One step of the tokenizer: the first token, then the tokens after it. */
  lemma TokensCons(s: seq<char>, i: nat, b: nat, e: nat, t: seq<char>, rest: seq<seq<char>>)
    requires i <= |s| && SkipFrom(s, i) == b < |s| && WordFrom(s, b) == e
    requires s[b..e] == t && TokensFrom(s, e) == rest
    ensures TokensFrom(s, i) == [t] + rest
  {
  }

  /** Tokenizing words joined by spaces gives the words back. */
  lemma {:induction false} TokensJoin(ws: seq<seq<char>>)
    requires forall k :: 0 <= k < |ws| ==> IsWord(ws[k])
    ensures Tokens(Join(ws)) == ws
    decreases |ws|
  {
    if |ws| > 0 {
      var rest := ws[1..];
      if |ws| > 1 {
        TokensJoin(rest);
      }
      JoinCons(ws[0], rest, Join(ws));
      assert ws == [ws[0]] + rest;
    }
  }

  /** A word in front of joined words whose tokens are those words. */
  lemma JoinCons(w: seq<char>, rest: seq<seq<char>>, s: seq<char>)
    requires IsWord(w) && (rest == [] || Tokens(Join(rest)) == rest)
    requires s == if rest == [] then w else w + [' '] + Join(rest)
    ensures Tokens(s) == [w] + rest
  {
    assert forall k :: 0 <= k < |w| ==> s[k] == w[k];
    assert rest != [] ==> s[|w|] == ' ';
    assert SkipFrom(s, 0) == 0;
    WordTo(s, 0, |w|);
    assert s[0..|w|] == w;
    assert Tokens(s) == [w] + TokensFrom(s, |w|);
    if rest != [] {
      JoinTail(w, rest, s);
    } else {
      assert TokensFrom(s, |w|) == [];
    }
  }

  /** After the word and its space come the tokens of the rest. */
  lemma JoinTail(w: seq<char>, rest: seq<seq<char>>, s: seq<char>)
    requires s == w + [' '] + Join(rest) && Tokens(Join(rest)) == rest
    ensures TokensFrom(s, |w|) == rest
  {
    var y := Join(rest);
    assert s[|w|] == ' ';
    TokensDelim(s, |w|);
    assert Agrees(s, |w| + 1, y) by {
      forall k | 0 <= k < |y|
        ensures s[|w| + 1 + k] == y[k]
      {
      }
    }
    TokensShift(s, |w| + 1, y, 0);
  }

  // ---------------------------------------------------------------------------
  // strtok on a buffer
  // ---------------------------------------------------------------------------

  /** The buffer holds the C string `t` at position `at`. */
  ghost predicate Stored(buf: seq<char>, at: nat, t: seq<char>)
  {
    at + |t| < |buf| && buf[at + |t|] == NUL && NUL !in t &&
    forall m :: 0 <= m < |t| ==> buf[at + m] == t[m]
  }

  /** A stored string survives any change past its terminator. */
  lemma StoredKept(before: seq<char>, after: seq<char>, at: nat, t: seq<char>, bound: nat)
    requires Stored(before, at, t) && at + |t| < bound <= |after| == |before|
    requires forall i :: 0 <= i < bound ==> after[i] == before[i]
    ensures Stored(after, at, t)
  {
  }

  /** A stored string survives a change confined to a region it does not touch. */
  lemma StoredOutside(before: seq<char>, after: seq<char>, at: nat, t: seq<char>, lo: nat, hi: nat)
    requires Stored(before, at, t) && |after| == |before| && (at + |t| < lo || hi <= at)
    requires forall i :: 0 <= i < |after| && !(lo <= i < hi) ==> after[i] == before[i]
    ensures Stored(after, at, t)
  {
  }

  /** What the program reads at a stored token is the token. */
  lemma StoredCStr(buf: seq<char>, at: nat, t: seq<char>)
    requires Stored(buf, at, t)
    ensures at <= |buf| && NUL in buf[at..] && CStr(buf[at..]) == t
  {
    assert buf[at..][|t|] == NUL;
    assert buf[at..][..|t|] == t;
    assert NUL !in buf[at..][..|t|];
    StrLenAt(buf[at..], |t|);
  }

  /** The separators and terminator a continuing `strtok` call scans for; the buffer
      agrees with `str` from `p` to its terminator. */
  ghost predicate Holds(buf: seq<char>, p: nat, str: seq<char>)
  {
    p <= |str| < |buf| && buf[|str|] == NUL && NUL !in str &&
    forall k :: p <= k < |str| ==> buf[k] == str[k]
  }

  /** The separator scan that starts a `strtok` call (`strspn`). */
  method SpanDelims(a: array<char>, p: nat, ghost str: seq<char>) returns (i: nat)
    requires Holds(a[..], p, str)
    ensures i == SkipFrom(str, p) && (a[i] == NUL <==> i == |str|)
  {
    i := p;
    while a[i] != NUL && IsDelim(a[i])
      invariant p <= i <= |str|
      invariant SkipFrom(str, p) == SkipFrom(str, i)
      decreases |str| - i
    {
      i := i + 1;
    }
    if i < |str| {
      assert str[i] in str;
    }
  }

  /** The scan for the end of the token (`strcspn`). */
  method SpanWord(a: array<char>, i: nat, ghost str: seq<char>) returns (j: nat)
    requires Holds(a[..], i, str)
    ensures j == WordFrom(str, i) && (a[j] == NUL <==> j == |str|)
  {
    j := i;
    while a[j] != NUL && !IsDelim(a[j])
      invariant i <= j <= |str|
      invariant WordFrom(str, i) == WordFrom(str, j)
      decreases |str| - j
    {
      j := j + 1;
    }
    if j < |str| {
      assert str[j] in str;
    }
  }

  /** One `strtok(..., " \t")` call that continues at `p` in a buffer holding the string
      `str` from `p` on. It skips separators; at the terminator it finds nothing and stays
      there. Otherwise it returns the start of the next token, ends the token with a
      NUL written over the separator after it (if any), and continues after that. The
      tokens from `p` are this one followed by those from the continuation, and nothing
      before the token changes. */
  method StrTok(a: array<char>, p: nat, ghost str: seq<char>) returns (found: bool, start: nat, next: nat)
    requires Holds(a[..], p, str)
    modifies a
    ensures p <= start <= next && Holds(a[..], next, str)
    ensures forall k :: 0 <= k < start ==> a[k] == old(a[k])
    ensures !found ==> TokensFrom(str, p) == [] && next == |str| && a[..] == old(a[..])
    ensures found ==> (|TokensFrom(str, p)| > 0 && Stored(a[..], start, TokensFrom(str, p)[0]) &&
      start + |TokensFrom(str, p)[0]| <= next && TokensFrom(str, p)[1..] == TokensFrom(str, next))
    ensures found && next < |str| ==> start + |TokensFrom(str, p)[0]| < next
  {
    start := SpanDelims(a, p, str);
    if a[start] == NUL {
      found, next := false, start;
      return;
    }
    found := true;
    var j := SpanWord(a, start, str);
    ghost var before := a[..];
    if a[j] == NUL {
      next := j;
    } else {
      a[j] := NUL;
      next := j + 1;
    }
    NextToken(str, p, start, j, next);
    TokenCut(before, a[..], str, p, start, j, next);
  }

  /** The buffer after the token is ended: it holds the token at `start` and the rest
      of the string from `next` on, and nothing before `j` changed. */
  lemma TokenCut(before: seq<char>, after: seq<char>, str: seq<char>, p: nat, start: nat, j: nat, next: nat)
    requires Holds(before, p, str) && p <= start < j <= |str|
    requires NUL !in str[start..j]
    requires next == if j == |str| then j else j + 1
    requires after == if j == |str| then before else before[j := NUL]
    ensures Holds(after, next, str) && Stored(after, start, str[start..j])
    ensures forall k :: 0 <= k < j ==> after[k] == before[k]
  {
    forall m | 0 <= m < j - start
      ensures after[start + m] == str[start..j][m]
    {
      assert after[start + m] == before[start + m];
    }
    if j == |str| {
      assert after[j] == NUL;
    }
  }

  /** The token a `strtok` call finds between the end of the separators and the next
      separator is the first of the remaining tokens, and those after it start past
      that separator. */
  lemma NextToken(str: seq<char>, p: nat, b: nat, e: nat, next: nat)
    requires p <= |str| && NUL !in str
    requires b == SkipFrom(str, p) < |str| && e == WordFrom(str, b)
    requires next == if e == |str| then e else e + 1
    ensures b < e && |TokensFrom(str, p)| > 0 && TokensFrom(str, p)[0] == str[b..e]
    ensures TokensFrom(str, p)[1..] == TokensFrom(str, next) && NUL !in str[b..e]
  {
    assert e == WordFrom(str, b + 1);
    ghost var rest := TokensFrom(str, e);
    assert TokensFrom(str, p) == [str[b..e]] + rest;
    if e < |str| {
      TokensDelim(str, e);
    }
    SplitHead(TokensFrom(str, p), str[b..e], rest);
    assert forall c :: c in str[b..e] ==> c in str;
  }

  lemma DropNext<T>(ts: seq<T>, n: nat, rest: seq<T>)
    requires n < |ts| && ts[n + 1..] == rest && |rest| > 0
    ensures ts[n + 1] == rest[0] && ts[n + 2..] == rest[1..]
  {
    assert ts[n + 1..][0] == ts[n + 1];
  }

  lemma SplitHead<T>(ts: seq<T>, t: T, rest: seq<T>)
    requires ts == [t] + rest
    ensures |ts| > 0 && ts[0] == t && ts[1..] == rest
  {
  }

  /** The first `|argv|` tokens lie in the buffer as C strings at the recorded
      positions, in order and apart from each other. */
  ghost predicate Cut(buf: seq<char>, argv: seq<nat>, toks: seq<seq<char>>)
  {
    |argv| <= |toks| &&
    (forall k :: 0 <= k < |argv| ==> Stored(buf, argv[k], toks[k])) &&
    (forall j, k :: 0 <= j < k < |argv| ==> argv[j] + |toks[j]| < argv[k])
  }

  /** Every recorded token ends before `bound`. */
  ghost predicate EndBefore(argv: seq<nat>, toks: seq<seq<char>>, bound: nat)
    requires |argv| <= |toks|
  {
    forall k :: 0 <= k < |argv| ==> argv[k] + |toks[k]| < bound
  }

  /** Recording one more token found at `start` keeps the cut, as long as the buffer
      changes only past that token. */
  lemma CutExtend(before: seq<char>, after: seq<char>, argv: seq<nat>, toks: seq<seq<char>>, start: nat, bound: nat)
    requires Cut(before, argv, toks) && |argv| < |toks| && EndBefore(argv, toks, start)
    requires Stored(before, start, toks[|argv|]) && start + |toks[|argv|]| < bound <= |after| == |before|
    requires forall i :: 0 <= i < bound ==> after[i] == before[i]
    ensures Cut(after, argv + [start], toks) && EndBefore(argv + [start], toks, bound)
  {
    var argv' := argv + [start];
    forall k | 0 <= k < |argv'|
      ensures Stored(after, argv'[k], toks[k])
    {
      StoredKept(before, after, argv'[k], toks[k], bound);
    }
  }

  /** Where the tokenizing loop stands: the tokens so far are cut, and either the one
      just found at `start` is the next token of `str` with the rest after `next`, or
      there are no more. */
  ghost predicate Progress(buf: seq<char>, str: seq<char>, argv: seq<nat>, found: bool, start: nat, next: nat)
  {
    var toks := Tokens(str);
    start <= next && Holds(buf, next, str) && Cut(buf, argv, toks) &&
    (found ==> (|argv| < |toks| && EndBefore(argv, toks, start) && Stored(buf, start, toks[|argv|]) &&
      start + |toks[|argv|]| <= next && toks[|argv| + 1..] == TokensFrom(str, next) &&
      (next < |str| ==> start + |toks[|argv|]| < next))) &&
    (!found ==> |toks| == |argv|)
  }

  /** One turn of the tokenizing loop: record the token found, look for the next. */
  method TokenizeStep(a: array<char>, argv: seq<nat>, start: nat, next: nat, ghost str: seq<char>)
    returns (argv': seq<nat>, found': bool, start': nat, next': nat)
    requires Progress(a[..], str, argv, true, start, next)
    modifies a
    ensures argv' == argv + [start] && Progress(a[..], str, argv', found', start', next')
  {
    ghost var toks := Tokens(str);
    ghost var before := a[..];
    ghost var n := |argv|;
    ghost var rest := TokensFrom(str, next);
    found', start', next' := StrTok(a, next, str);
    if found' {
      DropNext(toks, n, rest);
      CutExtend(before, a[..], argv, toks, start, start');
    } else {
      assert |toks[n + 1..]| == 0;
      CutExtend(before, a[..], argv, toks, start, |before|);
    }
    argv' := argv + [start];
  }

  /** The tokenizing loop: at most `MAX_ARGS` tokens, each left in the buffer as a C
      string at the position `argv` records; they are the first tokens of the command
      in order, separate from each other. */
  method Tokenize(a: array<char>) returns (argv: seq<nat>)
    requires NUL in a[..]
    modifies a
    ensures var toks := Tokens(CStr(old(a[..])));
      |argv| == (if |toks| < MAX_ARGS then |toks| else MAX_ARGS) && Cut(a[..], argv, toks)
  {
    ghost var str := CStr(a[..]);
    argv := [];
    var found, start, next := StrTok(a, 0, str);
    while found && |argv| < MAX_ARGS
      invariant |argv| <= MAX_ARGS && Progress(a[..], str, argv, found, start, next)
      decreases MAX_ARGS - |argv|
    {
      argv, found, start, next := TokenizeStep(a, argv, start, next, str);
    }
  }

  // ---------------------------------------------------------------------------
  // Lowercasing
  // ---------------------------------------------------------------------------

  /** `tolower` in the C locale. */
  function Lower(c: char): char
  {
    if 'A' <= c <= 'Z' then (c as int + 32) as char else c
  }

  function ToLower(s: seq<char>): (r: seq<char>)
    ensures |r| == |s|
  {
    seq(|s|, i requires 0 <= i < |s| => Lower(s[i]))
  }

  /** Lowercasing leaves no capital letter, touches nothing else, and is idempotent. */
  lemma ToLowerSpec(s: seq<char>)
    ensures forall i :: 0 <= i < |s| ==> !('A' <= ToLower(s)[i] <= 'Z')
    ensures forall i :: 0 <= i < |s| && !('A' <= s[i] <= 'Z') ==> ToLower(s)[i] == s[i]
    ensures ToLower(ToLower(s)) == ToLower(s)
  {
  }

  /** The loop over `argv[0]`: every character up to the terminator is lowercased in
      place and the rest of the buffer is untouched. */
  method LowerInPlace(a: array<char>, at: nat, ghost t: seq<char>)
    requires Stored(a[..], at, t)
    modifies a
    ensures Stored(a[..], at, ToLower(t))
    ensures forall i :: 0 <= i < a.Length && !(at <= i < at + |t|) ==> a[i] == old(a[i])
  {
    var p := at;
    if 0 < |t| {
      assert t[0] in t;
    }
    while a[p] != NUL
      invariant at <= p <= at + |t|
      invariant p < at + |t| ==> a[p] == t[p - at] && a[p] != NUL
      invariant forall i :: at <= i < p ==> a[i] == Lower(t[i - at])
      invariant forall i :: 0 <= i < a.Length && !(at <= i < p) ==> a[i] == old(a[i])
      decreases at + |t| - p
    {
      if p + 1 < at + |t| {
        assert t[p + 1 - at] in t;
        assert a[p + 1] == t[p + 1 - at];
      }
      a[p] := Lower(a[p]);
      p := p + 1;
    }
    forall m | 0 <= m < |t|
      ensures a[at + m] == ToLower(t)[m]
    {
      assert a[at + m] == Lower(t[at + m - at]);
    }
    assert NUL !in ToLower(t) by {
      forall i | 0 <= i < |t|
        ensures ToLower(t)[i] != NUL
      {
        assert t[i] in t;
      }
    }
  }
}
