/** NUL-terminated character buffers, `isspace`, and `trimInPlace`, which strips the
    surrounding white space of such a buffer in place. */
module CString {

  const NUL: char := '\0'

  /** `isspace` in the C locale: space, tab, newline, vertical tab, form feed and
      carriage return. */
  predicate IsSpace(c: char)
  {
    c == ' ' || c == '\t' || c == '\n' || c == '\U{000B}' || c == '\U{000C}' || c == '\r'
  }

  // ---------------------------------------------------------------------------
  // C strings
  // ---------------------------------------------------------------------------

  /** `strlen`: the index of the first NUL. */
  function StrLen(a: seq<char>): (n: nat)
    requires NUL in a
    ensures n < |a| && a[n] == NUL && NUL !in a[..n]
  {
    if a[0] == NUL then 0
    else
      assert NUL in a[1..] by {
        var k :| 0 <= k < |a| && a[k] == NUL;
        assert a[1..][k - 1] == NUL;
      }
      var n := StrLen(a[1..]);
      assert a[..n + 1] == [a[0]] + a[1..][..n];
      n + 1
  }

  /** The string a buffer holds: everything before its first NUL. */
  function CStr(a: seq<char>): (s: seq<char>)
    requires NUL in a
  {
    a[..StrLen(a)]
  }

  /** A NUL with none before it is the first. */
  lemma StrLenAt(a: seq<char>, n: nat)
    requires n < |a| && a[n] == NUL && NUL !in a[..n]
    ensures StrLen(a) == n
  {
  }

  /** A buffer that begins with a C string holds that string, whatever follows. */
  lemma CStrPrefix(a: seq<char>, p: seq<char>)
    requires NUL in p && |p| <= |a| && a[..|p|] == p
    ensures NUL in a && CStr(a) == CStr(p)
  {
    var n := StrLen(p);
    assert a[n] == a[..|p|][n];
    assert a[..n] == p[..n];
    StrLenAt(a, n);
  }

  /** The string held from position `from` on is the tail of the whole string. */
  lemma StrLenFrom(a: seq<char>, from: nat)
    requires NUL in a && from <= StrLen(a)
    ensures NUL in a[from..] && StrLen(a[from..]) == StrLen(a) - from
  {
    var n := StrLen(a);
    assert a[from..][n - from] == NUL;
    assert a[from..][..n - from] == a[from..n];
    assert NUL !in a[from..n] by {
      forall k | from <= k < n
        ensures a[k] != NUL
      {
        assert a[..n][k] == a[k];
      }
    }
    StrLenAt(a[from..], n - from);
  }

  /** `strlen(a + from)`, counting up to the terminator. */
  method Strlen(a: array<char>, from: nat) returns (n: nat)
    requires from <= a.Length && NUL in a[from..]
    ensures n == StrLen(a[from..])
  {
    ghost var len := StrLen(a[from..]);
    n := 0;
    while a[from + n] != NUL
      invariant 0 <= n <= len
      decreases len - n
    {
      assert a[from..][len] == NUL;
      assert a[from..][..len][n] == a[from + n];
      n := n + 1;
    }
  }

  /** `memmove(a + dst, a + src, n)` for a destination at or before the source, which
      a front-to-back copy handles. */
  method MemMove(a: array<char>, dst: nat, src: nat, n: nat)
    requires dst <= src && src + n <= a.Length
    modifies a
    ensures forall i :: 0 <= i < a.Length ==> a[i] == if dst <= i < dst + n then old(a[src + i - dst]) else old(a[i])
  {
    var i := 0;
    while i < n
      invariant 0 <= i <= n
      invariant forall j :: 0 <= j < a.Length ==> a[j] == if dst <= j < dst + i then old(a[src + j - dst]) else old(a[j])
    {
      a[dst + i] := a[src + i];
      i := i + 1;
    }
  }

  // ---------------------------------------------------------------------------
  // Trimming
  // ---------------------------------------------------------------------------

  /** `s` without its leading white space. */
  function TrimLeft(s: seq<char>): (r: seq<char>)
    ensures |r| <= |s|
    ensures r == [] || !IsSpace(r[0])
    decreases |s|
  {
    if |s| > 0 && IsSpace(s[0]) then TrimLeft(s[1..]) else s
  }

  /** `s` without its trailing white space. */
  function TrimRight(s: seq<char>): (r: seq<char>)
    ensures |r| <= |s|
    ensures r == [] || !IsSpace(r[|r| - 1])
    decreases |s|
  {
    if |s| > 0 && IsSpace(s[|s| - 1]) then TrimRight(s[..|s| - 1]) else s
  }

  /** `s` without its surrounding white space. */
  function Trim(s: seq<char>): (r: seq<char>)
    ensures |r| <= |s|
    ensures r == [] || (!IsSpace(r[0]) && !IsSpace(r[|r| - 1]))
  {
    TrimRightSpec(TrimLeft(s));
    TrimRight(TrimLeft(s))
  }

  /** Trimming the front removes exactly the leading white space: what is left is a
      suffix that does not start with white space, and everything removed was white
      space. */
  lemma {:induction false} TrimLeftSpec(s: seq<char>)
    ensures TrimLeft(s) == s[|s| - |TrimLeft(s)|..]
    ensures TrimLeft(s) == [] || !IsSpace(TrimLeft(s)[0])
    ensures forall i :: 0 <= i < |s| - |TrimLeft(s)| ==> IsSpace(s[i])
    decreases |s|
  {
    if |s| > 0 && IsSpace(s[0]) {
      TrimLeftSpec(s[1..]);
      assert s[1..][|s| - 1 - |TrimLeft(s)|..] == s[|s| - |TrimLeft(s)|..];
      forall i | 1 <= i < |s| - |TrimLeft(s)|
        ensures IsSpace(s[i])
      {
        assert s[1..][i - 1] == s[i];
      }
    }
  }

  /** Trimming the back removes exactly the trailing white space. */
  lemma {:induction false} TrimRightSpec(s: seq<char>)
    ensures TrimRight(s) == s[..|TrimRight(s)|]
    ensures TrimRight(s) == [] || !IsSpace(TrimRight(s)[|TrimRight(s)| - 1])
    ensures forall i :: |TrimRight(s)| <= i < |s| ==> IsSpace(s[i])
    decreases |s|
  {
    if |s| > 0 && IsSpace(s[|s| - 1]) {
      var p := s[..|s| - 1];
      TrimRightSpec(p);
      assert p[..|TrimRight(p)|] == s[..|TrimRight(s)|];
      forall i | |TrimRight(s)| <= i < |s| - 1
        ensures IsSpace(s[i])
      {
        assert p[i] == s[i];
      }
    }
  }

  /** After trimming, the string has no leading and no trailing white space, is the
      contiguous piece of the input that starts after its leading white space (so no
      longer than the input), and only white space was cut away on either side. */
  lemma TrimSpec(s: seq<char>)
    ensures var t := Trim(s); var i := |s| - |TrimLeft(s)|;
      i + |t| <= |s| && t == s[i..i + |t|] &&
      (t == [] || (!IsSpace(t[0]) && !IsSpace(t[|t| - 1]))) &&
      (forall k :: 0 <= k < i ==> IsSpace(s[k])) &&
      (forall k :: i + |t| <= k < |s| ==> IsSpace(s[k]))
  {
    var l := TrimLeft(s);
    var i := |s| - |l|;
    TrimLeftSpec(s);
    TrimRightSpec(l);
    var t := Trim(s);
    assert t == l[..|t|];
    assert l[..|t|] == s[i..i + |t|];
    forall k | i + |t| <= k < |s|
      ensures IsSpace(s[k])
    {
      assert l[k - i] == s[k];
    }
  }

  /** Trimming leaves a string alone exactly when it has no surrounding white space. */
  lemma TrimFixed(s: seq<char>)
    ensures Trim(s) == s <==> (s == [] || (!IsSpace(s[0]) && !IsSpace(s[|s| - 1])))
  {
    TrimSpec(s);
  }

  /** Trimming twice is trimming once. */
  lemma TrimIdempotent(s: seq<char>)
    ensures Trim(Trim(s)) == Trim(s)
  {
    TrimSpec(s);
    TrimFixed(Trim(s));
  }

  /** The text of a C string holds no NUL, and neither does its trimmed form. */
  lemma TrimNoNul(s: seq<char>)
    requires NUL !in s
    ensures NUL !in Trim(s)
  {
    TrimSpec(s);
    var i := |s| - |TrimLeft(s)|;
    var t := Trim(s);
    forall k | 0 <= k < |t|
      ensures t[k] != NUL
    {
      assert t[k] == s[i + k];
    }
  }

  lemma TrimLeftStep(s: seq<char>, i: nat)
    requires i < |s| && IsSpace(s[i])
    ensures TrimLeft(s[i..]) == TrimLeft(s[i + 1..])
  {
    assert s[i..][1..] == s[i + 1..];
  }

  lemma TrimRightStep(s: seq<char>, n: nat)
    requires 0 < n <= |s| && IsSpace(s[n - 1])
    ensures TrimRight(s[..n]) == TrimRight(s[..n - 1])
  {
    assert s[..n][..n - 1] == s[..n - 1];
  }

  /** The leading loop of `trimInPlace`: the index of the first character of the string
      that is not white space, or of its terminator. */
  method SkipSpace(a: array<char>) returns (start: nat)
    requires NUL in a[..]
    ensures start <= StrLen(a[..]) && TrimLeft(CStr(a[..])) == CStr(a[..])[start..]
  {
    ghost var len := StrLen(a[..]);
    ghost var str := CStr(a[..]);
    start := 0;
    while a[start] != NUL && IsSpace(a[start])
      invariant 0 <= start <= len
      invariant TrimLeft(str) == TrimLeft(str[start..])
      decreases len - start
    {
      assert start < len by {
        assert a[..][len] == NUL;
      }
      assert str[start] == a[start];
      TrimLeftStep(str, start);
      start := start + 1;
    }
    if start < len {
      assert str[start] == a[start];
      assert str[start..][0] == str[start];
    }
  }

  /** A string moved to the front of its buffer together with its terminator: the buffer
      now holds the moved tail. */
  lemma MovedFront(orig: seq<char>, moved: seq<char>, start: nat)
    requires NUL in orig && start <= StrLen(orig) && |moved| == |orig|
    requires forall i :: 0 <= i < |moved| ==> moved[i] == if i <= StrLen(orig) - start then orig[start + i] else orig[i]
    ensures NUL in moved && StrLen(moved) == StrLen(orig) - start && CStr(moved) == CStr(orig)[start..]
  {
    var len := StrLen(orig);
    var m := len - start;
    assert moved[m] == NUL;
    assert moved[..m] == CStr(orig)[start..] by {
      forall i | 0 <= i < m
        ensures moved[i] == CStr(orig)[start..][i]
      {
        assert orig[start + i] == orig[..len][start + i];
      }
    }
    assert NUL !in moved[..m] by {
      forall i | 0 <= i < m
        ensures moved[i] != NUL
      {
        assert orig[start + i] == orig[..len][start + i];
      }
    }
    StrLenAt(moved, m);
  }

  /** The trailing loop of `trimInPlace`: NULs overwrite the trailing white space, from
      the back. */
  method TrimTrailing(a: array<char>)
    requires NUL in a[..]
    modifies a
    ensures NUL in a[..] && CStr(a[..]) == TrimRight(CStr(old(a[..])))
    ensures forall i :: |TrimRight(CStr(old(a[..])))| <= i <= StrLen(old(a[..])) ==> a[i] == NUL
    ensures forall i :: StrLen(old(a[..])) < i < a.Length ==> a[i] == old(a[i])
  {
    ghost var orig := a[..];
    ghost var body := CStr(a[..]);
    ghost var m := StrLen(a[..]);
    var n: nat := Strlen(a, 0);
    assert a[0..] == a[..];
    assert orig[..m] == body;
    while n > 0 && IsSpace(a[n - 1])
      invariant Trailing(a[..], orig, body, n, m)
      invariant TrimRight(body) == TrimRight(body[..n])
    {
      assert a[n - 1] == a[..][..n][n - 1];
      TrimRightStep(body, n);
      ghost var before := a[..];
      a[n - 1] := NUL;
      TrailingStep(before, a[..], orig, body, n, m);
      n := n - 1;
    }
    if n > 0 {
      assert a[n - 1] == a[..][..n][n - 1];
    }
    TrimmedAt(a[..], body, n);
  }

  /** The state of the trailing loop: the buffer holds `body` up to `n`, NUL from `n`
      up to the terminator at `m`, and what it held beyond. */
  ghost predicate Trailing(s: seq<char>, orig: seq<char>, body: seq<char>, n: nat, m: nat)
  {
    n <= m < |s| == |orig| && |body| == m && s[..n] == body[..n] &&
    (forall i :: n <= i <= m ==> s[i] == NUL) &&
    (forall i :: m < i < |s| ==> s[i] == orig[i])
  }

  /** Writing NUL over the character before `n` moves the boundary down by one. */
  lemma TrailingStep(before: seq<char>, after: seq<char>, orig: seq<char>, body: seq<char>, n: nat, m: nat)
    requires Trailing(before, orig, body, n, m) && 0 < n && after == before[n - 1 := NUL]
    ensures Trailing(after, orig, body, n - 1, m)
  {
    assert after[..n - 1] == before[..n][..n - 1];
  }

  /** A buffer that holds the start of `body` up to a position where no white space
      precedes, then NUL, holds the right-trimmed `body`. */
  lemma TrimmedAt(s: seq<char>, body: seq<char>, n: nat)
    requires n <= |body| && n < |s| && s[..n] == body[..n] && s[n] == NUL && NUL !in body
    requires TrimRight(body) == TrimRight(body[..n])
    requires n > 0 ==> !IsSpace(s[n - 1])
    ensures NUL in s && CStr(s) == TrimRight(body) && |TrimRight(body)| == n
  {
    if n > 0 {
      assert body[..n][n - 1] == s[n - 1];
    }
    assert TrimRight(body[..n]) == body[..n];
    assert NUL !in s[..n] by {
      forall i | 0 <= i < n
        ensures s[i] != NUL
      {
        assert s[..n][i] == body[i];
      }
    }
    StrLenAt(s, n);
  }

  /** `trimInPlace`: the buffer afterwards holds the trimmed string. The trimmed text
      sits at the front (moved there when there was leading white space), the
      positions from its end up to where the moved text ended are NUL, and the rest of
      the buffer is untouched. */
  method TrimInPlace(a: array<char>)
    requires NUL in a[..]
    modifies a
    ensures NUL in a[..] && CStr(a[..]) == Trim(CStr(old(a[..])))
    ensures var len := StrLen(old(a[..])); var lead := len - |TrimLeft(CStr(old(a[..])))|;
      (forall i :: |Trim(CStr(old(a[..])))| <= i <= len - lead ==> a[i] == NUL) &&
      (forall i :: len - lead < i < a.Length ==> a[i] == old(a[i]))
  {
    ghost var orig := a[..];
    var start := TrimLeading(a);
    ghost var moved := a[..];
    TrimTrailing(a);
    TrimFinish(orig, moved, a[..], start);
  }

  /** The leading part of `trimInPlace`: skip the white space and, when there was some,
      move the rest of the string with its terminator to the front. */
  method TrimLeading(a: array<char>) returns (start: nat)
    requires NUL in a[..]
    modifies a
    ensures NUL in old(a[..]) && NUL in a[..] && Moved(old(a[..]), a[..], start)
    ensures TrimLeft(CStr(old(a[..]))) == CStr(old(a[..]))[start..]
  {
    ghost var orig := a[..];
    start := SkipSpace(a);
    if start != 0 {
      StrLenFrom(orig, start);
      assert a[start..] == orig[start..];
      var n := Strlen(a, start);
      MemMove(a, 0, start, n + 1);
    }
    assert Moved(orig, a[..], start);
    assert a[..][StrLen(orig) - start] == NUL;
  }

  /** `moved` holds the string of `orig` from `start` on, with its terminator, at the
      front, and `orig` elsewhere. */
  ghost predicate Moved(orig: seq<char>, moved: seq<char>, start: nat)
    requires NUL in orig
  {
    start <= StrLen(orig) && |moved| == |orig| &&
    forall i {:trigger moved[i]} :: 0 <= i < |moved| ==> moved[i] == if i <= StrLen(orig) - start then orig[start + i] else orig[i]
  }

  /** The two loops of `trimInPlace` together, on the buffer's contents before (`orig`),
      between (`moved`) and after (`done`). */
  lemma TrimFinish(orig: seq<char>, moved: seq<char>, done: seq<char>, start: nat)
    requires NUL in orig && Moved(orig, moved, start)
    requires TrimLeft(CStr(orig)) == CStr(orig)[start..]
    requires |done| == |moved| && NUL in moved
    requires NUL in done && CStr(done) == TrimRight(CStr(moved))
    requires forall i :: |TrimRight(CStr(moved))| <= i <= StrLen(moved) ==> done[i] == NUL
    requires forall i :: StrLen(moved) < i < |done| ==> done[i] == moved[i]
    ensures CStr(done) == Trim(CStr(orig))
    ensures var len := StrLen(orig); var lead := len - |TrimLeft(CStr(orig))|;
      (forall i :: |Trim(CStr(orig))| <= i <= len - lead ==> done[i] == NUL) &&
      (forall i :: len - lead < i < |done| ==> done[i] == orig[i])
  {
    MovedText(orig, moved, start);
    MovedRest(orig, moved, done, start);
  }

  /** After the move the buffer holds the left-trimmed string, so trimming its right
      trims the original string. */
  lemma MovedText(orig: seq<char>, moved: seq<char>, start: nat)
    requires NUL in orig && Moved(orig, moved, start)
    requires TrimLeft(CStr(orig)) == CStr(orig)[start..]
    ensures NUL in moved && CStr(moved) == TrimLeft(CStr(orig))
    ensures Trim(CStr(orig)) == TrimRight(CStr(moved))
    ensures StrLen(moved) == StrLen(orig) - start == StrLen(orig) - (StrLen(orig) - |TrimLeft(CStr(orig))|)
  {
    MovedFront(orig, moved, start);
  }

  /** Beyond the moved string's terminator the buffer holds what it held before. */
  lemma MovedRest(orig: seq<char>, moved: seq<char>, done: seq<char>, start: nat)
    requires NUL in orig && Moved(orig, moved, start) && NUL in moved
    requires StrLen(moved) == StrLen(orig) - start && |done| == |moved|
    requires forall i :: StrLen(moved) < i < |done| ==> done[i] == moved[i]
    ensures forall i :: StrLen(orig) - start < i < |done| ==> done[i] == orig[i]
  {
    forall i | StrLen(orig) - start < i < |done|
      ensures done[i] == orig[i]
    {
      assert done[i] == moved[i];
    }
  }
}
