/** main.c and control_module.c: the firmware's line reader and command loop. */
module Uart {
  import opened Wrappers
  import opened Text

  const UART_LINE_MAX := 160
  const MODE_MAX := 3
  const NUL: char := 0 as char

  // ----- uart_readline -----

  predicate IsTerminator(c: char) {
    c == '\r' || c == '\n'
  }

  /** Index of the first line terminator, or the length of the input so far. */
  function LineEnd(input: string): (n: nat)
    ensures n <= |input|
    ensures forall k :: 0 <= k < n ==> !IsTerminator(input[k])
    ensures n < |input| ==> IsTerminator(input[n])
  {
    if input == [] || IsTerminator(input[0]) then 0 else 1 + LineEnd(input[1..])
  }

  function Fitting(line: string, size: nat): nat
    requires size > 0
  {
    if |line| < size then |line| else size - 1
  }

  /** The buffer holds the longest prefix of the line that leaves room for its terminator. */
  predicate Stored(buf: string, line: string) {
    && |buf| > 0
    && (var n := Fitting(line, |buf|); buf[..n] == line[..n] && buf[n] == NUL)
  }

  /** Reads up to the next terminator; `complete` is false while the line is still arriving. */
  method ReadLine(input: string, buf: array<char>) returns (complete: bool, fits: bool, read: nat)
    requires buf.Length > 0
    modifies buf
    ensures complete <==> LineEnd(input) < |input|
    ensures complete ==> read == LineEnd(input) + 1 && Stored(buf[..], input[..LineEnd(input)])
    ensures complete ==> (fits <==> LineEnd(input) < buf.Length)
  {
    var i, next, truncated := 0, 0, false;
    while next < |input| && !IsTerminator(input[next])
      invariant next <= LineEnd(input)
      invariant i == Fitting(input[..next], buf.Length) && i < buf.Length
      invariant buf[..i] == input[..i]
      invariant truncated <==> next >= buf.Length
    {
      if i < buf.Length - 1 {
        buf[i] := input[next];
        i := i + 1;
      } else {
        truncated := true;
      }
      next := next + 1;
    }
    complete, fits, read := next < |input|, !truncated, next + 1;
    if complete {
      buf[i] := NUL;
    }
  }

  // ----- strtok on the line buffer -----

  /** The C string at the front of a buffer. */
  function CString(s: string): string {
    if s == [] || s[0] == NUL then [] else [s[0]] + CString(s[1..])
  }

  predicate NulFree(s: string) {
    forall k :: 0 <= k < |s| ==> s[k] != NUL
  }

  lemma {:induction false} CStringAhead(t: string, rest: string)
    requires NulFree(t)
    ensures CString(t + rest) == t + CString(rest)
    decreases |t|
  {
    if t == [] {
      assert t + rest == rest;
    } else {
      assert (t + rest)[1..] == t[1..] + rest;
      CStringAhead(t[1..], rest);
    }
  }

  lemma StoredCString(buf: string, line: string)
    requires Stored(buf, line) && |line| < |buf|
    ensures CString(buf) == CString(line)
  {
    var n := |line|;
    assert buf == line + buf[n..];
    CStringOfPrefix(line, buf[n..]);
  }

  lemma {:induction false} CStringOfPrefix(t: string, rest: string)
    requires rest != [] && rest[0] == NUL
    ensures CString(t + rest) == CString(t)
    decreases |t|
  {
    if t == [] {
      assert t + rest == rest;
    } else {
      assert (t + rest)[1..] == t[1..] + rest;
      CStringOfPrefix(t[1..], rest);
    }
  }

  lemma SkipDelimiter(s: string)
    requires s != [] && IsDelimiter(s[0])
    ensures TokensOf(CString(s)) == TokensOf(CString(s[1..]))
  {
    assert CString(s)[1..] == CString(s[1..]);
  }

  lemma CutToken(s: string, n: nat)
    requires 0 < n < |s| && NulFree(s[..n]) && Unbroken(s[..n]) && (s[n] == NUL || IsDelimiter(s[n]))
    ensures TokensOf(CString(s)) == [s[..n]] + (if s[n] == NUL then [] else TokensOf(CString(s[n + 1..])))
  {
    var t, rest := s[..n], s[n..];
    assert s == t + rest;
    CStringAhead(t, rest);
    TokensCons(t, CString(rest));
    if s[n] != NUL {
      SkipDelimiter(rest);
      assert rest[1..] == s[n + 1..];
    }
  }

  class Strtok {
    const buf: array<char>
    var next: nat
    ghost const stop: nat // where the line ends

    ghost predicate Valid()
      reads this, buf
    {
      next <= stop < buf.Length && buf[stop] == NUL
    }

    /** What is left of the line. */
    ghost function Rest(): string
      requires Valid()
      reads this, buf
    {
      CString(buf[next..])
    }

    constructor (line: array<char>, ghost end: nat)
      requires end < line.Length && line[end] == NUL
      ensures Valid() && buf == line && next == 0
    {
      buf := line;
      next := 0;
      stop := end;
    }

    method SkipDelimiters()
      requires Valid()
      modifies this`next
      ensures Valid() && TokensOf(Rest()) == TokensOf(old(Rest())) && !IsDelimiter(buf[next])
    {
      while IsDelimiter(buf[next])
        invariant Valid() && TokensOf(Rest()) == TokensOf(old(Rest()))
        decreases stop - next
      {
        SkipDelimiter(buf[next..]);
        assert buf[next..][1..] == buf[next + 1..];
        next := next + 1;
      }
    }

    method ScanToken() returns (end: nat)
      requires Valid() && !IsDelimiter(buf[next])
      ensures next <= end <= stop && NulFree(buf[next..end]) && (buf[end] == NUL || IsDelimiter(buf[end]))
      ensures forall k :: next <= k < end ==> !IsDelimiter(buf[k])
    {
      end := next;
      while !IsDelimiter(buf[end]) && buf[end] != NUL
        invariant next <= end <= stop && NulFree(buf[next..end])
        invariant forall k :: next <= k < end ==> !IsDelimiter(buf[k])
        decreases stop - end
      {
        assert buf[next..end + 1] == buf[next..end] + [buf[end]];
        end := end + 1;
      }
    }

    /** Ends the current token at `end` and moves on. */
    method Cut(end: nat)
      requires Valid() && next <= end <= stop
      modifies this`next, buf
      ensures Valid() && Rest() == old(if buf[end] == NUL then [] else CString(buf[end + 1..]))
    {
      if buf[end] == NUL {
        next := end;
      } else {
        ghost var after := buf[end + 1..];
        buf[end] := NUL;
        next := end + 1;
        assert buf[next..] == after;
      }
    }

    /** strtok: the next token, cut off the line in place. */
    method Next() returns (token: Option<string>)
      requires Valid()
      modifies this`next, buf
      ensures Valid()
      ensures token == if TokensOf(old(Rest())) == [] then None else Some(TokensOf(old(Rest()))[0])
      ensures TokensOf(Rest()) == if TokensOf(old(Rest())) == [] then [] else TokensOf(old(Rest()))[1..]
    {
      hide TokenLength, Unbroken;
      SkipDelimiters();
      if buf[next] == NUL {
        return None;
      }
      var end := ScanToken();
      token := Some(buf[next..end]);
      TokenFound(buf[next..], buf[next..end], end - next, buf[end], buf[end + 1..]);
      Cut(end);
    }
  }

  lemma TokenFound(s: string, t: string, n: nat, c: char, after: string)
    requires n < |s| && t == s[..n] && c == s[n] && after == s[n + 1..]
    requires NulFree(t) && (forall k :: 0 <= k < n ==> !IsDelimiter(t[k])) && (c == NUL || IsDelimiter(c))
    requires !IsDelimiter(s[0]) && s[0] != NUL
    ensures TokensOf(CString(s)) == [t] + TokensOf(if c == NUL then [] else CString(after))
  {
    hide TokenLength, CString;
    NoTokensIffBlank([]);
    CutToken(s, n);
  }
}
