/** `read_sessions`: the session file is read line by line, each line is
    stripped of surrounding whitespace, and blank lines are dropped. Opening
    the file is not modelled: the lines arrive as a sequence, and a missing
    file arrives as `None`. */
module Sessions {
  import opened Wrappers

  /** Python's `str.isspace` for one character: the characters `str.strip()`
      removes when called without arguments. */
  predicate IsSpace(c: char) {
    || c == '\t' || c == '\n' || c == '\U{0B}' || c == '\U{0C}' || c == '\r'
    || ('\U{1C}' <= c <= '\U{1F}') || c == ' ' || c == '\U{85}' || c == '\U{A0}'
    || c == '\U{1680}' || ('\U{2000}' <= c <= '\U{200A}') || c == '\U{2028}' || c == '\U{2029}'
    || c == '\U{202F}' || c == '\U{205F}' || c == '\U{3000}'
  }

  predicate AllSpace(s: string) {
    forall i :: 0 <= i < |s| ==> IsSpace(s[i])
  }

  /** The number of whitespace characters `s` starts with. */
  function LeadingSpaces(s: string): (n: nat)
    ensures n <= |s| && AllSpace(s[..n])
    ensures n < |s| ==> !IsSpace(s[n])
  {
    if s != [] && IsSpace(s[0]) then 1 + LeadingSpaces(s[1..]) else 0
  }

  /** The number of whitespace characters `s` ends with. */
  function TrailingSpaces(s: string): (n: nat)
    ensures n <= |s| && AllSpace(s[|s| - n..])
    ensures n < |s| ==> !IsSpace(s[|s| - n - 1])
  {
    if s != [] && IsSpace(s[|s| - 1]) then 1 + TrailingSpaces(s[..|s| - 1]) else 0
  }

  /** `s.lstrip()`. */
  function TrimStart(s: string): string {
    s[LeadingSpaces(s)..]
  }

  /** `s.rstrip()`. */
  function TrimEnd(s: string): string {
    s[..|s| - TrailingSpaces(s)]
  }

  /** Python's `line.strip()`. */
  function Strip(s: string): (r: string)
    ensures |r| <= |s|
  {
    TrimEnd(TrimStart(s))
  }

  /** What one line contributes: its stripped text, unless that is empty. */
  function Kept(line: string): seq<string> {
    var s := Strip(line);
    if s != "" then [s] else []
  }

  /** `[line.strip() for line in f if line.strip()]`. */
  function StripNonBlank(lines: seq<string>): (sessions: seq<string>)
    ensures |sessions| <= |lines|
    ensures forall k :: 0 <= k < |sessions| ==> sessions[k] != []
  {
    if lines == [] then [] else Kept(lines[0]) + StripNonBlank(lines[1..])
  }

  /** `read_sessions(file)`: a missing file yields no sessions. */
  function ReadSessions(file: Option<seq<string>>): (sessions: seq<string>)
    ensures file.None? ==> sessions == []
    ensures file.Some? ==> |sessions| <= |file.value|
    ensures forall k :: 0 <= k < |sessions| ==> sessions[k] != [] && Strip(sessions[k]) == sessions[k]
  {
    match file
    case None => []
    case Some(lines) =>
      SessionsAreStripped(lines);
      StripNonBlank(lines)
  }

  // ---------------------------------------------------------------------
  // Properties of strip and read_sessions

  /** `strip` removes exactly the surrounding whitespace: the result is a
      contiguous piece of the line, everything around it is whitespace, and
      it neither starts nor ends with whitespace. */
  lemma StripIsInfix(s: string)
    ensures var r := Strip(s); var lead := |s| - |TrimStart(s)|;
      && lead + |r| <= |s|
      && r == s[lead..lead + |r|]
      && AllSpace(s[..lead]) && AllSpace(s[lead + |r|..])
      && (r != [] ==> !IsSpace(r[0]) && !IsSpace(r[|r| - 1]))
  {
    var t := TrimStart(s);
    var r := TrimEnd(t);
    var lead := |s| - |t|;
    assert s[lead..lead + |r|] == t[..|r|];
    assert s[lead + |r|..] == t[|r|..];
  }

  /** A line strips to nothing exactly when it is all whitespace. */
  lemma StripBlank(s: string)
    ensures Strip(s) == [] <==> AllSpace(s)
  {
    StripIsInfix(s);
    var t := TrimStart(s);
    if Strip(s) == [] {
      assert t[0..] == t;
      assert s[..|s| - |t|] == s;
    } else {
      var lead := |s| - |t|;
      assert Strip(s)[0] == s[lead];
    }
  }

  /** Stripping twice is stripping once. */
  lemma StripIdempotent(s: string)
    ensures Strip(Strip(s)) == Strip(s)
  {
    var r := Strip(s);
    StripIsInfix(s);
    if r != [] {
      assert TrimStart(r) == r;
      assert TrimEnd(r) == r;
    }
  }

  /** Every session is non-empty and carries no surrounding whitespace. */
  lemma {:induction false} SessionsAreStripped(lines: seq<string>)
    ensures forall k :: 0 <= k < |StripNonBlank(lines)| ==>
      var s := StripNonBlank(lines)[k]; s != [] && Strip(s) == s
  {
    if lines != [] {
      SessionsAreStripped(lines[1..]);
      StripIdempotent(lines[0]);
    }
  }

  /** The filter is taken line by line, in order: the sessions of a
      concatenation are the sessions of each part, one after the other. */
  lemma {:induction false} SessionsOfConcat(a: seq<string>, b: seq<string>)
    ensures StripNonBlank(a + b) == StripNonBlank(a) + StripNonBlank(b)
  {
    if a != [] {
      var head := Kept(a[0]);
      assert (a + b)[0] == a[0];
      assert (a + b)[1..] == a[1..] + b;
      SessionsOfConcat(a[1..], b);
      assert StripNonBlank(a + b) == head + StripNonBlank(a[1..] + b);
    } else {
      assert a + b == b;
    }
  }

  /** A string is a session exactly when some line strips to it and it is
      not empty. */
  lemma SessionMembership(lines: seq<string>, s: string)
    ensures s in StripNonBlank(lines) <==> s != [] && exists i :: 0 <= i < |lines| && Strip(lines[i]) == s
  {
    if s in StripNonBlank(lines) {
      LineOfSession(lines, s);
    }
    if s != [] && exists i :: 0 <= i < |lines| && Strip(lines[i]) == s {
      var i :| 0 <= i < |lines| && Strip(lines[i]) == s;
      SessionOfLine(lines, i);
    }
  }

  /** A line that does not strip to nothing yields a session. */
  lemma {:induction false} SessionOfLine(lines: seq<string>, i: nat)
    requires i < |lines| && Strip(lines[i]) != []
    ensures Strip(lines[i]) in StripNonBlank(lines)
  {
    var rest := StripNonBlank(lines[1..]);
    assert StripNonBlank(lines) == Kept(lines[0]) + rest;
    if i == 0 {
      assert Kept(lines[0]) == [Strip(lines[0])];
    } else {
      SessionOfLine(lines[1..], i - 1);
      assert lines[1..][i - 1] == lines[i];
      assert Strip(lines[i]) in rest;
    }
  }

  /** Every session is a stripped line of the file. */
  lemma {:induction false} LineOfSession(lines: seq<string>, s: string)
    requires s in StripNonBlank(lines)
    ensures s != [] && exists i :: 0 <= i < |lines| && Strip(lines[i]) == s
  {
    if Strip(lines[0]) != s || s == [] {
      assert s in StripNonBlank(lines[1..]);
      LineOfSession(lines[1..], s);
      var i :| 0 <= i < |lines[1..]| && Strip(lines[1..][i]) == s;
      assert Strip(lines[i + 1]) == s;
    }
  }

  /** Reading a file that already holds only sessions gives them back unchanged. */
  lemma {:induction false} SessionsIdempotent(lines: seq<string>)
    ensures StripNonBlank(StripNonBlank(lines)) == StripNonBlank(lines)
  {
    if lines != [] {
      var s := Strip(lines[0]);
      var rest := StripNonBlank(lines[1..]);
      SessionsIdempotent(lines[1..]);
      if s != "" {
        StripIdempotent(lines[0]);
        var out := [s] + rest;
        assert out[0] == s && out[1..] == rest;
        assert StripNonBlank(out) == [s] + StripNonBlank(rest);
      } else {
        assert StripNonBlank(lines) == rest;
      }
    }
  }
}
