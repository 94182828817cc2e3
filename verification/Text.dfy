/** The few string operations the parsers and printers rely on, with Python's notion of white space and line breaks. */
module Text {

  /** `str.isspace` for one character; the same set as `\s` in a pattern. */
  predicate IsSpace(c: char) {
    var n := c as int;
    || 0x09 <= n <= 0x0d || 0x1c <= n <= 0x20 || n == 0x85 || n == 0xa0 || n == 0x1680 || 0x2000 <= n <= 0x200a
    || n == 0x2028 || n == 0x2029 || n == 0x202f || n == 0x205f || n == 0x3000
  }

  /** The boundaries of `str.splitlines`. */
  predicate IsBreak(c: char) {
    var n := c as int;
    0x0a <= n <= 0x0d || 0x1c <= n <= 0x1e || n == 0x85 || n == 0x2028 || n == 0x2029
  }

  predicate SingleLine(s: string) {
    forall i :: 0 <= i < |s| ==> !IsBreak(s[i])
  }

  /** Printable characters only; cheaper to check of a literal than `SingleLine`. */
  predicate Ascii(s: string) {
    forall i :: 0 <= i < |s| ==> ' ' <= s[i] <= '~'
  }

  predicate Stripped(s: string) {
    s == "" || (!IsSpace(s[0]) && !IsSpace(s[|s| - 1]))
  }

  function LStrip(s: string): string {
    if s == "" || !IsSpace(s[0]) then s else LStrip(s[1..])
  }

  function RStrip(s: string): string {
    if s == "" || !IsSpace(s[|s| - 1]) then s else RStrip(s[..|s| - 1])
  }

  function Strip(s: string): string {
    LStrip(RStrip(s))
  }

  lemma {:induction false} LStripFacts(s: string)
    ensures |LStrip(s)| <= |s| && LStrip(s) == s[|s| - |LStrip(s)|..]
    ensures LStrip(s) == "" || !IsSpace(LStrip(s)[0])
    decreases |s|
  {
    if s == "" {
    } else if IsSpace(s[0]) {
      LStripFacts(s[1..]);
    }
  }

  lemma {:induction false} RStripFacts(s: string)
    ensures RStrip(s) <= s
    ensures RStrip(s) == "" || !IsSpace(RStrip(s)[|RStrip(s)| - 1])
    decreases |s|
  {
    if s == "" {
    } else if IsSpace(s[|s| - 1]) {
      RStripFacts(s[..|s| - 1]);
    }
  }

  lemma StripOfStripped(s: string)
    requires Stripped(s)
    ensures Strip(s) == s
  {
  }

  /** `strip` yields a stripped piece of the text, and changes the text only when it was not stripped. */
  lemma StripFacts(s: string)
    ensures Stripped(Strip(s)) && |Strip(s)| <= |s|
    ensures Strip(s) == s <==> Stripped(s)
    ensures |Strip(s)| == |s| ==> Strip(s) == s
    ensures forall c :: c in Strip(s) ==> c in s
  {
    hide LStrip, RStrip, IsSpace;
    var r := RStrip(s);
    RStripFacts(s);
    LStripFacts(r);
    var n := |r| - |Strip(s)|;
    assert Strip(s) == s[n..|r|];
    if Strip(s) != "" {
      assert Strip(s)[|Strip(s)| - 1] == r[|r| - 1];
    }
    if Stripped(s) {
      StripOfStripped(s);
    }
    forall c | c in Strip(s) ensures c in s {
      var i :| 0 <= i < |Strip(s)| && Strip(s)[i] == c;
      assert s[n + i] == c;
    }
  }

  predicate Blank(s: string) {
    forall i :: 0 <= i < |s| ==> IsSpace(s[i])
  }

  lemma {:induction false} LStripCuts(s: string)
    ensures |LStrip(s)| <= |s| && Blank(s[..|s| - |LStrip(s)|])
    decreases |s|
  {
    if s == "" {
    } else if IsSpace(s[0]) {
      LStripCuts(s[1..]);
      assert s[..|s| - |LStrip(s)|] == [s[0]] + s[1..][..|s| - 1 - |LStrip(s)|];
    }
  }

  lemma {:induction false} RStripCuts(s: string)
    ensures RStrip(s) <= s && Blank(s[|RStrip(s)|..])
    decreases |s|
  {
    if s == "" {
    } else if IsSpace(s[|s| - 1]) {
      RStripCuts(s[..|s| - 1]);
      assert s[|RStrip(s)|..] == s[..|s| - 1][|RStrip(s)|..] + [s[|s| - 1]];
    }
  }

  /** Only white space is cut off. */
  lemma StripCuts(s: string) returns (a: string, b: string)
    ensures s == a + Strip(s) + b && Blank(a) && Blank(b)
  {
    hide LStrip, RStrip, Blank;
    var r := RStrip(s);
    RStripCuts(s);
    LStripCuts(r);
    LStripFacts(r);
    a, b := r[..|r| - |Strip(s)|], s[|r|..];
  }

  lemma {:induction false} LStripBlank(a: string, s: string)
    requires Blank(a)
    ensures LStrip(a + s) == LStrip(s)
    decreases |a|
  {
    if a == "" {
      assert a + s == s;
    } else {
      LStripBlank(a[1..], s);
      assert (a + s)[1..] == a[1..] + s;
    }
  }

  lemma {:induction false} RStripBlank(s: string, a: string)
    requires Blank(a)
    ensures RStrip(s + a) == RStrip(s)
    decreases |a|
  {
    if a == "" {
      assert s + a == s;
    } else {
      RStripBlank(s, a[..|a| - 1]);
      assert (s + a)[..|s + a| - 1] == s + a[..|a| - 1];
    }
  }

  lemma StripPadded(a: string, s: string, b: string)
    requires Blank(a) && Blank(b) && Stripped(s) && s != ""
    ensures Strip(a + s + b) == s
  {
    hide IsSpace, Blank;
    RStripBlank(a + s, b);
    assert (a + s)[|a + s| - 1] == s[|s| - 1];
    assert RStrip(a + s) == a + s;
    LStripBlank(a, s);
  }

  /** Index of the first line break, or the length. */
  function BreakAt(s: string): (i: nat)
    ensures i <= |s| && SingleLine(s[..i])
    ensures i < |s| ==> IsBreak(s[i])
  {
    if s == "" || IsBreak(s[0]) then 0 else
      var i := 1 + BreakAt(s[1..]);
      assert s[..i] == [s[0]] + s[1..][..i - 1];
      i
  }

  /** CR LF counts as one break. */
  function BreakLength(s: string, i: nat): (n: nat)
    requires i < |s|
    ensures 1 <= n && i + n <= |s|
  {
    if s[i] == '\r' && i + 1 < |s| && s[i + 1] == '\n' then 2 else 1
  }

  function SplitLines(s: string): (lines: seq<string>)
    ensures forall k :: 0 <= k < |lines| ==> SingleLine(lines[k])
  {
    if s == "" then [] else
      var i := BreakAt(s);
      if i == |s| then [s] else [s[..i]] + SplitLines(s[i + BreakLength(s, i)..])
  }

  function Unlines(lines: seq<string>): string {
    if lines == [] then "" else lines[0] + "\n" + Unlines(lines[1..])
  }

  lemma {:induction false} BreakAtIs(s: string, i: nat)
    requires i <= |s| && SingleLine(s[..i]) && (i < |s| ==> IsBreak(s[i]))
    ensures BreakAt(s) == i
  {
  }

  /** A line ends at any break, and CR LF is one. */
  lemma {:induction false} LineEnds(line: string, mark: string, rest: string)
    requires SingleLine(line)
    requires mark == "\r\n" || (|mark| == 1 && IsBreak(mark[0]) && !(mark == "\r" && rest != "" && rest[0] == '\n'))
    ensures SplitLines(line + mark + rest) == [line] + SplitLines(rest)
  {
    var s := line + mark + rest;
    assert s[..|line|] == line;
    BreakAtIs(s, |line|);
    assert s[|line| + |mark|..] == rest;
  }

  lemma {:induction false} SplitLinesCons(line: string, rest: string)
    requires SingleLine(line)
    ensures SplitLines(line + "\n" + rest) == [line] + SplitLines(rest)
  {
    hide SplitLines, SingleLine;
    LineEnds(line, "\n", rest);
  }

  /** Printing lines and splitting them again, with an unterminated last line or none. */
  lemma {:induction false} SplitUnlines(lines: seq<string>, last: string)
    requires forall k :: 0 <= k < |lines| ==> SingleLine(lines[k])
    requires SingleLine(last)
    ensures SplitLines(Unlines(lines) + last) == lines + if last == "" then [] else [last]
    decreases |lines|
  {
    if lines == [] {
      assert Unlines(lines) + last == last;
      if last != "" {
        assert last[..|last|] == last;
        BreakAtIs(last, |last|);
      }
    } else {
      SplitUnlines(lines[1..], last);
      SplitLinesCons(lines[0], Unlines(lines[1..]) + last);
      assert Unlines(lines) + last == lines[0] + "\n" + (Unlines(lines[1..]) + last);
    }
  }

  lemma {:induction false} UnlinesConcat(a: seq<string>, b: seq<string>)
    ensures Unlines(a + b) == Unlines(a) + Unlines(b)
    decreases |a|
  {
    if a == [] {
      assert a + b == b;
    } else {
      UnlinesConcat(a[1..], b);
      assert (a + b)[1..] == a[1..] + b;
    }
  }

  lemma {:induction false} UnlinesSnoc(a: seq<string>, line: string)
    ensures Unlines(a + [line]) == Unlines(a) + line + "\n"
  {
    UnlinesConcat(a, [line]);
    assert [line][1..] == [];
    assert Unlines([line]) == line + "\n" + "";
  }
}
