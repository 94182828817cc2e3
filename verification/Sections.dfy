/** Template sections: a stack machine over marker lines, and the section forests it recognises. */
module Sections {
  import opened Text

  datatype Error = Unbalanced(name: string) | Unclosed(names: seq<string>)
  datatype Result<+T> = Ok(value: T) | Err(error: Error)
  datatype Mark = Open(name: string) | Close(name: string) | Plain

  /** `#[[ name` opens a section and `#]] name` closes it, whatever the indentation. */
  function Classify(line: string): Mark {
    var stripped := Strip(line);
    if "#[[ " <= stripped then Open(Strip(stripped[4..]))
    else if "#]] " <= stripped then Close(Strip(stripped[4..]))
    else Plain
  }

  /** `splitlines(keepends=True)`. */
  function SplitKeep(text: string): seq<string> {
    if text == "" then [] else
      var i := BreakAt(text);
      if i == |text| then [text]
      else [text[..i + BreakLength(text, i)]] + SplitKeep(text[i + BreakLength(text, i)..])
  }

  function Join(parts: seq<string>): string {
    if parts == [] then "" else parts[0] + Join(parts[1..])
  }

  predicate AllWanted(stack: seq<string>, wanted: set<string>) {
    forall i :: 0 <= i < |stack| ==> stack[i] in wanted
  }

  function Prepend(lines: seq<string>, r: Result<seq<string>>): Result<seq<string>> {
    match r
    case Ok(rest) => Ok(lines + rest)
    case Err(e) => Err(e)
  }

  function Kept(lines: seq<string>, keep: bool): seq<string> {
    if keep then lines else []
  }

  /** The machine: what it emits for `lines` when the sections in `stack` are open. */
  function Scan(lines: seq<string>, stack: seq<string>, wanted: set<string>): Result<seq<string>>
    decreases |lines|
  {
    if lines == [] then (if stack == [] then Ok([]) else Err(Unclosed(stack)))
    else match Classify(lines[0])
         case Open(name) => Scan(lines[1..], stack + [name], wanted)
         case Close(name) =>
           if stack == [] || stack[|stack| - 1] != name then Err(Unbalanced(name))
           else Scan(lines[1..], stack[..|stack| - 1], wanted)
         case Plain => Prepend(Kept([lines[0]], AllWanted(stack, wanted)), Scan(lines[1..], stack, wanted))
  }

  function Render(text: string, wanted: set<string>): Result<string> {
    match Scan(SplitKeep(text), [], wanted)
    case Ok(lines) => Ok(Join(lines))
    case Err(e) => Err(e)
  }

  method RenderSections(text: string, wanted: set<string>) returns (r: Result<string>)
    ensures r == Render(text, wanted)
  {
    hide Classify, SplitKeep;
    var lines := SplitKeep(text);
    var out: seq<string> := [];
    var stack: seq<string> := [];
    assert lines[0..] == lines;
    PrependNothing(Scan(lines, [], wanted));
    for k := 0 to |lines|
      invariant Scan(lines, [], wanted) == Prepend(out, Scan(lines[k..], stack, wanted))
    {
      assert lines[k..][0] == lines[k] && lines[k..][1..] == lines[k + 1..];
      ghost var was := out;
      match Classify(lines[k]) {
        case Open(name) =>
          stack := stack + [name];
        case Close(name) =>
          if stack == [] || stack[|stack| - 1] != name {
            return Err(Unbalanced(name));
          }
          stack := stack[..|stack| - 1];
        case Plain =>
          if AllWanted(stack, wanted) {
            out := out + [lines[k]];
          }
          PrependTwice(was, Kept([lines[k]], AllWanted(stack, wanted)), Scan(lines[k + 1..], stack, wanted));
          assert out == was + Kept([lines[k]], AllWanted(stack, wanted));
      }
    }
    if stack != [] {
      return Err(Unclosed(stack));
    }
    assert out + [] == out;
    r := Ok(Join(out));
  }

  lemma PrependTwice(a: seq<string>, b: seq<string>, r: Result<seq<string>>)
    ensures Prepend(a, Prepend(b, r)) == Prepend(a + b, r)
  {
    if r.Ok? {
      assert a + (b + r.value) == a + b + r.value;
    }
  }

  lemma PrependKept(a: seq<string>, b: seq<string>, keep: bool, r: Result<seq<string>>)
    ensures Prepend(Kept(a, keep), Prepend(Kept(b, keep), r)) == Prepend(Kept(a + b, keep), r)
  {
    PrependTwice(Kept(a, keep), Kept(b, keep), r);
    assert Kept(a, keep) + Kept(b, keep) == Kept(a + b, keep);
  }

  lemma {:induction false} JoinCons(part: string, parts: seq<string>)
    ensures Join([part] + parts) == part + Join(parts)
  {
    assert ([part] + parts)[1..] == parts;
  }

  /** The first line, its end included. */
  function FirstLine(text: string): (j: nat)
    requires text != ""
    ensures 0 < j <= |text|
  {
    if BreakAt(text) == |text| then |text| else BreakAt(text) + BreakLength(text, BreakAt(text))
  }

  lemma {:induction false} SplitCons(text: string)
    requires text != ""
    ensures SplitKeep(text) == [text[..FirstLine(text)]] + SplitKeep(text[FirstLine(text)..])
  {
    if BreakAt(text) == |text| {
      assert text[..|text|] == text && text[|text|..] == "";
    }
  }

  /** Splitting loses nothing. */
  lemma {:induction false} JoinSplit(text: string)
    ensures Join(SplitKeep(text)) == text
    decreases |text|
  {
    if text == "" {
    } else {
      hide Join, SplitKeep, FirstLine;
      var j := FirstLine(text);
      JoinSplit(text[j..]);
      SplitCons(text);
      JoinCons(text[..j], SplitKeep(text[j..]));
    }
  }

  /** Each piece is a line with its break, whatever the break. */
  lemma {:induction false} PieceEnds(line: string, mark: string, rest: string)
    requires SingleLine(line)
    requires mark == "\r\n" || (|mark| == 1 && IsBreak(mark[0]) && !(mark == "\r" && rest != "" && rest[0] == '\n'))
    ensures SplitKeep(line + mark + rest) == [line + mark] + SplitKeep(rest)
    ensures line != "" ==> SplitKeep(line) == [line]
  {
    var s := line + mark + rest;
    assert s[..|line|] == line && line[..|line|] == line;
    BreakAtIs(s, |line|);
    BreakAtIs(line, |line|);
    assert s[..|line| + |mark|] == line + mark && s[|line| + |mark|..] == rest;
  }

  // ---------------------------------------------------------------- markers

  /** A section opens or closes on a line that is its mark, white space and its name, between white space; a line whose
      text does not begin with a mark is plain, and so is a mark without a name. */
  lemma MarkIff(line: string, name: string)
    requires Stripped(name)
    ensures Classify(line) == Open(name) <==> Marked(line, "#[[ ", name)
    ensures Classify(line) == Close(name) <==> Marked(line, "#]] ", name)
  {
    hide Strip, Stripped, Marked;
    MarkUnique(line);
    MarkReadIff(line, "#[[ ", name);
    MarkReadIff(line, "#]] ", name);
  }

  lemma MarkReadIff(line: string, mark: string, name: string)
    requires mark in {"#[[ ", "#]] "} && Stripped(name)
    ensures mark <= Strip(line) && Strip(Strip(line)[4..]) == name <==> Marked(line, mark, name)
  {
    hide Strip, Stripped, Marked;
    if mark <= Strip(line) && Strip(Strip(line)[4..]) == name {
      MarkCut(line, mark, name);
    }
    if Marked(line, mark, name) {
      MarkRead(line, mark, name);
    }
  }

  lemma MarkUnique(line: string)
    ensures !("#[[ " <= Strip(line) && "#]] " <= Strip(line))
  {
    hide Strip;
    if "#[[ " <= Strip(line) {
      assert Strip(line)[1] == '[';
    }
  }

  ghost predicate Marked(line: string, mark: string, name: string) {
    name != "" && exists a, b, c :: line == a + (mark + b + name) + c && Blank(a) && Blank(b) && Blank(c)
  }

  lemma BlankConcat(a: string, b: string)
    requires Blank(a) && Blank(b)
    ensures Blank(a + b)
  {
    hide IsSpace;
  }

  lemma MarkCut(line: string, mark: string, name: string)
    requires mark in {"#[[ ", "#]] "} && mark <= Strip(line) && Strip(Strip(line)[4..]) == name
    ensures Marked(line, mark, name)
  {
    hide Strip, Blank, Stripped;
    var s := Strip(line);
    StripFacts(line);
    var a, c := StripCuts(line);
    var b, d := StripCuts(s[4..]);
    BlankConcat(d, c);
    BlankConcat(b, d);
    NotAlone(s, mark);
    assert b + "" + d == b + d;
    Regrouped(a, mark, b, name, d, c);
  }

  lemma Regrouped(a: string, mark: string, b: string, name: string, d: string, c: string)
    ensures a + (mark + (b + name + d)) + c == a + (mark + b + name) + (d + c)
  {
  }

  /** A stripped mark is not alone on its line. */
  lemma NotAlone(s: string, mark: string)
    requires mark in {"#[[ ", "#]] "} && Stripped(s) && mark <= s
    ensures !Blank(s[4..]) && s == mark + s[4..]
  {
    assert s[3] == ' ' && IsSpace(' ');
    assert s[4..][|s| - 5] == s[|s| - 1];
  }

  lemma MarkedText(mark: string, b: string, name: string)
    requires mark in {"#[[ ", "#]] "} && Stripped(name) && name != ""
    ensures var t := mark + b + name; Stripped(t) && t != "" && mark <= t && t[4..] == b + name + ""
    ensures Blank("")
  {
    var t := mark + b + name;
    assert t[0] == '#' && t[|t| - 1] == name[|name| - 1];
  }

  lemma MarkRead(line: string, mark: string, name: string)
    requires mark in {"#[[ ", "#]] "} && Stripped(name) && Marked(line, mark, name)
    ensures mark <= Strip(line) && Strip(Strip(line)[4..]) == name
  {
    hide Strip, Blank, Stripped;
    var a, b, c :| line == a + (mark + b + name) + c && Blank(a) && Blank(b) && Blank(c);
    MarkedText(mark, b, name);
    StripPadded(a, mark + b + name, c);
    StripPadded(b, name, "");
  }

  // ---------------------------------------------------------------- section forests

  /** A file as a sequence of lines and whole sections. */
  datatype Forest =
    | Nil
    | Line(line: string, next: Forest)
    | Section(open: string, body: Forest, close: string, next: Forest)

  predicate WellFormed(f: Forest) {
    match f
    case Nil => true
    case Line(line, next) => Classify(line) == Plain && WellFormed(next)
    case Section(open, body, close, next) =>
      && Classify(open).Open? && Classify(close) == Close(Classify(open).name)
      && WellFormed(body) && WellFormed(next)
  }

  function Flatten(f: Forest): seq<string> {
    match f
    case Nil => []
    case Line(line, next) => [line] + Flatten(next)
    case Section(open, body, close, next) => [open] + Flatten(body) + [close] + Flatten(next)
  }

  /** What a reader expects: a section's lines are there when its name is included and every enclosing one is. */
  function Eval(f: Forest, wanted: set<string>): seq<string>
    requires WellFormed(f)
  {
    match f
    case Nil => []
    case Line(line, next) => [line] + Eval(next, wanted)
    case Section(open, body, close, next) =>
      Kept(Eval(body, wanted), Classify(open).name in wanted) + Eval(next, wanted)
  }

  lemma {:induction false} ScanFlatten(f: Forest, stack: seq<string>, rest: seq<string>, wanted: set<string>)
    requires WellFormed(f)
    ensures Scan(Flatten(f) + rest, stack, wanted) ==
            Prepend(Kept(Eval(f, wanted), AllWanted(stack, wanted)), Scan(rest, stack, wanted))
    decreases f
  {
    hide Classify;
    match f {
      case Nil =>
        assert Flatten(f) + rest == rest;
        PrependNothing(Scan(rest, stack, wanted));
      case Line(line, next) =>
        var lines := Flatten(f) + rest;
        assert lines[0] == line && lines[1..] == Flatten(next) + rest;
        ScanFlatten(next, stack, rest, wanted);
        PrependKept([line], Eval(next, wanted), AllWanted(stack, wanted), Scan(rest, stack, wanted));
      case Section(open, body, close, next) =>
        ScanSection(open, body, close, next, stack, rest, wanted);
    }
  }

  lemma PrependNothing(r: Result<seq<string>>)
    ensures Prepend([], r) == r
  {
    if r.Ok? {
      assert [] + r.value == r.value;
    }
  }

  lemma InnerWanted(stack: seq<string>, name: string, wanted: set<string>)
    ensures AllWanted(stack + [name], wanted) <==> AllWanted(stack, wanted) && name in wanted
  {
    var inner := stack + [name];
    assert forall i :: 0 <= i < |stack| ==> inner[i] == stack[i];
    assert inner[|stack|] == name;
  }

  lemma {:induction false} ScanSection(open: string, body: Forest, close: string, next: Forest, stack: seq<string>,
                                       rest: seq<string>, wanted: set<string>)
    requires WellFormed(Section(open, body, close, next))
    ensures var f := Section(open, body, close, next);
            Scan(Flatten(f) + rest, stack, wanted) ==
            Prepend(Kept(Eval(f, wanted), AllWanted(stack, wanted)), Scan(rest, stack, wanted))
    decreases Section(open, body, close, next), 0
  {
    hide Classify;
    var name := Classify(open).name;
    var lines := Flatten(Section(open, body, close, next)) + rest;
    var after := Flatten(next) + rest;
    var inner := stack + [name];
    var tail := [close] + after;
    assert lines[0] == open && lines[1..] == Flatten(body) + tail;
    assert tail[0] == close && tail[1..] == after;
    assert inner[|inner| - 1] == name && inner[..|inner| - 1] == stack;
    ScanFlatten(body, inner, tail, wanted);
    ScanFlatten(next, stack, rest, wanted);
    InnerWanted(stack, name, wanted);
    hide AllWanted;
    var first := Kept(Eval(body, wanted), name in wanted);
    assert Kept(Eval(body, wanted), AllWanted(inner, wanted)) == Kept(first, AllWanted(stack, wanted));
    hide Kept, Flatten;
    PrependKept(first, Eval(next, wanted), AllWanted(stack, wanted), Scan(rest, stack, wanted));
  }

  // ---------------------------------------------------------------- and nothing else is accepted

  /** A forest for the innermost open section, its closing line, a forest for the one around it, and so on. */
  function Weave(fs: seq<Forest>, closes: seq<string>): seq<string>
    requires |fs| == |closes| + 1
  {
    if closes == [] then Flatten(fs[0]) else Flatten(fs[0]) + [closes[0]] + Weave(fs[1..], closes[1..])
  }

  ghost predicate Closing(fs: seq<Forest>, closes: seq<string>, stack: seq<string>) {
    && |fs| == |closes| + 1 && |closes| == |stack|
    && (forall i :: 0 <= i < |fs| ==> WellFormed(fs[i]))
    && (forall i :: 0 <= i < |closes| ==> Classify(closes[i]) == Close(stack[|stack| - 1 - i]))
  }

  lemma Regroup<T>(p: seq<T>, f: seq<T>, c: seq<T>, more: seq<T>)
    ensures p + f + c + more == p + (f + c + more)
  {
  }

  lemma {:induction false} OpenWeave(open: string, fs: seq<Forest>, closes: seq<string>)
    requires |fs| == |closes| + 1 && closes != []
    ensures Weave([Section(open, fs[0], closes[0], fs[1])] + fs[2..], closes[1..]) == [open] + Weave(fs, closes)
  {
  }

  lemma {:induction false} OpenSection(lines: seq<string>, fs: seq<Forest>, closes: seq<string>, stack: seq<string>,
                                       name: string)
    requires lines != [] && Classify(lines[0]) == Open(name)
    requires Closing(fs, closes, stack + [name]) && Weave(fs, closes) == lines[1..]
    ensures var fs' := [Section(lines[0], fs[0], closes[0], fs[1])] + fs[2..];
            Closing(fs', closes[1..], stack) && Weave(fs', closes[1..]) == lines
  {
    hide Classify, Weave;
    OpenWeave(lines[0], fs, closes);
    assert Classify(closes[0]) == Close(name);
    assert forall i :: 0 <= i < |closes[1..]| ==> closes[1..][i] == closes[i + 1];
  }

  /** Whatever the machine accepts can be read back as a forest. */
  lemma {:induction false} ReadForest(lines: seq<string>, stack: seq<string>, wanted: set<string>)
    returns (fs: seq<Forest>, closes: seq<string>)
    requires Scan(lines, stack, wanted).Ok?
    ensures Closing(fs, closes, stack) && Weave(fs, closes) == lines
    decreases |lines|
  {
    hide Classify;
    if lines == [] {
      return [Nil], [];
    }
    match Classify(lines[0]) {
      case Plain =>
        fs, closes := ReadForest(lines[1..], stack, wanted);
        var fs' := [Line(lines[0], fs[0])] + fs[1..];
        assert fs'[1..] == fs[1..];
        assert Weave(fs', closes) == [lines[0]] + Weave(fs, closes);
        fs := fs';
      case Open(name) =>
        fs, closes := ReadForest(lines[1..], stack + [name], wanted);
        OpenSection(lines, fs, closes, stack, name);
        fs, closes := [Section(lines[0], fs[0], closes[0], fs[1])] + fs[2..], closes[1..];
      case Close(name) =>
        fs, closes := ReadForest(lines[1..], stack[..|stack| - 1], wanted);
        var fs', closes' := [Nil] + fs, [lines[0]] + closes;
        assert fs'[1..] == fs && closes'[1..] == closes;
        fs, closes := fs', closes';
    }
  }

  /** Lines of a file with the sections around them. */
  function Placed(f: Forest, around: set<string>): seq<(string, set<string>)>
    requires WellFormed(f)
  {
    match f
    case Nil => []
    case Line(line, next) => [(line, around)] + Placed(next, around)
    case Section(open, body, _, next) => Placed(body, around + {Classify(open).name}) + Placed(next, around)
  }

  function Chosen(lines: seq<(string, set<string>)>, wanted: set<string>): seq<string> {
    if lines == [] then [] else Kept([lines[0].0], lines[0].1 <= wanted) + Chosen(lines[1..], wanted)
  }

  lemma {:induction false} ChosenConcat(a: seq<(string, set<string>)>, b: seq<(string, set<string>)>,
                                        wanted: set<string>)
    ensures Chosen(a + b, wanted) == Chosen(a, wanted) + Chosen(b, wanted)
    decreases |a|
  {
    hide Kept;
    if a == [] {
      assert a + b == b;
    } else {
      ChosenConcat(a[1..], b, wanted);
      var all := a + b;
      assert all[1..] == a[1..] + b && all[0] == a[0];
    }
  }

  /** The lines printed are those whose sections are all wanted. */
  lemma {:induction false} EvalChooses(f: Forest, around: set<string>, wanted: set<string>)
    requires WellFormed(f)
    ensures Chosen(Placed(f, around), wanted) == if around <= wanted then Eval(f, wanted) else []
    decreases f
  {
    hide Classify;
    match f {
      case Nil =>
      case Line(line, next) =>
        EvalChooses(next, around, wanted);
        assert Placed(f, around)[1..] == Placed(next, around);
      case Section(open, body, close, next) =>
        EvalChooses(body, around + {Classify(open).name}, wanted);
        EvalChooses(next, around, wanted);
        ChosenConcat(Placed(body, around + {Classify(open).name}), Placed(next, around), wanted);
    }
  }

  // ---------------------------------------------------------------- what is refused

  /** Forests with opened sections between them. */
  function Opened(fs: seq<Forest>, opens: seq<string>): seq<string>
    requires |fs| == |opens| + 1
  {
    Flatten(fs[0]) + if opens == [] then [] else [opens[0]] + Opened(fs[1..], opens[1..])
  }

  predicate Opening(fs: seq<Forest>, opens: seq<string>, names: seq<string>) {
    && |fs| == |opens| + 1 && |names| == |opens|
    && (forall i :: 0 <= i < |fs| ==> WellFormed(fs[i]))
    && (forall i :: 0 <= i < |opens| ==> Classify(opens[i]) == Open(names[i]))
  }

  lemma {:induction false} ScanOpened(fs: seq<Forest>, opens: seq<string>, names: seq<string>, rest: seq<string>,
                                      stack: seq<string>, wanted: set<string>)
    requires Opening(fs, opens, names) && Scan(rest, stack + names, wanted).Err?
    ensures Scan(Opened(fs, opens) + rest, stack, wanted) == Scan(rest, stack + names, wanted)
    decreases |opens|
  {
    hide Classify;
    if opens == [] {
      assert stack + names == stack && Opened(fs, opens) + rest == Flatten(fs[0]) + rest;
      ScanFlatten(fs[0], stack, rest, wanted);
    } else {
      var tail := [opens[0]] + (Opened(fs[1..], opens[1..]) + rest);
      assert Opened(fs, opens) + rest == Flatten(fs[0]) + tail;
      assert tail[1..] == Opened(fs[1..], opens[1..]) + rest;
      assert stack + names == stack + [names[0]] + names[1..];
      ScanOpened(fs[1..], opens[1..], names[1..], rest, stack + [names[0]], wanted);
      ScanFlatten(fs[0], stack, tail, wanted);
    }
  }

  /** The error names what is wrong: the sections left open, outermost first, or the section closed out of turn. */
  lemma {:induction false} ErrorsNameTheSection(fs: seq<Forest>, opens: seq<string>, names: seq<string>, close: string,
                                                rest: seq<string>, wanted: set<string>)
    requires Opening(fs, opens, names) && Classify(close).Close?
    ensures names != [] ==> Scan(Opened(fs, opens), [], wanted) == Err(Unclosed(names))
    ensures (names == [] || names[|names| - 1] != Classify(close).name) ==>
              Scan(Opened(fs, opens) + ([close] + rest), [], wanted) == Err(Unbalanced(Classify(close).name))
  {
    hide Classify, Opened, WellFormed;
    assert [] + names == names && Opened(fs, opens) + [] == Opened(fs, opens);
    if names != [] {
      ScanOpened(fs, opens, names, [], [], wanted);
    }
    if names == [] || names[|names| - 1] != Classify(close).name {
      ScanOpened(fs, opens, names, [close] + rest, [], wanted);
    }
  }

  /** Rendering succeeds exactly on the files that are a forest of sections, and then yields its evaluation. */
  lemma {:induction false} RendersForests(text: string, wanted: set<string>)
    ensures Render(text, wanted).Ok? <==> exists f: Forest :: WellFormed(f) && Flatten(f) == SplitKeep(text)
    ensures forall f: Forest :: WellFormed(f) && Flatten(f) == SplitKeep(text) ==>
                                  Render(text, wanted) == Ok(Join(Eval(f, wanted)))
  {
    hide Classify, SplitKeep, Join;
    var lines := SplitKeep(text);
    if Scan(lines, [], wanted).Ok? {
      var fs, closes := ReadForest(lines, [], wanted);
      assert WellFormed(fs[0]) && Flatten(fs[0]) == lines;
    }
    forall f: Forest | WellFormed(f) && Flatten(f) == lines
      ensures Scan(lines, [], wanted) == Ok(Eval(f, wanted))
    {
      ScanFlatten(f, [], [], wanted);
      assert lines + [] == lines && Eval(f, wanted) + [] == Eval(f, wanted);
    }
  }

  // ---------------------------------------------------------------- feature history

  predicate Subsequence(a: seq<string>, b: seq<string>)
    decreases |b|
  {
    a == [] || (b != [] && ((a[0] == b[0] && Subsequence(a[1..], b[1..])) || Subsequence(a, b[1..])))
  }

  lemma {:induction false} SubsequenceConcat(a: seq<string>, b: seq<string>, c: seq<string>, d: seq<string>)
    requires Subsequence(a, b) && Subsequence(c, d)
    ensures Subsequence(a + c, b + d)
    decreases |b|
  {
    if b == [] {
      assert a + c == c && b + d == d;
    } else if a != [] && a[0] == b[0] && Subsequence(a[1..], b[1..]) {
      SubsequenceConcat(a[1..], b[1..], c, d);
      assert (a + c)[1..] == a[1..] + c && (b + d)[1..] == b[1..] + d;
    } else {
      SubsequenceConcat(a, b[1..], c, d);
      assert (b + d)[1..] == b[1..] + d;
    }
  }

  lemma {:induction false} EvalGrows(f: Forest, small: set<string>, large: set<string>)
    requires WellFormed(f) && small <= large
    ensures Subsequence(Eval(f, small), Eval(f, large))
    decreases f
  {
    hide Classify;
    match f {
      case Nil =>
      case Line(line, next) =>
        EvalGrows(next, small, large);
        var a, b := Eval(f, small), Eval(f, large);
        assert a[1..] == Eval(next, small) && b[1..] == Eval(next, large);
      case Section(open, body, close, next) =>
        EvalGrows(body, small, large);
        EvalGrows(next, small, large);
        var name := Classify(open).name;
        SubsequenceConcat(Kept(Eval(body, small), name in small), Kept(Eval(body, large), name in large),
                          Eval(next, small), Eval(next, large));
    }
  }

  /** The section sets of the planned revisions, oldest first. */
  function Revisions(): seq<set<string>> {
    [{},
     {"checkout"},
     {"checkout", "ledger"},
     {"checkout", "ledger", "metrics"},
     {"checkout", "ledger", "metrics"},
     {"checkout", "ledger", "metrics", "cron"},
     {"checkout", "ledger", "metrics", "cron"},
     {"checkout", "ledger", "metrics", "cron", "runbook"}]
  }

  /** Along the planned history each template either fails at every revision or at none, and a later revision has
      every line of an earlier one, in order. */
  lemma {:induction false} RevisionsOnlyAddLines(text: string, i: nat, j: nat)
    requires i <= j < |Revisions()|
    ensures match (Scan(SplitKeep(text), [], Revisions()[i]), Scan(SplitKeep(text), [], Revisions()[j]))
            case (Ok(a), Ok(b)) => Subsequence(a, b)
            case (Err(e), Err(d)) => e == d
            case _ => false
  {
    hide Classify, SplitKeep, Revisions;
    var lines, small, large := SplitKeep(text), Revisions()[i], Revisions()[j];
    assert small <= large by { RevisionsGrow(i, j); }
    ErrorsIgnoreWanted(lines, [], small, large);
    if Scan(lines, [], small).Ok? {
      var fs, closes := ReadForest(lines, [], small);
      assert Flatten(fs[0]) == lines;
      ScanFlatten(fs[0], [], [], small);
      ScanFlatten(fs[0], [], [], large);
      assert lines + [] == lines;
      EvalGrows(fs[0], small, large);
      assert Eval(fs[0], small) + [] == Eval(fs[0], small) && Eval(fs[0], large) + [] == Eval(fs[0], large);
    }
  }

  lemma RevisionsGrow(i: nat, j: nat)
    requires i <= j < |Revisions()|
    ensures Revisions()[i] <= Revisions()[j]
  {
  }

  lemma {:induction false} ErrorsIgnoreWanted(lines: seq<string>, stack: seq<string>, a: set<string>, b: set<string>)
    ensures Scan(lines, stack, a).Ok? == Scan(lines, stack, b).Ok?
    ensures Scan(lines, stack, a).Err? ==> Scan(lines, stack, a).error == Scan(lines, stack, b).error
    decreases |lines|
  {
    hide Classify;
    if lines == [] {
    } else {
      match Classify(lines[0]) {
        case Open(name) => ErrorsIgnoreWanted(lines[1..], stack + [name], a, b);
        case Close(name) =>
          if stack != [] {
            ErrorsIgnoreWanted(lines[1..], stack[..|stack| - 1], a, b);
          }
        case Plain => ErrorsIgnoreWanted(lines[1..], stack, a, b);
      }
    }
  }
}
