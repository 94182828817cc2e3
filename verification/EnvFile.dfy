/** The `.env` printer and parser, and the interrupted write that cuts the file short. */
module EnvFile {
  import opened Options
  import opened Text

  type Env = map<string, string>

  datatype Binding = Binding(key: string, value: string)

  // ---------------------------------------------------------------- parser

  predicate Quoted(v: string) {
    |v| >= 2 && v[0] == v[|v| - 1] && (v[0] == '\'' || v[0] == '"')
  }

  function Unquote(v: string): string {
    if Quoted(v) then v[1..|v| - 1] else v
  }

  /** `str.partition("=")`: index of the first equals sign, or the length. */
  function EqualsAt(s: string): (i: nat)
    ensures i <= |s| && (forall k :: 0 <= k < i ==> s[k] != '=')
    ensures i < |s| ==> s[i] == '='
  {
    if s == "" || s[0] == '=' then 0 else 1 + EqualsAt(s[1..])
  }

  function WithoutExport(line: string): string {
    if "export " <= line then LStrip(line[7..]) else line
  }

  /** What one line of the file binds, if anything. */
  function ParseLine(raw: string): Option<Binding> {
    var line := Strip(raw);
    if line == "" || line[0] == '#' then None else
      var body := WithoutExport(line);
      var i := EqualsAt(body);
      if i == |body| then None else
        var key, value := Strip(body[..i]), Unquote(Strip(body[i + 1..]));
        if key == "" then None else Some(Binding(key, value))
  }

  function Bind(m: Env, line: string): Env {
    match ParseLine(line)
    case None => m
    case Some(b) => m[b.key := b.value]
  }

  /** Later lines win. */
  function Fold(lines: seq<string>): Env {
    if lines == [] then map[] else Bind(Fold(lines[..|lines| - 1]), lines[|lines| - 1])
  }

  function Parse(text: string): Env {
    Fold(SplitLines(text))
  }

  /** The body of the parser's loop. */
  method BindRaw(m: Env, raw: string) returns (result: Env)
    ensures result == Bind(m, raw)
  {
    hide Strip, LStrip, EqualsAt;
    result := m;
    var line := Strip(raw);
    if line == "" || line[0] == '#' {
      return;
    }
    if "export " <= line {
      line := LStrip(line[7..]);
    }
    var i := EqualsAt(line);
    if i == |line| {
      return;
    }
    var key := Strip(line[..i]);
    var value := Strip(line[i + 1..]);
    if Quoted(value) {
      value := value[1..|value| - 1];
    }
    if key != "" {
      result := result[key := value];
    }
  }

  method ParseEnvFile(text: string) returns (result: Env)
    ensures result == Parse(text)
  {
    result := map[];
    var lines := SplitLines(text);
    for k := 0 to |lines|
      invariant result == Fold(lines[..k])
    {
      assert lines[..k + 1][..k] == lines[..k];
      result := BindRaw(result, lines[k]);
    }
    assert lines[..|lines|] == lines;
  }

  // ---------------------------------------------------------------- printer

  datatype Group = Group(header: string, keys: seq<string>)

  function KeyLines(keys: seq<string>, state: Env): seq<string> {
    if keys == [] then []
    else (if keys[0] in state then [keys[0] + "=" + state[keys[0]]] else []) + KeyLines(keys[1..], state)
  }

  function GroupLines(g: Group, state: Env): seq<string> {
    if KeyLines(g.keys, state) == [] then [] else ["", g.header] + KeyLines(g.keys, state)
  }

  function LayoutLines(layout: seq<Group>, state: Env): seq<string> {
    if layout == [] then [] else GroupLines(layout[0], state) + LayoutLines(layout[1..], state)
  }

  /** A group is printed under its header, a line for each of its keys that has a value; without one it is left out. */
  lemma {:induction false} GroupShown(g: Group, state: Env)
    ensures GroupLines(g, state) == [] <==> forall i :: 0 <= i < |g.keys| ==> g.keys[i] !in state
    ensures GroupLines(g, state) != [] ==> GroupLines(g, state) == ["", g.header] + KeyLines(g.keys, state)
  {
    NoLines(g.keys, state);
  }

  lemma {:induction false} NoLines(keys: seq<string>, state: Env)
    ensures KeyLines(keys, state) == [] <==> forall i :: 0 <= i < |keys| ==> keys[i] !in state
    decreases |keys|
  {
    if keys == [] {
    } else {
      NoLines(keys[1..], state);
      assert forall i :: 0 <= i < |keys[1..]| ==> keys[1..][i] == keys[i + 1];
    }
  }

  lemma {:induction false} KeyLinesSnoc(keys: seq<string>, k: nat, state: Env)
    requires k < |keys|
    ensures KeyLines(keys[..k + 1], state) ==
            KeyLines(keys[..k], state) + if keys[k] in state then [keys[k] + "=" + state[keys[k]]] else []
  {
    if k == 0 {
    } else {
      KeyLinesSnoc(keys[1..], k - 1, state);
      assert keys[..k + 1][1..] == keys[1..][..k];
      assert keys[..k][1..] == keys[1..][..k - 1];
    }
  }

  lemma {:induction false} LayoutLinesSnoc(layout: seq<Group>, k: nat, state: Env)
    requires k < |layout|
    ensures LayoutLines(layout[..k + 1], state) == LayoutLines(layout[..k], state) + GroupLines(layout[k], state)
  {
    hide GroupLines;
    if k == 0 {
    } else {
      LayoutLinesSnoc(layout[1..], k - 1, state);
      assert layout[..k + 1][1..] == layout[1..][..k];
      assert layout[..k][1..] == layout[1..][..k - 1];
    }
  }

  lemma HeaderText(header: string)
    ensures Unlines(["", header]) == "\n" + header + "\n"
    ensures Unlines([]) == ""
  {
    var lines := ["", header];
    assert lines[1..] == [header];
    assert Unlines(lines[1..]) == header + "\n" + Unlines(lines[1..][1..]);
  }

  lemma NoKeyLines(state: Env)
    ensures forall keys: seq<string> :: keys == [] ==> KeyLines(keys, state) == []
  {
  }

  method RenderGroup(g: Group, state: Env) returns (part: string)
    ensures part == Unlines(GroupLines(g, state))
  {
    hide Unlines, KeyLines;
    var present: seq<string> := [];
    assert KeyLines(g.keys[..0], state) == [] by { NoKeyLines(state); }
    for k := 0 to |g.keys|
      invariant present == KeyLines(g.keys[..k], state)
    {
      KeyLinesSnoc(g.keys, k, state);
      if g.keys[k] in state {
        present := present + [g.keys[k] + "=" + state[g.keys[k]]];
      }
    }
    assert g.keys[..|g.keys|] == g.keys;
    HeaderText(g.header);
    if present == [] {
      return "";
    }
    part := "\n" + g.header + "\n";
    assert ["", g.header] + present[..0] == ["", g.header];
    for k := 0 to |present|
      invariant part == Unlines(["", g.header] + present[..k])
    {
      assert ["", g.header] + present[..k + 1] == (["", g.header] + present[..k]) + [present[k]];
      UnlinesSnoc(["", g.header] + present[..k], present[k]);
      part := part + present[k] + "\n";
    }
    assert present[..|present|] == present;
  }

  method PrintLayout(title: seq<string>, layout: seq<Group>, state: Env) returns (text: string)
    ensures text == Unlines(title + LayoutLines(layout, state))
  {
    hide Unlines, GroupLines;
    text := Unlines(title);
    assert title + LayoutLines(layout[..0], state) == title;
    for k := 0 to |layout|
      invariant text == Unlines(title + LayoutLines(layout[..k], state))
    {
      var part := RenderGroup(layout[k], state);
      LayoutLinesSnoc(layout, k, state);
      UnlinesConcat(title + LayoutLines(layout[..k], state), GroupLines(layout[k], state));
      assert title + LayoutLines(layout[..k + 1], state) ==
             (title + LayoutLines(layout[..k], state)) + GroupLines(layout[k], state);
      text := text + part;
    }
    assert layout[..|layout|] == layout;
  }

  // ---------------------------------------------------------------- one line there and back

  predicate GoodKey(key: string) {
    && key != "" && key[0] != '#'
    && forall i :: 0 <= i < |key| ==> !IsSpace(key[i]) && key[i] != '='
  }

  predicate Clean(v: string) {
    Stripped(v) && !Quoted(v)
  }

  lemma NoEqualsNoBinding(raw: string)
    requires '=' !in raw
    ensures ParseLine(raw) == None
  {
    hide Strip, LStrip, Unquote;
    var line := Strip(raw);
    StripFacts(raw);
    assert forall k :: 0 <= k < |line| ==> line[k] in line;
    if "export " <= line {
      LStripFacts(line[7..]);
    }
  }

  lemma {:induction false} RStripOfBinding(key: string, v: string)
    ensures RStrip(key + "=" + v) == key + "=" + RStrip(v)
    decreases |v|
  {
    var raw := key + "=" + v;
    assert !IsSpace('=');
    hide IsSpace;
    assert raw[|raw| - 1] == if v == "" then '=' else v[|v| - 1];
    if v == "" {
    } else if IsSpace(v[|v| - 1]) {
      assert raw[..|raw| - 1] == key + "=" + v[..|v| - 1];
      RStripOfBinding(key, v[..|v| - 1]);
    }
  }

  lemma {:induction false} StripOfBinding(key: string, v: string)
    requires GoodKey(key)
    ensures Strip(key + "=" + v) == key + "=" + RStrip(v)
  {
    hide IsSpace, RStrip;
    RStripOfBinding(key, v);
    assert (key + "=" + RStrip(v))[0] == key[0];
  }

  lemma {:induction false} StripAgain(v: string)
    ensures Strip(RStrip(v)) == Strip(v)
    decreases |v|
  {
    if v == "" {
    } else if IsSpace(v[|v| - 1]) {
      StripAgain(v[..|v| - 1]);
    }
  }

  lemma NotAnExport(key: string, v: string)
    requires GoodKey(key)
    ensures !("export " <= key + "=" + v)
  {
    var line := key + "=" + v;
    if |key| <= 6 {
      assert line[|key|] == '=';
    } else {
      assert line[6] == key[6];
    }
  }

  lemma {:induction false} EqualsAfterKey(key: string, v: string)
    requires GoodKey(key)
    ensures EqualsAt(key + "=" + v) == |key|
  {
    var line := key + "=" + v;
    var i := EqualsAt(line);
    assert line[|key|] == '=';
  }

  lemma KeyIsStripped(key: string)
    requires GoodKey(key)
    ensures Strip(key) == key
  {
  }

  /** A `KEY=VALUE` line binds that key to the stripped and unquoted value, and nothing else. */
  lemma BindingLine(key: string, v: string)
    requires GoodKey(key)
    ensures ParseLine(key + "=" + v) == Some(Binding(key, Unquote(Strip(v))))
  {
    hide Strip, LStrip, RStrip, EqualsAt, Unquote;
    var r := RStrip(v);
    var line := key + "=" + r;
    StripOfBinding(key, v);
    StripAgain(v);
    assert line[0] == key[0];
    NotAnExport(key, r);
    EqualsAfterKey(key, r);
    KeyIsStripped(key);
    assert line[..|key|] == key && line[|key| + 1..] == r;
  }

  /** What a person may write: white space around everything, `export` before the key, quotes around the value. */
  lemma WrittenLine(a: string, exported: bool, b: string, key: string, c: string, d: string, w: string, e: string)
    requires Blank(a) && Blank(b) && Blank(c) && Blank(d) && Blank(e) && GoodKey(key)
    requires Stripped(w) && w != "" && (!exported ==> b == "" && c == "")
    ensures var line := (if exported then "export " + b else "") + (key + c + "=" + (d + w));
            ParseLine(a + line + e) == Some(Binding(key, Unquote(w)))
  {
    assert key != "";
    hide Strip, LStrip, RStrip, EqualsAt, Unquote, IsSpace, Blank, GoodKey, WithoutExport, Stripped;
    var body := key + c + "=" + (d + w);
    var line := (if exported then "export " + b else "") + body;
    WrittenBody(exported, b, key, c, d, w);
    StripPadded(a, line, e);
    KeyParts(key, c, d + w);
    assert |body| > |key + c|;
    PaddedValue(d, w);
  }

  lemma WrittenBody(exported: bool, b: string, key: string, c: string, d: string, w: string)
    requires Blank(b) && GoodKey(key) && Stripped(w) && w != "" && (!exported ==> b == "" && c == "")
    ensures var body := key + c + "=" + (d + w);
            var line := (if exported then "export " + b else "") + body;
            line != "" && Stripped(line) && line[0] != '#' && WithoutExport(line) == body
  {
    hide LStrip, IsSpace;
    var body := key + c + "=" + (d + w);
    var line := (if exported then "export " + b else "") + body;
    assert line[|line| - 1] == w[|w| - 1] && body[0] == key[0];
    assert !IsSpace('e') by { Letters(); }
    if exported {
      assert line[7..] == b + body && line[0] == 'e';
      LStripBlank(b, body);
      LStripOfBody(body);
    } else {
      assert line == body && body == key + "=" + (d + w);
      NotAnExport(key, d + w);
    }
  }

  lemma Letters()
    ensures !IsSpace('e') && Blank("")
  {
  }

  lemma {:induction false} LStripOfBody(body: string)
    requires body != "" && !IsSpace(body[0])
    ensures LStrip(body) == body
  {
  }

  lemma KeyParts(key: string, c: string, rest: string)
    requires GoodKey(key) && Blank(c)
    ensures var body := key + c + "=" + rest;
            && EqualsAt(body) == |key + c| && body[..|key + c|] == key + c && body[|key + c| + 1..] == rest
            && Strip(key + c) == key
  {
    var body, i := key + c + "=" + rest, EqualsAt(key + c + "=" + rest);
    assert body[|key + c|] == '=';
    assert forall k :: 0 <= k < |key| ==> body[k] == key[k];
    assert forall k :: 0 <= k < |c| ==> body[|key| + k] == c[k];
    assert !IsSpace('=');
    hide Strip, IsSpace, EqualsAt;
    Letters();
    assert "" + key + c == key + c;
    StripPadded("", key, c);
  }

  lemma PaddedValue(d: string, w: string)
    requires Blank(d) && Stripped(w) && w != ""
    ensures Strip(d + w) == w
  {
    hide Strip;
    assert d + w + "" == d + w;
    StripPadded(d, w, "");
  }

  /** One pair of equal quotes is taken off, and nothing else. */
  lemma UnquotedIff(w: string, v: string)
    ensures Unquote("'" + v + "'") == v == Unquote("\"" + v + "\"")
    ensures Unquote(w) == w <==> forall u: string :: w != "'" + u + "'" && w != "\"" + u + "\""
  {
    assert ("'" + v + "'")[1..|v| + 1] == v && ("\"" + v + "\"")[1..|v| + 1] == v;
    if Unquote(w) != w {
      var u := w[1..|w| - 1];
      assert w == [w[0]] + u + [w[0]];
    }
  }

  /** Comments, and lines without a key, bind nothing. */
  lemma NothingBound(line: string, v: string)
    requires (Strip(line) != "" && Strip(line)[0] == '#') || Strip(line) == "" || Strip(line) == "=" + v
    ensures ParseLine(line) == None
  {
    hide LStrip, RStrip, Strip, Unquote;
    if Strip(line) == "=" + v {
      var s := Strip(line);
      assert s[0] == '=' && EqualsAt(s) == 0 && s[..0] == "";
      StripFacts("");
    }
  }

  /** The value survives exactly when it carries no outer white space and no matching outer quotes. */
  lemma ValueSurvivesIffClean(v: string)
    ensures Unquote(Strip(v)) == v <==> Clean(v)
  {
    hide Strip;
    StripFacts(v);
  }

  // ---------------------------------------------------------------- the whole file

  predicate Inert(line: string) {
    ParseLine(line) == None
  }

  /** If the line binds a key, then to what is left of that key's value in `state`. */
  predicate From(line: string, state: Env) {
    var r := ParseLine(line);
    r.Some? ==> r.value.key in state && r.value.value == Unquote(Strip(state[r.value.key]))
  }

  predicate AllFrom(lines: seq<string>, state: Env) {
    forall k :: 0 <= k < |lines| ==> From(lines[k], state)
  }

  /** The keys bound by `lines`. */
  function KeysOf(lines: seq<string>): set<string> {
    if lines == [] then {} else KeysOf(lines[..|lines| - 1]) + KeySet(ParseLine(lines[|lines| - 1]))
  }

  function KeySet(b: Option<Binding>): set<string> {
    if b.Some? then {b.value.key} else {}
  }

  lemma {:induction false} FoldOfState(lines: seq<string>, state: Env)
    requires AllFrom(lines, state)
    ensures KeysOf(lines) <= state.Keys
    ensures Fold(lines) == map key | key in KeysOf(lines) && key in state :: Unquote(Strip(state[key]))
    decreases |lines|
  {
    if lines == [] {
    } else {
      hide ParseLine, Unquote, Strip;
      var init, last := lines[..|lines| - 1], lines[|lines| - 1];
      FoldOfState(init, state);
      assert From(last, state);
    }
  }

  function LayoutKeys(layout: seq<Group>): set<string> {
    if layout == [] then {} else (set k | k in layout[0].keys) + LayoutKeys(layout[1..])
  }

  predicate GoodGroup(g: Group) {
    && SingleLine(g.header) && g.header != "" && g.header[0] == '#'
    && forall k :: 0 <= k < |g.keys| ==> GoodKey(g.keys[k])
  }

  predicate GoodLayout(layout: seq<Group>) {
    forall g :: 0 <= g < |layout| ==> GoodGroup(layout[g])
  }

  lemma NonSpaceFirst(s: string)
    requires s != "" && !IsSpace(s[0])
    ensures Strip(s) != "" && Strip(s)[0] == s[0]
  {
    if IsSpace(s[|s| - 1]) {
      NonSpaceFirst(s[..|s| - 1]);
    }
  }

  lemma CommentIsInert(line: string)
    requires line == "" || line[0] == '#'
    ensures Inert(line)
  {
    if line != "" {
      hide EqualsAt, WithoutExport, Unquote;
      RStripFacts(line);
      assert IsSpace(line[0]) == false;
      NonSpaceFirst(line);
    }
  }

  lemma {:induction false} KeysOfConcat(a: seq<string>, b: seq<string>)
    ensures KeysOf(a + b) == KeysOf(a) + KeysOf(b)
    decreases |b|
  {
    if b == [] {
      assert a + b == a;
    } else {
      hide ParseLine, KeySet;
      KeysOfConcat(a, b[..|b| - 1]);
      assert (a + b)[..|a + b| - 1] == a + b[..|b| - 1] && (a + b)[|a + b| - 1] == b[|b| - 1];
    }
  }

  lemma KeysOfOne(line: string)
    ensures KeysOf([line]) == KeySet(ParseLine(line))
  {
  }

  lemma OneKeyLine(key: string, state: Env)
    requires GoodKey(key) && key in state
    ensures From(key + "=" + state[key], state) && KeysOf([key + "=" + state[key]]) == {key}
  {
    hide ParseLine, KeysOf, GoodKey;
    BindingLine(key, state[key]);
    KeysOfOne(key + "=" + state[key]);
  }

  lemma {:induction false} KeyLinesFrom(keys: seq<string>, state: Env)
    requires forall k :: 0 <= k < |keys| ==> GoodKey(keys[k])
    ensures AllFrom(KeyLines(keys, state), state)
    decreases |keys|
  {
    if keys == [] {
    } else {
      hide From, GoodKey;
      var key, rest := keys[0], KeyLines(keys[1..], state);
      KeyLinesFrom(keys[1..], state);
      assert KeyLines(keys, state) == if key in state then [key + "=" + state[key]] + rest else rest;
      hide KeyLines;
      if key in state {
        OneKeyLine(key, state);
      }
    }
  }

  lemma {:induction false} KeyLinesBind(keys: seq<string>, state: Env)
    requires forall k :: 0 <= k < |keys| ==> GoodKey(keys[k])
    ensures forall k :: k in KeysOf(KeyLines(keys, state)) <==> k in keys && k in state
    decreases |keys|
  {
    if keys == [] {
    } else {
      hide From, GoodKey, KeysOf;
      var key, rest := keys[0], KeyLines(keys[1..], state);
      KeyLinesBind(keys[1..], state);
      assert KeyLines(keys, state) == if key in state then [key + "=" + state[key]] + rest else rest;
      hide KeyLines;
      assert keys == [key] + keys[1..];
      if key in state {
        OneKeyLine(key, state);
        KeysOfConcat([key + "=" + state[key]], rest);
        var line := [key + "=" + state[key]];
        assert forall k :: k in KeysOf(line + rest) <==> k == key || k in KeysOf(rest);
      }
    }
  }

  lemma GroupLinesFrom(g: Group, state: Env)
    requires g.header != "" && g.header[0] == '#'
    requires forall k :: 0 <= k < |g.keys| ==> GoodKey(g.keys[k])
    ensures AllFrom(GroupLines(g, state), state)
    ensures KeysOf(GroupLines(g, state)) == (set k | k in g.keys && k in state)
  {
    hide ParseLine, KeyLines, KeysOf, GoodKey;
    KeyLinesFrom(g.keys, state);
    KeyLinesBind(g.keys, state);
    CommentIsInert("");
    CommentIsInert(g.header);
    KeysOfOne("");
    KeysOfOne(g.header);
    KeysOfConcat([""], [g.header]);
    assert [""] + [g.header] == ["", g.header];
    KeysOfConcat(["", g.header], KeyLines(g.keys, state));
  }

  lemma {:induction false} LayoutLinesFrom(layout: seq<Group>, state: Env)
    requires GoodLayout(layout)
    ensures AllFrom(LayoutLines(layout, state), state)
    ensures KeysOf(LayoutLines(layout, state)) == LayoutKeys(layout) * state.Keys
    decreases |layout|
  {
    if layout == [] {
    } else {
      GroupLinesFrom(layout[0], state);
      LayoutLinesFrom(layout[1..], state);
      KeysOfConcat(GroupLines(layout[0], state), LayoutLines(layout[1..], state));
    }
  }

  // ---------------------------------------------------------------- round trip

  predicate Title(lines: seq<string>) {
    forall k :: 0 <= k < |lines| ==> SingleLine(lines[k]) && lines[k] != "" && lines[k][0] == '#'
  }

  function EnvLines(title: seq<string>, layout: seq<Group>, state: Env): seq<string> {
    title + LayoutLines(layout, state)
  }

  lemma {:induction false} TitleFrom(title: seq<string>, state: Env)
    requires Title(title)
    ensures AllFrom(title, state) && KeysOf(title) == {}
    decreases |title|
  {
    hide ParseLine, IsBreak;
    if title == [] {
    } else {
      CommentIsInert(title[|title| - 1]);
      TitleFrom(title[..|title| - 1], state);
    }
  }

  lemma {:induction false} EnvLinesFrom(title: seq<string>, layout: seq<Group>, state: Env)
    requires Title(title) && GoodLayout(layout)
    ensures AllFrom(EnvLines(title, layout, state), state)
    ensures KeysOf(EnvLines(title, layout, state)) == LayoutKeys(layout) * state.Keys
  {
    TitleFrom(title, state);
    LayoutLinesFrom(layout, state);
    KeysOfConcat(title, LayoutLines(layout, state));
  }

  /** Values of the layout's keys, without line breaks. */
  predicate OneLineValues(layout: seq<Group>, state: Env) {
    forall key :: key in LayoutKeys(layout) && key in state ==> SingleLine(state[key])
  }

  lemma {:induction false} KeyLinesSingle(keys: seq<string>, state: Env)
    requires forall k :: 0 <= k < |keys| ==> GoodKey(keys[k])
    requires forall k :: 0 <= k < |keys| && keys[k] in state ==> SingleLine(state[keys[k]])
    ensures forall k :: 0 <= k < |KeyLines(keys, state)| ==> SingleLine(KeyLines(keys, state)[k])
    decreases |keys|
  {
    if keys == [] {
    } else {
      KeyLinesSingle(keys[1..], state);
      if keys[0] in state {
        var line := keys[0] + "=" + state[keys[0]];
        forall i | 0 <= i < |line| ensures !IsBreak(line[i]) {
          if i < |keys[0]| {
            assert line[i] == keys[0][i];
          } else if i > |keys[0]| {
            assert line[i] == state[keys[0]][i - |keys[0]| - 1];
          }
        }
      }
    }
  }

  lemma {:induction false} LayoutLinesSingle(layout: seq<Group>, state: Env)
    requires GoodLayout(layout) && OneLineValues(layout, state)
    ensures forall k :: 0 <= k < |LayoutLines(layout, state)| ==> SingleLine(LayoutLines(layout, state)[k])
    decreases |layout|
  {
    if layout == [] {
    } else {
      hide IsBreak, GoodKey;
      var keys := layout[0].keys;
      assert forall k :: 0 <= k < |keys| ==> keys[k] in LayoutKeys(layout);
      KeyLinesSingle(keys, state);
      LayoutLinesSingle(layout[1..], state);
    }
  }

  lemma FileLines(title: seq<string>, layout: seq<Group>, state: Env)
    requires Title(title) && GoodLayout(layout) && OneLineValues(layout, state)
    ensures SplitLines(Unlines(EnvLines(title, layout, state))) == EnvLines(title, layout, state)
    ensures forall k :: 0 <= k < |EnvLines(title, layout, state)| ==> SingleLine(EnvLines(title, layout, state)[k])
  {
    hide IsBreak, SplitLines, Unlines, LayoutLines;
    LayoutLinesSingle(layout, state);
    SplitUnlines(EnvLines(title, layout, state), "");
    assert Unlines(EnvLines(title, layout, state)) + "" == Unlines(EnvLines(title, layout, state));
  }

  /** Nothing the parser returns contains a line break. */
  lemma {:induction false} ParsedValuesAreSingleLine(lines: seq<string>, key: string)
    requires forall k :: 0 <= k < |lines| ==> SingleLine(lines[k])
    requires key in Fold(lines)
    ensures SingleLine(Fold(lines)[key])
    decreases |lines|
  {
    var last := lines[|lines| - 1];
    if ParseLine(last).Some? && ParseLine(last).value.key == key {
      LineValueIsSingle(last);
    } else {
      ParsedValuesAreSingleLine(lines[..|lines| - 1], key);
    }
  }

  predicate Piece(part: string, whole: string) {
    exists i, j :: 0 <= i <= j <= |whole| && part == whole[i..j]
  }

  lemma StripIsPiece(s: string)
    ensures Piece(Strip(s), s)
  {
    hide RStrip, LStrip, IsSpace;
    RStripFacts(s);
    var r := RStrip(s);
    LStripFacts(r);
    assert Strip(s) == s[|r| - |Strip(s)|..|r|];
  }

  lemma SingleLinePiece(part: string, whole: string)
    requires Piece(part, whole) && SingleLine(whole)
    ensures SingleLine(part)
  {
  }

  lemma LineValueIsSingle(raw: string)
    requires SingleLine(raw) && ParseLine(raw).Some?
    ensures SingleLine(ParseLine(raw).value.value)
  {
    hide IsBreak, IsSpace, Strip, LStrip, EqualsAt, Piece;
    var line := Strip(raw);
    StripIsPiece(raw);
    SingleLinePiece(line, raw);
    var body := WithoutExport(line);
    assert SingleLine(body) by {
      if "export " <= line {
        LStripFacts(line[7..]);
        assert forall k :: 0 <= k < |body| ==> body[k] == line[|line| - |body| + k];
      }
    }
    var rest := body[EqualsAt(body) + 1..];
    assert SingleLine(rest);
    StripIsPiece(rest);
    SingleLinePiece(Strip(rest), rest);
  }

  /** Every value of the layout's keys is read back. */
  predicate Survives(layout: seq<Group>, state: Env, parsed: Env) {
    forall key :: key in LayoutKeys(layout) && key in state ==> key in parsed && parsed[key] == state[key]
  }

  predicate CleanValues(layout: seq<Group>, state: Env) {
    forall key :: key in LayoutKeys(layout) && key in state ==> Clean(state[key]) && SingleLine(state[key])
  }

  /** Printing then parsing gives back the layout's part of the state exactly when every value is stripped, not
      wrapped in quotes and on one line; and then it gives back nothing else. */
  lemma {:induction false} RoundTrip(title: seq<string>, layout: seq<Group>, state: Env)
    requires Title(title) && GoodLayout(layout)
    ensures var parsed := Parse(Unlines(EnvLines(title, layout, state)));
            && (Survives(layout, state, parsed) <==> CleanValues(layout, state))
            && (CleanValues(layout, state) ==>
                  parsed == map key | key in LayoutKeys(layout) && key in state :: state[key])
  {
    hide IsBreak, IsSpace, SplitLines, Unlines, LayoutLines, LayoutKeys, Strip, Unquote, EnvLines, Clean, GoodLayout;
    hide Fold, KeysOf, SingleLine;
    var lines := EnvLines(title, layout, state);
    var parsed := Parse(Unlines(lines));
    var split := SplitLines(Unlines(lines));
    if OneLineValues(layout, state) {
      FileLines(title, layout, state);
      EnvLinesFrom(title, layout, state);
      FoldOfState(lines, state);
      forall key | key in LayoutKeys(layout) && key in state
        ensures key in parsed && (parsed[key] == state[key] <==> Clean(state[key]))
      {
        ValueSurvivesIffClean(state[key]);
      }
    } else {
      var key :| key in LayoutKeys(layout) && key in state && !SingleLine(state[key]);
      if key in parsed {
        ParsedValuesAreSingleLine(split, key);
      }
    }
  }

  // ---------------------------------------------------------------- the interrupted write

  /** Cutting at a line boundary keeps exactly the bindings of the kept lines. */
  lemma {:induction false} CutKeepsABoundary(title: seq<string>, layout: seq<Group>, state: Env, cut: nat)
    requires Title(title) && GoodLayout(layout) && CleanValues(layout, state)
    requires cut <= |EnvLines(title, layout, state)|
    ensures var kept := EnvLines(title, layout, state)[..cut];
            && KeysOf(kept) <= LayoutKeys(layout) * state.Keys
            && Parse(Unlines(kept)) == map key | key in KeysOf(kept) && key in state :: state[key]
  {
    hide IsBreak, IsSpace, SplitLines, Unlines, LayoutLines, LayoutKeys, Strip, Unquote, EnvLines, Clean, GoodLayout;
    hide Fold, SingleLine;
    var lines := EnvLines(title, layout, state);
    var kept := lines[..cut];
    FileLines(title, layout, state);
    EnvLinesFrom(title, layout, state);
    KeysOfConcat(kept, lines[cut..]);
    assert kept + lines[cut..] == lines;
    SplitUnlines(kept, "") by { NoBreakInEmpty(); }
    assert Unlines(kept) + "" == Unlines(kept) && kept + [] == kept;
    assert Parse(Unlines(kept)) == Fold(kept);
    FoldOfState(kept, state);
    forall key | key in KeysOf(kept) && key in state ensures Unquote(Strip(state[key])) == state[key] {
      ValueSurvivesIffClean(state[key]);
    }
  }

  lemma NoBreakInEmpty()
    ensures SingleLine("")
  {
  }

  /** A torn `KEY=VALUE` fragment that misses at least the last character binds nothing, or binds that key to
      something shorter than its value. */
  lemma TornBinding(key: string, v: string, n: nat)
    requires GoodKey(key) && n < |key| + 1 + |v|
    ensures var r := ParseLine((key + "=" + v)[..n]);
            r.Some? ==> r.value.key == key && |r.value.value| < |v|
  {
    hide IsSpace, Strip, ParseLine, Unquote;
    var line := key + "=" + v;
    if n <= |key| {
      assert forall k :: 0 <= k < n ==> line[k] == key[k];
      assert '=' !in line[..n];
      NoEqualsNoBinding(line[..n]);
    } else {
      var w := v[..n - |key| - 1];
      assert line[..n] == key + "=" + w;
      BindingLine(key, w);
      StripFacts(w);
      UnquoteShorter(Strip(w));
    }
  }

  lemma UnquoteShorter(v: string)
    ensures |Unquote(v)| <= |v|
  {
  }
}
