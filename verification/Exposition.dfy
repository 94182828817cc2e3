/** The metrics text: the application's printer and the scraper's line parser. */
module Exposition {
  import opened Options
  import opened Text
  import opened Numbers
  import Collector

  type Series = Collector.Series

  // ---------------------------------------------------------------- the line pattern, matched by hand
  // Every piece of the pattern is followed by characters it cannot contain, so taking the longest run is exact.

  predicate NameStart(c: char) {
    'a' <= c <= 'z' || 'A' <= c <= 'Z' || c == '_'
  }

  predicate NameRest(c: char) {
    NameStart(c) || IsDigit(c)
  }

  predicate NumberChar(c: char) {
    IsDigit(c) || c in ['.', 'e', 'E', '+', '-']
  }

  /** Length of the longest prefix of label-name characters. */
  function RestLength(s: string): (n: nat)
    ensures n <= |s| && (forall i :: 0 <= i < n ==> NameRest(s[i])) && (n < |s| ==> !NameRest(s[n]))
  {
    if s == "" || !NameRest(s[0]) then 0 else 1 + RestLength(s[1..])
  }

  /** Metric names also allow colons. */
  function MetricLength(s: string): (n: nat)
    ensures n <= |s| && (forall i :: 0 <= i < n ==> NameRest(s[i]) || s[i] == ':')
    ensures n < |s| ==> !NameRest(s[n]) && s[n] != ':'
  {
    if s == "" || !(NameRest(s[0]) || s[0] == ':') then 0 else 1 + MetricLength(s[1..])
  }

  function SpaceLength(s: string): (n: nat)
    ensures n <= |s| && (forall i :: 0 <= i < n ==> IsSpace(s[i])) && (n < |s| ==> !IsSpace(s[n]))
  {
    if s == "" || !IsSpace(s[0]) then 0 else 1 + SpaceLength(s[1..])
  }

  function NumberLength(s: string): (n: nat)
    ensures n <= |s| && (forall i :: 0 <= i < n ==> NumberChar(s[i])) && (n < |s| ==> !NumberChar(s[n]))
  {
    if s == "" || !NumberChar(s[0]) then 0 else 1 + NumberLength(s[1..])
  }

  /** Index of the first `c`, or the length. */
  function Find(s: string, c: char): (n: nat)
    ensures n <= |s| && (forall i :: 0 <= i < n ==> s[i] != c) && (n < |s| ==> s[n] == c)
  {
    if s == "" || s[0] == c then 0 else 1 + Find(s[1..], c)
  }

  datatype Parts = Parts(name: string, labels: string, number: string)

  /** The end of a sample line: white space, a number or `NaN`, white space. */
  function MatchNumber(s: string): Option<string> {
    var sp := SpaceLength(s);
    var t := s[sp..];
    var n := if NumberLength(t) > 0 then NumberLength(t) else if "NaN" <= t then 3 else 0;
    if sp == 0 || n == 0 || SpaceLength(t[n..]) != |t| - n then None else Some(t[..n])
  }

  function MatchLine(raw: string): Option<Parts> {
    var n := MetricLength(raw);
    if n == 0 || IsDigit(raw[0]) then None else
      var rest := raw[n..];
      if rest != "" && rest[0] == '{' then
        var j := Find(rest, '}');
        if j == |rest| then None else
          match MatchNumber(rest[j + 1..])
          case None => None
          case Some(number) => Some(Parts(raw[..n], rest[..j + 1], number))
      else
        match MatchNumber(rest)
        case None => None
        case Some(number) => Some(Parts(raw[..n], "", number))
  }

  datatype LabelMatch = LabelMatch(key: string, value: string, length: nat)

  /** `name="value"` at the start of `s`. */
  function MatchLabel(s: string): (r: Option<LabelMatch>)
    ensures r.Some? ==> 0 < r.value.length <= |s|
  {
    var k := RestLength(s);
    if k == 0 || !NameStart(s[0]) || k + 1 >= |s| || s[k] != '=' || s[k + 1] != '"' then None else
      var v := Find(s[k + 2..], '"');
      if k + 2 + v == |s| then None else Some(LabelMatch(s[..k], s[k + 2..k + 2 + v], k + 3 + v))
  }

  /** `findall`: from left to right, skipping a character where nothing matches; later labels win in the dict. */
  function FindLabels(s: string): map<string, string>
    decreases |s|
  {
    if s == "" then map[] else
      match MatchLabel(s)
      case None => FindLabels(s[1..])
      case Some(m) => map[m.key := m.value] + FindLabels(s[m.length..])
  }

  /** What one line of the exposition contributes. */
  function ParseLine(raw: string): Option<(Series, Number)> {
    if raw == "" || raw[0] == '#' then None else
      match MatchLine(raw)
      case None => None
      case Some(p) =>
        match ParseFloat(p.number)
        case None => None
        case Some(v) => Some((Collector.Series(p.name, FindLabels(p.labels)), v))
  }

  function Absorb(out: map<Series, Number>, raw: string): map<Series, Number> {
    match ParseLine(raw)
    case None => out
    case Some(p) => out[p.0 := p.1]
  }

  function ParseLines(lines: seq<string>): map<Series, Number> {
    if lines == [] then map[] else Absorb(ParseLines(lines[..|lines| - 1]), lines[|lines| - 1])
  }

  method ParsePrometheus(text: string) returns (out: map<Series, Number>)
    ensures out == ParseLines(SplitLines(text))
  {
    hide MatchLine, FindLabels, ParseFloat, SplitLines;
    out := map[];
    var lines := SplitLines(text);
    for k := 0 to |lines|
      invariant out == ParseLines(lines[..k])
    {
      assert lines[..k + 1][..k] == lines[..k];
      var raw := lines[k];
      if raw == "" || raw[0] == '#' {
        continue;
      }
      var m := MatchLine(raw);
      if m.None? {
        continue;
      }
      var v := ParseFloat(m.value.number);
      if v.None? {
        continue;
      }
      var labels := FindLabels(m.value.labels);
      out := out[Collector.Series(m.value.name, labels) := v.value];
    }
    assert lines[..|lines|] == lines;
  }

  // ---------------------------------------------------------------- the printer

  datatype Label = Label(key: string, value: string)
  datatype Sample = Sample(name: string, labels: seq<Label>, text: string)

  function Pair(l: Label): string {
    l.key + "=\"" + l.value + "\""
  }

  function Pairs(ls: seq<Label>): string {
    if ls == [] then "" else if |ls| == 1 then Pair(ls[0]) else Pair(ls[0]) + "," + Pairs(ls[1..])
  }

  /** `_labels`, or nothing for a sample without labels. */
  function Braced(ls: seq<Label>): string {
    if ls == [] then "" else "{" + Pairs(ls) + "}"
  }

  function PrintSample(s: Sample): string {
    s.name + Braced(s.labels) + " " + s.text
  }

  function LabelMap(ls: seq<Label>): map<string, string> {
    if ls == [] then map[] else map[ls[0].key := ls[0].value] + LabelMap(ls[1..])
  }

  function SeriesOf(s: Sample): Series {
    Collector.Series(s.name, LabelMap(s.labels))
  }

  // ---------------------------------------------------------------- one sample line there and back

  predicate GoodName(name: string) {
    name != "" && NameStart(name[0]) && forall i :: 0 <= i < |name| ==> NameRest(name[i])
  }

  /** No quote and no line break; braces are allowed. */
  predicate PlainValue(v: string) {
    forall i :: 0 <= i < |v| ==> v[i] != '"' && !IsBreak(v[i])
  }

  predicate GoodValue(v: string) {
    PlainValue(v) && '}' !in v
  }

  predicate GoodKeys(ls: seq<Label>) {
    forall i :: 0 <= i < |ls| ==> GoodName(ls[i].key)
  }

  predicate DistinctKeys(ls: seq<Label>) {
    forall i, j :: 0 <= i < j < |ls| ==> ls[i].key != ls[j].key
  }

  predicate OneLine(ls: seq<Label>) {
    forall i :: 0 <= i < |ls| ==> SingleLine(ls[i].value)
  }

  predicate NoQuotes(ls: seq<Label>) {
    forall i :: 0 <= i < |ls| ==> '"' !in ls[i].value
  }

  predicate NoBraces(ls: seq<Label>) {
    forall i :: 0 <= i < |ls| ==> '}' !in ls[i].value
  }

  predicate GoodNumber(text: string) {
    text == "NaN" || (text != "" && forall i :: 0 <= i < |text| ==> NumberChar(text[i]))
  }

  predicate GoodLabels(ls: seq<Label>) {
    forall i :: 0 <= i < |ls| ==> GoodName(ls[i].key) && GoodValue(ls[i].value)
  }

  predicate GoodSample(s: Sample) {
    GoodName(s.name) && GoodLabels(s.labels) && GoodNumber(s.text)
  }

  lemma {:induction false} FindIs(s: string, c: char, n: nat)
    requires n < |s| && s[n] == c && forall i :: 0 <= i < n ==> s[i] != c
    ensures Find(s, c) == n
  {
  }

  lemma MatchPair(l: Label, tail: string)
    requires GoodName(l.key) && GoodValue(l.value)
    ensures MatchLabel(Pair(l) + tail) == Some(LabelMatch(l.key, l.value, |Pair(l)|))
    ensures (Pair(l) + tail)[|Pair(l)|..] == tail
  {
    hide NameRest, NameStart, IsBreak, Find, RestLength;
    var s := Pair(l) + tail;
    var k := |l.key|;
    assert s == l.key + "=\"" + l.value + "\"" + tail;
    assert s[k] == '=' && s[k + 1] == '"' && s[0] == l.key[0];
    assert forall i :: 0 <= i < k ==> s[i] == l.key[i];
    assert !NameRest('=') by { PunctuationIsNoName(); }
    var after := s[k + 2..];
    assert after == l.value + "\"" + tail;
    assert forall i :: 0 <= i < |l.value| ==> after[i] == l.value[i];
    FindIs(after, '"', |l.value|);
    assert s[..k] == l.key && s[k + 2..k + 2 + |l.value|] == l.value;
  }

  lemma PunctuationIsNoName()
    ensures !NameRest('=') && !NameRest('"') && !NameRest('}')
    ensures !NameStart(',') && !NameStart('{') && !NameStart('}') && !NameStart('"')
  {
  }

  lemma {:induction false} NoLabelAt(s: string)
    requires s != "" && !NameStart(s[0])
    ensures FindLabels(s) == FindLabels(s[1..])
  {
  }

  lemma {:induction false} PairsCons(ls: seq<Label>, tail: string)
    requires ls != [] && tail == if |ls| == 1 then "}" else "," + (Pairs(ls[1..]) + "}")
    ensures Pairs(ls) + "}" == Pair(ls[0]) + tail
  {
    hide Pair;
    if |ls| > 1 {
      assert Pairs(ls) == Pair(ls[0]) + "," + Pairs(ls[1..]);
    }
  }

  lemma {:induction false} LabelsFound(ls: seq<Label>)
    requires GoodLabels(ls)
    ensures FindLabels(Pairs(ls) + "}") == LabelMap(ls)
    decreases |ls|
  {
    hide NameStart, MatchLabel, GoodValue, GoodName;
    PunctuationIsNoName();
    if ls == [] {
      assert Pairs(ls) + "}" == "}";
      NoLabelAt("}");
      assert "}"[1..] == "";
    } else {
      var tail := if |ls| == 1 then "}" else "," + (Pairs(ls[1..]) + "}");
      var s := Pairs(ls) + "}";
      PairsCons(ls, tail);
      MatchPair(ls[0], tail);
      LabelsFound(ls[1..]);
      hide Pair, Pairs;
      if |ls| == 1 {
        NoLabelAt("}");
        assert "}"[1..] == "" && ls[1..] == [];
      } else {
        NoLabelAt(tail);
        assert tail[1..] == Pairs(ls[1..]) + "}";
      }
    }
  }

  lemma {:induction false} BracedFound(ls: seq<Label>)
    requires GoodLabels(ls)
    ensures FindLabels(Braced(ls)) == LabelMap(ls)
  {
    hide NameStart, NameRest, MatchLabel, Pairs, GoodLabels;
    if ls != [] {
      LabelsFound(ls);
      PunctuationIsNoName();
      NoLabelAt(Braced(ls));
      assert Braced(ls)[1..] == Pairs(ls) + "}";
    }
  }

  /** A character that no pair needs, and no value has, is not in the printed labels. */
  lemma {:induction false} PairsAvoid(ls: seq<Label>, c: char)
    requires !NameRest(c) && c != '=' && c != '"' && c != ','
    requires forall i :: 0 <= i < |ls| ==> GoodName(ls[i].key) && c !in ls[i].value
    ensures c !in Pairs(ls)
    decreases |ls|
  {
    if ls == [] {
    } else {
      hide NameRest;
      var p := Pair(ls[0]);
      assert c !in ls[0].key && c !in p;
      PairsAvoid(ls[1..], c);
      if |ls| > 1 {
        assert Pairs(ls) == p + "," + Pairs(ls[1..]);
      }
    }
  }

  lemma NumberMatched(text: string)
    requires GoodNumber(text)
    ensures MatchNumber(" " + text) == Some(text)
  {
    var s := " " + text;
    assert s[1..] == text && text[..|text|] == text && text[|text|..] == "";
    if text == "NaN" {
      assert text[0] == 'N' && !NumberChar('N') && !IsSpace('N');
      assert NumberLength(text) == 0 && SpaceLength(s) == 1;
    } else {
      AllNumber(text);
    }
  }

  lemma {:induction false} AllNumber(text: string)
    requires forall i :: 0 <= i < |text| ==> NumberChar(text[i])
    ensures NumberLength(text) == |text|
  {
  }

  lemma {:induction false} NameMatched(name: string, tail: string)
    requires GoodName(name) && tail != "" && (tail[0] == '{' || tail[0] == ' ')
    ensures MetricLength(name + tail) == |name|
    decreases |name|
  {
    var s := name + tail;
    var n := MetricLength(s);
    assert forall i :: 0 <= i < |name| ==> s[i] == name[i];
    assert s[|name|] == tail[0];
  }

  lemma LineMatched(s: Sample)
    requires GoodName(s.name) && GoodNumber(s.text)
    requires forall i :: 0 <= i < |s.labels| ==> GoodName(s.labels[i].key) && '}' !in s.labels[i].value
    ensures MatchLine(PrintSample(s)) == Some(Parts(s.name, Braced(s.labels), s.text))
  {
    hide NameRest, NumberChar, IsSpace, IsBreak, MetricLength, Find, MatchNumber, Pairs, Braced;
    var raw := PrintSample(s);
    var braced := Braced(s.labels);
    var tail := braced + " " + s.text;
    assert raw == s.name + tail;
    NumberMatched(s.text);
    BracedEnds(s.labels, s.text);
    NameMatched(s.name, tail);
    assert raw[..|s.name|] == s.name && raw[|s.name|..] == tail;
    assert raw[0] == s.name[0];
    assert !IsDigit(s.name[0]);
  }

  /** Behind the name: the labels up to the first closing brace, then the number. */
  lemma BracedEnds(ls: seq<Label>, text: string)
    requires forall i :: 0 <= i < |ls| ==> GoodName(ls[i].key) && '}' !in ls[i].value
    ensures var tail := Braced(ls) + " " + text;
            && (ls == [] ==> Braced(ls) == "" && tail == " " + text && tail[0] == ' ')
            && (ls != [] ==> tail[0] == '{' && Find(tail, '}') == |Braced(ls)| - 1
                             && tail[..|Braced(ls)|] == Braced(ls) && tail[|Braced(ls)|..] == " " + text)
  {
    hide NameRest, Find, Pairs, GoodName;
    if ls != [] {
      PunctuationIsNoName();
      PairsAvoid(ls, '}');
      FirstBrace(Pairs(ls), " " + text);
      assert Braced(ls) + " " + text == "{" + Pairs(ls) + "}" + (" " + text);
    }
  }

  lemma FirstBrace(p: string, rest: string)
    requires '}' !in p
    ensures var tail := "{" + p + "}" + rest;
            Find(tail, '}') == |p| + 1 && tail[..|p| + 2] == "{" + p + "}" && tail[|p| + 2..] == rest
  {
    hide Find;
    var tail := "{" + p + "}" + rest;
    assert forall i :: 1 <= i <= |p| ==> tail[i] == p[i - 1];
    FindIs(tail, '}', |p| + 1);
  }

  /** A printed sample line parses to its series and number. */
  lemma SampleRoundTrip(s: Sample, v: Number)
    requires GoodSample(s) && ParseFloat(s.text) == Some(v)
    ensures ParseLine(PrintSample(s)) == Some((SeriesOf(s), v))
  {
    hide MatchLine, FindLabels, ParseFloat, Braced, NameRest;
    LineMatched(s);
    BracedFound(s.labels);
    assert PrintSample(s)[0] == s.name[0];
  }

  /** Numbers that others may print: `NaN`, and scientific notation. */
  lemma {:induction false} OtherNumbersRead(name: string, ls: seq<Label>, negative: bool, w: string, f: string,
                                            capital: bool, below: bool, d: string)
    requires GoodName(name) && GoodLabels(ls) && w != "" && d != "" && Digits(w) && Digits(f) && Digits(d)
    ensures ParseLine(PrintSample(Sample(name, ls, "NaN"))) == Some((SeriesOf(Sample(name, ls, "")), NaN))
    ensures var m, e := Value(w) as real + Value(f) as real / Pow10(|f|), Pow10(Value(d));
            var x := Scaled(m, if below then 1.0 / e else e);
            var text := Sign(negative) + (w + "." + f + ([if capital then 'E' else 'e'] + (Sign(below) + d)));
            ParseLine(PrintSample(Sample(name, ls, text)))
            == Some((SeriesOf(Sample(name, ls, "")), Real(if negative then -x else x)))
  {
    ScientificChars(negative, w, f, capital, below, d);
    assert GoodNumber("NaN") && ParseFloat("NaN") == Some(NaN);
    hide GoodNumber, GoodName, GoodLabels, ParseFloat, ParseLine, PrintSample, Digits, Value, Pow10, Scaled, Sign;
    var text := Sign(negative) + (w + "." + f + ([if capital then 'E' else 'e'] + (Sign(below) + d)));
    ScientificParses(negative, w, f, capital, below, d);
    SampleRoundTrip(Sample(name, ls, "NaN"), NaN);
    SampleRoundTrip(Sample(name, ls, text), ParseFloat(text).value);
  }

  lemma ScientificChars(negative: bool, w: string, f: string, capital: bool, below: bool, d: string)
    requires Digits(w) && Digits(f) && Digits(d) && d != ""
    ensures GoodNumber(Sign(negative) + (w + "." + f + ([if capital then 'E' else 'e'] + (Sign(below) + d))))
  {
    hide IsDigit;
  }

  // ---------------------------------------------------------------- what can be read at all

  function Init(s: string): string {
    if s == "" then "" else s[..|s| - 1]
  }

  /** Every value that the label search finds lies between quotes, so has none itself and does not reach the end. */
  lemma {:induction false} FoundValues(s: string)
    ensures forall n :: n in FindLabels(s) ==>
                          '"' !in FindLabels(s)[n] && forall c :: c in FindLabels(s)[n] ==> c in Init(s)
    decreases |s|
  {
    hide NameStart, NameRest;
    if s == "" {
    } else {
      var m := MatchLabel(s);
      if m.None? {
        FoundValues(s[1..]);
        ShorterInside(s, 1);
      } else {
        FoundValues(s[m.value.length..]);
        MatchedValue(s);
        ShorterInside(s, m.value.length);
      }
    }
  }

  lemma ShorterInside(s: string, n: nat)
    requires 0 < n <= |s|
    ensures forall c :: c in Init(s[n..]) ==> c in Init(s)
  {
    forall c | c in Init(s[n..]) ensures c in Init(s) {
      var i :| 0 <= i < |Init(s[n..])| && Init(s[n..])[i] == c;
      assert Init(s)[n + i] == c;
    }
  }

  lemma MatchedValue(s: string)
    requires s != "" && MatchLabel(s).Some?
    ensures var v := MatchLabel(s).value.value;
            '"' !in v && forall c :: c in v ==> c in Init(s)
  {
    hide NameStart, NameRest;
    var k := RestLength(s);
    var rest := s[k + 2..];
    var n := Find(rest, '"');
    var v := MatchLabel(s).value.value;
    assert v == rest[..n];
    forall c | c in v ensures c in Init(s) && c != '"' {
      var i :| 0 <= i < n && v[i] == c;
      assert Init(s)[k + 2 + i] == c;
    }
  }

  /** A parsed line never has a quote or a closing brace in a label value, and no line break when the line has none. */
  lemma ParsedValues(raw: string)
    requires ParseLine(raw).Some?
    ensures var labels := ParseLine(raw).value.0.labels;
            forall n :: n in labels ==>
                          '"' !in labels[n] && '}' !in labels[n] && forall c :: c in labels[n] ==> c in raw
  {
    hide FindLabels, ParseFloat, MatchNumber;
    var p := MatchLine(raw).value;
    FoundValues(p.labels);
    var n := MetricLength(raw);
    var rest := raw[n..];
    if rest != "" && rest[0] == '{' {
      var j := Find(rest, '}');
      assert p.labels == rest[..j + 1] && Init(p.labels) == rest[..j];
      forall c | c in Init(p.labels) ensures c != '}' && c in raw {
        var i :| 0 <= i < j && rest[..j][i] == c;
        assert raw[n + i] == c;
      }
    }
  }

  lemma {:induction false} LabelMapAt(ls: seq<Label>, i: nat)
    requires DistinctKeys(ls) && i < |ls|
    ensures ls[i].key in LabelMap(ls) && LabelMap(ls)[ls[i].key] == ls[i].value
    decreases |ls|
  {
    if i == 0 {
      LabelMapKeys(ls[1..]);
    } else {
      LabelMapAt(ls[1..], i - 1);
    }
  }

  lemma {:induction false} LabelMapKeys(ls: seq<Label>)
    ensures forall k :: k in LabelMap(ls) ==> exists i :: 0 <= i < |ls| && ls[i].key == k
    decreases |ls|
  {
    if ls == [] {
    } else {
      LabelMapKeys(ls[1..]);
      forall k | k in LabelMap(ls) ensures exists i :: 0 <= i < |ls| && ls[i].key == k {
        if k == ls[0].key {
        } else {
          assert k in LabelMap(ls[1..]);
          var i :| 0 <= i < |ls[1..]| && ls[1..][i].key == k;
          assert ls[i + 1].key == k;
        }
      }
    }
  }

  /** A printed sample line is read back exactly when no label value contains a quote or a closing brace. */
  lemma SampleRoundTripIff(s: Sample, v: Number)
    requires GoodName(s.name) && GoodNumber(s.text) && ParseFloat(s.text) == Some(v)
    requires GoodKeys(s.labels) && DistinctKeys(s.labels) && OneLine(s.labels)
    ensures ParseLine(PrintSample(s)) == Some((SeriesOf(s), v)) <==> NoQuotes(s.labels) && NoBraces(s.labels)
  {
    hide ParseLine, ParseFloat, PrintSample, GoodName, GoodNumber, LabelMap;
    if ParseLine(PrintSample(s)) == Some((SeriesOf(s), v)) {
      ParsedValues(PrintSample(s));
      forall i | 0 <= i < |s.labels| ensures '"' !in s.labels[i].value && '}' !in s.labels[i].value {
        LabelMapAt(s.labels, i);
      }
    }
    if NoQuotes(s.labels) && NoBraces(s.labels) {
      CleanIsGood(s.labels);
      SampleRoundTrip(s, v);
    }
  }

  lemma CleanIsGood(ls: seq<Label>)
    requires GoodKeys(ls) && OneLine(ls) && NoQuotes(ls) && NoBraces(ls)
    ensures GoodLabels(ls)
  {
    forall i, j | 0 <= i < |ls| && 0 <= j < |ls[i].value| ensures ls[i].value[j] != '"' && !IsBreak(ls[i].value[j]) {
      assert ls[i].value[j] in ls[i].value;
    }
  }

  // ---------------------------------------------------------------- what is misread

  /** The printer does not escape: a quote at the end of a label value ends the value early for the parser, which
      stores the number under another series. */
  lemma QuoteMisreadsSeries(name: string, key: string, x: string, text: string, v: Number)
    requires GoodName(name) && GoodName(key) && GoodValue(x) && GoodNumber(text) && ParseFloat(text) == Some(v)
    ensures ParseLine(PrintSample(Sample(name, [Label(key, x + "\"")], text))) ==
            Some((Collector.Series(name, map[key := x]), v))
  {
    hide MatchLine, ParseFloat, NameRest, NameStart, FindLabels, MatchLabel, GoodValue;
    var s := Sample(name, [Label(key, x + "\"")], text);
    assert '}' !in x + "\"" by { BraceFree(x); }
    LineMatched(s);
    TrailingQuote(key, x);
    assert PrintSample(s)[0] == name[0] != '#' by { NameIsNoComment(name); }
  }

  lemma NameIsNoComment(name: string)
    requires GoodName(name)
    ensures name[0] != '#'
  {
  }

  lemma BraceFree(x: string)
    requires GoodValue(x)
    ensures '}' !in x + "\""
  {
  }

  lemma TrailingQuote(key: string, x: string)
    requires GoodName(key) && GoodValue(x)
    ensures FindLabels(Braced([Label(key, x + "\"")])) == map[key := x]
  {
    hide NameStart, NameRest, MatchLabel, GoodName, GoodValue, FindLabels;
    var s := Braced([Label(key, x + "\"")]);
    var pair := Pair(Label(key, x));
    assert s == "{" + pair + "\"}";
    assert s[1..] == pair + "\"}";
    PunctuationIsNoName();
    NoLabelAt(s);
    MatchPair(Label(key, x), "\"}");
    LabelThen(pair + "\"}", key, x, |pair|);
    NothingAfter();
    assert map[key := x] + map[] == map[key := x];
  }

  lemma {:induction false} LabelThen(s: string, key: string, x: string, n: nat)
    requires MatchLabel(s) == Some(LabelMatch(key, x, n))
    ensures n <= |s| && FindLabels(s) == map[key := x] + FindLabels(s[n..])
  {
  }

  lemma NothingAfter()
    ensures FindLabels("\"}") == map[]
  {
    PunctuationIsNoName();
    NoLabelAt("\"}");
    NoLabelAt("}");
    assert "\"}"[1..] == "}" && "}"[1..] == "";
  }

  // ---------------------------------------------------------------- what never survives

  lemma QuoteIsNoNumber(s: string, q: nat)
    requires q < |s| && s[q] == '"'
    ensures MatchNumber(s) == None
  {
  }

  /** A line whose label text contains a closing brace before its end is dropped: the pattern ends the labels at the
      first brace, and the closing quote of that value is then in the way of the number.  Route templates such as
      `/orders/{order_id}` are of this kind. */
  lemma BraceInLabelDropsLine(s: Sample, i: nat, b: nat)
    requires GoodName(s.name) && i < |s.labels|
    requires forall j :: 0 <= j < |s.labels| ==> GoodName(s.labels[j].key)
    requires b < |s.labels[i].value| && s.labels[i].value[b] == '}'
    ensures ParseLine(PrintSample(s)) == None
  {
    hide NameRest, NumberChar, IsSpace, MetricLength, MatchNumber, Pairs, Find, FindLabels, ParseFloat;
    var tail := Braced(s.labels) + " " + s.text;
    var raw := PrintSample(s);
    assert raw == s.name + tail && tail[0] == '{';
    NameMatched(s.name, tail);
    assert raw[..|s.name|] == s.name && raw[|s.name|..] == tail && raw[0] == s.name[0];
    BraceStopsLabels(s.labels, i, b, s.text);
  }

  /** The first closing brace is followed by a quote, so by no number. */
  lemma BraceStopsLabels(ls: seq<Label>, i: nat, b: nat, text: string)
    requires i < |ls| && b < |ls[i].value| && ls[i].value[b] == '}'
    ensures var tail := Braced(ls) + " " + text;
            Find(tail, '}') < |tail| && MatchNumber(tail[Find(tail, '}') + 1..]) == None
  {
    hide MatchNumber, Pairs, Find;
    var at := BraceInside(ls, i, b);
    EarlyBrace(Pairs(ls), at, "} " + text);
    Closed(Pairs(ls), text);
  }

  lemma {:induction false} Closed(p: string, text: string)
    ensures "{" + p + "}" + " " + text == "{" + p + ("} " + text)
  {
  }

  lemma EarlyBrace(p: string, at: nat, rest: string)
    requires at < |p| - 1 && p[at] == '}' && p[|p| - 1] == '"'
    ensures var tail := "{" + p + rest;
            Find(tail, '}') < |tail| && MatchNumber(tail[Find(tail, '}') + 1..]) == None
  {
    hide MatchNumber;
    var tail := "{" + p + rest;
    var j := Find(tail, '}');
    assert tail[at + 1] == '}' && tail[|p|] == '"';
    assert j <= at + 1;
    hide Find;
    assert tail[j + 1..][|p| - j - 1] == tail[|p|];
    QuoteIsNoNumber(tail[j + 1..], |p| - j - 1);
  }

  lemma {:induction false} BraceInside(ls: seq<Label>, i: nat, b: nat) returns (at: nat)
    requires i < |ls| && b < |ls[i].value| && ls[i].value[b] == '}'
    ensures at < |Pairs(ls)| - 1 && Pairs(ls)[at] == '}' && Pairs(ls)[|Pairs(ls)| - 1] == '"'
    decreases |ls|
  {
    var p := Pair(ls[0]);
    assert p[|p| - 1] == '"';
    if |ls| == 1 {
      at := |ls[0].key| + 2 + b;
      assert p[at] == ls[0].value[b];
    } else {
      assert Pairs(ls) == p + "," + Pairs(ls[1..]);
      LastIsQuote(ls[1..]);
      if i == 0 {
        at := |ls[0].key| + 2 + b;
        assert p[at] == ls[0].value[b];
      } else {
        at := BraceInside(ls[1..], i - 1, b);
        at := |p| + 1 + at;
      }
    }
  }

  lemma {:induction false} LastIsQuote(ls: seq<Label>)
    requires ls != []
    ensures Pairs(ls) != "" && Pairs(ls)[|Pairs(ls)| - 1] == '"'
    decreases |ls|
  {
    if |ls| == 1 {
    } else {
      LastIsQuote(ls[1..]);
    }
  }

  // ---------------------------------------------------------------- what a printed line is read as

  /** A sample with good names and a number; nothing is asked of its label values. */
  predicate WellPrinted(x: Sample) {
    GoodName(x.name) && GoodKeys(x.labels) && GoodNumber(x.text) && ParseFloat(x.text).Some?
  }

  /** The series that a printed sample is read as; none when a label value has a closing brace. */
  function ReadAs(x: Sample): Option<Series> {
    if NoBraces(x.labels) then Some(Collector.Series(x.name, FindLabels(Braced(x.labels)))) else None
  }

  /** Whatever is in the label values, the number of a printed line goes to that series or the line is dropped. */
  lemma LineReads(x: Sample)
    requires WellPrinted(x)
    ensures ParseLine(PrintSample(x)) ==
            if ReadAs(x).None? then None else Some((ReadAs(x).value, ParseFloat(x.text).value))
  {
    hide MatchLine, FindLabels, ParseFloat, Braced, NameRest, NameStart, NumberChar;
    if NoBraces(x.labels) {
      LineMatched(x);
      NameIsNoComment(x.name);
      assert PrintSample(x)[0] == x.name[0];
    } else {
      var i :| 0 <= i < |x.labels| && '}' in x.labels[i].value;
      var b :| 0 <= b < |x.labels[i].value| && x.labels[i].value[b] == '}';
      BraceInLabelDropsLine(x, i, b);
    }
  }

  function SampleLines(xs: seq<Sample>): seq<string> {
    seq(|xs|, i requires 0 <= i < |xs| => PrintSample(xs[i]))
  }

  lemma {:induction false} ParseConcat(a: seq<string>, b: seq<string>)
    ensures ParseLines(a + b) == ParseLines(a) + ParseLines(b)
    decreases |b|
  {
    hide ParseLine;
    if b == [] {
      assert a + b == a;
    } else {
      ParseConcat(a, b[..|b| - 1]);
      assert (a + b)[..|a + b| - 1] == a + b[..|b| - 1];
    }
  }

  /** A series that was read has the number of the last sample read as it. */
  lemma {:induction false} LastReading(xs: seq<Sample>, k: Series) returns (i: nat)
    requires (forall j :: 0 <= j < |xs| ==> WellPrinted(xs[j])) && k in ParseLines(SampleLines(xs))
    ensures i < |xs| && ReadAs(xs[i]) == Some(k) && ParseFloat(xs[i].text) == Some(ParseLines(SampleLines(xs))[k])
    ensures forall j :: i < j < |xs| ==> ReadAs(xs[j]) != Some(k)
    decreases |xs|
  {
    hide ParseLine, PrintSample, ReadAs, GoodName, GoodKeys, GoodNumber, ParseFloat;
    var init, x := xs[..|xs| - 1], xs[|xs| - 1];
    assert SampleLines(xs)[..|xs| - 1] == SampleLines(init) && SampleLines(xs)[|xs| - 1] == PrintSample(x);
    LineReads(x);
    if ReadAs(x) == Some(k) {
      i := |xs| - 1;
    } else {
      i := LastReading(init, k);
    }
  }

  /** Every sample that is read at all has its series among those read. */
  lemma {:induction false} EachIsRead(xs: seq<Sample>, i: nat)
    requires (forall j :: 0 <= j < |xs| ==> WellPrinted(xs[j])) && i < |xs| && ReadAs(xs[i]).Some?
    ensures ReadAs(xs[i]).value in ParseLines(SampleLines(xs))
    decreases |xs|
  {
    hide ParseLine, PrintSample, ReadAs, WellPrinted, ParseFloat;
    var init, x := xs[..|xs| - 1], xs[|xs| - 1];
    assert SampleLines(xs)[..|xs| - 1] == SampleLines(init) && SampleLines(xs)[|xs| - 1] == PrintSample(x);
    LineReads(x);
    if i < |init| {
      EachIsRead(init, i);
    }
  }

  /** A sample whose label values have no quote either is read as its own series. */
  lemma CleanReads(x: Sample)
    requires WellPrinted(x) && OneLine(x.labels) && NoQuotes(x.labels) && NoBraces(x.labels)
    ensures ReadAs(x) == Some(SeriesOf(x))
  {
    hide FindLabels, Braced, LabelMap;
    CleanIsGood(x.labels);
    BracedFound(x.labels);
  }
}
