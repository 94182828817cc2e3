/** Crontab fields: what the matcher answers, and that it is membership in the listed progressions. */
module CronFields {
  import opened Options
  import opened Text
  import opened Numbers

  /** One comma-separated item: `*` or a number, an optional end and an optional step. */
  datatype Part = Part(base: Option<nat>, end: Option<nat>, step: Option<nat>)

  /** A step of zero makes the source divide by zero. */
  datatype Answer = Yes | No | DividesByZero

  function SplitComma(s: string): (parts: seq<string>)
    ensures parts != []
  {
    if s == "" then [""]
    else if s[0] == ',' then [""] + SplitComma(s[1..])
    else var rest := SplitComma(s[1..]); [[s[0]] + rest[0]] + rest[1..]
  }

  /** `-digits` or `/digits` when present: the number, if any, and what is left; `None` when the digits are missing. */
  function Suffix(s: string, mark: char): Option<(Option<nat>, string)> {
    if s == "" || s[0] != mark then Some((None, s))
    else if Lead(s[1..]) == 0 then None
    else Some((Some(Value(s[1..][..Lead(s[1..])])), s[1..][Lead(s[1..])..]))
  }

  function ParsePart(s: string): Option<Part> {
    var n := Lead(s);
    if n == 0 && (s == "" || s[0] != '*') then None else
      var base := if n == 0 then None else Some(Value(s[..n]));
      match Suffix(s[if n == 0 then 1 else n..], '-')
      case None => None
      case Some(e) =>
        match Suffix(e.1, '/')
        case None => None
        case Some(t) => if t.1 == "" then Some(Part(base, e.0, t.0)) else None
  }

  function First(p: Part, lo: int): int {
    if p.base.None? then lo else p.base.value
  }

  /** A number with a step but no end runs to the top of the range. */
  function Final(p: Part, hi: int): int {
    if p.base.None? then hi
    else if p.end.Some? then p.end.value
    else if p.step.Some? then hi else p.base.value
  }

  function Stride(p: Part): nat {
    if p.step.Some? then p.step.value else 1
  }

  function MatchPart(p: Part, value: int, lo: int, hi: int): Answer {
    if !(First(p, lo) <= value <= Final(p, hi)) then No
    else if Stride(p) == 0 then DividesByZero
    else if (value - First(p, lo)) % Stride(p) == 0 then Yes else No
  }

  function MatchParts(parts: seq<string>, value: int, lo: int, hi: int): Answer {
    if parts == [] then No else
      match ParsePart(Strip(parts[0]))
      case None => No
      case Some(p) =>
        var a := MatchPart(p, value, lo, hi);
        if a.No? then MatchParts(parts[1..], value, lo, hi) else a
  }

  method FieldMatches(field: string, value: int, lo: int, hi: int) returns (a: Answer)
    ensures a == MatchParts(SplitComma(field), value, lo, hi)
  {
    hide ParsePart, SplitComma, Strip;
    var parts := SplitComma(field);
    assert parts[0..] == parts;
    for k := 0 to |parts|
      invariant MatchParts(parts, value, lo, hi) == MatchParts(parts[k..], value, lo, hi)
    {
      assert parts[k..][0] == parts[k] && parts[k..][1..] == parts[k + 1..];
      var m := ParsePart(Strip(parts[k]));
      if m.None? {
        return No;
      }
      var start, stop, step := lo, hi, 1;
      if m.value.step.Some? {
        step := m.value.step.value;
      }
      if m.value.base.Some? {
        start := m.value.base.value;
        stop := if m.value.end.Some? then m.value.end.value else if m.value.step.Some? then hi else start;
      }
      if start <= value <= stop {
        if step == 0 {
          return DividesByZero;
        }
        if (value - start) % step == 0 {
          return Yes;
        }
      }
    }
    return No;
  }

  // ---------------------------------------------------------------- membership

  /** `value` is `first`, `first + stride`, `first + 2 * stride`, ... up to `final`. */
  ghost predicate InProgression(p: Part, value: int, lo: int, hi: int) {
    value <= Final(p, hi) && exists k: nat :: value == First(p, lo) + k * Stride(p)
  }

  ghost predicate Lists(part: string, value: int, lo: int, hi: int) {
    ParsePart(Strip(part)).Some? && InProgression(ParsePart(Strip(part)).value, value, lo, hi)
  }

  ghost predicate WellFormed(part: string) {
    ParsePart(Strip(part)).Some? && Stride(ParsePart(Strip(part)).value) > 0
  }

  lemma PartIsProgression(p: Part, value: int, lo: int, hi: int)
    requires Stride(p) > 0
    ensures MatchPart(p, value, lo, hi) == Yes <==> InProgression(p, value, lo, hi)
    ensures MatchPart(p, value, lo, hi) != DividesByZero
  {
    var d, s := value - First(p, lo), Stride(p);
    if MatchPart(p, value, lo, hi) == Yes {
      assert d == d / s * s + d % s;
      var k: nat := d / s;
      assert value == First(p, lo) + k * s;
    }
    if InProgression(p, value, lo, hi) {
      var k: nat :| value == First(p, lo) + k * s;
      MultipleOf(k, s);
    }
  }

  lemma MultipleOf(k: nat, s: nat)
    requires s > 0
    ensures k * s >= 0 && (k * s) % s == 0
  {
    var q, r := k * s / s, (k * s) % s;
    assert k * s == q * s + r;
    assert (k - q) * s == r;
    if k > q {
      AtLeastOnce(k - q, s);
    } else if q > k {
      AtLeastOnce(q - k, s);
    }
  }

  lemma AtLeastOnce(n: nat, s: nat)
    requires n > 0
    ensures n * s >= s
  {
  }

  /** An item that is well formed and does not divide by zero on this value. */
  predicate Harmless(part: string, value: int, lo: int, hi: int) {
    match ParsePart(Strip(part))
    case None => false
    case Some(p) => Stride(p) > 0 || !(First(p, lo) <= value <= Final(p, hi))
  }

  lemma ItemAnswers(part: string, value: int, lo: int, hi: int)
    requires ParsePart(Strip(part)).Some?
    ensures var a := MatchPart(ParsePart(Strip(part)).value, value, lo, hi);
            && (a == DividesByZero <==> !Harmless(part, value, lo, hi))
            && (a == Yes <==> Harmless(part, value, lo, hi) && Lists(part, value, lo, hi))
  {
    hide ParsePart, Strip;
    var p := ParsePart(Strip(part)).value;
    if Stride(p) > 0 {
      PartIsProgression(p, value, lo, hi);
    }
  }

  /** Some item lists the value, and it and all items before it are harmless. */
  ghost predicate ListedFirst(parts: seq<string>, value: int, lo: int, hi: int) {
    exists i :: 0 <= i < |parts| && Lists(parts[i], value, lo, hi)
                && forall j :: 0 <= j <= i ==> Harmless(parts[j], value, lo, hi)
  }

  /** Some well-formed item is harmful, and all items before it are harmless and do not list the value. */
  ghost predicate HarmedFirst(parts: seq<string>, value: int, lo: int, hi: int) {
    exists i :: 0 <= i < |parts| && ParsePart(Strip(parts[i])).Some? && !Harmless(parts[i], value, lo, hi)
                && forall j :: 0 <= j < i ==> Harmless(parts[j], value, lo, hi) && !Lists(parts[j], value, lo, hi)
  }

  lemma ListedFirstCons(parts: seq<string>, value: int, lo: int, hi: int)
    requires parts != []
    ensures ListedFirst(parts, value, lo, hi) <==>
              && Harmless(parts[0], value, lo, hi)
              && (Lists(parts[0], value, lo, hi) || ListedFirst(parts[1..], value, lo, hi))
  {
    hide Harmless, Lists;
    var rest := parts[1..];
    assert forall i :: 0 <= i < |rest| ==> rest[i] == parts[i + 1];
    if ListedFirst(parts, value, lo, hi) {
      var i :| 0 <= i < |parts| && Lists(parts[i], value, lo, hi)
               && forall j :: 0 <= j <= i ==> Harmless(parts[j], value, lo, hi);
      if i > 0 {
        assert Lists(rest[i - 1], value, lo, hi) && forall j :: 0 <= j <= i - 1 ==> Harmless(rest[j], value, lo, hi);
      }
    }
    if Harmless(parts[0], value, lo, hi) && ListedFirst(rest, value, lo, hi) {
      var i :| 0 <= i < |rest| && Lists(rest[i], value, lo, hi)
               && forall j :: 0 <= j <= i ==> Harmless(rest[j], value, lo, hi);
      assert forall j :: 0 < j <= i + 1 ==> parts[j] == rest[j - 1];
      assert Lists(parts[i + 1], value, lo, hi) && forall j :: 0 <= j <= i + 1 ==> Harmless(parts[j], value, lo, hi);
    }
  }

  lemma HarmedFirstCons(parts: seq<string>, value: int, lo: int, hi: int)
    requires parts != [] && ParsePart(Strip(parts[0])).Some?
    ensures HarmedFirst(parts, value, lo, hi) <==>
              || !Harmless(parts[0], value, lo, hi)
              || (!Lists(parts[0], value, lo, hi) && HarmedFirst(parts[1..], value, lo, hi))
  {
    hide Harmless, Lists, ParsePart, Strip;
    var rest := parts[1..];
    assert forall i :: 0 <= i < |rest| ==> rest[i] == parts[i + 1];
    if HarmedFirst(parts, value, lo, hi) {
      var i :| 0 <= i < |parts| && ParsePart(Strip(parts[i])).Some? && !Harmless(parts[i], value, lo, hi)
               && forall j :: 0 <= j < i ==> Harmless(parts[j], value, lo, hi) && !Lists(parts[j], value, lo, hi);
      if i > 0 {
        assert !Harmless(rest[i - 1], value, lo, hi)
            && forall j :: 0 <= j < i - 1 ==> Harmless(rest[j], value, lo, hi) && !Lists(rest[j], value, lo, hi);
      }
    }
    if Harmless(parts[0], value, lo, hi) && !Lists(parts[0], value, lo, hi) && HarmedFirst(rest, value, lo, hi) {
      var i :| 0 <= i < |rest| && ParsePart(Strip(rest[i])).Some? && !Harmless(rest[i], value, lo, hi)
               && forall j :: 0 <= j < i ==> Harmless(rest[j], value, lo, hi) && !Lists(rest[j], value, lo, hi);
      assert forall j :: 0 < j <= i + 1 ==> parts[j] == rest[j - 1];
      assert !Harmless(parts[i + 1], value, lo, hi)
          && forall j :: 0 <= j < i + 1 ==> Harmless(parts[j], value, lo, hi) && !Lists(parts[j], value, lo, hi);
    }
  }

  /** On any field: Yes, No or the division by zero, by the first item that decides. */
  lemma {:induction false} FieldAnswers(parts: seq<string>, value: int, lo: int, hi: int)
    ensures MatchParts(parts, value, lo, hi) == Yes <==> ListedFirst(parts, value, lo, hi)
    ensures MatchParts(parts, value, lo, hi) == DividesByZero <==> HarmedFirst(parts, value, lo, hi)
    decreases |parts|
  {
    if parts == [] {
    } else {
      hide ParsePart, Strip, MatchPart, Lists, ListedFirst, HarmedFirst;
      ListedFirstCons(parts, value, lo, hi);
      if ParsePart(Strip(parts[0])).Some? {
        ItemAnswers(parts[0], value, lo, hi);
        HarmedFirstCons(parts, value, lo, hi);
        FieldAnswers(parts[1..], value, lo, hi);
      } else {
        MalformedHarmsNot(parts, value, lo, hi);
      }
    }
  }

  lemma MalformedHarmsNot(parts: seq<string>, value: int, lo: int, hi: int)
    requires parts != [] && ParsePart(Strip(parts[0])).None?
    ensures !HarmedFirst(parts, value, lo, hi)
  {
    hide ParsePart, Strip, Lists;
    assert !Harmless(parts[0], value, lo, hi);
  }

  /** On a field whose items are all well formed with positive steps, the answer is membership in their union. */
  lemma {:induction false} FieldIsUnion(parts: seq<string>, value: int, lo: int, hi: int)
    requires forall i :: 0 <= i < |parts| ==> WellFormed(parts[i])
    ensures MatchParts(parts, value, lo, hi) ==
            if exists i :: 0 <= i < |parts| && Lists(parts[i], value, lo, hi) then Yes else No
  {
    hide ParsePart, Strip, MatchParts, Lists;
    FieldAnswers(parts, value, lo, hi);
    assert forall i :: 0 <= i < |parts| ==> WellFormed(parts[i]) && Harmless(parts[i], value, lo, hi);
  }

  // ---------------------------------------------------------------- a plain number

  lemma {:induction false} NoCommaSplit(s: string)
    requires ',' !in s
    ensures SplitComma(s) == [s]
    decreases |s|
  {
    if s == "" {
    } else {
      NoCommaSplit(s[1..]);
      assert s == [s[0]] + s[1..];
    }
  }

  /** A field of digits matches one value only. */
  lemma {:induction false} PlainNumberMatchesItself(s: string, value: int, lo: int, hi: int)
    requires AllDigits(s)
    ensures MatchParts(SplitComma(s), value, lo, hi) == if value == Value(s) then Yes else No
  {
    hide Value;
    NoCommaSplit(s);
    assert s[..|s|] == s;
    assert s[|s|..] == "";
    assert ParsePart(s) == Some(Part(Some(Value(s)), None, None));
    assert [s][1..] == [];
  }

  // ---------------------------------------------------------------- fields as they are written

  function Marked(mark: char, n: Option<nat>): string {
    if n.Some? then [mark] + Print(n.value) else ""
  }

  function PartText(p: Part): string {
    (if p.base.Some? then Print(p.base.value) else "*") + (Marked('-', p.end) + Marked('/', p.step))
  }

  function FieldText(items: seq<Part>): string
    requires items != []
  {
    if |items| == 1 then PartText(items[0]) else PartText(items[0]) + "," + FieldText(items[1..])
  }

  /** `*`, `*``/n`, `a`, `a-b`, `a/n` and `a-b/n`; the end of a `*` is ignored. */
  ghost predicate Selects(p: Part, value: int, lo: int, hi: int) {
    match p
    case Part(None, _, None) => lo <= value <= hi
    case Part(None, _, Some(n)) => value <= hi && exists k: nat :: value == lo + k * n
    case Part(Some(a), None, None) => value == a
    case Part(Some(a), Some(b), None) => a <= value <= b
    case Part(Some(a), None, Some(n)) => value <= hi && exists k: nat :: value == a + k * n
    case Part(Some(a), Some(b), Some(n)) => value <= b && exists k: nat :: value == a + k * n
  }

  predicate AllDigits(s: string) {
    s != "" && Digits(s)
  }

  ghost predicate Numeral(s: string, mark: char, n: Option<nat>) {
    if n.None? then s == "" else s != "" && s[0] == mark && AllDigits(s[1..]) && Value(s[1..]) == n.value
  }

  ghost predicate Base(s: string, n: Option<nat>) {
    if n.None? then s == "*" else AllDigits(s) && Value(s) == n.value
  }

  /** `s` is `*` or a numeral, perhaps a dash and a numeral, perhaps a slash and a numeral, for the numbers of `p`. */
  ghost predicate Reads(s: string, p: Part) {
    exists b, e, t :: s == b + (e + t) && Base(b, p.base) && Numeral(e, '-', p.end) && Numeral(t, '/', p.step)
  }

  lemma LeadOfDigits(d: string, rest: string)
    requires Digits(d) && (rest != "" ==> !IsDigit(rest[0]))
    ensures var s := d + rest; Lead(s) == |d| && s[..Lead(s)] == d && s[Lead(s)..] == rest
  {
    hide Lead;
    var s := d + rest;
    assert forall i :: 0 <= i < |d| ==> s[i] == d[i];
    assert rest != "" ==> s[|d|] == rest[0];
  }

  lemma SuffixReads(s: string, mark: char, n: Option<nat>, e: string, rest: string)
    requires !IsDigit(mark) && (rest != "" ==> !IsDigit(rest[0]) && rest[0] != mark)
    requires s == e + rest && Numeral(e, mark, n)
    ensures Suffix(s, mark) == Some((n, rest))
  {
    hide Lead, Value, Digits;
    if n.Some? {
      LeadOfDigits(e[1..], rest);
      assert s[1..] == e[1..] + rest;
      assert s[1..][..|e| - 1] == e[1..];
    } else {
      assert s == rest;
    }
  }

  lemma SuffixIsNumeral(s: string, mark: char) returns (e: string)
    requires Suffix(s, mark).Some?
    ensures s == e + Suffix(s, mark).value.1 && Numeral(e, mark, Suffix(s, mark).value.0)
  {
    hide Lead, Value, Digits;
    e := if s == "" || s[0] != mark then "" else [mark] + s[1..][..Lead(s[1..])];
  }

  lemma {:induction false} NoLead(s: string)
    requires s == "" || !IsDigit(s[0])
    ensures Lead(s) == 0
  {
  }

  lemma ReadIsParsed(s: string, p: Part, b: string, e: string, t: string)
    requires s == b + (e + t) && Base(b, p.base) && Numeral(e, '-', p.end) && Numeral(t, '/', p.step)
    ensures ParsePart(s) == Some(p)
  {
    hide Lead, Value, Suffix, Digits;
    assert t + "" == t;
    SuffixReads(t, '/', p.step, t, "");
    SuffixReads(e + t, '-', p.end, e, t);
    assert e + t != "" ==> (e + t)[0] in {'-', '/'};
    hide Numeral;
    if p.base.Some? {
      LeadOfDigits(b, e + t);
    } else {
      NoLead(s);
      assert s[1..] == e + t;
    }
  }

  lemma ParsedIsRead(s: string, p: Part)
    requires ParsePart(s) == Some(p)
    ensures Reads(s, p)
  {
    hide Lead, Value, Suffix, Digits;
    var n := Lead(s);
    var k := if n == 0 then 1 else n;
    var e := SuffixIsNumeral(s[k..], '-');
    var t := SuffixIsNumeral(Suffix(s[k..], '-').value.1, '/');
    assert s[k..] == e + t;
    assert Base(s[..k], p.base) && s == s[..k] + (e + t);
  }

  /** An item is accepted, and for these numbers, exactly when it has that shape. */
  lemma ParsedIff(s: string, p: Part)
    ensures ParsePart(s) == Some(p) <==> Reads(s, p)
  {
    hide ParsePart, Base, Numeral;
    if ParsePart(s) == Some(p) {
      ParsedIsRead(s, p);
    }
    if Reads(s, p) {
      var b, e, t :| s == b + (e + t) && Base(b, p.base) && Numeral(e, '-', p.end) && Numeral(t, '/', p.step);
      ReadIsParsed(s, p, b, e, t);
    }
  }

  lemma MarkedIsNumeral(mark: char, n: Option<nat>)
    ensures Numeral(Marked(mark, n), mark, n)
  {
    hide Value, Print;
    if n.Some? {
      PrintedIsDigits(n.value);
      assert Marked(mark, n)[1..] == Print(n.value);
    }
  }

  /** An item is read back as it was written. */
  lemma PartReadsBack(p: Part)
    ensures ParsePart(PartText(p)) == Some(p)
  {
    hide Value, Print, Numeral, ParsePart, Marked;
    MarkedIsNumeral('-', p.end);
    MarkedIsNumeral('/', p.step);
    if p.base.Some? {
      PrintedIsDigits(p.base.value);
    }
    ReadIsParsed(PartText(p), p, if p.base.Some? then Print(p.base.value) else "*", Marked('-', p.end),
                 Marked('/', p.step));
  }

  lemma {:induction false} JoinedSplits(part: string, rest: string)
    requires ',' !in part
    ensures SplitComma(part + "," + rest) == [part] + SplitComma(rest)
    decreases |part|
  {
    var s := part + "," + rest;
    if part == "" {
      assert s[1..] == rest;
    } else {
      JoinedSplits(part[1..], rest);
      assert s[1..] == part[1..] + "," + rest;
      assert part == [part[0]] + part[1..];
    }
  }

  lemma PlainPart(p: Part)
    ensures ',' !in PartText(p) && Strip(PartText(p)) == PartText(p)
  {
    hide Print, Strip;
    if p.base.Some? { PrintedIsDigits(p.base.value); }
    if p.end.Some? { PrintedIsDigits(p.end.value); }
    if p.step.Some? { PrintedIsDigits(p.step.value); }
    var s := PartText(p);
    assert forall i :: 0 <= i < |s| ==> IsDigit(s[i]) || s[i] in {'*', '-', '/'};
    StripFacts(s);
  }

  lemma {:induction false} FieldSplits(items: seq<Part>)
    requires items != []
    ensures var parts := SplitComma(FieldText(items));
            |parts| == |items| && forall i :: 0 <= i < |parts| ==> parts[i] == PartText(items[i])
    decreases |items|
  {
    hide PartText;
    PlainPart(items[0]);
    if |items| == 1 {
      NoCommaSplit(PartText(items[0]));
    } else {
      JoinedSplits(PartText(items[0]), FieldText(items[1..]));
      FieldSplits(items[1..]);
    }
  }

  lemma EachOne(p: Part, value: int, lo: int, hi: int)
    requires p.step.None?
    ensures InProgression(p, value, lo, hi) <==> Selects(p, value, lo, hi)
  {
    if First(p, lo) <= value {
      var k: nat := value - First(p, lo);
      assert value == First(p, lo) + k * Stride(p);
    }
  }

  lemma StepByStep(p: Part, value: int, lo: int, hi: int)
    requires p.step.Some?
    ensures InProgression(p, value, lo, hi) <==> Selects(p, value, lo, hi)
  {
    var a, n := First(p, lo), Stride(p);
    assert (exists k: nat :: value == First(p, lo) + k * Stride(p)) <==> exists k: nat :: value == a + k * n;
    assert (exists k: nat :: value == a + k * n) <==> exists k: nat :: value == a + k * p.step.value;
  }

  lemma SelectsIsListed(p: Part, value: int, lo: int, hi: int)
    requires p.step != Some(0)
    ensures Lists(PartText(p), value, lo, hi) <==> Selects(p, value, lo, hi)
    ensures WellFormed(PartText(p))
  {
    PlainPart(p);
    PartReadsBack(p);
    hide PartText, ParsePart, Strip, InProgression;
    if p.step.None? {
      EachOne(p, value, lo, hi);
    } else {
      StepByStep(p, value, lo, hi);
    }
  }

  /** A written field with positive steps matches exactly what its items select. */
  lemma {:induction false} WrittenFieldMatches(items: seq<Part>, value: int, lo: int, hi: int)
    requires items != [] && forall i :: 0 <= i < |items| ==> items[i].step != Some(0)
    ensures MatchParts(SplitComma(FieldText(items)), value, lo, hi) ==
            if exists i :: 0 <= i < |items| && Selects(items[i], value, lo, hi) then Yes else No
  {
    hide PartText, Lists, Selects, SplitComma, MatchParts, FieldText, WellFormed;
    var parts := SplitComma(FieldText(items));
    FieldSplits(items);
    forall i | 0 <= i < |items|
      ensures Lists(parts[i], value, lo, hi) <==> Selects(items[i], value, lo, hi)
      ensures WellFormed(parts[i])
    {
      SelectsIsListed(items[i], value, lo, hi);
    }
    FieldIsUnion(parts, value, lo, hi);
  }
}
