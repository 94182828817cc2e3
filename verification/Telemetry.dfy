/** The in-process counter registry and the text it renders, read back by the scraper's parser. */
module Telemetry {
  import opened Options
  import opened Text
  import opened Numbers
  import opened Exposition
  import Collector

  type RequestKey = (string, string, string)

  /** All counters at one moment; durations are thousandths of a millisecond. */
  datatype Snapshot = Snapshot(requests: map<RequestKey, nat>, durationSum: map<string, nat>,
                               durationCount: map<string, nat>, dbErrors: map<string, nat>,
                               rateLimited: nat, webhookRejects: nat, started: nat)

  /** Counters of one process life only grow, and nothing disappears. */
  ghost predicate Grows(a: Snapshot, b: Snapshot) {
    && a.started == b.started && a.rateLimited <= b.rateLimited && a.webhookRejects <= b.webhookRejects
    && (forall k :: k in a.requests ==> k in b.requests && a.requests[k] <= b.requests[k])
    && (forall k :: k in a.durationSum ==> k in b.durationSum && a.durationSum[k] <= b.durationSum[k])
    && (forall k :: k in a.durationCount ==> k in b.durationCount && a.durationCount[k] <= b.durationCount[k])
    && (forall k :: k in a.dbErrors ==> k in b.dbErrors && a.dbErrors[k] <= b.dbErrors[k])
  }

  function Get<K>(m: map<K, nat>, k: K): nat {
    if k in m then m[k] else 0
  }

  /** What happens to a registry between two renderings. */
  datatype Call =
    | Observe(verb: string, path: string, status: nat, duration: nat)
    | DbFails(db: string)
    | Limits
    | Rejects

  function Step(s: Snapshot, call: Call): Snapshot {
    match call
    case Observe(verb, path, status, duration) =>
      var key := (verb, path, Print(status));
      s.(requests := s.requests[key := Get(s.requests, key) + 1],
         durationSum := s.durationSum[path := Get(s.durationSum, path) + duration],
         durationCount := s.durationCount[path := Get(s.durationCount, path) + 1])
    case DbFails(db) => s.(dbErrors := s.dbErrors[db := Get(s.dbErrors, db) + 1])
    case Limits => s.(rateLimited := s.rateLimited + 1)
    case Rejects => s.(webhookRejects := s.webhookRejects + 1)
  }

  /** A registry after these calls. */
  function After(started: nat, calls: seq<Call>): Snapshot {
    if calls == [] then Snapshot(map[], map[], map[], map[], 0, 0, started)
    else Step(After(started, calls[..|calls| - 1]), calls[|calls| - 1])
  }

  lemma StepGrows(s: Snapshot, call: Call)
    ensures Grows(s, Step(s, call))
  {
  }

  lemma GrowsOn(a: Snapshot, b: Snapshot, c: Snapshot)
    requires Grows(a, b) && Grows(b, c)
    ensures Grows(a, c)
  {
  }

  /** Between any two moments of its life a registry only grows. */
  lemma {:induction false} AfterGrows(started: nat, calls: seq<Call>, n: nat)
    requires n <= |calls|
    ensures Grows(After(started, calls[..n]), After(started, calls))
    decreases |calls|
  {
    hide Grows, Step;
    if n == |calls| {
      assert calls[..n] == calls;
      GrowsItself(After(started, calls));
    } else {
      var init := calls[..|calls| - 1];
      AfterGrows(started, init, n);
      assert init[..n] == calls[..n];
      StepGrows(After(started, init), calls[|calls| - 1]);
      GrowsOn(After(started, calls[..n]), After(started, init), After(started, calls));
    }
  }

  lemma GrowsItself(s: Snapshot)
    ensures Grows(s, s)
  {
  }

  class Registry {
    var requests: map<RequestKey, nat>
    var durationSum: map<string, nat>
    var durationCount: map<string, nat>
    var dbErrors: map<string, nat>
    var rateLimited: nat
    var webhookRejects: nat
    const started: nat

    function Snap(): Snapshot
      reads this
    {
      Snapshot(requests, durationSum, durationCount, dbErrors, rateLimited, webhookRejects, started)
    }

    constructor (started: nat)
      ensures Snap() == After(started, [])
    {
      requests, durationSum, durationCount, dbErrors := map[], map[], map[], map[];
      rateLimited, webhookRejects, this.started := 0, 0, started;
    }

    method ObserveRequest(verb: string, path: string, status: nat, duration: nat)
      modifies this
      ensures Snap() == Step(old(Snap()), Observe(verb, path, status, duration))
      ensures Grows(old(Snap()), Snap())
    {
      var key := (verb, path, Print(status));
      requests := requests[key := Get(requests, key) + 1];
      durationSum := durationSum[path := Get(durationSum, path) + duration];
      durationCount := durationCount[path := Get(durationCount, path) + 1];
    }

    method DbError(db: string)
      modifies this
      ensures Snap() == Step(old(Snap()), DbFails(db))
      ensures Grows(old(Snap()), Snap())
    {
      dbErrors := dbErrors[db := Get(dbErrors, db) + 1];
    }

    method RateLimited()
      modifies this
      ensures Snap() == Step(old(Snap()), Limits) && Grows(old(Snap()), Snap())
    {
      rateLimited := rateLimited + 1;
    }

    method WebhookRejected()
      modifies this
      ensures Snap() == Step(old(Snap()), Rejects) && Grows(old(Snap()), Snap())
    {
      webhookRejects := webhookRejects + 1;
    }

    /** The four orders are the sorted key lists; nothing below depends on the sorting. */
    method Render(version: string, commit: string, o: Orders) returns (text: string)
      requires Enumerates(o, Snap())
      ensures text == Unlines(AllLines(Snap(), version, commit, o))
    {
      hide Unlines, FamilyLines, SampleLines;
      var s := Snap();
      var lines := FamilyLines(RequestsFamily(), RequestSamples(s, o.requests));
      lines := lines + FamilyLines(SumFamily(), SumSamples(s, o.sums));
      lines := lines + FamilyLines(CountFamily(), CountSamples(s, o.counts));
      lines := lines + FamilyLines(DbFamily(), DbSamples(s, o.dbs));
      lines := lines + FamilyLines(LimitedFamily(), LimitedSamples(s));
      lines := lines + FamilyLines(RejectsFamily(), RejectSamples(s));
      lines := lines + FamilyLines(StartedFamily(), StartedSamples(s));
      lines := lines + FamilyLines(InfoFamily(), InfoSamples(version, commit));
      text := Unlines(lines);
    }
  }

  // ---------------------------------------------------------------- the rendered lines

  datatype Family = Family(name: string, help: string, kind: string)

  function RequestsFamily(): Family {
    Family("http_requests_total", "Total HTTP requests by method, " + "path template and status.", "counter")
  }

  function SumFamily(): Family {
    Family("http_request_duration_ms_sum", "Sum of request latencies " + "in milliseconds.", "counter")
  }

  function CountFamily(): Family {
    Family("http_request_duration_ms_count", "Number of latency " + "observations.", "counter")
  }

  function DbFamily(): Family {
    Family("db_errors_total", "Database connection/query " + "errors by database.", "counter")
  }

  function LimitedFamily(): Family {
    Family("rate_limited_requests_total", "Requests rejected by the " + "per-user rate limiter.", "counter")
  }

  function RejectsFamily(): Family {
    Family("webhook_signature_failures_total", "Gateway webhooks rejected " + "for a bad signature.", "counter")
  }

  function StartedFamily(): Family {
    Family("process_start_time_seconds", "Unix time the " + "process started.", "gauge")
  }

  function InfoFamily(): Family {
    Family("app_info", "Build " + "information.", "gauge")
  }

  datatype Orders = Orders(requests: seq<RequestKey>, sums: seq<string>, counts: seq<string>, dbs: seq<string>)

  /** Each list has exactly the keys of its map. */
  ghost predicate Enumerates(o: Orders, s: Snapshot) {
    && (forall k :: k in o.requests <==> k in s.requests)
    && (forall k :: k in o.sums <==> k in s.durationSum)
    && (forall k :: k in o.counts <==> k in s.durationCount)
    && (forall k :: k in o.dbs <==> k in s.dbErrors)
  }

  function RequestSamples(s: Snapshot, order: seq<RequestKey>): seq<Sample>
    requires forall k :: k in order ==> k in s.requests
  {
    seq(|order|, i requires 0 <= i < |order| =>
      Sample(RequestsFamily().name, RequestLabels(order[i]), Print(s.requests[order[i]])))
  }

  function RequestLabels(k: RequestKey): seq<Label> {
    [Label("method", k.0), Label("path", k.1), Label("status", k.2)]
  }

  function SumSamples(s: Snapshot, order: seq<string>): seq<Sample>
    requires forall k :: k in order ==> k in s.durationSum
  {
    seq(|order|, i requires 0 <= i < |order| =>
      Sample(SumFamily().name, [Label("path", order[i])], PrintThousandths(s.durationSum[order[i]])))
  }

  function CountSamples(s: Snapshot, order: seq<string>): seq<Sample>
    requires forall k :: k in order ==> k in s.durationCount
  {
    seq(|order|, i requires 0 <= i < |order| =>
      Sample(CountFamily().name, [Label("path", order[i])], Print(s.durationCount[order[i]])))
  }

  function DbSamples(s: Snapshot, order: seq<string>): seq<Sample>
    requires forall k :: k in order ==> k in s.dbErrors
  {
    seq(|order|, i requires 0 <= i < |order| =>
      Sample(DbFamily().name, [Label("db", order[i])], Print(s.dbErrors[order[i]])))
  }

  function FamilyLines(f: Family, samples: seq<Sample>): seq<string> {
    ["# HELP " + f.name + " " + f.help, "# TYPE " + f.name + " " + f.kind] + SampleLines(samples)
  }

  function LimitedSamples(s: Snapshot): seq<Sample> {
    [Sample(LimitedFamily().name, [], Print(s.rateLimited))]
  }

  function RejectSamples(s: Snapshot): seq<Sample> {
    [Sample(RejectsFamily().name, [], Print(s.webhookRejects))]
  }

  function StartedSamples(s: Snapshot): seq<Sample> {
    [Sample(StartedFamily().name, [], Print(s.started))]
  }

  function InfoSamples(version: string, commit: string): seq<Sample> {
    [Sample(InfoFamily().name, [Label("version", version), Label("commit", commit)], "1")]
  }

  function AllLines(s: Snapshot, version: string, commit: string, o: Orders): seq<string>
    requires Enumerates(o, s)
  {
    FamilyLines(RequestsFamily(), RequestSamples(s, o.requests))
    + FamilyLines(SumFamily(), SumSamples(s, o.sums))
    + FamilyLines(CountFamily(), CountSamples(s, o.counts))
    + FamilyLines(DbFamily(), DbSamples(s, o.dbs))
    + FamilyLines(LimitedFamily(), LimitedSamples(s))
    + FamilyLines(RejectsFamily(), RejectSamples(s))
    + FamilyLines(StartedFamily(), StartedSamples(s))
    + FamilyLines(InfoFamily(), InfoSamples(version, commit))
  }

  // ---------------------------------------------------------------- what a reader should get

  function Int(n: nat): Number {
    Real(n as real)
  }

  /** The registry as a table from series to value, independent of any text. */
  function Expected(s: Snapshot, version: string, commit: string, k: Series): Option<Number> {
    if k.name == RequestsFamily().name then
      if k.labels.Keys == {"method", "path", "status"} then
        var key := (k.labels["method"], k.labels["path"], k.labels["status"]);
        if key in s.requests then Some(Int(s.requests[key])) else None
      else None
    else if k.name == SumFamily().name then
      if k.labels.Keys == {"path"} && k.labels["path"] in s.durationSum
      then Some(Real(s.durationSum[k.labels["path"]] as real / 1000.0)) else None
    else if k.name == CountFamily().name then
      if k.labels.Keys == {"path"} && k.labels["path"] in s.durationCount
      then Some(Int(s.durationCount[k.labels["path"]])) else None
    else if k.name == DbFamily().name then
      if k.labels.Keys == {"db"} && k.labels["db"] in s.dbErrors then Some(Int(s.dbErrors[k.labels["db"]])) else None
    else if k.labels == map[] && k.name == LimitedFamily().name then Some(Int(s.rateLimited))
    else if k.labels == map[] && k.name == RejectsFamily().name then Some(Int(s.webhookRejects))
    else if k.labels == map[] && k.name == StartedFamily().name then Some(Int(s.started))
    else if k == Collector.Series(InfoFamily().name, map["version" := version, "commit" := commit]) then Some(Int(1))
    else None
  }

  /** `good` holds of every list of labels that is printed. */
  ghost predicate AllLabels(s: Snapshot, version: string, commit: string, good: seq<Label> -> bool) {
    && (forall k :: k in s.requests ==> good(RequestLabels(k)))
    && (forall k :: k in s.durationSum ==> good([Label("path", k)]))
    && (forall k :: k in s.durationCount ==> good([Label("path", k)]))
    && (forall k :: k in s.dbErrors ==> good([Label("db", k)]))
    && good([Label("version", version), Label("commit", commit)])
  }

  /** A quote needs a brace beside it: the whole line is then dropped instead of misread. */
  predicate Legible(ls: seq<Label>) {
    NoBraces(ls) ==> NoQuotes(ls)
  }

  predicate Clean(ls: seq<Label>) {
    OneLine(ls) && NoBraces(ls) && NoQuotes(ls)
  }

  ghost predicate PlainLabels(s: Snapshot, version: string, commit: string) {
    AllLabels(s, version, commit, OneLine) && AllLabels(s, version, commit, Legible)
  }

  /** No label value of the series contains a closing brace. */
  ghost predicate Braceless(k: Series) {
    forall n :: n in k.labels ==> '}' !in k.labels[n]
  }

  // ---------------------------------------------------------------- each family

  /** A sample the registry prints: its labels may hold closing braces, and then its series does too. */
  ghost predicate SampleOk(x: Sample, s: Snapshot, version: string, commit: string) {
    && WellPrinted(x) && OneLine(x.labels)
    && Expected(s, version, commit, SeriesOf(x)) == ParseFloat(x.text)
    && (Braceless(SeriesOf(x)) <==> NoBraces(x.labels))
  }

  predicate GoodFamily(f: Family) {
    SingleLine(f.name) && SingleLine(f.help) && SingleLine(f.kind)
  }

  lemma CommentOk(word: string, name: string, rest: string)
    requires word == "# HELP " || word == "# TYPE "
    requires SingleLine(name) && SingleLine(rest)
    ensures SingleLine(word + name + " " + rest) && ParseLine(word + name + " " + rest) == None
  {
  }

  lemma {:induction false} BreaksAvoided(ls: seq<Label>)
    requires GoodKeys(ls) && OneLine(ls)
    ensures SingleLine(Pairs(ls))
  {
    hide Pairs, GoodName;
    forall i | 0 <= i < |Pairs(ls)| ensures !IsBreak(Pairs(ls)[i]) {
      var c := Pairs(ls)[i];
      if IsBreak(c) {
        assert forall i :: 0 <= i < |ls| ==> c !in ls[i].value;
        PairsAvoid(ls, c);
      }
    }
  }

  lemma SampleLineSingle(x: Sample)
    requires WellPrinted(x) && OneLine(x.labels)
    ensures SingleLine(PrintSample(x))
  {
    hide Pairs, ParseFloat;
    var line, braced := PrintSample(x), Braced(x.labels);
    BreaksAvoided(x.labels);
    assert forall i :: 0 < i < |braced| - 1 ==> braced[i] == Pairs(x.labels)[i - 1];
    assert forall i :: 0 <= i < |braced| ==> !IsBreak(braced[i]);
    forall i | 0 <= i < |line| ensures !IsBreak(line[i]) {
      if i < |x.name| {
        assert line[i] == x.name[i];
      } else if i < |x.name| + |braced| {
        assert line[i] == braced[i - |x.name|];
      } else if i > |x.name| + |braced| {
        assert line[i] == x.text[i - |x.name| - |braced| - 1];
      }
    }
  }

  lemma {:induction false} NumbersAreGood(n: nat)
    ensures GoodNumber(Print(n)) && ParseFloat(Print(n)) == Some(Int(n))
    ensures GoodNumber(PrintThousandths(n)) && ParseFloat(PrintThousandths(n)) == Some(Real(n as real / 1000.0))
  {
    hide ParseFloat;
    PrintedIsDigits(n);
    PrintedParses(n);
    ThousandthsParse(n);
    PrintedIsDigits(n / 1000);
    ThreeDigits(n % 1000);
  }

  predicate Lower(s: string) {
    s != "" && forall i :: 0 <= i < |s| ==> 'a' <= s[i] <= 'z' || s[i] == '_'
  }

  lemma FamilyByContent(f: Family, a: string, b: string)
    requires Lower(f.name) && f.help == a + b && Ascii(a) && Ascii(b) && Lower(f.kind)
    ensures GoodName(f.name) && GoodFamily(f)
  {
  }

  lemma RequestsText()
    ensures Lower("http_requests_total") && Ascii("Total HTTP requests by method, ")
              && Ascii("path template and status.")
  {
  }

  lemma SumText()
    ensures Lower("http_request_duration_ms_sum") && Ascii("Sum of request latencies ") && Ascii("in milliseconds.")
  {
  }

  lemma CountText()
    ensures Lower("http_request_duration_ms_count") && Ascii("Number of latency ") && Ascii("observations.")
  {
  }

  lemma DbText()
    ensures Lower("db_errors_total") && Ascii("Database connection/query ") && Ascii("errors by database.")
  {
  }

  lemma LimitedText()
    ensures Lower("rate_limited_requests_total") && Ascii("Requests rejected by the ")
              && Ascii("per-user rate limiter.")
  {
  }

  lemma RejectsText()
    ensures Lower("webhook_signature_failures_total") && Ascii("Gateway webhooks rejected ")
              && Ascii("for a bad signature.")
  {
  }

  lemma StartedText()
    ensures Lower("process_start_time_seconds") && Ascii("Unix time the ") && Ascii("process started.")
  {
  }

  lemma InfoText()
    ensures Lower("app_info") && Ascii("Build ") && Ascii("information.")
  {
  }

  lemma KindsText()
    ensures Lower("counter") && Lower("gauge")
  {
  }

  lemma LabelledFamilies()
    ensures GoodName(RequestsFamily().name) && GoodFamily(RequestsFamily())
    ensures GoodName(SumFamily().name) && GoodFamily(SumFamily())
    ensures GoodName(CountFamily().name) && GoodFamily(CountFamily())
    ensures GoodName(DbFamily().name) && GoodFamily(DbFamily())
  {
    hide Lower, Ascii, GoodName, GoodFamily;
    KindsText();
    RequestsText();
    FamilyByContent(RequestsFamily(), "Total HTTP requests by method, ", "path template and status.");
    SumText();
    FamilyByContent(SumFamily(), "Sum of request latencies ", "in milliseconds.");
    CountText();
    FamilyByContent(CountFamily(), "Number of latency ", "observations.");
    DbText();
    FamilyByContent(DbFamily(), "Database connection/query ", "errors by database.");
  }

  lemma OtherFamilies()
    ensures GoodName(LimitedFamily().name) && GoodFamily(LimitedFamily())
    ensures GoodName(RejectsFamily().name) && GoodFamily(RejectsFamily())
    ensures GoodName(StartedFamily().name) && GoodFamily(StartedFamily())
    ensures GoodName(InfoFamily().name) && GoodFamily(InfoFamily())
  {
    hide Lower, Ascii, GoodName, GoodFamily;
    KindsText();
    LimitedText();
    FamilyByContent(LimitedFamily(), "Requests rejected by the ", "per-user rate limiter.");
    RejectsText();
    FamilyByContent(RejectsFamily(), "Gateway webhooks rejected ", "for a bad signature.");
    StartedText();
    FamilyByContent(StartedFamily(), "Unix time the ", "process started.");
    InfoText();
    FamilyByContent(InfoFamily(), "Build ", "information.");
  }

  lemma FamiliesAreGood()
    ensures GoodName(RequestsFamily().name) && GoodFamily(RequestsFamily())
    ensures GoodName(SumFamily().name) && GoodFamily(SumFamily())
    ensures GoodName(CountFamily().name) && GoodFamily(CountFamily())
    ensures GoodName(DbFamily().name) && GoodFamily(DbFamily())
    ensures GoodName(LimitedFamily().name) && GoodFamily(LimitedFamily())
    ensures GoodName(RejectsFamily().name) && GoodFamily(RejectsFamily())
    ensures GoodName(StartedFamily().name) && GoodFamily(StartedFamily())
    ensures GoodName(InfoFamily().name) && GoodFamily(InfoFamily())
  {
    hide GoodName, GoodFamily;
    hide RequestsFamily, SumFamily, CountFamily, DbFamily, LimitedFamily, RejectsFamily, StartedFamily, InfoFamily;
    LabelledFamilies();
    OtherFamilies();
  }

  lemma LabelNamesAreGood()
    ensures GoodName("method") && GoodName("path") && GoodName("status") && GoodName("db")
    ensures GoodName("version") && GoodName("commit")
  {
  }

  lemma NameLengths()
    ensures |RequestsFamily().name| == 19 && |SumFamily().name| == 28 && |CountFamily().name| == 30
              && |DbFamily().name| == 15
    ensures |LimitedFamily().name| == 27 && |RejectsFamily().name| == 32 && |StartedFamily().name| == 26
              && |InfoFamily().name| == 8
  {
  }

  lemma RequestsOk(s: Snapshot, version: string, commit: string, order: seq<RequestKey>, k: RequestKey)
    requires (forall q :: q in order ==> q in s.requests) && k in order && AllLabels(s, version, commit, OneLine)
    ensures SampleOk(Sample(RequestsFamily().name, RequestLabels(k), Print(s.requests[k])), s, version, commit)
    ensures LabelMap(RequestLabels(k)) == map["method" := k.0, "path" := k.1, "status" := k.2]
  {
    hide ParseFloat, OneLine, GoodName, GoodNumber, Print;
    FamiliesAreGood();
    LabelNamesAreGood();
    NumbersAreGood(s.requests[k]);
    ThreeLabels("method", k.0, "path", k.1, "status", k.2) by { LabelNamesDiffer(); }
    LabelNamesDiffer();
    var ls, m := RequestLabels(k), LabelMap(RequestLabels(k));
    assert ls[0].value == m["method"] && ls[1].value == m["path"] && ls[2].value == m["status"];
  }

  lemma LabelNamesDiffer()
    ensures "method" != "path" && "method" != "status" && "path" != "status" && "version" != "commit"
  {
  }

  lemma ThreeLabels(a: string, x: string, b: string, y: string, c: string, z: string)
    requires a != b && a != c && b != c
    ensures LabelMap([Label(a, x), Label(b, y), Label(c, z)]) == map[a := x, b := y, c := z]
  {
    var ls := [Label(a, x), Label(b, y), Label(c, z)];
    assert ls[1..] == [Label(b, y), Label(c, z)] && ls[1..][1..] == [Label(c, z)] && ls[1..][1..][1..] == [];
    assert LabelMap(ls[1..][1..]) == map[c := z];
    assert LabelMap(ls[1..]) == map[b := y, c := z];
  }

  lemma TwoLabels(a: string, x: string, b: string, y: string)
    requires a != b
    ensures LabelMap([Label(a, x), Label(b, y)]) == map[a := x, b := y]
  {
    var ls := [Label(a, x), Label(b, y)];
    assert ls[1..] == [Label(b, y)] && ls[1..][1..] == [];
    assert LabelMap(ls[1..]) == map[b := y];
  }

  lemma OneLabel(a: string, x: string)
    ensures LabelMap([Label(a, x)]) == map[a := x]
  {
  }

  lemma SumOk(s: Snapshot, version: string, commit: string, k: string)
    requires k in s.durationSum && AllLabels(s, version, commit, OneLine)
    ensures SampleOk(Sample(SumFamily().name, [Label("path", k)], PrintThousandths(s.durationSum[k])), s, version,
                     commit)
  {
    hide RequestsFamily, SumFamily, CountFamily, DbFamily, LimitedFamily, RejectsFamily, StartedFamily, InfoFamily;
    hide ParseFloat, OneLine, GoodName, GoodNumber, PrintThousandths;
    FamiliesAreGood();
    LabelNamesAreGood();
    NumbersAreGood(s.durationSum[k]);
    OneLabel("path", k);
    NameLengths();
  }

  lemma CountOk(s: Snapshot, version: string, commit: string, k: string)
    requires k in s.durationCount && AllLabels(s, version, commit, OneLine)
    ensures SampleOk(Sample(CountFamily().name, [Label("path", k)], Print(s.durationCount[k])), s, version, commit)
  {
    hide RequestsFamily, SumFamily, CountFamily, DbFamily, LimitedFamily, RejectsFamily, StartedFamily, InfoFamily;
    hide ParseFloat, OneLine, GoodName, GoodNumber, Print;
    FamiliesAreGood();
    LabelNamesAreGood();
    NumbersAreGood(s.durationCount[k]);
    OneLabel("path", k);
    NameLengths();
  }

  lemma DbOk(s: Snapshot, version: string, commit: string, k: string)
    requires k in s.dbErrors && AllLabels(s, version, commit, OneLine)
    ensures SampleOk(Sample(DbFamily().name, [Label("db", k)], Print(s.dbErrors[k])), s, version, commit)
  {
    hide RequestsFamily, SumFamily, CountFamily, DbFamily, LimitedFamily, RejectsFamily, StartedFamily, InfoFamily;
    hide ParseFloat, OneLine, GoodName, GoodNumber, Print;
    FamiliesAreGood();
    LabelNamesAreGood();
    NumbersAreGood(s.dbErrors[k]);
    OneLabel("db", k);
    NameLengths();
  }

  lemma PlainOk(s: Snapshot, version: string, commit: string)
    ensures SampleOk(Sample(LimitedFamily().name, [], Print(s.rateLimited)), s, version, commit)
    ensures SampleOk(Sample(RejectsFamily().name, [], Print(s.webhookRejects)), s, version, commit)
    ensures SampleOk(Sample(StartedFamily().name, [], Print(s.started)), s, version, commit)
  {
    hide RequestsFamily, SumFamily, CountFamily, DbFamily, LimitedFamily, RejectsFamily, StartedFamily, InfoFamily;
    hide ParseFloat, GoodName, GoodNumber, Print;
    FamiliesAreGood();
    NumbersAreGood(s.rateLimited);
    NumbersAreGood(s.webhookRejects);
    NumbersAreGood(s.started);
    NameLengths();
  }

  lemma InfoOk(s: Snapshot, version: string, commit: string)
    requires AllLabels(s, version, commit, OneLine)
    ensures SampleOk(Sample(InfoFamily().name, [Label("version", version), Label("commit", commit)], "1"), s, version,
                     commit)
  {
    hide RequestsFamily, SumFamily, CountFamily, DbFamily, LimitedFamily, RejectsFamily, StartedFamily, InfoFamily;
    hide ParseFloat, GoodName, GoodNumber, OneLine, Print;
    FamiliesAreGood();
    LabelNamesAreGood();
    LabelNamesDiffer();
    NumbersAreGood(1);
    assert Print(1) == "1" by { OneIsOne(); }
    TwoLabels("version", version, "commit", commit);
    NamesDiffer();
    hide LabelMap;
    InfoBraces(version, commit);
  }

  lemma InfoBraces(version: string, commit: string)
    ensures var ls := [Label("version", version), Label("commit", commit)];
            (forall n :: n in LabelMap(ls) ==> '}' !in LabelMap(ls)[n]) <==> NoBraces(ls)
  {
    LabelNamesDiffer();
    TwoLabels("version", version, "commit", commit);
    var ls := [Label("version", version), Label("commit", commit)];
    assert ls[0].value == LabelMap(ls)["version"] && ls[1].value == LabelMap(ls)["commit"];
  }

  lemma OneIsOne()
    ensures Print(1) == "1"
  {
  }

  // ---------------------------------------------------------------- the round trip

  /** A block of the text: its comments add nothing, its samples are the registry's. */
  ghost predicate FamilyDone(lines: seq<string>, samples: seq<Sample>, s: Snapshot, version: string, commit: string) {
    && (forall i :: 0 <= i < |lines| ==> SingleLine(lines[i]))
    && ParseLines(lines) == ParseLines(SampleLines(samples))
    && forall i :: 0 <= i < |samples| ==> SampleOk(samples[i], s, version, commit)
  }

  lemma NothingRead(a: string, b: string)
    requires ParseLine(a) == None && ParseLine(b) == None
    ensures ParseLines([a, b]) == map[]
  {
    hide ParseLine;
    assert [a, b][..1] == [a] && [a][..0] == [];
    assert ParseLines([a]) == Absorb(ParseLines([]), a) == map[];
    assert ParseLines([a, b]) == Absorb(ParseLines([a]), b);
  }

  lemma FamilyIsDone(f: Family, samples: seq<Sample>, s: Snapshot, version: string, commit: string)
    requires GoodFamily(f) && forall i :: 0 <= i < |samples| ==> SampleOk(samples[i], s, version, commit)
    ensures FamilyDone(FamilyLines(f, samples), samples, s, version, commit)
  {
    hide ParseLine, ParseLines, PrintSample, SingleLine, WellPrinted, OneLine, Expected, SeriesOf, Braceless;
    var help, kind := "# HELP " + f.name + " " + f.help, "# TYPE " + f.name + " " + f.kind;
    CommentOk("# HELP ", f.name, f.help);
    CommentOk("# TYPE ", f.name, f.kind);
    var lines := FamilyLines(f, samples);
    NothingRead(help, kind);
    ParseConcat([help, kind], SampleLines(samples));
    assert lines == [help, kind] + SampleLines(samples);
    forall i | 0 <= i < |samples| ensures SingleLine(SampleLines(samples)[i]) {
      assert SampleOk(samples[i], s, version, commit);
      SampleLineSingle(samples[i]);
    }
  }

  /** The four labelled blocks, each well printed. */
  lemma Blocks(s: Snapshot, version: string, commit: string, o: Orders)
    requires Enumerates(o, s) && AllLabels(s, version, commit, OneLine)
    ensures FamilyDone(FamilyLines(RequestsFamily(), RequestSamples(s, o.requests)), RequestSamples(s, o.requests), s,
                       version, commit)
    ensures FamilyDone(FamilyLines(SumFamily(), SumSamples(s, o.sums)), SumSamples(s, o.sums), s, version, commit)
    ensures FamilyDone(FamilyLines(CountFamily(), CountSamples(s, o.counts)), CountSamples(s, o.counts), s, version,
                       commit)
    ensures FamilyDone(FamilyLines(DbFamily(), DbSamples(s, o.dbs)), DbSamples(s, o.dbs), s, version, commit)
  {
    hide FamilyDone, FamilyLines, GoodFamily, SampleOk, AllLabels, RequestsFamily, SumFamily, CountFamily, DbFamily;
    FamiliesAreGood();
    forall i | 0 <= i < |o.requests| ensures SampleOk(RequestSamples(s, o.requests)[i], s, version, commit) {
      RequestsOk(s, version, commit, o.requests, o.requests[i]);
    }
    forall i | 0 <= i < |o.sums| ensures SampleOk(SumSamples(s, o.sums)[i], s, version, commit) {
      SumOk(s, version, commit, o.sums[i]);
    }
    forall i | 0 <= i < |o.counts| ensures SampleOk(CountSamples(s, o.counts)[i], s, version, commit) {
      CountOk(s, version, commit, o.counts[i]);
    }
    forall i | 0 <= i < |o.dbs| ensures SampleOk(DbSamples(s, o.dbs)[i], s, version, commit) {
      DbOk(s, version, commit, o.dbs[i]);
    }
    FamilyIsDone(RequestsFamily(), RequestSamples(s, o.requests), s, version, commit);
    FamilyIsDone(SumFamily(), SumSamples(s, o.sums), s, version, commit);
    FamilyIsDone(CountFamily(), CountSamples(s, o.counts), s, version, commit);
    FamilyIsDone(DbFamily(), DbSamples(s, o.dbs), s, version, commit);
  }

  /** The four single-sample blocks. */
  lemma LastBlocks(s: Snapshot, version: string, commit: string)
    requires AllLabels(s, version, commit, OneLine)
    ensures FamilyDone(FamilyLines(LimitedFamily(), LimitedSamples(s)), LimitedSamples(s), s, version, commit)
    ensures FamilyDone(FamilyLines(RejectsFamily(), RejectSamples(s)), RejectSamples(s), s, version, commit)
    ensures FamilyDone(FamilyLines(StartedFamily(), StartedSamples(s)), StartedSamples(s), s, version, commit)
    ensures FamilyDone(FamilyLines(InfoFamily(), InfoSamples(version, commit)), InfoSamples(version, commit), s,
                       version, commit)
  {
    hide FamilyDone, FamilyLines, GoodFamily, SampleOk, AllLabels, LimitedFamily, RejectsFamily, StartedFamily;
    hide InfoFamily, Print;
    FamiliesAreGood();
    PlainOk(s, version, commit);
    InfoOk(s, version, commit);
    FamilyIsDone(LimitedFamily(), LimitedSamples(s), s, version, commit);
    FamilyIsDone(RejectsFamily(), RejectSamples(s), s, version, commit);
    FamilyIsDone(StartedFamily(), StartedSamples(s), s, version, commit);
    FamilyIsDone(InfoFamily(), InfoSamples(version, commit), s, version, commit);
  }

  lemma DoneConcat(a: seq<string>, xs: seq<Sample>, b: seq<string>, ys: seq<Sample>, s: Snapshot, version: string,
                   commit: string)
    requires FamilyDone(a, xs, s, version, commit) && FamilyDone(b, ys, s, version, commit)
    ensures FamilyDone(a + b, xs + ys, s, version, commit)
  {
    hide SampleOk, ParseLines, SingleLine, PrintSample;
    ParseConcat(a, b);
    ParseConcat(SampleLines(xs), SampleLines(ys));
    assert SampleLines(xs + ys) == SampleLines(xs) + SampleLines(ys);
  }

  function AllSamples(s: Snapshot, version: string, commit: string, o: Orders): seq<Sample>
    requires Enumerates(o, s)
  {
    RequestSamples(s, o.requests) + SumSamples(s, o.sums) + CountSamples(s, o.counts) + DbSamples(s, o.dbs)
    + LimitedSamples(s) + RejectSamples(s) + StartedSamples(s) + InfoSamples(version, commit)
  }

  lemma AllDone(s: Snapshot, version: string, commit: string, o: Orders)
    requires Enumerates(o, s) && AllLabels(s, version, commit, OneLine)
    ensures FamilyDone(AllLines(s, version, commit, o), AllSamples(s, version, commit, o), s, version, commit)
  {
    hide FamilyDone, FamilyLines, AllLabels, RequestSamples, SumSamples, CountSamples, DbSamples;
    hide LimitedSamples, RejectSamples, StartedSamples, InfoSamples, RequestsFamily, SumFamily, CountFamily, DbFamily;
    hide LimitedFamily, RejectsFamily, StartedFamily, InfoFamily;
    Blocks(s, version, commit, o);
    LastBlocks(s, version, commit);
    var a, x := FamilyLines(RequestsFamily(), RequestSamples(s, o.requests)), RequestSamples(s, o.requests);
    var b, y := FamilyLines(SumFamily(), SumSamples(s, o.sums)), SumSamples(s, o.sums);
    DoneConcat(a, x, b, y, s, version, commit);
    a, x, b, y := a + b, x + y, FamilyLines(CountFamily(), CountSamples(s, o.counts)), CountSamples(s, o.counts);
    DoneConcat(a, x, b, y, s, version, commit);
    a, x, b, y := a + b, x + y, FamilyLines(DbFamily(), DbSamples(s, o.dbs)), DbSamples(s, o.dbs);
    DoneConcat(a, x, b, y, s, version, commit);
    a, x, b, y := a + b, x + y, FamilyLines(LimitedFamily(), LimitedSamples(s)), LimitedSamples(s);
    DoneConcat(a, x, b, y, s, version, commit);
    a, x, b, y := a + b, x + y, FamilyLines(RejectsFamily(), RejectSamples(s)), RejectSamples(s);
    DoneConcat(a, x, b, y, s, version, commit);
    a, x, b, y := a + b, x + y, FamilyLines(StartedFamily(), StartedSamples(s)), StartedSamples(s);
    DoneConcat(a, x, b, y, s, version, commit);
    a, x, b, y := a + b, x + y, FamilyLines(InfoFamily(), InfoSamples(version, commit)), InfoSamples(version, commit);
    DoneConcat(a, x, b, y, s, version, commit);
  }

  lemma Printed(s: Snapshot, version: string, commit: string, o: Orders, x: Sample)
    requires Enumerates(o, s)
    ensures x in AllSamples(s, version, commit, o) <==>
              || x in RequestSamples(s, o.requests) || x in SumSamples(s, o.sums) || x in CountSamples(s, o.counts)
              || x in DbSamples(s, o.dbs) || x in LimitedSamples(s) || x in RejectSamples(s) || x in StartedSamples(s)
              || x in InfoSamples(version, commit)
  {
  }

  lemma NamesDiffer()
    ensures {SumFamily().name, CountFamily().name, DbFamily().name, LimitedFamily().name, RejectsFamily().name,
             StartedFamily().name, InfoFamily().name} !! {RequestsFamily().name}
    ensures {CountFamily().name, DbFamily().name, LimitedFamily().name, RejectsFamily().name, StartedFamily().name,
             InfoFamily().name} !! {SumFamily().name}
    ensures {DbFamily().name, LimitedFamily().name, RejectsFamily().name, StartedFamily().name,
             InfoFamily().name} !! {CountFamily().name}
    ensures {LimitedFamily().name, RejectsFamily().name, StartedFamily().name, InfoFamily().name} !! {DbFamily().name}
    ensures {RejectsFamily().name, StartedFamily().name, InfoFamily().name} !! {LimitedFamily().name}
    ensures {StartedFamily().name, InfoFamily().name} !! {RejectsFamily().name}
              && InfoFamily().name != StartedFamily().name
  {
  }

  lemma RequestIsPrinted(s: Snapshot, order: seq<RequestKey>, k: Series)
    requires forall q :: q in order <==> q in s.requests
    requires k.name == RequestsFamily().name && k.labels.Keys == {"method", "path", "status"}
    requires (k.labels["method"], k.labels["path"], k.labels["status"]) in s.requests
    ensures exists x :: x in RequestSamples(s, order) && SeriesOf(x) == k
  {
    hide Print, RequestsFamily;
    LabelNamesDiffer();
    var key := (k.labels["method"], k.labels["path"], k.labels["status"]);
    var i :| 0 <= i < |order| && order[i] == key;
    ThreeLabels("method", key.0, "path", key.1, "status", key.2);
    assert k.labels == map["method" := key.0, "path" := key.1, "status" := key.2];
    assert RequestSamples(s, order)[i] in RequestSamples(s, order);
    assert SeriesOf(RequestSamples(s, order)[i]) == k;
  }

  lemma PathIsPrinted(samples: seq<Sample>, i: nat, k: Series, key: string)
    requires i < |samples| && k.labels.Keys == {key} && samples[i].name == k.name
    requires samples[i].labels == [Label(key, k.labels[key])]
    ensures samples[i] in samples && SeriesOf(samples[i]) == k
  {
    OneLabel(key, k.labels[key]);
    assert k.labels == map[key := k.labels[key]];
  }

  /** Every series the registry knows is one of the printed samples. */
  lemma ExpectedIsPrinted(s: Snapshot, version: string, commit: string, o: Orders, k: Series)
    requires Enumerates(o, s) && Expected(s, version, commit, k).Some?
    ensures exists x :: x in AllSamples(s, version, commit, o) && SeriesOf(x) == k
  {
    hide Print, PrintThousandths, RequestsFamily, SumFamily, CountFamily, DbFamily, LimitedFamily, RejectsFamily;
    hide StartedFamily, InfoFamily, AllSamples, RequestSamples;
    var x := Printing(s, version, commit, o, k);
    Printed(s, version, commit, o, x);
  }

  lemma Printing(s: Snapshot, version: string, commit: string, o: Orders, k: Series) returns (x: Sample)
    requires Enumerates(o, s) && Expected(s, version, commit, k).Some?
    ensures SeriesOf(x) == k
    ensures || x in RequestSamples(s, o.requests) || x in SumSamples(s, o.sums) || x in CountSamples(s, o.counts)
            || x in DbSamples(s, o.dbs) || x in LimitedSamples(s) || x in RejectSamples(s) || x in StartedSamples(s)
            || x in InfoSamples(version, commit)
  {
    hide Print, PrintThousandths, RequestsFamily, SumFamily, CountFamily, DbFamily, LimitedFamily, RejectsFamily;
    hide StartedFamily, InfoFamily, RequestSamples;
    NamesDiffer();
    if k.name == RequestsFamily().name {
      RequestIsPrinted(s, o.requests, k);
      x :| x in RequestSamples(s, o.requests) && SeriesOf(x) == k;
    } else if k.name == SumFamily().name {
      var i :| 0 <= i < |o.sums| && o.sums[i] == k.labels["path"];
      PathIsPrinted(SumSamples(s, o.sums), i, k, "path");
      x := SumSamples(s, o.sums)[i];
    } else if k.name == CountFamily().name {
      var i :| 0 <= i < |o.counts| && o.counts[i] == k.labels["path"];
      PathIsPrinted(CountSamples(s, o.counts), i, k, "path");
      x := CountSamples(s, o.counts)[i];
    } else if k.name == DbFamily().name {
      var i :| 0 <= i < |o.dbs| && o.dbs[i] == k.labels["db"];
      PathIsPrinted(DbSamples(s, o.dbs), i, k, "db");
      x := DbSamples(s, o.dbs)[i];
    } else if k.name == InfoFamily().name {
      LabelNamesDiffer();
      TwoLabels("version", version, "commit", commit);
      x := InfoSamples(version, commit)[0];
    } else {
      x := if k.name == LimitedFamily().name then LimitedSamples(s)[0]
      else if k.name == RejectsFamily().name then RejectSamples(s)[0] else StartedSamples(s)[0];
    }
  }

  function Scraped(s: Snapshot, version: string, commit: string, o: Orders): map<Series, Number>
    requires Enumerates(o, s)
  {
    ParseLines(SplitLines(Unlines(AllLines(s, version, commit, o))))
  }

  /** The table has exactly the wanted series of the registry, with its values. */
  ghost predicate Reads(parsed: map<Series, Number>, s: Snapshot, version: string, commit: string,
                        wanted: Series -> bool) {
    forall k :: (k in parsed <==> Expected(s, version, commit, k).Some? && wanted(k))
                && (k in parsed ==> Expected(s, version, commit, k) == Some(parsed[k]))
  }

  ghost predicate AnySeries(k: Series) {
    true
  }

  /** The scraped table is what the printed samples are read as. */
  lemma ScrapedSamples(s: Snapshot, version: string, commit: string, o: Orders)
    requires Enumerates(o, s) && AllLabels(s, version, commit, OneLine)
    ensures var xs := AllSamples(s, version, commit, o);
            && Scraped(s, version, commit, o) == ParseLines(SampleLines(xs))
            && forall i :: 0 <= i < |xs| ==> SampleOk(xs[i], s, version, commit)
  {
    hide ParseLines, AllLines, AllSamples, SampleOk, AllLabels, SampleLines, SingleLine, SplitLines, Unlines;
    AllDone(s, version, commit, o);
    SplitBack(AllLines(s, version, commit, o));
  }

  /** What holds of every list of labels, the empty one included, holds of the labels of every sample. */
  lemma SampleLabels(s: Snapshot, version: string, commit: string, o: Orders, good: seq<Label> -> bool, i: nat)
    requires Enumerates(o, s) && AllLabels(s, version, commit, good) && good([])
    requires i < |AllSamples(s, version, commit, o)|
    ensures good(AllSamples(s, version, commit, o)[i].labels)
  {
    hide Print, PrintThousandths, RequestLabels, AllSamples;
    hide RequestsFamily, SumFamily, CountFamily, DbFamily, LimitedFamily, RejectsFamily, StartedFamily, InfoFamily;
    Printed(s, version, commit, o, AllSamples(s, version, commit, o)[i]);
  }

  lemma PlainRoundTrip(s: Snapshot, version: string, commit: string, o: Orders)
    requires Enumerates(o, s) && PlainLabels(s, version, commit)
    ensures Reads(Scraped(s, version, commit, o), s, version, commit, Braceless)
  {
    hide ParseLines, Expected, Braceless, AllSamples, AllLabels, Enumerates, SeriesOf, SampleLines, WellPrinted, ReadAs;
    hide Scraped, OneLine, NoQuotes, NoBraces, ParseFloat;
    var xs, parsed := AllSamples(s, version, commit, o), Scraped(s, version, commit, o);
    ScrapedSamples(s, version, commit, o);
    forall k | k in parsed ensures Expected(s, version, commit, k) == Some(parsed[k]) && Braceless(k) {
      var i := LastReading(xs, k);
      LegibleReads(s, version, commit, o, i);
    }
    forall k | Expected(s, version, commit, k).Some? && Braceless(k) ensures k in parsed {
      ExpectedIsPrinted(s, version, commit, o, k);
      var x :| x in xs && SeriesOf(x) == k;
      var i :| 0 <= i < |xs| && xs[i] == x;
      LegibleReads(s, version, commit, o, i);
      EachIsRead(xs, i);
    }
  }

  lemma LegibleReads(s: Snapshot, version: string, commit: string, o: Orders, i: nat)
    requires Enumerates(o, s) && PlainLabels(s, version, commit) && i < |AllSamples(s, version, commit, o)|
    requires SampleOk(AllSamples(s, version, commit, o)[i], s, version, commit)
    ensures var x := AllSamples(s, version, commit, o)[i];
            ReadAs(x) == if Braceless(SeriesOf(x)) then Some(SeriesOf(x)) else None
  {
    hide AllSamples, AllLabels, Enumerates, SeriesOf, Expected, WellPrinted, Braceless, OneLine, NoQuotes, NoBraces;
    var x := AllSamples(s, version, commit, o)[i];
    SampleLabels(s, version, commit, o, Legible, i) by {
      NoLabelsAreLegible();
    }
    if Braceless(SeriesOf(x)) {
      CleanReads(x);
    }
    assert !Braceless(SeriesOf(x)) ==> ReadAs(x) == None;
  }

  lemma NoLabelsAreLegible()
    ensures Legible([])
  {
  }

  // ---------------------------------------------------------------- and exactly when it succeeds

  /** What a label value must be to be read at all. */
  predicate Readable(v: string) {
    '"' !in v && '}' !in v && SingleLine(v)
  }

  ghost predicate ReadableSeries(k: Series) {
    forall n :: n in k.labels ==> Readable(k.labels[n])
  }

  lemma ParsedIsReadable(line: string)
    requires SingleLine(line) && ParseLine(line).Some?
    ensures ReadableSeries(ParseLine(line).value.0)
  {
    hide ParseLine;
    ParsedValues(line);
    var labels := ParseLine(line).value.0.labels;
    forall n | n in labels ensures SingleLine(labels[n]) {
      forall i | 0 <= i < |labels[n]| ensures !IsBreak(labels[n][i]) {
        assert labels[n][i] in line;
      }
    }
  }

  /** Whatever is in the text, the parser only ever produces readable series. */
  lemma {:induction false} OnlyReadable(lines: seq<string>)
    requires forall i :: 0 <= i < |lines| ==> SingleLine(lines[i])
    ensures forall k :: k in ParseLines(lines) ==> ReadableSeries(k)
    decreases |lines|
  {
    hide ParseLine, SingleLine, ReadableSeries;
    if lines == [] {
    } else {
      OnlyReadable(lines[..|lines| - 1]);
      if ParseLine(lines[|lines| - 1]).Some? {
        ParsedIsReadable(lines[|lines| - 1]);
      }
    }
  }

  lemma ScrapedIsReadable(s: Snapshot, version: string, commit: string, o: Orders, k: Series)
    requires Enumerates(o, s) && k in Scraped(s, version, commit, o)
    ensures ReadableSeries(k)
  {
    hide AllLines, ParseLines, SplitLines, Unlines, ReadableSeries;
    OnlyReadable(SplitLines(Unlines(AllLines(s, version, commit, o))));
  }

  /** The series printed with these labels. */
  function SeriesWith(name: string, ls: seq<Label>): Series {
    Collector.Series(name, LabelMap(ls))
  }

  /** The registry knows a series with these labels. */
  ghost predicate Known(s: Snapshot, version: string, commit: string, ls: seq<Label>) {
    DistinctKeys(ls) && exists k: Series :: k.labels == LabelMap(ls) && Expected(s, version, commit, k).Some?
  }

  lemma RequestIsKnown(s: Snapshot, version: string, commit: string, q: RequestKey)
    requires q in s.requests
    ensures Known(s, version, commit, RequestLabels(q))
  {
    hide RequestsFamily, SumFamily, CountFamily, DbFamily, LimitedFamily, RejectsFamily, StartedFamily, InfoFamily;
    LabelNamesDiffer();
    ThreeLabels("method", q.0, "path", q.1, "status", q.2);
    assert Expected(s, version, commit, SeriesWith(RequestsFamily().name, RequestLabels(q))).Some?;
  }

  lemma PathIsKnown(s: Snapshot, version: string, commit: string, q: string)
    ensures q in s.durationSum || q in s.durationCount ==> Known(s, version, commit, [Label("path", q)])
    ensures q in s.dbErrors ==> Known(s, version, commit, [Label("db", q)])
  {
    hide RequestsFamily, SumFamily, CountFamily, DbFamily, LimitedFamily, RejectsFamily, StartedFamily, InfoFamily;
    NamesDiffer();
    OneLabel("path", q);
    OneLabel("db", q);
    var path, db := [Label("path", q)], [Label("db", q)];
    assert q in s.durationSum ==> Expected(s, version, commit, SeriesWith(SumFamily().name, path)).Some?;
    assert q in s.durationCount ==> Expected(s, version, commit, SeriesWith(CountFamily().name, path)).Some?;
    assert q in s.dbErrors ==> Expected(s, version, commit, SeriesWith(DbFamily().name, db)).Some?;
  }

  lemma InfoIsKnown(s: Snapshot, version: string, commit: string)
    ensures Known(s, version, commit, [Label("version", version), Label("commit", commit)])
  {
    hide RequestsFamily, SumFamily, CountFamily, DbFamily, LimitedFamily, RejectsFamily, StartedFamily, InfoFamily;
    NamesDiffer();
    LabelNamesDiffer();
    TwoLabels("version", version, "commit", commit);
    var ls := [Label("version", version), Label("commit", commit)];
    assert Expected(s, version, commit, SeriesWith(InfoFamily().name, ls)).Some?;
  }

  lemma LabelsAreKnown(s: Snapshot, version: string, commit: string, good: seq<Label> -> bool)
    returns (k: Series, ls: seq<Label>)
    requires !AllLabels(s, version, commit, good)
    ensures !good(ls) && DistinctKeys(ls) && k.labels == LabelMap(ls) && Expected(s, version, commit, k).Some?
  {
    hide Expected, LabelMap, RequestLabels, DistinctKeys;
    if q :| q in s.requests && !good(RequestLabels(q)) {
      ls := RequestLabels(q);
      RequestIsKnown(s, version, commit, q);
    } else if q :| (q in s.durationSum || q in s.durationCount) && !good([Label("path", q)]) {
      ls := [Label("path", q)];
      PathIsKnown(s, version, commit, q);
    } else if q :| q in s.dbErrors && !good([Label("db", q)]) {
      ls := [Label("db", q)];
      PathIsKnown(s, version, commit, q);
    } else {
      ls := [Label("version", version), Label("commit", commit)];
      InfoIsKnown(s, version, commit);
    }
    k :| k.labels == LabelMap(ls) && Expected(s, version, commit, k).Some?;
  }

  lemma {:induction false} ReadableLabels(ls: seq<Label>, k: Series)
    requires DistinctKeys(ls) && k.labels == LabelMap(ls) && ReadableSeries(k)
    ensures Clean(ls)
  {
    hide LabelMap;
    forall i | 0 <= i < |ls| ensures Readable(ls[i].value) {
      LabelMapAt(ls, i);
    }
  }

  lemma {:induction false} BracelessLabels(ls: seq<Label>)
    requires DistinctKeys(ls) && NoBraces(ls)
    ensures forall n :: n in LabelMap(ls) ==> '}' !in LabelMap(ls)[n]
    decreases |ls|
  {
    if ls == [] {
    } else {
      BracelessLabels(ls[1..]);
    }
  }

  /** Reading the text back gives exactly the registry if and only if no label value contains a quote, a closing brace
      or a line break: no registry is misread under this condition, and none is read right outside it. */
  lemma RegistryRoundTripIff(s: Snapshot, version: string, commit: string, o: Orders)
    requires Enumerates(o, s)
    ensures Reads(Scraped(s, version, commit, o), s, version, commit, AnySeries) <==>
              AllLabels(s, version, commit, Clean)
  {
    hide Scraped, Expected, LabelMap, OneLine, NoQuotes, NoBraces;
    if AllLabels(s, version, commit, Clean) {
      assert PlainLabels(s, version, commit);
      PlainRoundTrip(s, version, commit, o);
      forall k | Expected(s, version, commit, k).Some? ensures Braceless(k) {
        CleanIsBraceless(s, version, commit, k);
      }
    } else {
      var k, ls := LabelsAreKnown(s, version, commit, Clean);
      if k in Scraped(s, version, commit, o) {
        ScrapedIsReadable(s, version, commit, o, k);
        ReadableLabels(ls, k);
        assert false;
      }
      assert !Reads(Scraped(s, version, commit, o), s, version, commit, AnySeries);
    }
  }

  lemma CleanIsBraceless(s: Snapshot, version: string, commit: string, k: Series)
    requires AllLabels(s, version, commit, Clean) && Expected(s, version, commit, k).Some?
    ensures Braceless(k)
  {
    hide RequestsFamily, SumFamily, CountFamily, DbFamily, LimitedFamily, RejectsFamily, StartedFamily, InfoFamily;
    hide OneLine, NoQuotes;
    NamesDiffer();
    LabelNamesDiffer();
    if k.name == RequestsFamily().name {
      var key := (k.labels["method"], k.labels["path"], k.labels["status"]);
      var ls := RequestLabels(key);
      assert Clean(ls);
      assert ls[0].value == key.0 && ls[1].value == key.1 && ls[2].value == key.2;
    } else if k.name == SumFamily().name || k.name == CountFamily().name {
      var ls := [Label("path", k.labels["path"])];
      assert Clean(ls) && ls[0].value == k.labels["path"];
    } else if k.name == DbFamily().name {
      var ls := [Label("db", k.labels["db"])];
      assert Clean(ls) && ls[0].value == k.labels["db"];
    } else if k.name == InfoFamily().name {
      var ls := [Label("version", version), Label("commit", commit)];
      assert Clean(ls) && ls[0].value == version && ls[1].value == commit;
    }
  }

  /** With route templates: when no label value has a line break, reading the text back gives exactly the registry
      apart from the series with a closing brace, which are missing altogether, if and only if no series has a quote
      without also having a closing brace. */
  lemma RegistryRoundTrip(s: Snapshot, version: string, commit: string, o: Orders)
    requires Enumerates(o, s) && AllLabels(s, version, commit, OneLine)
    ensures Reads(Scraped(s, version, commit, o), s, version, commit, Braceless) <==>
              AllLabels(s, version, commit, Legible)
  {
    hide Scraped, Expected, LabelMap, OneLine, NoQuotes, NoBraces, DistinctKeys;
    if AllLabels(s, version, commit, Legible) {
      PlainRoundTrip(s, version, commit, o);
    } else {
      var k, ls := LabelsAreKnown(s, version, commit, Legible);
      BracelessLabels(ls);
      if k in Scraped(s, version, commit, o) {
        ScrapedIsReadable(s, version, commit, o, k);
        ReadableLabels(ls, k);
        assert false;
      }
      assert !Reads(Scraped(s, version, commit, o), s, version, commit, Braceless);
    }
  }

  lemma {:induction false} SplitBack(lines: seq<string>)
    requires forall i :: 0 <= i < |lines| ==> SingleLine(lines[i])
    ensures SplitLines(Unlines(lines)) == lines
  {
    SplitUnlines(lines, "");
    assert Unlines(lines) + "" == Unlines(lines);
  }
}
