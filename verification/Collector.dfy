/** The scraper: cumulative counters in, per-scrape deltas out, across outages and restarts.  Values are thousandths,
    the precision of the exposition and of the stored rows. */
module Collector {
  import opened Options

  datatype Series = Series(name: string, labels: map<string, string>)
  datatype Row = Row(series: Series, v: int)

  type Items = seq<(Series, int)>

  function StartSeries(): Series {
    Series("process_start_time_seconds", map[])
  }

  predicate IsCounter(s: Series) {
    s.name in {"http_requests_total", "http_request_duration_ms_sum", "http_request_duration_ms_count",
               "db_errors_total", "rate_limited_requests_total"}
  }

  /** A parsed exposition is a dict: its items in insertion order, each key once. */
  predicate Distinct(items: Items) {
    forall i, j :: 0 <= i < j < |items| ==> items[i].0 != items[j].0
  }

  function Lookup(items: Items, k: Series): Option<int> {
    if items == [] then None else if items[0].0 == k then Some(items[0].1) else Lookup(items[1..], k)
  }

  /** What the collector remembers between scrapes. */
  datatype Memory = Memory(prev: Items, prevStart: Option<int>)

  const EMPTY := Memory([], None)

  /** The delta written for one series: nothing at the baseline, everything after a restart, a reset or for a new
      label set, the difference otherwise. */
  function Delta(m: Memory, start: Option<int>, k: Series, v: int): int {
    if m.prev == [] then 0
    else
      var p := Lookup(m.prev, k);
      if (m.prevStart.Some? && start != m.prevStart) || p.None? || v < p.value then v else v - p.value
  }

  function CounterRows(m: Memory, start: Option<int>, items: Items): seq<Row> {
    if items == [] then [] else
      var (k, v) := items[|items| - 1];
      var d := Delta(m, start, k, v);
      CounterRows(m, start, items[..|items| - 1]) + if IsCounter(k) && d != 0 then [Row(k, d)] else []
  }

  /** One poll of `/metrics`: unreachable, or the process in its `life`-th incarnation answers. */
  datatype Scrape = Down | Up(life: nat, items: Items)

  function Rows(m: Memory, s: Scrape): seq<Row> {
    match s
    case Down => [Row(Series("up", map[]), 0)]
    case Up(_, items) => [Row(Series("up", map[]), 1000)] + CounterRows(m, Lookup(items, StartSeries()), items)
  }

  function Remember(m: Memory, s: Scrape): Memory {
    match s
    case Down => m
    case Up(_, items) => Memory(items, Lookup(items, StartSeries()))
  }

  class MetricsCollector {
    var prev: Items
    var prevStart: Option<int>
    var scrapes: nat
    var file: seq<Row>

    function Mem(): Memory
      reads this
    {
      Memory(prev, prevStart)
    }

    constructor ()
      ensures Mem() == EMPTY && scrapes == 0 && file == []
    {
      prev, prevStart, scrapes, file := [], None, 0, [];
    }

    /** `exported` are the ledger exporter's rows, appended as they come. */
    method ScrapeOnce(s: Scrape, exported: seq<Row>)
      modifies this
      ensures file == old(file) + Rows(old(Mem()), s) + exported
      ensures Mem() == Remember(old(Mem()), s)
      ensures scrapes == old(scrapes) + if s.Up? then 1 else 0
    {
      var rows: seq<Row>;
      if s.Down? {
        rows := [Row(Series("up", map[]), 0)];
      } else {
        scrapes := scrapes + 1;
        var cur := s.items;
        var start := Lookup(cur, StartSeries());
        var restarted := prevStart.Some? && start != prevStart;
        rows := [Row(Series("up", map[]), 1000)];
        var baseline := prev == [];
        for i := 0 to |cur|
          invariant rows == [Row(Series("up", map[]), 1000)] + CounterRows(Mem(), start, cur[..i])
          invariant Mem() == old(Mem()) && file == old(file)
        {
          assert cur[..i + 1][..i] == cur[..i];
          var (k, v) := cur[i];
          if !IsCounter(k) {
            continue;
          }
          var p := Lookup(prev, k);
          var delta := v;
          if baseline {
            delta := 0;
          } else if !(restarted || p.None? || v < p.value) {
            delta := v - p.value;
          }
          assert delta == Delta(old(Mem()), start, k, v);
          hide Delta, Lookup;
          if delta != 0 {
            rows := rows + [Row(k, delta)];
          }
        }
        assert cur[..|cur|] == cur;
        prev := cur;
        prevStart := start;
      }
      file := file + (rows + exported);
      assert file == old(file) + rows + exported;
    }
  }

  // ---------------------------------------------------------------- whole runs

  function MemoryAfter(h: seq<Scrape>): Memory {
    if h == [] then EMPTY else Remember(MemoryAfter(h[..|h| - 1]), h[|h| - 1])
  }

  /** Everything a run of scrapes writes, without the exporter's rows. */
  function Written(h: seq<Scrape>): seq<Row> {
    if h == [] then [] else Written(h[..|h| - 1]) + Rows(MemoryAfter(h[..|h| - 1]), h[|h| - 1])
  }

  function Sum(rows: seq<Row>, k: Series): int {
    if rows == [] then 0
    else Sum(rows[..|rows| - 1], k) + if rows[|rows| - 1].series == k then rows[|rows| - 1].v else 0
  }

  /** The values of the `up` rows, in order. */
  function UpValues(rows: seq<Row>): seq<int> {
    if rows == [] then [] else
      var r := rows[|rows| - 1];
      UpValues(rows[..|rows| - 1]) + if r.series == Series("up", map[]) then [r.v] else []
  }

  lemma {:induction false} UpConcat(a: seq<Row>, b: seq<Row>)
    ensures UpValues(a + b) == UpValues(a) + UpValues(b)
    decreases |b|
  {
    if b == [] {
      assert a + b == a;
    } else {
      UpConcat(a, b[..|b| - 1]);
      assert (a + b)[..|a + b| - 1] == a + b[..|b| - 1];
    }
  }

  lemma {:induction false} CountersAreNotUp(m: Memory, start: Option<int>, items: Items)
    ensures UpValues(CounterRows(m, start, items)) == []
    decreases |items|
  {
    if items == [] {
    } else {
      hide Delta;
      var (k, v) := items[|items| - 1];
      CountersAreNotUp(m, start, items[..|items| - 1]);
      assert !IsCounter(Series("up", map[]));
      UpConcat(CounterRows(m, start, items[..|items| - 1]), if IsCounter(k) && Delta(m, start, k, v) != 0
               then [Row(k, Delta(m, start, k, v))] else []);
    }
  }

  lemma {:induction false} UpSnoc(h: seq<Scrape>)
    requires h != []
    ensures UpValues(Written(h)) == UpValues(Written(h[..|h| - 1])) + [if h[|h| - 1].Up? then 1000 else 0]
  {
    hide UpValues, Rows, Remember, MemoryAfter;
    var g, s := h[..|h| - 1], h[|h| - 1];
    UpConcat(Written(g), Rows(MemoryAfter(g), s));
    OneUpRow(MemoryAfter(g), s);
  }

  /** A thousand thousandths for a poll that was answered, zero for one that was not. */
  function Polls(h: seq<Scrape>): seq<int> {
    if h == [] then [] else Polls(h[..|h| - 1]) + [if h[|h| - 1].Up? then 1000 else 0]
  }

  /** Every poll leaves one `up` row, which says whether it was answered. */
  lemma {:induction false} UpTellsTheAnswers(h: seq<Scrape>)
    ensures UpValues(Written(h)) == Polls(h)
    decreases |h|
  {
    if h == [] {
    } else {
      hide UpValues, Written;
      UpTellsTheAnswers(h[..|h| - 1]);
      UpSnoc(h);
    }
  }

  lemma {:induction false} OneUpRow(m: Memory, s: Scrape)
    ensures UpValues(Rows(m, s)) == [if s.Up? then 1000 else 0]
  {
    hide CounterRows;
    if s.Up? {
      var up, rows := [Row(Series("up", map[]), 1000)], CounterRows(m, Lookup(s.items, StartSeries()), s.items);
      CountersAreNotUp(m, Lookup(s.items, StartSeries()), s.items);
      UpConcat(up, rows);
      assert UpValues(up) == [1000];
    }
  }

  function Value(s: Scrape, k: Series): int {
    if s.Up? && Lookup(s.items, k).Some? then Lookup(s.items, k).value else 0
  }

  /** The run up to and including its last answered scrape. */
  function Answered(h: seq<Scrape>): seq<Scrape> {
    if h == [] || h[|h| - 1].Up? then h else Answered(h[..|h| - 1])
  }

  /** Drops the trailing scrapes that belong to `life` or went unanswered. */
  function BeforeLife(h: seq<Scrape>, life: nat): seq<Scrape>
    ensures |BeforeLife(h, life)| <= |h|
  {
    if h == [] then h
    else if h[|h| - 1].Down? || h[|h| - 1].life == life then BeforeLife(h[..|h| - 1], life)
    else h
  }

  /** The last scraped value of every process life, added up. */
  function LifeTotals(h: seq<Scrape>, k: Series): int
    decreases |h|
  {
    if h == [] then 0
    else if h[|h| - 1].Down? then LifeTotals(h[..|h| - 1], k)
    else Value(h[|h| - 1], k) + LifeTotals(BeforeLife(h[..|h| - 1], h[|h| - 1].life), k)
  }

  /** The value at the first answered scrape. */
  function Baseline(h: seq<Scrape>, k: Series): int {
    if h == [] then 0 else if h[0].Up? then Value(h[0], k) else Baseline(h[1..], k)
  }

  /** What is lost to restarts the stamp does not reveal: the new life reports the same start second and a value that
      has already caught up with the old one. */
  function Lost(h: seq<Scrape>, k: Series): int
    decreases |h|
  {
    if h == [] then 0 else
      var g, s := Answered(h[..|h| - 1]), h[|h| - 1];
      Lost(h[..|h| - 1], k) +
      if s.Up? && g != [] && g[|g| - 1].Up? && Hidden(g[|g| - 1], s, k) then Value(g[|g| - 1], k) else 0
  }

  predicate Hidden(before: Scrape, after: Scrape, k: Series)
    requires before.Up? && after.Up?
  {
    && before.life != after.life
    && Lookup(before.items, StartSeries()) == Lookup(after.items, StartSeries())
    && Value(before, k) <= Value(after, k)
  }

  /** One process life: its start stamp is fixed, its counters only grow, and label sets do not disappear. */
  ghost predicate SameLife(before: Scrape, after: Scrape)
    requires before.Up? && after.Up?
  {
    && Lookup(before.items, StartSeries()) == Lookup(after.items, StartSeries())
    && forall k :: IsCounter(k) && Lookup(before.items, k).Some? ==>
                     Lookup(after.items, k).Some? && Lookup(before.items, k).value <= Lookup(after.items, k).value
  }

  ghost predicate Answers(s: Scrape) {
    s.Up? ==>
      && s.items != [] && Distinct(s.items) && Lookup(s.items, StartSeries()).Some?
      && forall k :: IsCounter(k) && Lookup(s.items, k).Some? ==> Lookup(s.items, k).value >= 0
  }

  /** What the application guarantees: no assumption on stamps across lives. */
  ghost predicate Lives(h: seq<Scrape>) {
    && (forall i :: 0 <= i < |h| ==> Answers(h[i]))
    && (forall i :: 0 <= i < |h| ==> LifeStep(h, i))
  }

  ghost predicate LifeStep(h: seq<Scrape>, i: nat)
    requires i < |h|
  {
    var g := Answered(h[..i]);
    h[i].Up? && g != [] && g[|g| - 1].Up? && g[|g| - 1].life == h[i].life ==> SameLife(g[|g| - 1], h[i])
  }

  lemma LivesInit(h: seq<Scrape>)
    requires Lives(h) && h != []
    ensures Lives(h[..|h| - 1])
  {
    var g := h[..|h| - 1];
    forall i | 0 <= i < |g| ensures LifeStep(g, i) {
      assert LifeStep(h, i);
      assert g[..i] == h[..i];
    }
  }

  lemma {:induction false} AnsweredFacts(h: seq<Scrape>)
    ensures Answered(h) <= h && (Answered(h) != [] ==> Answered(h)[|Answered(h)| - 1].Up?)
    ensures forall i :: |Answered(h)| <= i < |h| ==> h[i].Down?
    ensures MemoryAfter(h) == MemoryAfter(Answered(h))
    ensures Answered(h) == [] ==> MemoryAfter(h) == EMPTY
    ensures Answered(h) != [] ==> MemoryAfter(h) == Remember(EMPTY, Answered(h)[|Answered(h)| - 1])
    ensures forall k :: LifeTotals(h, k) == LifeTotals(Answered(h), k)
    ensures forall life :: BeforeLife(h, life) == BeforeLife(Answered(h), life)
    decreases |h|
  {
    if h == [] {
    } else if h[|h| - 1].Down? {
      AnsweredFacts(h[..|h| - 1]);
    }
  }

  lemma {:induction false} BaselineSnoc(h: seq<Scrape>, k: Series)
    requires h != []
    ensures Baseline(h, k) == if Answered(h[..|h| - 1]) == [] then Value(h[|h| - 1], k) else Baseline(h[..|h| - 1], k)
    decreases |h|
  {
    if |h| == 1 {
      assert h[1..] == [];
    } else {
      AnsweredFacts(h[..|h| - 1]);
      if h[0].Up? {
        assert Answered(h[..|h| - 1]) != [];
      } else {
        AnsweredTail(h[..|h| - 1]);
        assert h[1..][..|h| - 2] == h[..|h| - 1][1..];
        BaselineSnoc(h[1..], k);
      }
    }
  }

  lemma {:induction false} AnsweredTail(h: seq<Scrape>)
    requires h != [] && h[0].Down?
    ensures Answered(h) == [] <==> Answered(h[1..]) == []
    decreases |h|
  {
    if |h| == 1 {
    } else if h[|h| - 1].Down? {
      AnsweredTail(h[..|h| - 1]);
      assert h[..|h| - 1][1..] == h[1..][..|h| - 2];
    }
  }

  lemma {:induction false} SumConcat(a: seq<Row>, b: seq<Row>, k: Series)
    ensures Sum(a + b, k) == Sum(a, k) + Sum(b, k)
    decreases |b|
  {
    if b == [] {
      assert a + b == a;
    } else {
      SumConcat(a, b[..|b| - 1], k);
      assert (a + b)[..|a + b| - 1] == a + b[..|b| - 1];
    }
  }

  lemma {:induction false} CounterRowsSum(m: Memory, start: Option<int>, items: Items, k: Series)
    requires Distinct(items) && IsCounter(k)
    ensures Sum(CounterRows(m, start, items), k) ==
            if Lookup(items, k).Some? then Delta(m, start, k, Lookup(items, k).value) else 0
    decreases |items|
  {
    if items == [] {
    } else {
      var init, last := items[..|items| - 1], items[|items| - 1];
      CounterRowsSum(m, start, init, k);
      LookupSnoc(init, last, k);
      assert init + [last] == items;
      var more := if IsCounter(last.0) && Delta(m, start, last.0, last.1) != 0
                  then [Row(last.0, Delta(m, start, last.0, last.1))] else [];
      SumConcat(CounterRows(m, start, init), more, k);
    }
  }

  lemma {:induction false} LookupSnoc(init: Items, last: (Series, int), k: Series)
    requires Distinct(init + [last])
    ensures Lookup(init + [last], k) == if last.0 == k then Some(last.1) else Lookup(init, k)
    ensures last.0 == k ==> Lookup(init, k) == None
    decreases |init|
  {
    if init == [] {
    } else {
      assert (init + [last])[1..] == init[1..] + [last];
      LookupSnoc(init[1..], last, k);
      assert (init + [last])[|init|] == last;
    }
  }

  lemma {:induction false} RowsSum(m: Memory, s: Scrape, k: Series)
    requires Answers(s) && IsCounter(k)
    ensures Sum(Rows(m, s), k) ==
            if s.Up? && Lookup(s.items, k).Some?
            then Delta(m, Lookup(s.items, StartSeries()), k, Lookup(s.items, k).value) else 0
  {
    if s.Up? {
      var up := [Row(Series("up", map[]), 1000)];
      SumConcat(up, CounterRows(m, Lookup(s.items, StartSeries()), s.items), k);
      CounterRowsSum(m, Lookup(s.items, StartSeries()), s.items, k);
    }
  }

  /** One answered scrape after another: the delta is what the totals grow by, less what is hidden. */
  lemma {:induction false} OneDelta(g: seq<Scrape>, s: Scrape, k: Series)
    requires IsCounter(k) && s.Up? && Answers(s)
    requires var a := Answered(g); a != [] && a[|a| - 1].Up? && Answers(a[|a| - 1])
                                   && (a[|a| - 1].life == s.life ==> SameLife(a[|a| - 1], s))
    ensures var u := Answered(g)[|Answered(g)| - 1];
            Sum(Rows(MemoryAfter(g), s), k) ==
            Value(s, k) + LifeTotals(BeforeLife(g, s.life), k) - LifeTotals(g, k)
            - if Hidden(u, s, k) then Value(u, k) else 0
  {
    hide LifeTotals, Rows, Sum, IsCounter, MemoryAfter, Answered, BeforeLife;
    var a := Answered(g);
    var u, init := a[|a| - 1], a[..|a| - 1];
    AnsweredFacts(g);
    RowsSum(MemoryAfter(g), s, k);
    assert LifeTotals(a, k) == Value(u, k) + LifeTotals(BeforeLife(init, u.life), k) by { LifeTotalsUp(a, k); }
    assert BeforeLife(a, s.life) == if u.life == s.life then BeforeLife(init, s.life) else a by { LifeTotalsUp(a, k); }
  }

  lemma LifeTotalsUp(a: seq<Scrape>, k: Series)
    requires a != [] && a[|a| - 1].Up?
    ensures LifeTotals(a, k) == Value(a[|a| - 1], k) + LifeTotals(BeforeLife(a[..|a| - 1], a[|a| - 1].life), k)
    ensures forall life :: BeforeLife(a, life) == if a[|a| - 1].life == life then BeforeLife(a[..|a| - 1], life) else a
  {
  }

  /** How the three accounts grow with the last scrape of a run. */
  lemma AccountsSnoc(h: seq<Scrape>, k: Series)
    requires h != []
    ensures var g, s := h[..|h| - 1], h[|h| - 1];
            var a := Answered(g);
            && Sum(Written(h), k) == Sum(Written(g), k) + Sum(Rows(MemoryAfter(g), s), k)
            && LifeTotals(h, k)
                == (if s.Up? then Value(s, k) + LifeTotals(BeforeLife(g, s.life), k) else LifeTotals(g, k))
            && Lost(h, k) == Lost(g, k) + (if s.Up? && a != [] && a[|a| - 1].Up? && Hidden(a[|a| - 1], s, k)
                                           then Value(a[|a| - 1], k) else 0)
  {
    hide Rows, Lookup, Value, Hidden, BeforeLife, MemoryAfter, Answered, Sum;
    SumConcat(Written(h[..|h| - 1]), Rows(MemoryAfter(h[..|h| - 1]), h[|h| - 1]), k);
  }

  lemma StepMeans(h: seq<Scrape>)
    requires Lives(h) && h != []
    ensures var a, s := Answered(h[..|h| - 1]), h[|h| - 1];
            && Answers(s)
            && (a != [] ==> a[|a| - 1].Up? && Answers(a[|a| - 1]))
            && (a != [] && s.Up? && a[|a| - 1].life == s.life ==> SameLife(a[|a| - 1], s))
  {
    hide Answers, SameLife;
    AnsweredFacts(h[..|h| - 1]);
    var a := Answered(h[..|h| - 1]);
    assert LifeStep(h, |h| - 1);
    if a != [] {
      assert Answers(h[|a| - 1]);
    }
  }

  /** The exact account of every run: what is written for a counter is the last value scraped in each life, added up,
      minus the baseline, minus what equal start stamps hide. */
  lemma {:induction false} DeltasTelescope(h: seq<Scrape>, k: Series)
    requires Lives(h) && IsCounter(k)
    ensures Sum(Written(h), k) == LifeTotals(h, k) - Baseline(h, k) - Lost(h, k)
    decreases |h|
  {
    if h == [] {
    } else {
      hide Sum, Written, Rows, LifeTotals, Lost, Baseline, BeforeLife, Answered, MemoryAfter, Lives, Answers, SameLife;
      hide IsCounter;
      var g, s := h[..|h| - 1], h[|h| - 1];
      LivesInit(h);
      DeltasTelescope(g, k);
      AccountsSnoc(h, k);
      BaselineSnoc(h, k);
      StepMeans(h);
      if s.Up? && Answered(g) != [] {
        OneDelta(g, s, k);
      } else {
        RowsSum(MemoryAfter(g), s, k);
        NothingBefore(g, k);
        BaselineDown(h, k);
      }
    }
  }

  lemma BaselineDown(h: seq<Scrape>, k: Series)
    requires h != []
    ensures h[|h| - 1].Down? ==> Value(h[|h| - 1], k) == 0
    ensures Answered(h[..|h| - 1]) == [] ==> MemoryAfter(h[..|h| - 1]).prev == []
  {
    AnsweredFacts(h[..|h| - 1]);
  }

  lemma {:induction false} NothingBefore(g: seq<Scrape>, k: Series)
    ensures Answered(g) == [] ==> LifeTotals(g, k) == 0 && Lost(g, k) == 0 && Baseline(g, k) == 0
    ensures Answered(g) == [] ==> forall life :: BeforeLife(g, life) == []
  {
    AnsweredFacts(g);
    if Answered(g) == [] {
      AllDown(g, k);
    }
  }

  lemma {:induction false} AllDown(g: seq<Scrape>, k: Series)
    requires forall i :: 0 <= i < |g| ==> g[i].Down?
    ensures Lost(g, k) == 0 && Baseline(g, k) == 0
    decreases |g|
  {
    if g == [] {
    } else {
      AllDown(g[..|g| - 1], k);
      AllDown(g[1..], k);
    }
  }

  lemma SameHidden(h: seq<Scrape>, i: nat, k: Series)
    requires h != [] && i < |h| - 1
    ensures NothingHidden(h, i, k) <==> NothingHidden(h[..|h| - 1], i, k)
  {
    hide Answered, Hidden, Value;
    assert h[..i] == h[..|h| - 1][..i];
  }

  lemma {:induction false} LostGrows(h: seq<Scrape>, k: Series)
    requires h != [] && Lives(h) && IsCounter(k)
    ensures Lost(h, k) >= Lost(h[..|h| - 1], k)
  {
    hide Lookup, IsCounter, LifeStep;
    AnsweredFacts(h[..|h| - 1]);
    var a := Answered(h[..|h| - 1]);
    if a != [] {
      assert Answers(h[|a| - 1]);
      assert Value(a[|a| - 1], k) >= 0;
    }
  }

  /** Nothing is ever lost, hence written plus baseline equals the life totals, exactly when every hidden restart
      started from zero. */
  lemma {:induction false} LostIsNothingIff(h: seq<Scrape>, k: Series)
    requires Lives(h) && IsCounter(k)
    ensures Lost(h, k) >= 0
    ensures Lost(h, k) == 0 <==> forall i :: 0 <= i < |h| ==> NothingHidden(h, i, k)
    decreases |h|
  {
    if h == [] {
    } else {
      hide Answered, Value, Hidden, Lives, Answers, IsCounter, NothingHidden, Lost;
      var g := h[..|h| - 1];
      LivesInit(h);
      LostIsNothingIff(g, k);
      LostGrows(h, k);
      forall i | 0 <= i < |g| ensures NothingHidden(h, i, k) <==> NothingHidden(g, i, k) {
        SameHidden(h, i, k);
      }
      LastHidden(h, k);
    }
  }

  lemma {:induction false} LastHidden(h: seq<Scrape>, k: Series)
    requires h != []
    ensures NothingHidden(h, |h| - 1, k) <==> Lost(h, k) == Lost(h[..|h| - 1], k)
  {
  }

  predicate NothingHidden(h: seq<Scrape>, i: nat, k: Series)
    requires i < |h|
  {
    var g := Answered(h[..i]);
    h[i].Up? && g != [] && g[|g| - 1].Up? && Hidden(g[|g| - 1], h[i], k) ==> Value(g[|g| - 1], k) == 0
  }

  /** Consecutive answered scrapes of different lives carry different start stamps. */
  ghost predicate StampsTellLivesApart(h: seq<Scrape>) {
    forall i :: 0 <= i < |h| ==>
                  var g := Answered(h[..i]);
                  h[i].Up? && g != [] && g[|g| - 1].Up? && g[|g| - 1].life != h[i].life ==>
                    Lookup(g[|g| - 1].items, StartSeries()) != Lookup(h[i].items, StartSeries())
  }

  lemma {:induction false} DistinctStampsLoseNothing(h: seq<Scrape>, k: Series)
    requires Lives(h) && StampsTellLivesApart(h)
    requires k.name in {"http_requests_total", "http_request_duration_ms_sum", "http_request_duration_ms_count",
                        "db_errors_total", "rate_limited_requests_total"}
    ensures Sum(Written(h), k) == LifeTotals(h, k) - Baseline(h, k)
  {
    DeltasTelescope(h, k);
    LostIsNothingIff(h, k);
  }

  /** Nothing else is stored: every row is an `up` row or a delta of one of the five counters, of a series that some
      poll has shown. */
  lemma {:induction false} RowsAreUpOrCounters(h: seq<Scrape>, row: Row)
    requires row in Written(h) && row.series != Series("up", map[])
    ensures row.series.name in {"http_requests_total", "http_request_duration_ms_sum",
                                "http_request_duration_ms_count", "db_errors_total", "rate_limited_requests_total"}
    ensures exists i, j :: 0 <= i < |h| && h[i].Up? && 0 <= j < |h[i].items| && h[i].items[j].0 == row.series
    decreases |h|
  {
    hide Delta, Lookup;
    var g, s := h[..|h| - 1], h[|h| - 1];
    if row in Written(g) {
      RowsAreUpOrCounters(g, row);
      var i, j :| 0 <= i < |g| && g[i].Up? && 0 <= j < |g[i].items| && g[i].items[j].0 == row.series;
      assert h[i] == g[i];
    } else {
      assert row in Rows(MemoryAfter(g), s);
      var j := CounterRowIsShown(MemoryAfter(g), Lookup(s.items, StartSeries()), s.items, row);
      assert h[|h| - 1].items[j].0 == row.series;
    }
  }

  lemma {:induction false} CounterRowIsShown(m: Memory, start: Option<int>, items: Items, row: Row) returns (j: nat)
    requires row in CounterRows(m, start, items)
    ensures IsCounter(row.series) && j < |items| && items[j].0 == row.series
    decreases |items|
  {
    hide Delta;
    var (k, v) := items[|items| - 1];
    if row in CounterRows(m, start, items[..|items| - 1]) {
      j := CounterRowIsShown(m, start, items[..|items| - 1], row);
    } else {
      j := |items| - 1;
    }
  }

  /** The stored deltas of a counter are positive. */
  lemma {:induction false} NoNegativeDelta(h: seq<Scrape>, row: Row)
    requires Lives(h) && row in Written(h) && IsCounter(row.series)
    ensures row.v > 0
    decreases |h|
  {
    var g, s := h[..|h| - 1], h[|h| - 1];
    LivesInit(h);
    if row in Written(g) {
      NoNegativeDelta(g, row);
    } else {
      assert row in Rows(MemoryAfter(g), s);
      AnsweredFacts(g);
      assert Answers(s);
      RowComesFromItem(MemoryAfter(g), Lookup(s.items, StartSeries()), s.items, row);
    }
  }

  lemma {:induction false} RowComesFromItem(m: Memory, start: Option<int>, items: Items, row: Row)
    requires Distinct(items) && row in CounterRows(m, start, items)
    ensures Lookup(items, row.series).Some? && row.v == Delta(m, start, row.series, Lookup(items, row.series).value)
    ensures row.v != 0
    decreases |items|
  {
    var init, last := items[..|items| - 1], items[|items| - 1];
    LookupSnoc(init, last, row.series);
    assert init + [last] == items;
    if row in CounterRows(m, start, init) {
      RowComesFromItem(m, start, init, row);
    }
  }

  /** The true number of events, given the value each life's counter really ended with. */
  function TrueTotal(h: seq<Scrape>, final: nat -> int): int
    decreases |h|
  {
    if h == [] then 0
    else if h[|h| - 1].Down? then TrueTotal(h[..|h| - 1], final)
    else final(h[|h| - 1].life) + TrueTotal(BeforeLife(h[..|h| - 1], h[|h| - 1].life), final)
  }

  lemma {:induction false} BeforeLifeIsPrefix(h: seq<Scrape>, life: nat)
    ensures BeforeLife(h, life) <= h
    decreases |h|
  {
    if h == [] {
    } else if h[|h| - 1].Down? || h[|h| - 1].life == life {
      BeforeLifeIsPrefix(h[..|h| - 1], life);
    }
  }

  lemma {:induction false} TotalsBounded(h: seq<Scrape>, k: Series, final: nat -> int)
    requires forall i :: 0 <= i < |h| && h[i].Up? ==> Value(h[i], k) <= final(h[i].life)
    ensures LifeTotals(h, k) <= TrueTotal(h, final)
    decreases |h|
  {
    if h == [] {
    } else {
      if h[|h| - 1].Down? {
        TotalsBounded(h[..|h| - 1], k, final);
      } else {
        BeforeLifeIsPrefix(h[..|h| - 1], h[|h| - 1].life);
        TotalsBounded(BeforeLife(h[..|h| - 1], h[|h| - 1].life), k, final);
      }
    }
  }

  /** Whatever the stamps, the store never claims more events than happened after the baseline. */
  lemma {:induction false} NeverOvercounts(h: seq<Scrape>, k: Series, final: nat -> int)
    requires Lives(h) && IsCounter(k)
    requires forall i :: 0 <= i < |h| && h[i].Up? ==> Value(h[i], k) <= final(h[i].life)
    ensures Sum(Written(h), k) <= TrueTotal(h, final) - Baseline(h, k)
  {
    DeltasTelescope(h, k);
    LostIsNothingIff(h, k);
    TotalsBounded(h, k, final);
  }

  function Answer(life: nat, k: Series, v: int): Scrape {
    Up(life, [(StartSeries(), 9000), (k, v)])
  }

  lemma {:induction false} AnswerLookups(life: nat, k: Series, v: int, q: Series)
    requires k != StartSeries()
    ensures Lookup(Answer(life, k, v).items, q) ==
            if q == StartSeries() then Some(9000) else if q == k then Some(v) else None
  {
    var items := Answer(life, k, v).items;
    assert items[1..] == [(k, v)] && items[1..][1..] == [];
    assert Lookup(items[1..], q) == if q == k then Some(v) else Lookup(items[1..][1..], q);
  }

  /** A restart within the same second looks like one life: after five events are the baseline, the seven events of
      the new process are stored as two. */
  lemma {:induction false} EqualStampsLoseEvents(k: Series)
    requires IsCounter(k)
    ensures var h := [Answer(0, k, 5000), Answer(1, k, 7000)];
            Lives(h) && LifeTotals(h, k) - Baseline(h, k) == 7000 && Sum(Written(h), k) == 2000
  {
    hide Lookup;
    var a, b := Answer(0, k, 5000), Answer(1, k, 7000);
    var h := [a, b];
    forall life, v, q ensures Lookup(Answer(life, k, v).items, q) ==
                              if q == StartSeries() then Some(9000) else if q == k then Some(v) else None {
      AnswerLookups(life, k, v, q);
    }
    assert h[..1] == [a] && h[..0] == [] && [a][..0] == [];
    assert Answers(a) && Answers(b);
    assert Lives(h) by {
      assert LifeStep(h, 0) && LifeStep(h, 1);
    }
    assert LifeTotals(h, k) == 7000 + LifeTotals(BeforeLife([a], 1), k);
    assert LifeTotals([a], k) == 5000 + LifeTotals(BeforeLife([], 0), k);
    assert Lost([a], k) == 0;
    assert Lost(h, k) == 5000;
    assert Baseline(h, k) == 5000;
    DeltasTelescope(h, k);
  }
}
