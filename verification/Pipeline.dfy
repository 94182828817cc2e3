/** From the registry, through the text, to the collector: what the collector assumes about one process life is what
    the registry and the two ends of the text format provide. */
module MetricsPipeline {
  import opened Options
  import opened Text
  import opened Numbers
  import opened Exposition
  import opened Telemetry
  import opened RegistryRuns
  import Collector

  function Milli(n: int): Number {
    Real(n as real / 1000.0)
  }

  /** The scraped dict in thousandths. */
  ghost predicate Represents(items: Collector.Items, parsed: map<Series, Number>) {
    && Collector.Distinct(items)
    && forall k :: Shown(items, parsed, k)
  }

  ghost predicate Shown(items: Collector.Items, parsed: map<Series, Number>, k: Series) {
    var v := Collector.Lookup(items, k);
    && (v.Some? <==> k in parsed)
    && (v.Some? ==> parsed[k] == Milli(v.value))
  }

  lemma ExpectedGrows(a: Snapshot, b: Snapshot, version: string, commit: string, k: Series)
    requires Grows(a, b) && Expected(a, version, commit, k).Some?
    ensures var x, y := Expected(a, version, commit, k), Expected(b, version, commit, k);
            y.Some? && x.value.Real? && y.value.Real? && 0.0 <= x.value.r <= y.value.r
            && (k.name == StartedFamily().name ==> x == y)
  {
    hide RequestsFamily, SumFamily, CountFamily, DbFamily, LimitedFamily, RejectsFamily, StartedFamily, InfoFamily;
    NamesDiffer();
  }

  lemma StartIsExpected(s: Snapshot, version: string, commit: string)
    ensures Expected(s, version, commit, Collector.StartSeries()) == Some(Int(s.started))
              && Braceless(Collector.StartSeries())
    ensures Collector.StartSeries().name == StartedFamily().name
  {
    assert Collector.StartSeries().name == StartedFamily().name;
    hide RequestsFamily, SumFamily, CountFamily, DbFamily, LimitedFamily, RejectsFamily, StartedFamily, InfoFamily;
    NamesDiffer();
  }

  lemma {:induction false} NothingInNothing(k: Series)
    ensures Collector.Lookup([], k) == None
  {
  }

  // ---------------------------------------------------------------- the series of a registry

  /** The registry prints a sample with this name and these labels. */
  ghost predicate Prints(s: Snapshot, version: string, commit: string, name: string, ls: seq<Label>) {
    || (name == RequestsFamily().name && exists q :: q in s.requests && RequestLabels(q) == ls)
    || (name == SumFamily().name && exists q :: q in s.durationSum && [Label("path", q)] == ls)
    || (name == CountFamily().name && exists q :: q in s.durationCount && [Label("path", q)] == ls)
    || (name == DbFamily().name && exists q :: q in s.dbErrors && [Label("db", q)] == ls)
    || (name in {LimitedFamily().name, RejectsFamily().name, StartedFamily().name} && ls == [])
    || (name == InfoFamily().name && ls == [Label("version", version), Label("commit", commit)])
  }

  lemma SampleIsPrinted(s: Snapshot, version: string, commit: string, o: Orders, x: Sample)
    requires Enumerates(o, s) && x in AllSamples(s, version, commit, o)
    ensures Prints(s, version, commit, x.name, x.labels)
  {
    hide Print, PrintThousandths, AllSamples, RequestLabels;
    hide RequestsFamily, SumFamily, CountFamily, DbFamily, LimitedFamily, RejectsFamily, StartedFamily, InfoFamily;
    Printed(s, version, commit, o, x);
  }

  lemma PrintedSample(s: Snapshot, version: string, commit: string, o: Orders, name: string, ls: seq<Label>)
    returns (x: Sample)
    requires Enumerates(o, s) && Prints(s, version, commit, name, ls)
    ensures x in AllSamples(s, version, commit, o) && x.name == name && x.labels == ls
  {
    hide Print, PrintThousandths, AllSamples, RequestLabels;
    hide RequestsFamily, SumFamily, CountFamily, DbFamily, LimitedFamily, RejectsFamily, StartedFamily, InfoFamily;
    NamesDiffer();
    if q :| name == RequestsFamily().name && q in s.requests && RequestLabels(q) == ls {
      var i :| 0 <= i < |o.requests| && o.requests[i] == q;
      x := RequestSamples(s, o.requests)[i];
      assert x in RequestSamples(s, o.requests);
    } else if q :| name == SumFamily().name && q in s.durationSum && [Label("path", q)] == ls {
      var i :| 0 <= i < |o.sums| && o.sums[i] == q;
      x := SumSamples(s, o.sums)[i];
      assert x in SumSamples(s, o.sums);
    } else if q :| name == CountFamily().name && q in s.durationCount && [Label("path", q)] == ls {
      var i :| 0 <= i < |o.counts| && o.counts[i] == q;
      x := CountSamples(s, o.counts)[i];
      assert x in CountSamples(s, o.counts);
    } else if q :| name == DbFamily().name && q in s.dbErrors && [Label("db", q)] == ls {
      var i :| 0 <= i < |o.dbs| && o.dbs[i] == q;
      x := DbSamples(s, o.dbs)[i];
      assert x in DbSamples(s, o.dbs);
    } else if name == InfoFamily().name {
      x := InfoSamples(version, commit)[0];
      assert x in InfoSamples(version, commit);
    } else {
      x := if name == LimitedFamily().name then LimitedSamples(s)[0]
      else if name == RejectsFamily().name then RejectSamples(s)[0] else StartedSamples(s)[0];
    }
    Printed(s, version, commit, o, x);
  }

  // ---------------------------------------------------------------- when nothing falls

  /** No two samples with different labels are read as the same series. */
  ghost predicate DistinctlyRead(xs: seq<Sample>) {
    forall i, j :: 0 <= i < |xs| && 0 <= j < |xs| && ReadAs(xs[i]).Some? && ReadAs(xs[i]) == ReadAs(xs[j]) ==>
                     xs[i].labels == xs[j].labels
  }

  /** What was read once is read again, with no smaller number. */
  ghost predicate NeverFalls(before: map<Series, Number>, after: map<Series, Number>) {
    forall k :: k in before ==> k in after && NotBelow(before[k], after[k])
  }

  predicate NotBelow(x: Number, y: Number) {
    x.Real? && y.Real? && 0.0 <= x.r <= y.r
  }

  lemma FewerLabels(a: Snapshot, b: Snapshot, version: string, commit: string, good: seq<Label> -> bool)
    requires Grows(a, b) && AllLabels(b, version, commit, good)
    ensures AllLabels(a, version, commit, good)
  {
    hide RequestLabels;
  }

  /** A scraped number is that of a printed sample which is read as its series. */
  lemma ScrapedFrom(s: Snapshot, version: string, commit: string, o: Orders, k: Series) returns (x: Sample)
    requires Enumerates(o, s) && AllLabels(s, version, commit, OneLine) && k in Scraped(s, version, commit, o)
    ensures x in AllSamples(s, version, commit, o) && SampleOk(x, s, version, commit) && ReadAs(x) == Some(k)
    ensures ParseFloat(x.text) == Some(Scraped(s, version, commit, o)[k])
  {
    hide AllSamples, AllLabels, Enumerates, SeriesOf, Scraped, SampleLines, ReadAs, Expected, ParseFloat, Braceless;
    hide WellPrinted, ParseLines;
    var xs := AllSamples(s, version, commit, o);
    ScrapedSamples(s, version, commit, o);
    var i := LastReading(xs, k);
    x := xs[i];
  }

  lemma ScrapedAll(s: Snapshot, version: string, commit: string, o: Orders, x: Sample)
    requires Enumerates(o, s) && AllLabels(s, version, commit, OneLine)
    requires x in AllSamples(s, version, commit, o) && ReadAs(x).Some?
    ensures ReadAs(x).value in Scraped(s, version, commit, o)
  {
    hide AllSamples, AllLabels, Enumerates, SeriesOf, Scraped, SampleLines, ReadAs, Expected, ParseFloat, Braceless;
    hide WellPrinted, ParseLines;
    var xs := AllSamples(s, version, commit, o);
    ScrapedSamples(s, version, commit, o);
    var i :| 0 <= i < |xs| && xs[i] == x;
    EachIsRead(xs, i);
  }

  /** An earlier and a later rendering of one process: when no two series of the later one are read as the same, no
      number falls, whatever the orders. */
  lemma DistinctNeverFalls(a: Snapshot, oa: Orders, b: Snapshot, ob: Orders, version: string, commit: string)
    requires Grows(a, b) && Enumerates(oa, a) && Enumerates(ob, b) && AllLabels(b, version, commit, OneLine)
    requires DistinctlyRead(AllSamples(b, version, commit, ob))
    ensures NeverFalls(Scraped(a, version, commit, oa), Scraped(b, version, commit, ob))
  {
    hide AllSamples, AllLabels, Enumerates, LabelMap, Scraped, FindLabels, Braced, Expected, ParseFloat, Braceless;
    hide Prints;
    hide Grows, WellPrinted;
    FewerLabels(a, b, version, commit, OneLine);
    var before, after := Scraped(a, version, commit, oa), Scraped(b, version, commit, ob);
    forall k | k in before ensures k in after && NotBelow(before[k], after[k]) {
      var x := ScrapedFrom(a, version, commit, oa, k);
      SampleIsPrinted(a, version, commit, oa, x);
      PrintsMore(a, b, version, commit, x.name, x.labels);
      var y := PrintedSample(b, version, commit, ob, x.name, x.labels);
      ScrapedAll(b, version, commit, ob, y);
      var z := ScrapedFrom(b, version, commit, ob, k);
      assert z.labels == y.labels && z.name == y.name && SeriesOf(z) == SeriesOf(x);
      ExpectedGrows(a, b, version, commit, SeriesOf(x));
    }
  }

  lemma PrintsMore(a: Snapshot, b: Snapshot, version: string, commit: string, name: string, ls: seq<Label>)
    requires Grows(a, b) && Prints(a, version, commit, name, ls)
    ensures Prints(b, version, commit, name, ls)
  {
    hide RequestLabels, RequestsFamily, SumFamily, CountFamily, DbFamily, LimitedFamily, RejectsFamily, StartedFamily;
    hide InfoFamily;
  }

  /** Two answered scrapes of one process then satisfy everything the collector's account asks of one life. */
  lemma RendersAreOneLife(a: Snapshot, oa: Orders, b: Snapshot, ob: Orders, version: string, commit: string,
                          before: Collector.Items, after: Collector.Items, life: nat)
    requires Grows(a, b) && Enumerates(oa, a) && Enumerates(ob, b) && AllLabels(b, version, commit, OneLine)
    requires DistinctlyRead(AllSamples(b, version, commit, ob))
    requires Represents(before, Scraped(a, version, commit, oa)) && Represents(after, Scraped(b, version, commit, ob))
    ensures Collector.SameLife(Collector.Up(life, before), Collector.Up(life, after))
    ensures Collector.Answers(Collector.Up(life, before))
  {
    hide Scraped, AllSamples, AllLabels, Enumerates, Grows, DistinctlyRead;
    hide Collector.Lookup, Collector.IsCounter, Collector.StartSeries;
    DistinctNeverFalls(a, oa, b, ob, version, commit);
    FewerLabels(a, b, version, commit, OneLine);
    StartIsScraped(a, version, commit, oa);
    StartIsScraped(b, version, commit, ob);
    assert a.started == b.started by { SameStart(a, b); }
    forall k | Collector.Lookup(before, k).Some?
      ensures Collector.Lookup(after, k).Some?
      ensures 0 <= Collector.Lookup(before, k).value <= Collector.Lookup(after, k).value
    {
      assert Shown(before, Scraped(a, version, commit, oa), k) && Shown(after, Scraped(b, version, commit, ob), k);
    }
    var start := Collector.StartSeries();
    assert Shown(before, Scraped(a, version, commit, oa), start)
               && Shown(after, Scraped(b, version, commit, ob), start);
    NothingInNothing(start);
  }

  lemma SameStart(a: Snapshot, b: Snapshot)
    requires Grows(a, b)
    ensures a.started == b.started
  {
  }

  /** No series is read as the start stamp but the start stamp. */
  lemma StartIsScraped(s: Snapshot, version: string, commit: string, o: Orders)
    requires Enumerates(o, s) && AllLabels(s, version, commit, OneLine)
    ensures var k, parsed := Collector.StartSeries(), Scraped(s, version, commit, o);
            k in parsed && parsed[k] == Int(s.started)
  {
    hide AllSamples, AllLabels, Enumerates, Scraped, ParseFloat, WellPrinted, Braceless;
    var k := Collector.StartSeries();
    assert k.name == StartedFamily().name;
    var own := PrintedSample(s, version, commit, o, k.name, []);
    assert Braced([]) == "" && ReadAs(own) == Some(k);
    ScrapedAll(s, version, commit, o, own);
    var x := ScrapedFrom(s, version, commit, o, k);
    StartIsExpected(s, version, commit);
    SampleIsPrinted(s, version, commit, o, x);
    NamesDiffer();
    assert x.labels == [];
    assert SeriesOf(x) == k;
  }

  // ---------------------------------------------------------------- and otherwise something does

  ghost predicate SameKeys(a: Snapshot, b: Snapshot) {
    && a.requests.Keys == b.requests.Keys && a.durationSum.Keys == b.durationSum.Keys
    && a.durationCount.Keys == b.durationCount.Keys && a.dbErrors.Keys == b.dbErrors.Keys
  }

  /** The number printed for a counted series is how many calls touched it. */
  lemma {:induction false} CountedText(s: Snapshot, version: string, commit: string, o: Orders, calls: seq<Call>,
                                       x: Sample)
    requires Enumerates(o, s) && CountsHits(s, calls) && x in AllSamples(s, version, commit, o) && Counted(x.name)
    ensures ParseFloat(x.text) == Some(Int(Hits(calls, x.name, x.labels)))
  {
    hide ParseFloat, Print, PrintThousandths, AllSamples, RequestLabels, Hits;
    hide RequestsFamily, SumFamily, CountFamily, DbFamily, LimitedFamily, RejectsFamily, StartedFamily, InfoFamily;
    NamesDiffer();
    Printed(s, version, commit, o, x);
    NumbersAreGood(Hits(calls, x.name, x.labels));
    if x in RequestSamples(s, o.requests) {
      var i :| 0 <= i < |o.requests| && RequestSamples(s, o.requests)[i] == x;
      assert HoldsHits(s.requests, o.requests[i], calls, x.name, x.labels);
    } else if x in CountSamples(s, o.counts) {
      var i :| 0 <= i < |o.counts| && CountSamples(s, o.counts)[i] == x;
      assert HoldsHits(s.durationCount, o.counts[i], calls, x.name, x.labels);
    } else {
      var i :| 0 <= i < |o.dbs| && DbSamples(s, o.dbs)[i] == x;
      assert HoldsHits(s.dbErrors, o.dbs[i], calls, x.name, x.labels);
    }
  }

  lemma {:induction false} PrintsWhatIsHit(s: Snapshot, version: string, commit: string, calls: seq<Call>, name: string,
                                           ls: seq<Label>)
    requires CountsHits(s, calls) && Counted(name)
    ensures Prints(s, version, commit, name, ls) ==> Hits(calls, name, ls) > 0
  {
    hide Hits, RequestLabels;
    hide RequestsFamily, SumFamily, CountFamily, DbFamily, LimitedFamily, RejectsFamily, StartedFamily, InfoFamily;
    NamesDiffer();
    if q :| name == RequestsFamily().name && q in s.requests && RequestLabels(q) == ls {
      assert HoldsHits(s.requests, q, calls, name, ls);
    } else if q :| name == CountFamily().name && q in s.durationCount && [Label("path", q)] == ls {
      assert HoldsHits(s.durationCount, q, calls, name, ls);
    } else if q :| name == DbFamily().name && q in s.dbErrors && [Label("db", q)] == ls {
      assert HoldsHits(s.dbErrors, q, calls, name, ls);
    }
  }

  lemma {:induction false} PrintsToo(b: Snapshot, calls: seq<Call>, a: Snapshot, some: seq<Call>, version: string,
                                     commit: string, name: string, ls: seq<Label>)
    requires CountsHits(b, calls) && CountsHits(a, some) && Counted(name) && Hits(some, name, ls) > 0
    requires Prints(b, version, commit, name, ls)
    ensures Prints(a, version, commit, name, ls)
  {
    hide Hits, RequestLabels;
    hide RequestsFamily, SumFamily, CountFamily, DbFamily, LimitedFamily, RejectsFamily, StartedFamily, InfoFamily;
    NamesDiffer();
    if q :| name == RequestsFamily().name && q in b.requests && RequestLabels(q) == ls {
      assert HoldsHits(a.requests, q, some, name, ls);
    } else if q :| name == CountFamily().name && q in b.durationCount && [Label("path", q)] == ls {
      assert HoldsHits(a.durationCount, q, some, name, ls);
    } else if q :| name == DbFamily().name && q in b.dbErrors && [Label("db", q)] == ls {
      assert HoldsHits(a.dbErrors, q, some, name, ls);
    }
  }

  /** A replayed run has the same series. */
  lemma {:induction false} ReplayedKeys(started: nat, calls: seq<Call>, name: string, ls: seq<Label>)
    ensures SameKeys(After(started, calls), After(started, Replayed(calls, name, ls)))
  {
    hide Hits, Replayed, Others, RequestLabels, After;
    hide RequestsFamily, SumFamily, CountFamily, DbFamily, LimitedFamily, RejectsFamily, StartedFamily, InfoFamily;
    var again := Replayed(calls, name, ls);
    var b, c := After(started, calls), After(started, again);
    AfterCounts(started, calls);
    AfterCounts(started, again);
    forall q: RequestKey ensures q in b.requests.Keys <==> q in c.requests.Keys {
      ReplayedHits(calls, name, ls, RequestsFamily().name, RequestLabels(q));
      assert HoldsHits(b.requests, q, calls, RequestsFamily().name, RequestLabels(q));
      assert HoldsHits(c.requests, q, again, RequestsFamily().name, RequestLabels(q));
    }
    forall q: string
      ensures q in b.durationCount.Keys <==> q in c.durationCount.Keys
      ensures q in b.dbErrors.Keys <==> q in c.dbErrors.Keys
    {
      ReplayedHits(calls, name, ls, CountFamily().name, [Label("path", q)]);
      ReplayedHits(calls, name, ls, DbFamily().name, [Label("db", q)]);
      assert HoldsHits(b.durationCount, q, calls, CountFamily().name, [Label("path", q)]);
      assert HoldsHits(c.durationCount, q, again, CountFamily().name, [Label("path", q)]);
      assert HoldsHits(b.dbErrors, q, calls, DbFamily().name, [Label("db", q)]);
      assert HoldsHits(c.dbErrors, q, again, DbFamily().name, [Label("db", q)]);
    }
  }

  // ---------------------------------------------------------------- the same series, in the same places

  ghost predicate SameSlots(xs: seq<Sample>, ys: seq<Sample>) {
    |xs| == |ys| && forall i :: 0 <= i < |xs| ==> xs[i].name == ys[i].name && xs[i].labels == ys[i].labels
  }

  lemma SlotsConcat(xs: seq<Sample>, ys: seq<Sample>, more: seq<Sample>, more': seq<Sample>)
    requires SameSlots(xs, ys) && SameSlots(more, more')
    ensures SameSlots(xs + more, ys + more')
  {
  }

  lemma SlotsStay(b: Snapshot, c: Snapshot, version: string, commit: string, o: Orders)
    requires SameKeys(b, c) && Enumerates(o, b)
    ensures Enumerates(o, c) && SameSlots(AllSamples(b, version, commit, o), AllSamples(c, version, commit, o))
  {
    hide RequestLabels, Print, PrintThousandths, SameSlots;
    hide RequestsFamily, SumFamily, CountFamily, DbFamily, LimitedFamily, RejectsFamily, StartedFamily, InfoFamily;
    assert forall k :: k in b.requests <==> k in c.requests.Keys;
    assert forall k :: k in b.durationSum <==> k in c.durationSum.Keys;
    assert forall k :: k in b.durationCount <==> k in c.durationCount.Keys;
    assert forall k :: k in b.dbErrors <==> k in c.dbErrors.Keys;
    var xs, ys := RequestSamples(b, o.requests), RequestSamples(c, o.requests);
    SlotsConcat(xs, ys, SumSamples(b, o.sums), SumSamples(c, o.sums));
    xs, ys := xs + SumSamples(b, o.sums), ys + SumSamples(c, o.sums);
    SlotsConcat(xs, ys, CountSamples(b, o.counts), CountSamples(c, o.counts));
    xs, ys := xs + CountSamples(b, o.counts), ys + CountSamples(c, o.counts);
    SlotsConcat(xs, ys, DbSamples(b, o.dbs), DbSamples(c, o.dbs));
    xs, ys := xs + DbSamples(b, o.dbs), ys + DbSamples(c, o.dbs);
    SlotsConcat(xs, ys, LimitedSamples(b), LimitedSamples(c));
    xs, ys := xs + LimitedSamples(b), ys + LimitedSamples(c);
    SlotsConcat(xs, ys, RejectSamples(b), RejectSamples(c));
    xs, ys := xs + RejectSamples(b), ys + RejectSamples(c);
    SlotsConcat(xs, ys, StartedSamples(b), StartedSamples(c));
    xs, ys := xs + StartedSamples(b), ys + StartedSamples(c);
    SlotsConcat(xs, ys, InfoSamples(version, commit), InfoSamples(version, commit));
  }

  lemma SameKeysLabels(b: Snapshot, c: Snapshot, version: string, commit: string, good: seq<Label> -> bool)
    requires SameKeys(b, c) && AllLabels(b, version, commit, good)
    ensures AllLabels(c, version, commit, good)
  {
    hide RequestLabels;
    assert forall k :: k in c.requests ==> k in b.requests.Keys;
    assert forall k :: k in c.durationSum ==> k in b.durationSum.Keys;
    assert forall k :: k in c.durationCount ==> k in b.durationCount.Keys;
    assert forall k :: k in c.dbErrors ==> k in b.dbErrors.Keys;
  }

  /** Two series of a reached registry that are read as the same: among those that count calls there are two as well,
      since latency sums have the labels of latency counts. */
  lemma CountedCollide(started: nat, calls: seq<Call>, version: string, commit: string, o: Orders)
    returns (name: string, ls: seq<Label>, ls': seq<Label>)
    requires var b := After(started, calls);
             Enumerates(o, b) && !DistinctlyRead(AllSamples(b, version, commit, o))
    ensures var b := After(started, calls);
            && Counted(name) && ls != ls'
            && Prints(b, version, commit, name, ls) && Prints(b, version, commit, name, ls')
            && ReadAs(Sample(name, ls, "")).Some? && ReadAs(Sample(name, ls, "")) == ReadAs(Sample(name, ls', ""))
  {
    hide AllSamples, Enumerates, FindLabels, Braced, After, RequestLabels;
    hide RequestsFamily, SumFamily, CountFamily, DbFamily, LimitedFamily, RejectsFamily, StartedFamily, InfoFamily;
    NamesDiffer();
    var b := After(started, calls);
    var xs := AllSamples(b, version, commit, o);
    var i, j :| 0 <= i < |xs| && 0 <= j < |xs| && ReadAs(xs[i]).Some? && ReadAs(xs[i]) == ReadAs(xs[j])
                && xs[i].labels != xs[j].labels;
    name, ls, ls' := xs[i].name, xs[i].labels, xs[j].labels;
    SampleIsPrinted(b, version, commit, o, xs[i]);
    SampleIsPrinted(b, version, commit, o, xs[j]);
    AfterCounts(started, calls);
    if name == SumFamily().name {
      name := CountFamily().name;
      assert forall q :: q in b.durationSum ==> q in b.durationSum.Keys && q in b.durationCount;
    }
  }

  /** When two series of a reached registry are read as the same, there are two moments in a run of calls that ends with
      these series between which a series falls, whatever the order of the earlier rendering. */
  lemma Falls(started: nat, calls: seq<Call>, version: string, commit: string, o: Orders)
    returns (again: seq<Call>, n: nat, k: Series)
    requires var b := After(started, calls);
             && Enumerates(o, b) && AllLabels(b, version, commit, OneLine)
             && !DistinctlyRead(AllSamples(b, version, commit, o))
    ensures n <= |again| && Counted(k.name)
    ensures var b, c := After(started, calls), After(started, again);
            SameKeys(b, c) && Enumerates(o, c) && k in Scraped(c, version, commit, o)
            && AtMost(Scraped(c, version, commit, o)[k], |calls|)
    ensures var a := After(started, again[..n]);
            forall oa :: Enumerates(oa, a) ==>
                           k in Scraped(a, version, commit, oa) && Above(Scraped(a, version, commit, oa)[k], |calls|)
  {
    hide AllSamples, AllLabels, Enumerates, Scraped, ParseFloat, WellPrinted, Braceless, Expected, FindLabels, Braced;
    hide Prints, SameKeys, Grows, LabelMap, SampleLines, ParseLines, After, Hits, Others, Only, Counted, CountsHits;
    hide DistinctlyRead, AtMost, Above;
    var name, l1, l2 := CountedCollide(started, calls, version, commit, o);
    var b := After(started, calls);
    k := ReadAs(Sample(name, l1, "")).value;
    var last := LastSlot(b, version, commit, o, name, l1);
    var ls := AllSamples(b, version, commit, o)[last].labels;
    var other := if l1 == ls then l2 else l1;
    again, n := Replayed(calls, name, ls), |Others(calls, name, ls)|;
    assert again[..n] == Others(calls, name, ls);
    ReplayedKeys(started, calls, name, ls);
    LaterNumber(started, calls, version, commit, o, k, last);
    var a := After(started, again[..n]);
    AfterGrows(started, again, n);
    SameKeysLabels(b, After(started, again), version, commit, OneLine);
    FewerLabels(a, After(started, again), version, commit, OneLine);
    forall oa | Enumerates(oa, a)
      ensures k in Scraped(a, version, commit, oa) && Above(Scraped(a, version, commit, oa)[k], |calls|)
    {
      EarlierNumber(started, calls, version, commit, oa, name, ls, other, k);
    }
  }

  predicate AtMost(x: Number, n: nat) {
    x.Real? && x.r <= n as real
  }

  predicate Above(x: Number, n: nat) {
    x.Real? && x.r > n as real
  }

  /** The last sample that is read as the series. */
  lemma LastSlot(b: Snapshot, version: string, commit: string, o: Orders, name: string, ls: seq<Label>)
    returns (last: nat)
    requires Enumerates(o, b) && AllLabels(b, version, commit, OneLine) && Prints(b, version, commit, name, ls)
    requires ReadAs(Sample(name, ls, "")).Some?
    ensures var xs, k := AllSamples(b, version, commit, o), ReadAs(Sample(name, ls, ""));
            last < |xs| && xs[last].name == name && ReadAs(xs[last]) == k
            && forall j :: last < j < |xs| ==> ReadAs(xs[j]) != k
  {
    hide AllSamples, AllLabels, Enumerates, Scraped, ParseFloat, WellPrinted, Braceless, Expected, FindLabels, Braced;
    hide Prints, SampleLines, ParseLines;
    var xs := AllSamples(b, version, commit, o);
    var x := PrintedSample(b, version, commit, o, name, ls);
    var i :| 0 <= i < |xs| && xs[i] == x;
    ScrapedSamples(b, version, commit, o);
    EachIsRead(xs, i);
    last := LastReading(xs, ReadAs(x).value);
  }

  lemma {:induction false} LaterNumber(started: nat, calls: seq<Call>, version: string, commit: string, o: Orders,
                                       k: Series, last: nat)
    requires Enumerates(o, After(started, calls)) && AllLabels(After(started, calls), version, commit, OneLine)
    requires var xs := AllSamples(After(started, calls), version, commit, o);
             last < |xs| && ReadAs(xs[last]) == Some(k) && forall j :: last < j < |xs| ==> ReadAs(xs[j]) != Some(k)
    requires Counted(k.name)
    ensures var ls := AllSamples(After(started, calls), version, commit, o)[last].labels;
            var c := After(started, Replayed(calls, k.name, ls));
            Enumerates(o, c) && k in Scraped(c, version, commit, o)
            && AtMost(Scraped(c, version, commit, o)[k], |calls|)
  {
    hide AllSamples, AllLabels, Enumerates, Scraped, ParseFloat, WellPrinted, Braceless, Expected, FindLabels, Braced;
    hide SameKeys, LabelMap, SampleLines, ParseLines, After, Hits, Replayed, Counted, CountsHits;
    var b, xs := After(started, calls), AllSamples(After(started, calls), version, commit, o);
    var ls := xs[last].labels;
    var again := Replayed(calls, k.name, ls);
    var c := After(started, again);
    ReplayedKeys(started, calls, k.name, ls);
    SlotsStay(b, c, version, commit, o);
    SameKeysLabels(b, c, version, commit, OneLine);
    var ys := AllSamples(c, version, commit, o);
    ScrapedSamples(c, version, commit, o);
    assert ReadAs(ys[last]) == Some(k);
    EachIsRead(ys, last);
    var i := LastReading(ys, k);
    assert ReadAs(xs[i]) == Some(k);
    assert i == last;
    AfterCounts(started, again);
    CountedText(c, version, commit, o, again, ys[last]);
    ReplayedHits(calls, k.name, ls, k.name, ls);
  }

  lemma {:induction false} EarlierNumber(started: nat, calls: seq<Call>, version: string, commit: string, o: Orders,
                                         name: string, ls: seq<Label>, other: seq<Label>, k: Series)
    requires var a := After(started, Others(calls, name, ls));
             Enumerates(o, a) && AllLabels(a, version, commit, OneLine)
    requires Counted(name) && other != ls && Prints(After(started, calls), version, commit, name, other)
    requires ReadAs(Sample(name, other, "")) == Some(k)
    ensures var a := After(started, Others(calls, name, ls));
            k in Scraped(a, version, commit, o) && Above(Scraped(a, version, commit, o)[k], |calls|)
  {
    hide AllSamples, AllLabels, Enumerates, Scraped, ParseFloat, WellPrinted, Braceless, Expected, FindLabels, Braced;
    hide LabelMap, Prints, After, Hits, Others, Counted, CountsHits;
    var some := Others(calls, name, ls);
    var a := After(started, some);
    AfterCounts(started, calls);
    AfterCounts(started, some);
    PrintsWhatIsHit(After(started, calls), version, commit, calls, name, other);
    ReplayedHits(calls, name, ls, name, other);
    PrintsToo(After(started, calls), calls, a, some, version, commit, name, other);
    var x := PrintedSample(a, version, commit, o, name, other);
    ScrapedAll(a, version, commit, o, x);
    var z := ScrapedFrom(a, version, commit, o, k);
    SampleIsPrinted(a, version, commit, o, z);
    PrintsWhatIsHit(a, version, commit, some, name, z.labels);
    ReplayedHits(calls, name, ls, name, z.labels);
    CountedText(a, version, commit, o, some, z);
  }

  function Within<K(!new)>(order: seq<K>, m: map<K, nat>): (kept: seq<K>)
    ensures forall k :: k in kept <==> k in order && k in m
  {
    if order == [] then [] else (if order[0] in m then [order[0]] else []) + Within(order[1..], m)
  }

  /** The order of an earlier rendering: that of the later one without the keys which were not there yet. */
  function Earlier(o: Orders, a: Snapshot): Orders {
    Orders(Within(o.requests, a.requests), Within(o.sums, a.durationSum), Within(o.counts, a.durationCount),
           Within(o.dbs, a.dbErrors))
  }

  lemma EarlierEnumerates(o: Orders, a: Snapshot, b: Snapshot)
    requires Grows(a, b) && Enumerates(o, b)
    ensures Enumerates(Earlier(o, a), a)
  {
  }

  /** Between any two renderings of one process, at whatever moments of whatever calls that leave these series, no
      number falls, if and only if no two of the series are read as the same. */
  lemma {:induction false} NeverFallsIff(started: nat, calls: seq<Call>, version: string, commit: string, o: Orders)
    requires Enumerates(o, After(started, calls)) && AllLabels(After(started, calls), version, commit, OneLine)
    ensures (forall again: seq<Call>, n: nat, oa ::
               TwoMoments(started, calls, o, again, n, oa) ==>
                 NeverFalls(Scraped(After(started, again[..n]), version, commit, oa),
                            Scraped(After(started, again), version, commit, o))) <==>
              DistinctlyRead(AllSamples(After(started, calls), version, commit, o))
  {
    hide AllSamples, AllLabels, Enumerates, Scraped, SameKeys, Grows, After;
    var b := After(started, calls);
    if DistinctlyRead(AllSamples(b, version, commit, o)) {
      forall again: seq<Call>, n: nat, oa | TwoMoments(started, calls, o, again, n, oa)
        ensures NeverFalls(Scraped(After(started, again[..n]), version, commit, oa),
                           Scraped(After(started, again), version, commit, o))
      {
        StaysDistinct(started, calls, again, version, commit, o);
        AfterGrows(started, again, n);
        DistinctNeverFalls(After(started, again[..n]), oa, After(started, again), o, version, commit);
      }
    } else {
      var again, n, k := Falls(started, calls, version, commit, o);
      var oa := Earlier(o, After(started, again[..n]));
      AfterGrows(started, again, n);
      EarlierEnumerates(o, After(started, again[..n]), After(started, again));
      assert TwoMoments(started, calls, o, again, n, oa);
    }
  }

  /** A run of calls that ends with the same series, and a moment in it. */
  ghost predicate TwoMoments(started: nat, calls: seq<Call>, o: Orders, again: seq<Call>, n: nat, oa: Orders) {
    && n <= |again| && SameKeys(After(started, calls), After(started, again))
    && Enumerates(oa, After(started, again[..n])) && Enumerates(o, After(started, again))
  }

  lemma {:induction false} StaysDistinct(started: nat, calls: seq<Call>, again: seq<Call>, version: string,
                                         commit: string, o: Orders)
    requires Enumerates(o, After(started, calls)) && SameKeys(After(started, calls), After(started, again))
    requires AllLabels(After(started, calls), version, commit, OneLine)
    requires DistinctlyRead(AllSamples(After(started, calls), version, commit, o))
    ensures Enumerates(o, After(started, again)) && AllLabels(After(started, again), version, commit, OneLine)
    ensures DistinctlyRead(AllSamples(After(started, again), version, commit, o))
  {
    hide AllSamples, AllLabels, Enumerates, SameKeys, After, FindLabels, Braced;
    SlotsStay(After(started, calls), After(started, again), version, commit, o);
    SameKeysLabels(After(started, calls), After(started, again), version, commit, OneLine);
  }

  // ---------------------------------------------------------------- from the calls to the collector's table

  /** The table holds this value for a series that some call touched, and no value for any other. */
  predicate Holds(parsed: map<Series, Number>, name: string, labels: map<string, string>, touched: bool, v: Number) {
    var k := Collector.Series(name, labels);
    if touched then k in parsed && parsed[k] == v else k !in parsed
  }

  lemma RequestExpected(s: Snapshot, version: string, commit: string, q: RequestKey)
    ensures Expected(s, version, commit, Collector.Series("http_requests_total",
                                                          map["method" := q.0, "path" := q.1, "status" := q.2]))
         == if q in s.requests then Some(Int(s.requests[q])) else None
  {
    var k := Collector.Series("http_requests_total", map["method" := q.0, "path" := q.1, "status" := q.2]);
    LabelNamesDiffer();
    assert k.labels.Keys == {"method", "path", "status"};
  }

  lemma {:induction false} RequestsCounted(started: nat, calls: seq<Call>, verb: string, path: string, status: nat)
    ensures var n := Tally(calls, (c: Call) => c.Observe? && c.verb == verb && c.path == path && c.status == status);
            var s, q := After(started, calls), (verb, path, Print(status));
            if n > 0 then q in s.requests && s.requests[q] == n else q !in s.requests
  {
    hide Print, After, Hits, Tally;
    var s, q := After(started, calls), (verb, path, Print(status));
    AfterCounts(started, calls);
    RequestHits(calls, verb, path, status);
    SameTally(calls, (c: Call) => IsRequest(c, verb, path, status),
              (c: Call) => c.Observe? && c.verb == verb && c.path == path && c.status == status);
    assert HoldsHits(s.requests, q, calls, RequestsFamily().name, RequestLabels(q));
  }

  /** What a scrape says about the requests of one kind. */
  lemma {:induction false} RequestsAreTold(started: nat, calls: seq<Call>, version: string, commit: string, o: Orders,
                                           verb: string, path: string, status: nat)
    requires Enumerates(o, After(started, calls)) && AllLabels(After(started, calls), version, commit, Clean)
    ensures var n := Tally(calls, (c: Call) => c.Observe? && c.verb == verb && c.path == path && c.status == status);
            Holds(Scraped(After(started, calls), version, commit, o), "http_requests_total",
                  map["method" := verb, "path" := path, "status" := Print(status)], n > 0, Int(n))
  {
    hide AllLabels, Enumerates, Scraped, Print, After, Tally, Expected;
    RegistryRoundTripIff(After(started, calls), version, commit, o);
    RequestsCounted(started, calls, verb, path, status);
    RequestExpected(After(started, calls), version, commit, (verb, path, Print(status)));
  }

  /** What it says about a path: how many requests, and how long they took together. */
  lemma {:induction false} LatenciesAreTold(started: nat, calls: seq<Call>, version: string, commit: string, o: Orders,
                                            path: string)
    requires Enumerates(o, After(started, calls)) && AllLabels(After(started, calls), version, commit, Clean)
    ensures var parsed := Scraped(After(started, calls), version, commit, o);
            var n := Tally(calls, (c: Call) => c.Observe? && c.path == path);
            && Holds(parsed, "http_request_duration_ms_count", map["path" := path], n > 0, Int(n))
            && Holds(parsed, "http_request_duration_ms_sum", map["path" := path], n > 0,
                     Real(Durations(calls, path) as real / 1000.0))
  {
    hide AllLabels, Enumerates, Scraped, After, Hits, Tally, Durations;
    var s := After(started, calls);
    RegistryRoundTripIff(s, version, commit, o);
    AfterCounts(started, calls);
    AfterSums(started, calls);
    PathHits(calls, path);
    assert HoldsHits(s.durationCount, path, calls, CountFamily().name, [Label("path", path)]);
    assert path in s.durationSum.Keys <==> path in s.durationCount.Keys;
    assert Get(s.durationSum, path) == Durations(calls, path);
    NamesDiffer();
    var count := Collector.Series("http_request_duration_ms_count", map["path" := path]);
    var sum := Collector.Series("http_request_duration_ms_sum", map["path" := path]);
    assert count.labels.Keys == {"path"} && sum.labels.Keys == {"path"};
    assert count.name == CountFamily().name && sum.name == SumFamily().name;
    assert Expected(s, version, commit, count)
        == if path in s.durationCount then Some(Int(s.durationCount[path])) else None;
  }

  /** About database errors. */
  lemma {:induction false} DbErrorsAreTold(started: nat, calls: seq<Call>, version: string, commit: string, o: Orders,
                                           db: string)
    requires Enumerates(o, After(started, calls)) && AllLabels(After(started, calls), version, commit, Clean)
    ensures var n := Tally(calls, (c: Call) => c.DbFails? && c.db == db);
            Holds(Scraped(After(started, calls), version, commit, o), "db_errors_total", map["db" := db], n > 0, Int(n))
  {
    hide AllLabels, Enumerates, Scraped, After, Hits, Tally;
    var s := After(started, calls);
    RegistryRoundTripIff(s, version, commit, o);
    AfterCounts(started, calls);
    PathHits(calls, db);
    assert HoldsHits(s.dbErrors, db, calls, DbFamily().name, [Label("db", db)]);
    var k := Collector.Series("db_errors_total", map["db" := db]);
    assert k.labels.Keys == {"db"} && k.name == DbFamily().name;
    hide RequestsFamily, SumFamily, CountFamily, DbFamily, LimitedFamily, RejectsFamily, StartedFamily, InfoFamily;
    NamesDiffer();
    assert Expected(s, version, commit, k) == if db in s.dbErrors then Some(Int(s.dbErrors[db])) else None;
  }

  lemma PlainNames()
    ensures LimitedFamily().name == "rate_limited_requests_total"
    ensures RejectsFamily().name == "webhook_signature_failures_total"
    ensures StartedFamily().name == "process_start_time_seconds" && InfoFamily().name == "app_info"
  {
  }

  /** And about rejections and the process itself. */
  lemma {:induction false} ProcessIsTold(started: nat, calls: seq<Call>, version: string, commit: string, o: Orders)
    requires Enumerates(o, After(started, calls)) && AllLabels(After(started, calls), version, commit, Clean)
    ensures var parsed := Scraped(After(started, calls), version, commit, o);
            && Holds(parsed, "rate_limited_requests_total", map[], true, Int(Tally(calls, (c: Call) => c.Limits?)))
            && Holds(parsed, "webhook_signature_failures_total", map[], true,
                     Int(Tally(calls, (c: Call) => c.Rejects?)))
            && Holds(parsed, "process_start_time_seconds", map[], true, Int(started))
            && Holds(parsed, "app_info", map["version" := version, "commit" := commit], true, Int(1))
  {
    hide AllLabels, Enumerates, Scraped, After, Tally;
    hide RequestsFamily, SumFamily, CountFamily, DbFamily, LimitedFamily, RejectsFamily, StartedFamily, InfoFamily;
    var s := After(started, calls);
    RegistryRoundTripIff(s, version, commit, o);
    AfterSums(started, calls);
    NamesDiffer();
    PlainNames();
  }

  // ---------------------------------------------------------------- what that means for the collector

  ghost predicate InMilli(v: Number) {
    exists n: int :: v == Milli(n)
  }

  lemma {:induction false} LookupFinds(items: Collector.Items, i: nat)
    requires i < |items|
    ensures Collector.Lookup(items, items[i].0).Some?
    decreases |items|
  {
    if i == 0 {
    } else {
      LookupFinds(items[1..], i - 1);
    }
  }

  lemma {:induction false} ItemsFor(parsed: map<Series, Number>) returns (items: Collector.Items)
    requires forall k :: k in parsed ==> InMilli(parsed[k])
    ensures Represents(items, parsed)
    decreases |parsed|
  {
    if parsed == map[] {
      items := [];
    } else {
      var k :| k in parsed;
      var n: int :| parsed[k] == Milli(n);
      var rest := parsed - {k};
      assert forall q :: q in rest ==> rest[q] == parsed[q];
      var more := ItemsFor(rest);
      items := [(k, n)] + more;
      assert items[1..] == more;
      forall i | 0 <= i < |more| ensures more[i].0 != k {
        LookupFinds(more, i);
        assert Shown(more, rest, k);
      }
      forall q ensures Shown(items, parsed, q) {
        assert Shown(more, rest, q);
      }
    }
  }

  lemma ExpectedInMilli(s: Snapshot, version: string, commit: string, k: Series)
    requires Expected(s, version, commit, k).Some?
    ensures InMilli(Expected(s, version, commit, k).value)
  {
    hide RequestsFamily, SumFamily, CountFamily, DbFamily, LimitedFamily, RejectsFamily, StartedFamily, InfoFamily;
    NamesDiffer();
    var v := Expected(s, version, commit, k).value;
    if k.name == SumFamily().name {
      assert v == Milli(s.durationSum[k.labels["path"]]);
    } else {
      assert v == Milli(1000 * v.r.Floor);
    }
  }

  lemma ScrapedItems(s: Snapshot, version: string, commit: string, o: Orders) returns (items: Collector.Items)
    requires Enumerates(o, s) && AllLabels(s, version, commit, OneLine)
    ensures Represents(items, Scraped(s, version, commit, o))
  {
    hide AllSamples, AllLabels, Enumerates, Scraped, ParseFloat, WellPrinted, Braceless, Expected, ReadAs, SeriesOf;
    hide InMilli, Represents;
    forall k | k in Scraped(s, version, commit, o) ensures InMilli(Scraped(s, version, commit, o)[k]) {
      var x := ScrapedFrom(s, version, commit, o, k);
      ExpectedInMilli(s, version, commit, SeriesOf(x));
    }
    items := ItemsFor(Scraped(s, version, commit, o));
  }

  /** The collector can rely on one life, for any two scrapes of one process at such moments, if and only if no two of
      the series are read as the same. */
  lemma {:induction false} OneLifeIff(started: nat, calls: seq<Call>, version: string, commit: string, o: Orders)
    requires Enumerates(o, After(started, calls)) && AllLabels(After(started, calls), version, commit, OneLine)
    ensures (forall again: seq<Call>, n: nat, oa, before, after ::
               && TwoMoments(started, calls, o, again, n, oa)
               && Represents(before, Scraped(After(started, again[..n]), version, commit, oa))
               && Represents(after, Scraped(After(started, again), version, commit, o)) ==>
                 Collector.SameLife(Collector.Up(0, before), Collector.Up(0, after))) <==>
              DistinctlyRead(AllSamples(After(started, calls), version, commit, o))
  {
    hide AllSamples, AllLabels, Enumerates, Scraped, SameKeys, Grows, Represents, After, Counted, Collector.SameLife;
    hide AtMost, Above;
    if DistinctlyRead(AllSamples(After(started, calls), version, commit, o)) {
      forall again: seq<Call>, n: nat, oa, before, after |
        && TwoMoments(started, calls, o, again, n, oa)
        && Represents(before, Scraped(After(started, again[..n]), version, commit, oa))
        && Represents(after, Scraped(After(started, again), version, commit, o))
        ensures Collector.SameLife(Collector.Up(0, before), Collector.Up(0, after))
      {
        StaysDistinct(started, calls, again, version, commit, o);
        AfterGrows(started, again, n);
        RendersAreOneLife(After(started, again[..n]), oa, After(started, again), o, version, commit, before, after, 0);
      }
    } else {
      var again, n, k := Falls(started, calls, version, commit, o);
      var a, c := After(started, again[..n]), After(started, again);
      var oa := Earlier(o, a);
      AfterGrows(started, again, n);
      EarlierEnumerates(o, a, c);
      SameKeysLabels(After(started, calls), c, version, commit, OneLine);
      FewerLabels(a, c, version, commit, OneLine);
      var before := ScrapedItems(a, version, commit, oa);
      var after := ScrapedItems(c, version, commit, o);
      FallIsSeen(before, Scraped(a, version, commit, oa), after, Scraped(c, version, commit, o), k, |calls|);
      assert TwoMoments(started, calls, o, again, n, oa);
    }
  }

  lemma FallIsSeen(before: Collector.Items, was: map<Series, Number>, after: Collector.Items, now: map<Series, Number>,
                   k: Series, n: nat)
    requires Represents(before, was) && Represents(after, now) && Counted(k.name)
    requires k in was && Above(was[k], n) && k in now && AtMost(now[k], n)
    ensures !Collector.SameLife(Collector.Up(0, before), Collector.Up(0, after))
  {
    assert Shown(before, was, k) && Shown(after, now, k);
    assert Collector.IsCounter(k);
    assert Collector.Lookup(before, k).value > Collector.Lookup(after, k).value;
  }

  /** Why quotes are left out of it: the series of a label value that ends in a quote is stored over the series of the
      value without it, so that a counter reads `n` before the quoted value first occurs and `m` from then on. */
  lemma {:induction false} QuotedSeriesOverwrites(name: string, key: string, x: string, n: nat, m: nat)
    requires GoodName(name) && GoodName(key) && GoodValue(x)
    ensures var k := Collector.Series(name, map[key := x]);
            var plain := PrintSample(Sample(name, [Label(key, x)], Print(n)));
            var quoted := PrintSample(Sample(name, [Label(key, x + "\"")], Print(m)));
            ParseLines([plain]) == map[k := Int(n)] && ParseLines([plain, quoted]) == map[k := Int(m)]
  {
    hide ParseLine, PrintSample, GoodName, GoodValue, ParseFloat, Print, GoodNumber;
    var plain := Sample(name, [Label(key, x)], Print(n));
    var quoted := PrintSample(Sample(name, [Label(key, x + "\"")], Print(m)));
    NumbersAreGood(n);
    NumbersAreGood(m);
    SampleRoundTrip(plain, Int(n));
    var k := Collector.Series(name, map[key := x]);
    assert LabelMap(plain.labels) == map[key := x] + LabelMap([]) == map[key := x];
    QuoteMisreadsSeries(name, key, x, Print(m), Int(m));
    var lines := [PrintSample(plain), quoted];
    assert lines[..1] == [PrintSample(plain)] && [PrintSample(plain)][..0] == [];
    assert ParseLines([PrintSample(plain)]) == map[k := Int(n)];
    assert ParseLines(lines) == map[k := Int(n)][k := Int(m)] == map[k := Int(m)];
  }
}
