/** What a registry holds after any calls: for every series, how many of the calls touched it. */
module RegistryRuns {
  import opened Text
  import opened Numbers
  import opened Exposition
  import opened Telemetry

  /** The families that count calls. */
  predicate Counted(name: string) {
    name in {RequestsFamily().name, CountFamily().name, DbFamily().name}
  }

  predicate Touches(call: Call, name: string, ls: seq<Label>) {
    match call
    case Observe(verb, path, status, _) =>
      || (name == RequestsFamily().name && ls == RequestLabels((verb, path, Print(status))))
      || (name == CountFamily().name && ls == [Label("path", path)])
    case DbFails(db) => name == DbFamily().name && ls == [Label("db", db)]
    case _ => false
  }

  function Hits(calls: seq<Call>, name: string, ls: seq<Label>): nat {
    if calls == [] then 0 else
      Hits(calls[..|calls| - 1], name, ls) + if Touches(calls[|calls| - 1], name, ls) then 1 else 0
  }

  ghost predicate CountsHits(s: Snapshot, calls: seq<Call>) {
    && (forall q: RequestKey :: HoldsHits(s.requests, q, calls, RequestsFamily().name, RequestLabels(q)))
    && (forall q: string :: HoldsHits(s.durationCount, q, calls, CountFamily().name, [Label("path", q)]))
    && (forall q: string :: HoldsHits(s.dbErrors, q, calls, DbFamily().name, [Label("db", q)]))
    && s.durationSum.Keys == s.durationCount.Keys
  }

  ghost predicate HoldsHits<K>(m: map<K, nat>, q: K, calls: seq<Call>, name: string, ls: seq<Label>) {
    Get(m, q) == Hits(calls, name, ls) && (q in m <==> Hits(calls, name, ls) > 0)
  }

  lemma {:induction false} HitsSnoc(calls: seq<Call>, call: Call, name: string, ls: seq<Label>)
    ensures Hits(calls + [call], name, ls) == Hits(calls, name, ls) + if Touches(call, name, ls) then 1 else 0
  {
    assert (calls + [call])[..|calls|] == calls;
  }

  lemma SameRequest(q: RequestKey, key: RequestKey)
    ensures RequestLabels(q) == RequestLabels(key) <==> q == key
  {
    var a, b := RequestLabels(q), RequestLabels(key);
    if a == b {
      assert a[0].value == b[0].value && a[1].value == b[1].value && a[2].value == b[2].value;
    }
  }

  lemma StepCounts(s: Snapshot, calls: seq<Call>, call: Call)
    requires CountsHits(s, calls)
    ensures CountsHits(Step(s, call), calls + [call])
  {
    hide Hits, RequestLabels;
    hide RequestsFamily, SumFamily, CountFamily, DbFamily, LimitedFamily, RejectsFamily, StartedFamily, InfoFamily;
    NamesDiffer();
    var s' := Step(s, call);
    forall q: RequestKey
      ensures HoldsHits(s'.requests, q, calls + [call], RequestsFamily().name, RequestLabels(q))
    {
      HitsSnoc(calls, call, RequestsFamily().name, RequestLabels(q));
      assert HoldsHits(s.requests, q, calls, RequestsFamily().name, RequestLabels(q));
      if call.Observe? {
        SameRequest(q, (call.verb, call.path, Print(call.status)));
      }
    }
    forall q: string
      ensures HoldsHits(s'.durationCount, q, calls + [call], CountFamily().name, [Label("path", q)])
      ensures HoldsHits(s'.dbErrors, q, calls + [call], DbFamily().name, [Label("db", q)])
    {
      HitsSnoc(calls, call, CountFamily().name, [Label("path", q)]);
      HitsSnoc(calls, call, DbFamily().name, [Label("db", q)]);
      assert HoldsHits(s.durationCount, q, calls, CountFamily().name, [Label("path", q)]);
      assert HoldsHits(s.dbErrors, q, calls, DbFamily().name, [Label("db", q)]);
      assert [Label("path", q)][0].value == q && [Label("db", q)][0].value == q;
    }
  }

  /** A registry holds a series exactly when some call touched it, and then the number of calls that did. */
  lemma {:induction false} AfterCounts(started: nat, calls: seq<Call>)
    ensures CountsHits(After(started, calls), calls)
    decreases |calls|
  {
    if calls == [] {
    } else {
      hide CountsHits, Step;
      AfterCounts(started, calls[..|calls| - 1]);
      StepCounts(After(started, calls[..|calls| - 1]), calls[..|calls| - 1], calls[|calls| - 1]);
      assert calls == calls[..|calls| - 1] + [calls[|calls| - 1]];
    }
  }

  // ---------------------------------------------------------------- in terms of the calls alone

  function Tally(calls: seq<Call>, wanted: Call -> bool): nat {
    if calls == [] then 0 else Tally(calls[..|calls| - 1], wanted) + if wanted(calls[|calls| - 1]) then 1 else 0
  }

  lemma {:induction false} SameTally(calls: seq<Call>, p: Call -> bool, q: Call -> bool)
    requires forall c :: p(c) <==> q(c)
    ensures Tally(calls, p) == Tally(calls, q)
    decreases |calls|
  {
    if calls == [] {
    } else {
      SameTally(calls[..|calls| - 1], p, q);
    }
  }

  /** How long all requests of a path took together. */
  function Durations(calls: seq<Call>, path: string): nat {
    if calls == [] then 0 else
      var call := calls[|calls| - 1];
      Durations(calls[..|calls| - 1], path) + if call.Observe? && call.path == path then call.duration else 0
  }

  /** A latency sum is the sum of the durations, and the plain counters are the numbers of their calls. */
  lemma {:induction false} AfterSums(started: nat, calls: seq<Call>)
    ensures var s := After(started, calls);
            && (forall path: string :: Get(s.durationSum, path) == Durations(calls, path))
            && s.rateLimited == Tally(calls, (c: Call) => c.Limits?)
            && s.webhookRejects == Tally(calls, (c: Call) => c.Rejects?)
            && s.started == started
    decreases |calls|
  {
    if calls == [] {
    } else {
      AfterSums(started, calls[..|calls| - 1]);
    }
  }

  predicate IsRequest(c: Call, verb: string, path: string, status: nat) {
    c.Observe? && c.verb == verb && c.path == path && c.status == status
  }

  lemma {:induction false} PrintTellsApart(a: nat, b: nat)
    ensures Print(a) == Print(b) <==> a == b
  {
    hide Print, ParseFloat;
    PrintedParses(a);
    PrintedParses(b);
  }

  lemma {:induction false} RequestHits(calls: seq<Call>, verb: string, path: string, status: nat)
    ensures Hits(calls, RequestsFamily().name, RequestLabels((verb, path, Print(status))))
         == Tally(calls, (c: Call) => IsRequest(c, verb, path, status))
    decreases |calls|
  {
    if calls == [] {
    } else {
      hide RequestLabels, Print;
      hide RequestsFamily, SumFamily, CountFamily, DbFamily, LimitedFamily, RejectsFamily, StartedFamily, InfoFamily;
      NamesDiffer();
      var call := calls[|calls| - 1];
      RequestHits(calls[..|calls| - 1], verb, path, status);
      if call.Observe? {
        SameRequest((verb, path, Print(status)), (call.verb, call.path, Print(call.status)));
        PrintTellsApart(status, call.status);
      }
    }
  }

  lemma {:induction false} PathHits(calls: seq<Call>, path: string)
    ensures Hits(calls, CountFamily().name, [Label("path", path)])
         == Tally(calls, (c: Call) => c.Observe? && c.path == path)
    ensures Hits(calls, DbFamily().name, [Label("db", path)])
         == Tally(calls, (c: Call) => c.DbFails? && c.db == path)
    decreases |calls|
  {
    if calls == [] {
    } else {
      hide RequestLabels, Print;
      hide RequestsFamily, SumFamily, CountFamily, DbFamily, LimitedFamily, RejectsFamily, StartedFamily, InfoFamily;
      NamesDiffer();
      PathHits(calls[..|calls| - 1], path);
      assert [Label("path", path)][0].value == path && [Label("db", path)][0].value == path;
      var call := calls[|calls| - 1];
      assert call.Observe? ==> ([Label("path", call.path)] == [Label("path", path)] <==> call.path == path);
      assert call.DbFails? ==> ([Label("db", call.db)] == [Label("db", path)] <==> call.db == path);
    }
  }

  // ---------------------------------------------------------------- runs made from a run

  lemma {:induction false} HitsConcat(a: seq<Call>, b: seq<Call>, name: string, ls: seq<Label>)
    ensures Hits(a + b, name, ls) == Hits(a, name, ls) + Hits(b, name, ls)
    decreases |b|
  {
    hide Touches;
    if b == [] {
      assert a + b == a;
    } else {
      HitsConcat(a, b[..|b| - 1], name, ls);
      assert (a + b)[..|a + b| - 1] == a + b[..|b| - 1];
    }
  }

  lemma {:induction false} HitsBounded(calls: seq<Call>, name: string, ls: seq<Label>)
    ensures Hits(calls, name, ls) <= |calls|
    decreases |calls|
  {
    hide Touches;
    if calls == [] {
    } else {
      HitsBounded(calls[..|calls| - 1], name, ls);
    }
  }

  /** The calls that touch a series, or the others. */
  function Only(calls: seq<Call>, name: string, ls: seq<Label>, touching: bool): seq<Call> {
    if calls == [] then [] else
      Only(calls[..|calls| - 1], name, ls, touching)
      + if Touches(calls[|calls| - 1], name, ls) == touching then [calls[|calls| - 1]] else []
  }

  lemma {:induction false} OnlyHits(calls: seq<Call>, name: string, ls: seq<Label>, name': string, ls': seq<Label>)
    ensures Hits(Only(calls, name, ls, true), name', ls') + Hits(Only(calls, name, ls, false), name', ls')
         == Hits(calls, name', ls')
    ensures Hits(Only(calls, name, ls, false), name, ls) == 0
    decreases |calls|
  {
    if calls == [] {
    } else {
      hide Touches;
      var init, call := calls[..|calls| - 1], calls[|calls| - 1];
      OnlyHits(init, name, ls, name', ls');
      var yes, no := Only(init, name, ls, true), Only(init, name, ls, false);
      HitsSnoc(yes, call, name', ls');
      HitsSnoc(no, call, name', ls');
      HitsSnoc(no, call, name, ls);
      assert yes + [] == yes && no + [] == no;
    }
  }

  /** A call touches at most one series of a family. */
  lemma OneTouch(call: Call, name: string, ls: seq<Label>, ls': seq<Label>)
    requires Touches(call, name, ls) && Touches(call, name, ls')
    ensures ls == ls'
  {
    hide RequestLabels;
    hide RequestsFamily, SumFamily, CountFamily, DbFamily, LimitedFamily, RejectsFamily, StartedFamily, InfoFamily;
    NamesDiffer();
  }

  lemma {:induction false} OthersStay(calls: seq<Call>, name: string, ls: seq<Label>, ls': seq<Label>)
    requires ls' != ls
    ensures Hits(Only(calls, name, ls, true), name, ls') == 0
    decreases |calls|
  {
    hide Touches;
    if calls == [] {
    } else {
      var init, call := calls[..|calls| - 1], calls[|calls| - 1];
      OthersStay(init, name, ls, ls');
      if Touches(call, name, ls) && Touches(call, name, ls') {
        OneTouch(call, name, ls, ls');
      }
      HitsSnoc(Only(init, name, ls, true), call, name, ls');
      assert Only(init, name, ls, true) + [] == Only(init, name, ls, true);
    }
  }

  function Times(calls: seq<Call>, n: nat): seq<Call> {
    if n == 0 then [] else Times(calls, n - 1) + calls
  }

  lemma {:induction false} TimesHits(calls: seq<Call>, n: nat, name: string, ls: seq<Label>)
    ensures Hits(Times(calls, n), name, ls) == n * Hits(calls, name, ls)
    decreases n
  {
    hide Hits;
    if n == 0 {
      assert Hits([], name, ls) == 0 by { NoHits(name, ls); }
    } else {
      TimesHits(calls, n - 1, name, ls);
      HitsConcat(Times(calls, n - 1), calls, name, ls);
      assert n * Hits(calls, name, ls) == (n - 1) * Hits(calls, name, ls) + Hits(calls, name, ls);
    }
  }

  lemma {:induction false} NoHits(name: string, ls: seq<Label>)
    ensures Hits([], name, ls) == 0
  {
  }

  /** Everything that does not touch a series, many times over. */
  function Others(calls: seq<Call>, name: string, ls: seq<Label>): seq<Call> {
    Times(Only(calls, name, ls, false), |calls| + 1)
  }

  /** And then, once, what does. */
  function Replayed(calls: seq<Call>, name: string, ls: seq<Label>): seq<Call> {
    Others(calls, name, ls) + Only(calls, name, ls, true)
  }

  lemma {:induction false} ReplayedHits(calls: seq<Call>, name: string, ls: seq<Label>, name': string, ls': seq<Label>)
    ensures Hits(Others(calls, name, ls), name, ls) == 0
    ensures Hits(Replayed(calls, name, ls), name, ls) <= |calls|
    ensures ls' != ls && Hits(calls, name, ls') > 0 ==> Hits(Others(calls, name, ls), name, ls') > |calls|
    ensures Hits(Others(calls, name, ls), name', ls') > 0 ==> Hits(Others(calls, name, ls), name', ls') > |calls|
    ensures Hits(Replayed(calls, name, ls), name', ls') > 0 <==> Hits(calls, name', ls') > 0
  {
    hide Hits, Only, Times, Touches;
    var no, yes, n := Only(calls, name, ls, false), Only(calls, name, ls, true), |calls| + 1;
    OnlyHits(calls, name, ls, name', ls');
    OnlyHits(calls, name, ls, name, ls);
    OnlyHits(calls, name, ls, name, ls');
    TimesHits(no, n, name, ls);
    TimesHits(no, n, name, ls');
    TimesHits(no, n, name', ls');
    HitsConcat(Others(calls, name, ls), yes, name, ls);
    HitsConcat(Others(calls, name, ls), yes, name', ls');
    HitsBounded(calls, name, ls);
    AtLeastOnce(n, Hits(no, name, ls'));
    AtLeastOnce(n, Hits(no, name', ls'));
    if ls' != ls {
      OthersStay(calls, name, ls, ls');
    }
  }

  lemma AtLeastOnce(n: nat, m: nat)
    requires n > 0
    ensures n * 0 == 0 && (m > 0 ==> n * m >= n)
  {
  }
}
