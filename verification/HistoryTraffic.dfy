/** The simulated traffic: what one recorded request adds to the app log, the access log, the metrics and the totals. */
module HistoryTraffic {
  import opened Options

  const MINUTE := 60_000_000

  /** Who issued a request. */
  datatype Origin = Arrival | Retry | Webhook | Scan | Probe

  /** `failed` says that an error line goes with the response; latencies are thousandths of a millisecond. */
  datatype Request = Request(ts: int, verb: string, template: string, status: nat, latency: nat, failed: bool,
                             origin: Origin)

  datatype Event = Access(rq: Request) | Notice(ts: int)

  datatype NginxLine = NginxLine(ts: int, verb: string, template: string, status: nat)

  datatype Metric =
    | Requests(verb: string, template: string, status: nat)
    | DurationSum(template: string)
    | DurationCount(template: string)
    | DbErrors
    | RateLimited
    | WebhookFailures
    | Up
    | LedgerPayments
    | LedgerSettlements

  /** A minute and a metric; values are thousandths. */
  type Key = (int, Metric)

  datatype Stats = Stats(requests: nat, errors: nat, incidentRequests: nat, incidentErrors: nat)

  datatype Traffic = Traffic(events: seq<Event>, nginx: seq<NginxLine>, metrics: map<Key, int>, stats: Stats)

  const QUIET := Traffic([], [], map[], Stats(0, 0, 0, 0))

  function MinuteOf(ts: int): (m: int)
    ensures m * 60_000_000 <= ts < (m + 1) * 60_000_000
  {
    ts / MINUTE
  }

  function Get(m: map<Key, int>, k: Key): int {
    if k in m then m[k] else 0
  }

  function Bump(m: map<Key, int>, ts: int, metric: Metric, v: int): map<Key, int> {
    m[(MinuteOf(ts), metric) := Get(m, (MinuteOf(ts), metric)) + v]
  }

  function RequestMetrics(m: map<Key, int>, rq: Request, hasIncident: bool): map<Key, int> {
    var m1 := Bump(m, rq.ts, Requests(rq.verb, rq.template, rq.status), 1000);
    var m2 := Bump(m1, rq.ts, DurationSum(rq.template), rq.latency);
    var m3 := Bump(m2, rq.ts, DurationCount(rq.template), 1000);
    if rq.failed && hasIncident then Bump(m3, rq.ts, DbErrors, 1000) else m3
  }

  /** Health probes are kept out of the access log. */
  function AccessLines(rq: Request): seq<NginxLine> {
    if rq.template == "/health" then [] else [NginxLine(rq.ts, rq.verb, rq.template, rq.status)]
  }

  function Counted(s: Stats, rq: Request, incidentAt: Option<int>): Stats {
    var bad := if rq.status >= 500 then 1 else 0;
    var inside := if incidentAt.Some? && rq.ts >= incidentAt.value then 1 else 0;
    Stats(s.requests + 1, s.errors + bad, s.incidentRequests + inside, s.incidentErrors + bad * inside)
  }

  function Record(t: Traffic, rq: Request, incidentAt: Option<int>): Traffic {
    Traffic(t.events + [Access(rq)], t.nginx + AccessLines(rq), RequestMetrics(t.metrics, rq, incidentAt.Some?),
            Counted(t.stats, rq, incidentAt))
  }

  /** A request that found the service down: a 502 in the access log and nothing else. */
  function Refuse(t: Traffic, ts: int, verb: string, template: string): Traffic {
    t.(nginx := t.nginx + [NginxLine(ts, verb, template, 502)])
  }

  function Note(t: Traffic, ts: int, metric: Metric): Traffic {
    t.(events := t.events + [Notice(ts)], metrics := Bump(t.metrics, ts, metric, 1000))
  }

  // ---------------------------------------------------------------- what has to agree

  /** What one event should add to a metric that follows the requests. */
  function Weight(e: Event, k: Key): int {
    if e.Notice? || MinuteOf(e.rq.ts) != k.0 then 0 else
      match k.1
      case Requests(verb, template, status) =>
        if verb == e.rq.verb && template == e.rq.template && status == e.rq.status then 1000 else 0
      case DurationSum(template) => if template == e.rq.template then e.rq.latency else 0
      case DurationCount(template) => if template == e.rq.template then 1000 else 0
      case _ => 0
  }

  predicate Follows(m: Metric) {
    m.Requests? || m.DurationSum? || m.DurationCount?
  }

  function Total(events: seq<Event>, k: Key): int {
    if events == [] then 0 else Total(events[..|events| - 1], k) + Weight(events[|events| - 1], k)
  }

  ghost predicate MetricsAgree(events: seq<Event>, metrics: map<Key, int>) {
    forall k: Key :: Follows(k.1) ==> Get(metrics, k) == Total(events, k)
  }

  function Tally(e: Event, errorsOnly: bool, from: Option<int>): nat {
    if e.Access? && (!errorsOnly || e.rq.status >= 500) && (from.Some? ==> e.rq.ts >= from.value) then 1 else 0
  }

  /** How many requests, or error responses, from a time on. */
  function Count(events: seq<Event>, errorsOnly: bool, from: Option<int>): nat {
    if events == [] then 0 else
      Count(events[..|events| - 1], errorsOnly, from) + Tally(events[|events| - 1], errorsOnly, from)
  }

  predicate StatsAgree(events: seq<Event>, s: Stats, incidentAt: Option<int>) {
    && s.requests == Count(events, false, None) && s.errors == Count(events, true, None)
    && s.incidentRequests == (if incidentAt.None? then 0 else Count(events, false, incidentAt))
    && s.incidentErrors == (if incidentAt.None? then 0 else Count(events, true, incidentAt))
  }

  /** What the access log should show: every request but the health probes. */
  function Shown(events: seq<Event>): seq<NginxLine> {
    if events == [] then [] else
      var e := events[|events| - 1];
      Shown(events[..|events| - 1])
      + if e.Access? && e.rq.template != "/health"
        then [NginxLine(e.rq.ts, e.rq.verb, e.rq.template, e.rq.status)] else []
  }

  /** The access-log lines the service answered. */
  function Answered(lines: seq<NginxLine>): seq<NginxLine> {
    if lines == [] then [] else
      Answered(lines[..|lines| - 1]) + if lines[|lines| - 1].status == 502 then [] else [lines[|lines| - 1]]
  }

  function Refused(lines: seq<NginxLine>): seq<NginxLine> {
    if lines == [] then [] else
      Refused(lines[..|lines| - 1]) + if lines[|lines| - 1].status == 502 then [lines[|lines| - 1]] else []
  }

  ghost predicate TrafficOk(t: Traffic, incidentAt: Option<int>) {
    && MetricsAgree(t.events, t.metrics) && StatsAgree(t.events, t.stats, incidentAt)
    && Answered(t.nginx) == Shown(t.events)
  }

  // ---------------------------------------------------------------- kept by every step

  lemma RequestMetricsAre(m: map<Key, int>, rq: Request, hasIncident: bool, k: Key)
    requires Follows(k.1)
    ensures Get(RequestMetrics(m, rq, hasIncident), k) == Get(m, k) + Weight(Access(rq), k)
  {
  }

  lemma RecordKeepsMetrics(events: seq<Event>, metrics: map<Key, int>, rq: Request, hasIncident: bool)
    requires MetricsAgree(events, metrics)
    ensures MetricsAgree(events + [Access(rq)], RequestMetrics(metrics, rq, hasIncident))
  {
    hide RequestMetrics, Get, Weight;
    forall k: Key | Follows(k.1)
      ensures Get(RequestMetrics(metrics, rq, hasIncident), k) == Total(events + [Access(rq)], k)
    {
      RequestMetricsAre(metrics, rq, hasIncident, k);
    }
  }

  lemma RecordKeepsStats(events: seq<Event>, s: Stats, rq: Request, incidentAt: Option<int>)
    requires StatsAgree(events, s, incidentAt)
    ensures StatsAgree(events + [Access(rq)], Counted(s, rq, incidentAt), incidentAt)
  {
  }

  /** A recorded request keeps the logs, the metrics and the totals in agreement. */
  lemma RecordKeepsTraffic(t: Traffic, rq: Request, incidentAt: Option<int>)
    requires TrafficOk(t, incidentAt) && rq.status != 502
    ensures TrafficOk(Record(t, rq, incidentAt), incidentAt)
  {
    RecordKeepsMetrics(t.events, t.metrics, rq, incidentAt.Some?);
    RecordKeepsStats(t.events, t.stats, rq, incidentAt);
    assert Shown(t.events + [Access(rq)]) == Shown(t.events) + AccessLines(rq);
    AnsweredSnoc(t.nginx, AccessLines(rq));
    hide MetricsAgree, StatsAgree, RequestMetrics, Counted;
  }

  lemma AnsweredSnoc(lines: seq<NginxLine>, more: seq<NginxLine>)
    requires |more| <= 1
    ensures Answered(lines + more) == Answered(lines) + if more != [] && more[0].status != 502 then more else []
  {
    if more == [] {
      assert lines + more == lines;
    } else {
      assert (lines + more)[..|lines|] == lines;
    }
  }

  lemma NoteKeepsTraffic(t: Traffic, ts: int, metric: Metric, incidentAt: Option<int>)
    requires TrafficOk(t, incidentAt) && !Follows(metric)
    ensures TrafficOk(Note(t, ts, metric), incidentAt)
  {
    var t' := Note(t, ts, metric);
    assert Shown(t'.events) == Shown(t.events);
    forall k: Key | Follows(k.1) ensures Get(t'.metrics, k) == Total(t'.events, k) {
      assert Get(t.metrics, k) == Total(t.events, k);
    }
  }

  // ---------------------------------------------------------------- what that means

  predicate Distinct(keys: seq<Key>) {
    forall i, j :: 0 <= i < j < |keys| ==> keys[i] != keys[j]
  }

  predicate Covers(keys: seq<Key>, events: seq<Event>) {
    forall i :: 0 <= i < |events| && events[i].Access? ==> RequestKey(events[i].rq) in keys
  }

  function RequestKey(rq: Request): Key {
    (MinuteOf(rq.ts), Requests(rq.verb, rq.template, rq.status))
  }

  /** The sum of a request counter over all minutes and label sets, or over those of error responses. */
  function CounterSum(metrics: map<Key, int>, keys: seq<Key>, errorsOnly: bool): int
    requires forall i :: 0 <= i < |keys| ==> keys[i].1.Requests?
  {
    if keys == [] then 0 else
      CounterSum(metrics, keys[..|keys| - 1], errorsOnly)
      + if errorsOnly && keys[|keys| - 1].1.status < 500 then 0 else Get(metrics, keys[|keys| - 1])
  }

  /** The same sum from the events. */
  function EventSum(events: seq<Event>, keys: seq<Key>, errorsOnly: bool): int
    requires forall i :: 0 <= i < |keys| ==> keys[i].1.Requests?
  {
    if keys == [] then 0 else
      EventSum(events, keys[..|keys| - 1], errorsOnly)
      + if errorsOnly && keys[|keys| - 1].1.status < 500 then 0 else Total(events, keys[|keys| - 1])
  }

  lemma {:induction false} SameSum(events: seq<Event>, metrics: map<Key, int>, keys: seq<Key>, errorsOnly: bool)
    requires MetricsAgree(events, metrics) && forall i :: 0 <= i < |keys| ==> keys[i].1.Requests?
    ensures CounterSum(metrics, keys, errorsOnly) == EventSum(events, keys, errorsOnly)
    decreases |keys|
  {
    hide Get, Total;
    if keys == [] {
    } else {
      SameSum(events, metrics, keys[..|keys| - 1], errorsOnly);
    }
  }

  lemma {:induction false} OneEventAdds(events: seq<Event>, e: Event, keys: seq<Key>, errorsOnly: bool)
    requires Distinct(keys) && forall i :: 0 <= i < |keys| ==> keys[i].1.Requests?
    ensures EventSum(events + [e], keys, errorsOnly) == EventSum(events, keys, errorsOnly) +
            if e.Access? && RequestKey(e.rq) in keys then 1000 * Tally(e, errorsOnly, None) else 0
    decreases |keys|
  {
    if keys == [] {
    } else {
      var init, k := keys[..|keys| - 1], keys[|keys| - 1];
      OneEventAdds(events, e, init, errorsOnly);
      assert Total(events + [e], k) == Total(events, k) + Weight(e, k);
      assert keys == init + [k];
      assert forall i :: 0 <= i < |init| ==> init[i] != k;
      assert e.Access? ==> (Weight(e, k) == if RequestKey(e.rq) == k then 1000 else 0);
      hide Total, Weight;
    }
  }

  lemma {:induction false} NoEventsNoSum(keys: seq<Key>, errorsOnly: bool)
    requires forall i :: 0 <= i < |keys| ==> keys[i].1.Requests?
    ensures EventSum([], keys, errorsOnly) == 0
    decreases |keys|
  {
    if keys == [] {
    } else {
      NoEventsNoSum(keys[..|keys| - 1], errorsOnly);
    }
  }

  lemma {:induction false} EventsAddUp(events: seq<Event>, keys: seq<Key>, errorsOnly: bool)
    requires Distinct(keys) && Covers(keys, events) && forall i :: 0 <= i < |keys| ==> keys[i].1.Requests?
    ensures EventSum(events, keys, errorsOnly) == 1000 * Count(events, errorsOnly, None)
    decreases |events|
  {
    if events == [] {
      NoEventsNoSum(keys, errorsOnly);
    } else {
      var init, e := events[..|events| - 1], events[|events| - 1];
      EventsAddUp(init, keys, errorsOnly);
      OneEventAdds(init, e, keys, errorsOnly);
      assert events == init + [e];
    }
  }

  /** A list of the request counters that a table holds, each once. */
  predicate RequestKeysOf(keys: seq<Key>, metrics: map<Key, int>) {
    && Distinct(keys)
    && (forall i :: 0 <= i < |keys| ==> keys[i].1.Requests? && keys[i] in metrics)
    && (forall k :: k in metrics && k.1.Requests? ==> k in keys)
  }

  lemma {:induction false} RequestKeysExist(metrics: map<Key, int>)
    ensures exists keys :: RequestKeysOf(keys, metrics)
    decreases |metrics|
  {
    if metrics == map[] {
      assert RequestKeysOf([], metrics);
    } else {
      var k :| k in metrics;
      RequestKeysExist(metrics - {k});
      var keys :| RequestKeysOf(keys, metrics - {k});
      var longer := if k.1.Requests? then keys + [k] else keys;
      assert k.1.Requests? ==> longer[|keys|] == k;
      assert RequestKeysOf(longer, metrics);
    }
  }

  lemma {:induction false} TotalIsAtLeast(events: seq<Event>, i: nat, k: Key)
    requires i < |events|
    ensures Total(events, k) >= Weight(events[i], k)
    decreases |events|
  {
    var init := events[..|events| - 1];
    if i < |init| {
      TotalIsAtLeast(init, i, k);
    } else if init != [] {
      TotalIsAtLeast(init, 0, k);
    }
  }

  /** Every recorded request has its counter in the table. */
  lemma TableCovers(events: seq<Event>, metrics: map<Key, int>, keys: seq<Key>)
    requires MetricsAgree(events, metrics) && RequestKeysOf(keys, metrics)
    ensures Covers(keys, events)
  {
    forall i | 0 <= i < |events| && events[i].Access? ensures RequestKey(events[i].rq) in keys {
      var k := RequestKey(events[i].rq);
      TotalIsAtLeast(events, i, k);
      assert Weight(events[i], k) == 1000 && Get(metrics, k) == Total(events, k);
    }
  }

  /** The request counters of a table sum to the recorded totals, over all requests and over error responses. */
  ghost predicate CountersAddUp(t: Traffic) {
    forall keys :: RequestKeysOf(keys, t.metrics) ==>
                     && CounterSum(t.metrics, keys, false) == 1000 * t.stats.requests
                     && CounterSum(t.metrics, keys, true) == 1000 * t.stats.errors
  }

  /** Recorded requests, access events and the request counters agree, in total and for error responses; the access
      log holds the non-health requests in order, and beside them only the refused ones. */
  lemma RecordsAgree(t: Traffic, incidentAt: Option<int>)
    requires TrafficOk(t, incidentAt)
    ensures t.stats.requests == Count(t.events, false, None) && t.stats.errors == Count(t.events, true, None)
    ensures CountersAddUp(t)
    ensures Answered(t.nginx) == Shown(t.events) && |t.nginx| == |Shown(t.events)| + |Refused(t.nginx)|
  {
    forall keys | RequestKeysOf(keys, t.metrics)
      ensures CounterSum(t.metrics, keys, false) == 1000 * t.stats.requests
      ensures CounterSum(t.metrics, keys, true) == 1000 * t.stats.errors
    {
      TableCovers(t.events, t.metrics, keys);
      SameSum(t.events, t.metrics, keys, false);
      SameSum(t.events, t.metrics, keys, true);
      EventsAddUp(t.events, keys, false);
      EventsAddUp(t.events, keys, true);
    }
    AnsweredOrRefused(t.nginx);
  }

  lemma {:induction false} AnsweredOrRefused(lines: seq<NginxLine>)
    ensures |lines| == |Answered(lines)| + |Refused(lines)|
    decreases |lines|
  {
    if lines == [] {
    } else {
      AnsweredOrRefused(lines[..|lines| - 1]);
    }
  }
}
