/** The history simulator step by step: what each arrival does to the books and the traffic, given its choices. */
module HistoryRun {
  import opened Options
  import opened HistoryBooks
  import opened HistoryTraffic
  import opened FaultComposition

  // ---------------------------------------------------------------- configuration and choices

  const SECONDS := 1_000_000

  /** What the fault's deploy did to the process: nothing, a restart, or a restart from which it never came back. */
  datatype Restart = NoRestart | Restarted | Dead

  /** What the injected fault changes in the stream; times are microseconds. */
  datatype Fault = Fault(incident: Incident, restart: Restart, restartAt: int, rateLimit: Option<(int, int)>,
                         paymentsDb: bool, degraded: bool)

  datatype Config = Config(fault: Option<Fault>, start: int, now: int)

  /** The time during which the service is down, both ends included. */
  function GapOf(c: Config): Option<(int, int)> {
    if c.fault.None? then None
    else
      var at := c.fault.value.restartAt;
      match c.fault.value.restart
      case NoRestart => None
      case Restarted => Some((at - 2_600_000, at + 30_000))
      case Dead => Some((at - 2_600_000, c.now))
  }

  predicate ValidConfig(c: Config) {
    c.fault.Some? ==> Periodic(c.fault.value.incident)
  }

  /** The random choices of one checkout attempt. */
  datatype Roll = Roll(r: real, latency: nat, items: seq<Item>, ref: string, delay: int, hookLatency: nat)

  /** The random choices of one arrival; `missing` asks for an id that does not exist, `retries` are the delays and
      rolls of a burst. */
  datatype Choice =
    | Buy(user: int, roll: Roll, retries: seq<(int, Roll)>)
    | Look(verb: string, template: string, missing: bool, latency: nat)

  predicate InGap(c: Config, ts: int) {
    GapOf(c).Some? && GapOf(c).value.0 <= ts <= GapOf(c).value.1
  }

  /** The service is down from 2.6 seconds before a restart to 30 milliseconds after it, or to the end. */
  predicate IsDown(c: Config, ts: int) {
    && c.fault.Some? && c.fault.value.restart != NoRestart && c.fault.value.restartAt <= ts + 2_600_000
    && (c.fault.value.restart == Dead ==> ts <= c.now)
    && (c.fault.value.restart == Restarted ==> ts <= c.fault.value.restartAt + 30_000)
  }

  lemma DownInGap(c: Config, ts: int)
    ensures InGap(c, ts) <==> IsDown(c, ts)
  {
  }

  function IncidentAt(c: Config): Option<int> {
    if c.fault.Some? then Some(c.fault.value.incident.at) else None
  }

  function DivertFrom(c: Config): Option<int> {
    if c.fault.Some? && c.fault.value.paymentsDb then Some(c.fault.value.incident.at) else None
  }

  predicate Failing(c: Config, ts: int, key: string)
    requires ValidConfig(c)
  {
    c.fault.Some? && EndpointState(c.fault.value.incident, ts, key).0
  }

  function LimitAt(c: Config, ts: int): int {
    if c.fault.Some? && c.fault.value.rateLimit.Some? && ts >= c.fault.value.rateLimit.value.0
    then c.fault.value.rateLimit.value.1 else 600
  }

  /** The gateway's call is not simulated when it would come after the end or around the restart. */
  predicate HookHappens(c: Config, at: int) {
    at < c.now && !(c.fault.Some? && -4 * SECONDS < at - c.fault.value.restartAt < SECONDS)
  }

  predicate HookRejected(c: Config, at: int) {
    c.fault.Some? && "POST /webhooks/payments" in c.fault.value.incident.failing && at >= c.fault.value.incident.at
  }

  function CheckoutStatus(failing: bool, r: real): nat {
    if failing then 500 else if r < 0.012 then 422 else if r < 0.03 then 400 else if r < 0.04 then 404 else 201
  }

  // ---------------------------------------------------------------- the steps

  /** `counts` are the checkout attempts per user and minute. */
  datatype Run = Run(books: Books, traffic: Traffic, counts: map<(int, int), nat>)

  function Recorded(c: Config, r: Run, rq: Request): Run {
    r.(traffic := Record(r.traffic, rq, IncidentAt(c)))
  }

  function Noted(r: Run, ts: int, metric: Metric): Run {
    r.(traffic := Note(r.traffic, ts, metric))
  }

  /** The gateway's confirmation of a capture. */
  function Hooked(c: Config, r: Run, p: PaymentRow, roll: Roll, diverted: bool): Run {
    var at := p.at + roll.delay;
    var rq := Request(at, "POST", "/webhooks/payments", if HookRejected(c, at) then 401 else 200, roll.hookLatency,
                      false, Webhook);
    if !HookHappens(c, at) then r
    else if HookRejected(c, at) then Recorded(c, Noted(r, at, WebhookFailures), rq)
    else Recorded(c, r.(books := Settle(r.books, p, at, diverted)), rq)
  }

  function Captured(c: Config, r: Run, ts: int, user: int, roll: Roll): Run {
    var b := Capture(r.books, DivertFrom(c), ts, user, roll.items, roll.ref);
    Hooked(c, r.(books := b), PaymentFor(b.orders[|b.orders| - 1], roll.ref), roll, Diverts(DivertFrom(c), ts))
  }

  function Attempts(r: Run, ts: int, user: int): nat {
    (if (user, MinuteOf(ts)) in r.counts then r.counts[(user, MinuteOf(ts))] else 0) + 1
  }

  function Attempted(c: Config, r: Run, ts: int, user: int, roll: Roll, origin: Origin): Run
    requires ValidConfig(c)
  {
    var counted := r.(counts := r.counts[(user, MinuteOf(ts)) := Attempts(r, ts, user)]);
    if Attempts(r, ts, user) > LimitAt(c, ts) then
      Recorded(c, Noted(counted, ts, RateLimited), Request(ts, "POST", "/checkout", 429, roll.latency, false, origin))
    else
      var failing := Failing(c, ts, "POST /checkout");
      var status := CheckoutStatus(failing, roll.r);
      Recorded(c, if status == 201 then Captured(c, counted, ts, user, roll) else counted,
               Request(ts, "POST", "/checkout", status, roll.latency, failing, origin))
  }

  /** A burst: each retry some seconds after the one before, until the end of the history. */
  function Retried(c: Config, r: Run, ts: int, user: int, retries: seq<(int, Roll)>): Run
    requires ValidConfig(c)
    decreases |retries|
  {
    if retries == [] || ts + retries[0].0 >= c.now then r
    else
      var at := ts + retries[0].0;
      Retried(c, Attempted(c, r, at, user, retries[0].1, Retry), at, user, retries[1..])
  }

  function Arrived(c: Config, r: Run, ts: int, choice: Choice): Run
    requires ValidConfig(c)
  {
    match choice
    case Buy(user, roll, retries) => Retried(c, Attempted(c, r, ts, user, roll, Arrival), ts, user, retries)
    case Look(verb, template, missing, latency) =>
      var failing := Failing(c, ts, verb + " " + template);
      Recorded(c, r, Request(ts, verb, template, if failing then 500 else if missing then 404 else 200, latency,
                             failing, Arrival))
  }

  function VerbOf(choice: Choice): string {
    if choice.Buy? then "POST" else choice.verb
  }

  function TemplateOf(choice: Choice): string {
    if choice.Buy? then "/checkout" else choice.template
  }

  /** The arrivals of a run, in the order in which they are drawn: outside the window they are skipped, in the gap the
      proxy refuses them. */
  function Streamed(c: Config, r: Run, arrivals: seq<(int, Choice)>): Run
    requires ValidConfig(c)
  {
    if arrivals == [] then r else
      var before := Streamed(c, r, arrivals[..|arrivals| - 1]);
      var (ts, choice) := arrivals[|arrivals| - 1];
      if ts < c.start || ts >= c.now then before
      else if InGap(c, ts) then before.(traffic := Refuse(before.traffic, ts, VerbOf(choice), TemplateOf(choice)))
      else Arrived(c, before, ts, choice)
  }

  /** A degraded health probe also counts as a database error. */
  function ProbedOne(c: Config, r: Run, rq: Request): Run {
    var after := Recorded(c, r, rq);
    if rq.status == 503
    then after.(traffic := after.traffic.(metrics := Bump(after.traffic.metrics, rq.ts, DbErrors, 1000))) else after
  }

  /** Requests at given times, left out in the gap: probes and bot scans. */
  function Probed(c: Config, r: Run, requests: seq<Request>): Run {
    if requests == [] then r else
      var before, rq := Probed(c, r, requests[..|requests| - 1]), requests[|requests| - 1];
      if InGap(c, rq.ts) then before else ProbedOne(c, before, rq)
  }

  // ---------------------------------------------------------------- what every step keeps

  /** Where a request may lie in time: arrivals, scans and probes never fall into the gap; retries and webhooks may. */
  predicate Placed(c: Config, rq: Request) {
    && rq.ts < c.now
    && (rq.origin in {Arrival, Scan, Probe} ==> !InGap(c, rq.ts))
    && (rq.origin == Arrival ==> c.start <= rq.ts)
    && (rq.origin == Webhook ==> HookHappens(c, rq.ts))
  }

  predicate AllPlaced(c: Config, events: seq<Event>) {
    forall i :: 0 <= i < |events| && events[i].Access? ==> Placed(c, events[i].rq)
  }

  /** Gauges are written after the stream, once per minute. */
  predicate Gauge(m: Metric) {
    m.Up? || m.LedgerPayments? || m.LedgerSettlements?
  }

  predicate NoGauges(metrics: map<Key, int>) {
    forall k :: k in metrics ==> !Gauge(k.1)
  }

  ghost predicate TrafficValid(c: Config, t: Traffic) {
    TrafficOk(t, IncidentAt(c)) && NoGauges(t.metrics) && AllPlaced(c, t.events)
  }

  predicate TimesBefore(times: seq<int>, now: int) {
    forall i :: 0 <= i < |times| ==> times[i] < now
  }

  ghost predicate RunOk(c: Config, r: Run) {
    && BooksOk(r.books, DivertFrom(c)) && TrafficValid(c, r.traffic) && TimesBefore(r.books.paymentTimes, c.now)
    && TimesBefore(r.books.settlementTimes, c.now)
  }

  lemma AllPlacedSnoc(c: Config, events: seq<Event>, rq: Request)
    requires AllPlaced(c, events) && Placed(c, rq)
    ensures AllPlaced(c, events + [Access(rq)])
  {
  }

  lemma RecordKeeps(c: Config, t: Traffic, rq: Request)
    requires TrafficValid(c, t) && rq.status != 502 && Placed(c, rq)
    ensures TrafficValid(c, Record(t, rq, IncidentAt(c)))
  {
    RecordKeepsTraffic(t, rq, IncidentAt(c));
    AllPlacedSnoc(c, t.events, rq);
    hide TrafficOk, RequestMetrics, Placed, AllPlaced, NoGauges;
  }

  lemma NoteKeeps(c: Config, t: Traffic, ts: int, metric: Metric)
    requires TrafficValid(c, t) && !Follows(metric) && !Gauge(metric)
    ensures TrafficValid(c, Note(t, ts, metric))
  {
    hide TrafficOk, Placed;
    NoteKeepsTraffic(t, ts, metric, IncidentAt(c));
  }

  lemma BumpKeeps(c: Config, t: Traffic, ts: int, metric: Metric, v: int)
    requires TrafficValid(c, t) && !Follows(metric) && !Gauge(metric)
    ensures TrafficValid(c, t.(metrics := Bump(t.metrics, ts, metric, v)))
  {
  }

  lemma HookedKeeps(c: Config, r: Run, p: PaymentRow, roll: Roll, diverted: bool)
    requires RunOk(c, r) && (p in r.books.payments || p in r.books.diverted)
    requires forall j :: 0 <= j < |r.books.settlements| ==> r.books.settlements[j].order < p.order
    ensures RunOk(c, Hooked(c, r, p, roll, diverted)) && Hooked(c, r, p, roll, diverted).books.base == r.books.base
  {
    hide BooksOk, TrafficValid, Record, Note, HookRejected, InGap;
    var at := p.at + roll.delay;
    if HookHappens(c, at) {
      var rq := Request(at, "POST", "/webhooks/payments", if HookRejected(c, at) then 401 else 200, roll.hookLatency,
                        false, Webhook);
      if HookRejected(c, at) {
        NoteKeeps(c, r.traffic, at, WebhookFailures);
        RecordKeeps(c, Note(r.traffic, at, WebhookFailures), rq);
      } else {
        SettleKeepsBooks(r.books, DivertFrom(c), p, at, diverted);
        RecordKeeps(c, r.traffic, rq);
      }
    }
  }

  lemma NewestUnsettled(b: Books, from: Option<int>, ts: int, user: int, items: seq<Item>, ref: string)
    requires BooksOk(b, from)
    ensures var b' := Capture(b, from, ts, user, items, ref);
            var p := PaymentFor(b'.orders[|b'.orders| - 1], ref);
            && p.at == ts && (p in b'.payments || p in b'.diverted)
            && forall j :: 0 <= j < |b'.settlements| ==> b'.settlements[j].order < p.order
  {
  }

  lemma CapturedKeeps(c: Config, r: Run, ts: int, user: int, roll: Roll)
    requires RunOk(c, r) && ts < c.now
    ensures RunOk(c, Captured(c, r, ts, user, roll)) && Captured(c, r, ts, user, roll).books.base == r.books.base
  {
    hide BooksOk, TrafficValid, Diverts, ItemTotal, ItemRows, Hooked, DivertFrom;
    CaptureKeepsBooks(r.books, DivertFrom(c), ts, user, roll.items, roll.ref);
    NewestUnsettled(r.books, DivertFrom(c), ts, user, roll.items, roll.ref);
    var b := Capture(r.books, DivertFrom(c), ts, user, roll.items, roll.ref);
    assert TimesBefore(b.paymentTimes, c.now);
    hide Capture, TimesBefore;
    HookedKeeps(c, r.(books := b), PaymentFor(b.orders[|b.orders| - 1], roll.ref), roll, Diverts(DivertFrom(c), ts));
  }

  /** Any checkout attempt keeps the run in order. */
  lemma AttemptKeeps(c: Config, r: Run, ts: int, user: int, roll: Roll, origin: Origin)
    requires ValidConfig(c) && RunOk(c, r) && ts < c.now
    requires origin == Retry || (origin == Arrival && c.start <= ts && !InGap(c, ts))
    ensures RunOk(c, Attempted(c, r, ts, user, roll, origin))
              && Attempted(c, r, ts, user, roll, origin).books.base == r.books.base
  {
    hide BooksOk, TrafficValid, Record, Note, Captured, Failing, LimitAt;
    var counted := r.(counts := r.counts[(user, MinuteOf(ts)) := Attempts(r, ts, user)]);
    if Attempts(r, ts, user) > LimitAt(c, ts) {
      NoteKeeps(c, r.traffic, ts, RateLimited);
      RecordKeeps(c, Note(r.traffic, ts, RateLimited),
                  Request(ts, "POST", "/checkout", 429, roll.latency, false, origin));
    } else {
      var failing := Failing(c, ts, "POST /checkout");
      var status := CheckoutStatus(failing, roll.r);
      var after := counted;
      if status == 201 {
        CapturedKeeps(c, counted, ts, user, roll);
        after := Captured(c, counted, ts, user, roll);
      }
      RecordKeeps(c, after.traffic, Request(ts, "POST", "/checkout", status, roll.latency, failing, origin));
    }
  }

  lemma {:induction false} RetriesKeep(c: Config, r: Run, ts: int, user: int, retries: seq<(int, Roll)>)
    requires ValidConfig(c) && RunOk(c, r)
    ensures RunOk(c, Retried(c, r, ts, user, retries)) && Retried(c, r, ts, user, retries).books.base == r.books.base
    decreases |retries|
  {
    hide RunOk, Attempted;
    if retries == [] {
    } else if ts + retries[0].0 < c.now {
      var at := ts + retries[0].0;
      AttemptKeeps(c, r, at, user, retries[0].1, Retry);
      RetriesKeep(c, Attempted(c, r, at, user, retries[0].1, Retry), at, user, retries[1..]);
    }
  }

  lemma ArrivalKeeps(c: Config, r: Run, ts: int, choice: Choice)
    requires ValidConfig(c) && RunOk(c, r) && c.start <= ts < c.now && !InGap(c, ts)
    ensures RunOk(c, Arrived(c, r, ts, choice)) && Arrived(c, r, ts, choice).books.base == r.books.base
  {
    if choice.Buy? {
      hide RunOk, Attempted;
      AttemptKeeps(c, r, ts, choice.user, choice.roll, Arrival);
      RetriesKeep(c, Attempted(c, r, ts, choice.user, choice.roll, Arrival), ts, choice.user, choice.retries);
    } else {
      hide BooksOk, TrafficValid, Record, Failing;
      var failing := Failing(c, ts, choice.verb + " " + choice.template);
      RecordKeeps(c, r.traffic, Request(ts, choice.verb, choice.template,
                                        if failing then 500 else if choice.missing then 404 else 200, choice.latency,
                                        failing, Arrival));
    }
  }

  /** Whatever the random choices, the whole request stream keeps the books, the logs, the metrics and the totals in
      agreement. */
  lemma {:induction false} StreamKeeps(c: Config, r: Run, arrivals: seq<(int, Choice)>)
    requires ValidConfig(c) && RunOk(c, r)
    ensures RunOk(c, Streamed(c, r, arrivals)) && Streamed(c, r, arrivals).books.base == r.books.base
    decreases |arrivals|
  {
    if arrivals == [] {
    } else {
      hide BooksOk, TrafficValid, Arrived, Refuse;
      var before := Streamed(c, r, arrivals[..|arrivals| - 1]);
      StreamKeeps(c, r, arrivals[..|arrivals| - 1]);
      var (ts, choice) := arrivals[|arrivals| - 1];
      if c.start <= ts < c.now {
        if InGap(c, ts) {
        } else {
          ArrivalKeeps(c, before, ts, choice);
        }
      }
    }
  }

  lemma ProbeKeeps(c: Config, r: Run, rq: Request)
    requires RunOk(c, r) && Placed(c, rq) && rq.status != 502
    ensures RunOk(c, ProbedOne(c, r, rq))
  {
    hide BooksOk, TrafficValid, Record, Bump, Placed;
    RecordKeeps(c, r.traffic, rq);
    BumpKeeps(c, Record(r.traffic, rq, IncidentAt(c)), rq.ts, DbErrors, 1000);
  }

  lemma {:induction false} ProbesKeep(c: Config, r: Run, requests: seq<Request>)
    requires RunOk(c, r)
    requires forall i :: 0 <= i < |requests| ==>
                           requests[i].ts < c.now && requests[i].status != 502 && requests[i].origin in {Scan, Probe}
    ensures RunOk(c, Probed(c, r, requests)) && Probed(c, r, requests).books.base == r.books.base
    decreases |requests|
  {
    if requests == [] {
    } else {
      hide RunOk, ProbedOne;
      var rq := requests[|requests| - 1];
      ProbesKeep(c, r, requests[..|requests| - 1]);
      if !InGap(c, rq.ts) {
        ProbeKeeps(c, Probed(c, r, requests[..|requests| - 1]), rq);
      }
    }
  }

  // ---------------------------------------------------------------- refused requests

  /** The access-log lines of the arrivals that found the service down. */
  function GapArrivals(c: Config, arrivals: seq<(int, Choice)>): seq<NginxLine> {
    if arrivals == [] then [] else
      var (ts, choice) := arrivals[|arrivals| - 1];
      GapArrivals(c, arrivals[..|arrivals| - 1])
      + if c.start <= ts < c.now && IsDown(c, ts)
        then [if choice.Buy? then NginxLine(ts, "POST", "/checkout", 502)
              else NginxLine(ts, choice.verb, choice.template, 502)]
        else []
  }

  function RefusedIn(r: Run): seq<NginxLine> {
    Refused(r.traffic.nginx)
  }

  lemma RecordedRefusesNothing(c: Config, r: Run, rq: Request)
    requires rq.status != 502
    ensures RefusedIn(Recorded(c, r, rq)) == RefusedIn(r)
  {
    hide RequestMetrics, Counted;
    var lines := r.traffic.nginx;
    if rq.template == "/health" {
      assert lines + [] == lines;
    } else {
      assert (lines + AccessLines(rq))[..|lines|] == lines;
    }
  }

  lemma HookedRefusesNothing(c: Config, r: Run, p: PaymentRow, roll: Roll, diverted: bool)
    ensures RefusedIn(Hooked(c, r, p, roll, diverted)) == RefusedIn(r)
  {
  }

  lemma AttemptRefusesNothing(c: Config, r: Run, ts: int, user: int, roll: Roll, origin: Origin)
    requires ValidConfig(c)
    ensures RefusedIn(Attempted(c, r, ts, user, roll, origin)) == RefusedIn(r)
  {
    hide Recorded, Hooked, Refused, Failing, LimitAt;
    var counted := r.(counts := r.counts[(user, MinuteOf(ts)) := Attempts(r, ts, user)]);
    var failing := Failing(c, ts, "POST /checkout");
    var status := CheckoutStatus(failing, roll.r);
    var b := Capture(r.books, DivertFrom(c), ts, user, roll.items, roll.ref);
    HookedRefusesNothing(c, counted.(books := b), PaymentFor(b.orders[|b.orders| - 1], roll.ref), roll,
                         Diverts(DivertFrom(c), ts));
    RecordedRefusesNothing(c, Noted(counted, ts, RateLimited),
                           Request(ts, "POST", "/checkout", 429, roll.latency, false, origin));
    RecordedRefusesNothing(c, if status == 201 then Captured(c, counted, ts, user, roll) else counted,
                           Request(ts, "POST", "/checkout", status, roll.latency, failing, origin));
  }

  lemma {:induction false} RetriesRefuseNothing(c: Config, r: Run, ts: int, user: int, retries: seq<(int, Roll)>)
    requires ValidConfig(c)
    ensures RefusedIn(Retried(c, r, ts, user, retries)) == RefusedIn(r)
    decreases |retries|
  {
    hide Attempted, RefusedIn;
    if retries == [] {
    } else if ts + retries[0].0 < c.now {
      var at := ts + retries[0].0;
      AttemptRefusesNothing(c, r, at, user, retries[0].1, Retry);
      RetriesRefuseNothing(c, Attempted(c, r, at, user, retries[0].1, Retry), at, user, retries[1..]);
    }
  }

  lemma ArrivalRefusesNothing(c: Config, r: Run, ts: int, choice: Choice)
    requires ValidConfig(c)
    ensures RefusedIn(Arrived(c, r, ts, choice)) == RefusedIn(r)
  {
    hide Attempted, RefusedIn, Recorded, Failing, Retried;
    if choice.Buy? {
      AttemptRefusesNothing(c, r, ts, choice.user, choice.roll, Arrival);
      RetriesRefuseNothing(c, Attempted(c, r, ts, choice.user, choice.roll, Arrival), ts, choice.user, choice.retries);
    } else {
      var failing := Failing(c, ts, choice.verb + " " + choice.template);
      RecordedRefusesNothing(c, r, Request(ts, choice.verb, choice.template,
                                           if failing then 500 else if choice.missing then 404 else 200,
                                           choice.latency, failing, Arrival));
    }
  }

  lemma RefusalIsShown(r: Run, ts: int, verb: string, template: string)
    ensures RefusedIn(r.(traffic := Refuse(r.traffic, ts, verb, template)))
         == RefusedIn(r) + [NginxLine(ts, verb, template, 502)]
  {
    var lines := r.traffic.nginx;
    assert (lines + [NginxLine(ts, verb, template, 502)])[..|lines|] == lines;
  }

  /** The refused lines of the access log are exactly the arrivals of the main loop that fell into the gap. */
  lemma {:induction false} RefusedAreGapArrivals(c: Config, r: Run, arrivals: seq<(int, Choice)>)
    requires ValidConfig(c)
    ensures RefusedIn(Streamed(c, r, arrivals)) == RefusedIn(r) + GapArrivals(c, arrivals)
    decreases |arrivals|
  {
    if arrivals == [] {
    } else {
      hide Arrived, IsDown, InGap, Refuse, RefusedIn;
      var before := Streamed(c, r, arrivals[..|arrivals| - 1]);
      RefusedAreGapArrivals(c, r, arrivals[..|arrivals| - 1]);
      var (ts, choice) := arrivals[|arrivals| - 1];
      DownInGap(c, ts);
      if Served(c, ts) {
        ArrivalRefusesNothing(c, before, ts, choice);
      } else {
        RefusalIsShown(before, ts, VerbOf(choice), TemplateOf(choice));
      }
    }
  }

  /** Probes add nothing to them. */
  lemma {:induction false} ProbesRefuseNothing(c: Config, r: Run, requests: seq<Request>)
    requires forall i :: 0 <= i < |requests| ==> requests[i].status != 502
    ensures RefusedIn(Probed(c, r, requests)) == RefusedIn(r)
    decreases |requests|
  {
    if requests == [] {
    } else {
      hide Recorded;
      var before, rq := Probed(c, r, requests[..|requests| - 1]), requests[|requests| - 1];
      ProbesRefuseNothing(c, r, requests[..|requests| - 1]);
      RecordedRefusesNothing(c, before, rq);
    }
  }

  // ---------------------------------------------------------------- requests inside the gap

  ghost predicate RetryInGap(c: Config, events: seq<Event>) {
    exists i :: 0 <= i < |events| && IsRetryInGap(c, events[i])
  }

  predicate IsRetryInGap(c: Config, e: Event) {
    e.Access? && e.rq.origin == Retry && InGap(c, e.rq.ts)
  }

  /** How long after its arrival the n-th retry of a burst comes. */
  function Delay(retries: seq<(int, Roll)>, n: nat): int
    requires n <= |retries|
  {
    if n == 0 then 0 else retries[0].0 + Delay(retries[1..], n - 1)
  }

  /** Some retry comes while the service is down, the burst not having run into the end of the history before. */
  predicate ReachesGap(c: Config, ts: int, retries: seq<(int, Roll)>) {
    exists n :: 0 < n <= |retries| && InGap(c, ts + Delay(retries, n))
                && forall m :: 0 < m <= n ==> ts + Delay(retries, m) < c.now
  }

  predicate Served(c: Config, ts: int) {
    c.start <= ts < c.now && !InGap(c, ts)
  }

  ghost predicate SomeBurstReachesGap(c: Config, arrivals: seq<(int, Choice)>) {
    exists i :: 0 <= i < |arrivals| && Served(c, arrivals[i].0) && arrivals[i].1.Buy?
                && ReachesGap(c, arrivals[i].0, arrivals[i].1.retries)
  }

  lemma RetrySnoc(c: Config, events: seq<Event>, e: Event)
    ensures RetryInGap(c, events + [e]) <==> RetryInGap(c, events) || IsRetryInGap(c, e)
  {
    hide IsRetryInGap;
    var all := events + [e];
    assert all[|events|] == e && forall i :: 0 <= i < |events| ==> all[i] == events[i];
  }

  lemma HookedIsNoRetry(c: Config, r: Run, p: PaymentRow, roll: Roll, diverted: bool)
    ensures RetryInGap(c, Hooked(c, r, p, roll, diverted).traffic.events) <==> RetryInGap(c, r.traffic.events)
  {
    hide RequestMetrics, Counted, HookRejected, HookHappens, RetryInGap, Bump, AccessLines;
    var at, events := p.at + roll.delay, r.traffic.events;
    var rq := Request(at, "POST", "/webhooks/payments", if HookRejected(c, at) then 401 else 200, roll.hookLatency,
                      false, Webhook);
    RetrySnoc(c, events, Notice(at));
    RetrySnoc(c, events + [Notice(at)], Access(rq));
    RetrySnoc(c, events, Access(rq));
  }

  lemma CapturedRetries(c: Config, r: Run, ts: int, user: int, roll: Roll)
    ensures RetryInGap(c, Captured(c, r, ts, user, roll).traffic.events) <==> RetryInGap(c, r.traffic.events)
  {
    hide RetryInGap, Hooked, ItemTotal, ItemRows, Diverts;
    var b := Capture(r.books, DivertFrom(c), ts, user, roll.items, roll.ref);
    HookedIsNoRetry(c, r.(books := b), PaymentFor(b.orders[|b.orders| - 1], roll.ref), roll,
                    Diverts(DivertFrom(c), ts));
  }

  lemma AttemptRetries(c: Config, r: Run, ts: int, user: int, roll: Roll, origin: Origin)
    requires ValidConfig(c)
    ensures RetryInGap(c, Attempted(c, r, ts, user, roll, origin).traffic.events) <==>
              RetryInGap(c, r.traffic.events) || (origin == Retry && InGap(c, ts))
  {
    hide RequestMetrics, Counted, RetryInGap, Bump, AccessLines, Captured, Failing, LimitAt, InGap, CheckoutStatus;
    hide Attempts;
    var counted := r.(counts := r.counts[(user, MinuteOf(ts)) := Attempts(r, ts, user)]);
    if Attempts(r, ts, user) > LimitAt(c, ts) {
      RetrySnoc(c, r.traffic.events, Notice(ts));
      RetrySnoc(c, r.traffic.events + [Notice(ts)],
                Access(Request(ts, "POST", "/checkout", 429, roll.latency, false, origin)));
    } else {
      var failing := Failing(c, ts, "POST /checkout");
      var status := CheckoutStatus(failing, roll.r);
      CapturedRetries(c, counted, ts, user, roll);
      var after := if status == 201 then Captured(c, counted, ts, user, roll) else counted;
      RetrySnoc(c, after.traffic.events,
                Access(Request(ts, "POST", "/checkout", status, roll.latency, failing, origin)));
    }
  }

  lemma {:induction false} DelayStep(ts: int, retries: seq<(int, Roll)>)
    requires retries != []
    ensures forall n :: 0 < n <= |retries| ==>
                          ts + Delay(retries, n) == ts + retries[0].0 + Delay(retries[1..], n - 1)
  {
  }

  lemma ReachesGapStep(c: Config, ts: int, retries: seq<(int, Roll)>)
    requires retries != []
    ensures var at := ts + retries[0].0;
            ReachesGap(c, ts, retries) <==> at < c.now && (InGap(c, at) || ReachesGap(c, at, retries[1..]))
  {
    hide InGap, Delay, ReachesGap;
    if ReachesGap(c, ts, retries) {
      ReachesGapOn(c, ts, retries);
    } else if ts + retries[0].0 < c.now
        && (InGap(c, ts + retries[0].0) || ReachesGap(c, ts + retries[0].0, retries[1..])) {
      ReachesGapBack(c, ts, retries);
    }
  }

  lemma ReachesGapOn(c: Config, ts: int, retries: seq<(int, Roll)>)
    requires ReachesGap(c, ts, retries)
    ensures var at := ts + retries[0].0;
            at < c.now && (InGap(c, at) || ReachesGap(c, at, retries[1..]))
  {
    var at, rest := ts + retries[0].0, retries[1..];
    DelayStep(ts, retries);
    assert Delay(rest, 0) == 0;
    hide InGap, Delay;
    var n :| 0 < n <= |retries| && InGap(c, ts + Delay(retries, n))
             && forall m :: 0 < m <= n ==> ts + Delay(retries, m) < c.now;
    assert ts + Delay(retries, 1) < c.now;
    if n > 1 {
      assert forall m :: 0 < m <= n - 1 ==> at + Delay(rest, m) == ts + Delay(retries, m + 1);
      assert InGap(c, at + Delay(rest, n - 1));
    }
  }

  lemma ReachesGapBack(c: Config, ts: int, retries: seq<(int, Roll)>)
    requires retries != [] && ts + retries[0].0 < c.now
    requires InGap(c, ts + retries[0].0) || ReachesGap(c, ts + retries[0].0, retries[1..])
    ensures ReachesGap(c, ts, retries)
  {
    var at, rest := ts + retries[0].0, retries[1..];
    DelayStep(ts, retries);
    assert Delay(rest, 0) == 0;
    hide InGap, Delay;
    if InGap(c, at) {
      assert InGap(c, ts + Delay(retries, 1));
    } else {
      var n :| 0 < n <= |rest| && InGap(c, at + Delay(rest, n))
               && forall m :: 0 < m <= n ==> at + Delay(rest, m) < c.now;
      assert InGap(c, ts + Delay(retries, n + 1));
    }
  }

  lemma {:induction false} BurstRetries(c: Config, r: Run, ts: int, user: int, retries: seq<(int, Roll)>)
    requires ValidConfig(c)
    ensures RetryInGap(c, Retried(c, r, ts, user, retries).traffic.events) <==>
              RetryInGap(c, r.traffic.events) || ReachesGap(c, ts, retries)
    decreases |retries|
  {
    hide Attempted, RetryInGap, ReachesGap;
    if retries == [] {
      assert !ReachesGap(c, ts, retries) by { NoRetries(c, ts); }
    } else {
      ReachesGapStep(c, ts, retries);
      var at := ts + retries[0].0;
      if at < c.now {
        AttemptRetries(c, r, at, user, retries[0].1, Retry);
        BurstRetries(c, Attempted(c, r, at, user, retries[0].1, Retry), at, user, retries[1..]);
      }
    }
  }

  lemma NoRetries(c: Config, ts: int)
    ensures !ReachesGap(c, ts, [])
  {
  }

  lemma ArrivalRetries(c: Config, r: Run, ts: int, choice: Choice)
    requires ValidConfig(c)
    ensures RetryInGap(c, Arrived(c, r, ts, choice).traffic.events) <==>
              RetryInGap(c, r.traffic.events) || (choice.Buy? && ReachesGap(c, ts, choice.retries))
  {
    hide Attempted, RetryInGap, ReachesGap, Retried, RequestMetrics, Counted, Failing, AccessLines;
    if choice.Buy? {
      AttemptRetries(c, r, ts, choice.user, choice.roll, Arrival);
      BurstRetries(c, Attempted(c, r, ts, choice.user, choice.roll, Arrival), ts, choice.user, choice.retries);
    } else {
      var failing := Failing(c, ts, choice.verb + " " + choice.template);
      RetrySnoc(c, r.traffic.events,
                Access(Request(ts, choice.verb, choice.template,
                               if failing then 500 else if choice.missing then 404 else 200, choice.latency, failing,
                               Arrival)));
    }
  }

  lemma SomeBurstSnoc(c: Config, arrivals: seq<(int, Choice)>, a: (int, Choice))
    ensures SomeBurstReachesGap(c, arrivals + [a]) <==>
              || SomeBurstReachesGap(c, arrivals)
              || (Served(c, a.0) && a.1.Buy? && ReachesGap(c, a.0, a.1.retries))
  {
    hide Served, ReachesGap;
    var all := arrivals + [a];
    assert all[|arrivals|] == a && forall i :: 0 <= i < |arrivals| ==> all[i] == arrivals[i];
  }

  /** A retry is simulated inside the gap if and only if some purchase served outside the gap has a burst that reaches
      into it. */
  lemma {:induction false} RetryInGapIff(c: Config, r: Run, arrivals: seq<(int, Choice)>)
    requires ValidConfig(c)
    ensures RetryInGap(c, Streamed(c, r, arrivals).traffic.events) <==>
              RetryInGap(c, r.traffic.events) || SomeBurstReachesGap(c, arrivals)
    decreases |arrivals|
  {
    if arrivals == [] {
    } else {
      hide Arrived, RetryInGap, SomeBurstReachesGap, ReachesGap;
      var init, a := arrivals[..|arrivals| - 1], arrivals[|arrivals| - 1];
      RetryInGapIff(c, r, init);
      assert arrivals == init + [a];
      SomeBurstSnoc(c, init, a);
      ArrivalRetries(c, Streamed(c, r, init), a.0, a.1);
    }
  }

  /** A gateway call a second or more after the restart of a service that stays down. */
  predicate CallsLate(c: Config, at: int) {
    && c.fault.Some? && c.fault.value.restart == Dead
    && c.fault.value.restartAt + SECONDS <= at < c.now
  }

  /** A simulated gateway call lies in the gap exactly when it is such a call. */
  lemma HookInGapIff(c: Config, at: int)
    requires HookHappens(c, at)
    ensures InGap(c, at) <==> CallsLate(c, at)
  {
  }

  predicate IsInGap(c: Config, e: Event) {
    e.Access? && InGap(c, e.rq.ts)
  }

  predicate IsLateHook(c: Config, e: Event) {
    e.Access? && e.rq.origin == Webhook && CallsLate(c, e.rq.ts)
  }

  /** What lies in the gap is a retry, or a late call of the gateway to a service that stays down; nothing else. */
  lemma InGapIsRetryOrLateHook(c: Config, e: Event)
    requires e.Access? ==> Placed(c, e.rq)
    ensures IsInGap(c, e) <==> IsRetryInGap(c, e) || IsLateHook(c, e)
  {
    hide HookHappens, InGap;
    if e.Access? && e.rq.origin == Webhook {
      HookInGapIff(c, e.rq.ts);
    }
  }

  ghost predicate GapIsQuiet(c: Config, events: seq<Event>) {
    forall i :: 0 <= i < |events| ==> !IsInGap(c, events[i])
  }

  ghost predicate LateHook(c: Config, events: seq<Event>) {
    exists i :: 0 <= i < |events| && IsLateHook(c, events[i])
  }

  /** One checkout attempt of the stream. */
  datatype Try = Try(ts: int, user: int, roll: Roll)

  function Burst(c: Config, ts: int, user: int, retries: seq<(int, Roll)>): seq<Try>
    decreases |retries|
  {
    if retries == [] || ts + retries[0].0 >= c.now then []
    else
      var at := ts + retries[0].0;
      [Try(at, user, retries[0].1)] + Burst(c, at, user, retries[1..])
  }

  function TriesOf(c: Config, a: (int, Choice)): seq<Try> {
    if Served(c, a.0) && a.1.Buy? then [Try(a.0, a.1.user, a.1.roll)] + Burst(c, a.0, a.1.user, a.1.retries) else []
  }

  /** The checkout attempts of the stream, in the order in which they are simulated. */
  function Tries(c: Config, arrivals: seq<(int, Choice)>): seq<Try> {
    if arrivals == [] then [] else Tries(c, arrivals[..|arrivals| - 1]) + TriesOf(c, arrivals[|arrivals| - 1])
  }

  /** How many attempts of a user lie in a minute. */
  function TriesIn(tries: seq<Try>, user: int, minute: int): nat {
    if tries == [] then 0 else
      var t := tries[|tries| - 1];
      TriesIn(tries[..|tries| - 1], user, minute) + if t.user == user && MinuteOf(t.ts) == minute then 1 else 0
  }

  /** An attempt that the limiter lets through and that ends in a captured payment. */
  predicate Captures(c: Config, earlier: seq<Try>, t: Try)
    requires ValidConfig(c)
  {
    && TriesIn(earlier, t.user, MinuteOf(t.ts)) < LimitAt(c, t.ts)
    && CheckoutStatus(Failing(c, t.ts, "POST /checkout"), t.roll.r) == 201
  }

  ghost predicate SomeCallsLate(c: Config, tries: seq<Try>)
    requires ValidConfig(c)
  {
    exists i :: 0 <= i < |tries| && Captures(c, tries[..i], tries[i]) && CallsLate(c, tries[i].ts + tries[i].roll.delay)
  }

  lemma LateSnoc(c: Config, events: seq<Event>, e: Event)
    ensures LateHook(c, events + [e]) <==> LateHook(c, events) || IsLateHook(c, e)
  {
    hide IsLateHook;
    var all := events + [e];
    assert all[|events|] == e && forall i :: 0 <= i < |events| ==> all[i] == events[i];
  }

  lemma HookedLate(c: Config, r: Run, p: PaymentRow, roll: Roll, diverted: bool)
    ensures LateHook(c, Hooked(c, r, p, roll, diverted).traffic.events) <==>
              LateHook(c, r.traffic.events) || CallsLate(c, p.at + roll.delay)
    ensures Hooked(c, r, p, roll, diverted).counts == r.counts
  {
    hide RequestMetrics, Counted, HookRejected, LateHook, Bump, AccessLines;
    var at, events := p.at + roll.delay, r.traffic.events;
    var rq := Request(at, "POST", "/webhooks/payments", if HookRejected(c, at) then 401 else 200, roll.hookLatency,
                      false, Webhook);
    LateSnoc(c, events, Notice(at));
    LateSnoc(c, events + [Notice(at)], Access(rq));
    LateSnoc(c, events, Access(rq));
  }

  lemma AttemptLate(c: Config, r: Run, t: Try, origin: Origin)
    requires ValidConfig(c) && origin != Webhook
    ensures LateHook(c, Attempted(c, r, t.ts, t.user, t.roll, origin).traffic.events) <==>
              || LateHook(c, r.traffic.events)
              || (&& Attempts(r, t.ts, t.user) <= LimitAt(c, t.ts)
                  && CheckoutStatus(Failing(c, t.ts, "POST /checkout"), t.roll.r) == 201
                  && CallsLate(c, t.ts + t.roll.delay))
    ensures Attempted(c, r, t.ts, t.user, t.roll, origin).counts
         == r.counts[(t.user, MinuteOf(t.ts)) := Attempts(r, t.ts, t.user)]
  {
    hide RequestMetrics, Counted, LateHook, Bump, AccessLines, Captured, Failing, LimitAt, CheckoutStatus, CallsLate;
    hide Attempts;
    var Try(ts, user, roll) := t;
    var counted := r.(counts := r.counts[(user, MinuteOf(ts)) := Attempts(r, ts, user)]);
    if Attempts(r, ts, user) > LimitAt(c, ts) {
      LateSnoc(c, r.traffic.events, Notice(ts));
      LateSnoc(c, r.traffic.events + [Notice(ts)],
               Access(Request(ts, "POST", "/checkout", 429, roll.latency, false, origin)));
    } else {
      var failing := Failing(c, ts, "POST /checkout");
      var status := CheckoutStatus(failing, roll.r);
      CapturedLate(c, counted, ts, user, roll);
      var after := if status == 201 then Captured(c, counted, ts, user, roll) else counted;
      LateSnoc(c, after.traffic.events,
               Access(Request(ts, "POST", "/checkout", status, roll.latency, failing, origin)));
    }
  }

  lemma CapturedLate(c: Config, r: Run, ts: int, user: int, roll: Roll)
    ensures LateHook(c, Captured(c, r, ts, user, roll).traffic.events) <==>
              LateHook(c, r.traffic.events) || CallsLate(c, ts + roll.delay)
    ensures Captured(c, r, ts, user, roll).counts == r.counts
  {
    hide LateHook, CallsLate, Hooked, ItemTotal, ItemRows, Diverts;
    var b := Capture(r.books, DivertFrom(c), ts, user, roll.items, roll.ref);
    HookedLate(c, r.(books := b), PaymentFor(b.orders[|b.orders| - 1], roll.ref), roll, Diverts(DivertFrom(c), ts));
  }

  /** A run that has made just these attempts. */
  ghost predicate Tracks(c: Config, r: Run, tries: seq<Try>)
    requires ValidConfig(c)
  {
    && (forall ts, user :: Attempts(r, ts, user) == TriesIn(tries, user, MinuteOf(ts)) + 1)
    && (LateHook(c, r.traffic.events) <==> SomeCallsLate(c, tries))
  }

  lemma CallsLateSnoc(c: Config, tries: seq<Try>, t: Try)
    requires ValidConfig(c)
    ensures SomeCallsLate(c, tries + [t]) <==>
              SomeCallsLate(c, tries) || (Captures(c, tries, t) && CallsLate(c, t.ts + t.roll.delay))
  {
    hide Captures, CallsLate;
    var all := tries + [t];
    assert all[|tries|] == t && all[..|tries|] == tries;
    assert forall i :: 0 <= i < |tries| ==> all[i] == tries[i] && all[..i] == tries[..i];
  }

  lemma {:induction false} TriesSnoc(tries: seq<Try>, t: Try, user: int, minute: int)
    ensures TriesIn(tries + [t], user, minute) ==
            TriesIn(tries, user, minute) + if t.user == user && MinuteOf(t.ts) == minute then 1 else 0
  {
    assert (tries + [t])[..|tries|] == tries;
  }

  lemma AttemptTracks(c: Config, r: Run, tries: seq<Try>, t: Try, origin: Origin)
    requires ValidConfig(c) && Tracks(c, r, tries) && origin != Webhook
    ensures Tracks(c, Attempted(c, r, t.ts, t.user, t.roll, origin), tries + [t])
  {
    hide Attempted, LateHook, SomeCallsLate, CallsLate, LimitAt, CheckoutStatus, Failing, MinuteOf, TriesIn;
    AttemptLate(c, r, t, origin);
    CallsLateSnoc(c, tries, t);
    var after := Attempted(c, r, t.ts, t.user, t.roll, origin);
    forall ts, user ensures Attempts(after, ts, user) == TriesIn(tries + [t], user, MinuteOf(ts)) + 1 {
      TriesSnoc(tries, t, user, MinuteOf(ts));
      assert Attempts(r, ts, user) == TriesIn(tries, user, MinuteOf(ts)) + 1;
      assert Attempts(r, t.ts, t.user) == TriesIn(tries, t.user, MinuteOf(t.ts)) + 1;
    }
    assert Attempts(r, t.ts, t.user) == TriesIn(tries, t.user, MinuteOf(t.ts)) + 1;
  }

  lemma {:induction false} BurstTracks(c: Config, r: Run, tries: seq<Try>, ts: int, user: int,
                                       retries: seq<(int, Roll)>)
    requires ValidConfig(c) && Tracks(c, r, tries)
    ensures Tracks(c, Retried(c, r, ts, user, retries), tries + Burst(c, ts, user, retries))
    decreases |retries|
  {
    hide Attempted, Tracks;
    if retries == [] || ts + retries[0].0 >= c.now {
      assert tries + [] == tries;
    } else {
      var t := Try(ts + retries[0].0, user, retries[0].1);
      AttemptTracks(c, r, tries, t, Retry);
      BurstTracks(c, Attempted(c, r, t.ts, user, t.roll, Retry), tries + [t], t.ts, user, retries[1..]);
      var rest := Burst(c, t.ts, user, retries[1..]);
      assert tries + ([t] + rest) == tries + [t] + rest;
    }
  }

  lemma LookTracks(c: Config, r: Run, tries: seq<Try>, rq: Request)
    requires ValidConfig(c) && Tracks(c, r, tries) && rq.origin != Webhook
    ensures Tracks(c, Recorded(c, r, rq), tries)
  {
    hide LateHook, SomeCallsLate, RequestMetrics, Counted, AccessLines;
    LateSnoc(c, r.traffic.events, Access(rq));
  }

  lemma ArrivalTracks(c: Config, r: Run, tries: seq<Try>, ts: int, choice: Choice)
    requires ValidConfig(c) && Tracks(c, r, tries) && Served(c, ts)
    ensures Tracks(c, Arrived(c, r, ts, choice), tries + TriesOf(c, (ts, choice)))
  {
    hide Attempted, Tracks, Retried, Burst, Recorded, Served, Failing;
    if choice.Buy? {
      var t := Try(ts, choice.user, choice.roll);
      AttemptTracks(c, r, tries, t, Arrival);
      BurstTracks(c, Attempted(c, r, ts, choice.user, choice.roll, Arrival), tries + [t], ts, choice.user,
                  choice.retries);
      var burst := Burst(c, ts, choice.user, choice.retries);
      assert tries + ([t] + burst) == tries + [t] + burst;
    } else {
      assert tries + [] == tries;
      var failing := Failing(c, ts, choice.verb + " " + choice.template);
      LookTracks(c, r, tries,
                 Request(ts, choice.verb, choice.template, if failing then 500 else if choice.missing then 404 else 200,
                         choice.latency, failing, Arrival));
    }
  }

  lemma {:induction false} StreamTracks(c: Config, base: nat, arrivals: seq<(int, Choice)>)
    requires ValidConfig(c)
    ensures Tracks(c, Streamed(c, Run(Empty(base), QUIET, map[]), arrivals), Tries(c, arrivals))
    decreases |arrivals|
  {
    if arrivals == [] {
    } else {
      hide Arrived, Tracks, Refuse;
      var (ts, choice) := arrivals[|arrivals| - 1];
      var before := Streamed(c, Run(Empty(base), QUIET, map[]), arrivals[..|arrivals| - 1]);
      var tries := Tries(c, arrivals[..|arrivals| - 1]);
      StreamTracks(c, base, arrivals[..|arrivals| - 1]);
      if Served(c, ts) {
        ArrivalTracks(c, before, tries, ts, choice);
      } else {
        assert tries + [] == tries;
        RefusedTracks(c, before, tries, ts, VerbOf(choice), TemplateOf(choice));
      }
    }
  }

  lemma RefusedTracks(c: Config, r: Run, tries: seq<Try>, ts: int, verb: string, template: string)
    requires ValidConfig(c) && Tracks(c, r, tries)
    ensures Tracks(c, r.(traffic := Refuse(r.traffic, ts, verb, template)), tries)
  {
    hide LateHook, SomeCallsLate;
  }

  /** Probes are left out in the gap. */
  lemma {:induction false} ProbesStayOutside(c: Config, r: Run, requests: seq<Request>)
    ensures GapIsQuiet(c, Probed(c, r, requests).traffic.events) <==> GapIsQuiet(c, r.traffic.events)
    decreases |requests|
  {
    if requests == [] {
    } else {
      hide RequestMetrics, Counted, AccessLines, Bump, InGap;
      var before, rq := Probed(c, r, requests[..|requests| - 1]), requests[|requests| - 1];
      ProbesStayOutside(c, r, requests[..|requests| - 1]);
      var events, after := before.traffic.events, before.traffic.events + [Access(rq)];
      assert after[|events|] == Access(rq) && forall i :: 0 <= i < |events| ==> after[i] == events[i];
    }
  }

  lemma {:induction false} StreamIsQuietIff(c: Config, base: nat, arrivals: seq<(int, Choice)>)
    requires ValidConfig(c)
    ensures GapIsQuiet(c, Streamed(c, Run(Empty(base), QUIET, map[]), arrivals).traffic.events) <==>
              !SomeBurstReachesGap(c, arrivals) && !SomeCallsLate(c, Tries(c, arrivals))
  {
    hide Streamed, BooksOk, TrafficOk, SomeBurstReachesGap, SomeCallsLate, IsInGap, IsRetryInGap, IsLateHook, NoGauges,
         Placed, Attempts, Tries, TriesIn;
    var r := Run(Empty(base), QUIET, map[]);
    NewRunIsOk(c, base);
    StreamKeeps(c, r, arrivals);
    RetryInGapIff(c, r, arrivals);
    StreamTracks(c, base, arrivals);
    var events := Streamed(c, r, arrivals).traffic.events;
    forall i | 0 <= i < |events|
      ensures IsInGap(c, events[i]) <==> IsRetryInGap(c, events[i]) || IsLateHook(c, events[i])
    {
      assert events[i].Access? ==> Placed(c, events[i].rq);
      InGapIsRetryOrLateHook(c, events[i]);
    }
  }

  /** The run of a whole history, before the gauges are written. */
  function HistoryOf(c: Config, base: nat, arrivals: seq<(int, Choice)>, probes: seq<Request>): Run
    requires ValidConfig(c)
  {
    Probed(c, Streamed(c, Run(Empty(base), QUIET, map[]), arrivals), probes)
  }

  /** Probe requests lie before the end of the history. */
  predicate ProbesFit(c: Config, probes: seq<Request>) {
    forall i :: 0 <= i < |probes| ==>
                  probes[i].ts < c.now && probes[i].status != 502 && probes[i].origin in {Scan, Probe}
  }

  lemma HistoryIsOk(c: Config, base: nat, arrivals: seq<(int, Choice)>, probes: seq<Request>)
    requires ValidConfig(c) && ProbesFit(c, probes)
    ensures RunOk(c, HistoryOf(c, base, arrivals, probes)) && HistoryOf(c, base, arrivals, probes).books.base == base
  {
    hide RunOk, Streamed, Probed;
    var r := Run(Empty(base), QUIET, map[]);
    NewRunIsOk(c, base);
    StreamKeeps(c, r, arrivals);
    ProbesKeep(c, Streamed(c, r, arrivals), probes);
  }

  /** Nothing is simulated inside the gap if and only if no burst of a served purchase reaches into it and no attempt
      captures a payment whose confirmation comes late to a service that stays down. */
  lemma {:induction false} GapIsQuietIff(c: Config, base: nat, arrivals: seq<(int, Choice)>, probes: seq<Request>)
    requires ValidConfig(c)
    ensures GapIsQuiet(c, HistoryOf(c, base, arrivals, probes).traffic.events) <==>
              !SomeBurstReachesGap(c, arrivals) && !SomeCallsLate(c, Tries(c, arrivals))
  {
    hide Streamed, Probed, GapIsQuiet, SomeBurstReachesGap, SomeCallsLate, Tries;
    ProbesStayOutside(c, Streamed(c, Run(Empty(base), QUIET, map[]), arrivals), probes);
    StreamIsQuietIff(c, base, arrivals);
  }

  /** The refused lines of a whole history. */
  lemma {:induction false} RefusedInHistory(c: Config, base: nat, arrivals: seq<(int, Choice)>, probes: seq<Request>)
    requires ValidConfig(c) && forall i :: 0 <= i < |probes| ==> probes[i].status != 502
    ensures RefusedIn(HistoryOf(c, base, arrivals, probes)) == GapArrivals(c, arrivals)
  {
    hide Streamed, Probed, GapArrivals;
    var r := Run(Empty(base), QUIET, map[]);
    RefusedAreGapArrivals(c, r, arrivals);
    ProbesRefuseNothing(c, Streamed(c, r, arrivals), probes);
  }

  lemma NewRunIsOk(c: Config, base: nat)
    ensures RunOk(c, Run(Empty(base), QUIET, map[]))
  {
  }

  /** An ordinary restart: a purchase three seconds before it with a retry after one and a half puts that retry into
      the gap, whatever else was drawn. */
  lemma {:induction false} RetryLandsInGap(c: Config, base: nat, user: int, roll: Roll, retry: Roll)
    requires ValidConfig(c) && c.fault.Some? && c.fault.value.restart == Restarted
    requires c.start <= c.fault.value.restartAt - 3 * SECONDS && c.fault.value.restartAt <= c.now
    ensures var at := c.fault.value.restartAt - 3 * SECONDS;
            var arrivals := [(at, Buy(user, roll, [(1_500_000, retry)]))];
            RetryInGap(c, Streamed(c, Run(Empty(base), QUIET, map[]), arrivals).traffic.events)
  {
    hide Streamed;
    var at, retries := c.fault.value.restartAt - 3 * SECONDS, [(1_500_000, retry)];
    var arrivals := [(at, Buy(user, roll, retries))];
    RetryInGapIff(c, Run(Empty(base), QUIET, map[]), arrivals);
    assert Delay(retries, 1) == 1_500_000 + Delay(retries[1..], 0);
    assert ReachesGap(c, at, retries);
    assert Served(c, arrivals[0].0) && arrivals[0].1.Buy? && ReachesGap(c, arrivals[0].0, arrivals[0].1.retries);
  }

  /** A service that stays down: the gateway's call for a purchase three seconds before the restart, made five seconds
      later, is answered inside the gap. */
  lemma {:induction false} HookLandsInDeadGap(c: Config, base: nat, user: int, roll: Roll)
    requires ValidConfig(c) && c.fault.Some? && c.fault.value.restart == Dead && c.fault.value.rateLimit == None
    requires c.start <= c.fault.value.restartAt - 3 * SECONDS && c.fault.value.restartAt + 3 * SECONDS < c.now
    requires c.fault.value.incident.failing == {} && roll.r >= 0.04 && roll.delay == 5 * SECONDS
    ensures var at := c.fault.value.restartAt - 3 * SECONDS;
            var events := Streamed(c, Run(Empty(base), QUIET, map[]), [(at, Buy(user, roll, []))]).traffic.events;
            |events| == 2 && IsLateHook(c, events[0]) && events[0].rq.status == 200 && IsInGap(c, events[0])
  {
    hide RequestMetrics, Counted, AccessLines, ItemTotal, ItemRows;
    var r0 := Run(Empty(base), QUIET, map[]);
    var at, hookAt := c.fault.value.restartAt - 3 * SECONDS, c.fault.value.restartAt + 2 * SECONDS;
    var arrivals := [(at, Buy(user, roll, []))];
    assert arrivals[..0] == [];
    assert Streamed(c, r0, arrivals) == Arrived(c, r0, at, arrivals[0].1);
    assert Arrived(c, r0, at, arrivals[0].1) == Attempted(c, r0, at, user, roll, Arrival);
    var counted := r0.(counts := r0.counts[(user, MinuteOf(at)) := Attempts(r0, at, user)]);
    assert Attempted(c, r0, at, user, roll, Arrival)
        == Recorded(c, Captured(c, counted, at, user, roll),
                    Request(at, "POST", "/checkout", 201, roll.latency, false, Arrival));
    var rq := Request(hookAt, "POST", "/webhooks/payments", 200, roll.hookLatency, false, Webhook);
    assert Captured(c, counted, at, user, roll).traffic == Record(counted.traffic, rq, IncidentAt(c));
    var events := Streamed(c, r0, arrivals).traffic.events;
    assert events == [Access(rq), Access(Request(at, "POST", "/checkout", 201, roll.latency, false, Arrival))];
    assert InGap(c, hookAt);
  }
}
