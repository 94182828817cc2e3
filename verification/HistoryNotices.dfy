/** The warnings and the counters that go with refusals and failures: each stands for one response of its kind. */
module HistoryNotices {
  import opened Options
  import opened HistoryBooks
  import opened HistoryTraffic
  import opened HistoryRun

  /** Requests of users and of the gateway; probes and bot scans are not simulated responses of the service. */
  predicate Simulated(e: Event) {
    e.Access? && e.rq.origin in {Arrival, Retry, Webhook}
  }

  /** The times of the warning lines of the log. */
  function Notices(events: seq<Event>): seq<int> {
    if events == [] then [] else
      Notices(events[..|events| - 1]) + if events[|events| - 1].Notice? then [events[|events| - 1].ts] else []
  }

  predicate Warns(e: Event) {
    Simulated(e) && e.rq.status in {401, 429}
  }

  /** The times of the responses that refuse: over the limit, or a wrong signature. */
  function Refusals(events: seq<Event>): seq<int> {
    if events == [] then [] else
      Refusals(events[..|events| - 1]) + if Warns(events[|events| - 1]) then [events[|events| - 1].rq.ts] else []
  }

  /** The responses of one status in one minute. */
  function Responses(events: seq<Event>, status: nat, m: int): nat {
    if events == [] then 0 else
      var e := events[|events| - 1];
      Responses(events[..|events| - 1], status, m)
      + if Simulated(e) && e.rq.status == status && MinuteOf(e.rq.ts) == m then 1 else 0
  }

  function DbErrorsOf(c: Config, e: Event): nat {
    if e.Notice? then 0
    else (if e.rq.failed && c.fault.Some? then 1 else 0)
         + (if e.rq.origin in {Scan, Probe} && e.rq.status == 503 then 1 else 0)
  }

  /** Failed requests while there is a fault, and degraded probes, of one minute. */
  function Failures(c: Config, events: seq<Event>, m: int): nat {
    if events == [] then 0 else
      var e := events[|events| - 1];
      Failures(c, events[..|events| - 1], m) + if e.Access? && MinuteOf(e.rq.ts) == m then DbErrorsOf(c, e) else 0
  }

  /** The three counters of one minute count its refusals and failures. */
  predicate MinuteAgrees(c: Config, t: Traffic, m: int) {
    && Get(t.metrics, (m, RateLimited)) == 1000 * Responses(t.events, 429, m)
    && Get(t.metrics, (m, WebhookFailures)) == 1000 * Responses(t.events, 401, m)
    && Get(t.metrics, (m, DbErrors)) == 1000 * Failures(c, t.events, m)
  }

  /** The warnings stand at the times of the refusals, in order, and the counters count. */
  ghost predicate NoticesAgree(c: Config, t: Traffic) {
    Notices(t.events) == Refusals(t.events) && forall m :: MinuteAgrees(c, t, m)
  }

  // ---------------------------------------------------------------- one request

  lemma {:induction false} Snoc(c: Config, events: seq<Event>, e: Event, status: nat, m: int)
    ensures Notices(events + [e]) == Notices(events) + if e.Notice? then [e.ts] else []
    ensures Refusals(events + [e]) == Refusals(events) + if Warns(e) then [e.rq.ts] else []
    ensures Responses(events + [e], status, m) == Responses(events, status, m)
            + if Simulated(e) && e.rq.status == status && MinuteOf(e.rq.ts) == m then 1 else 0
    ensures Failures(c, events + [e], m)
         == Failures(c, events, m) + if e.Access? && MinuteOf(e.rq.ts) == m then DbErrorsOf(c, e) else 0
  {
    assert (events + [e])[..|events|] == events;
  }

  lemma OtherMetrics(metrics: map<Key, int>, rq: Request, hasIncident: bool, m: int)
    ensures var after := RequestMetrics(metrics, rq, hasIncident);
            && Get(after, (m, RateLimited)) == Get(metrics, (m, RateLimited))
            && Get(after, (m, WebhookFailures)) == Get(metrics, (m, WebhookFailures))
            && Get(after, (m, DbErrors)) == Get(metrics, (m, DbErrors))
                                            + if rq.failed && hasIncident && MinuteOf(rq.ts) == m then 1000 else 0
  {
  }

  /** A response without a warning. */
  lemma RecordAgrees(c: Config, t: Traffic, rq: Request)
    requires NoticesAgree(c, t) && !Warns(Access(rq)) && !(rq.origin in {Scan, Probe} && rq.status == 503)
    ensures NoticesAgree(c, Record(t, rq, IncidentAt(c)))
  {
    hide RequestMetrics, Get, Counted, Notices, Refusals, Responses, Failures, AccessLines;
    var after := Record(t, rq, IncidentAt(c));
    forall m ensures MinuteAgrees(c, after, m) {
      assert MinuteAgrees(c, t, m);
      OtherMetrics(t.metrics, rq, c.fault.Some?, m);
      Snoc(c, t.events, Access(rq), 429, m);
      Snoc(c, t.events, Access(rq), 401, m);
    }
    Snoc(c, t.events, Access(rq), 0, 0);
  }

  /** A degraded probe, with the database error it also counts. */
  lemma DegradedAgrees(c: Config, t: Traffic, rq: Request)
    requires NoticesAgree(c, t) && rq.origin in {Scan, Probe} && rq.status == 503
    ensures var after := Record(t, rq, IncidentAt(c));
            NoticesAgree(c, after.(metrics := Bump(after.metrics, rq.ts, DbErrors, 1000)))
  {
    hide RequestMetrics, Counted, Notices, Refusals, Responses, Failures, AccessLines;
    var after := Record(t, rq, IncidentAt(c));
    forall m ensures MinuteAgrees(c, after.(metrics := Bump(after.metrics, rq.ts, DbErrors, 1000)), m) {
      assert MinuteAgrees(c, t, m);
      OtherMetrics(t.metrics, rq, c.fault.Some?, m);
      Snoc(c, t.events, Access(rq), 429, m);
      Snoc(c, t.events, Access(rq), 401, m);
    }
    Snoc(c, t.events, Access(rq), 0, 0);
  }

  /** A refusal, with the warning before it. */
  lemma RefusalAgrees(c: Config, t: Traffic, metric: Metric, rq: Request)
    requires NoticesAgree(c, t) && rq.origin in {Arrival, Retry, Webhook} && !rq.failed
    requires (metric == RateLimited && rq.status == 429) || (metric == WebhookFailures && rq.status == 401)
    ensures NoticesAgree(c, Record(Note(t, rq.ts, metric), rq, IncidentAt(c)))
  {
    hide RequestMetrics, Counted, Notices, Refusals, Responses, Failures, AccessLines;
    var noted, e := t.events + [Notice(rq.ts)], Access(rq);
    var after := Record(Note(t, rq.ts, metric), rq, IncidentAt(c));
    forall m ensures MinuteAgrees(c, after, m) {
      assert MinuteAgrees(c, t, m);
      OtherMetrics(Note(t, rq.ts, metric).metrics, rq, c.fault.Some?, m);
      Snoc(c, t.events, Notice(rq.ts), 429, m);
      Snoc(c, t.events, Notice(rq.ts), 401, m);
      Snoc(c, noted, e, 429, m);
      Snoc(c, noted, e, 401, m);
    }
    Snoc(c, t.events, Notice(rq.ts), 0, 0);
    Snoc(c, noted, e, 0, 0);
  }

  // ---------------------------------------------------------------- the steps

  lemma HookedAgrees(c: Config, r: Run, p: PaymentRow, roll: Roll, diverted: bool)
    requires NoticesAgree(c, r.traffic)
    ensures NoticesAgree(c, Hooked(c, r, p, roll, diverted).traffic)
  {
    hide Record, Note, NoticesAgree, HookRejected, HookHappens;
    var at := p.at + roll.delay;
    var rq := Request(at, "POST", "/webhooks/payments", if HookRejected(c, at) then 401 else 200, roll.hookLatency,
                      false, Webhook);
    if HookHappens(c, at) && HookRejected(c, at) {
      RefusalAgrees(c, r.traffic, WebhookFailures, rq);
    } else if HookHappens(c, at) {
      RecordAgrees(c, r.traffic, rq);
    }
  }

  lemma AttemptedAgrees(c: Config, r: Run, ts: int, user: int, roll: Roll, origin: Origin)
    requires ValidConfig(c) && NoticesAgree(c, r.traffic) && origin in {Arrival, Retry}
    ensures NoticesAgree(c, Attempted(c, r, ts, user, roll, origin).traffic)
  {
    hide Record, Note, NoticesAgree, Failing, LimitAt, Hooked;
    var counted := r.(counts := r.counts[(user, MinuteOf(ts)) := Attempts(r, ts, user)]);
    if Attempts(r, ts, user) > LimitAt(c, ts) {
      RefusalAgrees(c, r.traffic, RateLimited, Request(ts, "POST", "/checkout", 429, roll.latency, false, origin));
    } else {
      var failing := Failing(c, ts, "POST /checkout");
      var status := CheckoutStatus(failing, roll.r);
      var after := if status == 201 then Captured(c, counted, ts, user, roll) else counted;
      if status == 201 {
        var b := Capture(r.books, DivertFrom(c), ts, user, roll.items, roll.ref);
        HookedAgrees(c, counted.(books := b), PaymentFor(b.orders[|b.orders| - 1], roll.ref), roll,
                     Diverts(DivertFrom(c), ts));
      }
      RecordAgrees(c, after.traffic, Request(ts, "POST", "/checkout", status, roll.latency, failing, origin));
    }
  }

  lemma {:induction false} RetriedAgrees(c: Config, r: Run, ts: int, user: int, retries: seq<(int, Roll)>)
    requires ValidConfig(c) && NoticesAgree(c, r.traffic)
    ensures NoticesAgree(c, Retried(c, r, ts, user, retries).traffic)
    decreases |retries|
  {
    hide Attempted, NoticesAgree;
    if retries == [] {
    } else if ts + retries[0].0 < c.now {
      var at := ts + retries[0].0;
      AttemptedAgrees(c, r, at, user, retries[0].1, Retry);
      RetriedAgrees(c, Attempted(c, r, at, user, retries[0].1, Retry), at, user, retries[1..]);
    }
  }

  lemma ArrivedAgrees(c: Config, r: Run, ts: int, choice: Choice)
    requires ValidConfig(c) && NoticesAgree(c, r.traffic)
    ensures NoticesAgree(c, Arrived(c, r, ts, choice).traffic)
  {
    hide Attempted, NoticesAgree, Record, Failing, Retried;
    if choice.Buy? {
      AttemptedAgrees(c, r, ts, choice.user, choice.roll, Arrival);
      RetriedAgrees(c, Attempted(c, r, ts, choice.user, choice.roll, Arrival), ts, choice.user, choice.retries);
    } else {
      var failing := Failing(c, ts, choice.verb + " " + choice.template);
      RecordAgrees(c, r.traffic, Request(ts, choice.verb, choice.template,
                                         if failing then 500 else if choice.missing then 404 else 200, choice.latency,
                                         failing, Arrival));
    }
  }

  lemma {:induction false} StreamedAgrees(c: Config, base: nat, arrivals: seq<(int, Choice)>)
    requires ValidConfig(c)
    ensures NoticesAgree(c, Streamed(c, Run(Empty(base), QUIET, map[]), arrivals).traffic)
    decreases |arrivals|
  {
    hide Arrived, InGap, NoticesAgree, Refuse;
    if arrivals == [] {
      NothingNoticed(c);
    } else {
      var (ts, choice) := arrivals[|arrivals| - 1];
      var before := Streamed(c, Run(Empty(base), QUIET, map[]), arrivals[..|arrivals| - 1]);
      StreamedAgrees(c, base, arrivals[..|arrivals| - 1]);
      ArrivedAgrees(c, before, ts, choice);
      RefusedAgrees(c, before.traffic, ts, VerbOf(choice), TemplateOf(choice));
    }
  }

  lemma NothingNoticed(c: Config)
    ensures NoticesAgree(c, QUIET)
  {
  }

  /** The service knows nothing of what the proxy refuses. */
  lemma RefusedAgrees(c: Config, t: Traffic, ts: int, verb: string, template: string)
    requires NoticesAgree(c, t)
    ensures NoticesAgree(c, Refuse(t, ts, verb, template))
  {
    forall m ensures MinuteAgrees(c, Refuse(t, ts, verb, template), m) {
      assert MinuteAgrees(c, t, m);
    }
  }

  lemma {:induction false} ProbedAgrees(c: Config, r: Run, probes: seq<Request>)
    requires NoticesAgree(c, r.traffic) && ProbesFit(c, probes)
    ensures NoticesAgree(c, Probed(c, r, probes).traffic)
    decreases |probes|
  {
    hide NoticesAgree, InGap, Record, Bump;
    if probes == [] {
    } else {
      var before, rq := Probed(c, r, probes[..|probes| - 1]), probes[|probes| - 1];
      ProbedAgrees(c, r, probes[..|probes| - 1]);
      if rq.status == 503 {
        DegradedAgrees(c, before.traffic, rq);
      } else {
        RecordAgrees(c, before.traffic, rq);
      }
    }
  }

  /** In a whole history every refusal has its warning and its count, and every failure its database error. */
  lemma HistoryNotices(c: Config, base: nat, arrivals: seq<(int, Choice)>, probes: seq<Request>)
    requires ValidConfig(c) && ProbesFit(c, probes)
    ensures NoticesAgree(c, HistoryOf(c, base, arrivals, probes).traffic)
  {
    hide NoticesAgree, Streamed, Probed;
    StreamedAgrees(c, base, arrivals);
    ProbedAgrees(c, Streamed(c, Run(Empty(base), QUIET, map[]), arrivals), probes);
  }
}
