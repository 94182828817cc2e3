/** The history simulator as it runs: lists, counters and metric tables filled by loops, then gauges and rows. */
module History {
  import opened Options
  import opened HistoryBooks
  import opened HistoryTraffic
  import opened HistoryRun
  import HistoryNotices
  import HistoryOutcomes

  class Sim {
    const config: Config
    const base: nat

    var maxOrderId: nat
    var newOrders: seq<OrderRow>
    var newItems: seq<ItemRow>
    var newPayments: seq<PaymentRow>
    var divertedPayments: seq<PaymentRow>
    var ledgerPaymentTimes: seq<int>
    var newSettlements: seq<SettlementRow>
    var settlementTimes: seq<int>

    var events: seq<Event>
    var nginxAccess: seq<NginxLine>
    var metrics: map<Key, int>
    var stats: Stats
    var rateCounts: map<(int, int), nat>

    function TheBooks(): Books
      reads this
    {
      Books(base, maxOrderId, newOrders, newItems, newPayments, divertedPayments, ledgerPaymentTimes, newSettlements,
            settlementTimes)
    }

    function TheTraffic(): Traffic
      reads this
    {
      Traffic(events, nginxAccess, metrics, stats)
    }

    function TheRun(): Run
      reads this
    {
      Run(TheBooks(), TheTraffic(), rateCounts)
    }

    constructor (config: Config, base: nat)
      requires ValidConfig(config)
      ensures TheRun() == Run(Empty(base), QUIET, map[]) && this.config == config
    {
      this.config, this.base := config, base;
      maxOrderId, newOrders, newItems, newPayments, divertedPayments := base, [], [], [], [];
      ledgerPaymentTimes, newSettlements, settlementTimes := [], [], [];
      events, nginxAccess, metrics, stats, rateCounts := [], [], map[], Stats(0, 0, 0, 0), map[];
    }

    method BumpMetric(ts: int, metric: Metric, v: int)
      modifies this`metrics
      ensures metrics == Bump(old(metrics), ts, metric, v)
    {
      var k := (MinuteOf(ts), metric);
      metrics := metrics[k := (if k in metrics then metrics[k] else 0) + v];
    }

    method CountRequest(rq: Request)
      modifies this`stats
      ensures stats == Counted(old(stats), rq, IncidentAt(config))
    {
      stats := stats.(requests := stats.requests + 1);
      if rq.status >= 500 {
        stats := stats.(errors := stats.errors + 1);
      }
      if config.fault.Some? && rq.ts >= config.fault.value.incident.at {
        stats := stats.(incidentRequests := stats.incidentRequests + 1);
        if rq.status >= 500 {
          stats := stats.(incidentErrors := stats.incidentErrors + 1);
        }
      }
    }

    method RecordMetrics(rq: Request)
      modifies this`metrics
      ensures metrics == RequestMetrics(old(metrics), rq, IncidentAt(config).Some?)
    {
      hide Bump;
      BumpMetric(rq.ts, Requests(rq.verb, rq.template, rq.status), 1000);
      BumpMetric(rq.ts, DurationSum(rq.template), rq.latency);
      BumpMetric(rq.ts, DurationCount(rq.template), 1000);
      if rq.failed && config.fault.Some? {
        BumpMetric(rq.ts, DbErrors, 1000);
      }
    }

    method RecordRequest(rq: Request)
      modifies this`events, this`nginxAccess, this`metrics, this`stats
      ensures TheRun() == Recorded(config, old(TheRun()), rq)
    {
      hide RequestMetrics, Counted;
      events := events + [Access(rq)];
      RecordMetrics(rq);
      if rq.template != "/health" {
        nginxAccess := nginxAccess + [NginxLine(rq.ts, rq.verb, rq.template, rq.status)];
      }
      CountRequest(rq);
    }

    method GatewayWebhook(p: PaymentRow, roll: Roll, diverted: bool)
      modifies this
      ensures TheRun() == Hooked(config, old(TheRun()), p, roll, diverted)
    {
      hide Record, Bump;
      var at := p.at + roll.delay;
      if at >= config.now {
        return;
      }
      if config.fault.Some? {
        var since := at - config.fault.value.restartAt;
        if -4 * SECONDS < since < SECONDS {
          return;
        }
      }
      if HookRejected(config, at) {
        events := events + [Notice(at)];
        BumpMetric(at, WebhookFailures, 1000);
        RecordRequest(Request(at, "POST", "/webhooks/payments", 401, roll.hookLatency, false, Webhook));
        return;
      }
      newSettlements := newSettlements + [SettlementRow(p.ref, p.order, p.amount, at)];
      if !diverted {
        settlementTimes := settlementTimes + [at];
      }
      RecordRequest(Request(at, "POST", "/webhooks/payments", 200, roll.hookLatency, false, Webhook));
    }

    method InsertItems(orderId: nat, items: seq<Item>) returns (total: nat)
      modifies this`newItems
      ensures total == ItemTotal(items) && newItems == old(newItems) + ItemRows(orderId, items)
    {
      total := 0;
      for k := 0 to |items|
        invariant total == ItemTotal(items[..k]) && newItems == old(newItems) + ItemRows(orderId, items[..k])
      {
        assert items[..k + 1][..k] == items[..k];
        total := total + items[k].quantity * items[k].price;
        newItems := newItems + [ItemRow(orderId, items[k])];
        assert ItemRows(orderId, items[..k + 1]) == ItemRows(orderId, items[..k]) + [ItemRow(orderId, items[k])];
      }
      assert items[..|items|] == items;
    }

    /** The order, its items and its payment. */
    method Purchase(ts: int, user: int, roll: Roll)
      modifies this
      ensures TheRun() == Captured(config, old(TheRun()), ts, user, roll)
    {
      hide Hooked, Record, ItemTotal, ItemRows;
      ghost var before := TheRun();
      maxOrderId := maxOrderId + 1;
      var orderId := maxOrderId;
      var total := InsertItems(orderId, roll.items);
      newOrders := newOrders + [OrderRow(orderId, user, total, ts)];
      var payment := PaymentRow(orderId, user, total, roll.ref, ts);
      var diverted := config.fault.Some? && ts >= config.fault.value.incident.at && config.fault.value.paymentsDb;
      if diverted {
        divertedPayments := divertedPayments + [payment];
      } else {
        newPayments := newPayments + [payment];
        ledgerPaymentTimes := ledgerPaymentTimes + [ts];
      }
      ghost var captured := Capture(before.books, DivertFrom(config), ts, user, roll.items, roll.ref);
      assert TheRun() == before.(books := captured);
      assert payment == PaymentFor(captured.orders[|captured.orders| - 1], roll.ref);
      assert diverted == Diverts(DivertFrom(config), ts);
      hide Capture, Diverts;
      GatewayWebhook(payment, roll, diverted);
    }

    method CheckoutAttempt(ts: int, user: int, failing: bool, roll: Roll, origin: Origin)
      requires ValidConfig(config) && failing == Failing(config, ts, "POST /checkout")
      modifies this
      ensures TheRun() == Attempted(config, old(TheRun()), ts, user, roll, origin)
    {
      hide Record, Bump, Captured, Failing;
      var limit := LimitAt(config, ts);
      var key := (user, MinuteOf(ts));
      ghost var before := TheRun();
      rateCounts := rateCounts[key := (if key in rateCounts then rateCounts[key] else 0) + 1];
      assert TheRun() == before.(counts := before.counts[key := Attempts(before, ts, user)]);
      if rateCounts[key] > limit {
        events := events + [Notice(ts)];
        BumpMetric(ts, RateLimited, 1000);
        RecordRequest(Request(ts, "POST", "/checkout", 429, roll.latency, false, origin));
        return;
      }
      var status := 200;
      if failing {
        status := 500;
      } else if roll.r < 0.012 {
        status := 422;
      } else if roll.r < 0.03 {
        status := 400;
      } else if roll.r < 0.04 {
        status := 404;
      } else {
        status := 201;
        Purchase(ts, user, roll);
      }
      assert status == CheckoutStatus(failing, roll.r);
      hide CheckoutStatus;
      RecordRequest(Request(ts, "POST", "/checkout", status, roll.latency, failing, origin));
    }

    method SimulateRequest(ts: int, choice: Choice)
      requires ValidConfig(config)
      modifies this
      ensures TheRun() == Arrived(config, old(TheRun()), ts, choice)
    {
      hide Record, Attempted, Failing;
      if choice.Buy? {
        CheckoutAttempt(ts, choice.user, Failing(config, ts, "POST /checkout"), choice.roll, Arrival);
        ghost var first := TheRun();
        var at := ts;
        assert choice.retries[0..] == choice.retries;
        for k := 0 to |choice.retries|
          invariant Retried(config, first, ts, choice.user, choice.retries)
                    == Retried(config, TheRun(), at, choice.user, choice.retries[k..])
        {
          assert choice.retries[k..][1..] == choice.retries[k + 1..];
          at := at + choice.retries[k].0;
          if at >= config.now {
            return;
          }
          CheckoutAttempt(at, choice.user, Failing(config, at, "POST /checkout"), choice.retries[k].1, Retry);
        }
        return;
      }
      var failing := Failing(config, ts, choice.verb + " " + choice.template);
      var status := 200;
      if choice.missing {
        status := 404;
      }
      if failing {
        status := 500;
      }
      RecordRequest(Request(ts, choice.verb, choice.template, status, choice.latency, failing, Arrival));
    }

    /** The main loop over the arrivals as they are drawn, minute by minute. */
    method Stream(arrivals: seq<(int, Choice)>)
      requires ValidConfig(config)
      modifies this
      ensures TheRun() == Streamed(config, old(TheRun()), arrivals)
    {
      hide Arrived;
      ghost var first := TheRun();
      for k := 0 to |arrivals|
        invariant TheRun() == Streamed(config, first, arrivals[..k])
      {
        assert arrivals[..k + 1][..k] == arrivals[..k];
        var (ts, choice) := arrivals[k];
        if ts < config.start || ts >= config.now {
          continue;
        }
        if InGap(config, ts) {
          nginxAccess := nginxAccess + [NginxLine(ts, VerbOf(choice), TemplateOf(choice), 502)];
          continue;
        }
        SimulateRequest(ts, choice);
      }
      assert arrivals[..|arrivals|] == arrivals;
    }

    method Probe(requests: seq<Request>)
      modifies this
      ensures TheRun() == Probed(config, old(TheRun()), requests)
    {
      hide Record;
      ghost var first := TheRun();
      for k := 0 to |requests|
        invariant TheRun() == Probed(config, first, requests[..k])
      {
        assert requests[..k + 1][..k] == requests[..k];
        if !InGap(config, requests[k].ts) {
          RecordRequest(requests[k]);
          if requests[k].status == 503 {
            BumpMetric(requests[k].ts, DbErrors, 1000);
          }
        }
      }
      assert requests[..|requests|] == requests;
    }

    /** The gauges of every minute from the start of the history to its end. */
    method WriteGauges(paymentBase: nat, settlementBase: nat)
      requires NoGauges(metrics) && config.start < config.now
      modifies this`metrics
      ensures forall k: Key :: !Gauge(k.1) ==> Get(metrics, k) == Get(old(metrics), k)
      ensures forall m, g :: Gauge(g) && !InHistory(config, m) ==> (m, g) !in metrics
      ensures forall m :: InHistory(config, m) ==> Get(metrics, (m, Up)) == UpValue(config, m)
      ensures forall m :: InHistory(config, m) ==>
                            && Get(metrics, (m, LedgerPayments)) == GaugeValue(paymentBase, ledgerPaymentTimes, m)
                            && Get(metrics, (m, LedgerSettlements)) == GaugeValue(settlementBase, settlementTimes, m)
    {
      hide UpValue, GaugeValue, Gauge, Get;
      var minute := MinuteOf(config.start);
      NoGaugeYet(metrics);
      while minute * MINUTE < config.now
        invariant MinuteOf(config.start) <= minute
        invariant forall k: Key :: !Gauge(k.1) ==> Get(metrics, k) == Get(old(metrics), k)
        invariant forall m :: MinuteOf(config.start) <= m < minute ==> Get(metrics, (m, Up)) == UpValue(config, m)
        invariant forall m :: MinuteOf(config.start) <= m < minute ==>
                                && Get(metrics, (m, LedgerPayments)) == GaugeValue(paymentBase, ledgerPaymentTimes, m)
                                && Get(metrics, (m, LedgerSettlements))
                                    == GaugeValue(settlementBase, settlementTimes, m)
        invariant forall m, g :: minute <= m && Gauge(g) ==> Get(metrics, (m, g)) == 0
        invariant forall m, g :: (m < MinuteOf(config.start) || minute <= m) && Gauge(g) ==> (m, g) !in metrics
        invariant (minute - 1) * MINUTE < config.now
        decreases config.now - minute * MINUTE
      {
        WriteMinute(minute, paymentBase, settlementBase);
        minute := minute + 1;
      }
    }

    method WriteMinute(minute: int, paymentBase: nat, settlementBase: nat)
      requires forall g :: Gauge(g) ==> Get(metrics, (minute, g)) == 0
      modifies this`metrics
      ensures forall k: Key :: k.0 != minute || !Gauge(k.1) ==> Get(metrics, k) == Get(old(metrics), k)
      ensures forall k: Key :: k.0 != minute ==> (k in metrics <==> k in old(metrics))
      ensures Get(metrics, (minute, Up)) == UpValue(config, minute)
      ensures Get(metrics, (minute, LedgerPayments)) == GaugeValue(paymentBase, ledgerPaymentTimes, minute)
      ensures Get(metrics, (minute, LedgerSettlements)) == GaugeValue(settlementBase, settlementTimes, minute)
    {
      hide UpValue, CountBelow;
      assert MinuteOf(minute * MINUTE) == minute;
      BumpMetric(minute * MINUTE, Up, UpValue(config, minute));
      var n := CountBelow(ledgerPaymentTimes, (minute + 1) * MINUTE);
      BumpMetric(minute * MINUTE, LedgerPayments, 1000 * (paymentBase + n));
      n := CountBelow(settlementTimes, (minute + 1) * MINUTE);
      BumpMetric(minute * MINUTE, LedgerSettlements, 1000 * (settlementBase + n));
    }
  }

  lemma NoGaugeYet(metrics: map<Key, int>)
    requires NoGauges(metrics)
    ensures forall m, g :: Gauge(g) ==> Get(metrics, (m, g)) == 0
  {
  }

  // ---------------------------------------------------------------- the gauges

  /** The minutes of the history. */
  predicate InHistory(c: Config, m: int) {
    MinuteOf(c.start) <= m && m * MINUTE < c.now
  }

  /** Zero for a minute inside the gap, three quarters for the minute in which it begins, otherwise one. */
  function UpValue(c: Config, m: int): int {
    var begin, end := m * MINUTE, (m + 1) * MINUTE;
    var gap := GapOf(c);
    if gap.Some? && gap.value.0 <= begin && (if end < c.now then end else c.now) <= gap.value.1 then 0
    else if gap.Some? && begin <= gap.value.0 < end then 750
    else 1000
  }

  /** A minute of the history is down when the service is down at each of its moments before the end, and partly down
      when an outage begins in it. */
  lemma UpIff(c: Config, m: int)
    requires InHistory(c, m)
    ensures UpValue(c, m) == 0 <==>
              forall ts :: m * 60_000_000 <= ts <= (m + 1) * 60_000_000 && ts <= c.now ==> IsDown(c, ts)
    ensures UpValue(c, m) == 750 <==>
              && UpValue(c, m) != 0 && c.fault.Some? && c.fault.value.restart != NoRestart
              && MinuteOf(c.fault.value.restartAt - 2_600_000) == m
    ensures UpValue(c, m) in {0, 750, 1000}
  {
    var begin, end := m * MINUTE, (m + 1) * MINUTE;
    var till := if end < c.now then end else c.now;
    DownInGap(c, begin);
    DownInGap(c, till);
    forall ts { DownInGap(c, ts); }
  }

  /** `bisect_left` in the sorted list. */
  function CountBelow(times: seq<int>, end: int): (n: nat)
    ensures n <= |times|
  {
    if times == [] then 0 else CountBelow(times[..|times| - 1], end) + if times[|times| - 1] < end then 1 else 0
  }

  function GaugeValue(paymentBase: nat, times: seq<int>, minute: int): int {
    1000 * (paymentBase + CountBelow(times, (minute + 1) * MINUTE))
  }

  /** The gauge stands at the old rows and those of the times before the end of its minute. */
  lemma {:induction false} GaugeIsNumberBefore(base: nat, times: seq<int>, m: int)
    ensures GaugeValue(base, times, m)
         == 1000 * (base + |set i: nat | i < |times| && times[i] < (m + 1) * 60_000_000|)
    decreases |times|
  {
    var below := set i: nat | i < |times| && times[i] < (m + 1) * 60_000_000;
    if times == [] {
      assert below == {};
    } else {
      var init := times[..|times| - 1];
      GaugeIsNumberBefore(base, init, m);
      var before := set i: nat | i < |init| && init[i] < (m + 1) * 60_000_000;
      assert below == before + if times[|init|] < (m + 1) * 60_000_000 then {|init|} else {};
    }
  }

  lemma {:induction false} CountBelowGrows(times: seq<int>, a: int, b: int)
    requires a <= b
    ensures CountBelow(times, a) <= CountBelow(times, b)
    decreases |times|
  {
    if times == [] {
    } else {
      CountBelowGrows(times[..|times| - 1], a, b);
    }
  }

  lemma {:induction false} AllBelowEnd(times: seq<int>, end: int)
    requires forall i :: 0 <= i < |times| ==> times[i] < end
    ensures CountBelow(times, end) == |times|
    decreases |times|
  {
    if times == [] {
    } else {
      AllBelowEnd(times[..|times| - 1], end);
    }
  }

  // ---------------------------------------------------------------- the databases

  class Databases {
    var orders: seq<OrderRow>
    var items: seq<ItemRow>
    var payments: seq<PaymentRow>
    var settlements: seq<SettlementRow>
    var otherPayments: seq<PaymentRow>
    var otherSettlements: seq<SettlementRow>

    /** `hasOther` says that the incident names another payments database. */
    method InsertOrders(b: Books, hasOther: bool)
      modifies this
      ensures b.orders == [] ==> unchanged(this)
      ensures b.orders != [] ==>
                && orders == old(orders) + b.orders && items == old(items) + b.items
                && payments == old(payments) + b.payments
                && settlements == Inserted(old(settlements), b.settlements, b.payments)
                && otherPayments == old(otherPayments) + (if hasOther then b.diverted else [])
                && otherSettlements == (if hasOther && b.diverted != []
                                        then Inserted(old(otherSettlements), b.settlements, b.diverted)
                                        else old(otherSettlements))
    {
      if b.orders == [] {
        return;
      }
      orders := orders + b.orders;
      items := items + b.items;
      payments := payments + b.payments;
      settlements := InsertSettlements(settlements, b.settlements, b.payments);
      if b.diverted != [] && hasOther {
        otherPayments := otherPayments + b.diverted;
        otherSettlements := InsertSettlements(otherSettlements, b.settlements, b.diverted);
      }
    }
  }

  predicate HasRef(rows: seq<SettlementRow>, ref: string) {
    exists i :: 0 <= i < |rows| && rows[i].ref == ref
  }

  predicate Accepted(payments: seq<PaymentRow>, ref: string) {
    exists i :: 0 <= i < |payments| && payments[i].ref == ref
  }

  /** `INSERT OR IGNORE` on a unique reference, of the settlements whose payment went into the same database. */
  function Inserted(table: seq<SettlementRow>, rows: seq<SettlementRow>,
                    payments: seq<PaymentRow>): seq<SettlementRow> {
    if rows == [] then table else
      var t, r := Inserted(table, rows[..|rows| - 1], payments), rows[|rows| - 1];
      if Accepted(payments, r.ref) && !HasRef(t, r.ref) then t + [r] else t
  }

  /** No reference twice, each accepted one once, and the table before them all. */
  lemma {:induction false} InsertedFacts(table: seq<SettlementRow>, rows: seq<SettlementRow>, payments: seq<PaymentRow>)
    ensures var out := Inserted(table, rows, payments);
            && table <= out
            && (forall i :: |table| <= i < |out| ==> out[i] in rows && Accepted(payments, out[i].ref))
            && (forall i, j :: 0 <= i < j < |out| && |table| <= j ==> out[i].ref != out[j].ref)
            && (forall k :: 0 <= k < |rows| && Accepted(payments, rows[k].ref) ==> HasRef(out, rows[k].ref))
    decreases |rows|
  {
    hide Accepted;
    if rows == [] {
    } else {
      var init, r := rows[..|rows| - 1], rows[|rows| - 1];
      InsertedFacts(table, init, payments);
      var t, out := Inserted(table, init, payments), Inserted(table, rows, payments);
      assert rows == init + [r];
      forall k | 0 <= k < |rows| && Accepted(payments, rows[k].ref) ensures HasRef(out, rows[k].ref) {
        if k < |init| {
          var i :| 0 <= i < |t| && t[i].ref == init[k].ref;
          assert out[i] == t[i];
        } else if !HasRef(t, r.ref) {
          assert out[|t|] == r;
        }
      }
    }
  }

  method InsertSettlements(table: seq<SettlementRow>, rows: seq<SettlementRow>, payments: seq<PaymentRow>)
    returns (out: seq<SettlementRow>)
    ensures out == Inserted(table, rows, payments)
  {
    out := table;
    for k := 0 to |rows|
      invariant out == Inserted(table, rows[..k], payments)
    {
      assert rows[..k + 1][..k] == rows[..k];
      if Accepted(payments, rows[k].ref) && !HasRef(out, rows[k].ref) {
        out := out + [rows[k]];
      }
    }
    assert rows[..|rows|] == rows;
  }

  // ---------------------------------------------------------------- a whole history

  /** Generates a history and inserts it: for all random choices the books, the logs, the metrics and the totals agree,
      the request counters of the table sum to the totals, the refused lines are the arrivals in the gap, and the ledger
      gauges count the rows at the end of every minute and never fall; the payments gauge ends at the number of rows
      that the insertion leaves, the settlements gauge at the old rows and those confirmed in the ledger. */
  method GenerateHistory(config: Config, base: nat, arrivals: seq<(int, Choice)>, probes: seq<Request>, db: Databases)
    returns (sim: Sim)
    requires ValidConfig(config) && config.start < config.now && ProbesFit(config, probes)
    modifies db
    ensures fresh(sim) && BooksOk(sim.TheBooks(), DivertFrom(config)) && sim.base == base
    ensures TrafficOk(sim.TheTraffic(), IncidentAt(config)) && AllPlaced(config, sim.events)
    ensures CountersAddUp(sim.TheTraffic()) && Refused(sim.nginxAccess) == GapArrivals(config, arrivals)
    ensures GapIsQuiet(config, sim.events) <==>
              !SomeBurstReachesGap(config, arrivals) && !SomeCallsLate(config, Tries(config, arrivals))
    ensures sim.TheBooks() == HistoryOf(config, base, arrivals, probes).books
    ensures sim.TheTraffic().(metrics := map[]) == HistoryOf(config, base, arrivals, probes).traffic.(metrics := map[])
    ensures HistoryOutcomes.Follows(config, HistoryOf(config, base, arrivals, probes),
                                    HistoryOutcomes.Issued(config, arrivals))
    ensures HistoryNotices.NoticesAgree(config, sim.TheTraffic())
    ensures db.payments == old(db.payments) + sim.newPayments && db.orders == old(db.orders) + sim.newOrders
    ensures var hasOther := config.fault.Some? && config.fault.value.paymentsDb;
            sim.newOrders != [] ==>
              && db.items == old(db.items) + sim.newItems
              && db.settlements == Inserted(old(db.settlements), sim.newSettlements, sim.newPayments)
              && db.otherPayments == old(db.otherPayments) + (if hasOther then sim.divertedPayments else [])
              && (hasOther && sim.divertedPayments != [] ==>
                    db.otherSettlements
                    == Inserted(old(db.otherSettlements), sim.newSettlements, sim.divertedPayments))
    ensures forall m :: InHistory(config, m) ==>
                          && Get(sim.metrics, (m, Up)) == UpValue(config, m)
                          && Get(sim.metrics, (m, LedgerPayments))
                             == GaugeValue(|old(db.payments)|, sim.ledgerPaymentTimes, m)
                          && Get(sim.metrics, (m, LedgerSettlements))
                             == GaugeValue(|old(db.settlements)|, sim.settlementTimes, m)
    ensures forall m, g :: Gauge(g) && !InHistory(config, m) ==> (m, g) !in sim.metrics
    ensures forall m, n :: InHistory(config, m) && InHistory(config, n) && m <= n ==>
                             && Get(sim.metrics, (m, LedgerPayments)) <= Get(sim.metrics, (n, LedgerPayments))
                             && Get(sim.metrics, (m, LedgerSettlements)) <= Get(sim.metrics, (n, LedgerSettlements))
    ensures forall m :: InHistory(config, m) && config.now <= (m + 1) * MINUTE ==>
                          && Get(sim.metrics, (m, LedgerPayments)) == 1000 * |db.payments|
                          && Get(sim.metrics, (m, LedgerSettlements))
                             == 1000 * (|old(db.settlements)| + |sim.settlementTimes|)
  {
    hide BooksOk, TrafficOk, Streamed, Probed, AllPlaced, InHistory, Get, UpValue, GaugeValue, CountersAddUp;
    hide GapIsQuiet,
         SomeBurstReachesGap, SomeCallsLate, Tries, GapArrivals, Refused, Inserted, HistoryOutcomes.Follows,
         HistoryOutcomes.Issued, HistoryNotices.NoticesAgree, HistoryOutcomes.By, HistoryOutcomes.Reaching;
    sim := new Sim(config, base);
    sim.Stream(arrivals);
    sim.Probe(probes);
    HistoryIsOk(config, base, arrivals, probes);
    RefusedInHistory(config, base, arrivals, probes);
    GapIsQuietIff(config, base, arrivals, probes);
    HistoryOutcomes.HistoryFollows(config, base, arrivals, probes);
    HistoryNotices.HistoryNotices(config, base, arrivals, probes);
    ghost var run := sim.TheRun();
    var paymentBase, settlementBase := |db.payments|, |db.settlements|;
    sim.WriteGauges(paymentBase, settlementBase);
    GaugesKeepTraffic(run.traffic, sim.metrics, IncidentAt(config));
    GaugesKeepNotices(config, run.traffic, sim.metrics);
    RecordsAgree(sim.TheTraffic(), IncidentAt(config));
    db.InsertOrders(sim.TheBooks(), config.fault.Some? && config.fault.value.paymentsDb);
    OrdersOrNothing(sim.TheBooks(), DivertFrom(config));
    GaugesGrow(paymentBase, sim.ledgerPaymentTimes);
    GaugesGrow(settlementBase, sim.settlementTimes);
    GaugeCountsRows(sim.TheBooks(), DivertFrom(config), config, paymentBase, settlementBase);
  }

  lemma GaugesKeepTraffic(t: Traffic, metrics: map<Key, int>, incidentAt: Option<int>)
    requires TrafficOk(t, incidentAt) && forall k: Key :: !Gauge(k.1) ==> Get(metrics, k) == Get(t.metrics, k)
    ensures TrafficOk(t.(metrics := metrics), incidentAt)
  {
  }

  lemma GaugesKeepNotices(c: Config, t: Traffic, metrics: map<Key, int>)
    requires forall k: Key :: !Gauge(k.1) ==> Get(metrics, k) == Get(t.metrics, k)
    requires HistoryNotices.NoticesAgree(c, t)
    ensures HistoryNotices.NoticesAgree(c, t.(metrics := metrics))
  {
    forall m ensures HistoryNotices.MinuteAgrees(c, t.(metrics := metrics), m) {
      assert HistoryNotices.MinuteAgrees(c, t, m);
    }
  }

  /** Without orders there are no payments to insert. */
  lemma OrdersOrNothing(b: Books, from: Option<int>)
    requires BooksOk(b, from)
    ensures b.payments != [] ==> b.orders != []
  {
    if b.payments != [] {
      assert Genuine(b.base, b.orders, b.payments[0]);
    }
  }

  lemma GaugesGrow(base: nat, times: seq<int>)
    ensures forall m, n :: m <= n ==> GaugeValue(base, times, m) <= GaugeValue(base, times, n)
  {
    forall m, n | m <= n ensures GaugeValue(base, times, m) <= GaugeValue(base, times, n) {
      CountBelowGrows(times, (m + 1) * MINUTE, (n + 1) * MINUTE);
    }
  }

  /** From the last minute on the gauges count the old rows and all new ones. */
  lemma GaugeCountsRows(b: Books, from: Option<int>, c: Config, paymentBase: nat, settlementBase: nat)
    requires BooksOk(b, from) && TimesBefore(b.paymentTimes, c.now) && TimesBefore(b.settlementTimes, c.now)
    ensures forall m :: c.now <= (m + 1) * MINUTE ==>
                          && GaugeValue(paymentBase, b.paymentTimes, m) == 1000 * (paymentBase + |b.payments|)
                          && GaugeValue(settlementBase, b.settlementTimes, m)
                              == 1000 * (settlementBase + |b.settlementTimes|)
  {
    forall m | c.now <= (m + 1) * MINUTE
      ensures GaugeValue(paymentBase, b.paymentTimes, m) == 1000 * (paymentBase + |b.payments|)
      ensures GaugeValue(settlementBase, b.settlementTimes, m) == 1000 * (settlementBase + |b.settlementTimes|)
    {
      AllBelowEnd(b.paymentTimes, (m + 1) * MINUTE);
      AllBelowEnd(b.settlementTimes, (m + 1) * MINUTE);
    }
  }
}
