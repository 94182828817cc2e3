/** What a history shows for what was asked of the service: every request that a user issues is answered as the fault,
    the limiter and the dice say, and every capture is ordered, confirmed and settled, in order and nothing else. */
module HistoryOutcomes {
  import opened Options
  import opened HistoryBooks
  import opened HistoryTraffic
  import opened HistoryRun

  /** What users ask for: a checkout attempt, or a page that may not exist. */
  datatype Issue =
    | Attempt(t: Try, origin: Origin)
    | View(ts: int, verb: string, template: string, missing: bool, latency: nat)

  function Again(tries: seq<Try>): seq<Issue> {
    if tries == [] then [] else Again(tries[..|tries| - 1]) + [Attempt(tries[|tries| - 1], Retry)]
  }

  function IssuedBy(c: Config, a: (int, Choice)): seq<Issue> {
    if a.0 < c.start || a.0 >= c.now || IsDown(c, a.0) then []
    else match a.1
         case Buy(user, roll, retries) => [Attempt(Try(a.0, user, roll), Arrival)] + Again(Burst(c, a.0, user, retries))
         case Look(verb, template, missing, latency) => [View(a.0, verb, template, missing, latency)]
  }

  /** Everything that users ask for in the stream, in the order in which it is simulated. */
  function Issued(c: Config, arrivals: seq<(int, Choice)>): seq<Issue> {
    if arrivals == [] then [] else Issued(c, arrivals[..|arrivals| - 1]) + IssuedBy(c, arrivals[|arrivals| - 1])
  }

  function Made(issued: seq<Issue>): seq<Try> {
    if issued == [] then [] else
      Made(issued[..|issued| - 1])
      + if issued[|issued| - 1].Attempt? then [issued[|issued| - 1].t] else []
  }

  // ---------------------------------------------------------------- what should follow

  /** The user's attempts in that minute are used up. */
  predicate Limited(c: Config, earlier: seq<Try>, t: Try) {
    TriesIn(earlier, t.user, MinuteOf(t.ts)) >=
    if c.fault.Some? && c.fault.value.rateLimit.Some? && c.fault.value.rateLimit.value.0 <= t.ts
    then c.fault.value.rateLimit.value.1 else 600
  }

  predicate Succeeds(c: Config, earlier: seq<Try>, t: Try)
    requires ValidConfig(c)
  {
    !Limited(c, earlier, t) && !Failing(c, t.ts, "POST /checkout") && t.roll.r >= 0.04
  }

  /** Each status exactly when it should be. */
  predicate Answered(c: Config, earlier: seq<Try>, t: Try, status: nat)
    requires ValidConfig(c)
  {
    var open, r := !Limited(c, earlier, t) && !Failing(c, t.ts, "POST /checkout"), t.roll.r;
    && (status == 429 <==> Limited(c, earlier, t))
    && (status == 500 <==> !Limited(c, earlier, t) && Failing(c, t.ts, "POST /checkout"))
    && (status == 201 <==> Succeeds(c, earlier, t))
    && (status == 422 <==> open && r < 0.012)
    && (status == 400 <==> open && 0.012 <= r < 0.03)
    && (status == 404 <==> open && 0.03 <= r < 0.04)
  }

  /** `rq` is the right record of what was issued after `earlier` attempts. */
  predicate Tells(c: Config, earlier: seq<Try>, i: Issue, rq: Request)
    requires ValidConfig(c)
  {
    match i
    case Attempt(t, origin) =>
      && rq.ts == t.ts && rq.verb == "POST" && rq.template == "/checkout" && rq.origin == origin
      && rq.latency == t.roll.latency && Answered(c, earlier, t, rq.status) && (rq.failed <==> rq.status == 500)
    case View(ts, verb, template, missing, latency) =>
      && rq.ts == ts && rq.verb == verb && rq.template == template && rq.origin == Arrival && rq.latency == latency
      && (rq.status == 500 <==> Failing(c, ts, verb + " " + template))
      && (rq.status == 404 <==> missing && !Failing(c, ts, verb + " " + template))
      && (rq.status == 200 <==> !missing && !Failing(c, ts, verb + " " + template))
      && (rq.failed <==> rq.status == 500)
  }

  /** The attempts that end in an order. */
  function Successes(c: Config, issued: seq<Issue>): seq<Try>
    requires ValidConfig(c)
  {
    if issued == [] then [] else
      var init, i := issued[..|issued| - 1], issued[|issued| - 1];
      Successes(c, init) + if i.Attempt? && Succeeds(c, Made(init), i.t) then [i.t] else []
  }

  /** The gateway calls before the end, and not from four seconds before the restart to one after it. */
  predicate IsCalled(c: Config, t: Try) {
    var at := t.ts + t.roll.delay;
    && at < c.now
    && (c.fault.None? || at <= c.fault.value.restartAt - 4_000_000 || at >= c.fault.value.restartAt + 1_000_000)
  }

  predicate IsRefused(c: Config, t: Try) {
    && c.fault.Some? && c.fault.value.incident.at <= t.ts + t.roll.delay
    && "POST /webhooks/payments" in c.fault.value.incident.failing
  }

  function Called(c: Config, tries: seq<Try>): seq<Try> {
    if tries == [] then [] else
      Called(c, tries[..|tries| - 1]) + if IsCalled(c, tries[|tries| - 1]) then [tries[|tries| - 1]] else []
  }

  predicate Calls(c: Config, t: Try, rq: Request) {
    && rq.ts == t.ts + t.roll.delay && rq.verb == "POST" && rq.template == "/webhooks/payments"
    && rq.latency == t.roll.hookLatency && rq.origin == Webhook && !rq.failed
    && (rq.status == 401 <==> IsRefused(c, t)) && (rq.status == 200 <==> !IsRefused(c, t))
  }

  // ---------------------------------------------------------------- what the books should hold

  predicate IsAway(c: Config, ts: int) {
    c.fault.Some? && c.fault.value.paymentsDb && c.fault.value.incident.at <= ts
  }

  /** The n-th sale has the n-th id after the old ones; its items and its payment carry that id. */
  function OrdersOf(base: nat, tries: seq<Try>): seq<OrderRow> {
    if tries == [] then [] else
      var t := tries[|tries| - 1];
      OrdersOf(base, tries[..|tries| - 1]) + [OrderRow(base + |tries|, t.user, ItemTotal(t.roll.items), t.ts)]
  }

  function ItemsOf(base: nat, tries: seq<Try>): seq<ItemRow> {
    if tries == [] then [] else
      ItemsOf(base, tries[..|tries| - 1]) + Tagged(base + |tries|, tries[|tries| - 1].roll.items)
  }

  function Tagged(id: nat, items: seq<Item>): seq<ItemRow> {
    if items == [] then [] else Tagged(id, items[..|items| - 1]) + [ItemRow(id, items[|items| - 1])]
  }

  function PaymentsOf(c: Config, base: nat, tries: seq<Try>, away: bool): seq<PaymentRow> {
    if tries == [] then [] else
      var t := tries[|tries| - 1];
      PaymentsOf(c, base, tries[..|tries| - 1], away)
      + if IsAway(c, t.ts) == away
        then [PaymentRow(base + |tries|, t.user, ItemTotal(t.roll.items), t.roll.ref, t.ts)] else []
  }

  function PaymentTimesOf(c: Config, tries: seq<Try>): seq<int> {
    if tries == [] then [] else
      var t := tries[|tries| - 1];
      PaymentTimesOf(c, tries[..|tries| - 1]) + if IsAway(c, t.ts) then [] else [t.ts]
  }

  /** A payment is settled when the gateway calls and the call is accepted. */
  function SettlementsOf(c: Config, base: nat, tries: seq<Try>): seq<SettlementRow> {
    if tries == [] then [] else
      var t := tries[|tries| - 1];
      SettlementsOf(c, base, tries[..|tries| - 1])
      + if IsCalled(c, t) && !IsRefused(c, t)
        then [SettlementRow(t.roll.ref, base + |tries|, ItemTotal(t.roll.items), t.ts + t.roll.delay)] else []
  }

  function SettlementTimesOf(c: Config, tries: seq<Try>): seq<int> {
    if tries == [] then [] else
      var t := tries[|tries| - 1];
      SettlementTimesOf(c, tries[..|tries| - 1])
      + if IsCalled(c, t) && !IsRefused(c, t) && !IsAway(c, t.ts) then [t.ts + t.roll.delay] else []
  }

  function BooksOf(c: Config, base: nat, tries: seq<Try>): Books {
    Books(base, base + |tries|, OrdersOf(base, tries), ItemsOf(base, tries), PaymentsOf(c, base, tries, false),
          PaymentsOf(c, base, tries, true), PaymentTimesOf(c, tries), SettlementsOf(c, base, tries),
          SettlementTimesOf(c, tries))
  }

  // ---------------------------------------------------------------- what the run shows

  const USERS := {Arrival, Retry}
  const GATEWAY := {Webhook}
  const PROBES := {Scan, Probe}

  function By(events: seq<Event>, kinds: set<Origin>): seq<Request> {
    if events == [] then [] else
      var e := events[|events| - 1];
      By(events[..|events| - 1], kinds) + if e.Access? && e.rq.origin in kinds then [e.rq] else []
  }

  ghost predicate AllTold(c: Config, issued: seq<Issue>, requests: seq<Request>)
    requires ValidConfig(c)
  {
    |requests| == |issued| && forall i :: 0 <= i < |issued| ==> Tells(c, Made(issued[..i]), issued[i], requests[i])
  }

  ghost predicate AllCalled(c: Config, tries: seq<Try>, requests: seq<Request>) {
    |requests| == |tries| && forall i :: 0 <= i < |tries| ==> Calls(c, tries[i], requests[i])
  }

  /** The run is what the issues lead to. */
  ghost predicate Follows(c: Config, r: Run, issued: seq<Issue>)
    requires ValidConfig(c)
  {
    && AllTold(c, issued, By(r.traffic.events, USERS))
    && AllCalled(c, Called(c, Successes(c, issued)), By(r.traffic.events, GATEWAY))
    && r.books == BooksOf(c, r.books.base, Successes(c, issued))
  }

  // ---------------------------------------------------------------- one step

  lemma {:induction false} BySnoc(events: seq<Event>, e: Event, kinds: set<Origin>)
    ensures By(events + [e], kinds) == By(events, kinds) + if e.Access? && e.rq.origin in kinds then [e.rq] else []
  {
    assert (events + [e])[..|events|] == events;
  }

  /** A request, after a notice or without one. */
  lemma {:induction false} ByAdds(events: seq<Event>, noticed: bool, rq: Request, kinds: set<Origin>)
    ensures By(events + (if noticed then [Notice(rq.ts)] else []) + [Access(rq)], kinds)
         == By(events, kinds) + if rq.origin in kinds then [rq] else []
  {
    hide By;
    BySnoc(events, Notice(rq.ts), kinds);
    BySnoc(events + (if noticed then [Notice(rq.ts)] else []), Access(rq), kinds);
    assert events + [] == events;
    assert By(events, kinds) + [] == By(events, kinds);
  }

  function Call(c: Config, at: int, roll: Roll): Request {
    Request(at, "POST", "/webhooks/payments", if HookRejected(c, at) then 401 else 200, roll.hookLatency, false,
            Webhook)
  }

  lemma {:induction false} HookedShows(c: Config, r: Run, p: PaymentRow, roll: Roll, diverted: bool, kinds: set<Origin>)
    ensures var r', at := Hooked(c, r, p, roll, diverted), p.at + roll.delay;
            By(r'.traffic.events, kinds) == By(r.traffic.events, kinds)
            + if HookHappens(c, at) && Webhook in kinds then [Call(c, at, roll)] else []
  {
    hide RequestMetrics, Counted, HookRejected, HookHappens, By, Bump, AccessLines;
    var at, events := p.at + roll.delay, r.traffic.events;
    ByAdds(events, HookRejected(c, at), Call(c, at, roll), kinds);
    assert events + [] == events;
    assert By(events, kinds) + [] == By(events, kinds);
  }

  lemma {:induction false} CapturedShows(c: Config, r: Run, t: Try, kinds: set<Origin>)
    ensures By(Captured(c, r, t.ts, t.user, t.roll).traffic.events, kinds) == By(r.traffic.events, kinds)
            + if HookHappens(c, t.ts + t.roll.delay) && Webhook in kinds
              then [Call(c, t.ts + t.roll.delay, t.roll)] else []
  {
    hide By, Hooked, ItemTotal, ItemRows, Diverts, HookHappens, HookRejected, Call;
    var b := Capture(r.books, DivertFrom(c), t.ts, t.user, t.roll.items, t.roll.ref);
    HookedShows(c, r.(books := b), PaymentFor(b.orders[|b.orders| - 1], t.roll.ref), t.roll,
                Diverts(DivertFrom(c), t.ts), kinds);
  }

  /** What an attempt is answered. */
  function Answer(c: Config, r: Run, t: Try, origin: Origin): Request
    requires ValidConfig(c)
  {
    var failing, over := Failing(c, t.ts, "POST /checkout"), Attempts(r, t.ts, t.user) > LimitAt(c, t.ts);
    Request(t.ts, "POST", "/checkout", if over then 429 else CheckoutStatus(failing, t.roll.r), t.roll.latency,
            !over && failing, origin)
  }

  lemma {:induction false} AttemptedShows(c: Config, r: Run, t: Try, origin: Origin, kinds: set<Origin>)
    requires ValidConfig(c)
    ensures var r', rq := Attempted(c, r, t.ts, t.user, t.roll, origin), Answer(c, r, t, origin);
            var done := if rq.status == 201 then Captured(c, r, t.ts, t.user, t.roll) else r;
            && By(r'.traffic.events, kinds) == By(done.traffic.events, kinds) + (if origin in kinds then [rq] else [])
            && r'.books == done.books
  {
    hide RequestMetrics, Counted, By, Bump, AccessLines, Captured, Failing, LimitAt, Attempts;
    var rq := Answer(c, r, t, origin);
    var counted := r.(counts := r.counts[(t.user, MinuteOf(t.ts)) := Attempts(r, t.ts, t.user)]);
    CountsDoNotMatter(c, r, counted, t.ts, t.user, t.roll);
    var done := if rq.status == 201 then Captured(c, counted, t.ts, t.user, t.roll) else counted;
    ByAdds(done.traffic.events, rq.status == 429, rq, kinds);
    assert done.traffic.events + [] == done.traffic.events;
  }

  lemma CountsDoNotMatter(c: Config, r: Run, r2: Run, ts: int, user: int, roll: Roll)
    requires r2.books == r.books && r2.traffic == r.traffic
    ensures Captured(c, r2, ts, user, roll).books == Captured(c, r, ts, user, roll).books
    ensures Captured(c, r2, ts, user, roll).traffic == Captured(c, r, ts, user, roll).traffic
  {
    hide Capture, Record, Note, HookRejected, HookHappens, Diverts;
  }

  // ---------------------------------------------------------------- lists that grow by one

  lemma {:induction false} ToldSnoc(c: Config, issued: seq<Issue>, i: Issue, requests: seq<Request>, rq: Request)
    requires ValidConfig(c) && AllTold(c, issued, requests) && Tells(c, Made(issued), i, rq)
    ensures AllTold(c, issued + [i], requests + [rq])
  {
    hide Tells;
    var all, told := issued + [i], requests + [rq];
    forall k | 0 <= k < |all| ensures Tells(c, Made(all[..k]), all[k], told[k]) {
      if k < |issued| {
        assert all[..k] == issued[..k] && all[k] == issued[k] && told[k] == requests[k];
      } else {
        assert all[..k] == issued;
      }
    }
  }

  lemma {:induction false} SuccessesSnoc(c: Config, issued: seq<Issue>, i: Issue)
    requires ValidConfig(c)
    ensures Successes(c, issued + [i])
         == Successes(c, issued) + if i.Attempt? && Succeeds(c, Made(issued), i.t) then [i.t] else []
    ensures Made(issued + [i]) == Made(issued) + if i.Attempt? then [i.t] else []
  {
    hide Succeeds;
    assert (issued + [i])[..|issued|] == issued;
  }

  lemma {:induction false} CalledSnoc(c: Config, tries: seq<Try>, t: Try)
    ensures Called(c, tries + [t]) == Called(c, tries) + if IsCalled(c, t) then [t] else []
  {
    hide IsCalled;
    assert (tries + [t])[..|tries|] == tries;
  }

  lemma {:induction false} TaggedRows(id: nat, items: seq<Item>)
    ensures ItemRows(id, items) == Tagged(id, items)
    decreases |items|
  {
    if items == [] {
    } else {
      TaggedRows(id, items[..|items| - 1]);
      assert ItemRows(id, items) == ItemRows(id, items[..|items| - 1]) + [ItemRow(id, items[|items| - 1])];
    }
  }

  lemma BooksSnoc(c: Config, base: nat, tries: seq<Try>, t: Try)
    ensures var b, id, total := BooksOf(c, base, tries), base + |tries| + 1, ItemTotal(t.roll.items);
            var p, settled := PaymentRow(id, t.user, total, t.roll.ref, t.ts), IsCalled(c, t) && !IsRefused(c, t);
            BooksOf(c, base, tries + [t])
            == Books(base, id, b.orders + [OrderRow(id, t.user, total, t.ts)], b.items + Tagged(id, t.roll.items),
                     b.payments + (if IsAway(c, t.ts) then [] else [p]),
                     b.diverted + (if IsAway(c, t.ts) then [p] else []),
                     b.paymentTimes + (if IsAway(c, t.ts) then [] else [t.ts]),
                     b.settlements
                         + (if settled then [SettlementRow(t.roll.ref, id, total, t.ts + t.roll.delay)] else []),
                     b.settlementTimes + (if settled && !IsAway(c, t.ts) then [t.ts + t.roll.delay] else []))
  {
    hide IsAway, IsCalled, IsRefused, ItemTotal, Tagged;
    assert (tries + [t])[..|tries|] == tries;
  }

  /** The conditions of the law are those of the simulation. */
  lemma SameConditions(c: Config, t: Try)
    ensures var at := t.ts + t.roll.delay;
            && (HookHappens(c, at) <==> IsCalled(c, t)) && (HookRejected(c, at) <==> IsRefused(c, t))
            && (Diverts(DivertFrom(c), t.ts) <==> IsAway(c, t.ts)) && Calls(c, t, Call(c, at, t.roll))
  {
  }

  /** A capture puts the next sale into the books. */
  lemma CapturedBooks(c: Config, r: Run, tries: seq<Try>, t: Try)
    requires r.books == BooksOf(c, r.books.base, tries)
    ensures Captured(c, r, t.ts, t.user, t.roll).books == BooksOf(c, r.books.base, tries + [t])
  {
    hide BooksOf, Record, Note, HookHappens, HookRejected, Diverts, IsCalled, IsRefused, IsAway, Calls, ItemTotal;
    hide ItemRows;
    hide Tagged, DivertFrom;
    var b, base := r.books, r.books.base;
    assert b.maxId == base + |tries| by { BooksOfMax(c, base, tries); }
    BooksSnoc(c, base, tries, t);
    SameConditions(c, t);
    TaggedRows(b.maxId + 1, t.roll.items);
    assert b.payments + [] == b.payments && b.diverted + [] == b.diverted && b.paymentTimes + [] == b.paymentTimes;
    assert b.settlements + [] == b.settlements && b.settlementTimes + [] == b.settlementTimes;
  }

  lemma BooksOfMax(c: Config, base: nat, tries: seq<Try>)
    ensures BooksOf(c, base, tries).maxId == base + |tries| && BooksOf(c, base, tries).base == base
  {
  }

  lemma {:induction false} AttemptIsTold(c: Config, r: Run, earlier: seq<Try>, t: Try, origin: Origin)
    requires ValidConfig(c) && Attempts(r, t.ts, t.user) == TriesIn(earlier, t.user, MinuteOf(t.ts)) + 1
    ensures Tells(c, earlier, Attempt(t, origin), Answer(c, r, t, origin))
    ensures Succeeds(c, earlier, t) <==> Answer(c, r, t, origin).status == 201
  {
    hide Failing, Attempts, TriesIn;
  }

  ghost predicate Both(c: Config, r: Run, issued: seq<Issue>)
    requires ValidConfig(c)
  {
    Follows(c, r, issued) && Tracks(c, r, Made(issued)) && By(r.traffic.events, PROBES) == []
  }

  lemma AttemptFollows(c: Config, r: Run, issued: seq<Issue>, t: Try, origin: Origin)
    requires ValidConfig(c) && Both(c, r, issued) && origin in {Arrival, Retry}
    ensures Both(c, Attempted(c, r, t.ts, t.user, t.roll, origin), issued + [Attempt(t, origin)])
  {
    hide Attempted, Captured, Tells, Succeeds, Failing, Attempts, TriesIn, By, LimitAt, CheckoutStatus, TriesOf, Calls;
    hide Successes, Called, IsCalled, IsRefused, HookHappens, HookRejected, Call, AllTold, SomeCallsLate, BooksOf;
    hide Answer;
    hide LateHook, Diverts, IsAway;
    var i, sold, rq := Attempt(t, origin), Successes(c, issued), Answer(c, r, t, origin);
    assert Attempts(r, t.ts, t.user) == TriesIn(Made(issued), t.user, MinuteOf(t.ts)) + 1;
    AttemptTracks(c, r, Made(issued), t, origin);
    AttemptIsTold(c, r, Made(issued), t, origin);
    AttemptedShows(c, r, t, origin, USERS);
    AttemptedShows(c, r, t, origin, GATEWAY);
    AttemptedShows(c, r, t, origin, PROBES);
    SuccessesSnoc(c, issued, i);
    ToldSnoc(c, issued, i, By(r.traffic.events, USERS), rq);
    if rq.status == 201 {
      CapturedShows(c, r, t, USERS);
      CapturedShows(c, r, t, GATEWAY);
      CapturedShows(c, r, t, PROBES);
      CapturedBooks(c, r, sold, t);
      BooksOfMax(c, r.books.base, sold + [t]);
      SameConditions(c, t);
      CalledSnoc(c, sold, t);
      assert Successes(c, issued + [i]) == sold + [t];
    } else {
      assert Successes(c, issued + [i]) == sold;
    }
    var r', all := Attempted(c, r, t.ts, t.user, t.roll, origin), issued + [i];
    assert By(r'.traffic.events, PROBES) == [];
    assert By(r'.traffic.events, USERS) == By(r.traffic.events, USERS) + [rq];
    assert Tracks(c, r', Made(all));
    assert AllTold(c, all, By(r'.traffic.events, USERS));
    assert AllCalled(c, Called(c, Successes(c, all)), By(r'.traffic.events, GATEWAY));
    assert r'.books == BooksOf(c, r'.books.base, Successes(c, all));
  }

  lemma {:induction false} AgainSnoc(tries: seq<Try>, t: Try)
    ensures Again([t] + tries) == [Attempt(t, Retry)] + Again(tries)
    decreases |tries|
  {
    if tries == [] {
      assert [t] + tries == [t] && [t][..0] == [];
      assert Again([t]) == Again([]) + [Attempt(t, Retry)];
    } else {
      var all := [t] + tries;
      AgainSnoc(tries[..|tries| - 1], t);
      assert all[..|all| - 1] == [t] + tries[..|tries| - 1];
    }
  }

  lemma {:induction false} BurstFollows(c: Config, r: Run, issued: seq<Issue>, ts: int, user: int,
                                        retries: seq<(int, Roll)>)
    requires ValidConfig(c) && Both(c, r, issued)
    ensures Both(c, Retried(c, r, ts, user, retries), issued + Again(Burst(c, ts, user, retries)))
    decreases |retries|
  {
    hide Attempted, Both;
    if retries == [] || ts + retries[0].0 >= c.now {
      assert issued + [] == issued;
    } else {
      var t := Try(ts + retries[0].0, user, retries[0].1);
      var rest := Burst(c, t.ts, user, retries[1..]);
      AttemptFollows(c, r, issued, t, Retry);
      BurstFollows(c, Attempted(c, r, t.ts, user, t.roll, Retry), issued + [Attempt(t, Retry)], t.ts, user,
                   retries[1..]);
      AgainSnoc(rest, t);
      assert issued + ([Attempt(t, Retry)] + Again(rest)) == issued + [Attempt(t, Retry)] + Again(rest);
    }
  }

  lemma {:induction false} ViewFollows(c: Config, r: Run, issued: seq<Issue>, i: Issue, rq: Request)
    requires ValidConfig(c) && Both(c, r, issued) && i.View? && rq.origin == Arrival
    requires Tells(c, Made(issued), i, rq)
    ensures Both(c, Recorded(c, r, rq), issued + [i])
  {
    hide Tells, By, Tracks, AllTold, AllCalled, BooksOf, Successes, RequestMetrics, Counted, AccessLines;
    LookTracks(c, r, Made(issued), rq);
    BySnoc(r.traffic.events, Access(rq), USERS);
    BySnoc(r.traffic.events, Access(rq), GATEWAY);
    BySnoc(r.traffic.events, Access(rq), PROBES);
    ToldSnoc(c, issued, i, By(r.traffic.events, USERS), rq);
    SuccessesSnoc(c, issued, i);
    var r' := Recorded(c, r, rq);
    assert Successes(c, issued + [i]) == Successes(c, issued) && Made(issued + [i]) == Made(issued);
    assert By(r'.traffic.events, GATEWAY) == By(r.traffic.events, GATEWAY);
    assert By(r'.traffic.events, PROBES) == By(r.traffic.events, PROBES);
    assert By(r'.traffic.events, USERS) == By(r.traffic.events, USERS) + [rq];
  }

  lemma ArrivalFollows(c: Config, r: Run, issued: seq<Issue>, ts: int, choice: Choice)
    requires ValidConfig(c) && Both(c, r, issued) && Served(c, ts)
    ensures Both(c, Arrived(c, r, ts, choice), issued + IssuedBy(c, (ts, choice)))
  {
    hide Attempted, Both, Retried, Burst, Recorded, InGap, IsDown, Failing;
    DownInGap(c, ts);
    if choice.Buy? {
      var t := Try(ts, choice.user, choice.roll);
      AttemptFollows(c, r, issued, t, Arrival);
      BurstFollows(c, Attempted(c, r, ts, choice.user, choice.roll, Arrival), issued + [Attempt(t, Arrival)], ts,
                   choice.user, choice.retries);
      var burst := Again(Burst(c, ts, choice.user, choice.retries));
      assert issued + ([Attempt(t, Arrival)] + burst) == issued + [Attempt(t, Arrival)] + burst;
    } else {
      var failing := Failing(c, ts, choice.verb + " " + choice.template);
      ViewFollows(c, r, issued, View(ts, choice.verb, choice.template, choice.missing, choice.latency),
                  Request(ts, choice.verb, choice.template,
                          if failing then 500 else if choice.missing then 404 else 200,
                          choice.latency, failing, Arrival));
    }
  }

  lemma NothingIssued(c: Config, base: nat)
    requires ValidConfig(c)
    ensures Both(c, Run(Empty(base), QUIET, map[]), [])
  {
  }

  lemma {:induction false} StreamFollows(c: Config, base: nat, arrivals: seq<(int, Choice)>)
    requires ValidConfig(c)
    ensures Both(c, Streamed(c, Run(Empty(base), QUIET, map[]), arrivals), Issued(c, arrivals))
    decreases |arrivals|
  {
    if arrivals == [] {
      NothingIssued(c, base);
    } else {
      hide Arrived, Both, Refuse, IssuedBy;
      var (ts, choice) := arrivals[|arrivals| - 1];
      var before := Streamed(c, Run(Empty(base), QUIET, map[]), arrivals[..|arrivals| - 1]);
      var issued := Issued(c, arrivals[..|arrivals| - 1]);
      StreamFollows(c, base, arrivals[..|arrivals| - 1]);
      if Served(c, ts) {
        ArrivalFollows(c, before, issued, ts, choice);
      } else {
        NotServed(c, ts, choice);
        assert issued + [] == issued;
        RefusedFollows(c, before, issued, ts, VerbOf(choice), TemplateOf(choice));
      }
    }
  }

  lemma NotServed(c: Config, ts: int, choice: Choice)
    requires !Served(c, ts)
    ensures IssuedBy(c, (ts, choice)) == []
  {
    DownInGap(c, ts);
  }

  lemma RefusedFollows(c: Config, r: Run, issued: seq<Issue>, ts: int, verb: string, template: string)
    requires ValidConfig(c) && Both(c, r, issued)
    ensures Both(c, r.(traffic := Refuse(r.traffic, ts, verb, template)), issued)
  {
    hide AllTold, AllCalled, BooksOf, Tracks, By;
    RefusedTracks(c, r, Made(issued), ts, verb, template);
  }

  /** The probes that are made: not while the service is down. */
  function Reaching(c: Config, probes: seq<Request>): seq<Request> {
    if probes == [] then [] else
      var rq := probes[|probes| - 1];
      Reaching(c, probes[..|probes| - 1]) + if IsDown(c, rq.ts) then [] else [rq]
  }

  lemma {:induction false} ProbesFollow(c: Config, r: Run, issued: seq<Issue>, probes: seq<Request>)
    requires ValidConfig(c) && Follows(c, r, issued) && By(r.traffic.events, PROBES) == []
    requires forall i :: 0 <= i < |probes| ==> probes[i].origin in {Scan, Probe}
    ensures var r' := Probed(c, r, probes);
            Follows(c, r', issued) && By(r'.traffic.events, PROBES) == Reaching(c, probes)
    decreases |probes|
  {
    hide AllTold, AllCalled, BooksOf, By, RequestMetrics, Counted, AccessLines, Bump, InGap, IsDown;
    if probes == [] {
    } else {
      var before, rq := Probed(c, r, probes[..|probes| - 1]), probes[|probes| - 1];
      ProbesFollow(c, r, issued, probes[..|probes| - 1]);
      DownInGap(c, rq.ts);
      var events := before.traffic.events;
      BySnoc(events, Access(rq), USERS);
      BySnoc(events, Access(rq), GATEWAY);
      BySnoc(events, Access(rq), PROBES);
      assert By(events + [Access(rq)], USERS) == By(events, USERS);
      assert By(events + [Access(rq)], GATEWAY) == By(events, GATEWAY);
    }
  }

  /** In a whole history the users' requests, the gateway's calls, the probes and the books are, in order, exactly what
      was issued leads to. */
  lemma {:induction false} HistoryFollows(c: Config, base: nat, arrivals: seq<(int, Choice)>, probes: seq<Request>)
    requires ValidConfig(c) && ProbesFit(c, probes)
    ensures var r := HistoryOf(c, base, arrivals, probes);
            && Follows(c, r, Issued(c, arrivals)) && r.books.base == base
            && By(r.traffic.events, PROBES) == Reaching(c, probes)
  {
    hide Follows, Issued, Streamed, Probed, Tracks, By, Reaching, RunOk;
    StreamFollows(c, base, arrivals);
    ProbesFollow(c, Streamed(c, Run(Empty(base), QUIET, map[]), arrivals), Issued(c, arrivals), probes);
    HistoryIsOk(c, base, arrivals, probes);
  }

  // ---------------------------------------------------------------- a failing checkout

  /** No order is placed, and no checkout is answered 201, at a time when checkouts fail. */
  lemma NothingSoldWhileFailing(c: Config, base: nat, arrivals: seq<(int, Choice)>, probes: seq<Request>)
    requires ValidConfig(c) && ProbesFit(c, probes)
    ensures var r := HistoryOf(c, base, arrivals, probes);
            && (forall i :: 0 <= i < |r.books.orders| ==> !Failing(c, r.books.orders[i].at, "POST /checkout"))
            && (forall i :: 0 <= i < |By(r.traffic.events, USERS)| ==>
                              var rq := By(r.traffic.events, USERS)[i];
                              Failing(c, rq.ts, rq.verb + " " + rq.template) ==>
                                rq.status == 500 || (rq.status == 429 && rq.template == "/checkout"))
  {
    hide HistoryOf, Issued, Failing, By, Limited;
    HistoryFollows(c, base, arrivals, probes);
    var r, issued := HistoryOf(c, base, arrivals, probes), Issued(c, arrivals);
    var tries := Successes(c, issued);
    SuccessesSucceed(c, issued);
    OrderTimes(base, tries);
    var told := By(r.traffic.events, USERS);
    assert "POST" + " " + "/checkout" == "POST /checkout";
    forall i | 0 <= i < |told| && Failing(c, told[i].ts, told[i].verb + " " + told[i].template)
      ensures told[i].status == 500 || (told[i].status == 429 && told[i].template == "/checkout")
    {
      assert Tells(c, Made(issued[..i]), issued[i], told[i]);
    }
  }

  lemma {:induction false} OrderTimes(base: nat, tries: seq<Try>)
    ensures |OrdersOf(base, tries)| == |tries|
    ensures forall i :: 0 <= i < |tries| ==> OrdersOf(base, tries)[i].at == tries[i].ts
    decreases |tries|
  {
    hide ItemTotal;
    if tries == [] {
    } else {
      OrderTimes(base, tries[..|tries| - 1]);
    }
  }

  lemma {:induction false} SuccessesSucceed(c: Config, issued: seq<Issue>)
    requires ValidConfig(c)
    ensures forall i :: 0 <= i < |Successes(c, issued)| ==> !Failing(c, Successes(c, issued)[i].ts, "POST /checkout")
    decreases |issued|
  {
    hide Failing, Limited;
    if issued == [] {
    } else {
      SuccessesSucceed(c, issued[..|issued| - 1]);
    }
  }
}
