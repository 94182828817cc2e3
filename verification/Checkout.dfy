/** The two-database checkout: core orders in one SQLite file, payments in another.

    The handler commits the payment first and the order second, so between the two commits a crash leaves a
    payment without an order.  The protocol below lets a client stop, roll back or die at every point, lets the
    process restart with an edited ledger URL, and lets a reconciliation run interleave with live checkouts. */
module CheckoutProtocol {
  import opened Options

  type Path = string
  type Client = nat

  datatype Status = Pending | Confirmed | Shipped | Delivered | Refunded | Cancelled
  datatype Order = Order(userId: int, status: Status, totalCents: int, currency: string, createdAt: int)
  datatype Payment = Payment(orderId: nat, userId: int, amountCents: int, currency: string, payMethod: string,
                             status: string, gatewayRef: string, createdAt: int)

  /** A validated request body: prices, coupon and upper-cased currency are already applied. */
  datatype Request = Request(userId: int, totalCents: int, currency: string, payMethod: string)

  /** Where a client stands inside the nested transactions.  From `OrderRow` on it holds the core writer lock,
      and in `PaymentRow` it also holds the ledger writer lock. */
  datatype Phase = Reading | OrderRow | PaymentRow | Captured | ConfirmedRow
  datatype Txn = Txn(phase: Phase, req: Request, createdAt: int, orderId: nat, order: Order, payment: Payment)

  /** A reconciliation in progress; every statement is its own step, so checkouts run between them. */
  datatype Stage = OrdersRead | MissingKnown | RowsFetched
  datatype Recon = Recon(stage: Stage, since: int, source: Path, target: Path,
                         orders: set<nat>, missing: set<nat>, rows: seq<Payment>)

  /** `origin` is a history variable: the ledger file that was configured in the process that committed the order. */
  datatype State = State(orders: map<nat, Order>, files: map<Path, seq<Payment>>, env: Path, proc: Option<Path>,
                         txns: map<Client, Txn>, recon: Option<Recon>, origin: map<nat, Path>)

  datatype Event =
    | Begin(c: Client, req: Request, at: int)
    | InsertOrder(c: Client)
    | InsertPayment(c: Client, ref: string)
    | CommitLedger(c: Client)
    | Confirm(c: Client)
    | CommitCore(c: Client)
    | Rollback(c: Client)
    | EditEnv(path: Path)
    | Crash
    | Boot
    | ReadOrders(since: int, source: Path, target: Path)
    | ReadTarget
    | ReadSource
    | CopyRows
    | Abandon

  predicate HoldsCore(t: Txn) {
    t.phase != Reading
  }

  ghost predicate CoreFree(s: State) {
    forall c :: c in s.txns ==> !HoldsCore(s.txns[c])
  }

  ghost predicate LedgerFree(s: State) {
    forall c :: c in s.txns ==> s.txns[c].phase != PaymentRow
  }

  /** SQLite's choice for an INTEGER PRIMARY KEY without AUTOINCREMENT: one more than the largest committed id. */
  ghost predicate IsNextId(orders: map<nat, Order>, id: nat) {
    && id > 0
    && (forall k :: k in orders ==> k < id)
    && (id > 1 ==> id - 1 in orders)
  }

  predicate Matches(id: nat, o: Order, p: Payment) {
    && p.orderId == id
    && p.userId == o.userId
    && p.amountCents == o.totalCents
    && p.currency == o.currency
    && p.createdAt == o.createdAt
  }

  ghost predicate HasPayment(file: seq<Payment>, id: nat, o: Order) {
    exists i :: 0 <= i < |file| && Matches(id, o, file[i])
  }

  /** The rows the reconciliation script accepts as "has a payment": same order id, recorded at or after `since`. */
  ghost predicate PaidSince(file: seq<Payment>, id: nat, since: int) {
    exists i :: 0 <= i < |file| && file[i].orderId == id && file[i].createdAt >= since
  }

  predicate InScope(o: Order, since: int) {
    o.status == Confirmed && o.createdAt >= since
  }

  /** The payments of `file` whose order id is in `ids`, in row order. */
  function RowsFor(file: seq<Payment>, ids: set<nat>): (rows: seq<Payment>)
    ensures forall p :: p in rows <==> p in file && p.orderId in ids
  {
    if file == [] then []
    else (if file[0].orderId in ids then [file[0]] else []) + RowsFor(file[1..], ids)
  }

  ghost function OrdersSince(s: State, since: int): set<nat> {
    set id | id in s.orders && InScope(s.orders[id], since)
  }

  ghost function MissingFrom(file: seq<Payment>, ids: set<nat>, since: int): set<nat> {
    set id | id in ids && !PaidSince(file, id, since)
  }

  /** An id is always available, and SQLite's choice is unique: `InsertOrder` is never stuck and never ambiguous. */
  lemma {:induction false} NextIdExistsAndIsUnique(orders: map<nat, Order>)
    ensures exists id: nat :: IsNextId(orders, id)
    ensures forall i, j :: IsNextId(orders, i) && IsNextId(orders, j) ==> i == j
    decreases |orders|
  {
    if orders == map[] {
      assert IsNextId(orders, 1);
    } else {
      var k :| k in orders;
      var rest := orders - {k};
      assert forall i :: i in orders <==> i == k || i in rest;
      NextIdExistsAndIsUnique(rest);
      var id :| IsNextId(rest, id);
      assert IsNextId(orders, if k < id then id else k + 1);
    }
  }

  ghost predicate Enabled(s: State, e: Event) {
    match e
    case Begin(c, req, at) => s.proc.Some? && c !in s.txns
    case InsertOrder(c) => c in s.txns && s.txns[c].phase == Reading && CoreFree(s)
    case InsertPayment(c, ref) => c in s.txns && s.txns[c].phase == OrderRow && LedgerFree(s)
                                  && s.proc.Some? && s.proc.value in s.files
    case CommitLedger(c) => c in s.txns && s.txns[c].phase == PaymentRow && s.proc.Some? && s.proc.value in s.files
    case Confirm(c) => c in s.txns && s.txns[c].phase == Captured
    case CommitCore(c) => c in s.txns && s.txns[c].phase == ConfirmedRow && s.proc.Some?
    case Rollback(c) => c in s.txns
    case EditEnv(path) => true
    case Crash => s.proc.Some?
    case Boot => s.proc.None?
    case ReadOrders(since, source, target) => s.recon.None? && source in s.files && target in s.files
    case ReadTarget => s.recon.Some? && s.recon.value.stage == OrdersRead && s.recon.value.target in s.files
    case ReadSource => s.recon.Some? && s.recon.value.stage == MissingKnown && s.recon.value.source in s.files
    case CopyRows => s.recon.Some? && s.recon.value.stage == RowsFetched && s.recon.value.target in s.files
                     && (s.proc == Some(s.recon.value.target) ==> LedgerFree(s))
    case Abandon => s.recon.Some?
  }

  ghost function Apply(s: State, e: Event): State
    requires Enabled(s, e)
  {
    match e
    case Begin(c, req, at) =>
      s.(txns := s.txns[c := Txn(Reading, req, at, 0, Order(0, Pending, 0, "", 0),
                                 Payment(0, 0, 0, "", "", "", "", 0))])
    case InsertOrder(c) =>
      var t := s.txns[c];
      NextIdExistsAndIsUnique(s.orders);
      var id: nat :| IsNextId(s.orders, id);
      s.(txns := s.txns[c := t.(phase := OrderRow, orderId := id,
                                order := Order(t.req.userId, Pending, t.req.totalCents, t.req.currency, t.createdAt))])
    case InsertPayment(c, ref) =>
      var t := s.txns[c];
      s.(txns := s.txns[c := t.(phase := PaymentRow,
                                payment := Payment(t.orderId, t.req.userId, t.req.totalCents, t.req.currency,
                                                   t.req.payMethod, "captured", ref, t.createdAt))])
    case CommitLedger(c) =>
      var t := s.txns[c];
      var path := s.proc.value;
      s.(txns := s.txns[c := t.(phase := Captured)], files := s.files[path := s.files[path] + [t.payment]])
    case Confirm(c) =>
      var t := s.txns[c];
      s.(txns := s.txns[c := t.(phase := ConfirmedRow, order := t.order.(status := Confirmed))])
    case CommitCore(c) =>
      var t := s.txns[c];
      s.(orders := s.orders[t.orderId := t.order], origin := s.origin[t.orderId := s.proc.value], txns := s.txns - {c})
    case Rollback(c) => s.(txns := s.txns - {c})
    case EditEnv(path) => s.(env := path)
    case Crash => s.(proc := None, txns := map[])
    case Boot => s.(proc := Some(s.env))
    case ReadOrders(since, source, target) =>
      s.(recon := Some(Recon(OrdersRead, since, source, target, OrdersSince(s, since), {}, [])))
    case ReadTarget =>
      var r := s.recon.value;
      s.(recon := Some(r.(stage := MissingKnown, missing := MissingFrom(s.files[r.target], r.orders, r.since))))
    case ReadSource =>
      var r := s.recon.value;
      s.(recon := Some(r.(stage := RowsFetched, rows := RowsFor(s.files[r.source], r.missing))))
    case CopyRows =>
      var r := s.recon.value;
      s.(files := s.files[r.target := s.files[r.target] + r.rows], recon := None)
    case Abandon => s.(recon := None)
  }

  ghost predicate Run(s: State, es: seq<Event>, t: State)
    decreases |es|
  {
    if es == [] then s == t else Enabled(s, es[0]) && Run(Apply(s, es[0]), es[1..], t)
  }

  // ---------------------------------------------------------------- safety of every interleaving

  ghost predicate TxnOk(s: State, t: Txn)
    requires s.proc.Some?
  {
    HoldsCore(t) ==>
      && t.orderId !in s.orders
      && t.order == Order(t.req.userId, if t.phase == ConfirmedRow then Confirmed else Pending,
                          t.req.totalCents, t.req.currency, t.createdAt)
      && (t.phase == PaymentRow ==> Matches(t.orderId, t.order, t.payment))
      && (t.phase == Captured || t.phase == ConfirmedRow ==>
            s.proc.value in s.files && HasPayment(s.files[s.proc.value], t.orderId, t.order))
  }

  ghost predicate Backed(s: State, id: nat)
    requires id in s.origin
  {
    && id in s.orders
    && s.orders[id].status == Confirmed
    && s.origin[id] in s.files
    && HasPayment(s.files[s.origin[id]], id, s.orders[id])
  }

  ghost predicate OneWriter(s: State) {
    forall c, d :: c in s.txns && d in s.txns && HoldsCore(s.txns[c]) && HoldsCore(s.txns[d]) ==> c == d
  }

  ghost predicate Inv(s: State) {
    && (s.proc.None? ==> s.txns == map[])
    && OneWriter(s)
    && (s.proc.Some? ==> forall c :: c in s.txns ==> TxnOk(s, s.txns[c]))
    && (forall id :: id in s.origin ==> Backed(s, id))
  }

  lemma FilesGrow(s: State, e: Event)
    requires Enabled(s, e)
    ensures forall p :: p in s.files ==> p in Apply(s, e).files && s.files[p] <= Apply(s, e).files[p]
  {
  }

  lemma PaymentSurvives(f: seq<Payment>, g: seq<Payment>, id: nat, o: Order)
    requires f <= g && HasPayment(f, id, o)
    ensures HasPayment(g, id, o)
  {
  }

  lemma PaidSurvives(f: seq<Payment>, g: seq<Payment>, id: nat, since: int)
    requires f <= g && PaidSince(f, id, since)
    ensures PaidSince(g, id, since)
  {
  }

  lemma TxnStep(s: State, e: Event, c: Client)
    requires Inv(s) && Enabled(s, e)
    requires Apply(s, e).proc.Some? && c in Apply(s, e).txns
    ensures TxnOk(Apply(s, e), Apply(s, e).txns[c])
  {
    var s' := Apply(s, e);
    FilesGrow(s, e);
    if c in s.txns && s.txns[c] == s'.txns[c] {
      var t := s.txns[c];
      if HoldsCore(t) {
        assert TxnOk(s, t);
        if t.phase == Captured || t.phase == ConfirmedRow {
          PaymentSurvives(s.files[s.proc.value], s'.files[s.proc.value], t.orderId, t.order);
        }
      }
    } else if e.CommitLedger? {
      var path := s.proc.value;
      assert s'.files[path][|s.files[path]|] == s.txns[c].payment;
    } else if e.Confirm? {
      var f, t := s.files[s.proc.value], s.txns[c];
      var i :| 0 <= i < |f| && Matches(t.orderId, t.order, f[i]);
      assert Matches(t.orderId, s'.txns[c].order, f[i]);
    }
  }

  lemma BackedStep(s: State, e: Event, id: nat)
    requires Inv(s) && Enabled(s, e) && id in Apply(s, e).origin
    ensures Backed(Apply(s, e), id)
  {
    var s' := Apply(s, e);
    FilesGrow(s, e);
    if e.CommitCore? && s.txns[e.c].orderId == id {
      assert TxnOk(s, s.txns[e.c]);
    } else {
      assert Backed(s, id);
      if e.CommitCore? {
        assert TxnOk(s, s.txns[e.c]);
      }
      PaymentSurvives(s.files[s.origin[id]], s'.files[s.origin[id]], id, s.orders[id]);
    }
  }

  lemma InvStep(s: State, e: Event)
    requires Inv(s) && Enabled(s, e)
    ensures Inv(Apply(s, e))
  {
    var s' := Apply(s, e);
    if s'.proc.Some? {
      forall c | c in s'.txns ensures TxnOk(s', s'.txns[c]) { TxnStep(s, e, c); }
    }
    forall id | id in s'.origin ensures Backed(s', id) { BackedStep(s, e, id); }
  }

  /** Every reachable state: each order a checkout committed is confirmed and has its payment, equal in order id,
      user, amount, currency and creation time, in the ledger file its process was configured with. */
  lemma {:induction false} CommittedOrdersArePaid(s: State, es: seq<Event>, t: State)
    requires Inv(s) && Run(s, es, t)
    ensures forall id :: id in t.origin ==>
                           && id in t.orders && t.orders[id].status == Confirmed
                           && t.origin[id] in t.files && HasPayment(t.files[t.origin[id]], id, t.orders[id])
    ensures Inv(t)
    decreases |es|
  {
    if es == [] {
      assert forall id :: id in t.origin ==> Backed(t, id);
    } else {
      InvStep(s, es[0]);
      CommittedOrdersArePaid(Apply(s, es[0]), es[1..], t);
    }
  }
}
