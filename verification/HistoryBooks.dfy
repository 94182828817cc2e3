/** The simulated books: orders, items, payments and settlements that one stream of checkouts leaves behind. */
module HistoryBooks {
  import opened Options

  datatype Item = Item(product: int, quantity: nat, price: nat)
  datatype ItemRow = ItemRow(order: nat, item: Item)

  /** `at` is the arrival; the stored row keeps it without its fraction of a second. */
  datatype OrderRow = OrderRow(id: nat, user: int, total: nat, at: int)
  datatype PaymentRow = PaymentRow(order: nat, user: int, amount: nat, ref: string, at: int)
  datatype SettlementRow = SettlementRow(ref: string, order: nat, amount: nat, at: int)

  /** `base` is the largest order id before the simulation. */
  datatype Books = Books(base: nat, maxId: nat, orders: seq<OrderRow>, items: seq<ItemRow>,
                         payments: seq<PaymentRow>, diverted: seq<PaymentRow>, paymentTimes: seq<int>,
                         settlements: seq<SettlementRow>, settlementTimes: seq<int>)

  function Empty(base: nat): Books {
    Books(base, base, [], [], [], [], [], [], [])
  }

  function ItemTotal(items: seq<Item>): nat {
    if items == [] then 0 else ItemTotal(items[..|items| - 1]) + items[|items| - 1].quantity * items[|items| - 1].price
  }

  function ItemRows(id: nat, items: seq<Item>): seq<ItemRow> {
    seq(|items|, i requires 0 <= i < |items| => ItemRow(id, items[i]))
  }

  /** From the incident on, payments go to the other database when the incident names one. */
  predicate Diverts(from: Option<int>, ts: int) {
    from.Some? && ts >= from.value
  }

  function PaymentFor(o: OrderRow, ref: string): PaymentRow {
    PaymentRow(o.id, o.user, o.total, ref, o.at)
  }

  /** A successful checkout: the next order id, its items, and its payment in one of the two lists. */
  function Capture(b: Books, from: Option<int>, ts: int, user: int, items: seq<Item>, ref: string): Books {
    var o := OrderRow(b.maxId + 1, user, ItemTotal(items), ts);
    var p := PaymentFor(o, ref);
    b.(maxId := o.id, orders := b.orders + [o], items := b.items + ItemRows(o.id, items),
       payments := if Diverts(from, ts) then b.payments else b.payments + [p],
       diverted := if Diverts(from, ts) then b.diverted + [p] else b.diverted,
       paymentTimes := if Diverts(from, ts) then b.paymentTimes else b.paymentTimes + [ts])
  }

  /** The gateway's confirmation of a captured payment. */
  function Settle(b: Books, p: PaymentRow, at: int, diverted: bool): Books {
    b.(settlements := b.settlements + [SettlementRow(p.ref, p.order, p.amount, at)],
       settlementTimes := if diverted then b.settlementTimes else b.settlementTimes + [at])
  }

  // ---------------------------------------------------------------- what the books should look like

  function Sold(items: seq<ItemRow>, id: nat): nat {
    if items == [] then 0 else
      var r := items[|items| - 1];
      Sold(items[..|items| - 1], id) + if r.order == id then r.item.quantity * r.item.price else 0
  }

  predicate IdsInOrder(base: nat, orders: seq<OrderRow>) {
    forall i :: 0 <= i < |orders| ==> orders[i].id == base + 1 + i
  }

  predicate TotalsAgree(orders: seq<OrderRow>, items: seq<ItemRow>) {
    && (forall i :: 0 <= i < |orders| ==> orders[i].total == Sold(items, orders[i].id))
    && (forall i :: 0 <= i < |items| ==> items[i].order <= if orders == [] then 0 else orders[|orders| - 1].id)
  }

  predicate Ascending(rows: seq<PaymentRow>) {
    forall j, k :: 0 <= j < k < |rows| ==> rows[j].order < rows[k].order
  }

  predicate AllGenuine(base: nat, orders: seq<OrderRow>, rows: seq<PaymentRow>, from: Option<int>, diverted: bool) {
    forall j :: 0 <= j < |rows| ==> Genuine(base, orders, rows[j]) && Diverts(from, rows[j].at) == diverted
  }

  predicate AllPaid(orders: seq<OrderRow>, rows: seq<PaymentRow>, from: Option<int>, diverted: bool) {
    forall i :: 0 <= i < |orders| && Diverts(from, orders[i].at) == diverted ==> Paid(rows, orders[i].id)
  }

  /** The list pays exactly the orders of its kind, each once, with the order's own amount, user and time. */
  predicate Pays(base: nat, orders: seq<OrderRow>, rows: seq<PaymentRow>, from: Option<int>, diverted: bool) {
    Ascending(rows) && AllGenuine(base, orders, rows, from, diverted) && AllPaid(orders, rows, from, diverted)
  }

  predicate Genuine(base: nat, orders: seq<OrderRow>, p: PaymentRow) {
    base < p.order <= base + |orders| && PaymentFor(orders[p.order - base - 1], p.ref) == p
  }

  predicate Paid(rows: seq<PaymentRow>, id: nat) {
    exists j :: 0 <= j < |rows| && rows[j].order == id
  }

  predicate Settles(s: SettlementRow, p: PaymentRow) {
    s.ref == p.ref && s.order == p.order && s.amount == p.amount
  }

  ghost predicate Backed(payments: seq<PaymentRow>, diverted: seq<PaymentRow>, s: SettlementRow) {
    exists p :: (p in payments || p in diverted) && Settles(s, p)
  }

  ghost predicate SettlementsAgree(settlements: seq<SettlementRow>, payments: seq<PaymentRow>,
                                   diverted: seq<PaymentRow>) {
    && (forall j, k :: 0 <= j < k < |settlements| ==> settlements[j].order < settlements[k].order)
    && (forall j :: 0 <= j < |settlements| ==> Backed(payments, diverted, settlements[j]))
  }

  predicate TimesAgree(times: seq<int>, payments: seq<PaymentRow>) {
    |times| == |payments| && forall j :: 0 <= j < |payments| ==> times[j] == payments[j].at
  }

  ghost predicate BooksOk(b: Books, from: Option<int>) {
    && b.maxId == b.base + |b.orders| && IdsInOrder(b.base, b.orders) && TotalsAgree(b.orders, b.items)
    && TimesAgree(b.paymentTimes, b.payments) && SettlementsAgree(b.settlements, b.payments, b.diverted)
    && Pays(b.base, b.orders, b.payments, from, false) && Pays(b.base, b.orders, b.diverted, from, true)
  }

  // ---------------------------------------------------------------- kept by every step

  lemma {:induction false} SoldConcat(a: seq<ItemRow>, b: seq<ItemRow>, id: nat)
    ensures Sold(a + b, id) == Sold(a, id) + Sold(b, id)
    decreases |b|
  {
    if b == [] {
      assert a + b == a;
    } else {
      SoldConcat(a, b[..|b| - 1], id);
      assert (a + b)[..|a + b| - 1] == a + b[..|b| - 1];
    }
  }

  lemma {:induction false} OwnItems(id: nat, items: seq<Item>, other: nat)
    ensures Sold(ItemRows(id, items), other) == if id == other then ItemTotal(items) else 0
    decreases |items|
  {
    if items == [] {
    } else {
      OwnItems(id, items[..|items| - 1], other);
      var rows := ItemRows(id, items);
      assert rows[..|rows| - 1] == ItemRows(id, items[..|items| - 1]);
    }
  }

  lemma {:induction false} NothingSold(items: seq<ItemRow>, id: nat)
    requires forall i :: 0 <= i < |items| ==> items[i].order != id
    ensures Sold(items, id) == 0
    decreases |items|
  {
    if items == [] {
    } else {
      NothingSold(items[..|items| - 1], id);
    }
  }

  lemma {:induction false} TotalsSnoc(base: nat, orders: seq<OrderRow>, rows: seq<ItemRow>, o: OrderRow,
                                      items: seq<Item>)
    requires IdsInOrder(base, orders) && TotalsAgree(orders, rows)
    requires o.id == base + 1 + |orders| && o.total == ItemTotal(items)
    ensures TotalsAgree(orders + [o], rows + ItemRows(o.id, items))
  {
    hide Sold, ItemTotal;
    var orders', rows' := orders + [o], rows + ItemRows(o.id, items);
    forall i | 0 <= i < |orders'| ensures orders'[i].total == Sold(rows', orders'[i].id) {
      var id := orders'[i].id;
      SoldConcat(rows, ItemRows(o.id, items), id);
      OwnItems(o.id, items, id);
      if i == |orders| {
        NothingSold(rows, id);
      }
    }
  }

  lemma PaidSnoc(rows: seq<PaymentRow>, p: PaymentRow, id: nat)
    ensures Paid(rows + [p], id) <==> Paid(rows, id) || p.order == id
  {
    var rows' := rows + [p];
    assert rows'[|rows|] == p && forall j :: 0 <= j < |rows| ==> rows'[j] == rows[j];
  }

  lemma AllGenuineSnoc(base: nat, orders: seq<OrderRow>, rows: seq<PaymentRow>, from: Option<int>, diverted: bool,
                       o: OrderRow, ref: string)
    requires AllGenuine(base, orders, rows, from, diverted) && o.id == base + 1 + |orders|
    ensures AllGenuine(base, orders + [o], rows, from, diverted)
    ensures Diverts(from, o.at) == diverted ==>
              AllGenuine(base, orders + [o], rows + [PaymentFor(o, ref)], from, diverted)
  {
  }

  lemma AllPaidSnoc(orders: seq<OrderRow>, rows: seq<PaymentRow>, from: Option<int>, diverted: bool, o: OrderRow,
                    ref: string)
    requires AllPaid(orders, rows, from, diverted)
    ensures Diverts(from, o.at) != diverted ==> AllPaid(orders + [o], rows, from, diverted)
    ensures Diverts(from, o.at) == diverted ==> AllPaid(orders + [o], rows + [PaymentFor(o, ref)], from, diverted)
  {
    hide Diverts, Paid;
    var orders', rows' := orders + [o], rows + [PaymentFor(o, ref)];
    forall i | 0 <= i < |orders'| && Diverts(from, orders'[i].at) == diverted ensures Paid(rows', orders'[i].id) {
      PaidSnoc(rows, PaymentFor(o, ref), orders'[i].id);
    }
  }

  /** A list stays right when an order of the other kind arrives, or one of its own kind together with its payment. */
  lemma PaysSnoc(base: nat, orders: seq<OrderRow>, rows: seq<PaymentRow>, from: Option<int>, diverted: bool,
                 o: OrderRow,
                 ref: string)
    requires Pays(base, orders, rows, from, diverted) && o.id == base + 1 + |orders|
    ensures Pays(base, orders + [o], if Diverts(from, o.at) == diverted then rows + [PaymentFor(o, ref)] else rows,
                 from, diverted)
  {
    hide Diverts, AllPaid, AllGenuine;
    AllGenuineSnoc(base, orders, rows, from, diverted, o, ref);
    AllPaidSnoc(orders, rows, from, diverted, o, ref);
    OlderThan(base, orders, rows, from, diverted);
  }

  lemma OlderThan(base: nat, orders: seq<OrderRow>, rows: seq<PaymentRow>, from: Option<int>, diverted: bool)
    requires Pays(base, orders, rows, from, diverted)
    ensures forall j :: 0 <= j < |rows| ==> rows[j].order <= base + |orders|
  {
  }

  lemma SettlementsAgreeMore(settlements: seq<SettlementRow>, payments: seq<PaymentRow>, diverted: seq<PaymentRow>,
                             payments': seq<PaymentRow>, diverted': seq<PaymentRow>)
    requires SettlementsAgree(settlements, payments, diverted) && payments <= payments' && diverted <= diverted'
    ensures SettlementsAgree(settlements, payments', diverted')
  {
  }

  lemma TimesSnoc(times: seq<int>, payments: seq<PaymentRow>, p: PaymentRow)
    requires TimesAgree(times, payments)
    ensures TimesAgree(times + [p.at], payments + [p])
  {
  }

  lemma IdsSnoc(base: nat, orders: seq<OrderRow>, o: OrderRow)
    requires IdsInOrder(base, orders) && o.id == base + 1 + |orders|
    ensures IdsInOrder(base, orders + [o])
  {
  }

  /** A capture keeps the books in order. */
  lemma CaptureKeepsBooks(b: Books, from: Option<int>, ts: int, user: int, items: seq<Item>, ref: string)
    requires BooksOk(b, from)
    ensures BooksOk(Capture(b, from, ts, user, items, ref), from)
  {
    hide Pays, TotalsAgree, ItemTotal, ItemRows, Diverts, SettlementsAgree, TimesAgree, IdsInOrder;
    var o := OrderRow(b.maxId + 1, user, ItemTotal(items), ts);
    IdsSnoc(b.base, b.orders, o);
    TotalsSnoc(b.base, b.orders, b.items, o, items);
    PaysSnoc(b.base, b.orders, b.payments, from, false, o, ref);
    PaysSnoc(b.base, b.orders, b.diverted, from, true, o, ref);
    TimesSnoc(b.paymentTimes, b.payments, PaymentFor(o, ref));
    var b' := Capture(b, from, ts, user, items, ref);
    SettlementsAgreeMore(b.settlements, b.payments, b.diverted, b'.payments, b'.diverted);
  }

  /** So does the settlement of the payment just captured. */
  lemma SettleKeepsBooks(b: Books, from: Option<int>, p: PaymentRow, at: int, diverted: bool)
    requires BooksOk(b, from) && (p in b.payments || p in b.diverted)
    requires forall j :: 0 <= j < |b.settlements| ==> b.settlements[j].order < p.order
    ensures BooksOk(Settle(b, p, at, diverted), from)
  {
  }

  // ---------------------------------------------------------------- what that means

  /** Every order has exactly one payment in the two lists together, of exactly the sum of its items; it is in the
      diverted list exactly when the order arrived at or after the diversion. */
  lemma ExactlyOnePayment(b: Books, from: Option<int>, i: nat)
    requires BooksOk(b, from) && i < |b.orders|
    ensures var o := b.orders[i];
            var away := from.Some? && from.value <= o.at;
            var here, there := if away then b.diverted else b.payments, if away then b.payments else b.diverted;
            && o.id == b.base + 1 + i
            && (exists j :: 0 <= j < |here| && here[j].order == o.id && here[j].amount == Sold(b.items, o.id) == o.total
                            && here[j].user == o.user && here[j].at == o.at
                            && forall k :: 0 <= k < |here| && k != j ==> here[k].order != o.id)
            && !Paid(there, o.id)
  {
    hide Sold, SettlementsAgree, TimesAgree;
    var o := b.orders[i];
    var here := if Diverts(from, o.at) then b.diverted else b.payments;
    var there := if Diverts(from, o.at) then b.payments else b.diverted;
    var j := OnePayment(b.base, b.orders, here, from, i);
    NoPayment(b.base, b.orders, there, from, i);
  }

  lemma OnePayment(base: nat, orders: seq<OrderRow>, rows: seq<PaymentRow>, from: Option<int>, i: nat) returns (j: nat)
    requires i < |orders| && IdsInOrder(base, orders) && Pays(base, orders, rows, from, Diverts(from, orders[i].at))
    ensures j < |rows| && PaymentFor(orders[i], rows[j].ref) == rows[j]
    ensures forall k :: 0 <= k < |rows| && k != j ==> rows[k].order != orders[i].id
  {
    assert Paid(rows, orders[i].id);
    j :| 0 <= j < |rows| && rows[j].order == orders[i].id;
    assert Genuine(base, orders, rows[j]);
  }

  lemma NoPayment(base: nat, orders: seq<OrderRow>, rows: seq<PaymentRow>, from: Option<int>, i: nat)
    requires i < |orders| && IdsInOrder(base, orders) && Pays(base, orders, rows, from, !Diverts(from, orders[i].at))
    ensures !Paid(rows, orders[i].id)
  {
  }

  /** Every settlement confirms one of those payments, and no order is settled twice. */
  lemma SettlementsConfirmPayments(b: Books, from: Option<int>, j: nat)
    requires BooksOk(b, from) && j < |b.settlements|
    ensures exists p :: (p in b.payments || p in b.diverted) && Settles(b.settlements[j], p)
    ensures forall k :: 0 <= k < |b.settlements| && k != j ==> b.settlements[k].order != b.settlements[j].order
  {
    assert Backed(b.payments, b.diverted, b.settlements[j]);
  }
}
