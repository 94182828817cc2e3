/** The incident that a generated history leaves behind: why the check fails on it, and that the documented repair
    mends it. */
module GeneratedIncident {
  import opened Options
  import opened CheckoutProtocol
  import opened LedgerRepair
  import HistoryBooks
  import HistoryTraffic
  import HistoryRun

  /** Stored stamps have no fraction of a second. */
  function Stored(ts: int): int {
    ts / 1_000_000
  }

  /** The tables before the insertion; `means` are the payment methods drawn for the orders. */
  datatype Seed = Seed(orders: map<nat, Order>, ledger: seq<Payment>, snapshot: seq<Payment>, means: nat -> string)

  /** The seed knows no order of the history, and its own confirmed orders are paid. */
  ghost predicate SeedOk(seed: Seed, base: nat) {
    && (forall id :: id in seed.orders ==> id <= base)
    && (forall i :: 0 <= i < |seed.ledger| ==> seed.ledger[i].orderId <= base)
    && (forall id :: id in seed.orders && seed.orders[id].status == Confirmed ==>
                       HasPayment(seed.ledger, id, seed.orders[id]))
  }

  function OrderOf(o: HistoryBooks.OrderRow): Order {
    Order(o.user, Confirmed, o.total, "USD", Stored(o.at))
  }

  function PaymentOf(p: HistoryBooks.PaymentRow, means: nat -> string): Payment {
    Payment(p.order, p.user, p.amount, "USD", means(p.order), "captured", p.ref, Stored(p.at))
  }

  function FileOf(rows: seq<HistoryBooks.PaymentRow>, means: nat -> string): seq<Payment> {
    seq(|rows|, i requires 0 <= i < |rows| => PaymentOf(rows[i], means))
  }

  predicate New(b: HistoryBooks.Books, id: nat) {
    b.base < id <= b.base + |b.orders|
  }

  function OrdersOf(b: HistoryBooks.Books): map<nat, Order> {
    map id: nat | b.base < id <= b.base + |b.orders| && New(b, id) :: OrderOf(b.orders[id - b.base - 1])
  }

  /** The databases after the insertion, with the service configured for `live`. */
  ghost function Left(b: HistoryBooks.Books, from: Option<int>, seed: Seed, ledger: Path, other: Path,
                      live: Path): State {
    State(seed.orders + OrdersOf(b),
          map[other := seed.snapshot + FileOf(b.diverted, seed.means)]
             [ledger := seed.ledger + FileOf(b.payments, seed.means)],
          live, Some(live), map[], None,
          map id: nat | b.base < id <= b.base + |b.orders| && New(b, id)
          :: if HistoryBooks.Diverts(from, b.orders[id - b.base - 1].at) then other else ledger)
  }

  lemma {:induction false} LeftHas(b: HistoryBooks.Books, from: Option<int>, seed: Seed, ledger: Path, other: Path,
                                   live: Path)
    requires ledger != other
    ensures var s := Left(b, from, seed, ledger, other, live);
            && s.files.Keys == {ledger, other}
            && s.files[ledger] == seed.ledger + FileOf(b.payments, seed.means)
            && s.files[other] == seed.snapshot + FileOf(b.diverted, seed.means)
            && (forall id :: id in s.origin <==> New(b, id))
            && (forall id :: id in s.orders <==> id in seed.orders || New(b, id))
            && (forall id: nat :: New(b, id) ==> s.orders[id] == OrderOf(b.orders[id - b.base - 1]))
  {
  }

  lemma {:induction false} RowIsPayment(table: seq<Payment>, rows: seq<HistoryBooks.PaymentRow>, means: nat -> string,
                                        j: nat, o: HistoryBooks.OrderRow)
    requires j < |rows| && rows[j] == HistoryBooks.PaymentFor(o, rows[j].ref)
    ensures HasPayment(table + FileOf(rows, means), o.id, OrderOf(o))
  {
    var file := table + FileOf(rows, means);
    assert file[|table| + j] == PaymentOf(rows[j], means);
    assert Matches(o.id, OrderOf(o), file[|table| + j]);
  }

  /** Every order of the history is paid in the file of its time. */
  lemma {:induction false} NewIsPaid(b: HistoryBooks.Books, from: Option<int>, seed: Seed, ledger: Path, other: Path,
                                     live: Path, id: nat)
    requires HistoryBooks.BooksOk(b, from) && ledger != other && New(b, id)
    ensures var s := Left(b, from, seed, ledger, other, live);
            id in s.origin && Backed(s, id)
  {
    hide Left, HasPayment, OrderOf, HistoryBooks.Diverts, HistoryBooks.SettlementsAgree, HistoryBooks.TimesAgree;
    hide HistoryBooks.TotalsAgree, HistoryBooks.Pays;
    LeftHas(b, from, seed, ledger, other, live);
    OriginOf(b, from, seed, ledger, other, live, id);
    var o := b.orders[id - b.base - 1];
    var diverted := HistoryBooks.Diverts(from, o.at);
    var rows := if diverted then b.diverted else b.payments;
    var j := HistoryBooks.OnePayment(b.base, b.orders, rows, from, id - b.base - 1);
    RowIsPayment(if diverted then seed.snapshot else seed.ledger, rows, seed.means, j, o);
    assert OrderOf(o).status == Confirmed by { Arrives(o); }
  }

  lemma Arrives(o: HistoryBooks.OrderRow)
    ensures OrderOf(o).status == Confirmed
  {
  }

  /** What a generated history leaves is a state of the protocol, with every order paid in one of the two files. */
  lemma {:induction false} LeftIsPaid(b: HistoryBooks.Books, from: Option<int>, seed: Seed, ledger: Path, other: Path,
                                      live: Path, since: int)
    requires HistoryBooks.BooksOk(b, from) && SeedOk(seed, b.base) && ledger != other && live in {ledger, other}
    ensures var s := Left(b, from, seed, ledger, other, live);
            Inv(s) && PaidSomewhere(s, ledger, other, since)
  {
    hide HistoryBooks.BooksOk, HasPayment;
    var s := Left(b, from, seed, ledger, other, live);
    forall id | id in s.origin ensures Backed(s, id) {
      NewIsPaid(b, from, seed, ledger, other, live, id);
    }
    forall id | id in s.orders && InScope(s.orders[id], since)
      ensures HasPayment(s.files[ledger], id, s.orders[id]) || HasPayment(s.files[other], id, s.orders[id])
    {
      if New(b, id) {
        NewIsPaid(b, from, seed, ledger, other, live, id);
      } else {
        PaymentSurvives(seed.ledger, s.files[ledger], id, s.orders[id]);
      }
    }
  }

  /** The verifier's check fails on it exactly when some payment from the period went to the other file. */
  lemma {:induction false} CheckFailsIffDiverted(b: HistoryBooks.Books, from: Option<int>, seed: Seed, ledger: Path,
                                                 other: Path, live: Path, since: int)
    requires HistoryBooks.BooksOk(b, from) && SeedOk(seed, b.base) && ledger != other
    ensures var s := Left(b, from, seed, ledger, other, live);
            LedgerComplete(s.orders, s.files[ledger], since) <==>
              forall j :: 0 <= j < |b.diverted| ==> Stored(b.diverted[j].at) < since
  {
    hide HistoryBooks.BooksOk;
    var s := Left(b, from, seed, ledger, other, live);
    if j :| 0 <= j < |b.diverted| && Stored(b.diverted[j].at) >= since {
      DivertedIsMissing(b, from, seed, ledger, other, live, j);
    } else {
      forall id | id in s.orders && InScope(s.orders[id], since)
        ensures exists i :: 0 <= i < |s.files[ledger]| && s.files[ledger][i].orderId == id
      {
        if New(b, id) {
          InLedger(b, from, seed, ledger, other, live, since, id);
        } else {
          PaymentSurvives(seed.ledger, s.files[ledger], id, s.orders[id]);
        }
        assert HasPayment(s.files[ledger], id, s.orders[id]);
      }
    }
  }

  lemma {:induction false} DivertedIsMissing(b: HistoryBooks.Books, from: Option<int>, seed: Seed, ledger: Path,
                                             other: Path, live: Path, j: nat)
    requires HistoryBooks.BooksOk(b, from) && SeedOk(seed, b.base) && ledger != other && j < |b.diverted|
    ensures var s, id := Left(b, from, seed, ledger, other, live), b.diverted[j].order;
            && id in s.orders && s.orders[id].status == Confirmed && s.orders[id].createdAt == Stored(b.diverted[j].at)
            && forall i :: 0 <= i < |s.files[ledger]| ==> s.files[ledger][i].orderId != id
  {
    hide HistoryBooks.SettlementsAgree, HistoryBooks.TimesAgree, HistoryBooks.TotalsAgree, HistoryBooks.AllPaid, Left;
    LeftHas(b, from, seed, ledger, other, live);
    var s, p := Left(b, from, seed, ledger, other, live), b.diverted[j];
    assert HistoryBooks.Genuine(b.base, b.orders, p) && HistoryBooks.Diverts(from, p.at);
    assert New(b, p.order) && b.orders[p.order - b.base - 1].id == p.order;
    HistoryBooks.NoPayment(b.base, b.orders, b.payments, from, p.order - b.base - 1);
    hide HistoryBooks.BooksOk, HistoryBooks.Genuine;
    NotInFile(seed.ledger, b.payments, seed.means, p.order);
  }

  lemma {:induction false} NotInFile(table: seq<Payment>, rows: seq<HistoryBooks.PaymentRow>, means: nat -> string,
                                     id: nat)
    requires !HistoryBooks.Paid(rows, id) && forall i :: 0 <= i < |table| ==> table[i].orderId != id
    ensures forall i :: 0 <= i < |table + FileOf(rows, means)| ==> (table + FileOf(rows, means))[i].orderId != id
  {
    var file := table + FileOf(rows, means);
    forall i | 0 <= i < |file| ensures file[i].orderId != id {
      if i >= |table| {
        assert file[i] == PaymentOf(rows[i - |table|], means);
      }
    }
  }

  lemma {:induction false} InLedger(b: HistoryBooks.Books, from: Option<int>, seed: Seed, ledger: Path, other: Path,
                                    live: Path, since: int, id: nat)
    requires HistoryBooks.BooksOk(b, from) && ledger != other && New(b, id)
    requires InScope(OrdersOf(b)[id], since) && forall j :: 0 <= j < |b.diverted| ==> Stored(b.diverted[j].at) < since
    ensures var s := Left(b, from, seed, ledger, other, live);
            HasPayment(s.files[ledger], id, s.orders[id])
  {
    hide HistoryBooks.BooksOk, HasPayment, Left;
    NewIsPaid(b, from, seed, ledger, other, live, id);
    LeftHas(b, from, seed, ledger, other, live);
    var o := b.orders[id - b.base - 1];
    if HistoryBooks.Diverts(from, o.at) {
      var j := DivertedRow(b, from, id);
      assert false;
    }
    OriginOf(b, from, seed, ledger, other, live, id);
  }

  lemma {:induction false} DivertedRow(b: HistoryBooks.Books, from: Option<int>, id: nat) returns (j: nat)
    requires HistoryBooks.BooksOk(b, from) && New(b, id) && HistoryBooks.Diverts(from, b.orders[id - b.base - 1].at)
    ensures j < |b.diverted| && b.diverted[j].at == b.orders[id - b.base - 1].at
  {
    hide HistoryBooks.SettlementsAgree, HistoryBooks.TimesAgree, HistoryBooks.TotalsAgree, HistoryBooks.Pays;
    j := HistoryBooks.OnePayment(b.base, b.orders, b.diverted, from, id - b.base - 1);
  }

  lemma {:induction false} OriginOf(b: HistoryBooks.Books, from: Option<int>, seed: Seed, ledger: Path, other: Path,
                                    live: Path, id: nat)
    requires New(b, id)
    ensures var s := Left(b, from, seed, ledger, other, live);
            id in s.origin
            && s.origin[id] == if HistoryBooks.Diverts(from, b.orders[id - b.base - 1].at) then other else ledger
  {
  }

  /** From every random choice to the mended ledger: whatever history was drawn, restoring the URL, restarting and one
      reconciliation from the other file over a period that covers the incident make the check pass for good. */
  lemma {:induction false} GeneratedIncidentIsRepairable(
    c: HistoryRun.Config, base: nat, arrivals: seq<(int, HistoryRun.Choice)>, probes: seq<HistoryTraffic.Request>,
    seed: Seed, ledger: Path, other: Path, live: Path, before: seq<Event>, restored: State, during: seq<Event>,
    ready: State, after: seq<Event>, t: State, since: int, incident: int)
    requires HistoryRun.ValidConfig(c) && HistoryRun.ProbesFit(c, probes)
    requires SeedOk(seed, base) && ledger != other && live in {ledger, other} && since <= incident
    requires var books := HistoryRun.HistoryOf(c, base, arrivals, probes).books;
             Run(Left(books, HistoryRun.DivertFrom(c), seed, ledger, other, live), before, restored)
    requires EditsOnly(before, {ledger, other}) && Restored(restored, ledger) && restored.recon == None
    requires Run(restored, during, ready) && EditsOnly(during, {ledger})
    requires Enabled(ready, CopyRows) && IsRepair(ready.recon.value, ledger, other, since)
    requires Run(Apply(ready, CopyRows), after, t) && EditsOnly(after, {ledger})
    ensures ledger in t.files && LedgerComplete(t.orders, t.files[ledger], incident)
    ensures FullyPaid(t, ledger, since) && NothingToCopy(t, ledger, since)
  {
    hide HistoryBooks.BooksOk, Run, Inv, PaidSomewhere, Restored, EditsOnly, NothingToCopy, FullyPaid, LedgerComplete;
    hide SeedOk;
    hide HistoryRun.HistoryOf, Left, Enabled, Apply, IsRepair;
    var books, from := HistoryRun.HistoryOf(c, base, arrivals, probes).books, HistoryRun.DivertFrom(c);
    HistoryRun.HistoryIsOk(c, base, arrivals, probes);
    LeftIsPaid(books, from, seed, ledger, other, live, since);
    RepairCompletesTheLedger(Left(books, from, seed, ledger, other, live), before, restored, during, ready, after, t,
                             ledger, other, since, incident);
  }
}
