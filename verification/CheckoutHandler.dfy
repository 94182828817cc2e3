/** The request handler as the source writes it: two nested transactions, each committed on success and rolled back
    on any exception.  A failure is an input: it names the statement that raises.  Each call refines the protocol. */
module CheckoutHandler {
  import opened Options
  import opened CheckoutProtocol
  import opened LedgerRepair

  datatype Fault = NoFault | BadRequest | OnOrderInsert | OnGateway | OnLedgerOpen | OnPaymentInsert | OnLedgerCommit
                 | OnConfirm | OnCoreCommit

  datatype Outcome = Created(orderId: nat) | Raised

  /** The one client whose request the handler serves. */
  const ME: Client := 0

  lemma {:induction false} RunSnoc(s: State, es: seq<Event>, u: State, e: Event)
    requires Run(s, es, u) && Enabled(u, e)
    ensures Run(s, es + [e], Apply(u, e))
  {
    assert [e][1..] == [];
    assert Run(Apply(u, e), [], Apply(u, e));
    assert Run(u, [e], Apply(u, e));
    RunConcat(s, es, u, [e], Apply(u, e));
  }

  /** The handler's statements as protocol events, and the protocol state after the first `k` of them when the order
      got id `id`. */
  ghost function Statement(req: Request, at: int, ref: string, k: nat): Event
    requires k < 6
  {
    if k == 0 then Begin(ME, req, at)
    else if k == 1 then InsertOrder(ME)
    else if k == 2 then InsertPayment(ME, ref)
    else if k == 3 then CommitLedger(ME)
    else if k == 4 then Confirm(ME)
    else CommitCore(ME)
  }

  ghost function RowOf(req: Request, at: int, status: Status): Order {
    Order(req.userId, status, req.totalCents, req.currency, at)
  }

  ghost function PaymentOf(req: Request, at: int, ref: string, id: nat): Payment {
    Payment(id, req.userId, req.totalCents, req.currency, req.payMethod, "captured", ref, at)
  }

  ghost function After(s: State, req: Request, at: int, ref: string, id: nat, k: nat): State
    requires s.proc.Some? && (k >= 4 ==> s.proc.value in s.files)
  {
    var start := Txn(Reading, req, at, 0, Order(0, Pending, 0, "", 0), Payment(0, 0, 0, "", "", "", "", 0));
    var row := start.(phase := OrderRow, orderId := id, order := RowOf(req, at, Pending));
    var paid := row.(phase := PaymentRow, payment := PaymentOf(req, at, ref, id));
    var path := s.proc.value;
    if k == 0 then s
    else if k == 1 then s.(txns := map[ME := start])
    else if k == 2 then s.(txns := map[ME := row])
    else if k == 3 then s.(txns := map[ME := paid])
    else
      var files := s.files[path := s.files[path] + [PaymentOf(req, at, ref, id)]];
      if k == 4 then s.(txns := map[ME := paid.(phase := Captured)], files := files)
      else if k == 5 then
        s.(txns := map[ME := paid.(phase := ConfirmedRow, order := RowOf(req, at, Confirmed))], files := files)
      else
        s.(files := files, orders := s.orders[id := RowOf(req, at, Confirmed)], origin := s.origin[id := path])
  }

  ghost function Statements(req: Request, at: int, ref: string, k: nat): seq<Event>
    requires k <= 6
  {
    seq(k, i requires 0 <= i < k => Statement(req, at, ref, i))
  }

  lemma StatementStep(s: State, req: Request, at: int, ref: string, id: nat, k: nat)
    requires s.proc.Some? && s.txns == map[] && IsNextId(s.orders, id)
    requires k < 6 && (k >= 2 ==> s.proc.value in s.files)
    ensures Enabled(After(s, req, at, ref, id, k), Statement(req, at, ref, k))
    ensures Apply(After(s, req, at, ref, id, k), Statement(req, at, ref, k)) == After(s, req, at, ref, id, k + 1)
  {
    if k < 3 {
      EarlyStep(s, req, at, ref, id, k);
    } else {
      LateStep(s, req, at, ref, id, k);
    }
  }

  lemma EarlyStep(s: State, req: Request, at: int, ref: string, id: nat, k: nat)
    requires s.proc.Some? && s.txns == map[] && IsNextId(s.orders, id)
    requires k < 3 && (k >= 2 ==> s.proc.value in s.files)
    ensures Enabled(After(s, req, at, ref, id, k), Statement(req, at, ref, k))
    ensures Apply(After(s, req, at, ref, id, k), Statement(req, at, ref, k)) == After(s, req, at, ref, id, k + 1)
  {
    if k == 1 {
      NextIdExistsAndIsUnique(s.orders);
    }
  }

  lemma LateStep(s: State, req: Request, at: int, ref: string, id: nat, k: nat)
    requires s.proc.Some? && s.txns == map[] && IsNextId(s.orders, id)
    requires 3 <= k < 6 && s.proc.value in s.files
    ensures Enabled(After(s, req, at, ref, id, k), Statement(req, at, ref, k))
    ensures Apply(After(s, req, at, ref, id, k), Statement(req, at, ref, k)) == After(s, req, at, ref, id, k + 1)
  {
  }

  lemma {:induction false} StatementsRun(s: State, req: Request, at: int, ref: string, id: nat, k: nat)
    requires s.proc.Some? && s.txns == map[] && IsNextId(s.orders, id)
    requires k <= 6 && (k >= 3 ==> s.proc.value in s.files)
    ensures Run(s, Statements(req, at, ref, k), After(s, req, at, ref, id, k))
    decreases k
  {
    if k == 0 {
    } else {
      hide Statement, After, Enabled, Apply;
      StatementsRun(s, req, at, ref, id, k - 1);
      StatementStep(s, req, at, ref, id, k - 1);
      RunSnoc(s, Statements(req, at, ref, k - 1), After(s, req, at, ref, id, k - 1), Statement(req, at, ref, k - 1));
      assert Statements(req, at, ref, k) == Statements(req, at, ref, k - 1) + [Statement(req, at, ref, k - 1)];
    }
  }

  /** How many statements succeed before `fault` raises. */
  function Succeeded(fault: Fault): nat {
    match fault
    case BadRequest => 1
    case OnOrderInsert => 1
    case OnGateway => 2
    case OnLedgerOpen => 2
    case OnPaymentInsert => 2
    case OnLedgerCommit => 3
    case OnConfirm => 4
    case OnCoreCommit => 5
    case NoFault => 6
  }

  /** A missing ledger file raises when it is opened. */
  function Effective(fault: Fault, ledgerExists: bool): Fault {
    if !ledgerExists && Succeeded(fault) > 2 then OnLedgerOpen else fault
  }

  /** The statement that is not reached: the one that raises, or the first one after the check that does. */
  lemma StopsBefore(req: Request, at: int, ref: string, fault: Fault)
    requires fault != NoFault
    ensures Statement(req, at, ref, Succeeded(fault)) ==
            match fault
            case BadRequest => InsertOrder(ME)
            case OnOrderInsert => InsertOrder(ME)
            case OnGateway => InsertPayment(ME, ref)
            case OnLedgerOpen => InsertPayment(ME, ref)
            case OnPaymentInsert => InsertPayment(ME, ref)
            case OnLedgerCommit => CommitLedger(ME)
            case OnConfirm => Confirm(ME)
            case OnCoreCommit => CommitCore(ME)
    ensures Effective(fault, true) == fault
    ensures Succeeded(Effective(fault, false)) == if Succeeded(fault) <= 2 then Succeeded(fault) else 2
  {
  }

  ghost function TraceOf(req: Request, at: int, ref: string, fault: Fault): seq<Event> {
    Statements(req, at, ref, Succeeded(fault)) + if fault == NoFault then [] else [Rollback(ME)]
  }

  lemma OnlyMine(s: State, req: Request, at: int, ref: string, id: nat, k: nat)
    requires s.proc.Some? && s.txns == map[] && 0 < k <= 6 && (k >= 3 ==> s.proc.value in s.files)
    ensures var u := After(s, req, at, ref, id, k);
            if k < 6 then ME in u.txns && u.txns - {ME} == map[] else u.txns == map[]
  {
  }

  lemma {:induction false} HandlerRuns(s: State, req: Request, at: int, ref: string, id: nat, fault: Fault, t: State)
    requires Inv(s) && s.proc.Some? && s.txns == map[] && IsNextId(s.orders, id)
    requires Succeeded(fault) >= 3 ==> s.proc.value in s.files
    requires t == After(s, req, at, ref, id, Succeeded(fault)).(txns := map[])
    ensures Run(s, TraceOf(req, at, ref, fault), t) && Inv(t)
  {
    var k := Succeeded(fault);
    StatementsRun(s, req, at, ref, id, k);
    var u := After(s, req, at, ref, id, k);
    OnlyMine(s, req, at, ref, id, k);
    hide Run, Statements, Statement, Inv, After;
    if fault == NoFault {
      assert TraceOf(req, at, ref, fault) == Statements(req, at, ref, k);
    } else {
      RunSnoc(s, Statements(req, at, ref, k), u, Rollback(ME));
    }
    CommittedOrdersArePaid(s, TraceOf(req, at, ref, fault), t);
  }

  class Service {
    var orders: map<nat, Order>
    var files: map<Path, seq<Payment>>
    const ledgerPath: Path
    ghost var env: Path
    ghost var origin: map<nat, Path>

    constructor (orders: map<nat, Order>, files: map<Path, seq<Payment>>, ledgerPath: Path)
      ensures this.orders == orders && this.files == files && this.ledgerPath == ledgerPath && this.origin == map[]
    {
      this.orders, this.files, this.ledgerPath, this.env, this.origin := orders, files, ledgerPath, ledgerPath, map[];
    }

    /** The databases as the protocol sees them between two requests. */
    ghost function View(): State
      reads this
    {
      State(orders, files, env, Some(ledgerPath), map[], None, origin)
    }

    /** SQLite's rowid choice: one past the largest. */
    method LastRowId() returns (id: nat)
      ensures IsNextId(orders, id)
    {
      var rest := orders.Keys;
      id := 1;
      while rest != {}
        invariant rest <= orders.Keys
        invariant id > 0
        invariant forall k :: k in orders && k !in rest ==> k < id
        invariant id > 1 ==> id - 1 in orders
        decreases rest
      {
        var k :| k in rest;
        rest := rest - {k};
        if k >= id {
          id := k + 1;
        }
      }
    }

    /** `with ledger_db()`: insert the payment, commit on the way out; an exception rolls the row back. */
    method RecordPayment(payment: Payment, fault: Fault) returns (ok: bool)
      modifies this`files
      ensures ok <==> ledgerPath in old(files) && fault !in {OnLedgerOpen, OnPaymentInsert, OnLedgerCommit}
      ensures files == if ok then old(files)[ledgerPath := old(files)[ledgerPath] + [payment]] else old(files)
    {
      if ledgerPath !in files || fault == OnLedgerOpen {
        return false;
      }
      var pending := files[ledgerPath];
      if fault == OnPaymentInsert {
        return false;
      }
      pending := pending + [payment];
      if fault == OnLedgerCommit {
        return false;
      }
      files := files[ledgerPath := pending];
      return true;
    }

    /** `with core_db()` around it.  Every call is a run of the protocol: a raised exception leaves the orders alone,
        and leaves a payment behind exactly when it is raised after the ledger's commit. */
    method Checkout(req: Request, at: int, ref: string, fault: Fault) returns (r: Outcome)
      requires Inv(View())
      modifies this
      ensures env == old(env)
      ensures r.Created? <==> fault == NoFault && ledgerPath in old(files)
      ensures r.Created? ==>
                && IsNextId(old(orders), r.orderId)
                && orders == old(orders)[r.orderId :=
                               Order(req.userId, Confirmed, req.totalCents, req.currency, at)]
                && origin == old(origin)[r.orderId := ledgerPath]
      ensures r.Raised? ==> orders == old(orders) && origin == old(origin)
      ensures if ledgerPath in old(files) && fault in {NoFault, OnConfirm, OnCoreCommit}
              then exists id: nat :: IsNextId(old(orders), id) && files == old(files)[ledgerPath :=
                     old(files)[ledgerPath]
                     + [Payment(id, req.userId, req.totalCents, req.currency, req.payMethod, "captured", ref, at)]]
              else files == old(files)
      ensures Run(old(View()), TraceOf(req, at, ref, Effective(fault, ledgerPath in old(files))), View()) && Inv(View())
    {
      ghost var s, how := View(), Effective(fault, ledgerPath in files);
      var id := LastRowId();
      r := Raised;
      if fault != BadRequest && fault != OnOrderInsert {
        var row := Order(req.userId, Pending, req.totalCents, req.currency, at);
        if fault != OnGateway {
          var payment := Payment(id, req.userId, req.totalCents, req.currency, req.payMethod, "captured", ref, at);
          var recorded := RecordPayment(payment, fault);
          if recorded && fault != OnConfirm {
            row := row.(status := Confirmed);
            if fault != OnCoreCommit {
              orders := orders[id := row];
              origin := origin[id := ledgerPath];
              r := Created(id);
            }
          }
        }
      }
      HandlerRuns(s, req, at, ref, id, how, View());
    }
  }
}
