/** Repairing a ledger after payments were diverted to another file: restore the URL, restart, reconcile.
    Everything here is about runs of `CheckoutProtocol` in which live checkouts interleave with the script. */
module LedgerRepair {
  import opened Options
  import opened CheckoutProtocol

  /** The verifier's check: every confirmed order since `since` has some payment row in the ledger. */
  ghost predicate LedgerComplete(orders: map<nat, Order>, file: seq<Payment>, since: int) {
    forall id :: id in orders && orders[id].status == Confirmed && orders[id].createdAt >= since ==>
                   exists i :: 0 <= i < |file| && file[i].orderId == id
  }

  /** What the script itself looks for, and what it leaves behind. */
  ghost predicate FullyPaid(s: State, ledger: Path, since: int) {
    && ledger in s.files
    && forall id :: id in s.orders && InScope(s.orders[id], since) ==> PaidSince(s.files[ledger], id, since)
  }

  /** Every in-scope order has its matching payment in the real ledger or in the one other file ever configured. */
  ghost predicate PaidSomewhere(s: State, ledger: Path, other: Path, since: int) {
    && ledger in s.files && other in s.files
    && s.env in {ledger, other}
    && (s.proc.Some? ==> s.proc.value in {ledger, other})
    && forall id :: id in s.orders && InScope(s.orders[id], since) ==>
                      || HasPayment(s.files[ledger], id, s.orders[id])
                      || HasPayment(s.files[other], id, s.orders[id])
  }

  /** The URL is back and no process still runs with the old one. */
  predicate Restored(s: State, ledger: Path) {
    s.env == ledger && (s.proc.None? || s.proc == Some(ledger))
  }

  ghost predicate EditsOnly(es: seq<Event>, paths: set<Path>) {
    forall i :: 0 <= i < |es| && es[i].EditEnv? ==> es[i].path in paths
  }

  lemma PaidSomewhereStep(s: State, e: Event, ledger: Path, other: Path, since: int)
    requires Inv(s) && Enabled(s, e) && PaidSomewhere(s, ledger, other, since)
    requires e.EditEnv? ==> e.path in {ledger, other}
    ensures PaidSomewhere(Apply(s, e), ledger, other, since)
  {
    var s' := Apply(s, e);
    FilesGrow(s, e);
    forall id | id in s'.orders && InScope(s'.orders[id], since)
      ensures || HasPayment(s'.files[ledger], id, s'.orders[id])
              || HasPayment(s'.files[other], id, s'.orders[id])
    {
      var where := if e.CommitCore? && s.txns[e.c].orderId == id then s.proc.value
                   else if HasPayment(s.files[ledger], id, s.orders[id]) then ledger else other;
      if e.CommitCore? {
        assert TxnOk(s, s.txns[e.c]);
      }
      PaymentSurvives(s.files[where], s'.files[where], id, s'.orders[id]);
    }
  }

  lemma {:induction false} PaidSomewhereRun(s: State, es: seq<Event>, t: State, ledger: Path, other: Path, since: int)
    requires Inv(s) && Run(s, es, t) && PaidSomewhere(s, ledger, other, since) && EditsOnly(es, {ledger, other})
    ensures Inv(t) && PaidSomewhere(t, ledger, other, since)
    decreases |es|
  {
    if es == [] {
    } else {
      InvStep(s, es[0]);
      PaidSomewhereStep(s, es[0], ledger, other, since);
      assert EditsOnly(es[1..], {ledger, other}) by {
        assert forall i :: 0 <= i < |es[1..]| ==> es[1..][i] == es[i + 1];
      }
      PaidSomewhereRun(Apply(s, es[0]), es[1..], t, ledger, other, since);
    }
  }

  // ---------------------------------------------------------------- the reconciliation, step by step

  predicate IsRepair(r: Recon, ledger: Path, other: Path, since: int) {
    r.target == ledger && r.source == other && r.since == since
  }

  /** What a repair run may rely on after each of its statements, whatever checkouts did in between. */
  ghost predicate ReconOk(s: State, ledger: Path, other: Path, since: int)
    requires ledger in s.files && other in s.files
  {
    s.recon.Some? && IsRepair(s.recon.value, ledger, other, since) ==>
      var r, file := s.recon.value, s.files[ledger];
      && (forall id :: id in s.orders && InScope(s.orders[id], since) ==> id in r.orders || PaidSince(file, id, since))
      && (forall id :: id in r.orders ==> id in s.orders && InScope(s.orders[id], since))
      && (r.stage != OrdersRead ==>
            && (forall id :: id in r.orders && id !in r.missing ==> PaidSince(file, id, since))
            && (forall id :: id in r.missing ==> id in r.orders && HasPayment(s.files[other], id, s.orders[id])))
      && (r.stage == RowsFetched ==> forall id :: id in r.missing ==> PaidSince(r.rows, id, since))
  }

  /** The invariant of every state from the restart on. */
  ghost predicate Repairing(s: State, ledger: Path, other: Path, since: int) {
    && Inv(s)
    && PaidSomewhere(s, ledger, other, since)
    && Restored(s, ledger)
    && ReconOk(s, ledger, other, since)
  }

  /** Orders committed after the restart are paid in the real ledger, and nothing else adds to the scope. */
  lemma ScopeStep(s: State, e: Event, ledger: Path, since: int, id: nat)
    requires Inv(s) && Enabled(s, e) && Restored(s, ledger) && ledger in s.files
    requires id in Apply(s, e).orders && InScope(Apply(s, e).orders[id], since)
    ensures || (id in s.orders && s.orders[id] == Apply(s, e).orders[id])
            || PaidSince(Apply(s, e).files[ledger], id, since)
  {
    if e.CommitCore? && s.txns[e.c].orderId == id {
      assert TxnOk(s, s.txns[e.c]);
    }
  }

  lemma ReadTargetFindsSource(s: State, ledger: Path, other: Path, since: int)
    requires Repairing(s, ledger, other, since) && Enabled(s, ReadTarget)
    ensures ReconOk(Apply(s, ReadTarget), ledger, other, since)
  {
  }

  lemma ReadSourceFetchesAll(s: State, ledger: Path, other: Path, since: int)
    requires Repairing(s, ledger, other, since) && Enabled(s, ReadSource)
    ensures ReconOk(Apply(s, ReadSource), ledger, other, since)
  {
    var r := s.recon.value;
    if IsRepair(r, ledger, other, since) {
      var file, rows := s.files[other], RowsFor(s.files[other], r.missing);
      forall id | id in r.missing ensures PaidSince(rows, id, since) {
        var i :| 0 <= i < |file| && Matches(id, s.orders[id], file[i]);
        assert file[i] in rows;
        var j :| 0 <= j < |rows| && rows[j] == file[i];
      }
    }
  }

  lemma ReconKept(s: State, e: Event, ledger: Path, other: Path, since: int)
    requires Repairing(s, ledger, other, since) && Enabled(s, e) && Apply(s, e).recon == s.recon
    requires e.EditEnv? ==> e.path == ledger
    ensures ledger in Apply(s, e).files && other in Apply(s, e).files && ReconOk(Apply(s, e), ledger, other, since)
  {
    var s' := Apply(s, e);
    FilesGrow(s, e);
    if s.recon.Some? && IsRepair(s.recon.value, ledger, other, since) {
      var r := s.recon.value;
      forall id | id in s'.orders && InScope(s'.orders[id], since)
        ensures id in r.orders || PaidSince(s'.files[ledger], id, since)
      {
        ScopeStep(s, e, ledger, since, id);
        if id in s.orders && PaidSince(s.files[ledger], id, since) {
          PaidSurvives(s.files[ledger], s'.files[ledger], id, since);
        }
      }
      forall id | id in r.orders
        ensures id in s'.orders && InScope(s'.orders[id], since)
        ensures r.stage != OrdersRead && id !in r.missing ==> PaidSince(s'.files[ledger], id, since)
        ensures r.stage != OrdersRead && id in r.missing ==> HasPayment(s'.files[other], id, s'.orders[id])
      {
        if r.stage != OrdersRead && id !in r.missing {
          PaidSurvives(s.files[ledger], s'.files[ledger], id, since);
        }
        if r.stage != OrdersRead && id in r.missing {
          PaymentSurvives(s.files[other], s'.files[other], id, s.orders[id]);
        }
      }
    }
  }

  lemma RepairingStep(s: State, e: Event, ledger: Path, other: Path, since: int)
    requires Repairing(s, ledger, other, since) && Enabled(s, e)
    requires e.EditEnv? ==> e.path == ledger
    ensures Repairing(Apply(s, e), ledger, other, since)
  {
    InvStep(s, e);
    PaidSomewhereStep(s, e, ledger, other, since);
    match e {
      case ReadTarget => ReadTargetFindsSource(s, ledger, other, since);
      case ReadSource => ReadSourceFetchesAll(s, ledger, other, since);
      case ReadOrders(_, _, _) =>
      case CopyRows =>
      case Abandon =>
      case _ => ReconKept(s, e, ledger, other, since);
    }
  }

  lemma {:induction false} RepairingRun(s: State, es: seq<Event>, t: State, ledger: Path, other: Path, since: int)
    requires Repairing(s, ledger, other, since) && Run(s, es, t) && EditsOnly(es, {ledger})
    ensures Repairing(t, ledger, other, since)
    decreases |es|
  {
    if es == [] {
    } else {
      assert es[0].EditEnv? ==> es[0].path in {ledger};
      RepairingStep(s, es[0], ledger, other, since);
      assert EditsOnly(es[1..], {ledger}) by {
        assert forall i :: 0 <= i < |es[1..]| ==> es[1..][i] == es[i + 1];
      }
      RepairingRun(Apply(s, es[0]), es[1..], t, ledger, other, since);
    }
  }

  /** The script's commit leaves no confirmed order unpaid, including those confirmed while it was running. */
  lemma CopyCompletes(s: State, ledger: Path, other: Path, since: int)
    requires Repairing(s, ledger, other, since) && Enabled(s, CopyRows)
    requires IsRepair(s.recon.value, ledger, other, since)
    ensures FullyPaid(Apply(s, CopyRows), ledger, since)
  {
    var r, s', file := s.recon.value, Apply(s, CopyRows), s.files[ledger];
    forall id | id in s'.orders && InScope(s'.orders[id], since) ensures PaidSince(s'.files[ledger], id, since) {
      if PaidSince(file, id, since) {
        PaidSurvives(file, s'.files[ledger], id, since);
      } else {
        var j :| 0 <= j < |r.rows| && r.rows[j].orderId == id && r.rows[j].createdAt >= since;
        assert s'.files[ledger][|file| + j] == r.rows[j];
      }
    }
  }

  // ---------------------------------------------------------------- after the repair

  /** A later reconciliation of the same period, whatever its source, has nothing to insert. */
  ghost predicate NothingToCopy(s: State, ledger: Path, since: int) {
    s.recon.Some? && s.recon.value.target == ledger && s.recon.value.since == since ==>
      var r := s.recon.value;
      && (forall id :: id in r.orders ==> id in s.orders && InScope(s.orders[id], since))
      && (r.stage != OrdersRead ==> r.missing == {})
      && (r.stage == RowsFetched ==> r.rows == [])
  }

  lemma {:induction false} RowsForNone(file: seq<Payment>)
    ensures RowsFor(file, {}) == []
  {
    if file == [] {
    } else {
      RowsForNone(file[1..]);
    }
  }

  lemma NothingToCopyStep(s: State, e: Event, ledger: Path, since: int)
    requires Inv(s) && Enabled(s, e) && FullyPaid(s, ledger, since) && NothingToCopy(s, ledger, since)
    ensures NothingToCopy(Apply(s, e), ledger, since)
  {
    var s' := Apply(s, e);
    if s'.recon.Some? && s'.recon.value.target == ledger && s'.recon.value.since == since {
      var r := s'.recon.value;
      if s.recon.Some? {
        assert forall id :: id in r.orders ==> id in s'.orders && InScope(s'.orders[id], since);
      }
      if e.ReadTarget? {
        assert forall id :: id in r.orders ==> PaidSince(s.files[ledger], id, since);
        assert r.missing == {};
      }
      if e.ReadSource? {
        RowsForNone(s.files[r.source]);
      }
    }
  }

  lemma FullyPaidStep(s: State, e: Event, ledger: Path, since: int)
    requires Inv(s) && Enabled(s, e) && Restored(s, ledger) && FullyPaid(s, ledger, since)
    requires e.EditEnv? ==> e.path == ledger
    ensures Restored(Apply(s, e), ledger) && FullyPaid(Apply(s, e), ledger, since)
  {
    hide Inv;
    var s' := Apply(s, e);
    FilesGrow(s, e);
    forall id | id in s'.orders && InScope(s'.orders[id], since) ensures PaidSince(s'.files[ledger], id, since) {
      ScopeStep(s, e, ledger, since, id);
      if id in s.orders && s.orders[id] == s'.orders[id] {
        PaidSurvives(s.files[ledger], s'.files[ledger], id, since);
      }
    }
  }

  lemma {:induction false} FullyPaidRun(s: State, es: seq<Event>, t: State, ledger: Path, since: int)
    requires Inv(s) && Run(s, es, t) && Restored(s, ledger) && FullyPaid(s, ledger, since) && EditsOnly(es, {ledger})
    requires NothingToCopy(s, ledger, since)
    ensures Inv(t) && Restored(t, ledger) && FullyPaid(t, ledger, since)
    ensures NothingToCopy(t, ledger, since)
    decreases |es|
  {
    if es == [] {
    } else {
      var e := es[0];
      var s' := Apply(s, e);
      assert e.EditEnv? ==> e.path in {ledger};
      InvStep(s, e);
      NothingToCopyStep(s, e, ledger, since);
      FullyPaidStep(s, e, ledger, since);
      hide Inv, Enabled, Apply, FullyPaid, NothingToCopy, Restored;
      assert EditsOnly(es[1..], {ledger}) by {
        assert forall i :: 0 <= i < |es[1..]| ==> es[1..][i] == es[i + 1];
      }
      FullyPaidRun(s', es[1..], t, ledger, since);
    }
  }

  /** The whole repair.  Whatever happened while only `ledger` and `other` were ever configured, once the URL is
      restored and the process restarted, a reconciliation that starts later (`during` runs up to its commit) and
      covers the incident makes the verifier's check pass, no later activity makes it fail again, and a second
      reconciliation of the same period, from any source, finds nothing to copy. */
  lemma {:induction false} RepairCompletesTheLedger(s: State, before: seq<Event>, restored: State, during: seq<Event>,
                                                    ready: State, after: seq<Event>, t: State,
                                 ledger: Path, other: Path, since: int, incident: int)
    requires Inv(s) && PaidSomewhere(s, ledger, other, since) && since <= incident
    requires Run(s, before, restored) && EditsOnly(before, {ledger, other})
    requires Restored(restored, ledger) && restored.recon == None
    requires Run(restored, during, ready) && EditsOnly(during, {ledger})
    requires Enabled(ready, CopyRows) && IsRepair(ready.recon.value, ledger, other, since)
    requires Run(Apply(ready, CopyRows), after, t) && EditsOnly(after, {ledger})
    ensures ledger in t.files && LedgerComplete(t.orders, t.files[ledger], incident)
    ensures FullyPaid(t, ledger, since) && NothingToCopy(t, ledger, since)
  {
    PaidSomewhereRun(s, before, restored, ledger, other, since);
    RepairingRun(restored, during, ready, ledger, other, since);
    CopyCompletes(ready, ledger, other, since);
    RepairingStep(ready, CopyRows, ledger, other, since);
    FullyPaidRun(Apply(ready, CopyRows), after, t, ledger, since);
    forall id | id in t.orders && t.orders[id].status == Confirmed && t.orders[id].createdAt >= incident
      ensures exists i :: 0 <= i < |t.files[ledger]| && t.files[ledger][i].orderId == id
    {
      assert PaidSince(t.files[ledger], id, since);
    }
  }

  // ---------------------------------------------------------------- what the check does not promise

  /** Which orders the copy really restores.  An order whose true payment sits in the source has it in the ledger
      afterwards exactly when it was already there, or the ledger had no row at all for that order id since `since`;
      an orphan row left under a reused order id hides it. */
  lemma {:induction false} CopyRestoresExactly(file: seq<Payment>, source: seq<Payment>, ids: set<nat>, since: int,
                                               id: nat, o: Order)
    requires id in ids && HasPayment(source, id, o) && o.createdAt >= since
    ensures var copied := file + RowsFor(source, MissingFrom(file, ids, since));
            HasPayment(copied, id, o) <==> HasPayment(file, id, o) || !PaidSince(file, id, since)
  {
    var rows := RowsFor(source, MissingFrom(file, ids, since));
    var copied := file + rows;
    if HasPayment(file, id, o) {
      PaymentSurvives(file, copied, id, o);
    } else if !PaidSince(file, id, since) {
      var i :| 0 <= i < |source| && Matches(id, o, source[i]);
      assert source[i] in rows;
      var j :| 0 <= j < |rows| && rows[j] == source[i];
      assert copied[|file| + j] == source[i];
    } else {
      forall i | 0 <= i < |copied| ensures !Matches(id, o, copied[i]) {
        assert copied[i] == if i < |file| then file[i] else rows[i - |file|];
        assert i >= |file| ==> copied[i] in rows;
      }
    }
  }

  /** Five enabled steps in a row are a run. */
  lemma {:induction false} Unroll5(s: State, es: seq<Event>, t: State)
    requires |es| == 5
    requires Enabled(s, es[0])
    requires Enabled(Apply(s, es[0]), es[1])
    requires Enabled(Apply(Apply(s, es[0]), es[1]), es[2])
    requires Enabled(Apply(Apply(Apply(s, es[0]), es[1]), es[2]), es[3])
    requires Enabled(Apply(Apply(Apply(Apply(s, es[0]), es[1]), es[2]), es[3]), es[4])
    requires Apply(Apply(Apply(Apply(Apply(s, es[0]), es[1]), es[2]), es[3]), es[4]) == t
    ensures Run(s, es, t)
  {
    var s1 := Apply(s, es[0]);
    var s2 := Apply(s1, es[1]);
    var s3 := Apply(s2, es[2]);
    var s4 := Apply(s3, es[3]);
    assert Run(s4, es[4..], t);
    assert es[3..][1..] == es[4..] && Run(s3, es[3..], t);
    assert es[2..][1..] == es[3..] && Run(s2, es[2..], t);
    assert es[1..][1..] == es[2..] && Run(s1, es[1..], t);
  }

  lemma {:induction false} RunConcat(s: State, es: seq<Event>, u: State, fs: seq<Event>, t: State)
    requires Run(s, es, u) && Run(u, fs, t)
    ensures Run(s, es + fs, t)
    decreases |es|
  {
    if es == [] {
      assert es + fs == fs;
    } else {
      RunConcat(Apply(s, es[0]), es[1..], u, fs, t);
      assert (es + fs)[1..] == es[1..] + fs;
    }
  }

  const CHEAP := Request(7, 100, "USD", "card")
  const DEAR := Request(7, 250, "USD", "card")
  const ORPHAN := Payment(1, 7, 100, "USD", "card", "captured", "a", 5)
  const DIVERTED := Payment(1, 7, 250, "USD", "card", "captured", "b", 9)
  const REUSED := Order(7, Pending, 250, "USD", 9)

  ghost function Fresh(ledger: Path, other: Path): State {
    State(map[], map[ledger := [], other := []], ledger, Some(ledger), map[], None, map[])
  }

  ghost function Crashed(ledger: Path, other: Path): State {
    Fresh(ledger, other).(files := map[ledger := [ORPHAN], other := []], proc := None)
  }

  ghost function Paying(ledger: Path, other: Path): State {
    Crashed(ledger, other).(env := other, proc := Some(other),
                            txns := map[0 := Txn(PaymentRow, DEAR, 9, 1, REUSED, DIVERTED)])
  }

  ghost function UrlRestored(ledger: Path, other: Path): State {
    State(map[1 := REUSED.(status := Confirmed)], map[ledger := [ORPHAN], other := [DIVERTED]], ledger, None, map[],
          None,
          map[1 := other])
  }

  ghost function Reconciling(ledger: Path, other: Path): State {
    UrlRestored(ledger, other).(proc := Some(ledger), recon := Some(Recon(RowsFetched, 0, other, ledger, {1}, {}, [])))
  }

  ghost function PayingCheap(ledger: Path, other: Path): State {
    Fresh(ledger, other).(txns := map[0 := Txn(PaymentRow, CHEAP, 5, 1, Order(7, Pending, 100, "USD", 5), ORPHAN)])
  }

  lemma PayCheap(ledger: Path, other: Path)
    requires ledger != other
    ensures Run(Fresh(ledger, other), [Begin(0, CHEAP, 5), InsertOrder(0), InsertPayment(0, "a")],
                PayingCheap(ledger, other))
  {
    var s, es := Fresh(ledger, other), [Begin(0, CHEAP, 5), InsertOrder(0), InsertPayment(0, "a")];
    NextIdExistsAndIsUnique(s.orders);
    assert IsNextId(s.orders, 1);
    var s2 := Apply(Apply(s, es[0]), es[1]);
    assert s2.txns[0].orderId == 1;
    assert Apply(s2, es[2]) == PayingCheap(ledger, other);
    assert Run(s2, es[2..], PayingCheap(ledger, other));
    assert es[1..][1..] == es[2..] && Run(Apply(s, es[0]), es[1..], PayingCheap(ledger, other));
  }

  /** A crash between the two commits leaves the orphan. */
  lemma LeaveOrphan(ledger: Path, other: Path) returns (es: seq<Event>)
    requires ledger != other
    ensures Run(Fresh(ledger, other), es, Crashed(ledger, other))
  {
    var first, last := [Begin(0, CHEAP, 5), InsertOrder(0), InsertPayment(0, "a")], [CommitLedger(0), Crash];
    var s := PayingCheap(ledger, other);
    PayCheap(ledger, other);
    var s1 := Apply(s, last[0]);
    assert s1.files[ledger] == [ORPHAN];
    assert s1.files == Crashed(ledger, other).files;
    assert last[1..] == [Crash] && Run(s1, last[1..], Crashed(ledger, other));
    RunConcat(Fresh(ledger, other), first, s, last, Crashed(ledger, other));
    es := first + last;
  }

  lemma DivertReusedId(ledger: Path, other: Path) returns (es: seq<Event>)
    requires ledger != other
    ensures Run(Crashed(ledger, other), es, Paying(ledger, other))
  {
    es := [EditEnv(other), Boot, Begin(0, DEAR, 9), InsertOrder(0), InsertPayment(0, "b")];
    var s := Crashed(ledger, other);
    NextIdExistsAndIsUnique(s.orders);
    assert IsNextId(s.orders, 1);
    var s4 := Apply(Apply(Apply(Apply(s, es[0]), es[1]), es[2]), es[3]);
    assert s4.txns[0].orderId == 1;
    Unroll5(s, es, Paying(ledger, other));
  }

  ghost function DearConfirmed(ledger: Path, other: Path): State {
    UrlRestored(ledger, other).(env := other, proc := Some(other))
  }

  lemma ConfirmReusedId(ledger: Path, other: Path)
    requires ledger != other
    ensures Run(Paying(ledger, other), [CommitLedger(0), Confirm(0), CommitCore(0)], DearConfirmed(ledger, other))
  {
    var s, es := Paying(ledger, other), [CommitLedger(0), Confirm(0), CommitCore(0)];
    var s1 := Apply(s, es[0]);
    assert s1.files[other] == [DIVERTED];
    assert s1.files == UrlRestored(ledger, other).files;
    var s2 := Apply(s1, es[1]);
    assert Apply(s2, es[2]) == DearConfirmed(ledger, other);
    assert Run(s2, es[2..], DearConfirmed(ledger, other));
    assert es[1..][1..] == es[2..] && Run(s1, es[1..], DearConfirmed(ledger, other));
  }

  lemma ConfirmAndRestore(ledger: Path, other: Path) returns (es: seq<Event>)
    requires ledger != other
    ensures Run(Paying(ledger, other), es, UrlRestored(ledger, other))
  {
    var first, last := [CommitLedger(0), Confirm(0), CommitCore(0)], [Crash, EditEnv(ledger)];
    var s := DearConfirmed(ledger, other);
    ConfirmReusedId(ledger, other);
    assert last[1..] == [EditEnv(ledger)] && Run(Apply(s, last[0]), last[1..], UrlRestored(ledger, other));
    RunConcat(Paying(ledger, other), first, s, last, UrlRestored(ledger, other));
    es := first + last;
  }

  lemma ReconcileFindsNothing(ledger: Path, other: Path) returns (es: seq<Event>)
    requires ledger != other
    ensures Run(UrlRestored(ledger, other), es, Reconciling(ledger, other))
  {
    es := [Boot, ReadOrders(0, other, ledger), ReadTarget, ReadSource, EditEnv(ledger)];
    var s := UrlRestored(ledger, other);
    assert s.files[ledger][0].orderId == 1;
    assert PaidSince(s.files[ledger], 1, 0);
    assert OrdersSince(s, 0) == {1};
    assert MissingFrom(s.files[ledger], {1}, 0) == {};
    RowsForNone(s.files[other]);
    Unroll5(s, es, Reconciling(ledger, other));
  }

  lemma OrphanHidden(ledger: Path, other: Path)
    requires ledger != other
    ensures var t := Reconciling(ledger, other);
            && Restored(t, ledger) && NothingToCopy(t, ledger, 0) && t.recon.Some? && t.recon.value.stage == RowsFetched
            && ledger in t.files && LedgerComplete(t.orders, t.files[ledger], 0)
            && 1 in t.orders && InScope(t.orders[1], 0) && !HasPayment(t.files[ledger], 1, t.orders[1])
  {
    assert Reconciling(ledger, other).files[ledger][0].orderId == 1;
  }

  /** The check passing does not mean the amounts are right.  A crash between the two commits leaves an orphan of
      100 cents for order 1; order 1 is then reused for 250 cents paid into the other file; after the repair the
      ledger is complete, nothing is missing, and the 250-cent payment is still not in it. */
  lemma OrphanHidesDivertedPayment(ledger: Path, other: Path) returns (es: seq<Event>, t: State)
    requires ledger != other
    ensures Run(Fresh(ledger, other), es, t)
    ensures Restored(t, ledger) && NothingToCopy(t, ledger, 0) && t.recon.Some? && t.recon.value.stage == RowsFetched
    ensures ledger in t.files && LedgerComplete(t.orders, t.files[ledger], 0)
    ensures 1 in t.orders && InScope(t.orders[1], 0) && !HasPayment(t.files[ledger], 1, t.orders[1])
  {
    var s := Fresh(ledger, other);
    t := Reconciling(ledger, other);
    var es1 := LeaveOrphan(ledger, other);
    var es2 := DivertReusedId(ledger, other);
    var es3 := ConfirmAndRestore(ledger, other);
    var es4 := ReconcileFindsNothing(ledger, other);
    RunConcat(s, es1, Crashed(ledger, other), es2, Paying(ledger, other));
    RunConcat(s, es1 + es2, Paying(ledger, other), es3, UrlRestored(ledger, other));
    RunConcat(s, es1 + es2 + es3, UrlRestored(ledger, other), es4, t);
    es := es1 + es2 + es3 + es4;
    hide Run, Restored, NothingToCopy, LedgerComplete, InScope, HasPayment;
    OrphanHidden(ledger, other);
  }
}
