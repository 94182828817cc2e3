/** `reconcile_ledger.py` as the procedure it is, and what its exit code tells the caller. */
module ReconcileScript {
  import opened CheckoutProtocol

  type OrderRow = (nat, Order)

  datatype SourceArg = NoSource | Unopenable | Opened(rows: seq<Payment>)

  class LedgerFile {
    var rows: seq<Payment>

    constructor (rows: seq<Payment>)
      ensures this.rows == rows
    {
      this.rows := rows;
    }
  }

  ghost predicate DistinctIds(ids: seq<nat>) {
    forall i, j :: 0 <= i < j < |ids| ==> ids[i] != ids[j]
  }

  ghost predicate KeyedById(orders: seq<OrderRow>) {
    forall i, j :: 0 <= i < j < |orders| ==> orders[i].0 != orders[j].0
  }

  /** Ids of the confirmed orders since `since` that have no row of their own in `have`, in table order. */
  function MissingIds(orders: seq<OrderRow>, have: set<nat>, since: int): (ids: seq<nat>)
    ensures forall id :: id in ids <==> exists k :: 0 <= k < |orders| && orders[k].0 == id
                                                    && orders[k].1.status == Confirmed
                                                    && orders[k].1.createdAt >= since && id !in have
  {
    if orders == [] then []
    else
      var rest := MissingIds(orders[1..], have, since);
      assert forall k :: 0 < k < |orders| ==> orders[k] == orders[1..][k - 1];
      if InScope(orders[0].1, since) && orders[0].0 !in have then [orders[0].0] + rest else rest
  }

  function HaveIds(file: seq<Payment>, since: int): (ids: set<nat>)
    ensures forall id :: id in ids <==> PaidSince(file, id, since)
    ensures forall id :: id in ids <==>
              exists i :: 0 <= i < |file| && file[i].orderId == id && file[i].createdAt >= since
  {
    var ids := set i | 0 <= i < |file| && file[i].createdAt >= since :: file[i].orderId;
    ids
  }

  function Missing(orders: seq<OrderRow>, file: seq<Payment>, since: int): seq<nat> {
    MissingIds(orders, HaveIds(file, since), since)
  }

  function SetOf(ids: seq<nat>): set<nat> {
    set id | id in ids
  }

  /** The rows the script fetches from the source for the missing ids. */
  function Fetched(orders: seq<OrderRow>, file: seq<Payment>, source: seq<Payment>, since: int): seq<Payment> {
    RowsFor(source, SetOf(Missing(orders, file, since)))
  }

  lemma {:induction false} MissingIdsSnoc(orders: seq<OrderRow>, o: OrderRow, have: set<nat>, since: int)
    ensures MissingIds(orders + [o], have, since) ==
            MissingIds(orders, have, since) + if InScope(o.1, since) && o.0 !in have then [o.0] else []
    decreases |orders|
  {
    hide InScope;
    if orders == [] {
      assert orders + [o] == [o] && [o][1..] == [];
    } else {
      MissingIdsSnoc(orders[1..], o, have, since);
      assert (orders + [o])[1..] == orders[1..] + [o];
    }
  }

  function Own(p: Payment, ids: set<nat>): seq<Payment> {
    if p.orderId in ids then [p] else []
  }

  lemma {:induction false} RowsForCons(file: seq<Payment>, ids: set<nat>)
    requires file != []
    ensures RowsFor(file, ids) == Own(file[0], ids) + RowsFor(file[1..], ids)
  {
  }

  lemma {:induction false} RowsForSnoc(file: seq<Payment>, p: Payment, ids: set<nat>)
    ensures RowsFor(file + [p], ids) == RowsFor(file, ids) + Own(p, ids)
    decreases |file|
  {
    var all := file + [p];
    RowsForCons(all, ids);
    if file == [] {
      assert all[0] == p && all[1..] == [];
      assert Own(p, ids) + [] == Own(p, ids) && [] + Own(p, ids) == Own(p, ids);
    } else {
      hide RowsFor, Own;
      RowsForCons(file, ids);
      RowsForSnoc(file[1..], p, ids);
      assert all[0] == file[0] && all[1..] == file[1..] + [p];
      Associate(Own(file[0], ids), RowsFor(file[1..], ids), Own(p, ids));
    }
  }

  lemma {:induction false} Associate(a: seq<Payment>, b: seq<Payment>, c: seq<Payment>)
    ensures a + (b + c) == (a + b) + c
  {
  }

  /** The missing ids stand in the order of the table. */
  lemma {:induction false} MissingInTableOrder(orders: seq<OrderRow>, have: set<nat>, since: int) returns (at: seq<nat>)
    ensures var ids := MissingIds(orders, have, since);
            && |at| == |ids| && (forall i, j :: 0 <= i < j < |at| ==> at[i] < at[j])
            && (forall i :: 0 <= i < |at| ==> at[i] < |orders| && orders[at[i]].0 == ids[i])
    decreases |orders|
  {
    hide InScope, MissingIds;
    at := [];
    if orders == [] {
      NothingMissing(have, since);
    } else {
      var init, o := orders[..|orders| - 1], orders[|orders| - 1];
      at := MissingInTableOrder(init, have, since);
      MissingIdsSnoc(init, o, have, since);
      assert init + [o] == orders;
      if InScope(o.1, since) && o.0 !in have {
        at := at + [|init|];
      }
    }
  }

  lemma {:induction false} NothingMissing(have: set<nat>, since: int)
    ensures MissingIds([], have, since) == []
  {
  }

  /** `rows` are the rows of `file` at these places, in order, and no row for the ids stands elsewhere. */
  predicate Picks(at: seq<nat>, file: seq<Payment>, ids: set<nat>, rows: seq<Payment>) {
    && |at| == |rows| && (forall i, j :: 0 <= i < j < |at| ==> at[i] < at[j])
    && (forall i :: 0 <= i < |at| ==> at[i] < |file| && file[at[i]] == rows[i])
    && (forall k :: 0 <= k < |file| && file[k].orderId in ids ==> k in at)
  }

  lemma PicksOneMore(at: seq<nat>, file: seq<Payment>, ids: set<nat>, rows: seq<Payment>)
    requires file != [] && Picks(at, file[..|file| - 1], ids, rows)
    ensures var p := file[|file| - 1];
            if p.orderId in ids then Picks(at + [|file| - 1], file, ids, rows + [p]) else Picks(at, file, ids, rows)
  {
    var last, init := |file| - 1, file[..|file| - 1];
    var more := at + [last];
    forall k | 0 <= k < |file| && file[k].orderId in ids ensures k in more && (file[last].orderId !in ids ==> k in at) {
      if k == last {
        assert more[|at|] == last;
      } else {
        assert init[k] == file[k];
      }
    }
  }

  lemma LastRow(file: seq<Payment>, ids: set<nat>)
    requires file != []
    ensures var init, p := file[..|file| - 1], file[|file| - 1];
            RowsFor(file, ids) == if p.orderId in ids then RowsFor(init, ids) + [p] else RowsFor(init, ids)
  {
    hide RowsFor;
    var init, p := file[..|file| - 1], file[|file| - 1];
    RowsForSnoc(init, p, ids);
    assert init + [p] == file && RowsFor(init, ids) + [] == RowsFor(init, ids);
  }

  /** The rows fetched are those of the ids, all of them, in the order of the source. */
  lemma {:induction false} FetchedInOrder(file: seq<Payment>, ids: set<nat>) returns (at: seq<nat>)
    ensures Picks(at, file, ids, RowsFor(file, ids))
    decreases |file|
  {
    at := [];
    if file == [] {
    } else {
      hide RowsFor, Picks;
      var init := file[..|file| - 1];
      at := FetchedInOrder(init, ids);
      LastRow(file, ids);
      PicksOneMore(at, file, ids, RowsFor(init, ids));
      if file[|file| - 1].orderId in ids {
        at := at + [|file| - 1];
      }
    }
  }

  method ReadHave(file: seq<Payment>, since: int) returns (have: set<nat>)
    ensures have == HaveIds(file, since)
  {
    have := {};
    for i := 0 to |file|
      invariant forall id :: id in have <==>
                  exists k :: 0 <= k < i && file[k].orderId == id && file[k].createdAt >= since
    {
      if file[i].createdAt >= since {
        have := have + {file[i].orderId};
      }
    }
    assert forall id :: id in have <==> PaidSince(file, id, since);
  }

  method FindMissing(orders: seq<OrderRow>, have: set<nat>, since: int) returns (missing: seq<nat>)
    ensures missing == MissingIds(orders, have, since)
  {
    missing := [];
    for i := 0 to |orders|
      invariant missing == MissingIds(orders[..i], have, since)
    {
      MissingIdsSnoc(orders[..i], orders[i], have, since);
      assert orders[..i + 1] == orders[..i] + [orders[i]];
      if InScope(orders[i].1, since) && orders[i].0 !in have {
        missing := missing + [orders[i].0];
      }
    }
    assert orders[..|orders|] == orders;
  }

  method FetchRows(file: seq<Payment>, missing: seq<nat>) returns (rows: seq<Payment>)
    ensures rows == RowsFor(file, SetOf(missing))
  {
    rows := [];
    for i := 0 to |file|
      invariant rows == RowsFor(file[..i], SetOf(missing))
    {
      RowsForSnoc(file[..i], file[i], SetOf(missing));
      assert file[..i + 1] == file[..i] + [file[i]];
      if file[i].orderId in missing {
        rows := rows + [file[i]];
      }
    }
    assert file[..|file|] == file;
  }

  method InsertAll(target: LedgerFile, rows: seq<Payment>)
    modifies target
    ensures target.rows == old(target.rows) + rows
  {
    for i := 0 to |rows|
      invariant target.rows == old(target.rows) + rows[..i]
    {
      target.rows := target.rows + [rows[i]];
    }
  }

  /** The script.  1 is an open error; otherwise 0 exactly when as many rows were copied as ids were missing, and the
      target gains exactly the source's rows for the missing ids, only with `--apply`. */
  method Reconcile(opens: bool, orders: seq<OrderRow>, target: LedgerFile, source: SourceArg, since: int, apply: bool)
    returns (code: int)
    modifies target
    ensures !opens || source.Unopenable? ==> code == 1 && target.rows == old(target.rows)
    ensures opens && (source.NoSource? || (source.Opened? && !apply)) ==>
              target.rows == old(target.rows) && code == if Missing(orders, old(target.rows), since) == [] then 0 else 2
    ensures opens && source.Opened? && apply ==>
              var missing, copied := Missing(orders, old(target.rows), since),
                                     Fetched(orders, old(target.rows), source.rows, since);
              && target.rows == old(target.rows) + copied
              && code == if |copied| == |missing| then 0 else 2
  {
    if !opens {
      return 1;
    }
    var have := ReadHave(target.rows, since);
    var missing := FindMissing(orders, have, since);
    if source.NoSource? {
      return if missing == [] then 0 else 2;
    }
    if source.Unopenable? {
      return 1;
    }
    var rows := FetchRows(source.rows, missing);
    if !apply || rows == [] {
      return if missing == [] then 0 else 2;
    }
    InsertAll(target, rows);
    var still := |missing| - |rows|;
    return if still != 0 then 2 else 0;
  }

  /** The procedure computes what the protocol's steps compute on the same tables. */
  lemma {:induction false} ScriptAgreesWithProtocol(s: State, orders: seq<OrderRow>, file: seq<Payment>,
                                                    source: seq<Payment>, since: int)
    requires forall id :: id in s.orders ==> exists k :: 0 <= k < |orders| && orders[k].0 == id
    requires forall k :: 0 <= k < |orders| ==> orders[k].0 in s.orders && orders[k].1 == s.orders[orders[k].0]
    ensures SetOf(Missing(orders, file, since)) == MissingFrom(file, OrdersSince(s, since), since)
    ensures Fetched(orders, file, source, since) == RowsFor(source, MissingFrom(file, OrdersSince(s, since), since))
  {
  }

  // ---------------------------------------------------------------- the exit code

  function CountRows(file: seq<Payment>, id: nat): nat {
    if file == [] then 0 else (if file[0].orderId == id then 1 else 0) + CountRows(file[1..], id)
  }

  /** How many of `ids` have a row at all, and how many rows are repeats of an id already served. */
  function Covered(file: seq<Payment>, ids: seq<nat>): nat {
    if ids == [] then 0 else (if CountRows(file, ids[0]) > 0 then 1 else 0) + Covered(file, ids[1..])
  }

  function Repeats(file: seq<Payment>, ids: seq<nat>): nat {
    if ids == [] then 0
    else (if CountRows(file, ids[0]) > 0 then CountRows(file, ids[0]) - 1 else 0) + Repeats(file, ids[1..])
  }

  lemma {:induction false} RowTotals(file: seq<Payment>, p: Payment, ids: seq<nat>)
    requires DistinctIds(ids)
    ensures Covered([p] + file, ids) + Repeats([p] + file, ids) ==
            Covered(file, ids) + Repeats(file, ids) + if p.orderId in ids then 1 else 0
    decreases |ids|
  {
    if ids == [] {
    } else {
      assert ([p] + file)[1..] == file;
      RowTotals(file, p, ids[1..]);
    }
  }

  lemma {:induction false} NoRowsNoTotals(ids: seq<nat>)
    ensures Covered([], ids) == 0 && Repeats([], ids) == 0
    decreases |ids|
  {
    if ids == [] {
    } else {
      NoRowsNoTotals(ids[1..]);
    }
  }

  lemma {:induction false} FetchedTotal(file: seq<Payment>, ids: seq<nat>)
    requires DistinctIds(ids)
    ensures |RowsFor(file, SetOf(ids))| == Covered(file, ids) + Repeats(file, ids)
    decreases |file|
  {
    if file == [] {
      NoRowsNoTotals(ids);
    } else {
      FetchedTotal(file[1..], ids);
      RowTotals(file[1..], file[0], ids);
      assert [file[0]] + file[1..] == file;
    }
  }

  lemma {:induction false} CoveredAll(file: seq<Payment>, ids: seq<nat>)
    ensures Covered(file, ids) <= |ids|
    ensures Covered(file, ids) == |ids| <==> forall id :: id in ids ==> CountRows(file, id) > 0
    decreases |ids|
  {
    if ids == [] {
    } else {
      CoveredAll(file, ids[1..]);
      assert forall id :: id in ids <==> id == ids[0] || id in ids[1..];
      assert ids[0] in ids;
    }
  }

  lemma {:induction false} RepeatsNone(file: seq<Payment>, ids: seq<nat>)
    requires forall id :: id in ids ==> CountRows(file, id) <= 1
    ensures Repeats(file, ids) == 0
    decreases |ids|
  {
    if ids == [] {
    } else {
      assert ids[0] in ids;
      RepeatsNone(file, ids[1..]);
    }
  }

  lemma {:induction false} CountedRowExists(file: seq<Payment>, id: nat)
    ensures CountRows(file, id) > 0 <==> exists i :: 0 <= i < |file| && file[i].orderId == id
    decreases |file|
  {
    if file == [] {
    } else {
      CountedRowExists(file[1..], id);
      assert forall i :: 0 < i < |file| ==> file[i] == file[1..][i - 1];
      if i :| 0 <= i < |file[1..]| && file[1..][i].orderId == id {
        assert file[i + 1].orderId == id;
      }
    }
  }

  lemma {:induction false} MissingDistinct(orders: seq<OrderRow>, have: set<nat>, since: int)
    requires KeyedById(orders)
    ensures DistinctIds(MissingIds(orders, have, since))
  {
    if orders == [] {
    } else {
      assert forall k :: 0 < k < |orders| ==> orders[k] == orders[1..][k - 1];
      MissingDistinct(orders[1..], have, since);
      assert forall id :: id in MissingIds(orders[1..], have, since) ==> id != orders[0].0;
    }
  }

  /** Every missing order has a row in the source, so the copy leaves none behind. */
  ghost predicate AllServed(missing: seq<nat>, source: seq<Payment>) {
    forall id :: id in missing ==> exists i :: 0 <= i < |source| && source[i].orderId == id
  }

  /** Exit code 0 after `--apply` is right in exactly these cases: the source repeats no missing order, or it repeats
      some, does not serve them all, and the repeats do not happen to equal the number left unserved. */
  lemma {:induction false} ExitCodeExact(orders: seq<OrderRow>, file: seq<Payment>, source: seq<Payment>, since: int)
    requires KeyedById(orders)
    ensures var missing := Missing(orders, file, since);
            var zero := |Fetched(orders, file, source, since)| == |missing|;
            var unserved := |missing| - Covered(source, missing);
            (zero <==> AllServed(missing, source)) <==>
            (Repeats(source, missing) == 0 || (unserved > 0 && Repeats(source, missing) != unserved))
  {
    var missing := Missing(orders, file, since);
    MissingDistinct(orders, HaveIds(file, since), since);
    FetchedTotal(source, missing);
    CoveredAll(source, missing);
    forall id ensures CountRows(source, id) > 0 <==> exists i :: 0 <= i < |source| && source[i].orderId == id {
      CountedRowExists(source, id);
    }
  }

  /** With at most one source payment per missing order the exit code is honest: 0 exactly when none is left. */
  lemma {:induction false} ExitCodeHonest(orders: seq<OrderRow>, file: seq<Payment>, source: seq<Payment>, since: int)
    requires KeyedById(orders)
    requires forall id :: id in Missing(orders, file, since) ==> CountRows(source, id) <= 1
    ensures |Fetched(orders, file, source, since)| == |Missing(orders, file, since)| <==>
            AllServed(Missing(orders, file, since), source)
  {
    ExitCodeExact(orders, file, source, since);
    RepeatsNone(source, Missing(orders, file, since));
  }

  /** Two payments for one missing order hide another that has none: the script reports "ledger is complete". */
  lemma ExitCodeFooledByRepeats(p: Payment, o: Order)
    requires p.orderId == 1 && InScope(o, 0)
    ensures var orders := [(1, o), (2, o)];
            |Fetched(orders, [], [p, p], 0)| == |Missing(orders, [], 0)| && !AllServed(Missing(orders, [], 0), [p, p])
  {
    var orders: seq<OrderRow> := [(1, o), (2, o)];
    var have := HaveIds([], 0);
    assert have == {};
    assert orders[1..] == [(2, o)];
    assert MissingIds(orders[1..], have, 0) == [2] + MissingIds(orders[1..][1..], have, 0);
    assert MissingIds(orders, have, 0) == [1, 2];
    var file := [p, p];
    assert file[1..] == [p];
    assert RowsFor(file[1..], SetOf([1, 2])) == [p] + RowsFor(file[1..][1..], SetOf([1, 2]));
    assert RowsFor(file, SetOf([1, 2])) == file;
    assert 2 in Missing(orders, [], 0);
  }
}
