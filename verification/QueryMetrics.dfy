/** The metrics query: window and step, buckets, and the aggregated table. */
module QueryMetrics {
  import opened Options
  import opened Numbers

  const MAX_ROWS := 60
  const MINUTE := 60_000_000 // in microseconds

  datatype Row = Row(ts: int, name: string, labels: map<string, string>, v: real)

  // ---------------------------------------------------------------- window and step

  /** A missing or zero argument is the default; any other is brought into the range. */
  function Clamp(arg: Option<int>, default: int, hi: int): (n: int)
    requires 1 <= default <= hi
    ensures arg in {None, Some(0)} ==> n == default
    ensures arg.Some? && arg.value != 0 ==> (arg.value <= 1 ==> n == 1) && (arg.value >= hi ==> n == hi)
                                            && (1 <= arg.value <= hi ==> n == arg.value)
  {
    if arg.None? || arg.value == 0 then default
    else if arg.value < 1 then 1 else if arg.value > hi then hi else arg.value
  }

  function Widen(step: int): int {
    if step < 5 then 5 else if step < 15 then 15 else 60
  }

  function WidenTo(window: int, step: int): int
    requires 1 <= window <= 720 && 1 <= step <= 60
    decreases 60 - step
  {
    if window > MAX_ROWS * step then WidenTo(window, Widen(step)) else step
  }

  /** The step is widened until at most sixty buckets remain, never narrowed, and widened no further than needed. */
  method ChooseStep(windowArg: Option<int>, stepArg: Option<int>) returns (window: int, step: int)
    ensures window == Clamp(windowArg, 30, 720)
    ensures step == WidenTo(window, Clamp(stepArg, 1, 60))
    ensures Clamp(stepArg, 1, 60) <= step <= 60 && window <= 60 * step
    ensures step == Clamp(stepArg, 1, 60) || step in {5, 15, 60}
  {
    window := Clamp(windowArg, 30, 720);
    step := Clamp(stepArg, 1, 60);
    while window > MAX_ROWS * step
      invariant Clamp(stepArg, 1, 60) <= step <= 60
      invariant WidenTo(window, step) == WidenTo(window, Clamp(stepArg, 1, 60))
      invariant step == Clamp(stepArg, 1, 60) || step in {5, 15, 60}
      decreases 60 - step
    {
      step := if step < 5 then 5 else if step < 15 then 15 else 60;
    }
  }

  /** Among the given step and the three standard ones at or above it, the chosen step is the least that fits. */
  lemma {:induction false} StepIsLeast(window: int, step: int, other: int)
    requires 1 <= window <= 720 && 1 <= step <= 60
    requires other >= step && (other == step || other in {5, 15, 60}) && window <= 60 * other
    ensures WidenTo(window, step) <= other && window <= 60 * WidenTo(window, step)
    ensures step <= WidenTo(window, step) <= 60 && WidenTo(window, step) in {step, 5, 15, 60}
    decreases 60 - step
  {
  }

  // ---------------------------------------------------------------- buckets

  /** `start`, `end` in microseconds, `window` and `step` in minutes. */
  datatype Query = Query(start: int, window: int, step: int, name: string, filters: map<string, string>,
                         groupBy: Option<string>)

  predicate Valid(q: Query) {
    1 <= q.window <= 720 && 1 <= q.step <= 60
  }

  predicate InWindow(q: Query, r: Row) {
    q.start <= r.ts < q.start + q.window * MINUTE
  }

  /** The bucket's offset from the start, in minutes. */
  function BucketOf(q: Query, ts: int): int
    requires Valid(q)
  {
    (ts - q.start) / MINUTE / q.step * q.step
  }

  /** The buckets the display loop visits. */
  function Buckets(q: Query, from: int): seq<int>
    requires Valid(q) && from >= 0
    decreases q.window - from
  {
    if from >= q.window then [] else [from] + Buckets(q, from + q.step)
  }

  predicate Increasing(s: seq<int>) {
    forall i, j :: 0 <= i < j < |s| ==> s[i] < s[j]
  }

  lemma {:induction false} BucketsFacts(q: Query, from: int)
    requires Valid(q) && from >= 0
    ensures Increasing(Buckets(q, from))
    ensures forall i :: 0 <= i < |Buckets(q, from)| ==> from <= Buckets(q, from)[i] < q.window
    ensures from < q.window ==> (|Buckets(q, from)| - 1) * q.step < q.window - from <= |Buckets(q, from)| * q.step
    decreases q.window - from
  {
    if from < q.window {
      var rest := Buckets(q, from + q.step);
      BucketsFacts(q, from + q.step);
      assert (|rest| + 1) * q.step == |rest| * q.step + q.step;
      if from + q.step >= q.window {
        assert rest == [];
      } else {
        assert |rest| * q.step == (|rest| - 1) * q.step + q.step;
      }
    }
  }

  lemma {:induction false} MultipleVisited(q: Query, from: int, n: nat)
    requires Valid(q) && from >= 0 && from + n * q.step < q.window
    ensures from + n * q.step in Buckets(q, from)
    decreases n
  {
    if n > 0 {
      assert from + n * q.step == from + q.step + (n - 1) * q.step;
      MultipleVisited(q, from + q.step, n - 1);
    } else {
      assert Buckets(q, from)[0] == from;
    }
  }

  /** Every row in the window falls into a bucket the display visits, and into the minute range that bucket stands for;
      at most sixty buckets are visited. */
  lemma {:induction false} RowsHaveOneBucket(q: Query, r: Row)
    requires Valid(q) && q.start <= r.ts < q.start + q.window * 60_000_000
    ensures BucketOf(q, r.ts) in Buckets(q, 0)
    ensures var b := BucketOf(q, r.ts); q.start + b * 60_000_000 <= r.ts < q.start + (b + q.step) * 60_000_000
    ensures q.window <= 60 * q.step ==> |Buckets(q, 0)| <= 60
  {
    var minutes := (r.ts - q.start) / MINUTE;
    var n := minutes / q.step;
    Divided(minutes, q.step);
    MultipleVisited(q, 0, n);
    BucketsFacts(q, 0);
    if |Buckets(q, 0)| > 60 && q.window <= 60 * q.step {
      Scale(60, |Buckets(q, 0)| - 1, q.step);
      assert false;
    }
  }

  lemma Divided(x: int, s: int)
    requires x >= 0 && s > 0
    ensures 0 <= x / s && x / s * s <= x < x / s * s + s
  {
  }

  lemma Scale(a: int, b: int, s: int)
    requires a <= b && s > 0
    ensures a * s <= b * s
  {
  }

  /** No two buckets share a row. */
  lemma {:induction false} BucketsDisjoint(q: Query, i: nat, j: nat, ts: int)
    requires Valid(q) && i < |Buckets(q, 0)| && j < |Buckets(q, 0)|
    requires var b := Buckets(q, 0)[i]; q.start + b * 60_000_000 <= ts < q.start + (b + q.step) * 60_000_000
    requires var b := Buckets(q, 0)[j]; q.start + b * 60_000_000 <= ts < q.start + (b + q.step) * 60_000_000
    ensures i == j
  {
    BucketAt(q, 0, i);
    BucketAt(q, 0, j);
    var m := i - j;
    assert Buckets(q, 0)[i] - Buckets(q, 0)[j] == m * q.step;
    if m > 0 {
      Scale(1, m, q.step);
    } else if m < 0 {
      Scale(m, -1, q.step);
    }
  }

  lemma {:induction false} BucketAt(q: Query, from: int, i: nat)
    requires Valid(q) && from >= 0 && i < |Buckets(q, from)|
    ensures Buckets(q, from)[i] == from + i * q.step
    decreases i
  {
    if i == 0 {
    } else {
      BucketAt(q, from + q.step, i - 1);
      assert i * q.step == (i - 1) * q.step + q.step;
    }
  }

  // ---------------------------------------------------------------- the table

  /** A missing label reads as the text `None`. */
  function LabelText(labels: map<string, string>, k: string): string {
    if k in labels then labels[k] else "None"
  }

  predicate Matches(q: Query, r: Row) {
    r.name == q.name && forall k :: k in q.filters ==> LabelText(r.labels, k) == q.filters[k]
  }

  function GroupOf(q: Query, r: Row): string {
    if q.groupBy.None? then "all" else if q.groupBy.value in r.labels then r.labels[q.groupBy.value] else "-"
  }

  type Cell = (int, string)

  function CellOf(q: Query, r: Row): Cell
    requires Valid(q)
  {
    (BucketOf(q, r.ts), GroupOf(q, r))
  }

  function CellSum(q: Query, rows: seq<Row>, c: Cell): real
    requires Valid(q)
  {
    if rows == [] then 0.0 else
      var r := rows[|rows| - 1];
      CellSum(q, rows[..|rows| - 1], c) + if Matches(q, r) && CellOf(q, r) == c then r.v else 0.0
  }

  function CellCount(q: Query, rows: seq<Row>, c: Cell): nat
    requires Valid(q)
  {
    if rows == [] then 0 else
      var r := rows[|rows| - 1];
      CellCount(q, rows[..|rows| - 1], c) + if Matches(q, r) && CellOf(q, r) == c then 1 else 0
  }

  function Total(q: Query, rows: seq<Row>): real {
    if rows == [] then 0.0 else
      Total(q, rows[..|rows| - 1]) + if Matches(q, rows[|rows| - 1]) then rows[|rows| - 1].v else 0.0
  }

  /** The table has a cell exactly where some matching row falls, and the cell is the sum of those rows. */
  ghost predicate Tabulates(q: Query, rows: seq<Row>, table: map<Cell, real>, counts: map<Cell, nat>)
    requires Valid(q)
  {
    && table.Keys == counts.Keys
    && forall c :: (c in table <==> CellCount(q, rows, c) > 0)
                   && (c in table ==> table[c] == CellSum(q, rows, c) && counts[c] == CellCount(q, rows, c))
  }

  method Aggregate(q: Query, rows: seq<Row>) returns (table: map<Cell, real>, counts: map<Cell, nat>)
    requires Valid(q)
    ensures Tabulates(q, rows, table, counts)
  {
    hide Matches, GroupOf, BucketOf;
    table, counts := map[], map[];
    for k := 0 to |rows|
      invariant Tabulates(q, rows[..k], table, counts)
    {
      var r := rows[k];
      assert rows[..k + 1][..k] == rows[..k];
      NoRowsNoSum(q, rows[..k], CellOf(q, r));
      if !Matches(q, r) {
        continue;
      }
      var c := (BucketOf(q, r.ts), GroupOf(q, r));
      table := table[c := (if c in table then table[c] else 0.0) + r.v];
      counts := counts[c := (if c in counts then counts[c] else 0) + 1];
    }
    assert rows[..|rows|] == rows;
  }

  lemma {:induction false} NoRowsNoSum(q: Query, rows: seq<Row>, c: Cell)
    requires Valid(q)
    ensures CellCount(q, rows, c) == 0 ==> CellSum(q, rows, c) == 0.0
    decreases |rows|
  {
    if rows == [] {
    } else {
      NoRowsNoSum(q, rows[..|rows| - 1], c);
    }
  }

  /** One line of the table: a bucket across the groups. */
  function LineSum(q: Query, rows: seq<Row>, b: int, groups: seq<string>): real
    requires Valid(q)
  {
    if groups == [] then 0.0
    else LineSum(q, rows, b, groups[..|groups| - 1]) + CellSum(q, rows, (b, groups[|groups| - 1]))
  }

  function GridSum(q: Query, rows: seq<Row>, buckets: seq<int>, groups: seq<string>): real
    requires Valid(q)
  {
    if buckets == [] then 0.0
    else GridSum(q, rows, buckets[..|buckets| - 1], groups) + LineSum(q, rows, buckets[|buckets| - 1], groups)
  }

  predicate Distinct<T(==)>(s: seq<T>) {
    forall i, j :: 0 <= i < j < |s| ==> s[i] != s[j]
  }

  lemma {:induction false} LineStep(q: Query, rows: seq<Row>, r: Row, b: int, groups: seq<string>)
    requires Valid(q) && Distinct(groups)
    ensures LineSum(q, rows + [r], b, groups) == LineSum(q, rows, b, groups) +
            if Matches(q, r) && b == BucketOf(q, r.ts) && GroupOf(q, r) in groups then r.v else 0.0
    decreases |groups|
  {
    hide Matches, GroupOf, BucketOf;
    if groups == [] {
    } else {
      var init, g := groups[..|groups| - 1], groups[|groups| - 1];
      LineStep(q, rows, r, b, init);
      assert (rows + [r])[..|rows|] == rows;
      assert groups == init + [g];
      assert forall i :: 0 <= i < |init| ==> init[i] != g;
    }
  }

  lemma {:induction false} GridStep(q: Query, rows: seq<Row>, r: Row, buckets: seq<int>, groups: seq<string>)
    requires Valid(q) && Distinct(groups) && Distinct(buckets)
    ensures GridSum(q, rows + [r], buckets, groups) == GridSum(q, rows, buckets, groups) +
            if Matches(q, r) && BucketOf(q, r.ts) in buckets && GroupOf(q, r) in groups then r.v else 0.0
    decreases |buckets|
  {
    hide Matches, GroupOf, BucketOf, LineSum;
    if buckets == [] {
    } else {
      var init, b := buckets[..|buckets| - 1], buckets[|buckets| - 1];
      GridStep(q, rows, r, init, groups);
      LineStep(q, rows, r, b, groups);
      assert buckets == init + [b];
      assert forall i :: 0 <= i < |init| ==> init[i] != b;
    }
  }

  lemma {:induction false} EmptyGrid(q: Query, buckets: seq<int>, groups: seq<string>)
    requires Valid(q)
    ensures GridSum(q, [], buckets, groups) == 0.0
    decreases |buckets|
  {
    if buckets == [] {
    } else {
      EmptyGrid(q, buckets[..|buckets| - 1], groups);
      EmptyLine(q, buckets[|buckets| - 1], groups);
    }
  }

  lemma {:induction false} EmptyLine(q: Query, b: int, groups: seq<string>)
    requires Valid(q)
    ensures LineSum(q, [], b, groups) == 0.0
    decreases |groups|
  {
    if groups == [] {
    } else {
      EmptyLine(q, b, groups[..|groups| - 1]);
    }
  }

  /** Nothing is lost or counted twice: over the buckets of the display and all groups, the cells of a counter add up to
      the matching rows. */
  lemma {:induction false} CellsAddUp(q: Query, rows: seq<Row>, groups: seq<string>)
    requires Valid(q) && Distinct(groups)
    requires forall i :: 0 <= i < |rows| ==>
               InWindow(q, rows[i]) && (Matches(q, rows[i]) ==> GroupOf(q, rows[i]) in groups)
    ensures GridSum(q, rows, Buckets(q, 0), groups) == Total(q, rows)
    decreases |rows|
  {
    hide Matches, GroupOf, BucketOf, Buckets, LineSum, GridSum;
    BucketsFacts(q, 0);
    if rows == [] {
      EmptyGrid(q, Buckets(q, 0), groups);
    } else {
      var init, r := rows[..|rows| - 1], rows[|rows| - 1];
      CellsAddUp(q, init, groups);
      GridStep(q, init, r, Buckets(q, 0), groups);
      assert init + [r] == rows;
      RowsHaveOneBucket(q, r);
    }
  }

  // ---------------------------------------------------------------- derived tables

  predicate ServerError(r: Row) {
    var s := if "status" in r.labels then r.labels["status"] else "";
    s != "" && s[0] == '5'
  }

  function ErrorSum(q: Query, rows: seq<Row>, c: Cell): real
    requires Valid(q)
  {
    if rows == [] then 0.0 else
      var r := rows[|rows| - 1];
      ErrorSum(q, rows[..|rows| - 1], c) + if Matches(q, r) && CellOf(q, r) == c && ServerError(r) then r.v else 0.0
  }

  /** Percentage of 5xx responses in a cell; an all-zero cell counts as no errors. */
  function ErrorRate(q: Query, rows: seq<Row>, c: Cell): real
    requires Valid(q)
  {
    if CellSum(q, rows, c) == 0.0 then 0.0 else 100.0 * ErrorSum(q, rows, c) / CellSum(q, rows, c)
  }

  /** What the k-th row adds to the sums of one cell. */
  lemma {:induction false} OneMoreRow(q: Query, rows: seq<Row>, k: nat, c: Cell)
    requires Valid(q) && k < |rows|
    ensures var hit := Matches(q, rows[k]) && CellOf(q, rows[k]) == c;
            && CellSum(q, rows[..k + 1], c) == CellSum(q, rows[..k], c) + (if hit then rows[k].v else 0.0)
            && CellCount(q, rows[..k + 1], c) == CellCount(q, rows[..k], c) + (if hit then 1 else 0)
            && ErrorSum(q, rows[..k + 1], c)
                == ErrorSum(q, rows[..k], c) + (if hit && ServerError(rows[k]) then rows[k].v else 0.0)
  {
    assert rows[..k + 1][..k] == rows[..k];
  }

  method ErrorSums(q: Query, rows: seq<Row>) returns (num: map<Cell, real>, den: map<Cell, real>)
    requires Valid(q)
    ensures forall c :: (c in den <==> CellCount(q, rows, c) > 0) && (c in den ==> den[c] == CellSum(q, rows, c))
    ensures forall c :: ErrorSum(q, rows, c) == if c in num then num[c] else 0.0
  {
    hide Matches, GroupOf, BucketOf, ServerError;
    num, den := map[], map[];
    for k := 0 to |rows|
      invariant forall c :: (c in den <==> CellCount(q, rows[..k], c) > 0)
                            && (c in den ==> den[c] == CellSum(q, rows[..k], c))
      invariant forall c :: ErrorSum(q, rows[..k], c) == if c in num then num[c] else 0.0
    {
      var r := rows[k];
      NoRowsNoSum(q, rows[..k], CellOf(q, r));
      forall c {
        OneMoreRow(q, rows, k, c);
      }
      hide CellSum, CellCount, ErrorSum;
      if !Matches(q, r) {
        continue;
      }
      var c := (BucketOf(q, r.ts), GroupOf(q, r));
      den := den[c := (if c in den then den[c] else 0.0) + r.v];
      if ServerError(r) {
        num := num[c := (if c in num then num[c] else 0.0) + r.v];
      }
    }
    assert rows[..|rows|] == rows;
  }

  method ErrorRates(q: Query, rows: seq<Row>) returns (table: map<Cell, real>)
    requires Valid(q)
    ensures forall c :: (c in table <==> CellCount(q, rows, c) > 0)
              && (c in table ==> table[c] == ErrorRate(q, rows, c))
  {
    hide CellSum, CellCount, ErrorSum;
    var num, den := ErrorSums(q, rows);
    table := map c | c in den :: if den[c] == 0.0 then 0.0 else 100.0 * (if c in num then num[c] else 0.0) / den[c];
  }

  lemma {:induction false} ErrorsArePart(q: Query, rows: seq<Row>, c: Cell)
    requires Valid(q) && forall i :: 0 <= i < |rows| ==> rows[i].v >= 0.0
    ensures 0.0 <= ErrorSum(q, rows, c) <= CellSum(q, rows, c)
    decreases |rows|
  {
    hide Matches, GroupOf, BucketOf, ServerError;
    if rows == [] {
    } else {
      ErrorsArePart(q, rows[..|rows| - 1], c);
    }
  }

  lemma Ratio(a: real, b: real)
    requires 0.0 <= a <= b && b > 0.0
    ensures 0.0 <= 100.0 * a / b <= 100.0
    ensures 100.0 * a / b == 100.0 <==> a == b
    ensures 100.0 * a / b == 0.0 <==> a == 0.0
    ensures 100.0 * a / b * b == 100.0 * a
  {
  }

  /** For samples that are not negative, an error rate is a percentage; it is 0 or 100 exactly when none or all of the
      cell's volume is errors. */
  lemma {:induction false} ErrorRateIsPercentage(q: Query, rows: seq<Row>, c: Cell)
    requires Valid(q) && forall i :: 0 <= i < |rows| ==> rows[i].v >= 0.0
    ensures 0.0 <= ErrorRate(q, rows, c) <= 100.0
    ensures ErrorRate(q, rows, c) == 0.0 <==> ErrorSum(q, rows, c) == 0.0
    ensures ErrorRate(q, rows, c) * CellSum(q, rows, c) == 100.0 * ErrorSum(q, rows, c)
    ensures CellSum(q, rows, c) > 0.0 ==>
              (ErrorRate(q, rows, c) == 100.0 <==> ErrorSum(q, rows, c) == CellSum(q, rows, c))
  {
    ErrorsArePart(q, rows, c);
    hide CellSum, ErrorSum;
    if CellSum(q, rows, c) > 0.0 {
      Ratio(ErrorSum(q, rows, c), CellSum(q, rows, c));
    }
  }

  /** A gauge cell, the mean of its samples, lies between any bounds of the samples. */
  lemma {:induction false} GaugeWithinBounds(q: Query, rows: seq<Row>, c: Cell, lo: real, hi: real)
    requires Valid(q)
    requires forall i :: 0 <= i < |rows| && Matches(q, rows[i]) && CellOf(q, rows[i]) == c ==> lo <= rows[i].v <= hi
    ensures lo * CellCount(q, rows, c) as real <= CellSum(q, rows, c) <= hi * CellCount(q, rows, c) as real
  {
    hide CellCount, CellSum;
    GaugeBetween(q, rows, c, lo, hi);
  }

  function Times(x: real, n: nat): real {
    x * n as real
  }

  lemma OneMoreTime(x: real, n: nat)
    ensures Times(x, 0) == 0.0 && Times(x, n + 1) == Times(x, n) + x
  {
  }

  lemma {:induction false} GaugeBetween(q: Query, rows: seq<Row>, c: Cell, lo: real, hi: real)
    requires Valid(q)
    requires forall i :: 0 <= i < |rows| && Matches(q, rows[i]) && CellOf(q, rows[i]) == c ==> lo <= rows[i].v <= hi
    ensures Times(lo, CellCount(q, rows, c)) <= CellSum(q, rows, c) <= Times(hi, CellCount(q, rows, c))
    decreases |rows|
  {
    hide Matches, GroupOf, BucketOf, Times;
    OneMoreTime(lo, 0);
    OneMoreTime(hi, 0);
    if rows == [] {
    } else {
      var init := rows[..|rows| - 1];
      assert forall i :: 0 <= i < |init| ==> init[i] == rows[i];
      GaugeBetween(q, init, c, lo, hi);
      OneMoreTime(lo, CellCount(q, init, c));
      OneMoreTime(hi, CellCount(q, init, c));
    }
  }

  // ---------------------------------------------------------------- filters, groups and statuses

  /** One more filter keeps the rows that have the text under the label; a row without the label has the text `None`. */
  lemma FilterKeeps(q: Query, r: Row, k: string, text: string)
    requires k !in q.filters
    ensures q.filters == map[] ==> (Matches(q, r) <==> r.name == q.name)
    ensures Matches(q.(filters := q.filters[k := text]), r) <==>
              Matches(q, r) && if k in r.labels then r.labels[k] == text else text == "None"
  {
    var more := q.filters[k := text];
    assert forall l :: l in more <==> l in q.filters || l == k;
  }

  /** The rows say of the label only what a filter can tell apart. */
  predicate Telling(rows: seq<Row>, k: string) {
    forall i :: 0 <= i < |rows| && k in rows[i].labels ==> rows[i].labels[k] !in {"-", "None"}
  }

  /** The query for one column alone; the column `-` is that of the rows without the label. */
  function Alone(q: Query, k: string, group: string): Query {
    q.(filters := q.filters[k := if group == "-" then "None" else group], groupBy := None)
  }

  /** A column of a table split by a label is the whole table of the query filtered to that label: sums, samples and
      errors. */
  lemma {:induction false} ColumnIsFiltered(q: Query, rows: seq<Row>, k: string, b: int, group: string)
    requires Valid(q) && q.groupBy == Some(k) && k !in q.filters && Telling(rows, k) && group != "None"
    ensures CellSum(q, rows, (b, group)) == CellSum(Alone(q, k, group), rows, (b, "all"))
    ensures CellCount(q, rows, (b, group)) == CellCount(Alone(q, k, group), rows, (b, "all"))
    ensures ErrorSum(q, rows, (b, group)) == ErrorSum(Alone(q, k, group), rows, (b, "all"))
    decreases |rows|
  {
    if rows == [] {
    } else {
      hide ServerError;
      ColumnIsFiltered(q, rows[..|rows| - 1], k, b, group);
      var r, only := rows[|rows| - 1], if group == "-" then "None" else group;
      FilterKeeps(q, r, k, only);
      SameMatches(q.(filters := q.filters[k := only]), Alone(q, k, group), r);
      hide Matches;
    }
  }

  lemma SameMatches(q: Query, q': Query, r: Row)
    requires q'.name == q.name && q'.filters == q.filters
    ensures Matches(q', r) == Matches(q, r)
  {
  }

  function ErrorRows(rows: seq<Row>): seq<Row> {
    if rows == [] then [] else
      ErrorRows(rows[..|rows| - 1]) + if ServerError(rows[|rows| - 1]) then [rows[|rows| - 1]] else []
  }

  /** The errors are the sum of the rows that are errors. */
  lemma {:induction false} ErrorsAreErrorRows(q: Query, rows: seq<Row>, c: Cell)
    requires Valid(q)
    ensures ErrorSum(q, rows, c) == CellSum(q, ErrorRows(rows), c)
    decreases |rows|
  {
    hide Matches, GroupOf, BucketOf, ServerError;
    if rows == [] {
    } else {
      ErrorsAreErrorRows(q, rows[..|rows| - 1], c);
      var before := ErrorRows(rows[..|rows| - 1]);
      assert (before + [rows[|rows| - 1]])[..|before|] == before;
      assert before + [] == before;
    }
  }

  /** Server errors are the three-digit statuses from 500 to 599. */
  lemma {:induction false} ServerErrorIff(r: Row, status: nat)
    requires 100 <= status < 1000 && "status" in r.labels && r.labels["status"] == Print(status)
    ensures ServerError(r) <==> 500 <= status < 600
    ensures !ServerError(r.(labels := map[]))
  {
    assert Print(status) == Print(status / 10) + [DigitOf(status % 10)];
    assert Print(status / 10) == Print(status / 10 / 10) + [DigitOf(status / 10 % 10)];
    assert Print(status)[0] == DigitOf(status / 10 / 10);
  }
}
