/** The paged log reader: which lines match, which page a cursor gets, and what walks over a growing log return. */
module ReadLogs {
  import opened Options
  import CursorCodec

  /** Time stamps and the grep pattern are library code: both are functions of the line. */
  datatype Filter = Filter(grep: Option<string -> bool>, since: Option<int>, until: Option<int>)

  type Stamps = string -> Option<int>

  // ---------------------------------------------------------------- matching lines

  /** The stamp in force after `lines`: the last line that carries one. */
  function InForce(stamp: Stamps, lines: seq<string>): Option<int> {
    if lines == [] then None
    else if stamp(lines[|lines| - 1]).Some? then stamp(lines[|lines| - 1])
    else InForce(stamp, lines[..|lines| - 1])
  }

  predicate Keeps(f: Filter, t: Option<int>, line: string) {
    && (f.since.Some? ==> t.Some? && f.since.value <= t.value)
    && (f.until.Some? && t.Some? ==> t.value <= f.until.value)
    && (f.grep.Some? ==> f.grep.value(line))
  }

  /** The line is kept under its own stamp or, without one, under the stamp it inherits from the lines above. */
  predicate Matching(stamp: Stamps, f: Filter, lines: seq<string>, i: nat)
    requires i < |lines|
  {
    Keeps(f, InForce(stamp, lines[..i + 1]), lines[i])
  }

  function Matches(stamp: Stamps, f: Filter, lines: seq<string>): seq<nat> {
    if lines == [] then [] else
      var last := |lines| - 1;
      Matches(stamp, f, lines[..last]) + if Matching(stamp, f, lines, last) then [last] else []
  }

  method MatchLines(stamp: Stamps, f: Filter, lines: seq<string>) returns (matches: seq<nat>)
    ensures matches == Matches(stamp, f, lines)
  {
    matches := [];
    var current: Option<int> := None;
    for i := 0 to |lines|
      invariant current == InForce(stamp, lines[..i])
      invariant matches == Matches(stamp, f, lines[..i])
    {
      assert lines[..i + 1][..i] == lines[..i] && lines[..i + 1][..i + 1] == lines[..i + 1];
      var t := stamp(lines[i]);
      if t.Some? {
        current := t;
      }
      if f.since.Some? && (current.None? || current.value < f.since.value) {
        continue;
      }
      if f.until.Some? && current.Some? && current.value > f.until.value {
        continue;
      }
      if f.grep.Some? && !f.grep.value(lines[i]) {
        continue;
      }
      matches := matches + [i];
    }
    assert lines[..|lines|] == lines;
  }

  // ---------------------------------------------------------------- selecting a page

  datatype Direction = Fwd | Back

  /** `index` comes from the caller and can be anything. */
  datatype Cursor = Cursor(filter: Filter, index: int, direction: Direction)

  datatype Request = Fresh(filter: Filter, tail: bool) | Resume(cursor: Cursor)

  datatype Page = Page(sel: seq<nat>, nextIndex: nat, remaining: nat, next: Option<Cursor>, live: Option<Cursor>)

  const MAX_LINES := 50

  /** The caller's limit where it is allowed, the nearest allowed one otherwise; zero is no limit of its own. */
  function Limit(arg: Option<int>): (n: nat)
    ensures 1 <= n <= 50
    ensures arg.Some? && 1 <= arg.value <= 50 ==> n == arg.value
    ensures arg.Some? && arg.value < 0 ==> n == 1
    ensures arg == None || arg == Some(0) || arg.value > 50 ==> n == 50
  {
    if arg.None? || arg.value == 0 then MAX_LINES
    else if arg.value < 1 then 1 else if arg.value > MAX_LINES then MAX_LINES else arg.value
  }

  function Clamp(total: nat, i: int): (index: nat)
    ensures index <= total
  {
    if i < 0 then 0 else if i > total then total else i
  }

  function AtLeast(ms: seq<nat>, index: nat): seq<nat> {
    if ms == [] then [] else (if ms[0] >= index then [ms[0]] else []) + AtLeast(ms[1..], index)
  }

  function Below(ms: seq<nat>, index: nat): seq<nat> {
    if ms == [] then [] else (if ms[0] < index then [ms[0]] else []) + Below(ms[1..], index)
  }

  function First(ms: seq<nat>, n: nat): seq<nat> {
    if |ms| <= n then ms else ms[..n]
  }

  function Last(ms: seq<nat>, n: nat): seq<nat> {
    if |ms| <= n then ms else ms[|ms| - n..]
  }

  function Start(lines: seq<string>, request: Request): Cursor {
    match request
    case Fresh(f, tail) => Cursor(f, if tail then |lines| else 0, if tail then Back else Fwd)
    case Resume(c) => c
  }

  method Read(stamp: Stamps, lines: seq<string>, request: Request, limit: Option<int>) returns (p: Page)
    ensures p == PageOf(stamp, lines, Start(lines, request), Limit(limit), request.Fresh?)
    ensures forall n :: limit == Some(n) && 1 <= n <= 50 ==>
                          |p.sel| <= n && (p.next.Some? ==> |p.sel| == n)
  {
    var state := Start(lines, request);
    var n := Limit(limit);
    var index := Clamp(|lines|, state.index);
    var matches := MatchLines(stamp, state.filter, lines);
    var sel, next, remaining;
    if state.direction == Fwd {
      sel := First(AtLeast(matches, index), n);
      next := if sel != [] then sel[|sel| - 1] + 1 else index;
      remaining := |AtLeast(matches, next)|;
    } else {
      sel := Last(Below(matches, index), n);
      next := if sel != [] then sel[0] else index;
      remaining := |Below(matches, next)|;
    }
    var cursor := if remaining > 0 then Some(state.(index := next)) else None;
    var live := if state.direction == Back && request.Fresh?
    then Some(state.(index := |lines|, direction := Fwd)) else None;
    p := Page(sel, next, remaining, cursor, live);
    PageIsFull(stamp, lines, state, n, request.Fresh?);
  }

  function Selected(ms: seq<nat>, index: nat, direction: Direction, n: nat): seq<nat> {
    if direction == Fwd then First(AtLeast(ms, index), n) else Last(Below(ms, index), n)
  }

  function NextIndex(sel: seq<nat>, index: nat, direction: Direction): nat {
    if sel == [] then index else if direction == Fwd then sel[|sel| - 1] + 1 else sel[0]
  }

  function PageOf(stamp: Stamps, lines: seq<string>, c: Cursor, n: nat, first: bool): Page {
    var ms := Matches(stamp, c.filter, lines);
    var sel := Selected(ms, Clamp(|lines|, c.index), c.direction, n);
    var next := NextIndex(sel, Clamp(|lines|, c.index), c.direction);
    var remaining := if c.direction == Fwd then |AtLeast(ms, next)| else |Below(ms, next)|;
    Page(sel, next, remaining,
         if remaining > 0 then Some(c.(index := next)) else None,
         if c.direction == Back && first then Some(c.(index := |lines|, direction := Fwd)) else None)
  }

  // ---------------------------------------------------------------- what matching means

  predicate Increasing(ms: seq<nat>) {
    forall i, j :: 0 <= i < j < |ms| ==> ms[i] < ms[j]
  }

  /** The match list is the increasing list of exactly the matching lines. */
  lemma {:induction false} MatchesAreTheMatchingLines(stamp: Stamps, f: Filter, lines: seq<string>)
    ensures Increasing(Matches(stamp, f, lines))
    ensures forall i: nat :: i in Matches(stamp, f, lines) <==> i < |lines| && Matching(stamp, f, lines, i)
    decreases |lines|
  {
    hide Keeps, InForce;
    if lines == [] {
    } else {
      var last := |lines| - 1;
      var init := lines[..last];
      MatchesAreTheMatchingLines(stamp, f, init);
      forall i: nat | i < last ensures Matching(stamp, f, lines, i) == Matching(stamp, f, init, i) {
        assert lines[..i + 1] == init[..i + 1];
      }
      assert forall i :: 0 <= i < |Matches(stamp, f, init)| ==> Matches(stamp, f, init)[i] in Matches(stamp, f, init);
    }
  }

  /** Line `j` carries the time that counts for line `i`: it is the nearest one at or above it that has a stamp. */
  predicate Dates(stamp: Stamps, lines: seq<string>, i: nat, j: nat) {
    j <= i < |lines| && stamp(lines[j]).Some? && forall k :: j < k <= i ==> stamp(lines[k]).None?
  }

  lemma {:induction false} InForceIs(stamp: Stamps, lines: seq<string>, i: nat)
    requires i < |lines|
    ensures InForce(stamp, lines[..i + 1]).None? ==> forall j :: 0 <= j <= i ==> stamp(lines[j]).None?
    ensures InForce(stamp, lines[..i + 1]).Some? ==>
              exists j: nat :: Dates(stamp, lines, i, j) && stamp(lines[j]) == InForce(stamp, lines[..i + 1])
    decreases i
  {
    var upTo := lines[..i + 1];
    assert upTo[..|upTo| - 1] == lines[..i] && upTo[|upTo| - 1] == lines[i];
    if stamp(lines[i]).Some? {
      assert Dates(stamp, lines, i, i);
    } else if i == 0 {
      assert lines[..i] == [] && InForce(stamp, upTo) == InForce(stamp, []);
    } else {
      InForceIs(stamp, lines, i - 1);
      assert lines[..i - 1 + 1] == lines[..i];
      if InForce(stamp, lines[..i]).Some? {
        var j: nat :| Dates(stamp, lines, i - 1, j) && stamp(lines[j]) == InForce(stamp, lines[..i]);
        assert Dates(stamp, lines, i, j);
      }
    }
  }

  /** A line matches when the pattern finds it and its time lies within the bounds, both included; a line above every
      stamp has no time: it is too early for any `since` and for no `until` too late. */
  lemma MatchingIff(stamp: Stamps, f: Filter, lines: seq<string>, i: nat)
    requires i < |lines|
    ensures Matching(stamp, f, lines, i) <==>
              && (f.grep.Some? ==> f.grep.value(lines[i]))
              && (f.since.Some? ==>
                    exists j: nat :: Dates(stamp, lines, i, j) && f.since.value <= stamp(lines[j]).value)
              && (f.until.Some? ==>
                    forall j: nat :: Dates(stamp, lines, i, j) ==> stamp(lines[j]).value <= f.until.value)
  {
    hide InForce;
    InForceIs(stamp, lines, i);
    forall j: nat, k: nat | Dates(stamp, lines, i, j) && Dates(stamp, lines, i, k) ensures j == k {
    }
  }

  /** Appending lines never changes which earlier lines match: inheritance only looks upwards. */
  lemma {:induction false} MatchesStable(stamp: Stamps, f: Filter, lines: seq<string>, more: seq<string>)
    ensures Matches(stamp, f, lines) == Below(Matches(stamp, f, lines + more), |lines|)
    decreases |more|
  {
    hide Keeps, InForce;
    MatchesAreTheMatchingLines(stamp, f, lines);
    if more == [] {
      assert lines + more == lines;
      assert forall k :: 0 <= k < |Matches(stamp, f, lines)| ==>
                 Matches(stamp, f, lines)[k] in Matches(stamp, f, lines);
      AllBelow(Matches(stamp, f, lines), |lines|);
    } else {
      var init := more[..|more| - 1];
      MatchesStable(stamp, f, lines, init);
      MatchesSnoc(stamp, f, lines, more);
      hide Matches;
      BelowConcat(Matches(stamp, f, lines + init), LastMatch(stamp, f, lines + more), |lines|);
    }
  }

  function LastMatch(stamp: Stamps, f: Filter, lines: seq<string>): (ms: seq<nat>)
    requires lines != []
    ensures forall index: nat :: index < |lines| ==> Below(ms, index) == []
  {
    if Matching(stamp, f, lines, |lines| - 1) then [|lines| - 1] else []
  }

  lemma {:induction false} MatchesSnoc(stamp: Stamps, f: Filter, lines: seq<string>, more: seq<string>)
    requires more != []
    ensures Matches(stamp, f, lines + more) ==
            Matches(stamp, f, lines + more[..|more| - 1]) + LastMatch(stamp, f, lines + more)
  {
    hide Keeps, InForce;
    assert (lines + more)[..|lines + more| - 1] == lines + more[..|more| - 1];
  }

  lemma {:induction false} AllBelow(ms: seq<nat>, index: nat)
    requires forall k :: 0 <= k < |ms| ==> ms[k] < index
    ensures Below(ms, index) == ms && AtLeast(ms, index) == []
    decreases |ms|
  {
    if ms == [] {
    } else {
      AllBelow(ms[1..], index);
    }
  }

  lemma {:induction false} AllAtLeast(ms: seq<nat>, index: nat)
    requires forall k :: 0 <= k < |ms| ==> ms[k] >= index
    ensures Below(ms, index) == [] && AtLeast(ms, index) == ms
    decreases |ms|
  {
    if ms == [] {
    } else {
      AllAtLeast(ms[1..], index);
    }
  }

  lemma {:induction false} BelowConcat(a: seq<nat>, b: seq<nat>, index: nat)
    ensures Below(a + b, index) == Below(a, index) + Below(b, index)
    decreases |a|
  {
    if a == [] {
      assert a + b == b;
    } else {
      BelowConcat(a[1..], b, index);
      var all := a + b;
      assert all[1..] == a[1..] + b && all[0] == a[0];
      var head := if a[0] < index then [a[0]] else [];
      assert Below(all, index) == head + Below(all[1..], index) && Below(a, index) == head + Below(a[1..], index);
    }
  }

  lemma {:induction false} AtLeastConcat(a: seq<nat>, b: seq<nat>, index: nat)
    ensures AtLeast(a + b, index) == AtLeast(a, index) + AtLeast(b, index)
    decreases |a|
  {
    if a == [] {
      assert a + b == b;
    } else {
      AtLeastConcat(a[1..], b, index);
      var all := a + b;
      assert all[1..] == a[1..] + b && all[0] == a[0];
      var head := if a[0] >= index then [a[0]] else [];
      assert AtLeast(all, index) == head + AtLeast(all[1..], index)
                 && AtLeast(a, index) == head + AtLeast(a[1..], index);
    }
  }

  // ---------------------------------------------------------------- positions in an increasing list

  /** How many elements are below `index`. */
  function Rank(ms: seq<nat>, index: nat): nat {
    |Below(ms, index)|
  }

  function Leading(ms: seq<nat>, index: nat): (c: nat)
    ensures c <= |ms| && (forall k :: 0 <= k < c ==> ms[k] < index) && (c < |ms| ==> ms[c] >= index)
  {
    if ms == [] || ms[0] >= index then 0 else 1 + Leading(ms[1..], index)
  }

  lemma {:induction false} SplitAt(ms: seq<nat>, index: nat, c: nat)
    requires c <= |ms|
    requires forall k :: 0 <= k < |ms| ==> (ms[k] < index <==> k < c)
    ensures Below(ms, index) == ms[..c] && AtLeast(ms, index) == ms[c..]
  {
    hide Below, AtLeast;
    AllBelow(ms[..c], index);
    AllAtLeast(ms[c..], index);
    BelowConcat(ms[..c], ms[c..], index);
    AtLeastConcat(ms[..c], ms[c..], index);
    assert ms[..c] + ms[c..] == ms;
  }

  /** In an increasing list the elements below `index` come first. */
  lemma {:induction false} RankSplits(ms: seq<nat>, index: nat)
    requires Increasing(ms)
    ensures Rank(ms, index) <= |ms|
    ensures Below(ms, index) == ms[..Rank(ms, index)] && AtLeast(ms, index) == ms[Rank(ms, index)..]
    ensures forall k :: 0 <= k < |ms| ==> (ms[k] < index <==> k < Rank(ms, index))
  {
    hide Below, AtLeast;
    SplitAt(ms, index, Leading(ms, index));
  }

  lemma RankIs(ms: seq<nat>, index: nat, r: nat)
    requires Increasing(ms) && r <= |ms|
    requires r > 0 ==> ms[r - 1] < index
    requires r < |ms| ==> ms[r] >= index
    ensures Rank(ms, index) == r
  {
    RankSplits(ms, index);
  }

  /** The matching lines from `lo` up to, not including, `hi`. */
  function Between(ms: seq<nat>, lo: nat, hi: nat): seq<nat> {
    if Rank(ms, lo) <= Rank(ms, hi) <= |ms| then ms[Rank(ms, lo)..Rank(ms, hi)] else []
  }

  lemma RankMonotone(ms: seq<nat>, lo: nat, hi: nat)
    requires Increasing(ms) && lo <= hi
    ensures Rank(ms, lo) <= Rank(ms, hi) <= |ms|
  {
    RankSplits(ms, lo);
    RankSplits(ms, hi);
    assert Rank(ms, hi) < |ms| ==> ms[Rank(ms, hi)] >= hi;
  }

  lemma BetweenJoins(ms: seq<nat>, lo: nat, mid: nat, hi: nat)
    requires Increasing(ms) && lo <= mid <= hi
    ensures Between(ms, lo, hi) == Between(ms, lo, mid) + Between(ms, mid, hi)
  {
    hide Rank;
    RankMonotone(ms, lo, mid);
    RankMonotone(ms, mid, hi);
  }

  /** Between two positions of an older log nothing changes when the log grows. */
  lemma {:induction false} BetweenStable(stamp: Stamps, f: Filter, lines: seq<string>, more: seq<string>, lo: nat,
                                         hi: nat)
    requires lo <= hi <= |lines|
    ensures Between(Matches(stamp, f, lines + more), lo, hi) == Between(Matches(stamp, f, lines), lo, hi)
  {
    var ms, all := Matches(stamp, f, lines), Matches(stamp, f, lines + more);
    MatchesStable(stamp, f, lines, more);
    MatchesAreTheMatchingLines(stamp, f, lines + more);
    hide Matches;
    PrefixRank(all, |lines|, lo);
    PrefixRank(all, |lines|, hi);
    RankMonotone(all, lo, hi);
    RankSplits(all, |lines|);
    RankMonotone(all, hi, |lines|);
    hide Rank, Below;
    assert ms == all[..Rank(all, |lines|)];
    assert ms[Rank(all, lo)..Rank(all, hi)] == all[Rank(all, lo)..Rank(all, hi)];
  }

  lemma {:induction false} PrefixRank(ms: seq<nat>, total: nat, index: nat)
    requires Increasing(ms) && index <= total
    ensures Rank(Below(ms, total), index) == Rank(ms, index)
  {
    RankMonotone(ms, index, total);
    RankSplits(ms, total);
    RankSplits(ms, index);
    hide Rank, Below;
    var r := Rank(ms, index);
    RankIs(ms[..Rank(ms, total)], index, r);
  }

  // ---------------------------------------------------------------- one page

  /** A forward page is the matching lines from its cursor up to its next cursor, and `remaining` counts the rest. */
  lemma {:induction false} ForwardPage(ms: seq<nat>, total: nat, index: nat, n: nat)
    requires Increasing(ms) && (forall k :: 0 <= k < |ms| ==> ms[k] < total) && index <= total && n > 0
    ensures var sel := Selected(ms, index, Fwd, n);
            var next := NextIndex(sel, index, Fwd);
            && index <= next <= total && sel == Between(ms, index, next) && |sel| <= n
            && |AtLeast(ms, next)| == |AtLeast(ms, index)| - |sel|
            && (|AtLeast(ms, next)| > 0 ==> |sel| == n)
  {
    RankSplits(ms, index);
    var sel := Selected(ms, index, Fwd, n);
    var next := NextIndex(sel, index, Fwd);
    RankSplits(ms, next);
    hide Rank, AtLeast, Below;
    var r := Rank(ms, index);
    if sel != [] {
      assert sel == ms[r..r + |sel|];
      assert sel[|sel| - 1] == ms[r + |sel| - 1];
      assert next == ms[r + |sel| - 1] + 1;
      RankIs(ms, next, r + |sel|);
    }
  }

  /** A backward page likewise, towards the start of the log. */
  lemma {:induction false} BackwardPage(ms: seq<nat>, total: nat, index: nat, n: nat)
    requires Increasing(ms) && index <= total && n > 0
    ensures var sel := Selected(ms, index, Back, n);
            var next := NextIndex(sel, index, Back);
            && next <= index && sel == Between(ms, next, index) && |sel| <= n
            && |Below(ms, next)| == |Below(ms, index)| - |sel|
            && (|Below(ms, next)| > 0 ==> |sel| == n)
  {
    RankSplits(ms, index);
    var sel := Selected(ms, index, Back, n);
    var next := NextIndex(sel, index, Back);
    RankSplits(ms, next);
    assert |Below(ms, next)| == Rank(ms, next) && |Below(ms, index)| == Rank(ms, index);
    hide Rank, AtLeast, Below;
    var r := Rank(ms, index);
    if sel == [] {
      assert r == 0 && next == index;
    } else {
      assert |sel| == if r <= n then r else n;
      assert sel == ms[r - |sel|..r];
      assert next == ms[r - |sel|];
      hide Selected, NextIndex;
      RankIs(ms, next, r - |sel|);
    }
  }

  /** A page has at most as many lines as its limit, and exactly as many when more are left. */
  lemma {:induction false} PageIsFull(stamp: Stamps, lines: seq<string>, c: Cursor, n: nat, first: bool)
    requires n > 0
    ensures var p := PageOf(stamp, lines, c, n, first);
            |p.sel| <= n && (p.next.Some? ==> |p.sel| == n)
  {
    hide Matches, Selected, NextIndex, AtLeast, Below, Between, Increasing, Clamp;
    var ms, index := Matches(stamp, c.filter, lines), Clamp(|lines|, c.index);
    MatchesBounded(stamp, c.filter, lines);
    if c.direction == Fwd {
      ForwardPage(ms, |lines|, index, n);
    } else {
      BackwardPage(ms, |lines|, index, n);
    }
  }

  /** A first call: the first lines that match or, with `tail`, the last ones; a cursor for the rest exactly when there
      is one; and with `tail` a cursor for the lines still to come. */
  lemma {:induction false} FreshPage(stamp: Stamps, lines: seq<string>, f: Filter, tail: bool, n: nat)
    requires n > 0
    ensures var p, ms := PageOf(stamp, lines, Start(lines, Fresh(f, tail)), n, true), Matches(stamp, f, lines);
            && |p.sel| == (if |ms| <= n then |ms| else n)
            && p.sel == (if tail then ms[|ms| - |p.sel|..] else ms[..|p.sel|])
            && p.remaining == |ms| - |p.sel| && (p.next.Some? <==> |ms| > n)
            && (p.next.Some? ==> p.next.value == Cursor(f, p.nextIndex, if tail then Back else Fwd))
            && p.live == if tail then Some(Cursor(f, |lines|, Fwd)) else None
  {
    hide Matches, AtLeast, Below, Between, Increasing;
    var ms := Matches(stamp, f, lines);
    MatchesBounded(stamp, f, lines);
    AllBelow(ms, |lines|);
    AllAtLeast(ms, 0);
    if tail {
      BackwardPage(ms, |lines|, |lines|, n);
    } else {
      ForwardPage(ms, |lines|, 0, n);
    }
  }

  /** A later call: no second live cursor, and an index outside the log is read as its nearer end. */
  lemma ResumedPage(stamp: Stamps, lines: seq<string>, c: Cursor, n: nat)
    ensures var p := PageOf(stamp, lines, Start(lines, Resume(c)), n, false);
            && p.live.None?
            && (p.next.Some? ==> p.next.value.filter == c.filter && p.next.value.direction == c.direction)
            && (c.index < 0 ==> p == PageOf(stamp, lines, Cursor(c.filter, 0, c.direction), n, false))
            && (c.index > |lines| ==> p == PageOf(stamp, lines, Cursor(c.filter, |lines|, c.direction), n, false))
  {
    hide Matches, Selected, NextIndex;
  }

  // ---------------------------------------------------------------- walks over a log that grows by whole lines

  /** A call made when the log had its first `seen` lines. */
  datatype Call = Call(seen: nat, limit: Option<int>)

  predicate InOrder(log: seq<string>, calls: seq<Call>) {
    && (forall i :: 0 <= i < |calls| ==> calls[i].seen <= |log|)
    && (forall i, j :: 0 <= i < j < |calls| ==> calls[i].seen <= calls[j].seen)
  }

  /** Following `next_cursor` until a page has none, or the calls run out. */
  function Walk(stamp: Stamps, log: seq<string>, c: Cursor, calls: seq<Call>): (pages: seq<Page>)
    requires InOrder(log, calls)
    ensures |pages| <= |calls| && (calls != [] ==> pages != [])
    decreases |calls|
  {
    if calls == [] then [] else
      var p := PageOf(stamp, log[..calls[0].seen], c, Limit(calls[0].limit), false);
      [p] + if p.next.None? then [] else Walk(stamp, log, p.next.value, calls[1..])
  }

  predicate Ended(pages: seq<Page>) {
    pages != [] && pages[|pages| - 1].next.None?
  }

  function Newer(pages: seq<Page>): seq<nat> {
    if pages == [] then [] else pages[0].sel + Newer(pages[1..])
  }

  /** The pages of a backward walk put into reading order. */
  function Older(pages: seq<Page>): seq<nat> {
    if pages == [] then [] else Older(pages[1..]) + pages[0].sel
  }

  lemma {:induction false} MatchesBounded(stamp: Stamps, f: Filter, lines: seq<string>)
    ensures Increasing(Matches(stamp, f, lines))
    ensures forall k :: 0 <= k < |Matches(stamp, f, lines)| ==> Matches(stamp, f, lines)[k] < |lines|
    ensures Between(Matches(stamp, f, lines), 0, |lines|) == Matches(stamp, f, lines)
  {
    var ms := Matches(stamp, f, lines);
    MatchesAreTheMatchingLines(stamp, f, lines);
    hide Matches;
    assert forall k :: 0 <= k < |ms| ==> ms[k] in ms;
    AllBelow(ms, |lines|);
    AllAtLeast(ms, 0);
  }

  lemma {:induction false} PageInLog(stamp: Stamps, log: seq<string>, seen: nat, c: Cursor, n: nat, first: bool)
    requires seen <= |log| && 0 <= c.index <= seen && n > 0
    ensures var p, ms := PageOf(stamp, log[..seen], c, n, first), Matches(stamp, c.filter, log);
            && p.nextIndex <= seen
            && (if c.direction == Fwd then c.index <= p.nextIndex && p.sel == Between(ms, c.index, p.nextIndex)
                else p.nextIndex <= c.index && p.sel == Between(ms, p.nextIndex, c.index))
  {
    hide Between, AtLeast, Below, Selected, NextIndex, Matches, Increasing;
    var ms := Matches(stamp, c.filter, log[..seen]);
    MatchesBounded(stamp, c.filter, log[..seen]);
    assert log[..seen] + log[seen..] == log;
    if c.direction == Fwd {
      ForwardPage(ms, seen, c.index, n);
      BetweenStable(stamp, c.filter, log[..seen], log[seen..], c.index,
                    NextIndex(Selected(ms, c.index, Fwd, n), c.index, Fwd));
    } else {
      BackwardPage(ms, seen, c.index, n);
      BetweenStable(stamp, c.filter, log[..seen], log[seen..], NextIndex(Selected(ms, c.index, Back, n), c.index, Back),
                    c.index);
    }
  }

  /** A forward walk with any limits returns each matching line from its start up to its last cursor once, in order. */
  lemma {:induction false} ForwardWalk(stamp: Stamps, log: seq<string>, c: Cursor, calls: seq<Call>)
    requires InOrder(log, calls) && calls != [] && c.direction == Fwd && 0 <= c.index <= calls[0].seen
    ensures var pages := Walk(stamp, log, c, calls);
            && c.index <= pages[|pages| - 1].nextIndex <= |log|
            && Newer(pages) == Between(Matches(stamp, c.filter, log), c.index, pages[|pages| - 1].nextIndex)
    decreases |calls|
  {
    hide Between, Matches, PageOf, Limit, Increasing;
    var ms := Matches(stamp, c.filter, log);
    MatchesBounded(stamp, c.filter, log);
    var p := PageOf(stamp, log[..calls[0].seen], c, Limit(calls[0].limit), false);
    PageInLog(stamp, log, calls[0].seen, c, Limit(calls[0].limit), false);
    var pages := Walk(stamp, log, c, calls);
    assert pages[0] == p;
    if p.next.None? || |calls| == 1 {
      assert pages == [p] && pages[1..] == [];
      assert p.sel + [] == p.sel;
    } else {
      NextCursor(stamp, log[..calls[0].seen], c, Limit(calls[0].limit), false);
      var rest := Walk(stamp, log, p.next.value, calls[1..]);
      ForwardWalk(stamp, log, p.next.value, calls[1..]);
      assert pages == [p] + rest && pages[1..] == rest;
      BetweenJoins(ms, c.index, p.nextIndex, rest[|rest| - 1].nextIndex);
    }
  }

  lemma NextCursor(stamp: Stamps, lines: seq<string>, c: Cursor, n: nat, first: bool)
    ensures var p := PageOf(stamp, lines, c, n, first);
            p.next.Some? ==> p.next.value == c.(index := p.nextIndex)
  {
  }

  /** A backward walk returns each matching line from its last cursor up to its start once, newest page first. */
  lemma {:induction false} BackwardWalk(stamp: Stamps, log: seq<string>, c: Cursor, calls: seq<Call>)
    requires InOrder(log, calls) && calls != [] && c.direction == Back && 0 <= c.index <= calls[0].seen
    ensures var pages := Walk(stamp, log, c, calls);
            && pages[|pages| - 1].nextIndex <= c.index
            && Older(pages) == Between(Matches(stamp, c.filter, log), pages[|pages| - 1].nextIndex, c.index)
    decreases |calls|
  {
    hide Between, Matches, PageOf;
    var ms := Matches(stamp, c.filter, log);
    MatchesBounded(stamp, c.filter, log);
    var p := PageOf(stamp, log[..calls[0].seen], c, Limit(calls[0].limit), false);
    PageInLog(stamp, log, calls[0].seen, c, Limit(calls[0].limit), false);
    var pages := Walk(stamp, log, c, calls);
    assert pages[0] == p;
    if p.next.None? || |calls| == 1 {
      assert pages == [p] && pages[1..] == [];
      assert [] + p.sel == p.sel;
    } else {
      NextCursor(stamp, log[..calls[0].seen], c, Limit(calls[0].limit), false);
      var rest := Walk(stamp, log, p.next.value, calls[1..]);
      BackwardWalk(stamp, log, p.next.value, calls[1..]);
      assert pages == [p] + rest && pages[1..] == rest;
      BetweenJoins(ms, rest[|rest| - 1].nextIndex, p.nextIndex, c.index);
    }
  }

  /** When a forward walk ends, its last call saw no matching line beyond what was returned. */
  lemma {:induction false} EndedForward(stamp: Stamps, log: seq<string>, c: Cursor, calls: seq<Call>)
    requires InOrder(log, calls) && calls != [] && c.direction == Fwd && 0 <= c.index <= calls[0].seen
    requires Ended(Walk(stamp, log, c, calls))
    ensures var pages := Walk(stamp, log, c, calls);
            var seen := calls[|pages| - 1].seen;
            Newer(pages) == Between(Matches(stamp, c.filter, log), c.index, seen) && c.index <= seen
    decreases |calls|
  {
    hide Between, Matches, PageOf;
    var ms := Matches(stamp, c.filter, log);
    var seen := calls[0].seen;
    MatchesBounded(stamp, c.filter, log);
    var p := PageOf(stamp, log[..seen], c, Limit(calls[0].limit), false);
    PageInLog(stamp, log, seen, c, Limit(calls[0].limit), false);
    var pages := Walk(stamp, log, c, calls);
    if p.next.None? {
      assert pages == [p] && pages[1..] == [];
      assert p.sel + [] == p.sel;
      NothingLeft(stamp, log, seen, c, Limit(calls[0].limit));
      BetweenJoins(ms, c.index, p.nextIndex, seen);
    } else {
      NextCursor(stamp, log[..seen], c, Limit(calls[0].limit), false);
      var rest := Walk(stamp, log, p.next.value, calls[1..]);
      assert |calls| == 1 ==> pages == [p];
      assert pages == [p] + rest && pages[1..] == rest;
      EndedForward(stamp, log, p.next.value, calls[1..]);
      BetweenJoins(ms, c.index, p.nextIndex, calls[|pages| - 1].seen);
    }
  }

  lemma {:induction false} NothingBetween(ms: seq<nat>, lo: nat, hi: nat)
    requires Increasing(ms) && lo <= hi
    requires AtLeast(ms, lo) == [] || Below(ms, hi) == []
    ensures Between(ms, lo, hi) == []
  {
    RankSplits(ms, lo);
    RankMonotone(ms, lo, hi);
  }

  lemma {:induction false} NothingLeft(stamp: Stamps, log: seq<string>, seen: nat, c: Cursor, n: nat)
    requires seen <= |log| && 0 <= c.index <= seen && n > 0 && c.direction == Fwd
    requires PageOf(stamp, log[..seen], c, n, false).next.None?
    ensures Between(Matches(stamp, c.filter, log), PageOf(stamp, log[..seen], c, n, false).nextIndex, seen) == []
  {
    hide Matches, Increasing, Selected, NextIndex, Between, AtLeast, Below;
    var p, ms := PageOf(stamp, log[..seen], c, n, false), Matches(stamp, c.filter, log[..seen]);
    assert |AtLeast(ms, p.nextIndex)| == 0;
    PageInLog(stamp, log, seen, c, n, false);
    hide PageOf;
    MatchesBounded(stamp, c.filter, log[..seen]);
    assert log[..seen] + log[seen..] == log;
    BetweenStable(stamp, c.filter, log[..seen], log[seen..], p.nextIndex, seen);
    NothingBetween(ms, p.nextIndex, seen);
  }

  /** A backward walk that ended has returned everything down to the first line. */
  lemma {:induction false} EndedBackward(stamp: Stamps, log: seq<string>, c: Cursor, calls: seq<Call>)
    requires InOrder(log, calls) && calls != [] && c.direction == Back && 0 <= c.index <= calls[0].seen
    requires Ended(Walk(stamp, log, c, calls))
    ensures Older(Walk(stamp, log, c, calls)) == Between(Matches(stamp, c.filter, log), 0, c.index)
    decreases |calls|
  {
    hide Between, Matches, PageOf;
    var ms := Matches(stamp, c.filter, log);
    var seen := calls[0].seen;
    MatchesBounded(stamp, c.filter, log);
    var p := PageOf(stamp, log[..seen], c, Limit(calls[0].limit), false);
    PageInLog(stamp, log, seen, c, Limit(calls[0].limit), false);
    var pages := Walk(stamp, log, c, calls);
    if p.next.None? {
      assert pages == [p] && pages[1..] == [];
      assert [] + p.sel == p.sel;
      NothingOlder(stamp, log, seen, c, Limit(calls[0].limit), false);
      BetweenJoins(ms, 0, p.nextIndex, c.index);
    } else {
      NextCursor(stamp, log[..seen], c, Limit(calls[0].limit), false);
      var rest := Walk(stamp, log, p.next.value, calls[1..]);
      assert |calls| == 1 ==> pages == [p];
      assert pages == [p] + rest && pages[1..] == rest;
      EndedBackward(stamp, log, p.next.value, calls[1..]);
      BetweenJoins(ms, 0, p.nextIndex, c.index);
    }
  }

  lemma {:induction false} NothingOlder(stamp: Stamps, log: seq<string>, seen: nat, c: Cursor, n: nat, first: bool)
    requires seen <= |log| && 0 <= c.index <= seen && n > 0 && c.direction == Back
    requires PageOf(stamp, log[..seen], c, n, first).next.None?
    ensures Between(Matches(stamp, c.filter, log), 0, PageOf(stamp, log[..seen], c, n, first).nextIndex) == []
  {
    hide Matches, Increasing, Selected, NextIndex, Between, AtLeast, Below;
    var p, ms := PageOf(stamp, log[..seen], c, n, first), Matches(stamp, c.filter, log[..seen]);
    assert |Below(ms, p.nextIndex)| == 0;
    PageInLog(stamp, log, seen, c, n, first);
    hide PageOf;
    MatchesBounded(stamp, c.filter, log[..seen]);
    assert log[..seen] + log[seen..] == log;
    BetweenStable(stamp, c.filter, log[..seen], log[seen..], 0, p.nextIndex);
    NothingBetween(ms, 0, p.nextIndex);
  }

  // ---------------------------------------------------------------- the main results

  /** The pages of a tail read: its first page, when the log was `lines`, then the ones its `next_cursor` leads to. */
  function TailPages(stamp: Stamps, lines: seq<string>, f: Filter, n: nat, log: seq<string>,
                     older: seq<Call>): seq<Page>
    requires InOrder(log, older)
  {
    var p := PageOf(stamp, lines, Start(lines, Fresh(f, true)), n, true);
    [p] + if p.next.None? then [] else Walk(stamp, log, p.next.value, older)
  }

  lemma {:induction false} TailIsAWalk(stamp: Stamps, log: seq<string>, f: Filter, first: Call, older: seq<Call>)
    requires first.seen <= |log| && InOrder(log, [first] + older) && InOrder(log, older)
    ensures var tail, walk := TailPages(stamp, log[..first.seen], f, Limit(first.limit), log, older),
                              Walk(stamp, log, Cursor(f, first.seen, Back), [first] + older);
            && Older(tail) == Older(walk) && (Ended(tail) <==> Ended(walk))
  {
  }

  /** However the older pages and the newer pages are fetched while the log grows, a tail read's pages in reading order
      followed by those from its live cursor are all matching lines, each once. */
  lemma {:induction false} TailAndLivePartition(stamp: Stamps, log: seq<string>, f: Filter, first: Call,
                                                older: seq<Call>, newer: seq<Call>)
    requires first.seen <= |log| && InOrder(log, [first] + older) && InOrder(log, older)
    requires InOrder(log, newer) && newer != [] && first.seen <= newer[0].seen
    requires Ended(TailPages(stamp, log[..first.seen], f, Limit(first.limit), log, older))
    requires Ended(Walk(stamp, log, Cursor(f, first.seen, Fwd), newer))
    ensures var lines := log[..first.seen];
            PageOf(stamp, lines, Start(lines, Fresh(f, true)), Limit(first.limit), true).live
            == Some(Cursor(f, first.seen, Fwd))
    ensures var fwd := Walk(stamp, log, Cursor(f, first.seen, Fwd), newer);
            Older(TailPages(stamp, log[..first.seen], f, Limit(first.limit), log, older)) + Newer(fwd)
            == Matches(stamp, f, log[..newer[|fwd| - 1].seen])
  {
    hide Matches, Selected, NextIndex, AtLeast, Below, Between, Older, Newer, Walk, TailPages, Ended;
    TailIsAWalk(stamp, log, f, first, older);
    EndedBackward(stamp, log, Cursor(f, first.seen, Back), [first] + older);
    EndedForward(stamp, log, Cursor(f, first.seen, Fwd), newer);
    var fwd := Walk(stamp, log, Cursor(f, first.seen, Fwd), newer);
    var seen := newer[|fwd| - 1].seen;
    MatchesBounded(stamp, f, log);
    BetweenJoins(Matches(stamp, f, log), 0, first.seen, seen);
    WholePrefix(stamp, f, log, seen);
  }

  lemma {:induction false} WholePrefix(stamp: Stamps, f: Filter, log: seq<string>, seen: nat)
    requires seen <= |log|
    ensures Between(Matches(stamp, f, log), 0, seen) == Matches(stamp, f, log[..seen])
  {
    hide Matches, Between;
    assert log[..seen] + log[seen..] == log;
    BetweenStable(stamp, f, log[..seen], log[seen..], 0, seen);
    MatchesBounded(stamp, f, log[..seen]);
  }

  /** Reading from the start until no cursor is left returns every matching line the last call could see, once and in
      order, whatever the limits and however the log grew in between. */
  lemma {:induction false} WholeForwardRead(stamp: Stamps, log: seq<string>, f: Filter, calls: seq<Call>)
    requires InOrder(log, calls) && calls != [] && Ended(Walk(stamp, log, Cursor(f, 0, Fwd), calls))
    ensures var pages := Walk(stamp, log, Cursor(f, 0, Fwd), calls);
            Newer(pages) == Matches(stamp, f, log[..calls[|pages| - 1].seen])
  {
    hide Matches, Between, Walk, Newer, Ended;
    EndedForward(stamp, log, Cursor(f, 0, Fwd), calls);
    WholePrefix(stamp, f, log, calls[|Walk(stamp, log, Cursor(f, 0, Fwd), calls)| - 1].seen);
  }

  function Left(ms: seq<nat>, c: Cursor): nat
    requires c.index >= 0
  {
    if c.direction == Fwd then |AtLeast(ms, c.index)| else |Below(ms, c.index)|
  }

  lemma {:induction false} FullPage(stamp: Stamps, log: seq<string>, c: Cursor, n: nat)
    requires 0 <= c.index <= |log| && n > 0
    ensures var p, ms := PageOf(stamp, log, c, n, false), Matches(stamp, c.filter, log);
            p.next.Some? ==>
              && p.next.value == c.(index := p.nextIndex) && p.nextIndex <= |log|
              && |p.sel| == n && 0 < Left(ms, p.next.value) < Left(ms, c)
  {
    hide Matches, Selected, NextIndex, AtLeast, Below, Between, Increasing;
    var ms := Matches(stamp, c.filter, log);
    MatchesBounded(stamp, c.filter, log);
    if c.direction == Fwd {
      ForwardPage(ms, |log|, c.index, n);
    } else {
      BackwardPage(ms, |log|, c.index, n);
    }
  }

  /** On a log that does not change, a walk ends within as many calls as there are lines left to return, and every page
      but the last is full. */
  lemma {:induction false} WalkEnds(stamp: Stamps, log: seq<string>, c: Cursor, calls: seq<Call>)
    requires forall i :: 0 <= i < |calls| ==> calls[i].seen == |log|
    requires 0 <= c.index <= |log|
    requires calls != [] && |calls| >= Left(Matches(stamp, c.filter, log), c)
    ensures var pages := Walk(stamp, log, c, calls);
            Ended(pages) && forall i :: 0 <= i < |pages| - 1 ==> |pages[i].sel| == Limit(calls[i].limit)
    decreases |calls|
  {
    hide Matches, PageOf, Limit, Left;
    var n := Limit(calls[0].limit);
    assert log[..|log|] == log;
    FullPage(stamp, log, c, n);
    var p := PageOf(stamp, log, c, n, false);
    var pages := Walk(stamp, log, c, calls);
    assert pages[0] == p;
    if p.next.Some? {
      assert |calls| > 1;
      WalkEnds(stamp, log, p.next.value, calls[1..]);
      var rest := Walk(stamp, log, p.next.value, calls[1..]);
      assert pages == [p] + rest;
      assert forall i :: 0 < i < |pages| ==> pages[i] == rest[i - 1] && calls[i] == calls[1..][i - 1];
    }
  }

  // ---------------------------------------------------------------- an unfinished last line

  lemma {:induction false} LastLine(stamp: Stamps, f: Filter, a: seq<string>, line: string)
    ensures Matches(stamp, f, a + [line])
         == Matches(stamp, f, a) + if Matching(stamp, f, a + [line], |a|) then [|a|] else []
  {
    assert (a + [line])[..|a|] == a;
  }

  /** The matches of a log whose last line is unfinished, and those that come after that line once it is complete, are
      all matches of the complete log if and only if completing the line does not change whether it matches. */
  lemma {:induction false} UnfinishedLineIff(stamp: Stamps, f: Filter, a: seq<string>, part: string, line: string,
                                             more: seq<string>)
    ensures var ms := Matches(stamp, f, a + [line] + more);
            Matches(stamp, f, a + [part]) + Between(ms, |a| + 1, |a| + 1 + |more|) == ms <==>
              (Matching(stamp, f, a + [part], |a|) <==> Matching(stamp, f, a + [line], |a|))
  {
    hide Matches, Between, Matching;
    var whole := a + [line];
    MatchesBounded(stamp, f, whole + more);
    BetweenJoins(Matches(stamp, f, whole + more), 0, |whole|, |whole + more|);
    BetweenStable(stamp, f, whole, more, 0, |whole|);
    MatchesBounded(stamp, f, whole);
    LastLine(stamp, f, a, part);
    LastLine(stamp, f, a, line);
  }

  lemma {:induction false} SameStart(stamp: Stamps, f: Filter, a: seq<string>, lines: seq<string>, log: seq<string>,
                                     index: nat)
    requires a <= lines && a <= log && index <= |a|
    ensures Between(Matches(stamp, f, lines), 0, index) == Between(Matches(stamp, f, log), 0, index)
  {
    hide Matches, Between;
    assert a + lines[|a|..] == lines && a + log[|a|..] == log;
    BetweenStable(stamp, f, a, lines[|a|..], 0, index);
    BetweenStable(stamp, f, a, log[|a|..], 0, index);
  }

  /** The first page of a tail read leaves a cursor at or before the last line. */
  lemma {:induction false} TailCursor(stamp: Stamps, f: Filter, lines: seq<string>, n: nat)
    requires n > 0
    ensures var p, ms := PageOf(stamp, lines, Cursor(f, |lines|, Back), n, true), Matches(stamp, f, lines);
            && p.nextIndex <= |lines| && p.sel == Between(ms, p.nextIndex, |lines|)
            && (p.next.None? ==> Between(ms, 0, p.nextIndex) == [])
            && (p.next.Some? ==> p.next.value == Cursor(f, p.nextIndex, Back) && p.nextIndex < |lines|)
  {
    hide Matches, Between, AtLeast, Below, Increasing;
    var c := Cursor(f, |lines|, Back);
    assert lines[..|lines|] == lines;
    PageInLog(stamp, lines, |lines|, c, n, true);
    var ms := Matches(stamp, f, lines);
    MatchesBounded(stamp, f, lines);
    BackwardPage(ms, |lines|, |lines|, n);
    var p := PageOf(stamp, lines, c, n, true);
    if p.next.None? {
      NothingOlder(stamp, lines, |lines|, c, n, true);
    } else {
      assert p.sel != [];
      RankSplits(ms, |lines|);
      assert p.sel[0] < |lines|;
    }
  }

  /** A tail read that saw an unfinished last line, and whose older pages were fetched before or after that line was
      completed, returns the matches of the log it saw. */
  lemma {:induction false} TailOfUnfinished(stamp: Stamps, f: Filter, a: seq<string>, part: string, n: nat,
                                            log: seq<string>, older: seq<Call>)
    requires a <= log && InOrder(log, older) && (older != [] ==> |a| <= older[0].seen) && n > 0
    requires Ended(TailPages(stamp, a + [part], f, n, log, older))
    ensures Older(TailPages(stamp, a + [part], f, n, log, older)) == Matches(stamp, f, a + [part])
  {
    hide Matches, Between, PageOf;
    var lines := a + [part];
    var ms, p := Matches(stamp, f, lines), PageOf(stamp, lines, Cursor(f, |lines|, Back), n, true);
    var tail := TailPages(stamp, lines, f, n, log, older);
    TailCursor(stamp, f, lines, n);
    MatchesBounded(stamp, f, lines);
    BetweenJoins(ms, 0, p.nextIndex, |lines|);
    if p.next.None? {
      assert tail == [p] && tail[1..] == [];
      assert [] + p.sel == p.sel;
    } else {
      var rest := Walk(stamp, log, p.next.value, older);
      assert older == [] ==> tail == [p];
      assert tail == [p] + rest && tail[1..] == rest;
      EndedBackward(stamp, log, p.next.value, older);
      SameStart(stamp, f, a, lines, log, p.nextIndex);
    }
  }

  /** A tail read that saw an unfinished last line, followed by the pages of its live cursor once the line is complete,
      is all matching lines, each once, if and only if completing the line does not change whether it matches. */
  lemma {:induction false} UnfinishedLinePartitionIff(stamp: Stamps, f: Filter, a: seq<string>, part: string,
                                                      line: string,
                                                      more: seq<string>, n: nat, log: seq<string>, older: seq<Call>,
                                                      newer: seq<Call>)
    requires a <= log && InOrder(log, older) && (older != [] ==> |a| <= older[0].seen) && n > 0
    requires InOrder(a + [line] + more, newer) && newer != [] && |a| < newer[0].seen
    requires Ended(TailPages(stamp, a + [part], f, n, log, older))
    requires Ended(Walk(stamp, a + [line] + more, Cursor(f, |a| + 1, Fwd), newer))
    ensures var lines := a + [part];
            PageOf(stamp, lines, Start(lines, Fresh(f, true)), n, true).live == Some(Cursor(f, |a| + 1, Fwd))
    ensures var fwd := Walk(stamp, a + [line] + more, Cursor(f, |a| + 1, Fwd), newer);
            Older(TailPages(stamp, a + [part], f, n, log, older)) + Newer(fwd)
            == Matches(stamp, f, (a + [line] + more)[..newer[|fwd| - 1].seen]) <==>
              (Matching(stamp, f, a + [part], |a|) <==> Matching(stamp, f, a + [line], |a|))
  {
    hide Matches, Between, Matching, Older, Newer, Walk, TailPages, Ended, Selected, NextIndex, AtLeast, Below;
    var whole := a + [line] + more;
    TailOfUnfinished(stamp, f, a, part, n, log, older);
    EndedForward(stamp, whole, Cursor(f, |a| + 1, Fwd), newer);
    var seen := newer[|Walk(stamp, whole, Cursor(f, |a| + 1, Fwd), newer)| - 1].seen;
    var later := more[..seen - |a| - 1];
    assert whole[..seen] == a + [line] + later && whole[..seen] + whole[seen..] == whole;
    BetweenStable(stamp, f, whole[..seen], whole[seen..], |a| + 1, seen);
    UnfinishedLineIff(stamp, f, a, part, line, later);
  }

  function NoStamp(line: string): Option<int> {
    None
  }

  /** An input where it does: a line completed into what the pattern asks for is in no page. */
  lemma UnfinishedLineIsMissed(part: string, line: string, n: nat)
    requires part < line && n > 0
    ensures var f := Filter(Some((s: string) => s == line), None, None);
            var p := PageOf(NoStamp, [part], Start([part], Fresh(f, true)), n, true);
            p.sel == [] && p.live == Some(Cursor(f, 1, Fwd))
            && Matches(NoStamp, f, [line]) == [0] && PageOf(NoStamp, [line], p.live.value, n, false).sel == []
  {
    var f := Filter(Some((s: string) => s == line), None, None);
    assert [part][..0] == [] && [line][..0] == [];
    assert Matches(NoStamp, f, [part]) == [];
    assert Matches(NoStamp, f, [line]) == [0];
    assert AtLeast([0], 1) == AtLeast([0][1..], 1) == [];
  }

  /** A cursor that was sent out and comes back selects the page it was made for; JSON is any faithful encoding. */
  lemma CursorsTravel(dump: Cursor -> seq<CursorCodec.Byte>, load: seq<CursorCodec.Byte> -> Cursor, c: Cursor)
    requires load(dump(c)) == c
    ensures var s := CursorCodec.EncodeCursor(dump(c));
            CursorCodec.DecodeCursor(s).Some? && load(CursorCodec.DecodeCursor(s).value) == c
  {
    CursorCodec.CursorRoundTrip(dump(c));
  }
}
