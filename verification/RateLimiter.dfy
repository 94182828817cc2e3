/** The per-user fixed-window limiter, its never-evicting twin in the history simulator, and the burst probe that
    the verifier aims at it.  Clock readings are milliseconds; attempts are listed in the order the lock was taken. */
module RateLimiter {

  const MINUTE := 60_000

  datatype Attempt = Attempt(user: int, at: nat) {
    function Window(): (w: nat)
      ensures w * 60_000 <= at < (w + 1) * 60_000
    {
      at / MINUTE
    }
  }

  /** Attempts by `user` in `window` since the last attempt of any user in a later window. */
  function Live(h: seq<Attempt>, user: int, window: nat): nat {
    if h == [] then 0 else
      var a := h[|h| - 1];
      if a.Window() > window then 0
      else (if a.user == user && a.Window() == window then 1 else 0) + Live(h[..|h| - 1], user, window)
  }

  /** All attempts by `user` in `window`: what a counter that never evicts holds. */
  function Total(h: seq<Attempt>, user: int, window: nat): nat {
    if h == [] then 0 else
      var a := h[|h| - 1];
      (if a.user == user && a.Window() == window then 1 else 0) + Total(h[..|h| - 1], user, window)
  }

  class Limiter {
    const perMinute: int
    var counts: map<(int, nat), nat>
    ghost var history: seq<Attempt>

    ghost predicate Valid()
      reads this
    {
      && (forall u: int, w: nat :: (u, w) in counts ==> counts[(u, w)] == Live(history, u, w))
      && (forall u: int, w: nat :: (u, w) !in counts ==> Live(history, u, w) == 0)
    }

    constructor (perMinute: int)
      ensures Valid() && this.perMinute == perMinute && history == []
    {
      this.perMinute, counts, history := perMinute, map[], [];
    }

    /** Deletes every key of an older window. */
    method Evict(window: nat)
      modifies this`counts
      ensures counts == map k | k in old(counts) && k.1 >= window :: old(counts)[k]
    {
      var stale := set k | k in counts && k.1 < window;
      ghost var all := stale;
      while stale != {}
        invariant stale <= all
        invariant counts == map k | k in old(counts) && (k in stale || k !in all) :: old(counts)[k]
        decreases stale
      {
        var key :| key in stale;
        counts := counts - {key};
        stale := stale - {key};
      }
    }

    /** `a.at` is the clock reading the thread took before it got the lock. */
    method Allow(a: Attempt) returns (ok: bool)
      requires Valid()
      modifies this
      ensures Valid() && history == old(history) + [a]
      ensures ok <==> Live(old(history), a.user, a.Window()) + 1 <= perMinute
    {
      var window := a.Window();
      Evict(window);
      var key := (a.user, window);
      var n := (if key in counts then counts[key] else 0) + 1;
      counts := counts[key := n];
      ok := n <= perMinute;
      history := history + [a];
      assert history[..|history| - 1] == old(history);
    }
  }

  // ---------------------------------------------------------------- against a counter that never evicts

  /** An attempt in `window` came before one in a later window, so its count is gone. */
  ghost predicate Evicted(h: seq<Attempt>, user: int, window: nat) {
    exists i, j :: 0 <= i < j < |h| && h[i].user == user && h[i].Window() == window && h[j].Window() > window
  }

  /** The evicting map agrees with the plain count exactly when nothing of that user and window has been evicted. */
  lemma {:induction false} LiveIsTotalIffNotEvicted(h: seq<Attempt>, user: int, window: nat)
    ensures Live(h, user, window) <= Total(h, user, window)
    ensures Live(h, user, window) == Total(h, user, window) <==> !Evicted(h, user, window)
    decreases |h|
  {
    if h == [] {
    } else {
      var g, a := h[..|h| - 1], h[|h| - 1];
      LiveIsTotalIffNotEvicted(g, user, window);
      if Evicted(g, user, window) {
        var i, j :| 0 <= i < j < |g| && g[i].user == user && g[i].Window() == window && g[j].Window() > window;
        assert h[i] == g[i] && h[j] == g[j];
      }
      if a.Window() > window {
        TotalIsPresence(h, user, window);
        if i :| 0 <= i < |h| && h[i].user == user && h[i].Window() == window {
          assert i < |h| - 1 && h[|h| - 1].Window() > window;
        }
      } else if Evicted(h, user, window) {
        var i, j :| 0 <= i < j < |h| && h[i].user == user && h[i].Window() == window && h[j].Window() > window;
        assert g[i] == h[i] && g[j] == h[j];
      }
    }
  }

  lemma {:induction false} TotalIsPresence(h: seq<Attempt>, user: int, window: nat)
    ensures Total(h, user, window) > 0 <==> exists i :: 0 <= i < |h| && h[i].user == user && h[i].Window() == window
    decreases |h|
  {
    if h == [] {
    } else {
      var g := h[..|h| - 1];
      TotalIsPresence(g, user, window);
      if i :| 0 <= i < |g| && g[i].user == user && g[i].Window() == window {
        assert h[i] == g[i];
      }
      if i :| 0 <= i < |h| && h[i].user == user && h[i].Window() == window {
        assert i < |g| ==> g[i] == h[i];
      }
    }
  }

  /** Windows never go back in lock order. */
  ghost predicate Ordered(h: seq<Attempt>) {
    forall i, j :: 0 <= i < j < |h| ==> h[i].Window() <= h[j].Window()
  }

  /** The answer to the `k`-th attempt. */
  predicate Allowed(h: seq<Attempt>, k: nat, perMinute: int)
    requires k < |h|
  {
    Live(h[..k], h[k].user, h[k].Window()) + 1 <= perMinute
  }

  /** The simulator's test: count first, then reject above the limit. */
  predicate SimulatorAllows(h: seq<Attempt>, k: nat, limit: int)
    requires k < |h|
  {
    !(Total(h[..k], h[k].user, h[k].Window()) + 1 > limit)
  }

  /** The service and the simulator answer an attempt alike under every limit exactly when nothing of that user and
      window has been evicted before it. */
  lemma AnswersAgreeIff(h: seq<Attempt>, k: nat)
    requires k < |h|
    ensures (forall limit: int :: Allowed(h, k, limit) <==> SimulatorAllows(h, k, limit)) <==>
              !Evicted(h[..k], h[k].user, h[k].Window())
  {
    var live := Live(h[..k], h[k].user, h[k].Window());
    LiveIsTotalIffNotEvicted(h[..k], h[k].user, h[k].Window());
    assert Allowed(h, k, live + 1);
  }

  lemma OrderedEvictsNothing(h: seq<Attempt>, k: nat)
    requires k < |h| && Ordered(h)
    ensures !Evicted(h[..k], h[k].user, h[k].Window())
  {
    assert forall j :: 0 <= j < k ==> h[..k][j] == h[j];
  }

  /** How many attempts of `user` in `window` were let through. */
  function Passed(h: seq<Attempt>, user: int, window: nat, perMinute: int): nat {
    if h == [] then 0 else
      var k := |h| - 1;
      (if h[k].user == user && h[k].Window() == window && Allowed(h, k, perMinute) then 1 else 0)
      + Passed(h[..k], user, window, perMinute)
  }

  function Cap(perMinute: int): nat {
    if perMinute < 0 then 0 else perMinute
  }

  /** The limiter's promise: of all attempts per user and window as many as the limit allows. */
  function Promised(h: seq<Attempt>, user: int, window: nat, perMinute: int): nat {
    if Total(h, user, window) <= Cap(perMinute) then Total(h, user, window) else Cap(perMinute)
  }

  /** An attempt of that user and window came after some had been evicted. */
  ghost predicate Revived(h: seq<Attempt>, user: int, window: nat) {
    exists k :: 0 <= k < |h| && h[k].user == user && h[k].Window() == window && Evicted(h[..k], user, window)
  }

  lemma RevivedSnoc(h: seq<Attempt>, user: int, window: nat)
    requires h != []
    ensures var k := |h| - 1;
            Revived(h, user, window) <==>
              || Revived(h[..k], user, window)
              || (h[k].user == user && h[k].Window() == window && Evicted(h[..k], user, window))
  {
    hide Evicted;
    var g := h[..|h| - 1];
    assert forall k :: 0 <= k < |g| ==> g[k] == h[k] && g[..k] == h[..k];
  }

  lemma {:induction false} FirstAttemptsPass(h: seq<Attempt>, user: int, window: nat, perMinute: int)
    requires !Revived(h, user, window)
    ensures Passed(h, user, window, perMinute) == Promised(h, user, window, perMinute)
    decreases |h|
  {
    if h == [] {
    } else {
      hide Revived, Evicted, Live;
      var k := |h| - 1;
      RevivedSnoc(h, user, window);
      FirstAttemptsPass(h[..k], user, window, perMinute);
      LiveIsTotalIffNotEvicted(h[..k], user, window);
    }
  }

  /** With a limit of one the first attempt passes. */
  lemma {:induction false} OnePasses(h: seq<Attempt>, user: int, window: nat)
    requires Total(h, user, window) > 0
    ensures Passed(h, user, window, 1) > 0
    decreases |h|
  {
    var g := h[..|h| - 1];
    LiveIsTotalIffNotEvicted(g, user, window);
    if Total(g, user, window) > 0 {
      OnePasses(g, user, window);
    }
  }

  /** What still counts after an eviction came after it. */
  lemma {:induction false} LiveIsRevived(h: seq<Attempt>, user: int, window: nat)
    requires Evicted(h, user, window) && Live(h, user, window) > 0
    ensures Revived(h, user, window)
    decreases |h|
  {
    var g, a := h[..|h| - 1], h[|h| - 1];
    var i, j :| 0 <= i < j < |h| && h[i].user == user && h[i].Window() == window && h[j].Window() > window;
    assert g[i] == h[i] && g[j] == h[j];
    RevivedSnoc(h, user, window);
    if !(a.user == user && a.Window() == window) {
      LiveIsRevived(g, user, window);
    }
  }

  /** And a revived one passes again. */
  lemma {:induction false} RevivedPassesAgain(h: seq<Attempt>, user: int, window: nat)
    requires Revived(h, user, window)
    ensures Passed(h, user, window, 1) >= 2
    decreases |h|
  {
    assert h != [];
    hide Revived;
    var k := |h| - 1;
    var g := h[..k];
    RevivedSnoc(h, user, window);
    if Revived(g, user, window) {
      RevivedPassesAgain(g, user, window);
    } else {
      if Live(g, user, window) > 0 {
        LiveIsRevived(g, user, window);
        assert false;
      }
      var i, j :| 0 <= i < j < |g| && g[i].user == user && g[i].Window() == window && g[j].Window() > window;
      TotalIsPresence(g, user, window);
      OnePasses(g, user, window);
    }
  }

  /** Exactly the first `perMinute` attempts per user and window pass, whatever the limit, if and only if no attempt of
      that user and window came after some had been evicted. */
  lemma {:induction false} FirstAttemptsPassIff(h: seq<Attempt>, user: int, window: nat)
    ensures (forall limit: int :: Passed(h, user, window, limit) == Promised(h, user, window, limit)) <==>
              !Revived(h, user, window)
  {
    hide Passed, Total, Revived;
    if Revived(h, user, window) {
      RevivedPassesAgain(h, user, window);
      assert Passed(h, user, window, 1) > Promised(h, user, window, 1);
    } else {
      forall limit: int ensures Passed(h, user, window, limit) == Promised(h, user, window, limit) {
        FirstAttemptsPass(h, user, window, limit);
      }
    }
  }

  /** Windows in lock order revive nothing. */
  lemma OrderedRevivesNothing(h: seq<Attempt>, user: int, window: nat)
    requires Ordered(h)
    ensures !Revived(h, user, window)
  {
    forall k | 0 <= k < |h| && h[k].user == user && h[k].Window() == window ensures !Evicted(h[..k], user, window) {
      OrderedEvictsNothing(h, k);
    }
  }

  /** Attempts of `user` let through in the 60 seconds from `start`. */
  function PassedSince(h: seq<Attempt>, user: int, start: nat, perMinute: int): nat {
    if h == [] then 0 else
      var k := |h| - 1;
      (if h[k].user == user && start <= h[k].at < start + 60_000 && Allowed(h, k, perMinute) then 1 else 0)
      + PassedSince(h[..k], user, start, perMinute)
  }

  lemma {:induction false} SixtySecondsSpanTwoWindows(h: seq<Attempt>, user: int, start: nat, perMinute: int)
    ensures PassedSince(h, user, start, perMinute) <=
            Passed(h, user, start / MINUTE, perMinute) + Passed(h, user, start / MINUTE + 1, perMinute)
    decreases |h|
  {
    if h == [] {
    } else {
      SixtySecondsSpanTwoWindows(h[..|h| - 1], user, start, perMinute);
    }
  }

  /** At most twice the limit in any 60 seconds, unless an attempt in one of the two windows came after some there had
      been evicted. */
  lemma {:induction false} AtMostTwiceTheLimit(h: seq<Attempt>, user: int, start: nat, perMinute: int)
    requires !Revived(h, user, start / MINUTE) && !Revived(h, user, start / MINUTE + 1)
    ensures PassedSince(h, user, start, perMinute) <= 2 * Cap(perMinute)
  {
    SixtySecondsSpanTwoWindows(h, user, start, perMinute);
    FirstAttemptsPass(h, user, start / MINUTE, perMinute);
    FirstAttemptsPass(h, user, start / MINUTE + 1, perMinute);
  }

  /** The clock is read before the lock is taken.  A thread that carries an old window past a newer one is counted
      from zero: with a limit of one, user 1 passes twice in minute 0. */
  lemma StaleWindowPassesAgain()
    ensures exists h: seq<Attempt> :: !Ordered(h) && Passed(h, 1, 0, 1) == 2
  {
    var h := [Attempt(1, 59_000), Attempt(2, 60_000), Attempt(1, 59_500)];
    assert h[..2] == [Attempt(1, 59_000), Attempt(2, 60_000)] && h[..2][..1] == [Attempt(1, 59_000)];
    assert h[..2][..1][..0] == [] && h[1].Window() == 1 && h[2].Window() == 0;
    assert Live(h[..2], 1, 0) == 0 && Allowed(h, 2, 1);
    assert Passed(h[..2][..1], 1, 0, 1) == 1;
    assert Passed(h[..2], 1, 0, 1) == 1;
    assert !Ordered(h);
  }

  /** Such an attempt can make it three times the limit: with a limit of one, user 1 passes at 59, 59.5 and 60.1
      seconds. */
  lemma ThriceTheLimit()
    ensures exists h: seq<Attempt> :: Revived(h, 1, 0) && PassedSince(h, 1, 59_000, 1) == 3
  {
    var h := [Attempt(1, 59_000), Attempt(2, 60_000), Attempt(1, 59_500), Attempt(1, 60_100)];
    var g := [Attempt(1, 59_000), Attempt(2, 60_000), Attempt(1, 59_500)];
    assert g[..2] == [Attempt(1, 59_000), Attempt(2, 60_000)] && g[..2][..1] == [Attempt(1, 59_000)];
    assert g[..2][..1][..0] == [] && h[..3] == g && h[..2] == g[..2];
    assert h[0].Window() == h[2].Window() == 0 && h[1].Window() == h[3].Window() == 1;
    assert g[..2][1].Window() == 1 && Evicted(g[..2], 1, 0);
    assert h[2].user == 1 && Revived(h, 1, 0);
    assert Live(g[..2], 1, 0) == 0 && Allowed(g, 2, 1);
    assert Live(g[..2][..1], 1, 1) == 0;
    assert Live(g[..2], 1, 1) == 0;
    assert Live(g, 1, 1) == 0 && Allowed(h, 3, 1);
    assert PassedSince(g[..2][..1], 1, 59_000, 1) == 1;
    assert PassedSince(g[..2], 1, 59_000, 1) == 1;
    assert PassedSince(g, 1, 59_000, 1) == 2;
  }

  // ---------------------------------------------------------------- the burst probe

  /** When the probe starts: at once in the first 40 seconds of a minute, otherwise after a sleep past its end. */
  function BurstStart(now: nat, overslept: nat): (start: nat)
    ensures now % 60_000 <= 40_000 ==> start == now
    ensures now % 60_000 > 40_000 ==> start == (now / 60_000 + 1) * 60_000 + 500 + overslept
  {
    if now % MINUTE > 40_000 then now + 60_500 - now % MINUTE + overslept else now
  }

  lemma BurstStaysInOneWindow(now: nat, overslept: nat, offset: nat)
    requires overslept <= 39_500 && offset < 20_000
    ensures (BurstStart(now, overslept) + offset) / MINUTE == BurstStart(now, overslept) / MINUTE
  {
  }

  lemma {:induction false} NothingLater(h: seq<Attempt>, user: int, window: nat)
    requires forall k :: 0 <= k < |h| ==> h[k].Window() <= window
    ensures Live(h, user, window) == Total(h, user, window)
  {
    LiveIsTotalIffNotEvicted(h, user, window);
  }

  lemma {:induction false} TotalSnoc(h: seq<Attempt>, a: Attempt, user: int, window: nat)
    ensures Total(h + [a], user, window) ==
            Total(h, user, window) + if a.user == user && a.Window() == window then 1 else 0
  {
    assert (h + [a])[..|h|] == h;
  }

  /** `check_http_burst` against an otherwise healthy checkout: sequential requests of one user, stopping at the first
      refusal.  It passes exactly when the attempts already counted in that window plus the burst fit the limit. */
  method HttpBurst(limiter: Limiter, user: int, now: nat, overslept: nat, offsets: seq<nat>) returns (ok: bool)
    requires limiter.Valid()
    requires offsets != [] && overslept <= 39_500 && forall i :: 0 <= i < |offsets| ==> offsets[i] < 20_000
    requires forall i :: 0 <= i < |limiter.history| ==>
                           limiter.history[i].Window() <= BurstStart(now, overslept) / MINUTE
    modifies limiter
    ensures limiter.Valid()
    ensures ok <==>
              Total(old(limiter.history), user, BurstStart(now, overslept) / MINUTE) + |offsets| <= limiter.perMinute
  {
    hide Live, Total, BurstStart;
    var start := BurstStart(now, overslept);
    ghost var window, before := start / MINUTE, limiter.history;
    ghost var prior := Total(before, user, window);
    for i := 0 to |offsets|
      invariant limiter.Valid()
      invariant forall k :: 0 <= k < |limiter.history| ==> limiter.history[k].Window() <= window
      invariant Total(limiter.history, user, window) == prior + i
      invariant i > 0 ==> prior + i <= limiter.perMinute
    {
      var a := Attempt(user, start + offsets[i]);
      BurstStaysInOneWindow(now, overslept, offsets[i]);
      assert a.Window() == window;
      ghost var h := limiter.history;
      NothingLater(h, user, window);
      var allowed := limiter.Allow(a);
      TotalSnoc(h, a, user, window);
      if !allowed {
        return false;
      }
    }
    return true;
  }
}
