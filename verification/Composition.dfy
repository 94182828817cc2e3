/** Two faults in one world: the merged incident and the merged check lists against those of the two members. */
module FaultComposition {
  import opened Options

  const SECOND := 1_000_000

  // ---------------------------------------------------------------- incidents

  /** Times and durations are microseconds. */
  datatype Override = Override(error: string, since: Option<int>)
  datatype Burst = Burst(period: int, offset: int, duration: int, since: Option<int>, endpoints: Option<set<string>>)
  datatype Incident = Incident(at: int, failing: set<string>, errors: map<string, Override>, burst: Option<Burst>)

  /** A text time stamp has no fraction of a second. */
  function Iso(t: int): (s: int)
    ensures s <= t < s + 1_000_000 && s % 1_000_000 == 0
  {
    t / SECOND * SECOND
  }

  predicate Periodic(i: Incident) {
    i.burst.Some? ==> i.burst.value.period > 0
  }

  predicate InPhase(b: Burst, start: int, ts: int)
    requires b.period > 0
  {
    b.offset <= (ts - start) % b.period < b.offset + b.duration
  }

  function Since(own: Option<int>, default: int): int {
    if own.Some? then own.value else default
  }

  function Scope(b: Burst, default: set<string>): set<string> {
    if b.endpoints.Some? then b.endpoints.value else default
  }

  /** Is an endpoint failing at a time, and with which override? */
  function EndpointState(inc: Incident, ts: int, key: string): (bool, Option<Override>)
    requires Periodic(inc)
  {
    if key !in inc.failing then (false, None) else
      var override := if key in inc.errors then Some(inc.errors[key]) else None;
      var since := if override.Some? then Since(override.value.since, inc.at) else inc.at;
      var failing :=
        if ts >= since && inc.burst.Some? && key in Scope(inc.burst.value, inc.failing)
        then InPhase(inc.burst.value, Since(inc.burst.value.since, inc.at), ts)
        else ts >= since;
      (failing, if failing then override else None)
  }

  /** The endpoint has an override with a start time of its own. */
  predicate HasOwnStart(inc: Incident, key: string) {
    key in inc.errors && inc.errors[key].since.Some?
  }

  /** The burst is about the endpoint. */
  predicate Bursting(inc: Incident, key: string) {
    inc.burst.Some? && (inc.burst.value.endpoints.Some? ==> key in inc.burst.value.endpoints.value)
  }

  /** In the `n`-th period after `start`, between the burst's offset and the end of its duration. */
  predicate InStretch(b: Burst, start: int, n: int, ts: int) {
    var t := ts - (start + n * b.period);
    0 <= t < b.period && b.offset <= t && t - b.offset < b.duration
  }

  lemma PhaseIsStretch(b: Burst, start: int, ts: int)
    requires b.period > 0
    ensures InPhase(b, start, ts) <==> exists n: int :: InStretch(b, start, n, ts)
  {
    var d := ts - start;
    if InPhase(b, start, ts) {
      assert d == d / b.period * b.period + d % b.period;
      assert InStretch(b, start, d / b.period, ts);
    }
    if n: int :| InStretch(b, start, n, ts) {
      Phase(n, b.period, d - n * b.period);
    }
  }

  /** When an endpoint fails: never unless it is named; not before its onset; from then on always, or with a burst in
      one stretch of every period.  The override is told only while it fails. */
  lemma FailsIff(inc: Incident, ts: int, key: string)
    requires Periodic(inc)
    ensures var (fails, override) := EndpointState(inc, ts, key);
            var onset := if HasOwnStart(inc, key) then inc.errors[key].since.value else inc.at;
            && (fails ==> key in inc.failing && onset <= ts)
            && (key in inc.failing && onset <= ts && !Bursting(inc, key) ==> fails)
            && (key in inc.failing && onset <= ts && Bursting(inc, key) ==>
                  var b := inc.burst.value;
                  var start := if b.since.Some? then b.since.value else inc.at;
                  fails <==> exists n: int :: InStretch(b, start, n, ts))
            && (override.Some? <==> fails && key in inc.errors)
            && (override.Some? ==> override.value == inc.errors[key])
  {
    if inc.burst.Some? {
      PhaseIsStretch(inc.burst.value, Since(inc.burst.value.since, inc.at), ts);
    }
    hide InPhase, InStretch;
  }

  // ---------------------------------------------------------------- the merge

  function Stamped(inc: Incident): map<string, Override> {
    map ep | ep in inc.errors :: inc.errors[ep].(since := Some(Iso(inc.at)))
  }

  function ScopedBurst(inc: Incident): Option<Burst> {
    if inc.burst.None? then None
    else Some(inc.burst.value.(since := Some(Iso(inc.at)), endpoints := Some(inc.failing)))
  }

  function Merged(a: Incident, b: Incident): Incident {
    Incident(if a.at <= b.at then a.at else b.at, a.failing + b.failing, Stamped(a) + Stamped(b),
             if b.burst.Some? then ScopedBurst(b) else ScopedBurst(a))
  }

  /** One member's overrides, each with the member's onset; later members win. */
  method Stamp(inc: Incident, errors: map<string, Override>) returns (out: map<string, Override>)
    ensures out == errors + Stamped(inc)
  {
    hide Iso, StampedBut;
    out := errors;
    var todo := inc.errors.Keys;
    NoneStamped(inc, errors);
    while todo != {}
      invariant todo <= inc.errors.Keys && out == errors + StampedBut(inc, todo)
      decreases |todo|
    {
      var ep :| ep in todo;
      StampOne(inc, errors, todo, ep);
      out := out[ep := inc.errors[ep].(since := Some(Iso(inc.at)))];
      todo := todo - {ep};
    }
    AllStamped(inc);
  }

  function StampedBut(inc: Incident, todo: set<string>): map<string, Override> {
    map ep | ep in inc.errors && ep !in todo :: inc.errors[ep].(since := Some(Iso(inc.at)))
  }

  lemma NoneStamped(inc: Incident, errors: map<string, Override>)
    ensures errors + StampedBut(inc, inc.errors.Keys) == errors
  {
  }

  lemma StampOne(inc: Incident, errors: map<string, Override>, todo: set<string>, ep: string)
    requires todo <= inc.errors.Keys && ep in todo
    ensures (errors + StampedBut(inc, todo))[ep := inc.errors[ep].(since := Some(Iso(inc.at)))]
         == errors + StampedBut(inc, todo - {ep})
  {
    hide Iso;
  }

  lemma AllStamped(inc: Incident)
    ensures StampedBut(inc, {}) == Stamped(inc)
  {
    hide Iso;
  }

  method Merge(a: Incident, b: Incident) returns (m: Incident)
    ensures m == Merged(a, b)
  {
    hide Iso, Stamped;
    var members := [a, b];
    var errors: map<string, Override>, burst: Option<Burst> := map[], None;
    for i := 0 to 2
      invariant errors == if i == 0 then map[] else if i == 1 then map[] + Stamped(a)
                          else map[] + Stamped(a) + Stamped(b)
      invariant burst == if i == 0 then None else if i == 1 then ScopedBurst(a) else Merged(a, b).burst
    {
      var inc := members[i];
      errors := Stamp(inc, errors);
      if inc.burst.Some? {
        burst := Some(inc.burst.value.(since := Some(Iso(inc.at)), endpoints := Some(inc.failing)));
      }
    }
    assert map[] + Stamped(a) == Stamped(a);
    m := Incident(if a.at <= b.at then a.at else b.at, a.failing + b.failing, errors, burst);
  }

  // ---------------------------------------------------------------- what the merge should mean

  /** The templates give every failing endpoint an override, and leave start times and burst scope to the incident. */
  predicate Regular(inc: Incident) {
    && inc.errors.Keys == inc.failing && Periodic(inc)
    && (forall ep :: ep in inc.errors ==> inc.errors[ep].since.None?)
    && (inc.burst.Some? ==> inc.burst.value.since.None? && inc.burst.value.endpoints.None?)
  }

  /** The member with its onset rounded down to the second. */
  function Rounded(inc: Incident): Incident {
    inc.(at := Iso(inc.at), errors := Stamped(inc))
  }

  /** The last member that overrides the endpoint decides. */
  function ByMembers(a: Incident, b: Incident, ts: int, key: string): (bool, Option<Override>)
    requires Periodic(a) && Periodic(b)
  {
    EndpointState(Rounded(if key in b.errors then b else a), ts, key)
  }

  /** The merged incident carries one burst: it must not reach an endpoint of the other member, nor leave one of its
      own member's endpoints without it. */
  predicate BurstsCompatible(a: Incident, b: Incident) {
    a.burst.Some? ==> if b.burst.Some? then a.failing <= b.failing else a.failing * b.failing == {}
  }

  lemma MergePreservesStates(a: Incident, b: Incident, ts: int, key: string)
    requires Regular(a) && Regular(b) && BurstsCompatible(a, b)
    ensures EndpointState(Merged(a, b), ts, key) == ByMembers(a, b, ts, key)
  {
    hide Iso;
    assert key in a.failing * b.failing <==> key in a.failing && key in b.failing;
  }

  /** The burst pauses somewhere in its period. */
  predicate Intermittent(b: Burst) {
    b.period > 0 && b.offset >= 0 && (b.offset > 0 || b.offset + b.duration < b.period)
  }

  /** A time after `from` at which the burst pauses. */
  lemma Pause(b: Burst, start: int, from: int) returns (ts: int)
    requires Intermittent(b)
    ensures ts >= from && !InPhase(b, start, ts)
  {
    var phase := if b.offset > 0 then 0 else b.period - 1;
    var d := from - start;
    var n := d / b.period + 1;
    ts := start + n * b.period + phase;
    assert d == d / b.period * b.period + d % b.period;
    assert n * b.period == d / b.period * b.period + b.period;
    Phase(n, b.period, phase);
  }

  lemma Phase(n: int, p: int, r: int)
    requires p > 0 && 0 <= r < p
    ensures (n * p + r) % p == r
  {
    var q := (n * p + r) / p;
    var r' := (n * p + r) % p;
    assert (n - q) * p == r' - r;
    if n > q {
      Multiple(n - q, p);
    } else if n < q {
      Multiple(q - n, p);
    }
  }

  lemma Multiple(k: int, p: int)
    requires k > 0 && p > 0
    ensures k * p >= p
  {
  }

  /** The merge means what its members mean, on every endpoint and at every time, exactly when their bursts are
      compatible; in particular whenever only the second member has one. */
  lemma MergeFaithfulIff(a: Incident, b: Incident)
    requires Regular(a) && Regular(b)
    requires a.burst.Some? ==> Intermittent(a.burst.value)
    ensures Periodic(Merged(a, b))
    ensures (forall key, ts :: EndpointState(Merged(a, b), ts, key) == ByMembers(a, b, ts, key)) <==>
              BurstsCompatible(a, b)
  {
    if BurstsCompatible(a, b) {
      forall key, ts ensures EndpointState(Merged(a, b), ts, key) == ByMembers(a, b, ts, key) {
        MergePreservesStates(a, b, ts, key);
      }
    } else {
      var key, ts := Clash(a, b);
      assert EndpointState(Merged(a, b), ts, key) != ByMembers(a, b, ts, key);
    }
  }

  /** An endpoint and a time at which incompatible bursts tell. */
  lemma Clash(a: Incident, b: Incident) returns (key: string, ts: int)
    requires Regular(a) && Regular(b) && !BurstsCompatible(a, b) && Intermittent(a.burst.value)
    ensures EndpointState(Merged(a, b), ts, key) != ByMembers(a, b, ts, key)
  {
    if b.burst.Some? {
      key :| key in a.failing && key !in b.failing;
      ts := Pause(a.burst.value, Iso(a.at), Iso(a.at));
    } else {
      key :| key in a.failing * b.failing;
      ts := Pause(a.burst.value, Iso(a.at), Iso(b.at));
    }
  }

  /** The merged incident is that of both members, from the earlier onset on. */
  lemma MergedFacts(a: Incident, b: Incident, key: string)
    ensures var m := Merged(a, b);
            && m.at <= a.at && m.at <= b.at && m.at in {a.at, b.at}
            && (key in m.failing <==> key in a.failing || key in b.failing)
            && (key in m.errors <==> key in a.errors || key in b.errors)
  {
  }

  /** What rounding the onset changes: a member without a burst fails earlier by the fraction of a second, and in no
      other way. */
  lemma RoundingMovesTheOnset(inc: Incident, ts: int, key: string)
    requires Regular(inc) && inc.burst.None?
    ensures EndpointState(Rounded(inc), ts, key).0 != EndpointState(inc, ts, key).0 <==>
              key in inc.failing && Iso(inc.at) <= ts < inc.at
  {
  }

  // ---------------------------------------------------------------- check lists

  datatype Check =
    | FilesUnchanged(name: string, files: seq<string>)
    | Other(name: string, kind: string, params: string)

  /** What a check asserts, whatever it is called. */
  datatype Claim = Files(files: seq<string>) | Assertion(kind: string, params: string)

  function ClaimOf(c: Check): Claim {
    match c
    case FilesUnchanged(_, files) => Files(files)
    case Other(_, kind, params) => Assertion(kind, params)
  }

  function Claims(cs: seq<Check>): set<Claim> {
    set c | c in cs :: ClaimOf(c)
  }

  /** Checks of the same claim after the first are dropped; the source compares a digest of the claim. */
  function Dedupe(checks: seq<Check>): seq<Check> {
    if checks == [] then [] else
      var init, c := checks[..|checks| - 1], checks[|checks| - 1];
      Dedupe(init) + if ClaimOf(c) in Claims(init) then [] else [c]
  }

  method DedupeChecks(checks: seq<Check>) returns (out: seq<Check>)
    ensures out == Dedupe(checks)
  {
    var seen: set<Claim> := {};
    out := [];
    for k := 0 to |checks|
      invariant seen == Claims(checks[..k]) && out == Dedupe(checks[..k])
    {
      var c := checks[k];
      assert checks[..k + 1] == checks[..k] + [c];
      ClaimsSnoc(checks[..k], c);
      assert checks[..k + 1][..k] == checks[..k];
      if ClaimOf(c) !in seen {
        seen := seen + {ClaimOf(c)};
        out := out + [c];
      }
    }
    assert checks[..|checks|] == checks;
  }

  lemma ClaimsSnoc(cs: seq<Check>, c: Check)
    ensures Claims(cs + [c]) == Claims(cs) + {ClaimOf(c)}
  {
  }

  lemma ClaimsOfAll(checks: seq<Check>)
    ensures forall i :: 0 <= i < |checks| ==> ClaimOf(checks[i]) in Claims(checks)
  {
    assert forall i :: 0 <= i < |checks| ==> checks[i] in checks;
  }

  /** Deduplication keeps exactly the claims, each once. */
  lemma {:induction false} DedupeKeepsClaims(checks: seq<Check>)
    ensures Claims(Dedupe(checks)) == Claims(checks)
    ensures forall i, j :: 0 <= i < j < |Dedupe(checks)| ==> ClaimOf(Dedupe(checks)[i]) != ClaimOf(Dedupe(checks)[j])
    decreases |checks|
  {
    if checks == [] {
    } else {
      var init, c := checks[..|checks| - 1], checks[|checks| - 1];
      DedupeKeepsClaims(init);
      assert checks == init + [c];
      ClaimsSnoc(init, c);
      ClaimsSnoc(Dedupe(init), c);
      var d := Dedupe(init);
      ClaimsOfAll(d);
      hide Claims, ClaimOf;
      assert Dedupe(checks) == d + if ClaimOf(c) in Claims(init) then [] else [c];
    }
  }

  /** The check kept for a claim is the first one, and the kept ones stay in order. */
  lemma {:induction false} DedupeKeepsFirst(checks: seq<Check>) returns (at: seq<nat>)
    ensures Firsts(checks, Dedupe(checks), at)
    decreases |checks|
  {
    at := [];
    if checks != [] {
      hide Claims, ClaimOf, Firsts;
      var init, c := checks[..|checks| - 1], checks[|checks| - 1];
      at := DedupeKeepsFirst(init);
      FirstsSnoc(checks, Dedupe(init), at);
      if ClaimOf(c) !in Claims(init) {
        at := at + [|init|];
      } else {
        assert Dedupe(init) + [] == Dedupe(init);
      }
    }
  }

  /** No check before the `k`-th makes its claim. */
  predicate IsFirst(checks: seq<Check>, k: nat) {
    k < |checks| && forall i :: 0 <= i < k ==> ClaimOf(checks[i]) != ClaimOf(checks[k])
  }

  predicate Firsts(checks: seq<Check>, kept: seq<Check>, at: seq<nat>) {
    && |at| == |kept| && (forall i, j :: 0 <= i < j < |at| ==> at[i] < at[j])
    && (forall i :: 0 <= i < |at| ==> IsFirst(checks, at[i]) && kept[i] == checks[at[i]])
  }

  lemma FirstsSnoc(checks: seq<Check>, kept: seq<Check>, at: seq<nat>)
    requires checks != [] && Firsts(checks[..|checks| - 1], kept, at)
    ensures Firsts(checks, kept, at)
    ensures var init, c := checks[..|checks| - 1], checks[|checks| - 1];
            ClaimOf(c) !in Claims(init) ==> Firsts(checks, kept + [c], at + [|init|])
  {
    var init, c := checks[..|checks| - 1], checks[|checks| - 1];
    ClaimsOfAll(init);
    hide Claims, ClaimOf;
    assert forall k :: 0 <= k < |init| ==> init[k] == checks[k];
    forall i | 0 <= i < |at| ensures IsFirst(checks, at[i]) {
      assert IsFirst(init, at[i]);
    }
    if ClaimOf(c) !in Claims(init) {
      assert IsFirst(checks, |init|);
    }
  }

  /** `==` or a file-name pattern, which is library code. */
  type Glob = (string, string) -> bool

  predicate Allowed(glob: Glob, f: string, allow: seq<string>) {
    exists a :: a in allow && (f == a || glob(f, a))
  }

  function Kept(glob: Glob, files: seq<string>, allow: seq<string>): seq<string> {
    if files == [] then [] else
      Kept(glob, files[..|files| - 1], allow)
      + if Allowed(glob, files[|files| - 1], allow) then [] else [files[|files| - 1]]
  }

  /** One check of a member as it enters the merged list: renamed, its guarded files shrunk, or dropped. */
  function PrefixedOne(glob: Glob, c: Check, tag: string, allow: seq<string>): seq<Check> {
    match c
    case FilesUnchanged(name, files) =>
      if Kept(glob, files, allow) == [] then [] else [FilesUnchanged(tag + ":" + name, Kept(glob, files, allow))]
    case Other(name, kind, params) => [Other(tag + ":" + name, kind, params)]
  }

  function Prefixed(glob: Glob, checks: seq<Check>, tag: string, allow: seq<string>): seq<Check> {
    if checks == [] then [] else
      Prefixed(glob, checks[..|checks| - 1], tag, allow) + PrefixedOne(glob, checks[|checks| - 1], tag, allow)
  }

  method KeepFiles(glob: Glob, files: seq<string>, allow: seq<string>) returns (kept: seq<string>)
    ensures kept == Kept(glob, files, allow)
  {
    hide Allowed;
    kept := [];
    for i := 0 to |files|
      invariant kept == Kept(glob, files[..i], allow)
    {
      assert files[..i + 1][..i] == files[..i];
      if !Allowed(glob, files[i], allow) {
        kept := kept + [files[i]];
      }
    }
    assert files[..|files|] == files;
  }

  method PrefixChecks(glob: Glob, checks: seq<Check>, tag: string, allow: seq<string>) returns (out: seq<Check>)
    ensures out == Prefixed(glob, checks, tag, allow)
  {
    hide Kept;
    out := [];
    for k := 0 to |checks|
      invariant out == Prefixed(glob, checks[..k], tag, allow)
    {
      assert checks[..k + 1][..k] == checks[..k];
      var c := checks[k];
      if c.FilesUnchanged? {
        var kept := KeepFiles(glob, c.files, allow);
        if kept == [] {
          continue;
        }
        out := out + [FilesUnchanged(tag + ":" + c.name, kept)];
      } else {
        out := out + [Other(tag + ":" + c.name, c.kind, c.params)];
      }
    }
    assert checks[..|checks|] == checks;
  }

  /** The state of the world, as far as checks see it. */
  datatype Observed = Observed(intact: string -> bool, holds: (string, string) -> bool)

  predicate Holds(w: Observed, claim: Claim) {
    match claim
    case Files(files) => forall f :: f in files ==> w.intact(f)
    case Assertion(kind, params) => w.holds(kind, params)
  }

  predicate AllPass(w: Observed, checks: seq<Check>) {
    forall i :: 0 <= i < |checks| ==> Holds(w, ClaimOf(checks[i]))
  }

  /** A check holds apart from guarded files that the sibling may change. */
  predicate HoldsDespite(w: Observed, glob: Glob, c: Check, allow: seq<string>) {
    match c
    case FilesUnchanged(_, files) =>
      forall f :: f in files && (forall a :: a in allow ==> f != a && !glob(f, a)) ==> w.intact(f)
    case Other(_, kind, params) => w.holds(kind, params)
  }

  predicate PassesDespite(w: Observed, glob: Glob, checks: seq<Check>, allow: seq<string>) {
    forall i :: 0 <= i < |checks| ==> HoldsDespite(w, glob, checks[i], allow)
  }

  lemma {:induction false} KeptFiles(glob: Glob, files: seq<string>, allow: seq<string>)
    ensures forall f :: f in Kept(glob, files, allow) <==> f in files && !Allowed(glob, f, allow)
    decreases |files|
  {
    hide Allowed;
    if files == [] {
    } else {
      KeptFiles(glob, files[..|files| - 1], allow);
      assert files == files[..|files| - 1] + [files[|files| - 1]];
    }
  }

  lemma AllPassConcat(w: Observed, a: seq<Check>, b: seq<Check>)
    ensures AllPass(w, a + b) <==> AllPass(w, a) && AllPass(w, b)
  {
    hide Holds;
    var c := a + b;
    assert forall i :: 0 <= i < |a| ==> c[i] == a[i];
    assert forall i :: 0 <= i < |b| ==> c[|a| + i] == b[i];
  }

  lemma OnePasses(w: Observed, glob: Glob, c: Check, tag: string, allow: seq<string>)
    ensures AllPass(w, PrefixedOne(glob, c, tag, allow)) <==> HoldsDespite(w, glob, c, allow)
  {
    hide Kept;
    if c.FilesUnchanged? {
      KeptFiles(glob, c.files, allow);
    }
    var one := PrefixedOne(glob, c, tag, allow);
    assert AllPass(w, one) <==> (one == [] || Holds(w, ClaimOf(one[0])));
  }

  lemma {:induction false} PrefixedPasses(w: Observed, glob: Glob, checks: seq<Check>, tag: string, allow: seq<string>)
    ensures AllPass(w, Prefixed(glob, checks, tag, allow)) <==> PassesDespite(w, glob, checks, allow)
    decreases |checks|
  {
    if checks == [] {
    } else {
      var init, c := checks[..|checks| - 1], checks[|checks| - 1];
      hide HoldsDespite, AllPass, PrefixedOne;
      PrefixedPasses(w, glob, init, tag, allow);
      AllPassConcat(w, Prefixed(glob, init, tag, allow), PrefixedOne(glob, c, tag, allow));
      OnePasses(w, glob, c, tag, allow);
      assert forall i :: 0 <= i < |init| ==> init[i] == checks[i];
      assert checks == init + [c];
    }
  }

  /** A renamed check is one of the member's: its name is the tag, a colon and the name it had; none guards no file. */
  lemma {:induction false} PrefixedNames(glob: Glob, checks: seq<Check>, tag: string, allow: seq<string>)
    ensures forall c :: c in Prefixed(glob, checks, tag, allow) ==>
                          && (exists d :: d in checks && c.name == tag + ":" + d.name && c.Other? == d.Other?)
                          && (c.FilesUnchanged? ==> c.files != [])
    decreases |checks|
  {
    if checks == [] {
    } else {
      hide Kept;
      var init, d := checks[..|checks| - 1], checks[|checks| - 1];
      PrefixedNames(glob, init, tag, allow);
      assert checks == init + [d];
    }
  }

  /** The merged list passes exactly when both members' lists do, each without the files its sibling may change. */
  lemma {:induction false} MergedListPassesIff(w: Observed, glob: Glob, a: seq<Check>, tagA: string,
                                               allowA: seq<string>, b: seq<Check>, tagB: string, allowB: seq<string>)
    ensures AllPass(w, Dedupe(Prefixed(glob, a, tagA, allowB) + Prefixed(glob, b, tagB, allowA)))
            <==> PassesDespite(w, glob, a, allowB) && PassesDespite(w, glob, b, allowA)
  {
    hide PassesDespite, Prefixed, Dedupe, Claims, Holds;
    var all := Prefixed(glob, a, tagA, allowB) + Prefixed(glob, b, tagB, allowA);
    PrefixedPasses(w, glob, a, tagA, allowB);
    PrefixedPasses(w, glob, b, tagB, allowA);
    AllPassConcat(w, Prefixed(glob, a, tagA, allowB), Prefixed(glob, b, tagB, allowA));
    DedupeKeepsClaims(all);
    SameClaims(w, Dedupe(all), all);
  }

  lemma SameClaims(w: Observed, a: seq<Check>, b: seq<Check>)
    requires Claims(a) == Claims(b)
    ensures AllPass(w, a) <==> AllPass(w, b)
  {
    ClaimsDecide(w, a);
    ClaimsDecide(w, b);
    hide Claims, Holds;
  }

  lemma ClaimsDecide(w: Observed, a: seq<Check>)
    ensures AllPass(w, a) <==> forall x :: x in Claims(a) ==> Holds(w, x)
  {
  }
}

/** The verdict: three criteria, each a list of checks that are all run, and the reward they earn. */
module Verdicts {

  /** A check that raises is a failed check. */
  datatype Outcome = Passed | Failed | Crashed

  datatype Verdict = Verdict(symptom: bool, root: bool, collateral: bool, reward: real, success: bool,
                             results: seq<bool>)

  function Reward(symptom: bool, root: bool, collateral: bool): real {
    if symptom && root && collateral then 1.0
    else ((if symptom then 0.3 else 0.0) + (if root then 0.7 else 0.0)) * if collateral then 1.0 else 0.5
  }

  predicate AllPassed(outcomes: seq<Outcome>) {
    forall i :: 0 <= i < |outcomes| ==> outcomes[i] == Passed
  }

  function Flags(outcomes: seq<Outcome>): (flags: seq<bool>)
    ensures |flags| == |outcomes| && forall i :: 0 <= i < |outcomes| ==> (flags[i] <==> outcomes[i].Passed?)
  {
    seq(|outcomes|, i requires 0 <= i < |outcomes| => outcomes[i] == Passed)
  }

  method RunChecks(outcomes: seq<Outcome>) returns (ok: bool, results: seq<bool>)
    ensures ok <==> AllPassed(outcomes)
    ensures results == Flags(outcomes)
  {
    ok, results := true, [];
    for k := 0 to |outcomes|
      invariant results == Flags(outcomes)[..k]
      invariant ok <==> AllPassed(outcomes[..k])
    {
      var passed := outcomes[k] == Passed;
      results := results + [passed];
      ok := ok && passed;
    }
  }

  lemma OutcomesConcat(a: seq<Outcome>, b: seq<Outcome>)
    ensures AllPassed(a + b) <==> AllPassed(a) && AllPassed(b)
    ensures Flags(a + b) == Flags(a) + Flags(b)
  {
    var all := a + b;
    assert forall i :: 0 <= i < |a| ==> all[i] == a[i];
    assert forall i :: 0 <= i < |b| ==> all[|a| + i] == b[i];
  }

  /** No check is skipped, even after a failure. */
  method Run(symptom: seq<Outcome>, root: seq<Outcome>, collateral: seq<Outcome>) returns (v: Verdict)
    ensures v.symptom == AllPassed(symptom) && v.root == AllPassed(root) && v.collateral == AllPassed(collateral)
    ensures v.success <==> AllPassed(symptom + root + collateral)
    ensures v.reward == Reward(v.symptom, v.root, v.collateral)
    ensures v.results == Flags(symptom + root + collateral)
  {
    var s, rs := RunChecks(symptom);
    var r, rr := RunChecks(root);
    var c, rc := RunChecks(collateral);
    hide AllPassed, Flags, Reward;
    v := Verdict(s, r, c, Reward(s, r, c), s && r && c, rs + rr + rc);
    OutcomesConcat(symptom, root);
    OutcomesConcat(symptom + root, collateral);
  }

  /** What each criterion earns: the two fixes add up, and collateral damage halves. */
  lemma RewardAddsUp(s: bool, r: bool)
    ensures Reward(true, false, true) == 0.3 && Reward(false, true, true) == 0.7
    ensures Reward(s, r, true) == Reward(s, false, true) + Reward(false, r, true)
    ensures Reward(s, r, true) == Reward(s, r, false) + Reward(s, r, false)
  {
  }

  /** The reward tells the outcome apart, except that collateral damage does not show when nothing was fixed. */
  lemma RewardTellsTheOutcome(s: bool, r: bool, c: bool, s': bool, r': bool, c': bool)
    ensures Reward(s, r, c) == Reward(s', r', c') <==> (s == s' && r == r' && (c == c' || (!s && !r)))
    ensures Reward(s, r, c) == 1.0 <==> s && r && c
    ensures 0.0 <= Reward(s, r, c) <= 1.0
  {
  }
}
