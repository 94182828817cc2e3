/** The production layout, and what a write interrupted in the middle of it leaves the service with. */
module TruncatedEnv {
  import opened Options
  import opened Text
  import opened EnvFile

  function Application(): Group {
    Group("# --- application", ["APP_NAME", "APP_ENV", "APP_HOST", "APP_PORT"])
  }

  function Databases(): Group {
    Group("# --- databases", ["DATABASE_URL", "LEDGER_DATABASE_URL", "DATABASE_TIMEOUT_SECONDS", "DATABASE_MAX_PAGES"])
  }

  function Payments(): Group {
    Group("# --- payments",
          ["PAYMENT_GATEWAY_URL", "PAYMENT_GATEWAY_TIMEOUT_MS", "PAYMENT_GATEWAY_MODE", "CART_TTL_MINUTES"])
  }

  function Logging(): Group {
    Group("# --- logging", ["LOG_PATH", "LOG_LEVEL"])
  }

  function Limits(): Group {
    Group("# --- limits", ["RATE_LIMIT_PER_MINUTE"])
  }

  function Secrets(): Group {
    Group("# --- secrets " + "(rotate quarterly)", ["SESSION_SECRET"])
  }

  function Webhook(): Group {
    Group("# --- payments webhook (secret is " + "SHARED with the gateway -- " + "rotate only in a coordinated change)",
          ["WEBHOOK_SIGNING_SECRET"])
  }

  function Layout(): seq<Group> {
    [Application(), Databases()] + [Payments(), Logging(), Limits(), Secrets(), Webhook()]
  }

  /** The two comment lines above the layout, the first of which names the service. */
  function Header(service: string): seq<string> {
    ["# " + service + " -- production configuration",
     "# Managed in git; deploy-bot ships " + "this file to prod hosts " + "and restarts the service."]
  }

  /** A service name that fits on a line and does not make the title look like the databases header. */
  predicate Named(service: string) {
    SingleLine(service) && !(Prefix(DatabasesLost) <= Header(service)[0])
  }

  // ---------------------------------------------------------------- the layout satisfies the printer's assumptions

  lemma GoodFirstKeys()
    ensures GoodKey("APP_NAME") && GoodKey("APP_ENV") && GoodKey("APP_HOST") && GoodKey("APP_PORT")
    ensures GoodKey("LOG_PATH") && GoodKey("LOG_LEVEL") && GoodKey("SESSION_SECRET")
  {
  }

  lemma GoodDatabaseKeys()
    ensures GoodKey("DATABASE_URL") && GoodKey("LEDGER_DATABASE_URL")
    ensures GoodKey("DATABASE_TIMEOUT_SECONDS") && GoodKey("DATABASE_MAX_PAGES")
  {
  }

  lemma GoodPaymentKeys()
    ensures GoodKey("PAYMENT_GATEWAY_URL") && GoodKey("PAYMENT_GATEWAY_TIMEOUT_MS")
    ensures GoodKey("PAYMENT_GATEWAY_MODE") && GoodKey("CART_TTL_MINUTES")
  {
  }

  lemma GoodOtherKeys()
    ensures GoodKey("RATE_LIMIT_PER_MINUTE") && GoodKey("WEBHOOK_SIGNING_SECRET")
  {
  }

  predicate AsciiHash(s: string) {
    Ascii(s) && s != "" && s[0] == '#'
  }

  lemma GoodComments()
    ensures AsciiHash(Application().header) && AsciiHash(Databases().header) && AsciiHash(Payments().header)
    ensures AsciiHash(Logging().header) && AsciiHash(Limits().header)
  {
  }

  lemma GoodSecretsComment()
    ensures AsciiHash(Secrets().header)
  {
  }

  lemma ThreePieces(a: string, b: string, c: string)
    requires AsciiHash(a) && Ascii(b) && Ascii(c)
    ensures AsciiHash(a + b + c)
  {
  }

  lemma WebhookPieces()
    ensures AsciiHash("# --- payments webhook (secret is ")
    ensures Ascii("SHARED with the gateway -- ")
  {
  }

  lemma TitleIsComment(service: string)
    requires SingleLine(service)
    ensures SingleLine(Header(service)[0]) && Header(service)[0] != "" && Header(service)[0][0] == '#'
  {
    var title, end := Header(service)[0], " -- production configuration";
    forall i | 0 <= i < |title| ensures !IsBreak(title[i]) {
      if 2 <= i < 2 + |service| {
        assert title[i] == service[i - 2];
      } else if i >= 2 {
        assert title[i] == end[i - 2 - |service|];
      }
    }
  }

  lemma ManagedPieces()
    ensures AsciiHash("# Managed in git; deploy-bot ships ")
  {
  }

  lemma GoodTexts()
    ensures AsciiHash(Webhook().header) && forall service :: AsciiHash(Header(service)[1])
  {
    hide Ascii, AsciiHash;
    WebhookPieces();
    ThreePieces("# --- payments webhook (secret is ", "SHARED with the gateway -- ",
                "rotate only in a coordinated change)");
    ManagedPieces();
    ThreePieces("# Managed in git; deploy-bot ships ", "this file to prod hosts ", "and restarts the service.");
  }

  lemma GroupIsGood(g: Group)
    requires AsciiHash(g.header) && forall k :: 0 <= k < |g.keys| ==> GoodKey(g.keys[k])
    ensures GoodGroup(g)
  {
  }

  lemma FirstGroups()
    ensures GoodGroup(Application()) && GoodGroup(Databases()) && GoodGroup(Payments())
  {
    hide GoodKey, AsciiHash, GoodGroup;
    GoodFirstKeys();
    GoodDatabaseKeys();
    GoodPaymentKeys();
    GoodComments();
    GroupIsGood(Application());
    GroupIsGood(Databases());
    GroupIsGood(Payments());
  }

  lemma LastGroups()
    ensures GoodGroup(Logging()) && GoodGroup(Limits()) && GoodGroup(Secrets()) && GoodGroup(Webhook())
  {
    hide GoodKey, AsciiHash, GoodGroup;
    GoodFirstKeys();
    GoodOtherKeys();
    GoodComments();
    GoodSecretsComment();
    GoodTexts();
    GroupIsGood(Logging());
    GroupIsGood(Limits());
    GroupIsGood(Secrets());
    GroupIsGood(Webhook());
  }

  lemma LayoutIsGood(service: string)
    requires SingleLine(service)
    ensures GoodLayout(Layout()) && Title(Header(service))
  {
    hide GoodGroup, AsciiHash, Header, Application, Databases, Payments, Logging, Limits, Secrets, Webhook;
    FirstGroups();
    LastGroups();
    GoodTexts();
    TitleIsComment(service);
    TwoLines(service);
    HashIsComment(Header(service)[1]);
  }

  lemma HashIsComment(s: string)
    requires AsciiHash(s)
    ensures SingleLine(s) && s != "" && s[0] == '#'
  {
  }

  lemma TwoLines(service: string)
    ensures |Header(service)| == 2
  {
  }

  // ---------------------------------------------------------------- the interrupted write

  /** The lines up to and including the first one that starts with `prefix`; the source raises when there is none. */
  function CutAfter(lines: seq<string>, prefix: string): Option<nat> {
    if lines == [] then None
    else if prefix <= lines[0] then Some(1)
    else match CutAfter(lines[1..], prefix)
         case None => None
         case Some(n) => Some(n + 1)
  }

  /** The first line with something on it, terminator included, or nothing. */
  function NextLine(lines: seq<string>): string {
    if lines == [] then "" else if Strip(lines[0]) != "" then lines[0] + "\n" else NextLine(lines[1..])
  }

  /** What the torn tail of the file may be: between 8 characters and all but 5 of the next line, when it is longer
      than 12 characters. */
  predicate Torn(fragment: string, next: string) {
    fragment == "" || (|next| > 12 && 8 <= |fragment| <= |next| - 5 && fragment <= next)
  }

  datatype Variant = DatabasesLost | LedgerLost

  function Prefix(v: Variant): string {
    if v == DatabasesLost then "# --- databases" else "DATABASE_URL="
  }

  /** The write dies after `cut` lines, or `n` characters into the next one. */
  method Interrupt(lines: seq<string>, v: Variant, torn: bool, n: nat) returns (text: Option<string>,
                   ghost fragment: string)
    requires 8 <= n
    requires var cut := CutAfter(lines, Prefix(v));
             (cut.Some? && cut.value <= |lines| && |NextLine(lines[cut.value..])| > 12 ==>
                n <= |NextLine(lines[cut.value..])| - 5)
    ensures text.Some? <==> CutAfter(lines, Prefix(v)).Some?
    ensures text.Some? ==>
              var cut := CutAfter(lines, Prefix(v)).value;
              && cut <= |lines|
              && text.value == Unlines(lines[..cut]) + fragment
              && Torn(fragment, NextLine(lines[cut..]))
              && (fragment != "" <==> torn && |NextLine(lines[cut..])| > 12)
  {
    hide Unlines, Strip;
    fragment := "";
    var i := 0;
    CutInside(lines, Prefix(v));
    assert lines[0..] == lines;
    while i < |lines| && !(Prefix(v) <= lines[i])
      invariant 0 <= i <= |lines|
      invariant CutAfter(lines, Prefix(v)) ==
                match CutAfter(lines[i..], Prefix(v)) case None => None case Some(k) => Some(k + i)
    {
      assert lines[i..][1..] == lines[i + 1..];
      i := i + 1;
    }
    if i == |lines| {
      return None, fragment;
    }
    var cut := i + 1;
    var truncated := Unlines(lines[..cut]);
    assert truncated + "" == truncated;
    if torn {
      var j := cut;
      while j < |lines| && Strip(lines[j]) == ""
        invariant cut <= j <= |lines|
        invariant NextLine(lines[cut..]) == NextLine(lines[j..])
      {
        assert lines[j..][1..] == lines[j + 1..];
        j := j + 1;
      }
      var next := if j < |lines| then lines[j] + "\n" else "";
      if |next| > 12 {
        fragment := next[..n];
        truncated := truncated + next[..n];
      }
    }
    text := Some(truncated);
  }

  lemma {:induction false} CutInside(lines: seq<string>, prefix: string)
    ensures CutAfter(lines, prefix).Some? ==> 1 <= CutAfter(lines, prefix).value <= |lines|
    decreases |lines|
  {
    if lines == [] {
    } else {
      CutInside(lines[1..], prefix);
    }
  }

  predicate NoneStart(lines: seq<string>, prefix: string) {
    forall k :: 0 <= k < |lines| ==> !(prefix <= lines[k])
  }

  lemma {:induction false} CutSkips(a: seq<string>, b: seq<string>, prefix: string)
    requires NoneStart(a, prefix)
    ensures CutAfter(a + b, prefix) ==
            match CutAfter(b, prefix) case None => None case Some(k) => Some(k + |a|)
    decreases |a|
  {
    if a == [] {
      assert a + b == b;
    } else {
      assert (a + b)[1..] == a[1..] + b;
      assert forall k :: 0 <= k < |a[1..]| ==> a[1..][k] == a[k + 1];
      CutSkips(a[1..], b, prefix);
    }
  }

  lemma {:induction false} NextIsFirst(lines: seq<string>, key: string, v: string)
    requires lines != [] && lines[0] == key + "=" + v && GoodKey(key)
    ensures NextLine(lines) == key + "=" + v + "\n"
  {
    assert lines[0][0] == key[0];
    NonSpaceFirst(lines[0]);
  }

  /** Reading the interrupted file back: the kept bindings, plus at most one, of the torn line's key, with a value
      that is not the true one. */
  lemma {:induction false} ParseTorn(kept: seq<string>, key: string, v: string, fragment: string)
    requires forall k :: 0 <= k < |kept| ==> SingleLine(kept[k])
    requires GoodKey(key) && SingleLine(key + "=" + v) && Torn(fragment, key + "=" + v + "\n")
    ensures var before, after := Fold(kept), Parse(Unlines(kept) + fragment);
            after == before || (key in after && after == before[key := after[key]] && |after[key]| < |v|)
  {
    hide SplitLines, Unlines, ParseLine, GoodKey, IsBreak;
    var line := key + "=" + v;
    assert fragment <= line;
    assert forall i :: 0 <= i < |fragment| ==> fragment[i] == line[i];
    SplitUnlines(kept, fragment);
    if fragment == "" {
      assert kept + [] == kept;
    } else {
      assert fragment == line[..|fragment|];
      TornBinding(key, v, |fragment|);
      var all := kept + [fragment];
      assert all[..|all| - 1] == kept && all[|all| - 1] == fragment;
    }
  }

  // ---------------------------------------------------------------- what the service is left with

  /** The printed file of a state that sets both database URLs. */
  ghost predicate Production(state: Env) {
    CleanValues(Layout(), state) && "DATABASE_URL" in state && "LEDGER_DATABASE_URL" in state
  }

  function Before(service: string, state: Env): seq<string> {
    Header(service) + GroupLines(Application(), state) + [""]
  }

  function DbLines(state: Env): seq<string> {
    KeyLines(Databases().keys, state)
  }

  function Rest(state: Env): seq<string> {
    LayoutLines([Payments(), Logging(), Limits(), Secrets(), Webhook()], state)
  }

  function ProductionLines(service: string, state: Env): seq<string> {
    EnvLines(Header(service), Layout(), state)
  }

  lemma DbLinesStart(state: Env)
    requires "DATABASE_URL" in state && "LEDGER_DATABASE_URL" in state
    ensures |DbLines(state)| >= 2
    ensures DbLines(state)[0] == "DATABASE_URL" + "=" + state["DATABASE_URL"]
    ensures DbLines(state)[1] == "LEDGER_DATABASE_URL" + "=" + state["LEDGER_DATABASE_URL"]
  {
    var keys := Databases().keys;
    assert KeyLines(keys, state) == ["DATABASE_URL" + "=" + state["DATABASE_URL"]] + KeyLines(keys[1..], state);
    assert KeyLines(keys[1..], state) ==
           ["LEDGER_DATABASE_URL" + "=" + state["LEDGER_DATABASE_URL"]] + KeyLines(keys[1..][1..], state);
  }

  lemma FileShape(service: string, state: Env)
    requires "DATABASE_URL" in state && "LEDGER_DATABASE_URL" in state
    ensures ProductionLines(service, state)
              == Before(service, state) + [Databases().header] + DbLines(state) + Rest(state)
  {
    DbLinesStart(state);
    var tail := [Payments(), Logging(), Limits(), Secrets(), Webhook()];
    Shape(Header(service), Application(), Databases(), tail, state);
  }

  lemma {:induction false} TwoGroups(app: Group, db: Group, tail: seq<Group>, state: Env)
    ensures LayoutLines([app, db] + tail, state) ==
            GroupLines(app, state) + (GroupLines(db, state) + LayoutLines(tail, state))
  {
  }

  lemma {:induction false} FlatShape(title: seq<string>, a: seq<string>, blank: seq<string>, header: seq<string>,
                                     b: seq<string>, c: seq<string>)
    ensures title + (a + (blank + header + b + c)) == title + a + blank + header + b + c
  {
  }

  lemma {:induction false} Shape(title: seq<string>, app: Group, db: Group, tail: seq<Group>, state: Env)
    requires KeyLines(db.keys, state) != []
    ensures EnvLines(title, [app, db] + tail, state) ==
            title + GroupLines(app, state) + [""] + [db.header] + KeyLines(db.keys, state) + LayoutLines(tail, state)
  {
    TwoGroups(app, db, tail, state);
    hide KeyLines, LayoutLines;
    var a, b, c := GroupLines(app, state), KeyLines(db.keys, state), LayoutLines(tail, state);
    assert GroupLines(db, state) == [""] + [db.header] + b;
    hide GroupLines;
    FlatShape(title, a, [""], [db.header], b, c);
  }

  lemma {:induction false} AppLinesStart(keys: seq<string>, state: Env)
    requires forall k :: 0 <= k < |keys| ==> keys[k] != "" && keys[k][0] == 'A'
    ensures forall k :: 0 <= k < |KeyLines(keys, state)| ==>
                          KeyLines(keys, state)[k] != "" && KeyLines(keys, state)[k][0] == 'A'
    decreases |keys|
  {
    if keys == [] {
    } else {
      AppLinesStart(keys[1..], state);
    }
  }

  lemma AppKeysStart()
    ensures forall k :: 0 <= k < |Application().keys| ==> Application().keys[k] != "" && Application().keys[k][0] == 'A'
  {
  }

  lemma HeadersStart(service: string)
    ensures |Application().header| > 6 && Application().header[0] == '#' && Application().header[6] == 'a'
    ensures |Header(service)| == 2 && |Header(service)[0]| > 2 && |Header(service)[1]| > 2
    ensures Header(service)[0][0] == '#' && Header(service)[1][0] == '#' && Header(service)[1][2] == 'M'
  {
  }

  lemma PrefixesStart()
    ensures |Prefix(DatabasesLost)| > 6 && Prefix(DatabasesLost)[0] == '#'
    ensures Prefix(DatabasesLost)[2] == '-' && Prefix(DatabasesLost)[6] == 'd'
    ensures Prefix(LedgerLost) != "" && Prefix(LedgerLost)[0] == 'D'
  {
  }

  /** No line before the databases header can be mistaken for the cut point. */
  lemma BeforeStartsNone(service: string, state: Env, v: Variant)
    requires Named(service)
    ensures NoneStart(Before(service, state), Prefix(v))
  {
    hide Application, Header, Prefix, KeyLines;
    AppKeysStart();
    HeadersStart(service);
    PrefixesStart();
    AppLinesStart(Application().keys, state);
    BeforeFrom(Header(service), Application().header, KeyLines(Application().keys, state), v);
  }

  lemma BeforeFrom(title: seq<string>, header: string, lines: seq<string>, v: Variant)
    requires |title| == 2 && |title[0]| > 2 && |title[1]| > 2 && |header| > 6
    requires title[0][0] == '#' && title[1][0] == '#' && !(Prefix(DatabasesLost) <= title[0]) && title[1][2] == 'M'
    requires header[0] == '#' && header[6] == 'a'
    requires forall k :: 0 <= k < |lines| ==> lines[k] != "" && lines[k][0] == 'A'
    requires |Prefix(DatabasesLost)| > 6 && Prefix(DatabasesLost)[0] == '#'
    requires Prefix(DatabasesLost)[2] == '-' && Prefix(DatabasesLost)[6] == 'd'
    requires Prefix(LedgerLost) != "" && Prefix(LedgerLost)[0] == 'D'
    ensures NoneStart(title + (if lines == [] then [] else ["", header] + lines) + [""], Prefix(v))
  {
  }

  /** Where the write dies in the production file, and which line it tears. */
  lemma CutPoints(service: string, state: Env, v: Variant)
    requires Production(state) && Named(service)
    ensures var lines, n := ProductionLines(service, state), |Before(service, state)|;
            var key := if v == DatabasesLost then "DATABASE_URL" else "LEDGER_DATABASE_URL";
            var cut := if v == DatabasesLost then n + 1 else n + 2;
            && CutAfter(lines, Prefix(v)) == Some(cut) && cut < |lines|
            && lines[cut] == key + "=" + state[key]
            && NextLine(lines[cut..]) == key + "=" + state[key] + "\n"
            && lines[..cut]
                == Before(service, state) + [Databases().header]
                    + (if v == DatabasesLost then [] else [DbLines(state)[0]])
  {
    hide Before, Databases, DbLines, Rest, ProductionLines, NextLine, GoodKey, CutAfter, Prefix, CleanValues, NoneStart;
    var lines, before, header, db := ProductionLines(service, state), Before(service, state), Databases().header,
            DbLines(state);
    FileShape(service, state);
    DbLinesStart(state);
    BeforeStartsNone(service, state, v);
    GoodDatabaseKeys();
    var tail := [header] + db + Rest(state);
    assert lines == before + tail;
    CutSkips(before, tail, Prefix(v));
    CutInTail(header, db, Rest(state), state, v);
    var cut := CutAfter(lines, Prefix(v)).value;
    var key := if v == DatabasesLost then "DATABASE_URL" else "LEDGER_DATABASE_URL";
    assert lines[cut] == tail[cut - |before|];
    assert lines[cut..] != [] && lines[cut..][0] == lines[cut];
    NextIsFirst(lines[cut..], key, state[key]);
    assert lines[..cut] == before + tail[..cut - |before|];
  }

  lemma {:induction false} CutInTail(header: string, db: seq<string>, rest: seq<string>, state: Env, v: Variant)
    requires header == Databases().header && |db| >= 2
    requires "DATABASE_URL" in state && db[0] == "DATABASE_URL" + "=" + state["DATABASE_URL"]
    ensures CutAfter([header] + db + rest, Prefix(v)) == Some(if v == DatabasesLost then 1 else 2)
  {
  }

  lemma KeysBefore(service: string, state: Env)
    requires SingleLine(service)
    ensures "DATABASE_URL" !in KeysOf(Before(service, state))
              && "LEDGER_DATABASE_URL" !in KeysOf(Before(service, state))
  {
    hide Application, Header, KeysOf, GoodKey, ParseLine;
    LayoutIsGood(service);
    assert Layout()[0] == Application();
    GroupLinesFrom(Application(), state);
    TitleFrom(Header(service), state);
    CommentIsInert("");
    KeysOfOne("");
    KeysOfConcat(Header(service), GroupLines(Application(), state));
    KeysOfConcat(Header(service) + GroupLines(Application(), state), [""]);
    AppKeysStart();
    assert "DATABASE_URL"[0] == 'D' && "LEDGER_DATABASE_URL"[0] == 'L';
  }

  lemma KeysKept(service: string, state: Env, v: Variant)
    requires SingleLine(service) && "DATABASE_URL" in state && "LEDGER_DATABASE_URL" in state
    ensures var kept := Before(service, state) + [Databases().header]
              + (if v == DatabasesLost then [] else [DbLines(state)[0]]);
            && "LEDGER_DATABASE_URL" !in KeysOf(kept)
            && ("DATABASE_URL" in KeysOf(kept) <==> v == LedgerLost)
  {
    hide KeysOf, ParseLine, GoodKey, Before, Databases, DbLines, SingleLine;
    KeysBefore(service, state);
    DbLinesStart(state);
    GoodComments();
    CommentIsInert(Databases().header);
    KeysOfOne(Databases().header);
    KeysOfConcat(Before(service, state), [Databases().header]);
    GoodDatabaseKeys();
    BindingLine("DATABASE_URL", state["DATABASE_URL"]);
    KeysOfOne(DbLines(state)[0]);
    KeysOfConcat(Before(service, state) + [Databases().header], [DbLines(state)[0]]);
    assert "DATABASE_URL"[0] == 'D' && "LEDGER_DATABASE_URL"[0] == 'L';
    assert Before(service, state) + [Databases().header] + [] == Before(service, state) + [Databases().header];
  }

  /** Either interruption, torn or not, takes the true ledger URL away; losing the databases section takes the core
      URL away too, and otherwise the core URL survives.  Every other binding that is left is a true one. */
  lemma InterruptedWriteLosesTheLedger(service: string, state: Env, v: Variant, fragment: string)
    requires Production(state) && Named(service)
    requires CutAfter(ProductionLines(service, state), Prefix(v)).Some?
    requires CutAfter(ProductionLines(service, state), Prefix(v)).value <= |ProductionLines(service, state)|
    requires Torn(fragment,
                  NextLine(ProductionLines(service,
                                           state)[CutAfter(ProductionLines(service, state), Prefix(v)).value..]))
    ensures var cut := CutAfter(ProductionLines(service, state), Prefix(v)).value;
            var left := Parse(Unlines(ProductionLines(service, state)[..cut]) + fragment);
            && ("LEDGER_DATABASE_URL" in left ==> left["LEDGER_DATABASE_URL"] != state["LEDGER_DATABASE_URL"])
            && (v == LedgerLost ==> "DATABASE_URL" in left && left["DATABASE_URL"] == state["DATABASE_URL"])
            && (v == DatabasesLost ==> "DATABASE_URL" in left ==> left["DATABASE_URL"] != state["DATABASE_URL"])
            && (forall key :: key in left && key !in {"DATABASE_URL", "LEDGER_DATABASE_URL"} ==>
                                key in state && left[key] == state[key])
  {
    hide Layout, Header, Before, Databases, DbLines, NextLine, Torn, Unlines, Parse, Fold, KeysOf, GoodKey, IsBreak;
    hide Clean;
    hide EnvLines;
    var lines := ProductionLines(service, state);
    CutPoints(service, state, v);
    KeysKept(service, state, v);
    LayoutIsGood(service);
    var cut := CutAfter(lines, Prefix(v)).value;
    var key := if v == DatabasesLost then "DATABASE_URL" else "LEDGER_DATABASE_URL";
    CutKeepsABoundary(Header(service), Layout(), state, cut);
    FileLines(Header(service), Layout(), state) by {
      assert OneLineValues(Layout(), state);
    }
    assert SingleLine(lines[cut]);
    GoodDatabaseKeys();
    ParseTorn(lines[..cut], key, state[key], fragment);
    BoundaryFold(lines[..cut]);
    assert "DATABASE_URL"[0] == 'D' && "LEDGER_DATABASE_URL"[0] == 'L';
  }

  lemma {:induction false} BoundaryFold(kept: seq<string>)
    requires forall k :: 0 <= k < |kept| ==> SingleLine(kept[k])
    ensures Parse(Unlines(kept)) == Fold(kept)
  {
    hide SplitLines, Unlines, Fold;
    SplitUnlines(kept, "") by { NoBreakInEmpty(); }
    assert Unlines(kept) + "" == Unlines(kept) && kept + [] == kept;
  }
}
