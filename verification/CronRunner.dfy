/** The cron daemon: which minutes its loop ticks, which entries a tick fires, and its job threads. */
module CronRunner {
  import opened Options
  import opened Numbers
  import opened CronFields

  // ---------------------------------------------------------------- the loop

  const SECOND := 1_000_000
  const MINUTE := 60 * SECOND

  /** Clock readings are microseconds. */
  function MinuteOf(now: int): (m: int)
    ensures m * 60_000_000 <= now < (m + 1) * 60_000_000
  {
    now / MINUTE
  }

  /** A reading ticks its minute when that minute is not the last one ticked and its second is not the first. */
  predicate Fires(last: Option<int>, now: int) {
    last != Some(MinuteOf(now)) && Ticking(now)
  }

  predicate Ticking(now: int) {
    now % MINUTE >= SECOND
  }

  function Last(samples: seq<int>): Option<int> {
    if samples == [] then None else
      var before := Last(samples[..|samples| - 1]);
      if Fires(before, samples[|samples| - 1]) then Some(MinuteOf(samples[|samples| - 1])) else before
  }

  /** The minutes ticked over a run of clock readings. */
  function Ticks(samples: seq<int>): seq<int> {
    if samples == [] then [] else
      var init, now := samples[..|samples| - 1], samples[|samples| - 1];
      Ticks(init) + if Fires(Last(init), now) then [MinuteOf(now)] else []
  }

  class Loop {
    var lastMinute: Option<int>
    ghost var samples: seq<int>
    var ticked: seq<int>

    ghost predicate Valid()
      reads this
    {
      lastMinute == Last(samples) && ticked == Ticks(samples)
    }

    constructor ()
      ensures Valid() && samples == []
    {
      lastMinute, samples, ticked := None, [], [];
    }

    /** One pass of the loop; the tick itself may take any time before the next reading. */
    method Poll(now: int)
      requires Valid()
      modifies this
      ensures Valid() && samples == old(samples) + [now]
    {
      assert (samples + [now])[..|samples|] == samples;
      var minute := now / MINUTE;
      if lastMinute != Some(minute) && now % MINUTE >= SECOND {
        lastMinute := Some(minute);
        ticked := ticked + [minute];
      }
      samples := samples + [now];
    }
  }

  // ---------------------------------------------------------------- minutes ticked twice

  ghost predicate TickedTwice(samples: seq<int>, m: int) {
    exists p, q :: 0 <= p < q < |Ticks(samples)| && Ticks(samples)[p] == m && Ticks(samples)[q] == m
  }

  /** A reading in the part of minute `m` that ticks, and one in that part of another minute. */
  predicate Inside(now: int, m: int)
    ensures Inside(now, m) <==> m * 60_000_000 + 1_000_000 <= now < (m + 1) * 60_000_000
  {
    Ticking(now) && MinuteOf(now) == m
  }

  predicate Outside(now: int, m: int) {
    Ticking(now) && MinuteOf(now) != m
  }

  /** Minute `m` has been left: a reading in it, later one in another minute. */
  ghost predicate HasLeft(samples: seq<int>, m: int) {
    exists i, j :: 0 <= i < j < |samples| && Inside(samples[i], m) && Outside(samples[j], m)
  }

  /** A reading in minute `m` when it had been left. */
  ghost predicate CameBack(samples: seq<int>, m: int) {
    exists k :: 0 <= k < |samples| && Inside(samples[k], m) && HasLeft(samples[..k], m)
  }

  lemma {:induction false} TicksSnoc(samples: seq<int>, now: int)
    ensures Ticks(samples + [now]) == Ticks(samples) + if Fires(Last(samples), now) then [MinuteOf(now)] else []
    ensures Last(samples + [now]) == if Fires(Last(samples), now) then Some(MinuteOf(now)) else Last(samples)
  {
    assert (samples + [now])[..|samples|] == samples;
  }

  /** The last minute ticked is the one of the last reading that lies in the ticking part of its minute. */
  lemma {:induction false} LastReading(samples: seq<int>) returns (k: nat)
    requires Last(samples).Some?
    ensures k < |samples| && Ticking(samples[k]) && Last(samples) == Some(MinuteOf(samples[k]))
    ensures forall j :: k < j < |samples| ==> !Ticking(samples[j])
    decreases |samples|
  {
    var init, now := samples[..|samples| - 1], samples[|samples| - 1];
    if Ticking(now) {
      k := |samples| - 1;
    } else {
      k := LastReading(init);
    }
  }

  /** The minutes ticked are those of the readings in the ticking part of a minute. */
  lemma {:induction false} TicksAreReadings(samples: seq<int>, m: int)
    ensures m in Ticks(samples) <==> exists i :: 0 <= i < |samples| && Inside(samples[i], m)
    ensures Last(samples).Some? ==> Last(samples).value in Ticks(samples)
    decreases |samples|
  {
    if samples == [] {
    } else {
      hide MinuteOf, Ticking;
      var init, now := samples[..|samples| - 1], samples[|samples| - 1];
      TicksAreReadings(init, m);
      assert samples == init + [now];
      TicksSnoc(init, now);
      SeenSnoc(init, now, m);
    }
  }

  lemma SeenSnoc(samples: seq<int>, now: int, m: int)
    ensures (exists i :: 0 <= i < |samples + [now]| && Inside((samples + [now])[i], m)) <==>
              (exists i :: 0 <= i < |samples| && Inside(samples[i], m)) || Inside(now, m)
  {
    hide Inside;
    var all := samples + [now];
    assert all[|samples|] == now && forall i :: 0 <= i < |samples| ==> all[i] == samples[i];
  }

  lemma {:induction false} TwiceSnoc(samples: seq<int>, now: int, m: int)
    ensures TickedTwice(samples + [now], m) <==>
              TickedTwice(samples, m) || (Fires(Last(samples), now) && MinuteOf(now) == m && m in Ticks(samples))
  {
    TicksSnoc(samples, now);
    hide Ticks, Fires, MinuteOf;
    var ticks, all := Ticks(samples), Ticks(samples + [now]);
    assert forall p :: 0 <= p < |ticks| ==> all[p] == ticks[p];
    if Fires(Last(samples), now) && MinuteOf(now) == m && m in ticks {
      var p :| 0 <= p < |ticks| && ticks[p] == m;
      assert all[p] == m && all[|ticks|] == m;
    }
  }

  lemma CameBackSnoc(samples: seq<int>, now: int, m: int)
    ensures CameBack(samples + [now], m) <==> CameBack(samples, m) || (Inside(now, m) && HasLeft(samples, m))
  {
    hide Inside, HasLeft;
    var all := samples + [now];
    assert all[|samples|] == now && all[..|samples|] == samples;
    assert forall k :: 0 <= k < |samples| ==> all[k] == samples[k] && all[..k] == samples[..k];
  }

  /** When minute `m` is not the last one ticked, it has been ticked if and only if it has been left. */
  lemma {:induction false} SeenIsLeft(samples: seq<int>, m: int)
    requires Last(samples) != Some(m)
    ensures m in Ticks(samples) <==> HasLeft(samples, m)
  {
    TicksAreReadings(samples, m);
    hide Ticks, Last, MinuteOf, Ticking;
    if m in Ticks(samples) {
      var i :| 0 <= i < |samples| && Inside(samples[i], m);
      SomethingTicked(samples, i);
      var k := LastReading(samples);
      assert i < k;
    }
  }

  lemma {:induction false} SomethingTicked(samples: seq<int>, i: nat)
    requires i < |samples| && Ticking(samples[i])
    ensures Last(samples).Some?
    decreases |samples|
  {
    if i < |samples| - 1 {
      SomethingTicked(samples[..|samples| - 1], i);
    }
  }

  /** When it is the last one ticked, to have been left means to have been come back to. */
  lemma {:induction false} LeftIsBack(samples: seq<int>, m: int)
    requires Last(samples) == Some(m) && HasLeft(samples, m)
    ensures CameBack(samples, m)
  {
    var i, j :| 0 <= i < j < |samples| && Inside(samples[i], m) && Outside(samples[j], m);
    var k := LastReading(samples);
    assert j < k && samples[..k][i] == samples[i] && samples[..k][j] == samples[j];
  }

  /** A minute is ticked twice if and only if, among the readings after the first second of their minute, one lies in
      it, a later one does not, and one after that does again. */
  lemma {:induction false} TickedTwiceIff(samples: seq<int>, m: int)
    ensures TickedTwice(samples, m) <==> CameBack(samples, m)
    decreases |samples|
  {
    if samples == [] {
    } else {
      hide Ticks, Last, Ticking, MinuteOf, TickedTwice, CameBack, HasLeft;
      var init, now := samples[..|samples| - 1], samples[|samples| - 1];
      assert samples == init + [now];
      TickedTwiceIff(init, m);
      TwiceSnoc(init, now, m);
      CameBackSnoc(init, now, m);
      if Last(init) != Some(m) {
        SeenIsLeft(init, m);
      } else if HasLeft(init, m) {
        LeftIsBack(init, m);
      }
    }
  }

  ghost predicate Nondecreasing(samples: seq<int>) {
    forall i, j :: 0 <= i < j < |samples| ==> samples[i] <= samples[j]
  }

  /** With a clock that never goes back, no minute is ticked twice. */
  lemma NoMinuteTwice(samples: seq<int>, m: int)
    requires Nondecreasing(samples)
    ensures !TickedTwice(samples, m)
  {
    hide Ticks;
    TickedTwiceIff(samples, m);
  }

  ghost predicate Increasing(ticks: seq<int>) {
    forall i, j :: 0 <= i < j < |ticks| ==> ticks[i] < ticks[j]
  }

  /** The minutes are then ticked in order. */
  lemma {:induction false} TicksIncrease(samples: seq<int>)
    requires Nondecreasing(samples)
    ensures Increasing(Ticks(samples))
    ensures Ticks(samples) == [] <==> Last(samples) == None
    ensures Ticks(samples) != [] ==> Last(samples) == Some(Ticks(samples)[|Ticks(samples)| - 1])
                                     && Last(samples).value <= MinuteOf(samples[|samples| - 1])
    decreases |samples|
  {
    if samples == [] {
    } else {
      var init, now := samples[..|samples| - 1], samples[|samples| - 1];
      TicksIncrease(init);
      if Ticks(init) != [] {
        Monotone(init[|init| - 1], now);
      }
    }
  }

  lemma Monotone(a: int, b: int)
    requires a <= b
    ensures MinuteOf(a) <= MinuteOf(b)
  {
  }

  ghost predicate Close(samples: seq<int>) {
    forall i :: 0 < i < |samples| ==> samples[i] - samples[i - 1] <= 59_000_000
  }

  /** With readings at most 59 seconds apart, every minute between the first reading's and the last one's is ticked. */
  lemma {:induction false} NoMinuteSkipped(samples: seq<int>, m: int)
    requires Close(samples) && samples != []
    requires MinuteOf(samples[0]) < m < MinuteOf(samples[|samples| - 1])
    ensures m in Ticks(samples)
  {
    var k := ReadingInside(samples, m, |samples| - 1);
    TicksAreReadings(samples, m);
  }

  /** Some reading falls into the part of minute `m` that ticks. */
  lemma {:induction false} ReadingInside(samples: seq<int>, m: int, n: nat) returns (k: nat)
    requires Close(samples) && n < |samples|
    requires MinuteOf(samples[0]) < m < MinuteOf(samples[n])
    ensures k < |samples| && MinuteOf(samples[k]) == m && Ticking(samples[k])
    decreases n
  {
    if m < MinuteOf(samples[n - 1]) {
      k := ReadingInside(samples, m, n - 1);
    } else {
      assert samples[n] - samples[n - 1] <= 59_000_000;
      k := n - 1;
    }
  }

  /** A clock that is set back by a minute and catches up: the loop ticks a minute twice. */
  lemma MinuteTwiceWhenClockGoesBack(m: int)
    ensures Ticks([(m + 1) * MINUTE + SECOND, m * MINUTE + SECOND, (m + 1) * MINUTE + SECOND]) == [m + 1, m, m + 1]
  {
    var a, b := (m + 1) * MINUTE + SECOND, m * MINUTE + SECOND;
    var s := [a, b, a];
    assert MinuteOf(a) == m + 1 && MinuteOf(b) == m && a % MINUTE == b % MINUTE == SECOND;
    assert s[..2] == [a, b] && [a, b][..1] == [a] && [a][..0] == [];
    assert Ticks([a]) == [m + 1] && Last([a]) == Some(m + 1);
    assert Ticks([a, b]) == [m + 1, m] && Last([a, b]) == Some(m);
  }

  // ---------------------------------------------------------------- entries

  /** The calendar is library code: month day, month and week day of a day number. */
  datatype Date = Date(dom: int, month: int, weekday: int)
  type Calendar = int -> Date

  datatype Schedule = Schedule(minute: string, hour: string, dom: string, month: string, dow: string)
  datatype Job = Job(schedule: Schedule, command: string)

  function DayOf(minute: int): int {
    minute / 1440
  }

  function And(a: Answer, b: Answer): Answer {
    if a.Yes? then b else a
  }

  function ScheduleMatches(cal: Calendar, s: Schedule, minute: int): Answer {
    var date := cal(DayOf(minute));
    And(MatchParts(SplitComma(s.minute), minute % 60, 0, 59),
        And(MatchParts(SplitComma(s.hour), minute / 60 % 24, 0, 23),
            And(MatchParts(SplitComma(s.dom), date.dom, 1, 31),
                And(MatchParts(SplitComma(s.month), date.month, 1, 12),
                    MatchParts(SplitComma(s.dow), date.weekday, 0, 7)))))
  }

  /** The entries one tick starts: a division by zero abandons the rest of the crontab. */
  function Started(cal: Calendar, jobs: seq<Job>, minute: int): set<nat> {
    if jobs == [] then {} else
      var init := jobs[..|jobs| - 1];
      if Abandoned(cal, init, minute) || !ScheduleMatches(cal, jobs[|jobs| - 1].schedule, minute).Yes?
      then Started(cal, init, minute)
      else Started(cal, init, minute) + {|jobs| - 1}
  }

  predicate Abandoned(cal: Calendar, jobs: seq<Job>, minute: int) {
    exists i :: 0 <= i < |jobs| && ScheduleMatches(cal, jobs[i].schedule, minute).DividesByZero?
  }

  method Tick(cal: Calendar, jobs: seq<Job>, minute: int) returns (started: set<nat>)
    ensures started == Started(cal, jobs, minute)
  {
    hide ScheduleMatches;
    started := {};
    for k := 0 to |jobs|
      invariant started == Started(cal, jobs[..k], minute) && !Abandoned(cal, jobs[..k], minute)
    {
      assert jobs[..k + 1][..k] == jobs[..k];
      var a := ScheduleMatches(cal, jobs[k].schedule, minute);
      if a.DividesByZero? {
        StartedNoMore(cal, jobs, k, minute);
        return;
      }
      if a.Yes? {
        started := started + {k};
      }
    }
    assert jobs[..|jobs|] == jobs;
  }

  lemma {:induction false} StartedNoMore(cal: Calendar, jobs: seq<Job>, k: nat, minute: int)
    requires k < |jobs| && ScheduleMatches(cal, jobs[k].schedule, minute).DividesByZero?
    ensures Started(cal, jobs, minute) == Started(cal, jobs[..k], minute)
    decreases |jobs|
  {
    hide ScheduleMatches;
    var init := jobs[..|jobs| - 1];
    if k < |init| {
      assert init[k] == jobs[k];
      StartedNoMore(cal, init, k, minute);
      assert init[..k] == jobs[..k];
    } else {
      assert jobs[..k] == init;
    }
  }

  /** An entry is started exactly when it matches and no entry before it divides by zero. */
  lemma {:induction false} StartedIff(cal: Calendar, jobs: seq<Job>, minute: int, k: nat)
    ensures k in Started(cal, jobs, minute) <==>
              && k < |jobs| && ScheduleMatches(cal, jobs[k].schedule, minute).Yes?
              && forall i :: 0 <= i < k ==> !ScheduleMatches(cal, jobs[i].schedule, minute).DividesByZero?
    decreases |jobs|
  {
    hide ScheduleMatches;
    if jobs == [] {
    } else {
      StartedIff(cal, jobs[..|jobs| - 1], minute, k);
    }
  }

  /** A schedule in items, field by field. */
  datatype Items = Items(minute: seq<Part>, hour: seq<Part>, dom: seq<Part>, month: seq<Part>, dow: seq<Part>)

  ghost predicate Writable(items: seq<Part>) {
    items != [] && forall i :: 0 <= i < |items| ==> items[i].step != Some(0)
  }

  ghost predicate AllWritable(s: Items) {
    Writable(s.minute) && Writable(s.hour) && Writable(s.dom) && Writable(s.month) && Writable(s.dow)
  }

  ghost function Written(s: Items): Schedule
    requires AllWritable(s)
  {
    Schedule(FieldText(s.minute), FieldText(s.hour), FieldText(s.dom), FieldText(s.month), FieldText(s.dow))
  }

  ghost predicate SomeSelects(items: seq<Part>, value: int, lo: int, hi: int) {
    exists i :: 0 <= i < |items| && Selects(items[i], value, lo, hi)
  }

  /** A written entry runs in the minutes whose minute, hour, day of the month, month and weekday are each selected by
      the field for it; the five must all agree, also the two day fields. */
  lemma WrittenScheduleMatches(cal: Calendar, s: Items, day: int, hour: int, minute: int)
    requires AllWritable(s) && 0 <= hour < 24 && 0 <= minute < 60
    ensures ScheduleMatches(cal, Written(s), day * 1440 + hour * 60 + minute)
         == if && SomeSelects(s.minute, minute, 0, 59) && SomeSelects(s.hour, hour, 0, 23)
               && SomeSelects(s.dom, cal(day).dom, 1, 31) && SomeSelects(s.month, cal(day).month, 1, 12)
               && SomeSelects(s.dow, cal(day).weekday, 0, 7)
            then Yes else No
  {
    hide MatchParts, SplitComma, FieldText, SomeSelects, Writable, DayOf;
    TimeOfDay(day, hour, minute);
    FieldSelects(s.minute, minute, 0, 59);
    FieldSelects(s.hour, hour, 0, 23);
    FieldSelects(s.dom, cal(day).dom, 1, 31);
    FieldSelects(s.month, cal(day).month, 1, 12);
    FieldSelects(s.dow, cal(day).weekday, 0, 7);
  }

  lemma {:induction false} FieldSelects(items: seq<Part>, value: int, lo: int, hi: int)
    requires Writable(items)
    ensures MatchParts(SplitComma(FieldText(items)), value, lo, hi)
         == if SomeSelects(items, value, lo, hi) then Yes else No
  {
    hide MatchParts, SplitComma, FieldText, Selects;
    WrittenFieldMatches(items, value, lo, hi);
  }

  lemma TimeOfDay(day: int, hour: int, minute: int)
    requires 0 <= hour < 24 && 0 <= minute < 60
    ensures var m := day * 1440 + hour * 60 + minute; DayOf(m) == day && m / 60 % 24 == hour && m % 60 == minute
  {
    var m := day * 1440 + hour * 60 + minute;
    assert m / 60 == day * 24 + hour;
  }

  // ---------------------------------------------------------------- the check on a rescheduled job

  /** `part in text`. */
  predicate Contains(text: string, part: string) {
    exists i :: 0 <= i <= |text| && part <= text[i..]
  }

  lemma ContainsIff(text: string, part: string)
    ensures Contains(text, part) <==> exists a, b :: text == a + part + b
  {
    if i :| 0 <= i <= |text| && part <= text[i..] {
      assert text == text[..i] + part + text[i + |part|..];
    }
    if a, b :| text == a + part + b {
      assert text[|a|..] == part + b;
    }
  }

  /** Which entries run the script is decided by a substring of the command. */
  method CheckCronJobDisabled(jobs: seq<Job>, script: string) returns (ok: bool)
    ensures ok <==> forall j :: j in jobs && Contains(j.command, script) ==>
                                  AllDigits(j.schedule.minute) && AllDigits(j.schedule.hour)
  {
    hide Contains, AllDigits;
    for k := 0 to |jobs|
      invariant forall i :: 0 <= i < k && Contains(jobs[i].command, script) ==>
                              AllDigits(jobs[i].schedule.minute) && AllDigits(jobs[i].schedule.hour)
    {
      if Contains(jobs[k].command, script) {
        if !(AllDigits(jobs[k].schedule.minute) && AllDigits(jobs[k].schedule.hour)) {
          assert jobs[k] in jobs;
          return false;
        }
      }
    }
    return true;
  }

  predicate Passes(jobs: seq<Job>, script: string) {
    forall j :: j in jobs && Contains(j.command, script) ==> AllDigits(j.schedule.minute) && AllDigits(j.schedule.hour)
  }

  lemma DigitsPinTheMinute(cal: Calendar, s: Schedule, minute: int)
    requires AllDigits(s.minute) && AllDigits(s.hour) && ScheduleMatches(cal, s, minute) == Yes
    ensures minute % 60 == Value(s.minute) && minute / 60 % 24 == Value(s.hour)
  {
    hide AllDigits, MatchParts, SplitComma, Value;
    PlainNumberMatchesItself(s.minute, minute % 60, 0, 59);
    PlainNumberMatchesItself(s.hour, minute / 60 % 24, 0, 23);
  }

  lemma SameTimeOfDay(a: int, b: int)
    requires a % 60 == b % 60 && a / 60 % 24 == b / 60 % 24 && DayOf(a) == DayOf(b)
    ensures a == b
  {
  }

  ghost predicate StartsTwiceADay(cal: Calendar, jobs: seq<Job>, samples: seq<int>, k: nat) {
    exists i, j :: 0 <= i < j < |Ticks(samples)| && DayOf(Ticks(samples)[i]) == DayOf(Ticks(samples)[j])
                   && k in Started(cal, jobs, Ticks(samples)[i]) && k in Started(cal, jobs, Ticks(samples)[j])
  }

  /** Under a crontab that passes the check an entry for the script is started twice on one calendar day if and only if
      the clock came back to a minute in which it starts. */
  lemma {:induction false} TwiceADayIff(cal: Calendar, jobs: seq<Job>, script: string, samples: seq<int>, k: nat)
    requires Passes(jobs, script) && k < |jobs| && Contains(jobs[k].command, script)
    ensures StartsTwiceADay(cal, jobs, samples, k) <==>
              exists m :: CameBack(samples, m) && k in Started(cal, jobs, m)
  {
    hide ScheduleMatches, Started, Ticks, Contains, AllDigits, Value, CameBack;
    var ticks := Ticks(samples);
    if i, j :| 0 <= i < j < |ticks| && DayOf(ticks[i]) == DayOf(ticks[j])
               && k in Started(cal, jobs, ticks[i]) && k in Started(cal, jobs, ticks[j]) {
      assert jobs[k] in jobs;
      StartedIff(cal, jobs, ticks[i], k);
      StartedIff(cal, jobs, ticks[j], k);
      DigitsPinTheMinute(cal, jobs[k].schedule, ticks[i]);
      DigitsPinTheMinute(cal, jobs[k].schedule, ticks[j]);
      SameTimeOfDay(ticks[i], ticks[j]);
      TickedTwiceIff(samples, ticks[i]);
    }
    if m :| CameBack(samples, m) && k in Started(cal, jobs, m) {
      TickedTwiceIff(samples, m);
    }
  }

  /** With a clock that never goes back, each such entry is started at most once per calendar day. */
  lemma {:induction false} AtMostOncePerDay(cal: Calendar, jobs: seq<Job>, script: string, samples: seq<int>, k: nat,
                                            i: nat, j: nat)
    requires Passes(jobs, script) && Nondecreasing(samples)
    requires k < |jobs| && Contains(jobs[k].command, script)
    requires i < j < |Ticks(samples)|
    requires k in Started(cal, jobs, Ticks(samples)[i]) && k in Started(cal, jobs, Ticks(samples)[j])
    ensures DayOf(Ticks(samples)[i]) < DayOf(Ticks(samples)[j])
  {
    hide Started, Ticks, Contains, AllDigits, CameBack;
    TicksIncrease(samples);
    if DayOf(Ticks(samples)[i]) == DayOf(Ticks(samples)[j]) {
      TwiceADayIff(cal, jobs, script, samples, k);
      var m :| CameBack(samples, m) && k in Started(cal, jobs, m);
      TickedTwiceIff(samples, m);
      NoMinuteTwice(samples, m);
      assert false;
    }
  }

  // ---------------------------------------------------------------- job threads

  /** Where a job thread is.  `Entered` to `Exited` is the stretch between the two locked sections. */
  datatype Stage = Spawned | Entered | Child | Exited | Done | Skipped
  datatype Thread = Thread(script: string, stage: Stage)

  /** `threads` in order of creation. */
  datatype Daemon = Daemon(threads: seq<Thread>, running: set<string>)

  datatype Event =
    | Spawn(script: string)
    | Reject(id: nat)   // not a deployed script
    | Enter(id: nat)    // the first locked section: enter, or skip when the script is still running
    | Launch(id: nat)   // the child process starts
    | Return(id: nat)   // it exits, is killed, or could not be started
    | Leave(id: nat)    // the second locked section

  predicate At(d: Daemon, id: nat, stage: Stage) {
    id < |d.threads| && d.threads[id].stage == stage
  }

  function Move(d: Daemon, id: nat, stage: Stage): seq<Thread>
    requires id < |d.threads|
  {
    d.threads[id := d.threads[id].(stage := stage)]
  }

  function Step(d: Daemon, e: Event): Daemon {
    match e
    case Spawn(script) => d.(threads := d.threads + [Thread(script, Spawned)])
    case Reject(id) => if At(d, id, Spawned) then d.(threads := Move(d, id, Done)) else d
    case Enter(id) =>
      if !At(d, id, Spawned) then d
      else if d.threads[id].script in d.running then d.(threads := Move(d, id, Skipped))
      else Daemon(Move(d, id, Entered), d.running + {d.threads[id].script})
    case Launch(id) => if At(d, id, Entered) then d.(threads := Move(d, id, Child)) else d
    case Return(id) => if At(d, id, Entered) || At(d, id, Child) then d.(threads := Move(d, id, Exited)) else d
    case Leave(id) =>
      if !At(d, id, Exited) then d
      else Daemon(Move(d, id, Done), d.running - {d.threads[id].script})
  }

  function After(events: seq<Event>): Daemon {
    if events == [] then Daemon([], {}) else Step(After(events[..|events| - 1]), events[|events| - 1])
  }

  predicate Live(t: Thread) {
    t.stage in {Entered, Child, Exited}
  }

  ghost predicate Exclusive(d: Daemon) {
    && (forall i, j :: 0 <= i < j < |d.threads| && Live(d.threads[i]) && Live(d.threads[j]) ==>
                         d.threads[i].script != d.threads[j].script)
    && (forall s :: s in d.running <==>
        exists i :: 0 <= i < |d.threads| && Live(d.threads[i]) && d.threads[i].script == s)
  }

  lemma SpawnKeeps(d: Daemon, script: string)
    requires Exclusive(d)
    ensures Exclusive(Step(d, Spawn(script)))
  {
    var d' := Step(d, Spawn(script));
    assert forall i :: 0 <= i < |d.threads| ==> d'.threads[i] == d.threads[i];
    assert !Live(d'.threads[|d.threads|]);
    forall s
      ensures s in d'.running <==> exists i :: 0 <= i < |d'.threads| && Live(d'.threads[i]) && d'.threads[i].script == s
    {
      if s in d'.running {
        var i :| 0 <= i < |d.threads| && Live(d.threads[i]) && d.threads[i].script == s;
        assert Live(d'.threads[i]);
      }
    }
  }

  /** A move that changes nobody's liveness. */
  lemma MoveKeeps(d: Daemon, id: nat, stage: Stage)
    requires Exclusive(d) && id < |d.threads|
    requires Live(d.threads[id]) <==> Live(d.threads[id].(stage := stage))
    ensures Exclusive(d.(threads := Move(d, id, stage)))
  {
    var d' := d.(threads := Move(d, id, stage));
    assert forall i :: 0 <= i < |d.threads| ==>
                         (Live(d'.threads[i]) <==> Live(d.threads[i])) && d'.threads[i].script == d.threads[i].script;
    forall s
      ensures s in d'.running <==> exists i :: 0 <= i < |d'.threads| && Live(d'.threads[i]) && d'.threads[i].script == s
    {
      if s in d'.running {
        var i :| 0 <= i < |d.threads| && Live(d.threads[i]) && d.threads[i].script == s;
        assert Live(d'.threads[i]) && d'.threads[i].script == s;
      }
    }
  }

  lemma EnterKeeps(d: Daemon, id: nat)
    requires Exclusive(d) && At(d, id, Spawned) && d.threads[id].script !in d.running
    ensures Exclusive(Daemon(Move(d, id, Entered), d.running + {d.threads[id].script}))
  {
    var d' := Daemon(Move(d, id, Entered), d.running + {d.threads[id].script});
    assert forall i :: 0 <= i < |d.threads| && i != id ==> d'.threads[i] == d.threads[i];
    assert Live(d'.threads[id]);
    forall s
      ensures s in d'.running <==> exists i :: 0 <= i < |d'.threads| && Live(d'.threads[i]) && d'.threads[i].script == s
    {
      if s in d.running {
        var i :| 0 <= i < |d.threads| && Live(d.threads[i]) && d.threads[i].script == s;
        assert Live(d'.threads[i]);
      }
    }
  }

  lemma LeaveKeeps(d: Daemon, id: nat)
    requires Exclusive(d) && At(d, id, Exited)
    ensures Exclusive(Daemon(Move(d, id, Done), d.running - {d.threads[id].script}))
  {
    var d' := Daemon(Move(d, id, Done), d.running - {d.threads[id].script});
    assert forall i :: 0 <= i < |d.threads| && i != id ==> d'.threads[i] == d.threads[i];
    assert !Live(d'.threads[id]) && Live(d.threads[id]);
    forall s
      ensures s in d'.running <==> exists i :: 0 <= i < |d'.threads| && Live(d'.threads[i]) && d'.threads[i].script == s
    {
      if s in d'.running {
        var i :| 0 <= i < |d.threads| && Live(d.threads[i]) && d.threads[i].script == s;
        assert Live(d'.threads[i]);
      }
    }
  }

  /** In every interleaving of job threads at most one instance of a script is live, and `running` is exactly the set of
      live scripts. */
  lemma {:induction false} ScriptsExcludeThemselves(events: seq<Event>)
    ensures Exclusive(After(events))
    decreases |events|
  {
    hide Exclusive;
    if events == [] {
      NobodyLive();
    } else {
      var d, e := After(events[..|events| - 1]), events[|events| - 1];
      ScriptsExcludeThemselves(events[..|events| - 1]);
      match e {
        case Spawn(script) => SpawnKeeps(d, script);
        case Reject(id) => if At(d, id, Spawned) { MoveKeeps(d, id, Done); }
        case Enter(id) =>
          if At(d, id, Spawned) {
            if d.threads[id].script in d.running {
              MoveKeeps(d, id, Skipped);
            } else {
              EnterKeeps(d, id);
            }
          }
        case Launch(id) => if At(d, id, Entered) { MoveKeeps(d, id, Child); }
        case Return(id) => if At(d, id, Entered) || At(d, id, Child) { MoveKeeps(d, id, Exited); }
        case Leave(id) => if At(d, id, Exited) { LeaveKeeps(d, id); }
      }
    }
  }

  /** A thread that asks to enter is skipped exactly when an instance of its script is live; otherwise it enters, or it
      is rejected and done. */
  lemma {:induction false} SkippedIff(events: seq<Event>, id: nat)
    requires At(After(events), id, Spawned)
    ensures var d, d' := After(events), After(events + [Enter(id)]);
            && (At(d', id, Skipped) <==>
                exists j :: 0 <= j < |d.threads| && Live(d.threads[j]) && d.threads[j].script == d.threads[id].script)
            && (!At(d', id, Skipped) ==> At(d', id, Entered))
            && After(events + [Reject(id)]) == d.(threads := d.threads[id := Thread(d.threads[id].script, Done)])
  {
    hide After;
    ScriptsExcludeThemselves(events);
    AfterSnoc(events, Enter(id));
    AfterSnoc(events, Reject(id));
  }

  lemma {:induction false} AfterSnoc(events: seq<Event>, e: Event)
    ensures After(events + [e]) == Step(After(events), e)
  {
    assert (events + [e])[..|events|] == events;
  }

  /** A thread that has entered goes through its child, ends, and leaves the script free; no other thread moves. */
  lemma {:induction false} RunsThrough(events: seq<Event>, id: nat, launched: bool)
    requires At(After(events), id, Entered)
    ensures var d := After(events);
            var d' := After(events + (if launched then [Launch(id)] else []) + [Return(id)] + [Leave(id)]);
            && d' == Daemon(d.threads[id := Thread(d.threads[id].script, Done)], d.running - {d.threads[id].script})
            && (launched ==> At(After(events + [Launch(id)]), id, Child))
  {
    hide After;
    var begun := if launched then [Launch(id)] else [];
    AfterSnoc(events, Launch(id));
    assert events + [] == events;
    AfterSnoc(events + begun, Return(id));
    AfterSnoc(events + begun + [Return(id)], Leave(id));
    assert After(events + begun).threads == if launched then Move(After(events), id, Child) else After(events).threads;
  }

  lemma NobodyLive()
    ensures Exclusive(Daemon([], {}))
  {
  }
}
