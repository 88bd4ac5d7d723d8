/**
 * The schedule resolver as its loop evidently means to work: the eight
 * iterations walk today and the seven following days (midnight moves on by
 * one day each time), and a warn instant, like every other candidate,
 * becomes the chosen instant when it wins. The resolver then picks the
 * earliest candidate after now, as the Scheduler module's findings show
 * the code as written does not.
 */
module IntendedScheduler {
  import opened LauncherConfig
  import opened Scheduler

  /** The candidates of one day, in the order the loop body looks at them. */
  function DayCandidates(sch: Schedule, midnight: int, weekday: Weekday): seq<Plan>
  {
    (if weekday in sch.days then
       [Plan(OpenAccess, midnight + sch.days[weekday].start)]
       + WarnCandidates(midnight + sch.days[weekday].end, sch.warnBefore)
       + [Plan(CloseAccess, midnight + sch.days[weekday].end)]
     else [])
    + (if weekday == BackupDay then [Plan(Backup, midnight + BackupOffset)] else [])
  }

  /** One warn candidate per lead time, `end - offset`. */
  function WarnCandidates(end: int, warnBefore: seq<int>): (ws: seq<Plan>)
    ensures |ws| == |warnBefore|
  {
    seq(|warnBefore|, k requires 0 <= k < |warnBefore| => Plan(Warn, end - warnBefore[k]))
  }

  /** The weekday k days after a day of weekday wd. */
  function ShiftWeekday(wd: Weekday, k: nat): Weekday
  {
    (wd + k) % 7
  }

  /** The candidates of the days k up to (not including) n after today, in scan order. */
  function DaysFrom(clk: Clock, sch: Schedule, k: nat, n: nat): seq<Plan>
    decreases n - k
  {
    if k >= n then []
    else DayCandidates(sch, clk.midnight + k * Day, ShiftWeekday(clk.weekday, k)) + DaysFrom(clk, sch, k + 1, n)
  }

  /** A candidate replaces the running choice when it lies strictly between now and the choice. */
  function Consider(now: int, p: Plan, c: Plan): Plan
  {
    if now < c.at < p.at then c else p
  }

  /** Considering candidates in order, starting from choice p. */
  function Earliest(now: int, p: Plan, cs: seq<Plan>): Plan
  {
    if cs == [] then p else Consider(now, Earliest(now, p, cs[..|cs| - 1]), cs[|cs| - 1])
  }

  /** The intended decision: the earliest candidate of the coming eight days, or the default. */
  function IntendedResolve(clk: Clock, sch: Schedule): Plan
  {
    Earliest(clk.now, Initial(clk), DaysFrom(clk, sch, 0, 8))
  }

  /** Considering two runs of candidates is considering the first, then the second. */
  lemma {:induction false} EarliestAppend(now: int, p: Plan, a: seq<Plan>, b: seq<Plan>)
    ensures Earliest(now, p, a + b) == Earliest(now, Earliest(now, p, a), b)
  {
    if b == [] {
      assert a + b == a;
    } else {
      assert (a + b)[..|a + b| - 1] == a + b[..|b| - 1];
      EarliestAppend(now, p, a, b[..|b| - 1]);
    }
  }

  /** Considering one more candidate after a run. */
  lemma EarliestSnoc(now: int, p: Plan, cs: seq<Plan>, c: Plan)
    ensures Earliest(now, p, cs + [c]) == Consider(now, Earliest(now, p, cs), c)
  {
    assert (cs + [c])[..|cs + [c]| - 1] == cs;
  }

  /**
   * The choice is the start or one of the candidates, it lies strictly after
   * now, and no candidate lies strictly between now and it.
   */
  lemma {:induction false} EarliestIsMinimum(now: int, p: Plan, cs: seq<Plan>)
    requires now < p.at
    ensures var r := Earliest(now, p, cs);
      && now < r.at <= p.at
      && (forall k :: 0 <= k < |cs| && now < cs[k].at ==> r.at <= cs[k].at)
      && (r == p || exists k :: 0 <= k < |cs| && r == cs[k])
  {
    if cs != [] {
      var init := cs[..|cs| - 1];
      EarliestIsMinimum(now, p, init);
      var mid := Earliest(now, p, init);
      var r := Earliest(now, p, cs);
      forall k | 0 <= k < |cs| && now < cs[k].at
        ensures r.at <= cs[k].at
      {
        if k < |init| {
          assert cs[k] == init[k];
        }
      }
      if r == mid && mid != p {
        var j :| 0 <= j < |init| && mid == init[j];
        assert r == cs[j];
      }
    }
  }

  /** Candidates that all lie at or after the choice made on a first run leave that choice alone. */
  lemma EarliestThenKeeps(now: int, p: Plan, a: seq<Plan>, rest: seq<Plan>)
    requires forall k :: 0 <= k < |rest| ==> Earliest(now, p, a).at <= rest[k].at
    ensures Earliest(now, p, a + rest) == Earliest(now, p, a)
  {
    EarliestAppend(now, p, a, rest);
    EarliestKeeps(now, Earliest(now, p, a), rest);
  }

  /** Candidates none of which lies strictly before the choice leave it alone. */
  lemma {:induction false} EarliestKeeps(now: int, p: Plan, cs: seq<Plan>)
    requires forall k :: 0 <= k < |cs| ==> p.at <= cs[k].at
    ensures Earliest(now, p, cs) == p
  {
    if cs != [] {
      EarliestKeeps(now, p, cs[..|cs| - 1]);
    }
  }

  /** Appending the next day to the scanned days. */
  lemma {:induction false} DaysFromExtend(clk: Clock, sch: Schedule, k: nat, n: nat)
    requires k <= n
    ensures DaysFrom(clk, sch, k, n + 1)
         == DaysFrom(clk, sch, k, n) + DayCandidates(sch, clk.midnight + n * Day, ShiftWeekday(clk.weekday, n))
    decreases n - k
  {
    if k < n {
      DaysFromExtend(clk, sch, k + 1, n);
    }
  }

  /** The scanned days start with today. */
  lemma DaysFromFirst(clk: Clock, sch: Schedule, n: nat)
    requires n >= 1
    ensures DaysFrom(clk, sch, 0, n) == DayCandidates(sch, clk.midnight, clk.weekday) + DaysFrom(clk, sch, 1, n)
  {
    assert ShiftWeekday(clk.weekday, 0) == clk.weekday;
  }

  /** Every window instant and warn instant of the schedule lies at or after its day's midnight. */
  predicate OffsetsNonNegative(sch: Schedule)
  {
    forall wd :: wd in sch.days ==>
      && 0 <= sch.days[wd].start
      && 0 <= sch.days[wd].end
      && (forall j :: 0 <= j < |sch.warnBefore| ==> sch.warnBefore[j] <= sch.days[wd].end)
  }

  /** With non-negative offsets, the candidates of a day lie at or after its midnight. */
  lemma DayCandidatesNotBefore(sch: Schedule, midnight: int, weekday: Weekday)
    requires OffsetsNonNegative(sch)
    ensures forall j :: 0 <= j < |DayCandidates(sch, midnight, weekday)| ==> midnight <= DayCandidates(sch, midnight, weekday)[j].at
  {
    if weekday in sch.days {
      var w := sch.days[weekday];
      var warns := WarnCandidates(midnight + w.end, sch.warnBefore);
      assert forall j :: 0 <= j < |warns| ==> midnight <= warns[j].at by {
        forall j | 0 <= j < |warns|
          ensures midnight <= warns[j].at
        {
          assert warns[j].at == midnight + w.end - sch.warnBefore[j];
        }
      }
    }
  }

  /** With non-negative offsets, the candidates of day k onwards lie at or after that day's midnight. */
  lemma {:induction false} DaysFromNotBefore(clk: Clock, sch: Schedule, k: nat, n: nat)
    requires OffsetsNonNegative(sch)
    ensures forall j :: 0 <= j < |DaysFrom(clk, sch, k, n)| ==> clk.midnight + k * Day <= DaysFrom(clk, sch, k, n)[j].at
    decreases n - k
  {
    if k < n {
      DaysFromNotBefore(clk, sch, k + 1, n);
      var m := clk.midnight + k * Day;
      var day := DayCandidates(sch, m, ShiftWeekday(clk.weekday, k));
      var rest := DaysFrom(clk, sch, k + 1, n);
      DayCandidatesNotBefore(sch, m, ShiftWeekday(clk.weekday, k));
      assert forall j :: 0 <= j < |rest| ==> m <= rest[j].at;
    }
  }

  /** The inner loop over the warn lead times, a warn candidate setting the instant as well as the command. */
  method ScanWarns(now: int, endTime: int, warnBefore: seq<int>, cmd0: InnerCmd, nextTime0: int)
    returns (cmd: InnerCmd, nextTime: int)
    ensures Plan(cmd, nextTime) == Earliest(now, Plan(cmd0, nextTime0), WarnCandidates(endTime, warnBefore))
  {
    cmd, nextTime := cmd0, nextTime0;
    for j := 0 to |warnBefore|
      invariant Plan(cmd, nextTime) == Earliest(now, Plan(cmd0, nextTime0), WarnCandidates(endTime, warnBefore[..j]))
    {
      var warnTime := endTime - warnBefore[j];
      EarliestSnoc(now, Plan(cmd0, nextTime0), WarnCandidates(endTime, warnBefore[..j]), Plan(Warn, warnTime));
      if warnTime < nextTime && now < warnTime {
        nextTime := warnTime;
        cmd := Warn;
      }
      assert WarnCandidates(endTime, warnBefore[..j + 1])
          == WarnCandidates(endTime, warnBefore[..j]) + [Plan(Warn, warnTime)];
    }
    assert warnBefore[..|warnBefore|] == warnBefore;
  }

  /**
   * The candidates of one day, with the warn candidates setting the chosen
   * instant as well as the command.
   */
  method ScanDay(now: int, midnight: int, weekday: Weekday, sch: Schedule, cmd0: InnerCmd, nextTime0: int)
    returns (cmd: InnerCmd, nextTime: int)
    ensures Plan(cmd, nextTime) == Earliest(now, Plan(cmd0, nextTime0), DayCandidates(sch, midnight, weekday))
  {
    var p0 := Plan(cmd0, nextTime0);
    cmd, nextTime := cmd0, nextTime0;
    ghost var seen: seq<Plan> := [];
    if weekday in sch.days {
      var window := sch.days[weekday];
      var startTime := midnight + window.start;
      EarliestSnoc(now, p0, [], Plan(OpenAccess, startTime));
      if startTime < nextTime && now < startTime {
        nextTime := startTime;
        cmd := OpenAccess;
      }
      seen := [Plan(OpenAccess, startTime)];
      var endTime := midnight + window.end;
      cmd, nextTime := ScanWarns(now, endTime, sch.warnBefore, cmd, nextTime);
      EarliestAppend(now, p0, seen, WarnCandidates(endTime, sch.warnBefore));
      seen := seen + WarnCandidates(endTime, sch.warnBefore);
      EarliestSnoc(now, p0, seen, Plan(CloseAccess, endTime));
      if endTime < nextTime && now < endTime {
        nextTime := endTime;
        cmd := CloseAccess;
      }
      seen := seen + [Plan(CloseAccess, endTime)];
    }
    if weekday == BackupDay {
      var bakTime := midnight + BackupOffset;
      EarliestSnoc(now, p0, seen, Plan(Backup, bakTime));
      if bakTime < nextTime && now < bakTime {
        nextTime := bakTime;
        cmd := Backup;
      }
      seen := seen + [Plan(Backup, bakTime)];
    }
    assert seen == DayCandidates(sch, midnight, weekday);
  }

  /** Scanning one more day continues from the choice after the days before. */
  lemma ScanNextDay(clk: Clock, sch: Schedule, i: nat)
    ensures Earliest(clk.now, Initial(clk), DaysFrom(clk, sch, 0, i + 1))
         == Earliest(clk.now, Earliest(clk.now, Initial(clk), DaysFrom(clk, sch, 0, i)),
                     DayCandidates(sch, clk.midnight + i * Day, ShiftWeekday(clk.weekday, i)))
  {
    DaysFromExtend(clk, sch, 0, i);
    EarliestAppend(clk.now, Initial(clk), DaysFrom(clk, sch, 0, i),
                   DayCandidates(sch, clk.midnight + i * Day, ShiftWeekday(clk.weekday, i)));
  }

  /**
   * The scheduling worker's loop with midnight moved on each iteration and
   * warn candidates setting the instant: the earliest event of today and
   * the seven following days, or a backup a week ahead.
   */
  method NextEventIntended(clk: Clock, sch: Schedule) returns (cmd: InnerCmd, at: int)
    ensures Plan(cmd, at) == IntendedResolve(clk, sch)
    ensures clk.now < at <= clk.now + Week
  {
    cmd := Backup;
    var midnight := clk.midnight;
    var nextTime := clk.now + Week;
    for i := 0 to 8
      invariant midnight == clk.midnight + i * Day
      invariant Plan(cmd, nextTime) == Earliest(clk.now, Initial(clk), DaysFrom(clk, sch, 0, i))
    {
      var weekday := ShiftWeekday(clk.weekday, i);
      cmd, nextTime := ScanDay(clk.now, midnight, weekday, sch, cmd, nextTime);
      ScanNextDay(clk, sch, i);
      midnight := midnight + Day;
    }
    at := nextTime;
    IntendedResolveBounds(clk, sch);
  }

  /** The intended decision lies in (now, now + week]. */
  lemma IntendedResolveBounds(clk: Clock, sch: Schedule)
    ensures clk.now < IntendedResolve(clk, sch).at <= clk.now + Week
  {
    IntendedResolveIsEarliest(clk, sch);
  }

  /**
   * The intended decision lies in (now, now + week], it is the default or
   * one of the candidates of the coming eight days, and no candidate of
   * those days lies strictly between now and it.
   */
  lemma IntendedResolveIsEarliest(clk: Clock, sch: Schedule)
    ensures var r := IntendedResolve(clk, sch);
      var cs := DaysFrom(clk, sch, 0, 8);
      && clk.now < r.at <= clk.now + Week
      && (forall k :: 0 <= k < |cs| && clk.now < cs[k].at ==> r.at <= cs[k].at)
      && (r == Initial(clk) || exists k :: 0 <= k < |cs| && r == cs[k])
  {
    EarliestIsMinimum(clk.now, Initial(clk), DaysFrom(clk, sch, 0, 8));
  }

  /** The example week's one warning before a 22:00 closing falls at 21:30. */
  lemma MondayExampleWarn(midnight: int)
    ensures WarnCandidates(midnight + 22 * Hour, MondayExample().warnBefore)
         == [Plan(Warn, midnight + 21 * Hour + 30 * Minute)]
  {
  }

  /** Monday 21:00 in the example week: among today's candidates the 21:30 warning wins. */
  lemma MondayExampleToday(midnight: int)
    ensures var clk := Clock(midnight + 21 * Hour, midnight, Monday);
      Earliest(clk.now, Initial(clk), DayCandidates(MondayExample(), midnight, Monday))
        == Plan(Warn, midnight + 21 * Hour + 30 * Minute)
  {
    var now := midnight + 21 * Hour;
    var p0 := Initial(Clock(now, midnight, Monday));
    var open := Plan(OpenAccess, midnight + 8 * Hour);
    var warn := Plan(Warn, midnight + 21 * Hour + 30 * Minute);
    var close := Plan(CloseAccess, midnight + 22 * Hour);
    MondayExampleWarn(midnight);
    assert DayCandidates(MondayExample(), midnight, Monday) == [open, warn, close] + [Plan(Backup, midnight + Hour)];
    EarliestSnoc(now, p0, [], open);
    assert [] + [open] == [open];
    EarliestSnoc(now, p0, [open], warn);
    EarliestSnoc(now, p0, [open, warn], close);
    EarliestSnoc(now, p0, [open, warn, close], Plan(Backup, midnight + Hour));
  }

  /** The same Monday 21:00 as in the Scheduler example: the warning at 21:30 is the next event. */
  lemma IntendedExampleWarnsAtHalfPast(midnight: int)
    ensures IntendedResolve(Clock(midnight + 21 * Hour, midnight, Monday), MondayExample())
         == Plan(Warn, midnight + 21 * Hour + 30 * Minute)
  {
    var clk := Clock(midnight + 21 * Hour, midnight, Monday);
    var sch := MondayExample();
    DaysFromFirst(clk, sch, 8);
    MondayExampleToday(midnight);
    MondayExampleLaterDays(clk);
    EarliestThenKeeps(clk.now, Initial(clk), DayCandidates(sch, midnight, Monday), DaysFrom(clk, sch, 1, 8));
  }

  /** From Tuesday on, no candidate of the example week precedes Monday 21:30. */
  lemma MondayExampleLaterDays(clk: Clock)
    ensures var rest := DaysFrom(clk, MondayExample(), 1, 8);
      forall k :: 0 <= k < |rest| ==> clk.midnight + 21 * Hour + 30 * Minute <= rest[k].at
  {
    DaysFromNotBefore(clk, MondayExample(), 1, 8);
  }

  /** Only a Tuesday window, 08:00 to 22:00, without warnings. */
  function TuesdayOnly(): Schedule
  {
    Schedule(map[Tuesday := TimeInterval(8 * Hour, 22 * Hour)], [])
  }

  /** Monday noon with only a Tuesday window: the next event is tomorrow's opening. */
  lemma IntendedExampleOpensTomorrow(midnight: int)
    ensures IntendedResolve(Clock(midnight + 12 * Hour, midnight, Monday), TuesdayOnly())
         == Plan(OpenAccess, midnight + Day + 8 * Hour)
  {
    var clk := Clock(midnight + 12 * Hour, midnight, Monday);
    var sch := TuesdayOnly();
    TuesdayOnlyDays(clk);
    TuesdayOnlyFirstTwoDays(midnight);
    TuesdayOnlyLaterDays(clk);
    EarliestThenKeeps(clk.now, Initial(clk),
      DayCandidates(sch, midnight, Monday) + DayCandidates(sch, midnight + Day, Tuesday), DaysFrom(clk, sch, 2, 8));
  }

  /** From Wednesday on, no candidate precedes Tuesday's opening. */
  lemma TuesdayOnlyLaterDays(clk: Clock)
    ensures var rest := DaysFrom(clk, TuesdayOnly(), 2, 8);
      forall k :: 0 <= k < |rest| ==> clk.midnight + Day + 8 * Hour <= rest[k].at
  {
    TuesdayOnlyNonNegative();
    DaysFromNotBefore(clk, TuesdayOnly(), 2, 8);
  }

  /** The scanned days of a Monday, split into today, tomorrow and the rest. */
  lemma TuesdayOnlyDays(clk: Clock)
    requires clk.weekday == Monday
    ensures DaysFrom(clk, TuesdayOnly(), 0, 8)
         == (DayCandidates(TuesdayOnly(), clk.midnight, Monday)
          + DayCandidates(TuesdayOnly(), clk.midnight + Day, Tuesday)) + DaysFrom(clk, TuesdayOnly(), 2, 8)
  {
    assert ShiftWeekday(Monday, 1) == Tuesday;
  }

  /** Monday noon: today offers only the passed backup, tomorrow's opening then wins. */
  lemma TuesdayOnlyFirstTwoDays(midnight: int)
    ensures var clk := Clock(midnight + 12 * Hour, midnight, Monday);
      Earliest(clk.now, Initial(clk),
               DayCandidates(TuesdayOnly(), midnight, Monday) + DayCandidates(TuesdayOnly(), midnight + Day, Tuesday))
        == Plan(OpenAccess, midnight + Day + 8 * Hour)
  {
    var now := midnight + 12 * Hour;
    var p0 := Initial(Clock(now, midnight, Monday));
    var open := Plan(OpenAccess, midnight + Day + 8 * Hour);
    assert DayCandidates(TuesdayOnly(), midnight, Monday) == [] + [Plan(Backup, midnight + Hour)];
    EarliestSnoc(now, p0, [], Plan(Backup, midnight + Hour));
    assert DayCandidates(TuesdayOnly(), midnight + Day, Tuesday) == [open] + [Plan(CloseAccess, midnight + Day + 22 * Hour)];
    EarliestSnoc(now, p0, [], open);
    assert [] + [open] == [open];
    EarliestSnoc(now, p0, [open], Plan(CloseAccess, midnight + Day + 22 * Hour));
    EarliestAppend(now, p0, DayCandidates(TuesdayOnly(), midnight, Monday), DayCandidates(TuesdayOnly(), midnight + Day, Tuesday));
  }

  lemma TuesdayOnlyNonNegative()
    ensures OffsetsNonNegative(TuesdayOnly())
  {
  }

  /** As written, the same Monday noon ignores Tuesday: the default backup a week ahead. */
  lemma AsWrittenIgnoresTomorrow(midnight: int)
    ensures Resolve(Clock(midnight + 12 * Hour, midnight, Monday), TuesdayOnly())
         == Plan(Backup, midnight + 12 * Hour + Week)
  {
    ResolveFromFirstPass(Clock(midnight + 12 * Hour, midnight, Monday), TuesdayOnly());
  }
}
