/**
 * The weekly schedule resolver of the launcher's scheduling worker
 * (papermc-launcher/launcher.go, the loop inside Start): from the current
 * instant it picks the next inner command and the instant to fire it.
 *
 * Instants and durations are integers counting nanoseconds. The clock
 * reading, the local midnight of today and its weekday are inputs; the
 * time-zone conversion that produces them is not part of this model.
 *
 * The code is modelled as written. Two of its properties shape everything
 * below:
 *   - the result of `midnight.Add(24h)` is thrown away, so each of the
 *     eight iterations scans the same day (today) again;
 *   - a warn candidate changes the command but not the chosen instant.
 * Because the same day is rescanned with a smaller `nextTime`, a warn
 * instant that lost against a close instant in the first pass wins in the
 * second; from the second pass on nothing changes any more.
 */
module Scheduler {
  import opened LauncherConfig

  /** `InnerCmd`: what the scheduler hands to the event loop. */
  datatype InnerCmd = Backup | CloseAccess | OpenAccess | Warn

  /** One weekday's access window: opening and closing as durations since midnight. */
  datatype TimeInterval = TimeInterval(start: int, end: int)

  /** The schedule part of the configuration: the weekly windows and the warn lead times. */
  datatype Schedule = Schedule(days: map<Weekday, TimeInterval>, warnBefore: seq<int>)

  /** The clock reading the resolver starts from: now, today's local midnight and its weekday. */
  datatype Clock = Clock(now: int, midnight: int, weekday: Weekday)

  /** A decision: which command, at which instant. */
  datatype Plan = Plan(cmd: InnerCmd, at: int)

  /** The fixed weekly backup: Monday, one hour after midnight. */
  const BackupDay: Weekday := Monday
  const BackupOffset: int := Hour

  /** `c.Before(limit) && now.Before(c)`: the guard every candidate must pass. */
  predicate Eligible(now: int, c: int, limit: int) { now < c < limit }

  /** Some warn instant `end - offset` passes the guard against limit. */
  predicate WarnBetween(now: int, end: int, warns: seq<int>, limit: int)
  {
    exists k :: 0 <= k < |warns| && Eligible(now, end - warns[k], limit)
  }

  /** The decision before the scan: a backup one week from now. */
  function Initial(clk: Clock): Plan
  {
    Plan(Backup, clk.now + Week)
  }

  /**
   * One iteration of the scan over today, starting from decision p, stated
   * by which candidate writes last: the time goes down through the opening,
   * closing and backup instants in turn, each taken only when strictly
   * earlier than the running choice; the command is that of the last
   * candidate that passed its guard, warn candidates included.
   */
  function DayPass(clk: Clock, sch: Schedule, p: Plan): (r: Plan)
    ensures r.at <= p.at
    ensures r.at == p.at || clk.now < r.at
  {
    var entered := clk.weekday in sch.days;
    var window := if entered then sch.days[clk.weekday] else TimeInterval(0, 0);
    var start, end := clk.midnight + window.start, clk.midnight + window.end;
    var openWins := entered && Eligible(clk.now, start, p.at);
    var t1 := if openWins then start else p.at;
    var warnHits := entered && WarnBetween(clk.now, end, sch.warnBefore, t1);
    var closeWins := entered && Eligible(clk.now, end, t1);
    var t2 := if closeWins then end else t1;
    var backupWins := clk.weekday == BackupDay && Eligible(clk.now, clk.midnight + BackupOffset, t2);
    var t3 := if backupWins then clk.midnight + BackupOffset else t2;
    var cmd :=
      if backupWins then Backup
      else if closeWins then CloseAccess
      else if warnHits then Warn
      else if openWins then OpenAccess
      else p.cmd;
    Plan(cmd, t3)
  }

  /** The decision after k iterations of the scan. */
  function Passes(clk: Clock, sch: Schedule, k: nat): Plan
  {
    if k == 0 then Initial(clk) else DayPass(clk, sch, Passes(clk, sch, k - 1))
  }

  /** The decision after the first iteration. */
  function FirstPass(clk: Clock, sch: Schedule): Plan
  {
    DayPass(clk, sch, Initial(clk))
  }

  /** What the resolver decides: the scan settles after two iterations (see PassesSettle). */
  function Resolve(clk: Clock, sch: Schedule): Plan
  {
    DayPass(clk, sch, FirstPass(clk, sch))
  }

  /** Some warn instant of today lies strictly between now and t. */
  predicate WarnBefore(clk: Clock, sch: Schedule, t: int)
  {
    clk.weekday in sch.days
    && WarnBetween(clk.now, clk.midnight + sch.days[clk.weekday].end, sch.warnBefore, t)
  }

  /** No opening, closing or backup instant lies strictly between now and t. */
  predicate Settled(clk: Clock, sch: Schedule, t: int)
  {
    && (clk.weekday in sch.days ==>
         && !Eligible(clk.now, clk.midnight + sch.days[clk.weekday].start, t)
         && !Eligible(clk.now, clk.midnight + sch.days[clk.weekday].end, t))
    && (clk.weekday == BackupDay ==> !Eligible(clk.now, clk.midnight + BackupOffset, t))
  }

  /** After one iteration no time candidate is left below the chosen instant. */
  lemma DayPassSettles(clk: Clock, sch: Schedule, p: Plan)
    ensures Settled(clk, sch, DayPass(clk, sch, p).at)
  {
  }

  /** Once settled, an iteration keeps the instant and can only turn the command into Warn. */
  lemma DayPassOnSettled(clk: Clock, sch: Schedule, p: Plan)
    requires Settled(clk, sch, p.at)
    ensures DayPass(clk, sch, p).at == p.at
    ensures DayPass(clk, sch, p).cmd == if WarnBefore(clk, sch, p.at) then Warn else p.cmd
  {
  }

  /** The second iteration keeps the first one's instant and turns its command into Warn when a warn instant precedes it. */
  lemma ResolveFromFirstPass(clk: Clock, sch: Schedule)
    ensures Resolve(clk, sch).at == FirstPass(clk, sch).at
    ensures Resolve(clk, sch).cmd ==
      if WarnBefore(clk, sch, FirstPass(clk, sch).at) then Warn else FirstPass(clk, sch).cmd
  {
    DayPassSettles(clk, sch, Initial(clk));
    DayPassOnSettled(clk, sch, FirstPass(clk, sch));
  }

  /** From the second iteration on the decision no longer changes. */
  lemma DayPassStable(clk: Clock, sch: Schedule, p: Plan)
    ensures DayPass(clk, sch, DayPass(clk, sch, DayPass(clk, sch, p)))
         == DayPass(clk, sch, DayPass(clk, sch, p))
  {
    var q := DayPass(clk, sch, p);
    DayPassSettles(clk, sch, p);
    DayPassOnSettled(clk, sch, q);
    DayPassOnSettled(clk, sch, DayPass(clk, sch, q));
  }

  /** Any number of iterations from two on gives the resolved decision. */
  lemma {:induction false} PassesSettle(clk: Clock, sch: Schedule, k: nat)
    requires k >= 2
    ensures Passes(clk, sch, k) == Resolve(clk, sch)
  {
    if k > 2 {
      PassesSettle(clk, sch, k - 1);
      DayPassStable(clk, sch, Initial(clk));
    } else {
      assert Passes(clk, sch, 1) == FirstPass(clk, sch);
    }
  }

  /**
   * One iteration of the scheduling worker's scan: the body of its
   * eight-fold loop, updating `nextCommand` and `nextTime`.
   */
  method ScanToday(clk: Clock, sch: Schedule, cmd0: InnerCmd, nextTime0: int)
    returns (cmd: InnerCmd, nextTime: int)
    ensures Plan(cmd, nextTime) == DayPass(clk, sch, Plan(cmd0, nextTime0))
  {
    cmd, nextTime := cmd0, nextTime0;
    var midnight := clk.midnight;
    var weekday := clk.weekday;
    if weekday in sch.days {
      var window := sch.days[weekday];
      var startTime := midnight + window.start;
      if startTime < nextTime && clk.now < startTime {
        nextTime := startTime;
        cmd := OpenAccess;
      }
      var endTime := midnight + window.end;
      ghost var afterOpen := cmd;
      for j := 0 to |sch.warnBefore|
        invariant cmd == if WarnBetween(clk.now, endTime, sch.warnBefore[..j], nextTime)
                         then Warn else afterOpen
      {
        var warnTime := endTime - sch.warnBefore[j];
        if warnTime < nextTime && clk.now < warnTime {
          cmd := Warn;
        }
        assert sch.warnBefore[..j + 1][j] == sch.warnBefore[j];
        assert forall k :: 0 <= k < j ==> sch.warnBefore[..j + 1][k] == sch.warnBefore[..j][k];
      }
      assert sch.warnBefore[..|sch.warnBefore|] == sch.warnBefore;
      if endTime < nextTime && clk.now < endTime {
        nextTime := endTime;
        cmd := CloseAccess;
      }
    }
    if weekday == BackupDay {
      var bakTime := midnight + BackupOffset;
      if bakTime < nextTime && clk.now < bakTime {
        nextTime := bakTime;
        cmd := Backup;
      }
    }
  }

  /**
   * The scheduling worker's computation of `nextCommand` and `nextTime`:
   * eight iterations over the same day, a backup one week ahead by default.
   */
  method NextEvent(clk: Clock, sch: Schedule) returns (cmd: InnerCmd, at: int)
    ensures Plan(cmd, at) == Resolve(clk, sch)
    ensures clk.now < at <= clk.now + Week
    ensures Settled(clk, sch, at)
  {
    cmd := Backup;
    var midnight := clk.midnight;
    var nextTime := clk.now + Week;
    for i := 0 to 8
      invariant Plan(cmd, nextTime) == Passes(clk, sch, i)
    {
      cmd, nextTime := ScanToday(clk, sch, cmd, nextTime);
      // `midnight.Add(24h)` in the source: the advanced value is discarded.
      var _ := midnight + Day;
    }
    at := nextTime;
    PassesSettle(clk, sch, 8);
    ResolveBounds(clk, sch);
    ResolveFromFirstPass(clk, sch);
    DayPassSettles(clk, sch, Initial(clk));
  }

  /** The resolved instant is strictly after now and at most a week ahead. */
  lemma ResolveBounds(clk: Clock, sch: Schedule)
    ensures clk.now < Resolve(clk, sch).at <= clk.now + Week
  {
    ResolveFromFirstPass(clk, sch);
  }

  /**
   * The resolved instant is the earliest of the week-ahead default and of
   * today's opening, closing and (on Mondays) backup instants that lie
   * strictly after now, and it is one of them.
   */
  lemma ResolveIsEarliest(clk: Clock, sch: Schedule)
    ensures var r := Resolve(clk, sch);
      && Settled(clk, sch, r.at)
      && (r.at == clk.now + Week
          || (clk.weekday in sch.days && r.at == clk.midnight + sch.days[clk.weekday].start)
          || (clk.weekday in sch.days && r.at == clk.midnight + sch.days[clk.weekday].end)
          || (clk.weekday == BackupDay && r.at == clk.midnight + BackupOffset))
  {
    ResolveFromFirstPass(clk, sch);
    DayPassSettles(clk, sch, Initial(clk));
  }

  /** Warn lead times never move the resolved instant: only the command can differ. */
  lemma WarnKeepsInstant(clk: Clock, sch: Schedule)
    ensures Resolve(clk, sch).at == Resolve(clk, sch.(warnBefore := [])).at
  {
    ResolveFromFirstPass(clk, sch);
    ResolveFromFirstPass(clk, sch.(warnBefore := []));
  }

  /** A day without a window yields neither Open, Close nor Warn: a backup, today at 01:00 if Monday, else in a week. */
  lemma NoWindowOnlyBackup(clk: Clock, sch: Schedule)
    requires clk.weekday !in sch.days
    ensures Resolve(clk, sch).cmd == Backup
    ensures Resolve(clk, sch).at == clk.now + Week
         || (clk.weekday == BackupDay && Resolve(clk, sch).at == clk.midnight + BackupOffset)
  {
    ResolveFromFirstPass(clk, sch);
  }

  /** The backup at 01:00 is only ever proposed on Monday; on other days Backup means the default. */
  lemma BackupOnlyMonday(clk: Clock, sch: Schedule)
    requires clk.weekday != BackupDay
    requires Resolve(clk, sch).cmd == Backup
    ensures Resolve(clk, sch).at == clk.now + Week
  {
    ResolveFromFirstPass(clk, sch);
  }

  /**
   * CloseAccess is never resolved while some warn instant of today lies
   * strictly between now and the closing instant: the second iteration
   * replaces it by Warn at the closing instant.
   */
  lemma WarnHidesClose(clk: Clock, sch: Schedule)
    requires clk.weekday in sch.days
    requires WarnBefore(clk, sch, clk.midnight + sch.days[clk.weekday].end)
    ensures Resolve(clk, sch).cmd != CloseAccess
  {
    ResolveFromFirstPass(clk, sch);
  }

  /** The example week: Monday 08:00 to 22:00 with one warning 30 minutes before closing. */
  function MondayExample(): Schedule
  {
    Schedule(map[Monday := TimeInterval(8 * Hour, 22 * Hour)], [30 * Minute])
  }

  /** Monday 07:00: the next event is opening at 08:00. */
  lemma ExampleOpensAtEight(midnight: int)
    ensures Resolve(Clock(midnight + 7 * Hour, midnight, Monday), MondayExample())
         == Plan(OpenAccess, midnight + 8 * Hour)
  {
    ResolveFromFirstPass(Clock(midnight + 7 * Hour, midnight, Monday), MondayExample());
  }

  /**
   * Monday 21:00: one iteration gives closing at 22:00, but the second
   * iteration rechecks the 21:30 warning against 22:00 and turns the
   * decision into a warning at 22:00; closing is never chosen.
   */
  lemma ExampleWarnReplacesClose(midnight: int)
    ensures var clk := Clock(midnight + 21 * Hour, midnight, Monday);
      && FirstPass(clk, MondayExample()) == Plan(CloseAccess, midnight + 22 * Hour)
      && Resolve(clk, MondayExample()) == Plan(Warn, midnight + 22 * Hour)
  {
    var clk := Clock(midnight + 21 * Hour, midnight, Monday);
    assert Eligible(clk.now, midnight + 22 * Hour - MondayExample().warnBefore[0], clk.now + Week);
    assert Eligible(clk.now, midnight + 22 * Hour - MondayExample().warnBefore[0], midnight + 22 * Hour);
    ResolveFromFirstPass(clk, MondayExample());
  }
}
