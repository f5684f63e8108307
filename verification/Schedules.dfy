/** Schedule texts and the next time they fire (src-tauri/src/core/scheduler.rs, lines 90-177). */
module Schedules {
  import opened Wrappers

  /**
   * What follows the prefix of a schedule text. A cron expression stands for the instants the cron
   * iterator enumerates, in its order; `BadText` does not parse, whatever its prefix.
   */
  datatype ScheduleText =
    | CronText(instants: seq<int>)
    | EveryText(n: nat, unit: string)
    | OnceText(at: int)
    | BadText(oncePrefix: bool)

  datatype ScheduleKind = Cron(instants: seq<int>) | Every(secs: nat) | Once(at: int)

  const U64_MAX: nat := 0xFFFF_FFFF_FFFF_FFFF
  const MAX_INTERVAL: nat := 30 * 86400

  function UnitSeconds(unit: string): Option<nat> {
    if unit == "m" then Some(60) else if unit == "h" then Some(3600) else if unit == "d" then Some(86400) else None
  }

  /** `parse_schedule`. */
  function ParseSchedule(text: ScheduleText): (r: Option<ScheduleKind>)
    ensures r.Some? && r.value.Every? ==> 0 < r.value.secs <= MAX_INTERVAL
  {
    match text
    case CronText(instants) => Some(Cron(instants))
    case OnceText(at) => Some(Once(at))
    case BadText(_) => None
    case EveryText(n, unit) =>
      if n == 0 || n > U64_MAX then None
      else match UnitSeconds(unit)
        case None => None
        case Some(u) => if n * u > U64_MAX || n * u > MAX_INTERVAL then None else Some(Every(n * u))
  }

  /** How far two occurrences of a schedule are apart, at least. */
  function Gap(text: ScheduleText): (r: nat)
    ensures r >= 1
  {
    match ParseSchedule(text)
    case Some(Every(secs)) => secs
    case _ => 1
  }

  predicate StartsWithOnce(text: ScheduleText) {
    text.OnceText? || (text.BadText? && text.oncePrefix)
  }

  /** The first enumerated instant after `now`; earlier ones are skipped even if enumerated first. */
  function FirstAfter(instants: seq<int>, now: int): (r: Option<int>)
    ensures r.Some? ==> r.value > now && r.value in instants
    ensures r.None? <==> forall t | t in instants :: t <= now
  {
    if instants == [] then None
    else
      assert instants == [instants[0]] + instants[1..];
      if instants[0] > now then Some(instants[0]) else FirstAfter(instants[1..], now)
  }

  /** `ScheduleKind::next_after`: always strictly later than `now`. */
  function NextAfter(kind: ScheduleKind, now: int): (r: Option<int>)
    requires kind.Every? ==> kind.secs > 0
    ensures r.Some? ==> r.value >= now + if kind.Every? then kind.secs else 1
  {
    match kind
    case Cron(instants) => FirstAfter(instants, now)
    case Every(secs) => Some(now + secs)
    case Once(at) => if at > now then Some(at) else None
  }

  /** `corrected_cron_next`. */
  function CorrectedCron(instants: seq<int>, now: int, stored: int): (r: Option<int>)
    ensures r.Some? ==> r.value > now
  {
    match FirstAfter(instants, now)
    case None => None
    case Some(expected) =>
      if stored !in instants || (stored > now && stored != expected) then Some(expected) else None
  }

  predicate Increasing(instants: seq<int>) {
    forall i, j | 0 <= i < j < |instants| :: instants[i] < instants[j]
  }

  /** On an increasing cron schedule the next occurrence skips none. */
  lemma {:induction false} CronSkipsNothing(instants: seq<int>, now: int, t: int)
    requires Increasing(instants) && t in instants && t > now
    ensures FirstAfter(instants, now).Some? && FirstAfter(instants, now).value <= t
  {
    if instants[0] <= now {
      CronSkipsNothing(instants[1..], now, t);
    } else {
      var i :| 0 <= i < |instants| && instants[i] == t;
    }
  }

  /**
   * A stored time stays as it is if and only if the schedule has no occurrence left, or the time is one of the schedule
   * and is either due by now or the earliest one to come. What replaces it is the earliest one to come.
   */
  lemma {:induction false} CorrectionIff(instants: seq<int>, now: int, stored: int)
    requires Increasing(instants)
    ensures CorrectedCron(instants, now, stored).None? <==>
      (forall t | t in instants :: t <= now)
      || (stored in instants && (stored <= now || forall t | t in instants && t > now :: stored <= t))
    ensures CorrectedCron(instants, now, stored).Some? ==>
      var r := CorrectedCron(instants, now, stored).value;
      r in instants && r > now && forall t | t in instants && t > now :: r <= t
  {
    forall t | t in instants && t > now
      ensures FirstAfter(instants, now).Some? && FirstAfter(instants, now).value <= t
    {
      CronSkipsNothing(instants, now, t);
    }
  }

  /** Any cron expression or time that parses is a schedule, and so are intervals of whole units up to 30 days. */
  predicate Parses(text: ScheduleText) {
    match text
    case CronText(_) => true
    case OnceText(_) => true
    case BadText(_) => false
    case EveryText(n, unit) =>
      n > 0 && ((unit == "m" && n <= 43200) || (unit == "h" && n <= 720) || (unit == "d" && n <= 30))
  }

  lemma {:induction false} ParseIff(text: ScheduleText)
    ensures ParseSchedule(text).Some? <==> Parses(text)
    ensures text.EveryText? && ParseSchedule(text).Some? ==>
      ParseSchedule(text).value ==
        Every(text.n * (if text.unit == "m" then 60 else if text.unit == "h" then 3600 else 86400))
  {
  }

  /** The first enumerated instant after `now`, or none is. */
  ghost predicate FirstComing(instants: seq<int>, now: int, next: Option<int>) {
    match next
    case None => forall t | t in instants :: t <= now
    case Some(t) =>
      exists i | 0 <= i < |instants| :: instants[i] == t && t > now && forall j | 0 <= j < i :: instants[j] <= now
  }

  /** What a schedule text says comes after `now`: one interval, the first instant of the expression, or the time. */
  ghost predicate Fires(text: ScheduleText, now: int, next: Option<int>) {
    match text
    case EveryText(n, unit) =>
      next == Some(now + n * (if unit == "m" then 60 else if unit == "h" then 3600 else 86400))
    case OnceText(at) => next == if at > now then Some(at) else None
    case CronText(instants) => FirstComing(instants, now, next)
    case BadText(_) => false
  }

  lemma {:induction false} FirstAfterComes(instants: seq<int>, now: int)
    ensures FirstComing(instants, now, FirstAfter(instants, now))
  {
    if instants != [] && instants[0] <= now {
      FirstAfterComes(instants[1..], now);
      var next := FirstAfter(instants[1..], now);
      if next.Some? {
        var i :| 0 <= i < |instants[1..]| && instants[1..][i] == next.value
          && forall j | 0 <= j < i :: instants[1..][j] <= now;
        assert instants[i + 1] == next.value;
        assert forall j | 0 < j < i + 1 :: instants[j] == instants[1..][j - 1];
      }
    } else if instants != [] {
      assert instants[0] == FirstAfter(instants, now).value;
    }
  }

  lemma {:induction false} FiresOnce(text: ScheduleText, now: int, a: Option<int>, b: Option<int>)
    requires Fires(text, now, a) && Fires(text, now, b)
    ensures a == b
  {
    if text.CronText? {
      assert a.Some? ==> a.value in text.instants;
      assert b.Some? ==> b.value in text.instants;
    }
    if text.CronText? && a.Some? && b.Some? {
      var i :| 0 <= i < |text.instants| && text.instants[i] == a.value
        && forall j | 0 <= j < i :: text.instants[j] <= now;
      var k :| 0 <= k < |text.instants| && text.instants[k] == b.value
        && forall j | 0 <= j < k :: text.instants[j] <= now;
    }
  }

  /** The next time of a text that parses is what the text says, and nothing else is. */
  lemma {:induction false} NextAfterFires(text: ScheduleText, now: int)
    requires Parses(text)
    ensures ParseSchedule(text).Some?
    ensures forall next :: Fires(text, now, next) <==> next == NextAfter(ParseSchedule(text).value, now)
  {
    ParseIff(text);
    if text.CronText? {
      FirstAfterComes(text.instants, now);
    }
    assert Fires(text, now, NextAfter(ParseSchedule(text).value, now));
    forall next | Fires(text, now, next) ensures next == NextAfter(ParseSchedule(text).value, now) {
      FiresOnce(text, now, next, NextAfter(ParseSchedule(text).value, now));
    }
  }
}
