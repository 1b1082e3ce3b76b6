/**
  When a subscription is checked next (server/worker.ts).

  Times are local milliseconds counted from a Thursday midnight, in a zone whose clock never jumps.
 */
module Schedule {
  import opened Options

  const MINUTE := 60000
  const HOUR := 3600000
  const DAY := 86400000

  datatype Kind = Hourly(hours: nat) | Daily(at: nat) | Weekly(at: nat, weekday: nat)

  /** `at` is the minute of the day. */
  predicate KindOk(k: Kind) {
    match k
    case Hourly(hours) => hours > 0
    case Daily(at) => at < 24 * 60
    case Weekly(at, weekday) => at < 24 * 60 && weekday < 7
  }

  function Midnight(t: nat): nat { t - t % DAY }

  /** Sunday is 0. */
  function Weekday(t: nat): nat { (t / DAY + 4) % 7 }

  /** Spreads recurring work over four minutes. */
  function Stagger(id: nat): nat { id * 17 % 4 }

  // --- Occurrences ---

  /** The minute of the day a slot falls on; a stagger may carry it past midnight. */
  function SlotTime(minutes: nat): nat { minutes * MINUTE % DAY }

  predicate IsDaily(t: nat, minutes: nat) { t % DAY == SlotTime(minutes) }

  predicate IsWeekly(t: nat, minutes: nat, weekday: nat) { IsDaily(t, minutes) && Weekday(t) == weekday }

  lemma DaysLater(t: nat, n: nat)
    ensures (t + n * DAY) % DAY == t % DAY && (t + n * DAY) / DAY == t / DAY + n
  {
    if n > 0 {
      DaysLater(t, n - 1);
      var u := t + (n - 1) * DAY;
      assert t + n * DAY == u + DAY;
      OneDayLater(u);
    }
  }

  lemma OneDayLater(t: nat)
    ensures (t + DAY) % DAY == t % DAY && (t + DAY) / DAY == t / DAY + 1
  {
  }

  lemma WeekdayLater(t: nat, n: nat)
    ensures Weekday(t + n * DAY) == (Weekday(t) + n) % 7
  {
    DaysLater(t, n);
  }

  // --- The slot of a day, and the two ways it is moved ---

  /** `setHours` on the day of `now`. */
  function SlotOfDay(now: nat, minutes: nat): nat { Midnight(now) + minutes * MINUTE }

  predicate Crosses(minutes: nat) { minutes >= 24 * 60 }

  lemma SlotOfDayIs(now: nat, minutes: nat)
    requires minutes < 2 * 24 * 60
    ensures IsDaily(SlotOfDay(now, minutes), minutes)
    ensures SlotOfDay(now, minutes) / DAY == now / DAY + (if Crosses(minutes) then 1 else 0)
  {
    var m := Midnight(now);
    assert m == now / DAY * DAY;
    assert m % DAY == 0 && m / DAY == now / DAY;
    if Crosses(minutes) {
      var rest := minutes * MINUTE - DAY;
      assert 0 <= rest < DAY && (m + DAY + rest) % DAY == rest && minutes * MINUTE % DAY == rest;
    } else {
      assert (m + minutes * MINUTE) % DAY == minutes * MINUTE;
    }
  }

  function DailyResult(now: nat, minutes: nat): nat {
    if SlotOfDay(now, minutes) <= now then SlotOfDay(now, minutes) + DAY else SlotOfDay(now, minutes)
  }

  function DaysUntil(from: nat, weekday: nat): nat
    requires from < 7 && weekday < 7
  {
    (weekday + 7 - from) % 7
  }

  function WeekSlot(now: nat, minutes: nat, weekday: nat): nat
    requires weekday < 7
  {
    SlotOfDay(now, minutes) + DaysUntil(Weekday(SlotOfDay(now, minutes)), weekday) * DAY
  }

  function WeeklyResult(now: nat, minutes: nat, weekday: nat): nat
    requires weekday < 7
  {
    if WeekSlot(now, minutes, weekday) <= now then WeekSlot(now, minutes, weekday) + 7 * DAY
        else WeekSlot(now, minutes, weekday)
  }

  /** The daily result is a slot after `now`, at most a day and the stagger away. */
  lemma DailyLands(now: nat, at: nat, stagger: nat)
    requires at < 24 * 60 && stagger < 4
    ensures IsDaily(DailyResult(now, at + stagger), at + stagger)
    ensures now < DailyResult(now, at + stagger) <= now + DAY + stagger * MINUTE
  {
    SlotOfDayIs(now, at + stagger);
    OneDayLater(SlotOfDay(now, at + stagger));
    assert Midnight(now) <= now < Midnight(now) + DAY;
  }

  lemma WeekSlotLands(now: nat, minutes: nat, weekday: nat)
    requires minutes < 2 * 24 * 60 && weekday < 7
    ensures IsWeekly(WeekSlot(now, minutes, weekday), minutes, weekday)
  {
    SlotOfDayIs(now, minutes);
    var slot := SlotOfDay(now, minutes);
    var days := DaysUntil(Weekday(slot), weekday);
    DaysLater(slot, days);
    WeekdayLater(slot, days);
    hide SlotOfDay, SlotTime, Crosses, Weekday;
    assert (Weekday(slot) + days) % 7 == weekday;
  }

  /**
    The weekly result is on the configured weekday even when the stagger carries the slot past midnight, and
    within a week.
   */
  lemma WeeklyLands(now: nat, at: nat, stagger: nat, weekday: nat)
    requires at < 24 * 60 && stagger < 4 && weekday < 7
    ensures IsWeekly(WeeklyResult(now, at + stagger, weekday), at + stagger, weekday)
    ensures now < WeeklyResult(now, at + stagger, weekday) <= now + 7 * DAY + stagger * MINUTE
  {
    WeekSlotLands(now, at + stagger, weekday);
    WeekLater(WeekSlot(now, at + stagger, weekday), at + stagger, weekday);
    WeeklyBounds(now, at, stagger, weekday);
    hide WeekSlot, IsWeekly;
  }

  lemma WeekLater(t: nat, minutes: nat, weekday: nat)
    requires IsWeekly(t, minutes, weekday)
    ensures IsWeekly(t + 7 * DAY, minutes, weekday)
  {
    DaysLater(t, 7);
    WeekdayLater(t, 7);
    hide Weekday, SlotTime;
  }

  lemma WeeklyBounds(now: nat, at: nat, stagger: nat, weekday: nat)
    requires at < 24 * 60 && stagger < 4 && weekday < 7
    ensures now < WeeklyResult(now, at + stagger, weekday) <= now + 7 * DAY + stagger * MINUTE
  {
    assert Midnight(now) <= now < Midnight(now) + DAY;
    var days := DaysUntil(Weekday(SlotOfDay(now, at + stagger)), weekday);
    assert days * DAY <= 6 * DAY;
  }

  /** The window in which a slot that the stagger carried past midnight is still to come today. */
  predicate BeforeCarriedSlot(now: nat, minutes: nat) { Crosses(minutes) && now % DAY < SlotTime(minutes) }

  lemma SlotParts(now: nat, minutes: nat)
    requires minutes < 24 * 60 + 4
    ensures var day, slot := now / DAY * DAY, SlotOfDay(now, minutes);
      && now == day + now % DAY
      && slot == day + SlotTime(minutes) + (if Crosses(minutes) then DAY else 0)
      && SlotTime(minutes) < DAY
  {
    if Crosses(minutes) {
      assert SlotTime(minutes) == minutes * MINUTE - DAY;
    }
  }

  lemma EarliestDaily(now: nat, minutes: nat, t: nat)
    requires minutes < 24 * 60 + 4 && now < t && IsDaily(t, minutes) && !BeforeCarriedSlot(now, minutes)
    ensures DailyResult(now, minutes) <= t
  {
    SlotParts(now, minutes);
    assert t == t / DAY * DAY + SlotTime(minutes);
    var today, that := now / DAY, t / DAY;
    assert now == today * DAY + now % DAY;
    hide SlotTime, SlotOfDay, Crosses;
    assert that >= today;
    if that > today {
      assert that * DAY >= today * DAY + DAY;
    }
  }

  /**
    The daily result is the earliest slot after `now`, except in the minutes before a slot carried past
    midnight, which it passes over.
   */
  lemma DailyIsEarliest(now: nat, minutes: nat)
    requires minutes < 24 * 60 + 4
    ensures (forall t: nat :: now < t && IsDaily(t, minutes) ==> DailyResult(now, minutes) <= t)
        <==> !BeforeCarriedSlot(now, minutes)
  {
    SlotParts(now, minutes);
    if BeforeCarriedSlot(now, minutes) {
      var t := now / DAY * DAY + SlotTime(minutes);
      assert t % DAY == SlotTime(minutes);
      assert now < t && IsDaily(t, minutes) && t < DailyResult(now, minutes);
    } else {
      forall t: nat | now < t && IsDaily(t, minutes) ensures DailyResult(now, minutes) <= t {
        EarliestDaily(now, minutes, t);
      }
    }
  }

  /** The window of a weekly slot: it was carried into the configured weekday itself. */
  predicate BeforeCarriedWeekSlot(now: nat, minutes: nat, weekday: nat) {
    BeforeCarriedSlot(now, minutes) && Weekday(now) == weekday
  }

  /**
    The first day from `from` on that falls on the weekday: no day between is on it, and the next one is a
    week later.
   */
  lemma FirstSuchDay(from: nat, weekday: nat, day: nat)
    requires weekday < 7 && from <= day && (day + 4) % 7 == weekday
    ensures var first := from + DaysUntil((from + 4) % 7, weekday);
            first <= day && (first + 4) % 7 == weekday && (day != first ==> first + 7 <= day)
  {
    var w, gap := (from + 4) % 7, day - from;
    SumModSeven(from + 4, gap);
    SumModSeven(gap, w);
    StepsToDay(w, gap % 7, weekday);
    StepsToDay(w, DaysUntil(w, weekday), weekday);
    SumModSeven(from + 4, DaysUntil(w, weekday));
    hide DaysUntil;
    assert gap == gap / 7 * 7 + gap % 7;
  }

  lemma SumModSeven(a: nat, b: nat)
    ensures (a % 7 + b) % 7 == (a + b) % 7
  {
    assert a == a / 7 * 7 + a % 7;
  }

  lemma StepsToDay(w: nat, days: nat, weekday: nat)
    requires w < 7 && days < 7 && weekday < 7
    ensures (w + days) % 7 == weekday <==> days == DaysUntil(w, weekday)
  {
  }

  /**
    The weekly result counted in days: the first such day from the slot of today on, a week later when that
    has passed.
   */
  lemma WeekParts(now: nat, minutes: nat, weekday: nat)
    requires minutes < 24 * 60 + 4 && weekday < 7
    ensures var from := now / DAY + (if Crosses(minutes) then 1 else 0);
            var first := from + DaysUntil((from + 4) % 7, weekday);
      && SlotTime(minutes) < DAY
      && WeekSlot(now, minutes, weekday) == first * DAY + SlotTime(minutes)
      && WeeklyResult(now, minutes, weekday) == if WeekSlot(now, minutes, weekday) <= now
           then (first + 7) * DAY + SlotTime(minutes) else first * DAY + SlotTime(minutes)
  {
    SlotParts(now, minutes);
    SlotOfDayIs(now, minutes);
    var from := now / DAY + (if Crosses(minutes) then 1 else 0);
    var days := DaysUntil((from + 4) % 7, weekday);
    assert SlotOfDay(now, minutes) == from * DAY + SlotTime(minutes);
    assert Weekday(SlotOfDay(now, minutes)) == (from + 4) % 7;
    assert (from + days) * DAY == from * DAY + days * DAY;
    assert (from + days + 7) * DAY == (from + days) * DAY + 7 * DAY;
  }

  lemma EarliestWeekly(now: nat, minutes: nat, weekday: nat, t: nat)
    requires minutes < 24 * 60 + 4 && weekday < 7 && now < t && IsWeekly(t, minutes, weekday)
    requires !BeforeCarriedWeekSlot(now, minutes, weekday)
    ensures WeeklyResult(now, minutes, weekday) <= t
  {
    WeekParts(now, minutes, weekday);
    var today, that := now / DAY, t / DAY;
    var from := today + (if Crosses(minutes) then 1 else 0);
    assert t == that * DAY + SlotTime(minutes) && now == today * DAY + now % DAY;
    LaterDay(today, now % DAY, that, SlotTime(minutes));
    assert from <= that;
    FirstSuchDay(from, weekday, that);
    var first := from + DaysUntil((from + 4) % 7, weekday);
    hide SlotTime, WeekSlot, WeeklyResult, Crosses, DaysUntil;
    if that == first {
      assert first * DAY + SlotTime(minutes) == t;
    } else {
      assert (first + 7) * DAY <= that * DAY;
      assert first * DAY <= that * DAY;
    }
  }

  /** A later time is not on an earlier day, and on the same day its slot is later. */
  lemma LaterDay(today: nat, a: nat, that: nat, b: nat)
    requires a < DAY && b < DAY && today * DAY + a < that * DAY + b
    ensures today <= that && (today == that ==> a < b)
  {
  }

  /**
    The weekly result is the earliest such slot after `now`, except in the minutes before a slot that was
    carried past midnight into the configured weekday: it is passed over for a week.
   */
  lemma WeeklyIsEarliest(now: nat, minutes: nat, weekday: nat)
    requires minutes < 24 * 60 + 4 && weekday < 7
    ensures (forall t: nat :: now < t && IsWeekly(t, minutes, weekday) ==> WeeklyResult(now, minutes, weekday) <= t)
            <==> !BeforeCarriedWeekSlot(now, minutes, weekday)
  {
    if BeforeCarriedWeekSlot(now, minutes, weekday) {
      CarriedToday(now, minutes, weekday);
    } else {
      forall t: nat | now < t && IsWeekly(t, minutes, weekday) ensures WeeklyResult(now, minutes, weekday) <= t {
        EarliestWeekly(now, minutes, weekday, t);
      }
    }
  }

  lemma CarriedToday(now: nat, minutes: nat, weekday: nat)
    requires minutes < 24 * 60 + 4 && weekday < 7 && BeforeCarriedWeekSlot(now, minutes, weekday)
    ensures var t := now / DAY * DAY + SlotTime(minutes);
            now < t && IsWeekly(t, minutes, weekday) && t < WeeklyResult(now, minutes, weekday)
  {
    WeekParts(now, minutes, weekday);
    var t := now / DAY * DAY + SlotTime(minutes);
    assert t % DAY == SlotTime(minutes) && t / DAY == now / DAY;
    assert now == now / DAY * DAY + now % DAY;
    var first := now / DAY + 1 + DaysUntil((now / DAY + 5) % 7, weekday);
    assert (now / DAY + 1) * DAY <= first * DAY;
  }

  // --- The methods ---

  /** Moves the slot of today to tomorrow when it has passed. */
  method NextDaily(now: nat, at: nat, stagger: nat) returns (next: nat)
    requires at < 24 * 60 && stagger < 4
    ensures next == DailyResult(now, at + stagger)
  {
    next := Midnight(now) + (at + stagger) * MINUTE;
    if next <= now { next := next + DAY; }
  }

  /** Moves the slot of today to the weekday it falls on next, and a week on when that has passed. */
  method NextWeekly(now: nat, at: nat, stagger: nat, weekday: nat) returns (next: nat)
    requires at < 24 * 60 && stagger < 4 && weekday < 7
    ensures next == WeeklyResult(now, at + stagger, weekday)
  {
    next := Midnight(now) + (at + stagger) * MINUTE;
    var days := DaysUntil(Weekday(next), weekday);
    next := next + days * DAY;
    if next <= now { next := next + 7 * DAY; }
  }

  /** Steps from the anchor until it is past `now`: the earliest such time. */
  method NextHourly(anchor: nat, hours: nat, now: nat) returns (next: nat, k: nat)
    requires hours > 0
    ensures k >= 1 && next == anchor + k * (hours * HOUR) && now < next
    ensures forall j: nat :: 1 <= j < k ==> anchor + j * (hours * HOUR) <= now
  {
    var step := hours * HOUR;
    assert step >= 1;
    next, k := anchor + step, 1;
    while next <= now
      invariant k >= 1 && next == anchor + k * step
      invariant forall j: nat :: 1 <= j < k ==> anchor + j * step <= now
      decreases now + 1 - next
    {
      assert anchor + (k + 1) * step == next + step;
      next, k := next + step, k + 1;
    }
  }

  /** The earliest time after `now` that lies a whole number of steps, at least one, after the anchor. */
  ghost predicate EarliestFrom(anchor: nat, step: nat, now: nat, next: nat) {
    exists k: nat ::
        k >= 1 && next == anchor + k * step && now < next && forall j: nat :: 1 <= j < k ==> anchor + j * step <= now
  }

  /** `nextScheduledAt`: the hourly rule counts from the stored time, the others from today. */
  method NextScheduledAt(id: nat, kind: Kind, scheduled: Option<nat>, last: nat, now: nat) returns (next: nat)
    requires KindOk(kind)
    ensures now < next
    ensures kind.Daily? ==> next == DailyResult(now, kind.at + Stagger(id))
    ensures kind.Weekly? ==> next == WeeklyResult(now, kind.at + Stagger(id), kind.weekday)
                             && Weekday(next) == kind.weekday
    ensures kind.Hourly? ==> EarliestFrom(if scheduled.Some? then scheduled.value
        else last, kind.hours * HOUR, now, next)
  {
    match kind
    case Hourly(hours) =>
      var k;
      next, k := NextHourly(if scheduled.Some? then scheduled.value else last, hours, now);
    case Daily(at) =>
      DailyLands(now, at, Stagger(id));
      next := NextDaily(now, at, Stagger(id));
    case Weekly(at, weekday) =>
      WeeklyLands(now, at, Stagger(id), weekday);
      next := NextWeekly(now, at, Stagger(id), weekday);
  }

  /** `scheduledAfter`, the first wake-up of a subscription: no stagger, counted from the last check. */
  method ScheduledAfter(kind: Kind, last: nat) returns (next: nat)
    requires KindOk(kind)
    ensures last < next
    ensures kind.Hourly? ==> next == last + kind.hours * HOUR
    ensures kind.Daily? ==> next == DailyResult(last, kind.at)
    ensures kind.Weekly? ==> next == WeeklyResult(last, kind.at, kind.weekday)
  {
    match kind
    case Hourly(hours) => next := last + hours * HOUR;
    case Daily(at) =>
      DailyLands(last, at, 0);
      next := NextDaily(last, at, 0);
    case Weekly(at, weekday) =>
      WeeklyLands(last, at, 0, weekday);
      next := NextWeekly(last, at, 0, weekday);
  }
}
