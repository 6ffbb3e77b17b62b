/** The figures the dashboard and the statistics tab compute from the log:
    today's intake and burn, the 7-day report, the per-day bar buckets and
    the latest weight change. `today` is a day number supplied by the caller
    in place of the clock. */
module Stats {
  import Log

  datatype Option<T> = None | Some(value: T)

  /** A logged amount of kcal on a day: a meal's intake or a workout's burn. */
  datatype Entry = Entry(date: int, calories: nat)

  /** `[(r['date'], r['calories']) for r in s]`: the date and kcal of each
      record, in list order. */
  function Entries<T>(s: seq<T>, dateOf: T -> int, kcalOf: T -> nat): seq<Entry>
  {
    seq(|s|, i requires 0 <= i < |s| => Entry(dateOf(s[i]), kcalOf(s[i])))
  }

  /** Appending a record appends its entry. */
  lemma EntriesAppend<T>(s: seq<T>, x: T, dateOf: T -> int, kcalOf: T -> nat)
    ensures Entries(s + [x], dateOf, kcalOf) == Entries(s, dateOf, kcalOf) + [Entry(dateOf(x), kcalOf(x))]
  {
  }

  /** The meals' intake and the workouts' burn. */
  function Intake(meals: seq<Log.Meal>): seq<Entry>
  {
    Entries(meals, (m: Log.Meal) => m.date, (m: Log.Meal) => m.calories)
  }

  function Burn(workouts: seq<Log.Workout>): seq<Entry>
  {
    Entries(workouts, (w: Log.Workout) => w.date, (w: Log.Workout) => w.calories)
  }

  /** `sum([e['calories'] for e in s])`. */
  function Sum(s: seq<Entry>): nat
  {
    if s == [] then 0 else s[0].calories + Sum(s[1..])
  }

  /** `[e for e in s if keep(e)]`. */
  function Filter(s: seq<Entry>, keep: Entry -> bool): (r: seq<Entry>)
    ensures forall e :: e in r <==> e in s && keep(e)
    ensures |r| <= |s|
  {
    if s == [] then []
    else if keep(s[0]) then
      assert s == [s[0]] + s[1..];
      [s[0]] + Filter(s[1..], keep)
    else
      assert s == [s[0]] + s[1..];
      Filter(s[1..], keep)
  }

  /** The filter keeps every copy of a kept entry and no copy of any other. */
  lemma {:induction false} FilterMultiset(s: seq<Entry>, keep: Entry -> bool, e: Entry)
    ensures multiset(Filter(s, keep))[e] == if keep(e) then multiset(s)[e] else 0
  {
    if s != [] {
      assert s == [s[0]] + s[1..];
      FilterMultiset(s[1..], keep, e);
    }
  }

  lemma SumCons(e: Entry, s: seq<Entry>)
    ensures Sum([e] + s) == e.calories + Sum(s)
  {
    assert ([e] + s)[1..] == s;
  }

  lemma {:induction false} SumConcat(a: seq<Entry>, b: seq<Entry>)
    ensures Sum(a + b) == Sum(a) + Sum(b)
  {
    if a == [] {
      assert a + b == b;
    } else {
      assert a + b == [a[0]] + (a[1..] + b);
      SumCons(a[0], a[1..] + b);
      SumConcat(a[1..], b);
    }
  }

  lemma {:induction false} FilterConcat(a: seq<Entry>, b: seq<Entry>, keep: Entry -> bool)
    ensures Filter(a + b, keep) == Filter(a, keep) + Filter(b, keep)
  {
    if a == [] {
      assert a + b == b;
    } else {
      assert (a + b)[0] == a[0] && (a + b)[1..] == a[1..] + b;
      FilterConcat(a[1..], b, keep);
    }
  }

  /** A filter keeps at most the total. */
  lemma {:induction false} FilterSumBound(s: seq<Entry>, keep: Entry -> bool)
    ensures Sum(Filter(s, keep)) <= Sum(s)
  {
    if s != [] {
      FilterSumBound(s[1..], keep);
      if keep(s[0]) {
        SumCons(s[0], Filter(s[1..], keep));
      }
    }
  }

  // ---------------------------------------------------------------------
  // Dashboard

  function OnDay(day: int): Entry -> bool
  {
    (e: Entry) => e.date == day
  }

  /** `sum(...)` over the records dated `day` (`today_meals`, `today_exercise`). */
  function DayTotal(s: seq<Entry>, day: int): nat
  {
    Sum(Filter(s, OnDay(day)))
  }

  /** A record adds its kcal to its own day's total and to no other day's. */
  lemma DayTotalAppend(s: seq<Entry>, e: Entry, day: int)
    ensures DayTotal(s + [e], day) == DayTotal(s, day) + (if e.date == day then e.calories else 0)
  {
    FilterConcat(s, [e], OnDay(day));
    SumConcat(Filter(s, OnDay(day)), Filter([e], OnDay(day)));
    assert [e][1..] == [];
  }

  /** Records of other days never change a day's total. */
  lemma {:induction false} DayTotalIgnoresOtherDays(s: seq<Entry>, others: seq<Entry>, day: int)
    requires forall e | e in others :: e.date != day
    ensures DayTotal(s + others, day) == DayTotal(s, day)
  {
    if others == [] {
      assert s + others == s;
    } else {
      var n := |others| - 1;
      assert s + others == (s + others[..n]) + [others[n]];
      assert others[n] in others;
      assert forall e | e in others[..n] :: e in others;
      DayTotalIgnoresOtherDays(s, others[..n], day);
      DayTotalAppend(s + others[..n], others[n], day);
    }
  }

  /** The three dashboard metrics: today's intake with its difference from
      the target, and today's burn (whose delta line repeats the burn). */
  datatype TodayFigures = TodayFigures(intake: nat, intakeDelta: int, burn: nat, burnDelta: int)

  function Dashboard(meals: seq<Log.Meal>, workouts: seq<Log.Workout>, today: int, target: int): (r: TodayFigures)
    ensures r.intakeDelta == r.intake - target
    ensures r.intakeDelta > 0 <==> r.intake > target
    ensures r.burnDelta == r.burn
    ensures r.intake == DayTotal(Intake(meals), today) && r.burn == DayTotal(Burn(workouts), today)
  {
    var intake := DayTotal(Intake(meals), today);
    var burn := DayTotal(Burn(workouts), today);
    TodayFigures(intake, intake - target, burn, burn)
  }

  /** Logging a meal raises today's intake (and its delta) by the meal's
      kcal when it is dated today, and leaves it alone otherwise. */
  lemma DashboardAfterMeal(meals: seq<Log.Meal>, workouts: seq<Log.Workout>, m: Log.Meal, today: int, target: int)
    ensures var before, after := Dashboard(meals, workouts, today, target), Dashboard(meals + [m], workouts, today, target);
      && after.intake == before.intake + (if m.date == today then m.calories else 0)
      && after.burn == before.burn
  {
    EntriesAppend(meals, m, (m: Log.Meal) => m.date, (m: Log.Meal) => m.calories);
    DayTotalAppend(Intake(meals), Entry(m.date, m.calories), today);
  }

  lemma DashboardAfterWorkout(meals: seq<Log.Meal>, workouts: seq<Log.Workout>, w: Log.Workout, today: int, target: int)
    ensures var before, after := Dashboard(meals, workouts, today, target), Dashboard(meals, workouts + [w], today, target);
      && after.burn == before.burn + (if w.date == today then w.calories else 0)
      && after.intake == before.intake
  {
    EntriesAppend(workouts, w, (w: Log.Workout) => w.date, (w: Log.Workout) => w.calories);
    DayTotalAppend(Burn(workouts), Entry(w.date, w.calories), today);
  }

  // ---------------------------------------------------------------------
  // Weekly report

  /** `datetime.strptime(date) >= today - timedelta(days=7)`: since the
      right side carries the time of day, a date passes from six days ago
      on, and so does every date after today. */
  function InWeek(today: int): Entry -> bool
  {
    (e: Entry) => e.date >= today - 6
  }

  function WeekTotal(s: seq<Entry>, today: int): nat
  {
    Sum(Filter(s, InWeek(today)))
  }

  /** `total / 7 if total > 0 else 0`, as an exact quotient. */
  function DailyAverage(total: nat): (r: real)
    ensures r * 7.0 == total as real
    ensures r >= 0.0
  {
    if total > 0 then total as real / 7.0 else 0.0
  }

  datatype WeekReport = WeekReport(avgIntake: real, avgBurn: real, net: real)

  /** The three weekly metrics: average intake, average burn and their
      difference, each per day of the 7-day window. */
  function Weekly(meals: seq<Log.Meal>, workouts: seq<Log.Workout>, today: int): (r: WeekReport)
    ensures r.avgIntake * 7.0 == WeekTotal(Intake(meals), today) as real
    ensures r.avgBurn * 7.0 == WeekTotal(Burn(workouts), today) as real
    ensures r.net * 7.0 == WeekTotal(Intake(meals), today) as real - WeekTotal(Burn(workouts), today) as real
  {
    var avgIntake := DailyAverage(WeekTotal(Intake(meals), today));
    var avgBurn := DailyAverage(WeekTotal(Burn(workouts), today));
    WeekReport(avgIntake, avgBurn, avgIntake - avgBurn)
  }

  /** The chart's dates: the seven days ending today, oldest first. */
  function WeekDates(today: int): (r: seq<int>)
    ensures |r| == 7 && r[0] == today - 6 && r[6] == today
    ensures forall i | 0 <= i < 6 :: r[i + 1] == r[i] + 1
  {
    seq(7, i requires 0 <= i < 7 => today - (6 - i))
  }

  /** The per-day bucket loop: one bucket per chart date starting at 0, and
      each record of the week adds its kcal to the bucket of its date if
      there is one. */
  method DailyBuckets(week: seq<Entry>, today: int) returns (byDate: map<int, nat>)
    ensures forall d :: d in byDate <==> d in WeekDates(today)
    ensures forall d | d in byDate :: byDate[d] == DayTotal(week, d)
  {
    var dates := WeekDates(today);
    byDate := map d | d in dates :: 0;
    var i := 0;
    while i < |week|
      invariant 0 <= i <= |week|
      invariant forall d :: d in byDate <==> d in dates
      invariant forall d | d in byDate :: byDate[d] == DayTotal(week[..i], d)
    {
      var e := week[i];
      if e.date in byDate {
        byDate := byDate[e.date := byDate[e.date] + e.calories];
      }
      assert week[..i + 1] == week[..i] + [e];
      forall d | d in byDate ensures byDate[d] == DayTotal(week[..i + 1], d) {
        DayTotalAppend(week[..i], e, d);
      }
      i := i + 1;
    }
    assert week[..i] == week;
  }

  /** `[by_date[d] for d in dates]`: the bar heights. */
  function Bars(byDate: map<int, nat>, dates: seq<int>): seq<nat>
    requires forall i | 0 <= i < |dates| :: dates[i] in byDate
  {
    seq(|dates|, i requires 0 <= i < |dates| => byDate[dates[i]])
  }

  function SumNats(s: seq<nat>): nat
  {
    if s == [] then 0 else s[0] + SumNats(s[1..])
  }

  /** The kcal of the days `lo .. lo + n - 1`, day by day. */
  function WindowSum(s: seq<Entry>, lo: int, n: nat): nat
  {
    if n == 0 then 0 else WindowSum(s, lo, n - 1) + DayTotal(s, lo + n - 1)
  }

  function Between(lo: int, hi: int): Entry -> bool
  {
    (e: Entry) => lo <= e.date < hi
  }

  lemma {:induction false} WindowSumPrepend(e: Entry, s: seq<Entry>, lo: int, n: nat)
    ensures WindowSum([e] + s, lo, n) == WindowSum(s, lo, n) + (if lo <= e.date < lo + n then e.calories else 0)
  {
    if n > 0 {
      WindowSumPrepend(e, s, lo, n - 1);
      assert ([e] + s)[1..] == s;
    }
  }

  /** Summing the day buckets of a window adds up exactly the records dated
      inside the window, each once. */
  lemma {:induction false} WindowSumIsBetween(s: seq<Entry>, lo: int, n: nat)
    ensures WindowSum(s, lo, n) == Sum(Filter(s, Between(lo, lo + n)))
  {
    if s == [] {
      WindowSumEmpty(lo, n);
    } else {
      assert s == [s[0]] + s[1..];
      WindowSumPrepend(s[0], s[1..], lo, n);
      WindowSumIsBetween(s[1..], lo, n);
    }
  }

  lemma {:induction false} WindowSumEmpty(lo: int, n: nat)
    ensures WindowSum([], lo, n) == 0
  {
    if n > 0 {
      WindowSumEmpty(lo, n - 1);
    }
  }

  /** Every record that passes the weekly filter is either in one of the
      seven buckets or dated after today: the week's total is the bucket
      sum plus the future-dated records, which no bar shows. */
  lemma {:induction false} WeekTotalSplit(s: seq<Entry>, today: int)
    ensures WeekTotal(s, today)
      == WindowSum(Filter(s, InWeek(today)), today - 6, 7) + Sum(Filter(s, (e: Entry) => e.date > today))
  {
    var week := Filter(s, InWeek(today));
    WindowSumIsBetween(week, today - 6, 7);
    WeekSplitHelper(s, today);
  }

  lemma {:induction false} WeekSplitHelper(s: seq<Entry>, today: int)
    ensures Sum(Filter(s, InWeek(today)))
      == Sum(Filter(Filter(s, InWeek(today)), Between(today - 6, today + 1))) + Sum(Filter(s, (e: Entry) => e.date > today))
  {
    if s != [] {
      assert s == [s[0]] + s[1..];
      WeekSplitHelper(s[1..], today);
    }
  }

  /** The bars of the chart, as the bucket method returns them, add up to
      at most the week's total. */
  lemma BarsWithinWeekTotal(s: seq<Entry>, today: int, byDate: map<int, nat>)
    requires forall d :: d in byDate <==> d in WeekDates(today)
    requires forall d | d in byDate :: byDate[d] == DayTotal(Filter(s, InWeek(today)), d)
    ensures SumNats(Bars(byDate, WeekDates(today))) <= WeekTotal(s, today)
  {
    var week := Filter(s, InWeek(today));
    var dates := WeekDates(today);
    var bars := Bars(byDate, dates);
    assert SumNats(bars) == WindowSum(week, today - 6, 7) by {
      BarsSum(week, today - 6, byDate, dates, 7);
    }
    WeekTotalSplit(s, today);
  }

  lemma {:induction false} BarsSum(week: seq<Entry>, lo: int, byDate: map<int, nat>, dates: seq<int>, n: nat)
    requires |dates| == n
    requires forall i | 0 <= i < n :: dates[i] == lo + i && dates[i] in byDate && byDate[dates[i]] == DayTotal(week, lo + i)
    ensures SumNats(Bars(byDate, dates)) == WindowSum(week, lo, n)
  {
    if n > 0 {
      var front := dates[..n - 1];
      BarsSum(week, lo, byDate, front, n - 1);
      SumNatsSnoc(Bars(byDate, front), byDate[dates[n - 1]]);
      assert Bars(byDate, dates) == Bars(byDate, front) + [byDate[dates[n - 1]]];
    }
  }

  lemma {:induction false} SumNatsSnoc(s: seq<nat>, x: nat)
    ensures SumNats(s + [x]) == SumNats(s) + x
  {
    if s != [] {
      assert (s + [x])[1..] == s[1..] + [x];
      SumNatsSnoc(s[1..], x);
    }
  }

  // ---------------------------------------------------------------------
  // Weight

  /** `weight_data[-1]['weight']` when there is a record. */
  function LatestWeight(ws: seq<Log.WeighIn>): (r: Option<real>)
    ensures r.Some? <==> ws != []
  {
    if ws == [] then None else Some(ws[|ws| - 1].weight)
  }

  /** `weight_data[-1] - weight_data[-2]`, shown only with two records or more. */
  function WeightChange(ws: seq<Log.WeighIn>): (r: Option<real>)
    ensures r.Some? <==> |ws| >= 2
  {
    if |ws| > 1 then Some(ws[|ws| - 1].weight - ws[|ws| - 2].weight) else None
  }

  /** After a weigh-in the latest weight is the new one, and the change is
      measured against the weight that was latest before it. */
  lemma WeightChangeAfterWeighIn(ws: seq<Log.WeighIn>, w: Log.WeighIn)
    ensures LatestWeight(ws + [w]) == Some(w.weight)
    ensures ws == [] ==> WeightChange(ws + [w]) == None
    ensures ws != [] ==> WeightChange(ws + [w]) == Some(w.weight - LatestWeight(ws).value)
  {
  }
}
