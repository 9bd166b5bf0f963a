/** What one maintenance run does to a database whose partitions are all daily ones. */
module PartitionCoverage {
  import opened Wrappers
  import opened Contracts
  import opened Calendar
  import opened PartitionNames
  import opened HistoryPartitions
  import opened StableSort
  import opened VesselStore

  /** The days whose names survive the round trip. */
  predicate Named(day: int) {
    1000 <= YearOf(day) <= 9999
  }

  /** The clock and policy keep the whole window inside the named years. */
  predicate WindowNamed(now: int, policy: Policy) {
    Named(DayOf(now)) && Named(CutoffDay(now, policy)) && Named(LastFutureDay(now, policy))
  }

  lemma YearsGrow(a: int, b: int)
    requires a <= b
    ensures YearOf(a) <= YearOf(b)
  {
    if YearOf(b) < YearOf(a) { YearStartsIncrease(YearOf(b), YearOf(a)); }
  }

  lemma NamedBetween(a: int, d: int, b: int)
    requires Named(a) && Named(b) && a <= d <= b
    ensures Named(d)
  {
    YearsGrow(a, d);
    YearsGrow(d, b);
  }

  lemma NamedRoundTrip(d: int)
    requires Named(d)
    ensures ParsePartitionDay(PartitionName(d)) == Some(d)
  {
    ParseInvertsPrint(d);
  }

  function DayRange(day: int): Range {
    Range(StartOf(day), StartOf(day + 1))
  }

  lemma DayRangeHolds(day: int, t: int)
    ensures Holds(DayRange(day), t) <==> DayOf(t) == day
  {
  }

  lemma DayRangesOverlap(a: int, b: int)
    ensures Overlap(DayRange(a), DayRange(b)) <==> a == b
  {
  }

  /** The partitions are exactly the daily ones of `days`, under their own names. */
  ghost predicate Daily(ps: Partitions, days: set<int>) {
    && (forall d :: d in days ==> Named(d) && PartitionName(d) in ps && ps[PartitionName(d)] == DayRange(d))
    && (forall name :: name in ps ==> IsNameOf(name, days))
  }

  ghost predicate IsNameOf(name: string, days: set<int>) {
    var day := ParsePartitionDay(name);
    day.Some? && day.value in days && PartitionName(day.value) == name
  }

  lemma DailyNames(ps: Partitions, days: set<int>, d: int)
    requires Daily(ps, days) && Named(d)
    ensures PartitionName(d) in ps <==> d in days
  {
    ParseInvertsPrint(d);
  }

  lemma DailyCovers(ps: Partitions, days: set<int>, t: int)
    requires Daily(ps, days)
    ensures Covered(ps, t) <==> DayOf(t) in days
    ensures forall a, b :: a in ps && b in ps && Holds(ps[a], t) && Holds(ps[b], t) ==> a == b
  {
    hide PartitionName, ParsePartitionDay, DayOf;
    forall name | name in ps
      ensures Holds(ps[name], t) <==> ParsePartitionDay(name).value == DayOf(t)
    {
      assert IsNameOf(name, days);
      DayRangeHolds(ParsePartitionDay(name).value, t);
    }
    if DayOf(t) in days {
      var name := PartitionName(DayOf(t));
      DayRangeHolds(DayOf(t), t);
      assert name in ps && Holds(ps[name], t);
    }
  }

  lemma CreateOne(ps: Partitions, days: set<int>, d: int)
    requires Daily(ps, days) && Named(d)
    ensures CreatePartition(ps, PlannedDay(d)).Some?
    ensures Daily(CreatePartition(ps, PlannedDay(d)).value, days + {d})
  {
    hide PartitionName, ParsePartitionDay, Named;
    DailyNames(ps, days, d);
    NamedRoundTrip(d);
    var name := PartitionName(d);
    if name in ps {
      assert days + {d} == days;
    } else {
      forall other | other in ps
        ensures !Overlap(ps[other], DayRange(d))
      {
        assert IsNameOf(other, days);
        DayRangesOverlap(ParsePartitionDay(other).value, d);
      }
      var after := ps[name := DayRange(d)];
      assert CreatePartition(ps, PlannedDay(d)) == Some(after);
      forall n | n in after
        ensures IsNameOf(n, days + {d})
      {
        if n != name { assert IsNameOf(n, days); }
      }
    }
  }

  lemma {:induction false} CreateWindow(ps: Partitions, days: set<int>, window: seq<int>)
    requires Daily(ps, days) && forall i :: 0 <= i < |window| ==> Named(window[i])
    ensures CreateAll(ps, CreatePlan(window)).Some?
    ensures Daily(CreateAll(ps, CreatePlan(window)).value, days + Elements(window))
  {
    hide PartitionName, Named, Daily, CreatePartition;
    var create := CreatePlan(window);
    if window == [] {
      assert days + Elements(window) == days;
    } else {
      var front, last := window[..|window| - 1], window[|window| - 1];
      CreateWindow(ps, days, front);
      assert CreatePlan(front) == create[..|create| - 1];
      var before := CreateAll(ps, CreatePlan(front)).value;
      CreateOne(before, days + Elements(front), last);
      assert window == front + [last];
      assert days + Elements(front) + {last} == days + Elements(window);
    }
  }

  /** Every history row lies in a partition, as the partitioned table guarantees. */
  ghost predicate RowsHeld(history: map<Slot, Fix>, days: set<int>) {
    forall slot :: slot in history ==> DayOf(slot.occurredAt) in days
  }

  lemma MoreDaysHold(history: map<Slot, Fix>, days: set<int>, more: set<int>)
    requires RowsHeld(history, days) && days <= more
    ensures RowsHeld(history, more)
  {
  }

  function RowsOutside(history: map<Slot, Fix>, dropped: set<int>): map<Slot, Fix> {
    map slot | slot in history && DayOf(slot.occurredAt) !in dropped :: history[slot]
  }

  lemma DropOne(db: Db, days: set<int>, d: int)
    requires Daily(db.partitions, days) && RowsHeld(db.history, days) && Named(d)
    ensures
      var after := DropPartition(db, PartitionName(d));
      && Daily(after.partitions, days - {d})
      && after.history == RowsOutside(db.history, {d})
      && after.latest == db.latest && after.vessels == db.vessels
  {
    hide PartitionName, ParsePartitionDay, Named, DayOf;
    DailyNames(db.partitions, days, d);
    NamedRoundTrip(d);
    var name := PartitionName(d);
    var after := DropPartition(db, name);
    if name !in db.partitions {
      assert days - {d} == days;
      assert RowsOutside(db.history, {d}) == db.history;
    } else {
      forall slot | slot in db.history
        ensures Holds(DayRange(d), slot.occurredAt) <==> DayOf(slot.occurredAt) == d
      {
        DayRangeHolds(d, slot.occurredAt);
      }
      assert after.history == RowsOutside(db.history, {d});
      forall n | n in after.partitions
        ensures IsNameOf(n, days - {d})
      {
        assert IsNameOf(n, days);
      }
      forall e | e in days - {d}
        ensures PartitionName(e) in after.partitions
      {
        assert PartitionName(e) != name by { Distinguish(d, e, days, db.partitions); }
      }
    }
  }

  lemma Distinguish(d: int, e: int, days: set<int>, ps: Partitions)
    requires Daily(ps, days) && d in days && e in days && d != e
    ensures PartitionName(d) != PartitionName(e)
  {
    if PartitionName(d) == PartitionName(e) { NamesAreInjective(d, e); }
  }

  function DaysOf(ps: seq<Planned>): set<int> {
    set p | p in ps :: p.day
  }

  lemma {:induction false} DropExpired(db: Db, days: set<int>, drop: seq<Planned>)
    requires Daily(db.partitions, days) && RowsHeld(db.history, days)
    requires forall p :: p in drop ==> Named(p.day) && p.name == PartitionName(p.day)
    ensures
      var after := DropAll(db, drop);
      && Daily(after.partitions, days - DaysOf(drop))
      && RowsHeld(after.history, days - DaysOf(drop))
      && after.history == RowsOutside(db.history, DaysOf(drop))
      && after.latest == db.latest && after.vessels == db.vessels
  {
    hide PartitionName, Named, DayOf, Daily;
    if drop == [] {
      assert DaysOf(drop) == {};
      assert days - DaysOf(drop) == days;
      assert RowsOutside(db.history, {}) == db.history;
    } else {
      var front, p := drop[..|drop| - 1], drop[|drop| - 1];
      DropExpired(db, days, front);
      var before := DropAll(db, front);
      DropOne(before, days - DaysOf(front), p.day);
      assert drop == front + [p];
      assert DaysOf(drop) == DaysOf(front) + {p.day};
      assert days - DaysOf(front) - {p.day} == days - DaysOf(drop);
      assert RowsOutside(RowsOutside(db.history, DaysOf(front)), {p.day}) == RowsOutside(db.history, DaysOf(drop));
    }
  }

  /** The days a successful run leaves: its whole window, and nothing from before the cutoff. */
  function DaysAfter(days: set<int>, now: int, policy: Policy): set<int> {
    (set d | d in days && d >= CutoffDay(now, policy)) +
    Elements(DaysThrough(CutoffDay(now, policy), LastFutureDay(now, policy)))
  }

  function RetainedRows(history: map<Slot, Fix>, now: int, policy: Policy): map<Slot, Fix> {
    map slot | slot in history && Retained(Some(slot.occurredAt), now, policy) :: history[slot]
  }

  lemma WindowIsNamed(now: int, policy: Policy)
    requires WindowNamed(now, policy)
    ensures forall d :: CutoffDay(now, policy) <= d <= LastFutureDay(now, policy) ==> Named(d)
    ensures UtcDay(now) == DayOf(now)
  {
    forall d | CutoffDay(now, policy) <= d <= LastFutureDay(now, policy)
      ensures Named(d)
    {
      NamedBetween(CutoffDay(now, policy), d, LastFutureDay(now, policy));
    }
    UtcDayIsDayOf(now);
  }

  /** The window's ends, counted from the day of the clock. */
  lemma WindowFromToday(now: int, policy: Policy)
    requires WindowNamed(now, policy)
    ensures CutoffDay(now, policy) == now / (24 * 60 * 60 * 1000) - policy.retentionDays - policy.safetyDays
    ensures LastFutureDay(now, policy) == now / (24 * 60 * 60 * 1000) + policy.precreateDays
  {
    WindowIsNamed(now, policy);
    hide WindowNamed, UtcDay;
  }

  lemma CutoffSplitsDays(t: int, cutoff: int)
    ensures t >= StartOf(cutoff) <==> DayOf(t) >= cutoff
  {
  }

  /** The plan drops exactly the daily partitions from before the cutoff. */
  lemma PlannedDrops(ps: Partitions, days: set<int>, listing: seq<string>, now: int, policy: Policy)
    requires Daily(ps, days) && Lists(listing, ps)
    ensures
      var drop := MakePlan(listing, now, policy).drop;
      && (forall p :: p in drop ==> Named(p.day) && p.name == PartitionName(p.day))
      && DaysOf(drop) == set d | d in days && d < CutoffDay(now, policy)
  {
    var cutoff := CutoffDay(now, policy);
    var drop := MakePlan(listing, now, policy).drop;
    assert drop == Sort(ByDay, Expired(listing, cutoff));
    hide CutoffDay, MakePlan, PartitionName, Sort, Expired, Named;
    assert forall name :: name in listing <==> name in Elements(listing);
    forall p | p in drop
      ensures Named(p.day) && p.name == PartitionName(p.day) && p.day in days && p.day < cutoff
    {
      DropPlanIsExact(listing, cutoff, p);
      assert IsNameOf(p.name, days);
    }
    forall d | d in days && d < cutoff
      ensures d in DaysOf(drop)
    {
      var p := PlannedDay(d);
      ParseInvertsPrint(d);
      assert p.name in ps;
      DropPlanIsExact(listing, cutoff, p);
      assert p in drop;
    }
  }

  /**
   * A run that gets the lock never fails, leaves exactly the days of `DaysAfter`, and removes exactly
   * the rows that are not retained at its own time.
   */
  lemma MaintainDaily(db: Db, days: set<int>, listing: seq<string>, now: int, policy: Policy)
    requires Daily(db.partitions, days) && RowsHeld(db.history, days)
    requires Lists(listing, db.partitions) && WindowNamed(now, policy)
    ensures
      var (after, outcome) := Maintain(db, listing, now, policy, true);
      && outcome.Maintained?
      && Daily(after.partitions, DaysAfter(days, now, policy))
      && RowsHeld(after.history, DaysAfter(days, now, policy))
      && after.history == RetainedRows(db.history, now, policy)
      && after.latest == db.latest && after.vessels == db.vessels
  {
    hide *;
    var window := DaysThrough(CutoffDay(now, policy), LastFutureDay(now, policy));
    var drop := MakePlan(listing, now, policy).drop;
    WindowAllNamed(now, policy, window);
    CreateWindow(db.partitions, days, window);
    PlannedDrops(db.partitions, days, listing, now, policy);
    MaintainIs(db, listing, now, policy);
    var created := db.(partitions := CreateAll(db.partitions, CreatePlan(window)).value);
    var grown := days + Elements(window);
    MoreDaysHold(db.history, days, grown);
    DropExpired(created, grown, drop);
    RemainingDays(days, DaysOf(drop), now, policy);
    RemainingRows(db.history, days, DaysOf(drop), now, policy);
  }

  lemma WindowAllNamed(now: int, policy: Policy, window: seq<int>)
    requires WindowNamed(now, policy) && window == DaysThrough(CutoffDay(now, policy), LastFutureDay(now, policy))
    ensures forall i :: 0 <= i < |window| ==> Named(window[i])
  {
    hide Named, CutoffDay, LastFutureDay, UtcDay, DayOf;
    WindowIsNamed(now, policy);
    WindowElements(CutoffDay(now, policy), LastFutureDay(now, policy));
    forall i | 0 <= i < |window| ensures Named(window[i]) { assert window[i] in Elements(window); }
  }

  /** A maintenance run whose creations all succeed. */
  lemma MaintainIs(db: Db, listing: seq<string>, now: int, policy: Policy)
    ensures MakePlan(listing, now, policy).create == CreatePlan(DaysThrough(CutoffDay(now, policy), LastFutureDay(now, policy)))
    ensures
      var plan := MakePlan(listing, now, policy);
      var created := CreateAll(db.partitions, plan.create);
      created.Some? ==>
        Maintain(db, listing, now, policy, true)
          == (DropAll(db.(partitions := created.value), plan.drop), Maintained(|plan.create|, |plan.drop|))
  {
    hide CutoffDay, LastFutureDay, CreateAll, DropAll;
  }

  lemma RemainingDays(days: set<int>, dropped: set<int>, now: int, policy: Policy)
    requires dropped == set d | d in days && d < CutoffDay(now, policy)
    ensures days + Elements(DaysThrough(CutoffDay(now, policy), LastFutureDay(now, policy))) - dropped == DaysAfter(days, now, policy)
  {
    hide CutoffDay, LastFutureDay;
    WindowElements(CutoffDay(now, policy), LastFutureDay(now, policy));
  }

  lemma RemainingRows(history: map<Slot, Fix>, days: set<int>, dropped: set<int>, now: int, policy: Policy)
    requires RowsHeld(history, days)
    requires dropped == set d | d in days && d < CutoffDay(now, policy)
    ensures RowsOutside(history, dropped) == RetainedRows(history, now, policy)
  {
    hide CutoffDay, DayOf, StartOf;
    forall slot | slot in history
      ensures DayOf(slot.occurredAt) !in dropped <==> Retained(Some(slot.occurredAt), now, policy)
    {
      CutoffSplitsDays(slot.occurredAt, CutoffDay(now, policy));
    }
  }

  lemma WindowElements(first: int, last: int)
    ensures forall d :: d in Elements(DaysThrough(first, last)) <==> first <= d <= last
    ensures first <= last + 1 ==> |Elements(DaysThrough(first, last))| == last + 1 - first
    decreases last - first
  {
    var days := DaysThrough(first, last);
    forall d | first <= d <= last
      ensures d in Elements(days)
    {
      assert days[d - first] == d;
    }
    if first <= last {
      WindowElements(first + 1, last);
      assert Elements(days) == {first} + Elements(DaysThrough(first + 1, last));
    }
  }
}
