/** How a maintenance run ends, for a database with any partitions at all. */
module MaintenanceOutcomes {
  import opened Wrappers
  import opened Calendar
  import opened PartitionNames
  import opened HistoryPartitions
  import opened StableSort
  import opened VesselStore
  import opened PartitionCoverage

  /** The day's partition is missing, and another partition lies across the day. */
  ghost predicate Blocked(ps: Partitions, day: int) {
    && PartitionName(day) !in ps
    && exists name :: name in ps && Overlap(ps[name], DayRange(day))
  }

  /** The old partitions, and one for each further day that is planned. */
  ghost predicate Grown(ps: Partitions, window: seq<int>, after: Partitions) {
    && (forall name :: name in ps ==> name in after && after[name] == ps[name])
    && (forall i :: 0 <= i < |window| ==> PartitionName(window[i]) in after)
    && (forall name :: name in after && name !in ps ==>
          exists i :: 0 <= i < |window| && name == PartitionName(window[i]) && after[name] == DayRange(window[i]))
  }

  /** A day's own plan meets no other planned day, only what was there before. */
  lemma OnlyOldOnesBlock(ps: Partitions, window: seq<int>, before: Partitions, day: int)
    requires Grown(ps, window, before) && day !in window && Named(day)
    requires forall d :: d in window ==> Named(d)
    ensures PartitionName(day) in before <==> PartitionName(day) in ps
    ensures Blocked(before, day) <==> Blocked(ps, day)
  {
    hide PartitionName, Named, DayRange, Overlap;
    forall i | 0 <= i < |window| ensures PartitionName(window[i]) != PartitionName(day) && !Overlap(DayRange(window[i]), DayRange(day)) {
      assert window[i] in window;
      if PartitionName(window[i]) == PartitionName(day) { SameName(window[i], day); }
      DayRangesOverlap(window[i], day);
    }
  }

  lemma SameName(a: int, b: int)
    requires Named(a) && PartitionName(a) == PartitionName(b)
    ensures a == b
  {
    NamesAreInjective(a, b);
  }

  lemma CreateIs(ps: Partitions, day: int)
    ensures CreatePartition(ps, PlannedDay(day)) ==
      if PartitionName(day) in ps then Some(ps)
      else if Blocked(ps, day) then None
      else Some(ps[PartitionName(day) := DayRange(day)])
  {
    hide PartitionName;
  }

  lemma GrownByOne(ps: Partitions, window: seq<int>, before: Partitions, day: int)
    requires Grown(ps, window, before)
    requires PartitionName(day) in before ==> PartitionName(day) in ps
    ensures Grown(ps, window + [day], if PartitionName(day) in before then before else before[PartitionName(day) := DayRange(day)])
  {
    hide PartitionName;
    var all, n := window + [day], |window|;
    var after := if PartitionName(day) in before then before else before[PartitionName(day) := DayRange(day)];
    assert all[n] == day;
    forall name | name in after && name !in ps
      ensures exists i :: 0 <= i < |all| && name == PartitionName(all[i]) && after[name] == DayRange(all[i])
    {
      if name == PartitionName(day) && PartitionName(day) !in before {
        assert name == PartitionName(all[n]);
      } else {
        var i :| 0 <= i < |window| && name == PartitionName(window[i]) && before[name] == DayRange(window[i]);
        assert all[i] == window[i];
      }
    }
  }

  lemma CreateAllUnrolls(ps: Partitions, front: seq<int>, day: int)
    ensures
      var before := CreateAll(ps, CreatePlan(front));
      CreateAll(ps, CreatePlan(front + [day])) ==
        if before.None? then None else CreatePartition(before.value, PlannedDay(day))
  {
    hide CreatePartition, PlannedDay;
    var create := CreatePlan(front + [day]);
    assert CreatePlan(front) == create[..|create| - 1];
  }

  lemma SplitDistinct(window: seq<int>)
    requires Distinct(window) && window != []
    ensures
      var front, day := window[..|window| - 1], window[|window| - 1];
      window == front + [day] && Distinct(front) && day !in front && forall d :: d in window <==> d in front || d == day
  {
    assert window == window[..|window| - 1] + [window[|window| - 1]];
  }

  /** Creating the partitions of distinct days fails exactly when one of the days is blocked from the start. */
  lemma {:induction false} CreateAllExactly(ps: Partitions, window: seq<int>)
    requires Distinct(window) && forall d :: d in window ==> Named(d)
    ensures CreateAll(ps, CreatePlan(window)).None? <==> exists d :: d in window && Blocked(ps, d)
    ensures CreateAll(ps, CreatePlan(window)).Some? ==> Grown(ps, window, CreateAll(ps, CreatePlan(window)).value)
  {
    if window == [] {
      NothingGrown(ps);
      hide Blocked, Grown;
    } else {
      hide *;
      var front, day := window[..|window| - 1], window[|window| - 1];
      SplitDistinct(window);
      CreateAllExactly(ps, front);
      CreateAllUnrolls(ps, front, day);
      if CreateAll(ps, CreatePlan(front)).Some? {
        var before := CreateAll(ps, CreatePlan(front)).value;
        OnlyOldOnesBlock(ps, front, before, day);
        CreateIs(before, day);
        GrownByOne(ps, front, before, day);
        NotBlocked(before, day);
      }
    }
  }

  lemma NothingGrown(ps: Partitions)
    ensures Grown(ps, [], ps)
  {
  }

  lemma NotBlocked(ps: Partitions, day: int)
    ensures PartitionName(day) in ps ==> !Blocked(ps, day)
  {
  }

  /** The listed daily partitions from before the cutoff. */
  function OldNames(listing: seq<string>, cutoff: int): set<string> {
    set name | name in listing && ParsePartitionDay(name).Some? && ParsePartitionDay(name).value < cutoff
  }

  lemma OldNamesGrow(front: seq<string>, name: string, cutoff: int)
    requires name !in front
    ensures
      var day := ParsePartitionDay(name);
      |OldNames(front + [name], cutoff)| == |OldNames(front, cutoff)| + if day.Some? && day.value < cutoff then 1 else 0
  {
    hide ParsePartitionDay;
    var day := ParsePartitionDay(name);
    assert OldNames(front + [name], cutoff) == OldNames(front, cutoff) + if day.Some? && day.value < cutoff then {name} else {};
  }

  lemma {:induction false} ExpiredCount(listing: seq<string>, cutoff: int)
    requires Distinct(listing)
    ensures |Expired(listing, cutoff)| == |OldNames(listing, cutoff)|
  {
    hide ParsePartitionDay;
    if listing != [] {
      var front, name := listing[..|listing| - 1], listing[|listing| - 1];
      ExpiredCount(front, cutoff);
      assert listing == front + [name] && name !in front;
      OldNamesGrow(front, name, cutoff);
      hide OldNames;
    }
  }

  lemma SortedLength(drop: seq<Planned>)
    ensures |Sort(ByDay, drop)| == |drop|
  {
    SortKeepsElements(ByDay, drop);
    assert |multiset(Sort(ByDay, drop))| == |multiset(drop)|;
  }

  lemma PlanIs(listing: seq<string>, now: int, policy: Policy)
    ensures MakePlan(listing, now, policy).create == CreatePlan(DaysThrough(CutoffDay(now, policy), LastFutureDay(now, policy)))
    ensures MakePlan(listing, now, policy).drop == Sort(ByDay, Expired(listing, CutoffDay(now, policy)))
  {
    hide CutoffDay, LastFutureDay, DaysThrough, CreatePlan, Sort, Expired;
  }

  lemma PlanCounts(listing: seq<string>, now: int, policy: Policy)
    requires Distinct(listing) && WindowNamed(now, policy)
    ensures
      var plan, today := MakePlan(listing, now, policy), now / (24 * 60 * 60 * 1000);
      var cutoff := today - policy.retentionDays - policy.safetyDays;
      && plan.create == CreatePlan(DaysThrough(cutoff, today + policy.precreateDays))
      && |plan.create| == policy.retentionDays + policy.safetyDays + policy.precreateDays + 1
      && |plan.drop| == |OldNames(listing, cutoff)|
  {
    hide *;
    PlanIs(listing, now, policy);
    WindowFromToday(now, policy);
    SortedLength(Expired(listing, CutoffDay(now, policy)));
    ExpiredCount(listing, CutoffDay(now, policy));
  }

  lemma WindowIsDistinct(first: int, last: int)
    ensures Distinct(DaysThrough(first, last))
    ensures forall d :: d in DaysThrough(first, last) <==> first <= d <= last
  {
    forall d ensures d in DaysThrough(first, last) <==> first <= d <= last {
      if first <= d <= last { assert DaysThrough(first, last)[d - first] == d; }
    }
  }

  /** What `maintain` does with its plan. */
  lemma MaintainCases(db: Db, listing: seq<string>, now: int, policy: Policy, acquired: bool)
    ensures
      var plan := MakePlan(listing, now, policy);
      var created := CreateAll(db.partitions, plan.create);
      Maintain(db, listing, now, policy, acquired) ==
        if !acquired then (db, LockHeld)
        else if created.None? then (db, Aborted)
        else (DropAll(db.(partitions := created.value), plan.drop), Maintained(|plan.create|, |plan.drop|))
  {
    hide MakePlan, CreateAll, DropAll;
  }

  /**
   * Whatever partitions there are: a run does nothing exactly when it is not given the lock; it fails, and leaves
   * everything as it was, exactly when the partition of some day of its window is missing and another lies across that
   * day; otherwise it reports the days of the window and the listed daily partitions from before the cutoff.
   */
  lemma MaintenanceEnds(db: Db, listing: seq<string>, now: int, policy: Policy, acquired: bool)
    requires Distinct(listing) && WindowNamed(now, policy)
    ensures
      var (after, outcome) := Maintain(db, listing, now, policy, acquired);
      var today := now / (24 * 60 * 60 * 1000);
      var cutoff, last := today - policy.retentionDays - policy.safetyDays, today + policy.precreateDays;
      && (outcome == LockHeld <==> !acquired)
      && (outcome == Aborted <==> acquired && exists d :: cutoff <= d <= last && Blocked(db.partitions, d))
      && (outcome.Maintained? ==>
            && outcome.created == policy.retentionDays + policy.safetyDays + policy.precreateDays + 1
            && outcome.dropped == |OldNames(listing, cutoff)|)
      && (!outcome.Maintained? ==> after == db)
  {
    hide *;
    var today := now / (24 * 60 * 60 * 1000);
    var cutoff, last := today - policy.retentionDays - policy.safetyDays, today + policy.precreateDays;
    PlanCounts(listing, now, policy);
    MaintainCases(db, listing, now, policy, acquired);
    WindowIsDistinct(cutoff, last);
    WindowDaysNamed(now, policy);
    CreateAllExactly(db.partitions, DaysThrough(cutoff, last));
  }

  lemma WindowDaysNamed(now: int, policy: Policy)
    requires WindowNamed(now, policy)
    ensures
      var today := now / (24 * 60 * 60 * 1000);
      forall d :: today - policy.retentionDays - policy.safetyDays <= d <= today + policy.precreateDays ==> Named(d)
  {
    WindowIsNamed(now, policy);
    WindowFromToday(now, policy);
    hide Named, UtcDay, CutoffDay, LastFutureDay;
  }
}
