/** The retention policy, and the plan of one maintenance run over the daily history partitions. */
module HistoryPartitions {
  import opened Wrappers
  import opened Calendar
  import opened PartitionNames
  import opened StableSort

  /** Day counts; the configuration schema demands a positive retention and a non-negative precreate. */
  datatype Policy = Policy(retentionDays: nat, safetyDays: nat, precreateDays: nat)

  function CutoffDay(now: int, policy: Policy): int {
    UtcDay(now) - (policy.retentionDays + policy.safetyDays)
  }

  function LastFutureDay(now: int, policy: Policy): int {
    UtcDay(now) + policy.precreateDays
  }

  /** `isHistoryEventRetained`; `None` is a timestamp that does not parse. */
  predicate Retained(occurredAt: Option<int>, now: int, policy: Policy) {
    occurredAt.Some? && occurredAt.value >= StartOf(CutoffDay(now, policy))
  }

  /** The days from `first` to `last`, in order. */
  function DaysThrough(first: int, last: int): (days: seq<int>)
    ensures |days| == if first <= last then last - first + 1 else 0
    ensures forall i :: 0 <= i < |days| ==> days[i] == first + i
    decreases last - first
  {
    if first > last then [] else [first] + DaysThrough(first + 1, last)
  }

  /** `historyPartitionWindow`: the day list is built by a loop that steps one day at a time. */
  method HistoryPartitionWindow(now: int, policy: Policy) returns (cutoff: int, last: int, days: seq<int>)
    ensures cutoff == CutoffDay(now, policy) && last == LastFutureDay(now, policy)
    ensures |days| == policy.retentionDays + policy.safetyDays + policy.precreateDays + 1
    ensures days == DaysThrough(cutoff, last)
  {
    hide UtcDay;
    cutoff := CutoffDay(now, policy);
    last := LastFutureDay(now, policy);
    days := [];
    var day := cutoff;
    while day <= last
      invariant cutoff <= day <= last + 1
      invariant days == DaysThrough(cutoff, day - 1)
      decreases last - day
    {
      days := days + [day];
      day := day + 1;
    }
  }

  datatype Planned = Planned(day: int, name: string)

  datatype Plan = Plan(cutoff: int, last: int, create: seq<Planned>, drop: seq<Planned>)

  function PlannedDay(day: int): Planned {
    Planned(day, PartitionName(day))
  }

  function CreatePlan(days: seq<int>): (create: seq<Planned>)
    ensures |create| == |days|
    ensures forall i :: 0 <= i < |days| ==> create[i] == PlannedDay(days[i])
  {
    seq(|days|, i requires 0 <= i < |days| => PlannedDay(days[i]))
  }

  /** The listed names that parse to a day before the cutoff, in listing order. */
  function Expired(names: seq<string>, cutoff: int): seq<Planned> {
    if names == [] then []
    else
      var rest := Expired(names[..|names| - 1], cutoff);
      var name := names[|names| - 1];
      var day := ParsePartitionDay(name);
      if day.Some? && day.value < cutoff then rest + [Planned(day.value, name)] else rest
  }

  lemma {:induction false} ExpiredIsExact(names: seq<string>, cutoff: int, p: Planned)
    ensures p in Expired(names, cutoff) <==>
      p.name in names && ParsePartitionDay(p.name) == Some(p.day) && p.day < cutoff
  {
    hide ParsePartitionDay;
    if names != [] {
      ExpiredIsExact(names[..|names| - 1], cutoff, p);
      assert names == names[..|names| - 1] + [names[|names| - 1]];
    }
  }

  predicate ByDay(a: Planned, b: Planned) {
    a.day <= b.day
  }

  function MakePlan(names: seq<string>, now: int, policy: Policy): Plan {
    var cutoff, last := CutoffDay(now, policy), LastFutureDay(now, policy);
    Plan(cutoff, last, CreatePlan(DaysThrough(cutoff, last)), Sort(ByDay, Expired(names, cutoff)))
  }

  /** `planHistoryPartitionMaintenance`: collect what expired, sort it, and map the window to names. */
  method PlanHistoryPartitionMaintenance(names: seq<string>, now: int, policy: Policy) returns (plan: Plan)
    ensures plan == MakePlan(names, now, policy)
    ensures Sorted(ByDay, plan.drop)
    ensures forall p :: p in plan.drop <==>
      p.name in names && ParsePartitionDay(p.name) == Some(p.day) && p.day < plan.cutoff
  {
    hide CutoffDay, LastFutureDay, ParsePartitionDay;
    var cutoff, last, days := HistoryPartitionWindow(now, policy);
    var drop: seq<Planned> := [];
    for i := 0 to |names|
      invariant drop == Expired(names[..i], cutoff)
    {
      assert names[..i + 1][..i] == names[..i];
      var day := ParsePartitionDay(names[i]);
      if day.Some? && day.value < cutoff {
        drop := drop + [Planned(day.value, names[i])];
      }
    }
    assert names[..|names|] == names;
    forall p
      ensures p in Sort(ByDay, drop) <==> p.name in names && ParsePartitionDay(p.name) == Some(p.day) && p.day < cutoff
    {
      DropPlanIsExact(names, cutoff, p);
    }
    SortSorts(ByDay, drop);
    plan := Plan(cutoff, last, CreatePlan(days), Sort(ByDay, drop));
  }

  lemma DropPlanIsExact(names: seq<string>, cutoff: int, p: Planned)
    ensures p in Sort(ByDay, Expired(names, cutoff)) <==>
      p.name in names && ParsePartitionDay(p.name) == Some(p.day) && p.day < cutoff
  {
    ExpiredIsExact(names, cutoff, p);
    SortMembers(ByDay, Expired(names, cutoff), p);
  }
}
