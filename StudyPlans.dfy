/** Study plans (study_plans.py): plans of day entries, stored in one map
    from plan id to plan, with a list of completed days and a progress
    ratio. Dates are day numbers and `created_at` a timestamp; `today`,
    `now` and the id a new plan is given are parameters. The generated plan
    comes from an LLM and is a parameter too. */
module StudyPlans {
  import opened Wrappers
  import opened Seqs
  import opened Text
  import Dict

  datatype DayPlan = DayPlan(
    day: int,
    date: int,
    topics: seq<string>,
    activities: seq<string>,
    estimatedTime: real,
    resources: seq<string>)

  /** A plan; `durationDays` is `None` when the generated plan lacks it. */
  datatype Plan = Plan(
    id: Option<string>,
    topic: string,
    durationDays: Option<int>,
    hoursPerDay: real,
    dailyPlans: seq<DayPlan>,
    objectives: seq<string>,
    milestones: seq<string>,
    createdAt: int,
    studentId: string,
    completedDays: seq<int>,
    progress: real)

  /** Entry `i` of the default plan: day `i + 1`, dated `start + i`. */
  function DefaultDay(topic: string, hoursPerDay: real, start: int, i: nat): (d: DayPlan)
  {
    DayPlan(i + 1, start + i, [topic + " - Day " + NatToString(i + 1)],
            ["Study", "Practice", "Review"], hoursPerDay, [])
  }

  /** The number of entries `range(durationDays)` yields. */
  function DayCount(durationDays: int): nat
  {
    if durationDays > 0 then durationDays else 0
  }

  /** The plan `_get_default_plan` returns (study_plans.py:71-97). */
  function DefaultPlanOf(topic: string, durationDays: int, hoursPerDay: real, start: int, now: int,
                         studentId: string): Plan
  {
    Plan(None, topic, Some(durationDays), hoursPerDay,
         seq(DayCount(durationDays), i requires 0 <= i < DayCount(durationDays) => DefaultDay(topic, hoursPerDay, start, i)),
         ["Learn " + topic], ["Complete study plan"], now, studentId, [], 0.0)
  }

  /** The default plan has one entry per day, numbered from 1 and dated from
      `start` on consecutive days, each taking `hoursPerDay`; nothing is
      completed yet and the plan counts as active. */
  lemma DefaultPlanShape(topic: string, durationDays: int, hoursPerDay: real, start: int, now: int,
                         studentId: string)
    ensures var p := DefaultPlanOf(topic, durationDays, hoursPerDay, start, now, studentId);
            |p.dailyPlans| == DayCount(durationDays)
            && (forall i :: 0 <= i < |p.dailyPlans| ==>
                  p.dailyPlans[i].day == i + 1 && p.dailyPlans[i].date == start + i
                  && p.dailyPlans[i].estimatedTime == hoursPerDay)
            && (forall i :: 0 < i < |p.dailyPlans| ==>
                  p.dailyPlans[i].day == p.dailyPlans[i - 1].day + 1
                  && p.dailyPlans[i].date == p.dailyPlans[i - 1].date + 1)
            && p.completedDays == [] && p.progress == 0.0 && IsActive(p)
  {
  }

  /** A generated plan after the dates and bookkeeping fields are filled in
      (study_plans.py:52-60): entry `i` is dated `start + i`. */
  function Generated(reply: Plan, start: int, now: int, studentId: string): (p: Plan)
    ensures |p.dailyPlans| == |reply.dailyPlans|
    ensures forall i :: 0 <= i < |p.dailyPlans| ==>
              p.dailyPlans[i] == reply.dailyPlans[i].(date := start + i)
    ensures p.completedDays == [] && p.progress == 0.0 && p.createdAt == now
    ensures p.topic == reply.topic && p.durationDays == reply.durationDays && p.id == reply.id
  {
    var days := seq(|reply.dailyPlans|, i requires 0 <= i < |reply.dailyPlans| =>
                      reply.dailyPlans[i].(date := start + i));
    reply.(dailyPlans := days, createdAt := now, studentId := studentId, completedDays := [], progress := 0.0)
  }

  /** The key `_save_study_plan` stores a plan under: its own id, or a new one. */
  function SavedId(plan: Plan, freshId: string): string
  {
    plan.id.GetOr(freshId)
  }

  /** The plans map after `_save_study_plan(plan)`. */
  function Saved(plans: Dict.Dict<string, Plan>, plan: Plan, freshId: string): Dict.Dict<string, Plan>
  {
    var id := SavedId(plan, freshId);
    Dict.Put(plans, id, plan.(id := Some(id)))
  }

  /** Saving stores the plan, carrying its key as id, under its own id when
      it has one; every other key keeps its plan. */
  lemma SavedProperties(plans: Dict.Dict<string, Plan>, plan: Plan, freshId: string, other: string)
    ensures plan.id.Some? ==> SavedId(plan, freshId) == plan.id.value
    ensures plan.id.None? ==> SavedId(plan, freshId) == freshId
    ensures Dict.Get(Saved(plans, plan, freshId), SavedId(plan, freshId))
            == Some(plan.(id := Some(SavedId(plan, freshId))))
    ensures other != SavedId(plan, freshId) ==> Dict.Get(Saved(plans, plan, freshId), other) == Dict.Get(plans, other)
    ensures Dict.Valid(plans) ==> Dict.Valid(Saved(plans, plan, freshId))
  {
    var id := SavedId(plan, freshId);
    Dict.GetPutSame(plans, id, plan.(id := Some(id)));
    if other != id {
      Dict.GetPutOther(plans, id, plan.(id := Some(id)), other);
    }
    if Dict.Valid(plans) {
      Dict.PutValid(plans, id, plan.(id := Some(id)));
    }
  }

  /** `plan.get("duration_days", 1)`. */
  function Divisor(plan: Plan): int
  {
    plan.durationDays.GetOr(1)
  }

  /** A plan with `day` appended to its completed days and the progress
      recomputed as completed days over duration. */
  function CompleteDay(plan: Plan, day: int): (p: Plan)
    requires Divisor(plan) != 0
    ensures p.completedDays == plan.completedDays + [day]
    ensures p.progress == |p.completedDays| as real / Divisor(plan) as real
    ensures p.id == plan.id && p.durationDays == plan.durationDays
  {
    var completed := plan.completedDays + [day];
    plan.(completedDays := completed, progress := |completed| as real / Divisor(plan) as real)
  }

  /** The plans map after `mark_day_complete(planId, day)`, or `None` when
      it divides by a zero duration and raises. */
  function MarkDay(plans: Dict.Dict<string, Plan>, planId: string, day: int, freshId: string)
    : (r: Option<Dict.Dict<string, Plan>>)
    ensures planId !in Dict.Keys(plans) ==> r == Some(plans)
    ensures (Dict.Get(plans, planId).Some? && day in Dict.Get(plans, planId).value.completedDays)
            ==> r == Some(plans)
    ensures r.None? <==> Dict.Get(plans, planId).Some? && day !in Dict.Get(plans, planId).value.completedDays
                         && Divisor(Dict.Get(plans, planId).value) == 0
  {
    match Dict.Get(plans, planId)
    case None => Some(plans)
    case Some(plan) =>
      if day in plan.completedDays then Some(plans)
      else if Divisor(plan) == 0 then None
      else Some(Saved(plans, CompleteDay(plan, day), freshId))
  }

  /** Every stored plan carries its own key as its id, as every plan
      `_save_study_plan` writes does. */
  ghost predicate Keyed(plans: Dict.Dict<string, Plan>)
  {
    forall k :: Dict.Get(plans, k).Some? ==> Dict.Get(plans, k).value.id == Some(k)
  }

  /** Saving keeps every stored plan carrying its key. */
  lemma SavedKeyed(plans: Dict.Dict<string, Plan>, plan: Plan, freshId: string)
    requires Keyed(plans)
    ensures Keyed(Saved(plans, plan, freshId))
  {
    forall k | Dict.Get(Saved(plans, plan, freshId), k).Some?
      ensures Dict.Get(Saved(plans, plan, freshId), k).value.id == Some(k)
    {
      SavedProperties(plans, plan, freshId, k);
    }
  }

  /** Marking a day keeps every stored plan carrying its key. */
  lemma MarkDayKeyed(plans: Dict.Dict<string, Plan>, planId: string, day: int, freshId: string)
    requires Keyed(plans) && MarkDay(plans, planId, day, freshId).Some?
    ensures Keyed(MarkDay(plans, planId, day, freshId).value)
  {
    match Dict.Get(plans, planId)
    case None =>
    case Some(plan) =>
      if day !in plan.completedDays {
        SavedKeyed(plans, CompleteDay(plan, day), freshId);
      }
  }

  /** Marking the same day twice is marking it once, whatever id each call
      would give a plan without one: in a keyed store the plan is saved back
      under its own key. */
  lemma MarkDayIdempotent(plans: Dict.Dict<string, Plan>, planId: string, day: int,
                          freshId: string, freshId': string)
    requires Keyed(plans) && MarkDay(plans, planId, day, freshId).Some?
    ensures var once := MarkDay(plans, planId, day, freshId).value;
            MarkDay(once, planId, day, freshId') == Some(once)
  {
    match Dict.Get(plans, planId)
    case None =>
    case Some(plan) =>
      if day !in plan.completedDays {
        var marked := CompleteDay(plan, day);
        SavedProperties(plans, marked, freshId, planId);
      }
  }

  /** Without the key invariant the second call is not idempotent: a stored
      plan without an id is saved as a new copy under each call's fresh id,
      while the original entry never records the day. */
  lemma MarkDayUnkeyedCopies()
    ensures var plan := Plan(None, "t", Some(2), 1.0, [], [], [], 0, "s", [], 0.0);
            var once := MarkDay([("k", plan)], "k", 1, "a").value;
            once == [("k", plan), ("a", CompleteDay(plan, 1).(id := Some("a")))]
            && MarkDay(once, "k", 1, "b") != Some(once)
  {
    var plan := Plan(None, "t", Some(2), 1.0, [], [], [], 0, "s", [], 0.0);
    var once := MarkDay([("k", plan)], "k", 1, "a").value;
    assert Dict.Get([("k", plan)], "k") == Some(plan);
    assert once == [("k", plan), ("a", CompleteDay(plan, 1).(id := Some("a")))];
    assert Dict.Get(once, "k") == Some(plan);
    var twice := MarkDay(once, "k", 1, "b").value;
    assert "b" !in Dict.Keys(once);
    assert |twice| == 3;
  }

  /** Marking a day not yet complete appends it to the plan's completed
      days, sets progress to their number over the duration and saves the
      plan; completed days stay free of duplicates. */
  lemma MarkDayAppends(plans: Dict.Dict<string, Plan>, planId: string, day: int, freshId: string)
    requires Dict.Get(plans, planId).Some?
    requires day !in Dict.Get(plans, planId).value.completedDays
    requires Divisor(Dict.Get(plans, planId).value) != 0
    ensures var plan := Dict.Get(plans, planId).value;
            var marked := CompleteDay(plan, day);
            MarkDay(plans, planId, day, freshId) == Some(Saved(plans, marked, freshId))
            && marked.completedDays == plan.completedDays + [day]
            && marked.progress == |marked.completedDays| as real / Divisor(plan) as real
            && (NoDup(plan.completedDays) ==> NoDup(marked.completedDays))
  {
    var plan := Dict.Get(plans, planId).value;
    if NoDup(plan.completedDays) {
      NoDupAppend(plan.completedDays, day);
    }
  }

  /** The day is not range-checked: marking a day past the plan's end pushes
      progress above 1. */
  lemma ProgressCanPassOne()
    ensures var plan := Plan(Some("p"), "t", Some(1), 1.0, [], [], [], 0, "s", [1], 1.0);
            CompleteDay(plan, 2).progress == 2.0
  {
  }

  /** `get_active_plans` keeps the plans whose progress is below 1. */
  predicate IsActive(p: Plan)
  {
    p.progress < 1.0
  }

  function CreatedAt(p: Plan): int
  {
    p.createdAt
  }

  /** The active plans, newest first; plans created at the same time keep
      the map's order (a stable sort). */
  function ActivePlansOf(plans: Dict.Dict<string, Plan>): (active: seq<Plan>)
    ensures SortedDesc(active, CreatedAt)
    ensures multiset(active) == multiset(Filter(Dict.Values(plans), IsActive))
  {
    SortDescSorted(Filter(Dict.Values(plans), IsActive), CreatedAt);
    SortDesc(Filter(Dict.Values(plans), IsActive), CreatedAt)
  }

  /** A plan is listed exactly when it is stored and active; plans with the
      same creation time are listed in map order. */
  lemma ActivePlansExactly(plans: Dict.Dict<string, Plan>, p: Plan, t: int)
    ensures p in ActivePlansOf(plans) <==> p in Dict.Values(plans) && IsActive(p)
    ensures Filter(ActivePlansOf(plans), HasKey(CreatedAt, t))
            == Filter(Filter(Dict.Values(plans), IsActive), HasKey(CreatedAt, t))
  {
    var vs := Dict.Values(plans);
    var active := Filter(vs, IsActive);
    assert p in ActivePlansOf(plans) <==> p in multiset(active);
    FilterSound(vs, IsActive);
    if p in vs && IsActive(p) {
      var i :| 0 <= i < |vs| && vs[i] == p;
      FilterKeeps(vs, i, IsActive);
    }
    SortDescStable(active, CreatedAt, t);
  }

  /** `StudyPlanGenerator`: `plans` is the stored map of the student's plans. */
  class StudyPlanGenerator {
    const studentId: string
    var plans: Dict.Dict<string, Plan>

    constructor (studentId: string, stored: Dict.Dict<string, Plan>)
      ensures this.studentId == studentId && plans == stored
    {
      this.studentId := studentId;
      plans := stored;
    }

    /** `generate_study_plan` once the LLM has answered: a reply is dated,
        stamped and saved; without one the default plan is returned and
        nothing is saved. */
    method GenerateStudyPlan(topic: string, durationDays: int, hoursPerDay: real, reply: Option<Plan>,
                             today: int, now: int, freshId: string) returns (plan: Plan)
      modifies this
      ensures reply.None? ==> plan == DefaultPlanOf(topic, durationDays, hoursPerDay, today, now, studentId)
                              && plans == old(plans)
      ensures reply.Some? ==>
                var g := Generated(reply.value, today, now, studentId);
                plans == Saved(old(plans), g, freshId) && plan == g.(id := Some(SavedId(g, freshId)))
      ensures Keyed(old(plans)) ==> Keyed(plans)
    {
      if reply.None? {
        plan := DefaultPlan(topic, durationDays, hoursPerDay, today, now);
        return;
      }
      plan := reply.value;
      var days := plan.dailyPlans;
      var i := 0;
      while i < |days|
        invariant 0 <= i <= |days| && |days| == |plan.dailyPlans|
        invariant forall j :: 0 <= j < i ==> days[j] == plan.dailyPlans[j].(date := today + j)
        invariant forall j :: i <= j < |days| ==> days[j] == plan.dailyPlans[j]
      {
        days := days[i := days[i].(date := today + i)];
        i := i + 1;
      }
      assert days == Generated(reply.value, today, now, studentId).dailyPlans;
      plan := plan.(dailyPlans := days);
      plan := plan.(createdAt := now, studentId := studentId, completedDays := [], progress := 0.0);
      plan := SavePlan(plan, freshId);
    }

    /** `_get_default_plan`: one entry per day, built in a loop. */
    method DefaultPlan(topic: string, durationDays: int, hoursPerDay: real, today: int, now: int)
      returns (plan: Plan)
      ensures plan == DefaultPlanOf(topic, durationDays, hoursPerDay, today, now, studentId)
    {
      var days: seq<DayPlan> := [];
      var i := 0;
      while i < durationDays
        invariant 0 <= i && (i <= durationDays || i == 0)
        invariant |days| == i
        invariant forall j :: 0 <= j < i ==> days[j] == DefaultDay(topic, hoursPerDay, today, j)
      {
        days := days + [DayPlan(i + 1, today + i, [topic + " - Day " + NatToString(i + 1)],
                                ["Study", "Practice", "Review"], hoursPerDay, [])];
        i := i + 1;
      }
      plan := Plan(None, topic, Some(durationDays), hoursPerDay, days,
                   ["Learn " + topic], ["Complete study plan"], now, studentId, [], 0.0);
    }

    /** `_save_study_plan`: the plan keeps its id or gets `freshId`, and is
        stored under it. */
    method SavePlan(plan: Plan, freshId: string) returns (saved: Plan)
      modifies this
      ensures saved == plan.(id := Some(SavedId(plan, freshId)))
      ensures plans == Saved(old(plans), plan, freshId)
      ensures Keyed(old(plans)) ==> Keyed(plans)
    {
      if Keyed(plans) {
        SavedKeyed(plans, plan, freshId);
      }
      var id := plan.id.GetOr(freshId);
      saved := plan.(id := Some(id));
      plans := Dict.Put(plans, id, saved);
    }

    /** `mark_day_complete`: returns false where the source raises
        `ZeroDivisionError`, leaving the stored plans as they were. */
    method MarkDayComplete(planId: string, day: int, freshId: string) returns (ok: bool)
      modifies this
      ensures ok <==> MarkDay(old(plans), planId, day, freshId).Some?
      ensures plans == MarkDay(old(plans), planId, day, freshId).GetOr(old(plans))
      ensures Keyed(old(plans)) ==> Keyed(plans)
    {
      var found := Dict.Get(plans, planId);
      if found.None? {
        return true;
      }
      var plan := found.value;
      var completed := plan.completedDays;
      if day !in completed {
        completed := completed + [day];
        plan := plan.(completedDays := completed);
        var duration := plan.durationDays.GetOr(1);
        if duration == 0 {
          return false;
        }
        plan := plan.(progress := |completed| as real / duration as real);
        var _ := SavePlan(plan, freshId);
      }
      ok := true;
    }

    /** `get_active_plans`: the active plans collected in map order, then
        sorted newest first. */
    method GetActivePlans() returns (active: seq<Plan>)
      ensures active == ActivePlansOf(plans)
    {
      var vs := Dict.Values(plans);
      active := [];
      var i := 0;
      while i < |vs|
        invariant 0 <= i <= |vs|
        invariant active == Filter(vs[..i], IsActive)
      {
        assert vs[..i + 1][..i] == vs[..i];
        if vs[i].progress < 1.0 {
          active := active + [vs[i]];
        }
        i := i + 1;
      }
      assert vs[..i] == vs;
      active := SortDesc(active, CreatedAt);
    }
  }
}
