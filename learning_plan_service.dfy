/** The learning-plan store: the structural check applied to a plan of
    unknown shape, and the `learning_plans` table with its
    "deactivate every plan, then activate one" rule. The table is held in
    memory, keyed by id; each store call that can fail takes a flag saying
    whether it did. */
module LearningPlanService {
  import opened Common
  import LearningPlanGenerator

  /** A JavaScript value as far as the check inspects it. Numbers are kept
      as reals; NaN is not represented. */
  datatype Json =
    | JUndefined
    | JNull
    | JBool(b: bool)
    | JNum(n: real)
    | JStr(s: string)
    | JArr(items: seq<Json>)
    | JObj(fields: map<string, Json>)

  /** JavaScript truthiness. */
  predicate Truthy(j: Json)
  {
    match j
    case JUndefined => false
    case JNull => false
    case JBool(b) => b
    case JNum(n) => n != 0.0
    case JStr(s) => s != ""
    case JArr(_) => true
    case JObj(_) => true
  }

  /** `j[key]` for a truthy `j`: an object's own field, `undefined` otherwise. */
  function Get(j: Json, key: string): Json
  {
    if j.JObj? && key in j.fields then j.fields[key] else JUndefined
  }

  /** The test applied to each week. */
  predicate ValidWeek(week: Json)
  {
    && Truthy(week)
    && Get(week, "weekNumber").JNum?
    && Get(week, "days").JArr?
    && |Get(week, "days").items| > 0
  }

  /** `weeks.every(...)`, week by week from the first. */
  function EveryWeekValid(weeks: seq<Json>): (b: bool)
    ensures b <==> forall i :: 0 <= i < |weeks| ==> ValidWeek(weeks[i])
  {
    if weeks == [] then true
    else ValidWeek(weeks[0]) && EveryWeekValid(weeks[1..])
  }

  /** `validateLearningPlan(plan)`. */
  function ValidateLearningPlan(plan: Json): (b: bool)
    ensures b ==> plan.JObj?
    ensures b <==>
      && Get(plan, "totalDays").JNum?
      && Get(plan, "weeks").JArr?
      && |Get(plan, "weeks").items| > 0
      && forall i :: 0 <= i < |Get(plan, "weeks").items| ==> ValidWeek(Get(plan, "weeks").items[i])
  {
    && Truthy(plan)
    && Get(plan, "totalDays").JNum?
    && Get(plan, "weeks").JArr?
    && |Get(plan, "weeks").items| > 0
    && EveryWeekValid(Get(plan, "weeks").items)
  }

  /** A video as a JavaScript object. */
  function VideoJson(v: LearningPlanGenerator.Video): Json
  {
    JObj(map["title" := JStr(v.title), "link" := JStr(v.link)])
  }

  /** A day-keyed learning plan as a JavaScript object: one array of videos
      per key. */
  function PlanJson(plan: LearningPlanGenerator.LearningPlan): (j: Json)
    ensures j.JObj? && forall k :: k in j.fields <==> k in plan
    ensures forall k :: k in plan ==> j.fields[k].JArr? && |j.fields[k].items| == |plan[k]|
  {
    JObj(map k | k in plan :: JArr(seq(|plan[k]|, i requires 0 <= i < |plan[k]| => VideoJson(plan[k][i]))))
  }

  /* ---------------- the table ---------------- */

  /** A `learning_plans` row; the timestamps are not kept. */
  datatype PlanRow = PlanRow(planName: string, totalDays: Json, planData: Json, isActive: bool)

  /** `update({ is_active: false }).neq('id', 0)`. */
  function DeactivateAll(rows: map<int, PlanRow>): (r: map<int, PlanRow>)
    ensures forall k :: k in r <==> k in rows
  {
    map k | k in rows :: if k != 0 then rows[k].(isActive := false) else rows[k]
  }

  /** `update({ is_active: true }).eq('id', id)`: matches nothing when there
      is no such row. */
  function Activate(rows: map<int, PlanRow>, id: int): (r: map<int, PlanRow>)
    ensures forall k :: k in r <==> k in rows
  {
    if id in rows then rows[id := rows[id].(isActive := true)] else rows
  }

  const DefaultPlanName := "AI Learning Plan"

  /** The row `createLearningPlan` inserts. */
  function NewPlanRow(planData: Json, planName: Option<string>): PlanRow
  {
    PlanRow(if planName.Some? then planName.value else DefaultPlanName,
            Get(planData, "totalDays"), planData, true)
  }

  class LearningPlanTable {
    var rows: map<int, PlanRow>
    /** The id the database hands to the next inserted row. */
    var nextId: int

    /** Ids are positive and below the next one handed out. */
    predicate Valid()
      reads this
    {
      nextId >= 1 && forall id :: id in rows ==> 1 <= id < nextId
    }

    constructor ()
      ensures Valid() && rows == map[] && nextId == 1
    {
      rows := map[];
      nextId := 1;
    }

    /** `setActiveLearningPlan(id)`. The first update's outcome is not
        looked at; only a failure of the second makes the result `false`. */
    method SetActiveLearningPlan(id: int, deactivateFails: bool, activateFails: bool) returns (ok: bool)
      requires Valid()
      modifies this
      ensures Valid()
      ensures var cleared := if deactivateFails then old(rows) else DeactivateAll(old(rows));
        rows == if activateFails then cleared else Activate(cleared, id)
      ensures ok == !activateFails
      ensures nextId == old(nextId)
    {
      if !deactivateFails {
        rows := DeactivateAll(rows);
      }
      if activateFails {
        ok := false;
      } else {
        rows := Activate(rows, id);
        ok := true;
      }
    }

    /** `createLearningPlan(planData, planName)`: the deactivation, then the
        insert of an active row that reports the created row or `None`. */
    method CreateLearningPlan(planData: Json, planName: Option<string>, deactivateFails: bool, insertFails: bool)
      returns (created: Option<(int, PlanRow)>)
      requires Valid()
      modifies this
      ensures Valid()
      ensures var cleared := if deactivateFails then old(rows) else DeactivateAll(old(rows));
        if insertFails then
          created.None? && rows == cleared && nextId == old(nextId)
        else
          && created == Some((old(nextId), NewPlanRow(planData, planName)))
          && rows == cleared[old(nextId) := NewPlanRow(planData, planName)]
          && nextId == old(nextId) + 1
    {
      if !deactivateFails {
        rows := DeactivateAll(rows);
      }
      if insertFails {
        created := None;
      } else {
        var row := NewPlanRow(planData, planName);
        var id := nextId;
        rows := rows[id := row];
        nextId := nextId + 1;
        created := Some((id, row));
      }
    }
  }

  /* ---------------- properties ---------------- */

  /** No plan passes without at least one week. */
  lemma EmptyWeeksRejected(plan: Json)
    requires Get(plan, "weeks") == JArr([])
    ensures !ValidateLearningPlan(plan)
  {
  }

  /** No plan passes when one of its weeks has no days. */
  lemma WeekWithoutDaysRejected(plan: Json, i: int)
    requires Get(plan, "weeks").JArr? && 0 <= i < |Get(plan, "weeks").items|
    requires Get(Get(plan, "weeks").items[i], "days") == JArr([])
    ensures !ValidateLearningPlan(plan)
  {
  }

  /** Neither `null`, `undefined` nor any primitive passes. */
  lemma NonObjectsRejected(plan: Json)
    requires !plan.JObj?
    ensures !ValidateLearningPlan(plan)
  {
  }

  /** A day-keyed plan, the shape of the learning-plan type itself, never
      passes: every one of its fields is an array, so `totalDays` is never a
      number. */
  lemma DayKeyedPlanRejected(plan: LearningPlanGenerator.LearningPlan)
    ensures !ValidateLearningPlan(PlanJson(plan))
  {
    var j := PlanJson(plan);
    if "totalDays" in plan {
      assert j.fields["totalDays"].JArr?;
    }
  }

  /** A plan with a numeric `totalDays` and one week holding one day passes. */
  lemma SmallPlanAccepted()
    ensures ValidateLearningPlan(JObj(map[
      "totalDays" := JNum(7.0),
      "weeks" := JArr([JObj(map["weekNumber" := JNum(1.0), "days" := JArr([JNull])])])]))
  {
    var week := JObj(map["weekNumber" := JNum(1.0), "days" := JArr([JNull])]);
    assert ValidWeek(week);
    assert EveryWeekValid([week]);
  }

  /** After a successful activation with a successful deactivation, among the
      rows with id other than 0 exactly row `id` is active; no row is added
      or removed and no other field changes. */
  lemma ActivationLeavesOnlyOne(rows: map<int, PlanRow>, id: int)
    ensures var r := Activate(DeactivateAll(rows), id);
      && (forall k :: k in r <==> k in rows)
      && (forall k :: k in r && k != 0 ==> (r[k].isActive <==> k == id))
      && (forall k :: k in r ==> r[k] == rows[k].(isActive := r[k].isActive))
      && (id in rows ==> r[id].isActive)
  {
  }

  /** Activating an id with no row still reports success, and then no row
      with id other than 0 is active. */
  lemma ActivatingMissingIdLeavesNoneActive(rows: map<int, PlanRow>, id: int)
    requires id !in rows
    ensures forall k :: k in Activate(DeactivateAll(rows), id) && k != 0 ==>
      !Activate(DeactivateAll(rows), id)[k].isActive
  {
  }

  /** When the deactivation fails unnoticed, an activation still reports
      success while every previously active row stays active. */
  lemma FailedDeactivationKeepsOldActive(rows: map<int, PlanRow>, id: int, k: int)
    requires k in rows && rows[k].isActive
    ensures k in Activate(rows, id) && Activate(rows, id)[k].isActive
  {
  }

  /** After a create whose two steps succeed, the new row is the only active
      one among rows with id other than 0, it records the plan's
      `totalDays` and the given name or "AI Learning Plan" when none is
      given, and every older row keeps everything but its flag. */
  lemma CreationLeavesOnlyNew(rows: map<int, PlanRow>, newId: int, planData: Json, planName: Option<string>)
    requires newId != 0 && newId !in rows
    ensures var r := DeactivateAll(rows)[newId := NewPlanRow(planData, planName)];
      && (forall k :: k in r <==> k in rows || k == newId)
      && (forall k :: k in r && k != 0 ==> (r[k].isActive <==> k == newId))
      && r[newId].totalDays == Get(planData, "totalDays")
      && r[newId].planName == (if planName.Some? then planName.value else "AI Learning Plan")
      && (forall k :: k in rows ==> r[k] == rows[k].(isActive := r[k].isActive))
  {
  }

  /** Creating from a day-keyed plan stores no numeric `totalDays`. */
  lemma DayKeyedPlanHasNoTotalDays(plan: LearningPlanGenerator.LearningPlan, planName: Option<string>)
    ensures !NewPlanRow(PlanJson(plan), planName).totalDays.JNum?
    ensures NewPlanRow(PlanJson(plan), planName).isActive
  {
    if "totalDays" in plan {
      assert PlanJson(plan).fields["totalDays"].JArr?;
    }
  }
}
