/**
  The repository: one object holding the three tables. Each table is a map
  from the serial id to its row, with the next value of that table's id
  sequence. Only the row semantics the code relies on are modelled, not the
  database engine.
 */
module Storage {
  import opened Wrappers
  import opened Schema

  /** The rows of `m` whose id lies in [lo, hi) and that satisfy `keep`, in
      ascending id order. `key` reads a row's id, which is its map key. */
  function Select<R(==,!new)>(m: map<int, R>, key: R -> int, lo: int, hi: int, keep: R -> bool): (rows: seq<R>)
    requires forall k :: k in m ==> key(m[k]) == k
    decreases hi - lo
    ensures forall r :: r in rows <==> r in m.Values && lo <= key(r) < hi && keep(r)
    ensures forall i, j :: 0 <= i < j < |rows| ==> key(rows[i]) < key(rows[j])
    ensures m == map[] ==> rows == []
  {
    if lo >= hi then []
    else
      var rest := Select(m, key, lo + 1, hi, keep);
      if lo in m && keep(m[lo]) then [m[lo]] + rest else rest
  }

  /** Some activity in `activities` references component `id`. */
  ghost predicate Referenced(activities: map<int, Activity>, id: int)
  {
    exists k :: k in activities && activities[k].componentId == Some(id)
  }

  class DatabaseStorage {
    var components: map<int, Component>
    var holidays: map<int, Holiday>
    var activities: map<int, Activity>
    /** The next value of each table's `serial` sequence. */
    var nextComponentId: int
    var nextHolidayId: int
    var nextActivityId: int

    /** Every row is stored under its own id, and that id was handed out by
        the table's sequence, which starts at 1 and only grows. The foreign
        key from activities to components holds: every referenced component
        exists. */
    ghost predicate Valid()
      reads this
    {
      && 1 <= nextComponentId && 1 <= nextHolidayId && 1 <= nextActivityId
      && (forall id :: id in components ==> 1 <= id < nextComponentId && components[id].id == id)
      && (forall id :: id in holidays ==> 1 <= id < nextHolidayId && holidays[id].id == id)
      && (forall id :: id in activities ==> 1 <= id < nextActivityId && activities[id].id == id)
      && (forall id :: id in activities && activities[id].componentId.Some? ==>
            activities[id].componentId.value in components)
    }

    constructor ()
      ensures Valid()
      ensures components == map[] && holidays == map[] && activities == map[]
      ensures nextComponentId == 1 && nextHolidayId == 1 && nextActivityId == 1
    {
      components, holidays, activities := map[], map[], map[];
      nextComponentId, nextHolidayId, nextActivityId := 1, 1, 1;
    }

    // -------------------------------------------------------------------------
    // Curricular components
    // -------------------------------------------------------------------------

    function GetCurricularComponents(): (rows: seq<Component>)
      reads this
      requires Valid()
      ensures forall c :: c in rows <==> c in components.Values
      ensures components == map[] ==> rows == []
      ensures forall i, j :: 0 <= i < j < |rows| ==> rows[i].id < rows[j].id
    {
      Select(components, (c: Component) => c.id, 1, nextComponentId, (c: Component) => true)
    }

    function GetCurricularComponent(id: int): (r: Option<Component>)
      reads this
      requires Valid()
      ensures r.Some? <==> id in components
      ensures r.Some? ==> r.value.id == id && r.value in components.Values
    {
      if id in components then Some(components[id]) else None
    }

    method CreateCurricularComponent(input: NewComponent) returns (row: Component)
      requires Valid()
      modifies this`components, this`nextComponentId
      ensures Valid()
      ensures row.id == old(nextComponentId) && row.id !in old(components) && ComponentInput(row) == input
      ensures components == old(components)[row.id := row]
      ensures nextComponentId == old(nextComponentId) + 1
    {
      row := ComponentRow(nextComponentId, input);
      components := components[row.id := row];
      nextComponentId := nextComponentId + 1;
    }

    method UpdateCurricularComponent(id: int, patch: ComponentPatch) returns (r: Option<Component>)
      requires Valid()
      modifies this`components
      ensures Valid()
      ensures r.Some? <==> id in old(components)
      ensures r.Some? ==> r.value == ApplyPatch(old(components)[id], patch) && components == old(components)[id := r.value]
      ensures r.None? ==> components == old(components)
    {
      if id in components {
        var updated := ApplyPatch(components[id], patch);
        components := components[id := updated];
        r := Some(updated);
      } else {
        r := None;
      }
    }

    /** Deleting a component: `None` when the database refuses because an
        activity still references it (the foreign key has no delete action),
        otherwise whether a row was removed. */
    method DeleteCurricularComponent(id: int) returns (r: Option<bool>)
      requires Valid()
      modifies this`components
      ensures Valid()
      ensures r.None? <==> Referenced(activities, id)
      ensures r.None? ==> id in old(components) && components == old(components)
      ensures r.Some? ==> (r.value <==> id in old(components)) && components == old(components) - {id}
    {
      if exists k :: k in activities && activities[k].componentId == Some(id) {
        r := None;
      } else {
        r := Some(id in components);
        components := components - {id};
      }
    }

    // -------------------------------------------------------------------------
    // Holidays
    // -------------------------------------------------------------------------

    function GetHolidays(): (rows: seq<Holiday>)
      reads this
      requires Valid()
      ensures forall h :: h in rows <==> h in holidays.Values
      ensures holidays == map[] ==> rows == []
      ensures forall i, j :: 0 <= i < j < |rows| ==> rows[i].id < rows[j].id
    {
      Select(holidays, (h: Holiday) => h.id, 1, nextHolidayId, (h: Holiday) => true)
    }

    method CreateHoliday(input: NewHoliday) returns (row: Holiday)
      requires Valid()
      modifies this`holidays, this`nextHolidayId
      ensures Valid()
      ensures row.id == old(nextHolidayId) && row.id !in old(holidays) && HolidayInput(row) == input
      ensures holidays == old(holidays)[row.id := row]
      ensures nextHolidayId == old(nextHolidayId) + 1
    {
      row := HolidayRow(nextHolidayId, input);
      holidays := holidays[row.id := row];
      nextHolidayId := nextHolidayId + 1;
    }

    method DeleteHoliday(id: int) returns (deleted: bool)
      requires Valid()
      modifies this`holidays
      ensures Valid()
      ensures deleted <==> id in old(holidays)
      ensures holidays == old(holidays) - {id}
    {
      deleted := id in holidays;
      holidays := holidays - {id};
    }

    // -------------------------------------------------------------------------
    // Activities
    // -------------------------------------------------------------------------

    function GetActivities(): (rows: seq<Activity>)
      reads this
      requires Valid()
      ensures forall a :: a in rows <==> a in activities.Values
      ensures activities == map[] ==> rows == []
      ensures forall i, j :: 0 <= i < j < |rows| ==> rows[i].id < rows[j].id
    {
      Select(activities, (a: Activity) => a.id, 1, nextActivityId, (a: Activity) => true)
    }

    function GetActivity(id: int): (r: Option<Activity>)
      reads this
      requires Valid()
      ensures r.Some? <==> id in activities
      ensures r.Some? ==> r.value.id == id && r.value in activities.Values
    {
      if id in activities then Some(activities[id]) else None
    }

    /** Inserting an activity draws the next id from the sequence first; the
        insert is then refused (`None`) when it references a component that
        does not exist, and the id drawn is not handed out again. */
    method CreateActivity(input: NewActivity) returns (r: Option<Activity>)
      requires Valid()
      modifies this`activities, this`nextActivityId
      ensures Valid()
      ensures nextActivityId == old(nextActivityId) + 1
      ensures r.Some? <==> input.componentId.None? || input.componentId.value in components
      ensures r.None? ==> activities == old(activities)
      ensures r.Some? ==>
                var row := r.value;
                && row.id == old(nextActivityId) && row.id !in old(activities)
                && ActivityInput(row) == input && row.status == PendingStatus
                && activities == old(activities)[row.id := row]
    {
      var id := nextActivityId;
      nextActivityId := nextActivityId + 1;
      if input.componentId.Some? && input.componentId.value !in components {
        r := None;
      } else {
        var row := ActivityRow(id, input);
        activities := activities[id := row];
        r := Some(row);
      }
    }

    method UpdateActivity(id: int, update: ActivityUpdate) returns (r: Option<Activity>)
      requires Valid()
      modifies this`activities
      ensures Valid()
      ensures r.Some? <==> id in old(activities)
      ensures r.Some? ==> r.value == ApplyUpdate(old(activities)[id], update) && activities == old(activities)[id := r.value]
      ensures r.None? ==> activities == old(activities)
    {
      if id in activities {
        var updated := ApplyUpdate(activities[id], update);
        activities := activities[id := updated];
        r := Some(updated);
      } else {
        r := None;
      }
    }

    method DeleteActivity(id: int) returns (deleted: bool)
      requires Valid()
      modifies this`activities
      ensures Valid()
      ensures deleted <==> id in old(activities)
      ensures activities == old(activities) - {id}
    {
      deleted := id in activities;
      activities := activities - {id};
    }

    /** The activities realized on `date`: an exact string comparison. */
    function GetActivitiesByDate(date: string): (rows: seq<Activity>)
      reads this
      requires Valid()
      ensures forall a :: a in rows <==> a in activities.Values && a.realizationDate == date
      ensures forall i, j :: 0 <= i < j < |rows| ==> rows[i].id < rows[j].id
    {
      Select(activities, (a: Activity) => a.id, 1, nextActivityId, (a: Activity) => a.realizationDate == date)
    }
  }
}
