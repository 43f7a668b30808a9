/**
  The HTTP handlers of the schedule API. Each handler validates the body
  (where it has one), calls the repository once, and maps the outcome to a
  status code and a JSON payload. A fault raised by the store is modelled by
  the `storeFault` flag: the store call raises before writing anything.
  Path ids arrive already parsed.
 */
module Routes {
  import opened Wrappers
  import opened Schema
  import opened Validation
  import opened Storage

  // ---------------------------------------------------------------------------
  // Status codes
  // ---------------------------------------------------------------------------

  datatype Operation = Read | Create | Update | Delete

  /** How a request ended: the body failed validation, the targeted row does
      not exist, the operation succeeded, or anything else went wrong. */
  datatype Outcome = Invalid | Absent | Done | Fault

  function StatusCode(op: Operation, outcome: Outcome): (code: int)
    ensures code == 400 <==> outcome == Invalid
    ensures code == 404 <==> outcome == Absent
    ensures code == 500 <==> outcome == Fault
    ensures 200 <= code < 300 <==> outcome == Done
    ensures code == 201 <==> op == Create && outcome == Done
    ensures code == 204 <==> op == Delete && outcome == Done
    ensures code in {200, 201, 204, 400, 404, 500}
  {
    match outcome
    case Invalid => 400
    case Absent => 404
    case Fault => 500
    case Done => if op == Create then 201 else if op == Delete then 204 else 200
  }

  // ---------------------------------------------------------------------------
  // Responses
  // ---------------------------------------------------------------------------

  datatype Payload =
    | NoBody
    | Message(message: string)
    | ValidationErrors(message: string, errors: seq<Issue>)
    | ComponentList(components: seq<Component>)
    | ComponentJson(component: Component)
    | HolidayList(holidays: seq<Holiday>)
    | HolidayJson(holiday: Holiday)
    | ActivityList(activities: seq<Activity>)
    | ActivityJson(activity: Activity)

  datatype Response = Response(status: int, payload: Payload)

  // ---------------------------------------------------------------------------
  // /api/curricular-components
  // ---------------------------------------------------------------------------

  method GetComponentsRoute(store: DatabaseStorage, storeFault: bool) returns (resp: Response)
    requires store.Valid()
    ensures storeFault ==> resp == Response(500, Message("Failed to fetch curricular components"))
    ensures !storeFault ==> resp.status == 200 && resp.payload.ComponentList?
    ensures !storeFault ==> forall i, j :: 0 <= i < j < |resp.payload.components| ==> resp.payload.components[i].id < resp.payload.components[j].id
    ensures !storeFault ==> forall c :: c in resp.payload.components <==> c in store.components.Values
  {
    if storeFault {
      resp := Response(StatusCode(Read, Fault), Message("Failed to fetch curricular components"));
    } else {
      resp := Response(StatusCode(Read, Done), ComponentList(store.GetCurricularComponents()));
    }
  }

  method PostComponentRoute(store: DatabaseStorage, body: Value, storeFault: bool) returns (resp: Response)
    requires store.Valid()
    modifies store`components, store`nextComponentId
    ensures store.Valid()
    ensures ValidateComponent(body).Rejected? ==>
              && resp == Response(400, ValidationErrors("Invalid component data", ValidateComponent(body).issues))
              && store.components == old(store.components) && store.nextComponentId == old(store.nextComponentId)
    ensures ValidateComponent(body).Accepted? && storeFault ==>
              && resp == Response(500, Message("Failed to create curricular component"))
              && store.components == old(store.components) && store.nextComponentId == old(store.nextComponentId)
    ensures ValidateComponent(body).Accepted? && !storeFault ==>
              && resp.status == 201 && resp.payload.ComponentJson?
              && resp.payload.component.id !in old(store.components)
              && ComponentInput(resp.payload.component) == ValidateComponent(body).value
              && resp.payload.component.id == old(store.nextComponentId)
              && store.components == old(store.components)[resp.payload.component.id := resp.payload.component]
              && store.nextComponentId == old(store.nextComponentId) + 1
  {
    var input := ValidateComponent(body);
    if input.Rejected? {
      resp := Response(StatusCode(Create, Invalid), ValidationErrors("Invalid component data", input.issues));
    } else if storeFault {
      resp := Response(StatusCode(Create, Fault), Message("Failed to create curricular component"));
    } else {
      var row := store.CreateCurricularComponent(input.value);
      resp := Response(StatusCode(Create, Done), ComponentJson(row));
    }
  }

  /** A patch that carries no field leaves the update with nothing to set;
      the query builder refuses such a statement, so the request ends in the
      handler's catch block. */
  method PutComponentRoute(store: DatabaseStorage, id: int, body: Value, storeFault: bool) returns (resp: Response)
    requires store.Valid()
    modifies store`components
    ensures store.Valid()
    ensures ValidateComponentPatch(body).Rejected? ==>
              && resp == Response(400, ValidationErrors("Invalid component data", ValidateComponentPatch(body).issues))
              && store.components == old(store.components)
    ensures ValidateComponentPatch(body).Accepted?
            && (storeFault || !IsInt4(id) || ValidateComponentPatch(body).value == EmptyPatch) ==>
              && resp == Response(500, Message("Failed to update curricular component"))
              && store.components == old(store.components)
    ensures ValidateComponentPatch(body).Accepted? && ValidateComponentPatch(body).value != EmptyPatch
            && !storeFault && IsInt4(id) && id !in old(store.components) ==>
              && resp == Response(404, Message("Component not found"))
              && store.components == old(store.components)
    ensures ValidateComponentPatch(body).Accepted? && ValidateComponentPatch(body).value != EmptyPatch
            && !storeFault && IsInt4(id) && id in old(store.components) ==>
              var updated := ApplyPatch(old(store.components)[id], ValidateComponentPatch(body).value);
              && resp == Response(200, ComponentJson(updated))
              && store.components == old(store.components)[id := updated]
  {
    var patch := ValidateComponentPatch(body);
    if patch.Rejected? {
      resp := Response(StatusCode(Update, Invalid), ValidationErrors("Invalid component data", patch.issues));
    } else if storeFault || !IsInt4(id) || patch.value == EmptyPatch {
      resp := Response(StatusCode(Update, Fault), Message("Failed to update curricular component"));
    } else {
      var updated := store.UpdateCurricularComponent(id, patch.value);
      if updated.None? {
        resp := Response(StatusCode(Update, Absent), Message("Component not found"));
      } else {
        resp := Response(StatusCode(Update, Done), ComponentJson(updated.value));
      }
    }
  }

  /** A delete the database refuses, because activities still reference the
      component, ends in the handler's catch block like any other fault. */
  method DeleteComponentRoute(store: DatabaseStorage, id: int, storeFault: bool) returns (resp: Response)
    requires store.Valid()
    modifies store`components
    ensures store.Valid()
    ensures (storeFault || !IsInt4(id) || Referenced(old(store.activities), id)) ==>
              resp == Response(500, Message("Failed to delete curricular component"))
              && store.components == old(store.components)
    ensures !storeFault && IsInt4(id) && !Referenced(old(store.activities), id) ==>
              && (resp == Response(204, NoBody) <==> id in old(store.components))
              && (resp == Response(404, Message("Component not found")) <==> id !in old(store.components))
              && store.components == old(store.components) - {id}
  {
    if storeFault || !IsInt4(id) {
      resp := Response(StatusCode(Delete, Fault), Message("Failed to delete curricular component"));
    } else {
      var deleted := store.DeleteCurricularComponent(id);
      if deleted.None? {
        resp := Response(StatusCode(Delete, Fault), Message("Failed to delete curricular component"));
      } else if !deleted.value {
        resp := Response(StatusCode(Delete, Absent), Message("Component not found"));
      } else {
        resp := Response(StatusCode(Delete, Done), NoBody);
      }
    }
  }

  // ---------------------------------------------------------------------------
  // /api/holidays
  // ---------------------------------------------------------------------------

  method GetHolidaysRoute(store: DatabaseStorage, storeFault: bool) returns (resp: Response)
    requires store.Valid()
    ensures storeFault ==> resp == Response(500, Message("Failed to fetch holidays"))
    ensures !storeFault ==> resp.status == 200 && resp.payload.HolidayList?
    ensures !storeFault ==> forall i, j :: 0 <= i < j < |resp.payload.holidays| ==> resp.payload.holidays[i].id < resp.payload.holidays[j].id
    ensures !storeFault ==> forall h :: h in resp.payload.holidays <==> h in store.holidays.Values
    ensures !storeFault && store.holidays == map[] ==> resp.payload.holidays == []
  {
    if storeFault {
      resp := Response(StatusCode(Read, Fault), Message("Failed to fetch holidays"));
    } else {
      resp := Response(StatusCode(Read, Done), HolidayList(store.GetHolidays()));
    }
  }

  method PostHolidayRoute(store: DatabaseStorage, body: Value, storeFault: bool) returns (resp: Response)
    requires store.Valid()
    modifies store`holidays, store`nextHolidayId
    ensures store.Valid()
    ensures ValidateHoliday(body).Rejected? ==>
              && resp == Response(400, ValidationErrors("Invalid holiday data", ValidateHoliday(body).issues))
              && store.holidays == old(store.holidays) && store.nextHolidayId == old(store.nextHolidayId)
    ensures ValidateHoliday(body).Accepted? && storeFault ==>
              && resp == Response(500, Message("Failed to create holiday"))
              && store.holidays == old(store.holidays) && store.nextHolidayId == old(store.nextHolidayId)
    ensures ValidateHoliday(body).Accepted? && !storeFault ==>
              && resp == Response(201, HolidayJson(HolidayRow(old(store.nextHolidayId), ValidateHoliday(body).value)))
              && old(store.nextHolidayId) !in old(store.holidays)
              && store.holidays == old(store.holidays)[old(store.nextHolidayId) := resp.payload.holiday]
              && store.nextHolidayId == old(store.nextHolidayId) + 1
  {
    var input := ValidateHoliday(body);
    if input.Rejected? {
      resp := Response(StatusCode(Create, Invalid), ValidationErrors("Invalid holiday data", input.issues));
    } else if storeFault {
      resp := Response(StatusCode(Create, Fault), Message("Failed to create holiday"));
    } else {
      var row := store.CreateHoliday(input.value);
      resp := Response(StatusCode(Create, Done), HolidayJson(row));
    }
  }

  method DeleteHolidayRoute(store: DatabaseStorage, id: int, storeFault: bool) returns (resp: Response)
    requires store.Valid()
    modifies store`holidays
    ensures store.Valid()
    ensures (storeFault || !IsInt4(id)) ==>
              resp == Response(500, Message("Failed to delete holiday")) && store.holidays == old(store.holidays)
    ensures !storeFault && IsInt4(id) ==>
              && (resp == Response(204, NoBody) <==> id in old(store.holidays))
              && (resp == Response(404, Message("Holiday not found")) <==> id !in old(store.holidays))
              && store.holidays == old(store.holidays) - {id}
  {
    if storeFault || !IsInt4(id) {
      resp := Response(StatusCode(Delete, Fault), Message("Failed to delete holiday"));
    } else {
      var deleted := store.DeleteHoliday(id);
      if !deleted {
        resp := Response(StatusCode(Delete, Absent), Message("Holiday not found"));
      } else {
        resp := Response(StatusCode(Delete, Done), NoBody);
      }
    }
  }

  // ---------------------------------------------------------------------------
  // /api/activities
  // ---------------------------------------------------------------------------

  method GetActivitiesRoute(store: DatabaseStorage, storeFault: bool) returns (resp: Response)
    requires store.Valid()
    ensures storeFault ==> resp == Response(500, Message("Failed to fetch activities"))
    ensures !storeFault ==> resp.status == 200 && resp.payload.ActivityList?
    ensures !storeFault ==> forall i, j :: 0 <= i < j < |resp.payload.activities| ==> resp.payload.activities[i].id < resp.payload.activities[j].id
    ensures !storeFault ==> forall a :: a in resp.payload.activities <==> a in store.activities.Values
  {
    if storeFault {
      resp := Response(StatusCode(Read, Fault), Message("Failed to fetch activities"));
    } else {
      resp := Response(StatusCode(Read, Done), ActivityList(store.GetActivities()));
    }
  }

  method GetActivitiesByDateRoute(store: DatabaseStorage, date: string, storeFault: bool) returns (resp: Response)
    requires store.Valid()
    ensures storeFault ==> resp == Response(500, Message("Failed to fetch activities by date"))
    ensures !storeFault ==> resp.status == 200 && resp.payload.ActivityList?
    ensures !storeFault ==> forall i, j :: 0 <= i < j < |resp.payload.activities| ==> resp.payload.activities[i].id < resp.payload.activities[j].id
    ensures !storeFault ==>
              forall a :: a in resp.payload.activities <==> a in store.activities.Values && a.realizationDate == date
  {
    if storeFault {
      resp := Response(StatusCode(Read, Fault), Message("Failed to fetch activities by date"));
    } else {
      resp := Response(StatusCode(Read, Done), ActivityList(store.GetActivitiesByDate(date)));
    }
  }

  /** An activity whose `componentId` names no component is refused by the
      database after its id was drawn: the handler answers 500 and that id
      is never handed out. */
  method PostActivityRoute(store: DatabaseStorage, body: Value, storeFault: bool) returns (resp: Response)
    requires store.Valid()
    modifies store`activities, store`nextActivityId
    ensures store.Valid()
    ensures ValidateActivity(body).Rejected? ==>
              && resp == Response(400, ValidationErrors("Invalid activity data", ValidateActivity(body).issues))
              && store.activities == old(store.activities) && store.nextActivityId == old(store.nextActivityId)
    ensures ValidateActivity(body).Accepted? && storeFault ==>
              && resp == Response(500, Message("Failed to create activity"))
              && store.activities == old(store.activities) && store.nextActivityId == old(store.nextActivityId)
    ensures ValidateActivity(body).Accepted? && !storeFault ==>
              var input := ValidateActivity(body).value;
              && store.nextActivityId == old(store.nextActivityId) + 1
              && (input.componentId.Some? && input.componentId.value !in store.components ==>
                    && resp == Response(500, Message("Failed to create activity"))
                    && store.activities == old(store.activities))
              && (input.componentId.None? || input.componentId.value in store.components ==>
                    && resp.status == 201 && resp.payload.ActivityJson?
                    && resp.payload.activity.id == old(store.nextActivityId)
                    && resp.payload.activity.id !in old(store.activities)
                    && resp.payload.activity.status == PendingStatus
                    && ActivityInput(resp.payload.activity) == input
                    && store.activities == old(store.activities)[resp.payload.activity.id := resp.payload.activity])
  {
    var input := ValidateActivity(body);
    if input.Rejected? {
      resp := Response(StatusCode(Create, Invalid), ValidationErrors("Invalid activity data", input.issues));
    } else if storeFault {
      resp := Response(StatusCode(Create, Fault), Message("Failed to create activity"));
    } else {
      var row := store.CreateActivity(input.value);
      if row.None? {
        resp := Response(StatusCode(Create, Fault), Message("Failed to create activity"));
      } else {
        resp := Response(StatusCode(Create, Done), ActivityJson(row.value));
      }
    }
  }

  /** As for components, an update with neither `status` nor `observation`
      has nothing to set and fails. */
  method PutActivityRoute(store: DatabaseStorage, id: int, body: Value, storeFault: bool) returns (resp: Response)
    requires store.Valid()
    modifies store`activities
    ensures store.Valid()
    ensures ValidateActivityUpdate(body).Rejected? ==>
              && resp == Response(400, ValidationErrors("Invalid activity data", ValidateActivityUpdate(body).issues))
              && store.activities == old(store.activities)
    ensures ValidateActivityUpdate(body).Accepted?
            && (storeFault || !IsInt4(id) || ValidateActivityUpdate(body).value == EmptyUpdate) ==>
              && resp == Response(500, Message("Failed to update activity"))
              && store.activities == old(store.activities)
    ensures ValidateActivityUpdate(body).Accepted? && ValidateActivityUpdate(body).value != EmptyUpdate
            && !storeFault && IsInt4(id) && id !in old(store.activities) ==>
              && resp == Response(404, Message("Activity not found"))
              && store.activities == old(store.activities)
    ensures ValidateActivityUpdate(body).Accepted? && ValidateActivityUpdate(body).value != EmptyUpdate
            && !storeFault && IsInt4(id) && id in old(store.activities) ==>
              var updated := ApplyUpdate(old(store.activities)[id], ValidateActivityUpdate(body).value);
              && resp == Response(200, ActivityJson(updated))
              && store.activities == old(store.activities)[id := updated]
  {
    var update := ValidateActivityUpdate(body);
    if update.Rejected? {
      resp := Response(StatusCode(Update, Invalid), ValidationErrors("Invalid activity data", update.issues));
    } else if storeFault || !IsInt4(id) || update.value == EmptyUpdate {
      resp := Response(StatusCode(Update, Fault), Message("Failed to update activity"));
    } else {
      var updated := store.UpdateActivity(id, update.value);
      if updated.None? {
        resp := Response(StatusCode(Update, Absent), Message("Activity not found"));
      } else {
        resp := Response(StatusCode(Update, Done), ActivityJson(updated.value));
      }
    }
  }

  method DeleteActivityRoute(store: DatabaseStorage, id: int, storeFault: bool) returns (resp: Response)
    requires store.Valid()
    modifies store`activities
    ensures store.Valid()
    ensures (storeFault || !IsInt4(id)) ==>
              resp == Response(500, Message("Failed to delete activity")) && store.activities == old(store.activities)
    ensures !storeFault && IsInt4(id) ==>
              && (resp == Response(204, NoBody) <==> id in old(store.activities))
              && (resp == Response(404, Message("Activity not found")) <==> id !in old(store.activities))
              && store.activities == old(store.activities) - {id}
  {
    if storeFault || !IsInt4(id) {
      resp := Response(StatusCode(Delete, Fault), Message("Failed to delete activity"));
    } else {
      var deleted := store.DeleteActivity(id);
      if !deleted {
        resp := Response(StatusCode(Delete, Absent), Message("Activity not found"));
      } else {
        resp := Response(StatusCode(Delete, Done), NoBody);
      }
    }
  }

  // ---------------------------------------------------------------------------
  // Request sequences
  // ---------------------------------------------------------------------------

  /** Deleting the same id twice, as an activity, a holiday and a component:
      the second round finds nothing left to delete. An id outside the
      `integer` range fails every time, and a component still referenced by
      another activity stays and keeps failing. */
  method DeleteTwice(store: DatabaseStorage, id: int) returns (first: seq<int>, second: seq<int>)
    requires store.Valid()
    modifies store`components, store`holidays, store`activities
    ensures store.Valid()
    ensures var referenced := Referenced(old(store.activities) - {id}, id);
      && first == (if !IsInt4(id) then [500, 500, 500]
                   else [if id in old(store.activities) then 204 else 404,
                         if id in old(store.holidays) then 204 else 404,
                         if referenced then 500 else if id in old(store.components) then 204 else 404])
      && second == (if !IsInt4(id) then [500, 500, 500] else [404, 404, if referenced then 500 else 404])
  {
    var a1 := DeleteActivityRoute(store, id, false);
    ghost var remaining := store.activities;
    assert IsInt4(id) ==> remaining == old(store.activities) - {id};
    var h1 := DeleteHolidayRoute(store, id, false);
    var c1 := DeleteComponentRoute(store, id, false);
    var a2 := DeleteActivityRoute(store, id, false);
    assert IsInt4(id) ==> store.activities == remaining;
    var h2 := DeleteHolidayRoute(store, id, false);
    var c2 := DeleteComponentRoute(store, id, false);
    first := [a1.status, h1.status, c1.status];
    second := [a2.status, h2.status, c2.status];
  }

  /** A listing in strictly ascending id order that holds exactly one row
      holds it once. */
  lemma OnlyRow(rows: seq<Holiday>, h: Holiday)
    requires forall x :: x in rows <==> x == h
    requires forall i, j :: 0 <= i < j < |rows| ==> rows[i].id < rows[j].id
    ensures rows == [h]
  {
    forall i | 0 <= i < |rows| ensures rows[i] == h {
      assert rows[i] in rows;
    }
    assert h in rows;
    assert |rows| >= 2 ==> rows[0].id < rows[1].id;
  }

  /** On a fresh store: create a holiday, list, delete it, list again. */
  method CarnavalScenario() returns (created: Response, listed: Response, deleted: Response, relisted: Response)
    ensures created == Response(201, HolidayJson(Holiday(1, "Carnaval", "2024-02-13")))
    ensures listed == Response(200, HolidayList([Holiday(1, "Carnaval", "2024-02-13")]))
    ensures deleted == Response(204, NoBody)
    ensures relisted == Response(200, HolidayList([]))
  {
    var store := new DatabaseStorage();
    var carnaval := Holiday(1, "Carnaval", "2024-02-13");
    created := PostHolidayRoute(store, Obj(map["name" := Str("Carnaval"), "date" := Str("2024-02-13")]), false);
    assert store.holidays == map[1 := carnaval];
    listed := GetHolidaysRoute(store, false);
    OnlyRow(listed.payload.holidays, carnaval);
    deleted := DeleteHolidayRoute(store, 1, false);
    relisted := GetHolidaysRoute(store, false);
  }
}
