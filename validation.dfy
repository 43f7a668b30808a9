/**
  Validation of request bodies against the insert schemas derived from the
  column declarations, the partial component schema and the activity update
  schema. A body is parsed JSON; validation either yields the typed input or
  lists every violation, field by field, in declaration order. Keys a schema
  does not name are dropped, so a client can never set `id` (nor, for an
  activity, `status`).
 */
module Validation {
  import opened Wrappers
  import opened Schema

  /** A parsed JSON value. Numbers are modelled as integers. */
  datatype Value =
    | Null
    | Bool(b: bool)
    | Num(n: int)
    | Str(s: string)
    | Arr(items: seq<Value>)
    | Obj(fields: map<string, Value>)

  /** Where a violation was found: the body itself, a field, or one element
      of an array field. */
  datatype Path = Root | Field(name: string) | Element(name: string, index: nat)

  datatype Reason = Missing | WrongType

  datatype Issue = Issue(path: Path, reason: Reason)

  /** The outcome of validating a body (or one field of it). */
  datatype Parsed<T> = Accepted(value: T) | Rejected(issues: seq<Issue>)

  function Issues<T>(p: Parsed<T>): seq<Issue>
  {
    if p.Accepted? then [] else p.issues
  }

  // ---------------------------------------------------------------------------
  // Field rules
  // ---------------------------------------------------------------------------

  /** A not-null text column: present and a string. */
  function Text(m: map<string, Value>, f: string): (r: Parsed<string>)
    ensures r.Accepted? <==> f in m && m[f].Str?
    ensures r.Accepted? ==> r.value == m[f].s
    ensures r.Rejected? ==> r.issues == [Issue(Field(f), if f in m then WrongType else Missing)]
  {
    if f !in m then Rejected([Issue(Field(f), Missing)])
    else if m[f].Str? then Accepted(m[f].s)
    else Rejected([Issue(Field(f), WrongType)])
  }

  /** The elements of a text-array field: every element must be a string. */
  function Strings(f: string, items: seq<Value>): (r: Parsed<seq<string>>)
    ensures r.Accepted? <==> forall i :: 0 <= i < |items| ==> items[i].Str?
    ensures r.Accepted? ==> |r.value| == |items| && forall i :: 0 <= i < |items| ==> r.value[i] == items[i].s
    ensures r.Rejected? ==> r.issues != []
  {
    if items == [] then Accepted([])
    else
      var n := |items| - 1;
      var init := Strings(f, items[..n]);
      var last := items[n];
      if init.Accepted? && last.Str? then Accepted(init.value + [last.s])
      else Rejected(Issues(init) + (if last.Str? then [] else [Issue(Element(f, n), WrongType)]))
  }

  /** Every issue an array field reports is a wrong-typed element of that
      field, at an index inside the array. */
  lemma {:induction false} StringsIssuesAreElements(f: string, items: seq<Value>)
    ensures forall issue :: issue in Issues(Strings(f, items)) ==>
              issue.reason == WrongType && issue.path.Element? && issue.path.name == f
              && issue.path.index < |items|
  {
    if items != [] {
      var n := |items| - 1;
      var init := items[..n];
      StringsIssuesAreElements(f, init);
      var tail := if items[n].Str? then [] else [Issue(Element(f, n), WrongType)];
      assert Issues(Strings(f, items)) == Issues(Strings(f, init)) + tail;
    }
  }

  /** An array field reports an issue at index i exactly when element i is
      not a string. */
  lemma {:induction false} StringsIssues(f: string, items: seq<Value>)
    ensures forall i :: 0 <= i < |items| ==>
              (Issue(Element(f, i), WrongType) in Issues(Strings(f, items)) <==> !items[i].Str?)
  {
    if items != [] {
      var n := |items| - 1;
      var init := items[..n];
      StringsIssues(f, init);
      StringsIssuesAreElements(f, init);
      var earlier := Issues(Strings(f, init));
      var tail := if items[n].Str? then [] else [Issue(Element(f, n), WrongType)];
      var issues := Issues(Strings(f, items));
      assert issues == earlier + tail;
      assert Issue(Element(f, n), WrongType) !in earlier;
      forall i | 0 <= i < n
        ensures Issue(Element(f, i), WrongType) in issues <==> !items[i].Str?
      {
        assert Issue(Element(f, i), WrongType) !in tail;
        assert Issue(Element(f, i), WrongType) in earlier <==> !init[i].Str?;
        assert init[i] == items[i];
      }
    }
  }

  /** A not-null text-array column: present and an array of strings. */
  function TextList(m: map<string, Value>, f: string): (r: Parsed<seq<string>>)
  {
    if f !in m then Rejected([Issue(Field(f), Missing)])
    else if m[f].Arr? then Strings(f, m[f].items)
    else Rejected([Issue(Field(f), WrongType)])
  }

  /** A nullable text column on insert: it may be absent or null. */
  function NullableText(m: map<string, Value>, f: string): (r: Parsed<Option<string>>)
  {
    if f !in m || m[f].Null? then Accepted(None)
    else if m[f].Str? then Accepted(Some(m[f].s))
    else Rejected([Issue(Field(f), WrongType)])
  }

  /** A nullable integer column on insert: it may be absent or null. */
  function NullableInt(m: map<string, Value>, f: string): (r: Parsed<Option<int>>)
  {
    if f !in m || m[f].Null? then Accepted(None)
    else if m[f].Num? then Accepted(Some(m[f].n))
    else Rejected([Issue(Field(f), WrongType)])
  }

  /** An optional, not nullable text field: absent means "no change". */
  function OptionalText(m: map<string, Value>, f: string): (r: Parsed<Option<string>>)
  {
    if f !in m then Accepted(None)
    else if m[f].Str? then Accepted(Some(m[f].s))
    else Rejected([Issue(Field(f), WrongType)])
  }

  function OptionalTextList(m: map<string, Value>, f: string): (r: Parsed<Option<seq<string>>>)
  {
    if f !in m then Accepted(None)
    else if m[f].Arr? then
      var items := Strings(f, m[f].items);
      if items.Accepted? then Accepted(Some(items.value)) else Rejected(items.issues)
    else Rejected([Issue(Field(f), WrongType)])
  }

  /** A nullable column in a partial update: absent means "no change", null
      clears the column. */
  function OptionalNullableText(m: map<string, Value>, f: string): (r: Parsed<Option<Option<string>>>)
  {
    if f !in m then Accepted(None)
    else if m[f].Null? then Accepted(Some(None))
    else if m[f].Str? then Accepted(Some(Some(m[f].s)))
    else Rejected([Issue(Field(f), WrongType)])
  }

  // ---------------------------------------------------------------------------
  // Declarative shapes
  // ---------------------------------------------------------------------------

  /** The string a field carries, if any; an absent field and `null` both
      read as none. */
  function TextIn(m: map<string, Value>, f: string): Option<string>
  {
    if f in m && m[f].Str? then Some(m[f].s) else None
  }

  /** The number a field carries, if any. */
  function IntIn(m: map<string, Value>, f: string): Option<int>
  {
    if f in m && m[f].Num? then Some(m[f].n) else None
  }

  /** The strings held by an array field, element by element. */
  predicate HoldsStrings(m: map<string, Value>, f: string, xs: seq<string>)
  {
    f in m && m[f].Arr? && |xs| == |m[f].items|
    && forall i :: 0 <= i < |xs| ==> m[f].items[i] == Str(xs[i])
  }

  predicate IsText(m: map<string, Value>, f: string)
  {
    f in m && m[f].Str?
  }

  predicate IsTextList(m: map<string, Value>, f: string)
  {
    f in m && m[f].Arr? && forall i :: 0 <= i < |m[f].items| ==> m[f].items[i].Str?
  }

  /** A nullable column on insert: absent, null, or a string. */
  predicate NullOrText(m: map<string, Value>, f: string)
  {
    f !in m || m[f].Null? || m[f].Str?
  }

  predicate NullOrInt(m: map<string, Value>, f: string)
  {
    f !in m || m[f].Null? || m[f].Num?
  }

  /** An optional, not nullable field: absent or a string. */
  predicate AbsentOrText(m: map<string, Value>, f: string)
  {
    f !in m || m[f].Str?
  }

  predicate AbsentOrTextList(m: map<string, Value>, f: string)
  {
    f !in m || IsTextList(m, f)
  }

  /** The JSON values a column's declaration lets through: its SQL type's
      JSON form, or also null when the column is nullable. The elements of a
      text array are checked one by one, separately. */
  predicate Admits(c: Column, v: Value)
  {
    match c.sqlType
    case Serial => v.Num?
    case Integer => v.Num? || (!c.notNull && v.Null?)
    case Text => v.Str? || (!c.notNull && v.Null?)
    case TextArray => v.Arr? || (!c.notNull && v.Null?)
  }

  /** The JSON type a component field takes: an array for `weekDays`, text
      or null for the two nullable times, text otherwise. */
  predicate ComponentTakes(f: string, v: Value)
  {
    if f == "weekDays" then v.Arr?
    else if f == "startTime" || f == "endTime" then v.Null? || v.Str?
    else v.Str?
  }

  /** The JSON type an activity field takes: a number or null for
      `componentId`, text or null for `observation`, text otherwise. */
  predicate ActivityTakes(f: string, v: Value)
  {
    if f == "componentId" then v.Null? || v.Num?
    else if f == "observation" then v.Null? || v.Str?
    else v.Str?
  }

  ghost predicate ComponentShape(body: Value)
  {
    && body.Obj?
    && IsText(body.fields, "name") && IsText(body.fields, "startDate") && IsText(body.fields, "endDate")
    && IsText(body.fields, "color") && IsTextList(body.fields, "weekDays")
    && NullOrText(body.fields, "startTime") && NullOrText(body.fields, "endTime")
  }

  ghost predicate HolidayShape(body: Value)
  {
    body.Obj? && IsText(body.fields, "name") && IsText(body.fields, "date")
  }

  ghost predicate ActivityShape(body: Value)
  {
    && body.Obj?
    && IsText(body.fields, "description") && IsText(body.fields, "modality")
    && NullOrInt(body.fields, "componentId")
    && IsText(body.fields, "deliveryDate") && IsText(body.fields, "realizationDate")
    && NullOrText(body.fields, "observation")
  }

  ghost predicate ComponentPatchShape(body: Value)
  {
    && body.Obj?
    && AbsentOrText(body.fields, "name") && AbsentOrText(body.fields, "startDate")
    && AbsentOrText(body.fields, "endDate") && AbsentOrText(body.fields, "color")
    && AbsentOrTextList(body.fields, "weekDays")
    && NullOrText(body.fields, "startTime") && NullOrText(body.fields, "endTime")
  }

  ghost predicate ActivityUpdateShape(body: Value)
  {
    body.Obj? && AbsentOrText(body.fields, "status") && AbsentOrText(body.fields, "observation")
  }

  // ---------------------------------------------------------------------------
  // Schemas
  // ---------------------------------------------------------------------------

  const NotAnObject: seq<Issue> := [Issue(Root, WrongType)]

  /** The component insert schema: every column but `id`. */
  function ValidateComponent(body: Value): (r: Parsed<NewComponent>)
    ensures !body.Obj? ==> r == Rejected(NotAnObject)
    ensures r.Accepted? <==> ComponentShape(body)
    ensures r.Rejected? ==> r.issues != []
    ensures r.Accepted? ==>
              var m := body.fields;
              && Some(r.value.name) == TextIn(m, "name") && Some(r.value.startDate) == TextIn(m, "startDate")
              && Some(r.value.endDate) == TextIn(m, "endDate") && Some(r.value.color) == TextIn(m, "color")
              && HoldsStrings(m, "weekDays", r.value.weekDays)
              && r.value.startTime == TextIn(m, "startTime") && r.value.endTime == TextIn(m, "endTime")
  {
    if !body.Obj? then Rejected(NotAnObject)
    else
      var m := body.fields;
      var name, startDate, endDate, color := Text(m, "name"), Text(m, "startDate"), Text(m, "endDate"), Text(m, "color");
      var weekDays := TextList(m, "weekDays");
      var startTime, endTime := NullableText(m, "startTime"), NullableText(m, "endTime");
      if name.Accepted? && startDate.Accepted? && endDate.Accepted? && color.Accepted?
         && weekDays.Accepted? && startTime.Accepted? && endTime.Accepted?
      then
        Accepted(NewComponent(name.value, startDate.value, endDate.value, color.value, weekDays.value,
                              startTime.value, endTime.value))
      else
        Rejected(Issues(name) + Issues(startDate) + Issues(endDate) + Issues(color) + Issues(weekDays)
                 + Issues(startTime) + Issues(endTime))
  }

  /** The holiday insert schema: every column but `id`. */
  function ValidateHoliday(body: Value): (r: Parsed<NewHoliday>)
    ensures !body.Obj? ==> r == Rejected(NotAnObject)
    ensures r.Accepted? <==> HolidayShape(body)
    ensures r.Rejected? ==> r.issues != []
    ensures r.Accepted? ==>
              Some(r.value.name) == TextIn(body.fields, "name") && Some(r.value.date) == TextIn(body.fields, "date")
  {
    if !body.Obj? then Rejected(NotAnObject)
    else
      var name, date := Text(body.fields, "name"), Text(body.fields, "date");
      if name.Accepted? && date.Accepted? then Accepted(NewHoliday(name.value, date.value))
      else Rejected(Issues(name) + Issues(date))
  }

  /** The activity insert schema: every column but `id` and `status`. */
  function ValidateActivity(body: Value): (r: Parsed<NewActivity>)
    ensures !body.Obj? ==> r == Rejected(NotAnObject)
    ensures r.Accepted? <==> ActivityShape(body)
    ensures r.Rejected? ==> r.issues != []
    ensures r.Accepted? ==>
              var m := body.fields;
              && Some(r.value.description) == TextIn(m, "description")
              && Some(r.value.modality) == TextIn(m, "modality")
              && r.value.componentId == IntIn(m, "componentId")
              && Some(r.value.deliveryDate) == TextIn(m, "deliveryDate")
              && Some(r.value.realizationDate) == TextIn(m, "realizationDate")
              && r.value.observation == TextIn(m, "observation")
  {
    if !body.Obj? then Rejected(NotAnObject)
    else
      var m := body.fields;
      var description, modality := Text(m, "description"), Text(m, "modality");
      var componentId := NullableInt(m, "componentId");
      var deliveryDate, realizationDate := Text(m, "deliveryDate"), Text(m, "realizationDate");
      var observation := NullableText(m, "observation");
      if description.Accepted? && modality.Accepted? && componentId.Accepted?
         && deliveryDate.Accepted? && realizationDate.Accepted? && observation.Accepted?
      then
        Accepted(NewActivity(description.value, modality.value, componentId.value, deliveryDate.value,
                             realizationDate.value, observation.value))
      else
        Rejected(Issues(description) + Issues(modality) + Issues(componentId) + Issues(deliveryDate)
                 + Issues(realizationDate) + Issues(observation))
  }

  /** The component insert schema made partial: every field optional. */
  function ValidateComponentPatch(body: Value): (r: Parsed<ComponentPatch>)
    ensures !body.Obj? ==> r == Rejected(NotAnObject)
    ensures r.Accepted? <==> ComponentPatchShape(body)
    ensures r.Rejected? ==> r.issues != []
    ensures r.Accepted? ==>
              var m := body.fields;
              && r.value.name == TextIn(m, "name") && r.value.startDate == TextIn(m, "startDate")
              && r.value.endDate == TextIn(m, "endDate") && r.value.color == TextIn(m, "color")
              && (r.value.weekDays.Some? <==> "weekDays" in m)
              && (r.value.weekDays.Some? ==> HoldsStrings(m, "weekDays", r.value.weekDays.value))
              && r.value.startTime == (if "startTime" in m then Some(TextIn(m, "startTime")) else None)
              && r.value.endTime == (if "endTime" in m then Some(TextIn(m, "endTime")) else None)
  {
    if !body.Obj? then Rejected(NotAnObject)
    else
      var m := body.fields;
      var name, startDate := OptionalText(m, "name"), OptionalText(m, "startDate");
      var endDate, color := OptionalText(m, "endDate"), OptionalText(m, "color");
      var weekDays := OptionalTextList(m, "weekDays");
      var startTime, endTime := OptionalNullableText(m, "startTime"), OptionalNullableText(m, "endTime");
      if name.Accepted? && startDate.Accepted? && endDate.Accepted? && color.Accepted?
         && weekDays.Accepted? && startTime.Accepted? && endTime.Accepted?
      then
        Accepted(ComponentPatch(name.value, startDate.value, endDate.value, color.value, weekDays.value,
                                startTime.value, endTime.value))
      else
        Rejected(Issues(name) + Issues(startDate) + Issues(endDate) + Issues(color) + Issues(weekDays)
                 + Issues(startTime) + Issues(endTime))
  }

  /** The activity PUT schema: an object with optional string `status` and
      `observation`; null is not a string. */
  function ValidateActivityUpdate(body: Value): (r: Parsed<ActivityUpdate>)
    ensures !body.Obj? ==> r == Rejected(NotAnObject)
    ensures r.Accepted? <==> ActivityUpdateShape(body)
    ensures r.Rejected? ==> r.issues != []
    ensures r.Accepted? ==>
              r.value.status == TextIn(body.fields, "status") && r.value.observation == TextIn(body.fields, "observation")
  {
    if !body.Obj? then Rejected(NotAnObject)
    else
      var status, observation := OptionalText(body.fields, "status"), OptionalText(body.fields, "observation");
      if status.Accepted? && observation.Accepted? then Accepted(ActivityUpdate(status.value, observation.value))
      else Rejected(Issues(status) + Issues(observation))
  }

  // ---------------------------------------------------------------------------
  // Properties of the schemas
  // ---------------------------------------------------------------------------

  /** The issues a text-array field can report are about that field. */
  lemma TextListIssues(m: map<string, Value>, f: string)
    ensures forall issue :: issue in Issues(TextList(m, f)) ==>
              (issue.path == Field(f) || (issue.path.Element? && issue.path.name == f && issue.reason == WrongType))
    ensures Issue(Field(f), Missing) in Issues(TextList(m, f)) <==> f !in m
  {
    if f in m && m[f].Arr? {
      StringsIssuesAreElements(f, m[f].items);
    }
  }

  /** A field rule reports field `f` as missing only when it is the rule's own
      field, that field is required, and the body lacks it. */
  lemma TextMissing(m: map<string, Value>, g: string, f: string)
    ensures Issue(Field(f), Missing) in Issues(Text(m, g)) <==> f == g && g !in m
  {
  }

  lemma TextListMissing(m: map<string, Value>, g: string, f: string)
    ensures Issue(Field(f), Missing) in Issues(TextList(m, g)) <==> f == g && g !in m
  {
    TextListIssues(m, g);
  }

  lemma NullableNeverMissing(m: map<string, Value>, g: string, f: string)
    ensures Issue(Field(f), Missing) !in Issues(NullableText(m, g))
    ensures Issue(Field(f), Missing) !in Issues(NullableInt(m, g))
  {
  }

  /** A component create reports a missing field exactly when that field is
      one of the required ones and the body lacks it. */
  lemma ComponentMissingFields(body: Value, f: string)
    requires body.Obj?
    ensures Issue(Field(f), Missing) in Issues(ValidateComponent(body)) <==> f in ComponentRequired && f !in body.fields
  {
    var m := body.fields;
    TextMissing(m, "name", f);
    TextMissing(m, "startDate", f);
    TextMissing(m, "endDate", f);
    TextMissing(m, "color", f);
    TextListMissing(m, "weekDays", f);
    NullableNeverMissing(m, "startTime", f);
    NullableNeverMissing(m, "endTime", f);
    var all := Issues(Text(m, "name")) + Issues(Text(m, "startDate")) + Issues(Text(m, "endDate"))
               + Issues(Text(m, "color")) + Issues(TextList(m, "weekDays"))
               + Issues(NullableText(m, "startTime")) + Issues(NullableText(m, "endTime"));
    assert Issues(ValidateComponent(body)) == all;
  }

  lemma HolidayMissingFields(body: Value, f: string)
    requires body.Obj?
    ensures Issue(Field(f), Missing) in Issues(ValidateHoliday(body)) <==> f in HolidayRequired && f !in body.fields
  {
    var m := body.fields;
    TextMissing(m, "name", f);
    TextMissing(m, "date", f);
    assert Issues(ValidateHoliday(body)) == Issues(Text(m, "name")) + Issues(Text(m, "date"));
  }

  lemma ActivityMissingFields(body: Value, f: string)
    requires body.Obj?
    ensures Issue(Field(f), Missing) in Issues(ValidateActivity(body)) <==> f in ActivityRequired && f !in body.fields
  {
    var m := body.fields;
    TextMissing(m, "description", f);
    TextMissing(m, "modality", f);
    NullableNeverMissing(m, "componentId", f);
    TextMissing(m, "deliveryDate", f);
    TextMissing(m, "realizationDate", f);
    NullableNeverMissing(m, "observation", f);
    var all := Issues(Text(m, "description")) + Issues(Text(m, "modality")) + Issues(NullableInt(m, "componentId"))
               + Issues(Text(m, "deliveryDate")) + Issues(Text(m, "realizationDate"))
               + Issues(NullableText(m, "observation"));
    assert Issues(ValidateActivity(body)) == all;
  }

  /** The types the schemas take are the ones the column declarations
      admit, column by column (`id` aside, which no schema takes). */
  lemma ComponentTypesFromColumns(v: Value)
    ensures forall i :: 1 <= i < |ComponentColumns| ==>
              (ComponentTakes(ComponentColumns[i].name, v) <==> Admits(ComponentColumns[i], v))
  {
  }

  lemma HolidayTypesFromColumns(v: Value)
    ensures forall i :: 1 <= i < |HolidayColumns| ==> (Admits(HolidayColumns[i], v) <==> v.Str?)
  {
  }

  lemma ActivityTypesFromColumns(v: Value)
    ensures forall i :: 1 <= i < |ActivityColumns| ==>
              (ActivityTakes(ActivityColumns[i].name, v) <==> Admits(ActivityColumns[i], v))
  {
  }

  /** A field rule reports field `f` as wrongly typed only when it is the
      rule's own field, present, and of a type the rule does not take. */
  lemma TextWrongType(m: map<string, Value>, g: string, f: string)
    ensures Issue(Field(f), WrongType) in Issues(Text(m, g)) <==> f == g && g in m && !m[g].Str?
  {
  }

  lemma TextListWrongType(m: map<string, Value>, g: string, f: string)
    ensures Issue(Field(f), WrongType) in Issues(TextList(m, g)) <==> f == g && g in m && !m[g].Arr?
  {
    if g in m && m[g].Arr? {
      StringsIssuesAreElements(g, m[g].items);
    }
  }

  lemma NullableWrongType(m: map<string, Value>, g: string, f: string)
    ensures Issue(Field(f), WrongType) in Issues(NullableText(m, g)) <==> f == g && g in m && !m[g].Null? && !m[g].Str?
    ensures Issue(Field(f), WrongType) in Issues(NullableInt(m, g)) <==> f == g && g in m && !m[g].Null? && !m[g].Num?
  {
  }

  lemma OptionalTextWrongType(m: map<string, Value>, g: string, f: string)
    ensures Issue(Field(f), WrongType) in Issues(OptionalText(m, g)) <==> f == g && g in m && !m[g].Str?
  {
  }

  lemma OptionalTextListWrongType(m: map<string, Value>, g: string, f: string)
    ensures Issue(Field(f), WrongType) in Issues(OptionalTextList(m, g)) <==> f == g && g in m && !m[g].Arr?
  {
    if g in m && m[g].Arr? {
      StringsIssuesAreElements(g, m[g].items);
    }
  }

  lemma OptionalNullableWrongType(m: map<string, Value>, g: string, f: string)
    ensures Issue(Field(f), WrongType) in Issues(OptionalNullableText(m, g)) <==> f == g && g in m && !m[g].Null? && !m[g].Str?
  {
  }

  /** A present component field of the wrong type, spelled out field by field. */
  lemma ComponentFieldCases(m: map<string, Value>, f: string)
    ensures f in ComponentKeys && f in m && !ComponentTakes(f, m[f]) <==>
              || (f == "name" && f in m && !m[f].Str?)
              || (f == "startDate" && f in m && !m[f].Str?)
              || (f == "endDate" && f in m && !m[f].Str?)
              || (f == "color" && f in m && !m[f].Str?)
              || (f == "weekDays" && f in m && !m[f].Arr?)
              || (f == "startTime" && f in m && !m[f].Null? && !m[f].Str?)
              || (f == "endTime" && f in m && !m[f].Null? && !m[f].Str?)
  {
  }

  /** The issues of a rejected component body, rule by rule in declaration order. */
  lemma ComponentIssuesInOrder(m: map<string, Value>)
    ensures Issues(ValidateComponent(Obj(m))) ==
              Issues(Text(m, "name")) + Issues(Text(m, "startDate")) + Issues(Text(m, "endDate"))
               + Issues(Text(m, "color")) + Issues(TextList(m, "weekDays"))
               + Issues(NullableText(m, "startTime")) + Issues(NullableText(m, "endTime"))
  {
  }

  /** A present activity field of the wrong type, spelled out field by field. */
  lemma ActivityFieldCases(m: map<string, Value>, f: string)
    ensures f in ActivityKeys && f in m && !ActivityTakes(f, m[f]) <==>
              || (f == "description" && f in m && !m[f].Str?)
              || (f == "modality" && f in m && !m[f].Str?)
              || (f == "componentId" && f in m && !m[f].Null? && !m[f].Num?)
              || (f == "deliveryDate" && f in m && !m[f].Str?)
              || (f == "realizationDate" && f in m && !m[f].Str?)
              || (f == "observation" && f in m && !m[f].Null? && !m[f].Str?)
  {
  }

  /** The issues of a rejected activity body, rule by rule in declaration order. */
  lemma ActivityIssuesInOrder(m: map<string, Value>)
    ensures Issues(ValidateActivity(Obj(m))) ==
              Issues(Text(m, "description")) + Issues(Text(m, "modality")) + Issues(NullableInt(m, "componentId"))
               + Issues(Text(m, "deliveryDate")) + Issues(Text(m, "realizationDate"))
               + Issues(NullableText(m, "observation"))
  {
  }

  /** A component create reports a field as wrongly typed exactly when the
      schema knows the field, the body has it, and its value is not what the
      field's column takes. */
  lemma ComponentWrongTypeFields(m: map<string, Value>, f: string)
    ensures Issue(Field(f), WrongType) in Issues(ValidateComponent(Obj(m))) <==>
              f in ComponentKeys && f in m && !ComponentTakes(f, m[f])
  {
    TextWrongType(m, "name", f);
    TextWrongType(m, "startDate", f);
    TextWrongType(m, "endDate", f);
    TextWrongType(m, "color", f);
    TextListWrongType(m, "weekDays", f);
    NullableWrongType(m, "startTime", f);
    NullableWrongType(m, "endTime", f);
    ComponentIssuesInOrder(m);
    ComponentFieldCases(m, f);
  }

  lemma HolidayWrongTypeFields(m: map<string, Value>, f: string)
    ensures Issue(Field(f), WrongType) in Issues(ValidateHoliday(Obj(m))) <==>
              f in HolidayKeys && f in m && !m[f].Str?
  {
    TextWrongType(m, "name", f);
    TextWrongType(m, "date", f);
    assert Issues(ValidateHoliday(Obj(m))) == Issues(Text(m, "name")) + Issues(Text(m, "date"));
  }

  lemma ActivityWrongTypeFields(m: map<string, Value>, f: string)
    ensures Issue(Field(f), WrongType) in Issues(ValidateActivity(Obj(m))) <==>
              f in ActivityKeys && f in m && !ActivityTakes(f, m[f])
  {
    TextWrongType(m, "description", f);
    TextWrongType(m, "modality", f);
    NullableWrongType(m, "componentId", f);
    TextWrongType(m, "deliveryDate", f);
    TextWrongType(m, "realizationDate", f);
    NullableWrongType(m, "observation", f);
    ActivityIssuesInOrder(m);
    ActivityFieldCases(m, f);
  }

  /** The issues of a rejected component patch body, rule by rule in declaration order. */
  lemma ComponentPatchIssuesInOrder(m: map<string, Value>)
    ensures Issues(ValidateComponentPatch(Obj(m))) ==
              Issues(OptionalText(m, "name")) + Issues(OptionalText(m, "startDate"))
               + Issues(OptionalText(m, "endDate")) + Issues(OptionalText(m, "color"))
               + Issues(OptionalTextList(m, "weekDays"))
               + Issues(OptionalNullableText(m, "startTime")) + Issues(OptionalNullableText(m, "endTime"))
  {
  }

  /** Making the component schema partial keeps each field's type, null
      included for the nullable columns: a present field is reported exactly
      when its column would not take it. */
  lemma ComponentPatchWrongTypeFields(m: map<string, Value>, f: string)
    ensures Issue(Field(f), WrongType) in Issues(ValidateComponentPatch(Obj(m))) <==>
              f in ComponentKeys && f in m && !ComponentTakes(f, m[f])
  {
    OptionalTextWrongType(m, "name", f);
    OptionalTextWrongType(m, "startDate", f);
    OptionalTextWrongType(m, "endDate", f);
    OptionalTextWrongType(m, "color", f);
    OptionalTextListWrongType(m, "weekDays", f);
    OptionalNullableWrongType(m, "startTime", f);
    OptionalNullableWrongType(m, "endTime", f);
    ComponentPatchIssuesInOrder(m);
    ComponentFieldCases(m, f);
  }

  /** The activity update takes strings only: a present `status` or
      `observation` that is not a string, null included, is reported. */
  lemma ActivityUpdateWrongTypeFields(m: map<string, Value>, f: string)
    ensures Issue(Field(f), WrongType) in Issues(ValidateActivityUpdate(Obj(m))) <==>
              f in ActivityUpdateKeys && f in m && !m[f].Str?
  {
    OptionalTextWrongType(m, "status", f);
    OptionalTextWrongType(m, "observation", f);
    assert Issues(ValidateActivityUpdate(Obj(m))) == Issues(OptionalText(m, "status")) + Issues(OptionalText(m, "observation"));
  }

  /** Every issue in `s` is a value of the wrong type. */
  ghost predicate AllWrongType(s: seq<Issue>)
  {
    forall issue :: issue in s ==> issue.reason == WrongType
  }

  lemma WrongTypeConcat(a: seq<Issue>, b: seq<Issue>)
    requires AllWrongType(a) && AllWrongType(b)
    ensures AllWrongType(a + b)
  {
  }

  /** The partial component schema never requires a field: every issue it
      reports is a value of the wrong type. */
  lemma ComponentPatchRequiresNothing(body: Value)
    ensures forall issue :: issue in Issues(ValidateComponentPatch(body)) ==> issue.reason == WrongType
  {
    if body.Obj? {
      var m := body.fields;
      var weekDays := OptionalTextList(m, "weekDays");
      if "weekDays" in m && m["weekDays"].Arr? {
        StringsIssuesAreElements("weekDays", m["weekDays"].items);
      }
      assert AllWrongType(Issues(weekDays));
      var all := Issues(OptionalText(m, "name"));
      WrongTypeConcat(all, Issues(OptionalText(m, "startDate")));
      all := all + Issues(OptionalText(m, "startDate"));
      WrongTypeConcat(all, Issues(OptionalText(m, "endDate")));
      all := all + Issues(OptionalText(m, "endDate"));
      WrongTypeConcat(all, Issues(OptionalText(m, "color")));
      all := all + Issues(OptionalText(m, "color"));
      WrongTypeConcat(all, Issues(weekDays));
      all := all + Issues(weekDays);
      WrongTypeConcat(all, Issues(OptionalNullableText(m, "startTime")));
      all := all + Issues(OptionalNullableText(m, "startTime"));
      WrongTypeConcat(all, Issues(OptionalNullableText(m, "endTime")));
      all := all + Issues(OptionalNullableText(m, "endTime"));
      assert Issues(ValidateComponentPatch(body)) == [] || Issues(ValidateComponentPatch(body)) == all;
    }
  }

  lemma ActivityUpdateRequiresNothing(body: Value)
    ensures forall issue :: issue in Issues(ValidateActivityUpdate(body)) ==> issue.reason == WrongType
  {
  }

  /** The empty object passes both partial schemas, as the empty update; the
      update that follows then has no column to set. */
  lemma EmptyPatchAccepted()
    ensures ValidateComponentPatch(Obj(map[])) == Accepted(EmptyPatch)
    ensures ValidateActivityUpdate(Obj(map[])) == Accepted(EmptyUpdate)
  {
  }

  const ComponentKeys: set<string> := {"name", "startDate", "endDate", "color", "weekDays", "startTime", "endTime"}
  const HolidayKeys: set<string> := {"name", "date"}
  const ActivityKeys: set<string> := {"description", "modality", "componentId", "deliveryDate", "realizationDate", "observation"}
  const ActivityUpdateKeys: set<string> := {"status", "observation"}

  /** The two objects carry the same values under the given keys. */
  ghost predicate AgreeOn(m1: map<string, Value>, m2: map<string, Value>, keys: set<string>)
  {
    forall f :: f in keys ==> (f in m1 <==> f in m2) && (f in m1 ==> m1[f] == m2[f])
  }

  /** A schema looks only at its own keys: keys it does not name (such as
      `id`, or `status` on an activity create) change nothing about the
      result. */
  lemma ComponentSchemaIgnoresOtherKeys(m1: map<string, Value>, m2: map<string, Value>)
    requires AgreeOn(m1, m2, ComponentKeys)
    ensures ValidateComponent(Obj(m1)) == ValidateComponent(Obj(m2))
  {
    assert "name" in ComponentKeys && "startDate" in ComponentKeys && "endDate" in ComponentKeys;
    assert "color" in ComponentKeys && "weekDays" in ComponentKeys;
    assert "startTime" in ComponentKeys && "endTime" in ComponentKeys;
    assert Text(m1, "name") == Text(m2, "name") && Text(m1, "startDate") == Text(m2, "startDate");
    assert Text(m1, "endDate") == Text(m2, "endDate") && Text(m1, "color") == Text(m2, "color");
    assert TextList(m1, "weekDays") == TextList(m2, "weekDays");
    assert NullableText(m1, "startTime") == NullableText(m2, "startTime");
    assert NullableText(m1, "endTime") == NullableText(m2, "endTime");
  }

  lemma ComponentPatchSchemaIgnoresOtherKeys(m1: map<string, Value>, m2: map<string, Value>)
    requires AgreeOn(m1, m2, ComponentKeys)
    ensures ValidateComponentPatch(Obj(m1)) == ValidateComponentPatch(Obj(m2))
  {
    assert "name" in ComponentKeys && "startDate" in ComponentKeys && "endDate" in ComponentKeys;
    assert "color" in ComponentKeys && "weekDays" in ComponentKeys;
    assert "startTime" in ComponentKeys && "endTime" in ComponentKeys;
    assert OptionalText(m1, "name") == OptionalText(m2, "name");
    assert OptionalText(m1, "startDate") == OptionalText(m2, "startDate");
    assert OptionalText(m1, "endDate") == OptionalText(m2, "endDate");
    assert OptionalText(m1, "color") == OptionalText(m2, "color");
    assert OptionalTextList(m1, "weekDays") == OptionalTextList(m2, "weekDays");
    assert OptionalNullableText(m1, "startTime") == OptionalNullableText(m2, "startTime");
    assert OptionalNullableText(m1, "endTime") == OptionalNullableText(m2, "endTime");
  }

  lemma HolidaySchemaIgnoresOtherKeys(m1: map<string, Value>, m2: map<string, Value>)
    requires AgreeOn(m1, m2, HolidayKeys)
    ensures ValidateHoliday(Obj(m1)) == ValidateHoliday(Obj(m2))
  {
    assert "name" in HolidayKeys && "date" in HolidayKeys;
  }

  lemma ActivitySchemaIgnoresOtherKeys(m1: map<string, Value>, m2: map<string, Value>)
    requires AgreeOn(m1, m2, ActivityKeys)
    ensures ValidateActivity(Obj(m1)) == ValidateActivity(Obj(m2))
  {
    assert "description" in ActivityKeys && "modality" in ActivityKeys && "componentId" in ActivityKeys;
    assert "deliveryDate" in ActivityKeys && "realizationDate" in ActivityKeys && "observation" in ActivityKeys;
  }

  lemma ActivityUpdateSchemaIgnoresOtherKeys(m1: map<string, Value>, m2: map<string, Value>)
    requires AgreeOn(m1, m2, ActivityUpdateKeys)
    ensures ValidateActivityUpdate(Obj(m1)) == ValidateActivityUpdate(Obj(m2))
  {
    assert "status" in ActivityUpdateKeys && "observation" in ActivityUpdateKeys;
  }

  /** Whatever `id` a client puts in a create body, the validated input is
      the same as without it. */
  lemma ComponentIdIgnored(m: map<string, Value>, id: Value)
    ensures ValidateComponent(Obj(m["id" := id])) == ValidateComponent(Obj(m - {"id"}))
  {
    assert "id" !in ComponentKeys;
    ComponentSchemaIgnoresOtherKeys(m["id" := id], m - {"id"});
  }

  lemma HolidayIdIgnored(m: map<string, Value>, id: Value)
    ensures ValidateHoliday(Obj(m["id" := id])) == ValidateHoliday(Obj(m - {"id"}))
  {
    assert "id" !in HolidayKeys;
    HolidaySchemaIgnoresOtherKeys(m["id" := id], m - {"id"});
  }

  /** Neither a client-sent `id` nor a client-sent `status` reaches the
      validated activity input. */
  lemma ActivityServerKeysIgnored(m: map<string, Value>, id: Value, status: Value)
    ensures ValidateActivity(Obj(m["id" := id]["status" := status])) == ValidateActivity(Obj(m - {"id", "status"}))
  {
    assert "id" !in ActivityKeys && "status" !in ActivityKeys;
    ActivitySchemaIgnoresOtherKeys(m["id" := id]["status" := status], m - {"id", "status"});
  }

  // ---------------------------------------------------------------------------
  // Encoding inputs as bodies
  // ---------------------------------------------------------------------------

  function StrArray(xs: seq<string>): Value
  {
    Arr(seq(|xs|, i requires 0 <= i < |xs| => Str(xs[i])))
  }

  function NullableStr(o: Option<string>): Value
  {
    if o.Some? then Str(o.value) else Null
  }

  function NullableNum(o: Option<int>): Value
  {
    if o.Some? then Num(o.value) else Null
  }

  /** The JSON object a client sends to create this component. */
  function ComponentBody(x: NewComponent): Value
  {
    Obj(map["name" := Str(x.name), "startDate" := Str(x.startDate), "endDate" := Str(x.endDate),
            "color" := Str(x.color), "weekDays" := StrArray(x.weekDays),
            "startTime" := NullableStr(x.startTime), "endTime" := NullableStr(x.endTime)])
  }

  function HolidayBody(x: NewHoliday): Value
  {
    Obj(map["name" := Str(x.name), "date" := Str(x.date)])
  }

  function ActivityBody(x: NewActivity): Value
  {
    Obj(map["description" := Str(x.description), "modality" := Str(x.modality),
            "componentId" := NullableNum(x.componentId), "deliveryDate" := Str(x.deliveryDate),
            "realizationDate" := Str(x.realizationDate), "observation" := NullableStr(x.observation)])
  }

  lemma StrArrayRoundTrip(f: string, xs: seq<string>)
    ensures Strings(f, StrArray(xs).items) == Accepted(xs)
  {
    var r := Strings(f, StrArray(xs).items);
    assert r.Accepted?;
    assert r.value == xs;
  }

  /** Every component input, sent as its JSON object, passes the insert
      schema unchanged. */
  lemma ComponentBodyRoundTrip(c: NewComponent)
    ensures ValidateComponent(ComponentBody(c)) == Accepted(c)
  {
    var m := ComponentBody(c).fields;
    assert m["weekDays"] == StrArray(c.weekDays);
    StrArrayRoundTrip("weekDays", c.weekDays);
    assert TextList(m, "weekDays") == Accepted(c.weekDays);
    assert NullableText(m, "startTime") == Accepted(c.startTime);
    assert NullableText(m, "endTime") == Accepted(c.endTime);
  }

  lemma HolidayBodyRoundTrip(h: NewHoliday)
    ensures ValidateHoliday(HolidayBody(h)) == Accepted(h)
  {
  }

  lemma ActivityBodyRoundTrip(a: NewActivity)
    ensures ValidateActivity(ActivityBody(a)) == Accepted(a)
  {
    var m := ActivityBody(a).fields;
    assert NullableInt(m, "componentId") == Accepted(a.componentId);
    assert NullableText(m, "observation") == Accepted(a.observation);
  }
}
