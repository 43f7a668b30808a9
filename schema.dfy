/**
  The three tables of the schedule (curricular components, holidays,
  activities): their column declarations, the rows the store returns, the
  inputs a client may submit to create a row, and the partial updates.
 */
module Schema {
  import opened Wrappers

  // ---------------------------------------------------------------------------
  // Column declarations
  // ---------------------------------------------------------------------------

  datatype SqlType = Serial | Text | TextArray | Integer

  /** One column as the table declares it: `serial` columns are implicitly
      not null and default to the next value of their sequence. */
  datatype Column = Column(name: string, sqlType: SqlType, notNull: bool, hasDefault: bool)

  const ComponentColumns: seq<Column> := [
    Column("id", Serial, true, true),
    Column("name", Text, true, false),
    Column("startDate", Text, true, false),
    Column("endDate", Text, true, false),
    Column("color", Text, true, false),
    Column("weekDays", TextArray, true, false),
    Column("startTime", Text, false, false),
    Column("endTime", Text, false, false)
  ]

  const HolidayColumns: seq<Column> := [
    Column("id", Serial, true, true),
    Column("name", Text, true, false),
    Column("date", Text, true, false)
  ]

  const ActivityColumns: seq<Column> := [
    Column("id", Serial, true, true),
    Column("description", Text, true, false),
    Column("modality", Text, true, false),
    Column("componentId", Integer, false, false),
    Column("deliveryDate", Text, true, false),
    Column("realizationDate", Text, true, false),
    Column("status", Text, true, true),
    Column("observation", Text, false, false)
  ]

  /** A value of Postgres's `integer` type, which `serial` columns share: a
      parameter compared with such a column must lie in this range, or the
      statement fails. */
  predicate IsInt4(n: int)
  {
    -0x8000_0000 <= n < 0x8000_0000
  }

  /** The fields a create payload must carry, in declaration order: the
      not-null columns without a default, among those the insert schema does
      not omit. */
  function RequiredFields(columns: seq<Column>, omitted: set<string>): seq<string>
  {
    if columns == [] then []
    else
      var c := columns[0];
      (if c.notNull && !c.hasDefault && c.name !in omitted then [c.name] else [])
      + RequiredFields(columns[1..], omitted)
  }

  const ComponentRequired: seq<string> := ["name", "startDate", "endDate", "color", "weekDays"]
  const HolidayRequired: seq<string> := ["name", "date"]
  const ActivityRequired: seq<string> := ["description", "modality", "deliveryDate", "realizationDate"]

  /** The required fields of a component create are the ones its column
      declarations determine once `id` is omitted. */
  lemma ComponentRequiredFromColumns()
    ensures RequiredFields(ComponentColumns, {"id"}) == ComponentRequired
  {
  }

  lemma HolidayRequiredFromColumns()
    ensures RequiredFields(HolidayColumns, {"id"}) == HolidayRequired
  {
  }

  /** For activities `status` is omitted as well as `id`; it has a default, so
      it would not be required even if it were kept. */
  lemma ActivityRequiredFromColumns()
    ensures RequiredFields(ActivityColumns, {"id", "status"}) == ActivityRequired
    ensures RequiredFields(ActivityColumns, {"id"}) == ActivityRequired
  {
  }

  // ---------------------------------------------------------------------------
  // Rows
  // ---------------------------------------------------------------------------

  datatype Component = Component(
    id: int,
    name: string,
    startDate: string,
    endDate: string,
    color: string,
    weekDays: seq<string>,
    startTime: Option<string>,
    endTime: Option<string>)

  datatype Holiday = Holiday(id: int, name: string, date: string)

  datatype Activity = Activity(
    id: int,
    description: string,
    modality: string,
    componentId: Option<int>,
    deliveryDate: string,
    realizationDate: string,
    status: string,
    observation: Option<string>)

  /** The status every activity is created with, whatever the client sent. */
  const PendingStatus: string := "pending"

  // ---------------------------------------------------------------------------
  // Create inputs: every column but the server-owned ones
  // ---------------------------------------------------------------------------

  datatype NewComponent = NewComponent(
    name: string,
    startDate: string,
    endDate: string,
    color: string,
    weekDays: seq<string>,
    startTime: Option<string>,
    endTime: Option<string>)

  datatype NewHoliday = NewHoliday(name: string, date: string)

  datatype NewActivity = NewActivity(
    description: string,
    modality: string,
    componentId: Option<int>,
    deliveryDate: string,
    realizationDate: string,
    observation: Option<string>)

  /** The client-owned part of a stored component. */
  function ComponentInput(c: Component): NewComponent
  {
    NewComponent(c.name, c.startDate, c.endDate, c.color, c.weekDays, c.startTime, c.endTime)
  }

  function HolidayInput(h: Holiday): NewHoliday
  {
    NewHoliday(h.name, h.date)
  }

  /** The client-owned part of a stored activity: neither `id` nor `status`. */
  function ActivityInput(a: Activity): NewActivity
  {
    NewActivity(a.description, a.modality, a.componentId, a.deliveryDate, a.realizationDate, a.observation)
  }

  /** The row inserted for a component input under the id the table assigns. */
  function ComponentRow(id: int, input: NewComponent): (row: Component)
    ensures row.id == id && ComponentInput(row) == input
  {
    Component(id, input.name, input.startDate, input.endDate, input.color, input.weekDays,
              input.startTime, input.endTime)
  }

  function HolidayRow(id: int, input: NewHoliday): (row: Holiday)
    ensures row.id == id && HolidayInput(row) == input
  {
    Holiday(id, input.name, input.date)
  }

  /** The row inserted for an activity input: the input's fields, the
      assigned id, and `status` overridden with "pending". */
  function ActivityRow(id: int, input: NewActivity): (row: Activity)
    ensures row.id == id && ActivityInput(row) == input && row.status == PendingStatus
  {
    Activity(id, input.description, input.modality, input.componentId, input.deliveryDate,
             input.realizationDate, PendingStatus, input.observation)
  }

  // ---------------------------------------------------------------------------
  // Partial updates
  // ---------------------------------------------------------------------------

  /** A component PUT body after validation: any subset of the create fields.
      For the nullable columns, `Some(None)` sets the column to null while
      `None` leaves it as it is. */
  datatype ComponentPatch = ComponentPatch(
    name: Option<string>,
    startDate: Option<string>,
    endDate: Option<string>,
    color: Option<string>,
    weekDays: Option<seq<string>>,
    startTime: Option<Option<string>>,
    endTime: Option<Option<string>>)

  const EmptyPatch: ComponentPatch := ComponentPatch(None, None, None, None, None, None, None)

  function Pick<T>(update: Option<T>, current: T): T
  {
    if update.Some? then update.value else current
  }

  /** The row `update ... set(patch)` leaves: each field the patch carries
      replaces the stored one, every other column stays. */
  function ApplyPatch(c: Component, p: ComponentPatch): (r: Component)
    ensures r.id == c.id
    ensures r.name == (if p.name.Some? then p.name.value else c.name)
    ensures r.startDate == (if p.startDate.Some? then p.startDate.value else c.startDate)
    ensures r.endDate == (if p.endDate.Some? then p.endDate.value else c.endDate)
    ensures r.color == (if p.color.Some? then p.color.value else c.color)
    ensures r.weekDays == (if p.weekDays.Some? then p.weekDays.value else c.weekDays)
    ensures r.startTime == (if p.startTime.Some? then p.startTime.value else c.startTime)
    ensures r.endTime == (if p.endTime.Some? then p.endTime.value else c.endTime)
    ensures p == EmptyPatch ==> r == c
  {
    Component(c.id, Pick(p.name, c.name), Pick(p.startDate, c.startDate), Pick(p.endDate, c.endDate),
              Pick(p.color, c.color), Pick(p.weekDays, c.weekDays), Pick(p.startTime, c.startTime),
              Pick(p.endTime, c.endTime))
  }

  /** The patch that carries every field of a create input. */
  function FullPatch(input: NewComponent): ComponentPatch
  {
    ComponentPatch(Some(input.name), Some(input.startDate), Some(input.endDate), Some(input.color),
                   Some(input.weekDays), Some(input.startTime), Some(input.endTime))
  }

  /** Applying the same patch twice changes nothing more than applying it once,
      and a patch carrying every field replaces all client-owned columns. */
  lemma PatchProperties(c: Component, p: ComponentPatch, input: NewComponent)
    ensures ApplyPatch(ApplyPatch(c, p), p) == ApplyPatch(c, p)
    ensures ApplyPatch(c, FullPatch(input)) == ComponentRow(c.id, input)
  {
  }

  /** An activity PUT body after validation: only `status` and `observation`. */
  datatype ActivityUpdate = ActivityUpdate(status: Option<string>, observation: Option<string>)

  const EmptyUpdate: ActivityUpdate := ActivityUpdate(None, None)

  function ApplyUpdate(a: Activity, u: ActivityUpdate): (r: Activity)
    ensures r.id == a.id && r.description == a.description && r.modality == a.modality
    ensures r.componentId == a.componentId
    ensures r.deliveryDate == a.deliveryDate && r.realizationDate == a.realizationDate
    ensures u.status.Some? ==> r.status == u.status.value
    ensures u.observation.Some? ==> r.observation == u.observation
    ensures u.status.None? ==> r.status == a.status
    ensures u.observation.None? ==> r.observation == a.observation
    ensures u == EmptyUpdate ==> r == a
  {
    a.(status := Pick(u.status, a.status), observation := if u.observation.Some? then u.observation else a.observation)
  }
}
