/** The business dashboard's handlers (src/components/business-dashboard.tsx) as pure functions
    from the current `BusinessData` to the value handed to `onUpdate`. */
module Business {
  import opened Optional
  import opened Types
  import opened Tasks
  import Text

  /** The seven numeric metric fields. Each belongs to exactly one unit. */
  datatype MetricField =
    | EmailsSent | Subscribers | TargetSubscribers
    | Clients | TargetClients | Revenue | WebsitesCreated

  /** The unit a metric field belongs to: three for the newsletter, four for the agency. */
  function UnitOf(f: MetricField): Unit {
    match f
    case EmailsSent | Subscribers | TargetSubscribers => BestFlightAlertsUnit
    case _ => WebTailorsUnit
  }

  /** The property name a metric is stored under. */
  function FieldName(f: MetricField): string {
    match f
    case EmailsSent => "emailsSent"
    case Subscribers => "subscribers"
    case TargetSubscribers => "targetSubscribers"
    case Clients => "clients"
    case TargetClients => "targetClients"
    case Revenue => "revenue"
    case WebsitesCreated => "websitesCreated"
  }

  /** `numberFields`: the property names whose new value is converted to a number. */
  const NumberFields: seq<string> :=
    ["emailsSent", "subscribers", "targetSubscribers", "clients", "targetClients", "revenue", "websitesCreated"]

  /** Every metric field is one of `numberFields`, so the metric handler always stores a number,
      and no two metric fields share a property name. */
  lemma MetricFieldsAreNumeric(f: MetricField, g: MetricField)
    ensures FieldName(f) in NumberFields
    ensures FieldName(f) == FieldName(g) ==> f == g
  {
  }

  /** The unit a field belongs to lists it: the newsletter has exactly three metrics and the
      agency exactly four. */
  function FieldsOf(u: Unit): (fs: seq<MetricField>)
    ensures forall f :: f in fs <==> UnitOf(f) == u
    ensures |fs| == if u == BestFlightAlertsUnit then 3 else 4
  {
    assert forall f :: UnitOf(f) == WebTailorsUnit ==> f.Clients? || f.TargetClients? || f.Revenue? || f.WebsitesCreated?;
    if u == BestFlightAlertsUnit then [EmailsSent, Subscribers, TargetSubscribers]
    else [Clients, TargetClients, Revenue, WebsitesCreated]
  }

  /** `data[business].tasks`. */
  function UnitTasks(b: BusinessData, u: Unit): seq<Task> {
    match u
    case BestFlightAlertsUnit => b.bestFlightAlerts.tasks
    case WebTailorsUnit => b.webTailors.tasks
  }

  /** `data[business][field]` for a metric field. */
  function Metric(b: BusinessData, f: MetricField): int {
    match f
    case EmailsSent => b.bestFlightAlerts.emailsSent
    case Subscribers => b.bestFlightAlerts.subscribers
    case TargetSubscribers => b.bestFlightAlerts.targetSubscribers
    case Clients => b.webTailors.clients
    case TargetClients => b.webTailors.targetClients
    case Revenue => b.webTailors.revenue
    case WebsitesCreated => b.webTailors.websitesCreated
  }

  /** `{ ...data, [business]: { ...data[business], tasks } }`: replaces one unit's task list. */
  function WithUnitTasks(b: BusinessData, u: Unit, ts: seq<Task>): (r: BusinessData)
    ensures UnitTasks(r, u) == ts && UnitTasks(r, u.Other()) == UnitTasks(b, u.Other())
    ensures forall f :: Metric(r, f) == Metric(b, f)
  {
    match u
    case BestFlightAlertsUnit => b.(bestFlightAlerts := b.bestFlightAlerts.(tasks := ts))
    case WebTailorsUnit => b.(webTailors := b.webTailors.(tasks := ts))
  }

  /** Business data is exactly its seven metrics and two task lists: agreeing on all of them
      means being equal. This is what makes the frame conditions below complete. */
  lemma BusinessExtensionality(a: BusinessData, b: BusinessData)
    requires forall f :: Metric(a, f) == Metric(b, f)
    requires forall u :: UnitTasks(a, u) == UnitTasks(b, u)
    ensures a == b
  {
    assert Metric(a, EmailsSent) == Metric(b, EmailsSent);
    assert Metric(a, Subscribers) == Metric(b, Subscribers);
    assert Metric(a, TargetSubscribers) == Metric(b, TargetSubscribers);
    assert Metric(a, Clients) == Metric(b, Clients);
    assert Metric(a, TargetClients) == Metric(b, TargetClients);
    assert Metric(a, Revenue) == Metric(b, Revenue);
    assert Metric(a, WebsitesCreated) == Metric(b, WebsitesCreated);
    assert UnitTasks(a, BestFlightAlertsUnit) == UnitTasks(b, BestFlightAlertsUnit);
    assert UnitTasks(a, WebTailorsUnit) == UnitTasks(b, WebTailorsUnit);
  }

  /** `handleMetricUpdate`: stores `v` in the named field of the unit the field belongs to.
      The new value arrives already converted to a number. */
  function MetricUpdate(b: BusinessData, f: MetricField, v: int): (r: BusinessData)
    ensures Metric(r, f) == v
    ensures forall g :: g != f ==> Metric(r, g) == Metric(b, g)
    ensures forall u :: UnitTasks(r, u) == UnitTasks(b, u)
    ensures UnitOf(f) == BestFlightAlertsUnit ==> r.webTailors == b.webTailors
    ensures UnitOf(f) == WebTailorsUnit ==> r.bestFlightAlerts == b.bestFlightAlerts
  {
    match f
    case EmailsSent => b.(bestFlightAlerts := b.bestFlightAlerts.(emailsSent := v))
    case Subscribers => b.(bestFlightAlerts := b.bestFlightAlerts.(subscribers := v))
    case TargetSubscribers => b.(bestFlightAlerts := b.bestFlightAlerts.(targetSubscribers := v))
    case Clients => b.(webTailors := b.webTailors.(clients := v))
    case TargetClients => b.(webTailors := b.webTailors.(targetClients := v))
    case Revenue => b.(webTailors := b.webTailors.(revenue := v))
    case WebsitesCreated => b.(webTailors := b.webTailors.(websitesCreated := v))
  }

  /** Writing back the value a metric already has changes nothing, and of two writes to the
      same field only the second is kept. */
  lemma MetricUpdateLaws(b: BusinessData, f: MetricField, v: int, w: int)
    ensures MetricUpdate(b, f, Metric(b, f)) == b
    ensures MetricUpdate(MetricUpdate(b, f, v), f, w) == MetricUpdate(b, f, w)
  {
  }

  /** `handleTaskToggle`: flips completion of the named unit's tasks with identifier `id`. */
  function TaskToggle(b: BusinessData, u: Unit, id: string): (r: BusinessData)
    ensures |UnitTasks(r, u)| == |UnitTasks(b, u)|
    ensures forall k :: 0 <= k < |UnitTasks(b, u)| ==>
      var t := UnitTasks(b, u)[k];
      SameIdentity(UnitTasks(r, u)[k], t) && UnitTasks(r, u)[k].completed == (t.completed != (t.id == id))
    ensures UnitTasks(r, u.Other()) == UnitTasks(b, u.Other())
    ensures forall f :: Metric(r, f) == Metric(b, f)
  {
    WithUnitTasks(b, u, Toggle(UnitTasks(b, u), id))
  }

  /** Toggling the same task twice restores the data. */
  lemma TaskToggleTwice(b: BusinessData, u: Unit, id: string)
    ensures TaskToggle(TaskToggle(b, u, id), u, id) == b
  {
  }

  /** `handleAddTask`: a name that trims to nothing, i.e. one made only of white space, issues
      no update (None). Otherwise a new uncompleted task carrying the name as typed, the chosen
      difficulty and the identifier `freshId` is appended to the named unit's list. */
  function AddTask(b: BusinessData, u: Unit, name: string, d: Difficulty, freshId: string): (r: Option<BusinessData>)
    ensures r.None? <==> Text.IsBlank(name)
    ensures r.Some? ==>
      && UnitTasks(r.value, u) == UnitTasks(b, u) + [Task(freshId, name, false, Some(d))]
      && UnitTasks(r.value, u.Other()) == UnitTasks(b, u.Other())
      && forall f :: Metric(r.value, f) == Metric(b, f)
  {
    if Text.Trim(name) == [] then None
    else Some(WithUnitTasks(b, u, UnitTasks(b, u) + [Task(freshId, name, false, Some(d))]))
  }

  /** `handleDeleteTask`: drops the named unit's tasks with identifier `id`. */
  function DeleteTask(b: BusinessData, u: Unit, id: string): (r: BusinessData)
    ensures UnitTasks(r, u) == Remove(UnitTasks(b, u), id)
    ensures forall t :: t in UnitTasks(r, u) <==> t in UnitTasks(b, u) && t.id != id
    ensures !HasId(UnitTasks(b, u), id) ==> r == b
    ensures UnitTasks(r, u.Other()) == UnitTasks(b, u.Other())
    ensures forall f :: Metric(r, f) == Metric(b, f)
  {
    var r := WithUnitTasks(b, u, Remove(UnitTasks(b, u), id));
    assert !HasId(UnitTasks(b, u), id) ==> r == b by {
      if !HasId(UnitTasks(b, u), id) {
        BusinessExtensionality(r, b);
      }
    }
    r
  }

  /** Deleting a task just added with a fresh identifier restores the data. */
  lemma {:induction false} DeleteUndoesAdd(b: BusinessData, u: Unit, name: string, d: Difficulty, freshId: string)
    requires !HasId(UnitTasks(b, u), freshId)
    requires AddTask(b, u, name, d, freshId).Some?
    ensures DeleteTask(AddTask(b, u, name, d, freshId).value, u, freshId) == b
  {
    var ts := UnitTasks(b, u);
    var t := Task(freshId, name, false, Some(d));
    RemoveConcat(ts, [t], freshId);
    RemoveSingle(t, freshId);
    assert Remove(ts, freshId) + [] == ts;
    BusinessExtensionality(DeleteTask(AddTask(b, u, name, d, freshId).value, u, freshId), b);
  }

  /** Both business task lists have unique identifiers. */
  predicate WellFormed(b: BusinessData) {
    UniqueIds(b.bestFlightAlerts.tasks) && UniqueIds(b.webTailors.tasks)
  }

  /** Well-formedness read through the unit accessors: the named unit's list and the other's. */
  lemma WellFormedByUnit(b: BusinessData, u: Unit)
    ensures WellFormed(b) <==> UniqueIds(UnitTasks(b, u)) && UniqueIds(UnitTasks(b, u.Other()))
  {
  }

  /** A metric update keeps identifiers unique. */
  lemma MetricUpdateKeepsWellFormed(b: BusinessData, f: MetricField, v: int)
    requires WellFormed(b)
    ensures WellFormed(MetricUpdate(b, f, v))
  {
    var r := MetricUpdate(b, f, v);
    assert r.bestFlightAlerts.tasks == b.bestFlightAlerts.tasks;
    assert r.webTailors.tasks == b.webTailors.tasks;
  }

  /** A toggle keeps identifiers unique. */
  lemma TaskToggleKeepsWellFormed(b: BusinessData, u: Unit, id: string)
    requires WellFormed(b)
    ensures WellFormed(TaskToggle(b, u, id))
  {
    var r := TaskToggle(b, u, id);
    WellFormedByUnit(b, u);
    ToggleKeepsUnique(UnitTasks(b, u), id);
    WellFormedByUnit(r, u);
  }

  /** A deletion keeps identifiers unique. */
  lemma DeleteTaskKeepsWellFormed(b: BusinessData, u: Unit, id: string)
    requires WellFormed(b)
    ensures WellFormed(DeleteTask(b, u, id))
  {
    var r := DeleteTask(b, u, id);
    WellFormedByUnit(b, u);
    RemoveKeepsUnique(UnitTasks(b, u), id);
    WellFormedByUnit(r, u);
  }

  /** Adding a task keeps identifiers unique, provided its identifier is fresh in its unit. */
  lemma AddTaskKeepsWellFormed(b: BusinessData, u: Unit, name: string, d: Difficulty, freshId: string)
    requires WellFormed(b)
    requires !HasId(UnitTasks(b, u), freshId)
    ensures AddTask(b, u, name, d, freshId).Some? ==> WellFormed(AddTask(b, u, name, d, freshId).value)
  {
    var r := AddTask(b, u, name, d, freshId);
    if r.Some? {
      WellFormedByUnit(b, u);
      AppendKeepsUnique(UnitTasks(b, u), Task(freshId, name, false, Some(d)));
      WellFormedByUnit(r.value, u);
    }
  }
}
