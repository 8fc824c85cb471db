/** The Event aggregate root (models/event.py and its variant src/models/event.py).
    Name, date and budget are assigned only through validating setters, so the
    constructor and every later assignment enforce the same rules. The variant keeps
    the budget as a float; here both keep it as an integer. */
module EventEntity {
  import opened Common
  import opened ChildEntities

  datatype Event = Event(name: string, date: string, budget: int)

  /** The field rules the setters enforce. */
  predicate ValidEvent(e: Event) {
    |e.name| > 0 && |e.date| > 0 && e.budget >= 0
  }

  /** The `name` setter: `None` or `""` raises and nothing is stored. */
  function SetName(e: Event, value: Text): (r: Result<Event>)
    ensures r.Ok? <==> Truthy(value)
    ensures r.Err? ==> r.error == EmptyEventName
    ensures r.Ok? ==> r.value.name == value.value && r.value.date == e.date && r.value.budget == e.budget
    ensures ValidEvent(e) && r.Ok? ==> ValidEvent(r.value)
  {
    if !Truthy(value) then Err(EmptyEventName) else Ok(e.(name := value.value))
  }

  /** The `date` setter: `None` or `""` raises and nothing is stored. */
  function SetDate(e: Event, value: Text): (r: Result<Event>)
    ensures r.Ok? <==> Truthy(value)
    ensures r.Err? ==> r.error == EmptyEventDate
    ensures r.Ok? ==> r.value.date == value.value && r.value.name == e.name && r.value.budget == e.budget
    ensures ValidEvent(e) && r.Ok? ==> ValidEvent(r.value)
  {
    if !Truthy(value) then Err(EmptyEventDate) else Ok(e.(date := value.value))
  }

  /** The `budget` setter: a negative value raises; zero and positive values are stored. */
  function SetBudget(e: Event, value: int): (r: Result<Event>)
    ensures r.Ok? <==> value >= 0
    ensures r.Err? ==> r.error == NegativeBudget
    ensures r.Ok? ==> r.value.budget == value && r.value.name == e.name && r.value.date == e.date
    ensures ValidEvent(e) && r.Ok? ==> ValidEvent(r.value)
  {
    if value < 0 then Err(NegativeBudget) else Ok(e.(budget := value))
  }

  /** The constructor runs the three setters in order name, date, budget, so the first
      failing one decides the error; the budget defaults to zero. Every event it builds
      satisfies `ValidEvent`. */
  function NewEvent(name: Text, date: Text, budget: int := 0): (r: Result<Event>)
    ensures r.Ok? <==> Truthy(name) && Truthy(date) && budget >= 0
    ensures !Truthy(name) ==> r == Err(EmptyEventName)
    ensures Truthy(name) && !Truthy(date) ==> r == Err(EmptyEventDate)
    ensures Truthy(name) && Truthy(date) && budget < 0 ==> r == Err(NegativeBudget)
    ensures r.Ok? ==> r.value == Event(name.value, date.value, budget) && ValidEvent(r.value)
  {
    var blank := Event("", "", 0);
    match SetName(blank, name)
    case Err(e) => Err(e)
    case Ok(e1) =>
      match SetDate(e1, date)
      case Err(e) => Err(e)
      case Ok(e2) => SetBudget(e2, budget)
  }

  /** Omitting the budget is the same as passing zero. */
  lemma DefaultBudgetIsZero(name: Text, date: Text)
    requires Truthy(name) && Truthy(date)
    ensures NewEvent(name, date).Ok? && NewEvent(name, date).value.budget == 0
  {
  }

  /** The keyword arguments of an event update. A field is `None` when its key is
      absent; a present `name` or `date` may itself be Python's `None`. A present budget
      is a number that `int()` truncates. */
  datatype EventPatch = EventPatch(name: Option<Text>, date: Option<Text>, budget: Option<real>)

  /** The four serialised child collections of an event. */
  datatype Relations = Relations(
    participants: seq<ParticipantRecord>,
    speakers: seq<SpeakerRecord>,
    vendors: seq<VendorRecord>,
    feedbacks: seq<FeedbackRecord>)

  const NoRelations := Relations([], [], [], [])

  /** An event's dictionary: id, name, date and budget, plus the child collections when
      they were asked for. */
  datatype EventRecord = EventRecord(id: int, name: string, date: string, budget: int, relations: Option<Relations>)

  /** `to_dict()` of models/event.py: the scalar columns and always the four collections,
      each already serialised by the child's own `to_dict`. */
  function ToDict(id: int, e: Event, children: Relations): (r: EventRecord)
    ensures FromDict(r) == (id, e)
    ensures r.relations == Some(children)
  {
    EventRecord(id, e.name, e.date, e.budget, Some(children))
  }

  /** Reads the event back from its dictionary. */
  function FromDict(r: EventRecord): (x: (int, Event))
  {
    (r.id, Event(r.name, r.date, r.budget))
  }

  /** `to_dict(include_relations)` of src/models/event.py. `loaded` is what reading the
      four relationships yields: `None` when the ORM refuses (a detached instance), and
      then the dictionary carries four empty lists instead. */
  function ToDictSelective(id: int, e: Event, includeRelations: bool, loaded: Option<Relations>): (r: EventRecord)
    ensures FromDict(r) == (id, e)
    ensures !includeRelations <==> r.relations.None?
    ensures includeRelations && loaded.Some? ==> r == ToDict(id, e, loaded.value)
    ensures includeRelations && loaded.None? ==> r.relations == Some(NoRelations)
  {
    var base := EventRecord(id, e.name, e.date, e.budget, None);
    if !includeRelations then base
    else base.(relations := Some(if loaded.Some? then loaded.value else NoRelations))
  }
}
