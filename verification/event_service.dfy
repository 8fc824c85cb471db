/** The session-based event service (services/event_service.py). Every call opens a
    session, works on the stored event, and commits; an exception rolls the session
    back, so a call that raises hands back the store it was given. */
module EventService {
  import opened Common
  import opened Tables
  import opened EventEntity
  import opened Storage

  /** A date as `strptime(...).date()` produces it once stored: a date object is always
      truthy, so its text is never empty. */
  type IsoDate = s: string | |s| > 0 witness "0"

  /** The `%d-%m-%Y` parse `update` applies to a supplied date; `None` when it refuses. */
  type DateParser = string -> Option<IsoDate>

  /** `create`: the constructor validates the three fields (name, then date, then
      budget); a valid event is inserted under a fresh id and its dictionary returned,
      with four empty collections. */
  function Create(s: Store, name: Text, date: Text, budget: int): (r: Step<EventRecord>)
    ensures r.reply.Done? <==> Truthy(name) && Truthy(date) && budget >= 0
    ensures !Truthy(name) ==> r.reply == Raised(EmptyEventName)
    ensures Truthy(name) && !Truthy(date) ==> r.reply == Raised(EmptyEventDate)
    ensures Truthy(name) && Truthy(date) && budget < 0 ==> r.reply == Raised(NegativeBudget)
    ensures !r.reply.Done? ==> r.store == s
    ensures r.reply.Done? ==>
              && (IdsFresh(s.events) ==> r.reply.value.id !in s.events.rows)
              && r.store.events.rows == s.events.rows[r.reply.value.id := Event(name.value, date.value, budget)]
              && OnlyChanged(s, r.store, Events)
              && FromDict(r.reply.value) == (r.reply.value.id, Event(name.value, date.value, budget))
    ensures Valid(s) && r.reply.Done? ==> r.reply.value.relations == Some(NoRelations)
    ensures Valid(s) ==> Valid(r.store)
  {
    match NewEvent(name, date, budget)
    case Err(e) => Step(s, Raised(e))
    case Ok(ev) =>
      var ins := InsertEvent(s, ev);
      var d := EventDict(ins.0, ins.1);
      assert Valid(s) ==> d.relations == Some(NoRelations) by {
        if Valid(s) {
          NoChildrenNoRelations(ins.0, ins.1);
        }
      }
      Step(ins.0, Done(d))
  }

  /** A supplied date that `strptime` accepts: `None` and a string that does not match
      the format both raise. */
  predicate DateParses(value: Text, parse: DateParser) {
    value.Some? && parse(value.value).Some?
  }

  /** Whether every assignment an update asks for passes. */
  predicate PatchAccepted(patch: EventPatch, parse: DateParser) {
    && (patch.name.Some? ==> Truthy(patch.name.value))
    && (patch.date.Some? ==> DateParses(patch.date.value, parse))
    && (patch.budget.Some? ==> Truncate(patch.budget.value) >= 0)
  }

  /** The guarded assignments of `update`, in source order: a present name goes through
      its setter, a present date is parsed and the parsed date stored, a present budget
      is truncated by `int()` and goes through its setter. The first failure decides. */
  function ApplyPatch(e: Event, patch: EventPatch, parse: DateParser): (r: Result<Event>)
    ensures r.Ok? <==> PatchAccepted(patch, parse)
    ensures patch.name.Some? && !Truthy(patch.name.value) ==> r == Err(EmptyEventName)
    ensures ((patch.name.Some? ==> Truthy(patch.name.value)) && patch.date.Some? && !DateParses(patch.date.value, parse))
              ==> r == Err(MalformedDate)
    ensures ((patch.name.Some? ==> Truthy(patch.name.value)) && (patch.date.Some? ==> DateParses(patch.date.value, parse))
             && patch.budget.Some? && Truncate(patch.budget.value) < 0)
              ==> r == Err(NegativeBudget)
    ensures r.Ok? ==> r.value.name == (if patch.name.Some? then patch.name.value.value else e.name)
    ensures r.Ok? ==> r.value.date == (if patch.date.Some? then parse(patch.date.value.value).value else e.date)
    ensures r.Ok? ==> r.value.budget == (if patch.budget.Some? then Truncate(patch.budget.value) else e.budget)
    ensures ValidEvent(e) && r.Ok? ==> ValidEvent(r.value)
  {
    var named := if patch.name.Some? then SetName(e, patch.name.value) else Ok(e);
    if named.Err? then named
    else
      var dated :=
        if patch.date.Some? then
          if !DateParses(patch.date.value, parse) then Err(MalformedDate)
          else SetDate(named.value, Some(parse(patch.date.value.value).value))
        else Ok(named.value);
      if dated.Err? then dated
      else if patch.budget.Some? then SetBudget(dated.value, Truncate(patch.budget.value))
      else dated
  }

  /** `update`: `None` for an unknown id; otherwise the patch is applied and the new
      dictionary returned, or the first failing assignment raises and nothing changes.
      Only the event's own row changes, so its collections stay as they were. */
  function Update(s: Store, id: int, patch: EventPatch, parse: DateParser): (r: Step<EventRecord>)
    ensures r.reply.Missing? <==> id !in s.events.rows
    ensures id in s.events.rows ==> (r.reply.Done? <==> PatchAccepted(patch, parse))
    ensures r.reply.Raised? ==> r.reply == Raised(ApplyPatch(s.events.rows[id], patch, parse).error)
    ensures !r.reply.Done? ==> r.store == s
    ensures r.reply.Done? ==>
              && r.store.events.rows == s.events.rows[id := ApplyPatch(s.events.rows[id], patch, parse).value]
              && OnlyChanged(s, r.store, Events)
              && FromDict(r.reply.value) == (id, r.store.events.rows[id])
              && r.reply.value.relations == Some(RelationsOf(s, id))
    ensures r.store.events.next == s.events.next
    ensures Valid(s) ==> Valid(r.store)
  {
    if id !in s.events.rows then Step(s, Missing)
    else
      match ApplyPatch(s.events.rows[id], patch, parse)
      case Err(e) => Step(s, Raised(e))
      case Ok(ev) =>
        var s' := PutEvent(s, id, ev);
        SameChildrenSameRelations(s, s', id);
        Saved(s', id)
  }

  /** `delete`: `False` for an unknown id; otherwise the event and, by the cascade, all
      of its children are removed. */
  function Delete(s: Store, id: int): (r: Step<bool>)
    ensures r.reply == Done(id in s.events.rows)
    ensures id !in s.events.rows ==> r.store == s
    ensures id in s.events.rows ==>
              && r.store.events.rows == s.events.rows - {id}
              && NoChildOf(r.store, id)
              && OtherChildrenKept(s, r.store, id)
              && NoNewChildren(s, r.store)
    ensures Valid(s) ==> Valid(r.store)
  {
    if id !in s.events.rows then Step(s, Done(false))
    else Step(DeleteEventCascade(s, id), Done(true))
  }

  /** `list_events`: the dictionary of every stored event, by increasing id. */
  function ListEvents(s: Store): (r: seq<EventRecord>)
    ensures forall j :: 0 <= j < |r| ==> r[j].id in s.events.rows && r[j] == EventDict(s, r[j].id)
    ensures IdsFresh(s.events) ==> forall k :: k in s.events.rows ==> exists j :: 0 <= j < |r| && r[j].id == k
    ensures forall i, j :: 0 <= i < j < |r| ==> r[i].id < r[j].id
  {
    EventDictsListed(s);
    EventDictsComplete(s);
    EventDicts(s)
  }

  function EventDicts(s: Store): seq<EventRecord>
  {
    var ids := Ids(s.events);
    seq(|ids|, j requires 0 <= j < |ids| => EventDict(s, ids[j]))
  }

  lemma EventDictsListed(s: Store)
    ensures var r := EventDicts(s);
            && (forall j :: 0 <= j < |r| ==> r[j].id in s.events.rows && r[j] == EventDict(s, r[j].id))
            && (forall i, j :: 0 <= i < j < |r| ==> r[i].id < r[j].id)
  {
    var ids := Ids(s.events);
    var r := EventDicts(s);
    assert forall j :: 0 <= j < |r| ==> r[j].id == ids[j] && r[j] == EventDict(s, ids[j]);
  }

  lemma EventDictsComplete(s: Store)
    ensures var r := EventDicts(s);
            IdsFresh(s.events) ==> forall k :: k in s.events.rows ==> exists j :: 0 <= j < |r| && r[j].id == k
  {
    var ids := Ids(s.events);
    var r := EventDicts(s);
    if IdsFresh(s.events) {
      forall k | k in s.events.rows ensures exists j :: 0 <= j < |r| && r[j].id == k {
        var j :| 0 <= j < |ids| && ids[j] == k;
        assert r[j].id == k;
      }
    }
  }

  /** `update_budget`: adds `amount` to the stored budget through the setter, so a total
      below zero raises and nothing changes. */
  function UpdateBudget(s: Store, id: int, amount: int): (r: Step<EventRecord>)
    ensures r.reply.Missing? <==> id !in s.events.rows
    ensures id in s.events.rows ==>
              (r.reply.Raised? <==> s.events.rows[id].budget + amount < 0)
    ensures r.reply.Raised? ==> r.reply.error == NegativeBudget
    ensures !r.reply.Done? ==> r.store == s
    ensures r.reply.Done? ==>
              && r.store.events.rows == s.events.rows[id := s.events.rows[id].(budget := s.events.rows[id].budget + amount)]
              && OnlyChanged(s, r.store, Events)
              && FromDict(r.reply.value) == (id, r.store.events.rows[id])
              && r.reply.value.relations == Some(RelationsOf(s, id))
    ensures r.store.events.next == s.events.next
    ensures Valid(s) ==> Valid(r.store)
  {
    if id !in s.events.rows then Step(s, Missing)
    else
      var ev := s.events.rows[id];
      match SetBudget(ev, ev.budget + amount)
      case Err(e) => Step(s, Raised(e))
      case Ok(ev') =>
        var s' := PutEvent(s, id, ev');
        SameChildrenSameRelations(s, s', id);
        Saved(s', id)
  }

  /** `get_budget`: the stored budget, or `None` for an unknown id. Read only. */
  function GetBudget(s: Store, id: int): (r: Option<int>)
    ensures r.Some? <==> id in s.events.rows
    ensures r.Some? ==> r.value == s.events.rows[id].budget
  {
    if id !in s.events.rows then None else Some(s.events.rows[id].budget)
  }

  /** `edit_budget`: replaces the stored budget through the setter; a negative value
      raises and nothing changes. */
  function EditBudget(s: Store, id: int, newBudget: int): (r: Step<EventRecord>)
    ensures r.reply.Missing? <==> id !in s.events.rows
    ensures id in s.events.rows ==> (r.reply.Raised? <==> newBudget < 0)
    ensures r.reply.Raised? ==> r.reply.error == NegativeBudget
    ensures !r.reply.Done? ==> r.store == s
    ensures r.reply.Done? ==>
              && r.store.events.rows == s.events.rows[id := s.events.rows[id].(budget := newBudget)]
              && OnlyChanged(s, r.store, Events)
              && FromDict(r.reply.value) == (id, r.store.events.rows[id])
              && r.reply.value.relations == Some(RelationsOf(s, id))
    ensures r.store.events.next == s.events.next
    ensures Valid(s) ==> Valid(r.store)
  {
    if id !in s.events.rows then Step(s, Missing)
    else
      match SetBudget(s.events.rows[id], newBudget)
      case Err(e) => Step(s, Raised(e))
      case Ok(ev') =>
        var s' := PutEvent(s, id, ev');
        SameChildrenSameRelations(s, s', id);
        Saved(s', id)
  }

  // ------------------------------------------------------------------ laws

  /** Adding an amount is editing to the sum: the two budget operations agree. */
  lemma UpdateBudgetIsEditBudget(s: Store, id: int, amount: int)
    requires id in s.events.rows
    ensures UpdateBudget(s, id, amount) == EditBudget(s, id, s.events.rows[id].budget + amount)
  {
  }

  /** `get_budget` reads back what `update_budget` stored. */
  lemma GetBudgetAfterUpdate(s: Store, id: int, amount: int)
    requires id in s.events.rows && s.events.rows[id].budget + amount >= 0
    ensures GetBudget(UpdateBudget(s, id, amount).store, id) == Some(s.events.rows[id].budget + amount)
  {
  }

  /** An update with no keyword arguments changes nothing and returns the event as stored. */
  lemma EmptyPatchChangesNothing(s: Store, id: int, parse: DateParser)
    requires id in s.events.rows
    ensures Update(s, id, EventPatch(None, None, None), parse) == Step(s, Done(EventDict(s, id)))
  {
    var r := Update(s, id, EventPatch(None, None, None), parse);
    assert r.store.events.rows == s.events.rows;
  }

  /** Once deleted, an event has no budget, cannot be updated, and is not listed. */
  lemma DeletedEventIsGone(s: Store, id: int, patch: EventPatch, parse: DateParser)
    requires id in s.events.rows
    ensures var s' := Delete(s, id).store;
            && GetBudget(s', id) == None
            && Update(s', id, patch, parse).reply == Missing
            && forall j :: 0 <= j < |ListEvents(s')| ==> ListEvents(s')[j].id != id
  {
  }
}
