/** The repository-based event service (src/services/event_service.py). Entities come
    from the factory, every write goes through the event repository (its own session
    and commit), and `create` announces the new event on the notification registry.
    An assignment that raises happens before the repository is called, so nothing is
    written. */
module RepoEventService {
  import opened Common
  import opened Strings
  import opened Tables
  import opened EventEntity
  import opened Storage
  import opened Notifications
  import EntityFactory

  /** A write through the repository, answered with `to_dict()`. `add` commits, refreshes
      the instance and closes its session; the refresh re-applies the loader options the
      instance was loaded with. An event read by `get_by_id` was loaded with its four
      collections joined in (`joined`), so they are reloaded and the dictionary carries
      the event's children; an event built by the factory was loaded with none, so
      reading its collections on the closed session fails and the dictionary carries
      four empty lists. */
  function Committed(s: Store, id: int, joined: bool): (r: Step<EventRecord>)
    requires id in s.events.rows
    ensures r.store == s && r.reply.Done?
    ensures FromDict(r.reply.value) == (id, s.events.rows[id])
    ensures joined ==> r.reply.value.relations == Some(RelationsOf(s, id))
    ensures !joined ==> r.reply.value.relations == Some(NoRelations)
  {
    var loaded := if joined then Some(RelationsOf(s, id)) else None;
    Step(s, Done(ToDictSelective(id, s.events.rows[id], true, loaded)))
  }

  /** The label `create` notifies under. */
  const EventCreated := "event_created"

  /** What `create` did: the service step, the id the insert drew (when it got that far),
      and the listener calls the notification made. */
  datatype Created<L> = Created(step: Step<EventRecord>, saved: Option<int>, dispatch: Dispatch<L, (int, Event)>)

  /** `create`: builds the event with the factory, stores it, then notifies the
      `event_created` listeners with it. A constructor error raises before anything is
      stored or announced. The notification runs after the commit: a listener that
      raises makes `create` raise, but the event stays stored. */
  function Create<L(==)>(s: Store, reg: Registry<L>, raises: L -> bool, name: Text, date: Text, budget: int): (r: Created<L>)
    ensures r.saved.Some? <==> Truthy(name) && Truthy(date) && budget >= 0
    ensures !Truthy(name) ==> r.step.reply == Raised(EmptyEventName)
    ensures Truthy(name) && !Truthy(date) ==> r.step.reply == Raised(EmptyEventDate)
    ensures Truthy(name) && Truthy(date) && budget < 0 ==> r.step.reply == Raised(NegativeBudget)
    ensures r.saved.None? ==> r.step.store == s && r.dispatch == Dispatch([], false)
    ensures r.saved.Some? ==>
              && (IdsFresh(s.events) ==> r.saved.value !in s.events.rows)
              && r.step.store.events.rows == s.events.rows[r.saved.value := Event(name.value, date.value, budget)]
              && OnlyChanged(s, r.step.store, Events)
              && r.dispatch == Notify(reg, EventCreated, (r.saved.value, Event(name.value, date.value, budget)), raises)
              && (r.step.reply.Done? <==> !r.dispatch.raised)
              && (r.dispatch.raised ==> r.step.reply == Raised(ListenerFailed))
    ensures r.step.reply.Done? ==>
              FromDict(r.step.reply.value) == (r.saved.value, Event(name.value, date.value, budget))
    ensures r.step.reply.Done? ==> r.step.reply.value.relations == Some(NoRelations)
    ensures Valid(s) ==> Valid(r.step.store)
  {
    match EntityFactory.CreateEvent(name, date, budget)
    case Err(e) => Created(Step(s, Raised(e)), None, Dispatch([], false))
    case Ok(ev) =>
      var ins := InsertEvent(s, ev);
      var d := Notify(reg, EventCreated, (ins.1, ev), raises);
      if d.raised then Created(Step(ins.0, Raised(ListenerFailed)), Some(ins.1), d)
      else Created(Committed(ins.0, ins.1, false), Some(ins.1), d)
  }

  /** Whether every assignment an update asks for passes; the date is stored verbatim,
      so only `None` and `""` fail it. */
  predicate PatchAccepted(patch: EventPatch) {
    && (patch.name.Some? ==> Truthy(patch.name.value))
    && (patch.date.Some? ==> Truthy(patch.date.value))
    && (patch.budget.Some? ==> Truncate(patch.budget.value) >= 0)
  }

  /** The guarded assignments of `update`, in source order: name, date and the budget
      truncated by `int()`, each through its setter. The first failure decides. */
  function ApplyPatch(e: Event, patch: EventPatch): (r: Result<Event>)
    ensures r.Ok? <==> PatchAccepted(patch)
    ensures patch.name.Some? && !Truthy(patch.name.value) ==> r == Err(EmptyEventName)
    ensures ((patch.name.Some? ==> Truthy(patch.name.value)) && patch.date.Some? && !Truthy(patch.date.value))
              ==> r == Err(EmptyEventDate)
    ensures ((patch.name.Some? ==> Truthy(patch.name.value)) && (patch.date.Some? ==> Truthy(patch.date.value))
             && patch.budget.Some? && Truncate(patch.budget.value) < 0)
              ==> r == Err(NegativeBudget)
    ensures r.Ok? ==> r.value.name == (if patch.name.Some? then patch.name.value.value else e.name)
    ensures r.Ok? ==> r.value.date == (if patch.date.Some? then patch.date.value.value else e.date)
    ensures r.Ok? ==> r.value.budget == (if patch.budget.Some? then Truncate(patch.budget.value) else e.budget)
    ensures ValidEvent(e) && r.Ok? ==> ValidEvent(r.value)
  {
    var named := if patch.name.Some? then SetName(e, patch.name.value) else Ok(e);
    if named.Err? then named
    else
      var dated := if patch.date.Some? then SetDate(named.value, patch.date.value) else Ok(named.value);
      if dated.Err? then dated
      else if patch.budget.Some? then SetBudget(dated.value, Truncate(patch.budget.value))
      else dated
  }

  /** `update`: `None` for an unknown id; otherwise the patch is applied and saved, or
      the first failing assignment raises and nothing is saved. */
  function Update(s: Store, id: int, patch: EventPatch): (r: Step<EventRecord>)
    ensures r.reply.Missing? <==> id !in s.events.rows
    ensures id in s.events.rows ==> (r.reply.Done? <==> PatchAccepted(patch))
    ensures r.reply.Raised? ==> r.reply == Raised(ApplyPatch(s.events.rows[id], patch).error)
    ensures !r.reply.Done? ==> r.store == s
    ensures r.reply.Done? ==>
              && r.store.events.rows == s.events.rows[id := ApplyPatch(s.events.rows[id], patch).value]
              && OnlyChanged(s, r.store, Events)
              && FromDict(r.reply.value) == (id, r.store.events.rows[id])
              && r.reply.value.relations == Some(RelationsOf(s, id))
    ensures r.store.events.next == s.events.next
    ensures Valid(s) ==> Valid(r.store)
  {
    if id !in s.events.rows then Step(s, Missing)
    else
      match ApplyPatch(s.events.rows[id], patch)
      case Err(e) => Step(s, Raised(e))
      case Ok(ev) =>
        var s' := PutEvent(s, id, ev);
        SameChildrenSameRelations(s, s', id);
        Committed(s', id, true)
  }

  /** One entry of `list_events`: the scalar columns plus a `display_name` of the form
      "<id>: <name>"; no collections. */
  datatype EventListing = EventListing(id: int, displayName: string, name: string, date: string, budget: int)

  function Listing(id: int, ev: Event): (r: EventListing)
    ensures r.id == id && r.name == ev.name && r.date == ev.date && r.budget == ev.budget
    ensures r.displayName == DisplayName(id, ev.name)
  {
    EventListing(id, DisplayName(id, ev.name), ev.name, ev.date, ev.budget)
  }

  /** `list_events`: one entry per stored event, by increasing id. */
  function ListEvents(s: Store): (r: seq<EventListing>)
    ensures forall j :: 0 <= j < |r| ==> r[j].id in s.events.rows && r[j] == Listing(r[j].id, s.events.rows[r[j].id])
    ensures forall i, j :: 0 <= i < j < |r| ==> r[i].id < r[j].id
    ensures IdsFresh(s.events) ==> forall k :: k in s.events.rows ==> exists j :: 0 <= j < |r| && r[j].id == k
  {
    ListingsSound(s);
    ListingsComplete(s);
    Listings(s)
  }

  function Listings(s: Store): seq<EventListing>
  {
    var ids := Ids(s.events);
    seq(|ids|, j requires 0 <= j < |ids| => Listing(ids[j], s.events.rows[ids[j]]))
  }

  lemma ListingsSound(s: Store)
    ensures var r := Listings(s);
            && (forall j :: 0 <= j < |r| ==> r[j].id in s.events.rows && r[j] == Listing(r[j].id, s.events.rows[r[j].id]))
            && (forall i, j :: 0 <= i < j < |r| ==> r[i].id < r[j].id)
  {
    var ids := Ids(s.events);
    var r := Listings(s);
    assert forall j :: 0 <= j < |r| ==> r[j].id == ids[j];
  }

  lemma ListingsComplete(s: Store)
    ensures var r := Listings(s);
            IdsFresh(s.events) ==> forall k :: k in s.events.rows ==> exists j :: 0 <= j < |r| && r[j].id == k
  {
    var ids := Ids(s.events);
    var r := Listings(s);
    if IdsFresh(s.events) {
      forall k | k in s.events.rows ensures exists j :: 0 <= j < |r| && r[j].id == k {
        var j :| 0 <= j < |ids| && ids[j] == k;
        assert r[j].id == k;
      }
    }
  }

  /** `update_budget`: adds `amount` through the budget setter; a total below zero
      raises and nothing is saved. */
  function UpdateBudget(s: Store, id: int, amount: int): (r: Step<EventRecord>)
    ensures r.reply.Missing? <==> id !in s.events.rows
    ensures id in s.events.rows ==> (r.reply.Raised? <==> s.events.rows[id].budget + amount < 0)
    ensures r.reply.Raised? ==> r.reply.error == NegativeBudget
    ensures !r.reply.Done? ==> r.store == s
    ensures r.reply.Done? ==>
              && r.store.events.rows == s.events.rows[id := s.events.rows[id].(budget := s.events.rows[id].budget + amount)]
              && OnlyChanged(s, r.store, Events)
              && FromDict(r.reply.value) == (id, r.store.events.rows[id])
              && r.reply.value.relations == Some(RelationsOf(s, id))
    ensures r.store.events.next == s.events.next
    ensures Valid(s) ==> Valid(r.store)
  {
    if id !in s.events.rows then Step(s, Missing)
    else
      var ev := s.events.rows[id];
      match SetBudget(ev, ev.budget + amount)
      case Err(e) => Step(s, Raised(e))
      case Ok(ev') =>
        var s' := PutEvent(s, id, ev');
        SameChildrenSameRelations(s, s', id);
        Committed(s', id, true)
  }

  /** `edit_budget`: replaces the budget through its setter; a negative value raises and
      nothing is saved. */
  function EditBudget(s: Store, id: int, newBudget: int): (r: Step<EventRecord>)
    ensures r.reply.Missing? <==> id !in s.events.rows
    ensures id in s.events.rows ==> (r.reply.Raised? <==> newBudget < 0)
    ensures r.reply.Raised? ==> r.reply.error == NegativeBudget
    ensures !r.reply.Done? ==> r.store == s
    ensures r.reply.Done? ==>
              && r.store.events.rows == s.events.rows[id := s.events.rows[id].(budget := newBudget)]
              && OnlyChanged(s, r.store, Events)
              && FromDict(r.reply.value) == (id, r.store.events.rows[id])
              && r.reply.value.relations == Some(RelationsOf(s, id))
    ensures r.store.events.next == s.events.next
    ensures Valid(s) ==> Valid(r.store)
  {
    if id !in s.events.rows then Step(s, Missing)
    else
      match SetBudget(s.events.rows[id], newBudget)
      case Err(e) => Step(s, Raised(e))
      case Ok(ev') =>
        var s' := PutEvent(s, id, ev');
        SameChildrenSameRelations(s, s', id);
        Committed(s', id, true)
  }

  // ------------------------------------------------------------------ laws

  /** No two entries of `list_events` share a display name. */
  lemma {:induction false} ListingDisplayNamesDistinct(s: Store)
    ensures var r := ListEvents(s);
            forall i, j :: 0 <= i < j < |r| ==> r[i].displayName != r[j].displayName
  {
    var r := ListEvents(s);
    forall i, j | 0 <= i < j < |r| ensures r[i].displayName != r[j].displayName {
      if r[i].displayName == r[j].displayName {
        DisplayNameInjective(r[i].id, r[i].name, r[j].id, r[j].name);
      }
    }
  }

  /** With listeners that all return normally, `create` answers with the new event and
      every `event_created` listener has been called once, with it, in subscription
      order. */
  lemma QuietListenersAllCalled<L>(s: Store, reg: Registry<L>, raises: L -> bool, name: Text, date: Text, budget: int)
    requires Truthy(name) && Truthy(date) && budget >= 0
    requires forall l :: l in ListenersOf(reg, EventCreated) ==> !raises(l)
    ensures var r := Create(s, reg, raises, name, date, budget);
            && r.step.reply.Done?
            && |r.dispatch.calls| == |ListenersOf(reg, EventCreated)|
            && forall i :: 0 <= i < |r.dispatch.calls| ==>
                 r.dispatch.calls[i] == Call(ListenersOf(reg, EventCreated)[i], (r.saved.value, Event(name.value, date.value, budget)))
  {
    var r := Create(s, reg, raises, name, date, budget);
    var ls := ListenersOf(reg, EventCreated);
    assert !exists i :: 0 <= i < |ls| && raises(ls[i]) by {
      forall i | 0 <= i < |ls| ensures !raises(ls[i]) {
        assert ls[i] in ls;
      }
    }
  }

  /** A listener that raises does not undo the insert: the event is stored although
      `create` raises. */
  lemma RaisingListenerKeepsEvent<L>(s: Store, reg: Registry<L>, raises: L -> bool, name: Text, date: Text, budget: int, k: int)
    requires Truthy(name) && Truthy(date) && budget >= 0
    requires 0 <= k < |ListenersOf(reg, EventCreated)| && raises(ListenersOf(reg, EventCreated)[k])
    ensures var r := Create(s, reg, raises, name, date, budget);
            && r.step.reply == Raised(ListenerFailed)
            && r.step.store.events.rows[r.saved.value] == Event(name.value, date.value, budget)
  {
  }
}
