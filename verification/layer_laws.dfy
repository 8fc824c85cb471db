/** How the two service layers relate. The session-based services (the `services`
    package) and the repository-based ones (the `src/services` package) perform the same
    writes and answer alike, with three exceptions: the repository layer's event `create`
    also announces the event and raises when a listener raises, its participant `create`
    raises instead of answering `None` for an unknown event, and the session layer parses
    a supplied event date where the repository layer stores it as given. */
module LayerLaws {
  import opened Common
  import opened EventEntity
  import opened ChildEntities
  import opened Storage
  import opened Notifications
  import EventService
  import RepoEventService
  import ParticipantService

  /** Both `create`s store the same event under the same id, whatever the listeners do. */
  lemma EventCreateSameWrite<L>(s: Store, reg: Registry<L>, raises: L -> bool, name: Text, date: Text, budget: int)
    ensures var r := RepoEventService.Create(s, reg, raises, name, date, budget);
            var q := EventService.Create(s, name, date, budget);
            && r.step.store == q.store
            && (q.reply.Done? <==> r.saved.Some?)
            && (q.reply.Done? ==> q.reply.value.id == r.saved.value)
            && (r.step.reply.Done? ==> FromDict(r.step.reply.value) == FromDict(q.reply.value))
  {
  }

  /** An update that leaves the date alone does the same in both layers: the same
      write and the same answer, collections included. */
  lemma EventUpdateWithoutDateAgrees(s: Store, id: int, patch: EventPatch, parse: EventService.DateParser)
    requires patch.date.None?
    ensures RepoEventService.Update(s, id, patch) == EventService.Update(s, id, patch, parse)
  {
    if id in s.events.rows {
      var e := s.events.rows[id];
      assert RepoEventService.ApplyPatch(e, patch) == EventService.ApplyPatch(e, patch, parse);
    }
  }

  /** A date `strptime` refuses: the session layer raises and keeps the store, the
      repository layer stores the text as it came. */
  lemma UnparsedDateOnlyStoredByRepository(s: Store, id: int, d: string, parse: EventService.DateParser)
    requires id in s.events.rows && d != [] && parse(d).None?
    ensures var patch := EventPatch(None, Some(Some(d)), None);
            var r := RepoEventService.Update(s, id, patch);
            var q := EventService.Update(s, id, patch, parse);
            && q == Step(s, Raised(MalformedDate))
            && r.reply.Done? && r.store.events.rows[id] == s.events.rows[id].(date := d)
  {
  }

  /** The budget operations do the same in both layers: the same write and the same
      answer. */
  lemma BudgetWritesAgree(s: Store, id: int, amount: int)
    ensures RepoEventService.UpdateBudget(s, id, amount) == EventService.UpdateBudget(s, id, amount)
    ensures RepoEventService.EditBudget(s, id, amount) == EventService.EditBudget(s, id, amount)
  {
  }

  /** `int()` truncates toward zero before the budget setter sees the value, so an update
      to a budget of -0.5 is accepted and stores 0. */
  lemma FractionalNegativeBudgetStoresZero(s: Store, id: int)
    requires id in s.events.rows
    ensures var r := RepoEventService.Update(s, id, EventPatch(None, None, Some(-0.5)));
            r.reply.Done? && r.store.events.rows[id].budget == 0
  {
  }

  /** A session from end to end, in two halves. First: on an empty store, `create`
      of an event "Conf" with a budget of 1000 succeeds, and the event has no
      participant. */
  lemma ConfCreated()
    ensures var c := EventService.Create(EmptyStore(), Some("Conf"), Some("01-01-2026"), 1000);
            && c.reply.Done? && c.reply.value.id in c.store.events.rows
            && c.store.events.rows[c.reply.value.id].budget == 1000
            && c.store.participants.rows == map[]
            && Valid(c.store)
  {
  }

  /** Second, in any valid store holding such an event: a participant "Alice" joins it;
      taking 1500 from the budget is refused and changes nothing, taking 500 leaves 500,
      and deleting the event takes Alice's row with it. */
  lemma {:induction false} AliceScenario(s: Store, id: int)
    requires Valid(s) && id in s.events.rows && s.events.rows[id].budget == 1000
    ensures var p := ParticipantService.Create(s, Some(id), Some("Alice"));
            var spent := EventService.UpdateBudget(p.store, id, -500).store;
            && p.reply.Done?
            && EventService.UpdateBudget(p.store, id, -1500) == Step(p.store, Raised(NegativeBudget))
            && EventService.GetBudget(spent, id) == Some(500)
            && EventService.Delete(spent, id).reply == Done(true)
            && p.reply.value.id !in EventService.Delete(spent, id).store.participants.rows
  {
    var p := ParticipantService.Create(s, Some(id), Some("Alice"));
    var alice := p.reply.value.id;
    var spent := EventService.UpdateBudget(p.store, id, -500).store;
    assert spent.participants == p.store.participants;
    assert spent.participants.rows[alice].eventId == id;
  }

  /** Deleting the event every participant belongs to leaves no participant. */
  lemma DeletingOnlyEventClearsParticipants(s: Store, id: int)
    requires id in s.events.rows
    requires forall k :: k in s.participants.rows ==> s.participants.rows[k].eventId == id
    ensures EventService.Delete(s, id).store.participants.rows == map[]
  {
    var d := EventService.Delete(s, id).store;
    assert forall k :: k !in d.participants.rows;
  }
}
