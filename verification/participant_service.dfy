/** The session-based participant service (services/participant_service.py). A
    participant is created only under a stored event; `event_id` may be Python's `None`,
    which finds no event. */
module ParticipantService {
  import opened Common
  import opened Tables
  import opened ChildEntities
  import opened Storage

  /** `create`: `None` when no stored event has `eventId`; otherwise the constructor
      validates the name and the participant is inserted under a fresh id. */
  function Create(s: Store, eventId: Option<int>, name: Text): (r: Step<ParticipantRecord>)
    ensures r.reply.Missing? <==> eventId.None? || eventId.value !in s.events.rows
    ensures !r.reply.Missing? ==> (r.reply.Done? <==> Truthy(name))
    ensures r.reply.Raised? ==> r.reply.error == EmptyParticipantName
    ensures !r.reply.Done? ==> r.store == s
    ensures r.reply.Done? ==>
              && (IdsFresh(s.participants) ==> r.reply.value.id !in s.participants.rows)
              && r.store.participants.rows == s.participants.rows[r.reply.value.id := Participant(name.value, eventId.value)]
              && OnlyChanged(s, r.store, Participants)
              && ParticipantFromDict(r.reply.value) == (r.reply.value.id, Participant(name.value, eventId.value))
    ensures Valid(s) ==> Valid(r.store)
  {
    if eventId.None? || eventId.value !in s.events.rows then Step(s, Missing)
    else
      match NewParticipant(name, eventId.value)
      case Err(e) => Step(s, Raised(e))
      case Ok(p) =>
        var ins := InsertParticipant(s, p);
        Step(ins.0, Done(ParticipantToDict(ins.1, p)))
  }

  /** `update`: `None` for an unknown id; otherwise the name goes through its setter, so
      `None` or `""` raises and nothing changes. The event link is kept. */
  function Update(s: Store, k: int, newName: Text): (r: Step<ParticipantRecord>)
    ensures r.reply.Missing? <==> k !in s.participants.rows
    ensures k in s.participants.rows ==> (r.reply.Done? <==> Truthy(newName))
    ensures r.reply.Raised? ==> r.reply.error == EmptyParticipantName
    ensures !r.reply.Done? ==> r.store == s
    ensures r.reply.Done? ==>
              && r.store.participants.rows == s.participants.rows[k := s.participants.rows[k].(name := newName.value)]
              && r.store.participants.next == s.participants.next
              && OnlyChanged(s, r.store, Participants)
              && ParticipantFromDict(r.reply.value) == (k, r.store.participants.rows[k])
    ensures Valid(s) ==> Valid(r.store)
  {
    if k !in s.participants.rows then Step(s, Missing)
    else
      match SetParticipantName(s.participants.rows[k], newName)
      case Err(e) => Step(s, Raised(e))
      case Ok(p) => Step(PutParticipant(s, k, p), Done(ParticipantToDict(k, p)))
  }

  /** `delete`: `False` for an unknown id; otherwise that one row goes. */
  function Delete(s: Store, k: int): (r: Step<bool>)
    ensures r.reply == Done(k in s.participants.rows)
    ensures k !in s.participants.rows ==> r.store == s
    ensures r.store.participants.rows == s.participants.rows - {k}
    ensures OnlyChanged(s, r.store, Participants)
    ensures Valid(s) ==> Valid(r.store)
  {
    if k !in s.participants.rows then Step(s, Done(false))
    else Step(RemoveParticipant(s, k), Done(true))
  }

  /** `get_attendees`: `None` for an unknown event, otherwise the dictionaries of exactly
      its participants. Read only. */
  function GetAttendees(s: Store, eventId: int): (r: Reply<seq<ParticipantRecord>>)
    ensures r.Missing? <==> eventId !in s.events.rows
    ensures !r.Raised?
    ensures r.Done? ==> ParticipantRecordsOf(r.value, s.participants, eventId)
  {
    if eventId !in s.events.rows then Missing else Done(ParticipantsOf(s, eventId))
  }

  // ------------------------------------------------------------------ laws

  /** A participant just created is listed among its event's attendees. */
  lemma CreatedIsListed(s: Store, eventId: int, name: Text)
    requires Valid(s) && eventId in s.events.rows && Truthy(name)
    ensures var r := Create(s, Some(eventId), name);
            && r.reply.Done?
            && GetAttendees(r.store, eventId).Done?
            && r.reply.value in GetAttendees(r.store, eventId).value
  {
    var r := Create(s, Some(eventId), name);
    var k := r.reply.value.id;
    var listed := GetAttendees(r.store, eventId).value;
    assert r.store.participants.rows[k].eventId == eventId;
    var j :| 0 <= j < |listed| && listed[j].id == k;
    assert listed[j] == ParticipantToDict(k, r.store.participants.rows[k]);
  }

  /** A deleted participant is no longer listed under any event. */
  lemma DeletedIsNotListed(s: Store, k: int, eventId: int)
    requires eventId in s.events.rows
    ensures var after := GetAttendees(Delete(s, k).store, eventId);
            after.Done? && forall j :: 0 <= j < |after.value| ==> after.value[j].id != k
  {
  }

  /** Renaming a participant keeps it under the same event, in the same listing. */
  lemma UpdateKeepsEvent(s: Store, k: int, newName: Text)
    requires k in s.participants.rows && Truthy(newName)
    ensures var r := Update(s, k, newName);
            r.reply.Done? && r.reply.value.eventId == s.participants.rows[k].eventId && r.reply.value.name == newName.value
  {
  }
}
