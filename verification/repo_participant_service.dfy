/** The repository-based participant service (src/services/participant_service.py).
    `update` and `delete` do what the session-based service does (ParticipantService);
    `create` raises where the session-based one answers `None`, and `get_attendees`
    adds a display name and the event's name to every entry. */
module RepoParticipantService {
  import opened Common
  import opened Strings
  import opened Tables
  import opened ChildEntities
  import opened EventEntity
  import opened Storage
  import EntityFactory
  import ParticipantService

  /** `create`: an absent event id raises "invalid id", an id no stored event has raises
      "not found"; otherwise the factory builds the participant and the repository
      inserts it under a fresh id. */
  function Create(s: Store, eventId: Option<int>, name: Text): (r: Step<ParticipantRecord>)
    ensures eventId.None? ==> r.reply == Raised(InvalidEventId)
    ensures eventId.Some? && eventId.value !in s.events.rows ==> r.reply == Raised(EventNotFound)
    ensures eventId.Some? && eventId.value in s.events.rows ==>
              (r.reply.Done? <==> Truthy(name)) && (!Truthy(name) ==> r.reply == Raised(EmptyParticipantName))
    ensures !r.reply.Missing?
    ensures !r.reply.Done? ==> r.store == s
    ensures r.reply.Done? ==>
              && (IdsFresh(s.participants) ==> r.reply.value.id !in s.participants.rows)
              && r.store.participants.rows == s.participants.rows[r.reply.value.id := Participant(name.value, eventId.value)]
              && OnlyChanged(s, r.store, Participants)
              && ParticipantFromDict(r.reply.value) == (r.reply.value.id, Participant(name.value, eventId.value))
    ensures Valid(s) ==> Valid(r.store)
  {
    if eventId.None? then Step(s, Raised(InvalidEventId))
    else if eventId.value !in s.events.rows then Step(s, Raised(EventNotFound))
    else
      match EntityFactory.CreateParticipant(name, eventId.value)
      case Err(e) => Step(s, Raised(e))
      case Ok(p) =>
        var ins := InsertParticipant(s, p);
        Step(ins.0, Done(ParticipantToDict(ins.1, p)))
  }

  /** One entry of `get_attendees`: the participant's columns, a `display_name` of the
      form "<id>: <name>", and the name of the event. */
  datatype Attendee = Attendee(id: int, displayName: string, name: string, eventId: int, eventName: string)

  function AttendeeOf(p: ParticipantRecord, eventName: string): (a: Attendee)
    ensures AttendeeRecord(a) == p
    ensures a.displayName == DisplayName(p.id, p.name) && a.eventName == eventName
  {
    Attendee(p.id, DisplayName(p.id, p.name), p.name, p.eventId, eventName)
  }

  /** Drops the two added keys, giving back the participant's own dictionary. */
  function AttendeeRecord(a: Attendee): ParticipantRecord {
    ParticipantRecord(a.id, a.name, a.eventId)
  }

  function AttendeeRecords(r: seq<Attendee>): (ps: seq<ParticipantRecord>)
    ensures |ps| == |r| && forall j :: 0 <= j < |r| ==> ps[j] == AttendeeRecord(r[j])
  {
    seq(|r|, j requires 0 <= j < |r| => AttendeeRecord(r[j]))
  }

  function Attendees(ps: seq<ParticipantRecord>, eventName: string): (r: seq<Attendee>)
    ensures AttendeeRecords(r) == ps
    ensures forall j :: 0 <= j < |r| ==> r[j].eventName == eventName && r[j].displayName == DisplayName(r[j].id, r[j].name)
  {
    var r := seq(|ps|, j requires 0 <= j < |ps| => AttendeeOf(ps[j], eventName));
    assert AttendeeRecords(r) == ps;
    r
  }

  /** `get_attendees`: `None` for an unknown event; otherwise one entry per participant
      of that event, each naming the event. Read only. */
  function GetAttendees(s: Store, eventId: int): (r: Reply<seq<Attendee>>)
    ensures r.Missing? <==> eventId !in s.events.rows
    ensures !r.Raised?
    ensures r.Done? ==> ParticipantRecordsOf(AttendeeRecords(r.value), s.participants, eventId)
    ensures r.Done? ==> forall j :: 0 <= j < |r.value| ==>
              r.value[j].eventName == s.events.rows[eventId].name
              && r.value[j].displayName == DisplayName(r.value[j].id, r.value[j].name)
  {
    if eventId !in s.events.rows then Missing
    else Done(Attendees(ParticipantsOf(s, eventId), s.events.rows[eventId].name))
  }

  // ------------------------------------------------------------------ laws

  /** The two `create`s write the same store; they differ only in how they refuse an
      event id: the session-based one answers `None`, this one raises. */
  lemma CreateAgreesWithSessionCreate(s: Store, eventId: Option<int>, name: Text)
    ensures var r := Create(s, eventId, name);
            var q := ParticipantService.Create(s, eventId, name);
            && r.store == q.store
            && (q.reply.Missing? ==> r.reply == Raised(if eventId.None? then InvalidEventId else EventNotFound))
            && (!q.reply.Missing? ==> r.reply == q.reply)
  {
  }

  /** No two attendees of an event share a display name. */
  lemma {:induction false} AttendeeDisplayNamesDistinct(s: Store, eventId: int)
    requires eventId in s.events.rows
    ensures var r := GetAttendees(s, eventId).value;
            forall i, j :: 0 <= i < j < |r| ==> r[i].displayName != r[j].displayName
  {
    var r := GetAttendees(s, eventId).value;
    var ps := AttendeeRecords(r);
    forall i, j | 0 <= i < j < |r| ensures r[i].displayName != r[j].displayName {
      assert ps[i].id < ps[j].id;
      if r[i].displayName == r[j].displayName {
        DisplayNameInjective(r[i].id, r[i].name, r[j].id, r[j].name);
      }
    }
  }
}
