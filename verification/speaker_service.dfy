/** The session-based speaker service (services/speaker_service.py). Creation needs a stored
    event; an update only touches the fields given as non-blank text, so it never
    raises. */
module SpeakerService {
  import opened Common
  import opened Strings
  import opened Tables
  import opened ChildEntities
  import opened Storage

  /** `create`: `None` when no stored event has `eventId`; otherwise the constructor
      validates the name, stores `description` as given, and the speaker is inserted under a
      fresh id. */
  function Create(s: Store, eventId: Option<int>, name: Text, description: Text): (r: Step<SpeakerRecord>)
    ensures r.reply.Missing? <==> eventId.None? || eventId.value !in s.events.rows
    ensures !r.reply.Missing? ==> (r.reply.Done? <==> Truthy(name))
    ensures r.reply.Raised? ==> r.reply.error == EmptySpeakerName
    ensures !r.reply.Done? ==> r.store == s
    ensures r.reply.Done? ==>
              && (IdsFresh(s.speakers) ==> r.reply.value.id !in s.speakers.rows)
              && r.store.speakers.rows == s.speakers.rows[r.reply.value.id := Speaker(name.value, description, eventId.value)]
              && OnlyChanged(s, r.store, Speakers)
              && SpeakerFromDict(r.reply.value) == (r.reply.value.id, Speaker(name.value, description, eventId.value))
    ensures Valid(s) ==> Valid(r.store)
  {
    if eventId.None? || eventId.value !in s.events.rows then Step(s, Missing)
    else
      match NewSpeaker(name, description, eventId.value)
      case Err(e) => Step(s, Raised(e))
      case Ok(x) =>
        var ins := InsertSpeaker(s, x);
        Step(ins.0, Done(SpeakerToDict(ins.1, x)))
  }

  /** The two guarded assignments of `update`: each field changes only when its new
      value is supplied (`v and v.strip()`), and a supplied name always passes the
      setter. */
  function Revise(x: Speaker, newName: Text, newDescription: Text): (r: Speaker)
    ensures r.name == (if Supplied(newName) then newName.value else x.name)
    ensures r.description == (if Supplied(newDescription) then newDescription else x.description)
    ensures r.eventId == x.eventId
    ensures ValidSpeaker(x) ==> ValidSpeaker(r)
  {
    var named := if Supplied(newName) then SetSpeakerName(x, newName).value else x;
    if Supplied(newDescription) then SetDescription(named, newDescription) else named
  }

  /** `update`: `None` for an unknown id; otherwise the supplied fields are written.
      Blank or missing values leave their field alone, so nothing raises. */
  function Update(s: Store, k: int, newName: Text, newDescription: Text): (r: Step<SpeakerRecord>)
    ensures r.reply.Missing? <==> k !in s.speakers.rows
    ensures !r.reply.Raised?
    ensures !r.reply.Done? ==> r.store == s
    ensures r.reply.Done? ==>
              && r.store.speakers.rows == s.speakers.rows[k := Revise(s.speakers.rows[k], newName, newDescription)]
              && r.store.speakers.next == s.speakers.next
              && OnlyChanged(s, r.store, Speakers)
              && SpeakerFromDict(r.reply.value) == (k, r.store.speakers.rows[k])
    ensures Valid(s) ==> Valid(r.store)
  {
    if k !in s.speakers.rows then Step(s, Missing)
    else
      var x := Revise(s.speakers.rows[k], newName, newDescription);
      Step(PutSpeaker(s, k, x), Done(SpeakerToDict(k, x)))
  }

  /** `delete`: `False` for an unknown id; otherwise that one row goes. */
  function Delete(s: Store, k: int): (r: Step<bool>)
    ensures r.reply == Done(k in s.speakers.rows)
    ensures k !in s.speakers.rows ==> r.store == s
    ensures r.store.speakers.rows == s.speakers.rows - {k}
    ensures OnlyChanged(s, r.store, Speakers)
    ensures Valid(s) ==> Valid(r.store)
  {
    if k !in s.speakers.rows then Step(s, Done(false))
    else Step(RemoveSpeaker(s, k), Done(true))
  }

  /** `list_speakers`: `None` for an unknown event, otherwise the dictionaries of exactly
      its speakers. Read only. */
  function ListSpeakers(s: Store, eventId: int): (r: Reply<seq<SpeakerRecord>>)
    ensures r.Missing? <==> eventId !in s.events.rows
    ensures !r.Raised?
    ensures r.Done? ==> SpeakerRecordsOf(r.value, s.speakers, eventId)
  {
    if eventId !in s.events.rows then Missing else Done(SpeakersOf(s, eventId))
  }

  // ------------------------------------------------------------------ laws

  /** An update whose values are all blank or missing leaves the store as it was. */
  lemma BlankUpdateChangesNothing(s: Store, k: int, newName: Text, newDescription: Text)
    requires k in s.speakers.rows && !Supplied(newName) && !Supplied(newDescription)
    ensures Update(s, k, newName, newDescription).store == s
  {
    assert Update(s, k, newName, newDescription).store.speakers.rows == s.speakers.rows;
  }

  /** Repeating an update changes nothing more. */
  lemma UpdateIdempotent(s: Store, k: int, newName: Text, newDescription: Text)
    requires k in s.speakers.rows
    ensures var once := Update(s, k, newName, newDescription);
            Update(once.store, k, newName, newDescription) == once
  {
    var x := s.speakers.rows[k];
    assert Revise(Revise(x, newName, newDescription), newName, newDescription) == Revise(x, newName, newDescription);
    var once := Update(s, k, newName, newDescription);
    assert Update(once.store, k, newName, newDescription).store.speakers.rows == once.store.speakers.rows;
  }

  /** A speaker just created is listed under its event. */
  lemma CreatedIsListed(s: Store, eventId: int, name: Text, description: Text)
    requires Valid(s) && eventId in s.events.rows && Truthy(name)
    ensures var r := Create(s, Some(eventId), name, description);
            && r.reply.Done?
            && ListSpeakers(r.store, eventId).Done?
            && r.reply.value in ListSpeakers(r.store, eventId).value
  {
    var r := Create(s, Some(eventId), name, description);
    var k := r.reply.value.id;
    var listed := ListSpeakers(r.store, eventId).value;
    assert r.store.speakers.rows[k].eventId == eventId;
    var j :| 0 <= j < |listed| && listed[j].id == k;
    assert listed[j] == SpeakerToDict(k, r.store.speakers.rows[k]);
  }
}
