/** The four records an event owns (models/participant.py, models/speaker.py,
    models/vendor.py, models/feedback.py). Each validated field is checked by its
    setter, on construction and on every later assignment; the foreign key is stored
    as given, and `to_dict` serialises exactly the columns. Ids are not part of an
    entity: the table that stores it assigns them. */
module ChildEntities {
  import opened Common

  // ---------------------------------------------------------------- Participant

  datatype Participant = Participant(name: string, eventId: int)

  predicate ValidParticipant(p: Participant) {
    |p.name| > 0
  }

  /** The event a participant belongs to, as a function value for table queries. */
  function ParticipantOwner(p: Participant): int {
    p.eventId
  }

  /** The `name` setter: refuses `None` and `""`, raising before anything is stored. */
  function SetParticipantName(p: Participant, value: Text): (r: Result<Participant>)
    ensures r.Ok? <==> Truthy(value)
    ensures r.Err? ==> r.error == EmptyParticipantName
    ensures r.Ok? ==> r.value.name == value.value && r.value.eventId == p.eventId
    ensures r.Ok? ==> ValidParticipant(r.value)
  {
    if !Truthy(value) then Err(EmptyParticipantName) else Ok(p.(name := value.value))
  }

  /** The constructor: assigns the name through its setter, then stores `event_id` as
      given; it does not look for the parent event. */
  function NewParticipant(name: Text, eventId: int): (r: Result<Participant>)
    ensures r.Ok? <==> Truthy(name)
    ensures r.Err? ==> r.error == EmptyParticipantName
    ensures r.Ok? ==> r.value == Participant(name.value, eventId) && ValidParticipant(r.value)
  {
    match SetParticipantName(Participant("", eventId), name)
    case Err(e) => Err(e)
    case Ok(p) => Ok(p.(eventId := eventId))
  }

  /** `to_dict()`: exactly id, name and event_id. */
  datatype ParticipantRecord = ParticipantRecord(id: int, name: string, eventId: int)

  function ParticipantToDict(id: int, p: Participant): (r: ParticipantRecord)
    ensures ParticipantFromDict(r) == (id, p)
  {
    ParticipantRecord(id, p.name, p.eventId)
  }

  /** Reads a participant back from its dictionary. */
  function ParticipantFromDict(r: ParticipantRecord): (x: (int, Participant))
  {
    (r.id, Participant(r.name, r.eventId))
  }

  // ---------------------------------------------------------------- Speaker

  /** `description` is nullable and unvalidated, so it keeps Python's `str | None`. */
  datatype Speaker = Speaker(name: string, description: Text, eventId: int)

  predicate ValidSpeaker(s: Speaker) {
    |s.name| > 0
  }

  function SpeakerOwner(s: Speaker): int {
    s.eventId
  }

  /** The `name` setter: refuses `None` and `""`. */
  function SetSpeakerName(s: Speaker, value: Text): (r: Result<Speaker>)
    ensures r.Ok? <==> Truthy(value)
    ensures r.Err? ==> r.error == EmptySpeakerName
    ensures r.Ok? ==> r.value.name == value.value && r.value.description == s.description && r.value.eventId == s.eventId
    ensures r.Ok? ==> ValidSpeaker(r.value)
  {
    if !Truthy(value) then Err(EmptySpeakerName) else Ok(s.(name := value.value))
  }

  /** The `description` setter accepts anything, `None` and `""` included. */
  function SetDescription(s: Speaker, value: Text): (r: Speaker)
    ensures r.description == value && r.name == s.name && r.eventId == s.eventId
    ensures ValidSpeaker(s) ==> ValidSpeaker(r)
  {
    s.(description := value)
  }

  /** The constructor: fails only for an empty name, otherwise stores the three
      arguments verbatim. */
  function NewSpeaker(name: Text, description: Text, eventId: int): (r: Result<Speaker>)
    ensures r.Ok? <==> Truthy(name)
    ensures r.Err? ==> r.error == EmptySpeakerName
    ensures r.Ok? ==> r.value == Speaker(name.value, description, eventId) && ValidSpeaker(r.value)
  {
    match SetSpeakerName(Speaker("", None, eventId), name)
    case Err(e) => Err(e)
    case Ok(s) => Ok(SetDescription(s, description).(eventId := eventId))
  }

  /** `to_dict()`: exactly id, name, description and event_id. */
  datatype SpeakerRecord = SpeakerRecord(id: int, name: string, description: Text, eventId: int)

  function SpeakerToDict(id: int, s: Speaker): (r: SpeakerRecord)
    ensures SpeakerFromDict(r) == (id, s)
  {
    SpeakerRecord(id, s.name, s.description, s.eventId)
  }

  function SpeakerFromDict(r: SpeakerRecord): (x: (int, Speaker))
  {
    (r.id, Speaker(r.name, r.description, r.eventId))
  }

  // ---------------------------------------------------------------- Vendor

  /** `services` is nullable and unvalidated. */
  datatype Vendor = Vendor(name: string, services: Text, eventId: int)

  predicate ValidVendor(v: Vendor) {
    |v.name| > 0
  }

  function VendorOwner(v: Vendor): int {
    v.eventId
  }

  /** The `name` setter: refuses `None` and `""`. */
  function SetVendorName(v: Vendor, value: Text): (r: Result<Vendor>)
    ensures r.Ok? <==> Truthy(value)
    ensures r.Err? ==> r.error == EmptyVendorName
    ensures r.Ok? ==> r.value.name == value.value && r.value.services == v.services && r.value.eventId == v.eventId
    ensures r.Ok? ==> ValidVendor(r.value)
  {
    if !Truthy(value) then Err(EmptyVendorName) else Ok(v.(name := value.value))
  }

  /** The `services` setter accepts anything, `None` and `""` included. */
  function SetServices(v: Vendor, value: Text): (r: Vendor)
    ensures r.services == value && r.name == v.name && r.eventId == v.eventId
    ensures ValidVendor(v) ==> ValidVendor(r)
  {
    v.(services := value)
  }

  /** The constructor: fails only for an empty name. */
  function NewVendor(name: Text, services: Text, eventId: int): (r: Result<Vendor>)
    ensures r.Ok? <==> Truthy(name)
    ensures r.Err? ==> r.error == EmptyVendorName
    ensures r.Ok? ==> r.value == Vendor(name.value, services, eventId) && ValidVendor(r.value)
  {
    match SetVendorName(Vendor("", None, eventId), name)
    case Err(e) => Err(e)
    case Ok(v) => Ok(SetServices(v, services).(eventId := eventId))
  }

  /** `to_dict()`: exactly id, name, services and event_id. */
  datatype VendorRecord = VendorRecord(id: int, name: string, services: Text, eventId: int)

  function VendorToDict(id: int, v: Vendor): (r: VendorRecord)
    ensures VendorFromDict(r) == (id, v)
  {
    VendorRecord(id, v.name, v.services, v.eventId)
  }

  function VendorFromDict(r: VendorRecord): (x: (int, Vendor))
  {
    (r.id, Vendor(r.name, r.services, r.eventId))
  }

  // ---------------------------------------------------------------- Feedback

  datatype Feedback = Feedback(content: string, eventId: int)

  predicate ValidFeedback(f: Feedback) {
    |f.content| > 0
  }

  function FeedbackOwner(f: Feedback): int {
    f.eventId
  }

  /** The `content` setter: refuses `None` and `""`. */
  function SetContent(f: Feedback, value: Text): (r: Result<Feedback>)
    ensures r.Ok? <==> Truthy(value)
    ensures r.Err? ==> r.error == EmptyFeedbackContent
    ensures r.Ok? ==> r.value.content == value.value && r.value.eventId == f.eventId
    ensures r.Ok? ==> ValidFeedback(r.value)
  {
    if !Truthy(value) then Err(EmptyFeedbackContent) else Ok(f.(content := value.value))
  }

  /** The constructor: content through its setter, `event_id` as given. */
  function NewFeedback(content: Text, eventId: int): (r: Result<Feedback>)
    ensures r.Ok? <==> Truthy(content)
    ensures r.Err? ==> r.error == EmptyFeedbackContent
    ensures r.Ok? ==> r.value == Feedback(content.value, eventId) && ValidFeedback(r.value)
  {
    match SetContent(Feedback("", eventId), content)
    case Err(e) => Err(e)
    case Ok(f) => Ok(f.(eventId := eventId))
  }

  /** `to_dict()`: exactly id, content and event_id. */
  datatype FeedbackRecord = FeedbackRecord(id: int, content: string, eventId: int)

  function FeedbackToDict(id: int, f: Feedback): (r: FeedbackRecord)
    ensures FeedbackFromDict(r) == (id, f)
  {
    FeedbackRecord(id, f.content, f.eventId)
  }

  function FeedbackFromDict(r: FeedbackRecord): (x: (int, Feedback))
  {
    (r.id, Feedback(r.content, r.eventId))
  }
}
