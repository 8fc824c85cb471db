/** The entity factory (src/factory/entity_factory.py): one static builder per entity,
    each forwarding its arguments by keyword to the entity's constructor. Validation
    happens in the constructors' setters; the factory adds none and removes none. */
module EntityFactory {
  import opened Common
  import opened ChildEntities
  import opened EventEntity

  function CreateEvent(name: Text, date: Text, budget: int): (r: Result<Event>)
    ensures r.Ok? <==> Truthy(name) && Truthy(date) && budget >= 0
    ensures !Truthy(name) ==> r == Err(EmptyEventName)
    ensures Truthy(name) && !Truthy(date) ==> r == Err(EmptyEventDate)
    ensures Truthy(name) && Truthy(date) && budget < 0 ==> r == Err(NegativeBudget)
    ensures r.Ok? ==> r.value == Event(name.value, date.value, budget) && ValidEvent(r.value)
  {
    NewEvent(name := name, date := date, budget := budget)
  }

  function CreateParticipant(name: Text, eventId: int): (r: Result<Participant>)
    ensures r.Ok? <==> Truthy(name)
    ensures r.Err? ==> r.error == EmptyParticipantName
    ensures r.Ok? ==> r.value == Participant(name.value, eventId) && ValidParticipant(r.value)
  {
    NewParticipant(name := name, eventId := eventId)
  }

  function CreateFeedback(content: Text, eventId: int): (r: Result<Feedback>)
    ensures r.Ok? <==> Truthy(content)
    ensures r.Err? ==> r.error == EmptyFeedbackContent
    ensures r.Ok? ==> r.value == Feedback(content.value, eventId) && ValidFeedback(r.value)
  {
    NewFeedback(content := content, eventId := eventId)
  }

  function CreateSpeaker(name: Text, description: Text, eventId: int): (r: Result<Speaker>)
    ensures r.Ok? <==> Truthy(name)
    ensures r.Err? ==> r.error == EmptySpeakerName
    ensures r.Ok? ==> r.value == Speaker(name.value, description, eventId) && ValidSpeaker(r.value)
  {
    NewSpeaker(name := name, description := description, eventId := eventId)
  }

  function CreateVendor(name: Text, services: Text, eventId: int): (r: Result<Vendor>)
    ensures r.Ok? <==> Truthy(name)
    ensures r.Err? ==> r.error == EmptyVendorName
    ensures r.Ok? ==> r.value == Vendor(name.value, services, eventId) && ValidVendor(r.value)
  {
    NewVendor(name := name, services := services, eventId := eventId)
  }
}
