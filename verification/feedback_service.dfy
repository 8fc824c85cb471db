/** The session-based feedback service (services/feedback_service.py). Feedback is
    created only under a stored event; its content is validated on creation and on
    every update. */
module FeedbackService {
  import opened Common
  import opened Tables
  import opened ChildEntities
  import opened Storage

  /** `create`: `None` when no stored event has `eventId`; otherwise the constructor
      validates the content and the feedback is inserted under a fresh id. */
  function Create(s: Store, eventId: Option<int>, content: Text): (r: Step<FeedbackRecord>)
    ensures r.reply.Missing? <==> eventId.None? || eventId.value !in s.events.rows
    ensures !r.reply.Missing? ==> (r.reply.Done? <==> Truthy(content))
    ensures r.reply.Raised? ==> r.reply.error == EmptyFeedbackContent
    ensures !r.reply.Done? ==> r.store == s
    ensures r.reply.Done? ==>
              && (IdsFresh(s.feedbacks) ==> r.reply.value.id !in s.feedbacks.rows)
              && r.store.feedbacks.rows == s.feedbacks.rows[r.reply.value.id := Feedback(content.value, eventId.value)]
              && OnlyChanged(s, r.store, Feedbacks)
              && FeedbackFromDict(r.reply.value) == (r.reply.value.id, Feedback(content.value, eventId.value))
    ensures Valid(s) ==> Valid(r.store)
  {
    if eventId.None? || eventId.value !in s.events.rows then Step(s, Missing)
    else
      match NewFeedback(content, eventId.value)
      case Err(e) => Step(s, Raised(e))
      case Ok(f) =>
        var ins := InsertFeedback(s, f);
        Step(ins.0, Done(FeedbackToDict(ins.1, f)))
  }

  /** `update`: `None` for an unknown id; otherwise the content goes through its setter,
      so `None` or `""` raises and nothing changes. */
  function Update(s: Store, k: int, content: Text): (r: Step<FeedbackRecord>)
    ensures r.reply.Missing? <==> k !in s.feedbacks.rows
    ensures k in s.feedbacks.rows ==> (r.reply.Done? <==> Truthy(content))
    ensures r.reply.Raised? ==> r.reply.error == EmptyFeedbackContent
    ensures !r.reply.Done? ==> r.store == s
    ensures r.reply.Done? ==>
              && r.store.feedbacks.rows == s.feedbacks.rows[k := s.feedbacks.rows[k].(content := content.value)]
              && r.store.feedbacks.next == s.feedbacks.next
              && OnlyChanged(s, r.store, Feedbacks)
              && FeedbackFromDict(r.reply.value) == (k, r.store.feedbacks.rows[k])
    ensures Valid(s) ==> Valid(r.store)
  {
    if k !in s.feedbacks.rows then Step(s, Missing)
    else
      match SetContent(s.feedbacks.rows[k], content)
      case Err(e) => Step(s, Raised(e))
      case Ok(f) => Step(PutFeedback(s, k, f), Done(FeedbackToDict(k, f)))
  }

  /** `delete`: `False` for an unknown id; otherwise that one row goes. */
  function Delete(s: Store, k: int): (r: Step<bool>)
    ensures r.reply == Done(k in s.feedbacks.rows)
    ensures k !in s.feedbacks.rows ==> r.store == s
    ensures r.store.feedbacks.rows == s.feedbacks.rows - {k}
    ensures OnlyChanged(s, r.store, Feedbacks)
    ensures Valid(s) ==> Valid(r.store)
  {
    if k !in s.feedbacks.rows then Step(s, Done(false))
    else Step(RemoveFeedback(s, k), Done(true))
  }

  // ------------------------------------------------------------------ laws

  /** Feedback just created appears in its event's `feedbacks` collection. */
  lemma CreatedIsInEventFeedbacks(s: Store, eventId: int, content: Text)
    requires Valid(s) && eventId in s.events.rows && Truthy(content)
    ensures var r := Create(s, Some(eventId), content);
            r.reply.Done? && r.reply.value in FeedbacksOf(r.store, eventId)
  {
    var r := Create(s, Some(eventId), content);
    var k := r.reply.value.id;
    var listed := FeedbacksOf(r.store, eventId);
    assert r.store.feedbacks.rows[k].eventId == eventId;
    var j :| 0 <= j < |listed| && listed[j].id == k;
    assert listed[j] == FeedbackToDict(k, r.store.feedbacks.rows[k]);
  }

  /** Updating with the content already stored leaves the store as it was. */
  lemma SameContentChangesNothing(s: Store, k: int)
    requires k in s.feedbacks.rows && ValidFeedback(s.feedbacks.rows[k])
    ensures Update(s, k, Some(s.feedbacks.rows[k].content)).store == s
  {
    assert Update(s, k, Some(s.feedbacks.rows[k].content)).store.feedbacks.rows == s.feedbacks.rows;
  }
}
