/** The repository-based feedback service (src/services/feedback_service.py). `create`,
    `update` and `delete` do what the session-based service does (FeedbackService); only
    the argument order of `create` differs. `get_feedback` lists an event's feedback,
    labelled "Feedback <id>" and naming the event. */
module RepoFeedbackService {
  import opened Common
  import opened Strings
  import opened ChildEntities
  import opened Storage

  /** One entry of `get_feedback`: the feedback's columns, a `display_name` of the form
      "Feedback <id>", and the name of the event. */
  datatype FeedbackEntry = FeedbackEntry(id: int, displayName: string, content: string, eventId: int, eventName: string)

  function EntryOf(x: FeedbackRecord, eventName: string): (e: FeedbackEntry)
    ensures EntryRecord(e) == x
    ensures e.displayName == FeedbackLabel(x.id) && e.eventName == eventName
  {
    FeedbackEntry(x.id, FeedbackLabel(x.id), x.content, x.eventId, eventName)
  }

  /** Drops the two added keys, giving back the feedback's own dictionary. */
  function EntryRecord(e: FeedbackEntry): FeedbackRecord {
    FeedbackRecord(e.id, e.content, e.eventId)
  }

  function EntryRecords(r: seq<FeedbackEntry>): (xs: seq<FeedbackRecord>)
    ensures |xs| == |r| && forall j :: 0 <= j < |r| ==> xs[j] == EntryRecord(r[j])
  {
    seq(|r|, j requires 0 <= j < |r| => EntryRecord(r[j]))
  }

  function Entries(xs: seq<FeedbackRecord>, eventName: string): (r: seq<FeedbackEntry>)
    ensures EntryRecords(r) == xs
    ensures forall j :: 0 <= j < |r| ==> r[j].eventName == eventName && r[j].displayName == FeedbackLabel(r[j].id)
  {
    var r := seq(|xs|, j requires 0 <= j < |xs| => EntryOf(xs[j], eventName));
    assert EntryRecords(r) == xs;
    r
  }

  /** `get_feedback`: `None` for an unknown event; otherwise one entry per feedback of
      that event, each naming the event. Read only. */
  function GetFeedback(s: Store, eventId: int): (r: Reply<seq<FeedbackEntry>>)
    ensures r.Missing? <==> eventId !in s.events.rows
    ensures !r.Raised?
    ensures r.Done? ==> FeedbackRecordsOf(EntryRecords(r.value), s.feedbacks, eventId)
    ensures r.Done? ==> forall j :: 0 <= j < |r.value| ==>
              r.value[j].eventName == s.events.rows[eventId].name
              && r.value[j].displayName == FeedbackLabel(r.value[j].id)
  {
    if eventId !in s.events.rows then Missing
    else Done(Entries(FeedbacksOf(s, eventId), s.events.rows[eventId].name))
  }

  // ------------------------------------------------------------------ laws

  /** No two feedback entries of an event share a label. */
  lemma {:induction false} LabelsDistinct(s: Store, eventId: int)
    requires eventId in s.events.rows
    ensures var r := GetFeedback(s, eventId).value;
            forall i, j :: 0 <= i < j < |r| ==> r[i].displayName != r[j].displayName
  {
    var r := GetFeedback(s, eventId).value;
    var xs := EntryRecords(r);
    forall i, j | 0 <= i < j < |r| ensures r[i].displayName != r[j].displayName {
      assert xs[i].id < xs[j].id;
      if r[i].displayName == r[j].displayName {
        FeedbackLabelInjective(r[i].id, r[j].id);
      }
    }
  }
}
