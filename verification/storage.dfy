/** The relational store both service layers work against: one table per entity
    (events, participants, speakers, vendors, feedbacks), each child row carrying the
    id of its event. A service call maps a store to a new store and a reply; a call
    that raises rolls its session back, so it hands back the store it was given. */
module Storage {
  import opened Common
  import opened Tables
  import opened ChildEntities
  import opened EventEntity

  datatype Store = Store(
    events: Table<Event>,
    participants: Table<Participant>,
    speakers: Table<Speaker>,
    vendors: Table<Vendor>,
    feedbacks: Table<Feedback>)

  /** The outcome of one service call: the store after it, and what it answered. */
  datatype Step<T> = Step(store: Store, reply: Reply<T>)

  predicate AllIdsFresh(s: Store) {
    && IdsFresh(s.events)
    && IdsFresh(s.participants)
    && IdsFresh(s.speakers)
    && IdsFresh(s.vendors)
    && IdsFresh(s.feedbacks)
  }

  /** The field rules of the entities hold for every stored row. */
  predicate FieldsValid(s: Store) {
    && (forall k :: k in s.events.rows ==> ValidEvent(s.events.rows[k]))
    && (forall k :: k in s.participants.rows ==> ValidParticipant(s.participants.rows[k]))
    && (forall k :: k in s.speakers.rows ==> ValidSpeaker(s.speakers.rows[k]))
    && (forall k :: k in s.vendors.rows ==> ValidVendor(s.vendors.rows[k]))
    && (forall k :: k in s.feedbacks.rows ==> ValidFeedback(s.feedbacks.rows[k]))
  }

  /** Referential integrity: every child row names a stored event (the NOT NULL
      foreign keys to `events.id`). */
  predicate Linked(s: Store) {
    && (forall k :: k in s.participants.rows ==> s.participants.rows[k].eventId in s.events.rows)
    && (forall k :: k in s.speakers.rows ==> s.speakers.rows[k].eventId in s.events.rows)
    && (forall k :: k in s.vendors.rows ==> s.vendors.rows[k].eventId in s.events.rows)
    && (forall k :: k in s.feedbacks.rows ==> s.feedbacks.rows[k].eventId in s.events.rows)
  }

  /** The invariant every service operation preserves. */
  predicate Valid(s: Store) {
    AllIdsFresh(s) && FieldsValid(s) && Linked(s)
  }

  function EmptyStore(): (s: Store)
    ensures Valid(s)
    ensures s.events.rows == map[] && s.participants.rows == map[] && s.speakers.rows == map[]
    ensures s.vendors.rows == map[] && s.feedbacks.rows == map[]
  {
    Store(EmptyTable(), EmptyTable(), EmptyTable(), EmptyTable(), EmptyTable())
  }

  datatype Kind = Events | Participants | Speakers | Vendors | Feedbacks

  /** `s'` differs from `s` at most in the table `changed`. */
  predicate OnlyChanged(s: Store, s': Store, changed: Kind) {
    && (changed != Events ==> s'.events == s.events)
    && (changed != Participants ==> s'.participants == s.participants)
    && (changed != Speakers ==> s'.speakers == s.speakers)
    && (changed != Vendors ==> s'.vendors == s.vendors)
    && (changed != Feedbacks ==> s'.feedbacks == s.feedbacks)
  }

  /** No child row of `s` names event `id`. */
  predicate NoChildOf(s: Store, id: int) {
    && (forall k :: k in s.participants.rows ==> s.participants.rows[k].eventId != id)
    && (forall k :: k in s.speakers.rows ==> s.speakers.rows[k].eventId != id)
    && (forall k :: k in s.vendors.rows ==> s.vendors.rows[k].eventId != id)
    && (forall k :: k in s.feedbacks.rows ==> s.feedbacks.rows[k].eventId != id)
  }

  /** Every child row of `s` that does not belong to event `id` is still in `s'`, unchanged. */
  predicate OtherChildrenKept(s: Store, s': Store, id: int) {
    && (forall k :: k in s.participants.rows && s.participants.rows[k].eventId != id ==>
          k in s'.participants.rows && s'.participants.rows[k] == s.participants.rows[k])
    && (forall k :: k in s.speakers.rows && s.speakers.rows[k].eventId != id ==>
          k in s'.speakers.rows && s'.speakers.rows[k] == s.speakers.rows[k])
    && (forall k :: k in s.vendors.rows && s.vendors.rows[k].eventId != id ==>
          k in s'.vendors.rows && s'.vendors.rows[k] == s.vendors.rows[k])
    && (forall k :: k in s.feedbacks.rows && s.feedbacks.rows[k].eventId != id ==>
          k in s'.feedbacks.rows && s'.feedbacks.rows[k] == s.feedbacks.rows[k])
  }

  /** Every child row of `s'` was already in `s`, as it was. */
  predicate NoNewChildren(s: Store, s': Store) {
    && (forall k :: k in s'.participants.rows ==> k in s.participants.rows && s'.participants.rows[k] == s.participants.rows[k])
    && (forall k :: k in s'.speakers.rows ==> k in s.speakers.rows && s'.speakers.rows[k] == s.speakers.rows[k])
    && (forall k :: k in s'.vendors.rows ==> k in s.vendors.rows && s'.vendors.rows[k] == s.vendors.rows[k])
    && (forall k :: k in s'.feedbacks.rows ==> k in s.feedbacks.rows && s'.feedbacks.rows[k] == s.feedbacks.rows[k])
  }

  /** Deleting an event row: the event goes, and with it (cascade "all, delete-orphan" in
      the mapping, ON DELETE CASCADE in the schema) every participant, speaker, vendor
      and feedback that names it; nothing else changes. */
  function DeleteEventCascade(s: Store, id: int): (r: Store)
    ensures r.events.rows == s.events.rows - {id}
    ensures NoChildOf(r, id)
    ensures OtherChildrenKept(s, r, id)
    ensures NoNewChildren(s, r)
    ensures Valid(s) ==> Valid(r)
  {
    var r := Cascaded(s, id);
    CascadeRemoves(s, id);
    CascadeKeepsOthers(s, id);
    CascadeAddsNothing(s, id);
    assert Valid(s) ==> Valid(r) by {
      if Valid(s) {
        CascadeKeepsValid(s, r, id);
      }
    }
    r
  }

  function Cascaded(s: Store, id: int): Store {
    Store(
      Delete(s.events, id),
      DeleteOwned(s.participants, ParticipantOwner, id),
      DeleteOwned(s.speakers, SpeakerOwner, id),
      DeleteOwned(s.vendors, VendorOwner, id),
      DeleteOwned(s.feedbacks, FeedbackOwner, id))
  }

  lemma CascadeRemoves(s: Store, id: int)
    ensures Cascaded(s, id).events.rows == s.events.rows - {id}
    ensures NoChildOf(Cascaded(s, id), id)
    ensures AllIdsFresh(s) ==> AllIdsFresh(Cascaded(s, id))
  {
  }

  lemma CascadeKeepsOthers(s: Store, id: int)
    ensures OtherChildrenKept(s, Cascaded(s, id), id)
  {
  }

  lemma CascadeAddsNothing(s: Store, id: int)
    ensures NoNewChildren(s, Cascaded(s, id))
  {
  }

  /** A store that keeps a valid store's rows, minus one event and every child naming
      it, is valid. */
  lemma CascadeKeepsValid(s: Store, r: Store, id: int)
    requires Valid(s) && AllIdsFresh(r)
    requires r.events.rows == s.events.rows - {id}
    requires NoChildOf(r, id) && NoNewChildren(s, r)
    ensures Valid(r)
  {
  }

  // ------------------------------------------------------------ writes

  /** Inserts a new event row: it gets a fresh id, no child names it yet, and a valid
      event keeps the store valid. */
  function InsertEvent(s: Store, ev: Event): (r: (Store, int))
    ensures IdsFresh(s.events) ==> r.1 !in s.events.rows
    ensures r.0.events.rows == s.events.rows[r.1 := ev]
    ensures OnlyChanged(s, r.0, Events)
    ensures Valid(s) ==> NoChildOf(r.0, r.1)
    ensures Valid(s) && ValidEvent(ev) ==> Valid(r.0)
  {
    var ins := Insert(s.events, ev);
    (s.(events := ins.0), ins.1)
  }

  /** Overwrites a stored event row; the children are untouched. */
  function PutEvent(s: Store, id: int, ev: Event): (r: Store)
    requires id in s.events.rows
    ensures r.events.rows == s.events.rows[id := ev] && r.events.next == s.events.next
    ensures OnlyChanged(s, r, Events)
    ensures Valid(s) && ValidEvent(ev) ==> Valid(r)
  {
    s.(events := Put(s.events, id, ev))
  }

  /** Inserts a participant row under a fresh id; it keeps the store valid when the
      participant is valid and names a stored event. */
  function InsertParticipant(s: Store, p: Participant): (r: (Store, int))
    ensures IdsFresh(s.participants) ==> r.1 !in s.participants.rows
    ensures r.0.participants.rows == s.participants.rows[r.1 := p]
    ensures OnlyChanged(s, r.0, Participants)
    ensures Valid(s) && ValidParticipant(p) && p.eventId in s.events.rows ==> Valid(r.0)
  {
    var ins := Insert(s.participants, p);
    (s.(participants := ins.0), ins.1)
  }

  /** Overwrites a stored participant row. */
  function PutParticipant(s: Store, k: int, p: Participant): (r: Store)
    requires k in s.participants.rows
    ensures r.participants.rows == s.participants.rows[k := p]
    ensures OnlyChanged(s, r, Participants)
    ensures Valid(s) && ValidParticipant(p) && p.eventId in s.events.rows ==> Valid(r)
  {
    s.(participants := Put(s.participants, k, p))
  }

  /** Deletes a participant row; nothing refers to it, so the store stays valid. */
  function RemoveParticipant(s: Store, k: int): (r: Store)
    ensures r.participants.rows == s.participants.rows - {k}
    ensures OnlyChanged(s, r, Participants)
    ensures Valid(s) ==> Valid(r)
  {
    s.(participants := Delete(s.participants, k))
  }

  function InsertSpeaker(s: Store, x: Speaker): (r: (Store, int))
    ensures IdsFresh(s.speakers) ==> r.1 !in s.speakers.rows
    ensures r.0.speakers.rows == s.speakers.rows[r.1 := x]
    ensures OnlyChanged(s, r.0, Speakers)
    ensures Valid(s) && ValidSpeaker(x) && x.eventId in s.events.rows ==> Valid(r.0)
  {
    var ins := Insert(s.speakers, x);
    (s.(speakers := ins.0), ins.1)
  }

  function PutSpeaker(s: Store, k: int, x: Speaker): (r: Store)
    requires k in s.speakers.rows
    ensures r.speakers.rows == s.speakers.rows[k := x]
    ensures OnlyChanged(s, r, Speakers)
    ensures Valid(s) && ValidSpeaker(x) && x.eventId in s.events.rows ==> Valid(r)
  {
    s.(speakers := Put(s.speakers, k, x))
  }

  function RemoveSpeaker(s: Store, k: int): (r: Store)
    ensures r.speakers.rows == s.speakers.rows - {k}
    ensures OnlyChanged(s, r, Speakers)
    ensures Valid(s) ==> Valid(r)
  {
    s.(speakers := Delete(s.speakers, k))
  }

  function InsertVendor(s: Store, x: Vendor): (r: (Store, int))
    ensures IdsFresh(s.vendors) ==> r.1 !in s.vendors.rows
    ensures r.0.vendors.rows == s.vendors.rows[r.1 := x]
    ensures OnlyChanged(s, r.0, Vendors)
    ensures Valid(s) && ValidVendor(x) && x.eventId in s.events.rows ==> Valid(r.0)
  {
    var ins := Insert(s.vendors, x);
    (s.(vendors := ins.0), ins.1)
  }

  function PutVendor(s: Store, k: int, x: Vendor): (r: Store)
    requires k in s.vendors.rows
    ensures r.vendors.rows == s.vendors.rows[k := x]
    ensures OnlyChanged(s, r, Vendors)
    ensures Valid(s) && ValidVendor(x) && x.eventId in s.events.rows ==> Valid(r)
  {
    s.(vendors := Put(s.vendors, k, x))
  }

  function RemoveVendor(s: Store, k: int): (r: Store)
    ensures r.vendors.rows == s.vendors.rows - {k}
    ensures OnlyChanged(s, r, Vendors)
    ensures Valid(s) ==> Valid(r)
  {
    s.(vendors := Delete(s.vendors, k))
  }

  function InsertFeedback(s: Store, x: Feedback): (r: (Store, int))
    ensures IdsFresh(s.feedbacks) ==> r.1 !in s.feedbacks.rows
    ensures r.0.feedbacks.rows == s.feedbacks.rows[r.1 := x]
    ensures OnlyChanged(s, r.0, Feedbacks)
    ensures Valid(s) && ValidFeedback(x) && x.eventId in s.events.rows ==> Valid(r.0)
  {
    var ins := Insert(s.feedbacks, x);
    (s.(feedbacks := ins.0), ins.1)
  }

  function PutFeedback(s: Store, k: int, x: Feedback): (r: Store)
    requires k in s.feedbacks.rows
    ensures r.feedbacks.rows == s.feedbacks.rows[k := x]
    ensures OnlyChanged(s, r, Feedbacks)
    ensures Valid(s) && ValidFeedback(x) && x.eventId in s.events.rows ==> Valid(r)
  {
    s.(feedbacks := Put(s.feedbacks, k, x))
  }

  function RemoveFeedback(s: Store, k: int): (r: Store)
    ensures r.feedbacks.rows == s.feedbacks.rows - {k}
    ensures OnlyChanged(s, r, Feedbacks)
    ensures Valid(s) ==> Valid(r)
  {
    s.(feedbacks := Delete(s.feedbacks, k))
  }

  // ------------------------------------------------------------ child collections

  /** `r` holds exactly the dictionaries of the participants in `t` that name event `id`, by
      increasing id (completeness needs the table's ids to be fresh). */
  predicate ParticipantRecordsOf(r: seq<ParticipantRecord>, t: Table<Participant>, id: int) {
    && (forall j :: 0 <= j < |r| ==>
          r[j].id in t.rows && ParticipantToDict(r[j].id, t.rows[r[j].id]) == r[j] && r[j].eventId == id)
    && (IdsFresh(t) ==> forall k :: k in t.rows && t.rows[k].eventId == id ==>
          exists j :: 0 <= j < |r| && r[j].id == k)
    && (forall i, j :: 0 <= i < j < |r| ==> r[i].id < r[j].id)
  }

  function ParticipantDicts(t: Table<Participant>, id: int): seq<ParticipantRecord>
  {
    var ids := OwnedIds(t, ParticipantOwner, id);
    seq(|ids|, j requires 0 <= j < |ids| => ParticipantToDict(ids[j], t.rows[ids[j]]))
  }

  lemma ParticipantDictsSorted(t: Table<Participant>, id: int)
    ensures var r := ParticipantDicts(t, id);
            && (forall j :: 0 <= j < |r| ==>
                  r[j].id in t.rows && ParticipantToDict(r[j].id, t.rows[r[j].id]) == r[j] && r[j].eventId == id)
            && (forall i, j :: 0 <= i < j < |r| ==> r[i].id < r[j].id)
  {
    var ids := OwnedIds(t, ParticipantOwner, id);
    var r := ParticipantDicts(t, id);
    assert forall j :: 0 <= j < |r| ==>
             r[j] == ParticipantToDict(ids[j], t.rows[ids[j]]) && r[j].id == ids[j] && r[j].eventId == ParticipantOwner(t.rows[ids[j]]);
  }

  lemma ParticipantDictsComplete(t: Table<Participant>, id: int)
    ensures var r := ParticipantDicts(t, id);
            IdsFresh(t) ==> forall k :: k in t.rows && t.rows[k].eventId == id ==>
              exists j :: 0 <= j < |r| && r[j].id == k
  {
    var ids := OwnedIds(t, ParticipantOwner, id);
    var r := ParticipantDicts(t, id);
    if IdsFresh(t) {
      forall k | k in t.rows && t.rows[k].eventId == id
        ensures exists j :: 0 <= j < |r| && r[j].id == k
      {
        assert ParticipantOwner(t.rows[k]) == id;
        var j :| 0 <= j < |ids| && ids[j] == k;
        assert r[j].id == k;
      }
    }
  }

  /** The dictionaries of event `id`'s participants, as the event's `participants` relationship
      yields them. */
  function ParticipantsOf(s: Store, id: int): (r: seq<ParticipantRecord>)
    ensures ParticipantRecordsOf(r, s.participants, id)
  {
    ParticipantDictsSorted(s.participants, id);
    ParticipantDictsComplete(s.participants, id);
    ParticipantDicts(s.participants, id)
  }

  /** `r` holds exactly the dictionaries of the speakers in `t` that name event `id`, by
      increasing id (completeness needs the table's ids to be fresh). */
  predicate SpeakerRecordsOf(r: seq<SpeakerRecord>, t: Table<Speaker>, id: int) {
    && (forall j :: 0 <= j < |r| ==>
          r[j].id in t.rows && SpeakerToDict(r[j].id, t.rows[r[j].id]) == r[j] && r[j].eventId == id)
    && (IdsFresh(t) ==> forall k :: k in t.rows && t.rows[k].eventId == id ==>
          exists j :: 0 <= j < |r| && r[j].id == k)
    && (forall i, j :: 0 <= i < j < |r| ==> r[i].id < r[j].id)
  }

  function SpeakerDicts(t: Table<Speaker>, id: int): seq<SpeakerRecord>
  {
    var ids := OwnedIds(t, SpeakerOwner, id);
    seq(|ids|, j requires 0 <= j < |ids| => SpeakerToDict(ids[j], t.rows[ids[j]]))
  }

  lemma SpeakerDictsSorted(t: Table<Speaker>, id: int)
    ensures var r := SpeakerDicts(t, id);
            && (forall j :: 0 <= j < |r| ==>
                  r[j].id in t.rows && SpeakerToDict(r[j].id, t.rows[r[j].id]) == r[j] && r[j].eventId == id)
            && (forall i, j :: 0 <= i < j < |r| ==> r[i].id < r[j].id)
  {
    var ids := OwnedIds(t, SpeakerOwner, id);
    var r := SpeakerDicts(t, id);
    assert forall j :: 0 <= j < |r| ==>
             r[j] == SpeakerToDict(ids[j], t.rows[ids[j]]) && r[j].id == ids[j] && r[j].eventId == SpeakerOwner(t.rows[ids[j]]);
  }

  lemma SpeakerDictsComplete(t: Table<Speaker>, id: int)
    ensures var r := SpeakerDicts(t, id);
            IdsFresh(t) ==> forall k :: k in t.rows && t.rows[k].eventId == id ==>
              exists j :: 0 <= j < |r| && r[j].id == k
  {
    var ids := OwnedIds(t, SpeakerOwner, id);
    var r := SpeakerDicts(t, id);
    if IdsFresh(t) {
      forall k | k in t.rows && t.rows[k].eventId == id
        ensures exists j :: 0 <= j < |r| && r[j].id == k
      {
        assert SpeakerOwner(t.rows[k]) == id;
        var j :| 0 <= j < |ids| && ids[j] == k;
        assert r[j].id == k;
      }
    }
  }

  /** The dictionaries of event `id`'s speakers, as the event's `speakers` relationship
      yields them. */
  function SpeakersOf(s: Store, id: int): (r: seq<SpeakerRecord>)
    ensures SpeakerRecordsOf(r, s.speakers, id)
  {
    SpeakerDictsSorted(s.speakers, id);
    SpeakerDictsComplete(s.speakers, id);
    SpeakerDicts(s.speakers, id)
  }

  /** `r` holds exactly the dictionaries of the vendors in `t` that name event `id`, by
      increasing id (completeness needs the table's ids to be fresh). */
  predicate VendorRecordsOf(r: seq<VendorRecord>, t: Table<Vendor>, id: int) {
    && (forall j :: 0 <= j < |r| ==>
          r[j].id in t.rows && VendorToDict(r[j].id, t.rows[r[j].id]) == r[j] && r[j].eventId == id)
    && (IdsFresh(t) ==> forall k :: k in t.rows && t.rows[k].eventId == id ==>
          exists j :: 0 <= j < |r| && r[j].id == k)
    && (forall i, j :: 0 <= i < j < |r| ==> r[i].id < r[j].id)
  }

  function VendorDicts(t: Table<Vendor>, id: int): seq<VendorRecord>
  {
    var ids := OwnedIds(t, VendorOwner, id);
    seq(|ids|, j requires 0 <= j < |ids| => VendorToDict(ids[j], t.rows[ids[j]]))
  }

  lemma VendorDictsSorted(t: Table<Vendor>, id: int)
    ensures var r := VendorDicts(t, id);
            && (forall j :: 0 <= j < |r| ==>
                  r[j].id in t.rows && VendorToDict(r[j].id, t.rows[r[j].id]) == r[j] && r[j].eventId == id)
            && (forall i, j :: 0 <= i < j < |r| ==> r[i].id < r[j].id)
  {
    var ids := OwnedIds(t, VendorOwner, id);
    var r := VendorDicts(t, id);
    assert forall j :: 0 <= j < |r| ==>
             r[j] == VendorToDict(ids[j], t.rows[ids[j]]) && r[j].id == ids[j] && r[j].eventId == VendorOwner(t.rows[ids[j]]);
  }

  lemma VendorDictsComplete(t: Table<Vendor>, id: int)
    ensures var r := VendorDicts(t, id);
            IdsFresh(t) ==> forall k :: k in t.rows && t.rows[k].eventId == id ==>
              exists j :: 0 <= j < |r| && r[j].id == k
  {
    var ids := OwnedIds(t, VendorOwner, id);
    var r := VendorDicts(t, id);
    if IdsFresh(t) {
      forall k | k in t.rows && t.rows[k].eventId == id
        ensures exists j :: 0 <= j < |r| && r[j].id == k
      {
        assert VendorOwner(t.rows[k]) == id;
        var j :| 0 <= j < |ids| && ids[j] == k;
        assert r[j].id == k;
      }
    }
  }

  /** The dictionaries of event `id`'s vendors, as the event's `vendors` relationship
      yields them. */
  function VendorsOf(s: Store, id: int): (r: seq<VendorRecord>)
    ensures VendorRecordsOf(r, s.vendors, id)
  {
    VendorDictsSorted(s.vendors, id);
    VendorDictsComplete(s.vendors, id);
    VendorDicts(s.vendors, id)
  }

  /** `r` holds exactly the dictionaries of the feedbacks in `t` that name event `id`, by
      increasing id (completeness needs the table's ids to be fresh). */
  predicate FeedbackRecordsOf(r: seq<FeedbackRecord>, t: Table<Feedback>, id: int) {
    && (forall j :: 0 <= j < |r| ==>
          r[j].id in t.rows && FeedbackToDict(r[j].id, t.rows[r[j].id]) == r[j] && r[j].eventId == id)
    && (IdsFresh(t) ==> forall k :: k in t.rows && t.rows[k].eventId == id ==>
          exists j :: 0 <= j < |r| && r[j].id == k)
    && (forall i, j :: 0 <= i < j < |r| ==> r[i].id < r[j].id)
  }

  function FeedbackDicts(t: Table<Feedback>, id: int): seq<FeedbackRecord>
  {
    var ids := OwnedIds(t, FeedbackOwner, id);
    seq(|ids|, j requires 0 <= j < |ids| => FeedbackToDict(ids[j], t.rows[ids[j]]))
  }

  lemma FeedbackDictsSorted(t: Table<Feedback>, id: int)
    ensures var r := FeedbackDicts(t, id);
            && (forall j :: 0 <= j < |r| ==>
                  r[j].id in t.rows && FeedbackToDict(r[j].id, t.rows[r[j].id]) == r[j] && r[j].eventId == id)
            && (forall i, j :: 0 <= i < j < |r| ==> r[i].id < r[j].id)
  {
    var ids := OwnedIds(t, FeedbackOwner, id);
    var r := FeedbackDicts(t, id);
    assert forall j :: 0 <= j < |r| ==>
             r[j] == FeedbackToDict(ids[j], t.rows[ids[j]]) && r[j].id == ids[j] && r[j].eventId == FeedbackOwner(t.rows[ids[j]]);
  }

  lemma FeedbackDictsComplete(t: Table<Feedback>, id: int)
    ensures var r := FeedbackDicts(t, id);
            IdsFresh(t) ==> forall k :: k in t.rows && t.rows[k].eventId == id ==>
              exists j :: 0 <= j < |r| && r[j].id == k
  {
    var ids := OwnedIds(t, FeedbackOwner, id);
    var r := FeedbackDicts(t, id);
    if IdsFresh(t) {
      forall k | k in t.rows && t.rows[k].eventId == id
        ensures exists j :: 0 <= j < |r| && r[j].id == k
      {
        assert FeedbackOwner(t.rows[k]) == id;
        var j :| 0 <= j < |ids| && ids[j] == k;
        assert r[j].id == k;
      }
    }
  }

  /** The dictionaries of event `id`'s feedbacks, as the event's `feedbacks` relationship
      yields them. */
  function FeedbacksOf(s: Store, id: int): (r: seq<FeedbackRecord>)
    ensures FeedbackRecordsOf(r, s.feedbacks, id)
  {
    FeedbackDictsSorted(s.feedbacks, id);
    FeedbackDictsComplete(s.feedbacks, id);
    FeedbackDicts(s.feedbacks, id)
  }

  /** The four collections of event `id`, each serialised by the child's own `to_dict`:
      each lists exactly the event's children of its kind. */
  function RelationsOf(s: Store, id: int): (r: Relations)
    ensures ParticipantRecordsOf(r.participants, s.participants, id)
    ensures SpeakerRecordsOf(r.speakers, s.speakers, id)
    ensures VendorRecordsOf(r.vendors, s.vendors, id)
    ensures FeedbackRecordsOf(r.feedbacks, s.feedbacks, id)
  {
    Relations(ParticipantsOf(s, id), SpeakersOf(s, id), VendorsOf(s, id), FeedbacksOf(s, id))
  }

  /** An event no child names has four empty collections. */
  lemma NoChildrenNoRelations(s: Store, id: int)
    requires NoChildOf(s, id)
    ensures RelationsOf(s, id) == NoRelations
  {
    NoneOwnedNoIds(s.participants, ParticipantOwner, id);
    assert ParticipantDicts(s.participants, id) == [];
    NoneOwnedNoIds(s.speakers, SpeakerOwner, id);
    assert SpeakerDicts(s.speakers, id) == [];
    NoneOwnedNoIds(s.vendors, VendorOwner, id);
    assert VendorDicts(s.vendors, id) == [];
    NoneOwnedNoIds(s.feedbacks, FeedbackOwner, id);
    assert FeedbackDicts(s.feedbacks, id) == [];
  }

  /** In a linked store an id that names no event has no children. */
  lemma UnknownEventHasNoChildren(s: Store, id: int)
    requires Linked(s) && id !in s.events.rows
    ensures NoChildOf(s, id)
  {
  }

  /** An event's collections depend on the child tables alone. */
  lemma SameChildrenSameRelations(s: Store, s': Store, id: int)
    requires s'.participants == s.participants && s'.speakers == s.speakers
    requires s'.vendors == s.vendors && s'.feedbacks == s.feedbacks
    ensures RelationsOf(s', id) == RelationsOf(s, id)
  {
  }

  /** The dictionary models/event.py's `to_dict` builds for stored event `id`. */
  function EventDict(s: Store, id: int): (r: EventRecord)
    requires id in s.events.rows
    ensures r.id == id && FromDict(r) == (id, s.events.rows[id])
    ensures r.relations == Some(RelationsOf(s, id))
  {
    ToDict(id, s.events.rows[id], RelationsOf(s, id))
  }

  /** A committed event write: the new store, answered with the event's dictionary. */
  function Saved(s: Store, id: int): (r: Step<EventRecord>)
    requires id in s.events.rows
    ensures r.store == s && r.reply.Done?
    ensures r.reply.value.id == id && FromDict(r.reply.value) == (id, s.events.rows[id])
    ensures r.reply.value.relations == Some(RelationsOf(s, id))
  {
    Step(s, Done(EventDict(s, id)))
  }
}
