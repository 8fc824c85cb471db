/** The repository-based speaker service (src/services/speaker_service.py). `create`,
    `update` and `delete` do what the session-based service does (SpeakerService); only
    the argument order of `create` differs. `list_speakers` adds a display name and the
    event's name to every entry. */
module RepoSpeakerService {
  import opened Common
  import opened Strings
  import opened ChildEntities
  import opened Storage
  import SpeakerService

  /** One entry of `list_speakers`: the speaker's columns, a `display_name` of the form
      "<id>: <name>", and the name of the event. */
  datatype SpeakerEntry = SpeakerEntry(id: int, displayName: string, name: string, description: Text, eventId: int, eventName: string)

  function EntryOf(x: SpeakerRecord, eventName: string): (e: SpeakerEntry)
    ensures EntryRecord(e) == x
    ensures e.displayName == DisplayName(x.id, x.name) && e.eventName == eventName
  {
    SpeakerEntry(x.id, DisplayName(x.id, x.name), x.name, x.description, x.eventId, eventName)
  }

  /** Drops the two added keys, giving back the speaker's own dictionary. */
  function EntryRecord(e: SpeakerEntry): SpeakerRecord {
    SpeakerRecord(e.id, e.name, e.description, e.eventId)
  }

  function EntryRecords(r: seq<SpeakerEntry>): (xs: seq<SpeakerRecord>)
    ensures |xs| == |r| && forall j :: 0 <= j < |r| ==> xs[j] == EntryRecord(r[j])
  {
    seq(|r|, j requires 0 <= j < |r| => EntryRecord(r[j]))
  }

  function Entries(xs: seq<SpeakerRecord>, eventName: string): (r: seq<SpeakerEntry>)
    ensures EntryRecords(r) == xs
    ensures forall j :: 0 <= j < |r| ==> r[j].eventName == eventName && r[j].displayName == DisplayName(r[j].id, r[j].name)
  {
    var r := seq(|xs|, j requires 0 <= j < |xs| => EntryOf(xs[j], eventName));
    assert EntryRecords(r) == xs;
    r
  }

  /** `list_speakers`: `None` for an unknown event; otherwise one entry per speaker of
      that event, each naming the event. Read only. */
  function ListSpeakers(s: Store, eventId: int): (r: Reply<seq<SpeakerEntry>>)
    ensures r.Missing? <==> eventId !in s.events.rows
    ensures !r.Raised?
    ensures r.Done? ==> SpeakerRecordsOf(EntryRecords(r.value), s.speakers, eventId)
    ensures r.Done? ==> forall j :: 0 <= j < |r.value| ==>
              r.value[j].eventName == s.events.rows[eventId].name
              && r.value[j].displayName == DisplayName(r.value[j].id, r.value[j].name)
  {
    if eventId !in s.events.rows then Missing
    else Done(Entries(SpeakersOf(s, eventId), s.events.rows[eventId].name))
  }

  // ------------------------------------------------------------------ laws

  /** Without the two added keys, the listing is the session-based service's listing. */
  lemma ListingExtendsSessionListing(s: Store, eventId: int)
    requires eventId in s.events.rows
    ensures EntryRecords(ListSpeakers(s, eventId).value) == SpeakerService.ListSpeakers(s, eventId).value
  {
  }

  /** No two speakers of an event share a display name. */
  lemma {:induction false} DisplayNamesDistinct(s: Store, eventId: int)
    requires eventId in s.events.rows
    ensures var r := ListSpeakers(s, eventId).value;
            forall i, j :: 0 <= i < j < |r| ==> r[i].displayName != r[j].displayName
  {
    var r := ListSpeakers(s, eventId).value;
    var xs := EntryRecords(r);
    forall i, j | 0 <= i < j < |r| ensures r[i].displayName != r[j].displayName {
      assert xs[i].id < xs[j].id;
      if r[i].displayName == r[j].displayName {
        DisplayNameInjective(r[i].id, r[i].name, r[j].id, r[j].name);
      }
    }
  }
}
