/** The repository-based vendor service (src/services/vendor_service.py). `create`,
    `update` and `delete` do what the session-based service does (VendorService); only
    the argument order of `create` differs. `list_vendors` adds a display name and the
    event's name to every entry. */
module RepoVendorService {
  import opened Common
  import opened Strings
  import opened ChildEntities
  import opened Storage
  import VendorService

  /** One entry of `list_vendors`: the vendor's columns, a `display_name` of the form
      "<id>: <name>", and the name of the event. */
  datatype VendorEntry = VendorEntry(id: int, displayName: string, name: string, services: Text, eventId: int, eventName: string)

  function EntryOf(x: VendorRecord, eventName: string): (e: VendorEntry)
    ensures EntryRecord(e) == x
    ensures e.displayName == DisplayName(x.id, x.name) && e.eventName == eventName
  {
    VendorEntry(x.id, DisplayName(x.id, x.name), x.name, x.services, x.eventId, eventName)
  }

  /** Drops the two added keys, giving back the vendor's own dictionary. */
  function EntryRecord(e: VendorEntry): VendorRecord {
    VendorRecord(e.id, e.name, e.services, e.eventId)
  }

  function EntryRecords(r: seq<VendorEntry>): (xs: seq<VendorRecord>)
    ensures |xs| == |r| && forall j :: 0 <= j < |r| ==> xs[j] == EntryRecord(r[j])
  {
    seq(|r|, j requires 0 <= j < |r| => EntryRecord(r[j]))
  }

  function Entries(xs: seq<VendorRecord>, eventName: string): (r: seq<VendorEntry>)
    ensures EntryRecords(r) == xs
    ensures forall j :: 0 <= j < |r| ==> r[j].eventName == eventName && r[j].displayName == DisplayName(r[j].id, r[j].name)
  {
    var r := seq(|xs|, j requires 0 <= j < |xs| => EntryOf(xs[j], eventName));
    assert EntryRecords(r) == xs;
    r
  }

  /** `list_vendors`: `None` for an unknown event; otherwise one entry per vendor of
      that event, each naming the event. Read only. */
  function ListVendors(s: Store, eventId: int): (r: Reply<seq<VendorEntry>>)
    ensures r.Missing? <==> eventId !in s.events.rows
    ensures !r.Raised?
    ensures r.Done? ==> VendorRecordsOf(EntryRecords(r.value), s.vendors, eventId)
    ensures r.Done? ==> forall j :: 0 <= j < |r.value| ==>
              r.value[j].eventName == s.events.rows[eventId].name
              && r.value[j].displayName == DisplayName(r.value[j].id, r.value[j].name)
  {
    if eventId !in s.events.rows then Missing
    else Done(Entries(VendorsOf(s, eventId), s.events.rows[eventId].name))
  }

  // ------------------------------------------------------------------ laws

  /** Without the two added keys, the listing is the session-based service's listing. */
  lemma ListingExtendsSessionListing(s: Store, eventId: int)
    requires eventId in s.events.rows
    ensures EntryRecords(ListVendors(s, eventId).value) == VendorService.ListVendors(s, eventId).value
  {
  }

  /** No two vendors of an event share a display name. */
  lemma {:induction false} DisplayNamesDistinct(s: Store, eventId: int)
    requires eventId in s.events.rows
    ensures var r := ListVendors(s, eventId).value;
            forall i, j :: 0 <= i < j < |r| ==> r[i].displayName != r[j].displayName
  {
    var r := ListVendors(s, eventId).value;
    var xs := EntryRecords(r);
    forall i, j | 0 <= i < j < |r| ensures r[i].displayName != r[j].displayName {
      assert xs[i].id < xs[j].id;
      if r[i].displayName == r[j].displayName {
        DisplayNameInjective(r[i].id, r[i].name, r[j].id, r[j].name);
      }
    }
  }
}
