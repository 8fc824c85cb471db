/** The session-based vendor service (services/vendor_service.py). Creation needs a stored
    event; an update only touches the fields given as non-blank text, so it never
    raises. */
module VendorService {
  import opened Common
  import opened Strings
  import opened Tables
  import opened ChildEntities
  import opened Storage

  /** `create`: `None` when no stored event has `eventId`; otherwise the constructor
      validates the name, stores `services` as given, and the vendor is inserted under a
      fresh id. */
  function Create(s: Store, eventId: Option<int>, name: Text, servicesOffered: Text): (r: Step<VendorRecord>)
    ensures r.reply.Missing? <==> eventId.None? || eventId.value !in s.events.rows
    ensures !r.reply.Missing? ==> (r.reply.Done? <==> Truthy(name))
    ensures r.reply.Raised? ==> r.reply.error == EmptyVendorName
    ensures !r.reply.Done? ==> r.store == s
    ensures r.reply.Done? ==>
              && (IdsFresh(s.vendors) ==> r.reply.value.id !in s.vendors.rows)
              && r.store.vendors.rows == s.vendors.rows[r.reply.value.id := Vendor(name.value, servicesOffered, eventId.value)]
              && OnlyChanged(s, r.store, Vendors)
              && VendorFromDict(r.reply.value) == (r.reply.value.id, Vendor(name.value, servicesOffered, eventId.value))
    ensures Valid(s) ==> Valid(r.store)
  {
    if eventId.None? || eventId.value !in s.events.rows then Step(s, Missing)
    else
      match NewVendor(name, servicesOffered, eventId.value)
      case Err(e) => Step(s, Raised(e))
      case Ok(x) =>
        var ins := InsertVendor(s, x);
        Step(ins.0, Done(VendorToDict(ins.1, x)))
  }

  /** The two guarded assignments of `update`: each field changes only when its new
      value is supplied (`v and v.strip()`), and a supplied name always passes the
      setter. */
  function Revise(x: Vendor, newName: Text, newServices: Text): (r: Vendor)
    ensures r.name == (if Supplied(newName) then newName.value else x.name)
    ensures r.services == (if Supplied(newServices) then newServices else x.services)
    ensures r.eventId == x.eventId
    ensures ValidVendor(x) ==> ValidVendor(r)
  {
    var named := if Supplied(newName) then SetVendorName(x, newName).value else x;
    if Supplied(newServices) then SetServices(named, newServices) else named
  }

  /** `update`: `None` for an unknown id; otherwise the supplied fields are written.
      Blank or missing values leave their field alone, so nothing raises. */
  function Update(s: Store, k: int, newName: Text, newServices: Text): (r: Step<VendorRecord>)
    ensures r.reply.Missing? <==> k !in s.vendors.rows
    ensures !r.reply.Raised?
    ensures !r.reply.Done? ==> r.store == s
    ensures r.reply.Done? ==>
              && r.store.vendors.rows == s.vendors.rows[k := Revise(s.vendors.rows[k], newName, newServices)]
              && r.store.vendors.next == s.vendors.next
              && OnlyChanged(s, r.store, Vendors)
              && VendorFromDict(r.reply.value) == (k, r.store.vendors.rows[k])
    ensures Valid(s) ==> Valid(r.store)
  {
    if k !in s.vendors.rows then Step(s, Missing)
    else
      var x := Revise(s.vendors.rows[k], newName, newServices);
      Step(PutVendor(s, k, x), Done(VendorToDict(k, x)))
  }

  /** `delete`: `False` for an unknown id; otherwise that one row goes. */
  function Delete(s: Store, k: int): (r: Step<bool>)
    ensures r.reply == Done(k in s.vendors.rows)
    ensures k !in s.vendors.rows ==> r.store == s
    ensures r.store.vendors.rows == s.vendors.rows - {k}
    ensures OnlyChanged(s, r.store, Vendors)
    ensures Valid(s) ==> Valid(r.store)
  {
    if k !in s.vendors.rows then Step(s, Done(false))
    else Step(RemoveVendor(s, k), Done(true))
  }

  /** `list_vendors`: `None` for an unknown event, otherwise the dictionaries of exactly
      its vendors. Read only. */
  function ListVendors(s: Store, eventId: int): (r: Reply<seq<VendorRecord>>)
    ensures r.Missing? <==> eventId !in s.events.rows
    ensures !r.Raised?
    ensures r.Done? ==> VendorRecordsOf(r.value, s.vendors, eventId)
  {
    if eventId !in s.events.rows then Missing else Done(VendorsOf(s, eventId))
  }

  // ------------------------------------------------------------------ laws

  /** An update whose values are all blank or missing leaves the store as it was. */
  lemma BlankUpdateChangesNothing(s: Store, k: int, newName: Text, newServices: Text)
    requires k in s.vendors.rows && !Supplied(newName) && !Supplied(newServices)
    ensures Update(s, k, newName, newServices).store == s
  {
    assert Update(s, k, newName, newServices).store.vendors.rows == s.vendors.rows;
  }

  /** Repeating an update changes nothing more. */
  lemma UpdateIdempotent(s: Store, k: int, newName: Text, newServices: Text)
    requires k in s.vendors.rows
    ensures var once := Update(s, k, newName, newServices);
            Update(once.store, k, newName, newServices) == once
  {
    var x := s.vendors.rows[k];
    assert Revise(Revise(x, newName, newServices), newName, newServices) == Revise(x, newName, newServices);
    var once := Update(s, k, newName, newServices);
    assert Update(once.store, k, newName, newServices).store.vendors.rows == once.store.vendors.rows;
  }

  /** A vendor just created is listed under its event. */
  lemma CreatedIsListed(s: Store, eventId: int, name: Text, servicesOffered: Text)
    requires Valid(s) && eventId in s.events.rows && Truthy(name)
    ensures var r := Create(s, Some(eventId), name, servicesOffered);
            && r.reply.Done?
            && ListVendors(r.store, eventId).Done?
            && r.reply.value in ListVendors(r.store, eventId).value
  {
    var r := Create(s, Some(eventId), name, servicesOffered);
    var k := r.reply.value.id;
    var listed := ListVendors(r.store, eventId).value;
    assert r.store.vendors.rows[k].eventId == eventId;
    var j :| 0 <= j < |listed| && listed[j].id == k;
    assert listed[j] == VendorToDict(k, r.store.vendors.rows[k]);
  }
}
