/** The service-record views of the organizer application
    (`RecordServiceList`, `RecordServiceDetail`) over the Record and
    RecordService tables, together with the `on_delete=CASCADE` rules of
    the two tables. Services and patients are external tables, present
    here only as the sets of their ids. */
module Booking {
  import opened Http
  import opened Tables
  import opened Records

  /** `RecordService.objects.values_list('record_id')`. */
  function LinkedRecordIds(links: map<int, RecordService>): set<int>
  {
    set id | id in links :: links[id].record
  }

  /** Ids of the links whose record is `pk`. */
  function LinksOf(links: map<int, RecordService>, pk: int): set<int>
  {
    set id | id in links && links[id].record == pk
  }

  /** The links that survive deleting the records in `gone`. */
  function LinksWithoutRecords(links: map<int, RecordService>, gone: set<int>): map<int, RecordService>
  {
    map id | id in links && links[id].record !in gone :: links[id]
  }

  /** The records with an id below `n` whose id is in `linked`, by id. */
  function RowsBelow(records: map<int, Record>, linked: set<int>, n: int): (rows: seq<Record>)
    requires forall id :: id in records ==> records[id].id == id
    ensures forall r :: r in rows <==> 0 <= r.id < n && r.id in records && records[r.id] == r && r.id in linked
    ensures NoDuplicates(rows)
    decreases n
  {
    if n <= 0 then []
    else
      var prefix := RowsBelow(records, linked, n - 1);
      if n - 1 in records && n - 1 in linked then
        assert forall r :: r in prefix ==> r.id < n - 1;
        prefix + [records[n - 1]]
      else prefix
  }

  class BookingStore {
    var patients: set<int>
    var services: set<int>
    var records: map<int, Record>
    var links: map<int, RecordService>
    var nextRecordId: int
    var nextLinkId: int

    /** Rows are stored under their own id, ids come from the two counters,
        every foreign key names an existing row and stored records respect
        the field bounds. Nothing bounds the number of links of a record. */
    ghost predicate Valid()
      reads this
    {
      && 0 < nextRecordId && 0 < nextLinkId
      && (forall id :: id in records ==>
            records[id].id == id && 0 < id < nextRecordId &&
            records[id].patient in patients && WithinBounds(records[id]))
      && (forall id :: id in links ==>
            links[id].id == id && 0 < id < nextLinkId &&
            links[id].record in records && links[id].service in services)
    }

    constructor (patients: set<int>, services: set<int>)
      ensures Valid()
      ensures this.patients == patients && this.services == services
      ensures records == map[] && links == map[]
      ensures nextRecordId == 1 && nextLinkId == 1
    {
      this.patients := patients;
      this.services := services;
      records := map[];
      links := map[];
      nextRecordId := 1;
      nextLinkId := 1;
    }

    /** `get_queryset` of both views: the records that at least one
        RecordService points to, each once, in the default order. */
    function ServiceRecords(): (rows: seq<Record>)
      reads this
      requires Valid()
      ensures forall r :: r in rows <==>
        r.id in records && records[r.id] == r &&
        exists l :: l in links && links[l].record == r.id
      ensures NoDuplicates(rows)
      ensures DefaultOrdered(rows)
    {
      var rows := RowsBelow(records, LinkedRecordIds(links), nextRecordId);
      var sorted := SortDefault(rows);
      assert forall r :: r in sorted <==> r in rows by {
        forall r ensures r in sorted <==> r in rows {
          assert multiset(sorted)[r] == multiset(rows)[r];
        }
      }
      sorted
    }

    /** `retrieve` of RecordServiceDetail: a lookup in the same queryset. */
    function ServiceRecord(pk: int): (r: Option<Record>)
      reads this
      requires Valid()
      ensures r.Some? <==> pk in records && exists l :: l in links && links[l].record == pk
      ensures r.Some? ==> r.value == records[pk] && r.value.id == pk
    {
      if pk in records && pk in LinkedRecordIds(links) then Some(records[pk]) else None
    }

    /** Retrieving a record finds exactly the rows that the list shows. */
    lemma RetrieveAgreesWithList(pk: int, r: Record)
      requires Valid()
      ensures ServiceRecord(pk) == Some(r) <==> r in ServiceRecords() && r.id == pk
    {
    }

    /** `RecordServiceList.create`. `serviceId` is the popped `service_id`,
        `Null` when it is absent or `null`; `parseId` converts a text id. */
    method CreateServiceRecord(serviceId: Value, fields: RecordFields, parseId: string -> Option<int>)
      returns (status: Status, created: Option<Record>)
      requires Valid()
      modifies this
      ensures Valid()
      ensures serviceId.Null? ==> status == BadRequest400 && unchanged(this)
      ensures !serviceId.Null? &&
              (KeyOf(serviceId, parseId).None? || KeyOf(serviceId, parseId).value !in old(services)) ==>
        status == ServerError500 && unchanged(this)
      ensures !serviceId.Null? && KeyOf(serviceId, parseId).Some? &&
              KeyOf(serviceId, parseId).value in old(services) && !FieldsValid(fields, old(patients)) ==>
        status == BadRequest400 && unchanged(this)
      ensures !serviceId.Null? && KeyOf(serviceId, parseId).Some? &&
              KeyOf(serviceId, parseId).value in old(services) && FieldsValid(fields, old(patients)) ==>
        var r := NewRecord(old(nextRecordId), fields, old(patients));
        && status == Created201 && created == Some(r)
        && r.id !in old(records) && old(nextLinkId) !in old(links)
        && records == old(records)[r.id := r]
        && links == old(links)[old(nextLinkId) := RecordService(old(nextLinkId), r.id, KeyOf(serviceId, parseId).value)]
        && nextRecordId == old(nextRecordId) + 1 && nextLinkId == old(nextLinkId) + 1
        && patients == old(patients) && services == old(services)
      ensures status != Created201 ==> created == None
    {
      created := None;
      if serviceId.Null? {
        return BadRequest400, created;
      }
      var sid := KeyOf(serviceId, parseId);
      if sid.None? || sid.value !in services {
        // `Service.objects.get` raises ValueError or DoesNotExist and
        // nothing catches it.
        return ServerError500, created;
      }
      if !FieldsValid(fields, patients) {
        return BadRequest400, created;
      }
      var r := NewRecord(nextRecordId, fields, patients);
      records := records[r.id := r];
      nextRecordId := nextRecordId + 1;
      links := links[nextLinkId := RecordService(nextLinkId, r.id, sid.value)];
      nextLinkId := nextLinkId + 1;
      status, created := Created201, Some(r);
    }

    /** `RecordServiceDetail.update`. The record is saved before its link is
        looked up, so a record with no link, or with several, is rewritten
        and the request then fails. A `service_id` the ORM cannot convert
        raises `ValueError`, which the `DoesNotExist` handler does not
        catch. */
    method UpdateServiceRecord(pk: int, serviceId: Value, fields: RecordFields, parseId: string -> Option<int>)
      returns (status: Status)
      requires Valid()
      modifies this
      ensures Valid()
      ensures patients == old(patients) && services == old(services)
      ensures nextRecordId == old(nextRecordId) && nextLinkId == old(nextLinkId)
      ensures pk !in old(records) ==> status == BadRequest400 && unchanged(this)
      ensures pk in old(records) && serviceId.Null? ==> status == BadRequest400 && unchanged(this)
      ensures pk in old(records) && !serviceId.Null? && KeyOf(serviceId, parseId).None? ==>
        status == ServerError500 && unchanged(this)
      ensures pk in old(records) && !serviceId.Null? && KeyOf(serviceId, parseId).Some? &&
              KeyOf(serviceId, parseId).value !in old(services) ==>
        status == BadRequest400 && unchanged(this)
      ensures pk in old(records) && !serviceId.Null? && KeyOf(serviceId, parseId).Some? &&
              KeyOf(serviceId, parseId).value in old(services) && !FieldsValid(fields, old(patients)) ==>
        status == BadRequest400 && unchanged(this)
      ensures pk in old(records) && !serviceId.Null? && KeyOf(serviceId, parseId).Some? &&
              KeyOf(serviceId, parseId).value in old(services) && FieldsValid(fields, old(patients)) ==>
        && records == old(records)[pk := Overwrite(old(records)[pk], fields, old(patients))]
        && (|LinksOf(old(links), pk)| == 1 ==>
              status == Ok200 &&
              exists l :: LinksOf(old(links), pk) == {l} &&
                links == old(links)[l := old(links)[l].(service := KeyOf(serviceId, parseId).value)])
        && (|LinksOf(old(links), pk)| != 1 ==> status == ServerError500 && links == old(links))
    {
      if pk !in records {
        return BadRequest400;
      }
      if serviceId.Null? {
        return BadRequest400;
      }
      var sid := KeyOf(serviceId, parseId);
      if sid.None? {
        return ServerError500;
      }
      if sid.value !in services {
        return BadRequest400;
      }
      if !FieldsValid(fields, patients) {
        return BadRequest400;
      }
      records := records[pk := Overwrite(records[pk], fields, patients)];
      var mine := LinksOf(links, pk);
      if |mine| != 1 {
        // `RecordService.objects.get` raises DoesNotExist or
        // MultipleObjectsReturned after the record was saved.
        return ServerError500;
      }
      var l := TheOnly(mine);
      links := links[l := links[l].(service := sid.value)];
      status := Ok200;
    }

    /** `RecordServiceDetail.destroy`: deleting a record cascades to every
        link that points at it. */
    method DestroyServiceRecord(pk: int) returns (status: Status)
      requires Valid()
      modifies this
      ensures Valid()
      ensures pk !in old(records) ==> status == NotFound404 && unchanged(this)
      ensures pk in old(records) ==>
        && status == NoContent204
        && records == old(records) - {pk}
        && links == LinksWithoutRecords(old(links), {pk})
        && patients == old(patients) && services == old(services)
        && nextRecordId == old(nextRecordId) && nextLinkId == old(nextLinkId)
    {
      if pk !in records {
        return NotFound404;
      }
      records := records - {pk};
      links := LinksWithoutRecords(links, {pk});
      status := NoContent204;
    }

    /** Deleting a service (`RecordService.service`, `on_delete=CASCADE`)
        deletes every link to it; records stay. */
    method DeleteService(sid: int)
      requires Valid()
      modifies this
      ensures Valid()
      ensures services == old(services) - {sid}
      ensures links == map l | l in old(links) && old(links)[l].service != sid :: old(links)[l]
      ensures records == old(records) && patients == old(patients)
      ensures nextRecordId == old(nextRecordId) && nextLinkId == old(nextLinkId)
    {
      services := services - {sid};
      links := map l | l in links && links[l].service != sid :: links[l];
    }

    /** Deleting a patient (`Record.patient`, `on_delete=CASCADE`) deletes
        that patient's records, which in turn deletes their links. */
    method DeletePatient(pid: int)
      requires Valid()
      modifies this
      ensures Valid()
      ensures patients == old(patients) - {pid}
      ensures records == map id | id in old(records) && old(records)[id].patient != pid :: old(records)[id]
      ensures links == LinksWithoutRecords(old(links),
                         set id | id in old(records) && old(records)[id].patient == pid)
      ensures services == old(services)
      ensures nextRecordId == old(nextRecordId) && nextLinkId == old(nextLinkId)
    {
      var gone := set id | id in records && records[id].patient == pid;
      patients := patients - {pid};
      records := map id | id in records && records[id].patient != pid :: records[id];
      links := LinksWithoutRecords(links, gone);
    }
  }

  /** Nothing keeps a record to one link: a valid store can hold two links
      to the same record, and then updating that record rewrites it and
      fails. */
  method SecondLinkBreaksUpdate() returns (status: Status, rewritten: bool)
    ensures status == ServerError500 && rewritten
  {
    var store := new BookingStore({7}, {3, 4});
    var fields := RecordFields(None, Some(7), Some(1), Some(10), Some(20), None, None);
    var noText := (t: string) => None;
    var _, _ := store.CreateServiceRecord(Int(3), fields, noText);
    var first := store.records[1];
    store.links := store.links[2 := RecordService(2, 1, 4)];
    store.nextLinkId := 3;
    assert LinksOf(store.links, 1) == {1, 2};
    var changed := fields.(done := Some(true));
    status := store.UpdateServiceRecord(1, Int(4), changed, noText);
    rewritten := store.records[1] != first;
  }
}
