/** The `service_type` filters of the organizer application
    (`RecordFilter`, `RecordServiceFilter`): the value picks one of the
    four sub-kinds of the service catalogue by name, ignoring case, and the
    queryset is cut down to the rows whose own id is one of that
    sub-kind's service ids. The value first passes the `ChoiceFilter`'s
    form validation. */
module ServiceTypeFilter {
  import opened Http
  import opened Tables
  import opened Records

  /** A row of a catalogue sub-kind (Procedure, Event, Survey or
      Speciality), tied one-to-one to a Service. */
  datatype SubKindRow = SubKindRow(id: int, service: int)

  datatype Catalog = Catalog(
    procedures: seq<SubKindRow>,
    events: seq<SubKindRow>,
    surveys: seq<SubKindRow>,
    specialities: seq<SubKindRow>)

  /** `str.lower()` on ASCII letters; other characters are kept. */
  function LowerChar(c: char): char
  {
    if 'A' <= c <= 'Z' then (c as int + 32) as char else c
  }

  function Lower(s: string): (r: string)
    ensures |r| == |s|
    ensures forall i :: 0 <= i < |s| ==> r[i] == LowerChar(s[i])
  {
    seq(|s|, i requires 0 <= i < |s| => LowerChar(s[i]))
  }

  /** `values_list('service__id', flat=True)` of a sub-kind table. */
  function ServiceIdsOf(rows: seq<SubKindRow>): set<int>
  {
    set r | r in rows :: r.service
  }

  /** `value` names one of the four sub-kinds, ignoring case. */
  predicate NamesKind(value: string)
  {
    Lower(value) in {"procedure", "event", "survey", "speciality"}
  }

  /** The service ids of the sub-kind that `value` names; an unknown name
      keeps the initial `queryset.none()` and yields no ids. */
  function SubKindServiceIds(c: Catalog, value: string): set<int>
  {
    var kind := Lower(value);
    if kind == "procedure" then ServiceIdsOf(c.procedures)
    else if kind == "event" then ServiceIdsOf(c.events)
    else if kind == "survey" then ServiceIdsOf(c.surveys)
    else if kind == "speciality" then ServiceIdsOf(c.specialities)
    else {}
  }

  /** A filtered queryset, or the status of the error that ends the
      request. */
  datatype Filtered<T> = Kept(rows: seq<T>) | Failed(status: Status)

  /** `RecordFilter.filter_service_type` over a queryset of records. For a
      name of none of the sub-kinds, `service_queryset` stays
      `queryset.none()`, a Record queryset; Record has no `service` field,
      so `values_list('service__id')` raises `FieldError` and the request
      fails. */
  function RecordFilterServiceType(rows: seq<Record>, c: Catalog, value: string): (r: Filtered<Record>)
    ensures r.Failed? <==> !NamesKind(value)
    ensures r.Failed? ==> r.status == ServerError500
    ensures r.Kept? ==> forall x :: x in r.rows <==> x in rows && x.id in SubKindServiceIds(c, value)
    ensures r.Kept? ==> multiset(r.rows) <= multiset(rows)
  {
    if !NamesKind(value) then Failed(ServerError500)
    else Kept(Select(rows, (x: Record) => x.id in SubKindServiceIds(c, value)))
  }

  /** `RecordServiceFilter.filter_service_type` over a queryset of links:
      the link's own id, not its service, is compared. */
  function RecordServiceFilterServiceType(rows: seq<RecordService>, c: Catalog, value: string): (r: seq<RecordService>)
    ensures forall x :: x in r <==> x in rows && x.id in SubKindServiceIds(c, value)
    ensures multiset(r) <= multiset(rows)
  {
    Select(rows, (x: RecordService) => x.id in SubKindServiceIds(c, value))
  }

  /** For a value that names a sub-kind, both filters apply one rule: the
      ids that survive are the ids of the queryset that are also service ids
      of that sub-kind. */
  lemma FiltersShareOneRule(records: seq<Record>, links: seq<RecordService>, c: Catalog, value: string)
    requires NamesKind(value)
    ensures RecordFilterServiceType(records, c, value).Kept?
    ensures (set x | x in RecordFilterServiceType(records, c, value).rows :: x.id)
         == (set x | x in records :: x.id) * SubKindServiceIds(c, value)
    ensures (set x | x in RecordServiceFilterServiceType(links, c, value) :: x.id)
         == (set x | x in links :: x.id) * SubKindServiceIds(c, value)
  {
    var wanted := SubKindServiceIds(c, value);
    var kept := RecordFilterServiceType(records, c, value).rows;
    var recordIds := set x | x in records :: x.id;
    forall id | id in recordIds && id in wanted
      ensures id in (set x | x in kept :: x.id)
    {
      var x :| x in records && x.id == id;
      assert x in kept;
    }
    var keptLinks := RecordServiceFilterServiceType(links, c, value);
    var linkIds := set x | x in links :: x.id;
    forall id | id in linkIds && id in wanted
      ensures id in (set x | x in keptLinks :: x.id)
    {
      var x :| x in links && x.id == id;
      assert x in keptLinks;
    }
  }

  /** The sub-kind name is matched ignoring case. */
  lemma NameMatchIgnoresCase(c: Catalog, a: string, b: string)
    requires Lower(a) == Lower(b)
    ensures SubKindServiceIds(c, a) == SubKindServiceIds(c, b)
    ensures forall rows: seq<Record> :: RecordFilterServiceType(rows, c, a) == RecordFilterServiceType(rows, c, b)
  {
  }

  /** The names as the choices spell them select their sub-kind. */
  lemma CapitalisedNamesSelect(c: Catalog)
    ensures SubKindServiceIds(c, "Procedure") == ServiceIdsOf(c.procedures)
    ensures SubKindServiceIds(c, "Event") == ServiceIdsOf(c.events)
    ensures SubKindServiceIds(c, "Survey") == ServiceIdsOf(c.surveys)
    ensures SubKindServiceIds(c, "SPECIALITY") == ServiceIdsOf(c.specialities)
  {
    assert Lower("Procedure") == "procedure";
    assert Lower("Event") == "event";
    assert Lower("Survey") == "survey";
    assert Lower("SPECIALITY") == "speciality";
  }

  /** A value naming none of the four sub-kinds makes the record filter
      fail and empties the link queryset: `queryset.none()` of links does
      have a `service` field. */
  lemma UnknownKindOutcome(rows: seq<Record>, links: seq<RecordService>, c: Catalog, value: string)
    requires !NamesKind(value)
    ensures RecordFilterServiceType(rows, c, value) == Failed(ServerError500)
    ensures RecordServiceFilterServiceType(links, c, value) == []
  {
    assert SubKindServiceIds(c, value) == {};
    SelectNone(links, (x: RecordService) => x.id in SubKindServiceIds(c, value));
  }

  /** The `ChoiceFilter` in front of `filter_service_type`: an empty value
      skips the method and keeps the queryset; a value that is not one of
      the choices fails form validation, which the filter backend answers
      with 400; any other value goes to the method. */
  function ChoiceGate<T>(rows: seq<T>, choices: set<string>, value: string, byMethod: Filtered<T>): Filtered<T>
  {
    if value == "" then Kept(rows)
    else if value !in choices then Failed(BadRequest400)
    else byMethod
  }

  /** `RecordFilter` with a `service_type` parameter. The choices come from
      a table of the med application that is passed in. */
  function RecordFilterQuery(rows: seq<Record>, c: Catalog, choices: set<string>, value: string): (r: Filtered<Record>)
    ensures value == "" ==> r == Kept(rows)
    ensures value != "" && value !in choices ==> r == Failed(BadRequest400)
    ensures value != "" && value in choices && !NamesKind(value) ==> r == Failed(ServerError500)
    ensures value != "" && value in choices && NamesKind(value) ==>
      r.Kept? && forall x :: x in r.rows <==> x in rows && x.id in SubKindServiceIds(c, value)
    ensures r.Kept? ==> multiset(r.rows) <= multiset(rows)
  {
    ChoiceGate(rows, choices, value, RecordFilterServiceType(rows, c, value))
  }

  /** `RecordServiceFilter` with a `service_type` parameter. */
  function RecordServiceFilterQuery(rows: seq<RecordService>, c: Catalog, choices: set<string>, value: string)
    : (r: Filtered<RecordService>)
    ensures value == "" ==> r == Kept(rows)
    ensures value != "" && value !in choices ==> r == Failed(BadRequest400)
    ensures value != "" && value in choices ==>
      r.Kept? && forall x :: x in r.rows <==> x in rows && x.id in SubKindServiceIds(c, value)
    ensures r.Kept? ==> multiset(r.rows) <= multiset(rows)
  {
    ChoiceGate(rows, choices, value, Kept(RecordServiceFilterServiceType(rows, c, value)))
  }

  /** When every choice names a sub-kind, the record filter can only refuse
      a value outside the choices; it never reaches the `FieldError`. */
  lemma ChoicesOfKindsNeverFail(rows: seq<Record>, c: Catalog, choices: set<string>, value: string)
    requires forall ch :: ch in choices ==> NamesKind(ch)
    ensures RecordFilterQuery(rows, c, choices, value).Failed? ==>
      RecordFilterQuery(rows, c, choices, value).status == BadRequest400 && value !in choices
  {
  }

  /** Filtering twice with the same value is filtering once. */
  lemma ServiceTypeFilterIdempotent(rows: seq<Record>, links: seq<RecordService>, c: Catalog, value: string)
    ensures RecordFilterServiceType(rows, c, value).Kept? ==>
      RecordFilterServiceType(RecordFilterServiceType(rows, c, value).rows, c, value)
         == RecordFilterServiceType(rows, c, value)
    ensures RecordServiceFilterServiceType(RecordServiceFilterServiceType(links, c, value), c, value)
         == RecordServiceFilterServiceType(links, c, value)
  {
    if NamesKind(value) {
      SelectIdempotent(rows, (x: Record) => x.id in SubKindServiceIds(c, value));
    }
    SelectIdempotent(links, (x: RecordService) => x.id in SubKindServiceIds(c, value));
  }

  // ---------------------------------------------------------------------
  // The filters compare a row's own id with service ids. What the filter
  // is evidently for is keeping the bookings whose attached service is of
  // the named sub-kind.

  /** Corrected `RecordServiceFilter`: keeps the links whose service is of
      the named sub-kind. */
  function RecordServicesOfServiceType(rows: seq<RecordService>, c: Catalog, value: string): (r: seq<RecordService>)
    ensures forall x :: x in r <==> x in rows && x.service in SubKindServiceIds(c, value)
    ensures multiset(r) <= multiset(rows)
  {
    Select(rows, (x: RecordService) => x.service in SubKindServiceIds(c, value))
  }

  /** Corrected `RecordFilter`: keeps the records with a link to a service
      of the named sub-kind. */
  function RecordsOfServiceType(rows: seq<Record>, links: seq<RecordService>, c: Catalog, value: string): (r: seq<Record>)
    ensures forall x :: x in r <==>
      (x in rows && exists l :: l in links && l.record == x.id && l.service in SubKindServiceIds(c, value))
    ensures multiset(r) <= multiset(rows)
  {
    Select(rows, (x: Record) =>
      exists l :: l in links && l.record == x.id && l.service in SubKindServiceIds(c, value))
  }

  /** One procedure, for service 5. */
  function OneProcedure(): Catalog
  {
    Catalog([SubKindRow(1, 5)], [], [], [])
  }

  lemma OneProcedureIds()
    ensures SubKindServiceIds(OneProcedure(), "procedure") == {5}
  {
    assert Lower("procedure") == "procedure";
    assert ServiceIdsOf([SubKindRow(1, 5)]) == {5};
  }

  /** A link with id 5 to service 9 and a link with id 6 to service 5 (the
      procedure): the filter as written keeps the first and drops the
      second; the corrected filter does the opposite. */
  lemma OwnIdComparisonMisfiltersLinks()
    ensures var links := [RecordService(5, 1, 9), RecordService(6, 2, 5)];
      && RecordService(5, 1, 9) in RecordServiceFilterServiceType(links, OneProcedure(), "procedure")
      && RecordService(6, 2, 5) !in RecordServiceFilterServiceType(links, OneProcedure(), "procedure")
      && RecordService(5, 1, 9) !in RecordServicesOfServiceType(links, OneProcedure(), "procedure")
      && RecordService(6, 2, 5) in RecordServicesOfServiceType(links, OneProcedure(), "procedure")
  {
    OneProcedureIds();
    var links := [RecordService(5, 1, 9), RecordService(6, 2, 5)];
    assert RecordService(5, 1, 9) in links && RecordService(6, 2, 5) in links;
  }

  /** With those two links, record 5, which no link books, is kept by the
      filter as written and record 2, booked for the procedure, is dropped;
      the corrected filter does the opposite. */
  lemma OwnIdComparisonMisfiltersRecords()
    ensures var links := [RecordService(5, 1, 9), RecordService(6, 2, 5)];
      var booked := Record(2, "", 1, 0, 0, 0, false, "");
      var other := Record(5, "", 1, 0, 0, 0, false, "");
      && RecordFilterServiceType([booked, other], OneProcedure(), "procedure").Kept?
      && other in RecordFilterServiceType([booked, other], OneProcedure(), "procedure").rows
      && booked !in RecordFilterServiceType([booked, other], OneProcedure(), "procedure").rows
      && other !in RecordsOfServiceType([booked, other], links, OneProcedure(), "procedure")
      && booked in RecordsOfServiceType([booked, other], links, OneProcedure(), "procedure")
  {
    var booked := Record(2, "", 1, 0, 0, 0, false, "");
    var other := Record(5, "", 1, 0, 0, 0, false, "");
    OneProcedureIds();
    OwnIdKeepsUnbooked(booked, other);
    LinkKeepsBooked(booked, other);
  }

  lemma OwnIdKeepsUnbooked(booked: Record, other: Record)
    requires booked == Record(2, "", 1, 0, 0, 0, false, "")
    requires other == Record(5, "", 1, 0, 0, 0, false, "")
    requires SubKindServiceIds(OneProcedure(), "procedure") == {5}
    ensures RecordFilterServiceType([booked, other], OneProcedure(), "procedure").Kept?
    ensures other in RecordFilterServiceType([booked, other], OneProcedure(), "procedure").rows
    ensures booked !in RecordFilterServiceType([booked, other], OneProcedure(), "procedure").rows
  {
    assert Lower("procedure") == "procedure";
    assert other in [booked, other];
  }

  lemma LinkKeepsBooked(booked: Record, other: Record)
    requires booked == Record(2, "", 1, 0, 0, 0, false, "")
    requires other == Record(5, "", 1, 0, 0, 0, false, "")
    requires SubKindServiceIds(OneProcedure(), "procedure") == {5}
    ensures var links := [RecordService(5, 1, 9), RecordService(6, 2, 5)];
      other !in RecordsOfServiceType([booked, other], links, OneProcedure(), "procedure") &&
      booked in RecordsOfServiceType([booked, other], links, OneProcedure(), "procedure")
  {
    var links := [RecordService(5, 1, 9), RecordService(6, 2, 5)];
    assert links[1].record == booked.id && links[1] in links;
    assert booked in [booked, other];
    assert forall l :: l in links ==> l.record != other.id;
  }
}
