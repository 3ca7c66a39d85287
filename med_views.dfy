/** The med views with logic of their own: the ServiceMedPersona link
    queries, the query-parameter gate on MedPersonaPatient rows, and the
    medical card of a patient. The other tables these views touch are
    abstract: only the columns the code reads are kept. */
module MedViews {
  import opened Http
  import opened Tables

  /** A response that lists rows. */
  datatype Listing<T> = Listing(status: Status, rows: seq<T>)

  // ----------------------------------------------- ServiceMedPersona links

  /** A link row between a service and a medical person. */
  datatype ServiceMedPersona = ServiceMedPersona(id: int, service: int, medpersona: int)

  /** `filter(service=pk)`: the `ServiceMedPersonaByServiceView` list. */
  function ByService(links: seq<ServiceMedPersona>, pk: int): (r: seq<ServiceMedPersona>)
    ensures forall x :: x in r <==> x in links && x.service == pk
    ensures multiset(r) <= multiset(links)
  {
    Select(links, (x: ServiceMedPersona) => x.service == pk)
  }

  /** `filter(medpersona=pk)`: the `ServiceMedPersonaByMedicView` list. */
  function ByMedic(links: seq<ServiceMedPersona>, pk: int): (r: seq<ServiceMedPersona>)
    ensures forall x :: x in r <==> x in links && x.medpersona == pk
    ensures multiset(r) <= multiset(links)
  {
    Select(links, (x: ServiceMedPersona) => x.medpersona == pk)
  }

  /** `ServiceMedPersonaViewByIdIn.get` and `.post`, which are the same
      read-only handler: a truthy `medpersona` selects by medical person and
      `service` is not looked at; otherwise a truthy `service` selects by
      service; with neither the request is refused. A key the body does not
      hold reads as an empty dict, which is falsy, as `Null` is. A truthy
      value the ORM cannot convert to an id raises `ValueError`, which is
      not caught. */
  function ByIdIn(links: seq<ServiceMedPersona>, medpersona: Value, service: Value,
                  parseId: string -> Option<int>): (r: Listing<ServiceMedPersona>)
    ensures Truthy(medpersona) && KeyOf(medpersona, parseId).Some? ==>
      r.status == Ok200 &&
      forall x :: x in r.rows <==> x in links && x.medpersona == KeyOf(medpersona, parseId).value
    ensures !Truthy(medpersona) && Truthy(service) && KeyOf(service, parseId).Some? ==>
      r.status == Ok200 &&
      forall x :: x in r.rows <==> x in links && x.service == KeyOf(service, parseId).value
    ensures !Truthy(medpersona) && !Truthy(service) ==> r == Listing(BadRequest400, [])
    ensures Truthy(medpersona) && KeyOf(medpersona, parseId).None? ==> r == Listing(ServerError500, [])
    ensures !Truthy(medpersona) && Truthy(service) && KeyOf(service, parseId).None? ==>
      r == Listing(ServerError500, [])
    ensures r.status != Ok200 ==> r.rows == []
  {
    if Truthy(medpersona) then
      match KeyOf(medpersona, parseId)
      case None => Listing(ServerError500, [])
      case Some(k) => Listing(Ok200, ByMedic(links, k))
    else if !Truthy(service) then Listing(BadRequest400, [])
    else
      match KeyOf(service, parseId)
      case None => Listing(ServerError500, [])
      case Some(k) => Listing(Ok200, ByService(links, k))
  }

  /** With a truthy `medpersona`, the answer is the by-medic list whatever
      `service` holds. */
  lemma ByIdInIgnoresServiceForMedic(links: seq<ServiceMedPersona>, medpersona: Value,
                                     s1: Value, s2: Value, parseId: string -> Option<int>)
    requires Truthy(medpersona) && KeyOf(medpersona, parseId).Some?
    ensures ByIdIn(links, medpersona, s1, parseId) == ByIdIn(links, medpersona, s2, parseId)
    ensures ByIdIn(links, medpersona, s1, parseId) ==
      Listing(Ok200, ByMedic(links, KeyOf(medpersona, parseId).value))
  {
  }

  /** Without a medical person, the answer is the by-service list. */
  lemma ByIdInFallsBackToService(links: seq<ServiceMedPersona>, medpersona: Value,
                                 service: Value, parseId: string -> Option<int>)
    requires !Truthy(medpersona) && Truthy(service) && KeyOf(service, parseId).Some?
    ensures ByIdIn(links, medpersona, service, parseId) ==
      Listing(Ok200, ByService(links, KeyOf(service, parseId).value))
  {
  }

  // ------------------------------------------------ MedPersonaPatient rows

  /** An assignment of a patient to a medical person. */
  datatype MedPersonaPatient = MedPersonaPatient(id: int, medpersona: int, patient: int)

  /** A query-parameter value: a number, an empty value (which the filter
      skips), or text that is not a number. */
  datatype ParamValue = Num(n: int) | Blank | Malformed

  /** `filter_fields` of `MedPersonaPatientAPIView`. */
  const FILTER_FIELDS: set<string> := {"patient", "medpersona", "id"}

  /** The generated filter set accepts the parameters: every value is a
      number or blank, and the two foreign-key filters name an existing
      patient and medical person. */
  predicate ParamsValid(params: map<string, ParamValue>, patients: set<int>, medpersonas: set<int>)
  {
    && (forall k :: k in params ==> !params[k].Malformed?)
    && ("patient" in params && params["patient"].Num? ==> params["patient"].n in patients)
    && ("medpersona" in params && params["medpersona"].Num? ==> params["medpersona"].n in medpersonas)
  }

  /** A row satisfies every numeric parameter. */
  predicate Admits(x: MedPersonaPatient, params: map<string, ParamValue>)
  {
    && ("patient" in params && params["patient"].Num? ==> x.patient == params["patient"].n)
    && ("medpersona" in params && params["medpersona"].Num? ==> x.medpersona == params["medpersona"].n)
    && ("id" in params && params["id"].Num? ==> x.id == params["id"].n)
  }

  function Matching(rows: seq<MedPersonaPatient>, params: map<string, ParamValue>): (r: seq<MedPersonaPatient>)
    ensures forall x :: x in r <==> x in rows && Admits(x, params)
  {
    Select(rows, (x: MedPersonaPatient) => Admits(x, params))
  }

  function Remaining(rows: seq<MedPersonaPatient>, params: map<string, ParamValue>): (r: seq<MedPersonaPatient>)
    ensures forall x :: x in r <==> x in rows && !Admits(x, params)
  {
    Select(rows, (x: MedPersonaPatient) => !Admits(x, params))
  }

  /** `MedPersonaPatientAPIView.get` as it evidently means to behave: no
      parameters lists every row; parameters among the filter fields list
      the matching rows, and a value the filter refuses is caught and
      answered with 406; any other parameter is answered with 406. */
  function ListMedPersonaPatients(rows: seq<MedPersonaPatient>, params: map<string, ParamValue>,
                                  patients: set<int>, medpersonas: set<int>): (r: Listing<MedPersonaPatient>)
    ensures params == map[] ==> r == Listing(Ok200, rows)
    ensures params.Keys <= FILTER_FIELDS && ParamsValid(params, patients, medpersonas) ==>
      r.status == Ok200 && forall x :: x in r.rows <==> x in rows && Admits(x, params)
    ensures !(params.Keys <= FILTER_FIELDS) ==> r == Listing(NotAcceptable406, [])
    ensures !ParamsValid(params, patients, medpersonas) ==> r == Listing(NotAcceptable406, [])
  {
    if params == map[] then Listing(Ok200, rows)
    else if !(params.Keys <= FILTER_FIELDS) then Listing(NotAcceptable406, [])
    else if !ParamsValid(params, patients, medpersonas) then Listing(NotAcceptable406, [])
    else Listing(Ok200, Matching(rows, params))
  }

  /** The same handler as written: with no parameters it validates the
      queryset itself as incoming data, which is not a list, so
      `is_valid(raise_exception=True)` answers 400 instead of the rows. */
  function ListMedPersonaPatientsAsWritten(rows: seq<MedPersonaPatient>, params: map<string, ParamValue>,
                                           patients: set<int>, medpersonas: set<int>): (r: Listing<MedPersonaPatient>)
    ensures params != map[] ==> r == ListMedPersonaPatients(rows, params, patients, medpersonas)
  {
    if params == map[] then Listing(BadRequest400, [])
    else ListMedPersonaPatients(rows, params, patients, medpersonas)
  }

  /** The discrepancy: one stored row, no parameters; the written handler
      refuses the request while the intended one lists the row. */
  lemma EmptyQueryListingRefusedAsWritten()
    ensures ListMedPersonaPatientsAsWritten([MedPersonaPatient(1, 2, 3)], map[], {3}, {2}).status == BadRequest400
    ensures ListMedPersonaPatients([MedPersonaPatient(1, 2, 3)], map[], {3}, {2}).rows == [MedPersonaPatient(1, 2, 3)]
  {
  }

  /** The rows a delete removes are exactly the rows the list shows for the
      same parameters. */
  lemma DeleteRemovesWhatListShows(rows: seq<MedPersonaPatient>, params: map<string, ParamValue>,
                                   patients: set<int>, medpersonas: set<int>, x: MedPersonaPatient)
    requires params.Keys <= FILTER_FIELDS && ParamsValid(params, patients, medpersonas)
    requires x in rows
    ensures x !in Remaining(rows, params) <==> x in ListMedPersonaPatients(rows, params, patients, medpersonas).rows
  {
  }

  /** The empty parameter set is a subset of the filter fields and admits
      every row, so a delete without parameters removes them all. */
  lemma EmptyQueryDeletesEverything(rows: seq<MedPersonaPatient>)
    ensures Remaining(rows, map[]) == []
  {
    SelectNone(rows, (x: MedPersonaPatient) => !Admits(x, map[]));
  }

  /** The MedPersonaPatient table and its delete handler. */
  class MedPersonaPatientTable {
    var rows: seq<MedPersonaPatient>

    constructor (rows: seq<MedPersonaPatient>)
      ensures this.rows == rows
    {
      this.rows := rows;
    }

    /** `MedPersonaPatientAPIView.delete`: parameters outside the filter
        fields are answered with 406; a value the filter refuses raises,
        uncaught here, which answers 400; otherwise the matching rows are
        deleted. Nothing is removed on either refusal. */
    method Delete(params: map<string, ParamValue>, patients: set<int>, medpersonas: set<int>)
      returns (status: Status)
      modifies this
      ensures !(params.Keys <= FILTER_FIELDS) ==> status == NotAcceptable406 && rows == old(rows)
      ensures params.Keys <= FILTER_FIELDS && !ParamsValid(params, patients, medpersonas) ==>
        status == BadRequest400 && rows == old(rows)
      ensures params.Keys <= FILTER_FIELDS && ParamsValid(params, patients, medpersonas) ==>
        status == Ok200 && rows == Remaining(old(rows), params)
    {
      if !(params.Keys <= FILTER_FIELDS) {
        return NotAcceptable406;
      }
      if !ParamsValid(params, patients, medpersonas) {
        return BadRequest400;
      }
      rows := Remaining(rows, params);
      status := Ok200;
    }
  }

  // ---------------------------------------------------------- medical card

  /** A medical card: its id and its columns by name, `patient` among them. */
  datatype Medcard = Medcard(id: int, attrs: map<string, Value>)

  function PatientOf(c: Medcard): Value
  {
    if "patient" in c.attrs then c.attrs["patient"] else Null
  }

  datatype Lookup = Found(card: Medcard) | Missing(status: Status)

  /** The Medcard table beside the ids of the Patient table. */
  class MedcardStore {
    var patients: set<int>
    var cards: map<int, Medcard>
    var nextId: int

    ghost predicate Valid()
      reads this
    {
      && nextId >= 1
      && forall id :: id in cards ==> cards[id].id == id && 0 < id < nextId
    }

    constructor (patients: set<int>)
      ensures Valid() && this.patients == patients && cards == map[] && nextId == 1
    {
      this.patients := patients;
      cards := map[];
      nextId := 1;
    }

    /** The ids of the cards of patient `pk`. */
    function CardsOf(pk: int): set<int>
      reads this
    {
      set id | id in cards && PatientOf(cards[id]) == Int(pk)
    }

    /** `MedCardView.retrieve`: 404 for an unknown patient or one without a
        card; several cards make `get_object_or_404` raise, which answers
        500. */
    function Retrieve(pk: int): (r: Lookup)
      requires Valid()
      reads this
      ensures r == Missing(NotFound404) <==> pk !in patients || CardsOf(pk) == {}
      ensures r == Missing(ServerError500) <==> pk in patients && |CardsOf(pk)| >= 2
      ensures r.Found? ==> pk in patients && CardsOf(pk) == {r.card.id} && cards[r.card.id] == r.card
      ensures r.Found? || r == Missing(NotFound404) || r == Missing(ServerError500)
    {
      if pk !in patients then Missing(NotFound404)
      else
        var ids := CardsOf(pk);
        if |ids| == 0 then Missing(NotFound404)
        else if |ids| >= 2 then Missing(ServerError500)
        else Found(cards[TheOnly(ids)])
    }

    /** `MedCardView.create`: 404 for an unknown patient; the request data
        gets `patient` set to the path key and is validated by `valid`; a
        valid card is inserted. */
    method Create(pk: int, data: map<string, Value>, valid: map<string, Value> -> bool)
      returns (status: Status, created: Option<Medcard>)
      requires Valid()
      modifies this
      ensures Valid() && patients == old(patients)
      ensures pk !in patients ==> status == NotFound404 && created == None && unchanged(this)
      ensures pk in patients && !valid(data["patient" := Int(pk)]) ==>
        status == BadRequest400 && created == None && unchanged(this)
      ensures pk in patients && valid(data["patient" := Int(pk)]) ==>
        && status == Ok200
        && created == Some(Medcard(old(nextId), data["patient" := Int(pk)]))
        && old(nextId) !in old(cards)
        && cards == old(cards)[old(nextId) := created.value]
        && nextId == old(nextId) + 1
      ensures status == Ok200 && old(CardsOf(pk)) == {} ==> Retrieve(pk) == Found(created.value)
    {
      if pk !in patients {
        return NotFound404, None;
      }
      var entry := data["patient" := Int(pk)];
      if !valid(entry) {
        return BadRequest400, None;
      }
      var card := Medcard(nextId, entry);
      ghost var before := CardsOf(pk);
      cards := cards[nextId := card];
      nextId := nextId + 1;
      created := Some(card);
      status := Ok200;
      assert CardsOf(pk) == before + {card.id};
    }

    /** `MedCardView.update`: the retrieve exits first, then `valid`
        validates the partial data, which is merged over the card's
        columns. */
    method Update(pk: int, data: map<string, Value>, valid: map<string, Value> -> bool)
      returns (status: Status)
      requires Valid()
      modifies this
      ensures Valid() && patients == old(patients) && nextId == old(nextId)
      ensures old(Retrieve(pk)).Missing? ==> status == old(Retrieve(pk)).status && unchanged(this)
      ensures old(Retrieve(pk)).Found? && !valid(data) ==> status == BadRequest400 && unchanged(this)
      ensures old(Retrieve(pk)).Found? && valid(data) ==>
        var c := old(Retrieve(pk)).card;
        status == Ok200 && cards == old(cards)[c.id := Medcard(c.id, c.attrs + data)]
    {
      var r := Retrieve(pk);
      if r.Missing? {
        return r.status;
      }
      if !valid(data) {
        return BadRequest400;
      }
      var c := r.card;
      cards := cards[c.id := Medcard(c.id, c.attrs + data)];
      status := Ok200;
    }
  }
}
