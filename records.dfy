/** The booking tables of the organizer application: a `Record` (a
    patient's booking) and a `RecordService` row linking a record to a
    service of the catalogue, with the field bounds, defaults and the
    default listing order of `Record`. */
module Records {
  import opened Http
  import opened Tables

  const NAME_MAX_LENGTH := 100
  const DESCRIPTION_MAX_LENGTH := 500

  /** A stored booking. Timestamps are abstract instants (larger is later). */
  datatype Record = Record(
    id: int,
    name: string,
    patient: int,
    dateOfCreation: int,
    dateStart: int,
    dateEnd: int,
    done: bool,
    description: string)

  /** A link from a record to a service. Nothing makes `record` unique. */
  datatype RecordService = RecordService(id: int, record: int, service: int)

  /** The fields of a request body for a record; `None` is a field the
      client left out. */
  datatype RecordFields = RecordFields(
    name: Option<string>,
    patient: Option<int>,
    dateOfCreation: Option<int>,
    dateStart: Option<int>,
    dateEnd: Option<int>,
    done: Option<bool>,
    description: Option<string>)

  /** The stored bounds: `name` at most 100 characters, `description` at
      most 500; both may be empty. */
  predicate WithinBounds(r: Record)
  {
    |r.name| <= NAME_MAX_LENGTH && |r.description| <= DESCRIPTION_MAX_LENGTH
  }

  /** Field validation of a full (non-partial) save: the patient and the
      three timestamps are required and the patient must exist; `name`,
      `done` and `description` may be left out, and when given the texts
      must respect their bounds. */
  predicate FieldsValid(f: RecordFields, patients: set<int>)
  {
    && f.patient.Some? && f.patient.value in patients
    && f.dateOfCreation.Some? && f.dateStart.Some? && f.dateEnd.Some?
    && (f.name.None? || |f.name.value| <= NAME_MAX_LENGTH)
    && (f.description.None? || |f.description.value| <= DESCRIPTION_MAX_LENGTH)
  }

  function OptionOr<T>(o: Option<T>, default: T): T
  {
    if o.Some? then o.value else default
  }

  /** The record a valid body inserts under `id`: left-out fields take the
      model defaults (empty texts, `done == false`). */
  function NewRecord(id: int, f: RecordFields, patients: set<int>): (r: Record)
    requires FieldsValid(f, patients)
    ensures WithinBounds(r) && r.patient in patients
  {
    Record(id, OptionOr(f.name, ""), f.patient.value, f.dateOfCreation.value,
           f.dateStart.value, f.dateEnd.value, OptionOr(f.done, false),
           OptionOr(f.description, ""))
  }

  /** The record a valid body leaves behind when it is saved over `stored`:
      every given field replaces the stored one, left-out optional fields
      keep their stored value, the id never changes. */
  function Overwrite(stored: Record, f: RecordFields, patients: set<int>): (r: Record)
    requires FieldsValid(f, patients) && WithinBounds(stored)
    ensures WithinBounds(r) && r.patient in patients
  {
    Record(stored.id, OptionOr(f.name, stored.name), f.patient.value,
           f.dateOfCreation.value, f.dateStart.value, f.dateEnd.value,
           OptionOr(f.done, stored.done), OptionOr(f.description, stored.description))
  }

  lemma NewRecordDefaults(id: int, f: RecordFields, patients: set<int>)
    requires FieldsValid(f, patients)
    ensures NewRecord(id, f, patients).done == (f.done == Some(true))
    ensures f.name.None? ==> NewRecord(id, f, patients).name == ""
    ensures f.description.None? ==> NewRecord(id, f, patients).description == ""
    ensures NewRecord(id, f, patients).id == id
  {
  }

  lemma OverwriteKeepsOmitted(stored: Record, f: RecordFields, patients: set<int>)
    requires FieldsValid(f, patients) && WithinBounds(stored)
    ensures Overwrite(stored, f, patients).id == stored.id
    ensures f.name.None? ==> Overwrite(stored, f, patients).name == stored.name
    ensures f.done.None? ==> Overwrite(stored, f, patients).done == stored.done
    ensures f.description.None? ==> Overwrite(stored, f, patients).description == stored.description
    ensures f.done.Some? ==> Overwrite(stored, f, patients).done == f.done.value
  {
  }

  // ---------------------------------------------------------------------
  // Default ordering ['done', '-date_start']

  /** `a` may be listed before `b`: by `done` ascending (false first), then
      by `date_start` descending. Rows equal on both keys may come in
      either order. */
  predicate ListedBefore(a: Record, b: Record)
  {
    (!a.done && b.done) || (a.done == b.done && a.dateStart >= b.dateStart)
  }

  predicate DefaultOrdered(s: seq<Record>)
  {
    forall i, j :: 0 <= i < j < |s| ==> ListedBefore(s[i], s[j])
  }

  /** `ListedBefore` is a total preorder, so a default-ordered listing of
      any set of records exists. */
  lemma ListedBeforeIsTotalPreorder(a: Record, b: Record, c: Record)
    ensures ListedBefore(a, a)
    ensures ListedBefore(a, b) || ListedBefore(b, a)
    ensures ListedBefore(a, b) && ListedBefore(b, c) ==> ListedBefore(a, c)
  {
  }

  /** What the default order means: every unfinished record comes before
      every finished one, and records with the same `done` come latest
      start first; and conversely a listing with both properties is in the
      default order. */
  lemma DefaultOrderMeaning(s: seq<Record>)
    ensures DefaultOrdered(s) <==>
      (forall i, j :: 0 <= i < j < |s| && s[i].done ==> s[j].done) &&
      (forall i, j :: 0 <= i < j < |s| && s[i].done == s[j].done ==> s[i].dateStart >= s[j].dateStart)
  {
  }

  /** A record that may precede every row of an ordered listing can be put
      in front of it. */
  lemma PrependOrdered(x: Record, s: seq<Record>)
    requires DefaultOrdered(s)
    requires forall y :: y in s ==> ListedBefore(x, y)
    ensures DefaultOrdered([x] + s)
  {
    forall i, j | 0 <= i < j < |[x] + s| ensures ListedBefore(([x] + s)[i], ([x] + s)[j]) {
      if i > 0 {
        assert ([x] + s)[i] == s[i - 1] && ([x] + s)[j] == s[j - 1];
      } else {
        assert ([x] + s)[j] in s;
      }
    }
  }

  /** Inserts `r` into a default-ordered listing. */
  function InsertOrdered(r: Record, s: seq<Record>): (t: seq<Record>)
    requires DefaultOrdered(s)
    ensures DefaultOrdered(t)
    ensures multiset(t) == multiset(s) + multiset{r}
    ensures NoDuplicates(s) && r !in s ==> NoDuplicates(t)
  {
    if s == [] then [r]
    else if ListedBefore(r, s[0]) then
      PrependOrdered(r, s);
      [r] + s
    else
      var rest := InsertOrdered(r, s[1..]);
      assert s == [s[0]] + s[1..];
      InsertedFrom(r, s, rest);
      PrependOrdered(s[0], rest);
      [s[0]] + rest
  }

  /** The facts InsertOrdered needs about its recursive call. */
  lemma InsertedFrom(r: Record, s: seq<Record>, rest: seq<Record>)
    requires s != [] && DefaultOrdered(s) && !ListedBefore(r, s[0])
    requires multiset(rest) == multiset(s[1..]) + multiset{r}
    ensures forall y :: y in rest ==> ListedBefore(s[0], y)
    ensures NoDuplicates(s) && r !in s ==> s[0] !in rest
  {
    forall y | y in rest ensures ListedBefore(s[0], y) {
      assert multiset(rest)[y] > 0;
      if y != r {
        assert y in multiset(s[1..]);
        var k :| 1 <= k < |s| && s[k] == y;
      }
    }
    if NoDuplicates(s) && r !in s {
      assert s[0] !in s[1..];
      assert multiset(rest)[s[0]] == 0;
    }
  }

  /** The ORM's `ORDER BY done, date_start DESC` over a list of rows. */
  function SortDefault(s: seq<Record>): (t: seq<Record>)
    ensures DefaultOrdered(t)
    ensures multiset(t) == multiset(s)
    ensures NoDuplicates(s) ==> NoDuplicates(t)
  {
    if s == [] then []
    else
      var rest := SortDefault(s[1..]);
      SortStep(s, rest);
      InsertOrdered(s[0], rest)
  }

  /** The facts SortDefault needs about its recursive call. */
  lemma SortStep(s: seq<Record>, rest: seq<Record>)
    requires s != [] && multiset(rest) == multiset(s[1..])
    ensures multiset(s) == multiset(rest) + multiset{s[0]}
    ensures NoDuplicates(s) ==> NoDuplicates(rest) ==> s[0] !in rest
  {
    assert s == [s[0]] + s[1..];
    if NoDuplicates(s) {
      assert s[0] !in s[1..];
      assert multiset(rest)[s[0]] == multiset(s[1..])[s[0]];
    }
  }
}
