/** `TimetableFilter.filter_service`: keep the timetable rows of one
    service, or none when that service does not exist. */
module TimetableFilter {
  import opened Tables

  /** A timetable row, carrying only the column the filter reads. */
  datatype TimeTableRow = TimeTableRow(id: int, service: int)

  /** Python's `int()` on a decimal: drops the fraction, rounding toward
      zero. This is how the primary-key field prepares the `NumberFilter`'s
      decimal value for the lookup. */
  function Trunc(x: real): (k: int)
    ensures x >= 0.0 ==> k as real <= x < k as real + 1.0
    ensures x < 0.0 ==> k as real - 1.0 < x <= k as real
  {
    if x >= 0.0 then x.Floor else -((-x).Floor)
  }

  /** The lookup of the service raises `DoesNotExist` for an unknown id,
      which the filter turns into an empty result. */
  function FilterService(rows: seq<TimeTableRow>, services: set<int>, value: real): (r: seq<TimeTableRow>)
    ensures Trunc(value) in services ==> forall x :: x in r <==> x in rows && x.service == Trunc(value)
    ensures Trunc(value) !in services ==> r == []
    ensures multiset(r) <= multiset(rows)
  {
    var key := Trunc(value);
    if key in services then Select(rows, (x: TimeTableRow) => x.service == key) else []
  }

  /** Filtering twice by the same service is filtering once. */
  lemma FilterServiceIdempotent(rows: seq<TimeTableRow>, services: set<int>, value: real)
    ensures FilterService(FilterService(rows, services, value), services, value) ==
            FilterService(rows, services, value)
  {
    if Trunc(value) in services {
      SelectIdempotent(rows, (x: TimeTableRow) => x.service == Trunc(value));
    }
  }

  /** Filtering a table in which every row belongs to an existing service
      returns the whole table. */
  lemma FilterServiceKeepsOnlyRows(rows: seq<TimeTableRow>, services: set<int>, value: real)
    requires Trunc(value) in services
    requires forall i :: 0 <= i < |rows| ==> rows[i].service == Trunc(value)
    ensures FilterService(rows, services, value) == rows
  {
    SelectAll(rows, (x: TimeTableRow) => x.service == Trunc(value));
  }

  /** A fractional filter value selects the service its whole part names:
      `?service=3.7` and `?service=3` return the same rows. */
  lemma FractionSelectsWholePart(rows: seq<TimeTableRow>, services: set<int>, n: nat, f: real)
    requires 0.0 <= f < 1.0
    ensures FilterService(rows, services, n as real + f) == FilterService(rows, services, n as real)
  {
    assert Trunc(n as real + f) == n;
    assert Trunc(n as real) == n;
  }
}
