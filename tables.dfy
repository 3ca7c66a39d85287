/** A queryset is modelled as a sequence of rows; `Select` is the
    `filter(...)` of the ORM: it keeps, in order, the rows that satisfy a
    condition. */
module Tables {

  function Select<T(!new)>(rows: seq<T>, keep: T -> bool): (r: seq<T>)
    ensures forall x :: x in r <==> x in rows && keep(x)
    ensures multiset(r) <= multiset(rows)
    ensures |r| <= |rows|
  {
    if rows == [] then []
    else
      var rest := Select(rows[1..], keep);
      assert rows == [rows[0]] + rows[1..];
      if keep(rows[0]) then [rows[0]] + rest else rest
  }

  /** Filtering twice with the same condition is filtering once. */
  lemma {:induction false} SelectIdempotent<T(!new)>(rows: seq<T>, keep: T -> bool)
    ensures Select(Select(rows, keep), keep) == Select(rows, keep)
  {
    if rows != [] {
      SelectIdempotent(rows[1..], keep);
    }
  }

  /** A condition every row satisfies keeps the whole queryset. */
  lemma {:induction false} SelectAll<T(!new)>(rows: seq<T>, keep: T -> bool)
    requires forall x :: x in rows ==> keep(x)
    ensures Select(rows, keep) == rows
  {
    if rows != [] {
      SelectAll(rows[1..], keep);
    }
  }

  /** A condition no row satisfies empties the queryset. */
  lemma {:induction false} SelectNone<T(!new)>(rows: seq<T>, keep: T -> bool)
    requires forall x :: x in rows ==> !keep(x)
    ensures Select(rows, keep) == []
  {
    if rows != [] {
      SelectNone(rows[1..], keep);
    }
  }

  predicate NoDuplicates<T(==)>(s: seq<T>)
  {
    forall i, j :: 0 <= i < j < |s| ==> s[i] != s[j]
  }

  /** A non-empty set of ids has a member (stated for `int`, where the
      verifier needs it spelt out). */
  lemma HasMember(s: set<int>)
    requires s != {}
    ensures exists x :: x in s
  {
    if forall y :: y !in s { assert false; }
  }

  /** The single element of a one-element set. */
  function TheOnly(ids: set<int>): (l: int)
    requires |ids| == 1
    ensures ids == {l}
  {
    if ids == {} then assert false; 0
    else
      HasMember(ids);
      var l :| l in ids;
      assert |ids - {l}| == 0;
      l
  }
}
