/** `applyVisibilityFilter`: drop the rows whose disclosure-status field is
    exactly "closed"; keep every other row, in order and unchanged. */
module VisibilityFilter {
  import opened Records
  import Seqs

  /** The disclosure-status field ("公開の有無"). */
  const VisibilityField: string := "公開の有無"

  /** The row has the field as its own property and it holds exactly "closed"
      (case-sensitive, untrimmed). */
  predicate IsClosed(item: Record)
    ensures VisibilityField !in item ==> !IsClosed(item)
    ensures IsClosed(item) ==> item[VisibilityField] != Str("Closed") && item[VisibilityField] != Str(" closed")
  {
    VisibilityField in item && item[VisibilityField] == Str("closed")
  }

  /** The filter's callback: false only for closed rows. */
  predicate IsVisible(item: Record)
    ensures VisibilityField !in item ==> IsVisible(item)
    ensures VisibilityField in item && item[VisibilityField] == Null ==> IsVisible(item)
  {
    !IsClosed(item)
  }

  /** A parsed row is a plain object with one own property per header cell, so
      a column named "hasOwnProperty" hides the inherited method: calling
      `item.hasOwnProperty(...)` on such a row throws a TypeError. */
  const HasOwnPropertyKey: string := "hasOwnProperty"
  const NotAFunction: string := "item.hasOwnProperty is not a function"

  predicate ShadowsHasOwnProperty(item: Record)
  {
    HasOwnPropertyKey in item
  }

  /** The `csvData.data.filter(...)` call on rows whose `hasOwnProperty` is the
      inherited method: the visible rows, in order. */
  function FilterRows(rows: seq<Record>): (r: seq<Record>)
    ensures |r| <= |rows|
    ensures forall i :: 0 <= i < |r| ==> !IsClosed(r[i])
    ensures forall x :: x in r ==> x in rows
  {
    Seqs.Filter(rows, IsVisible)
  }

  /** `applyVisibilityFilter`: no rows when the argument or its `data` is
      missing; the TypeError when some row shadows `hasOwnProperty` (the
      callback calls it on every row); otherwise the visible rows. */
  function ApplyVisibilityFilter(csvData: Option<CsvData>): (r: Result<seq<Record>>)
    ensures csvData.None? || csvData.value.data.None? ==> r == Ok([])
    ensures csvData.Some? && csvData.value.data.Some? ==>
      var rows := csvData.value.data.value;
      && (r.Throws? <==> exists i :: 0 <= i < |rows| && ShadowsHasOwnProperty(rows[i]))
      && (r.Throws? ==> r.message == NotAFunction)
      && (r.Ok? ==> r.value == FilterRows(rows))
    ensures r.Ok? ==> forall i :: 0 <= i < |r.value| ==> !IsClosed(r.value[i])
  {
    if csvData.None? || csvData.value.data.None? then Ok([])
    else
      var rows := csvData.value.data.value;
      if exists i :: 0 <= i < |rows| && ShadowsHasOwnProperty(rows[i]) then Throws(NotAFunction)
      else Ok(FilterRows(rows))
  }

  /** A row is in the output if and only if it is in the input and either lacks
      the field or holds a value other than "closed" there. */
  lemma {:induction false} KeepIff(rows: seq<Record>, item: Record)
    ensures item in FilterRows(rows) <==>
      item in rows
      && (VisibilityField !in item || item[VisibilityField] != Str("closed"))
  {
    Seqs.FilterMembership(rows, IsVisible, item);
  }

  /** The output is the subsequence of the input at exactly the positions of the
      visible rows: order kept, rows copied unchanged, each kept row as often as
      it occurs in the input. */
  lemma {:induction false} FilterKeepsOrder(rows: seq<Record>)
    ensures var r, idx := FilterRows(rows), Seqs.KeptIndices(rows, IsVisible);
      && |r| == |idx|
      && (forall k :: 0 <= k < |r| ==> idx[k] < |rows| && r[k] == rows[idx[k]])
      && (forall k, m :: 0 <= k < m < |idx| ==> idx[k] < idx[m])
      && (forall j :: 0 <= j < |rows| ==> (j in idx <==> !IsClosed(rows[j])))
  {
    Seqs.FilterIsSubsequence(rows, IsVisible);
  }

  /** Each row occurs in the output as often as in the input unless it is
      closed, in which case it does not occur at all. */
  lemma {:induction false} FilterCounts(rows: seq<Record>, item: Record)
    ensures multiset(FilterRows(rows))[item] == if IsClosed(item) then 0 else multiset(rows)[item]
  {
    Seqs.FilterMultiplicity(rows, IsVisible, item);
  }

  /** Filtering the output again changes nothing. */
  lemma {:induction false} FilterIdempotent(rows: seq<Record>)
    ensures FilterRows(FilterRows(rows)) == FilterRows(rows)
  {
    Seqs.FilterIdempotent(rows, IsVisible);
  }

  /** The output equals the input exactly when no input row is closed; in
      particular when no row has the field at all. */
  lemma {:induction false} FilterIdentityIff(rows: seq<Record>)
    ensures FilterRows(rows) == rows <==> forall i :: 0 <= i < |rows| ==> !IsClosed(rows[i])
  {
    Seqs.FilterIdentity(rows, IsVisible);
  }

  /** A file without the field column: every row comes through, so the output
      has the input's length. */
  lemma {:induction false} MissingColumnKeepsAll(rows: seq<Record>)
    requires forall i :: 0 <= i < |rows| ==> VisibilityField !in rows[i]
    ensures FilterRows(rows) == rows && |FilterRows(rows)| == |rows|
  {
    FilterIdentityIff(rows);
  }

  /** The awards fixture: of seven rows, the second and sixth are "closed"; the
      others ("disclosed", "disclosed", "yes", "", and a seventh that is not
      "closed") come through in order with their values unchanged. */
  lemma {:induction false} AwardsFixture(a1: Record, a2: Record, a3: Record, a4: Record,
                                         a5: Record, a6: Record, a7: Record)
    requires VisibilityField in a1 && a1[VisibilityField] == Str("disclosed")
    requires VisibilityField in a2 && a2[VisibilityField] == Str("closed")
    requires VisibilityField in a3 && a3[VisibilityField] == Str("disclosed")
    requires VisibilityField in a4 && a4[VisibilityField] == Str("yes")
    requires VisibilityField in a5 && a5[VisibilityField] == Str("")
    requires VisibilityField in a6 && a6[VisibilityField] == Str("closed")
    requires !IsClosed(a7)
    ensures FilterRows([a1, a2, a3, a4, a5, a6, a7]) == [a1, a3, a4, a5, a7]
  {
    assert IsClosed(a2) && IsClosed(a6);
    assert [a7][1..] == [];
    assert FilterRows([a7]) == [a7];
    assert [a6, a7][1..] == [a7];
    assert FilterRows([a6, a7]) == [a7];
    assert [a5, a6, a7][1..] == [a6, a7];
    assert FilterRows([a5, a6, a7]) == [a5, a7];
    assert [a4, a5, a6, a7][1..] == [a5, a6, a7];
    assert FilterRows([a4, a5, a6, a7]) == [a4, a5, a7];
    assert [a3, a4, a5, a6, a7][1..] == [a4, a5, a6, a7];
    assert FilterRows([a3, a4, a5, a6, a7]) == [a3, a4, a5, a7];
    assert [a2, a3, a4, a5, a6, a7][1..] == [a3, a4, a5, a6, a7];
    assert FilterRows([a2, a3, a4, a5, a6, a7]) == [a3, a4, a5, a7];
    assert [a1, a2, a3, a4, a5, a6, a7][1..] == [a2, a3, a4, a5, a6, a7];
  }
}
