/** The rows an aggregation request of the analytics API answers with
    (`periods[0].values`: a dimension tuple, a value and a volume), the
    projection of the dimension tuple into named columns, and the cell of a
    `pivot_table` over those columns. */
module Aggregation {
  import opened Common

  datatype AggValue = AggValue(dimensions: seq<string>, value: real, volume: int)

  /** A row after `df[name_k] = df["dimensions"].apply(lambda x: x[k])` for
      k < n: the first n dimensions become its keys. */
  datatype Record = Record(keys: seq<string>, value: real, volume: int)

  /** Projects every row onto its first n dimensions; a row with fewer
      dimensions makes `x[k]` raise IndexError. */
  function Project(rows: seq<AggValue>, n: nat): (r: Result<seq<Record>>)
    ensures r.Ok? <==> forall i :: 0 <= i < |rows| ==> n <= |rows[i].dimensions|
    ensures r.Err? ==> r.error == IndexError
    ensures r.Ok? ==> |r.value| == |rows|
    ensures r.Ok? ==> forall i :: 0 <= i < |rows| ==>
              |r.value[i].keys| == n && r.value[i].keys == rows[i].dimensions[..n] &&
              r.value[i].value == rows[i].value && r.value[i].volume == rows[i].volume
  {
    if rows == [] then Ok([])
    else
      var last := rows[|rows| - 1];
      if |last.dimensions| < n then Err(IndexError)
      else match Project(rows[..|rows| - 1], n)
        case Err(e) => Err(e)
        case Ok(init) => Ok(init + [Record(last.dimensions[..n], last.value, last.volume)])
  }

  /** `json_normalize(values)` followed by the projection of
      `df["dimensions"]`: an answer without rows gives a frame without any
      column, so that first read raises KeyError before any row is looked
      at; otherwise the projection decides. */
  function ProjectAnswer(values: seq<AggValue>, n: nat): (r: Result<seq<Record>>)
    ensures r.Err? && r.error == KeyError("dimensions") <==> values == []
    ensures r.Ok? <==> values != [] && forall i :: 0 <= i < |values| ==> n <= |values[i].dimensions|
    ensures r.Err? && values != [] ==> r.error == IndexError
    ensures r.Ok? ==> r == Project(values, n)
  {
    if values == [] then Err(KeyError("dimensions")) else Project(values, n)
  }

  function Sum(xs: seq<real>): real {
    if xs == [] then 0.0 else Sum(xs[..|xs| - 1]) + xs[|xs| - 1]
  }

  /** `Series.mean()` of a non-empty series. */
  function Mean(xs: seq<real>): (m: real)
    requires xs != []
    ensures m * (|xs| as real) == Sum(xs)
  {
    Sum(xs) / (|xs| as real)
  }

  /** The cell of `pivot_table(index=..., columns=..., values=...)` at the
      given keys: the mean (pandas' default aggregate) of the measure over
      the records with those keys, missing (NaN) when there is none. */
  function PivotCell(recs: seq<Record>, key: seq<string>, measure: Record -> real): (r: Option<real>)
    ensures r.None? <==> forall i :: 0 <= i < |recs| ==> recs[i].keys != key
  {
    var matches := Filter(recs, (x: Record) => x.keys == key);
    if matches == [] then
      assert forall i :: 0 <= i < |recs| ==> recs[i] !in matches;
      None
    else
      Some(Sum(seq(|matches|, k requires 0 <= k < |matches| => measure(matches[k]))) / (|matches| as real))
  }

  /** `fillna(0)` after the pivot: a missing combination counts as zero. */
  function FilledCell(recs: seq<Record>, key: seq<string>, measure: Record -> real): (r: real)
    ensures (forall i :: 0 <= i < |recs| ==> recs[i].keys != key) ==> r == 0.0
  {
    match PivotCell(recs, key, measure)
    case None => 0.0
    case Some(v) => v
  }

  /** The values of key k over the records (`df[name_k]`). */
  function Column(recs: seq<Record>, k: nat): (c: seq<string>)
    requires forall i :: 0 <= i < |recs| ==> k < |recs[i].keys|
    ensures |c| == |recs|
    ensures forall i :: 0 <= i < |recs| ==> c[i] == recs[i].keys[k]
  {
    seq(|recs|, i requires 0 <= i < |recs| => recs[i].keys[k])
  }

  /** The rows of a `pivot_table(index=name_0, columns=name_1)`: each value of
      key 0, once. */
  function PivotIndex(recs: seq<Record>): (index: seq<string>)
    requires forall i :: 0 <= i < |recs| ==> 1 <= |recs[i].keys|
    ensures forall x :: x in index <==> x in Column(recs, 0)
    ensures NoDuplicates(index)
  {
    DistinctOrdered(Column(recs, 0));
    Distinct(Column(recs, 0))
  }

  /** The index of a `pivot_table(index=[name_1, name_0])`: each pair of
      keys 1 and 0 of the records, once. */
  function PairIndex(recs: seq<Record>): (index: seq<(string, string)>)
    requires forall i :: 0 <= i < |recs| ==> 3 <= |recs[i].keys|
    ensures forall x :: x in index <==> exists i :: 0 <= i < |recs| && x == (recs[i].keys[1], recs[i].keys[0])
    ensures NoDuplicates(index)
  {
    var pairs := seq(|recs|, i requires 0 <= i < |recs| => (recs[i].keys[1], recs[i].keys[0]));
    DistinctOrdered(pairs);
    assert forall x :: x in pairs ==> exists i :: 0 <= i < |recs| && x == (recs[i].keys[1], recs[i].keys[0]) by {
      forall x | x in pairs ensures exists i :: 0 <= i < |recs| && x == (recs[i].keys[1], recs[i].keys[0]) {
        var i :| 0 <= i < |pairs| && pairs[i] == x;
      }
    }
    assert forall i :: 0 <= i < |recs| ==> (recs[i].keys[1], recs[i].keys[0]) in pairs by {
      forall i | 0 <= i < |recs| ensures (recs[i].keys[1], recs[i].keys[0]) in pairs {
        assert pairs[i] == (recs[i].keys[1], recs[i].keys[0]);
      }
    }
    Distinct(pairs)
  }

  /** The pivot has a column `name` when some record has that value of key 1. */
  predicate HasPivotColumn(recs: seq<Record>, name: string)
    requires forall i :: 0 <= i < |recs| ==> 2 <= |recs[i].keys|
  {
    exists i :: 0 <= i < |recs| && recs[i].keys[1] == name
  }

  /** A mean of non-negative measures is non-negative, and so is its filled cell. */
  lemma FilledCellNonNegative(recs: seq<Record>, key: seq<string>, measure: Record -> real)
    requires forall i :: 0 <= i < |recs| ==> 0.0 <= measure(recs[i])
    ensures 0.0 <= FilledCell(recs, key, measure)
  {
    var matches := Filter(recs, (x: Record) => x.keys == key);
    if matches != [] {
      var ms := seq(|matches|, k requires 0 <= k < |matches| => measure(matches[k]));
      forall k | 0 <= k < |ms| ensures 0.0 <= ms[k] {
        assert matches[k] in recs;
      }
      SumNonNegative(ms);
    }
  }

  lemma {:induction false} SumNonNegative(xs: seq<real>)
    requires forall k :: 0 <= k < |xs| ==> 0.0 <= xs[k]
    ensures 0.0 <= Sum(xs)
  {
    if xs != [] {
      SumNonNegative(xs[..|xs| - 1]);
    }
  }

  /** When exactly one record carries the keys, the pivot cell is its measure. */
  lemma PivotCellUnique(recs: seq<Record>, key: seq<string>, measure: Record -> real, i: nat)
    requires i < |recs| && recs[i].keys == key
    requires forall j :: 0 <= j < |recs| && j != i ==> recs[j].keys != key
    ensures PivotCell(recs, key, measure) == Some(measure(recs[i]))
    ensures FilledCell(recs, key, measure) == measure(recs[i])
  {
    var p := (x: Record) => x.keys == key;
    FilterSingle(recs, p, i);
    var matches := Filter(recs, p);
    assert matches == [recs[i]];
    var ms := seq(|matches|, k requires 0 <= k < |matches| => measure(matches[k]));
    assert ms == [measure(recs[i])];
    assert Sum(ms) == Sum([]) + measure(recs[i]);
  }

  lemma {:induction false} FilterSingle<T(!new)>(s: seq<T>, p: T -> bool, i: nat)
    requires i < |s| && p(s[i])
    requires forall j :: 0 <= j < |s| && j != i ==> !p(s[j])
    ensures Filter(s, p) == [s[i]]
  {
    var init := s[..|s| - 1];
    if i == |s| - 1 {
      FilterNone(init, p);
    } else {
      FilterSingle(init, p, i);
    }
  }

  lemma {:induction false} FilterNone<T(!new)>(s: seq<T>, p: T -> bool)
    requires forall j :: 0 <= j < |s| ==> !p(s[j])
    ensures Filter(s, p) == []
  {
    if s != [] {
      FilterNone(s[..|s| - 1], p);
    }
  }
}
