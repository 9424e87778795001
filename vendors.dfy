/** Opinions per vendor of the retail feedbacks.

    Rows with a non-positive value are dropped and each remaining row is
    projected onto (vendor, opinion). The first part draws one word cloud
    per vendor, in a ceil(sqrt(n)) x floor(sqrt(n)) grid, from the opinion
    values of that vendor. The second part normalises every value within
    its opinion, `(value - mean) / std` over the vendors mentioning that
    opinion, and shows per vendor the opinions scoring above 0: the last
    15 in ascending order as a bar chart, all of them as a word cloud. */
module Vendors {
  import opened Common
  import opened Aggregation
  import Grid

  const BarCount := 15

  /* ------------------------------------------------------------------ */
  /* Rows                                                                */
  /* ------------------------------------------------------------------ */

  predicate NotNull(v: AggValue) {
    v.value > 0.0
  }

  /** Lines 81-84 (and 137-140): `df[df["value"] > 0]`, then vendor and
      opinion are dimensions 0 and 1. An empty answer gives a frame without
      columns, so the filter's read of `value` raises KeyError; a frame the
      filter empties keeps its columns. */
  function VendorRows(values: seq<AggValue>): Result<seq<Record>> {
    if values == [] then Err(KeyError("value")) else Project(Filter(values, NotNull), 2)
  }

  /** The rows fail with KeyError on `value` exactly when the answer is
      empty, and with IndexError exactly when a row with a positive value
      has fewer than two dimensions; a dropped row is never looked at. */
  lemma VendorRowsFail(values: seq<AggValue>)
    ensures var r := VendorRows(values);
            && (r.Ok? <==>
                  values != [] &&
                  forall i :: 0 <= i < |values| && values[i].value > 0.0 ==> 2 <= |values[i].dimensions|)
            && (r.Err? ==> r.error == if values == [] then KeyError("value") else IndexError)
  {
    var kept := Filter(values, NotNull);
    if values == [] {
    } else if VendorRows(values).Err? {
      var i :| 0 <= i < |kept| && |kept[i].dimensions| < 2;
      assert kept[i] in kept;
      var j :| 0 <= j < |values| && values[j] == kept[i];
    } else {
      forall i | 0 <= i < |values| && values[i].value > 0.0 ensures 2 <= |values[i].dimensions| {
        assert values[i] in kept;
        var j :| 0 <= j < |kept| && kept[j] == values[i];
      }
    }
  }

  /** Only rows with a positive value are kept, each projected onto its
      first two dimensions, and every such row is kept. */
  lemma VendorRowsMeaning(values: seq<AggValue>)
    requires VendorRows(values).Ok?
    ensures var recs := VendorRows(values).value;
            && (forall x :: x in recs ==>
                  x.value > 0.0 && |x.keys| == 2 &&
                  exists v :: v in values && v.value == x.value && v.dimensions[..2] == x.keys)
            && (forall v :: v in values && v.value > 0.0 ==>
                  exists x :: x in recs && x.value == v.value && x.keys == v.dimensions[..2])
  {
    var kept := Filter(values, NotNull);
    var recs := VendorRows(values).value;
    forall x | x in recs
      ensures x.value > 0.0 && |x.keys| == 2 &&
              exists v :: v in values && v.value == x.value && v.dimensions[..2] == x.keys
    {
      var i :| 0 <= i < |recs| && recs[i] == x;
      assert kept[i] in kept;
    }
    forall v | v in values && v.value > 0.0
      ensures exists x :: x in recs && x.value == v.value && x.keys == v.dimensions[..2]
    {
      assert v in kept;
      var i :| 0 <= i < |kept| && kept[i] == v;
      assert recs[i] in recs;
    }
  }

  /* ------------------------------------------------------------------ */
  /* Word clouds of the top opinions per vendor                          */
  /* ------------------------------------------------------------------ */

  /** `list(df["vendor"].unique())` */
  function VendorList(recs: seq<Record>): seq<string>
    requires forall i :: 0 <= i < |recs| ==> 2 <= |recs[i].keys|
  {
    Distinct(Column(recs, 0))
  }

  /** Every vendor of the rows is listed once, in order of first appearance. */
  lemma VendorListMeaning(recs: seq<Record>)
    requires forall i :: 0 <= i < |recs| ==> 2 <= |recs[i].keys|
    ensures var vendors := VendorList(recs);
            && (forall v :: v in vendors <==> exists i :: 0 <= i < |recs| && recs[i].keys[0] == v)
            && NoDuplicates(vendors)
            && (forall i, j :: 0 <= i < j < |vendors| ==>
                  FirstIndex(Column(recs, 0), vendors[i]) < FirstIndex(Column(recs, 0), vendors[j]))
  {
    var c := Column(recs, 0);
    DistinctOrdered(c);
    forall v | v in c ensures exists i :: 0 <= i < |recs| && recs[i].keys[0] == v {
      var i :| 0 <= i < |c| && c[i] == v;
    }
    forall i | 0 <= i < |recs| ensures recs[i].keys[0] in c {
      assert c[i] == recs[i].keys[0];
    }
  }

  /** Lines 88-107: the grid cells of the vendors' word clouds, in vendor
      order, on a grid of `col` columns and enough rows for every vendor
      (the script's `ceil(sqrt(n))` rows can be one short: see
      `Grid.Layout`). */
  function VendorPanels(recs: seq<Record>): (cells: seq<(nat, nat)>)
    requires forall i :: 0 <= i < |recs| ==> 2 <= |recs[i].keys|
    ensures |cells| == |VendorList(recs)|
    ensures forall i :: 0 <= i < |cells| ==>
              cells[i].0 < Grid.FittedRows(|VendorList(recs)|) && cells[i].1 < Grid.Cols(|VendorList(recs)|)
    ensures NoDuplicates(cells)
  {
    Grid.FittedLayout(|VendorList(recs)|)
  }

  /** `{row.opinion: row.value for row in df[df["vendor"] == vendor].itertuples()}` */
  function Frequencies(recs: seq<Record>, vendor: string): (m: map<string, real>)
    requires forall i :: 0 <= i < |recs| ==> 2 <= |recs[i].keys|
    ensures forall o :: o in m <==> exists i :: 0 <= i < |recs| && recs[i].keys[0] == vendor && recs[i].keys[1] == o
    ensures forall o :: o in m ==> exists i :: 0 <= i < |recs| && recs[i].keys[0] == vendor &&
                                               recs[i].keys[1] == o && m[o] == recs[i].value
  {
    if recs == [] then map[]
    else
      var last := recs[|recs| - 1];
      var init := Frequencies(recs[..|recs| - 1], vendor);
      assert forall i :: 0 <= i < |recs| - 1 ==> recs[..|recs| - 1][i] == recs[i];
      if last.keys[0] == vendor then init[last.keys[1] := last.value] else init
  }

  /** When an opinion occurs in several rows of the vendor, the last one
      gives its frequency; all frequencies are positive after the filter. */
  lemma {:induction false} FrequenciesLastWins(recs: seq<Record>, vendor: string, k: nat)
    requires forall i :: 0 <= i < |recs| ==> 2 <= |recs[i].keys|
    requires k < |recs| && recs[k].keys[0] == vendor
    requires forall j :: k < j < |recs| ==> recs[j].keys[0] != vendor || recs[j].keys[1] != recs[k].keys[1]
    ensures Frequencies(recs, vendor)[recs[k].keys[1]] == recs[k].value
  {
    if k < |recs| - 1 {
      var init := recs[..|recs| - 1];
      assert forall j :: k < j < |init| ==> init[j] == recs[j];
      FrequenciesLastWins(init, vendor, k);
    }
  }

  lemma FrequenciesPositive(recs: seq<Record>, vendor: string)
    requires forall i :: 0 <= i < |recs| ==> 2 <= |recs[i].keys| && recs[i].value > 0.0
    ensures forall o :: o in Frequencies(recs, vendor) ==> Frequencies(recs, vendor)[o] > 0.0
  {
  }

  /* ------------------------------------------------------------------ */
  /* Normalised scores                                                   */
  /* ------------------------------------------------------------------ */

  /** `unstack` needs each (opinion, vendor) pair once; otherwise it raises
      ValueError. */
  predicate UniquePairs(recs: seq<Record>)
    requires forall i :: 0 <= i < |recs| ==> 2 <= |recs[i].keys|
  {
    forall i, j :: 0 <= i < j < |recs| ==> recs[i].keys[..2] != recs[j].keys[..2]
  }

  /** Lines 137-144: the rows of the score table, or the error raised. */
  function ScoreRows(values: seq<AggValue>): (r: Result<seq<Record>>)
    ensures r.Ok? ==> VendorRows(values).Ok? && r.value == VendorRows(values).value && UniquePairs(r.value)
    ensures r.Err? && r.error == ValueError <==> VendorRows(values).Ok? && !UniquePairs(VendorRows(values).value)
  {
    match VendorRows(values)
    case Err(e) => Err(e)
    case Ok(recs) => if UniquePairs(recs) then Ok(recs) else Err(ValueError)
  }

  /** The values of the rows of opinion o (one per vendor mentioning it). */
  function OpinionValues(recs: seq<Record>, o: string): (xs: seq<real>)
    requires forall i :: 0 <= i < |recs| ==> 2 <= |recs[i].keys|
    ensures |xs| <= |recs|
    ensures forall x :: x in xs <==> exists i :: 0 <= i < |recs| && recs[i].keys[1] == o && recs[i].value == x
  {
    if recs == [] then []
    else
      var last := recs[|recs| - 1];
      var init := OpinionValues(recs[..|recs| - 1], o);
      assert forall i :: 0 <= i < |recs| - 1 ==> recs[..|recs| - 1][i] == recs[i];
      if last.keys[1] == o then init + [last.value] else init
  }

  /** `groupby(level="opinion").transform(lambda x: (x - x.mean()) / x.std())`
      for one row; `std` is the sample standard deviation of a group, None
      where pandas yields NaN (a single vendor). */
  function Score(recs: seq<Record>, std: seq<real> -> Option<real>, x: Record): Quotient
    requires forall i :: 0 <= i < |recs| ==> 2 <= |recs[i].keys|
    requires 2 <= |x.keys|
  {
    var xs := OpinionValues(recs, x.keys[1]);
    if xs == [] then NaN else Divide(x.value - Mean(xs), std(xs))
  }

  /** A row scores above 0 exactly when its value is above the mean of its
      opinion over the vendors (and the standard deviation is defined). */
  lemma ScoreAboveZero(recs: seq<Record>, std: seq<real> -> Option<real>, k: nat)
    requires forall i :: 0 <= i < |recs| ==> 2 <= |recs[i].keys|
    requires k < |recs|
    requires forall xs :: std(xs).Some? ==> 0.0 <= std(xs).value
    ensures var xs := OpinionValues(recs, recs[k].keys[1]);
            && xs != []
            && (Exceeds(Score(recs, std, recs[k]), 0.0) <==> std(xs).Some? && recs[k].value > Mean(xs))
  {
    var xs := OpinionValues(recs, recs[k].keys[1]);
    assert recs[k].value in xs;
    if std(xs).Some? {
      DivideExceeds(recs[k].value - Mean(xs), std(xs).value, 0.0);
    }
  }

  /** The numerators of an opinion's scores cancel out: the scores are
      centred on the opinion's mean. */
  lemma CentredScores(xs: seq<real>)
    requires xs != []
    ensures Sum(seq(|xs|, k requires 0 <= k < |xs| => xs[k] - Mean(xs))) == 0.0
  {
    var m := Mean(xs);
    SumShift(xs, m);
    assert m * (|xs| as real) == Sum(xs);
  }

  lemma {:induction false} SumShift(xs: seq<real>, m: real)
    ensures Sum(seq(|xs|, k requires 0 <= k < |xs| => xs[k] - m)) == Sum(xs) - m * (|xs| as real)
  {
    var d := seq(|xs|, k requires 0 <= k < |xs| => xs[k] - m);
    if xs != [] {
      var init := xs[..|xs| - 1];
      SumShift(init, m);
      assert d[..|d| - 1] == seq(|init|, k requires 0 <= k < |init| => init[k] - m);
      assert Sum(d) == Sum(d[..|d| - 1]) + d[|d| - 1];
    }
  }

  /** The row of (vendor, o), if any. */
  function FindRow(recs: seq<Record>, vendor: string, o: string): (r: Option<nat>)
    requires forall i :: 0 <= i < |recs| ==> 2 <= |recs[i].keys|
    ensures r.Some? ==> r.value < |recs| && recs[r.value].keys[0] == vendor && recs[r.value].keys[1] == o
    ensures r.None? <==> forall i :: 0 <= i < |recs| ==> recs[i].keys[0] != vendor || recs[i].keys[1] != o
  {
    if recs == [] then None
    else
      var last := recs[|recs| - 1];
      if last.keys[0] == vendor && last.keys[1] == o then Some(|recs| - 1)
      else FindRow(recs[..|recs| - 1], vendor, o)
  }

  /** `df_var.loc[o, vendor]` after `unstack`: the score of the pair's row,
      NaN when the vendor does not mention the opinion. */
  function ScoreCell(recs: seq<Record>, std: seq<real> -> Option<real>, o: string, vendor: string): Quotient
    requires forall i :: 0 <= i < |recs| ==> 2 <= |recs[i].keys|
  {
    match FindRow(recs, vendor, o)
    case None => NaN
    case Some(i) => Score(recs, std, recs[i])
  }

  /** With each pair once, the cell of a row's pair is that row's score. */
  lemma ScoreCellOfRow(recs: seq<Record>, std: seq<real> -> Option<real>, k: nat)
    requires forall i :: 0 <= i < |recs| ==> |recs[i].keys| == 2
    requires UniquePairs(recs)
    requires k < |recs|
    ensures ScoreCell(recs, std, recs[k].keys[1], recs[k].keys[0]) == Score(recs, std, recs[k])
  {
    var i := FindRow(recs, recs[k].keys[0], recs[k].keys[1]).value;
    assert recs[i].keys[..2] == recs[k].keys[..2];
  }

  /* ------------------------------------------------------------------ */
  /* Specific opinions per vendor                                        */
  /* ------------------------------------------------------------------ */

  datatype Specific = Specific(opinion: string, score: Quotient)

  /** `df_var.index`: each opinion once. */
  function OpinionIndex(recs: seq<Record>): seq<string>
    requires forall i :: 0 <= i < |recs| ==> 2 <= |recs[i].keys|
  {
    Distinct(Column(recs, 1))
  }

  /** `df_var[vendor]`: the score of every opinion for the vendor. */
  function VendorColumn(recs: seq<Record>, std: seq<real> -> Option<real>, vendor: string): (col: seq<Specific>)
    requires forall i :: 0 <= i < |recs| ==> 2 <= |recs[i].keys|
    ensures forall s :: s in col <==> s.opinion in OpinionIndex(recs) && s.score == ScoreCell(recs, std, s.opinion, vendor)
  {
    var index := OpinionIndex(recs);
    var col := seq(|index|, k requires 0 <= k < |index| => Specific(index[k], ScoreCell(recs, std, index[k], vendor)));
    forall s: Specific | s.opinion in index && s.score == ScoreCell(recs, std, s.opinion, vendor)
      ensures s in col
    {
      var k :| 0 <= k < |index| && index[k] == s.opinion;
      assert col[k] == s;
    }
    col
  }

  predicate AboveZero(s: Specific) {
    Exceeds(s.score, 0.0)
  }

  predicate ByScore(a: Specific, b: Specific) {
    QuotientLe(a.score, b.score)
  }

  /** Lines 151-153: the scores above 0, ascending (NaN first), the last 15. */
  function BarList(recs: seq<Record>, std: seq<real> -> Option<real>, vendor: string): seq<Specific>
    requires forall i :: 0 <= i < |recs| ==> 2 <= |recs[i].keys|
  {
    TakeLast(SortBy(Filter(VendorColumn(recs, std, vendor), AboveZero), ByScore), BarCount)
  }

  /** The bar chart shows at most 15 opinions, in ascending order, each with
      its score for the vendor, all above 0; an opinion scoring above 0 and
      not shown means 15 are shown, none scoring less than it. */
  lemma BarListSelection(recs: seq<Record>, std: seq<real> -> Option<real>, vendor: string)
    requires forall i :: 0 <= i < |recs| ==> 2 <= |recs[i].keys|
    ensures |BarList(recs, std, vendor)| <= 15
    ensures Sorted(BarList(recs, std, vendor), ByScore)
    ensures forall k :: 0 <= k < |BarList(recs, std, vendor)| ==>
              Exceeds(BarList(recs, std, vendor)[k].score, 0.0) &&
              BarList(recs, std, vendor)[k].opinion in OpinionIndex(recs) &&
              BarList(recs, std, vendor)[k].score == ScoreCell(recs, std, BarList(recs, std, vendor)[k].opinion, vendor)
    ensures forall o :: (o in OpinionIndex(recs) && Exceeds(ScoreCell(recs, std, o, vendor), 0.0) &&
                         Specific(o, ScoreCell(recs, std, o, vendor)) !in BarList(recs, std, vendor)) ==>
              |BarList(recs, std, vendor)| == 15 &&
              QuotientLe(ScoreCell(recs, std, o, vendor), BarList(recs, std, vendor)[0].score)
  {
    var cell := o => ScoreCell(recs, std, o, vendor);
    var col := VendorColumn(recs, std, vendor);
    assert forall s :: s in col <==> s.opinion in OpinionIndex(recs) && s.score == cell(s.opinion);
    ColumnSelection(col, OpinionIndex(recs), cell);
  }

  /** The bar list of any column holding one score `cell(o)` per opinion o
      of `index`. */
  lemma ColumnSelection(col: seq<Specific>, index: seq<string>, cell: string -> Quotient)
    requires forall s :: s in col <==> s.opinion in index && s.score == cell(s.opinion)
    ensures |TakeLast(SortBy(Filter(col, AboveZero), ByScore), BarCount)| <= 15
    ensures Sorted(TakeLast(SortBy(Filter(col, AboveZero), ByScore), BarCount), ByScore)
    ensures forall k :: 0 <= k < |TakeLast(SortBy(Filter(col, AboveZero), ByScore), BarCount)| ==>
              Exceeds(TakeLast(SortBy(Filter(col, AboveZero), ByScore), BarCount)[k].score, 0.0) &&
              TakeLast(SortBy(Filter(col, AboveZero), ByScore), BarCount)[k].opinion in index &&
              TakeLast(SortBy(Filter(col, AboveZero), ByScore), BarCount)[k].score ==
                cell(TakeLast(SortBy(Filter(col, AboveZero), ByScore), BarCount)[k].opinion)
    ensures forall o :: (o in index && Exceeds(cell(o), 0.0) &&
                         Specific(o, cell(o)) !in TakeLast(SortBy(Filter(col, AboveZero), ByScore), BarCount)) ==>
              |TakeLast(SortBy(Filter(col, AboveZero), ByScore), BarCount)| == 15 &&
              QuotientLe(cell(o), TakeLast(SortBy(Filter(col, AboveZero), ByScore), BarCount)[0].score)
  {
    QuotientLeIsTotalPreorder();
    assert TotalPreorder(ByScore);
    LastKSelection(col, AboveZero, ByScore, BarCount);
    var bars := TakeLast(SortBy(Filter(col, AboveZero), ByScore), BarCount);
    forall k | 0 <= k < |bars|
      ensures Exceeds(bars[k].score, 0.0) && bars[k].opinion in index && bars[k].score == cell(bars[k].opinion)
    {
      assert AboveZero(bars[k]) && bars[k] in col;
    }
    forall o | o in index && Exceeds(cell(o), 0.0) && Specific(o, cell(o)) !in bars
      ensures |bars| == 15 && QuotientLe(cell(o), bars[0].score)
    {
      var sp := Specific(o, cell(o));
      assert sp in col && AboveZero(sp);
    }
  }

  /** Line 171: `{k: v for k, v in df_var[vendor].items() if v > 0}` */
  function WordCloudScores(recs: seq<Record>, std: seq<real> -> Option<real>, vendor: string)
    : (m: map<string, Quotient>)
    requires forall i :: 0 <= i < |recs| ==> 2 <= |recs[i].keys|
    ensures forall o :: o in m <==> o in OpinionIndex(recs) && Exceeds(ScoreCell(recs, std, o, vendor), 0.0)
    ensures forall o :: o in m ==> m[o] == ScoreCell(recs, std, o, vendor)
  {
    map o | o in OpinionIndex(recs) && Exceeds(ScoreCell(recs, std, o, vendor), 0.0) :: ScoreCell(recs, std, o, vendor)
  }

  /** Every word of the cloud is an opinion the vendor mentions, with a value
      above its mean over the vendors. */
  lemma WordCloudIsAboveMean(recs: seq<Record>, std: seq<real> -> Option<real>, vendor: string, o: string)
    requires forall i :: 0 <= i < |recs| ==> |recs[i].keys| == 2
    requires forall xs :: std(xs).Some? ==> 0.0 <= std(xs).value
    requires o in WordCloudScores(recs, std, vendor)
    ensures exists k :: 0 <= k < |recs| && recs[k].keys == [vendor, o] &&
                        recs[k].value > Mean(OpinionValues(recs, o))
  {
    var k := CloudWordRow(recs, std, vendor, o);
    ScoreAboveZero(recs, std, k);
  }

  /** The row behind a word of the cloud: the vendor's row for it, of
      positive score. */
  lemma CloudWordRow(recs: seq<Record>, std: seq<real> -> Option<real>, vendor: string, o: string)
    returns (k: nat)
    requires forall i :: 0 <= i < |recs| ==> |recs[i].keys| == 2
    requires Exceeds(ScoreCell(recs, std, o, vendor), 0.0)
    ensures k < |recs| && recs[k].keys == [vendor, o]
    ensures Exceeds(Score(recs, std, recs[k]), 0.0)
  {
    k := FindRow(recs, vendor, o).value;
    assert recs[k].keys == [vendor, o];
  }
}
