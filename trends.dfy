/** Trending opinions of the retail feedbacks, week by week.

    The (week, opinion, polarity) volumes are pivoted into one row per
    (opinion, week) with a positive, a negative and a neutral count (0 when
    missing) and their total; only rows whose total exceeds 10 are kept.
    For each week w from 18 to 22 the reference window is the four weeks
    before it; each opinion's deviation in week w is its count minus the
    window mean, divided by the window's standard deviation, and the trends
    are the at most five opinions deviating by more than 1, largest first. */
module Trends {
  import opened Common
  import opened Aggregation

  const Positive := "POSITIVE"
  const NegativePolarity := "NEGATIVE"
  const Neutral := "NEUTRAL"

  /** `"2015-W%d"` */
  const WeekPrefix := "2015-W"
  const FirstWeek := 18
  const LastWeek := 22
  const WindowLength := 4
  const SignificantVolume := 10.0
  const TopCount := 5

  /* ------------------------------------------------------------------ */
  /* The (opinion, week) table                                           */
  /* ------------------------------------------------------------------ */

  /** A row of the pivot after `rename`, `fillna(0)` and `df["all"]`. */
  datatype TrendRow = TrendRow(opinion: string, week: string, pos: real, neg: real, neu: real, all: real)

  /** The columns a trend is looked for in. */
  datatype Column = Pos | Neg | Neu | All

  function Get(r: TrendRow, c: Column): real {
    match c
    case Pos => r.pos
    case Neg => r.neg
    case Neu => r.neu
    case All => r.all
  }

  function Value(x: Record): real {
    x.value
  }

  /** The pivot cell of (opinion, week, polarity): the mean value of the
      rows with dimensions (week, opinion, polarity), 0 when there is none. */
  function Counts(recs: seq<Record>): (string, string, string) -> real {
    (o: string, w: string, p: string) => FilledCell(recs, [w, o, p], Value)
  }

  /** The row of (o, w); `cell(o, w, p)` is the pivot cell of polarity p. */
  function RowOf(cell: (string, string, string) -> real, o: string, w: string): TrendRow {
    var pos, neg, neu := cell(o, w, Positive), cell(o, w, NegativePolarity), cell(o, w, Neutral);
    TrendRow(o, w, pos, neg, neu, pos + neg + neu)
  }

  function Rows(index: seq<(string, string)>, cell: (string, string, string) -> real)
    : (rows: seq<TrendRow>)
    ensures |rows| == |index|
    ensures forall k :: 0 <= k < |rows| ==> rows[k] == RowOf(cell, index[k].0, index[k].1)
  {
    if index == [] then []
    else Rows(index[..|index| - 1], cell) + [RowOf(cell, index[|index| - 1].0, index[|index| - 1].1)]
  }

  predicate HasPolarity(recs: seq<Record>, p: string)
    requires forall i :: 0 <= i < |recs| ==> 3 <= |recs[i].keys|
  {
    exists i :: 0 <= i < |recs| && recs[i].keys[2] == p
  }

  /** The first of the three polarity columns the pivot lacks, under its new
      name: `df[["pos","neg","neu"]]` then raises KeyError. pandas lists
      every missing label in that one error; only the error kind and the
      first missing label are modelled. */
  function MissingColumn(recs: seq<Record>): (m: Option<string>)
    requires forall i :: 0 <= i < |recs| ==> 3 <= |recs[i].keys|
    ensures m.None? <==> HasPolarity(recs, Positive) && HasPolarity(recs, NegativePolarity) &&
                         HasPolarity(recs, Neutral)
    ensures m.Some? ==> m.value in {"pos", "neg", "neu"}
  {
    if !HasPolarity(recs, Positive) then Some("pos")
    else if !HasPolarity(recs, NegativePolarity) then Some("neg")
    else if !HasPolarity(recs, Neutral) then Some("neu")
    else None
  }

  predicate Significant(r: TrendRow) {
    r.all > SignificantVolume
  }

  /** Lines 100-110 on the projected rows: pivot, fill with 0, total the
      three polarities and keep the rows above 10. */
  function TableOf(recs: seq<Record>): Result<seq<TrendRow>>
    requires forall i :: 0 <= i < |recs| ==> 3 <= |recs[i].keys|
  {
    match MissingColumn(recs)
    case Some(c) => Err(KeyError(c))
    case None => Ok(Filter(Rows(PairIndex(recs), Counts(recs)), Significant))
  }

  /** Lines 95-110: project (week, opinion, polarity), then build the table;
      an empty answer has no `dimensions` column to project. */
  function TrendTable(values: seq<AggValue>): Result<seq<TrendRow>> {
    match ProjectAnswer(values, 3)
    case Err(e) => Err(e)
    case Ok(recs) => TableOf(recs)
  }

  /** The table fails with IndexError exactly when a row has fewer than
      three dimensions, and with KeyError when the answer is empty (on
      `dimensions`) or a polarity never occurs (on that polarity). */
  lemma TrendTableFails(values: seq<AggValue>)
    ensures values == [] ==> TrendTable(values) == Err(KeyError("dimensions"))
    ensures TrendTable(values).Err? && TrendTable(values).error == IndexError <==>
              exists i :: 0 <= i < |values| && |values[i].dimensions| < 3
    ensures TrendTable(values).Ok? <==>
              (forall i :: 0 <= i < |values| ==> 3 <= |values[i].dimensions|) &&
              Mentions(values, Positive) && Mentions(values, NegativePolarity) && Mentions(values, Neutral)
    ensures TrendTable(values).Err? && TrendTable(values).error.KeyError? && values != [] ==>
              TrendTable(values).error.key in {"pos", "neg", "neu"}
  {
    if values != [] && Project(values, 3).Ok? {
      var recs := Project(values, 3).value;
      assert TrendTable(values) == TableOf(recs);
      assert TableOf(recs).Err? ==> TableOf(recs).error == KeyError(MissingColumn(recs).value);
      MentionsProjected(values, Positive);
      MentionsProjected(values, NegativePolarity);
      MentionsProjected(values, Neutral);
    }
  }

  /** Some row has polarity p (dimension 2). */
  predicate Mentions(values: seq<AggValue>, p: string) {
    exists i :: 0 <= i < |values| && 3 <= |values[i].dimensions| && values[i].dimensions[2] == p
  }

  lemma MentionsProjected(values: seq<AggValue>, p: string)
    requires Project(values, 3).Ok?
    ensures HasPolarity(Project(values, 3).value, p) <==> Mentions(values, p)
  {
    var recs := Project(values, 3).value;
    if HasPolarity(recs, p) {
      var i :| 0 <= i < |recs| && recs[i].keys[2] == p;
      assert recs[i].keys[2] == values[i].dimensions[2];
    }
    if Mentions(values, p) {
      var i :| 0 <= i < |values| && 3 <= |values[i].dimensions| && values[i].dimensions[2] == p;
      assert recs[i].keys[2] == values[i].dimensions[2];
    }
  }

  /** Every kept row is a significant (opinion, week) pair of the rows
      (keys 1 and 0 of one of them), with its three mean values (0 for a
      missing polarity) and their total. */
  lemma TrendTableRows(recs: seq<Record>)
    requires forall i :: 0 <= i < |recs| ==> 3 <= |recs[i].keys|
    requires TableOf(recs).Ok?
    ensures forall r :: r in TableOf(recs).value ==>
              && r.all == r.pos + r.neg + r.neu
              && r.all > 10.0
              && r.pos == FilledCell(recs, [r.week, r.opinion, Positive], Value)
              && r.neg == FilledCell(recs, [r.week, r.opinion, NegativePolarity], Value)
              && r.neu == FilledCell(recs, [r.week, r.opinion, Neutral], Value)
              && exists i :: 0 <= i < |recs| && recs[i].keys[1] == r.opinion && recs[i].keys[0] == r.week
  {
    KeptRowsSound(PairIndex(recs), Counts(recs));
    forall r | r in TableOf(recs).value
      ensures r.all == r.pos + r.neg + r.neu && r.all > 10.0
      ensures r.pos == FilledCell(recs, [r.week, r.opinion, Positive], Value)
      ensures r.neg == FilledCell(recs, [r.week, r.opinion, NegativePolarity], Value)
      ensures r.neu == FilledCell(recs, [r.week, r.opinion, Neutral], Value)
      ensures exists i :: 0 <= i < |recs| && recs[i].keys[1] == r.opinion && recs[i].keys[0] == r.week
    {
      KeptRowMeaning(recs, r);
    }
  }

  /** One kept row: its cells, its total, and a row of the answer behind it. */
  lemma KeptRowMeaning(recs: seq<Record>, r: TrendRow)
    requires forall i :: 0 <= i < |recs| ==> 3 <= |recs[i].keys|
    requires r == RowOf(Counts(recs), r.opinion, r.week) && r.all > 10.0
    requires (r.opinion, r.week) in PairIndex(recs)
    ensures r.all == r.pos + r.neg + r.neu && r.all > 10.0
    ensures r.pos == FilledCell(recs, [r.week, r.opinion, Positive], Value)
    ensures r.neg == FilledCell(recs, [r.week, r.opinion, NegativePolarity], Value)
    ensures r.neu == FilledCell(recs, [r.week, r.opinion, Neutral], Value)
    ensures exists i :: 0 <= i < |recs| && recs[i].keys[1] == r.opinion && recs[i].keys[0] == r.week
  {
    PairFromIndex(recs, (r.opinion, r.week));
  }

  /** Every significant (opinion, week) pair of the rows is kept. */
  lemma TrendTableComplete(recs: seq<Record>)
    requires forall i :: 0 <= i < |recs| ==> 3 <= |recs[i].keys|
    requires TableOf(recs).Ok?
    ensures forall i :: 0 <= i < |recs| && RowOf(Counts(recs), recs[i].keys[1], recs[i].keys[0]).all > 10.0 ==>
              RowOf(Counts(recs), recs[i].keys[1], recs[i].keys[0]) in TableOf(recs).value
  {
    var index := PairIndex(recs);
    var table := Filter(Rows(index, Counts(recs)), Significant);
    assert TableOf(recs) == Ok(table);
    var cell := Counts(recs);
    KeptRowsComplete(index, cell);
    forall i | 0 <= i < |recs| && RowOf(cell, recs[i].keys[1], recs[i].keys[0]).all > 10.0
      ensures RowOf(cell, recs[i].keys[1], recs[i].keys[0]) in table
    {
      PairInIndex(recs, i);
    }
  }

  lemma PairFromIndex(recs: seq<Record>, x: (string, string))
    requires forall i :: 0 <= i < |recs| ==> 3 <= |recs[i].keys|
    requires x in PairIndex(recs)
    ensures exists i :: 0 <= i < |recs| && recs[i].keys[1] == x.0 && recs[i].keys[0] == x.1
  {
  }

  lemma PairInIndex(recs: seq<Record>, i: nat)
    requires forall i :: 0 <= i < |recs| ==> 3 <= |recs[i].keys|
    requires i < |recs|
    ensures (recs[i].keys[1], recs[i].keys[0]) in PairIndex(recs)
  {
  }

  /** No (opinion, week) pair appears twice in the table. */
  lemma TrendTableUniquePairs(recs: seq<Record>)
    requires forall i :: 0 <= i < |recs| ==> 3 <= |recs[i].keys|
    requires TableOf(recs).Ok?
    ensures var table := TableOf(recs).value;
            forall i, j :: 0 <= i < j < |table| ==>
              (table[i].opinion, table[i].week) != (table[j].opinion, table[j].week)
  {
    var index := PairIndex(recs);
    var cell := Counts(recs);
    var table := Filter(Rows(index, cell), Significant);
    assert TableOf(recs) == Ok(table);
    KeptRowsUnique(index, cell);
  }

  /** Each significant row of an index is the row of one of its pairs. */
  lemma KeptRowsSound(index: seq<(string, string)>, cell: (string, string, string) -> real)
    ensures forall r :: r in Filter(Rows(index, cell), Significant) ==>
              r == RowOf(cell, r.opinion, r.week) && r.all > 10.0 && (r.opinion, r.week) in index
  {
    var rows := Rows(index, cell);
    forall r | r in Filter(rows, Significant) ensures (r.opinion, r.week) in index {
      var k :| 0 <= k < |rows| && rows[k] == r;
    }
  }

  /** Every significant pair of an index has its row. */
  lemma KeptRowsComplete(index: seq<(string, string)>, cell: (string, string, string) -> real)
    ensures forall x :: x in index && RowOf(cell, x.0, x.1).all > 10.0 ==>
              RowOf(cell, x.0, x.1) in Filter(Rows(index, cell), Significant)
  {
    var rows := Rows(index, cell);
    forall x | x in index && RowOf(cell, x.0, x.1).all > 10.0
      ensures RowOf(cell, x.0, x.1) in Filter(rows, Significant)
    {
      var k :| 0 <= k < |index| && index[k] == x;
      assert rows[k] in rows;
    }
  }

  /** Over distinct pairs, no pair has two significant rows. */
  lemma KeptRowsUnique(index: seq<(string, string)>, cell: (string, string, string) -> real)
    requires NoDuplicates(index)
    ensures forall i, j :: 0 <= i < j < |Filter(Rows(index, cell), Significant)| ==>
              var table := Filter(Rows(index, cell), Significant);
              (table[i].opinion, table[i].week) != (table[j].opinion, table[j].week)
  {
    var rows := Rows(index, cell);
    var table := Filter(rows, Significant);
    RowsNoDuplicates(index, cell);
    FilterNoDuplicates(rows, Significant);
    forall i, j | 0 <= i < j < |table|
      ensures (table[i].opinion, table[i].week) != (table[j].opinion, table[j].week)
    {
      assert table[i] in rows && table[j] in rows;
    }
  }

  /** Distinct pairs give distinct rows, and every row is the one of its pair. */
  lemma RowsNoDuplicates(index: seq<(string, string)>, cell: (string, string, string) -> real)
    requires NoDuplicates(index)
    ensures var rows := Rows(index, cell);
            && NoDuplicates(rows)
            && forall r :: r in rows ==> r == RowOf(cell, r.opinion, r.week)
  {
    var rows := Rows(index, cell);
    forall i, j | 0 <= i < j < |rows| ensures rows[i] != rows[j] {
      assert (rows[i].opinion, rows[i].week) == index[i];
    }
  }

  /* ------------------------------------------------------------------ */
  /* Reference window                                                    */
  /* ------------------------------------------------------------------ */

  function WeekLabel(w: int): string {
    WeekPrefix + IntToString(w)
  }

  /** `["2015-W%d" % i for i in range(week - 4, week)]` */
  function Window(week: int): (wrange: seq<string>)
    ensures |wrange| == WindowLength
  {
    seq(WindowLength, i requires 0 <= i < WindowLength => WeekLabel(week - WindowLength + i))
  }

  lemma WeekLabelInjective(a: int, b: int)
    requires WeekLabel(a) == WeekLabel(b)
    ensures a == b
  {
    assert WeekLabel(a)[|WeekPrefix|..] == IntToString(a);
    assert WeekLabel(b)[|WeekPrefix|..] == IntToString(b);
    IntToStringInjective(a, b);
  }

  /** The window holds exactly the labels of the four weeks before `week`,
      in order. */
  lemma WindowIsFourEarlierWeeks(week: int)
    ensures forall i :: 0 <= i < 4 ==> Window(week)[i] == WeekLabel(week - 4 + i)
    ensures forall x :: x in Window(week) <==> exists i :: week - 4 <= i < week && x == WeekLabel(i)
  {
    var wr := Window(week);
    forall x | x in wr ensures exists i :: week - 4 <= i < week && x == WeekLabel(i) {
      var k :| 0 <= k < 4 && wr[k] == x;
      assert x == WeekLabel(week - 4 + k);
    }
    forall i | week - 4 <= i < week ensures WeekLabel(i) in wr {
      assert wr[i - week + 4] == WeekLabel(i);
    }
  }

  /** Each label of the window appears once, and the analysed week is not
      one of them. */
  lemma WindowExcludesCurrentWeek(week: int)
    ensures NoDuplicates(Window(week))
    ensures WeekLabel(week) !in Window(week)
  {
    var wr := Window(week);
    forall i, j | 0 <= i < j < 4 ensures wr[i] != wr[j] {
      if wr[i] == wr[j] {
        WeekLabelInjective(week - 4 + i, week - 4 + j);
      }
    }
    forall k | 0 <= k < 4 ensures wr[k] != WeekLabel(week) {
      if wr[k] == WeekLabel(week) {
        WeekLabelInjective(week - 4 + k, week);
      }
    }
  }

  /* ------------------------------------------------------------------ */
  /* Deviation                                                           */
  /* ------------------------------------------------------------------ */

  /** The values of column c of opinion o in the weeks of `wrange`. */
  function WindowValues(table: seq<TrendRow>, o: string, wrange: seq<string>, c: Column): (xs: seq<real>)
    ensures |xs| <= |table|
    ensures forall x :: x in xs <==> exists r :: r in table && r.opinion == o && r.week in wrange && Get(r, c) == x
  {
    if table == [] then []
    else
      var r := table[|table| - 1];
      var init := WindowValues(table[..|table| - 1], o, wrange, c);
      if r.opinion == o && r.week in wrange then init + [Get(r, c)] else init
  }

  /** `(current - df_mean) / df_std` for one row and column: NaN when the
      opinion has no row in the window (its mean is NaN); `std` is the
      window's sample standard deviation, None where pandas yields NaN. */
  function DeviationOf(table: seq<TrendRow>, std: seq<real> -> Option<real>, week: int, r: TrendRow, c: Column)
    : Quotient
  {
    var xs := WindowValues(table, r.opinion, Window(week), c);
    if xs == [] then NaN else Divide(Get(r, c) - Mean(xs), std(xs))
  }

  /** `df_var_std[col] > 1` (NaN compares false, +inf is above). */
  predicate Above(d: Quotient) {
    Exceeds(d, 1.0)
  }

  /** A row is a trend in column c exactly when the opinion has rows in the
      window, their standard deviation is defined, and the row's value
      exceeds the window mean by more than that standard deviation. */
  lemma TrendMeansMoreThanOneStd(table: seq<TrendRow>, std: seq<real> -> Option<real>, week: int,
                                 r: TrendRow, c: Column)
    requires forall xs :: std(xs).Some? ==> 0.0 <= std(xs).value
    ensures var xs := WindowValues(table, r.opinion, Window(week), c);
            Above(DeviationOf(table, std, week, r, c)) <==>
              xs != [] && std(xs).Some? && Get(r, c) - Mean(xs) > std(xs).value
  {
    var xs := WindowValues(table, r.opinion, Window(week), c);
    if xs != [] && std(xs).Some? {
      DivideExceeds(Get(r, c) - Mean(xs), std(xs).value, 1.0);
    }
  }

  /* ------------------------------------------------------------------ */
  /* Selection                                                           */
  /* ------------------------------------------------------------------ */

  datatype Trend = Trend(opinion: string, deviation: Quotient)

  /** `sort_values(col, ascending=False)`: a may come before b. */
  predicate Descending(a: Trend, b: Trend) {
    QuotientLe(b.deviation, a.deviation)
  }

  lemma DescendingIsTotalPreorder()
    ensures TotalPreorder(Descending)
  {
    QuotientLeIsTotalPreorder();
  }

  /** The rows of the analysed week with their deviation in column c. */
  function Scored(table: seq<TrendRow>, std: seq<real> -> Option<real>, week: int, c: Column)
    : (ts: seq<Trend>)
    ensures forall t :: t in ts <==> exists r :: r in table && r.week == WeekLabel(week) &&
                                          t == Trend(r.opinion, DeviationOf(table, std, week, r, c))
  {
    var current := Filter(table, (r: TrendRow) => r.week == WeekLabel(week));
    var ts := seq(|current|, k requires 0 <= k < |current| =>
                Trend(current[k].opinion, DeviationOf(table, std, week, current[k], c)));
    forall t | t in ts
      ensures exists r :: r in table && r.week == WeekLabel(week) &&
                          t == Trend(r.opinion, DeviationOf(table, std, week, r, c))
    {
      var k :| 0 <= k < |ts| && ts[k] == t;
      assert current[k] in current;
    }
    forall r | r in table && r.week == WeekLabel(week)
      ensures Trend(r.opinion, DeviationOf(table, std, week, r, c)) in ts
    {
      assert r in current;
      var k :| 0 <= k < |current| && current[k] == r;
      assert ts[k] == Trend(r.opinion, DeviationOf(table, std, week, r, c));
    }
    ts
  }

  predicate IsTrend(t: Trend) {
    Above(t.deviation)
  }

  /** `df_var_std[df_var_std[col] > 1].sort_values(col, ascending=False).iloc[:5]` */
  function TopTrends(table: seq<TrendRow>, std: seq<real> -> Option<real>, week: int, c: Column)
    : seq<Trend>
  {
    Take(SortBy(Filter(Scored(table, std, week, c), IsTrend), Descending), TopCount)
  }

  /** The trends of a week: at most five, all deviating by more than 1, in
      descending order, each a row of that week with its deviation (see
      `Scored`); a row of that week deviating by more than 1 and left out
      means five were found, none deviating less than it. */
  lemma TopTrendsSelection(table: seq<TrendRow>, std: seq<real> -> Option<real>, week: int, c: Column)
    ensures var top := TopTrends(table, std, week, c);
            var scored := Scored(table, std, week, c);
            && |top| <= 5
            && Sorted(top, Descending)
            && (forall k :: 0 <= k < |top| ==> Above(top[k].deviation) && top[k] in scored)
            && (forall t :: t in scored && Above(t.deviation) && t !in top ==>
                  |top| == 5 && Descending(top[4], t))
  {
    var scored := Scored(table, std, week, c);
    DescendingIsTotalPreorder();
    TopKSelection(scored, IsTrend, Descending, TopCount);
  }

  /* ------------------------------------------------------------------ */
  /* The weekly loops                                                    */
  /* ------------------------------------------------------------------ */

  /** What is displayed for one week: a trend list per requested column. */
  datatype WeekTrends = WeekTrends(week: int, trends: seq<seq<Trend>>)

  /** `for week in range(18, 23)`: the trend lists of the requested columns
      (neg and pos in the first display, all in the second), week by week. */
  method DisplayTrends(table: seq<TrendRow>, std: seq<real> -> Option<real>, columns: seq<Column>)
    returns (report: seq<WeekTrends>)
    ensures |report| == LastWeek - FirstWeek + 1
    ensures forall k :: 0 <= k < |report| ==> report[k].week == FirstWeek + k
    ensures forall k :: 0 <= k < |report| ==> |report[k].trends| == |columns|
    ensures forall k, j :: 0 <= k < |report| && 0 <= j < |columns| ==>
              report[k].trends[j] == TopTrends(table, std, report[k].week, columns[j])
  {
    report := [];
    for week := FirstWeek to LastWeek + 1
      invariant |report| == week - FirstWeek
      invariant forall k :: 0 <= k < |report| ==> report[k].week == FirstWeek + k
      invariant forall k :: 0 <= k < |report| ==> |report[k].trends| == |columns|
      invariant forall k, j :: 0 <= k < |report| && 0 <= j < |columns| ==>
                  report[k].trends[j] == TopTrends(table, std, report[k].week, columns[j])
    {
      var lists := WeekLists(table, std, week, columns);
      report := report + [WeekTrends(week, lists)];
    }
  }

  /** `for col in columns`: the trend list of each requested column for one
      week. */
  method WeekLists(table: seq<TrendRow>, std: seq<real> -> Option<real>, week: int, columns: seq<Column>)
    returns (lists: seq<seq<Trend>>)
    ensures |lists| == |columns|
    ensures forall j :: 0 <= j < |columns| ==> lists[j] == TopTrends(table, std, week, columns[j])
  {
    lists := [];
    for j := 0 to |columns|
      invariant |lists| == j
      invariant forall i :: 0 <= i < j ==> lists[i] == TopTrends(table, std, week, columns[i])
    {
      lists := lists + [TopTrends(table, std, week, columns[j])];
    }
  }
}
