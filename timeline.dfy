/** Opinions over time in the retail feedbacks.

    Three monthly views: the volume of the five opinions with the largest
    volume over the year; per (opinion, month) the share of each polarity,
    added to the polarity pivot as three percentage columns one after the
    other; and the NPS of each (opinion, month). */
module Timeline {
  import opened Common
  import opened Aggregation

  const TopCount := 5

  const Positive := "POSITIVE"
  const Negative := "NEGATIVE"
  const Neutral := "NEUTRAL"
  const PosPerc := "POS_PERC"
  const NegPerc := "NEG_PERC"
  const NeuPerc := "NEU_PERC"

  /* ------------------------------------------------------------------ */
  /* Volume of the top opinions                                          */
  /* ------------------------------------------------------------------ */

  function Volume(x: Record): real {
    x.volume as real
  }

  /** The month x opinion pivot of the volumes with missing cells zero-filled. */
  function VolumeOf(recs: seq<Record>): (string, string) -> real {
    (month: string, opinion: string) => FilledCell(recs, [month, opinion], Volume)
  }

  /** An opinion's column added up over the months (`df.sum()`). */
  function ColumnTotal(months: seq<string>, cell: (string, string) -> real, opinion: string): real {
    Sum(seq(|months|, j requires 0 <= j < |months| => cell(months[j], opinion)))
  }

  datatype OpinionTotal = OpinionTotal(opinion: string, total: real)

  function Totals(opinions: seq<string>, total: string -> real): (t: seq<OpinionTotal>)
    ensures |t| == |opinions|
    ensures forall k :: 0 <= k < |t| ==> t[k] == OpinionTotal(opinions[k], total(opinions[k]))
  {
    seq(|opinions|, k requires 0 <= k < |opinions| => OpinionTotal(opinions[k], total(opinions[k])))
  }

  /** The total volume of an opinion over the months of the answer. */
  function OpinionTotalOf(recs: seq<Record>, opinion: string): real
    requires forall i :: 0 <= i < |recs| ==> 2 <= |recs[i].keys|
  {
    ColumnTotal(Distinct(Column(recs, 0)), VolumeOf(recs), opinion)
  }

  /** `df.sum()`: one total per pivot column, that is per opinion. */
  function OpinionTotals(recs: seq<Record>): seq<OpinionTotal>
    requires forall i :: 0 <= i < |recs| ==> 2 <= |recs[i].keys|
  {
    Totals(Distinct(Column(recs, 1)), (o: string) => OpinionTotalOf(recs, o))
  }

  /** `sort_values(ascending=False)`: a may come before b. */
  predicate ByTotal(a: OpinionTotal, b: OpinionTotal) {
    a.total >= b.total
  }

  /** `.sort_values(ascending=False).iloc[:5]` */
  function TopTotals(recs: seq<Record>): seq<OpinionTotal>
    requires forall i :: 0 <= i < |recs| ==> 2 <= |recs[i].keys|
  {
    Largest(OpinionTotals(recs))
  }

  /** The first five totals once sorted by decreasing total. */
  function Largest(totals: seq<OpinionTotal>): seq<OpinionTotal> {
    Take(SortBy(totals, ByTotal), TopCount)
  }

  function Names(t: seq<OpinionTotal>): (names: seq<string>)
    ensures |names| == |t|
    ensures forall k :: 0 <= k < |t| ==> names[k] == t[k].opinion
  {
    seq(|t|, k requires 0 <= k < |t| => t[k].opinion)
  }

  /** Lines 88-97: month and opinion from dimensions 0 and 1, pivot, fill
      with 0, and the index of the five largest column totals. */
  function TopOpinions(values: seq<AggValue>): Result<seq<string>> {
    match ProjectAnswer(values, 2)
    case Err(e) => Err(e)
    case Ok(recs) => Ok(Names(TopTotals(recs)))
  }

  /** Sorting the totals of some opinions and keeping five: at most five of
      those opinions, by decreasing total, and every opinion left out has a
      total no larger than the fifth. */
  lemma TopOfTotals(opinions: seq<string>, total: string -> real)
    ensures |Largest(Totals(opinions, total))| <= TopCount
    ensures forall i, j :: 0 <= i < j < |Largest(Totals(opinions, total))| ==>
              Largest(Totals(opinions, total))[i].total >= Largest(Totals(opinions, total))[j].total
    ensures forall j :: 0 <= j < |Largest(Totals(opinions, total))| ==>
              Largest(Totals(opinions, total))[j].opinion in opinions &&
              Largest(Totals(opinions, total))[j].total == total(Largest(Totals(opinions, total))[j].opinion)
    ensures forall o :: o in opinions && o !in Names(Largest(Totals(opinions, total))) ==>
              |Largest(Totals(opinions, total))| == TopCount &&
              total(o) <= Largest(Totals(opinions, total))[TopCount - 1].total
  {
    var totals := Totals(opinions, total);
    SortedPrefix(totals, ByTotal, TopCount);
    var top := Largest(totals);
    forall j | 0 <= j < |top|
      ensures top[j].opinion in opinions && top[j].total == total(top[j].opinion)
    {
      assert top[j] in totals;
      var k :| 0 <= k < |totals| && totals[k] == top[j];
    }
    forall o | o in opinions && o !in Names(top)
      ensures |top| == TopCount && total(o) <= top[TopCount - 1].total
    {
      LeftOutOfTop(opinions, total, o);
    }
  }

  /** An opinion whose name is not among the five kept totals has its own
      total left out of them. */
  lemma LeftOutOfTop(opinions: seq<string>, total: string -> real, o: string)
    requires o in opinions && o !in Names(Largest(Totals(opinions, total)))
    requires forall x :: x in Totals(opinions, total) && x !in Largest(Totals(opinions, total)) ==>
               |Largest(Totals(opinions, total))| == TopCount &&
               ByTotal(Largest(Totals(opinions, total))[TopCount - 1], x)
    ensures |Largest(Totals(opinions, total))| == TopCount
    ensures total(o) <= Largest(Totals(opinions, total))[TopCount - 1].total
  {
    var totals := Totals(opinions, total);
    var top := Largest(totals);
    var k :| 0 <= k < |opinions| && opinions[k] == o;
    var t := totals[k];
    assert t == OpinionTotal(o, total(o));
    forall j | 0 <= j < |top| ensures top[j] != t {
      assert Names(top)[j] == top[j].opinion;
    }
    assert t in totals && t !in top;
  }

  /** The plotted opinions are at most five opinions of the answer (values
      of key 1), by decreasing total volume over the months, and every
      opinion left out has a total no larger than the fifth. */
  lemma TopOpinionsSelection(recs: seq<Record>)
    requires forall i :: 0 <= i < |recs| ==> 2 <= |recs[i].keys|
    ensures var top := TopTotals(recs);
            && |top| <= TopCount
            && (forall i, j :: 0 <= i < j < |top| ==> top[i].total >= top[j].total)
            && (forall j :: 0 <= j < |top| ==>
                  top[j].opinion in Column(recs, 1) && top[j].total == OpinionTotalOf(recs, top[j].opinion))
            && (forall o :: o in Column(recs, 1) && o !in Names(top) ==>
                  |top| == TopCount && OpinionTotalOf(recs, o) <= top[TopCount - 1].total)
  {
    var opinions := Distinct(Column(recs, 1));
    var total := (o: string) => OpinionTotalOf(recs, o);
    DistinctOrdered(Column(recs, 1));
    TopOfTotals(opinions, total);
    assert TopTotals(recs) == Largest(Totals(opinions, total));
  }

  /** The top opinions fail exactly when the answer is empty (KeyError on
      the missing `dimensions` column) or a row has fewer than two
      dimensions (IndexError). Otherwise they are at most five opinions of
      the answer (dimension 1), by decreasing total volume over the months,
      and every opinion left out has a total no larger than the fifth. */
  lemma TopOpinionsMeaning(values: seq<AggValue>)
    ensures var r := TopOpinions(values);
            && (r.Err? && r.error == KeyError("dimensions") <==> values == [])
            && (r.Err? && r.error == IndexError <==>
                  exists i :: 0 <= i < |values| && |values[i].dimensions| < 2)
            && (r.Ok? <==> values != [] && Project(values, 2).Ok?)
    ensures TopOpinions(values).Ok? ==>
              var top := TopOpinions(values).value;
              var recs := Project(values, 2).value;
              && |top| <= TopCount
              && (forall j :: 0 <= j < |top| ==> top[j] in Column(recs, 1))
              && (forall i, j :: 0 <= i < j < |top| ==>
                    OpinionTotalOf(recs, top[i]) >= OpinionTotalOf(recs, top[j]))
              && (forall o :: o in Column(recs, 1) && o !in top ==>
                    |top| == TopCount && OpinionTotalOf(recs, o) <= OpinionTotalOf(recs, top[TopCount - 1]))
  {
    if TopOpinions(values).Ok? {
      var recs := Project(values, 2).value;
      TopOpinionsSelection(recs);
    }
  }

  /* ------------------------------------------------------------------ */
  /* Polarity shares                                                     */
  /* ------------------------------------------------------------------ */

  /** `acc + x` inside `DataFrame.sum(axis="columns")`, which skips NaN cells;
      opposite infinities give NaN. */
  function Plus(acc: Quotient, x: Quotient): (r: Quotient)
    ensures x.NaN? ==> r == acc
    ensures acc.Finite? && x.Finite? ==> r == Finite(acc.z + x.z)
    ensures r.NaN? <==> acc.NaN? || (acc.PosInf? && x.NegInf?) || (acc.NegInf? && x.PosInf?)
  {
    if x.NaN? then acc
    else match acc
      case NaN => NaN
      case Finite(a) => if x.Finite? then Finite(a + x.z) else x
      case PosInf => if x.NegInf? then NaN else PosInf
      case NegInf => if x.PosInf? then NaN else NegInf
  }

  /** The sum of a row, NaN cells skipped (0 when every cell is NaN). A row
      without infinities has a finite sum. */
  function SumSkipNaN(xs: seq<Quotient>): (r: Quotient)
    ensures (forall k :: 0 <= k < |xs| ==> xs[k].Finite? || xs[k].NaN?) ==> r.Finite?
  {
    if xs == [] then Finite(0.0) else Plus(SumSkipNaN(xs[..|xs| - 1]), xs[|xs| - 1])
  }

  /** `100. * cell / den` on float cells. */
  function PercentOf(cell: Quotient, den: Quotient): (r: Quotient)
    ensures cell.NaN? || den.NaN? ==> r.NaN?
    ensures cell.Finite? && den.Finite? && den.z != 0.0 ==> r.Finite? && r.z * den.z == 100.0 * cell.z
    ensures cell.Finite? && (den.PosInf? || den.NegInf?) ==> r == Finite(0.0)
  {
    match cell
    case NaN => NaN
    case Finite(v) =>
      (match den
       case Finite(d) => Divide(100.0 * v, Some(d))
       case NaN => NaN
       case _ => Finite(0.0))
    case _ =>
      (match den
       case Finite(d) => if d >= 0.0 then cell else if cell.PosInf? then NegInf else PosInf
       case _ => NaN)
  }

  function PercentColumn(cells: seq<Quotient>, dens: seq<Quotient>): (col: seq<Quotient>)
    requires |cells| == |dens|
    ensures |col| == |cells|
    ensures forall i :: 0 <= i < |col| ==> col[i] == PercentOf(cells[i], dens[i])
  {
    seq(|cells|, i requires 0 <= i < |cells| => PercentOf(cells[i], dens[i]))
  }

  /** The columns of a frame of n rows: each named column holds n cells. */
  ghost predicate WellFormed(columns: seq<string>, data: map<string, seq<Quotient>>, n: nat) {
    && (forall c :: c in columns ==> c in data && |data[c]| == n)
    && (forall c :: c in data ==> c in columns)
  }

  /** Row i, read across the columns in order. */
  function RowOf(columns: seq<string>, data: map<string, seq<Quotient>>, n: nat, i: nat): (row: seq<Quotient>)
    requires WellFormed(columns, data, n) && i < n
    ensures |row| == |columns|
    ensures forall k :: 0 <= k < |columns| ==> row[k] == data[columns[k]][i]
  {
    seq(|columns|, k requires 0 <= k < |columns| => data[columns[k]][i])
  }

  /** `df.sum(axis="columns")` */
  function RowSumsOf(columns: seq<string>, data: map<string, seq<Quotient>>, n: nat): (sums: seq<Quotient>)
    requires WellFormed(columns, data, n)
    ensures |sums| == n
    ensures forall i :: 0 <= i < n ==> sums[i] == SumSkipNaN(RowOf(columns, data, n, i))
  {
    seq(n, i requires 0 <= i < n => SumSkipNaN(RowOf(columns, data, n, i)))
  }

  /** Adding a column adds its cell to every row sum. */
  lemma AppendColumnSums(columns: seq<string>, data: map<string, seq<Quotient>>, n: nat, name: string, col: seq<Quotient>)
    requires WellFormed(columns, data, n)
    requires name !in columns && |col| == n
    ensures WellFormed(columns + [name], data[name := col], n)
    ensures forall i :: 0 <= i < n ==>
              RowSumsOf(columns + [name], data[name := col], n)[i] == Plus(RowSumsOf(columns, data, n)[i], col[i])
  {
    forall i | 0 <= i < n
      ensures RowSumsOf(columns + [name], data[name := col], n)[i] == Plus(RowSumsOf(columns, data, n)[i], col[i])
    {
      var before := RowOf(columns, data, n, i);
      var after := RowOf(columns + [name], data[name := col], n, i);
      assert after[..|after| - 1] == before;
    }
  }

  /** `pivot_table(index=["opinion", "month"], columns="polarity",
      values="volume")` without a fill: the mean volume of the records of
      (month, opinion, polarity), NaN when there is none. */
  function PolarityCell(recs: seq<Record>, pair: (string, string), polarity: string): (q: Quotient)
    ensures q.Finite? || q.NaN?
    ensures q.NaN? <==> forall i :: 0 <= i < |recs| ==> recs[i].keys != [pair.1, pair.0, polarity]
  {
    match PivotCell(recs, [pair.1, pair.0, polarity], Volume)
    case None => NaN
    case Some(v) => Finite(v)
  }

  /** The polarities of the records, each once (the pivot's columns). */
  function Polarities(recs: seq<Record>): (columns: seq<string>)
    requires forall i :: 0 <= i < |recs| ==> 3 <= |recs[i].keys|
    ensures forall c :: c in columns <==> exists i :: 0 <= i < |recs| && recs[i].keys[2] == c
  {
    var c := Column(recs, 2);
    assert forall x :: x in c ==> exists i :: 0 <= i < |recs| && recs[i].keys[2] == x by {
      forall x | x in c ensures exists i :: 0 <= i < |recs| && recs[i].keys[2] == x {
        var i :| 0 <= i < |c| && c[i] == x;
      }
    }
    DistinctOrdered(c);
    Distinct(c)
  }

  function PolarityData(recs: seq<Record>, index: seq<(string, string)>, columns: seq<string>): (data: map<string, seq<Quotient>>)
    ensures WellFormed(columns, data, |index|)
    ensures forall c, i :: c in columns && 0 <= i < |index| ==> data[c][i] == PolarityCell(recs, index[i], c)
  {
    map c | c in columns :: seq(|index|, i requires 0 <= i < |index| => PolarityCell(recs, index[i], c))
  }

  /** As written, each percentage column divides by the row sum of the
      frame as it stands, which already holds the percentage columns added
      before it. */
  function AsWrittenPercentages(pos: Quotient, neg: Quotient, neu: Quotient, total: Quotient): (Quotient, Quotient, Quotient) {
    var p := PercentOf(pos, total);
    var n := PercentOf(neg, Plus(total, p));
    var u := PercentOf(neu, Plus(Plus(total, p), n));
    (p, n, u)
  }

  /** Each polarity as a share of the row's volume: all three over the same
      total. */
  function SharePercentages(pos: Quotient, neg: Quotient, neu: Quotient, total: Quotient): (Quotient, Quotient, Quotient) {
    (PercentOf(pos, total), PercentOf(neg, total), PercentOf(neu, total))
  }

  /** The (opinion, month) x polarity frame of lines 141-149, to which the
      percentage columns are added in place. */
  class PolarityFrame {
    const index: seq<(string, string)>
    var columns: seq<string>
    var data: map<string, seq<Quotient>>

    ghost predicate Valid()
      reads this
    {
      WellFormed(columns, data, |index|)
    }

    /** Lines 142-146: month, opinion and polarity from dimensions 0, 1 and 2,
        then the pivot. */
    constructor (recs: seq<Record>)
      requires forall i :: 0 <= i < |recs| ==> 3 <= |recs[i].keys|
      ensures Valid()
      ensures index == PairIndex(recs)
      ensures columns == Polarities(recs)
      ensures forall c, i :: c in columns && 0 <= i < |index| ==> data[c][i] == PolarityCell(recs, index[i], c)
    {
      var pairs := PairIndex(recs);
      var polarities := Polarities(recs);
      index := pairs;
      columns := polarities;
      data := PolarityData(recs, pairs, polarities);
    }

    function RowSums(): (sums: seq<Quotient>)
      reads this
      requires Valid()
      ensures |sums| == |index|
    {
      RowSumsOf(columns, data, |index|)
    }

    /** `df[name] = 100. * df[source] / dens`; KeyError when there is no
        column `source`. */
    method AddRatioColumn(name: string, source: string, dens: seq<Quotient>) returns (err: Option<Error>)
      requires Valid()
      requires name !in columns && |dens| == |index|
      modifies this
      ensures Valid()
      ensures source !in old(columns) ==> err == Some(KeyError(source)) && columns == old(columns) && data == old(data)
      ensures source in old(columns) ==>
                && err == None
                && columns == old(columns) + [name]
                && data == old(data)[name := PercentColumn(old(data)[source], dens)]
                && (forall i :: 0 <= i < |index| ==> RowSums()[i] == Plus(old(RowSums())[i], data[name][i]))
    {
      if source !in columns {
        return Some(KeyError(source));
      }
      var col := PercentColumn(data[source], dens);
      AppendColumnSums(columns, data, |index|, name, col);
      data := data[name := col];
      columns := columns + [name];
      err := None;
    }

    /** `df[name] = 100. * df[source] / df.sum(axis="columns")` */
    method AddPercentColumn(name: string, source: string) returns (err: Option<Error>)
      requires Valid()
      requires name !in columns
      modifies this
      ensures Valid()
      ensures source !in old(columns) ==> err == Some(KeyError(source)) && columns == old(columns) && data == old(data)
      ensures source in old(columns) ==>
                && err == None
                && columns == old(columns) + [name]
                && data == old(data)[name := PercentColumn(old(data)[source], old(RowSums()))]
                && (forall i :: 0 <= i < |index| ==> RowSums()[i] == Plus(old(RowSums())[i], data[name][i]))
    {
      var sums := RowSums();
      err := AddRatioColumn(name, source, sums);
    }

    /** Lines 147-149 as written: POS_PERC, then NEG_PERC, then NEU_PERC,
        each over the row sums of the frame as it stands. The script stops
        on KeyError at the first polarity that never occurs, after the
        columns before it were added. */
    method AddPercentages() returns (err: Option<Error>)
      requires Valid()
      requires PosPerc !in columns && NegPerc !in columns && NeuPerc !in columns
      modifies this
      ensures Valid()
      ensures Positive !in old(columns) ==>
                err == Some(KeyError(Positive)) && columns == old(columns) && data == old(data)
      ensures Positive in old(columns) ==>
                && PosPerc in data
                && data[PosPerc] == PercentColumn(old(data)[Positive], old(RowSums()))
                && forall c :: c in old(columns) ==> c in data && data[c] == old(data)[c]
      ensures Positive in old(columns) && Negative !in old(columns) ==>
                err == Some(KeyError(Negative)) && columns == old(columns) + [PosPerc]
      ensures Positive in old(columns) && Negative in old(columns) && Neutral !in old(columns) ==>
                && err == Some(KeyError(Neutral))
                && columns == old(columns) + [PosPerc, NegPerc]
                && forall i :: 0 <= i < |index| ==>
                     data[NegPerc][i] == PercentOf(old(data)[Negative][i], Plus(old(RowSums())[i], data[PosPerc][i]))
      ensures Positive in old(columns) && Negative in old(columns) && Neutral in old(columns) ==>
                && err == None
                && columns == old(columns) + [PosPerc, NegPerc, NeuPerc]
                && forall i :: 0 <= i < |index| ==>
                     (data[PosPerc][i], data[NegPerc][i], data[NeuPerc][i]) ==
                     AsWrittenPercentages(old(data)[Positive][i], old(data)[Negative][i], old(data)[Neutral][i], old(RowSums())[i])
    {
      err := AddPercentColumn(PosPerc, Positive);
      if err.Some? {
        return;
      }
      ghost var afterPos := data;
      err := AddPercentColumn(NegPerc, Negative);
      if err.Some? {
        return;
      }
      err := AddPercentColumn(NeuPerc, Neutral);
      assert data[PosPerc] == afterPos[PosPerc];
    }

    /** The intended percentages: the three columns over the row sums taken
        before any of them is added. */
    method AddSharePercentages() returns (err: Option<Error>)
      requires Valid()
      requires PosPerc !in columns && NegPerc !in columns && NeuPerc !in columns
      modifies this
      ensures Valid()
      ensures err.None? <==> Positive in old(columns) && Negative in old(columns) && Neutral in old(columns)
      ensures err.None? ==>
                && columns == old(columns) + [PosPerc, NegPerc, NeuPerc]
                && (forall c :: c in old(columns) ==> c in data && data[c] == old(data)[c])
                && forall i :: 0 <= i < |index| ==>
                     (data[PosPerc][i], data[NegPerc][i], data[NeuPerc][i]) ==
                     SharePercentages(old(data)[Positive][i], old(data)[Negative][i], old(data)[Neutral][i], old(RowSums())[i])
    {
      var totals := RowSums();
      err := AddRatioColumn(PosPerc, Positive, totals);
      if err.Some? {
        return;
      }
      ghost var afterPos := data;
      err := AddRatioColumn(NegPerc, Negative, totals);
      if err.Some? {
        return;
      }
      err := AddRatioColumn(NeuPerc, Neutral, totals);
      assert data[PosPerc] == afterPos[PosPerc];
    }
  }

  /** The pivot's cells are volumes or NaN, so its row sums are finite. */
  lemma PivotRowSumsFinite(recs: seq<Record>, columns: seq<string>, data: map<string, seq<Quotient>>, n: nat)
    requires WellFormed(columns, data, n)
    requires forall c, i :: c in columns && 0 <= i < n ==> data[c][i].Finite? || data[c][i].NaN?
    ensures forall i :: 0 <= i < n ==> RowSumsOf(columns, data, n)[i].Finite?
  {
  }

  /** The POS_PERC column, the first one added, is the share of the positive
      volume in the row's volume. */
  lemma AsWrittenPositiveShare(p: real, n: real, u: real)
    requires 0.0 < p + n + u
    ensures var r := AsWrittenPercentages(Finite(p), Finite(n), Finite(u), Finite(p + n + u));
            r.0.Finite? && r.0.z * (p + n + u) == 100.0 * p
  {
  }

  /** With finite volumes, the as-written percentages are the positive
      share a, then the negative volume over the total plus a, then the
      neutral volume over the total plus both. */
  lemma AsWrittenValues(p: real, n: real, u: real)
    requires 0.0 < p && 0.0 <= n && 0.0 <= u
    ensures var t := p + n + u;
            var a := Percent(p, t);
            var b := Percent(n, t + a);
            AsWrittenPercentages(Finite(p), Finite(n), Finite(u), Finite(t)) ==
              (Finite(a), Finite(b), Finite(Percent(u, t + a + b)))
  {
  }

  /** `100. * x / t` for a positive t: not negative when x is not. */
  function Percent(x: real, t: real): (r: real)
    requires 0.0 < t
    ensures 0.0 <= x ==> 0.0 <= r
    ensures r * t == 100.0 * x
  {
    assert 0.0 <= x ==> 0.0 <= 100.0 * x / t by {
      if 0.0 <= x {
        QuotientNonNegative(100.0 * x, t);
      }
    }
    100.0 * x / t
  }

  /** As written, once the positive share is in the row sum, the negative
      and neutral shares are taken over a larger total: with a positive
      volume and some other volume, the three percentages add up to less
      than 100. */
  lemma AsWrittenPercentagesUnderstate(p: real, n: real, u: real)
    requires 0.0 < p && 0.0 <= n && 0.0 <= u && 0.0 < n + u
    ensures var r := AsWrittenPercentages(Finite(p), Finite(n), Finite(u), Finite(p + n + u));
            && r.0.Finite? && r.1.Finite? && r.2.Finite?
            && r.0.z + r.1.z + r.2.z < 100.0
  {
    AsWrittenValues(p, n, u);
    var t := p + n + u;
    var a := 100.0 * p / t;
    var b := 100.0 * n / (t + a);
    var c := 100.0 * u / (t + a + b);
    QuotientNonNegative(100.0 * p, t);
    QuotientNonNegative(100.0 * n, t + a);
    SharesOfTotal(p, n, u);
    if 0.0 < n {
      StrictlySmallerOverLarger(100.0 * n, t, t + a);
      SmallerOverLarger(100.0 * u, t, t + a + b);
    } else {
      SmallerOverLarger(100.0 * n, t, t + a);
      StrictlySmallerOverLarger(100.0 * u, t, t + a + b);
    }
  }

  lemma SharesOfTotal(p: real, n: real, u: real)
    requires 0.0 < p + n + u
    ensures 100.0 * p / (p + n + u) + 100.0 * n / (p + n + u) + 100.0 * u / (p + n + u) == 100.0
  {
    var t := p + n + u;
    assert 100.0 * p / t + 100.0 * n / t + 100.0 * u / t == 100.0 * t / t;
  }

  lemma QuotientNonNegative(x: real, y: real)
    requires 0.0 <= x && 0.0 < y
    ensures 0.0 <= x / y
  {
  }

  lemma SmallerOverLarger(x: real, y: real, z: real)
    requires 0.0 <= x && 0.0 < y <= z
    ensures x / z <= x / y
  {
    assert x / z * z == x == x / y * y;
    assert x / z * y <= x / z * z by { QuotientNonNegative(x, z); }
  }

  lemma StrictlySmallerOverLarger(x: real, y: real, z: real)
    requires 0.0 < x && 0.0 < y < z
    ensures x / z < x / y
  {
    assert x / z * z == x == x / y * y;
    assert 0.0 < x / z;
    assert x / z * y < x / z * z;
  }

  /** With positive volume 1, negative volume 1 and neutral volume 0,
      POS_PERC is 50 but NEG_PERC is 100/52 instead of 50. */
  lemma AsWrittenPercentagesCounterexample()
    ensures var r := AsWrittenPercentages(Finite(1.0), Finite(1.0), Finite(0.0), SumSkipNaN([Finite(1.0), Finite(0.0), Finite(1.0)]));
            && r.0 == Finite(50.0)
            && r.1 == Finite(100.0 / 52.0)
            && r.2 == Finite(0.0)
  {
    RowSumOfOneZeroOne();
    AsWrittenValues(1.0, 1.0, 0.0);
    assert 100.0 * 1.0 / 2.0 == 50.0;
    assert 100.0 * 1.0 / (2.0 + 50.0) == 100.0 / 52.0;
  }

  lemma RowSumOfOneZeroOne()
    ensures SumSkipNaN([Finite(1.0), Finite(0.0), Finite(1.0)]) == Finite(2.0)
  {
    assert [Finite(1.0), Finite(0.0), Finite(1.0)][..2] == [Finite(1.0), Finite(0.0)];
    assert [Finite(1.0), Finite(0.0)][..1] == [Finite(1.0)];
  }

  /** Over the row's volume, the three shares are percentages that add up to
      100. */
  lemma SharePercentagesSumTo100(p: real, n: real, u: real)
    requires 0.0 <= p && 0.0 <= n && 0.0 <= u && 0.0 < p + n + u
    ensures var r := SharePercentages(Finite(p), Finite(n), Finite(u), Finite(p + n + u));
            && r.0.Finite? && r.1.Finite? && r.2.Finite?
            && r.0.z + r.1.z + r.2.z == 100.0
            && 0.0 <= r.0.z <= 100.0 && 0.0 <= r.1.z <= 100.0 && 0.0 <= r.2.z <= 100.0
  {
    var t := p + n + u;
    var r := SharePercentages(Finite(p), Finite(n), Finite(u), Finite(t));
    assert r.0.z == 100.0 * p / t && r.1.z == 100.0 * n / t && r.2.z == 100.0 * u / t;
    SharesOfTotal(p, n, u);
    ShareAtMost100(p, t);
    ShareAtMost100(n, t);
    ShareAtMost100(u, t);
  }

  lemma ShareAtMost100(x: real, t: real)
    requires 0.0 <= x <= t && 0.0 < t
    ensures 0.0 <= 100.0 * x / t <= 100.0
  {
    QuotientNonNegative(100.0 * x, t);
    assert 100.0 * x / t * t == 100.0 * x <= 100.0 * t;
  }

  /* ------------------------------------------------------------------ */
  /* NPS over time                                                       */
  /* ------------------------------------------------------------------ */

  /** A row after lines 205-209: indexed by (opinion, month), with the
      volume and the value renamed NPS; the dimensions are dropped. */
  datatype NpsRow = NpsRow(opinion: string, month: string, volume: int, nps: real)

  function NpsRows(recs: seq<Record>): (rows: seq<NpsRow>)
    requires forall i :: 0 <= i < |recs| ==> 2 <= |recs[i].keys|
    ensures |rows| == |recs|
    ensures forall i :: 0 <= i < |recs| ==>
              rows[i] == NpsRow(recs[i].keys[1], recs[i].keys[0], recs[i].volume, recs[i].value)
  {
    seq(|recs|, i requires 0 <= i < |recs| => NpsRow(recs[i].keys[1], recs[i].keys[0], recs[i].volume, recs[i].value))
  }

  /** Lines 205-209: month and opinion from dimensions 0 and 1, then the
      reindexed table. */
  function NpsTable(values: seq<AggValue>): Result<seq<NpsRow>> {
    match ProjectAnswer(values, 2)
    case Err(e) => Err(e)
    case Ok(recs) => Ok(NpsRows(recs))
  }

  /** The table fails exactly when the answer is empty (KeyError on
      `dimensions`) or a row has fewer than two dimensions (IndexError);
      otherwise it keeps every row, in order, with its opinion, month,
      volume and NPS. */
  lemma NpsTableRows(values: seq<AggValue>)
    ensures var r := NpsTable(values);
            && (r.Ok? <==> values != [] && forall i :: 0 <= i < |values| ==> 2 <= |values[i].dimensions|)
            && (r.Err? ==> r.error == if values == [] then KeyError("dimensions") else IndexError)
            && (r.Ok? ==> |r.value| == |values|)
            && (r.Ok? ==> forall i :: 0 <= i < |values| ==>
                  r.value[i] == NpsRow(values[i].dimensions[1], values[i].dimensions[0], values[i].volume, values[i].value))
  {
  }
}
