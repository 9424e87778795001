/** Impact of each opinion on customer satisfaction (CSAT, the mean of the
    1 to 5 `rating_satisfaction` ratings).

    The script collects the top opinions over two pages, computes the
    reference CSAT of the whole perimeter from the distribution of ratings,
    builds one row per opinion holding the distribution of ratings of the
    documents that mention it, and derives for every row the CSAT of those
    documents, the CSAT of the perimeter without them, and the CSAT of the
    row with its unsatisfied (1 to 3) or satisfied (4 and 5) ratings left
    out, each with its variation against the reference. */
module CsatImpact {
  import opened Common

  /* ------------------------------------------------------------------ */
  /* Two pages of top opinions                                           */
  /* ------------------------------------------------------------------ */

  const PageSize := 50

  /** `for page in range(1,3): top100_opinions += items`. `page(p)` stands
      for the items of the terms search answer for page p of size 50. */
  method CollectTopOpinions(page: int -> seq<Term>) returns (items: seq<Term>)
    ensures items == page(1) + page(2)
    ensures |page(1)| <= PageSize && |page(2)| <= PageSize ==> |items| <= 2 * PageSize
  {
    items := [];
    for p := 1 to 3
      invariant p == 1 ==> items == []
      invariant p == 2 ==> items == page(1)
      invariant p == 3 ==> items == page(1) + page(2)
    {
      items := items + page(p);
    }
  }

  /* ------------------------------------------------------------------ */
  /* Distributions of ratings                                            */
  /* ------------------------------------------------------------------ */

  /** One row of a COUNT aggregation by distinct rating, after `int(...)`
      of its dimension. */
  datatype RatingCount = RatingCount(rating: int, count: int)

  /** `{int(v["dimensions"][0]): v["value"] for v in values}`: a later row
      with the same rating overwrites an earlier one. */
  function DistributionOf(values: seq<RatingCount>): (d: map<int, int>)
    ensures forall r :: r in d <==> exists k :: 0 <= k < |values| && values[k].rating == r
  {
    if values == [] then map[]
    else
      var last := values[|values| - 1];
      var init := DistributionOf(values[..|values| - 1]);
      assert forall k :: 0 <= k < |values| - 1 ==> values[..|values| - 1][k] == values[k];
      init[last.rating := last.count]
  }

  /** The count a distribution holds for a rating is the one of the last row
      with that rating. */
  lemma {:induction false} DistributionLastWins(values: seq<RatingCount>, k: nat)
    requires k < |values|
    requires forall j :: k < j < |values| ==> values[j].rating != values[k].rating
    ensures DistributionOf(values)[values[k].rating] == values[k].count
  {
    if k < |values| - 1 {
      var init := values[..|values| - 1];
      assert forall j :: k < j < |init| ==> init[j] == values[j];
      DistributionLastWins(init, k);
    }
  }

  /** Every rating from 1 to k has a count. */
  ghost predicate HasRatingsUpTo(distr: map<int, int>, k: int) {
    forall i :: 1 <= i <= k ==> i in distr
  }

  /** `sum(i * distr[i] for i in 1..k)`. */
  function RefSum(distr: map<int, int>, k: nat): int
    requires HasRatingsUpTo(distr, k)
  {
    if k == 0 then 0 else RefSum(distr, k - 1) + k * distr[k]
  }

  /** The printing loop over the ratings 1 to 5 that accumulates `ref_sum`,
      then `ref_csat = 1.*ref_sum/ref_total`. Each round looks up
      `ref_distr[i]` (a KeyError when rating i has no document) and divides
      by `ref_total` for the printed percentage (a ZeroDivisionError when
      it is 0, raised in the first round). */
  method ReferenceCsat(distr: map<int, int>, total: int) returns (r: Result<real>)
    ensures r.Ok? <==> HasRatingsUpTo(distr, 5) && total != 0
    ensures r.Ok? ==> HasRatingsUpTo(distr, 5) && r.value == RefSum(distr, 5) as real / total as real
    ensures r == Err(ZeroDivisionError) <==> 1 in distr && total == 0
    ensures r.Err? ==>
              r.error == ZeroDivisionError ||
              exists m :: 1 <= m <= 5 && m !in distr && HasRatingsUpTo(distr, m - 1) &&
                          r.error == KeyError(IntToString(m))
  {
    var sum := 0;
    for i := 1 to 6
      invariant HasRatingsUpTo(distr, i - 1)
      invariant 1 < i ==> total != 0
      invariant sum == RefSum(distr, i - 1)
    {
      if i !in distr {
        return Err(KeyError(IntToString(i)));
      }
      if total == 0 {
        return Err(ZeroDivisionError);
      }
      sum := sum + i * distr[i];
    }
    r := Ok(sum as real / total as real);
  }

  /* ------------------------------------------------------------------ */
  /* The impact table                                                    */
  /* ------------------------------------------------------------------ */

  const ReferenceLabel := "__REF__"

  /** A row of `df_impact`: an opinion (or the reference), the count of
      documents per rating, and the number of documents `base`. */
  datatype ImpactRow = ImpactRow(opinion: string, counts: map<int, int>, base: int)

  /** The answer of the COUNT aggregation for one opinion. */
  datatype DistributionAnswer = DistributionAnswer(values: seq<RatingCount>, total: int)

  /** The row made from an aggregation answer. */
  function RowOf(opinion: string, answer: DistributionAnswer): (row: ImpactRow)
    ensures row.opinion == opinion && row.base == answer.total
    ensures row.counts == DistributionOf(answer.values)
  {
    ImpactRow(opinion, DistributionOf(answer.values), answer.total)
  }

  /** Starts `df_impact` with the reference row, then appends one row per
      opinion in order. `answer(id)` stands for the aggregation answer for
      the documents mentioning the opinion `id`. */
  method BuildImpactTable(refDistr: map<int, int>, refTotal: int, opinions: seq<Term>,
                          answer: string -> DistributionAnswer)
    returns (table: seq<ImpactRow>)
    ensures |table| == |opinions| + 1
    ensures table[0] == ImpactRow(ReferenceLabel, refDistr, refTotal)
    ensures forall k :: 0 <= k < |opinions| ==>
              table[k + 1] == RowOf(opinions[k].id, answer(opinions[k].id))
  {
    table := [ImpactRow(ReferenceLabel, refDistr, refTotal)];
    for i := 0 to |opinions|
      invariant |table| == i + 1
      invariant table[0] == ImpactRow(ReferenceLabel, refDistr, refTotal)
      invariant forall k :: 0 <= k < i ==>
                  table[k + 1] == RowOf(opinions[k].id, answer(opinions[k].id))
    {
      var opinion := opinions[i];
      table := table + [RowOf(opinion.id, answer(opinion.id))];
    }
  }

  /* ------------------------------------------------------------------ */
  /* Per-row columns                                                     */
  /* ------------------------------------------------------------------ */

  /** `df_impact[note]`: a rating with no document is NaN in the row, and
      the row sums skip it, so it counts as 0. */
  function Count(row: ImpactRow, note: int): int {
    if note in row.counts then row.counts[note] else 0
  }

  /** `"%d_weight" % note` = note * count. */
  function Weight(row: ImpactRow, note: int): int {
    note * Count(row, note)
  }

  /** `sum_regular`: the weights of notes 5, 4, 3, 2 and 1. */
  function SumRegular(row: ImpactRow): int {
    Weight(row, 5) + Weight(row, 4) + Weight(row, 3) + Weight(row, 2) + Weight(row, 1)
  }

  /** `sum_unsat`: the weights of notes 3, 2 and 1. */
  function SumUnsat(row: ImpactRow): int {
    Weight(row, 3) + Weight(row, 2) + Weight(row, 1)
  }

  /** `vol_unsat`: the counts of notes 3, 2 and 1. */
  function VolUnsat(row: ImpactRow): int {
    Count(row, 3) + Count(row, 2) + Count(row, 1)
  }

  /** `sum_sat`: the weights of notes 5 and 4. */
  function SumSat(row: ImpactRow): int {
    Weight(row, 5) + Weight(row, 4)
  }

  /** `vol_sat`: the counts of notes 5 and 4. */
  function VolSat(row: ImpactRow): int {
    Count(row, 5) + Count(row, 4)
  }

  /** The number of rated documents of a row. */
  function Volume(row: ImpactRow): int {
    Count(row, 5) + Count(row, 4) + Count(row, 3) + Count(row, 2) + Count(row, 1)
  }

  /** `1. * a / b` on a column: pandas yields NaN or an infinity for b = 0,
      modelled as no value. */
  function Ratio(a: int, b: int): (r: Option<real>)
    ensures r.None? <==> b == 0
    ensures r.Some? ==> r.value * b as real == a as real
  {
    if b == 0 then None else Some(a as real / b as real)
  }

  /** Every column computed for one row of the table, given the reference
      row. */
  datatype Impact = Impact(
    opinion: string,
    sumRegular: int,
    csatRegular: Option<real>,
    varCsatRegular: Option<real>,
    sumWithout: int,
    baseWithout: int,
    csatWithout: Option<real>,
    varCsatWithout: Option<real>,
    sumUnsat: int,
    volUnsat: int,
    csatRmUnsat: Option<real>,
    varCsatRmUnsat: Option<real>,
    sumSat: int,
    volSat: int,
    csatRmSat: Option<real>,
    varCsatRmSat: Option<real>)

  /** `csat_regular`: the mean rating of the row. */
  function CsatRegular(row: ImpactRow): Option<real> {
    Ratio(SumRegular(row), row.base)
  }

  function ImpactOf(row: ImpactRow, ref: ImpactRow): Impact {
    var refCsat := CsatRegular(ref);
    var csat := CsatRegular(row);
    var sumWithout := SumRegular(ref) - SumRegular(row);
    var baseWithout := ref.base - row.base;
    var csatWithout := Ratio(sumWithout, baseWithout);
    var csatRmUnsat := Ratio(SumRegular(row) - SumUnsat(row), row.base - VolUnsat(row));
    var csatRmSat := Ratio(SumRegular(row) - SumSat(row), row.base - VolSat(row));
    Impact(row.opinion,
           SumRegular(row), csat, Minus(csat, refCsat),
           sumWithout, baseWithout, csatWithout, Minus(csatWithout, refCsat),
           SumUnsat(row), VolUnsat(row), csatRmUnsat, Minus(csatRmUnsat, refCsat),
           SumSat(row), VolSat(row), csatRmSat, Minus(csatRmSat, refCsat))
  }

  /** The columns of the whole table; the reference is its first row
      (`df_ref[...][0]`). */
  function ImpactTable(table: seq<ImpactRow>): (r: seq<Impact>)
    requires 0 < |table|
    ensures |r| == |table|
    ensures forall k :: 0 <= k < |table| ==> r[k] == ImpactOf(table[k], table[0])
  {
    seq(|table|, k requires 0 <= k < |table| => ImpactOf(table[k], table[0]))
  }

  /* ------------------------------------------------------------------ */
  /* What the columns mean                                               */
  /* ------------------------------------------------------------------ */

  /** The reference loop and the reference row agree: with all five ratings
      present, `ref_sum` is the reference row's `sum_regular`, so `ref_csat`
      is its `csat_regular`. */
  lemma ReferenceSumIsSumRegular(distr: map<int, int>, total: int)
    requires HasRatingsUpTo(distr, 5)
    ensures RefSum(distr, 5) == SumRegular(ImpactRow(ReferenceLabel, distr, total))
    ensures total != 0 ==>
              CsatRegular(ImpactRow(ReferenceLabel, distr, total)) ==
              Some(RefSum(distr, 5) as real / total as real)
  {
    var row := ImpactRow(ReferenceLabel, distr, total);
    assert RefSum(distr, 1) == Weight(row, 1);
    assert RefSum(distr, 2) == Weight(row, 2) + Weight(row, 1);
    assert RefSum(distr, 3) == Weight(row, 3) + Weight(row, 2) + Weight(row, 1);
    assert RefSum(distr, 4) == Weight(row, 4) + Weight(row, 3) + Weight(row, 2) + Weight(row, 1);
  }

  /** The reference row's variation is 0, and its "without" CSAT is
      missing since nothing is left once it is removed from itself. */
  lemma ReferenceRowImpact(ref: ImpactRow)
    requires ref.base != 0
    ensures ImpactOf(ref, ref).varCsatRegular == Some(0.0)
    ensures ImpactOf(ref, ref).baseWithout == 0 && ImpactOf(ref, ref).sumWithout == 0
    ensures ImpactOf(ref, ref).csatWithout.None? && ImpactOf(ref, ref).varCsatWithout.None?
  {
  }

  /** Removing a row from the reference: `sum_without` and `base_without`
      complete the row's sum and base to the reference's. */
  lemma WithoutComplementsRow(row: ImpactRow, ref: ImpactRow)
    ensures ImpactOf(row, ref).sumWithout + ImpactOf(row, ref).sumRegular == SumRegular(ref)
    ensures ImpactOf(row, ref).baseWithout + row.base == ref.base
  {
  }

  /** The ratings of the reference that the row does not have. */
  function Remainder(ref: ImpactRow, row: ImpactRow): (rest: ImpactRow)
    ensures forall note :: Count(rest, note) == Count(ref, note) - Count(row, note)
    ensures rest.base == ref.base - row.base
  {
    var notes := ref.counts.Keys + row.counts.Keys;
    ImpactRow(row.opinion, map note | note in notes :: Count(ref, note) - Count(row, note),
              ref.base - row.base)
  }

  /** `csat_without` is the CSAT of what is left of the reference
      distribution once the row's ratings are taken out of it: the perimeter
      without the documents that mention the opinion. */
  lemma CsatWithoutIsRemainderCsat(row: ImpactRow, ref: ImpactRow)
    ensures ImpactOf(row, ref).csatWithout == CsatRegular(Remainder(ref, row))
  {
    var rest := Remainder(ref, row);
    assert SumRegular(rest) == SumRegular(ref) - SumRegular(row) by {
      forall note ensures Weight(rest, note) == Weight(ref, note) - Weight(row, note) {
        assert Count(rest, note) == Count(ref, note) - Count(row, note);
      }
    }
  }

  /** `sum_sat` + `sum_unsat` = `sum_regular`, and `vol_sat` + `vol_unsat`
      is the number of rated documents. */
  lemma SatisfiedAndUnsatisfiedSplit(row: ImpactRow, ref: ImpactRow)
    ensures ImpactOf(row, ref).sumSat + ImpactOf(row, ref).sumUnsat == ImpactOf(row, ref).sumRegular
    ensures ImpactOf(row, ref).volSat + ImpactOf(row, ref).volUnsat == Volume(row)
  {
  }

  /** No negative count. */
  ghost predicate Counts(row: ImpactRow) {
    forall note :: note in row.counts ==> 0 <= row.counts[note]
  }

  lemma RatioBetween(a: int, b: int, lo: int, hi: int)
    requires 0 < b && lo * b <= a <= hi * b
    ensures Ratio(a, b).Some?
    ensures lo as real <= Ratio(a, b).value <= hi as real
  {
    var q, y := a as real / b as real, b as real;
    assert q * y == a as real;
    assert (q - lo as real) * y == a as real - lo as real * y;
    assert (hi as real - q) * y == hi as real * y - a as real;
    NonNegativeFactor(q - lo as real, y);
    NonNegativeFactor(hi as real - q, y);
  }

  lemma NonNegativeFactor(x: real, y: real)
    requires 0.0 < y && 0.0 <= x * y
    ensures 0.0 <= x
  {
  }

  /** When `base` counts exactly the rated documents, the CSAT of a row is
      a mean rating between 1 and 5. */
  lemma CsatBetweenOneAndFive(row: ImpactRow)
    requires Counts(row) && row.base == Volume(row) && 0 < row.base
    ensures CsatRegular(row).Some?
    ensures 1.0 <= CsatRegular(row).value <= 5.0
  {
    assert forall note :: 0 <= Count(row, note);
    RatioBetween(SumRegular(row), row.base, 1, 5);
  }

  /** With the unsatisfied ratings left out, only 4s and 5s remain:
      `csat_rm_unsat` lies between 4 and 5. */
  lemma RemovingUnsatisfiedLeavesFourToFive(row: ImpactRow, ref: ImpactRow)
    requires Counts(row) && row.base == Volume(row) && 0 < VolSat(row)
    ensures ImpactOf(row, ref).csatRmUnsat.Some?
    ensures 4.0 <= ImpactOf(row, ref).csatRmUnsat.value <= 5.0
  {
    assert forall note :: 0 <= Count(row, note);
    assert row.base - VolUnsat(row) == VolSat(row);
    assert SumRegular(row) - SumUnsat(row) == SumSat(row);
    RatioBetween(SumSat(row), VolSat(row), 4, 5);
  }

  /** With the satisfied ratings left out, only 1s to 3s remain:
      `csat_rm_sat` lies between 1 and 3. */
  lemma RemovingSatisfiedLeavesOneToThree(row: ImpactRow, ref: ImpactRow)
    requires Counts(row) && row.base == Volume(row) && 0 < VolUnsat(row)
    ensures ImpactOf(row, ref).csatRmSat.Some?
    ensures 1.0 <= ImpactOf(row, ref).csatRmSat.value <= 3.0
  {
    assert forall note :: 0 <= Count(row, note);
    assert row.base - VolSat(row) == VolUnsat(row);
    assert SumRegular(row) - SumSat(row) == SumUnsat(row);
    RatioBetween(SumUnsat(row), VolUnsat(row), 1, 3);
  }

  /** Every variation is the row's figure minus the reference CSAT: it is
      positive exactly when the row's figure beats the reference. */
  lemma VariationsAgainstReference(row: ImpactRow, ref: ImpactRow)
    requires ref.base != 0
    ensures var im, refCsat := ImpactOf(row, ref), CsatRegular(ref).value;
            && (im.csatRegular.Some? ==> im.varCsatRegular == Some(im.csatRegular.value - refCsat))
            && (im.csatWithout.Some? ==> im.varCsatWithout == Some(im.csatWithout.value - refCsat))
            && (im.csatRmUnsat.Some? ==> im.varCsatRmUnsat == Some(im.csatRmUnsat.value - refCsat))
            && (im.csatRmSat.Some? ==> im.varCsatRmSat == Some(im.csatRmSat.value - refCsat))
  {
  }
}
