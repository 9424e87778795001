/** Polarity against satisfaction for the "Couches Bébé" subcategory of the
    product reviews.

    The opinions found both among the top positive and the top negative
    terms are selected; for each one the CSAT aggregation is queried by
    rewriting, in place, the opinion criterion of a fixed query; the CSAT
    and the positive and negative volumes are then joined on the opinion,
    and each opinion gets a polarity ratio (positive minus negative share
    of its polarised mentions) and a colour. */
module Polarity {
  import opened Common

  const Subcategory := "Couches Bébé"
  const Green := "green"
  const OrangeRed := "orangered"

  /* ------------------------------------------------------------------ */
  /* Opinions that are both positive and negative                        */
  /* ------------------------------------------------------------------ */

  /** `{op["id"]: op["occurrences"] for op in items}`: a later item with
      the same id overwrites an earlier one. */
  function Occurrences(items: seq<Term>): (m: map<string, int>)
    ensures forall id :: id in m <==> exists k :: 0 <= k < |items| && items[k].id == id
  {
    if items == [] then map[]
    else
      var init := items[..|items| - 1];
      var last := items[|items| - 1];
      assert forall k :: 0 <= k < |init| ==> init[k] == items[k];
      Occurrences(init)[last.id := last.occurrences]
  }

  /** The ids of the items, in order. */
  function Ids(items: seq<Term>): (ids: seq<string>)
    ensures |ids| == |items|
    ensures forall k :: 0 <= k < |items| ==> ids[k] == items[k].id
  {
    seq(|items|, k requires 0 <= k < |items| => items[k].id)
  }

  /** `[op for op in top_pos if op in top_neg]`: iterating a dict visits its
      keys once each, in order of first insertion. */
  function TopPolarized(pos: seq<Term>, neg: seq<Term>): seq<string> {
    var inNeg := Occurrences(neg);
    Filter(Distinct(Ids(pos)), (id: string) => id in inNeg)
  }

  /** The selected opinions are exactly the ids present in both answers,
      each once. */
  lemma TopPolarizedSelection(pos: seq<Term>, neg: seq<Term>)
    ensures var sel := TopPolarized(pos, neg);
            && (forall id :: id in sel <==> id in Ids(pos) && id in Ids(neg))
            && NoDuplicates(sel)
  {
    var inNeg := Occurrences(neg);
    var d := Distinct(Ids(pos));
    var p := (id: string) => id in inNeg;
    var sel := Filter(d, p);
    forall id ensures id in inNeg <==> id in Ids(neg) {
      if id in inNeg {
        var k :| 0 <= k < |neg| && neg[k].id == id;
        assert Ids(neg)[k] == id;
      }
    }
    DistinctOrdered(Ids(pos));
    FilterNoDuplicates(d, p);
  }

  /** The selected opinions keep the order in which they first appear in
      the positive answer. */
  lemma OrderOfSelected(pos: seq<Term>, neg: seq<Term>)
    ensures var sel := TopPolarized(pos, neg);
            forall i, j :: 0 <= i < j < |sel| ==>
              FirstIndex(Ids(pos), sel[i]) < FirstIndex(Ids(pos), sel[j])
  {
    var d := Distinct(Ids(pos));
    var inNeg := Occurrences(neg);
    var p := (id: string) => id in inNeg;
    var sel := Filter(d, p);
    DistinctOrdered(Ids(pos));
    FilterKeepsOrder(d, p);
    forall i, j | 0 <= i < j < |sel|
      ensures FirstIndex(Ids(pos), sel[i]) < FirstIndex(Ids(pos), sel[j])
    {
      var a, b :| 0 <= a < b < |d| && d[a] == sel[i] && d[b] == sel[j];
    }
  }

  /* ------------------------------------------------------------------ */
  /* The CSAT query, rewritten for each opinion                          */
  /* ------------------------------------------------------------------ */

  /** `{"field": ..., "operator": "EQ", "value": ...}`; the value of the
      opinion criterion is `None` until an opinion is set. */
  datatype Criterion = Criterion(field: string, operator: string, value: Option<string>)

  const SubcategoryCriterion := Criterion("metadata.subcategory", "EQ", Some(Subcategory))

  /** The criteria the query holds while `opinion` is being measured. */
  function CriteriaFor(opinion: string): seq<Criterion> {
    [SubcategoryCriterion, Criterion("TERMS", "EQ", Some(opinion))]
  }

  /** The CSAT aggregation query, an AND of two criteria. */
  class CsatQuery {
    const kind: string
    const field: string
    const operator: string
    var criteria: seq<Criterion>

    /** Two criteria: the subcategory, then the opinion. */
    ghost predicate Valid()
      reads this
    {
      |criteria| == 2 && criteria[0] == SubcategoryCriterion &&
      criteria[1].field == "TERMS" && criteria[1].operator == "EQ"
    }

    constructor ()
      ensures Valid()
      ensures kind == "CSAT" && field == "metadata.note_moyenne" && operator == "AND"
      ensures criteria[1].value == None
    {
      kind := "CSAT";
      field := "metadata.note_moyenne";
      operator := "AND";
      criteria := [SubcategoryCriterion, Criterion("TERMS", "EQ", None)];
    }

    /** `query["query"]["criteria"][1]["value"] = opinion`: only the value
        of the opinion criterion changes. */
    method SetOpinion(opinion: string)
      requires Valid()
      modifies this
      ensures Valid()
      ensures criteria == old(criteria)[1 := old(criteria)[1].(value := Some(opinion))]
      ensures criteria == CriteriaFor(opinion)
    {
      criteria := criteria[1 := criteria[1].(value := Some(opinion))];
    }
  }

  /** One request per selected opinion with the query rewritten for it;
      `answer(criteria)` stands for the total CSAT the aggregation returns
      for a query with those criteria. */
  method CollectCsat(query: CsatQuery, selected: seq<string>, answer: seq<Criterion> -> real)
    returns (csat: map<string, real>)
    requires query.Valid()
    modifies query
    ensures query.Valid()
    ensures csat.Keys == set o | o in selected
    ensures forall o :: o in csat ==> csat[o] == answer(CriteriaFor(o))
    ensures 0 < |selected| ==> query.criteria == CriteriaFor(selected[|selected| - 1])
    ensures |selected| == 0 ==> query.criteria == old(query.criteria)
  {
    csat := map[];
    for i := 0 to |selected|
      invariant query.Valid()
      invariant csat.Keys == set o | o in selected[..i]
      invariant forall o :: o in csat ==> csat[o] == answer(CriteriaFor(o))
      invariant 0 < i ==> query.criteria == CriteriaFor(selected[i - 1])
      invariant i == 0 ==> query.criteria == old(query.criteria)
    {
      var opinion := selected[i];
      query.SetOpinion(opinion);
      csat := csat[opinion := answer(query.criteria)];
      assert selected[..i + 1] == selected[..i] + [opinion];
    }
    assert selected[..|selected|] == selected;
  }

  /* ------------------------------------------------------------------ */
  /* The joined table                                                    */
  /* ------------------------------------------------------------------ */

  datatype PolarityRow = PolarityRow(
    opinion: string,
    csat: real,
    volPos: int,
    volNeg: int,
    polarityVol: int,
    polarityRatio: Option<real>,
    color: string)

  /** `vol_pos / polarity_vol - vol_neg / polarity_vol`, NaN (missing) when
      the opinion has no polarised mention. */
  function PolarityRatio(volPos: int, volNeg: int): (r: Option<real>)
    ensures r.None? <==> volPos + volNeg == 0
  {
    var vol := volPos + volNeg;
    if vol == 0 then None
    else Some(volPos as real / vol as real - volNeg as real / vol as real)
  }

  /** `{False: "orangered", True: "green"}[x >= 0]`; NaN compares false. */
  function ColorOf(ratio: Option<real>): (c: string)
    ensures c == Green <==> ratio.Some? && 0.0 <= ratio.value
    ensures c == OrangeRed <==> !(ratio.Some? && 0.0 <= ratio.value)
  {
    if ratio.Some? && ratio.value >= 0.0 then Green else OrangeRed
  }

  function RowOf(opinion: string, csat: real, volPos: int, volNeg: int): PolarityRow {
    var ratio := PolarityRatio(volPos, volNeg);
    PolarityRow(opinion, csat, volPos, volNeg, volPos + volNeg, ratio, ColorOf(ratio))
  }

  /** The inner join of the three frames on the opinion, in the order of
      the first one (`csat`, whose keys follow `order`). */
  function Join(order: seq<string>, csat: map<string, real>, pos: map<string, int>,
                neg: map<string, int>): (rows: seq<PolarityRow>)
    ensures |rows| <= |order|
  {
    if order == [] then []
    else
      var o := order[|order| - 1];
      var init := Join(order[..|order| - 1], csat, pos, neg);
      if o in csat && o in pos && o in neg then init + [RowOf(o, csat[o], pos[o], neg[o])]
      else init
  }

  /** A row of the join: its opinion is in all three frames and its columns
      come from them. */
  ghost predicate Joined(row: PolarityRow, order: seq<string>, csat: map<string, real>,
                         pos: map<string, int>, neg: map<string, int>)
  {
    var o := row.opinion;
    && o in order && o in csat && o in pos && o in neg
    && row == RowOf(o, csat[o], pos[o], neg[o])
  }

  /** The join keeps exactly the opinions present in all three frames, with
      their values from each. */
  lemma {:induction false} JoinKeepsCommonKeys(order: seq<string>, csat: map<string, real>,
                                               pos: map<string, int>, neg: map<string, int>)
    ensures var rows := Join(order, csat, pos, neg);
            && (forall k :: 0 <= k < |rows| ==> Joined(rows[k], order, csat, pos, neg))
            && (forall o :: o in order && o in csat && o in pos && o in neg ==>
                  exists k :: 0 <= k < |rows| && rows[k].opinion == o)
  {
    if order != [] {
      var init := order[..|order| - 1];
      var o := order[|order| - 1];
      JoinKeepsCommonKeys(init, csat, pos, neg);
      var rows := Join(order, csat, pos, neg);
      var prev := Join(init, csat, pos, neg);
      assert var rows0 := Join(init, csat, pos, neg);
             forall k :: 0 <= k < |rows0| ==> Joined(rows0[k], init, csat, pos, neg);
      assert forall k :: 0 <= k < |prev| ==> Joined(prev[k], init, csat, pos, neg);
      forall k | 0 <= k < |rows| ensures Joined(rows[k], order, csat, pos, neg) {
        if k < |prev| {
          assert rows[k] == prev[k];
          assert Joined(prev[k], init, csat, pos, neg);
        }
      }
      forall x | x in order && x in csat && x in pos && x in neg
        ensures exists k :: 0 <= k < |rows| && rows[k].opinion == x
      {
        if x == o {
          assert rows[|rows| - 1].opinion == x;
        } else {
          assert x in init;
          var k :| 0 <= k < |prev| && prev[k].opinion == x;
          assert rows[k] == prev[k];
        }
      }
    }
  }

  /** The table of lines 108-116: the CSAT per selected opinion joined with
      the positive and negative volumes. A dict without entries becomes a
      frame without columns, so the concatenation then has fewer than three
      columns and `df.columns = ["csat", "vol_pos", "vol_neg"]` raises
      ValueError; otherwise the inner join stands, possibly without rows. */
  function PolarityTable(pos: seq<Term>, neg: seq<Term>, csat: map<string, real>): Result<seq<PolarityRow>> {
    if csat == map[] || pos == [] || neg == [] then Err(ValueError)
    else Ok(Join(TopPolarized(pos, neg), csat, Occurrences(pos), Occurrences(neg)))
  }

  /** The table fails, with ValueError, exactly when one of the three dicts
      `csat`, `top_pos` and `top_neg` is empty. */
  lemma PolarityTableFails(pos: seq<Term>, neg: seq<Term>, csat: map<string, real>)
    ensures var r := PolarityTable(pos, neg, csat);
            && (r.Err? <==> csat == map[] || Occurrences(pos) == map[] || Occurrences(neg) == map[])
            && (r.Err? ==> r.error == ValueError)
  {
    if pos != [] {
      assert pos[0].id in Occurrences(pos);
    }
    if neg != [] {
      assert neg[0].id in Occurrences(neg);
    }
  }

  /** Once every selected opinion has its CSAT, as the request loop
      guarantees, the table is built whenever some opinion is selected, and
      then has a row for each selected opinion and for nothing else. When
      `csat` holds exactly the selected opinions, as the loop leaves it, the
      script fails exactly when no opinion is selected. */
  lemma EverySelectedOpinionJoined(pos: seq<Term>, neg: seq<Term>, csat: map<string, real>)
    requires forall o :: o in TopPolarized(pos, neg) ==> o in csat
    ensures TopPolarized(pos, neg) != [] ==> PolarityTable(pos, neg, csat).Ok?
    ensures csat.Keys == (set o | o in TopPolarized(pos, neg)) ==>
              (PolarityTable(pos, neg, csat).Err? <==> TopPolarized(pos, neg) == [])
    ensures PolarityTable(pos, neg, csat).Ok? ==>
              var rows := PolarityTable(pos, neg, csat).value;
              && (forall k :: 0 <= k < |rows| ==> rows[k].opinion in TopPolarized(pos, neg))
              && (forall o :: o in TopPolarized(pos, neg) ==>
                    exists k :: 0 <= k < |rows| && rows[k].opinion == o)
  {
    var sel := TopPolarized(pos, neg);
    var mp, mn := Occurrences(pos), Occurrences(neg);
    TopPolarizedSelection(pos, neg);
    JoinKeepsCommonKeys(sel, csat, mp, mn);
    var rows := Join(sel, csat, mp, mn);
    assert forall k :: 0 <= k < |rows| ==> Joined(rows[k], sel, csat, mp, mn);
    forall o | o in sel ensures o in mp && o in mn {
      assert o in Ids(pos) && o in Ids(neg);
      var a :| 0 <= a < |pos| && Ids(pos)[a] == o;
      var b :| 0 <= b < |neg| && Ids(neg)[b] == o;
      assert pos[a].id == o && neg[b].id == o;
    }
    if sel != [] {
      assert sel[0] in csat && sel[0] in mp && sel[0] in mn;
    } else if csat.Keys == (set o | o in sel) {
      assert csat.Keys == {};
      assert csat == map[];
    }
  }

  /** The polarity columns: the volume is the number of polarised mentions,
      the ratio lies in [-1, 1] and is non-negative exactly when positive
      mentions are at least as many as negative ones, and the colour is
      green exactly then. */
  lemma PolarityRowMeaning(opinion: string, csat: real, volPos: int, volNeg: int)
    requires 0 <= volPos && 0 <= volNeg && 0 < volPos + volNeg
    ensures var row := RowOf(opinion, csat, volPos, volNeg);
            && row.polarityVol == volPos + volNeg
            && row.polarityRatio.Some?
            && -1.0 <= row.polarityRatio.value <= 1.0
            && (0.0 <= row.polarityRatio.value <==> volNeg <= volPos)
            && (row.color == Green <==> volNeg <= volPos)
  {
    var vol := (volPos + volNeg) as real;
    var r := PolarityRatio(volPos, volNeg).value;
    assert r == (volPos - volNeg) as real / vol;
    assert r * vol == (volPos - volNeg) as real;
    assert (r - 1.0) * vol == -2.0 * volNeg as real;
    assert (r + 1.0) * vol == 2.0 * volPos as real;
    SignOfFactor(r - 1.0, vol);
    SignOfFactor(r + 1.0, vol);
    SignOfFactor(r, vol);
  }

  lemma SignOfFactor(x: real, y: real)
    requires 0.0 < y
    ensures x * y <= 0.0 ==> x <= 0.0
    ensures x * y >= 0.0 ==> x >= 0.0
  {
  }

  /** Without polarised mention the ratio is missing and the colour is
      orange-red. */
  lemma NoMentionIsOrangeRed(opinion: string, csat: real)
    ensures RowOf(opinion, csat, 0, 0).polarityRatio.None?
    ensures RowOf(opinion, csat, 0, 0).color == OrangeRed
  {
  }
}
