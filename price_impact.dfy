/** Impact of the price on the CSAT of each product subcategory.

    The same CSAT aggregation is requested three times: without a filter,
    then filtered on the documents that mention the price negatively, then
    positively. Each answer is keyed by its subcategory, the three are
    joined on the keys of the negative one, and the variation of each
    filtered CSAT from the reference CSAT is expressed in percent. */
module PriceImpact {
  import opened Common
  import opened Aggregation

  const PriceTerm := "prix_NOUN"
  const NegativeOpinion := "NEGATIVE"
  const PositiveOpinion := "POSITIVE"

  /* ------------------------------------------------------------------ */
  /* The query, mutated between the requests                             */
  /* ------------------------------------------------------------------ */

  datatype Dimension = Dimension(field: string, group: string)

  /** `{"field": "TERMS", "operator": "EQ", "value": ..., "opinion": ...}` */
  datatype TermFilter = TermFilter(field: string, operator: string, value: string, opinion: string)

  /** The JSON body of a request: type, field, dimensions and, once set, the
      `"query"` key. */
  datatype QueryDoc = QueryDoc(kind: string, field: string, dimensions: seq<Dimension>, query: Option<TermFilter>)

  /** Lines 54-63: the CSAT per subcategory, without a filter. */
  const ReferenceQuery := QueryDoc("CSAT", "metadata.note_moyenne", [Dimension("metadata.subcategory", "DISTINCT")], None)

  /** The filter on the documents that mention the price with the given
      opinion polarity. */
  function PriceFilter(opinion: string): TermFilter {
    TermFilter("TERMS", "EQ", PriceTerm, opinion)
  }

  /** The query dictionary: only its `"query"` entry is ever assigned. */
  class PriceQuery {
    const kind: string
    const field: string
    const dimensions: seq<Dimension>
    var query: Option<TermFilter>

    function Doc(): QueryDoc
      reads this
    {
      QueryDoc(kind, field, dimensions, query)
    }

    constructor ()
      ensures Doc() == ReferenceQuery
    {
      kind := "CSAT";
      field := "metadata.note_moyenne";
      dimensions := [Dimension("metadata.subcategory", "DISTINCT")];
      query := None;
    }

    /** `query["query"] = {...}`: the entry is added, or replaced, and the
        rest of the query stays as it was. */
    method SetPriceFilter(opinion: string)
      modifies this
      ensures query == Some(PriceFilter(opinion))
      ensures Doc() == old(Doc()).(query := Some(PriceFilter(opinion)))
    {
      query := Some(PriceFilter(opinion));
    }
  }

  /** Lines 54-94: the three requests, in order, on the one mutated query;
      `post(doc)` stands for the `values` of the answer to a request with
      body `doc`. The three bodies differ in the price filter only. */
  method RequestAll(post: QueryDoc -> seq<AggValue>) returns (ref: seq<AggValue>, neg: seq<AggValue>, pos: seq<AggValue>)
    ensures ref == post(ReferenceQuery)
    ensures neg == post(ReferenceQuery.(query := Some(PriceFilter(NegativeOpinion))))
    ensures pos == post(ReferenceQuery.(query := Some(PriceFilter(PositiveOpinion))))
  {
    var q := new PriceQuery();
    ref := post(q.Doc());
    q.SetPriceFilter(NegativeOpinion);
    neg := post(q.Doc());
    q.SetPriceFilter(PositiveOpinion);
    pos := post(q.Doc());
  }

  /* ------------------------------------------------------------------ */
  /* Flattening the dimensions                                           */
  /* ------------------------------------------------------------------ */

  /** A CSAT value and the number of documents it is computed on. */
  datatype Measures = Measures(value: real, volume: int)

  /** A row indexed by its subcategory. */
  datatype IndexedRow = IndexedRow(key: string, measures: Measures)

  /** Lines 104-105 on one frame: the dimension list becomes its first
      element, which becomes the index; an empty list makes `x[0]` raise
      IndexError, and an empty answer has no `dimensions` column at all. */
  function Flatten(values: seq<AggValue>): (r: Result<seq<IndexedRow>>)
    ensures r.Ok? <==> values != [] && forall i :: 0 <= i < |values| ==> 1 <= |values[i].dimensions|
    ensures r.Err? ==> r.error == if values == [] then KeyError("dimensions") else IndexError
    ensures r.Ok? ==> |r.value| == |values|
    ensures r.Ok? ==> forall i :: 0 <= i < |values| ==>
              r.value[i] == IndexedRow(values[i].dimensions[0], Measures(values[i].value, values[i].volume))
  {
    match ProjectAnswer(values, 1)
    case Err(e) => Err(e)
    case Ok(recs) =>
      assert forall i :: 0 <= i < |recs| ==> recs[i].keys[0] == values[i].dimensions[0];
      Ok(seq(|recs|, i requires 0 <= i < |recs| => IndexedRow(recs[i].keys[0], Measures(recs[i].value, recs[i].volume))))
  }

  /** Lines 103-105: every frame in turn is flattened; the first frame that
      cannot be flattened stops the script with its error. */
  method FlattenFrames(frames: seq<seq<AggValue>>) returns (r: Result<seq<seq<IndexedRow>>>)
    ensures r.Ok? <==> forall k :: 0 <= k < |frames| ==> Flatten(frames[k]).Ok?
    ensures r.Err? ==>
              exists k :: 0 <= k < |frames| && Flatten(frames[k]).Err? &&
                          r.error == Flatten(frames[k]).error &&
                          forall j :: 0 <= j < k ==> Flatten(frames[j]).Ok?
    ensures r.Ok? ==> |r.value| == |frames|
    ensures r.Ok? ==> forall k :: 0 <= k < |frames| ==> r.value[k] == Flatten(frames[k]).value
  {
    var done: seq<seq<IndexedRow>> := [];
    for k := 0 to |frames|
      invariant |done| == k
      invariant forall j :: 0 <= j < k ==> Flatten(frames[j]).Ok? && done[j] == Flatten(frames[j]).value
    {
      var f := Flatten(frames[k]);
      if f.Err? {
        return Err(f.error);
      }
      done := done + [f.value];
    }
    r := Ok(done);
  }

  /* ------------------------------------------------------------------ */
  /* The joins                                                           */
  /* ------------------------------------------------------------------ */

  /** The measures of the rows of `right` with the given key, in order. */
  function MatchesOf(right: seq<IndexedRow>, key: string): (ms: seq<Measures>)
    ensures forall m :: m in ms <==> IndexedRow(key, m) in right
    ensures (forall x :: x in right ==> x.key != key) ==> ms == []
  {
    if right == [] then []
    else
      var last := right[|right| - 1];
      var init := MatchesOf(right[..|right| - 1], key);
      assert forall x :: x in right <==> x in right[..|right| - 1] || x == last;
      if last.key == key then init + [last.measures] else init
  }

  /** The rows a left row gives in a left join: one per matching right row,
      or one with missing (NaN) right columns when none matches. */
  function JoinedRows<L>(key: string, l: L, right: seq<IndexedRow>): (rows: seq<(string, L, Option<Measures>)>)
    ensures rows != []
    ensures forall k :: 0 <= k < |rows| ==> rows[k].0 == key && rows[k].1 == l
    ensures forall k :: 0 <= k < |rows| ==>
              (rows[k].2.None? <==> forall m :: IndexedRow(key, m) !in right) &&
              (rows[k].2.Some? ==> IndexedRow(key, rows[k].2.value) in right)
  {
    var ms := MatchesOf(right, key);
    if ms == [] then [(key, l, None)]
    else
      assert ms[0] in ms;
      seq(|ms|, j requires 0 <= j < |ms| => (key, l, Some(ms[j])))
  }

  /** `left.join(right)` on the index (`how="left"`): the left rows in
      order, each with the right columns of its key. */
  function LeftJoin<L>(left: seq<(string, L)>, right: seq<IndexedRow>): seq<(string, L, Option<Measures>)> {
    if left == [] then []
    else
      var last := left[|left| - 1];
      LeftJoin(left[..|left| - 1], right) + JoinedRows(last.0, last.1, right)
  }

  /** Every joined row extends a left row with right columns of the same
      key, missing only when no right row has that key; and every left row
      is in the join. */
  lemma {:induction false} LeftJoinRows<L>(left: seq<(string, L)>, right: seq<IndexedRow>)
    ensures var rows := LeftJoin(left, right);
            && (forall r :: r in rows ==>
                  (r.0, r.1) in left &&
                  (r.2.None? <==> forall m :: IndexedRow(r.0, m) !in right) &&
                  (r.2.Some? ==> IndexedRow(r.0, r.2.value) in right))
            && (forall x :: x in left ==> exists r :: r in rows && r.0 == x.0 && r.1 == x.1)
  {
    if left != [] {
      var init := left[..|left| - 1];
      var last := left[|left| - 1];
      LeftJoinRows(init, right);
      var tail := JoinedRows(last.0, last.1, right);
      assert tail[0] in tail;
      assert forall x :: x in left <==> x in init || x == last;
    }
  }

  /** The right keys are unique, as the DISTINCT grouping of the answers
      makes them. */
  ghost predicate UniqueKeys(rows: seq<IndexedRow>) {
    forall i, j :: 0 <= i < j < |rows| ==> rows[i].key != rows[j].key
  }

  /** The measures of the row with the given key, if any. */
  function Lookup(rows: seq<IndexedRow>, key: string): (m: Option<Measures>)
    ensures m.None? <==> forall x :: x in rows ==> x.key != key
    ensures m.Some? ==> IndexedRow(key, m.value) in rows
  {
    if rows == [] then None
    else if rows[|rows| - 1].key == key then Some(rows[|rows| - 1].measures)
    else
      assert forall x :: x in rows <==> x in rows[..|rows| - 1] || x == rows[|rows| - 1];
      Lookup(rows[..|rows| - 1], key)
  }

  /** Over unique right keys, a key matches at most one right row. */
  lemma UniqueMatch(right: seq<IndexedRow>, key: string)
    requires UniqueKeys(right)
    ensures MatchesOf(right, key) == (match Lookup(right, key) case None => [] case Some(m) => [m])
  {
    var ms := MatchesOf(right, key);
    if 1 < |ms| {
      assert ms[0] in ms && ms[1] in ms;
      UniqueMatchTwo(right, key);
    }
    if ms != [] {
      assert ms[0] in ms;
      var i :| 0 <= i < |right| && right[i] == IndexedRow(key, ms[0]);
      var l := Lookup(right, key);
      var j :| 0 <= j < |right| && right[j] == IndexedRow(key, l.value);
      assert i == j;
    }
  }

  /** Over unique right keys, the matches of a key number at most one. */
  lemma {:induction false} UniqueMatchTwo(right: seq<IndexedRow>, key: string)
    requires UniqueKeys(right)
    ensures |MatchesOf(right, key)| <= 1
  {
    if right != [] {
      var init := right[..|right| - 1];
      UniqueMatchTwo(init, key);
      if right[|right| - 1].key == key {
        assert forall i :: 0 <= i < |init| ==> init[i].key != key by {
          assert forall i :: 0 <= i < |init| ==> init[i] == right[i];
        }
        assert MatchesOf(init, key) == [];
      }
    }
  }

  /** Over unique right keys a left row gives exactly one joined row. */
  lemma JoinedRowsUnique<L>(key: string, l: L, right: seq<IndexedRow>)
    requires UniqueKeys(right)
    ensures JoinedRows(key, l, right) == [(key, l, Lookup(right, key))]
  {
    UniqueMatch(right, key);
  }

  /** Each left row with the right measures of its key, if any. */
  function WithLookup<L>(left: seq<(string, L)>, right: seq<IndexedRow>): (rows: seq<(string, L, Option<Measures>)>)
    ensures |rows| == |left|
    ensures forall k :: 0 <= k < |left| ==> rows[k] == (left[k].0, left[k].1, Lookup(right, left[k].0))
  {
    if left == [] then []
    else
      var last := left[|left| - 1];
      WithLookup(left[..|left| - 1], right) + [(last.0, last.1, Lookup(right, last.0))]
  }

  /** Over unique right keys the join keeps the left rows one for one, each
      with the right row of its key, if any. */
  lemma {:induction false} LeftJoinUnique<L>(left: seq<(string, L)>, right: seq<IndexedRow>)
    requires UniqueKeys(right)
    ensures LeftJoin(left, right) == WithLookup(left, right)
  {
    if left != [] {
      var last := left[|left| - 1];
      LeftJoinUnique(left[..|left| - 1], right);
      JoinedRowsUnique(last.0, last.1, right);
    }
  }

  /** A row of the merged table: the `_priceneg` and `_pricepos` columns,
      and the reference columns joined without a suffix. */
  datatype MergedRow = MergedRow(key: string, priceneg: Measures, pricepos: Option<Measures>, reference: Option<Measures>)

  function Pairs(rows: seq<IndexedRow>): (ps: seq<(string, Measures)>)
    ensures |ps| == |rows|
    ensures forall k :: 0 <= k < |rows| ==> ps[k] == (rows[k].key, rows[k].measures)
  {
    seq(|rows|, k requires 0 <= k < |rows| => (rows[k].key, rows[k].measures))
  }

  /** Lines 107-109: `priceneg.join(pricepos, lsuffix="_priceneg",
      rsuffix="_pricepos").join(ref)`. */
  function Merge(neg: seq<IndexedRow>, pos: seq<IndexedRow>, ref: seq<IndexedRow>): seq<MergedRow> {
    var first := LeftJoin(Pairs(neg), pos);
    var keyed := seq(|first|, k requires 0 <= k < |first| => (first[k].0, (first[k].1, first[k].2)));
    var second := LeftJoin(keyed, ref);
    seq(|second|, k requires 0 <= k < |second| => MergedRow(second[k].0, second[k].1.0, second[k].1.1, second[k].2))
  }

  /** With each subcategory once per answer, the merged table has one row
      per subcategory of the negative answer, in its order, with the
      positive and reference measures of that subcategory (missing when the
      answer has none). */
  lemma MergeKeyedByPriceneg(neg: seq<IndexedRow>, pos: seq<IndexedRow>, ref: seq<IndexedRow>)
    requires UniqueKeys(pos) && UniqueKeys(ref)
    ensures var merged := Merge(neg, pos, ref);
            && |merged| == |neg|
            && forall k :: 0 <= k < |neg| ==>
                 merged[k] == MergedRow(neg[k].key, neg[k].measures, Lookup(pos, neg[k].key), Lookup(ref, neg[k].key))
  {
    var first := LeftJoin(Pairs(neg), pos);
    LeftJoinUnique(Pairs(neg), pos);
    var keyed := seq(|first|, k requires 0 <= k < |first| => (first[k].0, (first[k].1, first[k].2)));
    LeftJoinUnique(keyed, ref);
  }

  /* ------------------------------------------------------------------ */
  /* Variations                                                          */
  /* ------------------------------------------------------------------ */

  function ValueOf(m: Option<Measures>): Option<real> {
    if m.Some? then Some(m.value.value) else None
  }

  /** `100*(filtered - reference) / reference` on float columns, NaN when
      either is missing. */
  function Variation(filtered: Option<real>, reference: Option<real>): Quotient {
    match Minus(filtered, reference)
    case None => NaN
    case Some(d) => Divide(100.0 * d, reference)
  }

  /** A printed row of line 117. */
  datatype ImpactRow = ImpactRow(key: string, varIfPos: Quotient, varIfNeg: Quotient, volume: Option<int>)

  /** Lines 115-117: the two variations, and the reference volume. */
  function Impact(merged: seq<MergedRow>): (rows: seq<ImpactRow>)
    ensures |rows| == |merged|
    ensures forall k :: 0 <= k < |merged| ==> rows[k].key == merged[k].key
  {
    seq(|merged|, k requires 0 <= k < |merged| =>
      var ref := ValueOf(merged[k].reference);
      ImpactRow(merged[k].key,
                Variation(ValueOf(merged[k].pricepos), ref),
                Variation(Some(merged[k].priceneg.value), ref),
                if merged[k].reference.Some? then Some(merged[k].reference.value.volume) else None))
  }

  /** A variation is missing when either CSAT is missing; over a non-zero
      reference it is 0 exactly when the filtered CSAT equals the
      reference; over a zero reference it is NaN or infinite. */
  lemma VariationZero(filtered: Option<real>, reference: Option<real>)
    ensures filtered.None? || reference.None? ==> Variation(filtered, reference).NaN?
    ensures filtered.Some? && reference.Some? && reference.value != 0.0 ==>
              (Variation(filtered, reference) == Finite(0.0) <==> filtered.value == reference.value)
    ensures filtered.Some? && reference.Some? && reference.value == 0.0 ==>
              !Variation(filtered, reference).Finite?
  {
    if filtered.Some? && reference.Some? && reference.value != 0.0 {
      var q := Variation(filtered, reference);
      assert q.Finite? && q.z * reference.value == 100.0 * (filtered.value - reference.value);
      if q.z == 0.0 {
        assert 100.0 * (filtered.value - reference.value) == 0.0;
      }
    }
  }

  /** Over a positive reference the variation is finite, has the sign of
      the difference, and is that difference in percent of the reference:
      adding it back gives the filtered CSAT. */
  lemma VariationSign(filtered: real, reference: real)
    requires 0.0 < reference
    ensures var q := Variation(Some(filtered), Some(reference));
            && q.Finite?
            && (q.z > 0.0 <==> filtered > reference)
            && (q.z < 0.0 <==> filtered < reference)
            && reference + q.z * reference / 100.0 == filtered
  {
    var q := Variation(Some(filtered), Some(reference));
    var d := filtered - reference;
    assert q.Finite? && q.z * reference == 100.0 * d;
    if q.z > 0.0 {
      Common.ProductPositive(q.z, reference);
    } else if q.z < 0.0 {
      Common.ProductPositive(-q.z, reference);
    }
  }
}
