/** Net Promoter Score (NPS) of the top opinions of the retail feedbacks.

    Three aggregations are reshaped: the NPS of each opinion with its
    variation against the global NPS; the promoter / passive / detractor
    volumes of each opinion, from which the NPS is recomputed as
    %promoters - %detractors, coloured by the sign of its variation and
    sorted; and the NPS of each (opinion, polarity) pair, compared with the
    global NPS and with the opinion's own NPS. */
module Nps {
  import opened Common
  import opened Aggregation

  const Promoters := "promoters"
  const Detractors := "detractors"
  const Passives := "passives"

  const Positive := "POSITIVE"
  const NegativePolarity := "NEGATIVE"
  const Neutral := "NEUTRAL"

  const SeaGreen := "seagreen"
  const OrangeRed := "orangered"

  /* ------------------------------------------------------------------ */
  /* NPS per top opinion                                                 */
  /* ------------------------------------------------------------------ */

  datatype OpinionNps = OpinionNps(opinion: string, value: real, varNps: real)

  /** `df["opinion"] = dimensions[0]` and `df["var_nps"] = value - total`,
      where `globalNps` is the total NPS of the answer. */
  function OpinionNpsRows(values: seq<AggValue>, globalNps: real): (r: Result<seq<OpinionNps>>)
    ensures r.Ok? <==> values != [] && forall i :: 0 <= i < |values| ==> 1 <= |values[i].dimensions|
    ensures r.Err? ==> r.error == if values == [] then KeyError("dimensions") else IndexError
    ensures r.Ok? ==> |r.value| == |values|
    ensures r.Ok? ==> forall i :: 0 <= i < |values| ==>
              && r.value[i].opinion == values[i].dimensions[0]
              && r.value[i].value == values[i].value
              && r.value[i].varNps + globalNps == values[i].value
  {
    match ProjectAnswer(values, 1)
    case Err(e) => Err(e)
    case Ok(recs) =>
      Ok(seq(|recs|, i requires 0 <= i < |recs| =>
             OpinionNps(recs[i].keys[0], recs[i].value, recs[i].value - globalNps)))
  }

  predicate ValueLe(a: OpinionNps, b: OpinionNps) {
    a.value <= b.value
  }

  /** `sort_values("value", ascending=True)`. */
  function SortedByValue(rows: seq<OpinionNps>): seq<OpinionNps> {
    SortBy(rows, ValueLe)
  }

  /** The sorted table holds the same rows, by ascending NPS. */
  lemma SortedByValueAscending(rows: seq<OpinionNps>)
    ensures multiset(SortedByValue(rows)) == multiset(rows)
    ensures forall i, j :: 0 <= i < j < |rows| ==>
              SortedByValue(rows)[i].value <= SortedByValue(rows)[j].value
  {
    assert TotalPreorder(ValueLe);
    SortBySorted(rows, ValueLe);
  }

  /* ------------------------------------------------------------------ */
  /* NPS details per top opinion                                         */
  /* ------------------------------------------------------------------ */

  /** One row of the detailed table, indexed by opinion. */
  datatype NpsDetail = NpsDetail(
    opinion: string,
    promoters: real,
    detractors: real,
    passives: real,
    total: real,
    percPro: Option<real>,
    percDet: Option<real>,
    nps: Option<real>,
    varNps: Option<real>,
    varColor: string)

  /** `100. * x / total`, missing when total is 0: NaN for 0/0 and an
      infinity for x/0 with x != 0 are not told apart, since an answer's
      volumes are non-negative and x/0 then only arises with x == 0. */
  function Percent(x: real, total: real): (r: Option<real>)
    ensures r.None? <==> total == 0.0
  {
    if total == 0.0 then None else Some(100.0 * x / total)
  }

  /** A percentage of the total, scaled back, is the part. */
  lemma PercentOfTotal(x: real, total: real)
    requires total != 0.0
    ensures Percent(x, total).value * total == 100.0 * x
  {
  }

  /** `{True: "seagreen", False: "orangered"}[x >= 0]`; a NaN variation
      compares false and is orange-red. */
  function VarColor(v: Option<real>): (c: string)
    ensures c == SeaGreen <==> v.Some? && 0.0 <= v.value
    ensures c == OrangeRed <==> !(v.Some? && 0.0 <= v.value)
  {
    if v.Some? && v.value >= 0.0 then SeaGreen else OrangeRed
  }

  /** The derived columns of one opinion from its three volumes. */
  function DetailOf(opinion: string, pro: real, det: real, pas: real, globalNps: real): NpsDetail {
    var total := pro + det + pas;
    var percPro := Percent(pro, total);
    var percDet := Percent(det, total);
    var nps := Minus(percPro, percDet);
    var varNps := Minus(nps, Some(globalNps));
    NpsDetail(opinion, pro, det, pas, total, percPro, percDet, nps, varNps, VarColor(varNps))
  }

  function Volume(x: Record): real {
    x.volume as real
  }

  /** The cell of the (opinion, NPS group) pivot of mean volumes, 0 when the
      pair has no row (`fillna(0)`). */
  function GroupVolume(recs: seq<Record>, opinion: string, group: string): real {
    FilledCell(recs, [opinion, group], Volume)
  }

  /** The first of the three NPS groups that no row has: selecting it from
      the pivot raises KeyError. */
  function MissingGroup(recs: seq<Record>): (m: Option<string>)
    requires forall i :: 0 <= i < |recs| ==> 2 <= |recs[i].keys|
    ensures m.None? <==> HasPivotColumn(recs, Promoters) && HasPivotColumn(recs, Detractors) &&
                         HasPivotColumn(recs, Passives)
    ensures m.Some? ==> m.value in {Promoters, Detractors, Passives} && !HasPivotColumn(recs, m.value)
  {
    if !HasPivotColumn(recs, Promoters) then Some(Promoters)
    else if !HasPivotColumn(recs, Detractors) then Some(Detractors)
    else if !HasPivotColumn(recs, Passives) then Some(Passives)
    else None
  }

  /** The detailed rows of the opinions of `index`; `cell(o, g)` is the
      filled pivot cell of opinion o and group g. */
  function DetailRows(index: seq<string>, cell: (string, string) -> real, globalNps: real)
    : (rows: seq<NpsDetail>)
    ensures |rows| == |index|
    ensures forall k :: 0 <= k < |rows| ==> rows[k].opinion == index[k]
  {
    if index == [] then []
    else
      var o := index[|index| - 1];
      DetailRows(index[..|index| - 1], cell, globalNps)
      + [DetailOf(o, cell(o, Promoters), cell(o, Detractors), cell(o, Passives), globalNps)]
  }

  /** Lines 124-134: project (opinion, nps_range), pivot the mean volumes,
      fill with 0, derive total, percentages, NPS, variation and colour. */
  function NpsDetails(values: seq<AggValue>, globalNps: real): (r: Result<seq<NpsDetail>>)
  {
    match ProjectAnswer(values, 2)
    case Err(e) => Err(e)
    case Ok(recs) =>
      match MissingGroup(recs)
      case Some(g) => Err(KeyError(g))
      case None => Ok(DetailRows(PivotIndex(recs), (o, g) => GroupVolume(recs, o, g), globalNps))
  }

  /** The detailed table fails exactly when the answer is empty (KeyError
      on the missing `dimensions` column), a row has fewer than two
      dimensions (IndexError) or one of the three groups has no row at all
      (KeyError naming it). */
  lemma NpsDetailsFails(values: seq<AggValue>, globalNps: real)
    ensures var r := NpsDetails(values, globalNps);
            && (values == [] ==> r == Err(KeyError("dimensions")))
            && (r.Err? && r.error == IndexError <==>
                  exists i :: 0 <= i < |values| && |values[i].dimensions| < 2)
            && (r.Err? && r.error.KeyError? && values != [] ==>
                  Project(values, 2).Ok? &&
                  r.error.key in {Promoters, Detractors, Passives} &&
                  !HasPivotColumn(Project(values, 2).value, r.error.key))
            && (r.Ok? <==> values != [] && Project(values, 2).Ok? && MissingGroup(Project(values, 2).value).None?)
  {
  }

  /** The opinion column of a table. */
  function Opinions(rows: seq<NpsDetail>): (ops: seq<string>)
    ensures |ops| == |rows|
    ensures forall k :: 0 <= k < |rows| ==> ops[k] == rows[k].opinion
  {
    seq(|rows|, k requires 0 <= k < |rows| => rows[k].opinion)
  }

  /** The detailed table has one row per opinion of the answer (the values
      of dimension 0), each opinion once. */
  lemma DetailRowsIndex(recs: seq<Record>, cell: (string, string) -> real, globalNps: real)
    requires forall i :: 0 <= i < |recs| ==> 2 <= |recs[i].keys|
    ensures var ops := Opinions(DetailRows(PivotIndex(recs), cell, globalNps));
            && (forall o :: o in ops <==> o in Column(recs, 0))
            && NoDuplicates(ops)
  {
    var index := PivotIndex(recs);
    assert Opinions(DetailRows(index, cell, globalNps)) == index;
  }

  /** The volumes of each opinion are its cells, and the other columns
      derive from them. */
  lemma {:induction false} DetailRowsVolumes(index: seq<string>, cell: (string, string) -> real,
                                             globalNps: real, k: nat)
    requires k < |index|
    ensures var d := DetailRows(index, cell, globalNps)[k];
            && d.promoters == cell(index[k], Promoters)
            && d.detractors == cell(index[k], Detractors)
            && d.passives == cell(index[k], Passives)
            && d == DetailOf(index[k], d.promoters, d.detractors, d.passives, globalNps)
  {
    var init := index[..|index| - 1];
    if k < |index| - 1 {
      DetailRowsVolumes(init, cell, globalNps, k);
      assert init[k] == index[k];
      var rows := DetailRows(index, cell, globalNps);
      assert rows[k] == DetailRows(init, cell, globalNps)[k];
    }
  }

  /** The detailed columns mean what their names say: `total` sums the
      three groups, `nps` = %promoters - %detractors, `var_nps` is its
      distance to the global NPS, and the colour follows its sign. */
  lemma DetailMeaning(opinion: string, pro: real, det: real, pas: real, globalNps: real)
    ensures var d := DetailOf(opinion, pro, det, pas, globalNps);
            && d.total == pro + det + pas
            && (d.nps.Some? <==> d.total != 0.0)
            && (d.nps.Some? ==> d.nps.value * d.total == 100.0 * (pro - det))
            && (d.varNps.Some? <==> d.nps.Some?)
            && (d.varNps.Some? ==> d.varNps.value + globalNps == d.nps.value)
            && (d.varColor == SeaGreen <==> d.varNps.Some? && d.nps.value >= globalNps)
  {
    var t := pro + det + pas;
    if t != 0.0 {
      PercentOfTotal(pro, t);
      PercentOfTotal(det, t);
    }
  }

  /** With non-negative volumes and at least one response, the NPS lies
      between -100 (only detractors) and 100 (only promoters). */
  lemma NpsBetweenBounds(opinion: string, pro: real, det: real, pas: real, globalNps: real)
    requires 0.0 <= pro && 0.0 <= det && 0.0 <= pas && 0.0 < pro + det + pas
    ensures DetailOf(opinion, pro, det, pas, globalNps).nps.Some?
    ensures -100.0 <= DetailOf(opinion, pro, det, pas, globalNps).nps.value <= 100.0
  {
    var t := pro + det + pas;
    var nps := DetailOf(opinion, pro, det, pas, globalNps).nps.value;
    DetailMeaning(opinion, pro, det, pas, globalNps);
    assert nps * t == 100.0 * (pro - det);
    assert (nps - 100.0) * t == -100.0 * (det + pas + det);
    assert (nps + 100.0) * t == 100.0 * (pro + pas + pro);
    ProductSign(nps - 100.0, t);
    ProductSign(nps + 100.0, t);
  }

  lemma ProductSign(x: real, y: real)
    requires 0.0 < y
    ensures x * y <= 0.0 ==> x <= 0.0
    ensures x * y >= 0.0 ==> x >= 0.0
  {
  }

  /** The volumes of every opinion are means of non-negative volumes (0
      when missing), so its NPS is within [-100, 100] whenever it has a
      response. */
  lemma DetailsNpsBounded(recs: seq<Record>, index: seq<string>, globalNps: real, k: nat)
    requires forall i :: 0 <= i < |recs| ==> 0 <= recs[i].volume
    requires k < |index|
    ensures var rows := DetailRows(index, (o, g) => GroupVolume(recs, o, g), globalNps);
            rows[k].total != 0.0 ==> rows[k].nps.Some? && -100.0 <= rows[k].nps.value <= 100.0
  {
    var cell := (o, g) => GroupVolume(recs, o, g);
    var d := DetailRows(index, cell, globalNps)[k];
    DetailRowsVolumes(index, cell, globalNps, k);
    assert forall i :: 0 <= i < |recs| ==> 0.0 <= Volume(recs[i]);
    FilledCellNonNegative(recs, [d.opinion, Promoters], Volume);
    FilledCellNonNegative(recs, [d.opinion, Detractors], Volume);
    FilledCellNonNegative(recs, [d.opinion, Passives], Volume);
    if d.total != 0.0 {
      NpsBetweenBounds(d.opinion, d.promoters, d.detractors, d.passives, globalNps);
    }
  }

  /** `sort_values("nps", ascending=True)`, NaN last. */
  predicate NpsLe(a: NpsDetail, b: NpsDetail) {
    b.nps.None? || (a.nps.Some? && a.nps.value <= b.nps.value)
  }

  function SortedByNps(rows: seq<NpsDetail>): seq<NpsDetail> {
    SortBy(rows, NpsLe)
  }

  /** The sorted table holds the same rows, by ascending NPS, with the
      opinions without NPS at the end. */
  lemma SortedByNpsAscending(rows: seq<NpsDetail>)
    ensures multiset(SortedByNps(rows)) == multiset(rows)
    ensures var s := SortedByNps(rows);
            forall i, j :: 0 <= i < j < |s| ==>
              (s[i].nps.None? ==> s[j].nps.None?) &&
              (s[i].nps.Some? && s[j].nps.Some? ==> s[i].nps.value <= s[j].nps.value)
  {
    assert TotalPreorder(NpsLe);
    SortBySorted(rows, NpsLe);
  }

  /* ------------------------------------------------------------------ */
  /* NPS per top opinion and polarity                                    */
  /* ------------------------------------------------------------------ */

  /** One row of the (opinion x polarity) table. */
  datatype PolarityNps = PolarityNps(
    opinion: string,
    pos: Option<real>,
    neg: Option<real>,
    neu: Option<real>,
    varNpsgPos: Option<real>,
    varNpsgNeg: Option<real>,
    varNpsgNeu: Option<real>,
    refNpsOpinion: Option<real>,
    varNpslPos: Option<real>,
    varNpslNeg: Option<real>,
    varNpslNeu: Option<real>)

  /** `df["ref_nps_opinion"] = df_nps_opinion`: the NPS the detailed table
      gave the opinion, aligned on the opinion; missing when the opinion has
      no row there. */
  function OpinionNpsOf(details: seq<NpsDetail>, opinion: string): (r: Option<real>)
    ensures (forall k :: 0 <= k < |details| ==> details[k].opinion != opinion) ==> r.None?
    ensures r.Some? ==> exists k :: 0 <= k < |details| && details[k].opinion == opinion &&
                                    details[k].nps == r
  {
    if details == [] then None
    else if details[0].opinion == opinion then details[0].nps
    else
      var r := OpinionNpsOf(details[1..], opinion);
      assert r.Some? ==> exists k :: 1 <= k < |details| && details[k].opinion == opinion &&
                                    details[k].nps == r by {
        if r.Some? {
          var k :| 0 <= k < |details[1..]| && details[1..][k].opinion == opinion &&
                   details[1..][k].nps == r;
          assert details[k + 1] == details[1..][k];
        }
      }
      r
  }

  function PolarityOf(opinion: string, pos: Option<real>, neg: Option<real>, neu: Option<real>,
                      globalNps: real, opinionNps: Option<real>): PolarityNps
  {
    PolarityNps(opinion, pos, neg, neu,
                Minus(pos, Some(globalNps)), Minus(neg, Some(globalNps)), Minus(neu, Some(globalNps)),
                opinionNps,
                Minus(pos, opinionNps), Minus(neg, opinionNps), Minus(neu, opinionNps))
  }

  /** The first of the three polarities that no row has: selecting it raises
      KeyError. */
  function MissingPolarity(recs: seq<Record>): (m: Option<string>)
    requires forall i :: 0 <= i < |recs| ==> 2 <= |recs[i].keys|
    ensures m.None? <==> HasPivotColumn(recs, Positive) && HasPivotColumn(recs, NegativePolarity) &&
                         HasPivotColumn(recs, Neutral)
    ensures m.Some? ==> !HasPivotColumn(recs, m.value)
  {
    if !HasPivotColumn(recs, Positive) then Some(Positive)
    else if !HasPivotColumn(recs, NegativePolarity) then Some(NegativePolarity)
    else if !HasPivotColumn(recs, Neutral) then Some(Neutral)
    else None
  }

  function NpsValue(x: Record): real {
    x.value
  }

  /** Lines 188-199: project (opinion, polarity), pivot the mean NPS (no
      fill: a missing pair stays NaN), and compare each polarity's NPS with
      the global NPS and with the opinion's NPS from the detailed table. */
  function PolarityNpsRows(values: seq<AggValue>, globalNps: real, details: seq<NpsDetail>)
    : (r: Result<seq<PolarityNps>>)
  {
    match ProjectAnswer(values, 2)
    case Err(e) => Err(e)
    case Ok(recs) =>
      match MissingPolarity(recs)
      case Some(p) => Err(KeyError(p))
      case None =>
        var index := PivotIndex(recs);
        Ok(seq(|index|, i requires 0 <= i < |index| =>
               PolarityOf(index[i], PivotCell(recs, [index[i], Positive], NpsValue),
                          PivotCell(recs, [index[i], NegativePolarity], NpsValue),
                          PivotCell(recs, [index[i], Neutral], NpsValue),
                          globalNps, OpinionNpsOf(details, index[i]))))
  }

  /** The polarity table fails exactly when the answer is empty (KeyError on
      the missing `dimensions` column), a row has fewer than two dimensions
      (IndexError) or one of the three polarities has no row at all
      (KeyError naming the first of them that `df["POSITIVE"]`,
      `df["NEGATIVE"]`, `df["NEUTRAL"]` reads). */
  lemma PolarityNpsRowsFails(values: seq<AggValue>, globalNps: real, details: seq<NpsDetail>)
    ensures var r := PolarityNpsRows(values, globalNps, details);
            && (r.Err? && r.error == KeyError("dimensions") <==> values == [])
            && (r.Err? && r.error == IndexError <==>
                  exists i :: 0 <= i < |values| && |values[i].dimensions| < 2)
            && (values != [] && Project(values, 2).Ok? ==>
                  && (r.Err? <==> MissingPolarity(Project(values, 2).value).Some?)
                  && (r.Err? ==> r.error == KeyError(MissingPolarity(Project(values, 2).value).value)))
            && (r.Ok? <==> values != [] && Project(values, 2).Ok? &&
                           MissingPolarity(Project(values, 2).value).None?)
  {
  }

  /** A successful polarity table has one row per label of the pivot index,
      which lists every opinion of the answer (dimension 0) once. A row's
      polarity columns are the mean NPS of that (opinion, polarity) pair,
      NaN when there is none; its reference is the opinion's NPS in the
      detailed table; its variations are taken against the global NPS and
      that reference. */
  lemma PolarityNpsRowsMeaning(values: seq<AggValue>, globalNps: real, details: seq<NpsDetail>)
    requires PolarityNpsRows(values, globalNps, details).Ok?
    ensures Project(values, 2).Ok?
    ensures var rows := PolarityNpsRows(values, globalNps, details).value;
            var recs := Project(values, 2).value;
            && |rows| == |PivotIndex(recs)|
            && (forall k :: 0 <= k < |rows| ==> rows[k].opinion == PivotIndex(recs)[k])
            && (forall k :: 0 <= k < |rows| ==>
                  var o := rows[k].opinion;
                  && rows[k].pos == PivotCell(recs, [o, Positive], NpsValue)
                  && rows[k].neg == PivotCell(recs, [o, NegativePolarity], NpsValue)
                  && rows[k].neu == PivotCell(recs, [o, Neutral], NpsValue)
                  && rows[k].refNpsOpinion == OpinionNpsOf(details, o)
                  && rows[k] == PolarityOf(o, rows[k].pos, rows[k].neg, rows[k].neu,
                                           globalNps, rows[k].refNpsOpinion))
  {
  }

  /** Every variation is a polarity's NPS minus the reference it names; it
      is missing exactly when the polarity or the reference is. */
  lemma PolarityVariations(opinion: string, pos: Option<real>, neg: Option<real>, neu: Option<real>,
                           globalNps: real, opinionNps: Option<real>)
    ensures var p := PolarityOf(opinion, pos, neg, neu, globalNps, opinionNps);
            && (p.varNpsgPos.Some? <==> pos.Some?)
            && (pos.Some? ==> p.varNpsgPos.value + globalNps == pos.value)
            && (neg.Some? ==> p.varNpsgNeg.value + globalNps == neg.value)
            && (neu.Some? ==> p.varNpsgNeu.value + globalNps == neu.value)
            && (p.varNpslPos.Some? <==> pos.Some? && opinionNps.Some?)
            && (pos.Some? && opinionNps.Some? ==> p.varNpslPos.value + opinionNps.value == pos.value)
            && (neg.Some? && opinionNps.Some? ==> p.varNpslNeg.value + opinionNps.value == neg.value)
            && (neu.Some? && opinionNps.Some? ==> p.varNpslNeu.value + opinionNps.value == neu.value)
  {
  }

  /** The opinion's reference NPS is the one of its row in the detailed
      table when the opinion has exactly one row there (as a pivot index
      guarantees). */
  lemma {:induction false} OpinionNpsOfUnique(details: seq<NpsDetail>, k: nat)
    requires k < |details|
    requires forall j :: 0 <= j < |details| && j != k ==> details[j].opinion != details[k].opinion
    ensures OpinionNpsOf(details, details[k].opinion) == details[k].nps
  {
    if k > 0 {
      OpinionNpsOfUnique(details[1..], k - 1);
    }
  }
}
