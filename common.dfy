/** Building blocks shared by the demo scripts: error outcomes, Python's slice
    semantics, a stable sort by a comparator, filtering, first-occurrence
    deduplication (the order of `list(x.unique())` and of dict keys) and the
    decimal rendering behind Python's `"%d"` format. */
module Common {

  datatype Option<+T> = None | Some(value: T)

  /** The Python exceptions the scripts can stop on. */
  datatype Error =
    | KeyError(key: string)
    | IndexError
    | ZeroDivisionError
    | ValueError

  datatype Result<+T> = Ok(value: T) | Err(error: Error)

  /** An item of a terms search answer: an opinion (or any term) of the
      dataset, its display label and how many documents mention it. */
  datatype Term = Term(id: string, labelText: string, occurrences: int)

  /** The difference of two table cells, missing (NaN) when either is. */
  function Minus(a: Option<real>, b: Option<real>): (r: Option<real>)
    ensures r.Some? <==> a.Some? && b.Some?
    ensures r.Some? ==> r.value + b.value == a.value
  {
    if a.Some? && b.Some? then Some(a.value - b.value) else None
  }

  /* ------------------------------------------------------------------ */
  /* Float quotients                                                     */
  /* ------------------------------------------------------------------ */

  /** A pandas float quotient: finite, an infinity (non-zero over zero), or
      NaN (zero over zero, or a NaN operand). */
  datatype Quotient = Finite(z: real) | PosInf | NegInf | NaN

  /** `num / den` on float columns, where a missing `den` is NaN. */
  function Divide(num: real, den: Option<real>): (q: Quotient)
    ensures q.Finite? ==> den.Some? && den.value != 0.0 && q.z * den.value == num
    ensures q.NaN? <==> den.None? || (den.value == 0.0 && num == 0.0)
    ensures q.PosInf? <==> den.Some? && den.value == 0.0 && num > 0.0
    ensures q.NegInf? <==> den.Some? && den.value == 0.0 && num < 0.0
  {
    match den
    case None => NaN
    case Some(s) =>
      if s != 0.0 then Finite(num / s)
      else if num > 0.0 then PosInf
      else if num < 0.0 then NegInf
      else NaN
  }

  /** `q > t` on a float: NaN compares false, +inf is above every number. */
  predicate Exceeds(q: Quotient, t: real) {
    q.PosInf? || (q.Finite? && q.z > t)
  }

  /** For a non-negative divisor, the quotient exceeds t exactly when the
      dividend exceeds t times the divisor (a zero divisor gives +inf for a
      positive dividend). */
  lemma DivideExceeds(num: real, s: real, t: real)
    requires 0.0 <= s
    ensures Exceeds(Divide(num, Some(s)), t) <==> num > t * s
  {
    if s > 0.0 {
      var z := num / s;
      assert z * s == num;
      assert num - t * s == (z - t) * s;
      if z > t {
        assert (z - t) * s > 0.0 by { ProductPositive(z - t, s); }
      } else {
        assert (z - t) * s <= 0.0 by { ProductNonPositive(z - t, s); }
      }
    }
  }

  lemma ProductPositive(x: real, y: real)
    requires 0.0 < x && 0.0 < y
    ensures 0.0 < x * y
  {
  }

  lemma ProductNonPositive(x: real, y: real)
    requires x <= 0.0 && 0.0 < y
    ensures x * y <= 0.0
  {
  }

  function Rank(q: Quotient): nat {
    match q
    case NaN => 0
    case NegInf => 1
    case Finite(_) => 2
    case PosInf => 3
  }

  /** The ascending order of `sort_values` with NaN first. */
  predicate QuotientLe(a: Quotient, b: Quotient) {
    if Rank(a) != Rank(b) then Rank(a) < Rank(b)
    else a.Finite? ==> a.z <= b.z
  }

  lemma QuotientLeIsTotalPreorder()
    ensures TotalPreorder(QuotientLe)
  {
  }

  /** Over numbers above a threshold the order is that of the reals, +inf last. */
  lemma QuotientLeOnExceeding(a: Quotient, b: Quotient, t: real)
    requires Exceeds(a, t) && Exceeds(b, t)
    ensures QuotientLe(a, b) <==> b.PosInf? || (a.Finite? && b.Finite? && a.z <= b.z)
  {
  }

  /* ------------------------------------------------------------------ */
  /* Python slices                                                       */
  /* ------------------------------------------------------------------ */

  /** How Python normalises one bound of `s[i:j]` for a sequence of length n:
      a negative bound counts from the end, then the bound is clamped to [0, n]. */
  function SliceBound(i: int, n: nat): (b: nat)
    ensures b <= n
    ensures 0 <= i <= n ==> b == i
    ensures i < 0 && 0 <= i + n ==> b == i + n
    ensures i + n < 0 ==> b == 0
    ensures n < i ==> b == n
  {
    if i < 0 then (if i + n < 0 then 0 else i + n)
    else if i > n then n
    else i
  }

  /** Python's `s[i:j]` (step 1). */
  function Slice<T>(s: seq<T>, i: int, j: int): (r: seq<T>)
    ensures |r| <= |s|
    ensures 0 <= i <= j <= |s| ==> r == s[i..j]
    ensures var a, b := SliceBound(i, |s|), SliceBound(j, |s|);
            (a <= b ==> r == s[a..b]) && (b < a ==> r == [])
  {
    var a, b := SliceBound(i, |s|), SliceBound(j, |s|);
    if a <= b then s[a..b] else []
  }

  /** Python's `s[i:]`. */
  function SliceFrom<T>(s: seq<T>, i: int): (r: seq<T>)
    ensures r == s[SliceBound(i, |s|)..]
  {
    Slice(s, i, |s|)
  }

  /** Python's `s[-k:]`: the last k items, or all of them; `s[-0:]` is
      the whole of s. */
  function TakeLast<T>(s: seq<T>, k: nat): (r: seq<T>)
    ensures 0 < k < |s| ==> |r| == k
    ensures k == 0 || |s| <= k ==> r == s
    ensures r == s[|s| - |r|..]
  {
    SliceFrom(s, -(k as int))
  }

  /** Python's `s[:k]` for k >= 0: the first k items, or all of them. */
  function Take<T>(s: seq<T>, k: nat): (r: seq<T>)
    ensures |r| == if k < |s| then k else |s|
    ensures r <= s
  {
    Slice(s, 0, k)
  }

  /* ------------------------------------------------------------------ */
  /* Filtering                                                           */
  /* ------------------------------------------------------------------ */

  /** `[x for x in s if p(x)]` */
  function Filter<T(!new)>(s: seq<T>, p: T -> bool): (r: seq<T>)
    ensures |r| <= |s|
    ensures forall x :: x in r <==> x in s && p(x)
    ensures forall k :: 0 <= k < |r| ==> p(r[k])
  {
    if s == [] then []
    else if p(s[|s| - 1]) then Filter(s[..|s| - 1], p) + [s[|s| - 1]]
    else Filter(s[..|s| - 1], p)
  }

  /** A filter that wants every item returns its input. */
  lemma {:induction false} FilterKeepsAll<T(!new)>(s: seq<T>, p: T -> bool)
    requires forall x :: x in s ==> p(x)
    ensures Filter(s, p) == s
  {
    if s != [] {
      FilterKeepsAll(s[..|s| - 1], p);
      assert s == s[..|s| - 1] + [s[|s| - 1]];
    }
  }

  /** The filter keeps every wanted item as often as it occurs. */
  lemma {:induction false} FilterMultiset<T(!new)>(s: seq<T>, p: T -> bool, x: T)
    requires p(x)
    ensures multiset(Filter(s, p))[x] == multiset(s)[x]
  {
    if s != [] {
      FilterMultiset(s[..|s| - 1], p, x);
      assert s == s[..|s| - 1] + [s[|s| - 1]];
    }
  }

  /** A filter keeps a subsequence: any two kept items appear in the input
      in the same order. */
  lemma {:induction false} FilterKeepsOrder<T(!new)>(s: seq<T>, p: T -> bool)
    ensures forall i, j :: 0 <= i < j < |Filter(s, p)| ==>
              exists a, b :: 0 <= a < b < |s| && s[a] == Filter(s, p)[i] && s[b] == Filter(s, p)[j]
  {
    if s == [] {
      assert Filter(s, p) == [];
    } else {
      var init := s[..|s| - 1];
      var last := s[|s| - 1];
      FilterKeepsOrder(init, p);
      var ri := Filter(init, p);
      var r := Filter(s, p);
      assert r == if p(last) then ri + [last] else ri;
      forall i, j | 0 <= i < j < |r|
        ensures exists a, b :: 0 <= a < b < |s| && s[a] == r[i] && s[b] == r[j]
      {
        if j < |ri| {
          var a, b :| 0 <= a < b < |init| && init[a] == ri[i] && init[b] == ri[j];
          assert s[a] == r[i] && s[b] == r[j];
        } else {
          assert ri[i] in init;
          var a :| 0 <= a < |init| && init[a] == ri[i];
          assert s[a] == r[i] && s[|s| - 1] == r[j];
        }
      }
    }
  }

  /** A filter of distinct items has distinct items. */
  lemma {:induction false} FilterNoDuplicates<T(!new)>(s: seq<T>, p: T -> bool)
    requires NoDuplicates(s)
    ensures NoDuplicates(Filter(s, p))
  {
    if s != [] {
      var init := s[..|s| - 1];
      FilterNoDuplicates(init, p);
      assert s[|s| - 1] !in init;
    }
  }

  /* ------------------------------------------------------------------ */
  /* Sorting                                                             */
  /* ------------------------------------------------------------------ */

  ghost predicate TotalPreorder<T(!new)>(le: (T, T) -> bool) {
    && (forall a, b :: le(a, b) || le(b, a))
    && (forall a, b, c :: le(a, b) && le(b, c) ==> le(a, c))
  }

  ghost predicate Sorted<T>(s: seq<T>, le: (T, T) -> bool) {
    forall i, j :: 0 <= i < j < |s| ==> le(s[i], s[j])
  }

  /** Puts x before the first item it is allowed to precede. */
  function Insert<T>(x: T, s: seq<T>, le: (T, T) -> bool): (r: seq<T>)
    ensures multiset(r) == multiset(s) + multiset{x}
    ensures |r| == |s| + 1
  {
    if s == [] then [x]
    else if le(x, s[0]) then [x] + s
    else
      assert s == [s[0]] + s[1..];
      [s[0]] + Insert(x, s[1..], le)
  }

  /** A stable sort (Python's `sorted`): a permutation of its input, ordered
      by `SortBySorted`, and stable by `SortByStable`. */
  function SortBy<T>(s: seq<T>, le: (T, T) -> bool): (r: seq<T>)
    ensures multiset(r) == multiset(s)
    ensures |r| == |s|
  {
    if s == [] then []
    else
      assert s == [s[0]] + s[1..];
      Insert(s[0], SortBy(s[1..], le), le)
  }

  /** Filtering a concatenation filters each part. */
  lemma {:induction false} FilterAppend<T(!new)>(a: seq<T>, b: seq<T>, p: T -> bool)
    ensures Filter(a + b, p) == Filter(a, p) + Filter(b, p)
  {
    if b != [] {
      var init := b[..|b| - 1];
      FilterAppend(a, init, p);
      assert (a + b)[..|a + b| - 1] == a + init;
    } else {
      assert a + b == a;
    }
  }

  /** The items that `le` ranks level with y. */
  function LevelWith<T(!new)>(le: (T, T) -> bool, y: T): (p: T -> bool)
    ensures forall e :: p(e) <==> le(e, y) && le(y, e)
  {
    e => le(e, y) && le(y, e)
  }

  /** An item that x may not precede is not level with anything x is level
      with. */
  lemma NotBothLevel<T(!new)>(x: T, z: T, le: (T, T) -> bool, y: T)
    requires TotalPreorder(le)
    requires !le(x, z)
    ensures !(LevelWith(le, y)(x) && LevelWith(le, y)(z))
  {
  }

  /** Two single items of which at most one is kept filter the same in
      either order. */
  lemma FilterSwap<T(!new)>(a: T, b: T, rest: seq<T>, p: T -> bool)
    requires !(p(a) && p(b))
    ensures Filter([a], p) + (Filter([b], p) + rest) == Filter([b], p) + (Filter([a], p) + rest)
  {
    assert Filter([a], p) == (if p(a) then [a] else []) by {
      assert [a][..0] == [];
    }
    assert Filter([b], p) == (if p(b) then [b] else []) by {
      assert [b][..0] == [];
    }
  }

  /** Inserting x leaves the items ranked level with any y in the order
      they had, x coming before all of them. */
  lemma {:induction false} InsertStable<T(!new)>(x: T, t: seq<T>, le: (T, T) -> bool, y: T)
    requires TotalPreorder(le)
    ensures Filter(Insert(x, t, le), LevelWith(le, y)) ==
              Filter([x], LevelWith(le, y)) + Filter(t, LevelWith(le, y))
  {
    var p := LevelWith(le, y);
    if t == [] || le(x, t[0]) {
      assert Insert(x, t, le) == [x] + t;
      FilterAppend([x], t, p);
    } else {
      var rest := t[1..];
      InsertStable(x, rest, le, y);
      assert Insert(x, t, le) == [t[0]] + Insert(x, rest, le);
      FilterAppend([t[0]], Insert(x, rest, le), p);
      assert t == [t[0]] + rest;
      FilterAppend([t[0]], rest, p);
      NotBothLevel(x, t[0], le, y);
      FilterSwap(t[0], x, Filter(rest, p), p);
    }
  }

  /** The sort is stable: the items ranked level with any y come out in the
      order they went in. */
  lemma {:induction false} SortByStable<T(!new)>(s: seq<T>, le: (T, T) -> bool, y: T)
    requires TotalPreorder(le)
    ensures Filter(SortBy(s, le), LevelWith(le, y)) == Filter(s, LevelWith(le, y))
  {
    if s != [] {
      var p := LevelWith(le, y);
      SortByStable(s[1..], le, y);
      InsertStable(s[0], SortBy(s[1..], le), le, y);
      assert s == [s[0]] + s[1..];
      FilterAppend([s[0]], s[1..], p);
    }
  }

  lemma {:induction false} InsertSorted<T(!new)>(x: T, s: seq<T>, le: (T, T) -> bool)
    requires TotalPreorder(le)
    requires Sorted(s, le)
    ensures Sorted(Insert(x, s, le), le)
  {
    if s != [] && !le(x, s[0]) {
      InsertSorted(x, s[1..], le);
      var r := Insert(x, s[1..], le);
      forall k | 0 <= k < |r| ensures le(s[0], r[k]) {
        assert r[k] in multiset(r);
        assert r[k] in multiset(s[1..]) + multiset{x};
        if r[k] != x {
          assert r[k] in s[1..];
        }
      }
    }
  }

  /** The sort's result is ordered by `le`. */
  lemma {:induction false} SortBySorted<T(!new)>(s: seq<T>, le: (T, T) -> bool)
    requires TotalPreorder(le)
    ensures Sorted(SortBy(s, le), le)
  {
    if s != [] {
      SortBySorted(s[1..], le);
      InsertSorted(s[0], SortBy(s[1..], le), le);
    }
  }

  /** Sort, then take the first k: every item either made it into the
      result or is ordered after all of it. */
  lemma SortedPrefix<T(!new)>(s: seq<T>, le: (T, T) -> bool, k: nat)
    requires 0 < k
    requires TotalPreorder(le)
    ensures |Take(SortBy(s, le), k)| <= k
    ensures Sorted(Take(SortBy(s, le), k), le)
    ensures forall j :: 0 <= j < |Take(SortBy(s, le), k)| ==> Take(SortBy(s, le), k)[j] in s
    ensures forall x :: x in s && x !in Take(SortBy(s, le), k) ==>
              |Take(SortBy(s, le), k)| == k && le(Take(SortBy(s, le), k)[k - 1], x)
  {
    var sorted := SortBy(s, le);
    SortBySorted(s, le);
    PrefixOfSorted(sorted, le, k);
    forall x ensures x in sorted <==> x in s {
      assert x in sorted <==> x in multiset(sorted);
    }
  }

  /** The first k items of a sorted sequence: sorted, and every item left
      out is ordered after all of them. */
  lemma PrefixOfSorted<T>(t: seq<T>, le: (T, T) -> bool, k: nat)
    requires 0 < k
    requires Sorted(t, le)
    ensures Sorted(Take(t, k), le)
    ensures forall x :: x in Take(t, k) ==> x in t
    ensures forall x :: x in t && x !in Take(t, k) ==> |Take(t, k)| == k && le(Take(t, k)[k - 1], x)
  {
    var r := Take(t, k);
    forall x | x in t && x !in r ensures |r| == k && le(r[k - 1], x) {
      var i :| 0 <= i < |t| && t[i] == x;
      assert k <= i;
      assert r[k - 1] == t[k - 1];
    }
  }

  /** Sort the items kept by `p`, then take the first k: every kept item
      either made it into the result or is ordered after all of it. */
  lemma TopKSelection<T(!new)>(s: seq<T>, p: T -> bool, le: (T, T) -> bool, k: nat)
    requires 0 < k
    requires TotalPreorder(le)
    ensures |Take(SortBy(Filter(s, p), le), k)| <= k
    ensures Sorted(Take(SortBy(Filter(s, p), le), k), le)
    ensures forall j :: 0 <= j < |Take(SortBy(Filter(s, p), le), k)| ==>
              p(Take(SortBy(Filter(s, p), le), k)[j]) && Take(SortBy(Filter(s, p), le), k)[j] in s
    ensures forall x :: x in s && p(x) && x !in Take(SortBy(Filter(s, p), le), k) ==>
              |Take(SortBy(Filter(s, p), le), k)| == k && le(Take(SortBy(Filter(s, p), le), k)[k - 1], x)
  {
    SortedPrefix(Filter(s, p), le, k);
  }

  /** Sort, then take the last k (`s[-k:]`): every item either made it
      into the result or is ordered before all of it. */
  lemma SortedSuffix<T(!new)>(s: seq<T>, le: (T, T) -> bool, k: nat)
    requires 0 < k
    requires TotalPreorder(le)
    ensures |TakeLast(SortBy(s, le), k)| <= k
    ensures Sorted(TakeLast(SortBy(s, le), k), le)
    ensures forall j :: 0 <= j < |TakeLast(SortBy(s, le), k)| ==>
              TakeLast(SortBy(s, le), k)[j] in s
    ensures forall x :: x in s && x !in TakeLast(SortBy(s, le), k) ==>
              |TakeLast(SortBy(s, le), k)| == k && le(x, TakeLast(SortBy(s, le), k)[0])
  {
    var sorted := SortBy(s, le);
    SortBySorted(s, le);
    SuffixOfSorted(sorted, le, k);
    forall x ensures x in sorted <==> x in s {
      assert x in sorted <==> x in multiset(sorted);
    }
  }

  /** The last k items of a sorted sequence: sorted, and every item left out
      is ordered before all of them. */
  lemma SuffixOfSorted<T>(t: seq<T>, le: (T, T) -> bool, k: nat)
    requires 0 < k
    requires Sorted(t, le)
    ensures |TakeLast(t, k)| <= k
    ensures Sorted(TakeLast(t, k), le)
    ensures forall x :: x in TakeLast(t, k) ==> x in t
    ensures forall x :: x in t && x !in TakeLast(t, k) ==> |TakeLast(t, k)| == k && le(x, TakeLast(t, k)[0])
  {
    var r := TakeLast(t, k);
    var start := |t| - |r|;
    SortedSlice(t, le, start);
    forall x | x in t && x !in r ensures |r| == k && le(x, r[0]) {
      var i :| 0 <= i < |t| && t[i] == x;
      assert i < start;
      assert r[0] == t[start];
    }
  }

  lemma SortedSlice<T>(t: seq<T>, le: (T, T) -> bool, start: nat)
    requires start <= |t|
    requires Sorted(t, le)
    ensures Sorted(t[start..], le)
  {
    forall i, j | 0 <= i < j < |t| - start ensures le(t[start..][i], t[start..][j]) {
      assert t[start..][i] == t[start + i] && t[start..][j] == t[start + j];
    }
  }

  /** Sort the items kept by `p` in ascending order, then take the last k
      (`s[-k:]`): every kept item either made it into the result or is
      ordered before all of it. */
  lemma LastKSelection<T(!new)>(s: seq<T>, p: T -> bool, le: (T, T) -> bool, k: nat)
    requires 0 < k
    requires TotalPreorder(le)
    ensures |TakeLast(SortBy(Filter(s, p), le), k)| <= k
    ensures Sorted(TakeLast(SortBy(Filter(s, p), le), k), le)
    ensures forall j :: 0 <= j < |TakeLast(SortBy(Filter(s, p), le), k)| ==>
              p(TakeLast(SortBy(Filter(s, p), le), k)[j]) &&
              TakeLast(SortBy(Filter(s, p), le), k)[j] in s
    ensures forall x :: x in s && p(x) && x !in TakeLast(SortBy(Filter(s, p), le), k) ==>
              |TakeLast(SortBy(Filter(s, p), le), k)| == k &&
              le(x, TakeLast(SortBy(Filter(s, p), le), k)[0])
  {
    SortedSuffix(Filter(s, p), le, k);
    var r := TakeLast(SortBy(Filter(s, p), le), k);
    forall j | 0 <= j < |r| ensures p(r[j]) && r[j] in s {
      assert r[j] in Filter(s, p);
    }
    forall x | x in s && p(x) && x !in r ensures |r| == k && le(x, r[0]) {
      assert x in Filter(s, p);
    }
  }

  /* ------------------------------------------------------------------ */
  /* First-occurrence deduplication                                      */
  /* ------------------------------------------------------------------ */

  ghost predicate NoDuplicates<T>(s: seq<T>) {
    forall i, j :: 0 <= i < j < |s| ==> s[i] != s[j]
  }

  /** Index of the first occurrence of x in s. */
  function FirstIndex<T(==)>(s: seq<T>, x: T): (i: nat)
    requires x in s
    ensures i < |s| && s[i] == x
    ensures forall k :: 0 <= k < i ==> s[k] != x
  {
    if s[0] == x then 0 else 1 + FirstIndex(s[1..], x)
  }

  /** The distinct items of s in order of first occurrence
      (`list(pd.Series(s).unique())`, the key order of a dict built from s). */
  function Distinct<T(==,!new)>(s: seq<T>): (r: seq<T>)
    ensures forall x :: x in r <==> x in s
    ensures |r| <= |s|
    decreases |s|
  {
    if s == [] then []
    else
      var d := Distinct(s[..|s| - 1]);
      if s[|s| - 1] in d then d else d + [s[|s| - 1]]
  }

  /** `Distinct` keeps one copy of each item, in order of first occurrence. */
  lemma {:induction false} DistinctOrdered<T(!new)>(s: seq<T>)
    ensures NoDuplicates(Distinct(s))
    ensures forall i, j :: 0 <= i < j < |Distinct(s)| ==>
              FirstIndex(s, Distinct(s)[i]) < FirstIndex(s, Distinct(s)[j])
  {
    if s != [] {
      var p := s[..|s| - 1];
      var last := s[|s| - 1];
      DistinctOrdered(p);
      var d := Distinct(p);
      assert forall x :: x in p ==> FirstIndex(s, x) == FirstIndex(p, x) by {
        forall x | x in p ensures FirstIndex(s, x) == FirstIndex(p, x) {
          FirstIndexPrefix(p, last, x);
          assert s == p + [last];
        }
      }
      if last !in d {
        assert last !in p;
        assert FirstIndex(s, last) == |p|;
      }
    }
  }

  lemma {:induction false} FirstIndexPrefix<T>(p: seq<T>, y: T, x: T)
    requires x in p
    ensures FirstIndex(p + [y], x) == FirstIndex(p, x)
  {
    if p[0] != x {
      assert (p + [y])[1..] == p[1..] + [y];
      FirstIndexPrefix(p[1..], y, x);
    }
  }

  /* ------------------------------------------------------------------ */
  /* Decimal rendering (Python "%d")                                     */
  /* ------------------------------------------------------------------ */

  function DigitChar(d: nat): (c: char)
    requires d < 10
    ensures '0' <= c <= '9'
  {
    ('0' as int + d) as char
  }

  /** Decimal digits of n, without leading zeros. */
  function NatToString(n: nat): (s: string)
    ensures 1 <= |s|
    ensures forall k :: 0 <= k < |s| ==> '0' <= s[k] <= '9'
    ensures (n < 10) == (|s| == 1)
  {
    if n < 10 then [DigitChar(n)] else NatToString(n / 10) + [DigitChar(n % 10)]
  }

  /** Python's `"%d" % i`. */
  function IntToString(i: int): (s: string)
    ensures 1 <= |s|
    ensures (s[0] == '-') == (i < 0)
  {
    if i < 0 then "-" + NatToString(-i) else NatToString(i)
  }

  /** Different numbers have different decimal renderings. */
  lemma {:induction false} NatToStringInjective(a: nat, b: nat)
    requires NatToString(a) == NatToString(b)
    ensures a == b
  {
    if 10 <= a && 10 <= b {
      var sa, sb := NatToString(a), NatToString(b);
      assert sa[..|sa| - 1] == NatToString(a / 10);
      assert sb[..|sb| - 1] == NatToString(b / 10);
      NatToStringInjective(a / 10, b / 10);
      assert DigitChar(a % 10) == DigitChar(b % 10);
    }
  }

  lemma IntToStringInjective(a: int, b: int)
    requires IntToString(a) == IntToString(b)
    ensures a == b
  {
    if a < 0 {
      assert IntToString(a)[1..] == NatToString(-a);
      assert IntToString(b)[1..] == NatToString(-b);
      NatToStringInjective(-a, -b);
    } else {
      NatToStringInjective(a, b);
    }
  }
}
