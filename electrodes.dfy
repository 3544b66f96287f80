// Electrode topology of the stimulator prototype: the nine electrode ids,
// the list of candidate pairs built from them, Python's `list.index` lookup
// into that list, the history-to-indices conversion done after the run, and
// the integer distance of a pair to the simulated optimum.

module Electrodes {

  datatype Option<T> = None | Some(value: T)

  /** An electrode pair, as the Python tuple `(i, j)`. */
  type Pair = (int, int)

  const NumElectrodes: int := 9

  /** The pair the simulated muscle response favours. */
  const OptimalPair: Pair := (3, 5)

  /** Python's `range(lo, hi)` as a list. */
  function Range(lo: int, hi: int): (r: seq<int>)
    ensures |r| == if lo <= hi then hi - lo else 0
    ensures forall k :: 0 <= k < |r| ==> r[k] == lo + k
    decreases hi - lo
  {
    if lo >= hi then [] else [lo] + Range(lo + 1, hi)
  }

  /**
   * `electrodes = list(range(1, 10))`. The list is written as a sequence
   * comprehension rather than as `Range(1, 10)` so that the verifier does not
   * unfold the recursive `Range` at every use of the pair list; `IdsAreRange`
   * proves the two are the same list.
   */
  function Ids(): seq<int>
  {
    seq(NumElectrodes, k => k + 1)
  }

  lemma IdsAreRange()
    ensures Ids() == Range(1, NumElectrodes + 1)
  {
  }

  /** The inner loop of the comprehension: `(i, j) for j in cols if i < j`. */
  function PairsWith(i: int, cols: seq<int>): seq<Pair>
  {
    if cols == [] then []
    else (if i < cols[0] then [(i, cols[0])] else []) + PairsWith(i, cols[1..])
  }

  /** The whole comprehension: `[(i, j) for i in rows for j in cols if i < j]`. */
  function PairsOf(rows: seq<int>, cols: seq<int>): seq<Pair>
  {
    if rows == [] then [] else PairsWith(rows[0], cols) + PairsOf(rows[1..], cols)
  }

  /** `electrode_pairs`. */
  function ElectrodePairs(): seq<Pair>
  {
    PairsOf(Ids(), Ids())
  }

  /** `num_pairs = len(electrode_pairs)`. */
  function NumPairs(): nat
  {
    |ElectrodePairs()|
  }

  predicate LexLess(p: Pair, q: Pair)
  {
    p.0 < q.0 || (p.0 == q.0 && p.1 < q.1)
  }

  predicate Increasing(s: seq<int>)
  {
    forall a, b :: 0 <= a < b < |s| ==> s[a] < s[b]
  }

  predicate StrictlySorted(s: seq<Pair>)
  {
    forall a, b :: 0 <= a < b < |s| ==> LexLess(s[a], s[b])
  }

  /** A pair of two distinct electrode ids, the smaller one first. */
  predicate WellFormed(p: Pair)
  {
    1 <= p.0 < p.1 <= NumElectrodes
  }

  // ---------------------------------------------------------------------
  // Membership, order and size of the comprehension

  lemma {:induction false} PairsWithMembers(i: int, cols: seq<int>, p: Pair)
    ensures p in PairsWith(i, cols) <==> p.0 == i && p.1 in cols && i < p.1
  {
    if cols != [] {
      PairsWithMembers(i, cols[1..], p);
      assert cols == [cols[0]] + cols[1..];
    }
  }

  lemma {:induction false} PairsOfMembers(rows: seq<int>, cols: seq<int>, p: Pair)
    ensures p in PairsOf(rows, cols) <==> p.0 in rows && p.1 in cols && p.0 < p.1
  {
    if rows != [] {
      PairsWithMembers(rows[0], cols, p);
      PairsOfMembers(rows[1..], cols, p);
      assert rows == [rows[0]] + rows[1..];
    }
  }

  lemma SortedAppend(s: seq<Pair>, t: seq<Pair>)
    requires StrictlySorted(s) && StrictlySorted(t)
    requires forall a, b :: 0 <= a < |s| && 0 <= b < |t| ==> LexLess(s[a], t[b])
    ensures StrictlySorted(s + t)
  {
  }

  lemma {:induction false} PairsWithSorted(i: int, cols: seq<int>)
    requires Increasing(cols)
    ensures StrictlySorted(PairsWith(i, cols))
    ensures forall k :: 0 <= k < |PairsWith(i, cols)| ==> PairsWith(i, cols)[k].0 == i
  {
    if cols != [] {
      var rest := PairsWith(i, cols[1..]);
      PairsWithSorted(i, cols[1..]);
      forall k | 0 <= k < |rest|
        ensures cols[0] < rest[k].1
      {
        PairsWithMembers(i, cols[1..], rest[k]);
        var m :| 0 <= m < |cols[1..]| && cols[1..][m] == rest[k].1;
        assert cols[1 + m] == rest[k].1;
      }
      SortedAppend(if i < cols[0] then [(i, cols[0])] else [], rest);
    }
  }

  lemma {:induction false} PairsOfSorted(rows: seq<int>, cols: seq<int>)
    requires Increasing(rows) && Increasing(cols)
    ensures StrictlySorted(PairsOf(rows, cols))
  {
    if rows != [] {
      var row := PairsWith(rows[0], cols);
      var rest := PairsOf(rows[1..], cols);
      PairsWithSorted(rows[0], cols);
      PairsOfSorted(rows[1..], cols);
      forall b | 0 <= b < |rest|
        ensures rows[0] < rest[b].0
      {
        PairsOfMembers(rows[1..], cols, rest[b]);
        var m :| 0 <= m < |rows[1..]| && rows[1..][m] == rest[b].0;
        assert rows[1 + m] == rest[b].0;
      }
      SortedAppend(row, rest);
    }
  }

  /** Size of one row: the ids of `Range(lo, hi)` that exceed `i`. */
  lemma {:induction false} PairsWithCount(i: int, lo: int, hi: int)
    requires lo <= hi
    ensures |PairsWith(i, Range(lo, hi))| ==
            if i < lo then hi - lo else if i < hi then hi - 1 - i else 0
    decreases hi - lo
  {
    if lo < hi {
      assert Range(lo, hi)[1..] == Range(lo + 1, hi);
      PairsWithCount(i, lo + 1, hi);
    }
  }

  /** Rows `a .. hi-1` over the columns `lo .. hi-1` hold m*(m-1)/2 pairs, m = hi - a. */
  lemma {:induction false} PairsOfCount(a: int, lo: int, hi: int)
    requires lo <= a <= hi
    ensures 2 * |PairsOf(Range(a, hi), Range(lo, hi))| == (hi - a) * (hi - a - 1)
    decreases hi - a
  {
    if a < hi {
      assert Range(a, hi)[1..] == Range(a + 1, hi);
      PairsWithCount(a, lo, hi);
      PairsOfCount(a + 1, lo, hi);
      var m := hi - a;
      assert (m - 1) * (m - 2) + 2 * (m - 1) == m * (m - 1);
    }
  }

  lemma RangeIncreasing(lo: int, hi: int)
    ensures Increasing(Range(lo, hi))
  {
  }

  // ---------------------------------------------------------------------
  // The properties of `electrode_pairs`

  /** There are exactly 36 pairs, each of two distinct ids in 1..9, smaller first. */
  lemma PairsShape()
    ensures NumPairs() == 36
    ensures forall k :: 0 <= k < NumPairs() ==> WellFormed(ElectrodePairs()[k])
  {
    IdsAreRange();
    PairsOfCount(1, 1, NumElectrodes + 1);
    forall k | 0 <= k < NumPairs()
      ensures WellFormed(ElectrodePairs()[k])
    {
      ListedWellFormed(ElectrodePairs()[k]);
    }
  }

  /** Every listed pair is well formed. */
  lemma ListedWellFormed(p: Pair)
    requires p in ElectrodePairs()
    ensures WellFormed(p)
  {
    PairsOfMembers(Ids(), Ids(), p);
    var a :| 0 <= a < |Ids()| && Ids()[a] == p.0;
    var b :| 0 <= b < |Ids()| && Ids()[b] == p.1;
  }

  /** Every unordered pair of distinct ids, smaller first, is in the list. */
  lemma PairsComplete(i: int, j: int)
    requires 1 <= i < j <= NumElectrodes
    ensures (i, j) in ElectrodePairs()
  {
    PairsOfMembers(Ids(), Ids(), (i, j));
    assert Ids()[i - 1] == i && Ids()[j - 1] == j;
  }

  /** The list is in strictly increasing lexicographic order, hence without repeats. */
  lemma PairsSorted()
    ensures StrictlySorted(ElectrodePairs())
    ensures forall a, b :: 0 <= a < b < NumPairs() ==> ElectrodePairs()[a] != ElectrodePairs()[b]
  {
    IdsAreRange();
    RangeIncreasing(1, NumElectrodes + 1);
    PairsOfSorted(Ids(), Ids());
  }

  // ---------------------------------------------------------------------
  // `list.index` and `history_indices`

  /**
   * Python's `s.index(x)`: the first position holding `x`; `None` stands for
   * the `ValueError` raised when `x` is absent.
   */
  function Index<T(==)>(s: seq<T>, x: T): (r: Option<nat>)
    ensures r.None? <==> x !in s
    ensures r.Some? ==> r.value < |s| && s[r.value] == x
    ensures r.Some? ==> forall k :: 0 <= k < r.value ==> s[k] != x
  {
    if s == [] then None
    else if s[0] == x then Some(0)
    else match Index(s[1..], x)
      case None => None
      case Some(k) => Some(k + 1)
  }

  /** In a strictly sorted list, looking up the k-th element gives back k. */
  lemma IndexOfSorted(s: seq<Pair>, k: nat)
    requires StrictlySorted(s) && k < |s|
    ensures Index(s, s[k]) == Some(k)
  {
    var r := Index(s, s[k]);
    assert r.Some?;
  }

  /** `electrode_pairs.index(electrode_pairs[k]) == k` for every valid k. */
  lemma IndexRoundTrip(k: nat)
    requires k < NumPairs()
    ensures Index(ElectrodePairs(), ElectrodePairs()[k]) == Some(k)
  {
    PairsSorted();
    IndexOfSorted(ElectrodePairs(), k);
  }

  /**
   * `[s.index(x) for x in h]`; `None` when some element of `h` is absent
   * from `s` (the comprehension would raise).
   */
  function HistoryIndices<T(==)>(s: seq<T>, h: seq<T>): (r: Option<seq<int>>)
    ensures r.Some? <==> forall t :: 0 <= t < |h| ==> h[t] in s
    ensures r.Some? ==> |r.value| == |h|
    ensures r.Some? ==> forall t :: 0 <= t < |h| ==> 0 <= r.value[t] < |s| && s[r.value[t]] == h[t]
    ensures r.Some? ==> forall t, k :: 0 <= t < |h| && 0 <= k < r.value[t] ==> s[k] != h[t]
  {
    if h == [] then Some([])
    else
      var init := HistoryIndices(s, h[..|h| - 1]);
      var last := Index(s, h[|h| - 1]);
      if init.Some? && last.Some? then Some(init.value + [last.value]) else None
  }

  lemma SplitLast<T>(s: seq<T>)
    requires s != []
    ensures s[..|s| - 1] + [s[|s| - 1]] == s
  {
  }

  /**
   * A history made of listed pairs converts back to the positions it was
   * built from: `[electrode_pairs.index(p) for p in history]` recovers them.
   */
  lemma {:induction false} HistoryIndicesOfPositions(h: seq<Pair>, ix: seq<int>)
    requires |h| == |ix|
    requires forall t :: 0 <= t < |ix| ==> 0 <= ix[t] < NumPairs() && h[t] == ElectrodePairs()[ix[t]]
    ensures HistoryIndices(ElectrodePairs(), h) == Some(ix)
  {
    if h != [] {
      var n := |h| - 1;
      HistoryIndicesOfPositions(h[..n], ix[..n]);
      IndexRoundTrip(ix[n]);
      SplitLast(ix);
    }
  }

  // ---------------------------------------------------------------------
  // Distance used by the simulated muscle response

  function Abs(x: int): nat
  {
    if x < 0 then -x else x
  }

  /** Manhattan distance of a pair's ids to those of the optimal pair (3, 5). */
  function Distance(p: Pair): (r: nat)
    ensures r == 0 <==> p == OptimalPair
  {
    Abs(p.0 - OptimalPair.0) + Abs(p.1 - OptimalPair.1)
  }

  /** Over the listed pairs the distance is at most 9, reached only by (8, 9). */
  lemma DistanceBound(p: Pair)
    requires p in ElectrodePairs()
    ensures Distance(p) <= 9
    ensures Distance(p) == 9 <==> p == (8, 9)
  {
    ListedWellFormed(p);
    WellFormedDistance(p);
  }

  lemma WellFormedDistance(p: Pair)
    requires WellFormed(p)
    ensures Distance(p) <= 9
    ensures Distance(p) == 9 <==> p == (8, 9)
  {
  }
}
