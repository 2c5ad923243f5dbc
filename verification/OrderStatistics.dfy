// The order statistics the anomaly rules learn from (anomaly_detect.go): the
// median, the median absolute deviation, an interpolated quantile and the
// reference level of the new-data rule. Each sorts a copy and reads positions
// of it; what the positions mean for the unsorted samples is proved here.
module OrderStatistics {

  // How many entries satisfy p.
  function Count<T(!new)>(xs: seq<T>, p: T -> bool): (n: nat)
    ensures n <= |xs|
  {
    if xs == [] then 0 else (if p(xs[0]) then 1 else 0) + Count(xs[1..], p)
  }

  ghost predicate Ascending(xs: seq<real>) {
    forall i, j :: 0 <= i < j < |xs| ==> xs[i] <= xs[j]
  }

  function Insert(x: real, xs: seq<real>): (r: seq<real>)
    requires Ascending(xs)
    ensures Ascending(r) && |r| == |xs| + 1
    ensures forall y :: y in r ==> y == x || y in xs
  {
    if xs == [] || x <= xs[0] then [x] + xs
    else
      var rest := Insert(x, xs[1..]);
      assert forall i :: 0 <= i < |rest| ==> xs[0] <= rest[i] by {
        forall i | 0 <= i < |rest| ensures xs[0] <= rest[i] {
          assert rest[i] in rest;
          assert rest[i] == x || rest[i] in xs[1..];
        }
      }
      [xs[0]] + rest
  }

  // The sorted copy the statistics index into.
  function Sorted(xs: seq<real>): (r: seq<real>)
    ensures Ascending(r) && |r| == |xs|
  {
    if xs == [] then [] else Insert(xs[0], Sorted(xs[1..]))
  }

  lemma {:induction false} CountOfInsert(x: real, xs: seq<real>, p: real -> bool)
    requires Ascending(xs)
    ensures Count(Insert(x, xs), p) == Count([x], p) + Count(xs, p)
  {
    if xs == [] || x <= xs[0] {
      assert ([x] + xs)[1..] == xs;
    } else {
      CountOfInsert(x, xs[1..], p);
      assert Insert(x, xs)[1..] == Insert(x, xs[1..]);
    }
  }

  lemma {:induction false} CountOfSorted(xs: seq<real>, p: real -> bool)
    ensures Count(Sorted(xs), p) == Count(xs, p)
  {
    if xs != [] {
      CountOfInsert(xs[0], Sorted(xs[1..]), p);
      CountOfSorted(xs[1..], p);
    }
  }

  // Entries that satisfy p form a suffix, entries that fail it a prefix.
  ghost predicate Upward(xs: seq<real>, p: real -> bool) {
    forall i, j :: 0 <= i < j < |xs| && p(xs[i]) ==> p(xs[j])
  }

  ghost predicate Downward(xs: seq<real>, p: real -> bool) {
    forall i, j :: 0 <= i < j < |xs| && p(xs[j]) ==> p(xs[i])
  }

  lemma {:induction false} CountAll<T(!new)>(xs: seq<T>, p: T -> bool)
    requires forall i :: 0 <= i < |xs| ==> p(xs[i])
    ensures Count(xs, p) == |xs|
  {
    if xs != [] {
      CountAll(xs[1..], p);
    }
  }

  lemma {:induction false} CountNone<T(!new)>(xs: seq<T>, p: T -> bool)
    requires forall i :: 0 <= i < |xs| ==> !p(xs[i])
    ensures Count(xs, p) == 0
  {
    if xs != [] {
      CountNone(xs[1..], p);
    }
  }

  // In a suffix-closed selection, position i is selected exactly when enough
  // entries are.
  lemma {:induction false} SuffixPosition(xs: seq<real>, p: real -> bool, i: nat)
    requires Upward(xs, p) && i < |xs|
    ensures p(xs[i]) <==> Count(xs, p) >= |xs| - i
  {
    if p(xs[0]) {
      assert forall j :: 0 < j < |xs| ==> p(xs[j]);
      CountAll(xs, p);
    } else if i > 0 {
      SuffixPosition(xs[1..], p, i - 1);
    }
  }

  lemma {:induction false} PrefixPosition(xs: seq<real>, p: real -> bool, i: nat)
    requires Downward(xs, p) && i < |xs|
    ensures p(xs[i]) <==> Count(xs, p) >= i + 1
  {
    if !p(xs[0]) {
      assert forall j :: 0 < j < |xs| && p(xs[j]) ==> p(xs[0]);
      CountNone(xs, p);
    } else if i > 0 {
      PrefixPosition(xs[1..], p, i - 1);
    }
  }

  lemma {:induction false} CountImplies<T(!new)>(xs: seq<T>, p: T -> bool, q: T -> bool)
    requires forall i :: 0 <= i < |xs| && p(xs[i]) ==> q(xs[i])
    ensures Count(xs, p) <= Count(xs, q)
  {
    if xs != [] {
      CountImplies(xs[1..], p, q);
    }
  }

  // ---- median -------------------------------------------------------------

  function Median(xs: seq<real>): real {
    if xs == [] then 0.0
    else
      var s := Sorted(xs);
      var mid := |s| / 2;
      if |s| % 2 == 1 then s[mid] else (s[mid - 1] + s[mid]) / 2.0
  }

  // An interval that holds more than half the samples holds the median.
  lemma MedianInMajorityInterval(xs: seq<real>, lo: real, hi: real)
    requires 2 * Count(xs, (x: real) => lo <= x <= hi) > |xs|
    ensures lo <= Median(xs) <= hi
  {
    hide Count, Sorted;
    var within := (x: real) => lo <= x <= hi;
    var above := (x: real) => lo <= x;
    var below := (x: real) => x <= hi;
    CountImplies(xs, within, above);
    CountImplies(xs, within, below);
    var s := Sorted(xs);
    CountOfSorted(xs, above);
    CountOfSorted(xs, below);
    var mid := |s| / 2;
    SuffixPosition(s, above, mid);
    PrefixPosition(s, below, mid);
    if |s| % 2 == 0 {
      SuffixPosition(s, above, mid - 1);
      PrefixPosition(s, below, mid - 1);
    }
  }

  // Without a negative sample the median is not negative.
  lemma MedianNonNegative(xs: seq<real>)
    requires forall i :: 0 <= i < |xs| ==> xs[i] >= 0.0
    ensures Median(xs) >= 0.0
  {
    if xs != [] {
      var s := Sorted(xs);
      SortedKeeps(xs);
      assert forall i :: 0 <= i < |s| ==> s[i] in s;
    }
  }

  lemma {:induction false} SortedKeeps(xs: seq<real>)
    ensures forall y :: y in Sorted(xs) ==> y in xs
  {
    if xs != [] {
      SortedKeeps(xs[1..]);
    }
  }

  // ---- median absolute deviation ------------------------------------------

  function Abs(x: real): real { if x < 0.0 then -x else x }

  function Deviations(xs: seq<real>, m: real): (ds: seq<real>)
    ensures |ds| == |xs| && forall i :: 0 <= i < |xs| ==> ds[i] == Abs(xs[i] - m)
  {
    seq(|xs|, i requires 0 <= i < |xs| => Abs(xs[i] - m))
  }

  function MadOf(xs: seq<real>, m: real): real { Median(Deviations(xs, m)) }

  method Mad(xs: seq<real>, m: real) returns (r: real)
    ensures r == MadOf(xs, m)
    ensures 2 * Count(xs, (x: real) => x == m) > |xs| ==> r == 0.0
  {
    if xs == [] {
      return 0.0;
    }
    var deviations: seq<real> := [];
    for i := 0 to |xs|
      invariant |deviations| == i
      invariant forall j :: 0 <= j < i ==> deviations[j] == Abs(xs[j] - m)
    {
      deviations := deviations + [Abs(xs[i] - m)];
    }
    assert deviations == Deviations(xs, m);
    r := Median(deviations);
    if 2 * Count(xs, (x: real) => x == m) > |xs| {
      MadOfMajority(xs, m);
    }
  }

  lemma {:induction false} CountPointwise(xs: seq<real>, ys: seq<real>, p: real -> bool, q: real -> bool)
    requires |xs| == |ys| && forall i :: 0 <= i < |xs| && p(xs[i]) ==> q(ys[i])
    ensures Count(xs, p) <= Count(ys, q)
  {
    if xs != [] {
      CountPointwise(xs[1..], ys[1..], p, q);
    }
  }

  // A single outlier cannot inflate the spread: it is zero as long as more than
  // half the samples sit at the centre.
  lemma MadOfMajority(xs: seq<real>, m: real)
    requires 2 * Count(xs, (x: real) => x == m) > |xs|
    ensures MadOf(xs, m) == 0.0
  {
    var ds := Deviations(xs, m);
    CountPointwise(xs, ds, (x: real) => x == m, (x: real) => 0.0 <= x <= 0.0);
    MedianInMajorityInterval(ds, 0.0, 0.0);
  }

  // ---- quantile -----------------------------------------------------------

  function Clamped(q: real): real { if q < 0.0 then 0.0 else if q > 1.0 then 1.0 else q }

  function Ceiling(x: real): int { -((-x).Floor) }

  function Quantile(xs: seq<real>, q: real): real {
    if xs == [] then 0.0
    else
      var s := Sorted(xs);
      var pos := Clamped(q) * (|s| - 1) as real;
      QuantilePosition(q, |s|);
      var lo, hi := pos.Floor, Ceiling(pos);
      s[lo] + (pos - lo as real) * (s[hi] - s[lo])
  }

  lemma QuantilePosition(q: real, n: nat)
    requires n > 0
    ensures var pos := Clamped(q) * (n - 1) as real; 0 <= pos.Floor <= Ceiling(pos) < n
  {
    var c, m := Clamped(q), (n - 1) as real;
    assert 0.0 <= c * m <= m;
  }

  // The one-half quantile is the median, for odd and even sample counts.
  lemma HalfQuantileIsMedian(xs: seq<real>)
    ensures Quantile(xs, 0.5) == Median(xs)
  {
    if xs != [] {
      var s := Sorted(xs);
      var n, mid := |s|, |s| / 2;
      var pos := 0.5 * (n - 1) as real;
      if n % 2 == 1 {
        assert n - 1 == 2 * mid;
        assert pos == mid as real;
        assert Ceiling(pos) == mid;
      } else {
        assert n == 2 * mid;
        assert pos == mid as real - 0.5;
        assert pos.Floor == mid - 1 && Ceiling(pos) == mid;
        assert s[mid - 1] + 0.5 * (s[mid] - s[mid - 1]) == (s[mid - 1] + s[mid]) / 2.0;
      }
    }
  }

  // ---- new-data reference -------------------------------------------------

  function Max(a: int, b: int): int { if a >= b then a else b }

  function Min(a: int, b: int): int { if a <= b then a else b }

  // Which largest sample the reference is: the second of fewer than two hundred
  // samples, about the 99th percentile above.
  function ReferenceRank(n: nat): (k: nat)
    ensures n > 0 ==> 1 <= k <= n
  {
    Min(Max(2, (n + 99) / 100), n)
  }

  function Reference(xs: seq<real>): real {
    if xs == [] then 0.0 else Sorted(xs)[|xs| - ReferenceRank(|xs|)]
  }

  // The reference reaches x exactly when at least that many samples do.
  lemma ReferenceReaches(xs: seq<real>, x: real)
    requires xs != []
    ensures Reference(xs) >= x <==> Count(xs, (v: real) => v >= x) >= ReferenceRank(|xs|)
  {
    var p := (v: real) => v >= x;
    CountOfSorted(xs, p);
    SuffixPosition(Sorted(xs), p, |xs| - ReferenceRank(|xs|));
  }

  lemma {:induction false} CountWithin<T(!new)>(xs: seq<T>, p: T -> bool, at: set<int>)
    requires forall i :: 0 <= i < |xs| && p(xs[i]) ==> i in at
    ensures Count(xs, p) <= |at|
  {
    if xs != [] {
      var last := |xs| - 1;
      CountSplitLast(xs, p);
      if p(xs[last]) {
        CountWithin(xs[..last], p, at - {last});
      } else {
        CountWithin(xs[..last], p, at);
      }
    }
  }

  lemma {:induction false} CountSplitLast<T(!new)>(xs: seq<T>, p: T -> bool)
    requires xs != []
    ensures Count(xs, p) == Count(xs[..|xs| - 1], p) + (if p(xs[|xs| - 1]) then 1 else 0)
  {
    if |xs| > 1 {
      CountSplitLast(xs[1..], p);
      assert xs[1..][..|xs| - 2] == xs[..|xs| - 1][1..];
    }
  }

  // Robustness: whatever fewer than k samples are changed to, the reference
  // stays at or below the level the untouched ones keep.
  lemma ReferenceIgnoresFewSpikes(xs: seq<real>, touched: set<int>, level: real)
    requires xs != [] && |touched| < ReferenceRank(|xs|)
    requires forall i :: 0 <= i < |xs| && i !in touched ==> xs[i] <= level
    ensures Reference(xs) <= level
  {
    var r := Reference(xs);
    if r > level {
      ReferenceReaches(xs, r);
      CountWithin(xs, (v: real) => v >= r, touched);
    }
  }
}
