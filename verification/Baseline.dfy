/** The rolling bandwidth baseline (internal/storage/bandwidth.go), over exact reals: which samples
    qualify, median and trimmed mean, and how much bad data each withstands. */
module Baseline {
  import opened Wrappers

  const DAY_MS := 86_400_000

  datatype BandwidthRow = BandwidthRow(ts: int, ok: bool, down: real, up: real)

  // ---- order statistics ----

  predicate Ascending(v: seq<real>) {
    forall i, j | 0 <= i < j < |v| :: v[i] <= v[j]
  }

  function Insert(v: seq<real>, x: real): seq<real> {
    if v == [] || x <= v[0] then [x] + v else [v[0]] + Insert(v[1..], x)
  }

  // sort.Float64s of a copy.
  function Sort(s: seq<real>): seq<real> {
    if s == [] then [] else Insert(Sort(s[1..]), s[0])
  }

  function Count(s: seq<real>, p: real -> bool): nat {
    if s == [] then 0 else (if p(s[0]) then 1 else 0) + Count(s[1..], p)
  }

  ghost predicate DownClosed(p: real -> bool) {
    forall x, y | x <= y && p(y) :: p(x)
  }

  lemma {:induction false} InsertFacts(v: seq<real>, x: real, p: real -> bool)
    ensures |Insert(v, x)| == |v| + 1
    ensures Count(Insert(v, x), p) == Count(v, p) + if p(x) then 1 else 0
  {
    if v == [] || x <= v[0] {
      assert ([x] + v)[1..] == v;
    } else {
      InsertFacts(v[1..], x, p);
      assert ([v[0]] + Insert(v[1..], x))[1..] == Insert(v[1..], x);
    }
  }

  lemma {:induction false} InsertAscends(v: seq<real>, x: real)
    requires Ascending(v)
    ensures Ascending(Insert(v, x))
    ensures forall i | 0 <= i < |Insert(v, x)| :: Insert(v, x)[i] >= x || (v != [] && Insert(v, x)[i] >= v[0])
  {
    if v != [] && x > v[0] {
      InsertAscends(v[1..], x);
    }
  }

  lemma {:induction false} SortFacts(s: seq<real>, p: real -> bool)
    ensures |Sort(s)| == |s| && Ascending(Sort(s))
    ensures Count(Sort(s), p) == Count(s, p)
  {
    if s != [] {
      SortFacts(s[1..], p);
      InsertFacts(Sort(s[1..]), s[0], p);
      InsertAscends(Sort(s[1..]), s[0]);
    }
  }

  lemma {:induction false} CountBounds(s: seq<real>, p: real -> bool)
    ensures Count(s, p) <= |s|
    ensures (forall i | 0 <= i < |s| :: !p(s[i])) ==> Count(s, p) == 0
  {
    if s != [] {
      CountBounds(s[1..], p);
    }
  }

  lemma {:induction false} AscendingCount(v: seq<real>, p: real -> bool, k: nat)
    requires Ascending(v) && DownClosed(p) && k < |v|
    ensures p(v[k]) <==> Count(v, p) > k
  {
    if !p(v[0]) {
      CountBounds(v, p);
    } else if k > 0 {
      assert v[1..][k - 1] == v[k];
      AscendingCount(v[1..], p, k - 1);
    }
  }

  /** The k-th smallest sample has a downward-closed property exactly when more than k samples do. */
  lemma OrderStatistic(s: seq<real>, p: real -> bool, k: nat)
    requires DownClosed(p) && k < |s|
    ensures |Sort(s)| == |s|
    ensures p(Sort(s)[k]) <==> Count(s, p) > k
  {
    SortFacts(s, p);
    AscendingCount(Sort(s), p, k);
  }

  function AtMost(x: real): real -> bool {
    (y: real) => y <= x
  }

  function Below(x: real): real -> bool {
    (y: real) => y < x
  }

  function Above(x: real): real -> bool {
    (y: real) => y > x
  }

  function Within(lo: real, hi: real): real -> bool {
    (y: real) => lo <= y <= hi
  }

  lemma {:induction false} CountSplits(s: seq<real>, lo: real, hi: real)
    ensures Count(s, AtMost(hi)) + Count(s, Above(hi)) == |s|
    ensures lo <= hi ==> Count(s, Within(lo, hi)) + Count(s, Below(lo)) + Count(s, Above(hi)) == |s|
  {
    if s != [] {
      CountSplits(s[1..], lo, hi);
    }
  }

  lemma {:induction false} CountMonotone(s: seq<real>, t: seq<real>, p: real -> bool)
    requires DownClosed(p) && |s| == |t| && forall i | 0 <= i < |s| :: s[i] <= t[i]
    ensures Count(s, p) >= Count(t, p)
  {
    if s != [] {
      assert s[0] <= t[0];
      CountMonotone(s[1..], t[1..], p);
    }
  }

  /** Raising samples raises every order statistic, or leaves it. */
  lemma SortMonotone(s: seq<real>, t: seq<real>, k: nat)
    requires |s| == |t| && (forall i | 0 <= i < |s| :: s[i] <= t[i]) && k < |s|
    ensures |Sort(s)| == |s| == |Sort(t)| && Sort(s)[k] <= Sort(t)[k]
  {
    SortFacts(t, AtMost(0.0));
    var p := AtMost(Sort(t)[k]);
    OrderStatistic(s, p, k);
    OrderStatistic(t, p, k);
    CountMonotone(s, t, p);
  }

  lemma {:induction false} CountSplit(a: seq<real>, b: seq<real>, p: real -> bool)
    ensures Count(a + b, p) == Count(a, p) + Count(b, p)
  {
    if a == [] {
      assert a + b == b;
    } else {
      assert (a + b)[1..] == a[1..] + b;
      CountSplit(a[1..], b, p);
    }
  }

  lemma CountMiddle(a: seq<real>, x: real, b: seq<real>, p: real -> bool)
    ensures Count(a + ([x] + b), p) == Count(a + b, p) + if p(x) then 1 else 0
  {
    CountSplit(a, [x] + b, p);
    CountSplit(a, b, p);
    assert ([x] + b)[1..] == b;
  }

  // Taking the same sample out of two readings of one bag leaves two readings of one bag.
  lemma TakeOut(s: seq<real>, t: seq<real>) returns (j: nat)
    requires s != [] && multiset(s) == multiset(t)
    ensures j < |t| && t[j] == s[0]
    ensures multiset(s[1..]) == multiset(t[..j] + t[j + 1..])
  {
    assert s[0] in multiset(t);
    j :| 0 <= j < |t| && t[j] == s[0];
    assert s == [s[0]] + s[1..];
    assert t == t[..j] + ([t[j]] + t[j + 1..]);
    assert multiset(s) == multiset{s[0]} + multiset(s[1..]);
    assert multiset(t) == multiset(t[..j]) + multiset{t[j]} + multiset(t[j + 1..]);
    assert multiset(t[..j] + t[j + 1..]) == multiset(t) - multiset{s[0]};
    assert multiset(s[1..]) == multiset(s) - multiset{s[0]};
  }

  lemma {:induction false} CountPermuted(s: seq<real>, t: seq<real>, p: real -> bool)
    requires multiset(s) == multiset(t)
    ensures Count(s, p) == Count(t, p)
    decreases |s|
  {
    if s == [] {
      assert |multiset(t)| == 0;
    } else {
      var j := TakeOut(s, t);
      CountPermuted(s[1..], t[..j] + t[j + 1..], p);
      CountMiddle(t[..j], t[j], t[j + 1..], p);
      assert t == t[..j] + ([t[j]] + t[j + 1..]);
    }
  }

  /** The sorted copy, and so each aggregate of it, does not depend on the order rows are read in. */
  lemma SortPermuted(s: seq<real>, t: seq<real>)
    requires multiset(s) == multiset(t)
    ensures Sort(s) == Sort(t)
  {
    assert |s| == |multiset(s)| == |multiset(t)| == |t|;
    SortFacts(s, AtMost(0.0));
    SortFacts(t, AtMost(0.0));
    forall k | 0 <= k < |s|
      ensures Sort(s)[k] == Sort(t)[k]
    {
      SortSame(s, t, k);
      SortSame(t, s, k);
    }
  }

  lemma SortSame(s: seq<real>, t: seq<real>, k: nat)
    requires multiset(s) == multiset(t) && k < |s| == |t|
    ensures |Sort(s)| == |s| == |Sort(t)| && Sort(s)[k] <= Sort(t)[k]
  {
    SortFacts(t, AtMost(0.0));
    var p := AtMost(Sort(t)[k]);
    OrderStatistic(s, p, k);
    OrderStatistic(t, p, k);
    CountPermuted(s, t, p);
  }

  // ---- the two aggregates ----

  function Sum(v: seq<real>): real {
    if v == [] then 0.0 else Sum(v[..|v| - 1]) + v[|v| - 1]
  }

  function Median(s: seq<real>): real {
    var v := Sort(s);
    if |v| == 0 then 0.0
    else if |v| % 2 == 1 then v[|v| / 2]
    else (v[|v| / 2 - 1] + v[|v| / 2]) / 2.0
  }

  // What is left after dropping the lowest and highest tenth, rounded down.
  function Core(s: seq<real>): (r: seq<real>)
    ensures s != [] ==> r != []
  {
    SortFacts(s, AtMost(0.0));
    var trim := |s| / 10;
    Sort(s)[trim..|s| - trim]
  }

  function TrimmedMean(s: seq<real>): real {
    if s == [] then 0.0 else Sum(Core(s)) / |Core(s)| as real
  }

  function Aggregate(metric: string, s: seq<real>): real {
    if metric == "trimmed_mean" then TrimmedMean(s) else Median(s)
  }

  method ComputeMedian(vals: seq<real>) returns (m: real)
    ensures m == Median(vals)
  {
    SortFacts(vals, AtMost(0.0));
    var v := Sort(vals);
    var n := |v|;
    if n == 0 {
      return 0.0;
    }
    if n % 2 == 1 {
      return v[n / 2];
    }
    m := (v[n / 2 - 1] + v[n / 2]) / 2.0;
  }

  method ComputeTrimmedMean(vals: seq<real>) returns (m: real)
    ensures m == TrimmedMean(vals)
  {
    SortFacts(vals, AtMost(0.0));
    var v := Sort(vals);
    var n := |v|;
    if n == 0 {
      return 0.0;
    }
    var trim := n / 10;
    v := v[trim..n - trim];
    var sum := 0.0;
    for i := 0 to |v|
      invariant sum == Sum(v[..i])
    {
      assert v[..i + 1][..i] == v[..i];
      sum := sum + v[i];
    }
    assert v[..|v|] == v;
    m := sum / |v| as real;
  }

  /** Both aggregates are functions of the samples as a bag. */
  lemma AggregatePermuted(metric: string, s: seq<real>, t: seq<real>)
    requires multiset(s) == multiset(t)
    ensures Aggregate(metric, s) == Aggregate(metric, t)
  {
    assert |s| == |multiset(s)| == |multiset(t)| == |t|;
    SortPermuted(s, t);
  }

  lemma {:induction false} SumMonotone(v: seq<real>, w: seq<real>)
    requires |v| == |w| && forall i | 0 <= i < |v| :: v[i] <= w[i]
    ensures Sum(v) <= Sum(w)
  {
    if v != [] {
      SumMonotone(v[..|v| - 1], w[..|w| - 1]);
    }
  }

  lemma DivMonotone(a: real, b: real, n: real)
    requires a <= b && n > 0.0
    ensures a / n <= b / n
  {
  }

  /** A faster sample never lowers the baseline. */
  lemma AggregateMonotone(metric: string, s: seq<real>, t: seq<real>)
    requires |s| == |t| && forall i | 0 <= i < |s| :: s[i] <= t[i]
    ensures Aggregate(metric, s) <= Aggregate(metric, t)
  {
    SortFacts(s, AtMost(0.0));
    SortFacts(t, AtMost(0.0));
    forall k | 0 <= k < |s|
      ensures Sort(s)[k] <= Sort(t)[k]
    {
      SortMonotone(s, t, k);
    }
    if s != [] && metric == "trimmed_mean" {
      SumMonotone(Core(s), Core(t));
      DivMonotone(Sum(Core(s)), Sum(Core(t)), |Core(s)| as real);
    }
  }

  // ---- how much bad data it withstands ----

  lemma StatisticWithin(s: seq<real>, lo: real, hi: real, k: nat)
    requires k < |s| && Count(s, Below(lo)) <= k && Count(s, Above(hi)) < |s| - k
    ensures |Sort(s)| == |s| && lo <= Sort(s)[k] <= hi
  {
    OrderStatistic(s, Below(lo), k);
    OrderStatistic(s, AtMost(hi), k);
    CountSplits(s, lo, hi);
  }

  /** The median stays in any range that more than half of the samples are in. */
  lemma MedianWithstands(s: seq<real>, lo: real, hi: real)
    requires lo <= hi && 2 * Count(s, Within(lo, hi)) > |s|
    ensures lo <= Median(s) <= hi
  {
    CountSplits(s, lo, hi);
    StatisticWithin(s, lo, hi, |s| / 2);
    if |s| % 2 == 0 {
      StatisticWithin(s, lo, hi, |s| / 2 - 1);
    }
  }

  lemma {:induction false} SumAtLeast(v: seq<real>, lo: real)
    requires forall i | 0 <= i < |v| :: lo <= v[i]
    ensures lo * |v| as real <= Sum(v)
  {
    if v != [] {
      SumAtLeast(v[..|v| - 1], lo);
      var n := |v| - 1;
      assert lo * (n as real + 1.0) == lo * n as real + lo;
    }
  }

  lemma {:induction false} SumAtMost(v: seq<real>, hi: real)
    requires forall i | 0 <= i < |v| :: v[i] <= hi
    ensures Sum(v) <= hi * |v| as real
  {
    if v != [] {
      SumAtMost(v[..|v| - 1], hi);
      var n := |v| - 1;
      assert hi * (n as real + 1.0) == hi * n as real + hi;
    }
  }

  // What the window holds, and what the mean of it is.
  lemma CoreFacts(s: seq<real>)
    requires s != []
    ensures |Sort(s)| == |s| && |Core(s)| == |s| - 2 * (|s| / 10) > 0
    ensures forall i | 0 <= i < |Core(s)| :: Core(s)[i] == Sort(s)[|s| / 10 + i]
    ensures TrimmedMean(s) == Sum(Core(s)) / |Core(s)| as real
  {
    hide Sort, Sum, Ascending, Count;
    SortFacts(s, AtMost(0.0));
  }

  lemma MeanWithin(sum: real, n: real, lo: real, hi: real)
    requires n > 0.0 && lo * n <= sum <= hi * n
    ensures lo <= sum / n <= hi
  {
    MeanAtLeast(sum, n, lo);
    DivMonotone(sum, hi * n, n);
    Cancel(hi, n);
  }

  lemma MeanAtLeast(sum: real, n: real, lo: real)
    requires n > 0.0 && lo * n <= sum
    ensures lo <= sum / n
  {
    DivMonotone(lo * n, sum, n);
    Cancel(lo, n);
  }

  /** The trimmed mean stays in any range that all but a tenth of the samples on either side are in. */
  lemma TrimmedMeanWithstands(s: seq<real>, lo: real, hi: real)
    requires s != [] && Count(s, Below(lo)) <= |s| / 10 && Count(s, Above(hi)) <= |s| / 10
    ensures lo <= TrimmedMean(s) <= hi
  {
    hide *;
    var trim := |s| / 10;
    CoreFacts(s);
    forall i | 0 <= i < |Core(s)|
      ensures lo <= Core(s)[i] <= hi
    {
      StatisticWithin(s, lo, hi, trim + i);
    }
    SumAtLeast(Core(s), lo);
    SumAtMost(Core(s), hi);
    MeanWithin(Sum(Core(s)), |Core(s)| as real, lo, hi);
  }

  // `low` zeros followed by copies of x, n samples in all.
  function Spoiled(n: nat, low: nat, x: real): (s: seq<real>)
    ensures |s| == n
  {
    seq(n, i => if i < low then 0.0 else x)
  }

  lemma {:induction false} AscendingIsSorted(v: seq<real>)
    requires Ascending(v)
    ensures Sort(v) == v
  {
    if v != [] {
      AscendingIsSorted(v[1..]);
      assert [v[0]] + v[1..] == v;
    }
  }

  lemma {:induction false} CountZeros(s: seq<real>, zeros: nat, x: real)
    requires zeros <= |s| && x > 0.0
    requires forall i | 0 <= i < |s| :: s[i] == if i < zeros then 0.0 else x
    ensures Count(s, Within(0.0, 0.0)) == zeros
    ensures Count(s, Below(0.0)) == 0 && Count(s, Above(0.0)) == |s| - zeros
  {
    if s != [] {
      CountZeros(s[1..], if zeros == 0 then 0 else zeros - 1, x);
    }
  }

  lemma {:induction false} SumOfOne(v: seq<real>)
    requires v != [] && forall i | 0 <= i < |v| - 1 :: v[i] == 0.0
    ensures Sum(v) == v[|v| - 1]
  {
    var w := v[..|v| - 1];
    if w != [] {
      assert w[|w| - 1] == 0.0;
      SumOfOne(w);
    } else {
      assert Sum(w) == 0.0;
    }
  }

  /** Half is not enough for the median: with just half the samples in place (rounded down), the
      rest can move it past any bound. */
  lemma MedianLimit(n: nat, bound: real) returns (s: seq<real>)
    requires n > 0 && bound >= 0.0
    ensures |s| == n && Count(s, Within(0.0, 0.0)) == n / 2 && Median(s) > bound
  {
    var x := 2.0 * bound + 1.0;
    s := Spoiled(n, n / 2, x);
    AscendingIsSorted(s);
    CountZeros(s, n / 2, x);
  }

  lemma OverTheBound(bound: real, m: real) returns (x: real)
    requires bound >= 0.0 && m >= 1.0
    ensures x > 0.0 && x / m == bound + 1.0
  {
    var above := bound + 1.0;
    x := Times(above, m);
  }

  lemma Times(a: real, m: real) returns (x: real)
    requires a > 0.0 && m > 0.0
    ensures x > 0.0 && x / m == a
  {
    x := a * m;
    Cancel(a, m);
  }

  lemma Cancel(a: real, m: real)
    requires m > 0.0
    ensures a * m / m == a
  {
  }

  /** One sample above the tenth is enough to move the trimmed mean past any bound. */
  lemma TrimmedMeanLimit(n: nat, bound: real) returns (s: seq<real>)
    requires n > 0 && bound >= 0.0
    ensures |s| == n && Count(s, Below(0.0)) == 0 && Count(s, Above(0.0)) == n / 10 + 1
    ensures TrimmedMean(s) > bound
  {
    hide Sort, Sum, Count, Core, TrimmedMean;
    var trim := n / 10;
    var m := (n - 2 * trim) as real;
    var x := OverTheBound(bound, m);
    s := Spoiled(n, n - trim - 1, x);
    AscendingIsSorted(s);
    CountZeros(s, n - trim - 1, x);
    CoreFacts(s);
    SumOfOne(Core(s));
  }

  // ---- the baseline ----

  datatype Figure = Figure(down: real, up: real, n: nat, computedAt: int)

  predicate Qualifies(r: BandwidthRow, since: int, until: int, floor: real) {
    since <= r.ts <= until && r.ok && r.down >= floor && r.up >= floor
  }

  function Qualifying(rows: seq<BandwidthRow>, since: int, until: int, floor: real): seq<BandwidthRow> {
    if rows == [] then []
    else
      var r := rows[|rows| - 1];
      Qualifying(rows[..|rows| - 1], since, until, floor) + if Qualifies(r, since, until, floor) then [r] else []
  }

  function Downs(rows: seq<BandwidthRow>): seq<real> {
    seq(|rows|, i requires 0 <= i < |rows| => rows[i].down)
  }

  function Ups(rows: seq<BandwidthRow>): seq<real> {
    seq(|rows|, i requires 0 <= i < |rows| => rows[i].up)
  }

  lemma {:induction false} QualifyingMeaning(rows: seq<BandwidthRow>, since: int, until: int, floor: real)
    ensures forall r :: r in Qualifying(rows, since, until, floor) <==> r in rows && Qualifies(r, since, until, floor)
  {
    if rows != [] {
      QualifyingMeaning(rows[..|rows| - 1], since, until, floor);
      assert rows == rows[..|rows| - 1] + [rows[|rows| - 1]];
    }
  }

  lemma {:induction false} NoneBelow(s: seq<real>, lo: real)
    requires forall i | 0 <= i < |s| :: s[i] >= lo
    ensures Count(s, Below(lo)) == 0
  {
    if s != [] {
      NoneBelow(s[1..], lo);
    }
  }

  /** A baseline is never under the floor that its samples had to clear. */
  lemma AggregateAtLeast(metric: string, s: seq<real>, lo: real)
    requires s != [] && forall i | 0 <= i < |s| :: s[i] >= lo
    ensures Aggregate(metric, s) >= lo
  {
    hide Sort, Sum, Count, Core, TrimmedMean;
    CoreFacts(s);
    NoneBelow(s, lo);
    forall k | 0 <= k < |s|
      ensures Sort(s)[k] >= lo
    {
      OrderStatistic(s, Below(lo), k);
    }
    if metric == "trimmed_mean" {
      SumAtLeast(Core(s), lo);
      MeanAtLeast(Sum(Core(s)), |Core(s)| as real, lo);
    }
  }

  /** The baseline of the window: None until enough samples qualify, never under the floor. */
  method ComputeBandwidthBaseline(rows: seq<BandwidthRow>, metric: string, days: int, floor: real, until: int,
                                  minSamples: int)
    returns (r: Option<Figure>)
    ensures var q := Qualifying(rows, until - days * DAY_MS, until, floor);
            r == if |q| < minSamples then None
                 else Some(Figure(Aggregate(metric, Downs(q)), Aggregate(metric, Ups(q)), |q|, until))
    ensures r.Some? && r.value.n > 0 ==> r.value.down >= floor && r.value.up >= floor
  {
    var since := until - days * DAY_MS;
    ghost var q := Qualifying(rows, since, until, floor);
    var downs, ups: seq<real> := [], [];
    for i := 0 to |rows|
      invariant downs == Downs(Qualifying(rows[..i], since, until, floor))
      invariant ups == Ups(Qualifying(rows[..i], since, until, floor))
    {
      assert rows[..i + 1][..i] == rows[..i];
      if Qualifies(rows[i], since, until, floor) {
        downs := downs + [rows[i].down];
        ups := ups + [rows[i].up];
      }
    }
    assert rows[..|rows|] == rows;
    if |downs| < minSamples {
      return None;
    }
    var down, up := 0.0, 0.0;
    if metric == "trimmed_mean" {
      down := ComputeTrimmedMean(downs);
      up := ComputeTrimmedMean(ups);
    } else {
      down := ComputeMedian(downs);
      up := ComputeMedian(ups);
    }
    if |downs| > 0 {
      QualifyingMeaning(rows, since, until, floor);
      forall i | 0 <= i < |q|
        ensures Qualifies(q[i], since, until, floor)
      {
        assert q[i] in q;
      }
      AggregateAtLeast(metric, downs, floor);
      AggregateAtLeast(metric, ups, floor);
    }
    r := Some(Figure(down, up, |downs|, until));
  }

  // ---- high and low are treated alike ----

  function Negated(s: seq<real>): (r: seq<real>) {
    seq(|s|, i requires 0 <= i < |s| => -s[i])
  }

  function Mirrored(v: seq<real>): (r: seq<real>)
    ensures |r| == |v|
  {
    seq(|v|, i requires 0 <= i < |v| => -v[|v| - 1 - i])
  }

  lemma {:induction false} SortIsPermutation(s: seq<real>)
    ensures multiset(Sort(s)) == multiset(s)
  {
    if s != [] {
      SortIsPermutation(s[1..]);
      InsertIsPermutation(Sort(s[1..]), s[0]);
      assert s == [s[0]] + s[1..];
    }
  }

  lemma {:induction false} InsertIsPermutation(v: seq<real>, x: real)
    ensures multiset(Insert(v, x)) == multiset(v) + multiset{x}
  {
    if v != [] && x > v[0] {
      InsertIsPermutation(v[1..], x);
      assert v == [v[0]] + v[1..];
    }
  }

  lemma {:induction false} NegatedBag(s: seq<real>, x: real)
    ensures multiset(Negated(s))[x] == multiset(s)[-x]
  {
    if s != [] {
      var n := |s| - 1;
      NegatedBag(s[..n], x);
      assert Negated(s) == Negated(s[..n]) + [-s[n]];
      assert s == s[..n] + [s[n]];
    }
  }

  lemma {:induction false} MirroredBag(v: seq<real>)
    ensures multiset(Mirrored(v)) == multiset(Negated(v))
  {
    if v != [] {
      var n := |v| - 1;
      MirroredBag(v[..n]);
      assert Mirrored(v) == [-v[n]] + Mirrored(v[..n]);
      assert Negated(v) == Negated(v[..n]) + [-v[n]];
    }
  }

  lemma SortMirrors(s: seq<real>)
    ensures Sort(Negated(s)) == Mirrored(Sort(s))
  {
    var v := Sort(s);
    SortFacts(s, AtMost(0.0));
    SortIsPermutation(s);
    MirroredBag(v);
    forall x
      ensures multiset(Negated(v))[x] == multiset(Negated(s))[x]
    {
      NegatedBag(v, x);
      NegatedBag(s, x);
    }
    assert multiset(Negated(v)) == multiset(Negated(s));
    AscendingIsSorted(Mirrored(v));
    SortPermuted(Negated(s), Mirrored(v));
  }

  lemma {:induction false} SumFront(x: real, v: seq<real>)
    ensures Sum([x] + v) == x + Sum(v)
  {
    if v == [] {
      assert [x][..0] == [] && [x] + v == [x];
    } else {
      var n := |v| - 1;
      SumFront(x, v[..n]);
      assert ([x] + v)[..n + 1] == [x] + v[..n];
    }
  }

  lemma {:induction false} SumMirrors(v: seq<real>)
    ensures Sum(Mirrored(v)) == -Sum(v)
  {
    if v != [] {
      var n := |v| - 1;
      SumMirrors(v[..n]);
      assert Mirrored(v) == [-v[n]] + Mirrored(v[..n]);
      SumFront(-v[n], Mirrored(v[..n]));
    }
  }

  /** Neither aggregate leans: with all samples reflected about zero it is reflected too. */
  lemma AggregateReflected(metric: string, s: seq<real>)
    ensures Aggregate(metric, Negated(s)) == -Aggregate(metric, s)
  {
    hide Sort, Sum, Count, Ascending, Core;
    SortFacts(s, AtMost(0.0));
    SortMirrors(s);
    if s != [] && metric == "trimmed_mean" {
      hide Median, Mirrored;
      CoreMirrors(s);
      SumMirrors(Core(s));
      assert |Core(Negated(s))| == |Core(s)|;
      QuotientMirrors(Sum(Core(s)), |Core(s)| as real);
    } else {
      hide TrimmedMean;
    }
  }

  lemma CoreMirrors(s: seq<real>)
    ensures Core(Negated(s)) == Mirrored(Core(s))
  {
    hide Sort;
    SortFacts(s, AtMost(0.0));
    SortMirrors(s);
    var v, trim := Sort(s), |s| / 10;
    assert Mirrored(v)[trim..|s| - trim] == Mirrored(v[trim..|s| - trim]);
  }

  lemma QuotientMirrors(a: real, n: real)
    requires n > 0.0
    ensures (-a) / n == -(a / n)
  {
  }

  // ---- which tests count ----

  /** A further test counts exactly when it is within the days up to now, went well and reached the floor both
      ways; any other leaves the qualifying tests as they were. */
  lemma OneMoreRow(rows: seq<BandwidthRow>, r: BandwidthRow, days: int, until: int, floor: real)
    ensures var since := until - days * 86_400_000;
            Qualifying(rows + [r], since, until, floor) ==
            Qualifying(rows, since, until, floor)
            + if since <= r.ts && r.ts <= until && r.ok && r.down >= floor && r.up >= floor then [r] else []
  {
    assert (rows + [r])[..|rows|] == rows;
  }

  /** What a baseline withstands is what its metric's name says: the trimmed mean a tenth on either side, any
      other name less than half. */
  lemma MetricWithstands(metric: string, s: seq<real>, lo: real, hi: real)
    requires s != [] && lo <= hi
    requires if metric == "trimmed_mean" then Count(s, Below(lo)) <= |s| / 10 && Count(s, Above(hi)) <= |s| / 10
             else 2 * Count(s, Within(lo, hi)) > |s|
    ensures lo <= Aggregate(metric, s) <= hi
  {
    hide Median, TrimmedMean, Count;
    if metric == "trimmed_mean" {
      TrimmedMeanWithstands(s, lo, hi);
    } else {
      MedianWithstands(s, lo, hi);
    }
  }
}
