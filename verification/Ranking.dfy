/**
  Normalised discounted cumulative gain at k.  The discount `1 / log2(index + 1)` is an arbitrary
  positive, strictly decreasing weight; grades are integers and the arithmetic is exact.
 */
module Ranking {
  import opened Options

  datatype Item = Item(source: string, key: string)

  type Weights = nat -> real

  ghost predicate Discounts(w: Weights) {
    forall i: nat :: DiscountsAt(w, i)
  }

  ghost predicate DiscountsAt(w: Weights, i: nat) {
    w(i) > w(i + 1) > 0.0
  }

  function Pow2(n: nat): nat {
    if n == 0 then 1 else 2 * Pow2(n - 1)
  }

  /** `2 ** grade - 1`. */
  function Gain(grade: int): real {
    if grade >= 0 then Pow2(grade) as real - 1.0 else 1.0 / PositivePow2(-grade) - 1.0
  }

  function PositivePow2(n: nat): (p: real)
    ensures p > 0.0
  {
    Pow2IsPositive(n);
    Pow2(n) as real
  }

  lemma Pow2IsPositive(n: nat)
    ensures Pow2(n) >= 1
  {
  }

  lemma {:induction false} Pow2Grows(m: nat, n: nat)
    requires m < n
    ensures Pow2(m) < Pow2(n)
  {
    Pow2IsPositive(n - 1);
    if m < n - 1 {
      Pow2Grows(m, n - 1);
    }
  }

  lemma GainGrows(a: int, b: int)
    requires a < b
    ensures Gain(a) < Gain(b)
    ensures a >= 0 ==> Gain(a) >= 0.0
  {
    if a >= 0 {
      Pow2IsPositive(a);
      Pow2Grows(a, b);
    } else if b >= 0 {
      Pow2IsPositive(b);
      Pow2Grows(0, -a);
      InverseOrder(1.0, PositivePow2(-a));
    } else {
      Pow2Grows(-b, -a);
      InverseOrder(PositivePow2(-b), PositivePow2(-a));
    }
  }

  /** The law that fixes the gain: nothing for grade 0, and one more than twice the gain of the grade below. */
  lemma GainDoubles(grade: int)
    ensures Gain(0) == 0.0 && Gain(grade + 1) == 2.0 * Gain(grade) + 1.0
  {
    assert Pow2(0) == 1;
    if grade >= 0 {
      assert Pow2(grade + 1) == 2 * Pow2(grade);
    } else {
      assert PositivePow2(-grade) == 2.0 * PositivePow2(-grade - 1);
      HalfInverse(PositivePow2(-grade - 1));
    }
  }

  lemma HalfInverse(x: real)
    requires x > 0.0
    ensures 2.0 * (1.0 / (2.0 * x)) == 1.0 / x
  {
    assert (1.0 / x) * x == 1.0 && (1.0 / (2.0 * x)) * (2.0 * x) == 1.0;
  }

  lemma InverseOrder(x: real, y: real)
    requires 0.0 < x < y
    ensures 1.0 / y < 1.0 / x
  {
    assert (1.0 / x) * x == 1.0 && (1.0 / y) * y == 1.0;
  }

  function Grade(judgments: map<string, int>, item: Item): int {
    if item.key in judgments then judgments[item.key] else 0
  }

  function Grades(judgments: map<string, int>, items: seq<Item>): (grades: seq<int>)
    ensures |grades| == |items| && forall i | 0 <= i < |items| :: grades[i] == Grade(judgments, items[i])
  {
    seq(|items|, i requires 0 <= i < |items| => Grade(judgments, items[i]))
  }

  /** `items[:k]`, where a negative k counts from the end. */
  function Take<T>(items: seq<T>, k: int): (top: seq<T>)
    ensures top <= items
  {
    if k >= |items| then items
    else if k >= 0 then items[..k]
    else if |items| + k > 0 then items[..|items| + k]
    else []
  }

  /** How many are taken: k, but never more than there are; a negative k leaves off so many at the end. */
  lemma TakeLength<T>(items: seq<T>, k: int)
    ensures 0 <= k <= |items| ==> |Take(items, k)| == k
    ensures k > |items| ==> Take(items, k) == items
    ensures -|items| <= k < 0 ==> |Take(items, k)| == |items| + k
    ensures k < -|items| ==> Take(items, k) == []
  {
  }

  function Insert(x: int, sorted: seq<int>): seq<int> {
    if sorted == [] || x > sorted[0] then [x] + sorted else [sorted[0]] + Insert(x, sorted[1..])
  }

  /** `sorted(grades, reverse=True)`. */
  function SortedDescending(grades: seq<int>): seq<int> {
    if grades == [] then [] else Insert(grades[|grades| - 1], SortedDescending(grades[..|grades| - 1]))
  }

  predicate IsDescending(s: seq<int>) {
    forall i, j | 0 <= i < j < |s| :: s[i] >= s[j]
  }

  lemma {:induction false} InsertAdds(x: int, s: seq<int>)
    ensures multiset(Insert(x, s)) == multiset(s) + multiset{x}
  {
    if s != [] {
      assert s == [s[0]] + s[1..];
      InsertAdds(x, s[1..]);
    }
  }

  lemma {:induction false} InsertKeepsOrder(x: int, s: seq<int>)
    requires IsDescending(s)
    ensures IsDescending(Insert(x, s))
    ensures Insert(x, s)[0] == x || (s != [] && Insert(x, s)[0] == s[0])
  {
    if s != [] {
      InsertKeepsOrder(x, s[1..]);
      var tail := Insert(x, s[1..]);
      assert forall i | 0 < i < |tail| :: tail[0] >= tail[i];
    }
  }

  lemma {:induction false} SortingSorts(s: seq<int>)
    ensures IsDescending(SortedDescending(s)) && multiset(SortedDescending(s)) == multiset(s)
    ensures |SortedDescending(s)| == |s|
  {
    if s != [] {
      var init := s[..|s| - 1];
      SortingSorts(init);
      InsertKeepsOrder(s[|s| - 1], SortedDescending(init));
      InsertAdds(s[|s| - 1], SortedDescending(init));
      assert s == init + [s[|s| - 1]];
    }
    SameMultisetSameLength(SortedDescending(s), s);
  }

  lemma SameMultisetSameLength(a: seq<int>, b: seq<int>)
    requires multiset(a) == multiset(b)
    ensures |a| == |b|
  {
    assert |a| == |multiset(a)| == |multiset(b)| == |b|;
  }

  function Gains(grades: seq<int>): (gains: seq<real>)
    ensures |gains| == |grades| && forall i | 0 <= i < |gains| :: gains[i] == Gain(grades[i])
  {
    seq(|grades|, i requires 0 <= i < |grades| => Gain(grades[i]))
  }

  /** The discounted sum of the first `m` terms. */
  function Weighted(d: seq<real>, m: nat, w: Weights): real
    requires m <= |d|
  {
    if m == 0 then 0.0 else Weighted(d, m - 1, w) + d[m - 1] * w(m)
  }

  /** `dcg(grades)`: the gain of each grade, discounted by its place counted from 1. */
  function Dcg(grades: seq<int>, w: Weights): real {
    Weighted(Gains(grades), |grades|, w)
  }

  /** The grades of the best judged candidates, as many as there are ranked items. */
  function Ideal(ranking: seq<Item>, judgments: map<string, int>, k: int, pool: Option<seq<Item>>): seq<int> {
    Take(SortedDescending(Grades(judgments, Candidates(ranking, pool))), |Take(ranking, k)|)
  }

  function Candidates(ranking: seq<Item>, pool: Option<seq<Item>>): seq<Item> {
    if pool.Some? && pool.value != [] then pool.value else ranking
  }

  function Ndcg(ranking: seq<Item>, judgments: map<string, int>, k: int, pool: Option<seq<Item>>, w: Weights): real {
    var actual := Grades(judgments, Take(ranking, k));
    var ideal := Dcg(Ideal(ranking, judgments, k, pool), w);
    if actual == [] || ideal == 0.0 then 0.0 else Dcg(actual, w) / ideal
  }

  method DcgLoop(grades: seq<int>, w: Weights) returns (total: real)
    ensures total == Dcg(grades, w)
  {
    total := 0.0;
    var index := 0;
    while index < |grades|
      invariant 0 <= index <= |grades|
      invariant total == Weighted(Gains(grades), index, w)
    {
      total := total + Gain(grades[index]) * w(index + 1);
      index := index + 1;
    }
  }

  method NdcgAtK(ranking: seq<Item>, judgments: map<string, int>, k: int, pool: Option<seq<Item>>, w: Weights)
    returns (ndcg: real)
    ensures ndcg == Ndcg(ranking, judgments, k, pool, w)
  {
    var top := Take(ranking, k);
    if |top| == 0 {
      return 0.0;
    }
    var idealScore := DcgLoop(Ideal(ranking, judgments, k, pool), w);
    if idealScore == 0.0 {
      return 0.0;
    }
    var score := DcgLoop(Grades(judgments, top), w);
    return score / idealScore;
  }

  // ---------------------------------------------------------------- two items

  lemma WeightedOfTwo(d: seq<real>, x: real, y: real, w: Weights) returns (sum: real)
    requires d == [x, y]
    ensures sum == x * w(1) + y * w(2) && Weighted(d, 2, w) == sum
  {
    sum := x * w(1) + y * w(2);
    assert Weighted(d, 1, w) == x * w(1);
  }

  lemma DcgOfTwo(x: int, y: int, high: real, low: real, w: Weights) returns (sum: real)
    requires high == Gain(x) && low == Gain(y)
    ensures sum == high * w(1) + low * w(2) && Dcg([x, y], w) == sum
  {
    assert Gains([x, y]) == [high, low];
    sum := WeightedOfTwo(Gains([x, y]), high, low, w);
  }

  /** The gains of two grades, as powers of two. */
  lemma GainsOfTwo(x: nat, y: nat) returns (low: real, high: real)
    requires x < y
    ensures low == Pow2(x) as real - 1.0 == Gain(x) && high == Pow2(y) as real - 1.0 == Gain(y) && 0.0 <= low < high
  {
    low, high := Gain(x), Gain(y);
    GainGrows(x, y);
  }

  lemma TwoSorted(x: int, y: int)
    requires x < y
    ensures SortedDescending([x, y]) == [y, x]
  {
    assert [x, y][..1] == [x] && [x][..0] == [];
    assert SortedDescending([x]) == Insert(x, []) == [x];
  }

  lemma NdcgOfSums(
    ranking: seq<Item>, judgments: map<string, int>, k: int, pool: Option<seq<Item>>, actual: real, ideal: real,
    w: Weights)
    requires Take(ranking, k) != [] && ideal > 0.0
    requires Dcg(Grades(judgments, Take(ranking, k)), w) == actual
    requires Dcg(Ideal(ranking, judgments, k, pool), w) == ideal
    ensures Ndcg(ranking, judgments, k, pool, w) == actual / ideal
  {
  }

  /** Two items in the wrong order, with the powers of two and the two discounts spelled out. */
  lemma TwoItemNdcg(a: Item, b: Item, judgments: map<string, int>, k: int, pool: Option<seq<Item>>, w: Weights)
    returns (low: real, high: real, actual: real, ideal: real)
    requires Discounts(w) && k >= 2 && pool in {None, Some([]), Some([a, b])}
    requires 0 <= Grade(judgments, a) < Grade(judgments, b)
    ensures low == Pow2(Grade(judgments, a)) as real - 1.0 && high == Pow2(Grade(judgments, b)) as real - 1.0
    ensures actual == low * w(1) + high * w(2) && ideal == high * w(1) + low * w(2)
    ensures ideal > 0.0 && Ndcg([a, b], judgments, k, pool, w) == actual / ideal
  {
    var x, y := Grade(judgments, a), Grade(judgments, b);
    assert Grades(judgments, [a, b]) == [x, y];
    TwoSorted(x, y);
    low, high := GainsOfTwo(x, y);
    actual := DcgOfTwo(x, y, low, high, w);
    ideal := DcgOfTwo(y, x, high, low, w);
    ScoreIsPositive(high, low, ideal, w);
    NdcgOfSums([a, b], judgments, k, pool, actual, ideal, w);
  }

  lemma ScoreIsPositive(high: real, low: real, sum: real, w: Weights)
    requires high > 0.0 && low >= 0.0 && Discounts(w) && sum == high * w(1) + low * w(2)
    ensures sum > 0.0
  {
    assert DiscountsAt(w, 0) && DiscountsAt(w, 1);
    PositiveSum(high, w(1), low, w(2));
  }

  lemma PositiveSum(x: real, y: real, u: real, v: real)
    requires x > 0.0 && y > 0.0 && u >= 0.0 && v >= 0.0
    ensures x * y + u * v > 0.0
  {
  }

  // ---------------------------------------------------------------- rearrangement

  function GainSum(s: seq<int>): real {
    if s == [] then 0.0 else Gain(s[0]) + GainSum(s[1..])
  }

  lemma {:induction false} GainSumOfConcat(a: seq<int>, b: seq<int>)
    ensures GainSum(a + b) == GainSum(a) + GainSum(b)
  {
    if a == [] {
      assert a + b == b;
    } else {
      GainSumOfConcat(a[1..], b);
      assert (a + b)[1..] == a[1..] + b;
    }
  }

  lemma RemoveAt(t: seq<int>, j: nat) returns (rest: seq<int>)
    requires j < |t|
    ensures rest == t[..j] + t[j + 1..]
    ensures multiset(t) == multiset(rest) + multiset{t[j]}
    ensures GainSum(t) == GainSum(rest) + Gain(t[j])
  {
    rest := t[..j] + t[j + 1..];
    assert t == t[..j] + ([t[j]] + t[j + 1..]);
    assert ([t[j]] + t[j + 1..])[1..] == t[j + 1..];
    GainSumOfConcat(t[..j], [t[j]] + t[j + 1..]);
    GainSumOfConcat(t[..j], t[j + 1..]);
  }

  /** Taking the best grade, or any grade if it is not there, out of a selection leaves one from the rest. */
  lemma SelectionWithoutBest(t: seq<int>, s: seq<int>) returns (j: nat)
    requires IsDescending(s) && multiset(t) <= multiset(s) && t != []
    ensures s != [] && j < |t| && t[j] <= s[0]
    ensures multiset(t[..j] + t[j + 1..]) <= multiset(s[1..])
  {
    assert t[0] in multiset(s);
    var best := s[0];
    assert s == [best] + s[1..];
    j := if best in t then IndexOf(best, t) else 0;
    var rest := RemoveAt(t, j);
    assert t[j] in multiset(t);
    assert t[j] in s;
    if best !in t {
      assert multiset(t)[best] == 0;
    }
    TakeOneAway(multiset(rest), multiset(s[1..]), t[j], best);
  }

  lemma TakeOneAway(rest: multiset<int>, tail: multiset<int>, x: int, best: int)
    requires rest + multiset{x} <= tail + multiset{best}
    requires x == best || best !in rest + multiset{x}
    ensures rest <= tail
  {
    forall y ensures rest[y] <= tail[y] {
      assert (rest + multiset{x})[y] <= (tail + multiset{best})[y];
    }
  }

  /** No selection of m grades gains more than the m best ones. */
  lemma {:induction false} BestGradesGainMost(t: seq<int>, s: seq<int>)
    requires IsDescending(s) && multiset(t) <= multiset(s)
    ensures |t| <= |s| && GainSum(t) <= GainSum(s[..|t|])
    decreases |s|
  {
    if t != [] {
      var j := SelectionWithoutBest(t, s);
      var rest := RemoveAt(t, j);
      BestGradesGainMost(rest, s[1..]);
      assert s[..|t|][1..] == s[1..][..|rest|];
      if t[j] < s[0] {
        GainGrows(t[j], s[0]);
      }
    }
  }

  function IndexOf(x: int, s: seq<int>): (i: nat)
    requires x in s
    ensures i < |s| && s[i] == x
  {
    if s[0] == x then 0 else 1 + IndexOf(x, s[1..])
  }

  // ---------------------------------------------------------------- summation by parts

  /** The sum of the first `m` terms. */
  ghost function Prefix(d: seq<real>, m: nat): real
    requires m <= |d|
  {
    if m == 0 then 0.0 else Prefix(d, m - 1) + d[m - 1]
  }

  /** What the prefix sums before `m` contribute, each by the fall of the discount after it. */
  ghost function Carried(d: seq<real>, m: nat, w: Weights): real
    requires m <= |d|
  {
    if m == 0 then 0.0 else Carried(d, m - 1, w) + Prefix(d, m - 1) * (w(m - 1) - w(m))
  }

  lemma {:induction false} WeightedByParts(d: seq<real>, m: nat, w: Weights)
    requires m <= |d|
    ensures Weighted(d, m, w) == Prefix(d, m) * w(m) + Carried(d, m, w)
  {
    if m > 0 {
      WeightedByParts(d, m - 1, w);
      ByPartsStep(Prefix(d, m - 1), d[m - 1], w(m - 1), w(m));
    }
  }

  lemma ByPartsStep(sum: real, term: real, high: real, low: real)
    ensures sum * high + term * low == (sum + term) * low + sum * (high - low)
  {
  }

  ghost predicate NonNegativePrefixes(d: seq<real>) {
    forall m | 0 <= m <= |d| :: Prefix(d, m) >= 0.0
  }

  ghost predicate ZeroBefore(d: seq<real>, m: nat)
    requires m <= |d|
  {
    forall i | 0 <= i < m :: Prefix(d, i) == 0.0
  }

  lemma {:induction false} CarriedIsNonNegative(d: seq<real>, m: nat, w: Weights)
    requires NonNegativePrefixes(d) && m <= |d| && Discounts(w)
    ensures Carried(d, m, w) >= 0.0
    ensures Carried(d, m, w) == 0.0 ==> ZeroBefore(d, m)
  {
    if m > 0 {
      var n: nat := m - 1;
      CarriedIsNonNegative(d, n, w);
      assert DiscountsAt(w, n);
      assert Prefix(d, n) >= 0.0;
      ProductSign(Prefix(d, n), w(n) - w(m));
    }
  }

  /** With non-negative prefix sums the discounted sum is non-negative, and zero only when every term is. */
  lemma WeightedSign(d: seq<real>, w: Weights)
    requires NonNegativePrefixes(d) && Discounts(w)
    ensures Weighted(d, |d|, w) >= 0.0
    ensures Weighted(d, |d|, w) == 0.0 ==> forall i | 0 <= i < |d| :: d[i] == 0.0
  {
    var n := |d|;
    WeightedByParts(d, n, w);
    CarriedIsNonNegative(d, n, w);
    assert DiscountsAt(w, n);
    assert Prefix(d, n) >= 0.0;
    ProductSign(Prefix(d, n), w(n));
    if Weighted(d, n, w) == 0.0 {
      ZeroPrefixes(d);
    }
  }

  lemma ZeroPrefixes(d: seq<real>)
    requires ZeroBefore(d, |d|) && Prefix(d, |d|) == 0.0
    ensures forall i | 0 <= i < |d| :: d[i] == 0.0
  {
    forall i | 0 <= i < |d| ensures d[i] == 0.0 {
      assert Prefix(d, i + 1) == Prefix(d, i) + d[i];
    }
  }

  lemma ProductSign(x: real, y: real)
    requires x >= 0.0 && y > 0.0
    ensures x * y >= 0.0 && (x * y == 0.0 ==> x == 0.0)
  {
  }

  // ---------------------------------------------------------------- domination

  /** What each grade of `b` gains over the grade of `a` at the same place. */
  ghost function Surpluses(a: seq<int>, b: seq<int>): (d: seq<real>)
    requires |a| == |b|
    ensures |d| == |a| && forall i | 0 <= i < |d| :: d[i] == Gain(b[i]) - Gain(a[i])
  {
    seq(|a|, i requires 0 <= i < |a| => Gain(b[i]) - Gain(a[i]))
  }

  lemma {:induction false} PrefixOfSurpluses(a: seq<int>, b: seq<int>, m: nat)
    requires m <= |a| == |b|
    ensures Prefix(Surpluses(a, b), m) == GainSum(b[..m]) - GainSum(a[..m])
  {
    if m > 0 {
      PrefixOfSurpluses(a, b, m - 1);
      GainSumStep(a, m - 1);
      GainSumStep(b, m - 1);
    }
  }

  lemma GainSumStep(s: seq<int>, n: nat)
    requires n < |s|
    ensures GainSum(s[..n + 1]) == GainSum(s[..n]) + Gain(s[n])
  {
    assert s[..n + 1] == s[..n] + [s[n]];
    GainSumOfConcat(s[..n], [s[n]]);
  }

  lemma {:induction false} WeightedDifference(x: seq<real>, y: seq<real>, d: seq<real>, m: nat, w: Weights)
    requires m <= |x| == |y| == |d| && forall i | 0 <= i < |d| :: d[i] == y[i] - x[i]
    ensures Weighted(d, m, w) == Weighted(y, m, w) - Weighted(x, m, w)
  {
    if m > 0 {
      WeightedDifference(x, y, d, m - 1, w);
      DifferenceOfProducts(y[m - 1], x[m - 1], w(m));
    }
  }

  lemma WeightedSurpluses(a: seq<int>, b: seq<int>, w: Weights)
    requires |a| == |b|
    ensures Weighted(Surpluses(a, b), |a|, w) == Dcg(b, w) - Dcg(a, w)
  {
    WeightedDifference(Gains(a), Gains(b), Surpluses(a, b), |a|, w);
  }

  lemma DifferenceOfProducts(x: real, y: real, weight: real)
    ensures (x - y) * weight == x * weight - y * weight
  {
  }

  /** Every prefix of `a` gains at most what the prefix of `b` of the same length gains. */
  ghost predicate PrefixDominated(a: seq<int>, b: seq<int>) {
    |a| == |b| && forall m | 0 <= m <= |a| :: GainSum(a[..m]) <= GainSum(b[..m])
  }

  /** Dominated prefixes have a smaller DCG, and an equal one only if all grades are equal. */
  lemma {:induction false} DominatedDcg(a: seq<int>, b: seq<int>, w: Weights)
    requires PrefixDominated(a, b) && Discounts(w)
    ensures Dcg(a, w) <= Dcg(b, w)
    ensures Dcg(a, w) == Dcg(b, w) ==> a == b
  {
    var d := Surpluses(a, b);
    forall m | 0 <= m <= |d| ensures Prefix(d, m) >= 0.0 {
      PrefixOfSurpluses(a, b, m);
    }
    WeightedSign(d, w);
    WeightedSurpluses(a, b, w);
    if Dcg(a, w) == Dcg(b, w) {
      EqualWithoutSurplus(a, b);
    }
  }

  lemma EqualWithoutSurplus(a: seq<int>, b: seq<int>)
    requires |a| == |b| && forall i | 0 <= i < |a| :: Surpluses(a, b)[i] == 0.0
    ensures a == b
  {
    forall i | 0 <= i < |a| ensures a[i] == b[i] {
      assert Surpluses(a, b)[i] == 0.0;
      EqualGains(a[i], b[i]);
    }
  }

  lemma EqualGains(x: int, y: int)
    requires Gain(x) == Gain(y)
    ensures x == y
  {
    if x < y {
      GainGrows(x, y);
    } else if y < x {
      GainGrows(y, x);
    }
  }

  lemma SelectionIsDominated(t: seq<int>, s: seq<int>)
    requires IsDescending(s) && multiset(t) <= multiset(s)
    ensures |t| <= |s| && PrefixDominated(t, s[..|t|])
  {
    BestGradesGainMost(t, s);
    forall m | 0 <= m <= |t| ensures GainSum(t[..m]) <= GainSum(s[..|t|][..m]) {
      assert t == t[..m] + t[m..];
      BestGradesGainMost(t[..m], s);
      assert s[..|t|][..m] == s[..m];
    }
  }

  /** Any order of the grades has at most the DCG of the descending order. */
  lemma {:induction false} SortingMaximisesDcg(grades: seq<int>, w: Weights)
    requires Discounts(w)
    ensures Dcg(grades, w) <= Dcg(SortedDescending(grades), w)
    ensures Dcg(grades, w) == Dcg(SortedDescending(grades), w) <==> IsDescending(grades)
  {
    var s := SortedDescending(grades);
    SortingSorts(grades);
    SelectionIsDominated(grades, s);
    assert s[..|grades|] == s;
    DominatedDcg(grades, s, w);
    if IsDescending(grades) {
      SelectionIsDominated(s, grades);
      assert grades[..|s|] == grades;
      DominatedDcg(s, grades, w);
    }
  }

  // ---------------------------------------------------------------- the metric

  ghost predicate DistinctKeys(items: seq<Item>) {
    forall i, j | 0 <= i < j < |items| :: items[i].key != items[j].key
  }

  ghost predicate HasKey(pool: seq<Item>, key: string) {
    exists j :: 0 <= j < |pool| && pool[j].key == key
  }

  ghost predicate KeysWithin(items: seq<Item>, pool: seq<Item>) {
    forall i | 0 <= i < |items| :: HasKey(pool, items[i].key)
  }

  function Keys(items: seq<Item>): (keys: seq<string>)
    ensures |keys| == |items| && forall i | 0 <= i < |keys| :: keys[i] == items[i].key
  {
    seq(|items|, i requires 0 <= i < |items| => items[i].key)
  }

  /** No key is ranked more often than it occurs in the pool. */
  ghost predicate KeysCovered(items: seq<Item>, pool: seq<Item>) {
    multiset(Keys(items)) <= multiset(Keys(pool))
  }

  lemma KeysWithout(pool: seq<Item>, j: nat)
    requires j < |pool|
    ensures multiset(Keys(pool)) == multiset(Keys(pool[..j] + pool[j + 1..])) + multiset{pool[j].key}
  {
    var keys := Keys(pool);
    assert keys == keys[..j] + [keys[j]] + keys[j + 1..];
    assert Keys(pool[..j] + pool[j + 1..]) == keys[..j] + keys[j + 1..];
  }

  lemma KeysSnoc(items: seq<Item>)
    requires items != []
    ensures multiset(Keys(items)) == multiset(Keys(items[..|items| - 1])) + multiset{items[|items| - 1].key}
  {
    var n := |items| - 1;
    assert Keys(items) == Keys(items[..n]) + [items[n].key];
  }

  lemma CoveredKeyIsThere(items: seq<Item>, pool: seq<Item>) returns (j: nat)
    requires items != [] && KeysCovered(items, pool)
    ensures j < |pool| && pool[j].key == items[|items| - 1].key
    ensures KeysCovered(items[..|items| - 1], pool[..j] + pool[j + 1..])
  {
    var n := |items| - 1;
    assert Keys(items)[n] in multiset(Keys(items));
    assert items[n].key in multiset(Keys(pool));
    assert items[n].key in Keys(pool);
    j :| j < |Keys(pool)| && Keys(pool)[j] == items[n].key;
    KeysWithout(pool, j);
    KeysSnoc(items);
    CancelOne(multiset(Keys(items[..n])), multiset(Keys(pool[..j] + pool[j + 1..])), items[n].key);
  }

  lemma CancelOne(a: multiset<string>, b: multiset<string>, x: string)
    requires a + multiset{x} <= b + multiset{x}
    ensures a <= b
  {
    forall y ensures a[y] <= b[y] {
      assert (a + multiset{x})[y] <= (b + multiset{x})[y];
    }
  }

  /** Distinct keys that all occur in the pool are covered by it. */
  lemma {:induction false} DistinctKeysAreCovered(items: seq<Item>, pool: seq<Item>)
    requires DistinctKeys(items) && KeysWithin(items, pool)
    ensures KeysCovered(items, pool)
  {
    forall key ensures multiset(Keys(items))[key] <= multiset(Keys(pool))[key] {
      DistinctKeysOccurOnce(items, key);
      if key in Keys(items) {
        var i :| 0 <= i < |items| && Keys(items)[i] == key;
        assert HasKey(pool, items[i].key);
        var j :| 0 <= j < |pool| && pool[j].key == key;
        assert Keys(pool)[j] in multiset(Keys(pool));
      }
    }
  }

  lemma {:induction false} DistinctKeysOccurOnce(items: seq<Item>, key: string)
    requires DistinctKeys(items)
    ensures multiset(Keys(items))[key] <= 1
    ensures key !in Keys(items) ==> multiset(Keys(items))[key] == 0
  {
    if items != [] {
      var n := |items| - 1;
      KeysSnoc(items);
      DistinctKeysOccurOnce(items[..n], key);
      if items[n].key == key {
        assert forall i | 0 <= i < n :: Keys(items[..n])[i] != key;
      }
      assert key in Keys(items[..n]) ==> key in Keys(items);
    }
  }

  lemma GradesWithout(judgments: map<string, int>, pool: seq<Item>, j: nat)
    requires j < |pool|
    ensures multiset(Grades(judgments, pool))
         == multiset(Grades(judgments, pool[..j] + pool[j + 1..])) + multiset{Grade(judgments, pool[j])}
  {
    var others := RemoveAt(Grades(judgments, pool), j);
    assert others == Grades(judgments, pool[..j] + pool[j + 1..]);
  }

  lemma GradesSnoc(judgments: map<string, int>, items: seq<Item>)
    requires items != []
    ensures multiset(Grades(judgments, items))
         == multiset(Grades(judgments, items[..|items| - 1])) + multiset{Grade(judgments, items[|items| - 1])}
  {
    var n := |items| - 1;
    assert Grades(judgments, items) == Grades(judgments, items[..n]) + [Grade(judgments, items[n])];
  }

  /** Items whose keys the pool covers select their grades from it. */
  lemma {:induction false} JudgedSelection(judgments: map<string, int>, items: seq<Item>, pool: seq<Item>)
    requires KeysCovered(items, pool)
    ensures multiset(Grades(judgments, items)) <= multiset(Grades(judgments, pool))
  {
    if items != [] {
      var n := |items| - 1;
      var j := CoveredKeyIsThere(items, pool);
      JudgedSelection(judgments, items[..n], pool[..j] + pool[j + 1..]);
      GradesWithout(judgments, pool, j);
      GradesSnoc(judgments, items);
    }
  }

  ghost predicate NonNegativeGrades(judgments: map<string, int>) {
    forall key <- judgments :: judgments[key] >= 0
  }

  lemma {:induction false} WeightedIsNonNegative(x: seq<real>, m: nat, w: Weights)
    requires m <= |x| && Discounts(w) && forall i | 0 <= i < |x| :: x[i] >= 0.0
    ensures Weighted(x, m, w) >= 0.0
  {
    if m > 0 {
      WeightedIsNonNegative(x, m - 1, w);
      assert DiscountsAt(w, m - 1);
      ProductSign(x[m - 1], w(m));
    }
  }

  lemma DcgIsNonNegative(grades: seq<int>, w: Weights)
    requires Discounts(w) && forall i | 0 <= i < |grades| :: grades[i] >= 0
    ensures Dcg(grades, w) >= 0.0
  {
    forall i | 0 <= i < |grades| ensures Gain(grades[i]) >= 0.0 {
      GainGrows(grades[i], grades[i] + 1);
    }
    WeightedIsNonNegative(Gains(grades), |grades|, w);
  }

  /** Whether the ranked items select their grades from the candidates they are compared with. */
  ghost predicate Comparable(ranking: seq<Item>, k: int, pool: Option<seq<Item>>) {
    pool.Some? && pool.value != [] ==> KeysCovered(Take(ranking, k), pool.value)
  }

  lemma PrefixSelection(judgments: map<string, int>, top: seq<Item>, items: seq<Item>)
    requires top <= items
    ensures multiset(Grades(judgments, top)) <= multiset(Grades(judgments, items))
  {
    var actual, grades := Grades(judgments, top), Grades(judgments, items);
    assert grades == actual + grades[|top|..];
  }

  lemma {:induction false} IdealDominates(
    ranking: seq<Item>, judgments: map<string, int>, k: int, pool: Option<seq<Item>>)
    requires Comparable(ranking, k, pool)
    ensures PrefixDominated(Grades(judgments, Take(ranking, k)), Ideal(ranking, judgments, k, pool))
  {
    var top, candidates := Take(ranking, k), Candidates(ranking, pool);
    var actual, grades := Grades(judgments, top), Grades(judgments, candidates);
    if pool.Some? && pool.value != [] {
      JudgedSelection(judgments, top, candidates);
    } else {
      PrefixSelection(judgments, top, ranking);
    }
    SortingSorts(grades);
    SelectionIsDominated(actual, SortedDescending(grades));
    assert Ideal(ranking, judgments, k, pool) == SortedDescending(grades)[..|actual|];
  }

  /**
    When the pool covers the top keys, or without a pool, the metric lies between 0 and 1; and it is 1
    exactly when the top items carry the ideal grades in the ideal order.
   */
  lemma {:induction false} NdcgIsNormalised(
    ranking: seq<Item>, judgments: map<string, int>, k: int, pool: Option<seq<Item>>, w: Weights)
    requires Discounts(w) && NonNegativeGrades(judgments) && Comparable(ranking, k, pool)
    ensures 0.0 <= Ndcg(ranking, judgments, k, pool, w) <= 1.0
    ensures Ndcg(ranking, judgments, k, pool, w) == 1.0
       <==> && Grades(judgments, Take(ranking, k)) == Ideal(ranking, judgments, k, pool)
            && Dcg(Ideal(ranking, judgments, k, pool), w) != 0.0
  {
    var actual, ideal := Grades(judgments, Take(ranking, k)), Ideal(ranking, judgments, k, pool);
    IdealDominates(ranking, judgments, k, pool);
    DominatedDcg(actual, ideal, w);
    DcgIsNonNegative(actual, w);
    var x, y := Dcg(actual, w), Dcg(ideal, w);
    if actual != [] && y != 0.0 {
      RatioBounds(x, y);
    }
  }

  lemma RatioBounds(x: real, y: real)
    requires 0.0 <= x <= y && y > 0.0
    ensures 0.0 <= x / y <= 1.0 && (x / y == 1.0 <==> x == y)
  {
    assert (x / y) * y == x;
  }

  // ---------------------------------------------------------------- level by level

  /** `w(1) + .. + w(m)` */
  function Head(m: nat, w: Weights): real {
    if m == 0 then 0.0 else Head(m - 1, w) + w(m)
  }

  lemma {:induction false} HeadGrows(m: nat, n: nat, w: Weights)
    requires m <= n && Discounts(w)
    ensures 0.0 <= Head(m, w) <= Head(n, w) && (m < n ==> Head(m, w) < Head(n, w))
  {
    if m < n {
      HeadGrows(m, n - 1, w);
      assert DiscountsAt(w, n - 1);
    } else if n > 0 {
      HeadGrows(n - 1, n - 1, w);
      assert DiscountsAt(w, n - 1);
    }
  }

  /** The discounts at the marked places among the first `m`. */
  function Marked(marks: seq<bool>, m: nat, w: Weights): real
    requires m <= |marks|
  {
    if m == 0 then 0.0 else Marked(marks, m - 1, w) + if marks[m - 1] then w(m) else 0.0
  }

  /** The places whose grade is at least `t`. */
  function Reaches(grades: seq<int>, t: int): (marks: seq<bool>)
    ensures |marks| == |grades| && forall i | 0 <= i < |marks| :: marks[i] <==> grades[i] >= t
  {
    seq(|grades|, i requires 0 <= i < |grades| => grades[i] >= t)
  }

  function CappedAt(grade: int, t: nat): (capped: nat)
    ensures capped <= t
  {
    if grade >= t then t else if grade >= 0 then grade else 0
  }

  /** The gains of grades that count for no more than `t`. */
  function CappedGains(grades: seq<int>, t: nat): (gains: seq<real>)
    ensures |gains| == |grades| && forall i | 0 <= i < |gains| :: gains[i] == Gain(CappedAt(grades[i], t))
  {
    seq(|grades|, i requires 0 <= i < |grades| => Gain(CappedAt(grades[i], t)))
  }

  function Scaled(rise: real, w: Weights): Weights {
    (place: nat) => rise * w(place)
  }

  lemma {:induction false} ScaledMarks(marks: seq<bool>, rise: real, m: nat, w: Weights)
    requires m <= |marks|
    ensures Marked(marks, m, Scaled(rise, w)) == rise * Marked(marks, m, w)
  {
    if m > 0 {
      ScaledMarks(marks, rise, m - 1, w);
      Distribute(rise, Marked(marks, m - 1, w), if marks[m - 1] then w(m) else 0.0);
    }
  }

  lemma Distribute(rise: real, x: real, y: real)
    ensures rise * (x + y) == rise * x + rise * y
  {
  }

  lemma ScaledMarksOrder(marks: seq<bool>, marks': seq<bool>, rise: real, w: Weights)
    requires rise >= 0.0 && Marked(marks, |marks|, w) <= Marked(marks', |marks'|, w)
    ensures Marked(marks, |marks|, Scaled(rise, w)) <= Marked(marks', |marks'|, Scaled(rise, w))
  {
    ScaledMarks(marks, rise, |marks|, w);
    ScaledMarks(marks', rise, |marks'|, w);
    var low, high := ScaledOrder(rise, Marked(marks, |marks|, w), Marked(marks', |marks'|, w));
  }

  lemma ScaledOrder(rise: real, x: real, y: real) returns (low: real, high: real)
    requires rise >= 0.0 && x <= y
    ensures low == rise * x && high == rise * y && low <= high
  {
    low, high := rise * x, rise * y;
  }

  /** Lifting the marked gains by `rise` adds `rise` times the weight of their places. */
  lemma {:induction false} LiftedGains(x: seq<real>, y: seq<real>, marks: seq<bool>, rise: real, m: nat, w: Weights)
    requires m <= |x| == |y| == |marks|
    requires forall i | 0 <= i < |x| :: y[i] == x[i] + if marks[i] then rise else 0.0
    ensures Weighted(y, m, w) == Weighted(x, m, w) + Marked(marks, m, Scaled(rise, w))
  {
    if m > 0 {
      LiftedGains(x, y, marks, rise, m - 1, w);
      LiftedGain(x[m - 1], y[m - 1], marks[m - 1], rise, w(m));
    }
  }

  lemma LiftedGain(x: real, y: real, mark: bool, rise: real, weight: real)
    requires y == x + if mark then rise else 0.0
    ensures y * weight == x * weight + if mark then rise * weight else 0.0
  {
  }

  ghost predicate NonNegative(grades: seq<int>) {
    forall i | 0 <= i < |grades| :: grades[i] >= 0
  }

  /** Where every level of `b` outweighs that of `a`, so does its discounted gain. */
  ghost predicate LevelsDominated(a: seq<int>, b: seq<int>, w: Weights) {
    forall t: nat | t > 0 :: Marked(Reaches(a, t), |a|, w) <= Marked(Reaches(b, t), |b|, w)
  }

  lemma LiftedGainsDominated(
    x: seq<real>, y: seq<real>, marks: seq<bool>, x': seq<real>, y': seq<real>, marks': seq<bool>, rise: real,
    w: Weights)
    returns (low: real, high: real)
    requires |x| == |y| == |marks| && |x'| == |y'| == |marks'| && rise >= 0.0
    requires forall i | 0 <= i < |x| :: y[i] == x[i] + if marks[i] then rise else 0.0
    requires forall i | 0 <= i < |x'| :: y'[i] == x'[i] + if marks'[i] then rise else 0.0
    requires Weighted(x, |x|, w) <= Weighted(x', |x'|, w) && Marked(marks, |x|, w) <= Marked(marks', |x'|, w)
    ensures low == Weighted(y, |y|, w) && high == Weighted(y', |y'|, w) && low <= high
  {
    low, high := Weighted(y, |y|, w), Weighted(y', |y'|, w);
    LiftedGains(x, y, marks, rise, |x|, w);
    LiftedGains(x', y', marks', rise, |x'|, w);
    ScaledMarksOrder(marks, marks', rise, w);
  }

  /** Counting one grade more lifts the gains of the places that reach it. */
  lemma NextLevel(grades: seq<int>, t: nat, rise: real)
    requires t > 0 && rise == Gain(t) - Gain(t - 1)
    ensures var x, y, marks := CappedGains(grades, t - 1), CappedGains(grades, t), Reaches(grades, t);
            forall i | 0 <= i < |grades| :: y[i] == x[i] + if marks[i] then rise else 0.0
  {
  }

  lemma {:induction false} CappedGainsDominated(a: seq<int>, b: seq<int>, t: nat, w: Weights)
    returns (low: real, high: real)
    requires LevelsDominated(a, b, w)
    ensures low == Weighted(CappedGains(a, t), |a|, w) && high == Weighted(CappedGains(b, t), |b|, w) && low <= high
  {
    if t == 0 {
      low, high := 0.0, 0.0;
      CappedAtZero(a, |a|, w);
      CappedAtZero(b, |b|, w);
    } else {
      var rise := Gain(t) - Gain(t - 1);
      low, high := CappedGainsDominated(a, b, t - 1, w);
      GainGrows(t - 1, t);
      NextLevel(a, t, rise);
      NextLevel(b, t, rise);
      low, high := LiftedGainsDominated(CappedGains(a, t - 1), CappedGains(a, t), Reaches(a, t),
                                        CappedGains(b, t - 1), CappedGains(b, t), Reaches(b, t), rise, w);
    }
  }

  lemma {:induction false} CappedAtZero(grades: seq<int>, m: nat, w: Weights)
    requires m <= |grades|
    ensures Weighted(CappedGains(grades, 0), m, w) == 0.0
  {
    SmallGains();
    if m > 0 {
      CappedAtZero(grades, m - 1, w);
    }
  }

  lemma {:induction false} GradeBound(grades: seq<int>) returns (t: nat)
    ensures forall i | 0 <= i < |grades| :: grades[i] <= t
  {
    if grades == [] {
      t := 0;
    } else {
      var n := |grades| - 1;
      var before := GradeBound(grades[..n]);
      t := if grades[n] > before then grades[n] else before;
      forall i | 0 <= i < |grades| ensures grades[i] <= t {
        assert i < n ==> grades[..n][i] == grades[i];
      }
    }
  }

  lemma DominatedLevels(a: seq<int>, b: seq<int>, w: Weights)
    requires NonNegative(a) && NonNegative(b) && LevelsDominated(a, b, w)
    ensures Dcg(a, w) <= Dcg(b, w)
  {
    var t := GradeBound(a + b);
    forall i | 0 <= i < |a| ensures a[i] <= t {
      assert (a + b)[i] == a[i];
    }
    forall i | 0 <= i < |b| ensures b[i] <= t {
      assert (a + b)[|a| + i] == b[i];
    }
    assert CappedGains(a, t) == Gains(a) && CappedGains(b, t) == Gains(b);
    var low, high := CappedGainsDominated(a, b, t, w);
  }

  // ---------------------------------------------------------------- the weight of a set of keys

  function KeyMarks(items: seq<Item>, keys: set<string>): (marks: seq<bool>)
    ensures |marks| == |items| && forall i | 0 <= i < |marks| :: marks[i] <==> items[i].key in keys
  {
    seq(|items|, i requires 0 <= i < |items| => items[i].key in keys)
  }

  /** The discounts at the places of the items with a key in `keys`. */
  function KeyWeight(items: seq<Item>, keys: set<string>, w: Weights): real {
    Marked(KeyMarks(items, keys), |items|, w)
  }

  function CountIn(items: seq<Item>, keys: set<string>): nat {
    if items == [] then 0
    else CountIn(items[..|items| - 1], keys) + if items[|items| - 1].key in keys then 1 else 0
  }

  function LeastOf(m: nat, n: nat): nat {
    if m <= n then m else n
  }

  function CountFrom(grades: seq<int>, t: int): nat {
    if grades == [] then 0 else (if grades[0] >= t then 1 else 0) + CountFrom(grades[1..], t)
  }

  lemma {:induction false} CountOfInsert(x: int, sorted: seq<int>, t: int)
    ensures CountFrom(Insert(x, sorted), t) == CountFrom(sorted, t) + if x >= t then 1 else 0
  {
    if sorted == [] || x > sorted[0] {
      assert ([x] + sorted)[1..] == sorted;
    } else {
      CountOfInsert(x, sorted[1..], t);
      assert ([sorted[0]] + Insert(x, sorted[1..]))[1..] == Insert(x, sorted[1..]);
    }
  }

  /** As many sorted grades reach `t` as pool items have a key in `keys`. */
  lemma {:induction false} CountOfSorted(judgments: map<string, int>, pool: seq<Item>, keys: set<string>, t: int)
    requires forall i | 0 <= i < |pool| :: pool[i].key in keys <==> Grade(judgments, pool[i]) >= t
    ensures CountFrom(SortedDescending(Grades(judgments, pool)), t) == CountIn(pool, keys)
  {
    if pool != [] {
      var n := |pool| - 1;
      var grades := Grades(judgments, pool);
      assert Grades(judgments, pool[..n]) == grades[..n];
      forall i | 0 <= i < n ensures pool[..n][i].key in keys <==> Grade(judgments, pool[..n][i]) >= t {
        assert pool[..n][i] == pool[i];
      }
      CountOfSorted(judgments, pool[..n], keys, t);
      CountOfInsert(grades[n], SortedDescending(grades[..n]), t);
    }
  }

  /** The first grades of a descending list reach `t`, as many as are counted. */
  lemma {:induction false} DescendingReaches(s: seq<int>, t: int, i: nat)
    requires IsDescending(s) && i < |s|
    ensures s[i] >= t <==> i < CountFrom(s, t)
  {
    if s[0] >= t {
      if i > 0 {
        DescendingReaches(s[1..], t, i - 1);
      }
    } else {
      NoneReaches(s, t);
      assert i > 0 ==> s[0] >= s[i];
    }
  }

  lemma {:induction false} NoneReaches(s: seq<int>, t: int)
    requires forall i | 0 <= i < |s| :: s[i] < t
    ensures CountFrom(s, t) == 0
  {
    if s != [] {
      NoneReaches(s[1..], t);
    }
  }

  /** Descending grades put the places that reach `t` first. */
  lemma {:induction false} DescendingHead(s: seq<int>, t: int, m: nat, w: Weights)
    requires IsDescending(s) && m <= |s|
    ensures Marked(Reaches(s, t), m, w) == Head(LeastOf(m, CountFrom(s, t)), w)
  {
    if m > 0 {
      DescendingHead(s, t, m - 1, w);
      DescendingReaches(s, t, m - 1);
    }
  }

  lemma {:induction false} CountIsBounded(s: seq<int>, t: int)
    ensures CountFrom(s, t) <= |s|
  {
    if s != [] {
      CountIsBounded(s[1..], t);
    }
  }

  lemma {:induction false} PrefixMarked(x: seq<bool>, y: seq<bool>, m: nat, w: Weights)
    requires m <= |x| && m <= |y| && forall i | 0 <= i < m :: x[i] == y[i]
    ensures Marked(x, m, w) == Marked(y, m, w)
  {
    if m > 0 {
      PrefixMarked(x, y, m - 1, w);
    }
  }

  /** A level of the ideal grades weighs as much as the first places, one for each judged candidate that reaches it. */
  lemma IdealLevel(judgments: map<string, int>, pool: seq<Item>, top: nat, keys: set<string>, t: int, w: Weights)
    requires forall i | 0 <= i < |pool| :: pool[i].key in keys <==> Grade(judgments, pool[i]) >= t
    ensures var ideal := Take(SortedDescending(Grades(judgments, pool)), top);
            Marked(Reaches(ideal, t), |ideal|, w) == Head(LeastOf(top, CountIn(pool, keys)), w)
  {
    var sorted := SortedDescending(Grades(judgments, pool));
    var ideal := Take(sorted, top);
    SortingSorts(Grades(judgments, pool));
    CountOfSorted(judgments, pool, keys, t);
    CountIsBounded(sorted, t);
    DescendingHead(sorted, t, |ideal|, w);
    PrefixMarked(Reaches(ideal, t), Reaches(sorted, t), |ideal|, w);
    assert LeastOf(|ideal|, CountFrom(sorted, t)) == LeastOf(top, CountIn(pool, keys));
  }

  lemma ActualLevel(judgments: map<string, int>, top: seq<Item>, keys: set<string>, t: int, w: Weights)
    requires forall i | 0 <= i < |top| :: top[i].key in keys <==> Grade(judgments, top[i]) >= t
    ensures Marked(Reaches(Grades(judgments, top), t), |top|, w) == KeyWeight(top, keys, w)
  {
    assert Reaches(Grades(judgments, top), t) == KeyMarks(top, keys);
  }

  // ---------------------------------------------------------------- the bound is exact

  /** No set of keys weighs more in the ranking than its pool items could weigh at the first places. */
  ghost predicate WeightsCovered(top: seq<Item>, pool: seq<Item>, w: Weights) {
    forall keys: set<string> :: KeyWeight(top, keys, w) <= Head(LeastOf(|top|, CountIn(pool, keys)), w)
  }

  /** The bound, over all non-negative judgments, for one discount. */
  ghost predicate BoundHolds(ranking: seq<Item>, k: int, pool: seq<Item>, w: Weights) {
    forall judgments: map<string, int> | NonNegativeGrades(judgments) ::
      Ndcg(ranking, judgments, k, Some(pool), w) <= 1.0
  }

  lemma CoveredWeightsBound(ranking: seq<Item>, judgments: map<string, int>, k: int, pool: seq<Item>, w: Weights)
    requires pool != [] && Discounts(w) && NonNegativeGrades(judgments)
    requires WeightsCovered(Take(ranking, k), pool, w)
    ensures Ndcg(ranking, judgments, k, Some(pool), w) <= 1.0
  {
    var top := Take(ranking, k);
    var actual, ideal := Grades(judgments, top), Ideal(ranking, judgments, k, Some(pool));
    forall t: nat | t > 0 ensures Marked(Reaches(actual, t), |actual|, w) <= Marked(Reaches(ideal, t), |ideal|, w) {
      var keys := set key | key in judgments && judgments[key] >= t;
      ActualLevel(judgments, top, keys, t, w);
      IdealLevel(judgments, pool, |top|, keys, t, w);
    }
    IdealIsNonNegative(judgments, pool, |top|);
    DominatedLevels(actual, ideal, w);
    DcgIsNonNegative(actual, w);
    if actual != [] && Dcg(ideal, w) != 0.0 {
      RatioBounds(Dcg(actual, w), Dcg(ideal, w));
    }
  }

  lemma IdealIsNonNegative(judgments: map<string, int>, pool: seq<Item>, top: nat)
    requires NonNegativeGrades(judgments)
    ensures NonNegative(Take(SortedDescending(Grades(judgments, pool)), top))
  {
    var grades := Grades(judgments, pool);
    SortingSorts(grades);
    forall i | 0 <= i < |SortedDescending(grades)| ensures SortedDescending(grades)[i] >= 0 {
      assert SortedDescending(grades)[i] in multiset(SortedDescending(grades));
      assert SortedDescending(grades)[i] in multiset(grades);
    }
  }

  function Ones(keys: set<string>): map<string, int> {
    map key | key in keys :: 1
  }

  /** Gains of 0 and 1 weigh what their places do. */
  lemma {:induction false} OnesWeigh(gains: seq<real>, marks: seq<bool>, m: nat, w: Weights)
    requires m <= |gains| == |marks| && forall i | 0 <= i < |gains| :: gains[i] == if marks[i] then 1.0 else 0.0
    ensures Weighted(gains, m, w) == Marked(marks, m, w)
  {
    if m > 0 {
      OnesWeigh(gains, marks, m - 1, w);
    }
  }

  lemma OnesGain(grades: seq<int>, w: Weights)
    requires forall i | 0 <= i < |grades| :: grades[i] == 0 || grades[i] == 1
    ensures Dcg(grades, w) == Marked(Reaches(grades, 1), |grades|, w)
  {
    SmallGains();
    OnesWeigh(Gains(grades), Reaches(grades, 1), |grades|, w);
  }

  lemma SmallGains()
    ensures Gain(0) == 0.0 && Gain(1) == 1.0
  {
    assert Pow2(1) == 2 * Pow2(0) && Pow2(0) == 1;
  }

  lemma IdealOnes(judgments: map<string, int>, pool: seq<Item>, top: nat, keys: set<string>, w: Weights)
    requires forall i | 0 <= i < |pool| :: Grade(judgments, pool[i]) == if pool[i].key in keys then 1 else 0
    ensures Dcg(Take(SortedDescending(Grades(judgments, pool)), top), w) == Head(LeastOf(top, CountIn(pool, keys)), w)
  {
    var grades := Grades(judgments, pool);
    var ideal := Take(SortedDescending(grades), top);
    SortingSorts(grades);
    forall i | 0 <= i < |ideal| ensures ideal[i] == 0 || ideal[i] == 1 {
      assert SortedDescending(grades)[i] in multiset(SortedDescending(grades));
      assert SortedDescending(grades)[i] in multiset(grades);
    }
    OnesGain(ideal, w);
    IdealLevel(judgments, pool, top, keys, 1, w);
  }

  /** A set of keys that weighs too much, and of which the pool has some: grade its keys 1. */
  lemma HeavyKeysExceedOne(ranking: seq<Item>, k: int, pool: seq<Item>, keys: set<string>, w: Weights)
    requires Discounts(w) && pool != [] && CountIn(pool, keys) > 0
    requires KeyWeight(Take(ranking, k), keys, w) > Head(LeastOf(|Take(ranking, k)|, CountIn(pool, keys)), w)
    ensures Ndcg(ranking, Ones(keys), k, Some(pool), w) > 1.0
  {
    var top := Take(ranking, k);
    OnesGain(Grades(Ones(keys), top), w);
    ActualLevel(Ones(keys), top, keys, 1, w);
    IdealOnes(Ones(keys), pool, |top|, keys, w);
    HeadGrows(0, LeastOf(|top|, CountIn(pool, keys)), w);
    ExceedsOne(KeyWeight(top, keys, w), Head(LeastOf(|top|, CountIn(pool, keys)), w));
  }

  lemma ExceedsOne(x: real, y: real)
    requires x > y > 0.0
    ensures x / y > 1.0
  {
    assert (x / y) * y == x;
    assert (x / y - 1.0) * y == x - y;
  }

  lemma {:induction false} Pow2Exceeds(n: nat)
    ensures Pow2(n) > n
  {
    if n > 0 {
      Pow2Exceeds(n - 1);
    }
  }

  lemma EnoughGain(target: real, weight: real) returns (grade: nat)
    requires target >= 0.0 && weight > 0.0
    ensures Gain(grade) * weight > target
  {
    var ratio := target / weight;
    assert ratio * weight == target;
    grade := (if ratio >= 0.0 then ratio else 0.0).Floor + 1;
    Pow2Exceeds(grade);
    assert Gain(grade) >= grade as real > ratio;
    StrictProduct(ratio, Gain(grade), weight);
  }

  lemma StrictProduct(x: real, y: real, z: real)
    requires x < y && z > 0.0
    ensures x * z < y * z
  {
  }

  lemma {:induction false} WeightedHasTerm(x: seq<real>, m: nat, p: nat, w: Weights)
    requires p < m <= |x| && Discounts(w) && forall i | 0 <= i < |x| :: x[i] >= 0.0
    ensures Weighted(x, m, w) >= x[p] * w(p + 1)
  {
    if p == m - 1 {
      WeightedIsNonNegative(x, m - 1, w);
    } else {
      WeightedHasTerm(x, m - 1, p, w);
      assert DiscountsAt(w, m - 1);
      ProductSign(x[m - 1], w(m));
    }
  }

  /** A high grade for a key that the pool does not have leaves the ideal as it is. */
  lemma UnjudgedIdeal(pool: seq<Item>, top: nat, key: string, high: int, w: Weights)
    requires pool != [] && CountIn(pool, {key}) == 0
    ensures Dcg(Take(SortedDescending(Grades(map[pool[0].key := 1, key := high], pool)), top), w)
         == Head(LeastOf(top, CountIn(pool, {pool[0].key})), w)
  {
    var judgments := map[pool[0].key := 1, key := high];
    forall i | 0 <= i < |pool|
      ensures Grade(judgments, pool[i]) == if pool[i].key in {pool[0].key} then 1 else 0
    {
      if pool[i].key == key {
        CountedIsThere(pool, i, {key});
      }
    }
    IdealOnes(judgments, pool, top, {pool[0].key}, w);
  }

  /** A ranked key that the pool does not have at all: grade it high enough, and one pool key 1. */
  lemma UnjudgedKeyExceedsOne(ranking: seq<Item>, k: int, pool: seq<Item>, p: nat, w: Weights) returns (high: nat)
    requires p < |Take(ranking, k)| && pool != [] && Discounts(w) && CountIn(pool, {Take(ranking, k)[p].key}) == 0
    ensures Ndcg(ranking, map[pool[0].key := 1, Take(ranking, k)[p].key := high], k, Some(pool), w) > 1.0
  {
    var top := Take(ranking, k);
    var places := LeastOf(|top|, CountIn(pool, {pool[0].key}));
    CountedIsThere(pool, 0, {pool[0].key});
    HeadGrows(0, places, w);
    var gain;
    high, gain := HighGradeGains(top, p, pool[0].key, Head(places, w), w);
    UnjudgedIdeal(pool, |top|, top[p].key, high, w);
    ExceedsOne(gain, Head(places, w));
  }

  /** Some grade for one ranked key lifts the discounted gain above the target. */
  lemma HighGradeGains(top: seq<Item>, p: nat, other: string, target: real, w: Weights)
    returns (high: nat, gain: real)
    requires p < |top| && Discounts(w) && target >= 0.0
    ensures gain == Dcg(Grades(map[other := 1, top[p].key := high], top), w) && gain > target
  {
    assert DiscountsAt(w, p);
    high := EnoughGain(target, w(p + 1));
    var grades := Grades(map[other := 1, top[p].key := high], top);
    gain := Dcg(grades, w);
    forall i | 0 <= i < |grades| ensures Gain(grades[i]) >= 0.0 {
      GainGrows(grades[i], grades[i] + 1);
    }
    WeightedHasTerm(Gains(grades), |grades|, p, w);
  }

  lemma {:induction false} CountedIsThere(items: seq<Item>, i: nat, keys: set<string>)
    requires i < |items| && items[i].key in keys
    ensures CountIn(items, keys) > 0
  {
    if i < |items| - 1 {
      CountedIsThere(items[..|items| - 1], i, keys);
    }
  }

  lemma {:induction false} WeightHasItem(items: seq<Item>, keys: set<string>, m: nat, w: Weights) returns (p: nat)
    requires m <= |items| && Marked(KeyMarks(items, keys), m, w) != 0.0
    ensures p < m && items[p].key in keys
  {
    if items[m - 1].key in keys {
      p := m - 1;
    } else {
      p := WeightHasItem(items, keys, m - 1, w);
    }
  }

  lemma {:induction false} CountOfSubset(items: seq<Item>, some: set<string>, keys: set<string>)
    requires some <= keys
    ensures CountIn(items, some) <= CountIn(items, keys)
  {
    if items != [] {
      CountOfSubset(items[..|items| - 1], some, keys);
    }
  }

  /** Where the weights are not covered, some non-negative judgments lift the metric above 1. */
  lemma UncoveredWeightsExceedOne(ranking: seq<Item>, k: int, pool: seq<Item>, w: Weights)
    returns (judgments: map<string, int>)
    requires pool != [] && Discounts(w) && !WeightsCovered(Take(ranking, k), pool, w)
    ensures NonNegativeGrades(judgments) && Ndcg(ranking, judgments, k, Some(pool), w) > 1.0
  {
    var top := Take(ranking, k);
    var keys :| KeyWeight(top, keys, w) > Head(LeastOf(|top|, CountIn(pool, keys)), w);
    if CountIn(pool, keys) > 0 {
      judgments := Ones(keys);
      HeavyKeysExceedOne(ranking, k, pool, keys, w);
    } else {
      var p := WeightHasItem(top, keys, |top|, w);
      CountOfSubset(pool, {top[p].key}, keys);
      var high := UnjudgedKeyExceedsOne(ranking, k, pool, p, w);
      judgments := map[pool[0].key := 1, top[p].key := high];
    }
  }

  /**
    For a non-empty pool and any one discount the metric stays within 1 for all non-negative judgments
    exactly when no set of keys weighs more in the ranking than its pool items could at the first places.
   */
  lemma NdcgBoundIff(ranking: seq<Item>, k: int, pool: seq<Item>, w: Weights)
    requires pool != [] && Discounts(w)
    ensures BoundHolds(ranking, k, pool, w) <==> WeightsCovered(Take(ranking, k), pool, w)
  {
    if WeightsCovered(Take(ranking, k), pool, w) {
      forall judgments: map<string, int> | NonNegativeGrades(judgments)
        ensures Ndcg(ranking, judgments, k, Some(pool), w) <= 1.0
      {
        CoveredWeightsBound(ranking, judgments, k, pool, w);
      }
    } else {
      var judgments := UncoveredWeightsExceedOne(ranking, k, pool, w);
      assert !(Ndcg(ranking, judgments, k, Some(pool), w) <= 1.0);
    }
  }

  // ---------------------------------------------------------------- pools without repeated keys

  /** The first place whose key the pool does not cover any more. */
  lemma FirstUncovered(top: seq<Item>, pool: seq<Item>) returns (q: nat)
    requires !KeysCovered(top, pool)
    ensures q < |top| && KeysCovered(top[..q], pool) && !KeysCovered(top[..q + 1], pool)
  {
    assert top[..|top|] == top;
    q := 0;
    while KeysCovered(top[..q + 1], pool)
      invariant q < |top| && KeysCovered(top[..q], pool)
      decreases |top| - q
    {
      q := q + 1;
    }
  }

  ghost function KeySet(items: seq<Item>): set<string> {
    set key | key in Keys(items)
  }

  lemma {:induction false} KeySetSize(items: seq<Item>)
    ensures |KeySet(items)| <= |items|
  {
    if items != [] {
      var n := |items| - 1;
      KeySetSize(items[..n]);
      assert Keys(items) == Keys(items[..n]) + [items[n].key];
      assert KeySet(items) == KeySet(items[..n]) + {items[n].key};
    }
  }

  lemma {:induction false} DistinctCount(items: seq<Item>, keys: set<string>)
    requires DistinctKeys(items)
    ensures CountIn(items, keys) <= |keys|
  {
    if items != [] {
      var n := |items| - 1;
      var rest := if items[n].key in keys then keys - {items[n].key} else keys;
      forall i | 0 <= i < n ensures items[..n][i].key in keys <==> items[..n][i].key in rest {
        assert items[i].key != items[n].key;
      }
      SameCount(items[..n], keys, rest);
      DistinctCount(items[..n], rest);
    }
  }

  lemma {:induction false} SameCount(items: seq<Item>, some: set<string>, keys: set<string>)
    requires forall i | 0 <= i < |items| :: items[i].key in some <==> items[i].key in keys
    ensures CountIn(items, some) == CountIn(items, keys)
  {
    if items != [] {
      var n := |items| - 1;
      forall i | 0 <= i < n ensures items[..n][i].key in some <==> items[..n][i].key in keys {
        assert items[..n][i] == items[i];
      }
      SameCount(items[..n], some, keys);
    }
  }

  /** The next key is new to the pool's view: it has been used up before, or the pool does not have it. */
  lemma NextKeyAddsNothing(top: seq<Item>, pool: seq<Item>, q: nat)
    requires q < |top| && KeysCovered(top[..q], pool) && !KeysCovered(top[..q + 1], pool)
    ensures top[q].key !in Keys(top[..q]) ==> top[q].key !in Keys(pool)
  {
    KeysSnoc(top[..q + 1]);
    assert top[..q + 1][..q] == top[..q];
    UsedUp(multiset(Keys(top[..q])), multiset(Keys(pool)), top[q].key);
  }

  lemma UsedUp(a: multiset<string>, b: multiset<string>, x: string)
    requires a <= b && !(a + multiset{x} <= b)
    ensures a[x] >= b[x]
  {
    var y :| (a + multiset{x})[y] > b[y];
    assert a[y] <= b[y];
  }

  lemma {:induction false} MarkedHead(marks: seq<bool>, m: nat, w: Weights)
    requires m <= |marks| && forall i | 0 <= i < m :: marks[i]
    ensures Marked(marks, m, w) == Head(m, w)
  {
    if m > 0 {
      MarkedHead(marks, m - 1, w);
    }
  }

  lemma {:induction false} MarkedGrows(marks: seq<bool>, m: nat, n: nat, w: Weights)
    requires m <= n <= |marks| && Discounts(w)
    ensures Marked(marks, m, w) <= Marked(marks, n, w)
  {
    if m < n {
      MarkedGrows(marks, m, n - 1, w);
      assert DiscountsAt(w, n - 1);
    }
  }

  /** With a pool of distinct keys an uncovered key makes the keys up to it weigh too much. */
  lemma UncoveredKeysWeighTooMuch(top: seq<Item>, pool: seq<Item>, w: Weights)
    requires DistinctKeys(pool) && Discounts(w) && !KeysCovered(top, pool)
    ensures !WeightsCovered(top, pool, w)
  {
    var q := FirstUncovered(top, pool);
    var keys, marks := KeySet(top[..q + 1]), KeyMarks(top, KeySet(top[..q + 1]));
    forall i | 0 <= i < q + 1 ensures marks[i] {
      assert Keys(top[..q + 1])[i] == top[i].key;
    }
    MarkedHead(marks, q + 1, w);
    MarkedGrows(marks, q + 1, |top|, w);
    FewPoolItems(top, pool, q);
    HeadGrows(LeastOf(|top|, CountIn(pool, keys)), q, w);
    HeadGrows(q, q + 1, w);
  }

  lemma FewPoolItems(top: seq<Item>, pool: seq<Item>, q: nat)
    requires DistinctKeys(pool) && q < |top| && KeysCovered(top[..q], pool) && !KeysCovered(top[..q + 1], pool)
    ensures CountIn(pool, KeySet(top[..q + 1])) <= q
  {
    NextKeyAddsNothing(top, pool, q);
    assert Keys(top[..q + 1]) == Keys(top[..q]) + [top[q].key];
    forall i | 0 <= i < |pool| ensures pool[i].key in KeySet(top[..q + 1]) <==> pool[i].key in KeySet(top[..q]) {
      assert Keys(pool)[i] in Keys(pool);
    }
    SameCount(pool, KeySet(top[..q + 1]), KeySet(top[..q]));
    DistinctCount(pool, KeySet(top[..q]));
    KeySetSize(top[..q]);
  }

  /**
    For a pool of distinct keys, and whatever the discount, the metric stays within 1 for all non-negative
    judgments exactly when the pool covers the top keys.
   */
  lemma DistinctPoolBoundIff(ranking: seq<Item>, k: int, pool: seq<Item>, w: Weights)
    requires pool != [] && DistinctKeys(pool) && Discounts(w)
    ensures BoundHolds(ranking, k, pool, w) <==> KeysCovered(Take(ranking, k), pool)
  {
    NdcgBoundIff(ranking, k, pool, w);
    if KeysCovered(Take(ranking, k), pool) {
      forall judgments: map<string, int> | NonNegativeGrades(judgments)
        ensures Ndcg(ranking, judgments, k, Some(pool), w) <= 1.0
      {
        NdcgIsNormalised(ranking, judgments, k, Some(pool), w);
      }
    } else {
      UncoveredKeysWeighTooMuch(Take(ranking, k), pool, w);
    }
  }

  // ---------------------------------------------------------------- all discounts together

  /** A nearly flat discount: between 1 and 1 + 1/n, and strictly falling. */
  function Flat(n: nat): Weights
    requires n > 0
  {
    (i: nat) => 1.0 + 1.0 / (n + i) as real
  }

  lemma FlatAt(n: nat, i: nat)
    requires n > 0
    ensures DiscountsAt(Flat(n), i) && 1.0 < Flat(n)(i) <= 1.0 + 1.0 / n as real
  {
    InverseOrder((n + i) as real, (n + i + 1) as real);
    if i > 0 {
      InverseOrder(n as real, (n + i) as real);
    }
  }

  lemma FlatDiscounts(n: nat)
    requires n > 0
    ensures Discounts(Flat(n))
  {
    forall i: nat ensures DiscountsAt(Flat(n), i) {
      FlatAt(n, i);
    }
  }

  function Parts(m: nat, part: real): real {
    if m == 0 then 0.0 else Parts(m - 1, part) + part
  }

  lemma {:induction false} PartsBelow(m: nat, n: nat, part: real)
    requires m < n && part > 0.0 && Parts(n, part) == 1.0
    ensures Parts(m, part) < 1.0
    decreases n
  {
    if m < n - 1 {
      PartsGrow(m, n, part);
    }
  }

  lemma {:induction false} PartsGrow(m: nat, n: nat, part: real)
    requires m < n && part > 0.0
    ensures Parts(m, part) < Parts(n, part)
  {
    if m < n - 1 {
      PartsGrow(m, n - 1, part);
    }
  }

  lemma {:induction false} PartsAreProduct(m: nat, part: real)
    ensures Parts(m, part) == m as real * part
  {
    if m > 0 {
      PartsAreProduct(m - 1, part);
      assert m as real * part == (m - 1) as real * part + part;
    }
  }

  lemma {:induction false} FlatHead(m: nat, n: nat, part: real)
    requires n > 0 && part == 1.0 / n as real
    ensures Head(m, Flat(n)) <= m as real + Parts(m, part)
  {
    if m > 0 {
      FlatHead(m - 1, n, part);
      FlatAt(n, m);
    }
  }

  lemma FlatHeadIsShort(m: nat, n: nat)
    requires m < n
    ensures Head(m, Flat(n)) < m as real + 1.0
  {
    var part := 1.0 / n as real;
    FlatHead(m, n, part);
    PartsAreProduct(n, part);
    assert part * n as real == 1.0;
    PartsBelow(m, n, part);
  }

  lemma {:induction false} FlatKeyWeight(items: seq<Item>, keys: set<string>, m: nat, n: nat)
    requires n > 0 && m <= |items|
    ensures Marked(KeyMarks(items, keys), m, Flat(n)) >= CountIn(items[..m], keys) as real
  {
    if m > 0 {
      FlatKeyWeight(items, keys, m - 1, n);
      FlatAt(n, m);
      assert items[..m][..m - 1] == items[..m - 1];
    }
  }

  lemma {:induction false} CountOfKey(items: seq<Item>, key: string)
    ensures CountIn(items, {key}) == multiset(Keys(items))[key]
  {
    if items != [] {
      CountOfKey(items[..|items| - 1], key);
      KeysSnoc(items);
    }
  }

  lemma OverrankedKeyWeighsTooMuch(top: seq<Item>, pool: seq<Item>, key: string)
    requires multiset(Keys(top))[key] > multiset(Keys(pool))[key]
    ensures !WeightsCovered(top, pool, Flat(multiset(Keys(pool))[key] + 1))
  {
    var m, n := multiset(Keys(pool))[key], multiset(Keys(pool))[key] + 1;
    CountOfKey(top, key);
    CountOfKey(pool, key);
    FlatKeyWeight(top, {key}, |top|, n);
    assert top[..|top|] == top;
    FlatHeadIsShort(m, n);
    FlatDiscounts(n);
    HeadGrows(LeastOf(|top|, m), m, Flat(n));
    assert KeyWeight(top, {key}, Flat(n)) > Head(LeastOf(|top|, CountIn(pool, {key})), Flat(n));
  }

  /**
    Over all discounts together the bound holds, for any non-empty pool, exactly when no key is ranked
    more often than the pool has it.
   */
  lemma AllDiscountsBoundIff(ranking: seq<Item>, k: int, pool: seq<Item>)
    requires pool != []
    ensures KeysCovered(Take(ranking, k), pool) <==> forall w: Weights | Discounts(w) :: BoundHolds(ranking, k, pool, w)
  {
    var top := Take(ranking, k);
    if KeysCovered(top, pool) {
      forall w: Weights, judgments: map<string, int> | Discounts(w) && NonNegativeGrades(judgments)
        ensures Ndcg(ranking, judgments, k, Some(pool), w) <= 1.0
      {
        NdcgIsNormalised(ranking, judgments, k, Some(pool), w);
      }
    } else {
      var key :| multiset(Keys(top))[key] > multiset(Keys(pool))[key];
      var n := multiset(Keys(pool))[key] + 1;
      FlatDiscounts(n);
      OverrankedKeyWeighsTooMuch(top, pool, key);
      NdcgBoundIff(ranking, k, pool, Flat(n));
      assert !BoundHolds(ranking, k, pool, Flat(n));
    }
  }

  /** An item ranked twice is counted twice, and lifts the metric above 1 whatever the discount. */
  lemma RepeatedKeyExceedsOne(w: Weights)
    requires Discounts(w)
    ensures var a, b := Item("s", "a"), Item("s", "b");
            Ndcg([a, a], map["a" := 1], 2, Some([a, b]), w) > 1.0
  {
    var a, b := Item("s", "a"), Item("s", "b");
    var judgments := map["a" := 1];
    assert Grades(judgments, [a, a]) == [1, 1] && Grades(judgments, [a, b]) == [1, 0];
    SmallDcgs(w);
    assert Take([a, a], 2) == [a, a];
    assert Ideal([a, a], judgments, 2, Some([a, b])) == [1, 0];
    RatioAboveOne(w(1), w(2));
  }

  lemma SmallDcgs(w: Weights)
    requires Discounts(w)
    ensures SortedDescending([1, 0]) == [1, 0]
    ensures Dcg([1, 1], w) == w(1) + w(2) && Dcg([1, 0], w) == w(1) && w(1) > w(2) > 0.0
  {
    assert [1, 0][..1] == [1] && [1][..0] == [] && [1][1..] == [];
    assert SortedDescending([1]) == Insert(1, SortedDescending([])) == [1];
    assert Insert(0, [1]) == [1] + Insert(0, []);
    assert Pow2(1) == 2 * Pow2(0) && Pow2(0) == 1;
    assert Gain(1) == 1.0 && Gain(0) == 0.0;
    assert DiscountsAt(w, 1);
    TwoTerms(Gains([1, 0]), w);
    TwoTerms(Gains([1, 1]), w);
  }

  lemma TwoTerms(x: seq<real>, w: Weights)
    requires |x| == 2
    ensures Weighted(x, 2, w) == x[0] * w(1) + x[1] * w(2)
  {
    assert Weighted(x, 1, w) == x[0] * w(1);
  }

  lemma RatioAboveOne(x: real, y: real)
    requires x > 0.0 && y > 0.0
    ensures (x + y) / x > 1.0
  {
    assert ((x + y) / x) * x == x + y;
  }
}
