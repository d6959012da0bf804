/**
  Near-duplicate removal and cross-source linking.  Texts are already normalised and tokenised; an item
  carries its character n-grams and its words.
 */
module Dedupe {

  function Jaccard(a: set<string>, b: set<string>): real {
    if a == {} || b == {} then 0.0 else |a * b| as real / |a + b| as real
  }

  lemma JaccardIsSymmetric(a: set<string>, b: set<string>)
    ensures Jaccard(a, b) == Jaccard(b, a)
  {
    assert a * b == b * a && a + b == b + a;
  }

  /** The similarity is the share of the union that both have: 1 for equal sets only, 0 for disjoint ones only. */
  lemma JaccardIsShare(a: set<string>, b: set<string>)
    ensures Jaccard(a, b) * |a + b| as real == |a * b| as real && 0.0 <= Jaccard(a, b) <= 1.0
    ensures (Jaccard(a, b) == 1.0 <==> a == b != {}) && (Jaccard(a, b) == 0.0 <==> a * b == {})
  {
    var both, all := |a * b| as real, |a + b| as real;
    if a != {} && b != {} {
      SubsetSize(a * b, a + b);
      SubsetSize(a, a + b);
      assert (both / all) * all == both;
      assert a == b ==> a * b == a + b;
      assert a * b == a + b ==> a == b;
      assert both == 0.0 <==> a * b == {};
      ShareBounds(both, all);
    } else {
      assert a * b == {};
    }
  }

  lemma ShareBounds(part: real, whole: real)
    requires 0.0 <= part <= whole && whole > 0.0
    ensures 0.0 <= part / whole <= 1.0
    ensures (part / whole == 1.0 <==> part == whole) && (part / whole == 0.0 <==> part == 0.0)
  {
    assert (part / whole) * whole == part;
  }

  lemma SubsetSize(a: set<string>, b: set<string>)
    requires a <= b
    ensures |a| <= |b| && (|a| == |b| ==> a == b)
  {
    assert b == a + (b - a);
  }

  // ---------------------------------------------------------------- removing near-duplicates

  datatype Item = Item(score: int, grams: set<string>)

  predicate Similar(a: Item, b: Item, threshold: real) {
    Jaccard(a.grams, b.grams) >= threshold
  }

  /** The threshold itself is enough: at 1 the near-duplicates are the items with the same grams. */
  lemma SameGramsAreSimilar(a: Item, b: Item)
    ensures Similar(a, b, 1.0) <==> a.grams == b.grams != {}
    ensures Similar(a, b, 0.0)
  {
    JaccardIsShare(a.grams, b.grams);
  }

  /** The order the removal follows: higher score first, then lower index. */
  predicate Better(items: seq<Item>, y: nat, x: nat)
    requires x < |items| && y < |items|
  {
    items[y].score > items[x].score || (items[y].score == items[x].score && y < x)
  }

  /** Item `x` has a better near-duplicate. */
  predicate Beaten(items: seq<Item>, x: nat, threshold: real)
    requires x < |items|
  {
    exists y: nat | y < |items| :: Better(items, y, x) && Similar(items[x], items[y], threshold)
  }

  function KeptIndices(items: seq<Item>, n: nat, threshold: real): (kept: seq<nat>)
    requires n <= |items|
    ensures forall k | 0 <= k < |kept| :: kept[k] < n
  {
    if n == 0 then []
    else KeptIndices(items, n - 1, threshold) + if Beaten(items, n - 1, threshold) then [] else [n - 1]
  }

  /** The kept items are the unbeaten ones. */
  lemma {:induction false} KeptIffUnbeaten(items: seq<Item>, n: nat, x: nat, threshold: real)
    requires n <= |items|
    ensures x in KeptIndices(items, n, threshold) <==> x < n && !Beaten(items, x, threshold)
  {
    if n > 0 {
      KeptIffUnbeaten(items, n - 1, x, threshold);
    }
  }

  /** They stay in their order. */
  lemma {:induction false} KeptInOrder(items: seq<Item>, n: nat, j: nat, k: nat, threshold: real)
    requires n <= |items| && j < k < |KeptIndices(items, n, threshold)|
    ensures KeptIndices(items, n, threshold)[j] < KeptIndices(items, n, threshold)[k]
  {
    var before := KeptIndices(items, n - 1, threshold);
    if k < |before| {
      KeptInOrder(items, n - 1, j, k, threshold);
    } else {
      assert KeptIndices(items, n, threshold)[j] == before[j];
    }
  }

  function At(items: seq<Item>, indices: seq<nat>): (picked: seq<Item>)
    requires forall k | 0 <= k < |indices| :: indices[k] < |items|
    ensures |picked| == |indices| && forall k | 0 <= k < |picked| :: picked[k] == items[indices[k]]
  {
    seq(|indices|, k requires 0 <= k < |indices| => items[indices[k]])
  }

  function Deduped(items: seq<Item>, threshold: real): seq<Item> {
    At(items, KeptIndices(items, |items|, threshold))
  }

  lemma KeptSnoc(items: seq<Item>, n: nat, threshold: real)
    requires n < |items|
    ensures At(items, KeptIndices(items, n + 1, threshold))
         == At(items, KeptIndices(items, n, threshold)) + if Beaten(items, n, threshold) then [] else [items[n]]
  {
  }

  type Pair = (nat, nat)

  predicate Before(p: Pair, q: Pair) {
    p.0 < q.0 || (p.0 == q.0 && p.1 < q.1)
  }

  /** The pairs of similar items, in lexicographic order. */
  ghost predicate AreDuplicates(pairs: seq<Pair>, items: seq<Item>, i: nat, j: nat, threshold: real) {
    && (forall p <- pairs :: p.0 < p.1 < |items| && Before(p, (i, j)) && Similar(items[p.0], items[p.1], threshold))
    && (forall x: nat, y: nat | x < y < |items| && Before((x, y), (i, j)) && Similar(items[x], items[y], threshold) ::
          (x, y) in pairs)
    && (forall a, b | 0 <= a < b < |pairs| :: Before(pairs[a], pairs[b]))
  }

  lemma NextIsPair(pairs: seq<Pair>, items: seq<Item>, i: nat, j: nat, threshold: real)
    requires i < j < |items| && AreDuplicates(pairs, items, i, j, threshold)
    ensures Similar(items[i], items[j], threshold) ==>
              AreDuplicates(pairs + [(i, j)], items, i, j + 1, threshold)
    ensures !Similar(items[i], items[j], threshold) ==> AreDuplicates(pairs, items, i, j + 1, threshold)
  {
    assert forall p: Pair :: Before(p, (i, j + 1)) <==> Before(p, (i, j)) || p == (i, j);
    assert forall p: Pair :: p in pairs + [(i, j)] <==> p in pairs || p == (i, j);
  }

  lemma NextRowOfPairs(pairs: seq<Pair>, items: seq<Item>, i: nat, threshold: real)
    requires i < |items|
    ensures AreDuplicates(pairs, items, i, 0, threshold) ==> AreDuplicates(pairs, items, i, i + 1, threshold)
    ensures AreDuplicates(pairs, items, i, |items|, threshold) ==> AreDuplicates(pairs, items, i + 1, 0, threshold)
  {
    var n := |items|;
    assert forall x: nat, y: nat | x < y < n :: Before((x, y), (i, i + 1)) <==> Before((x, y), (i, 0));
    assert forall x: nat, y: nat | x < y < n :: Before((x, y), (i + 1, 0)) <==> Before((x, y), (i, n));
  }

  method FindDuplicates(items: seq<Item>, threshold: real) returns (pairs: seq<Pair>)
    ensures AreDuplicates(pairs, items, |items|, 0, threshold)
  {
    pairs := [];
    for i := 0 to |items|
      invariant AreDuplicates(pairs, items, i, 0, threshold)
    {
      NextRowOfPairs(pairs, items, i, threshold);
      for j := i + 1 to |items|
        invariant AreDuplicates(pairs, items, i, j, threshold)
      {
        NextIsPair(pairs, items, i, j, threshold);
        if Jaccard(items[i].grams, items[j].grams) >= threshold {
          pairs := pairs + [(i, j)];
        }
      }
      NextRowOfPairs(pairs, items, i, threshold);
    }
  }

  /** The lower-scored item of every pair; of two equal scores the later one. */
  method MarkLosers(pairs: seq<Pair>, items: seq<Item>) returns (toRemove: set<nat>)
    requires forall p <- pairs :: p.0 < |items| && p.1 < |items|
    ensures forall x: nat :: x in toRemove <==> LosesIn(pairs, items, x)
  {
    toRemove := {};
    var k := 0;
    while k < |pairs|
      invariant 0 <= k <= |pairs|
      invariant forall x: nat :: x in toRemove <==> LosesIn(pairs[..k], items, x)
    {
      var (i, j) := pairs[k];
      assert pairs[k] in pairs;
      LosesSnoc(pairs, k, items);
      if items[i].score >= items[j].score {
        toRemove := toRemove + {j};
      } else {
        toRemove := toRemove + {i};
      }
      k := k + 1;
    }
    assert pairs[..k] == pairs;
  }

  /** The items whose index is not in `toRemove`. */
  method KeepOthers(items: seq<Item>, toRemove: set<nat>, threshold: real) returns (kept: seq<Item>)
    requires forall x: nat | x < |items| :: x in toRemove <==> Beaten(items, x, threshold)
    ensures kept == Deduped(items, threshold)
  {
    kept := [];
    var n := 0;
    while n < |items|
      invariant 0 <= n <= |items|
      invariant kept == At(items, KeptIndices(items, n, threshold))
    {
      KeptSnoc(items, n, threshold);
      if n !in toRemove {
        kept := kept + [items[n]];
      }
      n := n + 1;
    }
  }

  method DedupeItems(items: seq<Item>, threshold: real) returns (kept: seq<Item>)
    ensures kept == Deduped(items, threshold)
  {
    if |items| <= 1 {
      SingleIsKept(items, threshold);
      return items;
    }
    var pairs := FindDuplicates(items, threshold);
    var toRemove := MarkLosers(pairs, items);
    forall x: nat | x < |items| ensures x in toRemove <==> Beaten(items, x, threshold) {
      LosersAreBeaten(pairs, items, x, threshold);
    }
    kept := KeepOthers(items, toRemove, threshold);
  }

  /** Item `x` is the one some pair marks for removal. */
  ghost predicate LosesIn(pairs: seq<Pair>, items: seq<Item>, x: nat) {
    exists p <- pairs | p.0 < |items| && p.1 < |items| :: x == Loser(items, p)
  }

  function Loser(items: seq<Item>, p: Pair): nat
    requires p.0 < |items| && p.1 < |items|
  {
    if items[p.0].score >= items[p.1].score then p.1 else p.0
  }

  lemma LosesSnoc(pairs: seq<Pair>, k: nat, items: seq<Item>)
    requires k < |pairs| && pairs[k].0 < |items| && pairs[k].1 < |items|
    ensures forall x: nat ::
              LosesIn(pairs[..k + 1], items, x) <==> LosesIn(pairs[..k], items, x) || x == Loser(items, pairs[k])
  {
    assert pairs[..k + 1] == pairs[..k] + [pairs[k]];
  }

  lemma LosersAreBeaten(pairs: seq<Pair>, items: seq<Item>, x: nat, threshold: real)
    requires AreDuplicates(pairs, items, |items|, 0, threshold) && x < |items|
    ensures LosesIn(pairs, items, x) <==> Beaten(items, x, threshold)
  {
    if LosesIn(pairs, items, x) {
      var p :| p in pairs && p.0 < |items| && p.1 < |items| && x == Loser(items, p);
      JaccardIsSymmetric(items[p.0].grams, items[p.1].grams);
      assert Better(items, if x == p.0 then p.1 else p.0, x);
    }
    if Beaten(items, x, threshold) {
      var y: nat :| y < |items| && Better(items, y, x) && Similar(items[x], items[y], threshold);
      JaccardIsSymmetric(items[x].grams, items[y].grams);
      var p: Pair := if x < y then (x, y) else (y, x);
      assert p in pairs && x == Loser(items, p);
    }
  }

  lemma SingleIsKept(items: seq<Item>, threshold: real)
    requires |items| <= 1
    ensures Deduped(items, threshold) == items
  {
    if |items| == 1 {
      assert !Beaten(items, 0, threshold);
      assert KeptIndices(items, 1, threshold) == KeptIndices(items, 0, threshold) + [0];
    }
  }

  // ---------------------------------------------------------------- what removal guarantees

  ghost predicate PairwiseDistant(items: seq<Item>, threshold: real) {
    forall i, j | 0 <= i < j < |items| :: !Similar(items[i], items[j], threshold)
  }

  /** No two kept items are near-duplicates. */
  lemma KeptAreDistant(items: seq<Item>, threshold: real)
    ensures PairwiseDistant(Deduped(items, threshold), threshold)
  {
    var kept := KeptIndices(items, |items|, threshold);
    forall i, j | 0 <= i < j < |kept| ensures !Similar(items[kept[i]], items[kept[j]], threshold) {
      var x, y := kept[i], kept[j];
      KeptInOrder(items, |items|, i, j, threshold);
      KeptIffUnbeaten(items, |items|, x, threshold);
      KeptIffUnbeaten(items, |items|, y, threshold);
      JaccardIsSymmetric(items[x].grams, items[y].grams);
      assert Better(items, x, y) || Better(items, y, x);
    }
  }

  lemma DistantIsUnbeaten(items: seq<Item>, x: nat, threshold: real)
    requires PairwiseDistant(items, threshold) && x < |items|
    ensures !Beaten(items, x, threshold)
  {
    forall y: nat | y < |items| && Better(items, y, x) ensures !Similar(items[x], items[y], threshold) {
      JaccardIsSymmetric(items[x].grams, items[y].grams);
    }
  }

  lemma {:induction false} DistantAllKept(items: seq<Item>, n: nat, threshold: real)
    requires PairwiseDistant(items, threshold) && n <= |items|
    ensures At(items, KeptIndices(items, n, threshold)) == items[..n]
  {
    if n > 0 {
      var m: nat := n - 1;
      DistantAllKept(items, m, threshold);
      DistantIsUnbeaten(items, m, threshold);
      KeptSnoc(items, m, threshold);
      PrefixSnoc(items, m);
    }
  }

  lemma PrefixSnoc(items: seq<Item>, m: nat)
    requires m < |items|
    ensures items[..m + 1] == items[..m] + [items[m]]
  {
  }

  lemma RemovalIsIdempotent(items: seq<Item>, threshold: real)
    ensures Deduped(Deduped(items, threshold), threshold) == Deduped(items, threshold)
  {
    var kept := Deduped(items, threshold);
    KeptAreDistant(items, threshold);
    DistantAllKept(kept, |kept|, threshold);
  }

  predicate IsBest(items: seq<Item>, best: nat) {
    best < |items| && forall y: nat | y < |items| && y != best :: Better(items, best, y)
  }

  lemma {:induction false} BestOfFirst(items: seq<Item>, n: nat) returns (best: nat)
    requires 0 < n <= |items|
    ensures best < n && forall y: nat | y < n && y != best :: Better(items, best, y)
  {
    if n == 1 {
      best := 0;
    } else {
      var before := BestOfFirst(items, n - 1);
      best := if items[n - 1].score > items[before].score then n - 1 else before;
      forall y: nat | y < n && y != best ensures Better(items, best, y) {
        assert y < n - 1 && y != before ==> Better(items, before, y);
      }
    }
  }

  /** A non-empty list has a best item, and it is kept. */
  lemma BestIsKept(items: seq<Item>, threshold: real) returns (best: nat)
    requires items != []
    ensures IsBest(items, best) && best in KeptIndices(items, |items|, threshold)
  {
    best := BestOfFirst(items, |items|);
    forall y: nat | y < |items| ensures !Better(items, y, best) {
      assert y != best ==> Better(items, best, y);
    }
    KeptIffUnbeaten(items, |items|, best, threshold);
  }

  /** A path of near-duplicates, each better than the one before it. */
  ghost predicate IsChain(items: seq<Item>, path: seq<nat>, threshold: real) {
    && (forall k | 0 <= k < |path| :: path[k] < |items|)
    && (forall k | 0 <= k < |path| - 1 ::
          Similar(items[path[k]], items[path[k + 1]], threshold) && Better(items, path[k + 1], path[k]))
  }

  ghost function BetterThan(items: seq<Item>, x: nat): set<nat>
    requires x < |items|
  {
    set y: nat | y < |items| && Better(items, y, x)
  }

  /** Every item is joined by such a path to a kept one. */
  lemma {:induction false} EveryItemLeadsToKept(items: seq<Item>, x: nat, threshold: real) returns (path: seq<nat>)
    requires x < |items|
    ensures IsChain(items, path, threshold) && |path| > 0 && path[0] == x
    ensures path[|path| - 1] in KeptIndices(items, |items|, threshold)
    decreases BetterThan(items, x)
  {
    if !Beaten(items, x, threshold) {
      KeptIffUnbeaten(items, |items|, x, threshold);
      path := [x];
    } else {
      var y: nat :| y < |items| && Better(items, y, x) && Similar(items[x], items[y], threshold);
      assert y in BetterThan(items, x) && y !in BetterThan(items, y);
      var rest := EveryItemLeadsToKept(items, y, threshold);
      path := [x] + rest;
    }
  }

  ghost predicate ResemblesKept(items: seq<Item>, x: nat, threshold: real)
    requires x < |items|
  {
    exists y: nat | y < |items| && y in KeptIndices(items, |items|, threshold) :: Similar(items[x], items[y], threshold)
  }

  /** Some better near-duplicate of item `x` has no better near-duplicate of its own. */
  ghost predicate BeatenByUnbeaten(items: seq<Item>, x: nat, threshold: real)
    requires x < |items|
  {
    exists y: nat | y < |items| ::
      Better(items, y, x) && Similar(items[x], items[y], threshold) && !Beaten(items, y, threshold)
  }

  /** Every removed item resembles a kept one exactly when every beaten item is beaten by an unbeaten one. */
  lemma RemovedResembleKeptIff(items: seq<Item>, threshold: real)
    ensures (forall x: nat | x < |items| && x !in KeptIndices(items, |items|, threshold) ::
               ResemblesKept(items, x, threshold))
       <==> (forall x: nat | x < |items| && Beaten(items, x, threshold) :: BeatenByUnbeaten(items, x, threshold))
  {
    forall x: nat | x < |items|
      ensures x in KeptIndices(items, |items|, threshold) <==> !Beaten(items, x, threshold)
      ensures Beaten(items, x, threshold) ==>
                (ResemblesKept(items, x, threshold) <==> BeatenByUnbeaten(items, x, threshold))
    {
      KeptIffUnbeaten(items, |items|, x, threshold);
      if Beaten(items, x, threshold) {
        ResemblanceIsBeating(items, x, threshold);
      }
    }
  }

  lemma BetterIsTotal(items: seq<Item>, x: nat, y: nat)
    requires x < |items| && y < |items| && x != y
    ensures Better(items, x, y) || Better(items, y, x)
  {
  }

  lemma ResemblanceIsBeating(items: seq<Item>, x: nat, threshold: real)
    requires x < |items| && Beaten(items, x, threshold)
    ensures ResemblesKept(items, x, threshold) <==> BeatenByUnbeaten(items, x, threshold)
  {
    if ResemblesKept(items, x, threshold) {
      var y: nat :| y < |items| && y in KeptIndices(items, |items|, threshold)
        && Similar(items[x], items[y], threshold);
      KeptIffUnbeaten(items, |items|, y, threshold);
      JaccardIsSymmetric(items[x].grams, items[y].grams);
      BetterIsTotal(items, x, y);
    }
    if BeatenByUnbeaten(items, x, threshold) {
      var y: nat :| y < |items| && Better(items, y, x) && Similar(items[x], items[y], threshold)
        && !Beaten(items, y, threshold);
      KeptIffUnbeaten(items, |items|, y, threshold);
    }
  }

  ghost predicate SimilarityIsTransitive(items: seq<Item>, threshold: real) {
    forall x: nat, y: nat, z: nat
      | x < |items| && y < |items| && z < |items|
        && Similar(items[x], items[y], threshold) && Similar(items[y], items[z], threshold)
      :: Similar(items[x], items[z], threshold)
  }

  /** So it does where similarity is transitive on the list. */
  lemma {:induction false} TransitiveSimilarityReachesKept(items: seq<Item>, x: nat, threshold: real)
    requires SimilarityIsTransitive(items, threshold) && x < |items| && Beaten(items, x, threshold)
    ensures BeatenByUnbeaten(items, x, threshold)
    decreases BetterThan(items, x)
  {
    var y: nat :| y < |items| && Better(items, y, x) && Similar(items[x], items[y], threshold);
    if Beaten(items, y, threshold) {
      assert y in BetterThan(items, x) && y !in BetterThan(items, y);
      TransitiveSimilarityReachesKept(items, y, threshold);
      var z: nat :| z < |items| && Better(items, z, y) && Similar(items[y], items[z], threshold)
        && !Beaten(items, z, threshold);
      assert Better(items, z, x) && Similar(items[x], items[z], threshold);
    }
  }

  // ---------------------------------------------------------------- where the chain is needed

  /** The three characters from position `i` on. */
  function Gram(s: string, i: nat): string
    requires i + 3 <= |s|
  {
    s[i..i + 3]
  }

  /** `get_ngrams` of a text that is already normalised. */
  function Trigrams(text: string): set<string> {
    if |text| < 3 then {text} else set i: nat | i <= |text| - 3 :: Gram(text, i)
  }

  /** A text in which no character repeats. */
  ghost predicate AllDistinct(s: string) {
    forall i, j | 0 <= i < j < |s| :: s[i] != s[j]
  }

  /** The trigrams of `s` that start at positions from `lo` up to `hi`. */
  ghost function Window(s: string, lo: nat, hi: nat): set<string>
    requires lo <= hi <= |s| - 2
  {
    set i: nat | lo <= i < hi :: Gram(s, i)
  }

  lemma {:induction false} WindowSize(s: string, lo: nat, hi: nat)
    requires lo <= hi <= |s| - 2 && AllDistinct(s)
    ensures |Window(s, lo, hi)| == hi - lo
    decreases hi
  {
    if lo < hi {
      WindowSize(s, lo, hi - 1);
      assert Window(s, lo, hi) == Window(s, lo, hi - 1) + {Gram(s, hi - 1)};
      forall i: nat | lo <= i < hi - 1 ensures Gram(s, i) != Gram(s, hi - 1) {
        GramsDiffer(s, i, hi - 1);
      }
    }
  }

  lemma GramsDiffer(s: string, i: nat, j: nat)
    requires AllDistinct(s) && i + 3 <= |s| && j + 3 <= |s| && i != j
    ensures Gram(s, i) != Gram(s, j)
  {
    assert Gram(s, i)[0] == s[i] && Gram(s, j)[0] == s[j];
  }

  lemma GramOfSlice(s: string, a: nat, b: nat, i: nat)
    requires a <= b <= |s| && i + 3 <= b - a
    ensures Gram(s[a..b], i) == Gram(s, a + i)
  {
    var t := s[a..b];
    forall k: nat | k < 3 ensures Gram(t, i)[k] == Gram(s, a + i)[k] {
      assert Gram(t, i)[k] == t[i + k] == s[a + (i + k)];
      assert Gram(s, a + i)[k] == s[a + i + k];
    }
  }

  lemma SliceTrigrams(s: string, a: nat, b: nat)
    requires a + 3 <= b <= |s|
    ensures Trigrams(s[a..b]) == Window(s, a, b - 2)
  {
    var t := s[a..b];
    forall i: nat | i <= |t| - 3 ensures Gram(t, i) == Gram(s, a + i) {
      GramOfSlice(s, a, b, i);
    }
    forall g ensures g in Trigrams(t) <==> g in Window(s, a, b - 2) {
      if g in Trigrams(t) {
        var i: nat :| i <= |t| - 3 && Gram(t, i) == g;
        assert Gram(s, a + i) == g;
      }
      if g in Window(s, a, b - 2) {
        var i: nat :| a <= i < b - 2 && Gram(s, i) == g;
        assert Gram(t, i - a) == g;
      }
    }
  }

  /** Two overlapping stretches of such a text, the second starting later. */
  lemma OverlapJaccard(s: string, a: nat, b: nat, c: nat, d: nat)
    requires AllDistinct(s) && a <= b < c <= d && d <= |s| - 2
    ensures Jaccard(Window(s, a, c), Window(s, b, d)) == (c - b) as real / (d - a) as real
  {
    var x, y := Window(s, a, c), Window(s, b, d);
    assert x + y == Window(s, a, d);
    forall g ensures g in x && g in y <==> g in Window(s, b, c) {
      if g in x && g in y {
        var i: nat :| a <= i < c && Gram(s, i) == g;
        var j: nat :| b <= j < d && Gram(s, j) == g;
        if i != j {
          GramsDiffer(s, i, j);
        }
      }
    }
    assert x * y == Window(s, b, c);
    WindowSize(s, b, c);
    WindowSize(s, a, d);
    WindowSize(s, a, c);
    WindowSize(s, b, d);
  }

  const DEFAULT_THRESHOLD := 0.7

  /** A stretch of `n` trigrams and the one `k` places later. */
  lemma ShiftJaccard(s: string, a: nat, k: nat, n: nat)
    requires AllDistinct(s) && k < n && a + k + n <= |s| - 2
    ensures Jaccard(Window(s, a + k, a + k + n), Window(s, a, a + n)) == (n - k) as real / (n + k) as real
  {
    OverlapJaccard(s, a, a + k, a + n, a + k + n);
    JaccardIsSymmetric(Window(s, a, a + n), Window(s, a + k, a + k + n));
  }

  lemma OneApart(s: string, i: nat, a: Item, b: Item)
    requires AllDistinct(s) && i + 13 <= |s|
    requires a.grams == Trigrams(s[i..i + 12]) && b.grams == Trigrams(s[i + 1..i + 13])
    ensures Similar(b, a, DEFAULT_THRESHOLD)
  {
    SliceTrigrams(s, i, i + 12);
    SliceTrigrams(s, i + 1, i + 13);
    ShiftJaccard(s, i, 1, 10);
  }

  lemma TwoApart(s: string, i: nat, a: Item, c: Item)
    requires AllDistinct(s) && i + 14 <= |s|
    requires a.grams == Trigrams(s[i..i + 12]) && c.grams == Trigrams(s[i + 2..i + 14])
    ensures !Similar(c, a, DEFAULT_THRESHOLD)
  {
    SliceTrigrams(s, i, i + 12);
    SliceTrigrams(s, i + 2, i + 14);
    ShiftJaccard(s, i, 2, 10);
  }

  /** The chain is needed at the default threshold: a removed item may resemble no kept item at all. */
  lemma RemovedMayResembleNothingKept()
    ensures var items := [Item(3, Trigrams("abcdefghijkl")), Item(2, Trigrams("bcdefghijklm")),
                          Item(1, Trigrams("cdefghijklmn"))];
            && KeptIndices(items, 3, DEFAULT_THRESHOLD) == [0]
            && !ResemblesKept(items, 2, DEFAULT_THRESHOLD)
  {
    var s := "abcdefghijklmn";
    assert AllDistinct(s) by {
      forall i, j | 0 <= i < j < |s| ensures s[i] != s[j] {
        assert s[i] as int == 'a' as int + i && s[j] as int == 'a' as int + j;
      }
    }
    assert s[0..12] == "abcdefghijkl" && s[1..13] == "bcdefghijklm" && s[2..14] == "cdefghijklmn";
    var a, b, c := Item(3, Trigrams(s[0..12])), Item(2, Trigrams(s[1..13])), Item(1, Trigrams(s[2..14]));
    OneApart(s, 0, a, b);
    OneApart(s, 1, b, c);
    TwoApart(s, 0, a, c);
    OnlyFirstKept(a, b, c, DEFAULT_THRESHOLD);
  }

  lemma OnlyFirstKept(a: Item, b: Item, c: Item, threshold: real)
    requires a.score > b.score > c.score
    requires Similar(b, a, threshold) && Similar(c, b, threshold) && !Similar(c, a, threshold)
    ensures KeptIndices([a, b, c], 3, threshold) == [0] && !ResemblesKept([a, b, c], 2, threshold)
  {
    var items := [a, b, c];
    assert Better(items, 0, 1) && Better(items, 1, 2);
    assert !Beaten(items, 0, threshold) && Beaten(items, 1, threshold) && Beaten(items, 2, threshold);
    assert KeptIndices(items, 1, threshold) == KeptIndices(items, 0, threshold) + [0];
  }

  // ---------------------------------------------------------------- cross-source links

  class SourceItem {
    const id: string
    const kind: string
    const grams: set<string>
    const words: set<string>
    var crossRefs: seq<string>

    constructor (id: string, kind: string, grams: set<string>, words: set<string>)
      ensures this.id == id && this.kind == kind && this.grams == grams && this.words == words && crossRefs == []
    {
      this.id, this.kind, this.grams, this.words, crossRefs := id, kind, grams, words, [];
    }
  }

  function Hybrid(a: SourceItem, b: SourceItem): real {
    var trigrams, words := Jaccard(a.grams, b.grams), Jaccard(a.words, b.words);
    if trigrams >= words then trigrams else words
  }

  lemma HybridIsSymmetric(a: SourceItem, b: SourceItem)
    ensures Hybrid(a, b) == Hybrid(b, a)
  {
    JaccardIsSymmetric(a.grams, b.grams);
    JaccardIsSymmetric(a.words, b.words);
  }

  predicate Related(a: SourceItem, b: SourceItem, threshold: real) {
    a.kind != b.kind && Hybrid(a, b) >= threshold
  }

  /** Items of two kinds are related as soon as either similarity reaches the threshold. */
  lemma RelatedIff(a: SourceItem, b: SourceItem, threshold: real)
    ensures Related(a, b, threshold)
       <==> && a.kind != b.kind
            && (Jaccard(a.grams, b.grams) >= threshold || Jaccard(a.words, b.words) >= threshold)
  {
  }

  /** Some item of another kind with the id `x` is similar enough to `a`. */
  ghost predicate Linked(items: seq<SourceItem>, a: SourceItem, x: string, threshold: real) {
    exists b <- items :: b.id == x && Related(a, b, threshold)
  }

  /** The link of `a` to `x` comes from one of the pairs visited before `(i, j)`. */
  ghost predicate LinkedBefore(items: seq<SourceItem>, a: SourceItem, x: string, i: nat, j: nat, threshold: real) {
    exists p: nat, q: nat | p < q < |items| && Before((p, q), (i, j)) :: Links(items, a, x, p, q, threshold)
  }

  ghost predicate Links(items: seq<SourceItem>, a: SourceItem, x: string, p: nat, q: nat, threshold: real)
    requires p < |items| && q < |items|
  {
    && Related(items[p], items[q], threshold)
    && ((items[p] == a && items[q].id == x) || (items[q] == a && items[p].id == x))
  }

  ghost predicate NoRepeats(ids: seq<string>) {
    ids == [] || (ids[|ids| - 1] !in ids[..|ids| - 1] && NoRepeats(ids[..|ids| - 1]))
  }

  lemma AllPairsLink(items: seq<SourceItem>, a: SourceItem, x: string, threshold: real)
    requires a in items
    ensures LinkedBefore(items, a, x, |items|, 0, threshold) <==> Linked(items, a, x, threshold)
  {
    if Linked(items, a, x, threshold) {
      var b :| b in items && b.id == x && Related(a, b, threshold);
      var p: nat :| p < |items| && items[p] == a;
      var q: nat :| q < |items| && items[q] == b;
      HybridIsSymmetric(a, b);
      assert Links(items, a, x, if p < q then p else q, if p < q then q else p, threshold);
    }
    if LinkedBefore(items, a, x, |items|, 0, threshold) {
      var p: nat, q: nat :| p < q < |items| && Links(items, a, x, p, q, threshold);
      HybridIsSymmetric(items[p], items[q]);
    }
  }

  /** The ids the pairs visited before `(i, j)` link to `a`. */
  ghost function LinksBefore(items: seq<SourceItem>, a: SourceItem, i: nat, j: nat, threshold: real): iset<string> {
    iset x | LinkedBefore(items, a, x, i, j, threshold)
  }

  lemma NextPair(items: seq<SourceItem>, a: SourceItem, i: nat, j: nat, threshold: real)
    requires i < j < |items|
    ensures LinksBefore(items, a, i, j + 1, threshold)
         == LinksBefore(items, a, i, j, threshold) + iset x | Links(items, a, x, i, j, threshold)
  {
    forall x
      ensures LinkedBefore(items, a, x, i, j + 1, threshold)
         <==> LinkedBefore(items, a, x, i, j, threshold) || Links(items, a, x, i, j, threshold)
    {
      if Links(items, a, x, i, j, threshold) {
        assert Before((i, j), (i, j + 1));
      }
      if LinkedBefore(items, a, x, i, j, threshold) {
        var p: nat, q: nat :| p < q < |items| && Before((p, q), (i, j)) && Links(items, a, x, p, q, threshold);
        assert Before((p, q), (i, j + 1));
      }
    }
  }

  lemma NextRow(items: seq<SourceItem>, a: SourceItem, i: nat, j: nat, threshold: real)
    requires i < |items| && j <= i + 2
    ensures LinksBefore(items, a, i + 1, j, threshold) == LinksBefore(items, a, i, |items|, threshold)
  {
    assert forall p: nat, q: nat | p < q < |items| :: Before((p, q), (i + 1, j)) <==> Before((p, q), (i, |items|));
    assert forall x ::
        LinkedBefore(items, a, x, i + 1, j, threshold) <==> LinkedBefore(items, a, x, i, |items|, threshold);
  }

  ghost function Ids(refs: seq<string>): iset<string> {
    iset x | x in refs
  }

  /** `refs` extends `start` by the ids in `links` it did not hold yet. */
  ghost predicate Extends(refs: seq<string>, start: seq<string>, links: iset<string>) {
    && start <= refs
    && Ids(refs) == Ids(start) + links
    && (NoRepeats(start) ==> NoRepeats(refs))
    && (links <= Ids(start) ==> refs == start)
  }

  function Added(refs: seq<string>, x: string): seq<string> {
    if x in refs then refs else refs + [x]
  }

  lemma AddedExtends(refs: seq<string>, start: seq<string>, links: iset<string>, x: string)
    requires Extends(refs, start, links)
    ensures Extends(Added(refs, x), start, links + iset{x})
  {
    assert Ids(Added(refs, x)) == Ids(refs) + iset{x};
    assert (refs + [x])[..|refs|] == refs;
  }

  /** What visiting the pair `(p, q)` makes of the references of `a`. */
  function AfterPair(
    items: seq<SourceItem>, a: SourceItem, refs: seq<string>, p: nat, q: nat, threshold: real): seq<string>
    requires p < |items| && q < |items|
  {
    if !Related(items[p], items[q], threshold) then refs
    else if items[p] == a then Added(refs, items[q].id)
    else if items[q] == a then Added(refs, items[p].id)
    else refs
  }

  /** The references of `a`, which were `start`, once the pairs before `(i, j)` have been visited in order. */
  function RefsBefore(
    items: seq<SourceItem>, a: SourceItem, start: seq<string>, i: nat, j: nat, threshold: real): seq<string>
    requires i <= |items| && j <= |items| && (i == |items| ==> j == 0)
    decreases i, j
  {
    if j > i + 1 then AfterPair(items, a, RefsBefore(items, a, start, i, j - 1, threshold), i, j - 1, threshold)
    else if i > 0 then RefsBefore(items, a, start, i - 1, |items|, threshold)
    else start
  }

  lemma PairExtends(
    items: seq<SourceItem>, a: SourceItem, refs: seq<string>, start: seq<string>, i: nat, j: nat, threshold: real)
    requires i < j < |items| && Extends(refs, start, LinksBefore(items, a, i, j, threshold))
    ensures Extends(AfterPair(items, a, refs, i, j, threshold), start, LinksBefore(items, a, i, j + 1, threshold))
  {
    NextPair(items, a, i, j, threshold);
    var before := LinksBefore(items, a, i, j, threshold);
    var added := iset x | Links(items, a, x, i, j, threshold);
    if Related(items[i], items[j], threshold) && items[i] == a {
      assert added == iset{items[j].id};
      AddedExtends(refs, start, before, items[j].id);
    } else if Related(items[i], items[j], threshold) && items[j] == a {
      assert added == iset{items[i].id};
      AddedExtends(refs, start, before, items[i].id);
    } else {
      assert added == iset{};
      assert before + added == before;
    }
  }

  lemma PairStep(items: seq<SourceItem>, a: SourceItem, start: seq<string>, i: nat, j: nat, threshold: real)
    requires i + 1 < j <= |items|
    requires Extends(RefsBefore(items, a, start, i, j - 1, threshold), start,
                     LinksBefore(items, a, i, j - 1, threshold))
    ensures Extends(RefsBefore(items, a, start, i, j, threshold), start, LinksBefore(items, a, i, j, threshold))
  {
    var k: nat := j - 1;
    var refs := RefsBefore(items, a, start, i, k, threshold);
    assert RefsBefore(items, a, start, i, k + 1, threshold) == AfterPair(items, a, refs, i, k, threshold);
    PairExtends(items, a, refs, start, i, k, threshold);
  }

  lemma RowStep(items: seq<SourceItem>, a: SourceItem, start: seq<string>, i: nat, j: nat, threshold: real)
    requires 0 < i <= |items| && j <= |items| && j <= i + 1 && (i == |items| ==> j == 0)
    requires Extends(RefsBefore(items, a, start, i - 1, |items|, threshold), start,
                     LinksBefore(items, a, i - 1, |items|, threshold))
    ensures Extends(RefsBefore(items, a, start, i, j, threshold), start, LinksBefore(items, a, i, j, threshold))
  {
    NextRow(items, a, i - 1, j, threshold);
  }

  lemma {:induction false} RefsExtend(
    items: seq<SourceItem>, a: SourceItem, start: seq<string>, i: nat, j: nat, threshold: real)
    requires i <= |items| && j <= |items| && (i == |items| ==> j == 0)
    ensures Extends(RefsBefore(items, a, start, i, j, threshold), start, LinksBefore(items, a, i, j, threshold))
    decreases i, j
  {
    if j > i + 1 {
      RefsExtend(items, a, start, i, j - 1, threshold);
      PairStep(items, a, start, i, j, threshold);
    } else if i > 0 {
      RefsExtend(items, a, start, i - 1, |items|, threshold);
      RowStep(items, a, start, i, j, threshold);
    } else {
      NothingLinked(items, a, j, threshold);
      NothingExtends(start);
    }
  }

  lemma NothingLinked(items: seq<SourceItem>, a: SourceItem, j: nat, threshold: real)
    requires j <= 1
    ensures LinksBefore(items, a, 0, j, threshold) == iset{}
  {
    assert forall x :: !LinkedBefore(items, a, x, 0, j, threshold);
  }

  lemma NothingExtends(start: seq<string>)
    ensures Extends(start, start, iset{})
  {
  }

  /** The references every item ends up with. */
  ghost function AllRefs(items: seq<SourceItem>, a: SourceItem, start: seq<string>, threshold: real): seq<string> {
    RefsBefore(items, a, start, |items|, 0, threshold)
  }

  /**
    They are the references the item started with and exactly the ids of the items related to it, without
    new repeats; when those are there already nothing is added.
   */
  lemma LinksAreExact(items: seq<SourceItem>, a: SourceItem, start: seq<string>, threshold: real)
    requires a in items
    ensures var refs := AllRefs(items, a, start, threshold);
            && start <= refs
            && (forall x :: x in refs <==> x in start || Linked(items, a, x, threshold))
            && (NoRepeats(start) ==> NoRepeats(refs))
            && ((forall x | Linked(items, a, x, threshold) :: x in start) ==> refs == start)
  {
    var links := LinksBefore(items, a, |items|, 0, threshold);
    RefsExtend(items, a, start, |items|, 0, threshold);
    forall x ensures x in links <==> Linked(items, a, x, threshold) {
      AllPairsLink(items, a, x, threshold);
    }
    var refs := AllRefs(items, a, start, threshold);
    assert forall x :: x in refs <==> x in Ids(refs);
    assert forall x :: x in start <==> x in Ids(start);
  }

  /** Linking again changes nothing. */
  lemma LinkingIsIdempotent(items: seq<SourceItem>, a: SourceItem, start: seq<string>, threshold: real)
    requires a in items
    ensures AllRefs(items, a, AllRefs(items, a, start, threshold), threshold) == AllRefs(items, a, start, threshold)
  {
    LinksAreExact(items, a, start, threshold);
    LinksAreExact(items, a, AllRefs(items, a, start, threshold), threshold);
  }

  /** `if id not in cross_refs: cross_refs.append(id)` */
  method AddRef(a: SourceItem, x: string)
    modifies a
    ensures a.crossRefs == Added(old(a.crossRefs), x)
  {
    if x !in a.crossRefs {
      a.crossRefs := a.crossRefs + [x];
    }
  }

  method LinkPair(items: seq<SourceItem>, i: nat, j: nat, threshold: real)
    requires i < j < |items|
    modifies items[i], items[j]
    ensures forall a <- items :: a.crossRefs == AfterPair(items, a, old(a.crossRefs), i, j, threshold)
  {
    var a, b := items[i], items[j];
    if a.kind != b.kind && Hybrid(a, b) >= threshold {
      AddRef(a, b.id);
      AddRef(b, a.id);
    }
  }

  method CrossSourceLink(items: seq<SourceItem>, threshold: real)
    modifies items
    ensures forall a <- items :: a.crossRefs == AllRefs(items, a, old(a.crossRefs), threshold)
  {
    for i := 0 to |items|
      invariant forall a <- items :: a.crossRefs == RefsBefore(items, a, old(a.crossRefs), i, 0, threshold)
    {
      forall a <- items
        ensures RefsBefore(items, a, old(a.crossRefs), i, i + 1, threshold)
             == RefsBefore(items, a, old(a.crossRefs), i, 0, threshold)
      {
        StartRow(items, a, old(a.crossRefs), i, threshold);
      }
      for j := i + 1 to |items|
        invariant forall a <- items :: a.crossRefs == RefsBefore(items, a, old(a.crossRefs), i, j, threshold)
      {
        LinkPair(items, i, j, threshold);
      }
      forall a <- items
        ensures RefsBefore(items, a, old(a.crossRefs), i + 1, 0, threshold)
             == RefsBefore(items, a, old(a.crossRefs), i, |items|, threshold)
      {
        EndRow(items, a, old(a.crossRefs), i, threshold);
      }
    }
  }

  lemma StartRow(items: seq<SourceItem>, a: SourceItem, start: seq<string>, i: nat, threshold: real)
    requires i < |items|
    ensures RefsBefore(items, a, start, i, i + 1, threshold) == RefsBefore(items, a, start, i, 0, threshold)
  {
  }

  lemma EndRow(items: seq<SourceItem>, a: SourceItem, start: seq<string>, i: nat, threshold: real)
    requires i < |items|
    ensures RefsBefore(items, a, start, i + 1, 0, threshold) == RefsBefore(items, a, start, i, |items|, threshold)
  {
  }

  /** Every id an item gains is that of an item of another kind, which refers back. */
  lemma LinksAreMutual(
    items: seq<SourceItem>, start: map<SourceItem, seq<string>>, a: SourceItem, x: string, threshold: real)
    returns (b: SourceItem)
    requires forall c <- items :: c in start
    requires a in items && x in AllRefs(items, a, start[a], threshold) && x !in start[a]
    ensures b in items && b.id == x && b.kind != a.kind
    ensures a.id in AllRefs(items, b, start[b], threshold)
  {
    LinksAreExact(items, a, start[a], threshold);
    b :| b in items && b.id == x && Related(a, b, threshold);
    HybridIsSymmetric(a, b);
    LinksAreExact(items, b, start[b], threshold);
    assert Linked(items, b, a.id, threshold);
  }
}
