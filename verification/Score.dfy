/**
  Popularity-aware scoring: engagement normalisation, the weighted score of an item, and the place an
  item takes in the sorted list.  Engagement figures are already on their logarithmic scale.
 */
module Score {
  import opened Options

  // ---------------------------------------------------------------- normalisation

  ghost predicate AllEqual(values: seq<Option<real>>) {
    forall i, j | 0 <= i < |values| && 0 <= j < |values| && values[i].Some? && values[j].Some? :: values[i] == values[j]
  }

  /** The figures are mapped onto 0..100 in their own order, the least to 0 and the greatest to 100. */
  ghost predicate IsNormalised(result: seq<Option<real>>, values: seq<Option<real>>) {
    && |result| == |values|
    && if AllEqual(values) then forall i | 0 <= i < |values| :: result[i] == Some(50.0)
       else
         && (forall i | 0 <= i < |values| :: result[i].Some? <==> values[i].Some?)
         && (forall i | 0 <= i < |values| && values[i].Some? :: 0.0 <= result[i].value <= 100.0)
         && (forall i, j | 0 <= i < |values| && 0 <= j < |values| && values[i].Some? && values[j].Some? ::
               result[i].value < result[j].value <==> values[i].value < values[j].value)
         && (exists low: nat, high: nat :: ScaledBetween(result, values, low, high))
  }

  /** Linear between the least figure, which goes to 0, and the greatest, which goes to 100. */
  ghost predicate ScaledBetween(result: seq<Option<real>>, values: seq<Option<real>>, low: nat, high: nat) {
    && |result| == |values| && AreExtremes(values, low, high) && values[low].value < values[high].value
    && result[low] == Some(0.0) && result[high] == Some(100.0)
    && forall i | 0 <= i < |values| && values[i].Some? ::
         result[i] == Some(Scaled(values[i].value, values[low].value, values[high].value - values[low].value))
  }

  ghost predicate AreExtremes(values: seq<Option<real>>, low: nat, high: nat) {
    && low < |values| && high < |values| && values[low].Some? && values[high].Some?
    && forall i | 0 <= i < |values| && values[i].Some? :: values[low].value <= values[i].value <= values[high].value
  }

  function Scaled(v: real, least: real, range: real): real
    requires range != 0.0
  {
    (v - least) / range * 100.0
  }

  lemma ScaledKeepsOrder(v: real, w: real, least: real, range: real)
    requires range > 0.0
    ensures Scaled(v, least, range) < Scaled(w, least, range) <==> v < w
    ensures Scaled(least, least, range) == 0.0 && Scaled(least + range, least, range) == 100.0
  {
    var x, y := (v - least) / range, (w - least) / range;
    assert x * range == v - least && y * range == w - least;
    if x < y {
      assert (y - x) * range > 0.0;
    } else {
      assert (x - y) * range >= 0.0;
    }
    assert (least + range - least) / range == 1.0;
  }

  /** `min` and `max` over the figures present. */
  method Extremes(values: seq<Option<real>>) returns (low: Option<nat>, high: nat)
    ensures low.None? ==> forall i | 0 <= i < |values| :: values[i].None?
    ensures low.Some? ==>
              && low.value < |values| && high < |values| && values[low.value].Some? && values[high].Some?
              && forall i | 0 <= i < |values| && values[i].Some? ::
                   values[low.value].value <= values[i].value <= values[high].value
  {
    low, high := None, 0;
    var i := 0;
    while i < |values|
      invariant 0 <= i <= |values|
      invariant low.None? ==> forall j | 0 <= j < i :: values[j].None?
      invariant low.Some? ==>
                  && low.value < i && high < i && values[low.value].Some? && values[high].Some?
                  && forall j | 0 <= j < i && values[j].Some? ::
                       values[low.value].value <= values[j].value <= values[high].value
    {
      if values[i].Some? {
        if low.None? {
          low, high := Some(i), i;
        } else if values[i].value < values[low.value].value {
          low := Some(i);
        } else if values[i].value > values[high].value {
          high := i;
        }
      }
      i := i + 1;
    }
  }

  method NormalizeTo100(values: seq<Option<real>>) returns (result: seq<Option<real>>)
    ensures IsNormalised(result, values)
  {
    var low, high := Extremes(values);
    if low.None? || values[high].value - values[low.value].value == 0.0 {
      return seq(|values|, _ => Some(50.0));
    }
    var least := values[low.value].value;
    var range := values[high].value - least;
    result := [];
    var i := 0;
    while i < |values|
      invariant 0 <= i <= |values| && |result| == i
      invariant forall j | 0 <= j < i ::
                  result[j] == if values[j].Some? then Some(Scaled(values[j].value, least, range)) else None
    {
      result := result + [if values[i].Some? then Some(Scaled(values[i].value, least, range)) else None];
      i := i + 1;
    }
    ScaledIsNormalised(values, result, low.value, high);
  }

  lemma ScaledIsNormalised(values: seq<Option<real>>, result: seq<Option<real>>, low: nat, high: nat)
    requires |result| == |values| && AreExtremes(values, low, high) && values[low].value < values[high].value
    requires var least, range := values[low].value, values[high].value - values[low].value;
             forall i | 0 <= i < |values| ::
               result[i] == if values[i].Some? then Some(Scaled(values[i].value, least, range)) else None
    ensures IsNormalised(result, values)
  {
    var least, range := values[low].value, values[high].value - values[low].value;
    assert values[low] != values[high];
    forall i, j | 0 <= i < |values| && 0 <= j < |values| && values[i].Some? && values[j].Some?
      ensures result[i].value < result[j].value <==> values[i].value < values[j].value
    {
      ScaledKeepsOrder(values[i].value, values[j].value, least, range);
    }
    ScaledKeepsOrder(least, least + range, least, range);
    assert ScaledBetween(result, values, low, high);
    forall i | 0 <= i < |values| && values[i].Some? ensures 0.0 <= result[i].value <= 100.0 {
      assert !(result[i].value < result[low].value) && !(result[high].value < result[i].value);
    }
  }

  // ---------------------------------------------------------------- the score of an item

  datatype Weights = Weights(relevance: real, recency: real, engagement: real)

  const SOCIAL := Weights(0.45, 0.25, 0.30)

  const POLYMARKET := Weights(0.60, 0.20, 0.20)

  const DEFAULT_ENGAGEMENT := 35

  const UNKNOWN_ENGAGEMENT_PENALTY := 3.0

  datatype Confidence = Low | Med | High

  /** `int(x)` */
  function Truncate(x: real): int {
    if x >= 0.0 then x.Floor else -((-x).Floor)
  }

  function Clamp(x: int): (y: int)
    ensures 0 <= y <= 100
  {
    if x < 0 then 0 else if x > 100 then 100 else x
  }

  function DatePenalty(confidence: Confidence): real {
    match confidence
    case Low => 5.0
    case Med => 2.0
    case High => 0.0
  }

  /** The score, `rest` being what the item's other fields contribute. */
  function ScoreOf(weight: real, relevance: real, rest: real): int {
    Final(weight, Truncate(relevance * 100.0) as real, rest)
  }

  /** `max(0, min(100, int(overall)))` */
  function Final(weight: real, points: real, rest: real): int {
    Clamp(Truncate(weight * points + rest))
  }

  /** What the recency, the engagement and the penalties contribute. */
  function Remainder(w: Weights, recency: int, normalised: Option<real>, known: bool, c: Confidence): real {
    var engagement := if normalised.Some? then Truncate(normalised.value) else DEFAULT_ENGAGEMENT;
    w.recency * recency as real + w.engagement * engagement as real
    - (if known then 0.0 else UNKNOWN_ENGAGEMENT_PENALTY) - DatePenalty(c)
  }

  /** Towards zero: the fraction is dropped on either side. */
  lemma TruncateDropsFraction(x: real)
    ensures x >= 0.0 ==> 0.0 <= x - Truncate(x) as real < 1.0
    ensures x <= 0.0 ==> -1.0 < x - Truncate(x) as real <= 0.0
  {
  }

  lemma TruncateIsMonotone(x: real, y: real)
    requires x <= y
    ensures Truncate(x) <= Truncate(y)
  {
  }

  /** A higher relevance never lowers the score. */
  lemma ScoreIsMonotone(weight: real, relevance: real, higher: real, rest: real)
    requires weight >= 0.0 && relevance <= higher
    ensures ScoreOf(weight, relevance, rest) <= ScoreOf(weight, higher, rest)
  {
    TruncateIsMonotone(relevance * 100.0, higher * 100.0);
    FinalIsMonotone(weight, Truncate(relevance * 100.0) as real, Truncate(higher * 100.0) as real, rest);
  }

  lemma FinalIsMonotone(weight: real, points: real, more: real, rest: real)
    requires weight >= 0.0 && points <= more
    ensures Final(weight, points, rest) <= Final(weight, more, rest)
  {
    var low, high := ProductIsMonotone(weight, points, more);
    TruncateIsMonotone(low + rest, high + rest);
  }

  lemma ProductIsMonotone(w: real, a: real, b: real) returns (low: real, high: real)
    requires w >= 0.0 && a <= b
    ensures low == w * a && high == w * b && low <= high
  {
    low, high := w * a, w * b;
  }

  /**
    The weights share out one whole, and each of the three parts has its own: an item that is at its best in
    one of them and at its worst in the other two scores exactly that weight.
   */
  lemma WeightsAreShares(w: Weights, relevance: int, recency: int, engagement: int)
    requires || (w == SOCIAL && relevance == 45 && recency == 25 && engagement == 30)
             || (w == POLYMARKET && relevance == 60 && recency == 20 && engagement == 20)
    ensures ScoreOf(w.relevance, 1.0, Remainder(w, 100, Some(100.0), true, High)) == 100
    ensures ScoreOf(w.relevance, 1.0, Remainder(w, 0, Some(0.0), true, High)) == relevance
    ensures ScoreOf(w.relevance, 0.0, Remainder(w, 100, Some(0.0), true, High)) == recency
    ensures ScoreOf(w.relevance, 0.0, Remainder(w, 0, Some(100.0), true, High)) == engagement
  {
    assert Truncate(1.0 * 100.0) == 100 && Truncate(100.0) == 100 && Truncate(0.0) == 0 && Truncate(0.0 * 100.0) == 0;
    assert Remainder(w, 100, Some(100.0), true, High) == 100.0 * (w.recency + w.engagement);
  }

  /**
    A point of recency counts its weight, a point of engagement its own; a missing engagement figure counts as
    35 points less 3, an uncertain date costs 5 points and a medium one 2.
   */
  lemma PointsCount(w: Weights, recency: int, points: nat)
    ensures Remainder(w, recency + 1, Some(points as real), true, High)
         == Remainder(w, recency, Some(points as real), true, High) + w.recency
    ensures Remainder(w, recency, Some((points + 1) as real), true, High)
         == Remainder(w, recency, Some(points as real), true, High) + w.engagement
    ensures Remainder(w, recency, None, false, High) == Remainder(w, recency, Some(35.0), true, High) - 3.0
  {
    assert Truncate((points + 1) as real) == points + 1 && Truncate(points as real) == points;
    assert Truncate(35.0) == 35;
    assert w.recency * (recency + 1) as real == w.recency * recency as real + w.recency;
    assert w.engagement * (points + 1) as real == w.engagement * points as real + w.engagement;
  }

  lemma UncertainDatesCost(w: Weights, recency: int, normalised: Option<real>, known: bool)
    ensures Remainder(w, recency, normalised, known, Low) == Remainder(w, recency, normalised, known, High) - 5.0
    ensures Remainder(w, recency, normalised, known, Med) == Remainder(w, recency, normalised, known, High) - 2.0
  {
  }

  /** The weighted points of an item, in hundredths: three shares, and what is missing or uncertain taken off. */
  function Hundredths(social: bool, relevance: nat, recency: int, engagement: Option<nat>, c: Confidence): int {
    var e := if engagement.Some? then engagement.value else 35;
    (if social then 45 * relevance + 25 * recency + 30 * e else 60 * relevance + 20 * recency + 20 * e)
    - (if engagement.Some? then 0 else 300) - (match c case Low => 500 case Med => 200 case High => 0)
  }

  lemma RemainderInHundredths(social: bool, recency: int, engagement: Option<nat>, c: Confidence)
    ensures var w := if social then SOCIAL else POLYMARKET;
            var normalised := if engagement.Some? then Some(engagement.value as real) else None;
            100.0 * Remainder(w, recency, normalised, engagement.Some?, c)
            == Hundredths(social, 0, recency, engagement, c) as real
  {
    if engagement.Some? {
      assert Truncate(engagement.value as real) == engagement.value;
    }
  }

  /** For relevances in whole percent the score is that many points, rounded down and never below 0 or above 100. */
  lemma ScoreInHundredths(social: bool, relevance: nat, recency: int, engagement: Option<nat>, c: Confidence)
    returns (points: int)
    ensures points == Hundredths(social, relevance, recency, engagement, c)
    ensures var w := if social then SOCIAL else POLYMARKET;
            var normalised := if engagement.Some? then Some(engagement.value as real) else None;
            var score := ScoreOf(w.relevance, relevance as real / 100.0,
                                 Remainder(w, recency, normalised, engagement.Some?, c));
            score == if points < 0 then 0 else if points >= 10_000 then 100 else points / 100
  {
    points := Hundredths(social, relevance, recency, engagement, c);
    RemainderInHundredths(social, recency, engagement, c);
    assert (relevance as real / 100.0) * 100.0 == relevance as real;
    assert Truncate(relevance as real) == relevance;
    TruncatedHundredths(points);
  }

  lemma TruncatedHundredths(points: int)
    ensures points >= 0 ==> Truncate(points as real / 100.0) == points / 100
    ensures points < 0 ==> Truncate(points as real / 100.0) <= 0
  {
    TruncateDropsFraction(points as real / 100.0);
  }

  class SourceItem {
    const relevance: real
    const recency: int
    const engagement: Option<real>
    const confidence: Confidence
    var score: int

    constructor (relevance: real, recency: int, engagement: Option<real>, confidence: Confidence)
      ensures this.relevance == relevance && this.recency == recency
      ensures this.engagement == engagement && this.confidence == confidence && score == 0
    {
      this.relevance, this.recency, this.engagement, this.confidence := relevance, recency, engagement, confidence;
      score := 0;
    }
  }

  function RawEngagements(items: seq<SourceItem>): (raw: seq<Option<real>>)
    ensures |raw| == |items| && forall i | 0 <= i < |items| :: raw[i] == items[i].engagement
  {
    seq(|items|, i requires 0 <= i < |items| => items[i].engagement)
  }

  function ItemScore(item: SourceItem, normalised: Option<real>, w: Weights): int {
    ScoreOf(w.relevance, item.relevance,
            Remainder(w, item.recency, normalised, item.engagement.Some?, item.confidence))
  }

  /** An item listed twice is scored twice, to the same figure. */
  method ScoreItems(items: seq<SourceItem>, w: Weights)
    modifies items
    ensures exists normalised :: IsNormalised(normalised, RawEngagements(items))
              && forall i | 0 <= i < |items| :: items[i].score == ItemScore(items[i], normalised[i], w)
    ensures forall item <- items :: 0 <= item.score <= 100
  {
    var raw := RawEngagements(items);
    var normalised := NormalizeTo100(raw);
    var i := 0;
    while i < |items|
      invariant 0 <= i <= |items|
      invariant forall j | 0 <= j < i :: items[j].score == ItemScore(items[j], normalised[j], w)
    {
      var item := items[i];
      forall j | 0 <= j < |items| && items[j] == item ensures normalised[j] == normalised[i] {
        EqualFiguresNormaliseEqually(raw, normalised, i, j);
      }
      item.score := ItemScore(item, normalised[i], w);
      i := i + 1;
    }
  }

  lemma EqualFiguresNormaliseEqually(values: seq<Option<real>>, result: seq<Option<real>>, i: nat, j: nat)
    requires IsNormalised(result, values) && i < |values| && j < |values| && values[i] == values[j]
    ensures result[i] == result[j]
  {
    if !AllEqual(values) && values[i].Some? {
      assert !(result[i].value < result[j].value) && !(result[j].value < result[i].value);
    }
  }

  // ---------------------------------------------------------------- the place of an item

  datatype Ranked = Ranked(score: int, date: int, priority: int, text: string)

  predicate TextLess(a: string, b: string) {
    if b == "" then false
    else if a == "" then true
    else a[0] < b[0] || (a[0] == b[0] && TextLess(a[1..], b[1..]))
  }

  lemma {:induction false} TextLessIsAsymmetric(a: string, b: string)
    ensures !(TextLess(a, b) && TextLess(b, a))
    ensures a == b ==> !TextLess(a, b)
  {
    if a != "" && b != "" {
      TextLessIsAsymmetric(a[1..], b[1..]);
    }
  }

  /** The four-part key: score and date descending, then source priority, then text. */
  predicate KeyLess(a: Ranked, b: Ranked) {
    || a.score > b.score
    || (a.score == b.score && a.date > b.date)
    || (a.score == b.score && a.date == b.date && a.priority < b.priority)
    || (a.score == b.score && a.date == b.date && a.priority == b.priority && TextLess(a.text, b.text))
  }

  /** Item `i` comes before item `j`; equal keys keep their order. */
  predicate Before(items: seq<Ranked>, i: nat, j: nat)
    requires i < |items| && j < |items|
  {
    KeyLess(items[i], items[j]) || (!KeyLess(items[j], items[i]) && i < j)
  }

  lemma BeforeIsAsymmetric(items: seq<Ranked>, i: nat, j: nat)
    requires i < |items| && j < |items|
    ensures !(Before(items, i, j) && Before(items, j, i))
  {
    TextLessIsAsymmetric(items[i].text, items[j].text);
  }

  /** A stable sort of the items by their keys, as a sequence of indices. */
  ghost predicate IsStableSort(order: seq<nat>, items: seq<Ranked>) {
    && (forall k | 0 <= k < |order| :: order[k] < |items|)
    && (forall i: nat | i < |items| :: i in order)
    && (forall a, b | 0 <= a < b < |order| :: order[a] != order[b] && Before(items, order[a], order[b]))
  }

  lemma {:induction false} TextLessIsTotal(a: string, b: string)
    ensures TextLess(a, b) || TextLess(b, a) || a == b
  {
    if a != "" && b != "" {
      TextLessIsTotal(a[1..], b[1..]);
      assert a == [a[0]] + a[1..] && b == [b[0]] + b[1..];
    }
  }

  lemma {:induction false} TextLessIsTransitive(a: string, b: string, c: string)
    requires TextLess(a, b) && TextLess(b, c)
    ensures TextLess(a, c)
  {
    if a != "" {
      if a[0] == b[0] == c[0] {
        TextLessIsTransitive(a[1..], b[1..], c[1..]);
      }
    }
  }

  lemma KeyLessIsTransitive(a: Ranked, b: Ranked, c: Ranked)
    requires KeyLess(a, b) && KeyLess(b, c)
    ensures KeyLess(a, c)
  {
    if TextLess(a.text, b.text) && TextLess(b.text, c.text) {
      TextLessIsTransitive(a.text, b.text, c.text);
    }
  }

  lemma KeyLessIsTotal(a: Ranked, b: Ranked)
    ensures KeyLess(a, b) || KeyLess(b, a) || a == b
    ensures !(KeyLess(a, b) && KeyLess(b, a))
  {
    TextLessIsTotal(a.text, b.text);
    TextLessIsAsymmetric(a.text, b.text);
  }

  lemma BeforeIsTransitive(items: seq<Ranked>, i: nat, j: nat, k: nat)
    requires i < |items| && j < |items| && k < |items| && Before(items, i, j) && Before(items, j, k)
    ensures Before(items, i, k)
  {
    KeyLessIsTotal(items[i], items[j]);
    KeyLessIsTotal(items[j], items[k]);
    KeyLessIsTotal(items[i], items[k]);
    if KeyLess(items[i], items[j]) && KeyLess(items[j], items[k]) {
      KeyLessIsTransitive(items[i], items[j], items[k]);
    }
  }

  lemma BeforeIsTotal(items: seq<Ranked>, i: nat, j: nat)
    requires i < |items| && j < |items| && i != j
    ensures Before(items, i, j) || Before(items, j, i)
  {
    KeyLessIsTotal(items[i], items[j]);
  }

  /** `sorted(items, key=sort_key)`, as the indices of the items in their sorted order. */
  function SortItems(items: seq<Ranked>): (order: seq<nat>) {
    SortFirst(items, |items|)
  }

  function SortFirst(items: seq<Ranked>, n: nat): (order: seq<nat>)
    requires n <= |items|
    ensures forall k | 0 <= k < |order| :: order[k] < n
  {
    if n == 0 then [] else InsertIndex(items, n - 1, SortFirst(items, n - 1))
  }

  function InsertIndex(items: seq<Ranked>, i: nat, order: seq<nat>): (inserted: seq<nat>)
    requires i < |items| && forall k | 0 <= k < |order| :: order[k] < i
    ensures forall k | 0 <= k < |inserted| :: inserted[k] <= i
  {
    if order == [] || Before(items, i, order[0]) then [i] + order
    else [order[0]] + InsertIndex(items, i, order[1..])
  }

  ghost predicate InOrder(items: seq<Ranked>, order: seq<nat>) {
    && (forall k | 0 <= k < |order| :: order[k] < |items|)
    && (forall a, b | 0 <= a < b < |order| :: Before(items, order[a], order[b]))
  }

  lemma {:induction false} InsertKeepsOrder(items: seq<Ranked>, i: nat, order: seq<nat>)
    requires i < |items| && InOrder(items, order) && forall k | 0 <= k < |order| :: order[k] < i
    ensures InOrder(items, InsertIndex(items, i, order))
    ensures forall x :: x in InsertIndex(items, i, order) <==> x == i || x in order
  {
    if order == [] {
    } else if Before(items, i, order[0]) {
      forall b | 0 < b < |order| ensures Before(items, i, order[b]) {
        BeforeIsTransitive(items, i, order[0], order[b]);
      }
    } else {
      var rest := InsertIndex(items, i, order[1..]);
      InsertKeepsOrder(items, i, order[1..]);
      BeforeIsTotal(items, i, order[0]);
      assert order == [order[0]] + order[1..];
      forall b | 0 <= b < |rest| ensures Before(items, order[0], rest[b]) {
        assert rest[b] in rest;
        if rest[b] != i {
          var k :| 0 <= k < |order[1..]| && order[1..][k] == rest[b];
          assert order[k + 1] == rest[b];
        }
      }
    }
  }

  lemma {:induction false} SortFirstIsInOrder(items: seq<Ranked>, n: nat)
    requires n <= |items|
    ensures InOrder(items, SortFirst(items, n))
    ensures forall x: nat :: x in SortFirst(items, n) <==> x < n
  {
    if n > 0 {
      SortFirstIsInOrder(items, n - 1);
      InsertKeepsOrder(items, n - 1, SortFirst(items, n - 1));
    }
  }

  /** The result is a permutation of the items, sorted by the four-part key, in which equal keys keep their order. */
  lemma SortItemsIsStable(items: seq<Ranked>)
    ensures IsStableSort(SortItems(items), items)
  {
    var order := SortItems(items);
    SortFirstIsInOrder(items, |items|);
    forall a, b | 0 <= a < b < |order| ensures order[a] != order[b] {
      BeforeIsAsymmetric(items, order[a], order[b]);
    }
  }

  /** Down the sorted list scores fall; among equal scores dates fall; then priorities rise, and then texts. */
  lemma SortedByFourKeys(items: seq<Ranked>, p: nat, q: nat)
    requires p < q < |SortItems(items)|
    ensures SortItems(items)[p] < |items| && SortItems(items)[q] < |items|
    ensures var a, b := items[SortItems(items)[p]], items[SortItems(items)[q]];
            && a.score >= b.score
            && (a.score == b.score ==> a.date >= b.date)
            && (a.score == b.score && a.date == b.date ==> a.priority <= b.priority)
            && (a.score == b.score && a.date == b.date && a.priority == b.priority ==> !TextLess(b.text, a.text))
  {
    SortItemsIsStable(items);
    TextLessIsAsymmetric(items[SortItems(items)[p]].text, items[SortItems(items)[q]].text);
  }

  lemma DiffersLater(a: string, b: string)
    ensures forall n: nat :: DiffersAt(a, b, n) && n > 0 ==> a[0] == b[0]
  {
    forall n: nat | DiffersAt(a, b, n) && n > 0 ensures a[0] == b[0] {
      assert a[..n][0] == b[..n][0];
    }
  }

  /** The first letter that differs decides which text is less; a text that ends there comes first. */
  lemma TextLessIff(a: string, b: string)
    ensures TextLess(a, b) <==> exists n: nat :: DiffersAt(a, b, n)
  {
    if a != "" && b != "" {
      if a[0] == b[0] {
        TextLessIff(a[1..], b[1..]);
        if n: nat :| DiffersAt(a[1..], b[1..], n) {
          assert a[..n + 1] == [a[0]] + a[1..][..n] && b[..n + 1] == [b[0]] + b[1..][..n];
          assert DiffersAt(a, b, n + 1);
        }
        if n: nat :| DiffersAt(a, b, n) {
          assert n > 0;
          assert a[1..][..n - 1] == a[..n][1..] && b[1..][..n - 1] == b[..n][1..];
          assert DiffersAt(a[1..], b[1..], n - 1);
        }
      } else {
        DiffersLater(a, b);
        assert a[0] < b[0] ==> DiffersAt(a, b, 0);
      }
    } else if b != "" {
      assert DiffersAt(a, b, 0);
    }
  }

  /** The texts agree up to `n`, and there `a` ends or has the smaller letter. */
  ghost predicate DiffersAt(a: string, b: string, n: nat) {
    n <= |a| && n < |b| && a[..n] == b[..n] && (n == |a| || a[n] < b[n])
  }

  ghost function Ahead(items: seq<Ranked>, i: nat): set<nat>
    requires i < |items|
  {
    set j: nat | j < |items| && Before(items, j, i)
  }

  function Elements(order: seq<nat>): set<nat> {
    set x | x in order
  }

  lemma {:induction false} DistinctCount(order: seq<nat>)
    requires forall a, b | 0 <= a < b < |order| :: order[a] != order[b]
    ensures |Elements(order)| == |order|
  {
    if order != [] {
      var n := |order| - 1;
      DistinctCount(order[..n]);
      assert order == order[..n] + [order[n]];
      assert Elements(order) == Elements(order[..n]) + {order[n]};
      assert order[n] !in order[..n];
    }
  }

  /** An item stands where as many items precede it as come before it. */
  lemma PlaceIsCount(items: seq<Ranked>, order: seq<nat>, p: nat)
    requires IsStableSort(order, items) && p < |order|
    ensures p == |Ahead(items, order[p])|
  {
    var i := order[p];
    forall j: nat ensures j in Ahead(items, i) <==> j in order[..p] {
      if j in order[..p] {
        var a :| 0 <= a < p && order[a] == j;
      }
      if j in Ahead(items, i) {
        assert j in order;
        var a :| 0 <= a < |order| && order[a] == j;
        BeforeIsAsymmetric(items, i, j);
        assert order[..p][a] == j;
      }
    }
    assert Ahead(items, i) == Elements(order[..p]);
    DistinctCount(order[..p]);
  }

  lemma SubsetCount(a: set<nat>, b: set<nat>)
    requires a <= b
    ensures |a| <= |b|
  {
    assert b == a + (b - a);
  }

  /** Raising the score of one item, all else fixed, never moves it down the sorted list. */
  lemma HigherScoreNeverMovesDown(
    items: seq<Ranked>, i: nat, higher: int, order: seq<nat>, order': seq<nat>, p: nat, p': nat)
    requires i < |items| && items[i].score <= higher
    requires IsStableSort(order, items) && IsStableSort(order', items[i := items[i].(score := higher)])
    requires p < |order| && order[p] == i && p' < |order'| && order'[p'] == i
    ensures p' <= p
  {
    var raised := items[i := items[i].(score := higher)];
    PlaceIsCount(items, order, p);
    PlaceIsCount(raised, order', p');
    forall j <- Ahead(raised, i) ensures j in Ahead(items, i) {
      StaysBehind(items, i, higher, j);
    }
    SubsetCount(Ahead(raised, i), Ahead(items, i));
  }

  lemma StaysBehind(items: seq<Ranked>, i: nat, higher: int, j: nat)
    requires i < |items| && j < |items| && items[i].score <= higher
    requires Before(items[i := items[i].(score := higher)], j, i)
    ensures Before(items, j, i)
  {
    TextLessIsAsymmetric(items[i].text, items[j].text);
    if j == i {
      BeforeIsAsymmetric(items[i := items[i].(score := higher)], i, i);
    }
  }

  /** The place of item `i` in the sorted list. */
  lemma PlaceOf(items: seq<Ranked>, i: nat) returns (p: nat)
    requires i < |items|
    ensures p < |SortItems(items)| && SortItems(items)[p] == i && p == |Ahead(items, i)|
  {
    SortItemsIsStable(items);
    assert i in SortItems(items);
    p :| p < |SortItems(items)| && SortItems(items)[p] == i;
    PlaceIsCount(items, SortItems(items), p);
  }

  /** A score raised, or left, never moves its item down the sorted list. */
  lemma RaisedScoreNeverMovesDown(ranked: seq<Ranked>, i: nat, score: int) returns (p: nat, p': nat)
    requires i < |ranked| && ranked[i].score <= score
    ensures var raised := ranked[i := ranked[i].(score := score)];
            && p < |SortItems(ranked)| && SortItems(ranked)[p] == i
            && p' < |SortItems(raised)| && SortItems(raised)[p'] == i
            && p' <= p
  {
    var raised := ranked[i := ranked[i].(score := score)];
    SortItemsIsStable(ranked);
    SortItemsIsStable(raised);
    p := PlaceOf(ranked, i);
    p' := PlaceOf(raised, i);
    HigherScoreNeverMovesDown(ranked, i, score, SortItems(ranked), SortItems(raised), p, p');
  }

  /** The two lists agree in everything that scoring reads, but for the relevance of item `i`, which is raised. */
  ghost predicate RaisesRelevance(items: seq<SourceItem>, raised: seq<SourceItem>, i: nat) {
    && |items| == |raised| && i < |items| && items[i].relevance <= raised[i].relevance
    && (forall j | 0 <= j < |items| ::
          && items[j].recency == raised[j].recency && items[j].engagement == raised[j].engagement
          && items[j].confidence == raised[j].confidence)
    && (forall j | 0 <= j < |items| && j != i :: items[j].relevance == raised[j].relevance)
  }

  lemma ExtremesAgree(values: seq<Option<real>>, low: nat, high: nat, low': nat, high': nat)
    requires AreExtremes(values, low, high) && AreExtremes(values, low', high')
    ensures values[low].value == values[low'].value && values[high].value == values[high'].value
  {
  }

  lemma ScaledAt(
    result: seq<Option<real>>, values: seq<Option<real>>, low: nat, high: nat, i: nat, least: real, greatest: real)
    requires ScaledBetween(result, values, low, high) && i < |values| && values[i].Some?
    requires least == values[low].value && greatest == values[high].value
    ensures greatest != least && result[i] == Some(Scaled(values[i].value, least, greatest - least))
  {
  }

  /** Normalisation leaves no choice. */
  lemma NormalisedIsUnique(a: seq<Option<real>>, b: seq<Option<real>>, values: seq<Option<real>>)
    requires IsNormalised(a, values) && IsNormalised(b, values)
    ensures a == b
  {
    if !AllEqual(values) {
      var low: nat, high: nat :| ScaledBetween(a, values, low, high);
      var low': nat, high': nat :| ScaledBetween(b, values, low', high');
      ExtremesAgree(values, low, high, low', high');
      forall i | 0 <= i < |values| ensures a[i] == b[i] {
        if values[i].Some? {
          ScaledAt(a, values, low, high, i, values[low].value, values[high].value);
          ScaledAt(b, values, low', high', i, values[low].value, values[high].value);
        }
      }
    }
  }

  /** Scoring the raised list changes no other score, and raises that of item `i` or leaves it. */
  lemma RaisingChangesOneScore(
    items: seq<SourceItem>, raised: seq<SourceItem>, i: nat, before: seq<Option<real>>, after: seq<Option<real>>,
    w: Weights)
    requires RaisesRelevance(items, raised, i) && w.relevance >= 0.0
    requires IsNormalised(before, RawEngagements(items)) && IsNormalised(after, RawEngagements(raised))
    ensures before == after
    ensures forall j | 0 <= j < |items| && j != i ::
              ItemScore(raised[j], after[j], w) == ItemScore(items[j], before[j], w)
    ensures ItemScore(raised[i], after[i], w) >= ItemScore(items[i], before[i], w)
  {
    assert RawEngagements(items) == RawEngagements(raised);
    NormalisedIsUnique(before, after, RawEngagements(items));
    ScoreIsMonotone(w.relevance, items[i].relevance, raised[i].relevance,
                    Remainder(w, items[i].recency, before[i], items[i].engagement.Some?, items[i].confidence));
  }

  /** `ranked` begins with `items`, scored; items of other sources may follow. */
  ghost predicate Scored(ranked: seq<Ranked>, items: seq<SourceItem>, normalised: seq<Option<real>>, w: Weights) {
    && |items| <= |ranked| && IsNormalised(normalised, RawEngagements(items))
    && forall j | 0 <= j < |items| :: ranked[j].score == ItemScore(items[j], normalised[j], w)
  }

  /** Apart from their scores the two lists are the same, and behind the first `n` items altogether. */
  ghost predicate SameButScores(a: seq<Ranked>, b: seq<Ranked>, n: nat) {
    && |a| == |b|
    && (forall j | 0 <= j < |a| :: b[j] == a[j].(score := b[j].score))
    && (forall j | n <= j < |a| :: a[j] == b[j])
  }

  /**
    Raising the relevance of one item and scoring its source again changes no other item's score, raises its
    own or leaves it, and never moves it down the sorted list.
   */
  lemma HigherRelevanceNeverMovesDown(
    items: seq<SourceItem>, raised: seq<SourceItem>, i: nat, w: Weights,
    before: seq<Option<real>>, after: seq<Option<real>>, ranked: seq<Ranked>, ranked': seq<Ranked>)
    returns (p: nat, p': nat)
    requires RaisesRelevance(items, raised, i) && w.relevance >= 0.0
    requires Scored(ranked, items, before, w) && Scored(ranked', raised, after, w)
    requires SameButScores(ranked, ranked', |items|)
    ensures forall j | 0 <= j < |ranked| && j != i :: ranked'[j] == ranked[j]
    ensures ranked'[i].score >= ranked[i].score
    ensures p < |SortItems(ranked)| && SortItems(ranked)[p] == i
    ensures p' < |SortItems(ranked')| && SortItems(ranked')[p'] == i && p' <= p
  {
    RaisingChangesOneScore(items, raised, i, before, after, w);
    forall j | 0 <= j < |ranked| && j != i ensures ranked'[j] == ranked[j] {
      if j < |items| {
        assert ranked'[j].score == ranked[j].score;
      }
    }
    assert ranked' == ranked[i := ranked[i].(score := ranked'[i].score)];
    p, p' := RaisedScoreNeverMovesDown(ranked, i, ranked'[i].score);
  }
}
