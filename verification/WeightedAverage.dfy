/** Weighted averages over the real numbers. */
module WeightedAverage {

  datatype Term = Term(score: real, weight: real)

  function Weight(terms: seq<Term>): real {
    if terms == [] then 0.0 else terms[0].weight + Weight(terms[1..])
  }

  function Dot(terms: seq<Term>): real {
    if terms == [] then 0.0 else Times(terms[0].score, terms[0].weight) + Dot(terms[1..])
  }

  function Plain(terms: seq<Term>): real {
    if terms == [] then 0.0 else terms[0].score + Plain(terms[1..])
  }

  predicate NonNegative(terms: seq<Term>) { forall k | 0 <= k < |terms| :: terms[k].weight >= 0.0 }

  predicate Within(terms: seq<Term>, lo: real, hi: real) { forall k | 0 <= k < |terms| :: lo <= terms[k].score <= hi }

  /** The weighted mean, or the plain mean when nothing has weight. */
  function Average(terms: seq<Term>): real
    requires terms != []
  {
    if Weight(terms) <= 0.0 then Plain(terms) / |terms| as real else Dot(terms) / Weight(terms)
  }

  /** Multiplication under a name: the laws below are all that the proofs about sums need, so
      they hide the rest. */
  function Times(x: real, y: real): real { x * y }

  lemma Distributes(c: real, x: real, y: real)
    ensures Times(c, x + y) == Times(c, x) + Times(c, y)
  {
  }

  lemma {:induction false} WeightNonNegative(terms: seq<Term>)
    requires NonNegative(terms)
    ensures Weight(terms) >= 0.0
  {
    if terms != [] {
      WeightNonNegative(terms[1..]);
    }
  }

  lemma OneMoreBetween(score: real, weight: real, dot: real, total: real, lo: real, hi: real)
    requires weight >= 0.0 && lo <= score <= hi && Times(lo, total) <= dot <= Times(hi, total)
    ensures Times(lo, weight + total) <= Times(score, weight) + dot <= Times(hi, weight + total)
  {
    hide Times;
    ScaleBetween(score, weight, lo, hi);
    Distributes(lo, weight, total);
    Distributes(hi, weight, total);
  }

  lemma {:induction false} DotBetween(terms: seq<Term>, lo: real, hi: real)
    requires NonNegative(terms) && Within(terms, lo, hi)
    ensures Times(lo, Weight(terms)) <= Dot(terms) <= Times(hi, Weight(terms))
  {
    if terms != [] {
      hide Times;
      DotBetween(terms[1..], lo, hi);
      OneMoreBetween(terms[0].score, terms[0].weight, Dot(terms[1..]), Weight(terms[1..]), lo, hi);
    }
  }

  lemma {:induction false} PlainBetween(terms: seq<Term>, lo: real, hi: real)
    requires Within(terms, lo, hi)
    ensures Times(lo, |terms| as real) <= Plain(terms) <= Times(hi, |terms| as real)
  {
    if terms != [] {
      PlainBetween(terms[1..], lo, hi);
      assert |terms| as real == 1.0 + |terms[1..]| as real;
      Distributes(lo, 1.0, |terms[1..]| as real);
      Distributes(hi, 1.0, |terms[1..]| as real);
    }
  }

  lemma ScaleBetween(x: real, w: real, lo: real, hi: real)
    requires w >= 0.0 && lo <= x <= hi
    ensures Times(lo, w) <= Times(x, w) <= Times(hi, w)
  {
  }

  lemma QuotientBetween(x: real, w: real, lo: real, hi: real)
    requires w > 0.0 && Times(lo, w) <= x <= Times(hi, w)
    ensures lo <= x / w <= hi
  {
    assert (x / w) * w == x;
    if x / w < lo {
      ScaleLess(x / w, lo, w);
    }
    if x / w > hi {
      ScaleLess(hi, x / w, w);
    }
  }

  lemma ScaleLess(a: real, b: real, w: real)
    requires w > 0.0 && a < b
    ensures Times(a, w) < Times(b, w)
  {
  }

  /** A convex combination: the average lies between any bounds of the scores. */
  lemma AverageBetween(terms: seq<Term>, lo: real, hi: real)
    requires terms != [] && NonNegative(terms) && Within(terms, lo, hi)
    ensures lo <= Average(terms) <= hi
  {
    if Weight(terms) <= 0.0 {
      PlainBetween(terms, lo, hi);
      QuotientBetween(Plain(terms), |terms| as real, lo, hi);
    } else {
      DotBetween(terms, lo, hi);
      QuotientBetween(Dot(terms), Weight(terms), lo, hi);
    }
  }

  /** The same evidence with some scores raised. */
  predicate Raises(a: seq<Term>, b: seq<Term>) {
    |a| == |b| && forall k | 0 <= k < |a| :: a[k].weight == b[k].weight && a[k].score <= b[k].score
  }

  lemma {:induction false} SumsRise(a: seq<Term>, b: seq<Term>)
    requires Raises(a, b) && NonNegative(a)
    ensures Weight(a) == Weight(b) && Dot(a) <= Dot(b) && Plain(a) <= Plain(b)
  {
    if a != [] {
      SumsRise(a[1..], b[1..]);
      ScaleBetween(a[0].score, a[0].weight, a[0].score, b[0].score);
    }
  }

  lemma QuotientRises(x: real, y: real, w: real)
    requires w > 0.0 && x <= y
    ensures x / w <= y / w
  {
  }

  lemma AverageRises(a: seq<Term>, b: seq<Term>)
    requires a != [] && Raises(a, b) && NonNegative(a)
    ensures Average(a) <= Average(b)
  {
    SumsRise(a, b);
    if Weight(a) <= 0.0 {
      QuotientRises(Plain(a), Plain(b), |a| as real);
    } else {
      QuotientRises(Dot(a), Dot(b), Weight(a));
    }
  }

  /** The same scores with all weights scaled. */
  predicate Scales(a: seq<Term>, b: seq<Term>, c: real) {
    |a| == |b| && forall k | 0 <= k < |a| :: b[k].score == a[k].score && b[k].weight == c * a[k].weight
  }

  lemma {:induction false} SumsScale(a: seq<Term>, b: seq<Term>, c: real)
    requires Scales(a, b, c)
    ensures Weight(b) == c * Weight(a) && Dot(b) == c * Dot(a) && Plain(b) == Plain(a)
  {
    if a != [] {
      SumsScale(a[1..], b[1..], c);
      assert b[0].score * b[0].weight == c * (a[0].score * a[0].weight);
    }
  }

  lemma QuotientScales(x: real, w: real, c: real)
    requires w != 0.0 && c > 0.0
    ensures c * w != 0.0 && (c * x) / (c * w) == x / w
  {
    assert (x / w) * (c * w) == c * ((x / w) * w);
  }

  lemma SignScales(w: real, c: real)
    requires c > 0.0
    ensures c * w <= 0.0 <==> w <= 0.0
  {
  }

  lemma AverageScales(a: seq<Term>, b: seq<Term>, c: real)
    requires a != [] && c > 0.0 && Scales(a, b, c)
    ensures Average(a) == Average(b)
  {
    SumsScale(a, b, c);
    SignScales(Weight(a), c);
    if Weight(a) > 0.0 {
      QuotientScales(Dot(a), Weight(a), c);
    }
  }

  function Blend(x: real, y: real, ratio: real): real { Times(x, ratio) + Times(y, 1.0 - ratio) }

  /** Two parts of a whole, each between the same bounds. */
  lemma PartsBetween(x: real, y: real, a: real, b: real, lo: real, hi: real)
    requires a >= 0.0 && b >= 0.0 && lo <= x <= hi && lo <= y <= hi
    requires Times(lo, a) + Times(lo, b) == lo && Times(hi, a) + Times(hi, b) == hi
    ensures lo <= Times(x, a) + Times(y, b) <= hi
  {
    hide Times;
    ScaleBetween(x, a, lo, hi);
    ScaleBetween(y, b, lo, hi);
  }

  lemma BlendBetween(x: real, y: real, ratio: real, lo: real, hi: real)
    requires 0.0 <= ratio <= 1.0 && lo <= x <= hi && lo <= y <= hi
    ensures lo <= Blend(x, y, ratio) <= hi
  {
    hide Times;
    Parts(lo, ratio, 1.0 - ratio);
    Parts(hi, ratio, 1.0 - ratio);
    PartsBetween(x, y, ratio, 1.0 - ratio, lo, hi);
  }

  lemma Parts(c: real, a: real, b: real)
    requires a + b == 1.0
    ensures Times(c, a) + Times(c, b) == c
  {
  }

  lemma BlendRises(x: real, y: real, x2: real, y2: real, ratio: real)
    requires 0.0 <= ratio <= 1.0 && x <= x2 && y <= y2
    ensures Blend(x, y, ratio) <= Blend(x2, y2, ratio)
  {
    hide Times;
    ScaleBetween(x2, ratio, x, x2);
    ScaleBetween(y2, 1.0 - ratio, y, y2);
  }

  lemma ProductNonNegative(x: real, y: real)
    requires x >= 0.0 && y >= 0.0
    ensures x * y >= 0.0
  {
  }

  lemma FractionProduct(x: real, y: real)
    requires 0.0 <= x <= 1.0 && 0.0 <= y <= 1.0
    ensures 0.0 <= Times(x, y) <= 1.0 && Times(x, y) <= x && Times(x, y) <= y
  {
    hide Times;
    ScaleBetween(x, y, 0.0, 1.0);
    ScaleBetween(y, x, 0.0, 1.0);
    Units(x);
    Units(y);
    Commutes(x, y);
  }

  lemma Units(x: real)
    ensures Times(0.0, x) == 0.0 && Times(1.0, x) == x
  {
  }

  lemma Commutes(x: real, y: real)
    ensures Times(x, y) == Times(y, x)
  {
  }

  lemma FractionQuotient(x: real, y: real)
    requires x >= 0.0 && y > 0.0
    ensures x / y >= 0.0
  {
  }

  lemma QuotientAtLeastOne(x: real, y: real)
    requires y > 0.0 && x >= y
    ensures x / y >= 1.0
  {
  }
}
