/**
 * The odds arithmetic of the backend (`/api/math.js`): implied probability, vig removal,
 * cross-book stability, expected value and the composite confidence score, all over exact reals.
 */
module OddsMath {
  import opened Sums
  import opened Arith

  function Abs(x: real): real { if x < 0.0 then -x else x }

  function Max(x: real, y: real): real { if x >= y then x else y }

  // ---------- Odds and probability ----------

  /** `impliedProb`: the probability an American price implies, bookmaker margin included. */
  function ImpliedProb(odds: real): (p: real)
    ensures odds != 0.0 ==> 0.0 < p < 1.0
    ensures odds == 0.0 ==> p == 0.0
  {
    if odds > 0.0 then 100.0 / (odds + 100.0) else -odds / (-odds + 100.0)
  }

  /** Even money, +100 or -100, implies a coin flip. */
  lemma ImpliedEvenMoney()
    ensures ImpliedProb(100.0) == ImpliedProb(-100.0) == 0.5
  {
  }

  /** Mirrored prices `+o` and `-o` carry no margin: their implied probabilities sum to 1. */
  lemma ImpliedMirror(odds: real)
    requires odds != 0.0
    ensures ImpliedProb(odds) + ImpliedProb(-odds) == 1.0
  {
  }

  /**
   * On valid American prices (magnitude at least 100) a longer price never implies a larger
   * probability, and strictly a smaller one unless the two prices are -100 and +100.
   */
  lemma ImpliedDecreasing(o1: real, o2: real)
    requires Abs(o1) >= 100.0 && Abs(o2) >= 100.0 && o1 < o2
    ensures ImpliedProb(o1) >= ImpliedProb(o2)
    ensures !(o1 == -100.0 && o2 == 100.0) ==> ImpliedProb(o1) > ImpliedProb(o2)
  {
    if o1 > 0.0 {
      DivDecreasing(100.0, o1 + 100.0, o2 + 100.0);
    } else if o2 < 0.0 {
      var a, b := -o1, -o2;
      DivDecreasing(100.0, b + 100.0, a + 100.0);
      assert a / (a + 100.0) == 1.0 - 100.0 / (a + 100.0);
      assert b / (b + 100.0) == 1.0 - 100.0 / (b + 100.0);
    } else {
      var a := -o1;
      assert a / (a + 100.0) == 1.0 - 100.0 / (a + 100.0);
      DivBounds(100.0, a + 100.0, 0.0, 0.5);
      DivBounds(100.0, o2 + 100.0, 0.0, 0.5);
      if a > 100.0 {
        DivDecreasing(100.0, 200.0, a + 100.0);
      } else if o2 > 100.0 {
        DivDecreasing(100.0, 200.0, o2 + 100.0);
      }
    }
  }

  /** The two halves of a market after vig removal. */
  datatype VigFree = VigFree(a: real, b: real)

  /**
   * `removeVig`: scales two implied probabilities by their total. The source divides without a
   * guard, so a zero total is excluded here.
   */
  function RemoveVig(probA: real, probB: real): (r: VigFree)
    requires probA + probB != 0.0
    ensures r.a + r.b == 1.0
    ensures r.a * (probA + probB) == probA && r.b * (probA + probB) == probB
    ensures probA > 0.0 && probB > 0.0 ==> 0.0 < r.a < 1.0 && 0.0 < r.b < 1.0
  {
    var total := probA + probB;
    VigFree(probA / total, probB / total)
  }

  /** Vig removal keeps the odds ratio between the two sides. */
  lemma RemoveVigKeepsRatio(probA: real, probB: real)
    requires probA + probB != 0.0 && probB != 0.0
    ensures RemoveVig(probA, probB).b != 0.0
    ensures RemoveVig(probA, probB).a / RemoveVig(probA, probB).b == probA / probB
  {
    var r := RemoveVig(probA, probB);
    var t := probA + probB;
    assert r.b != 0.0;
    assert r.a / r.b == probA / probB by {
      assert r.a == probA / t && r.b == probB / t;
      assert (probA / t) / (probB / t) == probA / probB;
    }
  }

  /** Two equally priced sides are a coin flip once the vig is gone (-110/-110 is 0.5/0.5). */
  lemma RemoveVigEqualSides(p: real)
    requires p > 0.0
    ensures RemoveVig(p, p) == VigFree(0.5, 0.5)
  {
  }

  /**
   * `noVig` is imported by the events and props handlers but not defined in `/api/math.js`;
   * ASSUMED here to be `removeVig` returning its pair as the array `[a, b]` the callers destructure.
   */
  function NoVig(x: real, y: real): (r: (real, real))
    requires x + y != 0.0
    ensures r.0 + r.1 == 1.0
    ensures x > 0.0 && y > 0.0 ==> 0.0 < r.0 < 1.0 && 0.0 < r.1 < 1.0
    ensures r.0 * (x + y) == x && r.1 * (x + y) == y
  {
    var v := RemoveVig(x, y);
    (v.a, v.b)
  }

  // ---------- Weighted consensus ----------

  /** A book's quote for one side as the props handler records it: `{ p, odds, w }`. */
  datatype PricedQuote = PricedQuote(p: real, odds: int, w: real)

  /** A quote from a weighted book at a non-zero price with a probability strictly inside (0, 1). */
  predicate ValidQuote(q: PricedQuote)
  {
    q.w > 0.0 && q.odds != 0 && 0.0 < q.p < 1.0
  }

  predicate AllValid(xs: seq<PricedQuote>)
  {
    forall i :: 0 <= i < |xs| ==> ValidQuote(xs[i])
  }

  /** `xs.map(x => x.p)` */
  function Probs(xs: seq<PricedQuote>): (ps: seq<real>)
    ensures |ps| == |xs| && forall i :: 0 <= i < |xs| ==> ps[i] == xs[i].p
  {
    if xs == [] then [] else [xs[0].p] + Probs(xs[1..])
  }

  /** The weights `w` of the records, in order. */
  function Weights(xs: seq<PricedQuote>): seq<real>
  {
    seq(|xs|, i requires 0 <= i < |xs| => xs[i].w)
  }

  /** The weighted probabilities `p · w` of the records, in order. */
  function Products(xs: seq<PricedQuote>): seq<real>
  {
    seq(|xs|, i requires 0 <= i < |xs| => xs[i].p * xs[i].w)
  }

  /** `Σ w` */
  function SumW(xs: seq<PricedQuote>): real
  {
    Sum(Weights(xs))
  }

  /** `Σ p·w` */
  function SumPW(xs: seq<PricedQuote>): real
  {
    Sum(Products(xs))
  }

  lemma SumWPositive(xs: seq<PricedQuote>)
    requires xs != [] && forall i :: 0 <= i < |xs| ==> xs[i].w > 0.0
    ensures SumW(xs) > 0.0
  {
    var ws := Weights(xs);
    assert Id(ws[0]) > 0.0;
    SumOfNonNeg(ws, Id);
  }

  /** With non-negative weights, `lo * Σw <= Σ p·w` when no `p` is below `lo`. */
  lemma SumPWAbove(xs: seq<PricedQuote>, lo: real)
    requires forall i :: 0 <= i < |xs| ==> xs[i].w >= 0.0 && lo <= xs[i].p
    ensures lo * SumW(xs) <= SumPW(xs)
  {
    var ws, pws := Weights(xs), Products(xs);
    var los := seq(|xs|, i requires 0 <= i < |xs| => lo * ws[i]);
    forall i | 0 <= i < |xs| ensures los[i] <= pws[i] {
      MulBetween(xs[i].p, xs[i].w, lo, xs[i].p);
    }
    SumScaled(ws, lo, los);
    SumMonotone(los, pws);
  }

  /** With non-negative weights, `Σ p·w <= hi * Σw` when no `p` is above `hi`. */
  lemma SumPWBelow(xs: seq<PricedQuote>, hi: real)
    requires forall i :: 0 <= i < |xs| ==> xs[i].w >= 0.0 && xs[i].p <= hi
    ensures SumPW(xs) <= hi * SumW(xs)
  {
    var ws, pws := Weights(xs), Products(xs);
    var his := seq(|xs|, i requires 0 <= i < |xs| => hi * ws[i]);
    forall i | 0 <= i < |xs| ensures pws[i] <= his[i] {
      MulBetween(xs[i].p, xs[i].w, xs[i].p, hi);
    }
    SumScaled(ws, hi, his);
    SumMonotone(pws, his);
  }

  /** With positive weights and every `p` in `(0, 1)`, `0 < Σ p·w < Σ w` for a non-empty list. */
  lemma SumPWInUnit(xs: seq<PricedQuote>)
    requires xs != []
    requires forall i :: 0 <= i < |xs| ==> xs[i].w > 0.0 && 0.0 < xs[i].p < 1.0
    ensures 0.0 < SumPW(xs) < SumW(xs)
  {
    var ws, pws := Weights(xs), Products(xs);
    var zeros := seq(|xs|, i => 0.0);
    forall i | 0 <= i < |xs| ensures zeros[i] < pws[i] < ws[i] {
      MulInUnit(pws[i], xs[i].p, xs[i].w);
    }
    SumConstant(zeros, 0.0);
    SumMonotone(zeros, pws);
    SumMonotone(pws, ws);
  }

  /**
   * `weightedAverage` is imported by the events and props handlers but not defined in
   * `/api/math.js`; ASSUMED here to be `Σ p·w / Σ w` over the `{ p, w }` records it is given.
   */
  function WeightedAverage(xs: seq<PricedQuote>): real
    requires SumW(xs) != 0.0
  {
    SumPW(xs) / SumW(xs)
  }

  /** The weighted consensus of a non-empty list of valid quotes is a probability strictly inside `(0, 1)`. */
  lemma WeightedAverageInUnit(xs: seq<PricedQuote>)
    requires xs != [] && AllValid(xs)
    ensures SumW(xs) > 0.0
    ensures 0.0 < WeightedAverage(xs) < 1.0
  {
    SumWPositive(xs);
    SumPWInUnit(xs);
    DivInUnit(SumPW(xs), SumW(xs));
  }

  /** The weighted consensus lies between the smallest and the largest probability it averages. */
  lemma WeightedAverageBetween(xs: seq<PricedQuote>, lo: real, hi: real)
    requires xs != [] && forall i :: 0 <= i < |xs| ==> xs[i].w > 0.0 && lo <= xs[i].p <= hi
    ensures SumW(xs) > 0.0
    ensures lo <= WeightedAverage(xs) <= hi
  {
    SumWPositive(xs);
    SumPWAbove(xs, lo);
    SumPWBelow(xs, hi);
    DivBounds(SumPW(xs), SumW(xs), lo, hi);
    assert WeightedAverage(xs) == SumPW(xs) / SumW(xs);
  }

  // ---------- Stability ----------

  /** `p ↦ (p - m)²` */
  function SqDev(m: real): real -> real
  {
    p => (p - m) * (p - m)
  }

  /** `Σ (p - m)²` */
  function SumSqDev(ps: seq<real>, m: real): (r: real)
    ensures r >= 0.0
  {
    forall i | 0 <= i < |ps| ensures SqDev(m)(ps[i]) >= 0.0 {
      SqNonNeg(ps[i] - m);
    }
    SumOfNonNeg(ps, SqDev(m));
    SumOf(ps, SqDev(m))
  }

  function Mean(ps: seq<real>): real
    requires ps != []
  {
    Sum(ps) / |ps| as real
  }

  function Variance(ps: seq<real>): real
    requires ps != []
  {
    SumSqDev(ps, Mean(ps)) / |ps| as real
  }

  /**
   * `stabilityScore`: `max(0, 1 - 400 · variance)` of the per-book probabilities, where the
   * variance is the population variance; 0 for fewer than two probabilities.
   */
  function StabilityScore(ps: seq<real>): (s: real)
    ensures |ps| < 2 ==> s == 0.0
    ensures 0.0 <= s <= 1.0
  {
    if |ps| < 2 then 0.0 else Max(0.0, 1.0 - Variance(ps) * 400.0)
  }

  /** Stability depends only on the multiset of probabilities, not on the order of the books. */
  lemma StabilityPermutation(a: seq<real>, b: seq<real>)
    requires multiset(a) == multiset(b)
    ensures StabilityScore(a) == StabilityScore(b)
  {
    assert |a| == |multiset(a)| == |multiset(b)| == |b|;
    if |a| >= 2 {
      SumPermutation(a, b);
      SumOfPermutation(a, b, SqDev(Mean(a)));
    }
  }

  lemma SumSqDevAtMean(ps: seq<real>, m: real)
    requires forall i :: 0 <= i < |ps| ==> ps[i] == m
    ensures SumSqDev(ps, m) == 0.0
  {
    SumOfZero(ps, SqDev(m));
  }

  /** When every book implies the same probability, stability is exactly 1. */
  lemma StabilityOneWhenBooksAgree(ps: seq<real>)
    requires |ps| >= 2 && forall i :: 0 <= i < |ps| ==> ps[i] == ps[0]
    ensures StabilityScore(ps) == 1.0
  {
    SumConstant(ps, ps[0]);
    assert Mean(ps) == ps[0];
    SumSqDevAtMean(ps, ps[0]);
  }

  // ---------- Expected value ----------

  /** Profit per unit staked when the bet wins: `odds / 100` for plus prices, `100 / |odds|` otherwise. */
  function Payout(odds: real): (r: real)
    requires odds != 0.0
    ensures r > 0.0
  {
    if odds > 0.0 then odds / 100.0 else 100.0 / Abs(odds)
  }

  /**
   * `expectedValue`: expected profit per unit staked at `odds` if `prob` is the true probability.
   * A zero price divides by zero in the source and is excluded.
   */
  function ExpectedValue(prob: real, odds: real): (ev: real)
    requires odds != 0.0
    ensures 0.0 <= prob <= 1.0 ==> -1.0 <= ev <= Payout(odds)
    ensures prob == 0.0 ==> ev == -1.0
    ensures prob == 1.0 ==> ev == Payout(odds)
  {
    prob * Payout(odds) - (1.0 - prob)
  }

  /** At the book's own implied probability a bet is exactly fair. */
  lemma EvZeroAtImpliedPrice(odds: real)
    requires odds != 0.0
    ensures ExpectedValue(ImpliedProb(odds), odds) == 0.0
  {
    var p := ImpliedProb(odds);
    if odds > 0.0 {
      assert p * (odds + 100.0) == 100.0;
      assert p * (odds / 100.0) == 1.0 - p by {
        assert p * odds == 100.0 - 100.0 * p;
      }
    } else {
      var a := -odds;
      assert p * (a + 100.0) == a;
      assert p * (100.0 / a) == 1.0 - p by {
        assert p * 100.0 == a - a * p;
        assert p * (100.0 / a) == (p * 100.0) / a;
      }
    }
  }

  /** For a fixed price, expected value strictly increases with the probability. */
  lemma EvStrictlyIncreasing(p: real, q: real, odds: real)
    requires odds != 0.0 && p < q
    ensures ExpectedValue(p, odds) < ExpectedValue(q, odds)
  {
    var k := Payout(odds);
    assert q * k - p * k == (q - p) * k;
    assert (q - p) * k > 0.0;
  }

  /** A bet has positive expected value exactly when the fair probability beats the implied one. */
  lemma EvPositiveIffBeatsPrice(prob: real, odds: real)
    requires odds != 0.0
    ensures ExpectedValue(prob, odds) > 0.0 <==> prob > ImpliedProb(odds)
  {
    EvZeroAtImpliedPrice(odds);
    var p := ImpliedProb(odds);
    if prob > p {
      EvStrictlyIncreasing(p, prob, odds);
    } else if prob < p {
      EvStrictlyIncreasing(prob, p, odds);
    }
  }

  // ---------- Confidence ----------

  /** The inputs of `confidenceScore({ lean, stability, ev })`. */
  datatype Signal = Signal(lean: real, stability: real, ev: real)

  /** `confidenceScore`: `0.45·|lean| + 0.35·stability + 0.20·max(0, ev)`. */
  function ConfidenceScore(s: Signal): (c: real)
    ensures s.stability >= 0.0 ==> c >= 0.0
    ensures Abs(s.lean) <= 1.0 && 0.0 <= s.stability <= 1.0 && s.ev <= 1.0 ==> 0.0 <= c <= 1.0
  {
    Abs(s.lean) * 0.45 + s.stability * 0.35 + Max(0.0, s.ev) * 0.20
  }

  /** The direction of the lean does not matter, only its size. */
  lemma ConfidenceIgnoresLeanSign(s: Signal)
    ensures ConfidenceScore(s) == ConfidenceScore(s.(lean := -s.lean))
  {
  }

  /** A negative expected value scores like a zero one. */
  lemma ConfidenceIgnoresNegativeEv(s: Signal)
    requires s.ev <= 0.0
    ensures ConfidenceScore(s) == ConfidenceScore(s.(ev := 0.0))
  {
  }

  /** More stability, more expected value or a larger lean never lowers the score. */
  lemma ConfidenceMonotone(s: Signal, t: Signal)
    requires Abs(s.lean) <= Abs(t.lean) && s.stability <= t.stability && s.ev <= t.ev
    ensures ConfidenceScore(s) <= ConfidenceScore(t)
  {
  }
}
