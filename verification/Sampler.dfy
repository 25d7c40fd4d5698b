/** Token sampling with temperature, top-k and top-p, in exact real arithmetic.
    The exponential is any function with positive values. */
module Sampler {
  // ── Sums ──────────────────────────────────────────────────────────────────

  function Sum(ps: seq<real>): real {
    if ps == [] then 0.0 else Sum(ps[..|ps| - 1]) + ps[|ps| - 1]
  }

  /** Mass of the first `k` entries: the running `cumsum`. */
  function Mass(ps: seq<real>, k: nat): real
    requires k <= |ps|
  {
    Sum(ps[..k])
  }

  lemma MassStep(ps: seq<real>, k: nat)
    requires k < |ps|
    ensures Mass(ps, k + 1) == Mass(ps, k) + ps[k]
  {
    assert ps[..k + 1][..k] == ps[..k];
  }

  lemma MassAll(ps: seq<real>)
    ensures Mass(ps, |ps|) == Sum(ps)
  {
    assert ps[..|ps|] == ps;
  }

  ghost predicate Positive(ps: seq<real>) {
    forall i :: 0 <= i < |ps| ==> ps[i] > 0.0
  }

  lemma {:induction false} MassIncreases(ps: seq<real>, j: nat, k: nat)
    requires Positive(ps) && j <= k <= |ps|
    ensures Mass(ps, j) <= Mass(ps, k)
    ensures j < k ==> Mass(ps, j) < Mass(ps, k)
    decreases k
  {
    if j < k {
      MassStep(ps, k - 1);
      MassIncreases(ps, j, k - 1);
    }
  }

  function Divided(ps: seq<real>, divisor: real): (qs: seq<real>)
    requires divisor != 0.0
    ensures |qs| == |ps| && forall i :: 0 <= i < |ps| ==> qs[i] == ps[i] / divisor
  {
    seq(|ps|, i requires 0 <= i < |ps| => ps[i] / divisor)
  }

  lemma {:induction false} SumDivided(ps: seq<real>, divisor: real)
    requires divisor > 0.0
    ensures Sum(Divided(ps, divisor)) == Sum(ps) / divisor
  {
    if ps != [] {
      var n := |ps| - 1;
      SumDivided(ps[..n], divisor);
      assert Divided(ps, divisor)[..n] == Divided(ps[..n], divisor);
    }
  }

  // ── Greedy choice ─────────────────────────────────────────────────────────

  /** `max_by` keeps the last of equal maxima. */
  ghost predicate IsLastArgmax(logits: seq<real>, i: nat) {
    && i < |logits|
    && (forall j :: 0 <= j < |logits| ==> logits[j] <= logits[i])
    && (forall j :: i < j < |logits| ==> logits[j] < logits[i])
  }

  method Greedy(logits: seq<real>, eos: int) returns (token: int)
    ensures logits == [] ==> token == eos
    ensures logits != [] ==> 0 <= token && IsLastArgmax(logits, token)
  {
    if logits == [] {
      return eos;
    }
    var best := 0;
    for i := 1 to |logits|
      invariant 0 <= best < i
      invariant forall j :: 0 <= j < i ==> logits[j] <= logits[best]
      invariant forall j :: best < j < i ==> logits[j] < logits[best]
    {
      if logits[i] >= logits[best] {
        best := i;
      }
    }
    return best;
  }

  // ── Candidates ────────────────────────────────────────────────────────────

  function Scaled(logits: seq<real>, temperature: real): (s: seq<real>)
    requires temperature > 0.0
  {
    Divided(logits, temperature)
  }

  function Range(n: nat): (r: seq<nat>)
    ensures |r| == n && forall i :: 0 <= i < n ==> r[i] == i
  {
    seq(n, i requires 0 <= i => i)
  }

  ghost predicate InRange(order: seq<nat>, n: nat) {
    forall i :: 0 <= i < |order| ==> order[i] < n
  }

  /** `order` lists `0..n` by descending score; equal scores in any order. */
  ghost predicate IsDescending(scores: seq<real>, order: seq<nat>) {
    && InRange(order, |scores|)
    && forall i, j :: 0 <= i < j < |order| ==> scores[order[i]] >= scores[order[j]]
  }

  ghost predicate IsRanking(scores: seq<real>, order: seq<nat>) {
    IsDescending(scores, order) && multiset(order) == multiset(Range(|scores|))
  }

  /** How far back `x` has to move. */
  method SlotFor(scores: seq<real>, order: seq<nat>, x: nat) returns (at: nat)
    requires InRange(order, |scores|) && x < |scores|
    ensures at <= |order|
    ensures at > 0 ==> scores[order[at - 1]] >= scores[x]
    ensures forall i :: at <= i < |order| ==> scores[order[i]] < scores[x]
  {
    at := |order|;
    while at > 0 && scores[order[at - 1]] < scores[x]
      invariant 0 <= at <= |order|
      invariant forall i :: at <= i < |order| ==> scores[order[i]] < scores[x]
    {
      at := at - 1;
    }
  }

  method InsertByScore(scores: seq<real>, order: seq<nat>, x: nat) returns (longer: seq<nat>)
    requires IsDescending(scores, order) && x < |scores|
    ensures IsDescending(scores, longer) && multiset(longer) == multiset(order) + multiset{x}
  {
    var at := SlotFor(scores, order, x);
    longer := order[..at] + [x] + order[at..];
    InsertedIsDescending(scores, order, x, at);
    InsertedElements(order, x, at);
  }

  lemma InsertedElements(order: seq<nat>, x: nat, at: nat)
    requires at <= |order|
    ensures multiset(order[..at] + [x] + order[at..]) == multiset(order) + multiset{x}
  {
    assert order == order[..at] + order[at..];
  }

  lemma InsertedIsDescending(scores: seq<real>, order: seq<nat>, x: nat, at: nat)
    requires IsDescending(scores, order) && x < |scores| && at <= |order|
    requires at > 0 ==> scores[order[at - 1]] >= scores[x]
    requires forall i :: at <= i < |order| ==> scores[order[i]] < scores[x]
    ensures IsDescending(scores, order[..at] + [x] + order[at..])
  {
    var longer := order[..at] + [x] + order[at..];
    forall i | 0 <= i < |longer|
      ensures longer[i] == if i < at then order[i] else if i == at then x else order[i - 1]
    {
    }
    forall i, j | 0 <= i < j < |longer|
      ensures scores[longer[i]] >= scores[longer[j]]
    {
      if i < at && j == at {
        assert i == at - 1 || scores[order[i]] >= scores[order[at - 1]];
      }
    }
  }

  /** The sorted index list. */
  method Rank(scores: seq<real>) returns (order: seq<nat>)
    ensures IsRanking(scores, order)
  {
    order := [];
    for i := 0 to |scores|
      invariant IsDescending(scores, order)
      invariant multiset(order) == multiset(Range(|scores|)[..i])
    {
      assert Range(|scores|)[..i + 1] == Range(|scores|)[..i] + [i];
      order := InsertByScore(scores, order, i);
    }
    assert Range(|scores|)[..|scores|] == Range(|scores|);
  }

  lemma RankingLength(scores: seq<real>, order: seq<nat>)
    requires IsRanking(scores, order)
    ensures |order| == |scores|
  {
    assert |multiset(order)| == |order| && |multiset(Range(|scores|))| == |scores|;
  }

  function KeptCount(n: nat, topK: nat): (k: nat)
    ensures k <= n
  {
    if 0 < topK < n then topK else n
  }

  /** Unnormalised weights, relative to the best score. */
  function Weights(scores: seq<real>, kept: seq<nat>, exp: real -> real): (w: seq<real>)
    requires kept != [] && InRange(kept, |scores|)
    ensures |w| == |kept| && forall i :: 0 <= i < |kept| ==> w[i] == exp(scores[kept[i]] - scores[kept[0]])
  {
    seq(|kept|, i requires 0 <= i < |kept| => exp(scores[kept[i]] - scores[kept[0]]))
  }

  ghost predicate PositiveExp(exp: real -> real) {
    forall x :: exp(x) > 0.0
  }

  ghost predicate MonotoneExp(exp: real -> real) {
    forall x, y :: x <= y ==> exp(x) <= exp(y)
  }

  lemma {:induction false} SumPositive(ps: seq<real>)
    requires Positive(ps) && ps != []
    ensures Sum(ps) > 0.0
  {
    MassIncreases(ps, 0, |ps|);
    MassAll(ps);
  }

  lemma DividedPositive(ps: seq<real>, divisor: real)
    requires Positive(ps) && divisor > 0.0
    ensures Positive(Divided(ps, divisor))
  {
    forall i | 0 <= i < |ps|
      ensures Divided(ps, divisor)[i] > 0.0
    {
      QuotientPositive(ps[i], divisor);
    }
  }

  lemma QuotientPositive(a: real, divisor: real)
    requires a > 0.0 && divisor > 0.0
    ensures a / divisor > 0.0 && divisor / divisor == 1.0
  {
  }

  /** Dividing positive weights by their sum gives probabilities. */
  lemma NormalisedIsDistribution(ps: seq<real>)
    requires Positive(ps) && ps != []
    ensures Sum(ps) > 0.0
    ensures Positive(Divided(ps, Sum(ps))) && Sum(Divided(ps, Sum(ps))) == 1.0
  {
    SumPositive(ps);
    SumDivided(ps, Sum(ps));
    QuotientPositive(Sum(ps), Sum(ps));
    DividedPositive(ps, Sum(ps));
  }

  predicate CutsNucleus(topP: real) {
    0.0 < topP < 1.0
  }

  /** Where the nucleus ends: the shortest prefix with mass at least `topP`. */
  ghost predicate IsCutoff(ps: seq<real>, topP: real, c: nat) {
    if CutsNucleus(topP) then
      1 <= c <= |ps| && Mass(ps, c) >= topP && forall k :: 0 <= k < c ==> Mass(ps, k) < topP
    else c == |ps|
  }

  method FindCutoff(ps: seq<real>, topP: real) returns (c: nat)
    requires ps != [] && Sum(ps) == 1.0
    ensures IsCutoff(ps, topP, c)
  {
    MassAll(ps);
    c := |ps|;
    if CutsNucleus(topP) {
      var cumsum := 0.0;
      for i := 0 to |ps|
        invariant c == |ps| && cumsum == Mass(ps, i)
        invariant forall k :: 0 <= k <= i ==> Mass(ps, k) < topP
      {
        MassStep(ps, i);
        cumsum := cumsum + ps[i];
        if cumsum >= topP {
          c := i + 1;
          break;
        }
      }
    }
  }

  /** The tokens left to draw from and their probabilities. */
  datatype Choice = Choice(candidates: seq<nat>, probs: seq<real>)

  /** What the code builds from one ranking. */
  ghost predicate IsChoiceFrom(
    logits: seq<real>, temperature: real, topK: nat, topP: real, exp: real -> real, order: seq<nat>, d: Choice)
  {
    temperature > 0.0 && PositiveExp(exp)
    && var scores := Scaled(logits, temperature);
    && IsRanking(scores, order) && KeptCount(|scores|, topK) <= |order|
    && var kept := order[..KeptCount(|scores|, topK)];
    && kept != []
    && var w := Weights(scores, kept, exp);
    && Sum(w) != 0.0
    && var p := Divided(w, Sum(w));
    && 0 < |d.candidates| <= |kept|
    && var c := |d.candidates|;
    && d.candidates == kept[..c] && IsCutoff(p, topP, c)
    && (if CutsNucleus(topP) then Mass(p, c) != 0.0 && d.probs == Divided(p[..c], Mass(p, c)) else d.probs == p)
  }

  /** Sorting, top-k, softmax, nucleus cut and renormalisation. */
  method BuildChoice(logits: seq<real>, temperature: real, topK: nat, topP: real, exp: real -> real)
    returns (d: Choice, ghost order: seq<nat>)
    requires temperature > 0.0 && logits != [] && PositiveExp(exp)
    ensures IsChoiceFrom(logits, temperature, topK, topP, exp, order, d)
  {
    var scores := Scaled(logits, temperature);
    var indices := Rank(scores);
    order := indices;
    RankingLength(scores, indices);
    if topK > 0 && topK < |indices| {
      indices := indices[..topK];
    }
    assert indices == order[..KeptCount(|scores|, topK)];
    var weights := Weights(scores, indices, exp);
    NormalisedIsDistribution(weights);
    var probs := Divided(weights, Sum(weights));
    var cutoff := FindCutoff(probs, topP);
    if CutsNucleus(topP) {
      SumPositive(probs[..cutoff]);
      d := Choice(indices[..cutoff], Divided(probs[..cutoff], Sum(probs[..cutoff])));
    } else {
      assert indices[..cutoff] == indices;
      d := Choice(indices, probs);
    }
  }

  // ── What the parameters mean ──────────────────────────────────────────────

  /** Top-k bounds the candidates, and without a nucleus cut decides their number:
      the `topK` best, or all of them when it is 0 or not below their number. */
  lemma TopKCounts(
    logits: seq<real>, temperature: real, topK: nat, topP: real, exp: real -> real, order: seq<nat>, d: Choice)
    requires IsChoiceFrom(logits, temperature, topK, topP, exp, order, d)
    ensures topK > 0 ==> |d.candidates| <= topK
    ensures !(0.0 < topP < 1.0) ==>
              |d.candidates| == if topK == 0 || topK >= |logits| then |logits| else topK
  {
  }

  lemma QuotientDifference(a: real, b: real, divisor: real)
    requires divisor > 0.0
    ensures a / divisor - b / divisor == (a - b) / divisor
  {
  }

  lemma QuotientOfQuotients(a: real, b: real, divisor: real)
    requires divisor != 0.0 && b != 0.0
    ensures b / divisor != 0.0 && (a / divisor) / (b / divisor) == a / b
  {
    var x, y := a / divisor, b / divisor;
    assert x * divisor == a && y * divisor == b;
    assert y != 0.0;
    var q := x / y;
    assert q * y == x;
    assert q * b == a by { assert (q * y) * divisor == q * (y * divisor); }
  }

  /** The weight of a candidate: `exp` of how far its logit is below the best one,
      divided by the temperature. */
  function WeightOf(logits: seq<real>, temperature: real, exp: real -> real, best: nat, x: nat): real
    requires temperature > 0.0 && best < |logits| && x < |logits|
  {
    exp((logits[x] - logits[best]) / temperature)
  }

  /** The candidates are tokens, and the first has the best logit. */
  lemma FirstIsBest(
    logits: seq<real>, temperature: real, topK: nat, topP: real, exp: real -> real, order: seq<nat>, d: Choice)
    requires IsChoiceFrom(logits, temperature, topK, topP, exp, order, d)
    ensures forall k :: 0 <= k < |d.candidates| ==> d.candidates[k] < |logits|
    ensures forall x :: 0 <= x < |logits| ==> logits[x] <= logits[d.candidates[0]]
  {
    var scores := Scaled(logits, temperature);
    assert forall k :: 0 <= k < |d.candidates| ==> d.candidates[k] == order[k];
    forall x | 0 <= x < |logits|
      ensures logits[x] <= logits[d.candidates[0]]
    {
      var at := InRanking(scores, order, x);
      assert scores[order[0]] >= scores[order[at]];
      DividedOrder(logits[order[0]], logits[x], temperature);
    }
  }

  function CandidateWeights(
    logits: seq<real>, temperature: real, exp: real -> real, candidates: seq<nat>): (w: seq<real>)
    requires temperature > 0.0 && candidates != [] && InRange(candidates, |logits|)
    ensures |w| == |candidates|
    ensures forall i :: 0 <= i < |w| ==> w[i] == WeightOf(logits, temperature, exp, candidates[0], candidates[i])
  {
    seq(|candidates|, i requires 0 <= i < |candidates| =>
      WeightOf(logits, temperature, exp, candidates[0], candidates[i]))
  }

  lemma QuotientsAgree(ws: seq<real>, divisor: real, b: real)
    requires divisor != 0.0 && b != 0.0
    ensures b / divisor != 0.0 && Divided(Divided(ws, divisor), b / divisor) == Divided(ws, b)
  {
    QuotientOfQuotients(0.0, b, divisor);
    forall i | 0 <= i < |ws|
      ensures (ws[i] / divisor) / (b / divisor) == ws[i] / b
    {
      QuotientOfQuotients(ws[i], b, divisor);
    }
  }

  lemma PrefixOfDivided(w: seq<real>, divisor: real, c: nat)
    requires divisor > 0.0 && c <= |w|
    ensures Divided(w, divisor)[..c] == Divided(w[..c], divisor)
    ensures Mass(Divided(w, divisor), c) == Sum(w[..c]) / divisor
  {
    assert Divided(w, divisor)[..c] == Divided(w[..c], divisor);
    SumDivided(w[..c], divisor);
  }

  /** Normalising twice is normalising once. */
  lemma Renormalised(w: seq<real>, c: nat)
    requires Positive(w) && 0 < c <= |w|
    ensures Sum(w) > 0.0 && Sum(w[..c]) > 0.0 && Mass(Divided(w, Sum(w)), c) != 0.0
    ensures var p := Divided(w, Sum(w)); Divided(p[..c], Mass(p, c)) == Divided(w[..c], Sum(w[..c]))
  {
    SumPositive(w);
    SumPositive(w[..c]);
    PrefixOfDivided(w, Sum(w), c);
    QuotientsAgree(w[..c], Sum(w), Sum(w[..c]));
  }

  /** The final probabilities are the softmax over the candidates: each is its weight
      over the sum of the candidates' weights, a weight being `exp` of how far the
      logit is below the best one, divided by the temperature. */
  lemma ProbabilitiesAreSoftmax(
    logits: seq<real>, temperature: real, topK: nat, topP: real, exp: real -> real, order: seq<nat>, d: Choice)
    requires IsChoiceFrom(logits, temperature, topK, topP, exp, order, d)
    ensures InRange(d.candidates, |logits|)
    ensures var w := CandidateWeights(logits, temperature, exp, d.candidates);
            Sum(w) > 0.0 && d.probs == Divided(w, Sum(w))
  {
    FirstIsBest(logits, temperature, topK, topP, exp, order, d);
    var scores, c := Scaled(logits, temperature), |d.candidates|;
    var kept := order[..KeptCount(|scores|, topK)];
    var w := Weights(scores, kept, exp);
    KeptWeights(logits, temperature, exp, kept, d.candidates);
    Renormalised(w, c);
    if !(0.0 < topP < 1.0) { assert w[..c] == w; }
  }

  lemma KeptWeights(logits: seq<real>, temperature: real, exp: real -> real, kept: seq<nat>, candidates: seq<nat>)
    requires temperature > 0.0 && InRange(kept, |logits|) && 0 < |candidates| <= |kept|
    requires candidates == kept[..|candidates|] && InRange(candidates, |logits|)
    ensures Weights(Scaled(logits, temperature), kept, exp)[..|candidates|]
         == CandidateWeights(logits, temperature, exp, candidates)
  {
    forall i | 0 <= i < |candidates|
      ensures Weights(Scaled(logits, temperature), kept, exp)[i]
           == WeightOf(logits, temperature, exp, candidates[0], candidates[i])
    {
      WeightIs(logits, temperature, exp, kept, i);
    }
  }

  lemma WeightIs(logits: seq<real>, temperature: real, exp: real -> real, kept: seq<nat>, i: nat)
    requires temperature > 0.0 && i < |kept| && InRange(kept, |logits|)
    ensures Weights(Scaled(logits, temperature), kept, exp)[i] == WeightOf(logits, temperature, exp, kept[0], kept[i])
  {
    QuotientDifference(logits[kept[i]], logits[kept[0]], temperature);
  }

  // ── Drawing ───────────────────────────────────────────────────────────────

  /** Candidate `j` owns the draws in (C[j], C[j+1]], the first one also 0. */
  ghost predicate Owns(probs: seq<real>, j: nat, r: real) {
    j < |probs| && r <= Mass(probs, j + 1) && (j > 0 ==> Mass(probs, j) < r)
  }

  method Draw(d: Choice, r: real) returns (token: nat, ghost j: nat, fellBack: bool)
    requires |d.candidates| == |d.probs| > 0
    requires Positive(d.probs) && Sum(d.probs) == 1.0 && 0.0 <= r <= 1.0
    ensures Owns(d.probs, j, r) && token == d.candidates[j]
    ensures !fellBack
  {
    MassAll(d.probs);
    token, j, fellBack := d.candidates[|d.candidates| - 1], |d.probs| - 1, true;
    var cumsum := 0.0;
    for i := 0 to |d.probs|
      invariant cumsum == Mass(d.probs, i) && fellBack
      invariant i > 0 ==> cumsum < r
    {
      MassStep(d.probs, i);
      cumsum := cumsum + d.probs[i];
      if cumsum >= r {
        token, j, fellBack := d.candidates[i], i, false;
        break;
      }
    }
  }

  /** `sample_next_token`. An empty logit slice with a positive temperature makes
      the source panic, so it is excluded. */
  method SampleNextToken(
    logits: seq<real>, eos: int, temperature: real, topK: nat, topP: real, r: real, exp: real -> real
  ) returns (token: int)
    requires temperature > 0.0 ==> logits != []
    requires PositiveExp(exp) && 0.0 <= r <= 1.0
    ensures temperature <= 0.0 && logits == [] ==> token == eos
    ensures temperature <= 0.0 && logits != [] ==> 0 <= token && IsLastArgmax(logits, token)
    ensures temperature > 0.0 ==>
              exists order, d, j: nat ::
                && IsChoiceFrom(logits, temperature, topK, topP, exp, order, d)
                && |d.probs| == |d.candidates| && Owns(d.probs, j, r) && token == d.candidates[j]
  {
    if temperature <= 0.0 {
      token := Greedy(logits, eos);
      return;
    }
    var d, order := BuildChoice(logits, temperature, topK, topP, exp);
    ChoiceIsDistribution(logits, temperature, topK, topP, exp, order, d);
    var t, j, fellBack := Draw(d, r);
    token := t;
  }

  // ── What the choice guarantees ────────────────────────────────────────────

  /** The softmax probabilities of the kept candidates, before the cut. */
  ghost function Softmax(scores: seq<real>, kept: seq<nat>, exp: real -> real): (p: seq<real>)
    requires kept != [] && InRange(kept, |scores|) && PositiveExp(exp)
    ensures |p| == |kept| && Positive(p) && Sum(p) == 1.0
    ensures Sum(Weights(scores, kept, exp)) > 0.0
    ensures p == Divided(Weights(scores, kept, exp), Sum(Weights(scores, kept, exp)))
  {
    NormalisedIsDistribution(Weights(scores, kept, exp));
    Divided(Weights(scores, kept, exp), Sum(Weights(scores, kept, exp)))
  }

  /** Whatever the parameters, the final probabilities are positive and sum to 1. */
  lemma ChoiceIsDistribution(
    logits: seq<real>, temperature: real, topK: nat, topP: real, exp: real -> real, order: seq<nat>, d: Choice)
    requires IsChoiceFrom(logits, temperature, topK, topP, exp, order, d)
    ensures |d.probs| == |d.candidates| > 0
    ensures Positive(d.probs) && Sum(d.probs) == 1.0
  {
    var scores := Scaled(logits, temperature);
    var kept := order[..KeptCount(|scores|, topK)];
    var p := Softmax(scores, kept, exp);
    if CutsNucleus(topP) {
      NormalisedIsDistribution(p[..|d.candidates|]);
    }
  }

  lemma InRanking(scores: seq<real>, order: seq<nat>, x: nat) returns (i: nat)
    requires IsRanking(scores, order) && x < |scores|
    ensures i < |order| && order[i] == x
  {
    assert Range(|scores|)[x] == x;
    assert x in multiset(Range(|scores|));
    assert x in multiset(order);
    i :| 0 <= i < |order| && order[i] == x;
  }

  lemma DividedOrder(a: real, b: real, divisor: real)
    requires divisor > 0.0 && a / divisor >= b / divisor
    ensures a >= b
  {
    assert (a / divisor) * divisor == a && (b / divisor) * divisor == b;
    assert (a / divisor) * divisor >= (b / divisor) * divisor;
  }

  /** Every candidate's logit is at least that of every token left out, whether
      top-k or the nucleus cut dropped it. */
  lemma CandidatesDominate(
    logits: seq<real>, temperature: real, topK: nat, topP: real, exp: real -> real, order: seq<nat>, d: Choice,
    i: nat, dropped: nat)
    requires IsChoiceFrom(logits, temperature, topK, topP, exp, order, d)
    requires i < |d.candidates| && dropped < |logits| && dropped !in d.candidates
    ensures d.candidates[i] < |logits| && logits[d.candidates[i]] >= logits[dropped]
  {
    var scores := Scaled(logits, temperature);
    var at := InRanking(scores, order, dropped);
    assert forall k :: 0 <= k < |d.candidates| ==> d.candidates[k] == order[k];
    assert i < at;
    DividedOrder(logits[order[i]], logits[dropped], temperature);
  }

  lemma SoftmaxDescends(scores: seq<real>, kept: seq<nat>, exp: real -> real, i: nat, j: nat)
    requires kept != [] && IsDescending(scores, kept) && PositiveExp(exp) && MonotoneExp(exp)
    requires i <= j < |kept|
    ensures Softmax(scores, kept, exp)[i] >= Softmax(scores, kept, exp)[j]
  {
    var w := Weights(scores, kept, exp);
    NormalisedIsDistribution(w);
    assert scores[kept[i]] >= scores[kept[j]];
    assert w[i] >= w[j];
    DivideMonotone(w[i], w[j], Sum(w));
  }

  lemma DivideMonotone(a: real, b: real, divisor: real)
    requires a >= b && divisor > 0.0
    ensures a / divisor >= b / divisor
  {
    assert (a - b) / divisor >= 0.0;
    assert a / divisor - b / divisor == (a - b) / divisor;
  }

  /** The mass of the candidates at the given positions. */
  function MassAt(ps: seq<real>, at: seq<nat>): real
    requires InRange(at, |ps|)
  {
    if at == [] then 0.0 else MassAt(ps, at[..|at| - 1]) + ps[at[|at| - 1]]
  }

  ghost predicate Increasing(at: seq<nat>) {
    forall i, j :: 0 <= i < j < |at| ==> at[i] < at[j]
  }

  lemma {:induction false} IncreasingAtLeast(at: seq<nat>, i: nat)
    requires Increasing(at) && i < |at|
    ensures at[i] >= i
  {
    if i > 0 { IncreasingAtLeast(at, i - 1); }
  }

  /** Of all sets of a given size, the leading one has the most mass. */
  lemma {:induction false} PrefixIsHeaviest(ps: seq<real>, at: seq<nat>)
    requires Increasing(at) && InRange(at, |ps|)
    requires forall i, j :: 0 <= i <= j < |ps| ==> ps[i] >= ps[j]
    ensures |at| <= |ps| && MassAt(ps, at) <= Mass(ps, |at|)
  {
    if at != [] {
      var n := |at| - 1;
      PrefixIsHeaviest(ps, at[..n]);
      IncreasingAtLeast(at, n);
      MassStep(ps, n);
    }
  }

  /** The nucleus is as small as any set of kept candidates can be: every set
      with fewer members, contiguous or not, has mass below `topP`. */
  lemma NucleusIsSmallest(
    logits: seq<real>, temperature: real, topK: nat, topP: real, exp: real -> real, order: seq<nat>, d: Choice,
    at: seq<nat>)
    requires IsChoiceFrom(logits, temperature, topK, topP, exp, order, d) && MonotoneExp(exp) && 0.0 < topP < 1.0
    requires var scores := Scaled(logits, temperature);
             InRange(at, KeptCount(|scores|, topK)) && Increasing(at) && |at| < |d.candidates|
    ensures var scores := Scaled(logits, temperature);
            MassAt(Softmax(scores, order[..KeptCount(|scores|, topK)], exp), at) < topP
  {
    var scores := Scaled(logits, temperature);
    var kept := order[..KeptCount(|scores|, topK)];
    var p := Softmax(scores, kept, exp);
    forall i, j | 0 <= i <= j < |p|
      ensures p[i] >= p[j]
    {
      SoftmaxDescends(scores, kept, exp, i, j);
    }
    PrefixIsHeaviest(p, at);
  }

  /** And the nucleus reaches it. */
  lemma NucleusReaches(
    logits: seq<real>, temperature: real, topK: nat, topP: real, exp: real -> real, order: seq<nat>, d: Choice)
    requires IsChoiceFrom(logits, temperature, topK, topP, exp, order, d) && 0.0 < topP < 1.0
    ensures var scores := Scaled(logits, temperature);
            var kept := order[..KeptCount(|scores|, topK)];
            Mass(Softmax(scores, kept, exp), |d.candidates|) >= topP
  {
  }

  /** Each draw in [0, 1] is owned by exactly one candidate. */
  lemma DrawsArePartitioned(probs: seq<real>, r: real)
    requires Positive(probs) && probs != [] && Sum(probs) == 1.0 && 0.0 <= r <= 1.0
    ensures exists j: nat :: Owns(probs, j, r)
    ensures forall i: nat, j: nat :: Owns(probs, i, r) && Owns(probs, j, r) ==> i == j
  {
    MassAll(probs);
    var j := OwnerExists(probs, r, |probs|);
    forall i: nat, k: nat | Owns(probs, i, r) && Owns(probs, k, r)
      ensures i == k
    {
      if i < k { MassIncreases(probs, i + 1, k); }
      if k < i { MassIncreases(probs, k + 1, i); }
    }
  }

  lemma {:induction false} OwnerExists(probs: seq<real>, r: real, k: nat) returns (j: nat)
    requires 0 < k <= |probs| && r <= Mass(probs, k)
    ensures Owns(probs, j, r)
  {
    if k == 1 || Mass(probs, k - 1) < r {
      j := k - 1;
    } else {
      j := OwnerExists(probs, r, k - 1);
    }
  }

  // ── The clock as a source of randomness ───────────────────────────────────

  const NANOS: nat := 1_000_000_000

  /** The draw used: the nanoseconds of the current second over `u32::MAX`. */
  function ClockDraw(nanos: nat): (r: real)
    requires nanos < NANOS
    ensures 0.0 <= r <= 1.0
  {
    nanos as real / 4294967295.0
  }

  const LARGEST_DRAW: real := 999999999.0 / 4294967295.0

  const U32_MAX: real := 4294967295.0

  /** Some reading of the clock draws candidate `j`. */
  ghost predicate EverDrawn(probs: seq<real>, j: nat) {
    exists nanos :: 0 <= nanos < NANOS && Owns(probs, j, ClockDraw(nanos))
  }

  /** The first clock reading past the candidates before `j`. */
  function FirstPast(probs: seq<real>, j: nat): int
    requires j <= |probs|
  {
    (Mass(probs, j) * U32_MAX).Floor + 1
  }

  lemma DrawCompare(nanos: nat, mass: real)
    requires nanos < NANOS
    ensures ClockDraw(nanos) <= mass <==> nanos as real <= mass * U32_MAX
    ensures mass < ClockDraw(nanos) <==> mass * U32_MAX < nanos as real
  {
    assert ClockDraw(nanos) * U32_MAX == nanos as real;
  }

  lemma OwnsScaled(probs: seq<real>, j: nat, nanos: nat)
    requires 0 < j < |probs| && nanos < NANOS
    ensures Owns(probs, j, ClockDraw(nanos))
       <==> Mass(probs, j) * U32_MAX < nanos as real && nanos as real <= Mass(probs, j + 1) * U32_MAX
  {
    DrawCompare(nanos, Mass(probs, j));
    DrawCompare(nanos, Mass(probs, j + 1));
  }

  lemma FirstIsLeast(low: real, nanos: int)
    ensures low < nanos as real <==> low.Floor + 1 <= nanos
  {
  }

  lemma OwnsFrom(probs: seq<real>, j: nat, nanos: nat)
    requires 0 < j < |probs| && nanos < NANOS
    ensures Owns(probs, j, ClockDraw(nanos))
       <==> FirstPast(probs, j) <= nanos && nanos as real <= Mass(probs, j + 1) * U32_MAX
  {
    OwnsScaled(probs, j, nanos);
    FirstIsLeast(Mass(probs, j) * U32_MAX, nanos);
  }

  lemma FirstPastPositive(probs: seq<real>, j: nat)
    requires Positive(probs) && j <= |probs|
    ensures FirstPast(probs, j) > 0
  {
    MassIncreases(probs, 0, j);
    assert Mass(probs, 0) == 0.0;
    ScaledNonNegative(Mass(probs, j));
  }

  lemma ScaledNonNegative(mass: real)
    requires mass >= 0.0
    ensures (mass * U32_MAX).Floor >= 0
  {
  }

  lemma FirstAlwaysDrawn(probs: seq<real>)
    requires Positive(probs) && probs != []
    ensures Owns(probs, 0, ClockDraw(0))
  {
    MassIncreases(probs, 0, 1);
    assert Mass(probs, 0) == 0.0;
    assert ClockDraw(0) == 0.0;
  }

  /** The clock's second has 10^9 readings over a scale of 2^32 - 1, so the draw
      never exceeds about 0.2329. A candidate after the first is ever drawn
      exactly when the first reading past those before it is a possible one and
      still falls in its own interval. */
  lemma EverDrawnIff(probs: seq<real>, j: nat)
    requires Positive(probs) && j < |probs|
    ensures EverDrawn(probs, j)
       <==> j == 0 || (FirstPast(probs, j) < NANOS && FirstPast(probs, j) as real <= Mass(probs, j + 1) * U32_MAX)
  {
    if j == 0 {
      FirstAlwaysDrawn(probs);
    } else {
      FirstPastPositive(probs, j);
      var past := FirstPast(probs, j);
      if past < NANOS { OwnsFrom(probs, j, past); }
      if EverDrawn(probs, j) {
        var nanos :| 0 <= nanos < NANOS && Owns(probs, j, ClockDraw(nanos));
        OwnsFrom(probs, j, nanos);
      }
    }
  }

  /** So a candidate is out of reach when those before it hold the largest draw,
      and the first one is the only one ever drawn exactly when it holds that
      much itself. */
  lemma ClockReachesOnlyTheHead(probs: seq<real>)
    requires Positive(probs) && probs != [] && Sum(probs) == 1.0
    ensures forall j :: 0 < j < |probs| && Mass(probs, j) >= LARGEST_DRAW ==> !EverDrawn(probs, j)
    ensures (forall nanos :: 0 <= nanos < NANOS ==> Owns(probs, 0, ClockDraw(nanos))) <==> probs[0] >= LARGEST_DRAW
  {
    MassStep(probs, 0);
    assert Mass(probs, 1) == probs[0];
    forall nanos | 0 <= nanos < NANOS
      ensures ClockDraw(nanos) <= LARGEST_DRAW
    {
      assert nanos as real <= 999999999.0;
    }
    assert ClockDraw(999999999) == LARGEST_DRAW;
    if probs[0] < LARGEST_DRAW {
      assert !Owns(probs, 0, ClockDraw(999999999));
    }
  }
}
