/** services/risk-scoring, the arithmetic: `combine`, `to_decision`, and the decision record. */
module Scoring {
  import opened Common
  import opened Reasons
  import opened Rounding
  import opened Signals

  /** The tuning knobs of libs/common/config.py that the decision depends on. */
  datatype Settings = Settings(wRules: real, wMl: real, wGraph: real,
                               approveMax: real, challengeMax: real, reviewMax: real)

  const DEFAULTS: Settings := Settings(0.40, 0.35, 0.25, 30.0, 60.0, 85.0)

  type Parts = map<Source, Part>

  function Weight(st: Settings, s: Source): real {
    match s case RULES => st.wRules case ML => st.wMl case GRAPH => st.wGraph
  }

  ghost predicate WeightsNonNegative(st: Settings) {
    st.wRules >= 0.0 && st.wMl >= 0.0 && st.wGraph >= 0.0
  }

  function WeightOf(st: Settings, parts: Parts, s: Source): real {
    if s in parts then Weight(st, s) else 0.0
  }

  function TermOf(st: Settings, parts: Parts, s: Source): real {
    if s in parts then Weight(st, s) * parts[s].score else 0.0
  }

  function TotalWeight(st: Settings, parts: Parts): real {
    WeightOf(st, parts, RULES) + WeightOf(st, parts, ML) + WeightOf(st, parts, GRAPH)
  }

  function WeightedSum(st: Settings, parts: Parts): real {
    TermOf(st, parts, RULES) + TermOf(st, parts, ML) + TermOf(st, parts, GRAPH)
  }

  /** The weighted mean of the present scores; `denom` is `sum(...) or 1.0`. */
  function Blend(st: Settings, parts: Parts): real {
    var total := TotalWeight(st, parts);
    WeightedSum(st, parts) / if total == 0.0 then 1.0 else total
  }

  const HARD_WEIGHT: real := 50.0
  const HARD_FLOOR: real := 90.0

  predicate HardHit(parts: Parts) {
    RULES in parts && exists r | r in parts[RULES].reasons :: r.weight >= HARD_WEIGHT
  }

  function Floored(x: real, hard: bool): real { if hard then Max(x, HARD_FLOOR) else x }

  function Premium(x: real): real { Min(x * 1.05 + 3.0, 100.0) }

  function Alphabetical(s: Source): nat { match s case GRAPH => 0 case ML => 1 case RULES => 2 }

  /** `sorted(EXPECTED - set(present))` */
  function Missing(parts: Parts): (m: seq<Source>)
    ensures forall s :: s in m <==> s in EXPECTED - parts.Keys
    ensures forall i, j :: 0 <= i < j < |m| ==> Alphabetical(m[i]) < Alphabetical(m[j])
  {
    (if GRAPH in parts then [] else [GRAPH]) + (if ML in parts then [] else [ML])
    + (if RULES in parts then [] else [RULES])
  }

  function Unrounded(st: Settings, parts: Parts): real {
    var score := Floored(Blend(st, parts), HardHit(parts));
    Min(if Missing(parts) != [] then Premium(score) else score, 100.0)
  }

  function Combine(st: Settings, parts: Parts): (real, seq<Source>) {
    (Round2(Unrounded(st, parts)), Missing(parts))
  }

  function Score(st: Settings, parts: Parts): real { Combine(st, parts).0 }

  datatype Decision = APPROVE | CHALLENGE | REVIEW | DECLINE

  function ToDecision(st: Settings, score: real): Decision {
    if score <= st.approveMax then APPROVE
    else if score <= st.challengeMax then CHALLENGE
    else if score <= st.reviewMax then REVIEW
    else DECLINE
  }

  function Severity(d: Decision): nat {
    match d case APPROVE => 0 case CHALLENGE => 1 case REVIEW => 2 case DECLINE => 3
  }

  const LEVELS: seq<Decision> := [APPROVE, CHALLENGE, REVIEW, DECLINE]

  function Thresholds(st: Settings): seq<real> { [st.approveMax, st.challengeMax, st.reviewMax] }

  /** Thresholds in any order: the decision is as severe as there are thresholds before the first that the
      score does not exceed. */
  lemma BandsExact(st: Settings, x: real)
    ensures var k, ts := Severity(ToDecision(st, x)), Thresholds(st);
            && k <= 3 && ToDecision(st, x) == LEVELS[k]
            && (forall i :: 0 <= i < k ==> ts[i] < x) && (k < 3 ==> x <= ts[k])
  {
  }

  /** With the default thresholds the levels end at 30, 60 and 85, these included. */
  lemma DefaultLevels(x: real)
    ensures ToDecision(DEFAULTS, x) == APPROVE <==> x <= 30.0
    ensures ToDecision(DEFAULTS, x) == CHALLENGE <==> 30.0 < x <= 60.0
    ensures ToDecision(DEFAULTS, x) == REVIEW <==> 60.0 < x <= 85.0
    ensures ToDecision(DEFAULTS, x) == DECLINE <==> 85.0 < x
  {
  }

  /** Thresholds in order: it is as severe as there are thresholds strictly below the score. */
  lemma BandsCounted(st: Settings, x: real)
    requires st.approveMax <= st.challengeMax <= st.reviewMax
    ensures Severity(ToDecision(st, x)) == |set i | 0 <= i < 3 && Thresholds(st)[i] < x|
  {
    var k, ts := Severity(ToDecision(st, x)), Thresholds(st);
    BandsExact(st, x);
    assert forall i :: 0 <= i < 3 ==> (ts[i] < x <==> i < k);
    assert (set i | 0 <= i < 3 && ts[i] < x)
        == if k == 0 then {} else if k == 1 then {0} else if k == 2 then {0, 1} else {0, 1, 2};
  }

  // ---------------------------------------------------------------- the decision record

  datatype Context = Context(customerId: string, cardId: string, amount: real, currency: string)

  datatype RiskDecision = RiskDecision(txn: string, context: Context, score: real, decision: Decision,
                                       rulesScore: Option<real>, mlScore: Option<real>, graphScore: Option<real>,
                                       reasons: seq<Reason>, missing: seq<Source>)

  const KEPT_REASONS: nat := 8

  function PartScore(parts: Parts, s: Source): Option<real> {
    if s in parts then Some(parts[s].score) else None
  }

  /** All reasons, part by part in the order the hash returned its fields. */
  function AllReasons(parts: Parts, order: seq<Source>): seq<Reason> {
    if order == [] then []
    else (if order[0] in parts then parts[order[0]].reasons else []) + AllReasons(parts, order[1..])
  }

  function BuildDecision(st: Settings, txn: string, ctx: Context, parts: Parts, order: seq<Source>): RiskDecision {
    var (score, missing) := Combine(st, parts);
    RiskDecision(txn, ctx, score, ToDecision(st, score),
                 PartScore(parts, RULES), PartScore(parts, ML), PartScore(parts, GRAPH),
                 Top(AllReasons(parts, order), KEPT_REASONS), missing)
  }

  // ---------------------------------------------------------------- the blend

  lemma DivideMonotone(m: real, n: real, d: real)
    requires d > 0.0 && m <= n
    ensures m / d <= n / d
  {
    var p, q := m / d, n / d;
    assert p * d == m && q * d == n;
    assert p > q ==> p * d > q * d;
  }

  lemma DivideBetween(n: real, d: real, lo: real, hi: real)
    requires d > 0.0 && lo * d <= n <= hi * d
    ensures lo <= n / d <= hi
  {
    DivideMonotone(lo * d, n, d);
    DivideMonotone(n, hi * d, d);
    assert lo * d / d == lo && hi * d / d == hi;
  }

  predicate Within(lo: real, w: real, term: real, hi: real) { lo * w <= term <= hi * w }

  lemma MeanOfThree(x: real, y: real, z: real, tx: real, ty: real, tz: real, lo: real, hi: real)
    requires x + y + z > 0.0
    requires Within(lo, x, tx, hi) && Within(lo, y, ty, hi) && Within(lo, z, tz, hi)
    ensures lo <= (tx + ty + tz) / (x + y + z) <= hi
  {
    assert lo * (x + y + z) == lo * x + lo * y + lo * z;
    assert hi * (x + y + z) == hi * x + hi * y + hi * z;
    DivideBetween(tx + ty + tz, x + y + z, lo, hi);
  }

  lemma TermBetween(st: Settings, parts: Parts, s: Source, lo: real, hi: real)
    requires Weight(st, s) >= 0.0
    requires s in parts ==> lo <= parts[s].score <= hi
    ensures TermWithin(st, parts, s, lo, hi)
  {
    if s in parts {
      Scaled(lo, parts[s].score, hi, Weight(st, s));
    } else {
      assert Within(lo, 0.0, 0.0, hi);
    }
  }

  lemma Scaled(lo: real, x: real, hi: real, w: real)
    requires lo <= x <= hi && w >= 0.0
    ensures Within(lo, w, w * x, hi)
  {
  }

  /** The blend is a mean: it stays between any bounds on the scores that are present. */
  lemma BlendIsMean(st: Settings, parts: Parts, lo: real, hi: real)
    requires WeightsNonNegative(st)
    requires forall s :: s in parts ==> lo <= parts[s].score <= hi
    ensures TotalWeight(st, parts) > 0.0 ==> lo <= Blend(st, parts) <= hi
    ensures TotalWeight(st, parts) == 0.0 ==> Blend(st, parts) == 0.0
  {
    TermBetween(st, parts, RULES, lo, hi);
    TermBetween(st, parts, ML, lo, hi);
    TermBetween(st, parts, GRAPH, lo, hi);
    if TotalWeight(st, parts) > 0.0 { SomeWeight(st, parts, lo, hi); }
    if TotalWeight(st, parts) == 0.0 { NoWeight(st, parts); }
  }

  predicate TermWithin(st: Settings, parts: Parts, s: Source, lo: real, hi: real) {
    Within(lo, WeightOf(st, parts, s), TermOf(st, parts, s), hi)
  }

  lemma SomeWeight(st: Settings, parts: Parts, lo: real, hi: real)
    requires TotalWeight(st, parts) > 0.0
    requires TermWithin(st, parts, RULES, lo, hi) && TermWithin(st, parts, ML, lo, hi)
    requires TermWithin(st, parts, GRAPH, lo, hi)
    ensures lo <= Blend(st, parts) <= hi
  {
    MeanOfThree(WeightOf(st, parts, RULES), WeightOf(st, parts, ML), WeightOf(st, parts, GRAPH),
                TermOf(st, parts, RULES), TermOf(st, parts, ML), TermOf(st, parts, GRAPH), lo, hi);
  }

  lemma NoWeight(st: Settings, parts: Parts)
    requires WeightsNonNegative(st) && TotalWeight(st, parts) == 0.0
    ensures Blend(st, parts) == 0.0
  {
    assert TermOf(st, parts, RULES) == 0.0 && TermOf(st, parts, ML) == 0.0 && TermOf(st, parts, GRAPH) == 0.0;
  }

  lemma ScoreRange(st: Settings, parts: Parts)
    ensures Score(st, parts) <= 100.0
    ensures WeightsNonNegative(st) && (forall s :: s in parts ==> 0.0 <= parts[s].score <= 100.0) ==>
              Score(st, parts) >= 0.0
  {
    var x := Unrounded(st, parts);
    RoundBetween(Min(x, 100.0), if x < 0.0 then x.Floor else 0, 100);
    if WeightsNonNegative(st) && forall s :: s in parts ==> 0.0 <= parts[s].score <= 100.0 {
      BlendIsMean(st, parts, 0.0, 100.0);
      RoundBetween(x, 0, 100);
    }
  }

  // ---------------------------------------------------------------- monotonicity

  /** Same signals, none of them lower, and no hard hit lost. */
  ghost predicate AtLeastAsRisky(a: Parts, b: Parts) {
    && a.Keys == b.Keys
    && (forall s :: s in a ==> a[s].score <= b[s].score)
    && (HardHit(a) ==> HardHit(b))
  }

  lemma BlendMonotone(st: Settings, a: Parts, b: Parts)
    requires WeightsNonNegative(st) && a.Keys == b.Keys
    requires forall s :: s in a ==> a[s].score <= b[s].score
    ensures Blend(st, a) <= Blend(st, b)
  {
    var t := TotalWeight(st, a);
    assert t == TotalWeight(st, b);
    TermMonotone(st, a, b, RULES);
    TermMonotone(st, a, b, ML);
    TermMonotone(st, a, b, GRAPH);
    if t > 0.0 { DivideMonotone(WeightedSum(st, a), WeightedSum(st, b), t); }
  }

  lemma TermMonotone(st: Settings, a: Parts, b: Parts, s: Source)
    requires Weight(st, s) >= 0.0 && a.Keys == b.Keys
    requires s in a ==> a[s].score <= b[s].score
    ensures TermOf(st, a, s) <= TermOf(st, b, s)
  {
  }

  /** Raising a signal or adding a hard hit never lowers the score, through floor, premium, cap and rounding. */
  lemma ScoreMonotone(st: Settings, a: Parts, b: Parts)
    requires WeightsNonNegative(st) && AtLeastAsRisky(a, b)
    ensures Score(st, a) <= Score(st, b)
    ensures Severity(ToDecision(st, Score(st, a))) <= Severity(ToDecision(st, Score(st, b)))
  {
    BlendMonotone(st, a, b);
    assert Missing(a) == Missing(b);
    RoundMonotone(Unrounded(st, a), Unrounded(st, b));
    SeverityMonotone(st, Score(st, a), Score(st, b));
  }

  /** Holds for thresholds in any order, since each comparison fails for good as the score rises. */
  lemma SeverityMonotone(st: Settings, x: real, y: real)
    requires x <= y
    ensures Severity(ToDecision(st, x)) <= Severity(ToDecision(st, y))
  {
  }

  /** Nothing counts but the scores and the weights of the rules' reasons: neither the degraded flags nor
      other evidence. */
  lemma EvidenceIgnored(st: Settings, a: Parts, b: Parts)
    requires a.Keys == b.Keys && forall s :: s in a ==> a[s].score == b[s].score
    requires RULES in a ==> a[RULES].reasons == b[RULES].reasons
    ensures Combine(st, a) == Combine(st, b)
  {
    TermSame(st, a, b, RULES);
    TermSame(st, a, b, ML);
    TermSame(st, a, b, GRAPH);
    assert HardHit(a) == HardHit(b);
  }

  lemma TermSame(st: Settings, a: Parts, b: Parts, s: Source)
    requires a.Keys == b.Keys && (s in a ==> a[s].score == b[s].score)
    ensures TermOf(st, a, s) == TermOf(st, b, s) && WeightOf(st, a, s) == WeightOf(st, b, s)
  {
  }

  function WithReason(p: Part, r: Reason): Part { p.(reasons := p.reasons + [r]) }

  /** One more reason of the rules lifts the score to the floor from a weight of 50 on, and below that
      changes nothing. */
  lemma HardFromFifty(st: Settings, parts: Parts, r: Reason)
    requires Full(parts) && !HardHit(parts) && Blend(st, parts) <= 90.0
    ensures Score(st, parts[RULES := WithReason(parts[RULES], r)]) ==
            if r.weight >= 50.0 then 90.0 else Score(st, parts)
  {
    var more := parts[RULES := WithReason(parts[RULES], r)];
    assert HardHit(more) <==> r.weight >= 50.0 by {
      assert more[RULES].reasons[|parts[RULES].reasons|] == r;
    }
    TermSame(st, parts, more, RULES);
    TermSame(st, parts, more, ML);
    TermSame(st, parts, more, GRAPH);
    assert Missing(more) == Missing(parts) == [];
    RoundExact(9000);
  }

  // ---------------------------------------------------------------- leaving one signal out

  ghost predicate Full(parts: Parts) { parts.Keys == EXPECTED }

  /** Left: weight times how far the signal stands above the blend of the others.
      Right: total weight times what the premium adds to that blend. */
  ghost predicate PremiumCovers(st: Settings, parts: Parts, s: Source)
    requires s in parts
  {
    Covers(Weight(st, s), parts[s].score, Blend(st, parts - {s}), TotalWeight(st, parts))
  }

  predicate Covers(w: real, x: real, rest: real, total: real) { w * (x - rest) <= total * (0.05 * rest + 3.0) }

  /** Two means of which the second lacks a value `x` of weight `w`. */
  predicate Balanced(full: real, rest: real, total: real, w: real, x: real) {
    && full * total == rest * (total - w) + w * x
    && total >= 0.0 && (total == 0.0 ==> w == 0.0 && full == 0.0 && rest == 0.0)
  }

  lemma DropWeights(st: Settings, parts: Parts, s: Source)
    requires Full(parts)
    ensures TotalWeight(st, parts) == TotalWeight(st, parts - {s}) + Weight(st, s)
    ensures WeightedSum(st, parts) == WeightedSum(st, parts - {s}) + Weight(st, s) * parts[s].score
  {
  }

  lemma BlendTimesTotal(st: Settings, parts: Parts)
    requires WeightsNonNegative(st)
    ensures Blend(st, parts) * TotalWeight(st, parts) == WeightedSum(st, parts)
  {
    var t := TotalWeight(st, parts);
    if t == 0.0 {
      assert forall s :: s in parts ==> Weight(st, s) == 0.0;
    }
  }

  /** Before floor, cap and rounding: dropping a signal does not lower the score exactly when the premium covers it. */
  lemma LeaveOneOutExact(st: Settings, parts: Parts, s: Source)
    requires WeightsNonNegative(st) && Full(parts)
    ensures Blend(st, parts) <= Blend(st, parts - {s}) * 1.05 + 3.0 <==> PremiumCovers(st, parts, s)
  {
    BlendsBalanced(st, parts, s);
    Gap(Blend(st, parts), Blend(st, parts - {s}), TotalWeight(st, parts), Weight(st, s), parts[s].score);
  }

  lemma BlendsBalanced(st: Settings, parts: Parts, s: Source)
    requires WeightsNonNegative(st) && Full(parts)
    ensures Balanced(Blend(st, parts), Blend(st, parts - {s}), TotalWeight(st, parts), Weight(st, s), parts[s].score)
  {
    DropWeights(st, parts, s);
    BlendTimesTotal(st, parts);
    BlendTimesTotal(st, parts - {s});
    assert TotalWeight(st, parts - {s}) == TotalWeight(st, parts) - Weight(st, s);
    TotalsNonNegative(st, parts, s);
  }

  lemma TotalsNonNegative(st: Settings, parts: Parts, s: Source)
    requires WeightsNonNegative(st) && Full(parts)
    ensures TotalWeight(st, parts) >= 0.0
    ensures TotalWeight(st, parts) == 0.0 ==>
              Weight(st, s) == 0.0 && Blend(st, parts) == 0.0 && Blend(st, parts - {s}) == 0.0
  {
    if TotalWeight(st, parts) == 0.0 {
      ZeroWeights(st, parts);
      ZeroWeights(st, parts - {s});
    }
  }

  lemma ZeroWeights(st: Settings, parts: Parts)
    requires st.wRules == 0.0 && st.wMl == 0.0 && st.wGraph == 0.0
    ensures Blend(st, parts) == 0.0
  {
    assert TermOf(st, parts, RULES) == 0.0 && TermOf(st, parts, ML) == 0.0 && TermOf(st, parts, GRAPH) == 0.0;
  }

  lemma Gap(full: real, rest: real, total: real, w: real, x: real)
    requires Balanced(full, rest, total, w, x)
    ensures full <= rest * 1.05 + 3.0 <==> Covers(w, x, rest, total)
  {
    assert rest * (total - w) == rest * total - rest * w;
    assert total * (rest * 1.05 + 3.0 - full) == total * (0.05 * rest + 3.0) - w * (x - rest);
    if total > 0.0 { SameSign(total, rest * 1.05 + 3.0 - full); }
  }

  lemma SameSign(t: real, g: real)
    requires t > 0.0
    ensures t * g >= 0.0 <==> g >= 0.0
  {
  }

  /** What scores are published with: nothing outside 0 to 100. */
  predicate InRange(parts: Parts) { forall x :: x in parts ==> 0.0 <= parts[x].score <= 100.0 }

  /** When dropping `s` does not lower the score: the premium covers it, or the floor hides that it
      does not; and where the floor goes with the rules, the survivors make up for it. */
  ghost predicate NoDiscount(st: Settings, parts: Parts, s: Source)
    requires s in parts
  {
    if !HardHit(parts) then PremiumCovers(st, parts, s)
    else if s != RULES then Blend(st, parts) <= 97.5 || PremiumCovers(st, parts, s)
    else PremiumCovers(st, parts, s) && Blend(st, parts - {s}) * 1.05 >= 87.0
  }

  /** Floor, premium and cap, on the blends with and without a signal. */
  lemma FloorAndPremium(full: real, rest: real, hard: bool, kept: bool)
    requires 0.0 <= full <= 100.0 && 0.0 <= rest <= 100.0 && (kept ==> hard)
    ensures Min(Floored(full, hard), 100.0) <= Min(Premium(Floored(rest, kept)), 100.0) <==>
              if !hard then full <= rest * 1.05 + 3.0
              else if kept then full <= 97.5 || full <= rest * 1.05 + 3.0
              else full <= rest * 1.05 + 3.0 && rest * 1.05 >= 87.0
  {
  }

  lemma BothUnrounded(st: Settings, parts: Parts, s: Source)
    requires Full(parts)
    ensures Unrounded(st, parts) == Min(Floored(Blend(st, parts), HardHit(parts)), 100.0)
    ensures HardHit(parts - {s}) == (HardHit(parts) && s != RULES)
    ensures Unrounded(st, parts - {s})
         == Min(Premium(Floored(Blend(st, parts - {s}), HardHit(parts - {s}))), 100.0)
  {
    assert s in Missing(parts - {s});
  }

  /** The exact law: before rounding, dropping a signal lowers the score exactly when `NoDiscount`
      fails. After rounding it does not when it did not before, and it does when it did by more than a cent. */
  lemma LeaveOneOutIff(st: Settings, parts: Parts, s: Source)
    requires WeightsNonNegative(st) && Full(parts) && InRange(parts)
    ensures Unrounded(st, parts) <= Unrounded(st, parts - {s}) <==> NoDiscount(st, parts, s)
    ensures NoDiscount(st, parts, s) ==> Score(st, parts) <= Score(st, parts - {s})
    ensures Unrounded(st, parts) > Unrounded(st, parts - {s}) + 0.01 ==> Score(st, parts) > Score(st, parts - {s})
  {
    BlendInRange(st, parts);
    BlendInRange(st, parts - {s});
    BothUnrounded(st, parts, s);
    LeaveOneOutExact(st, parts, s);
    FloorAndPremium(Blend(st, parts), Blend(st, parts - {s}), HardHit(parts), HardHit(parts - {s}));
    RoundApart(Unrounded(st, parts), Unrounded(st, parts - {s}));
  }

  lemma RoundApart(x: real, y: real)
    ensures x <= y ==> Round2(x) <= Round2(y)
    ensures x > y + 0.01 ==> Round2(x) > Round2(y)
  {
    if x <= y { RoundMonotone(x, y); }
  }

  /** And on the score as returned: the blend of all three rounds to no more than the survivors' score,
      and if the hard hit is dropped, the survivors reach the floor without it. */
  lemma LeaveOneOutRounded(st: Settings, parts: Parts, s: Source)
    requires WeightsNonNegative(st) && Full(parts) && InRange(parts)
    ensures Score(st, parts) <= Score(st, parts - {s}) <==>
              var c := Cents(Unrounded(st, parts - {s}));
              RoundsTo(Blend(st, parts), c) && (s == RULES && HardHit(parts) ==> c >= 9000)
  {
    var full, rest, c := Blend(st, parts), Blend(st, parts - {s}), Cents(Unrounded(st, parts - {s}));
    BlendInRange(st, parts);
    BlendInRange(st, parts - {s});
    BothUnrounded(st, parts, s);
    RoundsToMeans(Unrounded(st, parts), c);
    RoundsToFloored(full, rest, HardHit(parts), HardHit(parts - {s}), c);
  }

  lemma RoundsToFloored(full: real, rest: real, hard: bool, kept: bool, c: int)
    requires 0.0 <= full <= 100.0 && 0.0 <= rest <= 100.0 && (kept ==> hard)
    requires c == Cents(Min(Premium(Floored(rest, kept)), 100.0))
    ensures RoundsTo(Min(Floored(full, hard), 100.0), c) <==> RoundsTo(full, c) && (hard && !kept ==> c >= 9000)
  {
  }

  lemma BlendInRange(st: Settings, parts: Parts)
    requires WeightsNonNegative(st) && InRange(parts)
    ensures 0.0 <= Blend(st, parts) <= 100.0
  {
    BlendIsMean(st, parts, 0.0, 100.0);
    if TotalWeight(st, parts) == 0.0 { NoWeight(st, parts); }
  }

  /** Whatever the range of the scores, one half of it: a covered signal that carries no hard hit can be dropped. */
  lemma LeaveOneOut(st: Settings, parts: Parts, s: Source)
    requires WeightsNonNegative(st) && Full(parts) && PremiumCovers(st, parts, s)
    requires !(s == RULES && HardHit(parts))
    ensures Score(st, parts) <= Score(st, parts - {s})
  {
    LeaveOneOutExact(st, parts, s);
    assert HardHit(parts - {s}) == HardHit(parts);
    assert s in Missing(parts - {s});
    RoundMonotone(Unrounded(st, parts), Unrounded(st, parts - {s}));
  }

  lemma ZeroCovered(w: real, total: real, rest: real)
    requires w >= 0.0 && total >= 0.0 && rest >= 0.0
    ensures Covers(w, 0.0, rest, total)
  {
    SameSignOrZero(w, rest);
    SameSignOrZero(total, 0.05 * rest + 3.0);
  }

  lemma SameSignOrZero(x: real, y: real)
    requires x >= 0.0 && y >= 0.0
    ensures x * y >= 0.0 && x * (0.0 - y) <= 0.0
  {
  }

  lemma BlendNonNegative(st: Settings, parts: Parts)
    requires WeightsNonNegative(st)
    requires forall x :: x in parts ==> parts[x].score >= 0.0
    ensures Blend(st, parts) >= 0.0
  {
    TermBetween(st, parts, RULES, 0.0, if RULES in parts then parts[RULES].score else 0.0);
    TermBetween(st, parts, ML, 0.0, if ML in parts then parts[ML].score else 0.0);
    TermBetween(st, parts, GRAPH, 0.0, if GRAPH in parts then parts[GRAPH].score else 0.0);
    DivideMonotone(0.0, WeightedSum(st, parts), if TotalWeight(st, parts) == 0.0 then 1.0 else TotalWeight(st, parts));
  }

  /** A degraded analyser reports a zero, and the zero is blended in: the score is never
      higher than if the signal had not arrived at all. */
  lemma DegradedZeroDrags(st: Settings, parts: Parts, s: Source)
    requires WeightsNonNegative(st) && Full(parts)
    requires forall x :: x in parts ==> parts[x].score >= 0.0
    requires parts[s].score == 0.0 && !(s == RULES && HardHit(parts))
    ensures Score(st, parts) <= Score(st, parts - {s})
  {
    BlendNonNegative(st, parts - {s});
    TotalsNonNegative(st, parts, s);
    ZeroCovered(Weight(st, s), TotalWeight(st, parts), Blend(st, parts - {s}));
    LeaveOneOut(st, parts, s);
  }

  function Bare(score: real): Part { Part(score, [], false) }

  /** "Never a discount" is false as a general law: losing a lone high signal, which the premium does
      not cover, discounts the score, and losing the rules signal loses the hard hit with it, covered or not. */
  lemma MissingSignalCanDiscount()
    ensures var parts := map[RULES := Bare(0.0), ML := Bare(0.0), GRAPH := Bare(100.0)];
            && !PremiumCovers(DEFAULTS, parts, GRAPH)
            && Score(DEFAULTS, parts) == 25.0 && Score(DEFAULTS, parts - {GRAPH}) == 3.0
    ensures var parts := map[RULES := Part(60.0, [Reason("R007", 60.0)], false), ML := Bare(60.0), GRAPH := Bare(60.0)];
            && PremiumCovers(DEFAULTS, parts, RULES)
            && Score(DEFAULTS, parts) == 90.0 && Score(DEFAULTS, parts - {RULES}) == 66.0
  {
    RoundExact(2500);
    RoundExact(300);
    RoundExact(9000);
    RoundExact(6600);
    var p := map[RULES := Bare(0.0), ML := Bare(0.0), GRAPH := Bare(100.0)];
    assert !HardHit(p) && !HardHit(p - {GRAPH});
    assert Blend(DEFAULTS, p) == 25.0 && Blend(DEFAULTS, p - {GRAPH}) == 0.0;
    var q := map[RULES := Part(60.0, [Reason("R007", 60.0)], false), ML := Bare(60.0), GRAPH := Bare(60.0)];
    assert q[RULES].reasons[0].weight >= HARD_WEIGHT;
    assert HardHit(q) && !HardHit(q - {RULES});
    assert Blend(DEFAULTS, q) == 60.0 && Blend(DEFAULTS, q - {RULES}) == 60.0;
  }

  /** While the floor stays it can hide that the premium does not cover a signal. */
  lemma FloorCanHideDiscount()
    ensures var parts := map[RULES := Part(60.0, [Reason("R007", 60.0)], false), ML := Bare(0.0), GRAPH := Bare(100.0)];
            && !PremiumCovers(DEFAULTS, parts, GRAPH)
            && Score(DEFAULTS, parts) == 90.0 && Score(DEFAULTS, parts - {GRAPH}) == 97.5
  {
    RoundExact(9000);
    RoundExact(9750);
    var p := map[RULES := Part(60.0, [Reason("R007", 60.0)], false), ML := Bare(0.0), GRAPH := Bare(100.0)];
    assert p[RULES].reasons[0].weight >= HARD_WEIGHT;
    assert HardHit(p) && HardHit(p - {GRAPH});
    assert Blend(DEFAULTS, p) == 49.0 && Blend(DEFAULTS, p - {GRAPH}) == 32.0;
  }
}
