/** services/rule-engine: a list of rules, each of which may fail on its own. */
module RuleEngine {
  import opened Common
  import opened Reasons
  import opened Signals

  /** What evaluating a Python callable can come to. */
  datatype Try<+T> = Value(value: T) | Raised

  datatype Rule = Rule(code: string, weight: real, test: Enriched -> Try<bool>, evidence: Enriched -> Try<()>)

  /** A rule counts only when its predicate is true and its evidence can be built. */
  predicate Fires(r: Rule, e: Enriched) {
    r.test(e) == Value(true) && r.evidence(e).Value?
  }

  predicate Raises(r: Rule, e: Enriched) {
    r.test(e).Raised? || (r.test(e).value && r.evidence(e).Raised?)
  }

  function AsReason(r: Rule): Reason { Reason(r.code, r.weight) }

  function Hits(rules: seq<Rule>, e: Enriched): seq<Reason> {
    if rules == [] then []
    else (if Fires(rules[0], e) then [AsReason(rules[0])] else []) + Hits(rules[1..], e)
  }

  method Evaluate(rules: seq<Rule>, e: Enriched) returns (score: real, reasons: seq<Reason>)
    ensures score == Min(Sum(Hits(rules, e)), 100.0)
    ensures Descending(reasons) && forall w :: OfWeight(reasons, w) == OfWeight(Hits(rules, e), w)
    ensures reasons == SortDesc(Hits(rules, e))
  {
    var hits: seq<Reason> := [];
    score := 0.0;
    for i := 0 to |rules|
      invariant hits == Hits(rules[..i], e)
      invariant score == Sum(hits)
    {
      var rule := rules[i];
      HitsSnoc(rules, e, i);
      SumConcat(hits, [AsReason(rule)]);
      var holds := rule.test(e);
      if holds.Raised? { continue; }
      if holds.value {
        var evidence := rule.evidence(e);
        if evidence.Raised? { continue; }
        hits := hits + [AsReason(rule)];
        score := score + rule.weight;
      }
    }
    assert rules[..|rules|] == rules;
    score := Min(score, 100.0);
    reasons := SortDesc(hits);
    SortSorts(hits);
    forall w ensures OfWeight(reasons, w) == OfWeight(hits, w) { SortStable(hits, w); }
  }

  lemma {:induction false} HitsConcat(a: seq<Rule>, b: seq<Rule>, e: Enriched)
    ensures Hits(a + b, e) == Hits(a, e) + Hits(b, e)
  {
    if a == [] {
      assert a + b == b;
    } else {
      HitsConcat(a[1..], b, e);
      assert (a + b)[1..] == a[1..] + b;
    }
  }

  lemma HitsSnoc(rules: seq<Rule>, e: Enriched, i: nat)
    requires i < |rules|
    ensures Hits(rules[..i + 1], e) == Hits(rules[..i], e) + if Fires(rules[i], e) then [AsReason(rules[i])] else []
  {
    HitsConcat(rules[..i], [rules[i]], e);
    assert rules[..i + 1] == rules[..i] + [rules[i]];
  }

  // ---------------------------------------------------------------- the signal

  /** What `handle` publishes: the capped score and the ten heaviest reasons. */
  function RulesSignal(rules: seq<Rule>, e: Enriched): Part {
    Part(Min(Sum(Hits(rules, e)), 100.0), Top(Hits(rules, e), 10), false)
  }

  method Handle(rules: seq<Rule>, e: Enriched) returns (signal: Part)
    ensures signal == RulesSignal(rules, e)
    ensures !signal.degraded && |signal.reasons| == if |Hits(rules, e)| <= 10 then |Hits(rules, e)| else 10
    ensures (forall r :: r in rules ==> r.weight >= 10.0) ==> signal.score == Min(100.0, Sum(signal.reasons))
  {
    var score, reasons := Evaluate(rules, e);
    SortSorts(Hits(rules, e));
    signal := Part(score, if |reasons| <= 10 then reasons else reasons[..10], false);
    if forall r :: r in rules ==> r.weight >= 10.0 { ScoreIsKeptWeight(rules, e); }
  }

  function WithoutRaising(rules: seq<Rule>, e: Enriched): seq<Rule> {
    if rules == [] then []
    else (if Raises(rules[0], e) then [] else [rules[0]]) + WithoutRaising(rules[1..], e)
  }

  /** A broken rule changes nothing: the signal is that of the rules that do not raise. */
  lemma {:induction false} BrokenRulesIsolated(rules: seq<Rule>, e: Enriched)
    ensures Hits(rules, e) == Hits(WithoutRaising(rules, e), e)
    ensures RulesSignal(rules, e) == RulesSignal(WithoutRaising(rules, e), e)
  {
    if rules != [] {
      BrokenRulesIsolated(rules[1..], e);
      HitsConcat(if Raises(rules[0], e) then [] else [rules[0]], WithoutRaising(rules[1..], e), e);
    }
  }

  lemma {:induction false} HitsFromRules(rules: seq<Rule>, e: Enriched)
    ensures forall h :: h in Hits(rules, e) ==> exists r :: r in rules && Fires(r, e) && AsReason(r) == h
    ensures forall r :: r in rules && Fires(r, e) ==> AsReason(r) in Hits(rules, e)
  {
    if rules != [] {
      HitsFromRules(rules[1..], e);
      assert rules == [rules[0]] + rules[1..];
    }
  }

  /** The cut to ten loses no score: ten reasons of at least ten points already reach the cap. */
  lemma ScoreIsKeptWeight(rules: seq<Rule>, e: Enriched)
    requires forall r :: r in rules ==> r.weight >= 10.0
    ensures RulesSignal(rules, e).score == Min(100.0, Sum(RulesSignal(rules, e).reasons))
  {
    var hits := Hits(rules, e);
    var t := SortDesc(hits);
    SortSum(hits);
    if |t| > 10 {
      SortMembers(hits);
      HitsFromRules(rules, e);
      TenReachHundred(t);
    }
  }

  /** With one rule of weight `w` or more in the list, at most one hit weighs that much. */
  lemma OneHeavyRule(rules: seq<Rule>, e: Enriched, k: nat, w: real)
    requires k < |rules|
    requires forall i :: 0 <= i < |rules| && i != k ==> rules[i].weight < w
    ensures CountAtLeast(Hits(rules, e), w) <= 1
  {
    var a, b := rules[..k], rules[k + 1..];
    assert rules == a + ([rules[k]] + b);
    HitsConcat(a, [rules[k]] + b, e);
    HitsConcat([rules[k]], b, e);
    HitsFromRules(a, e);
    HitsFromRules(b, e);
    CountBound(Hits(a, e), w);
    CountBound(Hits([rules[k]], e), w);
    CountBound(Hits(b, e), w);
    CountConcat(Hits(a, e), Hits([rules[k]] + b, e), w);
    CountConcat(Hits([rules[k]], e), Hits(b, e), w);
  }

  // ---------------------------------------------------------------- the rule set

  const HIGH_RISK_MCC: set<string> := {"7995", "6051", "4829", "6211"}
  const SANCTIONED: set<string> := {"KP", "IR", "SY", "CU"}

  /** Python's `x or d`: a missing value and a zero both give the default. */
  function Or(x: Option<real>, d: real): real {
    if x.None? || x.value == 0.0 then d else x.value
  }

  /** A rule over a well-typed event: neither its predicate nor its evidence raises. */
  function Plain(code: string, weight: real, test: Enriched -> bool): Rule {
    Rule(code, weight, e => Value(test(e)), e => Value(()))
  }

  const RULE_SET: seq<Rule> := [
    Plain("R001", 30.0, (e: Enriched) => e.velocity.txnCount1m > 5),
    Plain("R002", 20.0, (e: Enriched) => e.velocity.txnCount1h > 25),
    Plain("R003", 25.0, (e: Enriched) => e.profile.avgTicket > 0.0 && e.transaction.amount > 5.0 * e.profile.avgTicket),
    Plain("R004", 40.0, (e: Enriched) =>
      Or(e.kmFromPrev, 0.0) > 500.0 && Or(e.secondsSincePrev, 1000000000.0) < 1800.0),
    Plain("R005", 20.0, (e: Enriched) => e.isNewDevice && e.transaction.amount > 25000.0),
    Plain("R006", 15.0, (e: Enriched) => e.transaction.merchantCategory in HIGH_RISK_MCC),
    Plain("R007", 60.0, (e: Enriched) => e.transaction.merchantCountry in SANCTIONED),
    Plain("R008", 30.0, (e: Enriched) => e.velocity.distinctCountries24h >= 3),
    Plain("R009", 25.0, (e: Enriched) => e.velocity.distinctDevices24h >= 4),
    Plain("R010", 25.0, (e: Enriched) => e.velocity.txnCount1h >= 10 && e.transaction.amount < 100.0),
    Plain("R011", 20.0, (e: Enriched) => e.isForeign && !e.profile.kycVerified),
    Plain("R012", 20.0, (e: Enriched) => e.profile.tenureDays < 30 && e.transaction.amount > 50000.0),
    Plain("R013", 15.0, (e: Enriched) => e.profile.chargebacks12m >= 2),
    Plain("R014", 20.0, (e: Enriched) =>
      e.profile.avgTicket > 0.0 && e.velocity.amountSum24h > 10.0 * e.profile.avgTicket),
    Plain("R015", 25.0, (e: Enriched) => e.transaction.channel == Atm && e.isForeign)
  ]

  const SANCTION_HIT: Reason := Reason("R007", 60.0)

  lemma SanctionRuleHeaviest()
    ensures |RULE_SET| == 15
    ensures RULE_SET[6] == Plain("R007", 60.0, (e: Enriched) => e.transaction.merchantCountry in SANCTIONED)
    ensures forall e: Enriched :: e.transaction.merchantCountry in SANCTIONED ==> Fires(RULE_SET[6], e)
    ensures RULE_SET[6] in RULE_SET && AsReason(RULE_SET[6]) == SANCTION_HIT
    ensures forall i :: 0 <= i < |RULE_SET| && i != 6 ==> RULE_SET[i].weight < 60.0
  {
  }

  const WEIGHTS: seq<real> := [30.0, 20.0, 25.0, 40.0, 20.0, 15.0, 60.0, 30.0, 25.0, 25.0, 20.0, 20.0, 15.0, 20.0, 25.0]

  const CODES: seq<string> := ["R001", "R002", "R003", "R004", "R005", "R006", "R007", "R008", "R009", "R010",
                               "R011", "R012", "R013", "R014", "R015"]

  lemma RuleTable()
    ensures |RULE_SET| == |WEIGHTS| == |CODES|
    ensures forall i :: 0 <= i < |RULE_SET| ==> RULE_SET[i].weight == WEIGHTS[i] && RULE_SET[i].code == CODES[i]
  {
  }

  /** On counters the rules fire from a bound on; where two bear on the same counter, the laxer fires
      with the stricter. */
  lemma CounterRules(e: Enriched)
    ensures Fires(RULE_SET[0], e) <==> e.velocity.txnCount1m >= 6
    ensures Fires(RULE_SET[1], e) <==> e.velocity.txnCount1h >= 26
    ensures Fires(RULE_SET[7], e) <==> e.velocity.distinctCountries24h > 2
    ensures Fires(RULE_SET[8], e) <==> e.velocity.distinctDevices24h > 3
    ensures Fires(RULE_SET[9], e) <==> e.velocity.txnCount1h > 9 && e.transaction.amount < 100.0
    ensures Fires(RULE_SET[12], e) <==> e.profile.chargebacks12m > 1
    ensures Fires(RULE_SET[1], e) && e.transaction.amount < 100.0 ==> Fires(RULE_SET[9], e)
  {
  }

  /** The rules on amounts and circumstances. */
  lemma AmountRules(e: Enriched)
    ensures Fires(RULE_SET[2], e) <==> 0.0 < 5.0 * e.profile.avgTicket < e.transaction.amount
    ensures Fires(RULE_SET[13], e) <==> 0.0 < 10.0 * e.profile.avgTicket < e.velocity.amountSum24h
    ensures Fires(RULE_SET[4], e) <==> e.isNewDevice && 25000.0 < e.transaction.amount
    ensures Fires(RULE_SET[5], e) <==> e.transaction.merchantCategory in HIGH_RISK_MCC
    ensures Fires(RULE_SET[10], e) <==> e.isForeign && !e.profile.kycVerified
    ensures Fires(RULE_SET[11], e) <==> e.profile.tenureDays < 30 && 50000.0 < e.transaction.amount
    ensures Fires(RULE_SET[14], e) <==> e.isForeign && e.transaction.channel == Atm
  {
  }

  /** Impossible travel is noticed unless no time at all has passed: a gap of zero seconds reads as
      no earlier transaction. A late event, with a negative gap, does fire. */
  lemma ImpossibleTravelFires(e: Enriched)
    ensures RULE_SET[3].code == "R004"
    ensures Fires(RULE_SET[3], e) <==>
            && e.kmFromPrev.Some? && e.kmFromPrev.value > 500.0
            && e.secondsSincePrev.Some? && e.secondsSincePrev.value < 1800.0 && e.secondsSincePrev.value != 0.0
  {
  }

  lemma SanctionedHit(e: Enriched)
    requires e.transaction.merchantCountry in SANCTIONED
    ensures SANCTION_HIT in RulesSignal(RULE_SET, e).reasons
    ensures CountAtLeast(RulesSignal(RULE_SET, e).reasons, 60.0) <= 1
  {
    var hits := Hits(RULE_SET, e);
    SanctionRuleHeaviest();
    OneHeavyRule(RULE_SET, e, 6, 60.0);
    assert SANCTION_HIT in hits by { HitsFromRules(RULE_SET, e); }
    TopSurvives(hits, SANCTION_HIT, 10);
    TopCount(hits, 10, 60.0);
  }
}
