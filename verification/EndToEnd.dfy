/** From an enriched transaction through the three analysers to the decision. */
module EndToEnd {
  import opened Common
  import opened Reasons
  import opened Rounding
  import opened Signals
  import opened Scoring
  import RuleEngine
  import GraphService
  import MlService
  import FanIn
  import FanInOwners
  import FanInTiming
  import FanInSafety
  import FanInProgress
  import FanInDelivered
  import FanInPublished

  /** What an analyser may publish for an enriched transaction, on whatever model and graph it finds. */
  ghost predicate Emitted(e: Enriched, x: Source, part: Part) {
    match x
    case RULES => part == RuleEngine.RulesSignal(RuleEngine.RULE_SET, e)
    case ML => exists ml :: MlService.Valid(ml) && part == MlService.MlSignal(ml)
    case GRAPH => exists graph :: part == GraphService.GraphSignal(graph)
  }

  /** Any subset of such signals, provided RULES is among them. */
  ghost predicate SignalsOf(parts: Parts, e: Enriched) {
    RULES in parts && forall x :: x in parts ==> Emitted(e, x, parts[x])
  }

  /** `hgetall` returns every stored signal once, in an order of its own. */
  ghost predicate ListsParts(parts: Parts, order: seq<Source>) {
    multiset(order) == multiset(parts.Keys)
  }

  ghost predicate ThresholdsBelowFloor(st: Settings) {
    st.approveMax < HARD_FLOOR && st.challengeMax < HARD_FLOOR && st.reviewMax < HARD_FLOOR
  }

  // ---------------------------------------------------------------- the decision

  lemma HardHitScores(st: Settings, parts: Parts)
    requires HardHit(parts)
    ensures Score(st, parts) >= HARD_FLOOR
  {
    RoundBetween(Unrounded(st, parts), 90, 100);
  }

  /** A hard rule hit is declined whatever else is known, exactly when every threshold is below the floor. */
  lemma HardHitDeclinedIff(st: Settings)
    ensures ThresholdsBelowFloor(st) <==>
            forall parts :: HardHit(parts) ==> ToDecision(st, Score(st, parts)) == DECLINE
  {
    if ThresholdsBelowFloor(st) {
      forall parts | HardHit(parts) ensures ToDecision(st, Score(st, parts)) == DECLINE {
        HardHitScores(st, parts);
      }
    } else {
      var hit := Reason("R007", 60.0);
      var p := Part(0.0, [hit], false);
      var parts := map[RULES := p, ML := Bare(0.0), GRAPH := Bare(0.0)];
      assert hit in parts[RULES].reasons && HardHit(parts);
      assert Blend(st, parts) == 0.0 by { ZeroScores(st, parts); }
      RoundExact(9000);
      assert Score(st, parts) == HARD_FLOOR;
      assert ToDecision(st, Score(st, parts)) != DECLINE;
    }
  }

  lemma ZeroScores(st: Settings, parts: Parts)
    requires forall s :: s in parts ==> parts[s].score == 0.0
    ensures Blend(st, parts) == 0.0
  {
    assert TermOf(st, parts, RULES) == 0.0 && TermOf(st, parts, ML) == 0.0 && TermOf(st, parts, GRAPH) == 0.0;
  }

  // ---------------------------------------------------------------- the evidence

  function HeavyCap(s: Source): nat {
    match s case RULES => 1 case ML => MlService.TOP_FEATURES case GRAPH => 0
  }

  /** At most one rule and four features, and no graph pattern, weigh as much as the sanctions hit. */
  lemma FewHeavyReasons(e: Enriched, x: Source, part: Part)
    requires Emitted(e, x, part) && e.transaction.merchantCountry in RuleEngine.SANCTIONED
    ensures CountAtLeast(part.reasons, 60.0) <= HeavyCap(x)
  {
    match x
    case RULES => RuleEngine.SanctionedHit(e);
    case ML =>
      var ml :| MlService.Valid(ml) && part == MlService.MlSignal(ml);
      MlService.MlReasonsFew(ml);
    case GRAPH =>
      var graph :| part == GraphService.GraphSignal(graph);
      GraphService.GraphReasonsLight(graph);
  }

  lemma HeavyInTotal(parts: Parts, order: seq<Source>)
    requires forall s :: s in parts ==> CountAtLeast(parts[s].reasons, 60.0) <= HeavyCap(s)
    ensures CountAtLeast(AllReasons(parts, order), 60.0)
         <= multiset(order)[RULES] + MlService.TOP_FEATURES * multiset(order)[ML]
  {
    HeavyByCaps(parts, order);
    CapsCounted(order);
  }

  function Caps(order: seq<Source>): nat { if order == [] then 0 else HeavyCap(order[0]) + Caps(order[1..]) }

  lemma {:induction false} HeavyByCaps(parts: Parts, order: seq<Source>)
    requires forall s :: s in parts ==> CountAtLeast(parts[s].reasons, 60.0) <= HeavyCap(s)
    ensures CountAtLeast(AllReasons(parts, order), 60.0) <= Caps(order)
  {
    if order != [] {
      HeavyByCaps(parts, order[1..]);
      CountConcat(if order[0] in parts then parts[order[0]].reasons else [], AllReasons(parts, order[1..]), 60.0);
    }
  }

  lemma {:induction false} CapsCounted(order: seq<Source>)
    ensures Caps(order) == multiset(order)[RULES] + MlService.TOP_FEATURES * multiset(order)[ML]
  {
    if order != [] {
      CapsCounted(order[1..]);
      assert order == [order[0]] + order[1..];
      assert multiset(order) == multiset{order[0]} + multiset(order[1..]);
    }
  }

  lemma {:induction false} ReasonListed(parts: Parts, order: seq<Source>, s: Source, r: Reason)
    requires s in order && s in parts && r in parts[s].reasons
    ensures r in AllReasons(parts, order)
  {
    if order[0] != s {
      assert order == [order[0]] + order[1..];
      ReasonListed(parts, order[1..], s, r);
    }
  }

  /** A payment to a sanctioned country is declined, and the record says why: the sanctions hit outlives the
      cut to ten and the cut to eight, whatever ML and GRAPH report and whichever of them is missing. */
  lemma SanctionedIsDeclined(st: Settings, txn: string, ctx: Context, parts: Parts, order: seq<Source>, e: Enriched)
    requires ThresholdsBelowFloor(st)
    requires e.transaction.merchantCountry in RuleEngine.SANCTIONED
    requires SignalsOf(parts, e) && ListsParts(parts, order)
    ensures var rd := BuildDecision(st, txn, ctx, parts, order);
            rd.decision == DECLINE && rd.score >= HARD_FLOOR && RuleEngine.SANCTION_HIT in rd.reasons
  {
    var hit := RuleEngine.SANCTION_HIT;
    RuleEngine.SanctionedHit(e);
    assert hit in parts[RULES].reasons && hit.weight >= HARD_WEIGHT;
    HardHitScores(st, parts);
    HitSurvives(parts, order, e);
  }

  lemma HitSurvives(parts: Parts, order: seq<Source>, e: Enriched)
    requires e.transaction.merchantCountry in RuleEngine.SANCTIONED
    requires SignalsOf(parts, e) && ListsParts(parts, order) && RuleEngine.SANCTION_HIT in parts[RULES].reasons
    ensures RuleEngine.SANCTION_HIT in Top(AllReasons(parts, order), KEPT_REASONS)
  {
    var hit := RuleEngine.SANCTION_HIT;
    forall s | s in parts ensures CountAtLeast(parts[s].reasons, 60.0) <= HeavyCap(s) {
      FewHeavyReasons(e, s, parts[s]);
    }
    HeavyInTotal(parts, order);
    FanInPublished.OrderOnce(parts, order);
    ReasonListed(parts, order, RULES, hit);
    TopSurvives(AllReasons(parts, order), hit, KEPT_REASONS);
  }

  // ---------------------------------------------------------------- through the protocol

  /** The run delivers no signal of the transaction but what the analysers may publish for `e`. */
  ghost predicate DeliversOnly(steps: seq<FanIn.Step>, txn: FanIn.Txn, e: Enriched) {
    forall k :: 0 <= k < |steps| && steps[k].Deliver? && steps[k].event.SignalEvent? && steps[k].event.txn == txn ==>
      Emitted(e, steps[k].event.source, steps[k].event.part)
  }

  /** What was delivered for a transaction is what a snapshot of it holds. */
  lemma SnapshotEmitted(cfg: FanIn.Config, s: FanIn.State, steps: seq<FanIn.Step>, c: nat, e: Enriched)
    requires FanIn.Init(s) && FanIn.Legal(cfg, s, steps) && c in FanIn.End(cfg, s, steps).past.snaps
    requires c < |FanIn.End(cfg, s, steps).past.claims|
    requires DeliversOnly(steps, FanIn.End(cfg, s, steps).past.claims[c].txn, e)
    ensures var parts := FanIn.End(cfg, s, steps).past.snaps[c].parts;
            forall x :: x in parts ==> Emitted(e, x, parts[x])
  {
    var past := FanIn.End(cfg, s, steps).past;
    var txn, parts := past.claims[c].txn, past.snaps[c].parts;
    var t := FanInDelivered.SnapshotsHoldDelivered(cfg, s, steps, c);
    forall x | x in parts ensures Emitted(e, x, parts[x]) {
      FanInDelivered.LastSignalDelivered(steps[..t], txn, x);
      FanInDelivered.DeliveredMore(steps, t, FanIn.SignalEvent(txn, x, parts[x]));
    }
  }

  /** In every run, crashes and redeliveries included, a decision on a payment to a sanctioned country that does
      not miss the rules' signal is a decline that names the sanction. */
  lemma SanctionedInEveryRun(st: Settings, timeoutMs: nat, patience: Option<nat>, s: FanIn.State,
                             steps: seq<FanIn.Step>, i: nat, e: Enriched)
    requires var cfg := FanIn.Deployed(st, timeoutMs, patience); FanIn.Init(s) && FanIn.Legal(cfg, s, steps)
    requires var log := FanIn.End(FanIn.Deployed(st, timeoutMs, patience), s, steps).log;
             && i < |log| && log[i].message.DecisionMade? && RULES !in log[i].message.rd.missing
             && DeliversOnly(steps, log[i].message.rd.txn, e)
    requires ThresholdsBelowFloor(st) && e.transaction.merchantCountry in RuleEngine.SANCTIONED
    ensures var rd := FanIn.End(FanIn.Deployed(st, timeoutMs, patience), s, steps).log[i].message.rd;
            rd.decision == DECLINE && RuleEngine.SANCTION_HIT in rd.reasons
  {
    var cfg := FanIn.Deployed(st, timeoutMs, patience);
    var s' := FanIn.End(cfg, s, steps);
    FanInPublished.DecisionsSaySo(st, timeoutMs, patience, s', i);
    var c := s'.log[i].claim;
    var snap := s'.past.snaps[c];
    SnapshotEmitted(cfg, s, steps, c, e);
    var rd := VerdictInLog(cfg, s', i);
    SanctionedIsDeclined(st, s'.past.claims[c].txn, snap.ctx.value, snap.parts, snap.order, e);
  }

  lemma VerdictInLog(cfg: FanIn.Config, s: FanIn.State, i: nat) returns (rd: RiskDecision)
    requires FanIn.Reachable(cfg, s) && i < |s.log| && s.log[i].message.DecisionMade?
    ensures s.log[i].message == FanIn.DecisionMade(rd)
    ensures var c := s.log[i].claim;
            && c < |s.past.claims| && c in s.past.snaps && s.past.snaps[c].ctx.Some?
            && ListsParts(s.past.snaps[c].parts, s.past.snaps[c].order)
            && rd == FanInOwners.DecisionOf(cfg.verdict, s.past.claims, s.past.snaps, c)
  {
    FanInSafety.RecordIntended(cfg, s, i);
    FanInPublished.SnapshotListing(cfg, s, s.log[i].claim);
    rd := s.log[i].message.rd;
  }

  /** A run at rest in which the payment lost no deadline and no claimant, whose context was stored first and whose
      rules' signal was in time, has done all of it: declined with the sanction named, audited, the customer told,
      and a P1 case opened, each once. */
  lemma SanctionedRunComplete(st: Settings, timeoutMs: nat, patience: Option<nat>, s: FanIn.State,
                              steps: seq<FanIn.Step>, txn: FanIn.Txn, e: Enriched)
    returns (c: nat, rd: RiskDecision)
    requires var cfg := FanIn.Deployed(st, timeoutMs, patience); FanIn.Init(s) && FanIn.Legal(cfg, s, steps)
    requires var s' := FanIn.End(FanIn.Deployed(st, timeoutMs, patience), s, steps);
             && txn !in s'.past.killed && FanInProgress.Quiet(s', txn) && FanInProgress.ContextReady(s', txn)
             && txn in s'.past.firstContext && FanInTiming.Fresh(s'.past.firstWrite, txn, s'.now)
             && forall k :: k in s'.past.snaps && k < |s'.past.claims| && s'.past.claims[k].txn == txn ==>
                  RULES in s'.past.snaps[k].parts
    requires DeliversOnly(steps, txn, e)
    requires ThresholdsBelowFloor(st) && e.transaction.merchantCountry in RuleEngine.SANCTIONED
    ensures rd.txn == txn && rd.decision == DECLINE && RuleEngine.SANCTION_HIT in rd.reasons
    ensures FanInPublished.Published(FanIn.End(FanIn.Deployed(st, timeoutMs, patience), s, steps).log, c, rd)
  {
    var cfg := FanIn.Deployed(st, timeoutMs, patience);
    var s' := FanIn.End(cfg, s, steps);
    var d := FanInProgress.ExactlyOneDecision(cfg, s', txn);
    assert FanInTiming.ClaimedOnce(s'.past.claims, txn);
    c, rd := FanInPublished.PublishedExactly(cfg, s', txn);
    FanInPublished.SnapshotListing(cfg, s', c);
    SnapshotEmitted(cfg, s, steps, c, e);
    var snap := s'.past.snaps[c];
    SanctionedIsDeclined(st, txn, snap.ctx.value, snap.parts, snap.order, e);
  }
}
