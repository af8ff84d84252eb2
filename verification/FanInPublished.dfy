/** What is published for a decision: each record that it calls for, once, in order, and no other. */
module FanInPublished {
  import opened Common
  import opened Reasons
  import opened Signals
  import opened Scoring
  import opened FanIn
  import opened FanInOwners
  import opened FanInTiming
  import opened FanInSafety
  import opened FanInProgress

  datatype Topic = DECISIONS | AUDIT | NOTIFICATIONS | CASES

  function TopicOf(m: Message): Topic {
    match m
    case DecisionMade(_) => DECISIONS
    case Audited(_) => AUDIT
    case Notified(_, _, _, _, _, _) => NOTIFICATIONS
    case CaseOpened(_, _, _, _, _) => CASES
  }

  function Place(t: Topic): nat { match t case DECISIONS => 0 case AUDIT => 1 case NOTIFICATIONS => 2 case CASES => 3 }

  function OnTopic(msgs: seq<Message>, t: Topic): nat {
    if msgs == [] then 0
    else OnTopic(msgs[..|msgs| - 1], t) + if TopicOf(msgs[|msgs| - 1]) == t then 1 else 0
  }

  lemma {:induction false} OnTopicConcat(a: seq<Message>, b: seq<Message>, t: Topic)
    ensures OnTopic(a + b, t) == OnTopic(a, t) + OnTopic(b, t)
  {
    if b == [] {
      assert a + b == a;
    } else {
      OnTopicConcat(a, b[..|b| - 1], t);
      assert (a + b)[..|a + b| - 1] == a + b[..|b| - 1];
    }
  }

  /** The records of claim `c` on a topic. */
  ghost function At(log: seq<Record>, c: nat, t: Topic): set<nat> {
    set i | 0 <= i < |log| && log[i].claim == c && TopicOf(log[i].message) == t
  }

  lemma {:induction false} AtCounts(log: seq<Record>, c: nat, t: Topic)
    ensures |At(log, c, t)| == OnTopic(Of(log, c), t)
    decreases |log|
  {
    if log != [] {
      var n := |log| - 1;
      AtCounts(log[..n], c, t);
      AtSnoc(log, c, t);
      OnTopicConcat(Of(log[..n], c), if log[n].claim == c then [log[n].message] else [], t);
      if log[n].claim == c { OnTopicOne(log[n].message, t); }
    }
  }

  lemma OnTopicOne(m: Message, t: Topic)
    ensures OnTopic([m], t) == if TopicOf(m) == t then 1 else 0
  {
    assert [m][..0] == [];
  }

  lemma AtSnoc(log: seq<Record>, c: nat, t: Topic)
    requires log != []
    ensures var n := |log| - 1;
            |At(log, c, t)| == |At(log[..n], c, t)| + if log[n].claim == c && TopicOf(log[n].message) == t then 1 else 0
  {
    var n := |log| - 1;
    var before := At(log[..n], c, t);
    if log[n].claim == c && TopicOf(log[n].message) == t {
      assert At(log, c, t) == before + {n} && n !in before;
    } else {
      assert At(log, c, t) == before;
    }
  }

  // ---------------------------------------------------------------- what a decision calls for

  predicate TellsCustomer(d: Decision) { d == CHALLENGE || d == DECLINE }

  predicate NeedsAnalyst(d: Decision) { d == REVIEW || d == DECLINE }

  /** Of the records of claim `c` there is one decision and one audit record, a notification exactly when the
      customer is to be told, and a case exactly when an analyst is to look; each carries the decision's content. */
  ghost predicate Published(log: seq<Record>, c: nat, rd: RiskDecision) {
    && |At(log, c, DECISIONS)| == 1 && |At(log, c, AUDIT)| == 1
    && |At(log, c, NOTIFICATIONS)| == (if TellsCustomer(rd.decision) then 1 else 0)
    && |At(log, c, CASES)| == (if NeedsAnalyst(rd.decision) then 1 else 0)
    && forall i :: 0 <= i < |log| && log[i].claim == c ==> Carries(log[i].message, rd)
  }

  ghost predicate Carries(m: Message, rd: RiskDecision) {
    match m
    case DecisionMade(d) => d == rd
    case Audited(d) => d == rd
    case Notified(txn, customerId, template, amount, currency, score) =>
      && txn == rd.txn && customerId == rd.context.customerId && score == rd.score
      && amount == rd.context.amount && currency == rd.context.currency
      && (rd.decision == CHALLENGE ==> template == StepUpAuth) && (rd.decision == DECLINE ==> template == TxnDeclined)
    case CaseOpened(txn, customerId, priority, score, reasons) =>
      && txn == rd.txn && customerId == rd.context.customerId && score == rd.score && reasons == rd.reasons
      && (rd.decision == DECLINE ==> priority == P1) && (rd.decision == REVIEW ==> priority == P2)
  }

  lemma OutputsCount(rd: RiskDecision, t: Topic)
    ensures OnTopic(Outputs(rd), t) == match t
                                       case DECISIONS => 1
                                       case AUDIT => 1
                                       case NOTIFICATIONS => if TellsCustomer(rd.decision) then 1 else 0
                                       case CASES => if NeedsAnalyst(rd.decision) then 1 else 0
  {
    var two: seq<Message> := [DecisionMade(rd), Audited(rd)];
    assert two[..1] == [DecisionMade(rd)] && two[..1][..0] == [];
    var n, c := ToCustomer(rd), ToAnalyst(rd);
    assert Outputs(rd) == two + n + c;
    OnTopicConcat(two + n, c, t);
    OnTopicConcat(two, n, t);
    assert OnTopic([], t) == 0;
  }

  function ToCustomer(rd: RiskDecision): seq<Message> {
    if TellsCustomer(rd.decision)
    then [Notified(rd.txn, rd.context.customerId, if rd.decision == CHALLENGE then StepUpAuth else TxnDeclined,
                   rd.context.amount, rd.context.currency, rd.score)]
    else []
  }

  function ToAnalyst(rd: RiskDecision): seq<Message> {
    if NeedsAnalyst(rd.decision)
    then [CaseOpened(rd.txn, rd.context.customerId, if rd.decision == DECLINE then P1 else P2, rd.score, rd.reasons)]
    else []
  }

  lemma OutputsCarry(rd: RiskDecision, k: nat)
    requires k < |Outputs(rd)|
    ensures Carries(Outputs(rd)[k], rd)
  {
  }

  /** In every reachable state each record carries the decision of its claim's snapshot. */
  lemma RecordsCarry(cfg: Config, s: State, i: nat)
    requires Reachable(cfg, s) && i < |s.log|
    ensures var c := s.log[i].claim;
            && c < |s.past.claims| && c in s.past.snaps && s.past.snaps[c].ctx.Some?
            && Carries(s.log[i].message, DecisionOf(cfg.verdict, s.past.claims, s.past.snaps, c))
  {
    RecordIntended(cfg, s, i);
    OutputsCarry(DecisionOf(cfg.verdict, s.past.claims, s.past.snaps, s.log[i].claim), Rank(s.log, i));
  }

  /** And the records of a claim come in the order of the topics. */
  lemma RecordsInOrder(cfg: Config, s: State, i: nat, j: nat)
    requires Reachable(cfg, s) && i < j < |s.log| && s.log[i].claim == s.log[j].claim
    ensures Place(TopicOf(s.log[i].message)) < Place(TopicOf(s.log[j].message))
  {
    RecordIntended(cfg, s, i);
    RecordIntended(cfg, s, j);
    RankGrows(s.log, i, j);
    var rd := DecisionOf(cfg.verdict, s.past.claims, s.past.snaps, s.log[i].claim);
    OutputsOrdered(rd, Rank(s.log, i), Rank(s.log, j));
  }

  lemma OutputsOrdered(rd: RiskDecision, a: nat, b: nat)
    requires a < b < |Outputs(rd)|
    ensures Place(TopicOf(Outputs(rd)[a])) < Place(TopicOf(Outputs(rd)[b]))
  {
  }

  /** At rest, with the context in the snapshot, everything the decision calls for has been published. */
  lemma PublishedExactly(cfg: Config, s: State, txn: Txn) returns (c: nat, rd: RiskDecision)
    requires Reachable(cfg, s) && txn !in s.past.killed && Quiet(s, txn)
    requires txn in s.past.firstContext && Fresh(s.past.firstWrite, txn, s.now)
    requires forall k :: k in s.past.snaps && k < |s.past.claims| && s.past.claims[k].txn == txn ==>
               s.past.snaps[k].ctx.Some?
    ensures c < |s.past.claims| && s.past.claims[c].txn == txn && c in s.past.snaps
    ensures forall d :: 0 <= d < |s.past.claims| && s.past.claims[d].txn == txn ==> d == c
    ensures var snap := s.past.snaps[c];
            snap.ctx.Some? && rd == cfg.verdict(txn, snap.ctx.value, snap.parts, snap.order)
    ensures Published(s.log, c, rd)
  {
    c := ExactlyOneDecision(cfg, s, txn);
    rd := DecisionOf(cfg.verdict, s.past.claims, s.past.snaps, c);
    assert Of(s.log, c) == Outputs(rd);
    AllOnTopics(s.log, c, rd);
    forall i | 0 <= i < |s.log| && s.log[i].claim == c ensures Carries(s.log[i].message, rd) {
      RecordsCarry(cfg, s, i);
    }
  }

  lemma AllOnTopics(log: seq<Record>, c: nat, rd: RiskDecision)
    requires Of(log, c) == Outputs(rd)
    ensures |At(log, c, DECISIONS)| == 1 && |At(log, c, AUDIT)| == 1
    ensures |At(log, c, NOTIFICATIONS)| == if TellsCustomer(rd.decision) then 1 else 0
    ensures |At(log, c, CASES)| == if NeedsAnalyst(rd.decision) then 1 else 0
  {
    forall t ensures |At(log, c, t)| == OnTopic(Outputs(rd), t) { AtCounts(log, c, t); }
    OutputsCount(rd, DECISIONS);
    OutputsCount(rd, AUDIT);
    OutputsCount(rd, NOTIFICATIONS);
    OutputsCount(rd, CASES);
  }

  // ---------------------------------------------------------------- what a decision record says

  function Listed3(parts: Parts, r: Reason): nat {
    ReasonIn(parts, RULES, r) + ReasonIn(parts, ML, r) + ReasonIn(parts, GRAPH, r)
  }

  function ReasonIn(parts: Parts, x: Source, r: Reason): nat {
    if x in parts then multiset(parts[x].reasons)[r] else 0
  }

  /** The record says what the snapshot holds: whose payment it is, each signal's score, the gaps, the combined
      score, the level it reaches, and the eight heaviest of all reasons. */
  ghost predicate SaysSo(st: Settings, txn: Txn, snap: Snapshot, rd: RiskDecision)
    requires snap.ctx.Some?
  {
    && rd.txn == txn && rd.context == snap.ctx.value && rd.score == Score(st, snap.parts)
    && rd.rulesScore == ScoreIn(snap.parts, RULES) && rd.mlScore == ScoreIn(snap.parts, ML)
    && rd.graphScore == ScoreIn(snap.parts, GRAPH)
    && (forall x :: x in rd.missing <==> x in EXPECTED - snap.parts.Keys)
    && LevelOf(st, rd.decision, rd.score)
    && Descending(rd.reasons) && |rd.reasons| <= 8
    && exists cut: seq<Reason> :: HeaviestOf(snap.parts, rd.reasons, cut) && (cut != [] ==> |rd.reasons| == 8)
  }

  function ScoreIn(parts: Parts, x: Source): Option<real> { if x in parts then Some(parts[x].score) else None }

  /** The level whose threshold is the first that the score does not exceed. */
  ghost predicate LevelOf(st: Settings, d: Decision, x: real) {
    exists k :: 0 <= k <= 3 && d == LEVELS[k]
                && (forall i :: 0 <= i < k ==> Thresholds(st)[i] < x) && (k < 3 ==> x <= Thresholds(st)[k])
  }

  ghost predicate HeaviestOf(parts: Parts, kept: seq<Reason>, cut: seq<Reason>) {
    && (forall r :: multiset(kept)[r] + multiset(cut)[r] == Listed3(parts, r))
    && forall r, c :: r in kept && c in cut ==> r.weight >= c.weight
  }

  function ReasonsOf(parts: Parts, order: seq<Source>, r: Reason): nat {
    if order == [] then 0 else ReasonIn(parts, order[0], r) + ReasonsOf(parts, order[1..], r)
  }

  lemma {:induction false} ReasonsCounted(parts: Parts, order: seq<Source>, r: Reason)
    ensures multiset(AllReasons(parts, order))[r] == ReasonsOf(parts, order, r)
  {
    if order != [] {
      ReasonsCounted(parts, order[1..], r);
      var first := if order[0] in parts then parts[order[0]].reasons else [];
      assert AllReasons(parts, order) == first + AllReasons(parts, order[1..]);
      assert multiset(first)[r] == ReasonIn(parts, order[0], r);
    }
  }

  /** When no source is listed twice the order does not matter. */
  lemma {:induction false} EachOnce(parts: Parts, order: seq<Source>, r: Reason)
    requires forall i, j :: 0 <= i < j < |order| ==> order[i] != order[j]
    ensures ReasonsOf(parts, order, r) == (if RULES in order then ReasonIn(parts, RULES, r) else 0)
                                          + (if ML in order then ReasonIn(parts, ML, r) else 0)
                                          + (if GRAPH in order then ReasonIn(parts, GRAPH, r) else 0)
  {
    if order != [] {
      EachOnce(parts, order[1..], r);
      assert order == [order[0]] + order[1..];
      assert order[0] !in order[1..];
      forall x: Source ensures x in order <==> x == order[0] || x in order[1..] { }
      assert order[0] == RULES || order[0] == ML || order[0] == GRAPH;
    }
  }

  lemma NoneTwice(order: seq<Source>)
    requires forall x: Source :: multiset(order)[x] <= 1
    ensures forall i, j :: 0 <= i < j < |order| ==> order[i] != order[j]
  {
    forall i, j | 0 <= i < j < |order| ensures order[i] != order[j] {
      var a, b := order[..j], order[j..];
      assert order == a + b && order[i] in a && order[j] in b;
      assert order[i] in multiset(a) && order[j] in multiset(b);
      assert multiset(order)[order[i]] == multiset(a)[order[i]] + multiset(b)[order[i]];
    }
  }

  lemma OrderOnce(parts: Parts, order: seq<Source>)
    requires multiset(order) == multiset(parts.Keys)
    ensures forall x: Source :: multiset(order)[x] <= 1 && (x in order <==> x in parts)
  {
    forall x: Source ensures multiset(order)[x] <= 1 && (x in order <==> x in parts) {
      assert multiset(parts.Keys)[x] <= 1;
      assert x in multiset(order) <==> x in multiset(parts.Keys);
    }
  }

  lemma ReasonsListed(parts: Parts, order: seq<Source>, r: Reason)
    requires multiset(order) == multiset(parts.Keys)
    ensures multiset(AllReasons(parts, order))[r] == Listed3(parts, r)
  {
    ReasonsCounted(parts, order, r);
    OrderOnce(parts, order);
    NoneTwice(order);
    EachOnce(parts, order, r);
  }

  lemma HeaviestKept(parts: Parts, order: seq<Source>)
    requires multiset(order) == multiset(parts.Keys)
    ensures var kept := Top(AllReasons(parts, order), 8);
            && Descending(kept) && |kept| <= 8
            && exists cut: seq<Reason> :: HeaviestOf(parts, kept, cut) && (cut != [] ==> |kept| == 8)
  {
    var all := AllReasons(parts, order);
    TopHeaviest(all, 8);
    var kept := Top(all, 8);
    var cut: seq<Reason> :| CutOff(all, kept, cut);
    assert |multiset(kept) + multiset(cut)| == |multiset(all)|;
    forall r ensures multiset(kept)[r] + multiset(cut)[r] == Listed3(parts, r) {
      ReasonsListed(parts, order, r);
      assert (multiset(kept) + multiset(cut))[r] == multiset(all)[r];
    }
    assert HeaviestOf(parts, kept, cut);
  }

  lemma BuiltSaysSo(st: Settings, txn: Txn, snap: Snapshot)
    requires snap.ctx.Some? && Listed(snap)
    ensures SaysSo(st, txn, snap, BuildDecision(st, txn, snap.ctx.value, snap.parts, snap.order))
  {
    HeaviestKept(snap.parts, snap.order);
    BandsExact(st, Score(st, snap.parts));
  }

  /** In every reachable state every published decision, and its audit copy, says what its claim's snapshot holds. */
  lemma DecisionsSaySo(st: Settings, timeoutMs: nat, patience: Option<nat>, s: State, i: nat)
    requires Reachable(Deployed(st, timeoutMs, patience), s) && i < |s.log|
    requires s.log[i].message.DecisionMade? || s.log[i].message.Audited?
    ensures var c := s.log[i].claim;
            && c < |s.past.claims| && c in s.past.snaps && s.past.snaps[c].ctx.Some?
            && SaysSo(st, s.past.claims[c].txn, s.past.snaps[c], s.log[i].message.rd)
  {
    var cfg, c := Deployed(st, timeoutMs, patience), s.log[i].claim;
    RecordsCarry(cfg, s, i);
    SnapshotListing(cfg, s, c);
    BuiltSaysSo(st, s.past.claims[c].txn, s.past.snaps[c]);
  }

  lemma SnapshotListing(cfg: Config, s: State, c: nat)
    requires Reachable(cfg, s) && c in s.past.snaps
    ensures Listed(s.past.snaps[c])
  {
    FanInInvariant.ReachableInv(cfg, s);
  }
}
