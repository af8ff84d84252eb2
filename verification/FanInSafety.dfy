/** What holds in every reachable state of the fan-in protocol, crashes included. */
module FanInSafety {
  import opened Common
  import opened Signals
  import opened Scoring
  import opened FanIn
  import opened FanInOwners
  import opened FanInTiming
  import opened FanInPrompt
  import opened FanInInvariant

  // ---------------------------------------------------------------- ranks within a claim

  /** How many messages of its claim precede record `i`. */
  function Rank(log: seq<Record>, i: nat): nat
    requires i < |log|
  {
    |Of(log[..i], log[i].claim)|
  }

  lemma {:induction false} RankIsPosition(log: seq<Record>, i: nat)
    requires i < |log|
    ensures Rank(log, i) < |Of(log, log[i].claim)| && Of(log, log[i].claim)[Rank(log, i)] == log[i].message
    decreases |log|
  {
    var front := log[..|log| - 1];
    if i < |front| {
      RankIsPosition(front, i);
      assert front[..i] == log[..i];
    }
  }

  /** Every earlier message of the claim sits earlier in the log. */
  lemma {:induction false} EarlierRank(log: seq<Record>, i: nat, r: nat) returns (j: nat)
    requires i < |log| && r < Rank(log, i)
    ensures j < i && log[j].claim == log[i].claim && Rank(log, j) == r
    decreases i
  {
    var c := log[i].claim;
    j := LastOf(log[..i], c);
    assert log[..i][..j] == log[..j];
    if r < Rank(log, j) {
      var k := EarlierRank(log, j, r);
      j := k;
    }
  }

  lemma {:induction false} LastOf(log: seq<Record>, c: nat) returns (j: nat)
    requires Of(log, c) != []
    ensures j < |log| && log[j].claim == c && |Of(log[..j], c)| == |Of(log, c)| - 1
    decreases |log|
  {
    var n := |log| - 1;
    if log[n].claim == c {
      j := n;
    } else {
      j := LastOf(log[..n], c);
      assert log[..n][..j] == log[..j];
    }
  }

  lemma {:induction false} RankGrows(log: seq<Record>, i: nat, j: nat)
    requires i < j < |log| && log[i].claim == log[j].claim
    ensures Rank(log, i) < Rank(log, j)
  {
    RankIsPosition(log[..j], i);
    assert log[..j][..i] == log[..i];
  }

  /** What a claim has published is a prefix of what its one decision calls for:
      DECISIONS, AUDIT, then NOTIFICATIONS and CASES as the decision requires. */
  lemma OutputsArePrefix(cfg: Config, s: State, c: nat)
    requires Reachable(cfg, s) && c < |s.past.claims|
    ensures Of(s.log, c) <= Intended(cfg.verdict, s.past.claims, s.past.snaps, c)
  {
    ReachableInv(cfg, s);
  }

  /** Each record is the message its claim's decision has at that rank. */
  lemma RecordIntended(cfg: Config, s: State, i: nat)
    requires Reachable(cfg, s) && i < |s.log|
    ensures var c := s.log[i].claim;
            && c < |s.past.claims| && c in s.past.snaps && s.past.snaps[c].ctx.Some?
            && Rank(s.log, i) < |Outputs(DecisionOf(cfg.verdict, s.past.claims, s.past.snaps, c))|
            && s.log[i].message == Outputs(DecisionOf(cfg.verdict, s.past.claims, s.past.snaps, c))[Rank(s.log, i)]
  {
    RankIsPosition(s.log, i);
    assert s.log[i].claim < |s.past.claims| by { ReachableInv(cfg, s); }
    OutputsArePrefix(cfg, s, s.log[i].claim);
  }

  // ---------------------------------------------------------------- at most one decision

  /** Two successful claims on one transaction are at least BUFFER_TTL apart. */
  lemma ClaimsSpaced(cfg: Config, s: State, i: nat, j: nat)
    requires Reachable(cfg, s) && i < j < |s.past.claims| && s.past.claims[i].txn == s.past.claims[j].txn
    ensures s.past.claims[i].at + 300000 <= s.past.claims[j].at
  {
    ReachableInv(cfg, s);
  }

  /** A claim publishes at most one decision. */
  lemma OneDecisionPerClaim(cfg: Config, s: State, i: nat, j: nat)
    requires Reachable(cfg, s) && i < j < |s.log|
    requires s.log[i].message.DecisionMade? && s.log[j].message.DecisionMade?
    ensures s.log[i].claim != s.log[j].claim
  {
    DecisionFirst(cfg, s, i);
    DecisionFirst(cfg, s, j);
    if s.log[i].claim == s.log[j].claim { RankGrows(s.log, i, j); }
  }

  lemma DecisionFirst(cfg: Config, s: State, i: nat)
    requires Reachable(cfg, s) && i < |s.log| && s.log[i].message.DecisionMade?
    ensures Rank(s.log, i) == 0
  {
    RecordIntended(cfg, s, i);
  }

  /** Where the decisions on `txn` stand whose claims fall into [lo, hi). */
  ghost function DecisionsClaimed(s: State, txn: Txn, lo: nat, hi: nat): set<nat> {
    set i | 0 <= i < |s.log| && s.log[i].message.DecisionMade? && s.log[i].claim < |s.past.claims|
            && s.past.claims[s.log[i].claim].txn == txn && lo <= s.past.claims[s.log[i].claim].at < hi
  }

  /** k windows of BUFFER_TTL hold at most k decisions on a transaction; so if all claims on it
      fall within BUFFER_TTL of the first, there is at most one. */
  lemma DecisionsPerWindow(cfg: Config, s: State, txn: Txn, lo: nat, k: nat)
    requires Reachable(cfg, s)
    ensures |DecisionsClaimed(s, txn, lo, lo + k * BUFFER_TTL)| <= k
  {
    var d := DecisionsClaimed(s, txn, lo, lo + k * BUFFER_TTL);
    forall i, j | i in d && j in d && i != j
      ensures (s.past.claims[s.log[i].claim].at - lo) / BUFFER_TTL
           != (s.past.claims[s.log[j].claim].at - lo) / BUFFER_TTL
    {
      OneDecisionPerClaim(cfg, s, if i < j then i else j, if i < j then j else i);
      var a, b := s.log[i].claim, s.log[j].claim;
      ClaimsSpaced(cfg, s, if a < b then a else b, if a < b then b else a);
    }
    forall i | i in d ensures 0 <= (s.past.claims[s.log[i].claim].at - lo) / BUFFER_TTL < k {
    }
    Pigeonhole(d, map i | i in d :: (s.past.claims[s.log[i].claim].at - lo) / BUFFER_TTL, k);
  }

  /** A set that maps one-to-one into the first `k` numbers has at most `k` members. */
  lemma {:induction false} Pigeonhole(d: set<nat>, f: map<nat, int>, k: nat)
    requires f.Keys == d
    requires forall i :: i in d ==> 0 <= f[i] < k
    requires forall i, j :: i in d && j in d && i != j ==> f[i] != f[j]
    ensures |d| <= k
  {
    if k > 0 {
      if i :| i in d && f[i] == k - 1 {
        var rest := d - {i};
        Pigeonhole(rest, f - {i}, k - 1);
        assert |d| == |rest| + 1;
      } else {
        Pigeonhole(d, f, k - 1);
      }
    }
  }

  // ---------------------------------------------------------------- output order

  /** The earlier messages of a record's claim are those of the same decision. */
  lemma EarlierOutput(cfg: Config, s: State, i: nat, r: nat) returns (j: nat)
    requires Reachable(cfg, s) && i < |s.log| && r < Rank(s.log, i)
    ensures j < i && s.log[j].claim == s.log[i].claim && Rank(s.log, j) == r
    ensures var c := s.log[i].claim;
            && c < |s.past.claims| && c in s.past.snaps && s.past.snaps[c].ctx.Some?
            && r < |Outputs(DecisionOf(cfg.verdict, s.past.claims, s.past.snaps, c))|
            && s.log[j].message == Outputs(DecisionOf(cfg.verdict, s.past.claims, s.past.snaps, c))[r]
  {
    j := EarlierRank(s.log, i, r);
    RecordIntended(cfg, s, j);
  }

  /** A case is preceded by the decision and its audit record, a P1 case also by the decline notification. */
  lemma CaseHasHistory(cfg: Config, s: State, i: nat)
    requires Reachable(cfg, s) && i < |s.log| && s.log[i].message.CaseOpened?
    ensures exists j, k, rd ::
              && 0 <= j < k < i && s.log[j].claim == s.log[k].claim == s.log[i].claim
              && s.log[j].message == DecisionMade(rd) && s.log[k].message == Audited(rd)
              && (rd.decision == REVIEW || rd.decision == DECLINE)
              && s.log[i].message == CaseOpened(rd.txn, rd.context.customerId,
                                                if rd.decision == DECLINE then P1 else P2, rd.score, rd.reasons)
    ensures s.log[i].message.priority == P1 ==>
              exists n :: && 0 <= n < i && s.log[n].claim == s.log[i].claim
                          && s.log[n].message.Notified? && s.log[n].message.template == TxnDeclined
                          && s.log[n].message.score == s.log[i].message.score
  {
    RecordIntended(cfg, s, i);
    var rd := DecisionOf(cfg.verdict, s.past.claims, s.past.snaps, s.log[i].claim);
    var k := EarlierOutput(cfg, s, i, 1);
    var j := EarlierOutput(cfg, s, k, 0);
    assert s.log[j].message == DecisionMade(rd) && s.log[k].message == Audited(rd);
    if rd.decision == DECLINE {
      var n := EarlierOutput(cfg, s, i, 2);
    }
  }

  /** A notification tells of a challenge or a decline; an approval produces neither notification nor case. */
  lemma NotificationMatches(cfg: Config, s: State, i: nat)
    requires Reachable(cfg, s) && i < |s.log| && (s.log[i].message.Notified? || s.log[i].message.CaseOpened?)
    ensures exists j, k, rd :: && 0 <= j < k < i && s.log[j].claim == s.log[k].claim == s.log[i].claim
                               && s.log[j].message == DecisionMade(rd) && s.log[k].message == Audited(rd)
                               && rd.decision != APPROVE && rd.score == s.log[i].message.score
                               && (s.log[i].message.Notified? ==>
                                     rd.decision ==
                                     if s.log[i].message.template == StepUpAuth then CHALLENGE else DECLINE)
  {
    RecordIntended(cfg, s, i);
    var rd := DecisionOf(cfg.verdict, s.past.claims, s.past.snaps, s.log[i].claim);
    var k := EarlierOutput(cfg, s, i, 1);
    var j := EarlierOutput(cfg, s, k, 0);
    assert s.log[j].message == DecisionMade(rd) && s.log[k].message == Audited(rd);
  }

  // ---------------------------------------------------------------- gaps

  /** A claim made by the deadline is at least the timeout after the enriched event was first handled. */
  lemma TimeoutNeverEarly(cfg: Config, s: State, c: nat)
    requires Reachable(cfg, s) && c < |s.past.claims| && s.past.claims[c].why == Timeout
    ensures TimedOut(s.past.firstContext, s.past.claims[c].txn, cfg.timeoutMs, s.past.claims[c].at)
  {
    ReachableInv(cfg, s);
  }

  /** `missing_signals` lists exactly the expected sources that the snapshot lacked. */
  lemma MissingIsExact(st: Settings, timeoutMs: nat, patience: Option<nat>, s: State, i: nat)
    requires Reachable(Deployed(st, timeoutMs, patience), s) && i < |s.log| && s.log[i].message.DecisionMade?
    ensures s.log[i].claim in s.past.snaps
    ensures forall x :: x in s.log[i].message.rd.missing <==> x in EXPECTED - s.past.snaps[s.log[i].claim].parts.Keys
  {
    var cfg := Deployed(st, timeoutMs, patience);
    RecordIntended(cfg, s, i);
  }

  /** A decision with a gap comes from a claim made by the deadline, or at least not before it could have been. */
  lemma GapExcused(st: Settings, timeoutMs: nat, h: nat, grace: Option<nat>, s: State, i: nat)
    requires Fits(h, grace)
    requires Reachable(Deployed(st, timeoutMs, Some(h)), s) && i < |s.log| && s.log[i].message.DecisionMade?
    requires s.log[i].message.rd.missing != []
    ensures var c := s.log[i].claim;
            && c < |s.past.claims|
            && (s.past.claims[c].why == Timeout || Due(s.past, s.past.claims[c].txn, grace, s.past.claims[c].at))
  {
    var cfg := Deployed(st, timeoutMs, Some(h));
    RecordIntended(cfg, s, i);
    MissingIsExact(st, timeoutMs, Some(h), s, i);
    assert s.log[i].message.rd.missing[0] in EXPECTED - s.past.snaps[s.log[i].claim].parts.Keys;
    SnapshotsPrompt(cfg, grace, s, s.log[i].claim);
  }

  lemma SnapshotsPrompt(cfg: Config, grace: Option<nat>, s: State, c: nat)
    requires Reachable(cfg, s) && cfg.patience.Some? && Fits(cfg.patience.value, grace) && c in s.past.snaps
    ensures SnapPrompt(grace, s.past, c)
  {
    ReachableInv(cfg, s);
    assert PromptOk(cfg, grace, s);
  }

  /** With tasks shorter than half of BUFFER_TTL a decision with a gap was made by the deadline. */
  lemma GapMeansTimeout(st: Settings, timeoutMs: nat, h: nat, s: State, i: nat)
    requires 2 * h < BUFFER_TTL
    requires Reachable(Deployed(st, timeoutMs, Some(h)), s) && i < |s.log| && s.log[i].message.DecisionMade?
    requires s.log[i].message.rd.missing != []
    ensures var c := s.log[i].claim;
            && c < |s.past.claims| && s.past.claims[c].why == Timeout
            && TimedOut(s.past.firstContext, s.past.claims[c].txn, timeoutMs, s.past.claims[c].at)
  {
    GapExcused(st, timeoutMs, h, None, s, i);
    TimeoutNeverEarly(Deployed(st, timeoutMs, Some(h)), s, s.log[i].claim);
  }

  /** The tasks are prompt enough for decisions with gaps to keep to the timeout. */
  predicate PromptEnough(timeoutMs: nat, patience: Option<nat>) {
    patience.Some? && (Fits(patience.value, None) || Fits(patience.value, Some(timeoutMs)))
  }

  /** Then such a decision never comes from a claim earlier than the timeout after the first context. */
  lemma GapNeverEarly(st: Settings, timeoutMs: nat, patience: Option<nat>, s: State, i: nat)
    requires PromptEnough(timeoutMs, patience)
    requires Reachable(Deployed(st, timeoutMs, patience), s) && i < |s.log| && s.log[i].message.DecisionMade?
    requires s.log[i].message.rd.missing != []
    ensures var c := s.log[i].claim;
            && c < |s.past.claims|
            && TimedOut(s.past.firstContext, s.past.claims[c].txn, timeoutMs, s.past.claims[c].at)
  {
    var h := patience.value;
    GapExcused(st, timeoutMs, h, if Fits(h, None) then None else Some(timeoutMs), s, i);
    if s.past.claims[s.log[i].claim].why == Timeout {
      TimeoutNeverEarly(Deployed(st, timeoutMs, patience), s, s.log[i].claim);
    }
  }

  // ---------------------------------------------------------------- claims without a context

  /** A claim whose snapshot lacks the context publishes nothing, and no decision on the
      transaction comes from any claim less than BUFFER_TTL before or after it. */
  lemma NoContextNoDecision(cfg: Config, s: State, c: nat, i: nat)
    requires Reachable(cfg, s) && c in s.past.snaps && s.past.snaps[c].ctx.None?
    requires c < |s.past.claims| && i < |s.log| && s.log[i].claim < |s.past.claims|
    requires s.past.claims[s.log[i].claim].txn == s.past.claims[c].txn
    ensures Of(s.log, c) == []
    ensures s.past.claims[s.log[i].claim].at + BUFFER_TTL <= s.past.claims[c].at
            || s.past.claims[c].at + BUFFER_TTL <= s.past.claims[s.log[i].claim].at
  {
    OutputsArePrefix(cfg, s, c);
    var d := s.log[i].claim;
    RecordHasContext(cfg, s, i);
    ClaimsSpaced(cfg, s, if c < d then c else d, if c < d then d else c);
  }

  lemma RecordHasContext(cfg: Config, s: State, i: nat)
    requires Reachable(cfg, s) && i < |s.log|
    ensures s.log[i].claim in s.past.snaps && s.past.snaps[s.log[i].claim].ctx.Some?
  {
    RecordIntended(cfg, s, i);
  }
}
