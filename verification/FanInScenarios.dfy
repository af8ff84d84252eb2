/** Runs of the fan-in protocol that show where its promises end. */
module FanInScenarios {
  import opened Common
  import opened Signals
  import opened Scoring
  import opened FanIn
  import opened FanInTiming
  import opened FanInSafety
  import opened FanInProgress

  lemma ReachStep(cfg: Config, s: State, step: Step, t: State)
    requires Reachable(cfg, s) && Enabled(cfg, s, step) && Do(cfg, s, step) == t
    ensures Reachable(cfg, t)
  {
    assert [step][1..] == [];
    assert Legal(cfg, t, []) && End(cfg, t, []) == t;
    assert Legal(cfg, s, [step]) && End(cfg, s, [step]) == t;
    ReachableOn(cfg, s, [step]);
  }

  const TXN: Txn := "txn_1"
  const CTX: Context := Context("cust_1", "card_1", 100.0, "INR")
  const START: State := State(0, map[], map[], map[], [], Past([], map[], map[], map[], {}))

  lemma StartReachable(cfg: Config)
    ensures Reachable(cfg, START)
  {
    assert Init(START) && Legal(cfg, START, []) && End(cfg, START, []) == START;
  }

  // ---------------------------------------------------------------- whole handlers

  /** The state after a signal has been stored, before the completeness test. */
  function WithSignal(s: State, source: Source): State {
    s.(agg := s.agg[TXN := Agg(Stored(s.agg, TXN).ctx, Stored(s.agg, TXN).parts[source := Bare(0.0)],
                               Some(s.now + BUFFER_TTL))],
       past := s.past.(firstWrite := First(s.past.firstWrite, TXN, s.now)))
  }

  function At(s: State, id: TaskId, pc: Pc): State { s.(tasks := s.tasks[id := Task(TXN, pc, s.now)]) }

  /** Just after `hset`: the expiry is still that of the hash, if it had one. */
  function SignalWritten(s: State, source: Source): State {
    s.(agg := s.agg[TXN := Agg(Stored(s.agg, TXN).ctx, Stored(s.agg, TXN).parts[source := Bare(0.0)],
                               Stored(s.agg, TXN).expiry)],
       past := s.past.(firstWrite := First(s.past.firstWrite, TXN, s.now)))
  }

  lemma SignalArrives(cfg: Config, s: State, id: TaskId, source: Source)
    requires Reachable(cfg, s) && id !in s.tasks
    ensures Reachable(cfg, At(SignalWritten(s, source), id, ExpirePart))
  {
    var s1 := At(s, id, HsetPart(source, Bare(0.0)));
    ReachStep(cfg, s, Deliver(id, SignalEvent(TXN, source, Bare(0.0))), s1);
    var s2 := At(SignalWritten(s, source), id, ExpirePart);
    assert s2.tasks == s1.tasks[id := Task(TXN, ExpirePart, s.now)];
    ReachStep(cfg, s1, Run(id, []), s2);
  }

  lemma SignalStored(cfg: Config, s: State, id: TaskId, source: Source)
    requires Reachable(cfg, s) && id !in s.tasks
    ensures Reachable(cfg, At(WithSignal(s, source), id, Hkeys))
  {
    SignalArrives(cfg, s, id, source);
    var s2, s3 := At(SignalWritten(s, source), id, ExpirePart), At(WithSignal(s, source), id, Hkeys);
    assert s3.tasks == s2.tasks[id := Task(TXN, Hkeys, s.now)];
    assert s3.agg == Expire(s2.agg, TXN, s.now);
    ReachStep(cfg, s2, Run(id, []), s3);
  }

  lemma SignalIncomplete(cfg: Config, s: State, id: TaskId, source: Source)
    requires Reachable(cfg, s) && id !in s.tasks && !(EXPECTED <= Stored(s.agg, TXN).parts.Keys + {source})
    ensures Reachable(cfg, WithSignal(s, source))
  {
    SignalStored(cfg, s, id, source);
    var s3 := At(WithSignal(s, source), id, Hkeys);
    assert Without(s3.tasks, id) == s.tasks;
    ReachStep(cfg, s3, Run(id, []), WithSignal(s, source));
  }

  lemma SignalCompletes(cfg: Config, s: State, id: TaskId, source: Source)
    requires Reachable(cfg, s) && id !in s.tasks && EXPECTED <= Stored(s.agg, TXN).parts.Keys + {source}
    ensures Reachable(cfg, At(WithSignal(s, source), id, SetNx(Complete)))
  {
    SignalStored(cfg, s, id, source);
    var s3, s4 := At(WithSignal(s, source), id, Hkeys), At(WithSignal(s, source), id, SetNx(Complete));
    assert s4.tasks == s3.tasks[id := Task(TXN, SetNx(Complete), s.now)];
    ReachStep(cfg, s3, Run(id, []), s4);
  }

  /** The state after an enriched event has been handled and its deadline started. */
  function WithContext(cfg: Config, s: State, id: TaskId): State {
    At(ContextWritten(s).(agg := s.agg[TXN := Agg(Some(CTX), Stored(s.agg, TXN).parts, Some(s.now + BUFFER_TTL))]),
       id, Sleep(s.now + cfg.timeoutMs))
  }

  function ContextWritten(s: State): State {
    s.(agg := s.agg[TXN := Agg(Some(CTX), Stored(s.agg, TXN).parts, Stored(s.agg, TXN).expiry)],
       past := s.past.(firstWrite := First(s.past.firstWrite, TXN, s.now),
                       firstContext := First(s.past.firstContext, TXN, s.now)))
  }

  lemma ContextArrives(cfg: Config, s: State, id: TaskId)
    requires Reachable(cfg, s) && id !in s.tasks
    ensures Reachable(cfg, At(ContextWritten(s), id, ExpireContext))
  {
    var s1 := At(s, id, HsetContext(CTX));
    ReachStep(cfg, s, Deliver(id, EnrichedEvent(TXN, CTX)), s1);
    var s2 := At(ContextWritten(s), id, ExpireContext);
    assert s2.tasks == s1.tasks[id := Task(TXN, ExpireContext, s.now)];
    ReachStep(cfg, s1, Run(id, []), s2);
  }

  lemma ContextStored(cfg: Config, s: State, id: TaskId)
    requires Reachable(cfg, s) && id !in s.tasks
    ensures Reachable(cfg, WithContext(cfg, s, id))
  {
    ContextArrives(cfg, s, id);
    var s2, s3 := At(ContextWritten(s), id, ExpireContext), WithContext(cfg, s, id);
    assert s3.tasks == s2.tasks[id := Task(TXN, Sleep(s.now + cfg.timeoutMs), s.now)];
    assert s3.agg == Expire(s2.agg, TXN, s.now);
    ReachStep(cfg, s2, Run(id, []), s3);
  }

  const ALL_PARTS: Parts := map[RULES := Bare(0.0), ML := Bare(0.0), GRAPH := Bare(0.0)]

  /** The three signals of a transaction, handled one after the other: the last finds the set complete. */
  function WithAllSignals(s: State, id: TaskId): State {
    At(s.(agg := s.agg[TXN := Agg(Stored(s.agg, TXN).ctx, ALL_PARTS, Some(s.now + BUFFER_TTL))],
          past := s.past.(firstWrite := First(s.past.firstWrite, TXN, s.now))),
       id, SetNx(Complete))
  }

  lemma TwoSignals(cfg: Config, s: State, id: TaskId)
    requires Reachable(cfg, s) && id !in s.tasks && Stored(s.agg, TXN).parts == map[]
    ensures Reachable(cfg, WithSignal(WithSignal(s, RULES), ML))
  {
    SignalIncomplete(cfg, s, id, RULES);
    SignalIncomplete(cfg, WithSignal(s, RULES), id, ML);
  }

  lemma ThreeSignals(cfg: Config, s: State, id: TaskId)
    requires Reachable(cfg, s) && id !in s.tasks && Stored(s.agg, TXN).parts == map[]
    ensures Reachable(cfg, WithAllSignals(s, id))
  {
    TwoSignals(cfg, s, id);
    var s2 := WithSignal(WithSignal(s, RULES), ML);
    assert Stored(s2.agg, TXN).parts[GRAPH := Bare(0.0)] == ALL_PARTS;
    SignalCompletes(cfg, s2, id, GRAPH);
    assert WithSignal(s2, GRAPH).agg == WithAllSignals(s, id).agg;
    assert At(WithSignal(s2, GRAPH), id, SetNx(Complete)) == WithAllSignals(s, id);
  }

  // ---------------------------------------------------------------- signals before the context

  const FULL_ORDER: seq<Source> := [RULES, ML, GRAPH]

  lemma FullOrder()
    ensures multiset(FULL_ORDER) == multiset(ALL_PARTS.Keys)
  {
    ListingLists(ALL_PARTS);
    assert Listing(ALL_PARTS) == FULL_ORDER;
  }

  /** The claim on complete signals wins at once; its snapshot is still to be taken. */
  function EarlyClaim(): State {
    START.(agg := map[TXN := Agg(None, ALL_PARTS, Some(BUFFER_TTL))], decided := map[TXN := BUFFER_TTL],
           tasks := map[0 := Task(TXN, Hgetall(0), 0)],
           past := Past([Claim(TXN, 0, Complete, false)], map[], map[TXN := 0], map[], {}))
  }

  lemma EarlyClaimReachable(cfg: Config)
    ensures Reachable(cfg, EarlyClaim())
  {
    StartReachable(cfg);
    ThreeSignals(cfg, START, 0);
    var s3 := WithAllSignals(START, 0);
    assert EarlyClaim().tasks == s3.tasks[0 := Task(TXN, Hgetall(0), 0)];
    ReachStep(cfg, s3, Run(0, []), EarlyClaim());
  }

  /** It finds no context and publishes nothing. */
  function BlindClaim(): State {
    EarlyClaim().(tasks := map[],
                  past := EarlyClaim().past.(snaps := map[0 := Snapshot(0, None, ALL_PARTS, FULL_ORDER)]))
  }

  lemma BlindClaimReachable(cfg: Config)
    ensures Reachable(cfg, BlindClaim())
  {
    EarlyClaimReachable(cfg);
    FullOrder();
    assert Without(EarlyClaim().tasks, 0) == map[];
    ReachStep(cfg, EarlyClaim(), Run(0, FULL_ORDER), BlindClaim());
  }

  /** Then the enriched event arrives, and its deadline falls due. */
  lemma LateContext(cfg: Config)
    requires cfg.timeoutMs < BUFFER_TTL
    ensures Reachable(cfg, WithContext(cfg, BlindClaim(), 1).(now := cfg.timeoutMs))
  {
    BlindClaimReachable(cfg);
    ContextStored(cfg, BlindClaim(), 1);
    var s6 := WithContext(cfg, BlindClaim(), 1);
    assert s6.agg == map[TXN := Agg(Some(CTX), ALL_PARTS, Some(BUFFER_TTL))];
    assert LiveAgg(s6.agg, cfg.timeoutMs) == s6.agg && LiveDecided(s6.decided, cfg.timeoutMs) == s6.decided;
    ReachStep(cfg, s6, Tick(cfg.timeoutMs), s6.(now := cfg.timeoutMs));
  }

  /** Exactly-once fails without a crash: when all three signals are handled before the enriched
      event, the claim finds no context, and the deadline later finds the claim taken. */
  lemma EarlySignalsUndecided(cfg: Config) returns (s: State)
    requires cfg.timeoutMs < BUFFER_TTL
    ensures Reachable(cfg, s) && s.past.killed == {} && s.tasks == map[]
    ensures TXN in s.past.firstContext && Fresh(s.past.firstWrite, TXN, s.now)
    ensures |s.past.claims| == 1 && s.log == []
  {
    LateContext(cfg);
    var s7 := WithContext(cfg, BlindClaim(), 1).(now := cfg.timeoutMs);
    var s8 := s7.(tasks := map[1 := Task(TXN, SetNx(Timeout), s7.now)]);
    assert s8.tasks == s7.tasks[1 := Task(TXN, SetNx(Timeout), s7.now)];
    ReachStep(cfg, s7, Run(1, []), s8);
    s := s8.(tasks := map[]);
    assert Without(s8.tasks, 1) == map[];
    ReachStep(cfg, s8, Run(1, []), s);
  }

  // ---------------------------------------------------------------- slow tasks

  /** A claimant that finds the context and nothing else publishes a decision in which every signal is missing. */
  lemma PublishesGap(st: Settings, timeoutMs: nat, patience: Option<nat>, s: State, id: TaskId)
    returns (s': State, i: nat)
    requires Reachable(Deployed(st, timeoutMs, patience), s) && id in s.tasks && s.tasks[id].pc.Hgetall?
    requires s.tasks[id].txn == TXN
    requires Stored(s.agg, TXN).ctx == Some(CTX) && Stored(s.agg, TXN).parts == map[]
    ensures Reachable(Deployed(st, timeoutMs, patience), s') && i < |s'.log| && s'.log[i].message.DecisionMade?
    ensures s'.log[i].message.rd.missing != [] && s'.log[i].claim == s.tasks[id].pc.claim
    ensures s'.past.claims == s.past.claims && s'.past.firstContext == s.past.firstContext
  {
    var cfg, c := Deployed(st, timeoutMs, patience), s.tasks[id].pc.claim;
    var rd := cfg.verdict(TXN, CTX, map[], []);
    assert rd.missing == [GRAPH, ML, RULES];
    var s1 := s.(past := s.past.(snaps := s.past.snaps[c := Snapshot(s.now, Some(CTX), map[], [])]),
                 tasks := s.tasks[id := s.tasks[id].(pc := Finish(c, Outputs(rd)))]);
    EmptyListed();
    ReachStep(cfg, s, Run(id, []), s1);
    s' := s1.(log := s.log + [Record(c, DecisionMade(rd))],
              tasks := s1.tasks[id := s.tasks[id].(pc := Finish(c, Outputs(rd)[1..]))]);
    ReachStep(cfg, s1, Run(id, []), s');
    i := |s.log|;
  }

  lemma EmptyListed()
    ensures var none: Parts := map[]; var order: seq<Source> := []; multiset(order) == multiset(none.Keys)
  {
  }

  /** A task that may take all of BUFFER_TTL can claim before the enriched event is handled, outlive the hash, and
      read the context alone. */
  lemma StalledTaskIsEarly(st: Settings, timeoutMs: nat, patience: Option<nat>) returns (s: State, i: nat)
    requires patience.Some? ==> patience.value >= BUFFER_TTL
    ensures Reachable(Deployed(st, timeoutMs, patience), s) && i < |s.log| && s.log[i].message.DecisionMade?
    ensures s.log[i].message.rd.missing != [] && s.log[i].claim == 0 && |s.past.claims| == 1
    ensures s.past.claims[0].txn == TXN && s.past.claims[0].at == 0 && s.past.firstContext == map[TXN := BUFFER_TTL]
  {
    var cfg := Deployed(st, timeoutMs, patience);
    EarlyClaimReachable(cfg);
    var s0 := EarlyClaim();
    var s1 := s0.(now := BUFFER_TTL, agg := map[], decided := map[]);
    assert LiveAgg(s0.agg, BUFFER_TTL) == map[] && LiveDecided(s0.decided, BUFFER_TTL) == map[];
    ReachStep(cfg, s0, Tick(BUFFER_TTL), s1);
    ContextArrives(cfg, s1, 1);
    s, i := PublishesGap(st, timeoutMs, patience, At(ContextWritten(s1), 1, ExpireContext), 0);
  }

  /** `hgetall` finds the context. */
  lemma SnapshotTaken(cfg: Config, s: State, id: TaskId, order: seq<Source>) returns (s': State)
    requires Reachable(cfg, s) && id in s.tasks && s.tasks[id].pc.Hgetall?
    requires Stored(s.agg, s.tasks[id].txn).ctx.Some?
    requires multiset(order) == multiset(Stored(s.agg, s.tasks[id].txn).parts.Keys)
    ensures Reachable(cfg, s') && s'.now == s.now && s'.agg == s.agg && s'.decided == s.decided
    ensures s'.past.claims == s.past.claims && s'.past.firstContext == s.past.firstContext
    ensures id in s'.tasks && s'.tasks[id].pc.Finish? && s'.tasks[id].pc.claim == s.tasks[id].pc.claim
    ensures s'.tasks == s.tasks[id := s.tasks[id].(pc := s'.tasks[id].pc)]
  {
    s' := Do(cfg, s, Run(id, order));
    ReachStep(cfg, s, Run(id, order), s');
  }

  lemma HashDeleted(cfg: Config, s: State, id: TaskId) returns (s': State)
    requires Reachable(cfg, s) && id in s.tasks && s.tasks[id].pc.Finish? && s.tasks[id].pc.rest == []
    ensures Reachable(cfg, s') && s' == s.(agg := Without(s.agg, s.tasks[id].txn), tasks := Without(s.tasks, id))
  {
    s' := Do(cfg, s, Run(id, []));
    ReachStep(cfg, s, Run(id, []), s');
  }

  /** A finishing task can publish all it has left. */
  lemma {:induction false} SendsRest(cfg: Config, s: State, id: TaskId) returns (s': State)
    requires Reachable(cfg, s) && id in s.tasks && s.tasks[id].pc.Finish?
    ensures Reachable(cfg, s') && s'.now == s.now && s'.agg == s.agg && s'.decided == s.decided && s'.past == s.past
    ensures s'.tasks == s.tasks[id := s.tasks[id].(pc := Finish(s.tasks[id].pc.claim, []))]
    decreases |s.tasks[id].pc.rest|
  {
    var c, rest := s.tasks[id].pc.claim, s.tasks[id].pc.rest;
    if rest == [] {
      s' := s;
    } else {
      var s1 := s.(log := s.log + [Record(c, rest[0])],
                   tasks := s.tasks[id := s.tasks[id].(pc := Finish(c, rest[1..]))]);
      ReachStep(cfg, s, Run(id, []), s1);
      s' := SendsRest(cfg, s1, id);
    }
  }

  /** One early claim has been made; the clock shows `d`, when the context was first handled, and the
      hash holds `parts` with it. All tasks but those of `awake` are sleeping. */
  ghost predicate Staged(s: State, d: nat, parts: Parts, awake: map<TaskId, Pc>) {
    && s.now == d && s.decided == map[TXN := BUFFER_TTL]
    && s.agg == map[TXN := Agg(Some(CTX), parts, Some(d + BUFFER_TTL))]
    && s.past.claims == [Claim(TXN, 0, Complete, false)] && s.past.firstContext == map[TXN := d]
    && (forall id :: id in s.tasks ==> s.tasks[id].txn == TXN && (id in awake || s.tasks[id].pc.Sleep?))
    && (forall id :: id in awake ==> id in s.tasks && s.tasks[id].pc == awake[id])
  }

  /** All of `Staged` but for the hash, which is gone. */
  ghost predicate Cleared(s: State, d: nat, awake: map<TaskId, Pc>) {
    s.agg == map[] && Staged(s.(agg := map[TXN := Agg(Some(CTX), map[], Some(d + BUFFER_TTL))]), d, map[], awake)
  }

  lemma ContextStaged(cfg: Config, s: State, id: TaskId, d: nat, awake: map<TaskId, Pc>) returns (s': State)
    requires Reachable(cfg, s) && Cleared(s, d, awake) && id !in s.tasks
    ensures Reachable(cfg, s') && Staged(s', d, map[], awake)
    ensures forall i :: i in s.tasks ==> i in s'.tasks && s'.tasks[i] == s.tasks[i]
  {
    ContextStored(cfg, s, id);
    s' := WithContext(cfg, s, id);
  }

  /** The enriched event comes while the early claim is waiting for its snapshot. */
  lemma ContextInTime(cfg: Config, d: nat) returns (s: State)
    requires d < BUFFER_TTL && (cfg.patience.Some? ==> cfg.patience.value >= d)
    ensures Reachable(cfg, s) && Staged(s, d, ALL_PARTS, map[0 := Hgetall(0)]) && s.tasks.Keys == {0, 1}
  {
    EarlyClaimWaits(cfg, d);
    var s0 := EarlyClaim().(now := d);
    ContextStored(cfg, s0, 1);
    s := WithContext(cfg, s0, 1);
  }

  lemma EarlyClaimWaits(cfg: Config, d: nat)
    requires d < BUFFER_TTL && (cfg.patience.Some? ==> cfg.patience.value >= d)
    ensures Reachable(cfg, EarlyClaim().(now := d))
  {
    EarlyClaimReachable(cfg);
    var s0 := EarlyClaim();
    assert LiveAgg(s0.agg, d) == s0.agg && LiveDecided(s0.decided, d) == s0.decided;
    ReachStep(cfg, s0, Tick(d), s0.(now := d));
  }

  /** The snapshot holds the context after all, and a first decision is published; only the deletion of the hash is
      left to do. */
  lemma FirstDecision(cfg: Config, d: nat) returns (s: State)
    requires d < BUFFER_TTL && (cfg.patience.Some? ==> cfg.patience.value >= d)
    ensures Reachable(cfg, s) && Staged(s, d, ALL_PARTS, map[0 := Finish(0, [])]) && s.tasks.Keys == {0, 1}
  {
    var s0 := ContextInTime(cfg, d);
    FullOrder();
    var s1 := SnapshotTaken(cfg, s0, 0, FULL_ORDER);
    s := SendsRest(cfg, s1, 0);
  }

  /** A redelivered signal finds the old set complete just before the first claimant deletes it. */
  lemma SignalRedelivered(cfg: Config, d: nat) returns (s: State)
    requires d < BUFFER_TTL && (cfg.patience.Some? ==> cfg.patience.value >= d)
    ensures Reachable(cfg, s) && Staged(s, d, ALL_PARTS, map[0 := Finish(0, []), 2 := SetNx(Complete)])
    ensures s.tasks.Keys == {0, 1, 2} && s.tasks[2].start == d
  {
    var s0 := FirstDecision(cfg, d);
    SignalCompletes(cfg, s0, 2, RULES);
    s := At(WithSignal(s0, RULES), 2, SetNx(Complete));
    assert ALL_PARTS[RULES := Bare(0.0)] == ALL_PARTS;
  }

  /** The hash is deleted, and the enriched event redelivered. */
  lemma ContextRedelivered(cfg: Config, d: nat) returns (s: State)
    requires d < BUFFER_TTL && (cfg.patience.Some? ==> cfg.patience.value >= d)
    ensures Reachable(cfg, s) && Staged(s, d, map[], map[2 := SetNx(Complete)]) && s.tasks[2].start == d
  {
    var s0 := SignalRedelivered(cfg, d);
    var s1 := HashDeleted(cfg, s0, 0);
    assert s1.agg == map[];
    s := ContextStaged(cfg, s1, 3, d, map[2 := SetNx(Complete)]);
  }

  /** The first claim runs out, and the waiting task claims. */
  lemma WaitingClaims(cfg: Config, d: nat) returns (s: State)
    requires d < BUFFER_TTL <= 2 * d && (cfg.patience.Some? ==> cfg.patience.value >= d)
    ensures Reachable(cfg, s) && 2 in s.tasks && s.tasks[2].pc == Hgetall(1) && s.tasks[2].txn == TXN
    ensures Stored(s.agg, TXN).ctx == Some(CTX) && Stored(s.agg, TXN).parts == map[]
    ensures |s.past.claims| == 2 && s.past.claims[1] == Claim(TXN, BUFFER_TTL, Complete, true)
            && s.past.firstContext == map[TXN := d]
  {
    var s0 := ContextRedelivered(cfg, d);
    var s1 := s0.(now := BUFFER_TTL, decided := map[]);
    assert LiveAgg(s0.agg, BUFFER_TTL) == s0.agg && LiveDecided(s0.decided, BUFFER_TTL) == map[];
    ReachStep(cfg, s0, Tick(BUFFER_TTL - d), s1);
    s := s1.(decided := map[TXN := 2 * BUFFER_TTL],
             past := s1.past.(claims := s1.past.claims + [Claim(TXN, BUFFER_TTL, Complete, true)]),
             tasks := s1.tasks[2 := s1.tasks[2].(pc := Hgetall(1))]);
    ReachStep(cfg, s1, Run(2, []), s);
  }

  /** With tasks that may take `d`, half of BUFFER_TTL or more, a claim made because the set was complete
      can publish a decision in which every signal is missing, a mere BUFFER_TTL - d after the context came. */
  lemma SlowTaskLeavesGap(st: Settings, timeoutMs: nat, patience: Option<nat>, d: nat) returns (s: State, i: nat)
    requires d < BUFFER_TTL <= 2 * d && (patience.Some? ==> patience.value >= d)
    ensures Reachable(Deployed(st, timeoutMs, patience), s) && i < |s.log| && s.log[i].message.DecisionMade?
    ensures s.log[i].message.rd.missing != [] && s.log[i].claim == 1 && |s.past.claims| == 2
    ensures s.past.claims[1] == Claim(TXN, BUFFER_TTL, Complete, true) && s.past.firstContext == map[TXN := d]
  {
    var s0 := WaitingClaims(Deployed(st, timeoutMs, patience), d);
    s, i := PublishesGap(st, timeoutMs, patience, s0, 2);
  }

  /** Record `i` is a decision with a gap. */
  ghost predicate Gap(s: State, i: nat) {
    && i < |s.log| && s.log[i].message.DecisionMade? && s.log[i].message.rd.missing != []
    && s.log[i].claim < |s.past.claims|
  }

  /** A decision with a gap is always the deadline's doing exactly when every task takes less than
      half of BUFFER_TTL. */
  lemma GapMeansTimeoutIff(st: Settings, timeoutMs: nat, h: nat)
    ensures 2 * h < BUFFER_TTL <==>
            forall s, i: nat :: Reachable(Deployed(st, timeoutMs, Some(h)), s) && Gap(s, i) ==>
                                  s.past.claims[s.log[i].claim].why == Timeout
  {
    if 2 * h < BUFFER_TTL {
      forall s, i: nat | Reachable(Deployed(st, timeoutMs, Some(h)), s) && Gap(s, i)
        ensures s.past.claims[s.log[i].claim].why == Timeout
      {
        GapMeansTimeout(st, timeoutMs, h, s, i);
      }
    } else {
      var s, i := SlowTaskLeavesGap(st, timeoutMs, Some(h), BUFFER_TTL / 2);
      assert Gap(s, i);
    }
  }

  /** Its claim came before the timeout had passed since the first context. */
  ghost predicate EarlyGap(timeoutMs: nat, s: State, i: nat) {
    Gap(s, i) && var c := s.past.claims[s.log[i].claim]; !TimedOut(s.past.firstContext, c.txn, timeoutMs, c.at)
  }

  /** A decision with a gap is never early exactly when every task takes less than half of BUFFER_TTL, or
      less than all of it and together with the timeout no more than it. */
  lemma GapNeverEarlyIff(st: Settings, timeoutMs: nat, patience: Option<nat>)
    ensures PromptEnough(timeoutMs, patience) <==>
            forall s, i: nat :: Reachable(Deployed(st, timeoutMs, patience), s) ==> !EarlyGap(timeoutMs, s, i)
  {
    if PromptEnough(timeoutMs, patience) {
      forall s, i: nat | Reachable(Deployed(st, timeoutMs, patience), s) ensures !EarlyGap(timeoutMs, s, i) {
        if EarlyGap(timeoutMs, s, i) { GapNeverEarly(st, timeoutMs, patience, s, i); }
      }
    } else {
      var s, i := EarlyGapExists(st, timeoutMs, patience);
    }
  }

  lemma EarlyGapExists(st: Settings, timeoutMs: nat, patience: Option<nat>) returns (s: State, i: nat)
    requires !PromptEnough(timeoutMs, patience)
    ensures Reachable(Deployed(st, timeoutMs, patience), s) && EarlyGap(timeoutMs, s, i)
  {
    if patience.None? || patience.value >= BUFFER_TTL {
      s, i := StalledTaskIsEarly(st, timeoutMs, patience);
    } else {
      s, i := SlowTaskLeavesGap(st, timeoutMs, patience, patience.value);
    }
  }
}
