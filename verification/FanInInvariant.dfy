/** The inductive invariant of the fan-in protocol: what every step of every interleaving keeps. */
module FanInInvariant {
  import opened Common
  import opened Signals
  import opened FanIn
  import opened FanInClaims
  import opened FanInOwners
  import opened FanInTiming
  import opened FanInPrompt

  /** Every task finishes within `patience`, and twice that fits into BUFFER_TTL, or that and `grace` do. */
  ghost predicate Prompt(cfg: Config, grace: Option<nat>) {
    cfg.patience.Some? && Fits(cfg.patience.value, grace)
  }

  ghost predicate Inv(cfg: Config, s: State) {
    && ClaimsInv(s.now, s.decided, s.past.claims)
    && ProtocolInv(cfg.verdict, s)
    && DeadlineInv(cfg.timeoutMs, s.now, s.tasks, s.past)
    && StoreOk(s)
    && (forall grace :: PromptOk(cfg, grace, s))
  }

  ghost predicate PromptOk(cfg: Config, grace: Option<nat>, s: State) {
    Prompt(cfg, grace) ==> PromptInv(cfg.patience.value, grace, s)
  }

  lemma InvInit(cfg: Config, s: State)
    requires Init(s)
    ensures Inv(cfg, s)
  {
  }

  lemma InvElapse(cfg: Config, s: State, ms: nat)
    requires Inv(cfg, s) && Enabled(cfg, s, Tick(ms))
    ensures Inv(cfg, Elapse(s, ms))
  {
    var s' := Elapse(s, ms);
    ClaimsElapse(s, ms);
    ProtocolSame(cfg.verdict, s, s');
    DeadlineTick(cfg.timeoutMs, s, s');
    StoreTick(s, s');
    forall grace | Prompt(cfg, grace) ensures PromptOk(cfg, grace, s') {
      assert PromptOk(cfg, grace, s);
      PromptTick(cfg.patience.value, grace, s, s', ms);
    }
  }

  lemma ClaimsElapse(s: State, ms: nat)
    requires ClaimsInv(s.now, s.decided, s.past.claims)
    ensures var s' := Elapse(s, ms); ClaimsInv(s'.now, s'.decided, s'.past.claims)
  {
    ClaimsTick(s.now, s.decided, s.past.claims, ms);
  }

  lemma InvArrive(cfg: Config, s: State, id: TaskId, event: Inbound)
    requires Inv(cfg, s) && id !in s.tasks
    ensures Inv(cfg, Arrive(s, id, event))
  {
    var s' := Arrive(s, id, event);
    ProtocolOther(cfg.verdict, s, s', id);
    DeadlineOther(cfg.timeoutMs, s.now, s, s', id);
    StoreOther(s, s', id, event.txn);
    forall grace | Prompt(cfg, grace) ensures PromptOk(cfg, grace, s') {
      assert PromptOk(cfg, grace, s);
      PromptOther(cfg.patience.value, grace, s, s', id, event.txn);
    }
  }

  lemma InvDrop(cfg: Config, s: State, id: TaskId)
    requires Inv(cfg, s) && id in s.tasks
    ensures Inv(cfg, Drop(s, id))
  {
    var s' := Drop(s, id);
    ProtocolOther(cfg.verdict, s, s', id);
    DeadlineOther(cfg.timeoutMs, s.now, s, s', id);
    StoreOther(s, s', id, s.tasks[id].txn);
    forall grace | Prompt(cfg, grace) ensures PromptOk(cfg, grace, s') {
      assert PromptOk(cfg, grace, s);
      PromptOther(cfg.patience.value, grace, s, s', id, s.tasks[id].txn);
    }
  }

  predicate InHandler(pc: Pc) { !pc.SetNx? && !Claimant(pc) }

  /** Wherever the handler operation writes the hash, parts and context are only added and expiry is only pushed out. */
  lemma HandlerFrame(cfg: Config, s: State, id: TaskId)
    requires id in s.tasks && InHandler(s.tasks[id].pc)
    ensures var s' := RunHandler(cfg, s, id);
            var txn := s.tasks[id].txn;
            && (forall t :: t != txn ==> (t in s'.agg <==> t in s.agg) && (t in s.agg ==> s'.agg[t] == s.agg[t]))
            && (txn in s.agg ==> txn in s'.agg && s.agg[txn].parts.Keys <= s'.agg[txn].parts.Keys
                                 && (s.agg[txn].ctx.Some? ==> s'.agg[txn].ctx.Some?))
            && (txn in s'.agg && s'.agg[txn].expiry.Some? ==>
                  s'.agg[txn].expiry.value >= s.now + BUFFER_TTL
                    || (txn in s.agg && s'.agg[txn].expiry == s.agg[txn].expiry))
  {
  }

  lemma HandlerFirsts(cfg: Config, s: State, id: TaskId)
    requires id in s.tasks && InHandler(s.tasks[id].pc)
    ensures var s' := RunHandler(cfg, s, id);
            var txn := s.tasks[id].txn;
            && (s'.past.firstWrite == s.past.firstWrite || s'.past.firstWrite == First(s.past.firstWrite, txn, s.now))
            && (txn in s'.agg ==> txn in s.agg || txn in s'.past.firstWrite)
            && s.past.firstContext.Keys <= s'.past.firstContext.Keys
            && (txn in s'.agg && s'.agg[txn].ctx.Some? ==>
                  txn in s'.past.firstContext || (txn in s.agg && s.agg[txn].ctx.Some?))
            && (!HasWritten(s.tasks[id].pc) ==> txn in s'.past.firstWrite)
  {
  }

  lemma InvHandler(cfg: Config, s: State, id: TaskId)
    requires Inv(cfg, s) && Enabled(cfg, s, Run(id, [])) && InHandler(s.tasks[id].pc)
    ensures Inv(cfg, RunHandler(cfg, s, id))
  {
    ClaimsHandler(cfg, s, id);
    ProtocolHandler(cfg, s, id);
    DeadlineHandler(cfg, s, id);
    StoreHandler(cfg, s, id);
    forall grace | Prompt(cfg, grace) ensures PromptOk(cfg, grace, RunHandler(cfg, s, id)) {
      assert PromptOk(cfg, grace, s);
      PromptHandler(cfg, grace, s, id);
    }
  }

  lemma ClaimsHandler(cfg: Config, s: State, id: TaskId)
    requires ClaimsInv(s.now, s.decided, s.past.claims) && id in s.tasks && InHandler(s.tasks[id].pc)
    ensures var s' := RunHandler(cfg, s, id); ClaimsInv(s'.now, s'.decided, s'.past.claims)
  {
  }

  lemma ProtocolHandler(cfg: Config, s: State, id: TaskId)
    requires ProtocolInv(cfg.verdict, s) && id in s.tasks && InHandler(s.tasks[id].pc)
    ensures ProtocolInv(cfg.verdict, RunHandler(cfg, s, id))
  {
    ProtocolOther(cfg.verdict, s, RunHandler(cfg, s, id), id);
  }

  lemma StoreHandler(cfg: Config, s: State, id: TaskId)
    requires StoreOk(s) && id in s.tasks && InHandler(s.tasks[id].pc)
    ensures StoreOk(RunHandler(cfg, s, id))
  {
    HandlerFrame(cfg, s, id);
    HandlerFirsts(cfg, s, id);
    StoreOther(s, RunHandler(cfg, s, id), id, s.tasks[id].txn);
  }

  lemma DeadlineHandler(cfg: Config, s: State, id: TaskId)
    requires DeadlineInv(cfg.timeoutMs, s.now, s.tasks, s.past)
    requires Enabled(cfg, s, Run(id, [])) && InHandler(s.tasks[id].pc)
    ensures var s' := RunHandler(cfg, s, id); DeadlineInv(cfg.timeoutMs, s'.now, s'.tasks, s'.past)
  {
    var s', t := RunHandler(cfg, s, id), s.tasks[id];
    assert TaskTimed(t, s.past.firstContext, cfg.timeoutMs, s.now);
    if t.pc.HsetContext? {
      assert s'.tasks[id].txn == t.txn && Pending(s'.tasks[id].pc);
    }
    DeadlineOther(cfg.timeoutMs, s.now, s, s', id);
  }

  lemma PromptHandler(cfg: Config, grace: Option<nat>, s: State, id: TaskId)
    requires Prompt(cfg, grace) && PromptInv(cfg.patience.value, grace, s)
    requires Enabled(cfg, s, Run(id, [])) && InHandler(s.tasks[id].pc)
    ensures PromptInv(cfg.patience.value, grace, RunHandler(cfg, s, id))
  {
    var s', t, h := RunHandler(cfg, s, id), s.tasks[id], cfg.patience.value;
    assert TaskPrompt(h, grace, s.now, s.agg, s.decided, s.past, t);
    HandlerFrame(cfg, s, id);
    PromptOther(h, grace, s, s', id, t.txn);
  }

  lemma InvClaimLost(cfg: Config, s: State, id: TaskId, why: Why)
    requires Inv(cfg, s) && id in s.tasks && s.tasks[id].pc == SetNx(why) && s.tasks[id].txn in s.decided
    ensures Inv(cfg, TryClaim(s, id, why))
  {
    var s', txn := TryClaim(s, id, why), s.tasks[id].txn;
    assert ClaimedUntil(s.past.claims, txn, s.decided[txn]);
    ProtocolOther(cfg.verdict, s, s', id);
    DeadlineOther(cfg.timeoutMs, s.now, s, s', id);
    StoreOther(s, s', id, txn);
    forall grace | Prompt(cfg, grace) ensures PromptOk(cfg, grace, s') {
      assert PromptOk(cfg, grace, s);
      PromptOther(cfg.patience.value, grace, s, s', id, txn);
    }
  }

  lemma InvClaimWon(cfg: Config, s: State, id: TaskId, why: Why)
    requires Inv(cfg, s) && id in s.tasks && s.tasks[id].pc == SetNx(why) && s.tasks[id].txn !in s.decided
    ensures Inv(cfg, TryClaim(s, id, why))
  {
    var txn := s.tasks[id].txn;
    var c := Claim(txn, s.now, why, Stored(s.agg, txn).ctx.Some?);
    ClaimWonInv(cfg, s, TryClaim(s, id, why), id, c);
  }

  lemma ClaimWonInv(cfg: Config, s: State, s': State, id: TaskId, c: Claim)
    requires Inv(cfg, s) && id in s.tasks && s.tasks[id].pc == SetNx(c.why) && c.txn !in s.decided
    requires c == Claim(s.tasks[id].txn, s.now, c.why, Stored(s.agg, s.tasks[id].txn).ctx.Some?)
    requires s'.now == s.now && s'.agg == s.agg && s'.log == s.log && s'.past == s.past.(claims := s.past.claims + [c])
    requires s'.decided == s.decided[c.txn := s.now + BUFFER_TTL]
    requires s'.tasks == s.tasks[id := s.tasks[id].(pc := Hgetall(|s.past.claims|))]
    ensures Inv(cfg, s')
  {
    ClaimsWon(s, s', c);
    ProtocolClaim(cfg.verdict, s, s', id, c);
    TimingWon(cfg, s, s', id, c);
    forall grace | Prompt(cfg, grace) ensures PromptOk(cfg, grace, s') {
      assert PromptOk(cfg, grace, s);
      PromptClaim(cfg.patience.value, grace, s, s', id, c);
    }
  }

  lemma ClaimsWon(s: State, s': State, c: Claim)
    requires ClaimsInv(s.now, s.decided, s.past.claims) && c.txn !in s.decided && c.at == s.now
    requires s'.now == s.now && s'.decided == s.decided[c.txn := s.now + BUFFER_TTL]
    requires s'.past.claims == s.past.claims + [c]
    ensures ClaimsInv(s'.now, s'.decided, s'.past.claims)
  {
    ClaimsAdd(s.now, s.decided, s.past.claims, c);
  }

  lemma TimingWon(cfg: Config, s: State, s': State, id: TaskId, c: Claim)
    requires DeadlineInv(cfg.timeoutMs, s.now, s.tasks, s.past) && StoreOk(s)
    requires forall k :: k in s.past.snaps ==> k < |s.past.claims|
    requires id in s.tasks && s.tasks[id].pc == SetNx(c.why)
    requires c == Claim(s.tasks[id].txn, s.now, c.why, Stored(s.agg, s.tasks[id].txn).ctx.Some?)
    requires s'.now == s.now && s'.agg == s.agg && s'.past == s.past.(claims := s.past.claims + [c])
    requires s'.tasks == s.tasks[id := s.tasks[id].(pc := Hgetall(|s.past.claims|))]
    ensures DeadlineInv(cfg.timeoutMs, s'.now, s'.tasks, s'.past) && StoreOk(s')
  {
    DeadlineClaim(cfg.timeoutMs, s.now, s, s', id, c);
    StoreClaim(s, s', id, c);
  }

  lemma InvSnapshot(cfg: Config, s: State, id: TaskId, claim: nat, order: seq<Source>)
    requires Inv(cfg, s) && Enabled(cfg, s, Run(id, order)) && s.tasks[id].pc == Hgetall(claim)
    ensures Inv(cfg, TakeSnapshot(cfg, s, id, claim, order))
  {
    var s', t := TakeSnapshot(cfg, s, id, claim, order), s.tasks[id];
    var snap := Snapshot(s.now, Stored(s.agg, t.txn).ctx, Stored(s.agg, t.txn).parts, order);
    assert OwnerOk(cfg.verdict, t, s.past.claims, s.past.snaps, s.log);
    ProtocolSnapshot(cfg.verdict, s, s', id, snap);
    DeadlineOther(cfg.timeoutMs, s.now, s, s', id);
    StoreSnapshot(s, s', id, snap);
    forall grace | Prompt(cfg, grace) ensures PromptOk(cfg, grace, s') {
      assert PromptOk(cfg, grace, s);
      PromptSnapshot(cfg.patience.value, grace, s, s', id, snap);
    }
  }

  lemma InvSendOrDelete(cfg: Config, s: State, id: TaskId, claim: nat, rest: seq<Message>)
    requires Inv(cfg, s) && id in s.tasks && s.tasks[id].pc == Finish(claim, rest)
    ensures Inv(cfg, SendOrDelete(s, id, claim, rest))
  {
    var s', t := SendOrDelete(s, id, claim, rest), s.tasks[id];
    assert OwnerOk(cfg.verdict, t, s.past.claims, s.past.snaps, s.log);
    DeadlineOther(cfg.timeoutMs, s.now, s, s', id);
    if rest == [] {
      ProtocolDone(cfg.verdict, s, s', id);
      StoreDelete(s, s', id);
      forall grace | Prompt(cfg, grace) ensures PromptOk(cfg, grace, s') {
        assert PromptOk(cfg, grace, s);
        PromptDelete(cfg.verdict, cfg.patience.value, grace, s, s', id);
      }
    } else {
      ProtocolSend(cfg.verdict, s, s', id);
      StoreSend(s, s', id, Finish(claim, rest[1..]));
      forall grace | Prompt(cfg, grace) ensures PromptOk(cfg, grace, s') {
        assert PromptOk(cfg, grace, s);
        PromptSend(cfg.patience.value, grace, s, s', id, rest[1..]);
      }
    }
  }

  lemma InvKept(cfg: Config, s: State, step: Step)
    requires Inv(cfg, s) && Enabled(cfg, s, step)
    ensures Inv(cfg, Do(cfg, s, step))
  {
    match step
    case Tick(ms) => InvElapse(cfg, s, ms);
    case Deliver(id, event) => InvArrive(cfg, s, id, event);
    case Kill(id) => InvDrop(cfg, s, id);
    case Run(id, order) => InvRun(cfg, s, id, order);
  }

  lemma InvClaim(cfg: Config, s: State, id: TaskId, why: Why)
    requires Inv(cfg, s) && id in s.tasks && s.tasks[id].pc == SetNx(why)
    ensures Inv(cfg, TryClaim(s, id, why))
  {
    if s.tasks[id].txn in s.decided { InvClaimLost(cfg, s, id, why); } else { InvClaimWon(cfg, s, id, why); }
  }

  lemma InvFinalize(cfg: Config, s: State, id: TaskId, order: seq<Source>)
    requires Inv(cfg, s) && Enabled(cfg, s, Run(id, order)) && !InHandler(s.tasks[id].pc)
    ensures Inv(cfg, RunTask(cfg, s, id, order))
  {
    var pc := s.tasks[id].pc;
    if pc.SetNx? { InvClaim(cfg, s, id, pc.why); }
    if pc.Hgetall? { InvSnapshot(cfg, s, id, pc.claim, order); }
    if pc.Finish? { InvSendOrDelete(cfg, s, id, pc.claim, pc.rest); }
    Dispatched(cfg, s, id, order);
  }

  lemma Dispatched(cfg: Config, s: State, id: TaskId, order: seq<Source>)
    requires id in s.tasks
    ensures var pc, s' := s.tasks[id].pc, RunTask(cfg, s, id, order);
            && (pc.SetNx? ==> s' == TryClaim(s, id, pc.why))
            && (pc.Hgetall? ==> s' == TakeSnapshot(cfg, s, id, pc.claim, order))
            && (pc.Finish? ==> s' == SendOrDelete(s, id, pc.claim, pc.rest))
            && (InHandler(pc) ==> s' == RunHandler(cfg, s, id))
  {
  }

  lemma InvRun(cfg: Config, s: State, id: TaskId, order: seq<Source>)
    requires Inv(cfg, s) && Enabled(cfg, s, Run(id, order))
    ensures Inv(cfg, RunTask(cfg, s, id, order))
  {
    if InHandler(s.tasks[id].pc) { InvHandler(cfg, s, id); } else { InvFinalize(cfg, s, id, order); }
  }

  lemma {:induction false} InvRuns(cfg: Config, s: State, steps: seq<Step>)
    requires Inv(cfg, s) && Legal(cfg, s, steps)
    ensures Inv(cfg, End(cfg, s, steps))
    decreases |steps|
  {
    if steps != [] {
      InvKept(cfg, s, steps[0]);
      InvRuns(cfg, Do(cfg, s, steps[0]), steps[1..]);
    }
  }

  lemma ReachableInv(cfg: Config, s: State)
    requires Reachable(cfg, s)
    ensures Inv(cfg, s)
  {
    var s0, steps :| Init(s0) && Legal(cfg, s0, steps) && End(cfg, s0, steps) == s;
    InvInit(cfg, s0);
    InvRuns(cfg, s0, steps);
  }
}
