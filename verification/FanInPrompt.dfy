/** What prompt tasks add: a claim made because the set was complete sees the complete set, or
    at least comes no earlier than the deadline could have come. */
module FanInPrompt {
  import opened Common
  import opened Signals
  import opened FanIn
  import opened FanInClaims
  import opened FanInOwners
  import opened FanInTiming

  /** The hash will not expire within BUFFER_TTL of `start`. */
  ghost predicate LastsFrom(agg: map<Txn, Agg>, txn: Txn, start: nat) {
    txn in agg && agg[txn].expiry.Some? ==> agg[txn].expiry.value >= start + BUFFER_TTL
  }

  ghost predicate Covered(agg: map<Txn, Agg>, txn: Txn, start: nat) {
    txn in agg && EXPECTED <= agg[txn].parts.Keys && LastsFrom(agg, txn, start)
  }

  /** A claim attempted up to `until` is refused. */
  ghost predicate Blocked(decided: map<Txn, nat>, txn: Txn, until: nat) {
    txn in decided && decided[txn] > until
  }

  /** How prompt a task has to be. Without `grace` a complete set must not be lost; with it
      it may be, if the claim comes no earlier than `grace` after the first context. */
  predicate Fits(h: nat, grace: Option<nat>) {
    h < BUFFER_TTL && if grace.None? then 2 * h < BUFFER_TTL else h + grace.value <= BUFFER_TTL
  }

  ghost predicate Due(past: Past, txn: Txn, grace: Option<nat>, at: nat) {
    grace.Some? && TimedOut(past.firstContext, txn, grace.value, at)
  }

  /** A waiting claim will be refused, or will be due by the time it is not. */
  ghost predicate Excused(h: nat, grace: Option<nat>, now: nat, decided: map<Txn, nat>, past: Past, t: Task) {
    if grace.None? then Blocked(decided, t.txn, t.start + h)
    else Due(past, t.txn, grace, now) || (t.txn in decided && Due(past, t.txn, grace, decided[t.txn]))
  }

  ghost predicate TaskPrompt(h: nat, grace: Option<nat>, now: nat, agg: map<Txn, Agg>, decided: map<Txn, nat>,
                             past: Past, t: Task) {
    && (!t.pc.Sleep? ==> t.start <= now <= t.start + h)
    && (Claimant(t.pc) ==> t.pc.claim < |past.claims| && t.start <= past.claims[t.pc.claim].at)
    && (t.pc.Hkeys? || t.pc == SetNx(Complete) ==> LastsFrom(agg, t.txn, t.start))
    && (t.pc == SetNx(Complete) ==> Covered(agg, t.txn, t.start) || Excused(h, grace, now, decided, past, t))
    && (t.pc.Hgetall? && past.claims[t.pc.claim].why == Complete ==>
          Covered(agg, t.txn, t.start) || Due(past, t.txn, grace, past.claims[t.pc.claim].at))
  }

  ghost predicate PromptInv(h: nat, grace: Option<nat>, s: State) {
    && (forall id :: id in s.tasks ==> TaskPrompt(h, grace, s.now, s.agg, s.decided, s.past, s.tasks[id]))
    && (forall c :: c in s.past.snaps ==> SnapPrompt(grace, s.past, c))
  }

  ghost predicate SnapPrompt(grace: Option<nat>, past: Past, c: nat)
    requires c in past.snaps
  {
    && c < |past.claims|
    && (past.claims[c].why == Complete ==>
          EXPECTED <= past.snaps[c].parts.Keys || Due(past, past.claims[c].txn, grace, past.claims[c].at))
  }

  ghost predicate FirstsKept(past: Past, past': Past) {
    forall t :: t in past.firstContext ==> t in past'.firstContext && past'.firstContext[t] == past.firstContext[t]
  }

  lemma PromptOther(h: nat, grace: Option<nat>, s: State, s': State, id: TaskId, txn: Txn)
    requires PromptInv(h, grace, s) && OthersKept(s.tasks, s'.tasks, id)
    requires s'.now == s.now && s'.decided == s.decided && s'.past.claims == s.past.claims
    requires s'.past.snaps == s.past.snaps
    requires FirstsKept(s.past, s'.past)
    requires id in s'.tasks ==> TaskPrompt(h, grace, s.now, s'.agg, s'.decided, s'.past, s'.tasks[id])
    requires forall t :: t != txn ==> (t in s'.agg <==> t in s.agg) && (t in s.agg ==> s'.agg[t] == s.agg[t])
    requires txn in s.agg ==> txn in s'.agg && s.agg[txn].parts.Keys <= s'.agg[txn].parts.Keys
    requires txn in s'.agg && s'.agg[txn].expiry.Some? ==>
               s'.agg[txn].expiry.value >= s.now + BUFFER_TTL
                 || (txn in s.agg && s'.agg[txn].expiry == s.agg[txn].expiry)
    ensures PromptInv(h, grace, s')
  {
    forall i | i in s'.tasks ensures TaskPrompt(h, grace, s'.now, s'.agg, s'.decided, s'.past, s'.tasks[i]) {
      if i != id { assert TaskPrompt(h, grace, s.now, s.agg, s.decided, s.past, s.tasks[i]); }
    }
  }

  lemma PromptTick(h: nat, grace: Option<nat>, s: State, s': State, ms: nat)
    requires PromptInv(h, grace, s) && Fits(h, grace)
    requires forall id :: id in s.tasks && !s.tasks[id].pc.Sleep? ==> s.now + ms <= s.tasks[id].start + h
    requires s' == Elapse(s, ms)
    ensures PromptInv(h, grace, s')
  {
    forall i | i in s'.tasks ensures TaskPrompt(h, grace, s'.now, s'.agg, s'.decided, s'.past, s'.tasks[i]) {
      assert TaskPrompt(h, grace, s.now, s.agg, s.decided, s.past, s.tasks[i]);
    }
  }

  lemma PromptClaim(h: nat, grace: Option<nat>, s: State, s': State, id: TaskId, c: Claim)
    requires PromptInv(h, grace, s) && id in s.tasks && s.tasks[id].pc == SetNx(c.why) && c.txn == s.tasks[id].txn
    requires c.at == s.now
    requires c.txn !in s.decided
    requires s'.now == s.now && s'.agg == s.agg && s'.decided == s.decided[c.txn := s.now + BUFFER_TTL]
    requires s'.past == s.past.(claims := s.past.claims + [c])
    requires s'.tasks == s.tasks[id := s.tasks[id].(pc := Hgetall(|s.past.claims|))]
    ensures PromptInv(h, grace, s')
  {
    assert TaskPrompt(h, grace, s.now, s.agg, s.decided, s.past, s.tasks[id]);
    forall i | i in s'.tasks ensures TaskPrompt(h, grace, s'.now, s'.agg, s'.decided, s'.past, s'.tasks[i]) {
      assert TaskPrompt(h, grace, s.now, s.agg, s.decided, s.past, s.tasks[i]);
    }
  }

  lemma PromptSnapshot(h: nat, grace: Option<nat>, s: State, s': State, id: TaskId, snap: Snapshot)
    requires PromptInv(h, grace, s) && id in s.tasks && s.tasks[id].pc.Hgetall? && OthersKept(s.tasks, s'.tasks, id)
    requires s.tasks[id].pc.claim < |s.past.claims| && s.past.claims[s.tasks[id].pc.claim].txn == s.tasks[id].txn
    requires snap.parts == Stored(s.agg, s.tasks[id].txn).parts
    requires s'.now == s.now && s'.agg == s.agg && s'.decided == s.decided
    requires s'.past == s.past.(snaps := s.past.snaps[s.tasks[id].pc.claim := snap])
    requires id in s'.tasks ==> s'.tasks[id].pc.Finish? && s'.tasks[id].pc.claim == s.tasks[id].pc.claim
                                && s'.tasks[id].txn == s.tasks[id].txn && s'.tasks[id].start == s.tasks[id].start
    ensures PromptInv(h, grace, s')
  {
    assert TaskPrompt(h, grace, s.now, s.agg, s.decided, s.past, s.tasks[id]);
    forall i | i in s'.tasks ensures TaskPrompt(h, grace, s'.now, s'.agg, s'.decided, s'.past, s'.tasks[i]) {
      if i != id { assert TaskPrompt(h, grace, s.now, s.agg, s.decided, s.past, s.tasks[i]); }
    }
    forall c | c in s'.past.snaps ensures SnapPrompt(grace, s'.past, c) {
      if c != s.tasks[id].pc.claim { assert SnapPrompt(grace, s.past, c); }
    }
  }

  lemma PromptSend(h: nat, grace: Option<nat>, s: State, s': State, id: TaskId, rest: seq<Message>)
    requires PromptInv(h, grace, s) && id in s.tasks && s.tasks[id].pc.Finish?
    requires s'.now == s.now && s'.agg == s.agg && s'.decided == s.decided && s'.past == s.past
    requires s'.tasks == s.tasks[id := s.tasks[id].(pc := Finish(s.tasks[id].pc.claim, rest))]
    ensures PromptInv(h, grace, s')
  {
    forall i | i in s'.tasks ensures TaskPrompt(h, grace, s'.now, s'.agg, s'.decided, s'.past, s'.tasks[i]) {
      assert TaskPrompt(h, grace, s.now, s.agg, s.decided, s.past, s.tasks[i]);
    }
  }

  /** A transaction has at most one task past its claim at a time. */
  lemma OneClaimant(v: Verdict, h: nat, grace: Option<nat>, s: State, i: TaskId, j: TaskId)
    requires PromptInv(h, grace, s) && Fits(h, grace)
    requires ClaimsInv(s.now, s.decided, s.past.claims) && OwnersInv(v, s.tasks, s.past.claims, s.past.snaps, s.log)
    requires i in s.tasks && j in s.tasks && Claimant(s.tasks[i].pc) && Claimant(s.tasks[j].pc)
    requires s.tasks[i].txn == s.tasks[j].txn
    ensures i == j
  {
    assert OwnerOk(v, s.tasks[i], s.past.claims, s.past.snaps, s.log)
           && OwnerOk(v, s.tasks[j], s.past.claims, s.past.snaps, s.log);
    assert TaskPrompt(h, grace, s.now, s.agg, s.decided, s.past, s.tasks[i]);
    assert TaskPrompt(h, grace, s.now, s.agg, s.decided, s.past, s.tasks[j]);
  }

  /** The deleting claimant is prompt, so a claim attempted by a task alive now is still refused,
      or is let in too late to be early: the first context is older than the deleter's claim plus `h`. */
  lemma DeleterExcuses(v: Verdict, h: nat, grace: Option<nat>, s: State, id: TaskId)
    requires PromptInv(h, grace, s) && Fits(h, grace)
    requires ClaimsInv(s.now, s.decided, s.past.claims) && OwnersInv(v, s.tasks, s.past.claims, s.past.snaps, s.log)
    requires ContextDated(s.agg, s.past) && forall t :: t in s.past.firstContext ==> s.past.firstContext[t] <= s.now
    requires id in s.tasks && s.tasks[id].pc.Finish?
    ensures forall t: Task :: t.txn == s.tasks[id].txn && t.start <= s.now ==>
              Excused(h, grace, s.now, s.decided, s.past, t)
  {
    assert TaskPrompt(h, grace, s.now, s.agg, s.decided, s.past, s.tasks[id]);
    assert OwnerOk(v, s.tasks[id], s.past.claims, s.past.snaps, s.log);
    var c := s.tasks[id].pc.claim;
    assert s.now < s.past.claims[c].at + BUFFER_TTL <= s.decided[s.tasks[id].txn];
    assert s.past.firstContext[s.tasks[id].txn] <= s.past.claims[c].at + h;
  }

  /** A claimant that deletes is prompt, so no other claimant is waiting for its snapshot, and
      a complete set still waiting for its claim will find that claim refused, or be due. */
  lemma PromptDelete(v: Verdict, h: nat, grace: Option<nat>, s: State, s': State, id: TaskId)
    requires PromptInv(h, grace, s) && Fits(h, grace)
    requires ClaimsInv(s.now, s.decided, s.past.claims) && OwnersInv(v, s.tasks, s.past.claims, s.past.snaps, s.log)
    requires ContextDated(s.agg, s.past) && forall t :: t in s.past.firstContext ==> s.past.firstContext[t] <= s.now
    requires id in s.tasks && s.tasks[id].pc.Finish?
    requires s'.now == s.now && s'.decided == s.decided && s'.past == s.past
    requires s'.agg == Without(s.agg, s.tasks[id].txn) && s'.tasks == Without(s.tasks, id)
    ensures PromptInv(h, grace, s')
  {
    forall i | i in s'.tasks
      ensures TaskPrompt(h, grace, s'.now, s'.agg, s'.decided, s'.past, s'.tasks[i])
    {
      TaskAfterDelete(v, h, grace, s, id, i);
    }
  }

  lemma TaskAfterDelete(v: Verdict, h: nat, grace: Option<nat>, s: State, id: TaskId, i: TaskId)
    requires PromptInv(h, grace, s) && Fits(h, grace)
    requires ClaimsInv(s.now, s.decided, s.past.claims) && OwnersInv(v, s.tasks, s.past.claims, s.past.snaps, s.log)
    requires ContextDated(s.agg, s.past) && forall t :: t in s.past.firstContext ==> s.past.firstContext[t] <= s.now
    requires id in s.tasks && s.tasks[id].pc.Finish? && i in s.tasks && i != id
    ensures TaskPrompt(h, grace, s.now, Without(s.agg, s.tasks[id].txn), s.decided, s.past, s.tasks[i])
  {
    DeleterExcuses(v, h, grace, s, id);
    assert TaskPrompt(h, grace, s.now, s.agg, s.decided, s.past, s.tasks[i]);
    if s.tasks[i].txn == s.tasks[id].txn && Claimant(s.tasks[i].pc) { OneClaimant(v, h, grace, s, i, id); }
  }
}
