/** What the deadline task guarantees about time, and what the shared hash keeps. */
module FanInTiming {
  import opened FanIn
  import opened FanInClaims
  import opened FanInOwners

  // ---------------------------------------------------------------- deadlines

  ghost predicate TimedOut(fc: map<Txn, nat>, txn: Txn, timeoutMs: nat, at: nat) {
    txn in fc && fc[txn] + timeoutMs <= at
  }

  ghost predicate TaskTimed(t: Task, fc: map<Txn, nat>, timeoutMs: nat, now: nat) {
    && (t.pc.ExpireContext? ==> t.txn in fc)
    && (t.pc.Sleep? ==> TimedOut(fc, t.txn, timeoutMs, t.pc.wake))
    && (t.pc == SetNx(Timeout) ==> TimedOut(fc, t.txn, timeoutMs, now))
  }

  /** On its way to a claim by way of the deadline. */
  predicate Pending(pc: Pc) { pc.ExpireContext? || pc.Sleep? || pc == SetNx(Timeout) }

  ghost predicate PendingFor(tasks: map<TaskId, Task>, txn: Txn) {
    exists id :: id in tasks && tasks[id].txn == txn && Pending(tasks[id].pc)
  }

  ghost predicate ClaimedOnce(claims: seq<Claim>, txn: Txn) {
    exists c :: 0 <= c < |claims| && claims[c].txn == txn
  }

  ghost predicate DeadlineInv(timeoutMs: nat, now: nat, tasks: map<TaskId, Task>, past: Past) {
    && (forall t :: t in past.firstContext ==> past.firstContext[t] <= now)
    && (forall id :: id in tasks ==> TaskTimed(tasks[id], past.firstContext, timeoutMs, now))
    && (forall c :: 0 <= c < |past.claims| && past.claims[c].why == Timeout ==>
          TimedOut(past.firstContext, past.claims[c].txn, timeoutMs, past.claims[c].at))
    && (forall t :: t in past.firstContext ==> t in past.killed || PendingFor(tasks, t) || ClaimedOnce(past.claims, t))
  }

  lemma DeadlineOther(timeoutMs: nat, now: nat, s: State, s': State, id: TaskId)
    requires DeadlineInv(timeoutMs, now, s.tasks, s.past) && OthersKept(s.tasks, s'.tasks, id)
    requires s'.past.claims == s.past.claims && s.past.killed <= s'.past.killed
    requires forall t :: t in s.past.firstContext ==>
               t in s'.past.firstContext && s'.past.firstContext[t] == s.past.firstContext[t]
    requires forall t :: t in s'.past.firstContext ==> s'.past.firstContext[t] <= now
    requires id in s'.tasks ==> TaskTimed(s'.tasks[id], s'.past.firstContext, timeoutMs, now)
    requires forall t :: t in s'.past.firstContext && t !in s.past.firstContext ==> PendingFor(s'.tasks, t)
    requires id !in s.tasks || s.tasks[id].txn in s'.past.killed || !Pending(s.tasks[id].pc)
             || (id in s'.tasks && s'.tasks[id].txn == s.tasks[id].txn && Pending(s'.tasks[id].pc))
             || ClaimedOnce(s'.past.claims, s.tasks[id].txn)
    ensures DeadlineInv(timeoutMs, now, s'.tasks, s'.past)
  {
    forall t | t in s'.past.firstContext && t !in s'.past.killed
      ensures PendingFor(s'.tasks, t) || ClaimedOnce(s'.past.claims, t)
    {
      if t in s.past.firstContext && PendingFor(s.tasks, t) {
        var i :| i in s.tasks && s.tasks[i].txn == t && Pending(s.tasks[i].pc);
        if i != id { assert i in s'.tasks && s'.tasks[i] == s.tasks[i]; }
      }
    }
  }

  lemma DeadlineTick(timeoutMs: nat, s: State, s': State)
    requires DeadlineInv(timeoutMs, s.now, s.tasks, s.past) && s'.now >= s.now && s'.tasks == s.tasks
    requires s'.past == s.past
    ensures DeadlineInv(timeoutMs, s'.now, s'.tasks, s'.past)
  {
  }

  lemma DeadlineClaim(timeoutMs: nat, now: nat, s: State, s': State, id: TaskId, c: Claim)
    requires DeadlineInv(timeoutMs, now, s.tasks, s.past) && id in s.tasks
    requires s.tasks[id].pc == SetNx(c.why) && c.txn == s.tasks[id].txn && c.at == now
    requires s'.tasks == s.tasks[id := s.tasks[id].(pc := Hgetall(|s.past.claims|))]
    requires s'.past == s.past.(claims := s.past.claims + [c])
    ensures DeadlineInv(timeoutMs, now, s'.tasks, s'.past)
  {
    assert s'.past.claims[|s.past.claims|] == c;
    forall t | t in s'.past.firstContext && t !in s'.past.killed
      ensures PendingFor(s'.tasks, t) || ClaimedOnce(s'.past.claims, t)
    {
      if ClaimedOnce(s.past.claims, t) {
        var k :| 0 <= k < |s.past.claims| && s.past.claims[k].txn == t;
        assert s'.past.claims[k].txn == t;
      } else {
        var i :| i in s.tasks && s.tasks[i].txn == t && Pending(s.tasks[i].pc);
        if i != id { assert i in s'.tasks && s'.tasks[i] == s.tasks[i]; }
      }
    }
  }

  // ---------------------------------------------------------------- the shared hash

  ghost predicate IsFirst(claims: seq<Claim>, c: nat)
    requires c < |claims|
  {
    forall i :: 0 <= i < c ==> claims[i].txn != claims[c].txn
  }

  /** The hash was first written less than BUFFER_TTL before `at`, so it cannot have expired by then. */
  ghost predicate Fresh(fw: map<Txn, nat>, txn: Txn, at: nat) {
    txn in fw && at < fw[txn] + BUFFER_TTL
  }

  /** A task that is past its first write. */
  predicate HasWritten(pc: Pc) { !pc.HsetContext? && !pc.HsetPart? }

  /** The context, once stored, stays until the first claimant's snapshot has seen it, expiry aside. */
  ghost predicate StoreInv(now: nat, agg: map<Txn, Agg>, tasks: map<TaskId, Task>, past: Past) {
    && (forall t :: t in agg ==> t in past.firstWrite)
    && (forall t :: t in agg && agg[t].expiry.Some? ==> agg[t].expiry.value >= past.firstWrite[t] + BUFFER_TTL)
    && (forall t :: t in past.firstWrite ==> past.firstWrite[t] <= now)
    && (forall id :: id in tasks && HasWritten(tasks[id].pc) ==> tasks[id].txn in past.firstWrite)
    && (forall c :: 0 <= c < |past.claims| ==>
          past.claims[c].txn in past.firstWrite && past.firstWrite[past.claims[c].txn] <= past.claims[c].at)
    && (forall c :: c in past.snaps ==> past.snaps[c].at <= now)
    && ContextDated(agg, past)
    && (forall c :: 0 <= c < |past.claims| ==> ContextKept(now, agg, past, c))
  }

  /** A context that is stored or was read has been written. */
  ghost predicate ContextDated(agg: map<Txn, Agg>, past: Past) {
    && (forall t :: t in agg && agg[t].ctx.Some? ==> t in past.firstContext)
    && (forall c :: c in past.snaps && past.snaps[c].ctx.Some? ==>
          c < |past.claims| && past.claims[c].txn in past.firstContext)
  }

  ghost predicate ContextKept(now: nat, agg: map<Txn, Agg>, past: Past, c: nat)
    requires c < |past.claims|
  {
    var txn := past.claims[c].txn;
    past.claims[c].ctxStored && IsFirst(past.claims, c) ==>
      if c in past.snaps then Fresh(past.firstWrite, txn, past.snaps[c].at) ==> past.snaps[c].ctx.Some?
      else Fresh(past.firstWrite, txn, now) ==> txn in agg && agg[txn].ctx.Some?
  }

  ghost predicate StoreOk(s: State) { StoreInv(s.now, s.agg, s.tasks, s.past) }

  /** Handlers, arrivals, drops and lost claims: the hash of `txn` may change but keeps its context. */
  lemma StoreOther(s: State, s': State, id: TaskId, txn: Txn)
    requires StoreOk(s) && OthersKept(s.tasks, s'.tasks, id)
    requires s'.now == s.now && s'.past.claims == s.past.claims && s'.past.snaps == s.past.snaps
    requires id in s'.tasks && HasWritten(s'.tasks[id].pc) ==> s'.tasks[id].txn in s'.past.firstWrite
    requires s'.past.firstWrite == s.past.firstWrite || s'.past.firstWrite == First(s.past.firstWrite, txn, s.now)
    requires forall t :: t != txn ==> (t in s'.agg <==> t in s.agg) && (t in s.agg ==> s'.agg[t] == s.agg[t])
    requires txn in s.agg ==> txn in s'.agg && (s.agg[txn].ctx.Some? ==> s'.agg[txn].ctx.Some?)
    requires txn in s'.agg ==> txn in s'.past.firstWrite
    requires s.past.firstContext.Keys <= s'.past.firstContext.Keys
    requires txn in s'.agg && s'.agg[txn].ctx.Some? ==>
               txn in s'.past.firstContext || (txn in s.agg && s.agg[txn].ctx.Some?)
    requires txn in s'.agg && s'.agg[txn].expiry.Some? ==>
               s'.agg[txn].expiry.value >= s.now + BUFFER_TTL
                 || (txn in s.agg && s'.agg[txn].expiry == s.agg[txn].expiry)
    ensures StoreOk(s')
  {
    forall c | 0 <= c < |s'.past.claims| ensures ContextKept(s'.now, s'.agg, s'.past, c) {
      assert ContextKept(s.now, s.agg, s.past, c);
    }
  }

  lemma StoreTick(s: State, s': State)
    requires StoreOk(s) && s'.now >= s.now && s'.agg == LiveAgg(s.agg, s'.now) && s'.tasks == s.tasks
    requires s'.past == s.past
    ensures StoreOk(s')
  {
    forall c | 0 <= c < |s'.past.claims| ensures ContextKept(s'.now, s'.agg, s'.past, c) {
      assert ContextKept(s.now, s.agg, s.past, c);
    }
  }

  lemma StoreClaim(s: State, s': State, id: TaskId, c: Claim)
    requires StoreOk(s) && id in s.tasks && s.tasks[id].pc.SetNx? && c.txn == s.tasks[id].txn && c.at == s.now
    requires c.ctxStored ==> c.txn in s.agg && s.agg[c.txn].ctx.Some?
    requires forall k :: k in s.past.snaps ==> k < |s.past.claims|
    requires s'.now == s.now && s'.agg == s.agg && s'.past == s.past.(claims := s.past.claims + [c])
    requires s'.tasks == s.tasks[id := s.tasks[id].(pc := Hgetall(|s.past.claims|))]
    ensures StoreOk(s')
  {
    forall k | 0 <= k < |s'.past.claims| ensures ContextKept(s'.now, s'.agg, s'.past, k) {
      if k < |s.past.claims| {
        assert ContextKept(s.now, s.agg, s.past, k);
        assert IsFirst(s'.past.claims, k) ==> IsFirst(s.past.claims, k) by {
          assert forall i :: 0 <= i <= k ==> s'.past.claims[i] == s.past.claims[i];
        }
      }
    }
  }

  lemma StoreSnapshot(s: State, s': State, id: TaskId, snap: Snapshot)
    requires StoreOk(s) && id in s.tasks && s.tasks[id].pc.Hgetall? && OthersKept(s.tasks, s'.tasks, id)
    requires s.tasks[id].pc.claim < |s.past.claims| && s.tasks[id].pc.claim !in s.past.snaps
    requires s.past.claims[s.tasks[id].pc.claim].txn == s.tasks[id].txn
    requires snap.at == s.now && snap.ctx == Stored(s.agg, s.tasks[id].txn).ctx
    requires s'.now == s.now && s'.agg == s.agg
    requires s'.past == s.past.(snaps := s.past.snaps[s.tasks[id].pc.claim := snap])
    requires id in s'.tasks ==> s'.tasks[id].txn == s.tasks[id].txn
    ensures StoreOk(s')
  {
    forall k | 0 <= k < |s'.past.claims| ensures ContextKept(s'.now, s'.agg, s'.past, k) {
      assert ContextKept(s.now, s.agg, s.past, k);
    }
  }

  /** Deleting the hash: an earlier first claim still without a snapshot is a TTL old by then. */
  lemma StoreDelete(s: State, s': State, id: TaskId)
    requires StoreOk(s) && ClaimsInv(s.now, s.decided, s.past.claims)
    requires id in s.tasks && s.tasks[id].pc.Finish? && s.tasks[id].pc.claim in s.past.snaps
    requires s.tasks[id].pc.claim < |s.past.claims| && s.past.claims[s.tasks[id].pc.claim].txn == s.tasks[id].txn
    requires s'.now == s.now && s'.past == s.past && s'.agg == Without(s.agg, s.tasks[id].txn)
    requires s'.tasks == Without(s.tasks, id)
    ensures StoreOk(s')
  {
    var d := s.tasks[id].pc.claim;
    forall c | 0 <= c < |s'.past.claims| ensures ContextKept(s'.now, s'.agg, s'.past, c) {
      assert ContextKept(s.now, s.agg, s.past, c);
      if s.past.claims[c].txn == s.tasks[id].txn && IsFirst(s.past.claims, c) && c !in s.past.snaps {
        assert c < d;
        assert s.past.claims[c].at + BUFFER_TTL <= s.past.claims[d].at <= s.now;
      }
    }
  }

  lemma StoreSend(s: State, s': State, id: TaskId, pc: Pc)
    requires StoreOk(s) && id in s.tasks && s.tasks[id].pc.Finish?
    requires s'.now == s.now && s'.past == s.past && s'.agg == s.agg
    requires s'.tasks == s.tasks[id := s.tasks[id].(pc := pc)]
    ensures StoreOk(s')
  {
    forall c | 0 <= c < |s'.past.claims| ensures ContextKept(s'.now, s'.agg, s'.past, c) {
      assert ContextKept(s.now, s.agg, s.past, c);
    }
  }
}
