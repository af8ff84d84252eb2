/** Who owns a claim and what it has published, over every interleaving. */
module FanInOwners {
  import opened Signals
  import opened Scoring
  import opened FanIn

  type Verdict = (Txn, Context, Parts, seq<Source>) -> RiskDecision

  /** The task is past a successful `SET NX`. */
  predicate Claimant(pc: Pc) { pc.Hgetall? || pc.Finish? }

  /** What claim `c` has published so far. */
  function Of(log: seq<Record>, c: nat): seq<Message> {
    if log == [] then []
    else Of(log[..|log| - 1], c) + if log[|log| - 1].claim == c then [log[|log| - 1].message] else []
  }

  /** The decision that the snapshot of claim `c` leads to. */
  function DecisionOf(v: Verdict, claims: seq<Claim>, snaps: map<nat, Snapshot>, c: nat): RiskDecision
    requires c < |claims| && c in snaps && snaps[c].ctx.Some?
  {
    v(claims[c].txn, snaps[c].ctx.value, snaps[c].parts, snaps[c].order)
  }

  /** Everything claim `c` is to publish: nothing without a snapshot, or when the snapshot lacks the context. */
  function Intended(v: Verdict, claims: seq<Claim>, snaps: map<nat, Snapshot>, c: nat): seq<Message>
    requires c < |claims|
  {
    if c in snaps && snaps[c].ctx.Some? then Outputs(DecisionOf(v, claims, snaps, c)) else []
  }

  /** No two tasks own one claim; what an owner has left to send completes what its claim has published. */
  ghost predicate OwnersInv(v: Verdict, tasks: map<TaskId, Task>, claims: seq<Claim>, snaps: map<nat, Snapshot>,
                            log: seq<Record>) {
    && (forall id :: id in tasks && Claimant(tasks[id].pc) ==> OwnerOk(v, tasks[id], claims, snaps, log))
    && (forall i, j :: i in tasks && j in tasks && Claimant(tasks[i].pc) && Claimant(tasks[j].pc) ==>
          tasks[i].pc.claim == tasks[j].pc.claim ==> i == j)
  }

  ghost predicate OwnerOk(v: Verdict, t: Task, claims: seq<Claim>, snaps: map<nat, Snapshot>, log: seq<Record>)
    requires Claimant(t.pc)
  {
    var c := t.pc.claim;
    && c < |claims| && claims[c].txn == t.txn
    && (t.pc.Hgetall? ==> c !in snaps)
    && (t.pc.Finish? ==> c in snaps && snaps[c].ctx.Some? && Of(log, c) + t.pc.rest == Intended(v, claims, snaps, c))
  }

  /** `hgetall` returned every stored signal once. */
  ghost predicate Listed(snap: Snapshot) { multiset(snap.order) == multiset(snap.parts.Keys) }

  ghost predicate OutputsInv(v: Verdict, claims: seq<Claim>, snaps: map<nat, Snapshot>, log: seq<Record>) {
    && (forall c :: c in snaps ==> c < |claims| && Listed(snaps[c]))
    && (forall i :: 0 <= i < |log| ==> log[i].claim < |claims|)
    && (forall c :: 0 <= c < |claims| ==> Of(log, c) <= Intended(v, claims, snaps, c))
  }

  /** Unless its transaction lost a deadline or a claimant, a claim is being worked on or has
      published all it is to publish. */
  ghost predicate SettledInv(v: Verdict, tasks: map<TaskId, Task>, past: Past, log: seq<Record>) {
    forall c :: 0 <= c < |past.claims| ==>
      past.claims[c].txn in past.killed || Owned(tasks, c) || Settled(v, past, log, c)
  }

  ghost predicate Owned(tasks: map<TaskId, Task>, c: nat) {
    exists id :: id in tasks && Claimant(tasks[id].pc) && tasks[id].pc.claim == c
  }

  ghost predicate Settled(v: Verdict, past: Past, log: seq<Record>, c: nat)
    requires c < |past.claims|
  {
    c in past.snaps && Of(log, c) == Intended(v, past.claims, past.snaps, c)
  }

  ghost predicate ProtocolInv(v: Verdict, s: State) {
    && OwnersInv(v, s.tasks, s.past.claims, s.past.snaps, s.log)
    && OutputsInv(v, s.past.claims, s.past.snaps, s.log)
    && SettledInv(v, s.tasks, s.past, s.log)
  }

  lemma {:induction false} OfNone(log: seq<Record>, c: nat)
    requires forall i :: 0 <= i < |log| ==> log[i].claim != c
    ensures Of(log, c) == []
  {
    if log != [] { OfNone(log[..|log| - 1], c); }
  }

  lemma OfSnoc(log: seq<Record>, r: Record, c: nat)
    ensures Of(log + [r], c) == Of(log, c) + if r.claim == c then [r.message] else []
  {
    assert (log + [r])[..|log|] == log;
  }

  /** A step that only touches tasks that are not past their claim. */
  ghost predicate OthersKept(tasks: map<TaskId, Task>, tasks': map<TaskId, Task>, id: TaskId) {
    && (forall i :: i != id ==> (i in tasks <==> i in tasks'))
    && (forall i :: i != id && i in tasks ==> tasks'[i] == tasks[i])
  }

  lemma ProtocolOther(v: Verdict, s: State, s': State, id: TaskId)
    requires ProtocolInv(v, s) && OthersKept(s.tasks, s'.tasks, id)
    requires id in s'.tasks ==> !Claimant(s'.tasks[id].pc)
    requires id !in s.tasks || !Claimant(s.tasks[id].pc) || s.tasks[id].txn in s'.past.killed
    requires s'.past.claims == s.past.claims && s'.past.snaps == s.past.snaps && s'.log == s.log
    requires s.past.killed <= s'.past.killed
    ensures ProtocolInv(v, s')
  {
    forall c | 0 <= c < |s'.past.claims| && s'.past.claims[c].txn !in s'.past.killed
      ensures Owned(s'.tasks, c) || Settled(v, s'.past, s'.log, c)
    {
      if Owned(s.tasks, c) {
        var i :| i in s.tasks && Claimant(s.tasks[i].pc) && s.tasks[i].pc.claim == c;
        assert OwnerOk(v, s.tasks[i], s.past.claims, s.past.snaps, s.log);
        assert i in s'.tasks && s'.tasks[i] == s.tasks[i];
      } else {
        assert Settled(v, s.past, s.log, c);
      }
    }
  }

  lemma ProtocolSame(v: Verdict, s: State, s': State)
    requires ProtocolInv(v, s) && s'.tasks == s.tasks && s'.past == s.past && s'.log == s.log
    ensures ProtocolInv(v, s')
  {
  }

  lemma IntendedStable(v: Verdict, claims: seq<Claim>, more: seq<Claim>, snaps: map<nat, Snapshot>, c: nat)
    requires c < |claims|
    ensures Intended(v, claims + more, snaps, c) == Intended(v, claims, snaps, c)
  {
  }

  lemma ProtocolClaim(v: Verdict, s: State, s': State, id: TaskId, c: Claim)
    requires ProtocolInv(v, s) && id in s.tasks && !Claimant(s.tasks[id].pc) && c.txn == s.tasks[id].txn
    requires s'.tasks == s.tasks[id := s.tasks[id].(pc := Hgetall(|s.past.claims|))]
    requires s'.past == s.past.(claims := s.past.claims + [c]) && s'.log == s.log
    ensures ProtocolInv(v, s')
  {
    var n := |s.past.claims|;
    OfNone(s.log, n);
    forall k | 0 <= k < n
      ensures Intended(v, s'.past.claims, s'.past.snaps, k) == Intended(v, s.past.claims, s.past.snaps, k)
    {
      IntendedStable(v, s.past.claims, [c], s.past.snaps, k);
    }
    forall i | i in s'.tasks && Claimant(s'.tasks[i].pc)
      ensures OwnerOk(v, s'.tasks[i], s'.past.claims, s'.past.snaps, s'.log)
    {
      if i != id { assert OwnerOk(v, s.tasks[i], s.past.claims, s.past.snaps, s.log); }
    }
    forall i, j | i in s'.tasks && j in s'.tasks && Claimant(s'.tasks[i].pc) && Claimant(s'.tasks[j].pc)
      && s'.tasks[i].pc.claim == s'.tasks[j].pc.claim ensures i == j
    {
      if i != id { assert OwnerOk(v, s.tasks[i], s.past.claims, s.past.snaps, s.log); }
      if j != id { assert OwnerOk(v, s.tasks[j], s.past.claims, s.past.snaps, s.log); }
    }
    forall k | 0 <= k < |s'.past.claims| && s'.past.claims[k].txn !in s'.past.killed
      ensures Owned(s'.tasks, k) || Settled(v, s'.past, s'.log, k)
    {
      if k == n {
        assert id in s'.tasks && Claimant(s'.tasks[id].pc) && s'.tasks[id].pc.claim == n;
      } else if Owned(s.tasks, k) {
        var i :| i in s.tasks && Claimant(s.tasks[i].pc) && s.tasks[i].pc.claim == k;
        assert i in s'.tasks && s'.tasks[i] == s.tasks[i];
      } else {
        assert Settled(v, s.past, s.log, k);
      }
    }
  }

  /** The step of `finalize` that reads the hash into snapshot `snap`. */
  ghost predicate Snapshots(v: Verdict, s: State, s': State, id: TaskId, snap: Snapshot) {
    && id in s.tasks && s.tasks[id].pc.Hgetall? && Listed(snap)
    && s'.past == s.past.(snaps := s.past.snaps[s.tasks[id].pc.claim := snap]) && s'.log == s.log
    && OthersKept(s.tasks, s'.tasks, id)
    && (id in s'.tasks <==> snap.ctx.Some?)
    && (id in s'.tasks ==> s'.tasks[id] == s.tasks[id].(pc :=
          Finish(s.tasks[id].pc.claim, Outputs(v(s.tasks[id].txn, snap.ctx.value, snap.parts, snap.order)))))
  }

  /** The claim had published nothing, and no other claim's plans change. */
  lemma SnapshotIntends(v: Verdict, s: State, s': State, id: TaskId, snap: Snapshot)
    requires ProtocolInv(v, s) && Snapshots(v, s, s', id, snap)
    ensures var c := s.tasks[id].pc.claim;
            && c < |s.past.claims| && s.past.claims[c].txn == s.tasks[id].txn && c !in s.past.snaps
            && Of(s.log, c) == []
            && Intended(v, s'.past.claims, s'.past.snaps, c)
               == (if snap.ctx.Some? then Outputs(v(s.tasks[id].txn, snap.ctx.value, snap.parts, snap.order)) else [])
            && forall k :: 0 <= k < |s.past.claims| && k != c ==>
                 Intended(v, s'.past.claims, s'.past.snaps, k) == Intended(v, s.past.claims, s.past.snaps, k)
  {
    assert OwnerOk(v, s.tasks[id], s.past.claims, s.past.snaps, s.log);
    assert Of(s.log, s.tasks[id].pc.claim) <= Intended(v, s.past.claims, s.past.snaps, s.tasks[id].pc.claim);
  }

  lemma OwnersSnapshot(v: Verdict, s: State, s': State, id: TaskId, snap: Snapshot)
    requires ProtocolInv(v, s) && Snapshots(v, s, s', id, snap)
    ensures OwnersInv(v, s'.tasks, s'.past.claims, s'.past.snaps, s'.log)
  {
    SnapshotIntends(v, s, s', id, snap);
    forall i | i in s'.tasks && Claimant(s'.tasks[i].pc)
      ensures OwnerOk(v, s'.tasks[i], s'.past.claims, s'.past.snaps, s'.log)
    {
      if i != id { assert OwnerOk(v, s.tasks[i], s.past.claims, s.past.snaps, s.log); }
    }
  }

  lemma ProtocolSnapshot(v: Verdict, s: State, s': State, id: TaskId, snap: Snapshot)
    requires ProtocolInv(v, s) && Snapshots(v, s, s', id, snap)
    ensures ProtocolInv(v, s')
  {
    SnapshotIntends(v, s, s', id, snap);
    OwnersSnapshot(v, s, s', id, snap);
    OwnersProgress(v, s, s', id);
  }

  /** When only claim `c` of the running task moves on, all other claims stay as settled or as owned as they were. */
  lemma OwnersProgress(v: Verdict, s: State, s': State, id: TaskId)
    requires SettledInv(v, s.tasks, s.past, s.log)
    requires id in s.tasks && Claimant(s.tasks[id].pc)
    requires OthersKept(s.tasks, s'.tasks, id)
    requires s'.past.claims == s.past.claims && s'.past.killed == s.past.killed
    requires forall k :: 0 <= k < |s.past.claims| && k != s.tasks[id].pc.claim && Settled(v, s.past, s.log, k) ==>
               Settled(v, s'.past, s'.log, k)
    requires s.tasks[id].pc.claim < |s.past.claims|
    requires (id in s'.tasks && Claimant(s'.tasks[id].pc) && s'.tasks[id].pc.claim == s.tasks[id].pc.claim)
             || Settled(v, s'.past, s'.log, s.tasks[id].pc.claim)
    ensures SettledInv(v, s'.tasks, s'.past, s'.log)
  {
    var c := s.tasks[id].pc.claim;
    forall k | 0 <= k < |s'.past.claims| && s'.past.claims[k].txn !in s'.past.killed
      ensures Owned(s'.tasks, k) || Settled(v, s'.past, s'.log, k)
    {
      if k == c {
      } else if Owned(s.tasks, k) {
        var i :| i in s.tasks && Claimant(s.tasks[i].pc) && s.tasks[i].pc.claim == k;
        assert i in s'.tasks && s'.tasks[i] == s.tasks[i];
      } else {
        assert Settled(v, s.past, s.log, k);
      }
    }
  }

  /** Sending the first of `rest` moves it from what is left to what is published, for claim `c` alone. */
  lemma OfSend(log: seq<Record>, c: nat, rest: seq<Message>)
    requires rest != []
    ensures var log' := log + [Record(c, rest[0])];
            && Of(log', c) + rest[1..] == Of(log, c) + rest
            && Of(log', c) <= Of(log, c) + rest
            && forall k: nat :: k != c ==> Of(log', k) == Of(log, k)
  {
    var log' := log + [Record(c, rest[0])];
    OfSnoc(log, Record(c, rest[0]), c);
    assert rest == [rest[0]] + rest[1..];
    assert Of(log', c) + rest[1..] == Of(log, c) + rest;
    forall k: nat | k != c ensures Of(log', k) == Of(log, k) { OfSnoc(log, Record(c, rest[0]), k); }
  }

  lemma ProtocolSend(v: Verdict, s: State, s': State, id: TaskId)
    requires ProtocolInv(v, s) && id in s.tasks && s.tasks[id].pc.Finish? && s.tasks[id].pc.rest != []
    requires var pc := s.tasks[id].pc;
             && s'.log == s.log + [Record(pc.claim, pc.rest[0])]
             && s'.tasks == s.tasks[id := s.tasks[id].(pc := Finish(pc.claim, pc.rest[1..]))]
    requires s'.past == s.past
    ensures ProtocolInv(v, s')
  {
    var pc := s.tasks[id].pc;
    var c := pc.claim;
    assert OwnerOk(v, s.tasks[id], s.past.claims, s.past.snaps, s.log);
    OfSend(s.log, c, pc.rest);
    forall i | i in s'.tasks && Claimant(s'.tasks[i].pc)
      ensures OwnerOk(v, s'.tasks[i], s'.past.claims, s'.past.snaps, s'.log)
    {
      if i != id {
        assert OwnerOk(v, s.tasks[i], s.past.claims, s.past.snaps, s.log);
      }
    }
    OwnersProgress(v, s, s', id);
  }

  lemma ProtocolDone(v: Verdict, s: State, s': State, id: TaskId)
    requires ProtocolInv(v, s) && id in s.tasks && s.tasks[id].pc.Finish? && s.tasks[id].pc.rest == []
    requires s'.past == s.past && s'.log == s.log && s'.tasks == Without(s.tasks, id)
    ensures ProtocolInv(v, s')
  {
    assert OwnerOk(v, s.tasks[id], s.past.claims, s.past.snaps, s.log);
    forall i | i in s'.tasks && Claimant(s'.tasks[i].pc)
      ensures OwnerOk(v, s'.tasks[i], s'.past.claims, s'.past.snaps, s'.log)
    {
      assert OwnerOk(v, s.tasks[i], s.past.claims, s.past.snaps, s.log);
    }
    OwnersProgress(v, s, s', id);
  }
}
