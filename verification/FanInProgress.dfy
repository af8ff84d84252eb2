/** Progress of the fan-in protocol: runs come to rest, and what has been decided by then. */
module FanInProgress {
  import opened Common
  import opened Signals
  import opened Scoring
  import opened FanIn
  import opened FanInOwners
  import opened FanInTiming
  import opened FanInInvariant
  import opened FanInSafety

  // ---------------------------------------------------------------- the measure

  /** An upper bound on the operations a task has left. */
  function WorkOf(pc: Pc): nat {
    match pc
    case HsetContext(_) => 10
    case ExpireContext => 9
    case Sleep(_) => 8
    case HsetPart(_, _) => 10
    case ExpirePart => 9
    case Hkeys => 8
    case SetNx(_) => 7
    case Hgetall(_) => 6
    case Finish(_, rest) => 1 + |rest|
  }

  ghost function Pick(tasks: map<TaskId, Task>): TaskId
    requires tasks != map[]
  {
    var id :| id in tasks; id
  }

  ghost function Work(tasks: map<TaskId, Task>): nat
    decreases |tasks|
  {
    if tasks == map[] then 0
    else var id := Pick(tasks); WorkOf(tasks[id].pc) + Work(Without(tasks, id))
  }

  lemma {:induction false} WorkSplit(tasks: map<TaskId, Task>, id: TaskId)
    requires id in tasks
    ensures Work(tasks) == WorkOf(tasks[id].pc) + Work(Without(tasks, id))
    decreases |tasks|
  {
    var p := Pick(tasks);
    if p != id {
      WorkSplit(Without(tasks, p), id);
      WorkSplit(Without(tasks, id), p);
      assert Without(Without(tasks, p), id) == Without(Without(tasks, id), p);
    }
  }

  lemma WorkSet(tasks: map<TaskId, Task>, id: TaskId, t: Option<Task>)
    requires id in tasks && (t.Some? ==> WorkOf(t.value.pc) < WorkOf(tasks[id].pc))
    ensures Work(SetTask(tasks, id, t)) < Work(tasks)
  {
    WorkSplit(tasks, id);
    if t.Some? {
      WorkSplit(tasks[id := t.value], id);
      assert Without(tasks[id := t.value], id) == Without(tasks, id);
    }
  }

  /** The own task after a step of `finalize`. */
  lemma RunSetsTask(cfg: Config, s: State, id: TaskId, order: seq<Source>) returns (t: Option<Task>)
    requires id in s.tasks
    ensures RunTask(cfg, s, id, order).tasks == SetTask(s.tasks, id, t)
    ensures t.Some? ==> WorkOf(t.value.pc) < WorkOf(s.tasks[id].pc)
  {
    var s' := RunTask(cfg, s, id, order);
    t := if id in s'.tasks then Some(s'.tasks[id]) else None;
  }

  /** Every operation of a task uses up work. */
  lemma RunDecreases(cfg: Config, s: State, id: TaskId, order: seq<Source>)
    requires id in s.tasks
    ensures Work(RunTask(cfg, s, id, order).tasks) < Work(s.tasks)
  {
    var t := RunSetsTask(cfg, s, id, order);
    WorkSet(s.tasks, id, t);
  }

  function Runs(steps: seq<Step>): nat {
    if steps == [] then 0 else (if steps[0].Run? then 1 else 0) + Runs(steps[1..])
  }

  /** Without new deliveries only so many operations are ever performed, in whatever order. */
  lemma {:induction false} RunsBounded(cfg: Config, s: State, steps: seq<Step>)
    requires Legal(cfg, s, steps) && forall i :: 0 <= i < |steps| ==> !steps[i].Deliver?
    ensures Runs(steps) + Work(End(cfg, s, steps).tasks) <= Work(s.tasks)
    decreases |steps|
  {
    if steps != [] {
      match steps[0] {
        case Tick(ms) =>
        case Kill(id) => WorkSplit(s.tasks, id);
        case Run(id, order) => RunDecreases(cfg, s, id, order);
      }
      RunsBounded(cfg, Do(cfg, s, steps[0]), steps[1..]);
    }
  }

  // ---------------------------------------------------------------- coming to rest

  /** Every deadline that is set, or is still to be set without waiting, falls due by `horizon`. */
  ghost predicate DueBy(cfg: Config, s: State, horizon: nat) {
    && s.now <= horizon
    && (forall id :: id in s.tasks && s.tasks[id].pc.Sleep? ==> s.tasks[id].pc.wake <= horizon)
    && (forall id :: id in s.tasks && (s.tasks[id].pc.HsetContext? || s.tasks[id].pc.ExpireContext?) ==>
          s.now + cfg.timeoutMs <= horizon)
  }

  /** Records of first writes are never revised, and no task is killed by time passing or tasks running. */
  ghost predicate Extends(a: Past, b: Past) {
    && a.killed == b.killed
    && (forall t :: t in a.firstWrite ==> t in b.firstWrite && b.firstWrite[t] == a.firstWrite[t])
    && (forall t :: t in a.firstContext ==> t in b.firstContext)
  }

  function One(parts: Parts, x: Source): seq<Source> { if x in parts then [x] else [] }

  function Listing(parts: Parts): seq<Source> { One(parts, RULES) + One(parts, ML) + One(parts, GRAPH) }

  lemma OneCounts(parts: Parts, x: Source, y: Source)
    ensures multiset(One(parts, x))[y] == if x == y && x in parts then 1 else 0
  {
  }

  lemma ListingLists(parts: Parts)
    ensures multiset(Listing(parts)) == multiset(parts.Keys)
  {
    forall x: Source ensures multiset(Listing(parts))[x] == multiset(parts.Keys)[x] {
      OneCounts(parts, RULES, x);
      OneCounts(parts, ML, x);
      OneCounts(parts, GRAPH, x);
      assert multiset(Listing(parts)) ==
             multiset(One(parts, RULES)) + multiset(One(parts, ML)) + multiset(One(parts, GRAPH));
    }
  }

  lemma RunKeeps(cfg: Config, s: State, id: TaskId, order: seq<Source>, horizon: nat)
    requires id in s.tasks && DueBy(cfg, s, horizon)
    ensures var s' := RunTask(cfg, s, id, order); DueBy(cfg, s', horizon) && Extends(s.past, s'.past) && s'.now == s.now
  {
    RunExtends(cfg, s, id, order);
  }

  lemma RunExtends(cfg: Config, s: State, id: TaskId, order: seq<Source>)
    requires id in s.tasks
    ensures var s' := RunTask(cfg, s, id, order); Extends(s.past, s'.past) && s'.now == s.now
  {
  }

  lemma AwakeRuns(cfg: Config, s: State, id: TaskId) returns (step: Step)
    requires id in s.tasks && (s.tasks[id].pc.Sleep? ==> s.tasks[id].pc.wake <= s.now)
    ensures step.Run? && step.id == id && Enabled(cfg, s, step)
  {
    ListingLists(Stored(s.agg, s.tasks[id].txn).parts);
    step := Run(id, Listing(Stored(s.agg, s.tasks[id].txn).parts));
  }

  /** From any state the tasks in flight can all run to their end by `horizon`, with nothing killed. */
  lemma {:induction false} ComesToRest(cfg: Config, s: State, horizon: nat) returns (steps: seq<Step>)
    requires DueBy(cfg, s, horizon)
    ensures Legal(cfg, s, steps)
    ensures forall i :: 0 <= i < |steps| ==> steps[i].Tick? || steps[i].Run?
    ensures var s' := End(cfg, s, steps); s'.tasks == map[] && s'.now <= horizon && Extends(s.past, s'.past)
    decreases Work(s.tasks)
  {
    if s.tasks == map[] {
      steps := [];
    } else if id :| id in s.tasks && !s.tasks[id].pc.Sleep? {
      var step := AwakeRuns(cfg, s, id);
      RunDecreases(cfg, s, id, step.order);
      RunKeeps(cfg, s, id, step.order, horizon);
      var rest := ComesToRest(cfg, Do(cfg, s, step), horizon);
      steps := [step] + rest;
    } else {
      var id := Pick(s.tasks);
      var wake := s.tasks[id].pc.wake;
      var tick := Tick(if wake > s.now then wake - s.now else 0);
      var s1 := Elapse(s, tick.ms);
      assert DueBy(cfg, s1, horizon) && Enabled(cfg, s, tick);
      var step := AwakeRuns(cfg, s1, id);
      RunDecreases(cfg, s1, id, step.order);
      RunKeeps(cfg, s1, id, step.order, horizon);
      var rest := ComesToRest(cfg, Do(cfg, s1, step), horizon);
      steps := [tick] + ([step] + rest);
    }
  }

  // ---------------------------------------------------------------- exactly one decision

  ghost predicate Quiet(s: State, txn: Txn) {
    forall id :: id in s.tasks ==> s.tasks[id].txn != txn
  }

  /** Where the decisions on `txn` stand in the log. */
  ghost function Decisions(s: State, txn: Txn): set<nat> {
    set i | 0 <= i < |s.log| && s.log[i].message.DecisionMade? && s.log[i].claim < |s.past.claims|
            && s.past.claims[s.log[i].claim].txn == txn
  }

  /** When a run has come to rest on a transaction that lost no deadline and no claimant, within
      BUFFER_TTL of its first write and with the enriched event handled, exactly one claim was made.
      It published one decision and all that goes with it if its snapshot held the context, and
      nothing otherwise; and a context stored before the claim is held. */
  lemma ExactlyOneDecision(cfg: Config, s: State, txn: Txn) returns (c: nat)
    requires Reachable(cfg, s) && txn !in s.past.killed && Quiet(s, txn)
    requires txn in s.past.firstContext && Fresh(s.past.firstWrite, txn, s.now)
    ensures c < |s.past.claims| && s.past.claims[c].txn == txn && c in s.past.snaps
    ensures forall d :: 0 <= d < |s.past.claims| && s.past.claims[d].txn == txn ==> d == c
    ensures |Decisions(s, txn)| == if s.past.snaps[c].ctx.Some? then 1 else 0
    ensures s.past.snaps[c].ctx.Some? ==>
              Of(s.log, c) == Outputs(DecisionOf(cfg.verdict, s.past.claims, s.past.snaps, c))
    ensures s.past.claims[c].ctxStored ==> s.past.snaps[c].ctx.Some?
  {
    c := OnlyClaim(cfg, s, txn);
    SettledWhenQuiet(cfg, s, txn, c);
    if s.past.claims[c].ctxStored { StoredContextSeen(cfg, s, c); }
    if s.past.snaps[c].ctx.Some? {
      var i := FirstRecord(s.log, c);
      DecisionIsOnly(cfg, s, txn, c, i);
    } else {
      forall i | i in Decisions(s, txn) ensures false { RecordHasContext(cfg, s, i); }
      assert Decisions(s, txn) == {};
    }
  }

  lemma OnlyClaim(cfg: Config, s: State, txn: Txn) returns (c: nat)
    requires Reachable(cfg, s) && txn !in s.past.killed && Quiet(s, txn)
    requires txn in s.past.firstContext && Fresh(s.past.firstWrite, txn, s.now)
    ensures c < |s.past.claims| && s.past.claims[c].txn == txn
    ensures forall d :: 0 <= d < |s.past.claims| && s.past.claims[d].txn == txn ==> d == c
  {
    ReachableInv(cfg, s);
    assert PendingFor(s.tasks, txn) || ClaimedOnce(s.past.claims, txn);
    c :| 0 <= c < |s.past.claims| && s.past.claims[c].txn == txn;
  }

  lemma SettledWhenQuiet(cfg: Config, s: State, txn: Txn, c: nat)
    requires Reachable(cfg, s) && txn !in s.past.killed && Quiet(s, txn)
    requires c < |s.past.claims| && s.past.claims[c].txn == txn
    ensures Settled(cfg.verdict, s.past, s.log, c)
  {
    ReachableInv(cfg, s);
    assert SettledInv(cfg.verdict, s.tasks, s.past, s.log);
  }

  lemma StoredContextSeen(cfg: Config, s: State, c: nat)
    requires Reachable(cfg, s) && c < |s.past.claims| && c in s.past.snaps && s.past.claims[c].ctxStored
    requires IsFirst(s.past.claims, c) && Fresh(s.past.firstWrite, s.past.claims[c].txn, s.now)
    ensures s.past.snaps[c].ctx.Some?
  {
    ReachableInv(cfg, s);
    assert ContextKept(s.now, s.agg, s.past, c);
  }

  lemma {:induction false} FirstRecord(log: seq<Record>, c: nat) returns (i: nat)
    requires Of(log, c) != []
    ensures i < |log| && log[i].claim == c && log[i].message == Of(log, c)[0]
    decreases |log|
  {
    var front := log[..|log| - 1];
    if Of(front, c) == [] { i := |front|; } else { i := FirstRecord(front, c); }
  }

  lemma DecisionIsOnly(cfg: Config, s: State, txn: Txn, c: nat, i: nat)
    requires Reachable(cfg, s) && i < |s.log| && s.log[i].claim == c && s.log[i].message.DecisionMade?
    requires c < |s.past.claims| && s.past.claims[c].txn == txn
    requires forall d :: 0 <= d < |s.past.claims| && s.past.claims[d].txn == txn ==> d == c
    ensures |Decisions(s, txn)| == 1
  {
    forall j | j in Decisions(s, txn) ensures j == i {
      if j < i { OneDecisionPerClaim(cfg, s, j, i); } else if i < j { OneDecisionPerClaim(cfg, s, i, j); }
    }
    assert i in Decisions(s, txn);
    assert Decisions(s, txn) == {i};
  }

  // ---------------------------------------------------------------- and it is reached

  /** The context was stored before the first claim on the transaction, or is stored and no claim has been made. */
  ghost predicate ContextReady(s: State, txn: Txn) {
    if ClaimedOnce(s.past.claims, txn)
    then exists c :: 0 <= c < |s.past.claims| && s.past.claims[c].txn == txn && IsFirst(s.past.claims, c)
                     && s.past.claims[c].ctxStored
    else txn in s.agg && s.agg[txn].ctx.Some?
  }

  lemma ClaimedStays(claims: seq<Claim>, c: Claim, txn: Txn)
    ensures ClaimedOnce(claims + [c], txn) <==> ClaimedOnce(claims, txn) || c.txn == txn
  {
    if ClaimedOnce(claims, txn) {
      var i :| 0 <= i < |claims| && claims[i].txn == txn;
      assert (claims + [c])[i].txn == txn;
    }
    if c.txn == txn { assert (claims + [c])[|claims|].txn == txn; }
  }

  lemma ReadyClaim(s: State, s': State, txn: Txn, c: Claim)
    requires ContextReady(s, txn) && s'.agg == s.agg && s'.past.claims == s.past.claims + [c]
    requires c.ctxStored == Stored(s.agg, c.txn).ctx.Some?
    ensures ContextReady(s', txn)
  {
    ClaimedStays(s.past.claims, c, txn);
    if ClaimedOnce(s.past.claims, txn) {
      var i :| 0 <= i < |s.past.claims| && s.past.claims[i].txn == txn && IsFirst(s.past.claims, i)
               && s.past.claims[i].ctxStored;
      assert forall k :: 0 <= k <= i ==> s'.past.claims[k] == s.past.claims[k];
      assert IsFirst(s'.past.claims, i);
    } else if c.txn == txn {
      var n := |s.past.claims|;
      assert s'.past.claims[n] == c;
      assert IsFirst(s'.past.claims, n);
    }
  }

  /** Nothing but time takes a stored context away before the first claim. */
  lemma ReadyKept(cfg: Config, s: State, step: Step, txn: Txn)
    requires Inv(cfg, s) && Enabled(cfg, s, step) && ContextReady(s, txn)
    requires Fresh(s.past.firstWrite, txn, Do(cfg, s, step).now)
    ensures ContextReady(Do(cfg, s, step), txn)
  {
    match step
    case Tick(ms) =>
      assert txn in s.agg && s.agg[txn].expiry.Some? ==> s.agg[txn].expiry.value >= s.past.firstWrite[txn] + BUFFER_TTL;
    case Deliver(_, _) =>
    case Kill(_) =>
    case Run(id, order) => ReadyRun(cfg, s, id, order, txn);
  }

  lemma ReadyRun(cfg: Config, s: State, id: TaskId, order: seq<Source>, txn: Txn)
    requires Inv(cfg, s) && id in s.tasks && ContextReady(s, txn)
    ensures ContextReady(RunTask(cfg, s, id, order), txn)
  {
    var t := s.tasks[id];
    Dispatched(cfg, s, id, order);
    if t.pc.SetNx? && t.txn !in s.decided {
      ReadyClaim(s, TryClaim(s, id, t.pc.why), txn, Claim(t.txn, s.now, t.pc.why, Stored(s.agg, t.txn).ctx.Some?));
    } else if t.pc.Finish? {
      FinisherOwns(cfg, s, id);
      ReadyFinish(s, id, t.pc.claim, t.pc.rest, txn);
    } else if InHandler(t.pc) {
      ReadyHandler(cfg, s, id, txn);
    }
  }

  lemma FinisherOwns(cfg: Config, s: State, id: TaskId)
    requires Inv(cfg, s) && id in s.tasks && s.tasks[id].pc.Finish?
    ensures s.tasks[id].pc.claim < |s.past.claims| && s.past.claims[s.tasks[id].pc.claim].txn == s.tasks[id].txn
  {
    assert OwnerOk(cfg.verdict, s.tasks[id], s.past.claims, s.past.snaps, s.log);
  }

  lemma ReadyFinish(s: State, id: TaskId, claim: nat, rest: seq<Message>, txn: Txn)
    requires id in s.tasks && ContextReady(s, txn)
    requires claim < |s.past.claims| && s.past.claims[claim].txn == s.tasks[id].txn
    ensures ContextReady(SendOrDelete(s, id, claim, rest), txn)
  {
  }

  lemma ReadyHandler(cfg: Config, s: State, id: TaskId, txn: Txn)
    requires id in s.tasks && InHandler(s.tasks[id].pc) && ContextReady(s, txn)
    ensures ContextReady(RunHandler(cfg, s, id), txn)
  {
    HandlerFrame(cfg, s, id);
  }

  lemma StepGrows(cfg: Config, s: State, step: Step)
    requires Enabled(cfg, s, step)
    ensures var s' := Do(cfg, s, step);
            && s.now <= s'.now
            && forall t :: t in s.past.firstWrite ==>
                 t in s'.past.firstWrite && s'.past.firstWrite[t] == s.past.firstWrite[t]
  {
  }

  lemma {:induction false} RunsGrow(cfg: Config, s: State, steps: seq<Step>)
    requires Legal(cfg, s, steps)
    ensures var s' := End(cfg, s, steps);
            && s.now <= s'.now
            && forall t :: t in s.past.firstWrite ==>
                 t in s'.past.firstWrite && s'.past.firstWrite[t] == s.past.firstWrite[t]
    decreases |steps|
  {
    if steps != [] {
      StepGrows(cfg, s, steps[0]);
      RunsGrow(cfg, Do(cfg, s, steps[0]), steps[1..]);
    }
  }

  lemma {:induction false} ReadyRuns(cfg: Config, s: State, steps: seq<Step>, txn: Txn)
    requires Inv(cfg, s) && Legal(cfg, s, steps) && ContextReady(s, txn) && txn in s.past.firstWrite
    requires Fresh(s.past.firstWrite, txn, End(cfg, s, steps).now)
    ensures ContextReady(End(cfg, s, steps), txn)
    decreases |steps|
  {
    if steps != [] {
      var s' := Do(cfg, s, steps[0]);
      RunsGrow(cfg, s', steps[1..]);
      StepGrows(cfg, s, steps[0]);
      ReadyKept(cfg, s, steps[0], txn);
      InvKept(cfg, s, steps[0]);
      ReadyRuns(cfg, s', steps[1..], txn);
    }
  }

  lemma {:induction false} RunsCompose(cfg: Config, s: State, a: seq<Step>, b: seq<Step>)
    requires Legal(cfg, s, a) && Legal(cfg, End(cfg, s, a), b)
    ensures Legal(cfg, s, a + b) && End(cfg, s, a + b) == End(cfg, End(cfg, s, a), b)
    decreases |a|
  {
    if a == [] {
      assert a + b == b;
    } else {
      RunsCompose(cfg, Do(cfg, s, a[0]), a[1..], b);
      assert (a + b)[1..] == a[1..] + b;
    }
  }

  lemma ReachableOn(cfg: Config, s: State, steps: seq<Step>)
    requires Reachable(cfg, s) && Legal(cfg, s, steps)
    ensures Reachable(cfg, End(cfg, s, steps))
  {
    var s0, past :| Init(s0) && Legal(cfg, s0, past) && End(cfg, s0, past) == s;
    RunsCompose(cfg, s0, past, steps);
  }

  lemma ReadyAtEnd(cfg: Config, s: State, steps: seq<Step>, txn: Txn)
    requires Reachable(cfg, s) && Legal(cfg, s, steps) && ContextReady(s, txn)
    requires Fresh(s.past.firstWrite, txn, End(cfg, s, steps).now)
    ensures var s' := End(cfg, s, steps); ContextReady(s', txn) && Fresh(s'.past.firstWrite, txn, s'.now)
  {
    ReachableInv(cfg, s);
    RunsGrow(cfg, s, steps);
    ReadyRuns(cfg, s, steps, txn);
  }

  /** A handled transaction whose context is in place gets decided: its tasks can run on to a state with
      exactly one decision for it, by the time its last deadline falls due, if that is within BUFFER_TTL
      of the first write. */
  lemma DecisionIsReached(cfg: Config, s: State, txn: Txn, horizon: nat) returns (steps: seq<Step>)
    requires Reachable(cfg, s) && txn !in s.past.killed && txn in s.past.firstContext && ContextReady(s, txn)
    requires DueBy(cfg, s, horizon) && Fresh(s.past.firstWrite, txn, horizon)
    ensures Legal(cfg, s, steps) && forall i :: 0 <= i < |steps| ==> steps[i].Tick? || steps[i].Run?
    ensures End(cfg, s, steps).tasks == map[] && End(cfg, s, steps).now <= horizon
    ensures |Decisions(End(cfg, s, steps), txn)| == 1
  {
    steps := ComesToRest(cfg, s, horizon);
    ReadyAtEnd(cfg, s, steps, txn);
    ReachableOn(cfg, s, steps);
    var c := ExactlyOneDecision(cfg, End(cfg, s, steps), txn);
  }
}
