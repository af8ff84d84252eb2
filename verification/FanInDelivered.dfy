/** What the hash holds and a snapshot sees is what was delivered, in the version written last. */
module FanInDelivered {
  import opened Common
  import opened Signals
  import opened Scoring
  import opened FanIn
  import opened FanInClaims
  import opened FanInOwners
  import opened FanInTiming
  import opened FanInInvariant

  // ---------------------------------------------------------------- writes, read off the steps alone

  /** The event delivered to task `id`, while the task has neither run nor been killed since. */
  function Unstarted(steps: seq<Step>, id: TaskId): Option<Inbound>
    decreases |steps|
  {
    if steps == [] then None
    else
      var front := steps[..|steps| - 1];
      match steps[|steps| - 1]
      case Deliver(i, event) => if i == id then Some(event) else Unstarted(front, id)
      case Run(i, _) => if i == id then None else Unstarted(front, id)
      case Kill(i) => if i == id then None else Unstarted(front, id)
      case Tick(_) => Unstarted(front, id)
  }

  /** The event whose `hset` is the last step: a handler's first operation writes what it was delivered. */
  function Written(steps: seq<Step>): Option<Inbound> {
    if steps == [] || !steps[|steps| - 1].Run? then None
    else Unstarted(steps[..|steps| - 1], steps[|steps| - 1].id)
  }

  predicate WritesSignal(w: Option<Inbound>, txn: Txn, x: Source) {
    w.Some? && w.value.SignalEvent? && w.value.txn == txn && w.value.source == x
  }

  predicate WritesContext(w: Option<Inbound>, txn: Txn) { w.Some? && w.value.EnrichedEvent? && w.value.txn == txn }

  /** The signal of source `x` written last for a transaction. */
  function LastSignal(steps: seq<Step>, txn: Txn, x: Source): Option<Part>
    decreases |steps|
  {
    if steps == [] then None
    else if WritesSignal(Written(steps), txn, x) then Some(Written(steps).value.part)
    else LastSignal(steps[..|steps| - 1], txn, x)
  }

  function LastContext(steps: seq<Step>, txn: Txn): Option<Context>
    decreases |steps|
  {
    if steps == [] then None
    else if WritesContext(Written(steps), txn) then Some(Written(steps).value.ctx)
    else LastContext(steps[..|steps| - 1], txn)
  }

  predicate Delivered(steps: seq<Step>, event: Inbound) {
    exists k :: 0 <= k < |steps| && steps[k].Deliver? && steps[k].event == event
  }

  lemma DeliveredMore(steps: seq<Step>, n: nat, event: Inbound)
    requires n <= |steps| && Delivered(steps[..n], event)
    ensures Delivered(steps, event)
  {
    var k :| 0 <= k < n && steps[..n][k].Deliver? && steps[..n][k].event == event;
    assert steps[k] == steps[..n][k];
  }

  lemma {:induction false} UnstartedDelivered(steps: seq<Step>, id: TaskId)
    requires Unstarted(steps, id).Some?
    ensures Delivered(steps, Unstarted(steps, id).value)
    decreases |steps|
  {
    var n := |steps| - 1;
    if !(steps[n].Deliver? && steps[n].id == id) {
      UnstartedDelivered(steps[..n], id);
      DeliveredMore(steps, n, Unstarted(steps, id).value);
    }
  }

  /** The values written last were delivered. */
  lemma {:induction false} LastSignalDelivered(steps: seq<Step>, txn: Txn, x: Source)
    requires LastSignal(steps, txn, x).Some?
    ensures Delivered(steps, SignalEvent(txn, x, LastSignal(steps, txn, x).value))
    decreases |steps|
  {
    var n := |steps| - 1;
    if WritesSignal(Written(steps), txn, x) {
      UnstartedDelivered(steps[..n], steps[n].id);
    } else {
      LastSignalDelivered(steps[..n], txn, x);
    }
    DeliveredMore(steps, n, SignalEvent(txn, x, LastSignal(steps, txn, x).value));
  }

  lemma {:induction false} LastContextDelivered(steps: seq<Step>, txn: Txn)
    requires LastContext(steps, txn).Some?
    ensures Delivered(steps, EnrichedEvent(txn, LastContext(steps, txn).value))
    decreases |steps|
  {
    var n := |steps| - 1;
    if WritesContext(Written(steps), txn) {
      UnstartedDelivered(steps[..n], steps[n].id);
    } else {
      LastContextDelivered(steps[..n], txn);
    }
    DeliveredMore(steps, n, EnrichedEvent(txn, LastContext(steps, txn).value));
  }

  // ---------------------------------------------------------------- the invariant

  /** What task `id` is about to write. */
  function ToWrite(tasks: map<TaskId, Task>, id: TaskId): Option<Inbound> {
    if id !in tasks then None
    else match tasks[id].pc
      case HsetContext(ctx) => Some(EnrichedEvent(tasks[id].txn, ctx))
      case HsetPart(source, part) => Some(SignalEvent(tasks[id].txn, source, part))
      case _ => None
  }

  /** Nothing in `a` but what was written last for `txn`. */
  ghost predicate HoldsLast(a: Agg, steps: seq<Step>, txn: Txn) {
    && (forall x :: x in a.parts ==> LastSignal(steps, txn, x) == Some(a.parts[x]))
    && (a.ctx.Some? ==> LastContext(steps, txn) == a.ctx)
  }

  /** And all of it. */
  ghost predicate HoldsAll(a: Agg, steps: seq<Step>, txn: Txn) {
    && (forall x :: LastSignal(steps, txn, x).Some? ==> x in a.parts)
    && (LastContext(steps, txn).Some? ==> a.ctx.Some?)
  }

  /** The hash of `txn` can be neither expired nor deleted. */
  ghost predicate Untouched(s: State, txn: Txn) {
    && (txn in s.past.firstWrite ==> s.now < s.past.firstWrite[txn] + BUFFER_TTL)
    && (forall c :: c in s.past.snaps && c < |s.past.claims| ==> s.past.claims[c].txn != txn)
  }

  ghost predicate TasksWrite(s: State, steps: seq<Step>) { forall id :: Unstarted(steps, id) == ToWrite(s.tasks, id) }

  ghost predicate HashHolds(s: State, steps: seq<Step>, txn: Txn) {
    HoldsLast(Stored(s.agg, txn), steps, txn) && (Untouched(s, txn) ==> HoldsAll(Stored(s.agg, txn), steps, txn))
  }

  ghost predicate Recorded(s: State, steps: seq<Step>) {
    TasksWrite(s, steps) && forall t :: HashHolds(s, steps, t)
  }

  lemma Snoc(steps: seq<Step>, step: Step)
    ensures (steps + [step])[..|steps|] == steps && (steps + [step])[|steps|] == step
  {
  }

  lemma TasksWriteStep(cfg: Config, s: State, steps: seq<Step>, step: Step)
    requires TasksWrite(s, steps) && Enabled(cfg, s, step)
    ensures TasksWrite(Do(cfg, s, step), steps + [step])
  {
    Snoc(steps, step);
    forall id ensures Unstarted(steps + [step], id) == ToWrite(Do(cfg, s, step).tasks, id) {
      assert Unstarted(steps, id) == ToWrite(s.tasks, id);
      TaskAfter(cfg, s, step, id);
    }
  }

  /** A step changes what task `id` is about to write only by delivering to it, running it or killing it. */
  lemma TaskAfter(cfg: Config, s: State, step: Step, id: TaskId)
    requires Enabled(cfg, s, step)
    ensures ToWrite(Do(cfg, s, step).tasks, id)
         == match step
            case Deliver(i, event) => if i == id then Some(event) else ToWrite(s.tasks, id)
            case Run(i, _) => if i == id then None else ToWrite(s.tasks, id)
            case Kill(i) => if i == id then None else ToWrite(s.tasks, id)
            case Tick(_) => ToWrite(s.tasks, id)
  {
    if step.Run? { RunTaskAfter(cfg, s, step.id, step.order, id); }
  }

  lemma RunTaskAfter(cfg: Config, s: State, i: TaskId, order: seq<Source>, id: TaskId)
    requires i in s.tasks
    ensures ToWrite(RunTask(cfg, s, i, order).tasks, id) == if i == id then None else ToWrite(s.tasks, id)
  {
  }

  /** Steps that leave a hash alone and write nothing into it. */
  lemma HashSame(s: State, s': State, steps: seq<Step>, step: Step, txn: Txn)
    requires HashHolds(s, steps, txn) && Stored(s'.agg, txn) == Stored(s.agg, txn)
    requires Untouched(s', txn) ==> Untouched(s, txn)
    requires forall x :: !WritesSignal(Written(steps + [step]), txn, x)
    requires !WritesContext(Written(steps + [step]), txn)
    ensures HashHolds(s', steps + [step], txn)
  {
    Snoc(steps, step);
  }

  lemma HashTick(cfg: Config, s: State, steps: seq<Step>, ms: nat, txn: Txn)
    requires Inv(cfg, s) && HashHolds(s, steps, txn)
    ensures HashHolds(Elapse(s, ms), steps + [Tick(ms)], txn)
  {
    var s', all := Elapse(s, ms), steps + [Tick(ms)];
    Snoc(steps, Tick(ms));
    if Untouched(s', txn) {
      TickKeepsHash(s, ms, txn);
      HashSame(s, s', steps, Tick(ms), txn);
    } else if txn in s'.agg {
      assert Stored(s'.agg, txn) == Stored(s.agg, txn);
      HashSame(s, s', steps, Tick(ms), txn);
    }
  }

  lemma TickKeepsHash(s: State, ms: nat, txn: Txn)
    requires StoreOk(s) && Untouched(Elapse(s, ms), txn)
    ensures Untouched(s, txn) && Stored(Elapse(s, ms).agg, txn) == Stored(s.agg, txn)
  {
  }

  lemma HashRun(cfg: Config, s: State, steps: seq<Step>, id: TaskId, order: seq<Source>, txn: Txn)
    requires Inv(cfg, s) && Enabled(cfg, s, Run(id, order)) && TasksWrite(s, steps) && HashHolds(s, steps, txn)
    ensures HashHolds(RunTask(cfg, s, id, order), steps + [Run(id, order)], txn)
  {
    var t, step := s.tasks[id], Run(id, order);
    Snoc(steps, step);
    assert Written(steps + [step]) == ToWrite(s.tasks, id) by { assert Unstarted(steps, id) == ToWrite(s.tasks, id); }
    Dispatched(cfg, s, id, order);
    if InHandler(t.pc) && t.txn == txn {
      HashWritten(cfg, s, steps, step, id, txn);
    } else if InHandler(t.pc) {
      OtherHash(cfg, s, id, txn);
      HashSame(s, RunHandler(cfg, s, id), steps, step, txn);
    } else if t.pc.Finish? && t.pc.rest == [] && t.txn == txn {
      assert OwnerOk(cfg.verdict, t, s.past.claims, s.past.snaps, s.log);
    } else {
      FinalizeKeepsHash(cfg, s, id, order, txn);
      HashSame(s, RunTask(cfg, s, id, order), steps, step, txn);
    }
  }

  lemma OtherHash(cfg: Config, s: State, id: TaskId, txn: Txn)
    requires id in s.tasks && InHandler(s.tasks[id].pc) && s.tasks[id].txn != txn
    ensures Stored(RunHandler(cfg, s, id).agg, txn) == Stored(s.agg, txn)
    ensures Untouched(RunHandler(cfg, s, id), txn) ==> Untouched(s, txn)
  {
    HandlerFrame(cfg, s, id);
    HandlerFirsts(cfg, s, id);
  }

  lemma FinalizeKeepsHash(cfg: Config, s: State, id: TaskId, order: seq<Source>, txn: Txn)
    requires Inv(cfg, s) && id in s.tasks && !InHandler(s.tasks[id].pc)
    requires !(s.tasks[id].pc.Finish? && s.tasks[id].pc.rest == [] && s.tasks[id].txn == txn)
    ensures Stored(RunTask(cfg, s, id, order).agg, txn) == Stored(s.agg, txn)
    ensures Untouched(RunTask(cfg, s, id, order), txn) ==> Untouched(s, txn)
  {
    var s' := RunTask(cfg, s, id, order);
    FinalizeFrame(cfg, s, id, order, txn);
    assert forall c :: c in s.past.snaps ==> c < |s.past.claims|;
    UntouchedBack(s, s', txn);
  }

  lemma FinalizeFrame(cfg: Config, s: State, id: TaskId, order: seq<Source>, txn: Txn)
    requires id in s.tasks && !InHandler(s.tasks[id].pc)
    requires !(s.tasks[id].pc.Finish? && s.tasks[id].pc.rest == [] && s.tasks[id].txn == txn)
    ensures var s' := RunTask(cfg, s, id, order);
            && Stored(s'.agg, txn) == Stored(s.agg, txn)
            && s.past.claims <= s'.past.claims && s.past.snaps.Keys <= s'.past.snaps.Keys
            && s'.past.firstWrite == s.past.firstWrite && s'.now == s.now
  {
  }

  lemma UntouchedBack(s: State, s': State, txn: Txn)
    requires s.past.claims <= s'.past.claims && s.past.snaps.Keys <= s'.past.snaps.Keys
    requires s'.past.firstWrite == s.past.firstWrite && s'.now == s.now
    ensures Untouched(s', txn) ==> Untouched(s, txn)
  {
  }

  /** The handler's own hash: `hset` puts in what was delivered, `expire` and `hkeys` leave it. */
  lemma HashWritten(cfg: Config, s: State, steps: seq<Step>, step: Step, id: TaskId, txn: Txn)
    requires Inv(cfg, s) && id in s.tasks && InHandler(s.tasks[id].pc) && s.tasks[id].txn == txn
    requires Written(steps + [step]) == ToWrite(s.tasks, id) && HashHolds(s, steps, txn)
    ensures HashHolds(RunHandler(cfg, s, id), steps + [step], txn)
  {
    HandlerFirsts(cfg, s, id);
    assert Untouched(RunHandler(cfg, s, id), txn) ==> Untouched(s, txn);
    HandlerWrites(cfg, s, id);
    HoldsWritten(Stored(s.agg, txn), Stored(RunHandler(cfg, s, id).agg, txn), steps, step, txn);
  }

  /** What the write does to a hash. */
  ghost predicate WriteDone(a: Agg, b: Agg, w: Option<Inbound>, txn: Txn) {
    && b.ctx == (if WritesContext(w, txn) then Some(w.value.ctx) else a.ctx)
    && b.parts == if w.Some? && w.value.SignalEvent? && w.value.txn == txn then a.parts[w.value.source := w.value.part]
                  else a.parts
  }

  lemma HandlerWrites(cfg: Config, s: State, id: TaskId)
    requires id in s.tasks && InHandler(s.tasks[id].pc)
    ensures var txn := s.tasks[id].txn;
            WriteDone(Stored(s.agg, txn), Stored(RunHandler(cfg, s, id).agg, txn), ToWrite(s.tasks, id), txn)
  {
  }

  lemma HoldsWritten(a: Agg, b: Agg, steps: seq<Step>, step: Step, txn: Txn)
    requires WriteDone(a, b, Written(steps + [step]), txn)
    ensures HoldsLast(a, steps, txn) ==> HoldsLast(b, steps + [step], txn)
    ensures HoldsAll(a, steps, txn) ==> HoldsAll(b, steps + [step], txn)
  {
    Snoc(steps, step);
  }

  lemma RecordedStep(cfg: Config, s: State, steps: seq<Step>, step: Step)
    requires Inv(cfg, s) && Recorded(s, steps) && Enabled(cfg, s, step)
    ensures Recorded(Do(cfg, s, step), steps + [step])
  {
    TasksWriteStep(cfg, s, steps, step);
    forall t ensures HashHolds(Do(cfg, s, step), steps + [step], t) {
      assert HashHolds(s, steps, t);
      Snoc(steps, step);
      match step
      case Tick(ms) => HashTick(cfg, s, steps, ms, t);
      case Deliver(id, event) => HashSame(s, Arrive(s, id, event), steps, step, t);
      case Kill(id) => HashSame(s, Drop(s, id), steps, step, t);
      case Run(id, order) => HashRun(cfg, s, steps, id, order, t);
    }
  }

  // ---------------------------------------------------------------- runs, step by step

  lemma {:induction false} RunSplits(cfg: Config, s: State, a: seq<Step>, b: seq<Step>)
    requires Legal(cfg, s, a + b)
    ensures Legal(cfg, s, a) && Legal(cfg, End(cfg, s, a), b)
    ensures End(cfg, s, a + b) == End(cfg, End(cfg, s, a), b)
    decreases |a|
  {
    if a == [] {
      assert a + b == b;
    } else {
      assert (a + b)[1..] == a[1..] + b;
      RunSplits(cfg, Do(cfg, s, a[0]), a[1..], b);
    }
  }

  lemma LastStep(cfg: Config, s: State, steps: seq<Step>)
    requires Legal(cfg, s, steps) && steps != []
    ensures var n := |steps| - 1;
            && Legal(cfg, s, steps[..n]) && Enabled(cfg, End(cfg, s, steps[..n]), steps[n])
            && End(cfg, s, steps) == Do(cfg, End(cfg, s, steps[..n]), steps[n])
            && steps == steps[..n] + [steps[n]]
  {
    var n := |steps| - 1;
    assert steps == steps[..n] + [steps[n]];
    RunSplits(cfg, s, steps[..n], [steps[n]]);
    OneStep(cfg, End(cfg, s, steps[..n]), steps[n]);
  }

  lemma OneStep(cfg: Config, s: State, step: Step)
    requires Legal(cfg, s, [step])
    ensures Enabled(cfg, s, step) && End(cfg, s, [step]) == Do(cfg, s, step)
  {
    assert [step][1..] == [];
    assert End(cfg, s, [step]) == End(cfg, Do(cfg, s, step), []);
  }

  lemma {:induction false} RunsRecorded(cfg: Config, s: State, steps: seq<Step>)
    requires Init(s) && Legal(cfg, s, steps)
    ensures Inv(cfg, End(cfg, s, steps)) && Recorded(End(cfg, s, steps), steps)
    decreases |steps|
  {
    InvInit(cfg, s);
    InvRuns(cfg, s, steps);
    if steps != [] {
      var n := |steps| - 1;
      LastStep(cfg, s, steps);
      RunsRecorded(cfg, s, steps[..n]);
      RecordedStep(cfg, End(cfg, s, steps[..n]), steps[..n], steps[n]);
    }
  }

  // ---------------------------------------------------------------- snapshots

  /** Nothing in the snapshot of claim `c` but what was written last before; and, for the first claim
      within BUFFER_TTL of the first write, all of it. */
  ghost predicate SnapshotOf(past: Past, c: nat, before: seq<Step>)
    requires c in past.snaps && c < |past.claims|
  {
    var snap, txn := past.snaps[c], past.claims[c].txn;
    && (forall x :: x in snap.parts ==> LastSignal(before, txn, x) == Some(snap.parts[x]))
    && (snap.ctx.Some? ==> LastContext(before, txn) == snap.ctx)
    && (IsFirst(past.claims, c) && Fresh(past.firstWrite, txn, snap.at) ==>
          && (forall x :: LastSignal(before, txn, x).Some? ==> x in snap.parts)
          && (LastContext(before, txn).Some? ==> snap.ctx.Some?))
  }

  /** Step `t` of the run is the `hgetall` of claim `c`. */
  ghost predicate TakenAt(cfg: Config, s: State, steps: seq<Step>, c: nat, t: nat) {
    t < |steps| && c !in End(cfg, s, steps[..t]).past.snaps && c in End(cfg, s, steps[..t + 1]).past.snaps
  }

  lemma SnapshotStep(cfg: Config, s: State, step: Step, c: nat)
    requires Inv(cfg, s) && Enabled(cfg, s, step) && c in Do(cfg, s, step).past.snaps
    ensures c in s.past.snaps ==> Do(cfg, s, step).past.snaps[c] == s.past.snaps[c]
    ensures c !in s.past.snaps ==>
              && step.Run? && s.tasks[step.id].pc == Hgetall(c)
              && c < |s.past.claims| && s.past.claims[c].txn == s.tasks[step.id].txn
              && var a := Stored(s.agg, s.tasks[step.id].txn);
                 Do(cfg, s, step).past.snaps[c] == Snapshot(s.now, a.ctx, a.parts, step.order)
  {
    if step.Run? {
      var t := s.tasks[step.id];
      RunSnapshots(cfg, s, step.id, step.order);
      if t.pc.Hgetall? { assert OwnerOk(cfg.verdict, t, s.past.claims, s.past.snaps, s.log); }
    }
  }

  lemma RunSnapshots(cfg: Config, s: State, id: TaskId, order: seq<Source>)
    requires id in s.tasks
    ensures var pc, a := s.tasks[id].pc, Stored(s.agg, s.tasks[id].txn);
            RunTask(cfg, s, id, order).past.snaps ==
            if pc.Hgetall? then s.past.snaps[pc.claim := Snapshot(s.now, a.ctx, a.parts, order)] else s.past.snaps
  {
  }

  lemma FreshSnapshot(cfg: Config, s: State, steps: seq<Step>, step: Step, c: nat)
    requires Inv(cfg, s) && Recorded(s, steps) && Enabled(cfg, s, step)
    requires c !in s.past.snaps && c in Do(cfg, s, step).past.snaps
    ensures c < |Do(cfg, s, step).past.claims| && SnapshotOf(Do(cfg, s, step).past, c, steps)
  {
    SnapshotStep(cfg, s, step, c);
    var s', txn := Do(cfg, s, step), s.past.claims[c].txn;
    Dispatched(cfg, s, step.id, step.order);
    assert HashHolds(s, steps, txn);
    if IsFirst(s.past.claims, c) && Fresh(s.past.firstWrite, txn, s.now) {
      FirstUntouched(s, c);
    }
  }

  /** A younger claim is a TTL younger, so none has a snapshot while the hash is fresh. */
  lemma FirstUntouched(s: State, c: nat)
    requires ClaimsInv(s.now, s.decided, s.past.claims)
    requires c < |s.past.claims| && c !in s.past.snaps && IsFirst(s.past.claims, c)
    requires Fresh(s.past.firstWrite, s.past.claims[c].txn, s.now)
    requires s.past.firstWrite[s.past.claims[c].txn] <= s.past.claims[c].at
    ensures Untouched(s, s.past.claims[c].txn)
  {
    assert forall d :: c < d < |s.past.claims| && s.past.claims[d].txn == s.past.claims[c].txn ==>
                         s.past.claims[c].at + BUFFER_TTL <= s.past.claims[d].at;
  }

  /** Later steps do not change what `SnapshotOf` speaks of. */
  lemma SnapshotStays(cfg: Config, s: State, step: Step, c: nat, before: seq<Step>)
    requires Inv(cfg, s) && Enabled(cfg, s, step) && c in s.past.snaps && c < |s.past.claims|
    requires SnapshotOf(s.past, c, before)
    ensures var s' := Do(cfg, s, step); c in s'.past.snaps && c < |s'.past.claims| && SnapshotOf(s'.past, c, before)
  {
    PastGrows(cfg, s, step);
    SnapshotStep(cfg, s, step, c);
    assert s.past.claims[c].txn in s.past.firstWrite;
  }

  lemma PastGrows(cfg: Config, s: State, step: Step)
    requires Enabled(cfg, s, step)
    ensures var s' := Do(cfg, s, step);
            && s.past.claims <= s'.past.claims && s.past.snaps.Keys <= s'.past.snaps.Keys
            && forall t :: t in s.past.firstWrite ==>
                 t in s'.past.firstWrite && s'.past.firstWrite[t] == s.past.firstWrite[t]
  {
    if step.Run? { Dispatched(cfg, s, step.id, step.order); }
  }

  /** Every snapshot is taken at one step of the run, and holds what was delivered and written last before that step. */
  lemma {:induction false} SnapshotsHoldDelivered(cfg: Config, s: State, steps: seq<Step>, c: nat) returns (t: nat)
    requires Init(s) && Legal(cfg, s, steps) && c in End(cfg, s, steps).past.snaps
    ensures TakenAt(cfg, s, steps, c, t)
    ensures c < |End(cfg, s, steps).past.claims| && SnapshotOf(End(cfg, s, steps).past, c, steps[..t])
    decreases |steps|
  {
    assert steps != [];
    var n := |steps| - 1;
    var front := steps[..n];
    LastStep(cfg, s, steps);
    RunsRecorded(cfg, s, front);
    if c in End(cfg, s, front).past.snaps {
      t := SnapshotsHoldDelivered(cfg, s, front, c);
      SnapshotStays(cfg, End(cfg, s, front), steps[n], c, front[..t]);
      TakenEarlier(cfg, s, steps, c, t);
    } else {
      t := n;
      FreshSnapshot(cfg, End(cfg, s, front), front, steps[n], c);
      assert steps[..n + 1] == steps;
    }
  }

  lemma TakenEarlier(cfg: Config, s: State, steps: seq<Step>, c: nat, t: nat)
    requires steps != [] && TakenAt(cfg, s, steps[..|steps| - 1], c, t)
    ensures TakenAt(cfg, s, steps, c, t) && steps[..|steps| - 1][..t] == steps[..t]
  {
    var front := steps[..|steps| - 1];
    assert front[..t] == steps[..t] && front[..t + 1] == steps[..t + 1];
  }
}
