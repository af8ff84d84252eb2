/** services/risk-scoring, the fan-in protocol: every Redis call and every publication of
    every concurrent `handle`, `_deadline` and `finalize` is a step of its own. Time is in
    milliseconds. Tasks of all replicas run interleaved, over any number of transactions. */
module FanIn {
  import opened Common
  import opened Reasons
  import opened Signals
  import opened Scoring

  const BUFFER_TTL: nat := 300000

  type Txn = string
  type TaskId = nat

  /** The protocol does not depend on how a decision is reached. `patience` bounds how long a
      task may take from its start to its end; `None` leaves it unbounded, which is what the
      code promises. A sleeping deadline task is not counted. */
  datatype Config = Config(verdict: (Txn, Context, Parts, seq<Source>) -> RiskDecision, timeoutMs: nat,
                           patience: Option<nat>)

  /** The service as deployed: decisions are those of `combine` and `to_decision`. */
  function Deployed(st: Settings, timeoutMs: nat, patience: Option<nat>): Config {
    Config((txn: Txn, ctx: Context, parts: Parts, order: seq<Source>) => BuildDecision(st, txn, ctx, parts, order),
           timeoutMs, patience)
  }

  // ---------------------------------------------------------------- what is published

  datatype Template = StepUpAuth | TxnDeclined
  datatype Priority = P1 | P2

  datatype Message =
    | DecisionMade(rd: RiskDecision)
    | Audited(rd: RiskDecision)
    | Notified(txn: Txn, customerId: string, template: Template, amount: real, currency: string, score: real)
    | CaseOpened(txn: Txn, customerId: string, priority: Priority, score: real, reasons: seq<Reason>)

  /** What `finalize` sends for one decision, in order. */
  function Outputs(rd: RiskDecision): (out: seq<Message>)
    ensures 2 <= |out| <= 4
  {
    [DecisionMade(rd), Audited(rd)]
    + (if rd.decision == CHALLENGE || rd.decision == DECLINE
       then [Notified(rd.txn, rd.context.customerId, if rd.decision == CHALLENGE then StepUpAuth else TxnDeclined,
                      rd.context.amount, rd.context.currency, rd.score)]
       else [])
    + (if rd.decision == REVIEW || rd.decision == DECLINE
       then [CaseOpened(rd.txn, rd.context.customerId, if rd.decision == DECLINE then P1 else P2, rd.score, rd.reasons)]
       else [])
  }

  // ---------------------------------------------------------------- state

  /** The hash `agg:{txn}`. A fresh hash has no expiry until `expire` is called on it. */
  datatype Agg = Agg(ctx: Option<Context>, parts: Parts, expiry: Option<nat>)

  datatype Why = Complete | Timeout

  /** The next operation of a task. `Finish` sends `rest` one by one and then deletes the hash. */
  datatype Pc =
    | HsetContext(ctx: Context)
    | ExpireContext
    | Sleep(wake: nat)
    | HsetPart(source: Source, part: Part)
    | ExpirePart
    | Hkeys
    | SetNx(why: Why)
    | Hgetall(claim: nat)
    | Finish(claim: nat, rest: seq<Message>)

  datatype Task = Task(txn: Txn, pc: Pc, start: nat)

  datatype Record = Record(claim: nat, message: Message)

  /** A successful `SET NX`; `ctxStored` says whether the hash held the context at that moment. */
  datatype Claim = Claim(txn: Txn, at: nat, why: Why, ctxStored: bool)

  datatype Snapshot = Snapshot(at: nat, ctx: Option<Context>, parts: Parts, order: seq<Source>)

  /** What has happened so far; it influences nothing. `killed` are the transactions
      that lost a deadline or a claimant. */
  datatype Past = Past(claims: seq<Claim>, snaps: map<nat, Snapshot>,
                       firstWrite: map<Txn, nat>, firstContext: map<Txn, nat>, killed: set<Txn>)

  /** `agg` and `decided` are Redis, `log` the four output topics in publication order. */
  datatype State = State(now: nat, agg: map<Txn, Agg>, decided: map<Txn, nat>,
                         tasks: map<TaskId, Task>, log: seq<Record>, past: Past)

  ghost predicate Init(s: State) {
    && s.agg == map[] && s.decided == map[] && s.tasks == map[] && s.log == []
    && s.past == Past([], map[], map[], map[], {})
  }

  // ---------------------------------------------------------------- steps

  datatype Inbound = EnrichedEvent(txn: Txn, ctx: Context) | SignalEvent(txn: Txn, source: Source, part: Part)

  /** A delivery may repeat any earlier one. `Kill` is an exception, a cancellation or one
      task's share of a crash; `order` is the field order `hgetall` happens to return. */
  datatype Step =
    | Tick(ms: nat)
    | Deliver(id: TaskId, event: Inbound)
    | Kill(id: TaskId)
    | Run(id: TaskId, order: seq<Source>)

  ghost predicate Enabled(cfg: Config, s: State, step: Step) {
    match step
    case Tick(ms) =>
      cfg.patience.Some? ==>
        forall id :: id in s.tasks && !s.tasks[id].pc.Sleep? ==> s.now + ms <= s.tasks[id].start + cfg.patience.value
    case Deliver(id, _) => id !in s.tasks
    case Kill(id) => id in s.tasks
    case Run(id, order) =>
      && id in s.tasks
      && (s.tasks[id].pc.Sleep? ==> s.now >= s.tasks[id].pc.wake)
      && (s.tasks[id].pc.Hgetall? ==> multiset(order) == multiset(Stored(s.agg, s.tasks[id].txn).parts.Keys))
  }

  function Stored(agg: map<Txn, Agg>, txn: Txn): Agg {
    if txn in agg then agg[txn] else Agg(None, map[], None)
  }

  function First(m: map<Txn, nat>, txn: Txn, now: nat): map<Txn, nat> {
    if txn in m then m else m[txn := now]
  }

  function Without<K, V>(m: map<K, V>, k: K): map<K, V> { m - {k} }

  /** Redis drops the keys whose time is up. */
  function LiveAgg(agg: map<Txn, Agg>, now: nat): map<Txn, Agg> {
    agg - set t | t in agg && agg[t].expiry.Some? && agg[t].expiry.value <= now
  }

  function LiveDecided(decided: map<Txn, nat>, now: nat): map<Txn, nat> {
    decided - set t | t in decided && decided[t] <= now
  }

  function Elapse(s: State, ms: nat): State {
    s.(now := s.now + ms, agg := LiveAgg(s.agg, s.now + ms), decided := LiveDecided(s.decided, s.now + ms))
  }

  function Begin(event: Inbound): Pc {
    match event
    case EnrichedEvent(_, ctx) => HsetContext(ctx)
    case SignalEvent(_, source, part) => HsetPart(source, part)
  }

  function Arrive(s: State, id: TaskId, event: Inbound): State {
    s.(tasks := s.tasks[id := Task(event.txn, Begin(event), s.now)])
  }

  /** The task is about to start the deadline, or is the deadline, or holds a claim. Any other can be
      lost: the handler's message is delivered again. */
  predicate Vital(pc: Pc) {
    pc.ExpireContext? || pc.Sleep? || pc == SetNx(Timeout) || pc.Hgetall? || pc.Finish?
  }

  function Drop(s: State, id: TaskId): State
    requires id in s.tasks
  {
    var t := s.tasks[id];
    s.(tasks := Without(s.tasks, id),
       past := if Vital(t.pc) then s.past.(killed := s.past.killed + {t.txn}) else s.past)
  }

  // ---------------------------------------------------------------- handle and _deadline

  function HandlerAgg(s: State, txn: Txn, pc: Pc): map<Txn, Agg> {
    match pc
    case HsetContext(ctx) => s.agg[txn := Stored(s.agg, txn).(ctx := Some(ctx))]
    case HsetPart(source, part) => s.agg[txn := Stored(s.agg, txn).(parts := Stored(s.agg, txn).parts[source := part])]
    case ExpireContext => Expire(s.agg, txn, s.now)
    case ExpirePart => Expire(s.agg, txn, s.now)
    case _ => s.agg
  }

  /** `EXPIRE` on a key that is not there does nothing. */
  function Expire(agg: map<Txn, Agg>, txn: Txn, now: nat): map<Txn, Agg> {
    if txn in agg then agg[txn := agg[txn].(expiry := Some(now + BUFFER_TTL))] else agg
  }

  function HandlerPast(s: State, txn: Txn, pc: Pc): Past {
    var p := s.past;
    match pc
    case HsetContext(_) => p.(firstWrite := First(p.firstWrite, txn, s.now),
                              firstContext := First(p.firstContext, txn, s.now))
    case HsetPart(_, _) => p.(firstWrite := First(p.firstWrite, txn, s.now))
    case _ => p
  }

  /** The task after one operation of `handle` or `_deadline`; a signal that does not complete the set ends its task. */
  function HandlerTask(cfg: Config, s: State, task: Task): Option<Task> {
    match task.pc
    case HsetContext(_) => Some(task.(pc := ExpireContext))
    case ExpireContext => Some(task.(pc := Sleep(s.now + cfg.timeoutMs)))
    case Sleep(_) => Some(Task(task.txn, SetNx(Timeout), s.now))
    case HsetPart(_, _) => Some(task.(pc := ExpirePart))
    case ExpirePart => Some(task.(pc := Hkeys))
    case Hkeys => if EXPECTED <= Stored(s.agg, task.txn).parts.Keys then Some(task.(pc := SetNx(Complete))) else None
    case _ => Some(task)
  }

  function SetTask(tasks: map<TaskId, Task>, id: TaskId, task: Option<Task>): map<TaskId, Task> {
    if task.None? then Without(tasks, id) else tasks[id := task.value]
  }

  function RunHandler(cfg: Config, s: State, id: TaskId): State
    requires id in s.tasks
  {
    var t := s.tasks[id];
    s.(agg := HandlerAgg(s, t.txn, t.pc), past := HandlerPast(s, t.txn, t.pc),
       tasks := SetTask(s.tasks, id, HandlerTask(cfg, s, t)))
  }

  // ---------------------------------------------------------------- finalize

  function TryClaim(s: State, id: TaskId, why: Why): State
    requires id in s.tasks
  {
    var t := s.tasks[id];
    if t.txn in s.decided then s.(tasks := Without(s.tasks, id))
    else
      var claim := Claim(t.txn, s.now, why, Stored(s.agg, t.txn).ctx.Some?);
      s.(decided := s.decided[t.txn := s.now + BUFFER_TTL],
         past := s.past.(claims := s.past.claims + [claim]),
         tasks := s.tasks[id := t.(pc := Hgetall(|s.past.claims|))])
  }

  function TakeSnapshot(cfg: Config, s: State, id: TaskId, claim: nat, order: seq<Source>): State
    requires id in s.tasks
  {
    var t := s.tasks[id];
    var agg := Stored(s.agg, t.txn);
    var next := if agg.ctx.None? then None
                else Some(t.(pc := Finish(claim, Outputs(cfg.verdict(t.txn, agg.ctx.value, agg.parts, order)))));
    s.(past := s.past.(snaps := s.past.snaps[claim := Snapshot(s.now, agg.ctx, agg.parts, order)]),
       tasks := SetTask(s.tasks, id, next))
  }

  /** Publishes the next message, or after the last one deletes the hash and returns. */
  function SendOrDelete(s: State, id: TaskId, claim: nat, rest: seq<Message>): State
    requires id in s.tasks
  {
    if rest == [] then s.(agg := Without(s.agg, s.tasks[id].txn), tasks := Without(s.tasks, id))
    else s.(log := s.log + [Record(claim, rest[0])],
            tasks := s.tasks[id := s.tasks[id].(pc := Finish(claim, rest[1..]))])
  }

  function RunTask(cfg: Config, s: State, id: TaskId, order: seq<Source>): State
    requires id in s.tasks
  {
    match s.tasks[id].pc
    case SetNx(why) => TryClaim(s, id, why)
    case Hgetall(claim) => TakeSnapshot(cfg, s, id, claim, order)
    case Finish(claim, rest) => SendOrDelete(s, id, claim, rest)
    case _ => RunHandler(cfg, s, id)
  }

  function Do(cfg: Config, s: State, step: Step): State {
    match step
    case Tick(ms) => Elapse(s, ms)
    case Deliver(id, event) => Arrive(s, id, event)
    case Kill(id) => if id in s.tasks then Drop(s, id) else s
    case Run(id, order) => if id in s.tasks then RunTask(cfg, s, id, order) else s
  }

  // ---------------------------------------------------------------- runs

  ghost predicate Legal(cfg: Config, s: State, steps: seq<Step>)
    decreases |steps|
  {
    steps == [] || (Enabled(cfg, s, steps[0]) && Legal(cfg, Do(cfg, s, steps[0]), steps[1..]))
  }

  ghost function End(cfg: Config, s: State, steps: seq<Step>): State
    decreases |steps|
  {
    if steps == [] then s else End(cfg, Do(cfg, s, steps[0]), steps[1..])
  }

  ghost predicate Reachable(cfg: Config, s: State) {
    exists s0, steps :: Init(s0) && Legal(cfg, s0, steps) && End(cfg, s0, steps) == s
  }
}
