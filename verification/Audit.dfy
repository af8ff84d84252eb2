/** services/audit: the hash chain, its single in-order consumer, and what tampering takes. */
module Audit {
  import opened Common
  import Bus
  import Runs

  /** SHA-256 in hex (section 6.2 of FIPS 180-4) as an opaque function on text. */
  type Hash = string -> string

  ghost predicate Digests(h: Hash) {
    forall t :: |h(t)| == 64 && '|' !in h(t)
  }

  /** An audit event; `payload` is its canonical JSON text. */
  datatype Event = Event(auditId: string, payload: string)

  datatype Row = Row(auditId: string, payload: string, prev: Option<string>, hash: string)

  function OrEmpty(prev: Option<string>): string { if prev.Some? then prev.value else "" }

  function Text(prev: Option<string>, payload: string): string { OrEmpty(prev) + "|" + payload }

  function ChainHash(h: Hash, prev: Option<string>, payload: string): string { h(Text(prev, payload)) }

  function RowFor(h: Hash, ev: Event, head: Option<string>): Row {
    Row(ev.auditId, ev.payload, head, ChainHash(h, head, ev.payload))
  }

  // ---------------------------------------------------------------- handle

  /** `audit_log` and the Redis key `audit:chain:head`. */
  datatype Store = Store(rows: seq<Row>, head: Option<string>)

  /** How far the effects of one handler run got. */
  datatype Reach = Nothing | RowOnly | RowAndHead

  predicate Recorded(rows: seq<Row>, id: string) { exists r | r in rows :: r.auditId == id }

  /** `INSERT ... ON CONFLICT (audit_id) DO NOTHING` */
  function Insert(rows: seq<Row>, r: Row): seq<Row> {
    if Recorded(rows, r.auditId) then rows else rows + [r]
  }

  function Effect(h: Hash, s: Store, ev: Event, reach: Reach): Store {
    var r := RowFor(h, ev, s.head);
    match reach
    case Nothing => s
    case RowOnly => s.(rows := Insert(s.rows, r))
    case RowAndHead => Store(Insert(s.rows, r), Some(r.hash))
  }

  class Service {
    var store: Store

    constructor ()
      ensures store == Store([], None)
    {
      store := Store([], None);
    }

    /** `handle`, ended after `reach` by a crash, a cancellation or an exception, or run to its end. */
    method Handle(h: Hash, ev: Event, reach: Reach)
      modifies this
      ensures store == Effect(h, old(store), ev, reach)
    {
      var prev := store.head;
      var hash := ChainHash(h, prev, ev.payload);
      if reach.Nothing? { return; }
      if !Recorded(store.rows, ev.auditId) {
        store := store.(rows := store.rows + [Row(ev.auditId, ev.payload, prev, hash)]);
      }
      if reach.RowOnly? { return; }
      store := store.(head := Some(hash));
    }
  }

  // ---------------------------------------------------------------- the chain

  function PrevOf(rows: seq<Row>, i: nat): Option<string>
    requires i <= |rows|
  {
    if i == 0 then None else Some(rows[i - 1].hash)
  }

  /** Row `i` names its predecessor and carries the hash of that and its payload. */
  predicate LinkOk(h: Hash, rows: seq<Row>, i: nat)
    requires i < |rows|
  {
    rows[i].prev == PrevOf(rows, i) && rows[i].hash == ChainHash(h, rows[i].prev, rows[i].payload)
  }

  predicate Linked(h: Hash, rows: seq<Row>) {
    forall i :: 0 <= i < |rows| ==> LinkOk(h, rows, i)
  }

  lemma LinkedAppend(h: Hash, rows: seq<Row>, r: Row)
    ensures Linked(h, rows + [r]) <==>
              Linked(h, rows) && r.prev == PrevOf(rows, |rows|) && r.hash == ChainHash(h, r.prev, r.payload)
  {
    var all := rows + [r];
    assert forall i {:trigger LinkOk(h, rows, i)} :: 0 <= i < |rows| ==> LinkOk(h, all, i) == LinkOk(h, rows, i);
    assert LinkOk(h, all, |rows|) <==> r.prev == PrevOf(rows, |rows|) && r.hash == ChainHash(h, r.prev, r.payload);
    assert forall i {:trigger LinkOk(h, all, i)} :: 0 <= i < |rows| ==> LinkOk(h, all, i) == LinkOk(h, rows, i);
  }

  /** A linear chain that ends at the stored head. */
  ghost predicate Chain(h: Hash, s: Store) {
    Linked(h, s.rows) && s.head == PrevOf(s.rows, |s.rows|)
  }

  // ---------------------------------------------------------------- runs

  /** One handler run on the message at the committed offset. */
  datatype Attempt = Attempt(reach: Reach, fate: Bus.Fate)

  /** A handler that returned has had all its effects. */
  predicate Possible(a: Attempt) { a.fate.Handled? || a.fate.HandledUncommitted? ==> a.reach.RowAndHead? }

  /** `moved` records that the head has been moved to the current message, `kept` the offsets of the rows. */
  datatype System = System(bus: Bus.State, store: Store, moved: bool, kept: seq<nat>)

  const START: System := System(Bus.IDLE, Store([], None), false, [])

  function Step(h: Hash, log: seq<Event>, s: System, a: Attempt): System {
    var o := s.bus.committed;
    if o >= |log| then s
    else System(Bus.Turn(s.bus, a.fate), Effect(h, s.store, log[o], a.reach),
                !Bus.Acked(a.fate) && (s.moved || a.reach.RowAndHead?),
                if a.reach.Nothing? || RowIn(log, s) then s.kept else s.kept + [o])
  }

  /** The row of the current message is in the table. */
  predicate RowIn(log: seq<Event>, s: System)
    requires s.bus.committed < |log|
  {
    Recorded(s.store.rows, log[s.bus.committed].auditId)
  }

  /** A replay that moves the head again, or a commit that leaves a row behind without having moved the head. */
  predicate Harmful(log: seq<Event>, s: System, a: Attempt) {
    s.bus.committed < |log| &&
    if s.moved then a.reach.RowAndHead?
    else Bus.Acked(a.fate) && (a.reach.RowOnly? || (a.reach.Nothing? && RowIn(log, s)))
  }

  ghost predicate UniqueIds(log: seq<Event>) {
    forall i, j :: 0 <= i < j < |log| ==> log[i].auditId != log[j].auditId
  }

  /** The head is its own successor under the current payload: a cycle in the hash. */
  predicate FixedPoint(h: Hash, log: seq<Event>, s: System) {
    && s.bus.committed < |log| && s.store.head.Some?
    && ChainHash(h, s.store.head, log[s.bus.committed].payload) == s.store.head.value
  }

  // ---------------------------------------------------------------- what benign runs keep

  /** The rows are those of kept messages, in log order; a message that was passed over is in the dead-letter log. */
  ghost predicate Kept(log: seq<Event>, s: System) {
    RowsKept(log, s.store.rows, s.kept, s.bus.committed) && Accounted(s)
  }

  ghost predicate RowsKept(log: seq<Event>, rows: seq<Row>, kept: seq<nat>, o: nat) {
    && |kept| == |rows|
    && (forall i :: 0 <= i < |kept| ==> kept[i] < |log| && kept[i] <= o)
    && (forall i :: 0 <= i < |kept| ==>
          rows[i].auditId == log[kept[i]].auditId && rows[i].payload == log[kept[i]].payload)
    && (forall i, j :: 0 <= i < j < |kept| ==> kept[i] < kept[j])
  }

  lemma RowsAppend(log: seq<Event>, rows: seq<Row>, kept: seq<nat>, o: nat, r: Row)
    requires RowsKept(log, rows, kept, o) && o < |log| && (kept == [] || kept[|kept| - 1] != o)
    requires r.auditId == log[o].auditId && r.payload == log[o].payload
    ensures RowsKept(log, rows + [r], kept + [o], o)
  {
    forall i | 0 <= i < |kept| ensures kept[i] < o {
      var last := |kept| - 1;
      assert kept[i] <= kept[last];
    }
  }

  predicate Accounted(s: System) {
    forall o :: 0 <= o < s.bus.committed ==> o in s.kept || o in s.bus.dlq
  }

  predicate LastIsCurrent(s: System) { s.kept != [] && s.kept[|s.kept| - 1] == s.bus.committed }

  function Front(s: Store): Store
    requires s.rows != []
  {
    s.(rows := s.rows[..|s.rows| - 1])
  }

  function LastRow(s: Store): Row
    requires s.rows != []
  {
    s.rows[|s.rows| - 1]
  }

  /** The chain ends at the head, except that the current message may have its row before the head follows. */
  ghost predicate Sound(h: Hash, log: seq<Event>, s: System) {
    && s.bus.committed <= |log| && Kept(log, s)
    && if !LastIsCurrent(s) then !s.moved && Chain(h, s.store)
       else s.store.rows != [] && if s.moved then Chain(h, s.store)
                                  else && Chain(h, Front(s.store))
                                       && LastRow(s.store) == RowFor(h, log[s.kept[|s.kept| - 1]], s.store.head)
  }

  lemma SoundStart(h: Hash, log: seq<Event>)
    ensures Sound(h, log, START)
  {
  }

  lemma RowInIffLast(log: seq<Event>, s: System)
    requires Kept(log, s) && UniqueIds(log) && s.bus.committed < |log|
    ensures RowIn(log, s) <==> LastIsCurrent(s)
  {
    if RowIn(log, s) {
      var r :| r in s.store.rows && r.auditId == log[s.bus.committed].auditId;
      var i :| 0 <= i < |s.store.rows| && s.store.rows[i] == r;
      assert s.kept[i] == s.bus.committed;
      var last := |s.kept| - 1;
      assert s.kept[i] <= s.kept[last];
    }
    if LastIsCurrent(s) {
      assert LastRow(s.store) in s.store.rows;
    }
  }

  lemma KeptStep(h: Hash, log: seq<Event>, s: System, a: Attempt)
    requires Kept(log, s) && UniqueIds(log) && Possible(a) && s.bus.committed < |log|
    ensures Kept(log, Step(h, log, s, a))
  {
    var s', o := Step(h, log, s, a), s.bus.committed;
    RowInIffLast(log, s);
    AccountedStep(h, log, s, a);
    if a.reach.Nothing? || RowIn(log, s) {
      assert s'.store.rows == s.store.rows && s'.kept == s.kept;
    } else {
      RowsAppend(log, s.store.rows, s.kept, o, RowFor(h, log[o], s.store.head));
    }
  }

  lemma AccountedStep(h: Hash, log: seq<Event>, s: System, a: Attempt)
    requires s.bus.committed < |log| && Accounted(s) && Possible(a)
    requires RowIn(log, s) <==> LastIsCurrent(s)
    ensures Accounted(Step(h, log, s, a))
  {
    var s', o := Step(h, log, s, a), s.bus.committed;
    if a.fate.DeadLettered? {
      assert s'.bus.dlq[|s.bus.dlq|] == o;
    } else if a.fate.Handled? {
      assert s'.kept[|s'.kept| - 1] == o;
    }
  }

  /** From a sound state an attempt leads to a sound state exactly when it is not harmful
      (were the head its own successor, harm could leave no trace). */
  lemma SoundExactly(h: Hash, log: seq<Event>, s: System, a: Attempt)
    requires Sound(h, log, s) && UniqueIds(log) && Possible(a) && s.bus.committed < |log|
    ensures !Harmful(log, s, a) ==> Sound(h, log, Step(h, log, s, a))
    ensures Harmful(log, s, a) && !FixedPoint(h, log, s) ==> !Sound(h, log, Step(h, log, s, a))
  {
    RowInIffLast(log, s);
    KeptStep(h, log, s, a);
    if !RowIn(log, s) {
      FirstRun(h, log, s, a);
    } else if !s.moved {
      Rerun(h, log, s, a);
    } else {
      LateRerun(h, log, s, a);
    }
  }

  /** The current message has no row yet. */
  lemma FirstRun(h: Hash, log: seq<Event>, s: System, a: Attempt)
    requires Sound(h, log, s) && Possible(a) && s.bus.committed < |log|
    requires !RowIn(log, s) && !LastIsCurrent(s)
    requires Kept(log, Step(h, log, s, a))
    ensures !Harmful(log, s, a) ==> Sound(h, log, Step(h, log, s, a))
    ensures Harmful(log, s, a) && !FixedPoint(h, log, s) ==> !Sound(h, log, Step(h, log, s, a))
  {
    var s', r := Step(h, log, s, a), RowFor(h, log[s.bus.committed], s.store.head);
    LinkedAppend(h, s.store.rows, r);
    if !a.reach.Nothing? {
      assert s'.store.rows == s.store.rows + [r];
      assert Front(s'.store).rows == s.store.rows;
    }
  }

  /** It has its row, and the head has not moved. */
  lemma Rerun(h: Hash, log: seq<Event>, s: System, a: Attempt)
    requires Sound(h, log, s) && Possible(a) && s.bus.committed < |log|
    requires RowIn(log, s) && LastIsCurrent(s) && !s.moved
    requires Kept(log, Step(h, log, s, a))
    ensures !Harmful(log, s, a) ==> Sound(h, log, Step(h, log, s, a))
    ensures Harmful(log, s, a) && !FixedPoint(h, log, s) ==> !Sound(h, log, Step(h, log, s, a))
  {
    var ev := log[s.bus.committed];
    HeadFollows(h, s.store, ev);
    assert s.store.head == Some(LastRow(s.store).hash) ==> FixedPoint(h, log, s);
    if a.reach.RowAndHead? {
      assert Step(h, log, s, a).store == s.store.(head := Some(LastRow(s.store).hash));
    } else {
      assert Step(h, log, s, a).store == s.store;
    }
  }

  /** A row written on top of a chain completes it as soon as the head follows, and not before. */
  lemma HeadFollows(h: Hash, s: Store, ev: Event)
    requires s.rows != [] && Chain(h, Front(s)) && LastRow(s) == RowFor(h, ev, s.head)
    ensures Chain(h, s.(head := Some(LastRow(s).hash)))
    ensures Chain(h, s) <==> s.head == Some(LastRow(s).hash)
  {
    LinkedAppend(h, Front(s).rows, LastRow(s));
    assert s.rows == Front(s).rows + [LastRow(s)];
  }

  /** It has its row, and the head has moved. */
  lemma LateRerun(h: Hash, log: seq<Event>, s: System, a: Attempt)
    requires Sound(h, log, s) && Possible(a) && s.bus.committed < |log|
    requires RowIn(log, s) && LastIsCurrent(s) && s.moved
    requires Kept(log, Step(h, log, s, a))
    ensures !Harmful(log, s, a) ==> Sound(h, log, Step(h, log, s, a))
    ensures Harmful(log, s, a) && !FixedPoint(h, log, s) ==> !Sound(h, log, Step(h, log, s, a))
  {
  }

  function After(h: Hash, log: seq<Event>, s: System, run: seq<Attempt>): System {
    Runs.After((x: System, a: Attempt) => Step(h, log, x, a), s, run)
  }

  predicate Benign(h: Hash, log: seq<Event>, s: System, run: seq<Attempt>) {
    Runs.Legal((x: System, a: Attempt) => Step(h, log, x, a),
               (x: System, a: Attempt) => Possible(a) && !Harmful(log, x, a), s, run)
  }

  /** Any number of crashes, cancellations and dead letters, none of them harmful. */
  lemma {:induction false} ChainSurvives(h: Hash, log: seq<Event>, s: System, run: seq<Attempt>)
    requires Sound(h, log, s) && UniqueIds(log) && Benign(h, log, s, run)
    ensures Sound(h, log, After(h, log, s, run))
    decreases |run|
  {
    if run != [] {
      if s.bus.committed < |log| { SoundExactly(h, log, s, run[0]); }
      ChainSurvives(h, log, Step(h, log, s, run[0]), run[1..]);
    }
  }

  /** Every run that moves the head also commits, and every other run ends before both. */
  predicate Prompt(a: Attempt) { Possible(a) && (Bus.Acked(a.fate) <==> a.reach.RowAndHead?) }

  /** A row for every committed message, in order, and possibly one for the current message. */
  ghost predicate Full(s: System) {
    && |s.kept| >= s.bus.committed && !s.moved
    && forall i :: 0 <= i < |s.kept| ==> s.kept[i] == i
  }

  lemma PromptStep(h: Hash, log: seq<Event>, s: System, a: Attempt)
    requires Sound(h, log, s) && Full(s) && UniqueIds(log) && Prompt(a) && s.bus.committed < |log|
    ensures !Harmful(log, s, a) && Full(Step(h, log, s, a))
    ensures Bus.Acked(a.fate) ==> |Step(h, log, s, a).kept| == Step(h, log, s, a).bus.committed
  {
    RowInIffLast(log, s);
    assert |s.kept| <= s.bus.committed + 1 && (LastIsCurrent(s) <==> |s.kept| == s.bus.committed + 1) by {
      if |s.kept| > 0 { assert s.kept[|s.kept| - 1] == |s.kept| - 1; }
    }
  }

  /** Crashes before the head moves, even after the row is written, are repaired by the replay:
      the log ends up as one chain of exactly the committed messages, in order. */
  lemma {:induction false} CrashesBeforeHeadRepaired(h: Hash, log: seq<Event>, s: System, run: seq<Attempt>)
    requires Sound(h, log, s) && Full(s) && UniqueIds(log)
    requires forall i :: 0 <= i < |run| ==> Prompt(run[i])
    ensures var e := After(h, log, s, run);
            Sound(h, log, e) && Full(e) && e.bus.committed <= |log|
    ensures var e := After(h, log, s, run);
            |e.store.rows| == e.bus.committed ==>
              Chain(h, e.store) && forall i :: 0 <= i < |e.store.rows| ==> e.store.rows[i].payload == log[i].payload
    decreases |run|
  {
    if run == [] {
      if |s.kept| == s.bus.committed && s.kept != [] { assert s.kept[|s.kept| - 1] == |s.kept| - 1; }
    } else {
      if s.bus.committed < |log| {
        PromptStep(h, log, s, run[0]);
        SoundExactly(h, log, s, run[0]);
      }
      CrashesBeforeHeadRepaired(h, log, Step(h, log, s, run[0]), run[1..]);
    }
  }

  /** So it is from an empty log. */
  lemma ChainFromEmptyLog(h: Hash, log: seq<Event>, run: seq<Attempt>)
    requires UniqueIds(log)
    ensures Benign(h, log, START, run) ==> Sound(h, log, After(h, log, START, run))
    ensures (forall i :: 0 <= i < |run| ==> Prompt(run[i])) ==>
              var e := After(h, log, START, run);
              && e.bus.committed <= |log| && e.bus.committed <= |e.store.rows| && !e.moved
              && (|e.store.rows| == e.bus.committed ==>
                    && Chain(h, e.store)
                    && forall i :: 0 <= i < |e.store.rows| ==> e.store.rows[i].payload == log[i].payload)
  {
    SoundStart(h, log);
    if Benign(h, log, START, run) { ChainSurvives(h, log, START, run); }
    if forall i :: 0 <= i < |run| ==> Prompt(run[i]) { CrashesBeforeHeadRepaired(h, log, START, run); }
  }

  /** A row is never changed, so a broken link stays broken. */
  lemma {:induction false} BreakIsPermanent(h: Hash, log: seq<Event>, s: System, run: seq<Attempt>, i: nat)
    requires i < |s.store.rows|
    ensures s.store.rows <= After(h, log, s, run).store.rows
    ensures LinkOk(h, After(h, log, s, run).store.rows, i) == LinkOk(h, s.store.rows, i)
    decreases |run|
  {
    if run != [] { BreakIsPermanent(h, log, Step(h, log, s, run[0]), run[1..], i); }
  }

  /** Once the head is not the last row's hash, the next new row is a broken link. */
  lemma DanglingHeadBreaks(h: Hash, log: seq<Event>, s: System, a: Attempt)
    requires s.bus.committed < |log| && !RowIn(log, s) && !a.reach.Nothing?
    ensures var e := Step(h, log, s, a).store.rows;
            && |e| == |s.store.rows| + 1
            && (LinkOk(h, e, |s.store.rows|) <==> s.store.head == PrevOf(s.store.rows, |s.store.rows|))
  {
  }

  /** The shortest harmful history: the first message is handled but not committed, and handled again. */
  function Replayed(h: Hash, log: seq<Event>): System {
    After(h, log, START, [Attempt(RowAndHead, Bus.HandledUncommitted), Attempt(RowAndHead, Bus.Handled)])
  }

  lemma ReplayMovesHead(h: Hash, log: seq<Event>)
    requires log != []
    ensures var r := RowFor(h, log[0], None);
            && Replayed(h, log).store == Store([r], Some(ChainHash(h, Some(r.hash), log[0].payload)))
            && Replayed(h, log).bus.committed == 1
  {
    var a, b := Attempt(RowAndHead, Bus.HandledUncommitted), Attempt(RowAndHead, Bus.Handled);
    var s1 := Step(h, log, START, a);
    assert s1.store.rows[0] == RowFor(h, log[0], None);
    assert [a, b][1..] == [b] && [b][1..] == [];
    assert After(h, log, s1, [b]) == After(h, log, Step(h, log, s1, b), []) == Step(h, log, s1, b);
  }

  /** The second row then hangs off a hash that no row has, unless the hash runs in a circle. */
  lemma ReplayAfterHeadBreaks(h: Hash, log: seq<Event>)
    requires |log| >= 2 && log[0].auditId != log[1].auditId
    ensures var first := ChainHash(h, None, log[0].payload);
            var rows := Step(h, log, Replayed(h, log), Attempt(RowAndHead, Bus.Handled)).store.rows;
            |rows| == 2 && (LinkOk(h, rows, 1) <==> ChainHash(h, Some(first), log[0].payload) == first)
  {
    ReplayMovesHead(h, log);
    DanglingHeadBreaks(h, log, Replayed(h, log), Attempt(RowAndHead, Bus.Handled));
  }

  // ---------------------------------------------------------------- tamper evidence

  lemma {:induction false} SplitUnique(p: string, x: string, q: string, y: string)
    requires '|' !in p && '|' !in q && p + "|" + x == q + "|" + y
    ensures p == q && x == y
  {
    var t := p + "|" + x;
    assert t[|p|] == '|' && t[|q|] == '|';
    assert forall i :: 0 <= i < |p| ==> t[i] == p[i] != '|';
    assert forall i :: 0 <= i < |q| ==> t[i] == q[i] != '|';
    assert p == t[..|p|] == q;
    assert x == t[|p| + 1..] == y;
  }

  /** Walks two logs backwards from their last rows to the first texts that differ. */
  function Collision(a: seq<Row>, b: seq<Row>): (r: Option<(string, string)>) {
    if a == [] || b == [] then None
    else
      var x, y := a[|a| - 1], b[|b| - 1];
      if Text(x.prev, x.payload) != Text(y.prev, y.payload)
      then Some((Text(x.prev, x.payload), Text(y.prev, y.payload)))
      else Collision(a[..|a| - 1], b[..|b| - 1])
  }

  function Payloads(rows: seq<Row>): (p: seq<string>)
    ensures |p| == |rows| && forall i :: 0 <= i < |rows| ==> p[i] == rows[i].payload
  {
    seq(|rows|, i requires 0 <= i < |rows| => rows[i].payload)
  }

  lemma PrevIsHex(h: Hash, rows: seq<Row>)
    requires Digests(h) && Linked(h, rows)
    ensures '|' !in OrEmpty(PrevOf(rows, |rows|)) && (OrEmpty(PrevOf(rows, |rows|)) == "" <==> rows == [])
    ensures rows != [] ==> var f, r := rows[..|rows| - 1], rows[|rows| - 1];
                           Linked(h, f) && r.prev == PrevOf(f, |f|) && r.hash == h(Text(r.prev, r.payload))
  {
    if rows != [] {
      LinkedAppend(h, rows[..|rows| - 1], rows[|rows| - 1]);
      assert rows == rows[..|rows| - 1] + [rows[|rows| - 1]];
      assert |h(Text(rows[|rows| - 1].prev, rows[|rows| - 1].payload))| == 64;
    }
  }

  /** Two verifying logs of any lengths that end in the same hash carry the same payloads, or
      walking them backwards exhibits two different texts with one digest. */
  lemma {:induction false} SameHeadSameLog(h: Hash, a: seq<Row>, b: seq<Row>)
    requires Digests(h) && Linked(h, a) && Linked(h, b)
    requires PrevOf(a, |a|) == PrevOf(b, |b|)
    ensures match Collision(a, b)
            case None => Payloads(a) == Payloads(b)
            case Some(c) => c.0 != c.1 && h(c.0) == h(c.1)
  {
    PrevIsHex(h, a);
    PrevIsHex(h, b);
    if a != [] {
      var f, g, x, y := a[..|a| - 1], b[..|b| - 1], a[|a| - 1], b[|b| - 1];
      if Text(x.prev, x.payload) == Text(y.prev, y.payload) {
        PrevIsHex(h, f);
        PrevIsHex(h, g);
        SplitUnique(OrEmpty(x.prev), x.payload, OrEmpty(y.prev), y.payload);
        SameHeadSameLog(h, f, g);
        if Collision(a, b).None? {
          assert Payloads(a) == Payloads(f) + [x.payload];
          assert Payloads(b) == Payloads(g) + [y.payload];
        }
      }
    }
  }

  /** Rewriting one payload and recomputing what follows changes every later hash, or a collision is at hand. */
  lemma TamperingShows(h: Hash, a: seq<Row>, b: seq<Row>, k: nat, j: nat)
    requires Digests(h) && Linked(h, a) && Linked(h, b)
    requires k <= j < |a| && j < |b| && a[k].payload != b[k].payload
    ensures a[j].hash != b[j].hash ||
            var c := Collision(a[..j + 1], b[..j + 1]);
            c.Some? && c.value.0 != c.value.1 && h(c.value.0) == h(c.value.1)
  {
    var p, q := a[..j + 1], b[..j + 1];
    PrefixLinked(h, a, j + 1);
    PrefixLinked(h, b, j + 1);
    if a[j].hash == b[j].hash {
      SameHeadSameLog(h, p, q);
      assert Payloads(p)[k] != Payloads(q)[k];
    }
  }

  lemma PrefixLinked(h: Hash, rows: seq<Row>, n: nat)
    requires Linked(h, rows) && n <= |rows|
    ensures Linked(h, rows[..n])
  {
    forall i | 0 <= i < n ensures LinkOk(h, rows[..n], i) { assert LinkOk(h, rows, i); }
  }
}
