/** services/case-management: the table fed by redelivered events while analysts edit it. */
module Cases {
  import opened Common
  import Bus
  import Runs

  datatype CaseEvent = CaseEvent(caseId: string, transactionId: string, customerId: string, priority: string,
                                 riskScore: real, status: string)

  /** A message of the CASES topic; None stands for one that fails validation. */
  type Message = Option<CaseEvent>

  datatype Row = Row(caseId: string, customerId: string, priority: string, riskScore: real, status: string,
                     analyst: Option<string>, note: Option<string>)

  /** `cases` by its unique transaction_id. */
  type Table = map<string, Row>

  datatype Update = Update(caseId: string, status: string, analyst: string, note: string)

  datatype Reply = Updated(transactionId: string) | Rejected(code: int)

  const STATUSES: set<string> := {"OPEN", "IN_REVIEW", "CLOSED"}

  function NewRow(ev: CaseEvent): Row {
    Row(ev.caseId, ev.customerId, ev.priority, ev.riskScore, ev.status, None, None)
  }

  predicate Holds(t: Table, id: string) { exists x | x in t :: t[x].caseId == id }

  /** The primary key: no case id on two transactions. */
  ghost predicate KeyOk(t: Table) { forall x, y | x in t && y in t :: t[x].caseId == t[y].caseId ==> x == y }

  /** The INSERT raises on a case id that another transaction holds. */
  predicate Raises(t: Table, m: Message) {
    m.None? || (m.value.transactionId !in t && Holds(t, m.value.caseId))
  }

  /** `INSERT ... ON CONFLICT (transaction_id) DO NOTHING` */
  function Place(t: Table, m: Message): Table {
    if Raises(t, m) || m.value.transactionId in t then t else t[m.value.transactionId := NewRow(m.value)]
  }

  function Edited(r: Row, u: Update): Row {
    if r.caseId == u.caseId then r.(status := u.status, analyst := Some(u.analyst), note := Some(u.note)) else r
  }

  /** `UPDATE cases SET ... WHERE case_id = ...`, which meets one row at most. */
  ghost function Edit(t: Table, u: Update): Table {
    if Holds(t, u.caseId) then var x :| x in t && t[x].caseId == u.caseId; t[x := Edited(t[x], u)] else t
  }

  /** `r` is a row just inserted for `ev`. */
  ghost predicate Opens(ev: CaseEvent, r: Row) {
    && r.caseId == ev.caseId && r.customerId == ev.customerId && r.priority == ev.priority
    && r.riskScore == ev.riskScore && r.status == ev.status && r.analyst == None && r.note == None
  }

  /** `after` is the row `before` with what the update brings, and nothing else changed. */
  ghost predicate Writes(u: Update, before: Row, after: Row) {
    && after.status == u.status && after.analyst == Some(u.analyst) && after.note == Some(u.note)
    && after.caseId == before.caseId && after.customerId == before.customerId
    && after.priority == before.priority && after.riskScore == before.riskScore
  }

  lemma EditMeans(t: Table, u: Update)
    requires KeyOk(t)
    ensures Edit(t, u).Keys == t.Keys && KeyOk(Edit(t, u))
    ensures forall x | x in t ::
              if t[x].caseId == u.caseId then Writes(u, t[x], Edit(t, u)[x]) else Edit(t, u)[x] == t[x]
    ensures forall x | x in t :: Edit(t, u)[x] == Edited(t[x], u)
  {
  }

  class CaseTable {
    var rows: Table

    constructor ()
      ensures rows == map[]
    {
      rows := map[];
    }

    /** `handle`; the result says whether it raised. */
    method Handle(m: Message) returns (raised: bool)
      modifies this
      ensures rows == Place(old(rows), m)
      ensures raised <==> m.None? || (m.value.transactionId !in old(rows)
                                      && exists x | x in old(rows) :: old(rows)[x].caseId == m.value.caseId)
      ensures raised || m.value.transactionId in old(rows) ==> rows == old(rows)
      ensures !raised && m.value.transactionId !in old(rows) ==>
                && rows.Keys == old(rows).Keys + {m.value.transactionId} && Opens(m.value, rows[m.value.transactionId])
                && forall x | x in old(rows) :: rows[x] == old(rows)[x]
      ensures old(KeyOk(rows)) ==> KeyOk(rows)
    {
      if m.None? { return true; }
      var ev := m.value;
      if ev.transactionId in rows { return false; }
      if Holds(rows, ev.caseId) { return true; }
      rows := rows[ev.transactionId := NewRow(ev)];
      return false;
    }

    /** `update_case`, up to its audit record, which carries the transaction of the reply. */
    method UpdateCase(u: Update) returns (reply: Reply)
      requires KeyOk(rows)
      modifies this
      ensures reply == Rejected(400) <==> u.status !in STATUSES
      ensures reply == Rejected(404) <==> u.status in STATUSES && !Holds(old(rows), u.caseId)
      ensures reply.Rejected? ==> (reply.code == 400 || reply.code == 404) && rows == old(rows)
      ensures reply.Updated? ==>
                var x := reply.transactionId;
                && rows.Keys == old(rows).Keys && x in rows && old(rows)[x].caseId == u.caseId
                && Writes(u, old(rows)[x], rows[x])
                && (forall y | y in rows :: y != x ==> rows[y] == old(rows)[y])
                && rows == Edit(old(rows), u)
      ensures KeyOk(rows)
    {
      if u.status !in STATUSES { return Rejected(400); }
      if !Holds(rows, u.caseId) { return Rejected(404); }
      var x :| x in rows && rows[x].caseId == u.caseId;
      rows := rows[x := Edited(rows[x], u)];
      EditMeans(old(rows), u);
      return Updated(x);
    }
  }

  // ---------------------------------------------------------------- the system

  /** A turn of the consumer loop, in which the INSERT is executed or not, or a request of an analyst. */
  datatype Event = Turn(executed: bool, fate: Bus.Fate) | Request(update: Update)

  /** `executed` and `accepted` record the past. */
  datatype System = System(bus: Bus.State, rows: Table, executed: set<nat>, accepted: seq<Update>)

  const START: System := System(Bus.IDLE, map[], {}, [])

  predicate Accepts(t: Table, u: Update) { u.status in STATUSES && Holds(t, u.caseId) }

  ghost function Step(log: seq<Message>, s: System, e: Event): System {
    match e
    case Turn(executed, fate) =>
      var o := s.bus.committed;
      if o >= |log| then s
      else System(Bus.Turn(s.bus, fate), if executed then Place(s.rows, log[o]) else s.rows,
                  if executed then s.executed + {o} else s.executed, s.accepted)
    case Request(u) =>
      if Accepts(s.rows, u) then s.(rows := Edit(s.rows, u), accepted := s.accepted + [u]) else s
  }

  /** A request is accepted exactly when its status is one of the three and a row has its case id. */
  lemma RequestMeans(log: seq<Message>, s: System, u: Update)
    requires KeyOk(s.rows)
    ensures var s' := Step(log, s, Request(u));
            var known := u.status == "OPEN" || u.status == "IN_REVIEW" || u.status == "CLOSED";
            if known && exists x | x in s.rows :: s.rows[x].caseId == u.caseId
            then && s'.accepted == s.accepted + [u] && s'.rows.Keys == s.rows.Keys && s'.bus == s.bus
                 && forall x | x in s.rows ::
                      if s.rows[x].caseId == u.caseId then Writes(u, s.rows[x], s'.rows[x]) else s'.rows[x] == s.rows[x]
            else s' == s
  {
    EditMeans(s.rows, u);
  }

  /** A handler that returned has executed its INSERT, and the INSERT did not raise. */
  predicate Possible(log: seq<Message>, s: System, e: Event) {
    (e.Turn? && s.bus.committed < |log| && (e.fate.Handled? || e.fate.HandledUncommitted?))
    ==> e.executed && !Raises(s.rows, log[s.bus.committed])
  }

  ghost function After(log: seq<Message>, s: System, run: seq<Event>): System {
    Runs.After((x: System, e: Event) => Step(log, x, e), s, run)
  }

  ghost predicate Legal(log: seq<Message>, s: System, run: seq<Event>) {
    Runs.Legal((x: System, e: Event) => Step(log, x, e), (x: System, e: Event) => Possible(log, x, e), s, run)
  }

  // ---------------------------------------------------------------- the reference

  /** One pass over the first `n` messages that executes each of `chosen` once. */
  function Pass(log: seq<Message>, chosen: set<nat>, n: nat): Table
    requires n <= |log|
  {
    if n == 0 then map[]
    else if n - 1 in chosen then Place(Pass(log, chosen, n - 1), log[n - 1])
    else Pass(log, chosen, n - 1)
  }

  /** The updates, one after the other, on a finished table. */
  ghost function Overlay(t: Table, us: seq<Update>): Table {
    if us == [] then t else Edit(Overlay(t, us[..|us| - 1]), us[|us| - 1])
  }

  /** The last update for a case. */
  function Last(us: seq<Update>, id: string): (r: Option<Update>)
    ensures r.Some? ==> r.value in us && r.value.caseId == id
    ensures r.None? <==> forall u | u in us :: u.caseId != id
  {
    if us == [] then None
    else if us[|us| - 1].caseId == id then Some(us[|us| - 1])
    else
      assert us == us[..|us| - 1] + [us[|us| - 1]];
      Last(us[..|us| - 1], id)
  }

  /** What an analyst sees: the row as inserted, under the last accepted update of its case. */
  lemma {:induction false} OverlayIsLast(t: Table, us: seq<Update>)
    requires KeyOk(t)
    ensures Overlay(t, us).Keys == t.Keys && KeyOk(Overlay(t, us))
    ensures forall x | x in t :: var u := Last(us, t[x].caseId);
                                 if u.None? then Overlay(t, us)[x] == t[x] else Writes(u.value, t[x], Overlay(t, us)[x])
  {
    if us != [] {
      OverlayIsLast(t, us[..|us| - 1]);
      EditMeans(Overlay(t, us[..|us| - 1]), us[|us| - 1]);
    }
  }

  lemma EditPlace(t: Table, u: Update, m: Message)
    requires KeyOk(t) && Holds(t, u.caseId)
    ensures Edit(Place(t, m), u) == Place(Edit(t, u), m)
  {
    EditMeans(t, u);
    EditMeans(Place(t, m), u);
    if m.Some? { SameHolds(t, Edit(t, u), m.value.caseId); }
  }

  lemma SameHolds(t: Table, t': Table, id: string)
    requires t.Keys == t'.Keys && forall x | x in t :: t'[x].caseId == t[x].caseId
    ensures Holds(t, id) == Holds(t', id)
  {
    if Holds(t, id) {
      var x :| x in t && t[x].caseId == id;
      assert x in t' && t'[x].caseId == id;
    }
  }

  /** An insert may be moved before the updates accepted earlier: none of them meant its row. */
  lemma {:induction false} OverlayPlace(t: Table, us: seq<Update>, m: Message)
    requires KeyOk(t)
    requires forall u | u in us :: Holds(t, u.caseId)
    ensures Overlay(Place(t, m), us) == Place(Overlay(t, us), m)
  {
    if us != [] {
      var front, u := us[..|us| - 1], us[|us| - 1];
      OverlayPlace(t, front, m);
      OverlayHolds(t, front, u.caseId);
      OverlayIsLast(t, front);
      EditPlace(Overlay(t, front), u, m);
    }
  }

  lemma OverlayHolds(t: Table, us: seq<Update>, id: string)
    requires KeyOk(t)
    ensures Holds(Overlay(t, us), id) == Holds(t, id)
  {
    OverlayIsLast(t, us);
    SameHolds(t, Overlay(t, us), id);
  }

  lemma PlaceHolds(t: Table, m: Message, id: string)
    requires Holds(t, id)
    ensures Holds(Place(t, m), id)
  {
    var x :| x in t && t[x].caseId == id;
    assert x in Place(t, m) && Place(t, m)[x].caseId == id;
  }

  lemma {:induction false} PassStops(log: seq<Message>, chosen: set<nat>, more: set<nat>, n: nat, k: nat)
    requires k <= n <= |log|
    requires forall o | o in chosen :: o < k
    requires forall o: nat | o < k :: o in chosen <==> o in more
    ensures Pass(log, chosen, n) == Pass(log, more, k)
    decreases n
  {
    if n > k { PassStops(log, chosen, more, n - 1, k); }
    else if n > 0 { PassAgrees(log, chosen, more, n); }
  }

  lemma {:induction false} PassAgrees(log: seq<Message>, a: set<nat>, b: set<nat>, n: nat)
    requires n <= |log| && forall o: nat | o < n :: o in a <==> o in b
    ensures Pass(log, a, n) == Pass(log, b, n)
  {
    if n > 0 { PassAgrees(log, a, b, n - 1); }
  }

  lemma {:induction false} PassKeyOk(log: seq<Message>, chosen: set<nat>, n: nat)
    requires n <= |log|
    ensures KeyOk(Pass(log, chosen, n))
  {
    if n > 0 { PassKeyOk(log, chosen, n - 1); }
  }

  // ---------------------------------------------------------------- the invariant

  ghost predicate Refines(log: seq<Message>, s: System) {
    && s.bus.committed <= |log|
    && (forall o | o in s.executed :: o <= s.bus.committed && o < |log|)
    && s.rows == Overlay(Pass(log, s.executed, |log|), s.accepted)
    && (forall u | u in s.accepted :: Holds(Pass(log, s.executed, |log|), u.caseId) && u.status in STATUSES)
    && Bus.Accounted(s.bus) && s.bus.finished <= s.executed
  }

  lemma ExecuteAgain(log: seq<Message>, ex: set<nat>, o: nat)
    requires o < |log| && forall x | x in ex :: x <= o
    ensures Pass(log, ex + {o}, |log|) == Place(Pass(log, ex, |log|), log[o])
  {
    PassStops(log, ex + {o}, ex + {o}, |log|, o + 1);
    PassAgrees(log, ex + {o}, ex, o);
    PassStops(log, ex, ex, |log|, o + 1);
  }

  lemma TurnRefines(log: seq<Message>, s: System, e: Event)
    requires Refines(log, s) && Possible(log, s, e) && e.Turn? && s.bus.committed < |log|
    ensures Refines(log, Step(log, s, e))
  {
    var base, m := Pass(log, s.executed, |log|), log[s.bus.committed];
    Bus.TurnKeeps(s.bus, e.fate);
    if e.executed {
      PassKeyOk(log, s.executed, |log|);
      ExecuteAgain(log, s.executed, s.bus.committed);
      OverlayPlace(base, s.accepted, m);
      forall u | u in s.accepted ensures Holds(Place(base, m), u.caseId) { PlaceHolds(base, m, u.caseId); }
    }
  }

  lemma RequestRefines(log: seq<Message>, s: System, u: Update)
    requires Refines(log, s)
    ensures Refines(log, Step(log, s, Request(u)))
  {
    if Accepts(s.rows, u) {
      PassKeyOk(log, s.executed, |log|);
      OverlayHolds(Pass(log, s.executed, |log|), s.accepted, u.caseId);
      assert (s.accepted + [u])[..|s.accepted|] == s.accepted;
    }
  }

  lemma RefinesStep(log: seq<Message>, s: System, e: Event)
    requires Refines(log, s) && Possible(log, s, e)
    ensures Refines(log, Step(log, s, e))
  {
    if e.Request? { RequestRefines(log, s, e.update); }
    else if s.bus.committed < |log| { TurnRefines(log, s, e); }
  }

  lemma RefinesStart(log: seq<Message>)
    ensures Refines(log, START)
  {
    PassStops(log, {}, {}, |log|, 0);
  }

  /** Whatever crashes, replays, dead letters and analyst requests occur, and in whatever order, the
      table is that of one pass over the executed messages followed by the accepted updates. */
  lemma {:induction false} TableIsOnePass(log: seq<Message>, s: System, run: seq<Event>)
    requires Refines(log, s) && Legal(log, s, run)
    ensures Refines(log, After(log, s, run))
    decreases |run|
  {
    if run != [] {
      RefinesStep(log, s, run[0]);
      TableIsOnePass(log, Step(log, s, run[0]), run[1..]);
    }
  }

  function UpTo(n: nat): (r: set<nat>)
    ensures forall o: nat :: o in r <==> o < n
  {
    if n == 0 then {} else UpTo(n - 1) + {n - 1}
  }

  /** How far the pass has come: the message at the committed offset may have been executed already. */
  function Reached(e: System): nat { if e.bus.committed in e.executed then e.bus.committed + 1 else e.bus.committed }

  /** Without dead letters the pass is over the whole log up to there. */
  lemma ExactlyOnce(log: seq<Message>, run: seq<Event>)
    requires Legal(log, START, run)
    ensures var e := After(log, START, run); e.bus.dlq == [] ==>
              Reached(e) <= |log| && e.rows == Overlay(Pass(log, UpTo(Reached(e)), Reached(e)), e.accepted)
  {
    RefinesStart(log);
    TableIsOnePass(log, START, run);
    var e := After(log, START, run);
    if e.bus.dlq == [] { PassStops(log, e.executed, UpTo(Reached(e)), |log|, Reached(e)); }
  }

  /** No delivery changes a row that is there, so none takes back what an analyst wrote. */
  lemma {:induction false} DeliveriesKeepRows(log: seq<Message>, s: System, run: seq<Event>, x: string)
    requires x in s.rows && forall i :: 0 <= i < |run| ==> run[i].Turn?
    ensures x in After(log, s, run).rows && After(log, s, run).rows[x] == s.rows[x]
    decreases |run|
  {
    if run != [] { DeliveriesKeepRows(log, Step(log, s, run[0]), run[1..], x); }
  }

  // ---------------------------------------------------------------- the first event wins

  /** Different transactions come with different case ids. */
  ghost predicate DistinctIds(log: seq<Message>) {
    forall i, j :: 0 <= i < |log| && 0 <= j < |log| && log[i].Some? && log[j].Some?
                   && log[i].value.caseId == log[j].value.caseId
                   ==> log[i].value.transactionId == log[j].value.transactionId
  }

  predicate About(log: seq<Message>, o: nat, x: string) { o < |log| && log[o].Some? && log[o].value.transactionId == x }

  function First(log: seq<Message>, chosen: set<nat>, n: nat, x: string): (r: Option<nat>)
    requires n <= |log|
    ensures r.Some? ==> r.value < n && r.value in chosen && About(log, r.value, x)
    ensures forall o: nat | o < n && o in chosen && About(log, o, x) :: r.Some? && r.value <= o
  {
    if n == 0 then None
    else
      var r := First(log, chosen, n - 1, x);
      if r.Some? then r else if n - 1 in chosen && About(log, n - 1, x) then Some(n - 1) else None
  }

  ghost predicate RowIsFirst(log: seq<Message>, chosen: set<nat>, n: nat, x: string)
    requires n <= |log|
  {
    var t, o := Pass(log, chosen, n), First(log, chosen, n, x);
    (x in t <==> o.Some?) && (x in t ==> Opens(log[o.value].value, t[x]))
  }

  /** One row per transaction, from its first event. */
  lemma {:induction false} FirstEventWins(log: seq<Message>, chosen: set<nat>, n: nat)
    requires n <= |log| && DistinctIds(log)
    ensures forall x :: RowIsFirst(log, chosen, n, x)
  {
    if n > 0 {
      FirstEventWins(log, chosen, n - 1);
      forall x ensures RowIsFirst(log, chosen, n, x) {
        assert RowIsFirst(log, chosen, n - 1, x);
        NeverRaises(log, chosen, n - 1);
      }
    }
  }

  lemma NeverRaises(log: seq<Message>, chosen: set<nat>, n: nat)
    requires n < |log| && DistinctIds(log)
    requires forall x :: RowIsFirst(log, chosen, n, x)
    ensures Raises(Pass(log, chosen, n), log[n]) <==> log[n].None?
  {
    var t, m := Pass(log, chosen, n), log[n];
    if m.Some? && Holds(t, m.value.caseId) {
      var x :| x in t && t[x].caseId == m.value.caseId;
      assert RowIsFirst(log, chosen, n, x);
      var i := First(log, chosen, n, x).value;
      assert log[i].value.caseId == m.value.caseId && About(log, i, x);
    }
  }
}
