/** libs/common/bus.py: the commit-after-handle loop of every consumer, over one partition. */
module Bus {
  import Runs

  // ---------------------------------------------------------------- the loop, call by call

  /** The call the worker waits for. */
  datatype Pc =
    | Down                     // no process is running
    | Fetching                 // the stream asks for the next message
    | Handling(offset: nat)    // the handler runs
    | Reporting(offset: nat)   // the handler raised: the message is being sent to the DLQ
    | Committing(offset: nat)  // the stream was resumed: it commits before it asks again

  /** How a call comes out: it returns, raises, or is cut off by a crash or a cancellation. In the
      last two cases it may have taken effect all the same. */
  datatype Answer = Completes | Raises(applied: bool) | Stops(applied: bool)

  /** Kafka holds `size` messages, the group's `committed` offset and the DLQ; the process holds
      `pc` and its `position`. `finished` and `delivered` record the past. */
  datatype World = World(size: nat, committed: nat, dlq: seq<nat>, pc: Pc, position: nat, finished: set<nat>,
                         delivered: seq<nat>)

  const NEW: World := World(0, 0, [], Down, 0, {}, [])

  datatype Event = Arrives | Starts | Await(answer: Answer)

  function Step(w: World, e: Event): World {
    match e
    case Arrives => w.(size := w.size + 1)
    case Starts => if w.pc.Down? then w.(pc := Fetching, position := w.committed) else w
    case Await(a) => Called(w, a)
  }

  function Called(w: World, a: Answer): World {
    var applied := a.Completes? || a.applied;
    match w.pc
    case Down => w
    case Fetching =>
      if !a.Completes? then w.(pc := Down)
      else if w.position >= w.size then w
      else w.(pc := Handling(w.position), position := w.position + 1, delivered := w.delivered + [w.position])
    case Handling(o) =>
      if a.Completes? then w.(pc := Committing(o), finished := w.finished + {o})
      else if a.Raises? then w.(pc := Reporting(o))
      else w.(pc := Down)
    case Reporting(o) =>
      w.(pc := if a.Completes? then Committing(o) else Down, dlq := if applied then w.dlq + [o] else w.dlq)
    case Committing(o) =>
      w.(pc := if a.Completes? then Fetching else Down, committed := if applied then w.position else w.committed)
  }

  function After(w: World, events: seq<Event>): World { Runs.After(Step, w, events) }

  /** One life of a worker, cut off when the answers run out. */
  function Session(w: World, answers: seq<Answer>): World
    decreases |answers|
  {
    if answers == [] then Called(w, Stops(false)) else Session(Called(w, answers[0]), answers[1..])
  }

  function NextOf(answers: seq<Answer>): Answer { if answers == [] then Stops(false) else answers[0] }

  function RestOf(answers: seq<Answer>): seq<Answer> { if answers == [] then [] else answers[1..] }

  lemma {:induction false} SessionDown(w: World, answers: seq<Answer>)
    requires w.pc.Down?
    ensures Session(w, answers) == w
    decreases |answers|
  {
    if answers != [] { SessionDown(w, answers[1..]); }
  }

  lemma SessionNext(w: World, answers: seq<Answer>)
    ensures Session(w, answers) == Session(Called(w, NextOf(answers)), RestOf(answers))
  {
    if answers == [] { SessionDown(Called(w, Stops(false)), []); }
  }

  class Worker {
    var size: nat
    var committed: nat
    var dlq: seq<nat>
    var position: nat
    ghost var finished: set<nat>
    ghost var delivered: seq<nat>

    ghost function At(pc: Pc): World reads this { World(size, committed, dlq, pc, position, finished, delivered) }

    constructor ()
      ensures At(Down) == NEW
    {
      size, committed, dlq, position, finished, delivered := 0, 0, [], 0, {}, [];
    }

    /** `run_worker` with `stream`: the answers to its calls are the environment's. */
    method RunWorker(answers: seq<Answer>)
      modifies this
      ensures At(Down) == Session(Step(old(At(Down)), Starts), answers)
    {
      ghost var target := Session(Step(At(Down), Starts), answers);
      position := committed;
      var rest := answers;
      while true
        invariant Session(At(Fetching), rest) == target
        decreases |rest|
      {
        SessionNext(At(Fetching), rest);
        if rest == [] { break; }
        var fetched := NextOf(rest);
        rest := RestOf(rest);
        if !fetched.Completes? { break; }
        if position >= size { continue; }
        var offset := position;
        position, delivered := position + 1, delivered + [offset];

        SessionNext(At(Handling(offset)), rest);
        var handled := NextOf(rest);
        rest := RestOf(rest);
        if handled.Stops? { break; }
        if handled.Completes? {
          finished := finished + {offset};
        } else {
          SessionNext(At(Reporting(offset)), rest);
          var sent := NextOf(rest);
          rest := RestOf(rest);
          if sent.Completes? || sent.applied { dlq := dlq + [offset]; }
          if !sent.Completes? { break; }
        }

        SessionNext(At(Committing(offset)), rest);
        var acked := NextOf(rest);
        rest := RestOf(rest);
        if acked.Completes? || acked.applied { committed := position; }
        if !acked.Completes? { break; }
      }
      SessionDown(At(Down), rest);
    }
  }

  // ---------------------------------------------------------------- what every run keeps

  predicate Done(w: World, o: nat) { o in w.finished || o in w.dlq }

  /** Everything below the committed offset is done; a commit is due only once its message is. */
  ghost predicate Safe(w: World) {
    && w.committed <= w.size
    && (forall o | 0 <= o < w.committed :: Done(w, o))
    && (forall o | o in w.finished :: o <= w.committed)
    && (forall o | o in w.dlq :: o <= w.committed)
    && match w.pc
       case Down => true
       case Fetching => w.position == w.committed
       case Handling(o) => InHand(w, o)
       case Reporting(o) => InHand(w, o)
       case Committing(o) => InHand(w, o) && Done(w, o)
  }

  predicate InHand(w: World, o: nat) { o == w.committed && w.position == o + 1 <= w.size }

  /** Messages are delivered in log order, each again and again until it is committed. */
  ghost predicate InOrder(w: World) {
    var d := w.delivered;
    && (d == [] ==> w.committed == 0)
    && (d != [] ==> d[0] == 0 && (d[|d| - 1] == w.committed || d[|d| - 1] + 1 == w.committed))
    && (!w.pc.Down? && !w.pc.Fetching? ==> d != [] && d[|d| - 1] == w.committed)
    && (forall i | 0 <= i < |d| - 1 :: d[i] <= d[i + 1] <= d[i] + 1)
  }

  lemma StepSafe(w: World, e: Event)
    requires Safe(w)
    ensures Safe(Step(w, e))
  {
    var w' := Step(w, e);
    assert w.pc.Reporting? ==> (w.dlq + [w.pc.offset])[|w.dlq|] == w.pc.offset;
    forall o | 0 <= o < w'.committed ensures Done(w', o) { assert Done(w, o); }
  }

  lemma StepInOrder(w: World, e: Event)
    requires Safe(w) && InOrder(w)
    ensures InOrder(Step(w, e))
  {
  }

  /** However calls come out, and wherever the process is cut off and started again. */
  lemma {:induction false} RunsSafe(w: World, events: seq<Event>)
    requires Safe(w) && InOrder(w)
    ensures Safe(After(w, events)) && InOrder(After(w, events)) && w.committed <= After(w, events).committed
    decreases |events|
  {
    if events != [] {
      StepSafe(w, events[0]);
      StepInOrder(w, events[0]);
      RunsSafe(Step(w, events[0]), events[1..]);
    }
  }

  /** In every run from the start each message below the committed offset has finished its handler or is in the DLQ. */
  lemma AtLeastOnce(events: seq<Event>, o: nat)
    requires o < After(NEW, events).committed
    ensures Done(After(NEW, events), o) && InOrder(After(NEW, events))
  {
    RunsSafe(NEW, events);
  }

  /** The offset moves only by the commit of the message in hand, by one, and only when that message is done. */
  lemma CommitsOnlyDone(events: seq<Event>, e: Event)
    ensures var w := After(NEW, events);
            Step(w, e).committed != w.committed ==>
              && w.pc == Committing(w.committed) && Done(w, w.committed)
              && Step(w, e).committed == w.committed + 1
  {
    RunsSafe(NEW, events);
  }

  /** A message whose turn is cut off without a commit, by a crash, a cancellation, a failing send
      to the DLQ or a failing commit, is the first to be delivered after the restart. */
  lemma CutOffComesAgain(events: seq<Event>, a: Answer)
    requires var w := After(NEW, events);
             !w.pc.Down? && !w.pc.Fetching? && Called(w, a).pc.Down? && Called(w, a).committed == w.committed
    ensures var w := After(NEW, events);
            After(w, [Await(a), Starts, Await(Completes)]).delivered == w.delivered + [w.pc.offset]
  {
    RunsSafe(NEW, events);
    var w := After(NEW, events);
    var w1 := Called(w, a);
    var w2 := Step(w1, Starts);
    var run: seq<Event> := [Await(a), Starts, Await(Completes)];
    assert run[1..] == [Starts, Await(Completes)] && run[1..][1..] == [Await(Completes)] && run[1..][1..][1..] == [];
    assert After(w, run) == After(w1, run[1..]) == After(w2, [Await(Completes)]) == After(Called(w2, Completes), []);
  }

  // ---------------------------------------------------------------- turn by turn

  /** How one turn of the loop comes out. After the last four the process is down and the offset has not moved. */
  datatype Fate = Handled | DeadLettered | HandledUncommitted | DeadUncommitted | DlqFailed | Cancelled

  predicate Acked(f: Fate) { f.Handled? || f.DeadLettered? }

  datatype State = State(committed: nat, finished: set<nat>, dlq: seq<nat>, delivered: seq<nat>)

  const IDLE: State := State(0, {}, [], [])

  /** One turn on the message at the committed offset. */
  function Turn(b: State, f: Fate): State {
    var o := b.committed;
    b.(committed := if Acked(f) then o + 1 else o,
       finished := if f.Handled? || f.HandledUncommitted? then b.finished + {o} else b.finished,
       dlq := if f.DeadLettered? || f.DeadUncommitted? then b.dlq + [o] else b.dlq,
       delivered := b.delivered + [o])
  }

  function Turns(b: State, fates: seq<Fate>): State
    decreases |fates|
  {
    if fates == [] then b else Turns(Turn(b, fates[0]), fates[1..])
  }

  function Core(w: World): State { State(w.committed, w.finished, w.dlq, w.delivered) }

  /** `w` has come as far into the turn after `b` as its pc says. */
  ghost predicate Within(w: World, b: State) {
    var begun := b.(delivered := b.delivered + [b.committed]);
    match w.pc
    case Down => Core(w) == b
    case Fetching => Core(w) == b && w.position == b.committed
    case Handling(o) => Core(w) == begun && o == b.committed && w.position == o + 1
    case Reporting(o) => Core(w) == begun && o == b.committed && w.position == o + 1
    case Committing(o) =>
      && o == b.committed && w.position == o + 1
      && (Core(w) == begun.(finished := b.finished + {o}) || Core(w) == begun.(dlq := b.dlq + [o]))
  }

  /** The fate of a turn that step `e` ends, if it ends one. */
  function FateOf(w: World, b: State, e: Event): seq<Fate> {
    if !e.Await? || w.pc.Down? || w.pc.Fetching? then []
    else
      var a := e.answer;
      var applied := a.Completes? || a.applied;
      match w.pc
      case Handling(_) => if a.Stops? then [Cancelled] else []
      case Reporting(_) => if a.Completes? then [] else if applied then [DeadUncommitted] else [DlqFailed]
      case Committing(_) =>
        if w.dlq == b.dlq then (if applied then [Handled] else [HandledUncommitted])
        else (if applied then [DeadLettered] else [DeadUncommitted])
  }

  lemma StepWithin(w: World, b: State, e: Event)
    requires Within(w, b)
    ensures Within(Step(w, e), Turns(b, FateOf(w, b, e)))
  {
    var f := FateOf(w, b, e);
    if f != [] {
      assert f[1..] == [];
      assert Turns(b, f) == Turn(b, f[0]);
    }
  }

  /** Call by call a worker does what it does turn by turn: every run is a sequence of turns, the
      last perhaps under way. */
  lemma {:induction false} RunsAreTurns(w: World, b: State, events: seq<Event>) returns (fates: seq<Fate>)
    requires Within(w, b)
    ensures Within(After(w, events), Turns(b, fates))
    decreases |events|
  {
    if events == [] {
      fates := [];
    } else {
      StepWithin(w, b, events[0]);
      var first := FateOf(w, b, events[0]);
      var rest := RunsAreTurns(Step(w, events[0]), Turns(b, first), events[1..]);
      fates := first + rest;
      TurnsCompose(b, first, rest);
    }
  }

  lemma {:induction false} TurnsCompose(b: State, f1: seq<Fate>, f2: seq<Fate>)
    ensures Turns(b, f1 + f2) == Turns(Turns(b, f1), f2)
    decreases |f1|
  {
    if f1 == [] {
      assert f1 + f2 == f2;
    } else {
      assert (f1 + f2)[1..] == f1[1..] + f2;
      TurnsCompose(Turn(b, f1[0]), f1[1..], f2);
    }
  }

  /** The answers that bring about a fate. */
  function Answers(f: Fate): seq<Answer> {
    match f
    case Handled => [Completes, Completes, Completes]
    case DeadLettered => [Completes, Raises(false), Completes, Completes]
    case HandledUncommitted => [Completes, Completes, Raises(false)]
    case DeadUncommitted => [Completes, Raises(false), Raises(true)]
    case DlqFailed => [Completes, Raises(false), Raises(false)]
    case Cancelled => [Completes, Stops(false)]
  }

  /** And every fate does befall a waiting message. */
  lemma EveryFateHappens(w: World, f: Fate)
    requires w.pc.Down? && w.committed < w.size
    ensures Session(Step(w, Starts), Answers(f)) ==
            w.(committed := Turn(Core(w), f).committed, finished := Turn(Core(w), f).finished,
              dlq := Turn(Core(w), f).dlq, delivered := Turn(Core(w), f).delivered, position := w.committed + 1)
  {
    var w0, answers := Step(w, Starts), Answers(f);
    var w1, w2 := Called(w0, answers[0]), Called(Called(w0, answers[0]), answers[1]);
    assert Session(w0, answers) == Session(w1, answers[1..]) == Session(w2, answers[1..][1..]);
    if f.Cancelled? {
      SessionDown(w2, answers[1..][1..]);
    } else {
      var w3 := Called(w2, answers[2]);
      assert answers[1..][1..][0] == answers[2];
      assert Session(w0, answers) == Session(w3, answers[1..][1..][1..]);
      if f.DeadLettered? {
        assert answers[1..][1..][1..] == [answers[3]];
        assert Session(w3, [answers[3]]) == Session(Called(w3, answers[3]), []);
      } else if f.Handled? {
        assert answers[1..][1..][1..] == [];
      } else {
        SessionDown(w3, answers[1..][1..][1..]);
      }
    }
  }

  function Calls(w: World, answers: seq<Answer>): World
    decreases |answers|
  {
    if answers == [] then w else Calls(Called(w, answers[0]), answers[1..])
  }

  lemma {:induction false} CallsCompose(w: World, a: seq<Answer>, b: seq<Answer>)
    ensures Calls(w, a + b) == Calls(Calls(w, a), b)
    decreases |a|
  {
    if a == [] {
      assert a + b == b;
    } else {
      assert (a + b)[1..] == a[1..] + b;
      CallsCompose(Called(w, a[0]), a[1..], b);
    }
  }

  function Script(fates: seq<Fate>): seq<Answer> {
    if fates == [] then [] else Answers(fates[0]) + Script(fates[1..])
  }

  lemma AckedTurnGoesOn(w: World, f: Fate)
    requires w.pc.Fetching? && w.position == w.committed < w.size && Acked(f)
    ensures var e := Calls(w, Answers(f));
            && e.pc.Fetching? && e.position == e.committed && e.size == w.size && Core(e) == Turn(Core(w), f)
  {
    var a := Answers(f);
    var w1 := Called(w, a[0]);
    var w2 := Called(w1, a[1]);
    var w3 := Called(w2, a[2]);
    assert Calls(w, a) == Calls(w1, a[1..]) == Calls(w2, a[1..][1..]) == Calls(w3, a[1..][1..][1..]);
    if f.DeadLettered? {
      assert a[1..][1..][1..] == [a[3]];
      assert Calls(w3, [a[3]]) == Calls(Called(w3, a[3]), []);
    } else {
      assert a[1..][1..][1..] == [];
    }
  }

  /** One life handles one message after the other: each that its handler returns for, or that gets into
      the DLQ, is committed, and the next one follows. */
  lemma {:induction false} OneLifeGoesOn(w: World, fates: seq<Fate>)
    requires w.pc.Fetching? && w.position == w.committed && w.committed + |fates| <= w.size
    requires forall i :: 0 <= i < |fates| ==> Acked(fates[i])
    ensures var e := Calls(w, Script(fates));
            && e.pc.Fetching? && e.committed == w.committed + |fates| && Core(e) == Turns(Core(w), fates)
    decreases |fates|
  {
    if fates != [] {
      AckedTurnGoesOn(w, fates[0]);
      CallsCompose(w, Answers(fates[0]), Script(fates[1..]));
      OneLifeGoesOn(Calls(w, Answers(fates[0])), fates[1..]);
    }
  }

  /** What turns keep, for the consumers that are modelled turn by turn. */
  predicate Accounted(b: State) {
    && (forall o | 0 <= o < b.committed :: o in b.finished || o in b.dlq)
    && (forall o | o in b.finished :: o <= b.committed)
  }

  lemma TurnKeeps(b: State, f: Fate)
    requires Accounted(b)
    ensures Accounted(Turn(b, f))
  {
    assert (b.dlq + [b.committed])[|b.dlq|] == b.committed;
  }
}
