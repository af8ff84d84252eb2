/** services/notification: a counter per customer, whose window the first increment opens.
    Times are the Redis server's, in seconds. */
module Notification {
  import opened Common
  import Runs

  const MAX_PER_HOUR: nat := 5
  const WINDOW: real := 3600.0

  /** `ntf:rate:{customer}`; no expiry until EXPIRE is executed. */
  datatype Counter = Counter(count: nat, expires: Option<real>)

  /** A message that got as far as its INCR. */
  datatype Entry = Entry(customer: string, at: real, passed: bool)

  /** `owed` holds the customers whose EXPIRE is still to come; `began` and `log` record the past. */
  datatype State = State(now: real, counters: map<string, Counter>, owed: set<string>, began: map<string, real>,
                         log: seq<Entry>)

  const START: State := State(0.0, map[], {}, map[], [])

  predicate Live(s: State, c: string, at: real) {
    c in s.counters && (s.counters[c].expires.None? || at < s.counters[c].expires.value)
  }

  /** The reply to an INCR at `at`. */
  function Next(s: State, c: string, at: real): nat { if Live(s, c, at) then s.counters[c].count + 1 else 1 }

  function Incr(s: State, c: string, at: real): State {
    var n := Next(s, c, at);
    State(at,
          s.counters[c := Counter(n, if Live(s, c, at) then s.counters[c].expires else None)],
          if n == 1 then s.owed + {c} else s.owed,
          if n == 1 then s.began[c := at] else s.began,
          s.log + [Entry(c, at, n <= MAX_PER_HOUR)])
  }

  function Expire(s: State, c: string, at: real): State {
    s.(now := at, owed := s.owed - {c},
       counters := if Live(s, c, at) then s.counters[c := s.counters[c].(expires := Some(at + WINDOW))] else s.counters)
  }

  /** The two calls of `rate_limited`, by any number of workers: an EXPIRE may come late, or never after a crash. */
  datatype Event = Message(customer: string, at: real) | Settle(customer: string, at: real)

  predicate Possible(s: State, e: Event) { s.now <= e.at && (e.Settle? ==> e.customer in s.owed) }

  function Step(s: State, e: Event): State {
    match e
    case Message(c, at) => Incr(s, c, at)
    case Settle(c, at) => Expire(s, c, at)
  }

  function After(s: State, run: seq<Event>): State { Runs.After(Step, s, run) }

  predicate Legal(s: State, run: seq<Event>) { Runs.Legal(Step, Possible, s, run) }

  // ---------------------------------------------------------------- counting

  predicate Counts(e: Entry, c: string, from: real) { e.customer == c && e.passed && from <= e.at }

  /** Notifications let through from `from` on. */
  function Since(log: seq<Entry>, c: string, from: real): nat {
    if log == [] then 0 else Since(log[..|log| - 1], c, from) + if Counts(log[|log| - 1], c, from) then 1 else 0
  }

  /** Those in `[from, to)`. */
  function Within(log: seq<Entry>, c: string, from: real, to: real): nat {
    if log == [] then 0
    else
      var e := log[|log| - 1];
      Within(log[..|log| - 1], c, from, to) + if Counts(e, c, from) && e.at < to then 1 else 0
  }

  /** Those in the hour from `from` on. */
  function Hour(log: seq<Entry>, c: string, from: real): nat { Within(log, c, from, from + WINDOW) }

  lemma {:induction false} WithinSince(log: seq<Entry>, c: string, from: real, to: real)
    ensures Within(log, c, from, to) <= Since(log, c, from)
  {
    if log != [] { WithinSince(log[..|log| - 1], c, from, to); }
  }

  lemma {:induction false} NothingLater(log: seq<Entry>, c: string, from: real)
    requires forall i :: 0 <= i < |log| && log[i].customer == c ==> log[i].at < from
    ensures Since(log, c, from) == 0
  {
    if log != [] { NothingLater(log[..|log| - 1], c, from); }
  }

  lemma Append(log: seq<Entry>, e: Entry, c: string, from: real, to: real)
    ensures Since(log + [e], c, from) == Since(log, c, from) + if Counts(e, c, from) then 1 else 0
    ensures Within(log + [e], c, from, to) ==
            Within(log, c, from, to) + if Counts(e, c, from) && e.at < to then 1 else 0
  {
    assert (log + [e])[..|log|] == log;
  }

  // ---------------------------------------------------------------- the bound

  function Capped(n: nat): nat { if n <= MAX_PER_HOUR then n else MAX_PER_HOUR }

  /** An expiry lies a whole window after the opening. */
  ghost predicate ClockOk(s: State) {
    && s.counters.Keys == s.began.Keys
    && (forall c | c in s.counters :: s.counters[c].count >= 1 && s.began[c] <= s.now)
    && (forall c | c in s.counters && s.counters[c].expires.Some? :: s.counters[c].expires.value >= s.began[c] + WINDOW)
    && (forall c | c in s.owed :: c in s.counters && s.counters[c].expires.None?)
    && (forall i :: 0 <= i < |s.log| ==> s.log[i].at <= s.now && Unexpired(s, s.log[i]))
  }

  /** A window has ended only after its last message. */
  predicate Unexpired(s: State, e: Entry) {
    e.customer in s.counters && (s.counters[e.customer].expires.Some? ==> e.at < s.counters[e.customer].expires.value)
  }

  /** Since the opening of the current window as many have been let through as were counted, up to
      five. After its opening come only its later notifications; looking back
      less than a window before that, at most the later ones of the window before. */
  ghost predicate Bounded(s: State, c: string)
    requires s.counters.Keys == s.began.Keys
  {
    && (c !in s.counters ==> forall a :: Since(s.log, c, a) == 0)
    && (c in s.counters ==> Since(s.log, c, s.began[c]) == Capped(s.counters[c].count))
    && (c in s.counters ==> forall a: real | a > s.began[c] :: Since(s.log, c, a) <= Capped(s.counters[c].count) - 1)
    && (c in s.counters ==>
          forall a | a > s.began[c] - WINDOW :: Since(s.log, c, a) <= Capped(s.counters[c].count) + MAX_PER_HOUR - 1)
    && (forall a :: Hour(s.log, c, a) <= 2 * MAX_PER_HOUR - 1)
  }

  lemma ClockStep(s: State, e: Event)
    requires ClockOk(s) && Possible(s, e)
    ensures ClockOk(Step(s, e))
  {
  }

  lemma SinceStep(s: State, c: string, at: real, a: real)
    requires ClockOk(s) && s.now <= at && Bounded(s, c)
    ensures var s' := Incr(s, c, at);
            && Since(s'.log, c, s'.began[c]) == Capped(s'.counters[c].count)
            && (a > s'.began[c] ==> Since(s'.log, c, a) <= Capped(s'.counters[c].count) - 1)
            && (a > s'.began[c] - WINDOW ==> Since(s'.log, c, a) <= Capped(s'.counters[c].count) + MAX_PER_HOUR - 1)
  {
    var x := Entry(c, at, Next(s, c, at) <= MAX_PER_HOUR);
    Append(s.log, x, c, a, a);
    Append(s.log, x, c, Incr(s, c, at).began[c], a);
    if !Live(s, c, at) { NothingLater(s.log, c, at); }
    if a > at { NothingLater(s.log, c, a); }
  }

  lemma WithinStep(s: State, c: string, at: real, a: real)
    requires ClockOk(s) && s.now <= at && Bounded(s, c)
    ensures Hour(Incr(s, c, at).log, c, a) <= 2 * MAX_PER_HOUR - 1
  {
    var s' := Incr(s, c, at);
    Append(s.log, Entry(c, at, Next(s, c, at) <= MAX_PER_HOUR), c, a, a + WINDOW);
    if a > s'.began[c] - WINDOW {
      SinceStep(s, c, at, a);
      WithinSince(s'.log, c, a, a + WINDOW);
    } else {
      assert s'.began[c] <= at;
      assert Hour(s.log, c, a) <= 2 * MAX_PER_HOUR - 1;
    }
  }

  lemma BoundedStep(s: State, e: Event, c: string)
    requires ClockOk(s) && Possible(s, e) && Bounded(s, c)
    ensures ClockOk(Step(s, e)) && Bounded(Step(s, e), c)
  {
    ClockStep(s, e);
    if e.Message? {
      var s' := Incr(s, e.customer, e.at);
      if e.customer == c {
        SinceStep(s, c, e.at, s'.began[c]);
        forall a
          ensures a > s'.began[c] ==> Since(s'.log, c, a) <= Capped(s'.counters[c].count) - 1
        {
          SinceStep(s, c, e.at, a);
        }
        forall a
          ensures a > s'.began[c] - WINDOW ==> Since(s'.log, c, a) <= Capped(s'.counters[c].count) + MAX_PER_HOUR - 1
        {
          SinceStep(s, c, e.at, a);
        }
        forall a ensures Hour(s'.log, c, a) <= 2 * MAX_PER_HOUR - 1 { WithinStep(s, c, e.at, a); }
      } else {
        var x := Entry(e.customer, e.at, Next(s, e.customer, e.at) <= MAX_PER_HOUR);
        forall a ensures Since(s'.log, c, a) == Since(s.log, c, a) { Append(s.log, x, c, a, a); }
        forall a ensures Hour(s'.log, c, a) == Hour(s.log, c, a) { Append(s.log, x, c, a, a + WINDOW); }
      }
    }
  }

  lemma {:induction false} BoundedRuns(s: State, run: seq<Event>, c: string)
    requires ClockOk(s) && Bounded(s, c) && Legal(s, run)
    ensures ClockOk(After(s, run)) && Bounded(After(s, run), c)
    decreases |run|
  {
    if run != [] {
      BoundedStep(s, run[0], c);
      BoundedRuns(Step(s, run[0]), run[1..], c);
    }
  }

  ghost predicate Inv(s: State) { ClockOk(s) && forall c :: Bounded(s, c) }

  lemma InvRuns(s: State, run: seq<Event>)
    requires Inv(s) && Legal(s, run)
    ensures Inv(After(s, run))
  {
    assert ClockOk(After(s, run)) by { BoundedRuns(s, run, ""); }
    forall c ensures Bounded(After(s, run), c) { BoundedRuns(s, run, c); }
  }

  /** In every run, with late and lost EXPIREs: at most nine notifications to a customer in any half-open hour. */
  lemma NineAnHour(run: seq<Event>, c: string, from: real)
    requires Legal(START, run)
    ensures Hour(After(START, run).log, c, from) <= 9
  {
    BoundedRuns(START, run, c);
  }

  // ---------------------------------------------------------------- rate_limited

  /** The commands of one call: INCR, and EXPIRE by the call that gets to one, unless a crash comes first. */
  function Commands(s: State, c: string, at: real, settledAt: Option<real>): seq<Event> {
    [Message(c, at)] + if Next(s, c, at) == 1 && settledAt.Some? then [Settle(c, settledAt.value)] else []
  }

  /** A live window that has let five through. */
  ghost predicate Exhausted(s: State, c: string, at: real) {
    c in s.began && Live(s, c, at) && Since(s.log, c, s.began[c]) == MAX_PER_HOUR
  }

  class RateLimiter {
    var counters: map<string, Counter>
    ghost var now: real
    ghost var owed: set<string>
    ghost var began: map<string, real>
    ghost var log: seq<Entry>

    ghost function Abstract(): State reads this { State(now, counters, owed, began, log) }

    ghost predicate Valid() reads this { Inv(Abstract()) }

    constructor ()
      ensures Abstract() == START && Valid()
    {
      counters, now, owed, began, log := map[], 0.0, {}, map[], [];
    }

    /** `rate_limited`; `settledAt` is when its EXPIRE is executed, None if a crash comes first. */
    method RateLimited(c: string, at: real, settledAt: Option<real>) returns (limited: bool)
      requires Valid() && now <= at && (settledAt.Some? ==> at <= settledAt.value)
      modifies this
      ensures Valid()
      ensures limited <==> old(Exhausted(Abstract(), c, at))
      ensures log == old(log) + [Entry(c, at, !limited)]
      ensures forall from :: Hour(log, c, from) <= 9
      ensures var run := Commands(old(Abstract()), c, at, settledAt);
              Legal(old(Abstract()), run) && Abstract() == After(old(Abstract()), run)
    {
      ghost var was := Abstract();
      CommandsRun(was, c, at, settledAt);
      InvRuns(was, Commands(was, c, at, settledAt));
      NextMeans(was, c, at);
      var live := c in counters && (counters[c].expires.None? || at < counters[c].expires.value);
      var n := if live then counters[c].count + 1 else 1;
      counters := counters[c := Counter(n, if live then counters[c].expires else None)];
      now, owed, began, log := at, if n == 1 then owed + {c} else owed, if n == 1 then began[c := at] else began,
                               log + [Entry(c, at, n <= MAX_PER_HOUR)];
      assert Abstract() == Incr(was, c, at);
      if n == 1 && settledAt.Some? {
        counters := counters[c := Counter(n, Some(settledAt.value + WINDOW))];
        now, owed := settledAt.value, owed - {c};
      }
      assert Abstract() == After(was, Commands(was, c, at, settledAt));
      forall from ensures Hour(log, c, from) <= 9 { HourBound(Abstract(), c, from); }
      limited := n > MAX_PER_HOUR;
    }
  }

  lemma NextMeans(s: State, c: string, at: real)
    requires Inv(s)
    ensures Next(s, c, at) > MAX_PER_HOUR <==> Exhausted(s, c, at)
    ensures Next(s, c, at) == 1 <==> !Live(s, c, at)
  {
    assert Bounded(s, c);
  }

  lemma HourBound(s: State, c: string, from: real)
    requires Inv(s)
    ensures Hour(s.log, c, from) <= 9
  {
    assert Bounded(s, c);
  }

  lemma CommandsRun(s: State, c: string, at: real, settledAt: Option<real>)
    requires s.now <= at && (settledAt.Some? ==> at <= settledAt.value)
    ensures var run := Commands(s, c, at, settledAt);
            && Legal(s, run)
            && After(s, run) == (if |run| == 2 then Expire(Incr(s, c, at), c, settledAt.value) else Incr(s, c, at))
  {
    var run, s1 := Commands(s, c, at, settledAt), Incr(s, c, at);
    if |run| == 2 {
      assert run[1..] == [Settle(c, settledAt.value)] && run[1..][1..] == [];
      assert After(s, run) == After(s1, run[1..]) == After(Expire(s1, c, settledAt.value), []);
    } else {
      assert run[1..] == [];
      assert After(s, run) == After(s1, []);
    }
  }

  // ---------------------------------------------------------------- the bound is met

  function Burst(c: string, at: real, n: nat): seq<Event> {
    if n == 0 then [] else [Message(c, at)] + Burst(c, at, n - 1)
  }

  /** `n` messages at once, inside a live window. */
  lemma {:induction false} BurstPasses(s: State, c: string, at: real, n: nat, from: real)
    requires s.now <= at && from <= at < from + WINDOW && Live(s, c, at) && s.counters[c].count >= 1
    ensures var e := After(s, Burst(c, at, n));
            && Legal(s, Burst(c, at, n)) && e.now <= at && Live(e, c, at)
            && e.counters[c] == s.counters[c].(count := s.counters[c].count + n) && e.owed == s.owed
            && (s.counters[c].count + n <= MAX_PER_HOUR ==>
                  Hour(e.log, c, from) == Hour(s.log, c, from) + n)
    decreases n
  {
    if n > 0 {
      Append(s.log, Entry(c, at, s.counters[c].count + 1 <= MAX_PER_HOUR), c, from, from + WINDOW);
      BurstPasses(Incr(s, c, at), c, at, n - 1, from);
      assert Burst(c, at, n)[1..] == Burst(c, at, n - 1);
    }
  }

  /** One message, four more at the end of its window, and five as soon as the next window opens. */
  function NineRun(c: string): seq<Event> {
    [Message(c, 0.0), Settle(c, 0.0)] + Burst(c, 3599.0, 4) + ([Message(c, 3600.0)] + Burst(c, 3600.0, 4))
  }

  lemma FirstWindow(c: string)
    ensures var run := [Message(c, 0.0), Settle(c, 0.0)] + Burst(c, 3599.0, 4);
            var e := After(START, run);
            && Legal(START, run) && e.now <= 3599.0 && !Live(e, c, 3600.0) && Hour(e.log, c, 1.0) == 4
  {
    var open := [Message(c, 0.0), Settle(c, 0.0)];
    var s := Expire(Incr(START, c, 0.0), c, 0.0);
    assert open[1..] == [Settle(c, 0.0)];
    assert After(START, open) == After(Incr(START, c, 0.0), [Settle(c, 0.0)]) == After(s, []) == s;
    assert Legal(START, open);
    Append([], Entry(c, 0.0, true), c, 1.0, 1.0 + WINDOW);
    BurstPasses(s, c, 3599.0, 4, 1.0);
    Runs.Compose(Step, Possible, START, open, Burst(c, 3599.0, 4));
  }

  lemma SecondWindow(s: State, c: string)
    requires s.now <= 3600.0 && !Live(s, c, 3600.0) && Hour(s.log, c, 1.0) == 4
    ensures var run := [Message(c, 3600.0)] + Burst(c, 3600.0, 4);
            Legal(s, run) && Hour(After(s, run).log, c, 1.0) == 9
  {
    var run := [Message(c, 3600.0)] + Burst(c, 3600.0, 4);
    assert run[1..] == Burst(c, 3600.0, 4);
    Append(s.log, Entry(c, 3600.0, true), c, 1.0, 1.0 + WINDOW);
    BurstPasses(Incr(s, c, 3600.0), c, 3600.0, 4, 1.0);
  }

  /** Nine within an hour do happen. */
  lemma NineIsReached(c: string)
    ensures Legal(START, NineRun(c)) && Hour(After(START, NineRun(c)).log, c, 1.0) == 9
  {
    var first, second := [Message(c, 0.0), Settle(c, 0.0)] + Burst(c, 3599.0, 4),
                         [Message(c, 3600.0)] + Burst(c, 3600.0, 4);
    FirstWindow(c);
    SecondWindow(After(START, first), c);
    Runs.Compose(Step, Possible, START, first, second);
  }

  // ---------------------------------------------------------------- a lost EXPIRE

  /** No EXPIRE has been executed for the customer's counter, if there is one, and all that was let through it
      counted. */
  ghost predicate Unsettled(s: State, c: string) {
    && (c in s.counters ==> s.counters[c].expires.None?)
    && forall from :: Since(s.log, c, from) <= if c in s.counters then Capped(s.counters[c].count) else 0
  }

  lemma UnsettledStep(s: State, e: Event, c: string)
    requires Unsettled(s, c) && !(e.Settle? && e.customer == c)
    ensures Unsettled(Step(s, e), c)
  {
    var s' := Step(s, e);
    if e.Message? {
      forall from ensures Since(s'.log, c, from) <= if c in s'.counters then Capped(s'.counters[c].count) else 0 {
        Append(s.log, s'.log[|s.log|], c, from, from);
      }
    }
  }

  lemma {:induction false} UnsettledRuns(s: State, run: seq<Event>, c: string)
    requires Unsettled(s, c) && forall i :: 0 <= i < |run| ==> !(run[i].Settle? && run[i].customer == c)
    ensures Unsettled(After(s, run), c)
    decreases |run|
  {
    if run != [] {
      UnsettledStep(s, run[0], c);
      UnsettledRuns(Step(s, run[0]), run[1..], c);
    }
  }

  /** Without its EXPIRE a counter never ends its window: five notifications, for ever. */
  lemma LostExpireSilences(run: seq<Event>, c: string, from: real)
    requires forall i :: 0 <= i < |run| ==> !(run[i].Settle? && run[i].customer == c)
    ensures Since(After(START, run).log, c, from) <= MAX_PER_HOUR
  {
    UnsettledRuns(START, run, c);
  }

  /** A crash after the first INCR is all it takes. */
  lemma LostExpireHappens(c: string, at: real)
    requires at >= 0.0
    ensures var s := After(START, [Message(c, at)]);
            Legal(START, [Message(c, at)]) && c in s.owed && forall later :: Live(s, c, later)
  {
    assert [Message(c, at)][1..] == [];
    assert After(START, [Message(c, at)]) == After(Incr(START, c, at), []);
  }

  lemma {:induction false} ExpiryKept(s: State, run: seq<Event>, c: string, expiry: real)
    requires c in s.counters && s.counters[c].expires == Some(expiry) && s.counters[c].count >= 1
    requires c !in s.owed && Legal(s, run)
    requires forall i :: 0 <= i < |run| && run[i].Message? && run[i].customer == c ==> run[i].at < expiry
    ensures c in After(s, run).counters && After(s, run).counters[c].expires == Some(expiry)
    decreases |run|
  {
    if run != [] { ExpiryKept(Step(s, run[0]), run[1..], c, expiry); }
  }

  /** Once EXPIRE is executed at `t` the window ends: the first message from an hour after that opens a new one. */
  lemma SettledWindowEnds(s: State, c: string, t: real, run: seq<Event>, at: real)
    requires Inv(s) && Possible(s, Settle(c, t)) && Legal(Expire(s, c, t), run) && at >= t + WINDOW
    requires forall i :: 0 <= i < |run| && run[i].Message? && run[i].customer == c ==> run[i].at < t + WINDOW
    ensures Next(After(Expire(s, c, t), run), c, at) == 1
  {
    ExpiryKept(Expire(s, c, t), run, c, t + WINDOW);
  }
}
