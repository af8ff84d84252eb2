/** services/api-gateway, `guard`: a fixed bucket per key and clock minute, kept by Redis for 90 s.
    `clock` is the gateway's reading that names the bucket, `at` the Redis time of a command. Seconds. */
module Gateway {
  import opened Common
  import Runs

  const RATE_LIMIT_PER_MIN: nat := 600
  const MINUTE: real := 60.0
  const KEPT: real := 90.0

  /** How far INCR may lag behind the clock reading for the expiry to be harmless. */
  const SLACK: real := KEPT - MINUTE

  datatype Bucket = Bucket(count: nat, expires: Option<real>)

  /** `rl:{key}:{minute}` */
  datatype Name = Name(key: string, minute: int)

  datatype Entry = Entry(name: Name, clock: real, admitted: bool)

  /** `owed` holds the buckets whose EXPIRE is still to come; `log` records the past. */
  datatype State = State(now: real, buckets: map<Name, Bucket>, owed: set<Name>, log: seq<Entry>)

  const START: State := State(0.0, map[], {}, [])

  function Minute(clock: real): int { (clock / MINUTE).Floor }

  predicate Live(s: State, b: Name, at: real) {
    b in s.buckets && (s.buckets[b].expires.None? || at < s.buckets[b].expires.value)
  }

  function Next(s: State, b: Name, at: real): nat { if Live(s, b, at) then s.buckets[b].count + 1 else 1 }

  function Incr(s: State, key: string, clock: real, at: real): State {
    var b := Name(key, Minute(clock));
    var n := Next(s, b, at);
    State(at, s.buckets[b := Bucket(n, if Live(s, b, at) then s.buckets[b].expires else None)],
          if n == 1 then s.owed + {b} else s.owed,
          s.log + [Entry(b, clock, n <= RATE_LIMIT_PER_MIN)])
  }

  function Expire(s: State, b: Name, at: real): State {
    s.(now := at, owed := s.owed - {b},
       buckets := if Live(s, b, at) then s.buckets[b := s.buckets[b].(expires := Some(at + KEPT))] else s.buckets)
  }

  /** The two commands of `guard`, by any number of gateways: an EXPIRE may come late, or never after a crash. */
  datatype Event = Request(key: string, clock: real, at: real) | Settle(name: Name, at: real)

  predicate Possible(s: State, e: Event) {
    && s.now <= e.at
    && (e.Request? ==> e.clock <= e.at <= e.clock + SLACK)
    && (e.Settle? ==> e.name in s.owed)
  }

  function Step(s: State, e: Event): State {
    match e
    case Request(key, clock, at) => Incr(s, key, clock, at)
    case Settle(name, at) => Expire(s, name, at)
  }

  function After(s: State, run: seq<Event>): State { Runs.After(Step, s, run) }

  predicate Legal(s: State, run: seq<Event>) { Runs.Legal(Step, Possible, s, run) }

  // ---------------------------------------------------------------- counting

  function Requests(log: seq<Entry>, b: Name): nat {
    if log == [] then 0 else Requests(log[..|log| - 1], b) + if log[|log| - 1].name == b then 1 else 0
  }

  function Admitted(log: seq<Entry>, b: Name): nat {
    if log == [] then 0
    else Admitted(log[..|log| - 1], b) + if log[|log| - 1].name == b && log[|log| - 1].admitted then 1 else 0
  }

  /** Requests of a key let through with clock readings in `[from, to)`. */
  function Within(log: seq<Entry>, key: string, from: real, to: real): nat {
    if log == [] then 0
    else Within(log[..|log| - 1], key, from, to) + if Counts(log[|log| - 1], key, from, to) then 1 else 0
  }

  predicate Counts(e: Entry, key: string, from: real, to: real) {
    e.name.key == key && e.admitted && from <= e.clock < to
  }

  lemma Append(log: seq<Entry>, e: Entry, b: Name)
    ensures Requests(log + [e], b) == Requests(log, b) + if e.name == b then 1 else 0
    ensures Admitted(log + [e], b) == Admitted(log, b) + if e.name == b && e.admitted then 1 else 0
  {
    assert (log + [e])[..|log|] == log;
  }

  // ---------------------------------------------------------------- a bucket is never reset while in use

  function Start(minute: int): real { minute as real * MINUTE }

  lemma MinuteBounds(clock: real)
    ensures Start(Minute(clock)) <= clock < Start(Minute(clock) + 1)
    ensures forall m: int :: Start(m) <= clock < Start(m + 1) ==> m == Minute(clock)
  {
    var q := clock / MINUTE;
    assert q * MINUTE == clock;
  }

  function Min(a: nat, b: nat): nat { if a <= b then a else b }

  ghost predicate BucketOk(s: State, b: Name) {
    && (b in s.buckets ==> s.buckets[b].count == Requests(s.log, b) >= 1 && Start(b.minute) <= s.now)
    && (b in s.buckets && s.buckets[b].expires.Some? ==> s.buckets[b].expires.value >= Start(b.minute) + KEPT)
    && (b !in s.buckets ==> Requests(s.log, b) == 0)
    && (b in s.owed ==> b in s.buckets && s.buckets[b].expires.None?)
    && Admitted(s.log, b) == Min(Requests(s.log, b), RATE_LIMIT_PER_MIN)
  }

  ghost predicate NamesOk(s: State) {
    forall i :: 0 <= i < |s.log| ==> s.log[i].name.minute == Minute(s.log[i].clock)
  }

  ghost predicate Inv(s: State) { NamesOk(s) && forall b :: BucketOk(s, b) }

  /** A timely request finds its bucket as the requests before it left it. */
  lemma NeverReset(s: State, e: Event)
    requires Possible(s, e) && e.Request? && BucketOk(s, Name(e.key, Minute(e.clock)))
    ensures Next(s, Name(e.key, Minute(e.clock)), e.at) == Requests(s.log, Name(e.key, Minute(e.clock))) + 1
  {
    MinuteBounds(e.clock);
    assert Start(Minute(e.clock) + 1) == Start(Minute(e.clock)) + MINUTE;
  }

  /** With any longer lag it may not: the bucket of an earlier request is gone 90 seconds after it. */
  lemma LongLagResets(key: string, lag: real)
    requires SLACK < lag <= KEPT
    ensures var b := Name(key, 0);
            var s := Expire(Incr(START, key, 0.0, 0.0), b, 0.0);
            Minute(KEPT - lag) == 0 && Requests(s.log, b) == 1 && Next(s, b, KEPT) == 1
  {
    Append([], Entry(Name(key, 0), 0.0, true), Name(key, 0));
  }

  lemma BucketStep(s: State, e: Event, b: Name)
    requires Possible(s, e) && Inv(s)
    ensures BucketOk(Step(s, e), b)
  {
    assert BucketOk(s, b);
    match e
    case Request(key, clock, at) =>
      var name := Name(key, Minute(clock));
      assert BucketOk(s, name);
      NeverReset(s, e);
      MinuteBounds(clock);
      Append(s.log, Entry(name, clock, Next(s, name, at) <= RATE_LIMIT_PER_MIN), b);
    case Settle(name, at) =>
  }

  lemma {:induction false} InvRuns(s: State, run: seq<Event>)
    requires Inv(s) && Legal(s, run)
    ensures Inv(After(s, run))
    decreases |run|
  {
    if run != [] {
      forall b ensures BucketOk(Step(s, run[0]), b) { BucketStep(s, run[0], b); }
      InvRuns(Step(s, run[0]), run[1..]);
    }
  }

  /** Per key and minute exactly the first 600 requests are let through. */
  lemma ExactlyTheLimit(run: seq<Event>, b: Name)
    requires Legal(START, run)
    ensures var log := After(START, run).log; Admitted(log, b) == Min(Requests(log, b), 600)
  {
    InvRuns(START, run);
    assert BucketOk(After(START, run), b);
  }

  // ---------------------------------------------------------------- guard

  /** The commands of one call: INCR, and EXPIRE by the call that gets to one, unless a crash comes first. */
  function Commands(s: State, key: string, clock: real, at: real, settledAt: Option<real>): seq<Event> {
    var b := Name(key, Minute(clock));
    [Request(key, clock, at)] + if Next(s, b, at) == 1 && settledAt.Some? then [Settle(b, settledAt.value)] else []
  }

  class Guard {
    const keys: seq<string>
    var buckets: map<Name, Bucket>
    ghost var now: real
    ghost var owed: set<Name>
    ghost var log: seq<Entry>

    ghost function Abstract(): State reads this { State(now, buckets, owed, log) }

    ghost predicate Valid() reads this { Inv(Abstract()) }

    constructor (keys: seq<string>)
      ensures this.keys == keys && Abstract() == START && Valid()
    {
      this.keys := keys;
      buckets, now, owed, log := map[], 0.0, {}, [];
    }

    /** `guard`: 200 stands for being let through; `settledAt` is when its EXPIRE is executed, None if a crash comes
        first. A timely call counts all the requests of its bucket before it. */
    method Admit(apiKey: Option<string>, clock: real, at: real, settledAt: Option<real>) returns (status: int)
      modifies this
      ensures status == 401 <==> apiKey.None? || apiKey.value !in keys
      ensures status == 401 ==> Abstract() == old(Abstract())
      ensures status != 401 ==>
                var b := Name(apiKey.value, Minute(clock));
                && Abstract() == After(old(Abstract()), Commands(old(Abstract()), apiKey.value, clock, at, settledAt))
                && log == old(log) + [Entry(b, clock, status == 200)]
                && (status == 200 || status == 429)
      ensures old(Valid()) && Timely(old(now), clock, at, settledAt) ==>
                && Valid()
                && (status != 401 ==>
                      && Legal(old(Abstract()), Commands(old(Abstract()), apiKey.value, clock, at, settledAt))
                      && (status == 200 <==>
                            Requests(old(log), Name(apiKey.value, Minute(clock))) < RATE_LIMIT_PER_MIN))
    {
      if apiKey.None? || apiKey.value !in keys { return 401; }
      var b := Name(apiKey.value, Minute(clock));
      ghost var was := Abstract();
      CommandsRun(was, apiKey.value, clock, at, settledAt);
      if Inv(was) && Timely(now, clock, at, settledAt) { CommandsKeep(was, apiKey.value, clock, at, settledAt); }
      var live := b in buckets && (buckets[b].expires.None? || at < buckets[b].expires.value);
      var n := if live then buckets[b].count + 1 else 1;
      buckets := buckets[b := Bucket(n, if live then buckets[b].expires else None)];
      now, owed, log := at, if n == 1 then owed + {b} else owed, log + [Entry(b, clock, n <= RATE_LIMIT_PER_MIN)];
      assert Abstract() == Incr(was, apiKey.value, clock, at);
      if n == 1 && settledAt.Some? {
        if buckets[b].expires.None? || settledAt.value < buckets[b].expires.value {
          buckets := buckets[b := Bucket(n, Some(settledAt.value + KEPT))];
        }
        now, owed := settledAt.value, owed - {b};
      }
      assert Abstract() == After(was, Commands(was, apiKey.value, clock, at, settledAt));
      if n > RATE_LIMIT_PER_MIN { return 429; }
      return 200;
    }
  }

  /** The commands come in order, and INCR within the slack of the clock reading. */
  predicate Timely(now: real, clock: real, at: real, settledAt: Option<real>) {
    now <= at && clock <= at <= clock + SLACK && (settledAt.Some? ==> at <= settledAt.value)
  }

  lemma CommandsRun(s: State, key: string, clock: real, at: real, settledAt: Option<real>)
    ensures var run := Commands(s, key, clock, at, settledAt);
            After(s, run) ==
              if |run| == 2 then Expire(Incr(s, key, clock, at), Name(key, Minute(clock)), settledAt.value)
              else Incr(s, key, clock, at)
  {
    var run, b, s1 := Commands(s, key, clock, at, settledAt), Name(key, Minute(clock)), Incr(s, key, clock, at);
    if |run| == 2 {
      assert run[1..] == [Settle(b, settledAt.value)] && run[1..][1..] == [];
      assert After(s, run) == After(s1, run[1..]) == After(Expire(s1, b, settledAt.value), []);
    } else {
      assert run[1..] == [];
      assert After(s, run) == After(s1, []);
    }
  }

  lemma CommandsKeep(s: State, key: string, clock: real, at: real, settledAt: Option<real>)
    requires Inv(s) && Timely(s.now, clock, at, settledAt)
    ensures var run := Commands(s, key, clock, at, settledAt); Legal(s, run) && Inv(After(s, run))
    ensures Next(s, Name(key, Minute(clock)), at) == Requests(s.log, Name(key, Minute(clock))) + 1
  {
    var run, b := Commands(s, key, clock, at, settledAt), Name(key, Minute(clock));
    assert BucketOk(s, b);
    NeverReset(s, run[0]);
    CommandsRun(s, key, clock, at, settledAt);
    assert run[1..] == if |run| == 2 then [Settle(b, settledAt.value)] else [];
    assert |run| == 2 ==> run[1..][1..] == [];
    InvRuns(s, run);
  }

  // ---------------------------------------------------------------- intervals of clock readings

  lemma {:induction false} WithinSplits(log: seq<Entry>, key: string, from: real, mid: real, to: real)
    requires from <= mid <= to
    ensures Within(log, key, from, to) == Within(log, key, from, mid) + Within(log, key, mid, to)
  {
    if log != [] { WithinSplits(log[..|log| - 1], key, from, mid, to); }
  }

  /** The minutes are the buckets. */
  lemma {:induction false} WithinMinute(log: seq<Entry>, key: string, m: int)
    requires forall i :: 0 <= i < |log| ==> log[i].name.minute == Minute(log[i].clock)
    ensures Within(log, key, Start(m), Start(m + 1)) == Admitted(log, Name(key, m))
  {
    if log != [] {
      WithinMinute(log[..|log| - 1], key, m);
      MinuteBounds(log[|log| - 1].clock);
    }
  }

  lemma {:induction false} WholeMinutes(s: State, key: string, m: int, k: nat)
    requires Inv(s)
    ensures Start(m) <= Start(m + k)
    ensures Within(s.log, key, Start(m), Start(m + k)) <= RATE_LIMIT_PER_MIN * k
    decreases k
  {
    if k == 0 {
      EmptyInterval(s.log, key, Start(m));
    } else {
      WholeMinutes(s, key, m, k - 1);
      WithinMinute(s.log, key, m + k - 1);
      assert BucketOk(s, Name(key, m + k - 1));
      WithinSplits(s.log, key, Start(m), Start(m + k - 1), Start(m + k));
    }
  }

  lemma {:induction false} EmptyInterval(log: seq<Entry>, key: string, a: real)
    ensures Within(log, key, a, a) == 0
  {
    if log != [] { EmptyInterval(log[..|log| - 1], key, a); }
  }

  /** Any half-open interval of `k` minutes by the clock readings lets at most 600(k + 1) requests through. */
  lemma AnyInterval(run: seq<Event>, key: string, from: real, k: nat)
    requires Legal(START, run)
    ensures Within(After(START, run).log, key, from, from + Start(k)) <= 600 * (k + 1)
  {
    InvRuns(START, run);
    var s, m := After(START, run), Minute(from);
    MinuteBounds(from);
    WholeMinutes(s, key, m, k + 1);
    assert Start(m + (k + 1)) == Start(m + 1) + Start(k);
    WithinSplits(s.log, key, Start(m), from, Start(m + (k + 1)));
    WithinSplits(s.log, key, from, from + Start(k), Start(m + (k + 1)));
  }

  // ---------------------------------------------------------------- it is not a sliding window

  function Burst(key: string, clock: real, n: nat): seq<Event> {
    if n == 0 then [] else [Request(key, clock, clock)] + Burst(key, clock, n - 1)
  }

  lemma {:induction false} BurstRequests(s: State, key: string, clock: real, n: nat, b: Name)
    requires s.now <= clock
    ensures Legal(s, Burst(key, clock, n)) && After(s, Burst(key, clock, n)).now <= clock
    ensures Requests(After(s, Burst(key, clock, n)).log, b) ==
            Requests(s.log, b) + if b == Name(key, Minute(clock)) then n else 0
    decreases n
  {
    if n > 0 {
      var s' := Incr(s, key, clock, clock);
      Append(s.log, s'.log[|s.log|], b);
      BurstRequests(s', key, clock, n - 1, b);
      assert Burst(key, clock, n)[1..] == Burst(key, clock, n - 1);
    }
  }

  lemma {:induction false} BurstClocks(s: State, key: string, clock: real, n: nat, from: real, to: real, m: int)
    requires from <= clock < to
    ensures var log := After(s, Burst(key, clock, n)).log;
            Within(log, key, from, to) - Within(s.log, key, from, to) >=
            Admitted(log, Name(key, m)) - Admitted(s.log, Name(key, m))
    decreases n
  {
    if n > 0 {
      var s' := Incr(s, key, clock, clock);
      var e := s'.log[|s.log|];
      Append(s.log, e, Name(key, m));
      assert (s.log + [e])[..|s.log|] == s.log;
      BurstClocks(s', key, clock, n - 1, from, to, m);
      assert Burst(key, clock, n)[1..] == Burst(key, clock, n - 1);
    }
  }

  /** The clock readings of `k + 1` bursts: `from` and the starts of the `k` minutes after it. */
  function Reading(from: real, k: nat): real { if k == 0 then from else Start(Minute(from) + k) }

  function Bursts(key: string, from: real, k: nat): seq<Event> {
    (if k == 0 then [] else Bursts(key, from, k - 1)) + Burst(key, Reading(from, k), RATE_LIMIT_PER_MIN)
  }

  /** A full burst into an unused bucket is let through. */
  lemma FullBurst(s: State, key: string, clock: real, from: real, to: real)
    requires Inv(s) && s.now <= clock && from <= clock < to && Requests(s.log, Name(key, Minute(clock))) == 0
    ensures var e := After(s, Burst(key, clock, RATE_LIMIT_PER_MIN));
            && Legal(s, Burst(key, clock, RATE_LIMIT_PER_MIN)) && e.now <= clock && Inv(e)
            && Within(e.log, key, from, to) >= Within(s.log, key, from, to) + RATE_LIMIT_PER_MIN
            && forall m: int | m != Minute(clock) :: Requests(e.log, Name(key, m)) == Requests(s.log, Name(key, m))
  {
    var burst, b := Burst(key, clock, RATE_LIMIT_PER_MIN), Name(key, Minute(clock));
    BurstRequests(s, key, clock, RATE_LIMIT_PER_MIN, b);
    InvRuns(s, burst);
    assert BucketOk(s, b) && BucketOk(After(s, burst), b);
    BurstClocks(s, key, clock, RATE_LIMIT_PER_MIN, from, to, Minute(clock));
    forall m: int | m != Minute(clock)
      ensures Requests(After(s, burst).log, Name(key, m)) == Requests(s.log, Name(key, m))
    {
      BurstRequests(s, key, clock, RATE_LIMIT_PER_MIN, Name(key, m));
    }
  }

  lemma {:induction false} BurstsPass(key: string, from: real, k: nat, to: real)
    requires 0.0 <= from && Reading(from, k) < to
    ensures var e := After(START, Bursts(key, from, k));
            && Legal(START, Bursts(key, from, k)) && e.now <= Reading(from, k) && Inv(e)
            && Within(e.log, key, from, to) >= RATE_LIMIT_PER_MIN * (k + 1)
            && forall m: int | m > Minute(from) + k :: Requests(e.log, Name(key, m)) == 0
  {
    MinuteBounds(from);
    if k == 0 {
      assert Bursts(key, from, 0) == Burst(key, from, RATE_LIMIT_PER_MIN);
      FullBurst(START, key, from, from, to);
    } else {
      var clock := Reading(from, k);
      MinuteBounds(clock);
      assert Start(Minute(from) + k) < Start(Minute(from) + k + 1) && Reading(from, k - 1) < clock && from <= clock;
      assert Minute(clock) == Minute(from) + k;
      BurstsPass(key, from, k - 1, to);
      FullBurst(After(START, Bursts(key, from, k - 1)), key, clock, from, to);
      Runs.Compose(Step, Possible, START, Bursts(key, from, k - 1), Burst(key, clock, RATE_LIMIT_PER_MIN));
    }
  }

  /** Every run keeps an interval of `k` minutes to 600 requests a minute, as a sliding window
      would, exactly when the interval starts on the minute. */
  lemma SlidingExactly(key: string, from: real, k: nat)
    requires 0.0 <= from && k >= 1
    ensures from == Start(Minute(from)) <==>
            forall run | Legal(START, run) ::
              Within(After(START, run).log, key, from, from + Start(k)) <= 600 * k
  {
    var m := Minute(from);
    MinuteBounds(from);
    assert Start(m + k) == Start(m) + Start(k);
    if from == Start(m) {
      forall run | Legal(START, run)
        ensures Within(After(START, run).log, key, from, from + Start(k)) <= RATE_LIMIT_PER_MIN * k
      {
        InvRuns(START, run);
        WholeMinutes(After(START, run), key, m, k);
      }
    } else {
      BurstsPass(key, from, k, from + Start(k));
      assert Legal(START, Bursts(key, from, k));
    }
  }

  /** Twice the limit within two seconds, on either side of a minute's end. */
  lemma TwiceTheLimit(key: string)
    ensures Legal(START, Bursts(key, 59.0, 1))
            && Within(After(START, Bursts(key, 59.0, 1)).log, key, 59.0, 61.0) == 1200
  {
    assert Minute(59.0) == 0;
    BurstsPass(key, 59.0, 1, 61.0);
    AnyInterval(Bursts(key, 59.0, 1), key, 59.0, 1);
    WithinSplits(After(START, Bursts(key, 59.0, 1)).log, key, 59.0, 61.0, 59.0 + Start(1));
  }
}
