/** services/enrichment, `velocity`: trimmed, expiring sorted sets against the naive
    counters over the whole history of a card. Times are in seconds. */
module Velocity {
  import opened Common
  import opened Rounding

  const DAY: real := 86400.0
  const HOUR: real := 3600.0
  const MINUTE: real := 60.0

  // ---------------------------------------------------------------- members

  /** The sorted-set member of a transaction; the amount is Python's text of a Decimal. */
  function Member(id: string, amount: string): string { id + ":" + amount }

  /** `m.rsplit(":", 1)[1]`; without a colon the index is out of range. */
  function LastField(m: string): Option<string> {
    if m == [] then None
    else match LastField(m[1..])
      case Some(f) => Some(f)
      case None => if m[0] == ':' then Some(m[1..]) else None
  }

  lemma {:induction false} NoField(m: string)
    requires ':' !in m
    ensures LastField(m).None?
  {
    if m != [] { NoField(m[1..]); }
  }

  /** The amount is read back whatever the transaction id contains, because the amount has no colon. */
  lemma {:induction false} AmountReadBack(id: string, amount: string)
    requires ':' !in amount
    ensures LastField(Member(id, amount)) == Some(amount)
  {
    var m := Member(id, amount);
    if id == [] {
      assert m[1..] == amount;
      NoField(amount);
    } else {
      AmountReadBack(id[1..], amount);
      assert m[1..] == Member(id[1..], amount);
    }
  }

  /** Distinct transactions never share a member. */
  lemma MemberInjective(id: string, amount: string, id': string, amount': string)
    requires ':' !in amount && ':' !in amount' && Member(id, amount) == Member(id', amount')
    ensures id == id' && amount == amount'
  {
    AmountReadBack(id, amount);
    AmountReadBack(id', amount');
    assert id == Member(id, amount)[..|Member(id, amount)| - |amount| - 1];
    assert id' == Member(id', amount')[..|Member(id', amount')| - |amount'| - 1];
  }

  // ---------------------------------------------------------------- totals

  /** Python's `float(text)`; None stands for ValueError. */
  type Parse = string -> Option<real>

  /** What a member adds to a total: nothing when it cannot be read. */
  function Amount(parse: Parse, m: string): real {
    match LastField(m)
    case None => 0.0
    case Some(f) => if parse(f).Some? then parse(f).value else 0.0
  }

  /** A member adds the amount it was made with, if that can be parsed. */
  lemma AmountParsed(parse: Parse, id: string, amount: string)
    requires ':' !in amount
    ensures parse(amount).Some? ==> Amount(parse, Member(id, amount)) == parse(amount).value
    ensures parse(amount).None? ==> Amount(parse, Member(id, amount)) == 0.0
  {
    AmountReadBack(id, amount);
  }

  ghost function Pick<T>(s: set<T>): T
    requires s != {}
  {
    var x :| x in s; x
  }

  /** The sum of the amounts of a set of members. */
  ghost function Sum(parse: Parse, s: set<string>): real {
    if s == {} then 0.0 else var m := Pick(s); Amount(parse, m) + Sum(parse, s - {m})
  }

  lemma {:induction false} SumSplit(parse: Parse, s: set<string>, m: string)
    requires m in s
    ensures Sum(parse, s) == Amount(parse, m) + Sum(parse, s - {m})
  {
    var p := Pick(s);
    if p != m {
      SumSplit(parse, s - {p}, m);
      SumSplit(parse, s - {m}, p);
      assert s - {p} - {m} == s - {m} - {p};
    }
  }

  ghost predicate Lists(members: seq<string>, s: set<string>) {
    && (forall m :: m in members <==> m in s)
    && (forall i, j :: 0 <= i < j < |members| ==> members[i] != members[j])
  }

  method Total(parse: Parse, members: seq<string>, ghost s: set<string>) returns (out: real)
    requires Lists(members, s)
    ensures out == Sum(parse, s)
  {
    out := 0.0;
    ghost var done: set<string> := {};
    for i := 0 to |members|
      invariant done == set m | m in members[..i]
      invariant out == Sum(parse, done)
    {
      ghost var m := members[i];
      assert members[..i + 1] == members[..i] + [m];
      assert m !in done;
      SumSplit(parse, done + {m}, m);
      assert done + {m} - {m} == done;
      done := done + {m};
      var field := LastField(members[i]);
      if field.None? { continue; }
      var amount := parse(field.value);
      if amount.None? { continue; }
      out := out + amount.value;
    }
    assert members[..|members|] == members;
    assert done == s;
  }

  // ---------------------------------------------------------------- the sorted set

  /** `vel:z:{card}`: the score of each member, and when the key expires. */
  datatype ZSet = ZSet(scores: map<string, real>, expiry: Option<real>)

  function Range(scores: map<string, real>, lo: real, hi: real): set<string> {
    set m | m in scores && lo <= scores[m] <= hi
  }

  function Live(z: ZSet, now: real): map<string, real> {
    if z.expiry.Some? && z.expiry.value <= now then map[] else z.scores
  }

  /** `ZREMRANGEBYSCORE key 0 ts-DAY` */
  function Trim(scores: map<string, real>, ts: real): map<string, real> {
    scores - Range(scores, 0.0, ts - DAY)
  }

  /** ZADD, ZREMRANGEBYSCORE and EXPIRE, executed when the server clock shows `now`. */
  function Record(z: ZSet, m: string, ts: real, now: real): ZSet {
    ZSet(Trim(Live(z, now)[m := ts], ts), Some(now + DAY))
  }

  // ---------------------------------------------------------------- distinct counters

  /** A cardinality key, counted exactly, that lives for a day after its last update. */
  datatype Distinct = Distinct(seen: set<string>, expiry: Option<real>)

  function Touch(d: Distinct, v: string, now: real): Distinct {
    Distinct((if d.expiry.Some? && d.expiry.value <= now then {} else d.seen) + {v}, Some(now + DAY))
  }

  /** The three dimensions that are counted. */
  datatype Field = Merchant | Country | Device

  // ---------------------------------------------------------------- calls

  datatype Call = Call(id: string, amount: string, merchant: string, country: string, device: string, ts: real,
                       now: real)

  datatype Keys = Keys(z: ZSet, merchants: Distinct, countries: Distinct, devices: Distinct)

  const EMPTY: Keys := Keys(ZSet(map[], None), Distinct({}, None), Distinct({}, None), Distinct({}, None))

  function Update(k: Keys, c: Call): Keys {
    Keys(Record(k.z, Member(c.id, c.amount), c.ts, c.now),
         Touch(k.merchants, c.merchant, c.now), Touch(k.countries, c.country, c.now), Touch(k.devices, c.device, c.now))
  }

  /** The keys after a sequence of calls on one card. */
  function After(calls: seq<Call>): Keys {
    if calls == [] then EMPTY else Update(After(calls[..|calls| - 1]), calls[|calls| - 1])
  }

  lemma AfterMore(calls: seq<Call>, c: Call)
    ensures After(calls + [c]) == Update(After(calls), c)
  {
    assert (calls + [c])[..|calls|] == calls;
  }

  datatype Counters = Counters(count1m: nat, count1h: nat, count24h: nat, sum1h: real, sum24h: real,
                               merchants: nat, countries: nat, devices: nat)

  function ValueOf(c: Call, f: Field): string {
    match f case Merchant => c.merchant case Country => c.country case Device => c.device
  }

  function KeyOf(k: Keys, f: Field): Distinct {
    match f case Merchant => k.merchants case Country => k.countries case Device => k.devices
  }

  function CountOf(r: Counters, f: Field): nat {
    match f case Merchant => r.merchants case Country => r.countries case Device => r.devices
  }

  /** The counters read off the keys of a card for an event at `ts`. */
  ghost function Answer(parse: Parse, k: Keys, ts: real): Counters {
    Counters(|Range(k.z.scores, ts - MINUTE, ts)|, |Range(k.z.scores, ts - HOUR, ts)|,
             |Range(k.z.scores, ts - DAY, ts)|,
             Round2(Sum(parse, Range(k.z.scores, ts - HOUR, ts))), Round2(Sum(parse, Range(k.z.scores, ts - DAY, ts))),
             |k.merchants.seen|, |k.countries.seen|, |k.devices.seen|)
  }

  /** The Redis keys of one card. */
  class Card {
    var keys: Keys
    ghost var calls: seq<Call>

    ghost predicate Valid() reads this { keys == After(calls) }

    constructor ()
      ensures Valid() && calls == []
    {
      keys := EMPTY;
      calls := [];
    }

    method Velocity(parse: Parse, c: Call) returns (r: Counters)
      requires Valid()
      modifies this
      ensures Valid() && calls == old(calls) + [c]
      ensures keys == Update(old(keys), c)
      ensures r == Answer(parse, keys, c.ts)
      ensures forall lead | Clocked(calls, lead) && c.now + lead - c.ts < 82800.0 ::
                ShortExact(parse, r, History(calls), c.ts)
      ensures forall lead | Clocked(calls, lead) && c.now + lead == c.ts >= DAY ::
                DayExact(parse, r, History(calls), c.ts)
    {
      AfterMore(calls, c);
      keys := Update(keys, c);
      calls := calls + [c];
      r := ReadCounters(parse, keys, c.ts);
      forall lead | Clocked(calls, lead) && c.now + lead - c.ts < 82800.0
        ensures ShortExact(parse, r, History(calls), c.ts)
      {
        ShortCountersExact(parse, calls, lead);
      }
      forall lead | Clocked(calls, lead) && c.now + lead == c.ts >= DAY
        ensures DayExact(parse, r, History(calls), c.ts)
      {
        OnTimeExact(parse, calls, lead);
      }
    }
  }

  /** `ZRANGEBYSCORE`: the members in range, in some order. */
  method Members(scores: map<string, real>, lo: real, hi: real) returns (members: seq<string>)
    ensures Lists(members, Range(scores, lo, hi))
  {
    var left := Range(scores, lo, hi);
    members := [];
    while left != {}
      invariant forall m :: m in Range(scores, lo, hi) <==> m in left || m in members
      invariant forall m :: m in members ==> m !in left
      invariant forall i, j :: 0 <= i < j < |members| ==> members[i] != members[j]
      decreases left
    {
      var m :| m in left;
      left := left - {m};
      members := members + [m];
    }
  }

  /** The read half of the pipeline, and the totals. */
  method ReadCounters(parse: Parse, k: Keys, ts: real) returns (r: Counters)
    ensures r == Answer(parse, k, ts)
  {
    var m1 := Members(k.z.scores, ts - MINUTE, ts);
    var m1h := Members(k.z.scores, ts - HOUR, ts);
    var m24 := Members(k.z.scores, ts - DAY, ts);
    ListsCount(m1, Range(k.z.scores, ts - MINUTE, ts));
    ListsCount(m1h, Range(k.z.scores, ts - HOUR, ts));
    ListsCount(m24, Range(k.z.scores, ts - DAY, ts));
    var sum1h := Total(parse, m1h, Range(k.z.scores, ts - HOUR, ts));
    var sum24h := Total(parse, m24, Range(k.z.scores, ts - DAY, ts));
    r := Counters(|m1|, |m1h|, |m24|, Round2(sum1h), Round2(sum24h), |k.merchants.seen|, |k.countries.seen|,
                  |k.devices.seen|);
  }

  lemma {:induction false} ListsCount(members: seq<string>, s: set<string>)
    requires Lists(members, s)
    ensures |members| == |s|
  {
    if members == [] {
      assert s == {};
    } else {
      var rest := members[1..];
      assert members == [members[0]] + rest;
      ListsCount(rest, s - {members[0]});
    }
  }

  // ---------------------------------------------------------------- the naive history

  /** The last timestamp given for each transaction, over all calls ever made. */
  function History(calls: seq<Call>): map<string, real> {
    if calls == [] then map[]
    else var c := calls[|calls| - 1]; History(calls[..|calls| - 1])[Member(c.id, c.amount) := c.ts]
  }

  /** The server clock never runs backwards. */
  ghost predicate Ordered(calls: seq<Call>) {
    forall i, j :: 0 <= i < j < |calls| ==> calls[i].now <= calls[j].now
  }

  /** Moreover no event is dated more than `lead` seconds ahead of it. */
  ghost predicate Clocked(calls: seq<Call>, lead: real) {
    lead >= 0.0 && Ordered(calls) && forall i :: 0 <= i < |calls| ==> calls[i].ts <= calls[i].now + lead
  }

  /** The set holds nothing but history, and all of it that is younger than a day at `lead` past the server clock. */
  ghost predicate Sandwiched(z: ZSet, hist: map<string, real>, now: real, lead: real) {
    && z.expiry == Some(now + DAY)
    && (forall m :: m in z.scores ==> m in hist && z.scores[m] == hist[m])
    && (forall m :: m in hist && hist[m] > now + lead - DAY ==> m in z.scores)
    && (forall m :: m in hist ==> hist[m] <= now + lead)
  }

  lemma {:induction false} SetBetween(calls: seq<Call>, lead: real)
    requires calls != [] && Clocked(calls, lead)
    ensures Sandwiched(After(calls).z, History(calls), calls[|calls| - 1].now, lead)
  {
    var n := |calls| - 1;
    var front := calls[..n];
    if n > 0 {
      assert front[|front| - 1] == calls[n - 1];
      SetBetween(front, lead);
      RecordKeeps(After(front).z, History(front), calls[n - 1].now, calls[n], lead);
    } else {
      assert front == [];
    }
  }

  /** What stays of the set at the next call: what that call does not trim, unless a day has gone by. */
  lemma NextCallKeeps(calls: seq<Call>, c: Call, m: string)
    requires calls != []
    ensures var before, after := After(calls).z.scores, After(calls + [c]).z.scores;
            m != Member(c.id, c.amount) ==>
              (m in after <==> m in before && c.now < Last(calls).now + DAY && !(0.0 <= before[m] <= c.ts - DAY))
  {
    AfterMore(calls, c);
    assert After(calls).z.expiry == Some(Last(calls).now + DAY);
  }

  lemma RecordKeeps(z: ZSet, hist: map<string, real>, now: real, c: Call, lead: real)
    requires Sandwiched(z, hist, now, lead) && now <= c.now && c.ts <= c.now + lead && lead >= 0.0
    ensures var m := Member(c.id, c.amount); Sandwiched(Record(z, m, c.ts, c.now), hist[m := c.ts], c.now, lead)
  {
  }

  lemma RangeExact(z: ZSet, hist: map<string, real>, now: real, ts: real, width: real, lead: real)
    requires Sandwiched(z, hist, now, lead) && now + lead - ts < DAY - width
    ensures Range(z.scores, ts - width, ts) == Range(hist, ts - width, ts)
  {
  }

  /** The short windows of `r` are those of the naive history. */
  ghost predicate ShortExact(parse: Parse, r: Counters, hist: map<string, real>, ts: real) {
    && r.count1m == |Range(hist, ts - MINUTE, ts)|
    && r.count1h == |Range(hist, ts - HOUR, ts)|
    && r.sum1h == Round2(Sum(parse, Range(hist, ts - HOUR, ts)))
  }

  ghost predicate DayExact(parse: Parse, r: Counters, hist: map<string, real>, ts: real) {
    && r.count24h == |DayWindow(hist, ts)|
    && r.sum24h == Round2(Sum(parse, DayWindow(hist, ts)))
  }

  lemma ShortAnswer(parse: Parse, k: Keys, hist: map<string, real>, ts: real, now: real, lead: real)
    requires Sandwiched(k.z, hist, now, lead) && now + lead - ts < 82800.0
    ensures ShortExact(parse, Answer(parse, k, ts), hist, ts)
  {
    RangeExact(k.z, hist, now, ts, MINUTE, lead);
    RangeExact(k.z, hist, now, ts, HOUR, lead);
  }

  function Last(calls: seq<Call>): Call
    requires calls != []
  {
    calls[|calls| - 1]
  }

  /** The one-minute and one-hour counters are the naive ones for every event less than 23 hours
      behind the furthest that any event may be ahead. */
  lemma ShortCountersExact(parse: Parse, calls: seq<Call>, lead: real)
    requires calls != [] && Clocked(calls, lead) && Last(calls).now + lead - Last(calls).ts < 82800.0
    ensures ShortExact(parse, Answer(parse, After(calls), Last(calls).ts), History(calls), Last(calls).ts)
  {
    var k, hist, c := After(calls), History(calls), Last(calls);
    assert Sandwiched(k.z, hist, c.now, lead) by { SetBetween(calls, lead); }
    ShortAnswer(parse, k, hist, c.ts, c.now, lead);
  }

  /** The true 24-hour window: open at its start, but closed there when the start lies before 1970,
      since the trim spares negative scores. */
  function DayWindow(hist: map<string, real>, ts: real): set<string> {
    set m | m in hist && hist[m] <= ts && (hist[m] > ts - DAY || hist[m] == ts - DAY < 0.0)
  }

  ghost predicate TrimmedAt(scores: map<string, real>, ts: real) {
    forall m :: m in scores ==> !(0.0 <= scores[m] <= ts - DAY)
  }

  lemma LastTrims(calls: seq<Call>)
    requires calls != []
    ensures TrimmedAt(After(calls).z.scores, calls[|calls| - 1].ts)
  {
  }

  lemma DayBetween(z: ZSet, hist: map<string, real>, ts: real, now: real, lead: real)
    requires Sandwiched(z, hist, now, lead) && TrimmedAt(z.scores, ts)
    ensures var got := Range(z.scores, ts - DAY, ts);
            && got <= DayWindow(hist, ts)
            && (forall m :: m in DayWindow(hist, ts) - got ==> hist[m] <= now + lead - DAY)
  {
  }

  /** `got` is part of the true day; what it misses is a day old at `latest`. */
  ghost predicate DayCovered(got: set<string>, hist: map<string, real>, ts: real, latest: real) {
    && got <= DayWindow(hist, ts)
    && |got| <= |DayWindow(hist, ts)|
    && forall m :: m in DayWindow(hist, ts) - got ==> hist[m] <= latest - DAY
  }

  /** A late event's 24-hour window never gains an entry, and loses only entries a day old at `lead`
      past the server clock. */
  lemma DayWindowLate(calls: seq<Call>, lead: real)
    requires calls != [] && Clocked(calls, lead)
    ensures var c := Last(calls);
            DayCovered(Range(After(calls).z.scores, c.ts - DAY, c.ts), History(calls), c.ts, c.now + lead)
  {
    var z, hist, c := After(calls).z, History(calls), Last(calls);
    assert Sandwiched(z, hist, c.now, lead) by { SetBetween(calls, lead); }
    assert TrimmedAt(z.scores, c.ts) by { LastTrims(calls); }
    DayCover(z, hist, c.ts, c.now, lead);
  }

  lemma DayCover(z: ZSet, hist: map<string, real>, ts: real, now: real, lead: real)
    requires Sandwiched(z, hist, now, lead) && TrimmedAt(z.scores, ts)
    ensures DayCovered(Range(z.scores, ts - DAY, ts), hist, ts, now + lead)
  {
    DayBetween(z, hist, ts, now, lead);
    SubsetSize(Range(z.scores, ts - DAY, ts), DayWindow(hist, ts));
  }

  lemma SubsetSize(a: set<string>, b: set<string>)
    requires a <= b
    ensures |a| <= |b|
  {
    assert b == a + (b - a);
  }

  /** An event that no earlier one can be ahead of, with `lead` zero one on time, gets every counter of the naive
      history exactly; from 2 January 1970 on, its day is the half-open interval that ends with it. */
  lemma OnTimeExact(parse: Parse, calls: seq<Call>, lead: real)
    requires calls != [] && Clocked(calls, lead) && Last(calls).now + lead == Last(calls).ts >= DAY
    ensures var r := Answer(parse, After(calls), Last(calls).ts);
            ShortExact(parse, r, History(calls), Last(calls).ts) && DayExact(parse, r, History(calls), Last(calls).ts)
    ensures DayWindow(History(calls), Last(calls).ts)
         == set m | m in History(calls) && Last(calls).ts - DAY < History(calls)[m] <= Last(calls).ts
  {
    var k, hist, c := After(calls), History(calls), Last(calls);
    assert Sandwiched(k.z, hist, c.now, lead) by { SetBetween(calls, lead); }
    assert TrimmedAt(k.z.scores, c.ts) by { LastTrims(calls); }
    ShortAnswer(parse, k, hist, c.ts, c.now, lead);
    DayAnswer(parse, k, hist, c.ts, c.now, lead);
  }

  lemma DayAnswer(parse: Parse, k: Keys, hist: map<string, real>, ts: real, now: real, lead: real)
    requires Sandwiched(k.z, hist, now, lead) && TrimmedAt(k.z.scores, ts) && now + lead == ts >= DAY
    ensures DayExact(parse, Answer(parse, k, ts), hist, ts)
  {
    DayBetween(k.z, hist, ts, now, lead);
    assert Range(k.z.scores, ts - DAY, ts) == DayWindow(hist, ts);
  }

  // ---------------------------------------------------------------- the windows over the calls

  /** A transaction id with the text of an amount. */
  type Pair = (string, string)

  /** The last timestamp given for each pair. */
  function PairHistory(calls: seq<Call>): map<Pair, real> {
    if calls == [] then map[]
    else var c := calls[|calls| - 1]; PairHistory(calls[..|calls| - 1])[(c.id, c.amount) := c.ts]
  }

  /** No text of a Decimal has a colon. */
  predicate Decimals(calls: seq<Call>) { forall i :: 0 <= i < |calls| ==> ':' !in calls[i].amount }

  ghost predicate SameHistory(hist: map<string, real>, pairs: map<Pair, real>) {
    && (forall p :: p in pairs ==> ':' !in p.1 && Member(p.0, p.1) in hist && hist[Member(p.0, p.1)] == pairs[p])
    && (forall m :: m in hist ==> exists p :: p in pairs && Member(p.0, p.1) == m)
  }

  lemma {:induction false} HistoryPairs(calls: seq<Call>)
    requires Decimals(calls)
    ensures SameHistory(History(calls), PairHistory(calls))
  {
    if calls != [] {
      var n := |calls| - 1;
      HistoryPairs(calls[..n]);
      HistoryPairsStep(History(calls[..n]), PairHistory(calls[..n]), calls[n]);
    }
  }

  lemma HistoryPairsStep(hist: map<string, real>, pairs: map<Pair, real>, c: Call)
    requires SameHistory(hist, pairs) && ':' !in c.amount
    ensures SameHistory(hist[Member(c.id, c.amount) := c.ts], pairs[(c.id, c.amount) := c.ts])
  {
    var hist', pairs' := hist[Member(c.id, c.amount) := c.ts], pairs[(c.id, c.amount) := c.ts];
    forall p | p in pairs' ensures Member(p.0, p.1) in hist' && hist'[Member(p.0, p.1)] == pairs'[p] {
      if Member(p.0, p.1) == Member(c.id, c.amount) { MemberInjective(p.0, p.1, c.id, c.amount); }
    }
    forall m | m in hist' ensures exists p :: p in pairs' && Member(p.0, p.1) == m {
      if m == Member(c.id, c.amount) {
        assert (c.id, c.amount) in pairs';
      } else {
        var p :| p in pairs && Member(p.0, p.1) == m;
        assert p in pairs';
      }
    }
  }

  /** The sum of what the amounts of a set of pairs parse to. */
  ghost function PairSum(parse: Parse, s: set<Pair>): real {
    if s == {} then 0.0
    else
      var p := Pick(s);
      (match parse(p.1) case Some(x) => x case None => 0.0) + PairSum(parse, s - {p})
  }

  lemma {:induction false} SumPairs(parse: Parse, s: set<Pair>, ms: set<string>)
    requires forall p :: p in s ==> ':' !in p.1
    requires ms == set p | p in s :: Member(p.0, p.1)
    ensures |ms| == |s| && Sum(parse, ms) == PairSum(parse, s)
  {
    if s != {} {
      var p := Pick(s);
      var m := Member(p.0, p.1);
      forall q | q in s && Member(q.0, q.1) == m ensures q == p { MemberInjective(q.0, q.1, p.0, p.1); }
      SumPairs(parse, s - {p}, ms - {m});
      SumSplit(parse, ms, m);
      AmountParsed(parse, p.0, p.1);
    }
  }

  function PairsIn(pairs: map<Pair, real>, lo: real, hi: real): set<Pair> {
    set p | p in pairs && lo <= pairs[p] <= hi
  }

  function PairsAfter(pairs: map<Pair, real>, lo: real, hi: real): set<Pair> {
    set p | p in pairs && lo < pairs[p] <= hi
  }

  lemma WindowPairs(parse: Parse, hist: map<string, real>, pairs: map<Pair, real>, lo: real, hi: real)
    requires SameHistory(hist, pairs)
    ensures |Range(hist, lo, hi)| == |PairsIn(pairs, lo, hi)|
    ensures Sum(parse, Range(hist, lo, hi)) == PairSum(parse, PairsIn(pairs, lo, hi))
  {
    var ms, s := Range(hist, lo, hi), PairsIn(pairs, lo, hi);
    forall m | m in ms ensures exists p :: p in s && Member(p.0, p.1) == m {
      var p :| p in pairs && Member(p.0, p.1) == m;
      assert p in s;
    }
    SumPairs(parse, s, ms);
  }

  lemma DayPairs(parse: Parse, hist: map<string, real>, pairs: map<Pair, real>, ts: real)
    requires SameHistory(hist, pairs) && ts >= DAY
    ensures |DayWindow(hist, ts)| == |PairsAfter(pairs, ts - DAY, ts)|
    ensures Sum(parse, DayWindow(hist, ts)) == PairSum(parse, PairsAfter(pairs, ts - DAY, ts))
  {
    var ms, s := DayWindow(hist, ts), PairsAfter(pairs, ts - DAY, ts);
    forall m | m in ms ensures exists p :: p in s && Member(p.0, p.1) == m {
      var p :| p in pairs && Member(p.0, p.1) == m;
      assert p in s;
    }
    SumPairs(parse, s, ms);
  }

  /** What a call answers, over the transactions of the calls alone: how many distinct ones have their last timestamp
      in the minute, the hour and the day, and what their amounts parse to, added up and rounded to cents. */
  lemma ShortOverCalls(parse: Parse, calls: seq<Call>, lead: real)
    requires calls != [] && Clocked(calls, lead) && Decimals(calls)
    requires Last(calls).now + lead - Last(calls).ts < 82800.0
    ensures ShortPairs(parse, Answer(parse, After(calls), Last(calls).ts), PairHistory(calls), Last(calls).ts)
  {
    ShortCountersExact(parse, calls, lead);
    ShortJoins(parse, Answer(parse, After(calls), Last(calls).ts), calls, Last(calls).ts);
  }

  ghost predicate ShortPairs(parse: Parse, r: Counters, pairs: map<Pair, real>, ts: real) {
    && r.count1m == |PairsIn(pairs, ts - 60.0, ts)| && r.count1h == |PairsIn(pairs, ts - 3600.0, ts)|
    && r.sum1h == Round2(PairSum(parse, PairsIn(pairs, ts - 3600.0, ts)))
  }

  lemma ShortJoins(parse: Parse, r: Counters, calls: seq<Call>, ts: real)
    requires ShortExact(parse, r, History(calls), ts) && Decimals(calls)
    ensures ShortPairs(parse, r, PairHistory(calls), ts)
  {
    HistoryPairs(calls);
    WindowPairs(parse, History(calls), PairHistory(calls), ts - MINUTE, ts);
    WindowPairs(parse, History(calls), PairHistory(calls), ts - HOUR, ts);
  }

  /** And for the day, open at its start. */
  lemma DayOverCalls(parse: Parse, calls: seq<Call>, lead: real)
    requires calls != [] && Clocked(calls, lead) && Decimals(calls)
    requires Last(calls).now + lead == Last(calls).ts >= 86400.0
    ensures DayPairsOnly(parse, Answer(parse, After(calls), Last(calls).ts), PairHistory(calls), Last(calls).ts)
  {
    OnTimeExact(parse, calls, lead);
    DayJoins(parse, Answer(parse, After(calls), Last(calls).ts), calls, Last(calls).ts);
  }

  ghost predicate DayPairsOnly(parse: Parse, r: Counters, pairs: map<Pair, real>, ts: real) {
    && r.count24h == |PairsAfter(pairs, ts - 86400.0, ts)|
    && r.sum24h == Round2(PairSum(parse, PairsAfter(pairs, ts - 86400.0, ts)))
  }

  lemma DayJoins(parse: Parse, r: Counters, calls: seq<Call>, ts: real)
    requires DayExact(parse, r, History(calls), ts) && Decimals(calls) && ts >= DAY
    ensures DayPairsOnly(parse, r, PairHistory(calls), ts)
  {
    HistoryPairs(calls);
    DayPairs(parse, History(calls), PairHistory(calls), ts);
  }

  // ---------------------------------------------------------------- events ahead of the clock

  /** An event on time, one dated days ahead, and another on time ten seconds after the first. */
  function FutureDated(): seq<Call> {
    [Call("t1", "1", "m", "c", "d", 199990.0, 199990.0), Call("t2", "1", "m", "c", "d", 400000.0, 199995.0),
     Call("t3", "1", "m", "c", "d", 200000.0, 200000.0)]
  }

  /** The future event trims the first one away, and the third finds itself alone in the last minute. */
  lemma FutureEventEmpties(parse: Parse)
    ensures var calls := FutureDated();
            && Clocked(calls, 200005.0) && !Clocked(calls, 0.0)
            && |Range(History(calls), 200000.0 - MINUTE, 200000.0)| == 2
            && Answer(parse, After(calls), 200000.0).count1m == 1
  {
    FutureClocked();
    FutureHistory();
    FutureKeys();
  }

  lemma FutureClocked()
    ensures Clocked(FutureDated(), 200005.0) && !Clocked(FutureDated(), 0.0)
  {
    assert FutureDated()[1].ts > FutureDated()[1].now;
  }

  lemma FutureMembers()
    ensures Member("t1", "1") != Member("t2", "1") && Member("t2", "1") != Member("t3", "1")
            && Member("t1", "1") != Member("t3", "1")
  {
    assert Member("t1", "1")[1] == '1' && Member("t2", "1")[1] == '2' && Member("t3", "1")[1] == '3';
  }

  lemma FutureHistory()
    ensures Range(History(FutureDated()), 200000.0 - MINUTE, 200000.0) == {Member("t1", "1"), Member("t3", "1")}
    ensures |Range(History(FutureDated()), 200000.0 - MINUTE, 200000.0)| == 2
  {
    var calls := FutureDated();
    FutureMembers();
    assert calls[..2][..1] == [calls[0]] && [calls[0]][..0] == [];
    assert History(calls[..2]) == History([calls[0]])[Member("t2", "1") := 400000.0];
    assert History([calls[0]]) == History([])[Member("t1", "1") := 199990.0];
  }

  lemma FutureKeys()
    ensures Range(After(FutureDated()).z.scores, 200000.0 - MINUTE, 200000.0) == {Member("t3", "1")}
  {
    var calls := FutureDated();
    FutureMembers();
    AfterMore([], calls[0]);
    AfterMore([calls[0]], calls[1]);
    AfterMore([calls[0], calls[1]], calls[2]);
    assert [] + [calls[0]] == [calls[0]] && [calls[0]] + [calls[1]] == [calls[0], calls[1]];
    assert [calls[0], calls[1]] + [calls[2]] == calls;
    FutureTrims(Member("t1", "1"), Member("t2", "1"), Member("t3", "1"));
  }

  lemma FutureTrims(a: string, b: string, c: string)
    requires a != b && b != c && a != c
    ensures var two := Record(Record(EMPTY.z, a, 199990.0, 199990.0), b, 400000.0, 199995.0);
            var z := Record(two, c, 200000.0, 200000.0);
            Range(z.scores, 200000.0 - MINUTE, 200000.0) == {c}
  {
    var one := Record(EMPTY.z, a, 199990.0, 199990.0);
    assert one.scores == map[a := 199990.0];
    var two := Record(one, b, 400000.0, 199995.0);
    assert two.scores == map[b := 400000.0];
  }

  // ---------------------------------------------------------------- distinct values

  ghost predicate Soon(calls: seq<Call>, j: int)
    requires 0 < j < |calls|
  {
    calls[j].now - calls[j - 1].now < DAY
  }

  /** Since call `i` no day has passed between two calls. */
  ghost predicate Unbroken(calls: seq<Call>, i: int)
    requires 0 <= i
  {
    forall j :: i < j < |calls| ==> Soon(calls, j)
  }

  ghost predicate SeenSinceGap(calls: seq<Call>, f: Field, v: string) {
    exists i :: 0 <= i < |calls| && ValueOf(calls[i], f) == v && Unbroken(calls, i)
  }

  lemma GapStep(calls: seq<Call>, c: Call, f: Field, v: string)
    ensures SeenSinceGap(calls + [c], f, v) <==>
            ValueOf(c, f) == v || (calls != [] && SeenSinceGap(calls, f, v) && c.now - calls[|calls| - 1].now < DAY)
  {
    var all, n := calls + [c], |calls|;
    assert Unbroken(all, n) && all[n] == c;
    forall j | 0 < j < n ensures Soon(all, j) <==> Soon(calls, j) { }
    forall i | 0 <= i < n ensures Unbroken(all, i) <==> Unbroken(calls, i) && Soon(all, n) {
      if Unbroken(all, i) { assert forall j :: i < j < n ==> Soon(all, j); }
    }
    if SeenSinceGap(calls, f, v) && n > 0 && Soon(all, n) {
      var i :| 0 <= i < n && ValueOf(calls[i], f) == v && Unbroken(calls, i);
      assert ValueOf(all[i], f) == v && Unbroken(all, i);
    }
  }

  lemma TouchStep(d: Distinct, calls: seq<Call>, c: Call, f: Field, v: string)
    requires v in d.seen <==> SeenSinceGap(calls, f, v)
    requires d.expiry == if calls == [] then None else Some(Last(calls).now + DAY)
    ensures v in Touch(d, ValueOf(c, f), c.now).seen <==> SeenSinceGap(calls + [c], f, v)
  {
    GapStep(calls, c, f, v);
  }

  /** The values counted are those of all calls since the last gap of a day; despite the names of
      the counters nothing leaves them while calls keep coming. */
  lemma {:induction false} DistinctSinceGap(calls: seq<Call>, f: Field, v: string)
    ensures v in KeyOf(After(calls), f).seen <==> SeenSinceGap(calls, f, v)
    ensures KeyOf(After(calls), f).expiry == if calls == [] then None else Some(Last(calls).now + DAY)
  {
    if calls != [] {
      var front := calls[..|calls| - 1];
      DistinctSinceGap(front, f, v);
      TouchStep(KeyOf(After(front), f), front, Last(calls), f, v);
      assert calls == front + [Last(calls)];
    }
  }

  /** The values of the last day before the last call. */
  function LastDay(calls: seq<Call>, f: Field): set<string>
    requires calls != []
  {
    set i | 0 <= i < |calls| && calls[i].now > Last(calls).now - DAY :: ValueOf(calls[i], f)
  }

  lemma DayUnbroken(calls: seq<Call>, i: nat)
    requires Ordered(calls) && i < |calls| && calls[i].now > calls[|calls| - 1].now - DAY
    ensures Unbroken(calls, i)
  {
    var last := |calls| - 1;
    forall j | i < j < |calls| ensures Soon(calls, j) {
      assert calls[i].now <= calls[j - 1].now && calls[j].now <= calls[last].now;
    }
  }

  /** So no value of the last day is missed. */
  lemma DistinctCoversDay(calls: seq<Call>, f: Field)
    requires calls != [] && Ordered(calls)
    ensures LastDay(calls, f) <= KeyOf(After(calls), f).seen
  {
    forall v | v in LastDay(calls, f) ensures v in KeyOf(After(calls), f).seen {
      var i :| 0 <= i < |calls| && calls[i].now > Last(calls).now - DAY && ValueOf(calls[i], f) == v;
      DayUnbroken(calls, i);
      DistinctSinceGap(calls, f, v);
    }
  }

  /** A distinct counter never falls short of the last day's values, and is their number exactly
      when every value seen since the last gap of a day has come again within the last day. */
  lemma DistinctExactIff(parse: Parse, calls: seq<Call>, f: Field, ts: real)
    requires calls != [] && Ordered(calls)
    ensures CountOf(Answer(parse, After(calls), ts), f) >= |LastDay(calls, f)|
    ensures CountOf(Answer(parse, After(calls), ts), f) == |LastDay(calls, f)|
       <==> forall v | SeenSinceGap(calls, f, v) :: v in LastDay(calls, f)
  {
    var seen, day := KeyOf(After(calls), f).seen, LastDay(calls, f);
    DistinctCoversDay(calls, f);
    assert seen == day + (seen - day);
    forall v ensures v in seen <==> SeenSinceGap(calls, f, v) { DistinctSinceGap(calls, f, v); }
    assert |seen| == |day| <==> seen - day == {};
  }

  /** The value `v` at midnight and `w` after 20 and after 40 hours. */
  function Overcounted(v: string, w: string): seq<Call> {
    [Call("t1", "1", v, v, v, 0.0, 0.0), Call("t2", "1", w, w, w, 20.0 * HOUR, 20.0 * HOUR),
     Call("t3", "1", w, w, w, 40.0 * HOUR, 40.0 * HOUR)]
  }

  lemma OvercountedSeen(v: string, w: string, f: Field, x: string)
    ensures SeenSinceGap(Overcounted(v, w), f, x) <==> x == v || x == w
  {
    var calls := Overcounted(v, w);
    assert Soon(calls, 1) && Soon(calls, 2);
    assert ValueOf(calls[0], f) == v && Unbroken(calls, 0);
    assert ValueOf(calls[1], f) == w && ValueOf(calls[2], f) == w && Unbroken(calls, 2);
  }

  lemma OvercountedDay(v: string, w: string, f: Field)
    ensures Clocked(Overcounted(v, w), 0.0) && LastDay(Overcounted(v, w), f) == {w}
  {
    var calls := Overcounted(v, w);
    assert ValueOf(calls[2], f) == w && calls[2].now > Last(calls).now - DAY;
    assert ValueOf(calls[1], f) == w && calls[0].now <= Last(calls).now - DAY;
  }

  /** Two values are counted where the last day saw one. */
  lemma DistinctOvercounts(parse: Parse, v: string, w: string, f: Field)
    requires v != w
    ensures var calls := Overcounted(v, w);
            Clocked(calls, 0.0) && LastDay(calls, f) == {w} && CountOf(Answer(parse, After(calls), 40.0 * HOUR), f) == 2
  {
    OvercountedDay(v, w, f);
    var k := After(Overcounted(v, w));
    forall x ensures x in KeyOf(k, f).seen <==> x == v || x == w {
      DistinctSinceGap(Overcounted(v, w), f, x);
      OvercountedSeen(v, w, f, x);
    }
    CountsTwo(parse, k, f, v, w);
  }

  lemma CountsTwo(parse: Parse, k: Keys, f: Field, v: string, w: string)
    requires v != w && forall x :: x in KeyOf(k, f).seen <==> x == v || x == w
    ensures CountOf(Answer(parse, k, 40.0 * HOUR), f) == 2
  {
    assert KeyOf(k, f).seen == {v, w};
  }
}
