/** services/graph-service: points per pattern query, and the degraded path. */
module GraphService {
  import opened Common
  import opened Reasons
  import opened Signals

  /** `gather(..., return_exceptions=True)` gives a list of rows or an exception per query. */
  datatype Query<+T> = Rows(rows: seq<T>) | Failed

  /** The column each query's first row is scored on. */
  datatype Findings = Findings(sharedDevice: Query<int>, sharedIp: Query<int>, hops: Query<int>,
                               mule: Query<int>, ringSize: Query<Option<int>>)

  predicate Ok<T>(q: Query<T>) { q.Rows? && q.rows != [] }

  function DevicePoints(cards: int): real { Min(15.0 + 5.0 * cards as real, 45.0) }

  function IpPoints(cards: int): real { Min(10.0 + 3.0 * cards as real, 30.0) }

  function HopPoints(hops: int): real {
    if hops == 1 then 50.0 else if hops == 2 then 35.0 else if hops == 3 then 20.0 else 10.0
  }

  predicate DenseRing(f: Findings) {
    Ok(f.ringSize) && f.ringSize.rows[0].Some? && f.ringSize.rows[0].value >= 15
  }

  function Device(f: Findings): seq<Reason> {
    if Ok(f.sharedDevice) then [Reason("G001", DevicePoints(f.sharedDevice.rows[0]))] else []
  }

  function Ip(f: Findings): seq<Reason> {
    if Ok(f.sharedIp) then [Reason("G002", IpPoints(f.sharedIp.rows[0]))] else []
  }

  function Proximity(f: Findings): seq<Reason> {
    if Ok(f.hops) then [Reason("G003", HopPoints(f.hops.rows[0]))] else []
  }

  function Mule(f: Findings): seq<Reason> {
    if Ok(f.mule) then [Reason("G004", 30.0)] else []
  }

  function Ring(f: Findings): seq<Reason> {
    if DenseRing(f) then [Reason("G005", 20.0)] else []
  }

  /** The reasons in the order the code appends them. */
  function Found(f: Findings): seq<Reason> {
    Device(f) + Ip(f) + Proximity(f) + Mule(f) + Ring(f)
  }

  /** What the findings give a reason for, and with which weight. */
  ghost predicate Warranted(f: Findings, r: Reason) {
    || (r.code == "G001" && Ok(f.sharedDevice) && r.weight == Min(15.0 + 5.0 * f.sharedDevice.rows[0] as real, 45.0))
    || (r.code == "G002" && Ok(f.sharedIp) && r.weight == Min(10.0 + 3.0 * f.sharedIp.rows[0] as real, 30.0))
    || (r.code == "G003" && Ok(f.hops) && f.hops.rows[0] == 1 && r.weight == 50.0)
    || (r.code == "G003" && Ok(f.hops) && f.hops.rows[0] == 2 && r.weight == 35.0)
    || (r.code == "G003" && Ok(f.hops) && f.hops.rows[0] == 3 && r.weight == 20.0)
    || (r.code == "G003" && Ok(f.hops) && f.hops.rows[0] !in {1, 2, 3} && r.weight == 10.0)
    || (r.code == "G004" && Ok(f.mule) && r.weight == 30.0)
    || (r.code == "G005" && Ok(f.ringSize) && f.ringSize.rows[0].Some? && f.ringSize.rows[0].value >= 15
        && r.weight == 20.0)
  }

  function One(b: bool): nat { if b then 1 else 0 }

  /** How many patterns were found. */
  function Patterns(f: Findings): nat {
    One(Ok(f.sharedDevice)) + One(Ok(f.sharedIp)) + One(Ok(f.hops)) + One(Ok(f.mule))
    + One(Ok(f.ringSize) && f.ringSize.rows[0].Some? && f.ringSize.rows[0].value >= 15)
  }

  /** One reason for each pattern that was found, the heaviest first. */
  ghost predicate Reports(f: Findings, reasons: seq<Reason>) {
    (forall r :: r in reasons <==> Warranted(f, r)) && |reasons| == Patterns(f) && Descending(reasons)
  }

  lemma FoundWarranted(f: Findings)
    ensures forall r :: r in Found(f) <==> Warranted(f, r)
    ensures |Found(f)| == Patterns(f)
  {
    forall r
      ensures r in Found(f) <==> r in Device(f) || r in Ip(f) || r in Proximity(f) || r in Mule(f) || r in Ring(f)
    {
    }
  }

  lemma FoundSorted(f: Findings)
    ensures Reports(f, SortDesc(Found(f))) && Sum(SortDesc(Found(f))) == Sum(Found(f))
  {
    FoundWarranted(f);
    SortSum(Found(f));
    SortSorts(Found(f));
    SortMembers(Found(f));
  }

  lemma SumSnoc(s: seq<Reason>, r: Reason)
    ensures Sum(s + [r]) == Sum(s) + r.weight
  {
    SumConcat(s, [r]);
  }

  method Analyse(f: Findings) returns (score: real, reasons: seq<Reason>)
    ensures Reports(f, reasons) && reasons == SortDesc(Found(f))
    ensures score == Min(Sum(reasons), 100.0)
  {
    score, reasons := 0.0, [];
    if Ok(f.sharedDevice) {
      var pts := DevicePoints(f.sharedDevice.rows[0]);
      SumSnoc(reasons, Reason("G001", pts));
      score := score + pts;
      reasons := reasons + [Reason("G001", pts)];
    }
    assert reasons == Device(f);
    ghost var shared := reasons;
    if Ok(f.sharedIp) {
      var pts := IpPoints(f.sharedIp.rows[0]);
      SumSnoc(reasons, Reason("G002", pts));
      score := score + pts;
      reasons := reasons + [Reason("G002", pts)];
    }
    assert reasons == shared + Ip(f);
    shared := reasons;
    if Ok(f.hops) {
      var pts := HopPoints(f.hops.rows[0]);
      SumSnoc(reasons, Reason("G003", pts));
      score := score + pts;
      reasons := reasons + [Reason("G003", pts)];
    }
    assert reasons == shared + Proximity(f);
    shared := reasons;
    if Ok(f.mule) {
      SumSnoc(reasons, Reason("G004", 30.0));
      score := score + 30.0;
      reasons := reasons + [Reason("G004", 30.0)];
    }
    assert reasons == shared + Mule(f);
    shared := reasons;
    if DenseRing(f) {
      SumSnoc(reasons, Reason("G005", 20.0));
      score := score + 20.0;
      reasons := reasons + [Reason("G005", 20.0)];
    }
    assert reasons == shared + Ring(f);
    FoundSorted(f);
    score, reasons := Min(score, 100.0), SortDesc(reasons);
  }

  /** What `handle` publishes; no findings means the analysis raised or ran out of its budget. */
  function GraphSignal(f: Option<Findings>): Part {
    if f.None? then Part(0.0, [], true)
    else Part(Min(Sum(Found(f.value)), 100.0), SortDesc(Found(f.value)), false)
  }

  method Handle(f: Option<Findings>) returns (signal: Part)
    ensures signal == GraphSignal(f)
    ensures signal.score == Min(Sum(signal.reasons), 100.0) && Descending(signal.reasons)
    ensures signal.degraded <==> f.None?
    ensures if f.None? then signal.reasons == [] else Reports(f.value, signal.reasons)
  {
    var score, reasons, degraded := 0.0, [], false;
    if f.Some? {
      score, reasons := Analyse(f.value);
      FoundSorted(f.value);
    } else {
      degraded := true;
    }
    signal := Part(score, reasons, degraded);
  }

  /** No graph pattern reaches the weight of the sanctions rule. */
  lemma GraphReasonsLight(f: Option<Findings>)
    ensures CountAtLeast(GraphSignal(f).reasons, 60.0) == 0
  {
    if f.Some? {
      AllLight(f.value);
      CountBound(Found(f.value), 60.0);
      SortCount(Found(f.value), 60.0);
    }
  }

  predicate Light(s: seq<Reason>) { forall r :: r in s ==> r.weight < 60.0 }

  lemma LightConcat(a: seq<Reason>, b: seq<Reason>)
    requires Light(a) && Light(b)
    ensures Light(a + b)
  {
  }

  lemma AllLight(f: Findings)
    ensures Light(Found(f))
  {
    LightConcat(Device(f), Ip(f));
    LightConcat(Device(f) + Ip(f), Proximity(f));
    LightConcat(Device(f) + Ip(f) + Proximity(f), Mule(f));
    LightConcat(Device(f) + Ip(f) + Proximity(f) + Mule(f), Ring(f));
  }

  /** The published score is a valid signal score whenever the queries count what they say they count. */
  lemma GraphScoreRange(f: Option<Findings>)
    requires f.Some? && Ok(f.value.sharedDevice) ==> f.value.sharedDevice.rows[0] >= 0
    requires f.Some? && Ok(f.value.sharedIp) ==> f.value.sharedIp.rows[0] >= 0
    ensures 0.0 <= GraphSignal(f).score <= 100.0
  {
    if f.Some? {
      SumAtLeast(Found(f.value), 0.0);
    }
  }
}
