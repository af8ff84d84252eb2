/** services/ml-service: score squashing, top-k attribution and the fallback heuristic. */
module MlService {
  import opened Reasons
  import opened Rounding
  import opened Signals

  function Abs(x: real): real { if x < 0.0 then -x else x }

  /** `np.clip(50 - raw * 120, 0, 100)` */
  function ToScore(raw: real): (s: real)
    ensures 0.0 <= s <= 100.0
  {
    Max(0.0, Min(50.0 - raw * 120.0, 100.0))
  }

  /** Positive raw scores are normal: the more negative, the more anomalous. */
  lemma ToScoreAntitone(a: real, b: real)
    requires a <= b
    ensures ToScore(a) >= ToScore(b)
  {
  }

  /** A line through 50 at zero that is cut off at both ends; these facts single it out. */
  lemma ToScoreLine(a: real, b: real)
    ensures ToScore(0.0) == 50.0
    ensures ToScore(a) == 0.0 <==> 12.0 * a >= 5.0
    ensures ToScore(a) == 100.0 <==> 12.0 * a <= -5.0
    ensures -5.0 <= 12.0 * a <= 5.0 && -5.0 <= 12.0 * b <= 5.0 ==>
              2.0 * ToScore((a + b) / 2.0) == ToScore(a) + ToScore(b)
  {
  }

  /** An order `np.argsort(-np.abs(z))` may return; it does not promise how ties fall. */
  ghost predicate ArgSorted(z: seq<real>, order: seq<nat>) {
    && |order| == |z|
    && (forall i :: 0 <= i < |order| ==> order[i] < |z|)
    && (forall i, j :: 0 <= i < j < |order| ==> order[i] != order[j])
    && (forall i, j :: 0 <= i < j < |order| ==> Abs(z[order[i]]) >= Abs(z[order[j]]))
    && (forall k :: 0 <= k < |z| ==> k in order)
  }

  const TOP_FEATURES: nat := 4

  function Named(names: seq<string>, z: seq<real>, i: nat): Reason
    requires |names| == |z| && i < |z|
  {
    Reason("ML_" + names[i], Round2(Abs(z[i])))
  }

  function Deviating(names: seq<string>, z: seq<real>, order: seq<nat>): seq<Reason>
    requires |names| == |z| && forall i :: 0 <= i < |order| ==> order[i] < |z|
  {
    if order == [] then []
    else (if Abs(z[order[0]]) > 1.0 then [Named(names, z, order[0])] else []) + Deviating(names, z, order[1..])
  }

  function Attribute(names: seq<string>, z: seq<real>, order: seq<nat>): seq<Reason>
    requires |names| == |z| && forall i :: 0 <= i < |order| ==> order[i] < |z|
  {
    Deviating(names, z, Kept(order))
  }

  function Kept(order: seq<nat>): seq<nat> {
    if |order| <= TOP_FEATURES then order else order[..TOP_FEATURES]
  }

  lemma {:induction false} DeviatingLength(names: seq<string>, z: seq<real>, order: seq<nat>)
    requires |names| == |z| && forall i :: 0 <= i < |order| ==> order[i] < |z|
    ensures |Deviating(names, z, order)| <= |order|
    ensures (forall i :: i in order ==> Abs(z[i]) > 1.0) ==> |Deviating(names, z, order)| == |order|
  {
    if order != [] { DeviatingLength(names, z, order[1..]); }
  }

  lemma {:induction false} DeviatingNamed(names: seq<string>, z: seq<real>, order: seq<nat>)
    requires |names| == |z| && forall i :: 0 <= i < |order| ==> order[i] < |z|
    ensures forall i :: i in order && Abs(z[i]) > 1.0 ==> Named(names, z, i) in Deviating(names, z, order)
    ensures forall r :: r in Deviating(names, z, order) ==> exists i :: i in order && r == Named(names, z, i)
  {
    if order != [] {
      DeviatingNamed(names, z, order[1..]);
      assert order == [order[0]] + order[1..];
    }
  }

  ghost function Beyond(z: seq<real>): set<nat> { set i | 0 <= i < |z| && Abs(z[i]) > 1.0 }

  function Elems(order: seq<nat>): (s: set<nat>)
    ensures forall i :: i in s <==> i in order
  {
    if order == [] then {} else {order[0]} + Elems(order[1..])
  }

  lemma {:induction false} DeviatingCount(names: seq<string>, z: seq<real>, order: seq<nat>)
    requires |names| == |z| && forall i :: 0 <= i < |order| ==> order[i] < |z|
    requires forall i, j :: 0 <= i < j < |order| ==> order[i] != order[j]
    ensures |Deviating(names, z, order)| == |Elems(order) * Beyond(z)|
  {
    if order != [] {
      DeviatingCount(names, z, order[1..]);
      assert order[0] !in order[1..];
      AddElem(order[0], Elems(order[1..]), Beyond(z));
    }
  }

  lemma AddElem(x: nat, a: set<nat>, b: set<nat>)
    requires x !in a
    ensures |({x} + a) * b| == |a * b| + if x in b then 1 else 0
  {
    assert ({x} + a) * b == if x in b then a * b + {x} else a * b;
  }

  lemma {:induction false} Distinct(order: seq<nat>)
    requires forall i, j :: 0 <= i < j < |order| ==> order[i] != order[j]
    ensures |Elems(order)| == |order|
  {
    if order != [] {
      Distinct(order[1..]);
      assert order[0] !in order[1..];
      assert Elems(order) == Elems(order[1..]) + {order[0]};
    }
  }

  /** Named are the features beyond a sigma, the four furthest out if there are more; each with its name and its
      distance in hundredths of a sigma. */
  lemma AttributionExact(names: seq<string>, z: seq<real>, order: seq<nat>)
    requires |names| == |z| && ArgSorted(z, order)
    ensures |Attribute(names, z, order)| == if |Beyond(z)| <= 4 then |Beyond(z)| else 4
    ensures forall r :: r in Attribute(names, z, order) ==>
              exists i :: i in Beyond(z) && r.code == "ML_" + names[i] && r.weight == Round2(Abs(z[i]))
  {
    DeviatingCount(names, z, Kept(order));
    DeviatingOnly(names, z, Kept(order));
    KeptBeyond(z, order);
  }

  lemma KeptBeyond(z: seq<real>, order: seq<nat>)
    requires ArgSorted(z, order)
    ensures |Elems(Kept(order)) * Beyond(z)| == if |Beyond(z)| <= 4 then |Beyond(z)| else 4
  {
    Distinct(Kept(order));
    if Beyond(z) <= Elems(Kept(order)) {
      AllIn(Beyond(z), Elems(Kept(order)));
    } else {
      var k :| k in Beyond(z) && k !in Elems(Kept(order));
      KeptHeaviest(z, order, k);
      KeptAll(Elems(Kept(order)), Beyond(z), k);
    }
  }

  lemma KeptAll(kept: set<nat>, beyond: set<nat>, k: nat)
    requires kept <= beyond && k in beyond && k !in kept
    ensures kept * beyond == kept && |beyond| > |kept|
  {
    Larger(kept, k, beyond);
  }

  lemma AllIn(a: set<nat>, b: set<nat>)
    requires a <= b
    ensures b * a == a && |a| <= |b|
  {
    assert b == a + (b - a);
  }

  lemma Larger(a: set<nat>, k: nat, b: set<nat>)
    requires a <= b && k in b && k !in a
    ensures |b| > |a|
  {
    assert b == a + {k} + (b - a - {k});
    assert |b| == |a| + |b - a|;
    assert k in b - a;
  }

  lemma {:induction false} DeviatingOnly(names: seq<string>, z: seq<real>, order: seq<nat>)
    requires |names| == |z| && forall i :: 0 <= i < |order| ==> order[i] < |z|
    ensures forall r :: r in Deviating(names, z, order) ==>
              exists i :: i in Beyond(z) && r.code == "ML_" + names[i] && r.weight == Round2(Abs(z[i]))
  {
    if order != [] { DeviatingOnly(names, z, order[1..]); }
  }

  lemma KeptHeaviest(z: seq<real>, order: seq<nat>, k: nat)
    requires ArgSorted(z, order) && k < |z| && k !in Kept(order)
    ensures |Kept(order)| == TOP_FEATURES
    ensures forall i :: i in Kept(order) ==> Abs(z[i]) >= Abs(z[k])
  {
    assert k in order;
    var j :| 0 <= j < |order| && order[j] == k;
    assert forall i :: 0 <= i < |Kept(order)| ==> Kept(order)[i] == order[i];
    assert j >= |Kept(order)|;
  }

  /** At most four features are named; one left out is within a sigma, or four named ones are at least as far out. */
  lemma AttributionComplete(names: seq<string>, z: seq<real>, order: seq<nat>, k: nat)
    requires |names| == |z| && ArgSorted(z, order) && k < |z|
    ensures |Attribute(names, z, order)| <= TOP_FEATURES
    ensures || Named(names, z, k) in Attribute(names, z, order)
            || Abs(z[k]) <= 1.0
            || (|Attribute(names, z, order)| == TOP_FEATURES
                && forall r :: r in Attribute(names, z, order) ==> r.weight >= Named(names, z, k).weight)
  {
    DeviatingLength(names, z, Kept(order));
    DeviatingNamed(names, z, Kept(order));
    if k !in Kept(order) && Abs(z[k]) > 1.0 {
      KeptHeaviest(z, order, k);
      forall i | i in Kept(order) ensures Named(names, z, i).weight >= Named(names, z, k).weight {
        RoundMonotone(Abs(z[k]), Abs(z[i]));
      }
    }
  }

  /** The four contributions add up to 95 at most, so the cap at 100 never takes anything away. */
  method Heuristic(e: Enriched) returns (s: real)
    ensures s == Min(2.0 * e.velocity.txnCount1h as real, 30.0)
                 + (if e.profile.avgTicket == 0.0 then 0.0
                    else Min(8.0 * (e.transaction.amount / e.profile.avgTicket), 40.0))
                 + (if e.isNewDevice then 15.0 else 0.0) + (if e.isForeign then 10.0 else 0.0)
    ensures s <= 95.0
    ensures e.profile.avgTicket >= 0.0 && e.transaction.amount >= 0.0 ==> s >= 0.0
  {
    s := 0.0;
    s := s + Min(e.velocity.txnCount1h as real * 2.0, 30.0);
    if e.profile.avgTicket != 0.0 {
      var ratio := e.transaction.amount / e.profile.avgTicket;
      s := s + Min(ratio * 8.0, 40.0);
    }
    s := s + if e.isNewDevice then 15.0 else 0.0;
    s := s + if e.isForeign then 10.0 else 0.0;
    s := Min(s, 100.0);
  }

  /** The inference result when a model is loaded, or the heuristic's score when it is not. */
  datatype Inference = Model(raw: real, names: seq<string>, z: seq<real>, order: seq<nat>) | Fallback(heuristic: real)

  ghost predicate Valid(i: Inference) {
    i.Model? ==> |i.names| == |i.z| && ArgSorted(i.z, i.order)
  }

  ghost function MlSignal(i: Inference): Part
    requires Valid(i)
  {
    match i
    case Model(raw, names, z, order) => Part(ToScore(raw), Attribute(names, z, order), false)
    case Fallback(h) => Part(h, [], true)
  }

  /** The signal is marked degraded exactly when there is no model; it then names no feature and scores what the
      fallback gave. With a model, less normal transactions score no lower. */
  lemma MlSignalMeans(i: Inference, j: Inference)
    requires Valid(i) && Valid(j)
    ensures MlSignal(i).degraded <==> i.Fallback?
    ensures i.Fallback? ==> MlSignal(i).reasons == [] && MlSignal(i).score == i.heuristic
    ensures i.Model? ==> MlSignal(i).reasons == Attribute(i.names, i.z, i.order) && MlSignal(i).score == ToScore(i.raw)
    ensures i.Model? && j.Model? && i.raw <= j.raw ==> MlSignal(i).score >= MlSignal(j).score
  {
    if i.Model? && j.Model? && i.raw <= j.raw { ToScoreAntitone(i.raw, j.raw); }
  }

  lemma MlReasonsFew(i: Inference)
    requires Valid(i)
    ensures |MlSignal(i).reasons| <= TOP_FEATURES
    ensures CountAtLeast(MlSignal(i).reasons, 60.0) <= TOP_FEATURES
  {
    if i.Model? {
      DeviatingLength(i.names, i.z, Kept(i.order));
    }
    CountBound(MlSignal(i).reasons, 60.0);
  }
}
