/** Reasons attached to a signal, and the stable descending sort both the rule
    engine and the risk scorer apply to them before they truncate. */
module Reasons {

  datatype Reason = Reason(code: string, weight: real)

  ghost predicate Descending(s: seq<Reason>) {
    forall i, j :: 0 <= i < j < |s| ==> s[i].weight >= s[j].weight
  }

  /** Python's `sorted(s, key=lambda r: -r.weight)`: a stable sort. */
  function SortDesc(s: seq<Reason>): (r: seq<Reason>) {
    if s == [] then [] else Insert(s[0], SortDesc(s[1..]))
  }

  /** Puts `x` in front of everything that does not outweigh it. */
  function Insert(x: Reason, s: seq<Reason>): seq<Reason> {
    if s == [] || s[0].weight <= x.weight then [x] + s else [s[0]] + Insert(x, s[1..])
  }

  function Sum(s: seq<Reason>): real {
    if s == [] then 0.0 else s[0].weight + Sum(s[1..])
  }

  /** The elements of weight exactly `w`, in order. */
  function OfWeight(s: seq<Reason>, w: real): seq<Reason> {
    if s == [] then [] else (if s[0].weight == w then [s[0]] else []) + OfWeight(s[1..], w)
  }

  /** How many elements weigh at least `w`. */
  function CountAtLeast(s: seq<Reason>, w: real): nat {
    if s == [] then 0 else (if s[0].weight >= w then 1 else 0) + CountAtLeast(s[1..], w)
  }

  // ---------------------------------------------------------------- sorting

  lemma {:induction false} InsertKeeps(x: Reason, s: seq<Reason>)
    ensures multiset(Insert(x, s)) == multiset{x} + multiset(s)
  {
    if s != [] && s[0].weight > x.weight {
      InsertKeeps(x, s[1..]);
      assert s == [s[0]] + s[1..];
    }
  }

  lemma ConsDescending(x: Reason, s: seq<Reason>)
    requires Descending(s) && (s != [] ==> x.weight >= s[0].weight)
    ensures Descending([x] + s)
  {
  }

  lemma {:induction false} InsertSorts(x: Reason, s: seq<Reason>)
    requires Descending(s)
    ensures Descending(Insert(x, s))
  {
    if s == [] || s[0].weight <= x.weight {
      ConsDescending(x, s);
    } else {
      InsertSorts(x, s[1..]);
      ConsDescending(s[0], Insert(x, s[1..]));
    }
  }

  lemma {:induction false} SortSorts(s: seq<Reason>)
    ensures Descending(SortDesc(s)) && multiset(SortDesc(s)) == multiset(s)
    ensures |SortDesc(s)| == |s|
  {
    if s != [] {
      SortSorts(s[1..]);
      InsertSorts(s[0], SortDesc(s[1..]));
      InsertKeeps(s[0], SortDesc(s[1..]));
      assert s == [s[0]] + s[1..];
    }
    assert |multiset(SortDesc(s))| == |multiset(s)|;
  }

  lemma SortMembers(s: seq<Reason>)
    ensures forall r :: r in SortDesc(s) <==> r in s
  {
    SortSorts(s);
    forall r ensures r in SortDesc(s) <==> r in s {
      assert r in multiset(SortDesc(s)) <==> r in multiset(s);
    }
  }

  lemma OfWeightCons(x: Reason, s: seq<Reason>, w: real)
    ensures OfWeight([x] + s, w) == (if x.weight == w then [x] else []) + OfWeight(s, w)
  {
    assert ([x] + s)[1..] == s;
  }

  lemma {:induction false} InsertStable(x: Reason, s: seq<Reason>, w: real)
    requires Descending(s)
    ensures OfWeight(Insert(x, s), w) == (if x.weight == w then [x] else []) + OfWeight(s, w)
  {
    if s == [] || s[0].weight <= x.weight {
      OfWeightCons(x, s, w);
    } else {
      InsertStable(x, s[1..], w);
      OfWeightCons(s[0], Insert(x, s[1..]), w);
      assert x.weight == w ==> s[0].weight != w;
    }
  }

  /** Stability: elements of one weight keep the order they had. */
  lemma {:induction false} SortStable(s: seq<Reason>, w: real)
    ensures OfWeight(SortDesc(s), w) == OfWeight(s, w)
  {
    if s != [] {
      SortStable(s[1..], w);
      SortSorts(s[1..]);
      InsertStable(s[0], SortDesc(s[1..]), w);
    }
  }

  lemma {:induction false} OfWeightMembers(s: seq<Reason>, w: real)
    ensures forall r :: r in OfWeight(s, w) <==> r in s && r.weight == w
  {
    if s != [] {
      OfWeightMembers(s[1..], w);
      assert s == [s[0]] + s[1..];
    }
  }

  /** Being descending and stable determines the sorted list: `SortDesc` is the only one. */
  lemma {:induction false} StableSortUnique(a: seq<Reason>, b: seq<Reason>)
    requires Descending(a) && Descending(b)
    requires forall w :: OfWeight(a, w) == OfWeight(b, w)
    ensures a == b
  {
    if a == [] || b == [] {
      if a != [] {
        OfWeightMembers(a, a[0].weight);
      } else if b != [] {
        OfWeightMembers(b, b[0].weight);
      }
    } else {
      SameHead(a, b);
      SameHead(b, a);
      assert OfWeight(a, a[0].weight)[0] == OfWeight(b, b[0].weight)[0];
      forall w ensures OfWeight(a[1..], w) == OfWeight(b[1..], w) {
        assert OfWeight(a, w) == OfWeight(b, w);
        TailOfWeight(a, w);
        TailOfWeight(b, w);
      }
      StableSortUnique(a[1..], b[1..]);
      assert a == [a[0]] + a[1..] && b == [b[0]] + b[1..];
    }
  }

  lemma TailOfWeight(s: seq<Reason>, w: real)
    requires s != []
    ensures OfWeight(s[1..], w) == if s[0].weight == w then OfWeight(s, w)[1..] else OfWeight(s, w)
  {
  }

  lemma SameHead(a: seq<Reason>, b: seq<Reason>)
    requires Descending(a) && Descending(b) && a != [] && b != []
    requires forall w :: OfWeight(a, w) == OfWeight(b, w)
    ensures a[0].weight <= b[0].weight
  {
    OfWeightMembers(a, a[0].weight);
    OfWeightMembers(b, a[0].weight);
    assert a[0] in OfWeight(b, a[0].weight);
  }

  // ---------------------------------------------------------------- truncation

  lemma {:induction false} CountConcat(a: seq<Reason>, b: seq<Reason>, w: real)
    ensures CountAtLeast(a + b, w) == CountAtLeast(a, w) + CountAtLeast(b, w)
  {
    if a == [] {
      assert a + b == b;
    } else {
      CountConcat(a[1..], b, w);
      assert (a + b)[1..] == a[1..] + b;
    }
  }

  lemma {:induction false} CountBound(s: seq<Reason>, w: real)
    ensures CountAtLeast(s, w) <= |s|
    ensures (forall r :: r in s ==> r.weight < w) ==> CountAtLeast(s, w) == 0
    ensures (forall r :: r in s ==> r.weight >= w) ==> CountAtLeast(s, w) == |s|
  {
    if s != [] {
      CountBound(s[1..], w);
      assert s == [s[0]] + s[1..];
    }
  }

  lemma {:induction false} InsertCount(x: Reason, s: seq<Reason>, w: real)
    ensures CountAtLeast(Insert(x, s), w) == CountAtLeast([x], w) + CountAtLeast(s, w)
  {
    if s == [] || s[0].weight <= x.weight {
      CountConcat([x], s, w);
    } else {
      InsertCount(x, s[1..], w);
      CountConcat([s[0]], Insert(x, s[1..]), w);
      assert s == [s[0]] + s[1..];
    }
  }

  lemma {:induction false} SortCount(s: seq<Reason>, w: real)
    ensures CountAtLeast(SortDesc(s), w) == CountAtLeast(s, w)
  {
    if s != [] {
      SortCount(s[1..], w);
      InsertCount(s[0], SortDesc(s[1..]), w);
    }
  }

  /** The element at index `i` of the sorted list has `i` others at least as heavy. */
  lemma RankBound(s: seq<Reason>, i: nat)
    requires i < |SortDesc(s)|
    ensures i < CountAtLeast(s, SortDesc(s)[i].weight)
  {
    var t := SortDesc(s);
    var w := t[i].weight;
    SortSorts(s);
    SortCount(s, w);
    assert t == t[..i + 1] + t[i + 1..];
    CountConcat(t[..i + 1], t[i + 1..], w);
    CountBound(t[..i + 1], w);
  }

  /** A reason outlives truncation to the first `k` when at most `k` reasons weigh as much as it does. */
  lemma TopSurvives(s: seq<Reason>, x: Reason, k: nat)
    requires x in s && CountAtLeast(s, x.weight) <= k
    ensures x in Top(s, k)
  {
    var t := SortDesc(s);
    SortMembers(s);
    var i :| 0 <= i < |t| && t[i] == x;
    RankBound(s, i);
    if |t| > k { assert t[..k][i] == x; }
  }

  /** `sorted(...)[:k]` */
  function Top(s: seq<Reason>, k: nat): seq<Reason> {
    var t := SortDesc(s);
    if |t| <= k then t else t[..k]
  }

  /** `cut` is what `kept` lacks of `s`, and none of it outweighs anything kept. */
  ghost predicate CutOff(s: seq<Reason>, kept: seq<Reason>, cut: seq<Reason>) {
    multiset(kept) + multiset(cut) == multiset(s) && forall r, c :: r in kept && c in cut ==> r.weight >= c.weight
  }

  /** What is kept is among the heaviest: nothing cut off outweighs anything kept. */
  lemma TopHeaviest(s: seq<Reason>, k: nat)
    ensures Descending(Top(s, k))
    ensures |Top(s, k)| == if |s| <= k then |s| else k
    ensures exists cut: seq<Reason> :: CutOff(s, Top(s, k), cut)
  {
    SortSorts(s);
    var n := if |s| <= k then |s| else k;
    SplitCut(s, n);
    assert Top(s, k) == SortDesc(s)[..n];
  }

  lemma SplitCut(s: seq<Reason>, n: nat)
    requires n <= |s| == |SortDesc(s)| && Descending(SortDesc(s)) && multiset(SortDesc(s)) == multiset(s)
    ensures CutOff(s, SortDesc(s)[..n], SortDesc(s)[n..])
  {
    var t := SortDesc(s);
    CutHeavier(t, n);
    assert t == t[..n] + t[n..];
  }

  lemma CutHeavier(t: seq<Reason>, n: nat)
    requires Descending(t) && n <= |t|
    ensures forall r, c :: r in t[..n] && c in t[n..] ==> r.weight >= c.weight
  {
    forall r, c | r in t[..n] && c in t[n..] ensures r.weight >= c.weight {
      var i :| 0 <= i < n && t[i] == r;
      var j :| 0 <= j < |t| - n && t[n..][j] == c;
      assert t[n + j] == c;
    }
  }

  /** With `SumConcat` this leaves no other sum. */
  lemma SumOfFew(r: Reason)
    ensures Sum([]) == 0.0 && Sum([r]) == r.weight
  {
  }

  lemma {:induction false} SumConcat(a: seq<Reason>, b: seq<Reason>)
    ensures Sum(a + b) == Sum(a) + Sum(b)
  {
    if a == [] {
      assert a + b == b;
    } else {
      SumConcat(a[1..], b);
      assert (a + b)[1..] == a[1..] + b;
    }
  }

  lemma {:induction false} InsertSum(x: Reason, s: seq<Reason>)
    ensures Sum(Insert(x, s)) == x.weight + Sum(s)
  {
    if s == [] || s[0].weight <= x.weight {
      SumConcat([x], s);
    } else {
      InsertSum(x, s[1..]);
      SumConcat([s[0]], Insert(x, s[1..]));
    }
  }

  lemma {:induction false} SortSum(s: seq<Reason>)
    ensures Sum(SortDesc(s)) == Sum(s)
  {
    if s != [] {
      SortSum(s[1..]);
      InsertSum(s[0], SortDesc(s[1..]));
    }
  }

  lemma {:induction false} SumAtLeast(s: seq<Reason>, w: real)
    requires forall r :: r in s ==> r.weight >= w
    ensures Sum(s) >= w * |s| as real
  {
    if s != [] {
      SumAtLeast(s[1..], w);
      assert w * |s| as real == w + w * |s[1..]| as real by {
        assert |s| as real == 1.0 + |s[1..]| as real;
      }
    }
  }

  /** Ten reasons of ten points or more add up to a hundred at least. */
  lemma TenReachHundred(s: seq<Reason>)
    requires |s| > 10 && forall r :: r in s ==> r.weight >= 10.0
    ensures Sum(s[..10]) >= 100.0 && Sum(s) >= 100.0
  {
    assert s == s[..10] + s[10..];
    SumConcat(s[..10], s[10..]);
    SumAtLeast(s[..10], 10.0);
    SumAtLeast(s[10..], 10.0);
  }

  lemma TopCount(s: seq<Reason>, k: nat, w: real)
    ensures CountAtLeast(Top(s, k), w) <= CountAtLeast(s, w)
  {
    var t := SortDesc(s);
    SortCount(s, w);
    if |t| > k {
      assert t == t[..k] + t[k..];
      CountConcat(t[..k], t[k..], w);
    }
  }
}
