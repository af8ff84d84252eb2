/** Claims on a transaction: `SET decided:{txn} NX EX 300`, over every interleaving. */
module FanInClaims {
  import opened FanIn

  // ---------------------------------------------------------------- claims

  /** Claims of one transaction are a full BUFFER_TTL apart, and while a claim is younger than
      that its `decided:` key is there to refuse the next one. */
  ghost predicate ClaimsInv(now: nat, decided: map<Txn, nat>, claims: seq<Claim>) {
    && (forall i :: 0 <= i < |claims| ==> claims[i].at <= now)
    && (forall i, j :: 0 <= i < j < |claims| && claims[i].txn == claims[j].txn ==>
          claims[i].at + BUFFER_TTL <= claims[j].at)
    && (forall i :: 0 <= i < |claims| && now < claims[i].at + BUFFER_TTL ==>
          claims[i].txn in decided && decided[claims[i].txn] >= claims[i].at + BUFFER_TTL)
    && (forall t :: t in decided ==> now < decided[t] && ClaimedUntil(claims, t, decided[t]))
  }

  ghost predicate ClaimedUntil(claims: seq<Claim>, txn: Txn, until: nat) {
    exists i :: 0 <= i < |claims| && claims[i].txn == txn && claims[i].at + BUFFER_TTL == until
  }

  lemma ClaimsTick(now: nat, decided: map<Txn, nat>, claims: seq<Claim>, ms: nat)
    requires ClaimsInv(now, decided, claims)
    ensures ClaimsInv(now + ms, LiveDecided(decided, now + ms), claims)
  {
  }

  lemma ClaimedLonger(claims: seq<Claim>, c: Claim, txn: Txn, until: nat)
    requires ClaimedUntil(claims, txn, until)
    ensures ClaimedUntil(claims + [c], txn, until)
  {
    var i :| 0 <= i < |claims| && claims[i].txn == txn && claims[i].at + BUFFER_TTL == until;
    assert (claims + [c])[i] == claims[i];
  }

  lemma ClaimsAdd(now: nat, decided: map<Txn, nat>, claims: seq<Claim>, c: Claim)
    requires ClaimsInv(now, decided, claims) && c.txn !in decided && c.at == now
    ensures ClaimsInv(now, decided[c.txn := now + BUFFER_TTL], claims + [c])
  {
    var more := claims + [c];
    assert more[|claims|] == c;
    forall t | t in decided ensures ClaimedUntil(more, t, decided[t]) { ClaimedLonger(claims, c, t, decided[t]); }
  }
}
