/**
 The theory behind the nightly purge: a forest of issuer links with pinned nodes,
 collected one layer at a time.
 */
module IssuerGraph {
  import opened Base

  /** Every stored certificate with its issuer link, and the pinned ones. */
  datatype Graph = Graph(issuer: map<Fingerprint, Option<Fingerprint>>, pinned: set<Fingerprint>)

  /** `c` was issued by `f`. */
  predicate Issued(g: Graph, f: Fingerprint, c: Fingerprint)
  {
    c in g.issuer && g.issuer[c] == Some(f)
  }

  /** What is left after `n` passes, each removing the nodes that are neither pinned
      nor the issuer of a node still there. */
  ghost function Remaining(g: Graph, n: nat): set<Fingerprint>
  {
    if n == 0 then g.issuer.Keys
    else
      var before := Remaining(g, n - 1);
      set f | f in before && (f in g.pinned || exists c :: c in before && Issued(g, f, c))
  }

  /** A chain of stored certificates, each followed by its issuer. */
  ghost predicate IsChain(g: Graph, chain: seq<Fingerprint>)
  {
    && (forall i :: 0 <= i < |chain| ==> chain[i] in g.issuer)
    && (forall i :: 0 < i < |chain| ==> Issued(g, chain[i], chain[i - 1]))
  }

  /** A pinned certificate has `f` above it, or is `f`. */
  ghost predicate Holds(g: Graph, chain: seq<Fingerprint>, f: Fingerprint)
  {
    chain != [] && IsChain(g, chain) && chain[0] in g.pinned && chain[|chain| - 1] == f
  }

  /** The pinned certificates and all their issuers. */
  ghost predicate IsLive(g: Graph, f: Fingerprint)
  {
    exists chain :: Holds(g, chain, f)
  }

  ghost function Live(g: Graph): set<Fingerprint>
  {
    set f | f in g.issuer && IsLive(g, f)
  }

  lemma NoPinsNothingLive(g: Graph)
    requires g.pinned == {}
    ensures Live(g) == {}
  {
    forall f, chain
      ensures !Holds(g, chain, f)
    {
    }
  }

  ghost predicate IsGarbageChain(g: Graph, chain: seq<Fingerprint>)
  {
    IsChain(g, chain) && forall i :: 0 <= i < |chain| ==> !IsLive(g, chain[i])
  }

  ghost predicate IsCycle(chain: seq<Fingerprint>)
  {
    |chain| >= 2 && chain[0] == chain[|chain| - 1]
  }

  /** The issuer of a certificate still there survives the next pass. */
  lemma StaysAbove(g: Graph, n: nat, f: Fingerprint, c: Fingerprint)
    requires n > 0 && f in Remaining(g, n - 1) && c in Remaining(g, n - 1) && Issued(g, f, c)
    ensures f in Remaining(g, n)
  {
  }

  /** Safety: a chain from a pinned certificate survives every pass whole. */
  lemma {:induction false} ChainSurvives(g: Graph, n: nat, chain: seq<Fingerprint>, f: Fingerprint)
    requires Holds(g, chain, f)
    ensures forall i :: 0 <= i < |chain| ==> chain[i] in Remaining(g, n)
  {
    if n > 0 {
      ChainSurvives(g, n - 1, chain, f);
      forall i | 0 <= i < |chain|
        ensures chain[i] in Remaining(g, n)
      {
        if i > 0 { StaysAbove(g, n, chain[i], chain[i - 1]); }
      }
    }
  }

  /** No number of passes removes a pinned certificate or an issuer above one. */
  lemma LiveSurvives(g: Graph, n: nat)
    ensures Live(g) <= Remaining(g, n)
  {
    forall f | f in Live(g)
      ensures f in Remaining(g, n)
    {
      var chain :| Holds(g, chain, f);
      ChainSurvives(g, n, chain, f);
    }
  }

  /** The issuer of a live certificate is live. */
  lemma LiveClosed(g: Graph, c: Fingerprint, f: Fingerprint)
    requires IsLive(g, c) && f in g.issuer && Issued(g, f, c)
    ensures IsLive(g, f)
  {
    var chain :| Holds(g, chain, c);
    assert Holds(g, chain + [f], f);
  }

  lemma {:induction false} RemainingStored(g: Graph, n: nat)
    ensures Remaining(g, n) <= g.issuer.Keys
  {
    if n > 0 { RemainingStored(g, n - 1); }
  }

  /** Garbage that outlives `n` passes tops a chain of more than `n` garbage certificates. */
  lemma {:induction false} SurvivorHasChain(g: Graph, n: nat, f: Fingerprint) returns (chain: seq<Fingerprint>)
    requires f in Remaining(g, n) && !IsLive(g, f)
    ensures IsGarbageChain(g, chain) && |chain| == n + 1 && chain[n] == f
  {
    RemainingStored(g, n);
    if n == 0 {
      chain := [f];
    } else {
      if f in g.pinned { assert Holds(g, [f], f); }
      var c :| c in Remaining(g, n - 1) && Issued(g, f, c);
      if IsLive(g, c) { LiveClosed(g, c, f); }
      var below := SurvivorHasChain(g, n - 1, c);
      chain := below + [f];
    }
  }

  /** The certificate `i` places up a chain outlives `n <= i` passes. */
  lemma {:induction false} ChainDelays(g: Graph, chain: seq<Fingerprint>, n: nat)
    requires IsChain(g, chain)
    ensures forall i :: n <= i < |chain| ==> chain[i] in Remaining(g, n)
  {
    if n > 0 {
      ChainDelays(g, chain, n - 1);
      forall i | n <= i < |chain|
        ensures chain[i] in Remaining(g, n)
      {
        StaysAbove(g, n, chain[i], chain[i - 1]);
      }
    }
  }

  lemma LongChainOutlives(g: Graph, chain: seq<Fingerprint>, n: nat)
    requires IsGarbageChain(g, chain) && |chain| > n
    ensures exists f :: f in Remaining(g, n) && !IsLive(g, f)
  {
    ChainDelays(g, chain, n);
    assert chain[n] in Remaining(g, n);
  }

  /** `n` passes leave exactly the live certificates precisely when no chain of
      garbage is longer than `n`: the passes needed are the longest such chain. */
  lemma PassesNeeded(g: Graph, n: nat)
    ensures Remaining(g, n) == Live(g) <==> forall chain :: IsGarbageChain(g, chain) ==> |chain| <= n
  {
    LiveSurvives(g, n);
    RemainingStored(g, n);
    if Remaining(g, n) == Live(g) {
      forall chain | IsGarbageChain(g, chain)
        ensures |chain| <= n
      {
        if |chain| > n { LongChainOutlives(g, chain, n); }
      }
    }
    if forall chain :: IsGarbageChain(g, chain) ==> |chain| <= n {
      forall f | f in Remaining(g, n)
        ensures f in Live(g)
      {
        if !IsLive(g, f) { var chain := SurvivorHasChain(g, n, f); }
      }
    }
  }

  /** Certificates that issue each other in a cycle are never removed. */
  lemma {:induction false} CycleSurvives(g: Graph, n: nat, cycle: seq<Fingerprint>)
    requires IsChain(g, cycle) && IsCycle(cycle)
    ensures forall i :: 0 <= i < |cycle| ==> cycle[i] in Remaining(g, n)
  {
    if n > 0 {
      CycleSurvives(g, n - 1, cycle);
      forall i | 0 <= i < |cycle|
        ensures cycle[i] in Remaining(g, n)
      {
        var j := if i > 0 then i else |cycle| - 1;
        StaysAbove(g, n, cycle[j], cycle[j - 1]);
      }
    }
  }

  lemma GarbageChainsFit(g: Graph, chain: seq<Fingerprint>)
    requires IsGarbageChain(g, chain)
    requires forall c :: IsGarbageChain(g, c) ==> !IsCycle(c)
    ensures |chain| <= |g.issuer|
  {
    forall i, j | 0 <= i < j < |chain|
      ensures chain[i] != chain[j]
    {
      var part := chain[i..j + 1];
      assert IsGarbageChain(g, part);
    }
    DistinctFits(chain, g.issuer.Keys);
  }

  /** The passes converge to mark-and-sweep exactly when no garbage certificates issue
      each other in a cycle. */
  lemma ConvergesIffNoGarbageCycle(g: Graph)
    ensures Remaining(g, |g.issuer|) == Live(g) <==> forall c :: IsGarbageChain(g, c) ==> !IsCycle(c)
  {
    var n := |g.issuer|;
    if forall c :: IsGarbageChain(g, c) ==> !IsCycle(c) {
      forall chain | IsGarbageChain(g, chain)
        ensures |chain| <= n
      {
        GarbageChainsFit(g, chain);
      }
      PassesNeeded(g, n);
    } else {
      var c :| IsGarbageChain(g, c) && IsCycle(c);
      CycleSurvives(g, n, c);
      assert c[0] in Remaining(g, n) && c[0] !in Live(g);
    }
  }

  /** Each pass removes something until a pass removes nothing; from then on none does. */
  lemma {:induction false} PassesShrink(g: Graph, n: nat)
    ensures |Remaining(g, n)| + n <= |g.issuer| || Remaining(g, n + 1) == Remaining(g, n)
  {
    if n > 0 {
      PassesShrink(g, n - 1);
      var before, after := Remaining(g, n - 1), Remaining(g, n);
      if before != after {
        assert after < before;
        ProperSubsetSmaller(after, before);
      }
    }
  }

  lemma {:induction false} ProperSubsetSmaller(a: set<Fingerprint>, b: set<Fingerprint>)
    requires a < b
    ensures |a| < |b|
  {
    assert |b| == |a| + |b - a| by { assert b == a + (b - a); }
    assert b - a != {};
  }

  /** Termination: after as many passes as there are certificates another removes nothing. */
  lemma PassesTerminate(g: Graph)
    ensures Remaining(g, |g.issuer| + 1) == Remaining(g, |g.issuer|)
  {
    var n := |g.issuer|;
    PassesShrink(g, n);
    if |Remaining(g, n)| + n <= n {
      assert Remaining(g, n) == {};
    }
  }
}
