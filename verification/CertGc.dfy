/**
 The nightly certificate purge as a garbage collector. One pass removes only
 certificates nothing names, so an issuer goes at the earliest one night after
 the last certificate it issued.
 */
module CertGc {
  import opened Base
  import opened Db
  import opened Runs
  import G = IssuerGraph

  /** The state after `n` nightly passes with nothing else running. */
  ghost function Passes(s: Tables, n: nat): Tables
  {
    if n == 0 then s else PurgeCerts(Passes(s, n - 1))
  }

  ghost function GraphOf(s: Tables): G.Graph
  {
    G.Graph(map f | f in s.certs :: s.certs[f].issuer, set f | f in s.certs && Pinned(s, f))
  }

  /** No foreign key ever rejects the purge. */
  lemma PurgeNeverRejected(s: Tables)
    ensures !DeleteRejected(s.certs, s.obs, Unreferenced(s))
    ensures PurgeCerts(s) == DropCerts(s, Unreferenced(s))
  {
    forall f | f in Unreferenced(s)
      ensures !IsIssuer(s.certs - Unreferenced(s), f)
    {
      assert !IsIssuer(s.certs, f);
    }
  }

  /** The WHERE clause column by column: a certificate survives a pass exactly when it is flagged as
      an anchor, is a root-store anchor, issued a stored certificate, or is named by an endpoint
      link, current or past, a scan row or an inbox row. */
  lemma {:induction false} PurgeByColumns(s: Tables, f: Fingerprint)
    ensures f in PurgeCerts(s).certs <==>
              f in s.certs &&
              (|| s.certs[f].trustAnchor
               || (exists a :: a in s.notes.anchors && a.fingerprint == f)
               || (exists c :: c in s.certs && s.certs[c].issuer == Some(f))
               || (exists l :: l in s.obs.links && l.fingerprint == f)
               || (exists e, i :: e in s.obs.history && 0 <= i < |s.obs.history[e]| && s.obs.history[e][i].scan.fingerprint == Some(f))
               || (exists k :: k in s.notes.inbox && s.notes.inbox[k] == Some(f)))
  {
    PurgeNeverRejected(s);
    SeenByRows(s.obs, f);
  }

  lemma SeenByRows(obs: Observations, f: Fingerprint)
    ensures InHistory(obs, f) <==>
              exists e, i :: e in obs.history && 0 <= i < |obs.history[e]| && obs.history[e][i].scan.fingerprint == Some(f)
  {
    if InHistory(obs, f) {
      var e :| e in obs.history && Seen(obs.history[e], f);
      var i :| 0 <= i < |obs.history[e]| && obs.history[e][i].scan.fingerprint == Some(f);
    }
    if e, i :| e in obs.history && 0 <= i < |obs.history[e]| && obs.history[e][i].scan.fingerprint == Some(f) {
      assert obs.history[e][i] in obs.history[e];
      assert Seen(obs.history[e], f);
    }
  }

  /** A pass only removes unreferenced rows; survivors keep their pins. */
  lemma OnePass(s: Tables)
    ensures var t := PurgeCerts(s);
            && t.certs == s.certs - Unreferenced(s)
            && t.obs == s.obs
            && (forall f :: f in t.certs ==> (Pinned(t, f) <==> Pinned(s, f)))
  {
    PurgeNeverRejected(s);
    var t := PurgeCerts(s);
    forall f | f in t.certs
      ensures IsAnchor(t.notes, f) <==> IsAnchor(s.notes, f)
    {
      if IsAnchor(s.notes, f) {
        var a :| a in s.notes.anchors && a.fingerprint == f;
        assert a in t.notes.anchors;
      }
    }
  }

  /** What is left after any number of passes is what the graph theory says, each row
      unchanged and pinned as before. */
  lemma {:induction false} PassesAreLayers(s: Tables, n: nat)
    ensures Passes(s, n).certs.Keys == G.Remaining(GraphOf(s), n)
    ensures forall f :: f in Passes(s, n).certs ==>
              f in s.certs && Passes(s, n).certs[f] == s.certs[f] && (Pinned(Passes(s, n), f) <==> Pinned(s, f))
  {
    if n > 0 {
      PassesAreLayers(s, n - 1);
      var g, t := GraphOf(s), Passes(s, n - 1);
      OnePass(t);
      forall f | f in t.certs
        ensures IsIssuer(t.certs, f) <==> exists c :: c in G.Remaining(g, n - 1) && G.Issued(g, f, c)
      {
        if IsIssuer(t.certs, f) {
          var c :| c in t.certs && t.certs[c].issuer == Some(f);
          assert G.Issued(g, f, c);
        }
      }
    }
  }

  /** Repeated passes reach a state the purge no longer changes. */
  lemma PurgeTerminates(s: Tables)
    ensures Passes(s, |s.certs| + 1).certs == Passes(s, |s.certs|).certs
  {
    var g := GraphOf(s);
    assert g.issuer.Keys == s.certs.Keys;
    G.PassesTerminate(g);
    PassesAreLayers(s, |s.certs|);
    PassesAreLayers(s, |s.certs| + 1);
  }

  /** No pass ever removes a pinned certificate or any issuer above one. */
  lemma PurgeIsSafe(s: Tables, n: nat)
    ensures G.Live(GraphOf(s)) <= Passes(s, n).certs.Keys
  {
    G.LiveSurvives(GraphOf(s), n);
    PassesAreLayers(s, n);
  }

  /** `n` passes leave exactly the live certificates precisely when no chain of garbage
      certificates is longer than `n`. */
  lemma PurgeIsExact(s: Tables, n: nat)
    ensures Passes(s, n).certs.Keys == G.Live(GraphOf(s)) <==>
              forall chain :: G.IsGarbageChain(GraphOf(s), chain) ==> |chain| <= n
  {
    G.PassesNeeded(GraphOf(s), n);
    PassesAreLayers(s, n);
  }

  /** The purge converges to mark-and-sweep exactly when no garbage certificates issue
      each other in a cycle. */
  lemma PurgeConverges(s: Tables)
    ensures Passes(s, |s.certs|).certs.Keys == G.Live(GraphOf(s)) <==>
              forall c :: G.IsGarbageChain(GraphOf(s), c) ==> !G.IsCycle(c)
  {
    var g := GraphOf(s);
    assert g.issuer.Keys == s.certs.Keys;
    G.ConvergesIffNoGarbageCycle(g);
    PassesAreLayers(s, |s.certs|);
  }

  /** On acyclic issuer links the purge is mark-and-sweep. */
  lemma AcyclicPurgeConverges(s: Tables)
    requires forall c :: G.IsChain(GraphOf(s), c) ==> !G.IsCycle(c)
    ensures Passes(s, |s.certs|).certs.Keys == G.Live(GraphOf(s))
  {
    PurgeConverges(s);
  }

  /** Something other than an issued certificate keeps `f`, column by column. */
  ghost predicate Kept(s: Tables, f: Fingerprint)
  {
    f in s.certs &&
    (|| s.certs[f].trustAnchor
     || (exists a :: a in s.notes.anchors && a.fingerprint == f)
     || (exists l :: l in s.obs.links && l.fingerprint == f)
     || (exists e, i :: e in s.obs.history && 0 <= i < |s.obs.history[e]| && s.obs.history[e][i].scan.fingerprint == Some(f))
     || (exists k :: k in s.notes.inbox && s.notes.inbox[k] == Some(f)))
  }

  /** `chain` climbs the issuer column from its first certificate to its last. */
  ghost predicate Climbs(s: Tables, chain: seq<Fingerprint>)
  {
    && chain != [] && (forall i :: 0 <= i < |chain| ==> chain[i] in s.certs)
    && (forall i :: 0 < i < |chain| ==> s.certs[chain[i - 1]].issuer == Some(chain[i]))
  }

  lemma {:induction false} LiveByColumns(s: Tables, f: Fingerprint)
    ensures f in G.Live(GraphOf(s)) <==> exists chain :: Climbs(s, chain) && Kept(s, chain[0]) && chain[|chain| - 1] == f
  {
    var g := GraphOf(s);
    forall c | c in s.certs
      ensures c in g.pinned <==> Kept(s, c)
    {
      SeenByRows(s.obs, c);
    }
    forall chain
      ensures G.Holds(g, chain, f) <==> Climbs(s, chain) && Kept(s, chain[0]) && chain[|chain| - 1] == f
    {
    }
    if f in G.Live(g) {
      var chain :| G.Holds(g, chain, f);
    }
    if chain :| Climbs(s, chain) && Kept(s, chain[0]) && chain[|chain| - 1] == f {
      assert G.Holds(g, chain, f);
    }
  }

  /** On acyclic issuer links the nightly purge leaves exactly the kept certificates and what their
      issuer columns lead to. */
  lemma {:induction false} PurgeLeavesIssuersOfKept(s: Tables, f: Fingerprint)
    requires forall chain :: Climbs(s, chain) && |chain| > 1 ==> chain[0] != chain[|chain| - 1]
    ensures f in Passes(s, |s.certs|).certs <==>
              exists chain :: Climbs(s, chain) && Kept(s, chain[0]) && chain[|chain| - 1] == f
  {
    forall c | G.IsChain(GraphOf(s), c)
      ensures !G.IsCycle(c)
    {
      if G.IsCycle(c) { assert Climbs(s, c); }
    }
    AcyclicPurgeConverges(s);
    LiveByColumns(s, f);
  }

  /** Two cross-signed certificates that nothing pins are never collected. */
  lemma CrossSignedPairLeaks(s: Tables, a: Fingerprint, b: Fingerprint, n: nat)
    requires a in s.certs && b in s.certs
    requires s.certs[a].issuer == Some(b) && s.certs[b].issuer == Some(a)
    ensures a in Passes(s, n).certs && b in Passes(s, n).certs
  {
    G.CycleSurvives(GraphOf(s), n, [a, b, a]);
    PassesAreLayers(s, n);
    assert [a, b, a][0] == a && [a, b, a][1] == b;
  }

  /** A certificate whose only issuer is named `issuer`. */
  function SignedBy(name: string, issuer: string): CertRecord
  {
    CertRecord("", name, Some(issuer), name, issuer, 0)
  }

  /** Scans of two cross-signed CAs, on a database that holds nothing else. */
  function CrossSignedScans(a: Fingerprint, b: Fingerprint): seq<Step>
  {
    [OnCerts(InsertCertificate(a, SignedBy("A", "B"), None)), OnCerts(InsertCertificate(b, SignedBy("B", "A"), Some(a)))]
  }

  lemma {:induction false} CrossSignedScansLink(a: Fingerprint, b: Fingerprint)
    requires a != b
    ensures After(Empty(), CrossSignedScans(a, b), 2) ==
              Empty().(certs := map[a := Cert(SignedBy("A", "B"), Some(b), false), b := Cert(SignedBy("B", "A"), Some(a), false)])
  {
    var run := CrossSignedScans(a, b);
    var first := map[a := Cert(SignedBy("A", "B"), None, false)];
    assert IssuerCandidates(Empty().certs, a, SignedBy("A", "B")) == {};
    assert After(Empty(), run, 1) == Apply(After(Empty(), run, 0), run[0]);
    assert After(Empty(), run, 1).certs == first;
    assert IssuerCandidates(first, b, SignedBy("B", "A")) == {a};
    assert IsIssuerPick(first, b, SignedBy("B", "A"), Some(a));
    var second := AddCertRow(first, b, SignedBy("B", "A"), Some(a), false);
    assert second == map[a := Cert(SignedBy("A", "B"), Some(b), false), b := Cert(SignedBy("B", "A"), Some(a), false)];
  }

  lemma NothingPinned(s: Tables)
    requires s.obs == Empty().obs && s.notes == Empty().notes && forall f :: f in s.certs ==> !s.certs[f].trustAnchor
    ensures GraphOf(s).pinned == {}
  {
  }

  /** The leak is reached by two inserts: nothing is live, mark-and-sweep would leave nothing,
      and every number of passes leaves both. */
  lemma {:induction false} CrossSignedPairIsGarbage(a: Fingerprint, b: Fingerprint, n: nat)
    requires a != b
    ensures var s := After(Empty(), CrossSignedScans(a, b), 2);
            G.Live(GraphOf(s)) == {} && Passes(s, n).certs.Keys == {a, b}
  {
    CrossSignedScansLink(a, b);
    PairIsGarbage(After(Empty(), CrossSignedScans(a, b), 2), a, b, n);
  }

  lemma {:induction false} PairIsGarbage(s: Tables, a: Fingerprint, b: Fingerprint, n: nat)
    requires s.certs == map[a := Cert(SignedBy("A", "B"), Some(b), false), b := Cert(SignedBy("B", "A"), Some(a), false)]
    requires a != b && s.obs == Empty().obs && s.notes == Empty().notes
    ensures G.Live(GraphOf(s)) == {} && Passes(s, n).certs.Keys == {a, b}
  {
    CrossSignedPairLeaks(s, a, b, n);
    PassesAreLayers(s, n);
    assert Passes(s, n).certs.Keys <= {a, b};
    NothingPinned(s);
    G.NoPinsNothingLive(GraphOf(s));
  }
}
