/** Deleting one certificate: the plain delete, and the purge that first clears what blocks it. */
module CertDeletes {
  import opened Base
  import opened Db
  import opened Runs

  datatype CertReferences = CertReferences(currentEndpoints: nat, historicalEndpoints: nat, scanHistory: nat, issuedCerts: nat)

  /** countCertReferences. */
  function CountReferences(s: Tables, f: Fingerprint): CertReferences
  {
    CertReferences(
      |set l | l in s.obs.links && l.fingerprint == f && s.obs.links[l]|,
      |set l | l in s.obs.links && l.fingerprint == f && !s.obs.links[l]|,
      |set e, i | e in s.obs.history && 0 <= i < |s.obs.history[e]| && s.obs.history[e][i].scan.fingerprint == Some(f) :: (e, i)|,
      |set c | c in s.certs && s.certs[c].issuer == Some(f)|)
  }

  /** Each count is zero exactly when its table does not name the certificate. */
  lemma CountsAreZeroIff(s: Tables, f: Fingerprint)
    ensures CountReferences(s, f) == CertReferences(0, 0, 0, 0) <==>
              !InLinks(s.obs, f) && !InHistory(s.obs, f) && !IsIssuer(s.certs, f)
  {
    var current := set l | l in s.obs.links && l.fingerprint == f && s.obs.links[l];
    var past := set l | l in s.obs.links && l.fingerprint == f && !s.obs.links[l];
    var rows := set e, i | e in s.obs.history && 0 <= i < |s.obs.history[e]| && s.obs.history[e][i].scan.fingerprint == Some(f) :: (e, i);
    var issued := set c | c in s.certs && s.certs[c].issuer == Some(f);
    assert InLinks(s.obs, f) <==> current != {} || past != {} by {
      if InLinks(s.obs, f) {
        var l :| l in s.obs.links && l.fingerprint == f;
        assert l in current || l in past;
      }
    }
    assert InHistory(s.obs, f) <==> rows != {} by {
      if InHistory(s.obs, f) {
        var e :| e in s.obs.history && Seen(s.obs.history[e], f);
        var i :| 0 <= i < |s.obs.history[e]| && s.obs.history[e][i].scan.fingerprint == Some(f);
        assert (e, i) in rows;
      }
      if rows != {} {
        var p :| p in rows;
        assert s.obs.history[p.0][p.1] in s.obs.history[p.0];
        assert Seen(s.obs.history[p.0], f);
      }
    }
    assert IsIssuer(s.certs, f) <==> issued != {} by {
      if IsIssuer(s.certs, f) {
        var c :| c in s.certs && s.certs[c].issuer == Some(f);
        assert c in issued;
      }
    }
  }

  /** Deleting a stored certificate succeeds exactly when all four reference counts are
      zero; otherwise nothing changes. */
  lemma DeleteSucceedsIff(s: Tables, f: Fingerprint)
    requires IssuersHold(s.certs) && f in s.certs
    ensures f !in DeleteCert(s, f).certs <==> CountReferences(s, f) == CertReferences(0, 0, 0, 0)
    ensures f in DeleteCert(s, f).certs ==> DeleteCert(s, f) == s
  {
    CountsAreZeroIff(s, f);
    assert IsIssuer(s.certs - {f}, f) <==> IsIssuer(s.certs, f) by {
      if IsIssuer(s.certs, f) {
        var c :| c in s.certs && s.certs[c].issuer == Some(f);
        assert c in s.certs - {f} && (s.certs - {f})[c].issuer == Some(f);
      }
    }
    assert f in {f};
    assert DeleteRejected(s.certs, s.obs, {f}) <==> InLinks(s.obs, f) || InHistory(s.obs, f) || IsIssuer(s.certs - {f}, f);
  }

  lemma SomeIffPositive<T>(xs: set<T>)
    ensures |xs| > 0 <==> exists x :: x in xs
  {
    if |xs| > 0 { var x :| x in xs; }
  }

  lemma LinkCounts(s: Tables, f: Fingerprint)
    ensures CountReferences(s, f).currentEndpoints > 0 <==> exists l :: l in s.obs.links && l.fingerprint == f && s.obs.links[l]
    ensures CountReferences(s, f).historicalEndpoints > 0 <==> exists l :: l in s.obs.links && l.fingerprint == f && !s.obs.links[l]
  {
    var current := set l | l in s.obs.links && l.fingerprint == f && s.obs.links[l];
    var past := set l | l in s.obs.links && l.fingerprint == f && !s.obs.links[l];
    SomeIffPositive(current);
    SomeIffPositive(past);
    if l :| l in s.obs.links && l.fingerprint == f && s.obs.links[l] { assert l in current; }
    if l :| l in s.obs.links && l.fingerprint == f && !s.obs.links[l] { assert l in past; }
  }

  lemma RowCounts(s: Tables, f: Fingerprint)
    ensures CountReferences(s, f).scanHistory > 0 <==>
              exists e, i :: e in s.obs.history && 0 <= i < |s.obs.history[e]| && s.obs.history[e][i].scan.fingerprint == Some(f)
  {
    var rows := set e, i | e in s.obs.history && 0 <= i < |s.obs.history[e]| && s.obs.history[e][i].scan.fingerprint == Some(f) :: (e, i);
    SomeIffPositive(rows);
    if e, i :| e in s.obs.history && 0 <= i < |s.obs.history[e]| && s.obs.history[e][i].scan.fingerprint == Some(f) {
      assert (e, i) in rows;
    }
    if p :| p in rows { assert s.obs.history[p.0][p.1].scan.fingerprint == Some(f); }
  }

  lemma IssuedCount(s: Tables, f: Fingerprint)
    ensures CountReferences(s, f).issuedCerts > 0 <==> exists c :: c in s.certs && s.certs[c].issuer == Some(f)
  {
    var issued := set c | c in s.certs && s.certs[c].issuer == Some(f);
    SomeIffPositive(issued);
    if c :| c in s.certs && s.certs[c].issuer == Some(f) { assert c in issued; }
  }

  /** Each count on its own: it is positive exactly when its column names the certificate. */
  lemma {:induction false} CountsByColumn(s: Tables, f: Fingerprint)
    ensures var n := CountReferences(s, f);
            && (n.currentEndpoints > 0 <==> exists l :: l in s.obs.links && l.fingerprint == f && s.obs.links[l])
            && (n.historicalEndpoints > 0 <==> exists l :: l in s.obs.links && l.fingerprint == f && !s.obs.links[l])
            && (n.scanHistory > 0 <==>
                  exists e, i :: e in s.obs.history && 0 <= i < |s.obs.history[e]| && s.obs.history[e][i].scan.fingerprint == Some(f))
            && (n.issuedCerts > 0 <==> exists c :: c in s.certs && s.certs[c].issuer == Some(f))
  {
    LinkCounts(s, f);
    RowCounts(s, f);
    IssuedCount(s, f);
  }

  /** A link adds one to the count of its kind and to no other. */
  lemma {:induction false} LinkCountsOnce(s: Tables, l: Link)
    requires l in s.obs.links
    ensures var fewer := s.(obs := s.obs.(links := s.obs.links - {l}));
            var n, m := CountReferences(s, l.fingerprint), CountReferences(fewer, l.fingerprint);
            if s.obs.links[l] then n == m.(currentEndpoints := m.currentEndpoints + 1)
            else n == m.(historicalEndpoints := m.historicalEndpoints + 1)
  {
    var f, fewer := l.fingerprint, s.obs.links - {l};
    var current := set x | x in s.obs.links && x.fingerprint == f && s.obs.links[x];
    var past := set x | x in s.obs.links && x.fingerprint == f && !s.obs.links[x];
    assert (set x | x in fewer && x.fingerprint == f && fewer[x]) == current - {l};
    assert (set x | x in fewer && x.fingerprint == f && !fewer[x]) == past - {l};
  }

  /** Column by column: a stored certificate can be deleted exactly when no link, scan row or issuer
      column names it. */
  lemma {:induction false} DeletableByColumns(s: Tables, f: Fingerprint)
    requires IssuersHold(s.certs) && f in s.certs
    ensures f !in DeleteCert(s, f).certs <==>
              && (forall l :: l in s.obs.links ==> l.fingerprint != f)
              && (forall e, i :: e in s.obs.history && 0 <= i < |s.obs.history[e]| ==> s.obs.history[e][i].scan.fingerprint != Some(f))
              && (forall c :: c in s.certs ==> s.certs[c].issuer != Some(f))
  {
    DeleteSucceedsIff(s, f);
    CountsByColumn(s, f);
  }

  /** No table with a foreign key names the certificate any more. */
  ghost predicate Gone(s: Tables, f: Fingerprint)
  {
    && f !in s.certs && !InLinks(s.obs, f) && !InHistory(s.obs, f)
    && !IsAnchor(s.notes, f)
    && (forall k :: k in s.notes.trust ==> k.fingerprint != f)
    && (forall a :: a in s.notes.alerts ==> a.fingerprint != f)
  }

  /** Rows about every other certificate, and the whole inbox, are untouched. */
  ghost predicate SameElsewhere(s: Tables, t: Tables, f: Fingerprint)
  {
    && t.now == s.now && t.users == s.users && t.fleet == s.fleet
    && (forall c :: c != f ==> (c in t.certs <==> c in s.certs) && (c in s.certs ==> t.certs[c] == s.certs[c]))
    && (forall l: Link :: l.fingerprint != f ==> (l in t.obs.links <==> l in s.obs.links) && (l in s.obs.links ==> t.obs.links[l] == s.obs.links[l]))
    && t.obs.history.Keys == s.obs.history.Keys
    && (forall e, r: ScanRow :: e in s.obs.history && r.scan.fingerprint != Some(f) ==> (r in t.obs.history[e] <==> r in s.obs.history[e]))
    && (forall a: Anchor :: a.fingerprint != f ==> (a in t.notes.anchors <==> a in s.notes.anchors))
    && (forall k: TrustKey :: k.fingerprint != f ==> (k in t.notes.trust <==> k in s.notes.trust) && (k in s.notes.trust ==> t.notes.trust[k] == s.notes.trust[k]))
    && (forall a: Alert :: a.fingerprint != f ==> (a in t.notes.alerts <==> a in s.notes.alerts))
    && t.notes.inbox == s.notes.inbox
  }

  /** The purge's final delete is never rejected by a foreign key. */
  lemma PurgeCertNeverRejected(s: Tables, f: Fingerprint)
    requires !IsIssuer(s.certs, f)
    ensures !DeleteRejected(s.certs, ClearReferences(s.obs, f), {f})
  {
    var obs := ClearReferences(s.obs, f);
    forall e | e in obs.history
      ensures !Seen(obs.history[e], f)
    {
    }
  }

  lemma ClearedElsewhere(s: Tables, f: Fingerprint)
    ensures SameElsewhere(s, DropCerts(s.(obs := ClearReferences(s.obs, f)), {f}), f)
  {
  }

  lemma ClearedHere(s: Tables, f: Fingerprint)
    ensures Gone(DropCerts(s.(obs := ClearReferences(s.obs, f)), {f}), f)
  {
    var obs := ClearReferences(s.obs, f);
    forall e | e in obs.history
      ensures !Seen(obs.history[e], f)
    {
    }
  }

  /** All or nothing: a stored certificate that issued nothing goes with everything that
      names it and nothing else; in every other case nothing changes. */
  lemma PurgeCertAllOrNothing(s: Tables, f: Fingerprint)
    ensures f in s.certs && !IsIssuer(s.certs, f) ==> Gone(PurgeCert(s, f), f) && SameElsewhere(s, PurgeCert(s, f), f)
    ensures f !in s.certs || IsIssuer(s.certs, f) ==> PurgeCert(s, f) == s
  {
    if f in s.certs && !IsIssuer(s.certs, f) {
      PurgeCertNeverRejected(s, f);
      ClearedHere(s, f);
      ClearedElsewhere(s, f);
    }
  }
}
