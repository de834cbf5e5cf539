/** Issuer links over whole runs: what the insert trigger leaves for the reconcile job. */
module IssuerLinks {
  import opened Base
  import opened Db
  import opened Runs

  /** Every certificate whose issuer is stored is linked to one. */
  ghost predicate FullyLinked(certs: map<Fingerprint, Cert>)
  {
    forall f, i :: f in certs && i in certs && i != f && IssuedBy(certs[f].rec, certs[i].rec) ==> certs[f].issuer.Some?
  }

  lemma FullyLinkedIff(certs: map<Fingerprint, Cert>)
    ensures FullyLinked(certs) <==> Unlinked(certs) == {}
  {
    if FullyLinked(certs) {
      forall f | f in certs && certs[f].issuer.None?
        ensures IssuerCandidates(certs, f, certs[f].rec) == {}
      {
      }
    } else {
      var f, i :| f in certs && i in certs && i != f && IssuedBy(certs[f].rec, certs[i].rec) && certs[f].issuer.None?;
      assert i in IssuerCandidates(certs, f, certs[f].rec);
      assert f in Unlinked(certs);
    }
  }

  /** The trigger links the new row and everything that was waiting for it. */
  lemma {:induction false} InsertKeepsLinked(certs: map<Fingerprint, Cert>, f: Fingerprint, rec: CertRecord, pick: Option<Fingerprint>, anchor: bool)
    requires FullyLinked(certs) && f !in certs && IsIssuerPick(certs, f, rec, pick)
    ensures FullyLinked(AddCertRow(certs, f, rec, pick, anchor))
  {
    var after := AddCertRow(certs, f, rec, pick, anchor);
    forall x, i | x in after && i in after && i != x && IssuedBy(after[x].rec, after[i].rec)
      ensures after[x].issuer.Some?
    {
      if x == f { assert i in IssuerCandidates(certs, f, rec); }
    }
  }

  lemma {:induction false} CertStepKeepsLinked(s: Tables, step: CertStep)
    requires FullyLinked(s.certs) && CertStepEnabled(s.certs, step)
    ensures FullyLinked(ApplyCert(s, step).certs)
  {
    if (step.InsertCertificate? || step.UpsertTrustAnchor?) && step.f !in s.certs {
      InsertKeepsLinked(s.certs, step.f, step.rec, step.pick, step.UpsertTrustAnchor?);
    }
  }

  lemma {:induction false} StepKeepsLinked(s: Tables, step: Step)
    requires FullyLinked(s.certs)
    ensures FullyLinked(Apply(s, step).certs)
  {
    if step.OnCerts? && Enabled(s, step) { CertStepKeepsLinked(s, step.cert); }
  }

  lemma {:induction false} RunKeepsLinked(s: Tables, steps: seq<Step>, n: nat)
    requires FullyLinked(s.certs) && n <= |steps|
    ensures FullyLinked(After(s, steps, n).certs)
  {
    if n > 0 {
      RunKeepsLinked(s, steps, n - 1);
      StepKeepsLinked(After(s, steps, n - 1), steps[n - 1]);
    }
  }

  /** In every run from the empty database the trigger leaves the reconcile job nothing to do. */
  lemma {:induction false} ReconcileFindsNothing(steps: seq<Step>, n: nat)
    requires n <= |steps|
    ensures Unlinked(After(Empty(), steps, n).certs) == {}
  {
    RunKeepsLinked(Empty(), steps, n);
    FullyLinkedIff(After(Empty(), steps, n).certs);
  }

  // ---------------------------------------------------------------------------
  // What a link says
  // ---------------------------------------------------------------------------

  /** The issuer column names a certificate whose key identifier is the authority key identifier
      and whose subject is the issuer. */
  ghost predicate LinksMatch(certs: map<Fingerprint, Cert>)
  {
    forall f :: f in certs && certs[f].issuer.Some? && certs[f].issuer.value in certs ==>
      && certs[f].rec.authorityKeyId == Some(certs[certs[f].issuer.value].rec.subjectKeyId)
      && certs[f].rec.issuerDn == certs[certs[f].issuer.value].rec.subjectDn
  }

  /** The two certificates fit as child and issuer. */
  predicate Fits(child: CertRecord, issuer: CertRecord)
  {
    child.authorityKeyId == Some(issuer.subjectKeyId) && child.issuerDn == issuer.subjectDn
  }

  lemma {:induction false} InsertKeepsMatch(certs: map<Fingerprint, Cert>, f: Fingerprint, rec: CertRecord, pick: Option<Fingerprint>, anchor: bool)
    requires LinksMatch(certs) && IssuersHold(certs) && f !in certs && IsIssuerPick(certs, f, rec, pick)
    ensures LinksMatch(AddCertRow(certs, f, rec, pick, anchor))
  {
    if pick.Some? { assert pick.value in IssuerCandidates(certs, f, rec); }
  }

  lemma {:induction false} ReconcileKeepsMatch(s: Tables, picks: map<Fingerprint, Fingerprint>)
    requires LinksMatch(s.certs) && AreChainPicks(s.certs, picks)
    ensures LinksMatch(ReconcileChains(s, picks).certs)
  {
    forall f | f in picks
      ensures picks[f] in s.certs && Fits(s.certs[f].rec, s.certs[picks[f]].rec)
    {
      assert picks[f] in IssuerCandidates(s.certs, f, s.certs[f].rec);
    }
  }

  lemma {:induction false} CertStepKeepsMatch(s: Tables, step: CertStep)
    requires LinksMatch(s.certs) && IssuersHold(s.certs) && CertStepEnabled(s.certs, step)
    ensures LinksMatch(ApplyCert(s, step).certs)
  {
    match step
    case InsertCertificate(f, rec, pick) => if f !in s.certs { InsertKeepsMatch(s.certs, f, rec, pick, false); }
    case UpsertTrustAnchor(f, rec, pick) => if f !in s.certs { InsertKeepsMatch(s.certs, f, rec, pick, true); }
    case ReconcileCertificateChains(picks) => ReconcileKeepsMatch(s, picks);
    case _ =>
  }

  lemma {:induction false} StepKeepsMatch(s: Tables, step: Step)
    requires LinksMatch(s.certs) && IssuersHold(s.certs)
    ensures LinksMatch(Apply(s, step).certs)
  {
    if step.OnCerts? && Enabled(s, step) { CertStepKeepsMatch(s, step.cert); }
  }

  lemma {:induction false} RunKeepsMatch(s: Tables, steps: seq<Step>, n: nat)
    requires LinksMatch(s.certs) && NoDangling(s) && n <= |steps|
    ensures LinksMatch(After(s, steps, n).certs)
  {
    if n > 0 {
      var k := n - 1;
      RunKeepsMatch(s, steps, k);
      RunKeepsNoDangling(s, steps, k);
      StepKeepsMatch(After(s, steps, k), steps[k]);
    }
  }

  /** In every run from the empty database every issuer column names a stored certificate that
      matches, key identifier and name, and only certificates without a stored match have none. */
  lemma {:induction false} IssuerColumnIsRight(steps: seq<Step>, n: nat, f: Fingerprint)
    requires n <= |steps| && f in After(Empty(), steps, n).certs
    ensures var certs := After(Empty(), steps, n).certs;
            if certs[f].issuer == None then
              forall i :: i in certs && i != f ==>
                certs[f].rec.authorityKeyId != Some(certs[i].rec.subjectKeyId) || certs[f].rec.issuerDn != certs[i].rec.subjectDn
            else
              certs[f].issuer.value in certs
              && certs[f].rec.authorityKeyId == Some(certs[certs[f].issuer.value].rec.subjectKeyId)
              && certs[f].rec.issuerDn == certs[certs[f].issuer.value].rec.subjectDn
  {
    RunKeepsLinked(Empty(), steps, n);
    RunKeepsNoDangling(Empty(), steps, n);
    RunKeepsMatch(Empty(), steps, n);
  }

  /** A new row is stored as extracted, flagged as asked, and linked to a matching certificate that
      expires last; its waiting children are linked to it and every other row is as it was. */
  lemma {:induction false} NewRowByColumns(s: Tables, f: Fingerprint, rec: CertRecord, pick: Option<Fingerprint>, x: Fingerprint)
    requires f !in s.certs && x != f && IsIssuerPick(s.certs, f, rec, pick)
    ensures var plain, anchor := InsertCert(s, f, rec, pick).certs, UpsertAnchor(s, f, rec, pick).certs;
            && f in plain && plain[f].rec == rec && !plain[f].trustAnchor
            && f in anchor && anchor[f] == plain[f].(trustAnchor := true)
            && (plain[f].issuer == Some(x) ==>
                  x in s.certs && rec.authorityKeyId == Some(s.certs[x].rec.subjectKeyId) && rec.issuerDn == s.certs[x].rec.subjectDn)
            && (x in s.certs && rec.authorityKeyId == Some(s.certs[x].rec.subjectKeyId) && rec.issuerDn == s.certs[x].rec.subjectDn ==>
                  plain[f].issuer.Some? && plain[f].issuer.value in s.certs
                  && s.certs[x].rec.notAfter <= s.certs[plain[f].issuer.value].rec.notAfter)
            && (x in plain <==> x in s.certs) && (x in anchor <==> x in s.certs)
            && (x in s.certs ==>
                  plain[x] == anchor[x] &&
                  plain[x] == if s.certs[x].issuer == None && s.certs[x].rec.authorityKeyId == Some(rec.subjectKeyId)
                                 && s.certs[x].rec.issuerDn == rec.subjectDn then s.certs[x].(issuer := Some(f)) else s.certs[x])
  {
    if x in s.certs && IssuedBy(rec, s.certs[x].rec) { assert x in IssuerCandidates(s.certs, f, rec); }
  }

  /** A stored row is left alone by another insert, and only flagged by the anchor upserts. */
  lemma StoredRowByColumns(s: Tables, f: Fingerprint, rec: CertRecord, pick: Option<Fingerprint>)
    requires f in s.certs
    ensures InsertCert(s, f, rec, pick) == s
    ensures UpsertAnchor(s, f, rec, pick) == s.(certs := s.certs[f := s.certs[f].(trustAnchor := true)])
    ensures MarkAnchor(s, f) == s.(certs := s.certs[f := s.certs[f].(trustAnchor := true)])
  {
  }
}
