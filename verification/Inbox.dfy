/**
 The discovery inbox: the one table that names certificates without a foreign key. A
 discovered certificate is displayed, not stored, so inbox rows may name missing ones.
 */
module DiscoveryInbox {
  import opened Base
  import opened Db
  import opened Runs
  import opened CertDeletes
  import opened CertGc

  /** An inbox row and the missing certificate it names. */
  datatype Stray = Stray(key: InboxKey, fingerprint: Fingerprint)

  predicate IsStray(certs: set<Fingerprint>, inbox: map<InboxKey, Option<Fingerprint>>, x: Stray)
  {
    x.key in inbox && inbox[x.key] == Some(x.fingerprint) && x.fingerprint !in certs
  }

  /** No inbox row names a missing certificate. */
  ghost predicate Clean(s: Tables)
  {
    forall x :: !IsStray(s.certs.Keys, s.notes.inbox, x)
  }

  /** The step leaves an inbox row naming a missing certificate where there was none. */
  ghost predicate AddsStray(s: Tables, t: Tables)
  {
    exists x :: IsStray(t.certs.Keys, t.notes.inbox, x) && !IsStray(s.certs.Keys, s.notes.inbox, x)
  }

  /** A report of a certificate that is not stored, other than a repeat of the same report. */
  predicate ReportsUnstored(s: Tables, k: InboxKey, seen: Option<Fingerprint>)
  {
    seen.Some? && seen.value !in s.certs && !(k in s.notes.inbox && s.notes.inbox[k] == seen)
  }

  /** What can be known before the step: it reports an unstored certificate, or it deletes,
      successfully, a certificate the inbox names. */
  predicate WillAddStray(s: Tables, step: Step)
  {
    match step
    case OnNotes(UpsertInboxItem(k, seen)) => ReportsUnstored(s, k, seen)
    case OnPurge(DeleteCertificate(f)) =>
      f in s.certs && CountReferences(s, f) == CertReferences(0, 0, 0, 0) && InInbox(s.notes, f)
    case OnPurge(PurgeCertificate(f)) =>
      f in s.certs && !IsIssuer(s.certs, f) && InInbox(s.notes, f)
    case _ => false
  }

  lemma {:induction false} ReportAddsStrayIff(s: Tables, k: InboxKey, seen: Option<Fingerprint>)
    ensures AddsStray(s, UpsertInbox(s, k, seen)) <==> ReportsUnstored(s, k, seen)
  {
    if ReportsUnstored(s, k, seen) {
      assert IsStray(s.certs.Keys, UpsertInbox(s, k, seen).notes.inbox, Stray(k, seen.value));
    }
  }

  /** Deleting one certificate strands the inbox rows that name it, and no others. */
  lemma {:induction false} DropAddsStrayIff(s: Tables, t: Tables, f: Fingerprint)
    requires f in s.certs && t.certs.Keys == s.certs.Keys - {f} && t.notes.inbox == s.notes.inbox
    ensures AddsStray(s, t) <==> InInbox(s.notes, f)
  {
    if InInbox(s.notes, f) {
      var k :| k in s.notes.inbox && s.notes.inbox[k] == Some(f);
      assert IsStray(t.certs.Keys, t.notes.inbox, Stray(k, f));
    }
  }

  /** Steps that keep every certificate row and the inbox, or only drop inbox rows, add nothing. */
  lemma {:induction false} KeepingAddsNoStray(s: Tables, t: Tables)
    requires s.certs.Keys <= t.certs.Keys
    requires forall k :: k in t.notes.inbox ==> k in s.notes.inbox && t.notes.inbox[k] == s.notes.inbox[k]
    ensures !AddsStray(s, t)
  {
  }

  /** The nightly purge strands nothing: the inbox pins what it names. */
  lemma {:induction false} NightlyPurgeAddsNoStray(s: Tables)
    ensures !AddsStray(s, PurgeCerts(s))
  {
    PurgeNeverRejected(s);
    var t := PurgeCerts(s);
    forall x | IsStray(t.certs.Keys, t.notes.inbox, x)
      ensures IsStray(s.certs.Keys, s.notes.inbox, x)
    {
      assert InInbox(s.notes, x.fingerprint);
    }
  }

  lemma {:induction false} PurgeStepAddsStrayIff(s: Tables, step: PurgeStep)
    requires IssuersHold(s.certs)
    ensures AddsStray(s, ApplyPurge(s, step)) <==> WillAddStray(s, OnPurge(step))
  {
    match step
    case PurgeUnreferencedCerts => NightlyPurgeAddsNoStray(s);
    case DeleteCertificate(f) =>
      if f in s.certs {
        DeleteSucceedsIff(s, f);
        if f !in DeleteCert(s, f).certs { DropAddsStrayIff(s, DeleteCert(s, f), f); }
      }
    case PurgeCertificate(f) =>
      if f in s.certs && !IsIssuer(s.certs, f) {
        PurgeCertNeverRejected(s, f);
        DropAddsStrayIff(s, PurgeCert(s, f), f);
      }
  }

  lemma {:induction false} NoteStepAddsStrayIff(s: Tables, step: NoteStep)
    ensures AddsStray(s, ApplyNote(s, step)) <==> WillAddStray(s, OnNotes(step))
  {
    match step
    case UpsertInboxItem(k, seen) => ReportAddsStrayIff(s, k, seen);
    case _ => KeepingAddsNoStray(s, ApplyNote(s, step));
  }

  /** Exactly three kinds of step leave the inbox naming a missing certificate. */
  lemma {:induction false} StepAddsStrayIff(s: Tables, step: Step)
    requires IssuersHold(s.certs)
    ensures AddsStray(s, Apply(s, step)) <==> WillAddStray(s, step)
  {
    match step
    case OnPurge(p) => PurgeStepAddsStrayIff(s, p);
    case OnNotes(n) => NoteStepAddsStrayIff(s, n);
    case OnCerts(c) => if Enabled(s, step) { CertStepKeepsIssuers(s, c); }
    case _ =>
  }

  ghost predicate CleanAt(s: Tables, steps: seq<Step>, k: nat)
    requires k <= |steps|
  {
    Clean(After(s, steps, k))
  }

  ghost predicate StraysAt(s: Tables, steps: seq<Step>, k: nat)
    requires k < |steps|
  {
    WillAddStray(After(s, steps, k), steps[k])
  }

  lemma {:induction false} StaysCleanIff(s: Tables, steps: seq<Step>, k: nat)
    requires NoDangling(s) && k < |steps| && CleanAt(s, steps, k)
    ensures CleanAt(s, steps, k + 1) <==> !StraysAt(s, steps, k)
  {
    RunKeepsNoDangling(s, steps, k);
    StepAddsStrayIff(After(s, steps, k), steps[k]);
  }

  /** A run from a clean state keeps the inbox clean throughout exactly when none of its steps
      reports an unstored certificate or deletes one the inbox names. */
  lemma {:induction false} RunStaysCleanIff(s: Tables, steps: seq<Step>, n: nat)
    requires NoDangling(s) && Clean(s) && n <= |steps|
    ensures (forall k :: 0 <= k <= n ==> CleanAt(s, steps, k)) <==> (forall k :: 0 <= k < n ==> !StraysAt(s, steps, k))
  {
    if n == 0 {
      assert CleanAt(s, steps, 0);
    } else {
      RunStaysCleanIff(s, steps, n - 1);
      if forall k :: 0 <= k <= n - 1 ==> CleanAt(s, steps, k) {
        assert CleanAt(s, steps, n - 1);
        StaysCleanIff(s, steps, n - 1);
      }
    }
  }

  /** A single discovery report on the empty database already names a missing certificate. */
  lemma FirstReportIsStray(k: InboxKey, f: Fingerprint)
    ensures var run := [OnNotes(UpsertInboxItem(k, Some(f)))];
            !CleanAt(Empty(), run, 1) && NoDangling(After(Empty(), run, 1))
  {
    var run := [OnNotes(UpsertInboxItem(k, Some(f)))];
    assert After(Empty(), run, 0) == Empty();
    var t := After(Empty(), run, 1);
    assert IsStray(t.certs.Keys, t.notes.inbox, Stray(k, f));
  }
}
