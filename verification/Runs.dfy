/**
 Runs of the store: every committed statement or transaction is one step, and the
 invariants below hold in every state a run can reach.
 */
module Runs {
  import opened Base
  import opened FleetTables
  import opened Db

  /** Steps that write `certificates` and what follows its rows. */
  datatype CertStep =
    | InsertCertificate(f: Fingerprint, rec: CertRecord, pick: Option<Fingerprint>)
    | ReconcileCertificateChains(picks: map<Fingerprint, Fingerprint>)
    | UpsertTrustAnchor(f: Fingerprint, rec: CertRecord, pick: Option<Fingerprint>)
    | MarkTrustAnchor(f: Fingerprint)
    | ReconcileTrustAnchorFlags

  datatype PurgeStep =
    | DeleteCertificate(f: Fingerprint)
    | PurgeCertificate(f: Fingerprint)
    | PurgeUnreferencedCerts

  /** Steps that write what was observed on endpoints. */
  datatype ScanStep =
    | RecordScanResult(e: EndpointId, scan: Scan)
    | UpsertEndpointCert(e: EndpointId, f: Fingerprint, use: Use)
    | PurgeScanHistory(days: int)

  /** Steps that write what is recorded about certificates, and users. */
  datatype NoteStep =
    | TryInsertExpiryAlert(alert: Alert)
    | PurgeExpiryAlerts
    | ReplaceRootStoreAnchors(store: StoreId, members: seq<Fingerprint>)
    | UpsertCertificateTrust(f: Fingerprint, verdicts: map<StoreId, Verdict>)
    | UpsertInboxItem(key: InboxKey, seen: Option<Fingerprint>)
    | DeleteInboxItem(key: InboxKey)
    | AddUser(u: UserId)
    | DeleteUser(u: UserId)

  datatype Step =
    | OnCerts(cert: CertStep)
    | OnPurge(purge: PurgeStep)
    | OnScans(scan: ScanStep)
    | OnNotes(note: NoteStep)
    | OnFleet(op: FleetStep)
    | Elapse(micros: nat)

  /** The step's choices are ones the database may make, and its arguments ones the code accepts. */
  ghost predicate CertStepEnabled(certs: map<Fingerprint, Cert>, step: CertStep)
  {
    match step
    case InsertCertificate(f, rec, pick) => IsIssuerPick(certs, f, rec, pick)
    case UpsertTrustAnchor(f, rec, pick) => IsIssuerPick(certs, f, rec, pick)
    case ReconcileCertificateChains(picks) => AreChainPicks(certs, picks)
    case _ => true
  }

  ghost predicate Enabled(s: Tables, step: Step)
  {
    match step
    case OnCerts(c) => CertStepEnabled(s.certs, c)
    case OnFleet(op) => FleetEnabled(op) && !op.Touch?
    case _ => true
  }

  function ApplyCert(s: Tables, step: CertStep): (t: Tables)
    ensures t == s.(certs := t.certs)
  {
    match step
    case InsertCertificate(f, rec, pick) => InsertCert(s, f, rec, pick)
    case ReconcileCertificateChains(picks) => ReconcileChains(s, picks)
    case UpsertTrustAnchor(f, rec, pick) => UpsertAnchor(s, f, rec, pick)
    case MarkTrustAnchor(f) => MarkAnchor(s, f)
    case ReconcileTrustAnchorFlags => ReconcileFlags(s)
  }

  function ApplyPurge(s: Tables, step: PurgeStep): (t: Tables)
    ensures t == s.(certs := t.certs, obs := t.obs, notes := t.notes)
  {
    match step
    case DeleteCertificate(f) => DeleteCert(s, f)
    case PurgeCertificate(f) => PurgeCert(s, f)
    case PurgeUnreferencedCerts => PurgeCerts(s)
  }

  function ApplyScan(s: Tables, step: ScanStep): (t: Tables)
    ensures t == s.(now := t.now, fleet := t.fleet, obs := t.obs)
  {
    match step
    case RecordScanResult(e, scan) => RecordScan(s, e, scan)
    case UpsertEndpointCert(e, f, use) => LinkCert(s, e, f, use)
    case PurgeScanHistory(days) => PurgeHistory(s, days)
  }

  function ApplyNote(s: Tables, step: NoteStep): (t: Tables)
    ensures t == s.(users := t.users, notes := t.notes)
  {
    match step
    case TryInsertExpiryAlert(a) => ClaimAlert(s, a)
    case PurgeExpiryAlerts => PurgeAlerts(s)
    case ReplaceRootStoreAnchors(store, members) => ReplaceAnchors(s, store, members)
    case UpsertCertificateTrust(f, verdicts) => StoreVerdicts(s, f, verdicts)
    case UpsertInboxItem(k, f) => UpsertInbox(s, k, f)
    case DeleteInboxItem(k) => DropInbox(s, k)
    case AddUser(u) => s.(users := s.users + {u})
    case DeleteUser(u) => DropUser(s, u)
  }

  /** A step the database cannot take leaves the state as it is. */
  ghost function Apply(s: Tables, step: Step): Tables
  {
    if !Enabled(s, step) then s else
    match step
    case OnCerts(c) => ApplyCert(s, c)
    case OnPurge(p) => ApplyPurge(s, p)
    case OnScans(x) => ApplyScan(s, x)
    case OnNotes(n) => ApplyNote(s, n)
    case OnFleet(op) => ChangeFleet(s, op)
    case Elapse(d) => s.(now := s.now + d)
  }

  /** The state after the first `n` steps. */
  ghost function After(s: Tables, steps: seq<Step>, n: nat): Tables
    requires n <= |steps|
  {
    if n == 0 then s else Apply(After(s, steps, n - 1), steps[n - 1])
  }

  // ---------------------------------------------------------------------------
  // Invariants
  // ---------------------------------------------------------------------------

  /** Issuer links name stored certificates, never the certificate itself. */
  ghost predicate IssuersHold(certs: map<Fingerprint, Cert>)
  {
    forall f :: f in certs && certs[f].issuer.Some? ==> certs[f].issuer.value in certs && certs[f].issuer.value != f
  }

  ghost predicate RowsHold(keys: set<Fingerprint>, rows: seq<ScanRow>)
  {
    forall r :: r in rows && r.scan.fingerprint.Some? ==> r.scan.fingerprint.value in keys
  }

  ghost predicate ObservationsHold(keys: set<Fingerprint>, endpoints: set<EndpointId>, obs: Observations)
  {
    && (forall l :: l in obs.links ==> l.fingerprint in keys && l.endpoint in endpoints)
    && (forall e :: e in obs.history ==> e in endpoints && RowsHold(keys, obs.history[e]))
  }

  ghost predicate AnnotationsHold(keys: set<Fingerprint>, users: set<UserId>, notes: Annotations)
  {
    && (forall a :: a in notes.anchors ==> a.fingerprint in keys)
    && (forall k :: k in notes.trust ==> k.fingerprint in keys)
    && (forall a :: a in notes.alerts ==> a.fingerprint in keys && a.user in users)
  }

  /** No row of a table with a foreign key names a missing row. */
  ghost predicate NoDangling(s: Tables)
  {
    && IssuersHold(s.certs)
    && ObservationsHold(s.certs.Keys, s.fleet.endpoints.Keys, s.obs)
    && AnnotationsHold(s.certs.Keys, s.users, s.notes)
  }

  ghost predicate Ascending(rows: seq<ScanRow>)
  {
    forall i, j :: 0 <= i < j < |rows| ==> rows[i].at < rows[j].at
  }

  ghost predicate InOrder(rows: seq<ScanRow>, now: nat)
  {
    Ascending(rows) && forall r :: r in rows ==> r.at < now
  }

  /** Each endpoint's rows are in clock order and in the past. */
  ghost predicate LedgerInOrder(history: map<EndpointId, seq<ScanRow>>, now: nat)
  {
    forall e :: e in history ==> InOrder(history[e], now)
  }

  /** Each (endpoint, use) pair has at most one current certificate. */
  ghost predicate OneCurrent(links: map<Link, bool>)
  {
    forall l, m :: l in links && m in links && links[l] && links[m] && l.endpoint == m.endpoint && l.use == m.use ==> l == m
  }

  ghost predicate Wf(s: Tables)
  {
    FleetWf(s.fleet) && NoDangling(s) && LedgerInOrder(s.obs.history, s.now) && OneCurrent(s.obs.links)
  }

  /** The database after the migrations. */
  function Empty(): Tables
  {
    Tables(0, {}, Fleet(map[], map[], map[], map[]), map[], Observations(map[], map[]), Annotations({}, map[], {}, map[]))
  }

  // Row-level facts

  lemma {:induction false} KeepAscending(rows: seq<ScanRow>, keep: ScanRow -> bool)
    requires Ascending(rows)
    ensures Ascending(Keep(rows, keep))
  {
    if rows != [] {
      KeepAscending(rows[1..], keep);
      forall r | r in rows[1..]
        ensures rows[0].at < r.at
      {
      }
    }
  }

  lemma {:induction false} RetainInOrder(rows: seq<ScanRow>, cutoff: int, now: nat)
    requires InOrder(rows, now)
    ensures InOrder(Retain(rows, cutoff), now)
  {
    if rows != [] {
      var newest := Newest(rows);
      KeepAscending(rows, (r: ScanRow) => r.at >= cutoff || r == newest);
    }
  }

  lemma {:induction false} ClearInOrder(history: map<EndpointId, seq<ScanRow>>, links: map<Link, bool>, f: Fingerprint, now: nat)
    requires LedgerInOrder(history, now)
    ensures LedgerInOrder(ClearReferences(Observations(links, history), f).history, now)
  {
    forall e | e in history
      ensures Ascending(Keep(history[e], (r: ScanRow) => r.scan.fingerprint != Some(f)))
    {
      KeepAscending(history[e], (r: ScanRow) => r.scan.fingerprint != Some(f));
    }
  }

  lemma {:induction false} AppendInOrder(history: map<EndpointId, seq<ScanRow>>, e: EndpointId, scan: Scan, now: nat)
    requires LedgerInOrder(history, now)
    ensures LedgerInOrder(AppendScan(history, e, ScanRow(now, scan)), now + 1)
  {
  }

  lemma {:induction false} RetainAllInOrder(history: map<EndpointId, seq<ScanRow>>, cutoff: int, now: nat)
    requires LedgerInOrder(history, now)
    ensures LedgerInOrder(RetainAll(history, cutoff), now)
  {
    forall e | e in history { RetainInOrder(history[e], cutoff, now); }
  }

  lemma {:induction false} RecordKeepsLedgerOrder(s: Tables, e: EndpointId, scan: Scan)
    requires LedgerInOrder(s.obs.history, s.now)
    ensures LedgerInOrder(RecordScan(s, e, scan).obs.history, RecordScan(s, e, scan).now)
  {
    if !ScanRejected(s, e, scan) {
      AppendInOrder(s.obs.history, e, scan, s.now);
      assert RecordScan(s, e, scan).obs.history == AppendScan(s.obs.history, e, ScanRow(s.now, scan));
    }
  }

  lemma {:induction false} ScanStepKeepsLedgerOrder(s: Tables, step: ScanStep)
    requires LedgerInOrder(s.obs.history, s.now)
    ensures LedgerInOrder(ApplyScan(s, step).obs.history, ApplyScan(s, step).now)
  {
    match step
    case RecordScanResult(e, scan) => RecordKeepsLedgerOrder(s, e, scan);
    case UpsertEndpointCert(e, f, use) =>
    case PurgeScanHistory(days) => RetainAllInOrder(s.obs.history, Cutoff(s.now, days), s.now);
  }

  lemma {:induction false} PurgeStepKeepsLedgerOrder(s: Tables, step: PurgeStep)
    requires LedgerInOrder(s.obs.history, s.now)
    ensures LedgerInOrder(ApplyPurge(s, step).obs.history, s.now)
  {
    if step.PurgeCertificate? { ClearInOrder(s.obs.history, s.obs.links, step.f, s.now); }
  }

  lemma {:induction false} StepKeepsLedgerOrder(s: Tables, step: Step)
    requires LedgerInOrder(s.obs.history, s.now)
    ensures LedgerInOrder(Apply(s, step).obs.history, Apply(s, step).now)
  {
    match step
    case OnScans(x) => ScanStepKeepsLedgerOrder(s, x);
    case OnPurge(p) => PurgeStepKeepsLedgerOrder(s, p);
    case _ =>
  }

  lemma {:induction false} RunKeepsLedgerOrder(s: Tables, steps: seq<Step>, n: nat)
    requires LedgerInOrder(s.obs.history, s.now) && n <= |steps|
    ensures LedgerInOrder(After(s, steps, n).obs.history, After(s, steps, n).now)
  {
    if n > 0 {
      RunKeepsLedgerOrder(s, steps, n - 1);
      StepKeepsLedgerOrder(After(s, steps, n - 1), steps[n - 1]);
    }
  }

  lemma {:induction false} LinkKeepsOneCurrent(links: map<Link, bool>, e: EndpointId, f: Fingerprint, use: Use)
    requires OneCurrent(links)
    ensures OneCurrent(LinkCurrent(links, e, f, use))
  {
  }

  lemma {:induction false} ScanStepKeepsOneCurrent(s: Tables, step: ScanStep)
    requires OneCurrent(s.obs.links)
    ensures OneCurrent(ApplyScan(s, step).obs.links)
  {
    match step
    case RecordScanResult(e, scan) =>
      if scan.fingerprint.Some? { LinkKeepsOneCurrent(s.obs.links, e, scan.fingerprint.value, Tls); }
    case UpsertEndpointCert(e, f, use) => LinkKeepsOneCurrent(s.obs.links, e, f, use);
    case PurgeScanHistory(days) =>
  }

  lemma {:induction false} StepKeepsOneCurrent(s: Tables, step: Step)
    requires OneCurrent(s.obs.links)
    ensures OneCurrent(Apply(s, step).obs.links)
  {
    if step.OnScans? { ScanStepKeepsOneCurrent(s, step.scan); }
  }

  lemma {:induction false} StepKeepsFleetWf(s: Tables, step: Step)
    requires FleetWf(s.fleet)
    ensures FleetWf(Apply(s, step).fleet)
  {
    match step
    case OnScans(x) =>
      if x.RecordScanResult? { FleetStepKeepsWf(s.fleet, Touch(x.e, s.now, x.scan.error, x.scan.resolvedIp)); }
    case OnFleet(op) => if FleetEnabled(op) { FleetStepKeepsWf(s.fleet, op); }
    case _ =>
  }

  // References

  /** Deleting certificates no NO ACTION reference names leaves no dangling row. */
  lemma {:induction false} DropKeepsReferences(certs: map<Fingerprint, Cert>, endpoints: set<EndpointId>, users: set<UserId>,
                                               obs: Observations, notes: Annotations, dead: set<Fingerprint>)
    requires IssuersHold(certs) && ObservationsHold(certs.Keys, endpoints, obs) && AnnotationsHold(certs.Keys, users, notes)
    requires !DeleteRejected(certs, obs, dead)
    ensures IssuersHold(certs - dead)
    ensures ObservationsHold((certs - dead).Keys, endpoints, obs)
    ensures AnnotationsHold((certs - dead).Keys, users, DropNotes(notes, dead))
  {
    forall e, r | e in obs.history && r in obs.history[e] && r.scan.fingerprint.Some?
      ensures r.scan.fingerprint.value !in dead
    {
      assert Seen(obs.history[e], r.scan.fingerprint.value);
    }
    forall l | l in obs.links
      ensures l.fingerprint !in dead
    {
      assert InLinks(obs, l.fingerprint);
    }
    forall f | f in certs - dead && certs[f].issuer.Some?
      ensures certs[f].issuer.value !in dead
    {
      assert IsIssuer(certs - dead, certs[f].issuer.value);
    }
  }

  lemma {:induction false} DropKeepsNoDangling(s: Tables, dead: set<Fingerprint>)
    requires NoDangling(s) && !DeleteRejected(s.certs, s.obs, dead)
    ensures NoDangling(DropCerts(s, dead))
  {
    DropKeepsReferences(s.certs, s.fleet.endpoints.Keys, s.users, s.obs, s.notes, dead);
  }

  lemma {:induction false} ClearKeepsObservations(keys: set<Fingerprint>, endpoints: set<EndpointId>, obs: Observations, f: Fingerprint)
    requires ObservationsHold(keys, endpoints, obs)
    ensures ObservationsHold(keys, endpoints, ClearReferences(obs, f))
  {
  }

  lemma {:induction false} PurgeStepKeepsNoDangling(s: Tables, step: PurgeStep)
    requires NoDangling(s)
    ensures NoDangling(ApplyPurge(s, step))
  {
    match step
    case DeleteCertificate(f) => if !DeleteRejected(s.certs, s.obs, {f}) { DropKeepsNoDangling(s, {f}); }
    case PurgeUnreferencedCerts =>
      if !DeleteRejected(s.certs, s.obs, Unreferenced(s)) { DropKeepsNoDangling(s, Unreferenced(s)); }
    case PurgeCertificate(f) =>
      var cleared := s.(obs := ClearReferences(s.obs, f));
      ClearKeepsObservations(s.certs.Keys, s.fleet.endpoints.Keys, s.obs, f);
      if !DeleteRejected(cleared.certs, cleared.obs, {f}) { DropKeepsNoDangling(cleared, {f}); }
  }

  lemma {:induction false} InsertKeepsIssuers(certs: map<Fingerprint, Cert>, f: Fingerprint, rec: CertRecord, pick: Option<Fingerprint>, anchor: bool)
    requires IssuersHold(certs) && IsIssuerPick(certs, f, rec, pick)
    ensures f !in certs ==> IssuersHold(AddCertRow(certs, f, rec, pick, anchor))
  {
  }

  /** Steps that rewrite certificate rows keep every key and every issuer link sound. */
  lemma {:induction false} CertStepKeepsIssuers(s: Tables, step: CertStep)
    requires IssuersHold(s.certs) && CertStepEnabled(s.certs, step)
    ensures s.certs.Keys <= ApplyCert(s, step).certs.Keys
    ensures IssuersHold(ApplyCert(s, step).certs)
  {
    if step.InsertCertificate? || step.UpsertTrustAnchor? {
      InsertKeepsIssuers(s.certs, step.f, step.rec, step.pick, step.UpsertTrustAnchor?);
    }
  }

  lemma {:induction false} ObserveKeepsReferences(keys: set<Fingerprint>, endpoints: set<EndpointId>, obs: Observations, e: EndpointId, row: ScanRow)
    requires ObservationsHold(keys, endpoints, obs)
    requires Changed(Rows(obs.history, e), row.scan) || row.scan.fingerprint.Some? ==> e in endpoints
    requires row.scan.fingerprint.Some? ==> row.scan.fingerprint.value in keys
    ensures ObservationsHold(keys, endpoints, Observe(obs, e, row))
  {
  }

  lemma {:induction false} RetainKeepsReferences(keys: set<Fingerprint>, endpoints: set<EndpointId>, obs: Observations, cutoff: int)
    requires ObservationsHold(keys, endpoints, obs)
    ensures ObservationsHold(keys, endpoints, obs.(history := RetainAll(obs.history, cutoff)))
  {
  }

  lemma {:induction false} ScanStepKeepsReferences(s: Tables, step: ScanStep)
    requires ObservationsHold(s.certs.Keys, s.fleet.endpoints.Keys, s.obs)
    ensures ApplyScan(s, step).fleet.endpoints.Keys == s.fleet.endpoints.Keys
    ensures ObservationsHold(s.certs.Keys, s.fleet.endpoints.Keys, ApplyScan(s, step).obs)
  {
    match step
    case RecordScanResult(e, scan) =>
      if !ScanRejected(s, e, scan) { ObserveKeepsReferences(s.certs.Keys, s.fleet.endpoints.Keys, s.obs, e, ScanRow(s.now, scan)); }
    case UpsertEndpointCert(e, f, use) =>
    case PurgeScanHistory(days) => RetainKeepsReferences(s.certs.Keys, s.fleet.endpoints.Keys, s.obs, Cutoff(s.now, days));
  }

  lemma {:induction false} FleetStepKeepsReferences(s: Tables, op: FleetStep)
    requires FleetEnabled(op)
    requires ObservationsHold(s.certs.Keys, s.fleet.endpoints.Keys, s.obs)
    ensures ObservationsHold(s.certs.Keys, ChangeFleet(s, op).fleet.endpoints.Keys, ChangeFleet(s, op).obs)
  {
  }

  lemma {:induction false} NoteStepKeepsReferences(s: Tables, step: NoteStep)
    requires AnnotationsHold(s.certs.Keys, s.users, s.notes)
    ensures AnnotationsHold(s.certs.Keys, ApplyNote(s, step).users, ApplyNote(s, step).notes)
  {
  }

  lemma {:induction false} StepKeepsNoDangling(s: Tables, step: Step)
    requires NoDangling(s)
    ensures NoDangling(Apply(s, step))
  {
    if Enabled(s, step) {
      match step
      case OnCerts(c) => CertStepKeepsIssuers(s, c);
      case OnPurge(p) => PurgeStepKeepsNoDangling(s, p);
      case OnScans(x) => ScanStepKeepsReferences(s, x);
      case OnNotes(n) => NoteStepKeepsReferences(s, n);
      case OnFleet(op) => FleetStepKeepsReferences(s, op);
      case Elapse(d) =>
    }
  }

  /** In every reachable state no row of a table with a foreign key names a missing row. */
  lemma {:induction false} RunKeepsNoDangling(s: Tables, steps: seq<Step>, n: nat)
    requires NoDangling(s) && n <= |steps|
    ensures NoDangling(After(s, steps, n))
  {
    if n > 0 {
      RunKeepsNoDangling(s, steps, n - 1);
      StepKeepsNoDangling(After(s, steps, n - 1), steps[n - 1]);
    }
  }

  /** Every state of every run is well formed. */
  lemma {:induction false} RunKeepsWf(s: Tables, steps: seq<Step>, n: nat)
    requires Wf(s) && n <= |steps|
    ensures Wf(After(s, steps, n))
  {
    if n > 0 {
      RunKeepsWf(s, steps, n - 1);
      var t := After(s, steps, n - 1);
      StepKeepsFleetWf(t, steps[n - 1]);
      StepKeepsNoDangling(t, steps[n - 1]);
      StepKeepsLedgerOrder(t, steps[n - 1]);
      StepKeepsOneCurrent(t, steps[n - 1]);
    }
  }
}
