/**
 The tables of the `tlsentinel` schema and what each statement of the store does
 to them, as functions from one database state to the next. A statement's
 predicate is evaluated on the state before the statement. A transaction that
 fails leaves the state as it was.
 */
module Db {
  import opened Base
  import opened FleetTables

  // ---------------------------------------------------------------------------
  // Rows
  // ---------------------------------------------------------------------------

  /** What a parsed certificate contributes to its row. */
  datatype CertRecord = CertRecord(
    pem: string,
    subjectKeyId: string,
    authorityKeyId: Option<string>,
    subjectDn: string,
    issuerDn: string,
    notAfter: int)

  datatype Cert = Cert(rec: CertRecord, issuer: Option<Fingerprint>, trustAnchor: bool)

  datatype Use = Tls | Signing | Encryption | Manual

  /** The unique key of `endpoint_certs`; the table maps it to `is_current`. */
  datatype Link = Link(endpoint: EndpointId, fingerprint: Fingerprint, use: Use)

  /** What a scan reports. */
  datatype Scan = Scan(
    fingerprint: Option<Fingerprint>,
    tlsVersion: Option<string>,
    resolvedIp: Option<string>,
    error: Option<string>)

  /** One `endpoint_scan_history` row. */
  datatype ScanRow = ScanRow(at: nat, scan: Scan)

  datatype Anchor = Anchor(store: StoreId, fingerprint: Fingerprint)
  datatype TrustKey = TrustKey(fingerprint: Fingerprint, store: StoreId)
  datatype Verdict = Verdict(trusted: bool, reason: string)
  datatype Alert = Alert(user: UserId, fingerprint: Fingerprint, threshold: int)
  datatype InboxKey = InboxKey(ip: string, port: int)

  /** The tables whose references to a certificate are NO ACTION guards. `history`
      holds, for each endpoint, its scan rows in the order they were inserted. */
  datatype Observations = Observations(links: map<Link, bool>, history: map<EndpointId, seq<ScanRow>>)

  /** The tables about certificates: anchors, verdicts and alerts CASCADE with theirs. Inbox
      rows carry a fingerprint but no foreign key, so they outlive it. */
  datatype Annotations = Annotations(
    anchors: set<Anchor>,
    trust: map<TrustKey, Verdict>,
    alerts: set<Alert>,
    inbox: map<InboxKey, Option<Fingerprint>>)

  datatype Tables = Tables(
    now: nat,
    users: set<UserId>,
    fleet: Fleet,
    certs: map<Fingerprint, Cert>,
    obs: Observations,
    notes: Annotations)

  // ---------------------------------------------------------------------------
  // Certificates: insert, issuer links, delete
  // ---------------------------------------------------------------------------

  /** The join of the issuer-link statements: key identifiers and DN hashes agree. */
  predicate IssuedBy(child: CertRecord, parent: CertRecord)
  {
    child.authorityKeyId == Some(parent.subjectKeyId) && child.issuerDn == parent.subjectDn
  }

  function IssuerCandidates(certs: map<Fingerprint, Cert>, f: Fingerprint, rec: CertRecord): set<Fingerprint>
  {
    set i | i in certs && i != f && IssuedBy(rec, certs[i].rec)
  }

  /** `pick` is what ORDER BY not_after DESC LIMIT 1 may return over the candidates. */
  ghost predicate IsIssuerPick(certs: map<Fingerprint, Cert>, f: Fingerprint, rec: CertRecord, pick: Option<Fingerprint>)
  {
    var candidates := IssuerCandidates(certs, f, rec);
    match pick
    case None => candidates == {}
    case Some(i) =>
      i in candidates && forall j :: j in candidates ==> certs[j].rec.notAfter <= certs[i].rec.notAfter
  }

  /** The row insert and its AFTER INSERT trigger: link the new row to its issuer,
      then link waiting children to the new row. */
  function AddCertRow(certs: map<Fingerprint, Cert>, f: Fingerprint, rec: CertRecord,
                      pick: Option<Fingerprint>, anchor: bool): map<Fingerprint, Cert>
  {
    map x | x in certs.Keys + {f} ::
      if x == f then Cert(rec, pick, anchor)
      else if certs[x].issuer.None? && IssuedBy(certs[x].rec, rec) then certs[x].(issuer := Some(f))
      else certs[x]
  }

  function InsertCert(s: Tables, f: Fingerprint, rec: CertRecord, pick: Option<Fingerprint>): Tables
  {
    if f in s.certs then s else s.(certs := AddCertRow(s.certs, f, rec, pick, false))
  }

  /** Certificates ReconcileCertificateChains updates. */
  function Unlinked(certs: map<Fingerprint, Cert>): set<Fingerprint>
  {
    set f | f in certs && certs[f].issuer.None? && IssuerCandidates(certs, f, certs[f].rec) != {}
  }

  /** UPDATE ... FROM may use any matching issuer row: `picks` says which. */
  ghost predicate AreChainPicks(certs: map<Fingerprint, Cert>, picks: map<Fingerprint, Fingerprint>)
  {
    picks.Keys == Unlinked(certs) &&
    forall f :: f in picks ==> picks[f] in IssuerCandidates(certs, f, certs[f].rec)
  }

  function ReconcileChains(s: Tables, picks: map<Fingerprint, Fingerprint>): Tables
  {
    s.(certs := map f | f in s.certs ::
         if f in picks then s.certs[f].(issuer := Some(picks[f])) else s.certs[f])
  }

  predicate Seen(rows: seq<ScanRow>, f: Fingerprint)
  {
    exists r :: r in rows && r.scan.fingerprint == Some(f)
  }

  predicate InHistory(obs: Observations, f: Fingerprint)
  {
    exists e :: e in obs.history && Seen(obs.history[e], f)
  }

  predicate InLinks(obs: Observations, f: Fingerprint)
  {
    exists l :: l in obs.links && l.fingerprint == f
  }

  predicate IsIssuer(certs: map<Fingerprint, Cert>, f: Fingerprint)
  {
    exists c :: c in certs && certs[c].issuer == Some(f)
  }

  predicate IsAnchor(notes: Annotations, f: Fingerprint)
  {
    exists a :: a in notes.anchors && a.fingerprint == f
  }

  predicate InInbox(notes: Annotations, f: Fingerprint)
  {
    exists k :: k in notes.inbox && notes.inbox[k] == Some(f)
  }

  /** A NO ACTION foreign key rejects deleting `dead`: a row that survives the
      statement still names one of them. */
  predicate DeleteRejected(certs: map<Fingerprint, Cert>, obs: Observations, dead: set<Fingerprint>)
  {
    exists f :: f in dead && (InLinks(obs, f) || InHistory(obs, f) || IsIssuer(certs - dead, f))
  }

  function DropNotes(notes: Annotations, dead: set<Fingerprint>): Annotations
  {
    Annotations(
      set a | a in notes.anchors && a.fingerprint !in dead,
      map k | k in notes.trust && k.fingerprint !in dead :: notes.trust[k],
      (set a | a in notes.alerts && a.fingerprint !in dead),
      notes.inbox)
  }

  /** DELETE of the certificate rows `dead`, with what follows them. */
  function DropCerts(s: Tables, dead: set<Fingerprint>): Tables
  {
    s.(certs := s.certs - dead, notes := DropNotes(s.notes, dead))
  }

  function DeleteCert(s: Tables, f: Fingerprint): Tables
  {
    if f !in s.certs || DeleteRejected(s.certs, s.obs, {f}) then s else DropCerts(s, {f})
  }

  /** The rows a DELETE leaves behind, in order. */
  function Keep(rows: seq<ScanRow>, keep: ScanRow -> bool): (kept: seq<ScanRow>)
    ensures forall r :: r in kept <==> r in rows && keep(r)
  {
    if rows == [] then []
    else (if keep(rows[0]) then [rows[0]] else []) + Keep(rows[1..], keep)
  }

  /** The two reference-clearing statements of PurgeCertificate. */
  function ClearReferences(obs: Observations, f: Fingerprint): Observations
  {
    Observations(
      map l | l in obs.links && l.fingerprint != f :: obs.links[l],
      map e | e in obs.history :: Keep(obs.history[e], (r: ScanRow) => r.scan.fingerprint != Some(f)))
  }

  /** One transaction: refused for an issuer, rolled back when the row is absent or
      the final delete is rejected. */
  function PurgeCert(s: Tables, f: Fingerprint): Tables
  {
    var cleared := ClearReferences(s.obs, f);
    if IsIssuer(s.certs, f) || f !in s.certs || DeleteRejected(s.certs, cleared, {f}) then s
    else DropCerts(s.(obs := cleared), {f})
  }

  /** What keeps a certificate alive apart from certificates it issued. */
  predicate Pinned(s: Tables, f: Fingerprint)
    requires f in s.certs
  {
    s.certs[f].trustAnchor || IsAnchor(s.notes, f) || InLinks(s.obs, f) || InHistory(s.obs, f) || InInbox(s.notes, f)
  }

  /** The WHERE clause of PurgeUnreferencedCerts. */
  function Unreferenced(s: Tables): set<Fingerprint>
  {
    set f | f in s.certs && !Pinned(s, f) && !IsIssuer(s.certs, f)
  }

  function PurgeCerts(s: Tables): Tables
  {
    if DeleteRejected(s.certs, s.obs, Unreferenced(s)) then s else DropCerts(s, Unreferenced(s))
  }

  // ---------------------------------------------------------------------------
  // Scan ledger and endpoint links
  // ---------------------------------------------------------------------------

  function Rows(history: map<EndpointId, seq<ScanRow>>, e: EndpointId): seq<ScanRow>
  {
    if e in history then history[e] else []
  }

  /** ORDER BY scanned_at DESC LIMIT 1. */
  function Newest(rows: seq<ScanRow>): (r: ScanRow)
    requires rows != []
    ensures r in rows && forall x :: x in rows ==> x.at <= r.at
  {
    var last := rows[|rows| - 1];
    if |rows| == 1 then last
    else
      var m := Newest(rows[..|rows| - 1]);
      if last.at >= m.at then last else m
  }

  /** scanResultChanged. */
  predicate Changed(rows: seq<ScanRow>, scan: Scan)
  {
    rows == [] ||
    var last := Newest(rows).scan;
    || last.fingerprint != scan.fingerprint
    || last.tlsVersion != scan.tlsVersion
    || last.resolvedIp != scan.resolvedIp
    || last.error.None? != scan.error.None?
  }

  /** The history insert of RecordScanResult. */
  function AppendScan(history: map<EndpointId, seq<ScanRow>>, e: EndpointId, row: ScanRow): map<EndpointId, seq<ScanRow>>
  {
    if Changed(Rows(history, e), row.scan) then history[e := Rows(history, e) + [row]] else history
  }

  /** Roll the other current certificate of the pair over, then upsert this one as current. */
  function LinkCurrent(links: map<Link, bool>, e: EndpointId, f: Fingerprint, use: Use): map<Link, bool>
  {
    var key := Link(e, f, use);
    map l | l in links.Keys + {key} ::
      if l == key then true
      else if l.endpoint == e && l.use == use then false
      else links[l]
  }

  /** The foreign keys of the inserts in RecordScanResult. */
  predicate ScanRejected(s: Tables, e: EndpointId, scan: Scan)
  {
    || ((Changed(Rows(s.obs.history, e), scan) || scan.fingerprint.Some?) && e !in s.fleet.endpoints)
    || (scan.fingerprint.Some? && scan.fingerprint.value !in s.certs)
  }

  function Observe(obs: Observations, e: EndpointId, row: ScanRow): Observations
  {
    Observations(
      if row.scan.fingerprint.Some? then LinkCurrent(obs.links, e, row.scan.fingerprint.value, Tls) else obs.links,
      AppendScan(obs.history, e, row))
  }

  /** RecordScanResult. The clock has moved on when the transaction commits. */
  function RecordScan(s: Tables, e: EndpointId, scan: Scan): Tables
  {
    if ScanRejected(s, e, scan) then s
    else
      s.(now := s.now + 1,
         fleet := FleetApply(s.fleet, Touch(e, s.now, scan.error, scan.resolvedIp)),
         obs := Observe(s.obs, e, ScanRow(s.now, scan)))
  }

  function LinkCert(s: Tables, e: EndpointId, f: Fingerprint, use: Use): Tables
  {
    if e !in s.fleet.endpoints || f !in s.certs then s
    else s.(obs := s.obs.(links := LinkCurrent(s.obs.links, e, f, use)))
  }

  /** Retention for one endpoint: old rows go, the most recent row always stays. */
  function Retain(rows: seq<ScanRow>, cutoff: int): seq<ScanRow>
  {
    if rows == [] then []
    else
      var newest := Newest(rows);
      Keep(rows, (r: ScanRow) => r.at >= cutoff || r == newest)
  }

  function RetainAll(history: map<EndpointId, seq<ScanRow>>, cutoff: int): map<EndpointId, seq<ScanRow>>
  {
    map e | e in history :: Retain(history[e], cutoff)
  }

  function Cutoff(now: nat, days: int): int
  {
    now - days * 86_400_000_000
  }

  function PurgeHistory(s: Tables, days: int): Tables
  {
    s.(obs := s.obs.(history := RetainAll(s.obs.history, Cutoff(s.now, days))))
  }

  // ---------------------------------------------------------------------------
  // Expiry alerts
  // ---------------------------------------------------------------------------

  /** The certificate is current on some endpoint. */
  predicate Current(links: map<Link, bool>, f: Fingerprint)
  {
    exists l :: l in links && links[l] && l.fingerprint == f
  }

  function PurgeAlerts(s: Tables): Tables
  {
    s.(notes := s.notes.(alerts := set a | a in s.notes.alerts && Current(s.obs.links, a.fingerprint)))
  }

  /** TryInsertExpiryAlert reports "inserted", after which the mail is attempted. */
  predicate Claims(s: Tables, a: Alert)
  {
    a.user in s.users && a.fingerprint in s.certs && a !in s.notes.alerts
  }

  function ClaimAlert(s: Tables, a: Alert): Tables
  {
    if Claims(s, a) then s.(notes := s.notes.(alerts := s.notes.alerts + {a})) else s
  }

  // ---------------------------------------------------------------------------
  // Root stores and verdicts
  // ---------------------------------------------------------------------------

  function FlagAnchor(certs: map<Fingerprint, Cert>, f: Fingerprint): map<Fingerprint, Cert>
    requires f in certs
  {
    certs[f := certs[f].(trustAnchor := true)]
  }

  function UpsertAnchor(s: Tables, f: Fingerprint, rec: CertRecord, pick: Option<Fingerprint>): Tables
  {
    s.(certs := if f in s.certs then FlagAnchor(s.certs, f) else AddCertRow(s.certs, f, rec, pick, true))
  }

  function MarkAnchor(s: Tables, f: Fingerprint): Tables
  {
    if f in s.certs then s.(certs := FlagAnchor(s.certs, f)) else s
  }

  /** Insert the given members, then sweep the store's other rows. */
  function SwapAnchors(anchors: set<Anchor>, store: StoreId, members: seq<Fingerprint>): set<Anchor>
  {
    (set a | a in anchors && a.store != store) + (set f | f in members :: Anchor(store, f))
  }

  function ReplaceAnchors(s: Tables, store: StoreId, members: seq<Fingerprint>): Tables
  {
    if exists f :: f in members && f !in s.certs then s
    else s.(notes := s.notes.(anchors := SwapAnchors(s.notes.anchors, store, members)))
  }

  /** Subject+SKI equivalence; an empty key identifier matches any. */
  predicate SameSubject(a: CertRecord, c: CertRecord)
  {
    a.subjectDn == c.subjectDn &&
    (c.subjectKeyId == "" || a.subjectKeyId == "" || a.subjectKeyId == c.subjectKeyId)
  }

  predicate MatchesAnchor(anchors: set<Anchor>, certs: map<Fingerprint, Cert>, c: CertRecord)
  {
    exists a :: a in anchors && a.fingerprint in certs && SameSubject(certs[a.fingerprint].rec, c)
  }

  function ReconcileFlags(s: Tables): Tables
  {
    s.(certs := map f | f in s.certs ::
         s.certs[f].(trustAnchor := MatchesAnchor(s.notes.anchors, s.certs, s.certs[f].rec)))
  }

  function MergeVerdicts(trust: map<TrustKey, Verdict>, f: Fingerprint, verdicts: map<StoreId, Verdict>): map<TrustKey, Verdict>
  {
    map k | k in trust.Keys + (set st | st in verdicts :: TrustKey(f, st)) ::
      if k.fingerprint == f && k.store in verdicts then verdicts[k.store] else trust[k]
  }

  function StoreVerdicts(s: Tables, f: Fingerprint, verdicts: map<StoreId, Verdict>): Tables
  {
    if f !in s.certs then s else s.(notes := s.notes.(trust := MergeVerdicts(s.notes.trust, f, verdicts)))
  }

  // ---------------------------------------------------------------------------
  // Inbox, users, fleet
  // ---------------------------------------------------------------------------

  /** A discovery report stores whatever fingerprint the scanner saw. */
  function UpsertInbox(s: Tables, k: InboxKey, f: Option<Fingerprint>): Tables
  {
    s.(notes := s.notes.(inbox := s.notes.inbox[k := f]))
  }

  function DropInbox(s: Tables, k: InboxKey): Tables
  {
    s.(notes := s.notes.(inbox := s.notes.inbox - {k}))
  }

  function DropUser(s: Tables, u: UserId): Tables
  {
    s.(users := s.users - {u}, notes := s.notes.(alerts := set a | a in s.notes.alerts && a.user != u))
  }

  /** An endpoint's links and scan rows CASCADE with it. */
  function ForgetEndpoint(obs: Observations, e: EndpointId): Observations
  {
    Observations(map l | l in obs.links && l.endpoint != e :: obs.links[l], obs.history - {e})
  }

  function ChangeFleet(s: Tables, op: FleetStep): Tables
    requires FleetEnabled(op)
  {
    s.(fleet := FleetApply(s.fleet, op),
       obs := if op.DeleteEndpoint? then ForgetEndpoint(s.obs, op.e) else s.obs)
  }
}
