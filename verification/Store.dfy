/**
 The store itself: one field per table, one method per store operation. A method
 issues its statements in the source's order; one that fails returns with every
 table as it found it. Each is specified by the transition it makes on `View()`.
 */
module StoreClass {
  import opened Base
  import opened FleetTables
  import opened Db
  import opened Runs
  import opened CertDeletes
  import opened CertGc

  datatype DeleteOutcome = Deleted | NotFound | HasReferences(refs: CertReferences)
  datatype PurgeOutcome = Purged | Missing | StillIssuer(count: nat)
  datatype ClaimOutcome = Inserted | AlreadySent | Rejected

  class Store {
    var now: nat
    var users: set<UserId>
    var scanners: map<ScannerId, bool>
    var endpoints: map<EndpointId, Endpoint>
    var hosts: map<EndpointId, HostRow>
    var saml: map<EndpointId, SamlRow>
    var certs: map<Fingerprint, Cert>
    var links: map<Link, bool>
    var history: map<EndpointId, seq<ScanRow>>
    var anchors: set<Anchor>
    var trust: map<TrustKey, Verdict>
    var alerts: set<Alert>
    var inbox: map<InboxKey, Option<Fingerprint>>

    function Obs(): Observations
      reads this
    {
      Observations(links, history)
    }

    function Notes(): Annotations
      reads this
    {
      Annotations(anchors, trust, alerts, inbox)
    }

    function FleetView(): Fleet
      reads this
    {
      Fleet(scanners, endpoints, hosts, saml)
    }

    /** The database state. */
    function View(): Tables
      reads this
    {
      Tables(now, users, FleetView(), certs, Obs(), Notes())
    }

    constructor ()
      ensures View() == Empty() && Wf(View())
    {
      now, users, scanners, endpoints, hosts, saml := 0, {}, map[], map[], map[], map[];
      certs, links, history, anchors, trust, alerts, inbox := map[], map[], map[], {}, map[], {}, map[];
    }

    // -------------------------------------------------------------------------
    // Certificates
    // -------------------------------------------------------------------------

    /** ORDER BY not_after DESC LIMIT 1 over the candidates; ties are the database's choice. */
    method PickIssuer(f: Fingerprint, rec: CertRecord) returns (pick: Option<Fingerprint>)
      ensures IsIssuerPick(certs, f, rec, pick)
    {
      pick := LatestIssuer(certs, f, rec);
    }

    method InsertCertificate(f: Fingerprint, rec: CertRecord) returns (inserted: bool, ghost pick: Option<Fingerprint>)
      modifies this`certs
      ensures inserted <==> f !in old(certs)
      ensures IsIssuerPick(old(certs), f, rec, pick)
      ensures View() == InsertCert(old(View()), f, rec, pick)
    {
      inserted := f !in certs;
      if inserted {
        pick := InsertRow(f, rec, false);
      } else {
        var p := PickIssuer(f, rec);
        pick := p;
      }
    }

    /** The row insert and the two updates of its trigger. */
    method InsertRow(f: Fingerprint, rec: CertRecord, anchor: bool) returns (ghost pick: Option<Fingerprint>)
      requires f !in certs
      modifies this`certs
      ensures IsIssuerPick(old(certs), f, rec, pick)
      ensures certs == AddCertRow(old(certs), f, rec, pick, anchor)
    {
      var after;
      after, pick := InsertAndTrigger(certs, f, rec, anchor);
      certs := after;
    }

    /** Link every certificate whose issuer is stored and whose link is still NULL. Which of
        several matching issuers UPDATE ... FROM uses is the database's choice. */
    method ReconcileCertificateChains() returns (updated: nat, ghost picks: map<Fingerprint, Fingerprint>)
      modifies this`certs
      ensures AreChainPicks(old(certs), picks)
      ensures View() == ReconcileChains(old(View()), picks)
      ensures updated == |Unlinked(old(certs))| && Unlinked(certs) == {}
    {
      var linked;
      linked, updated, picks := LinkAll(certs);
      certs := linked;
    }

    /** DELETE of certificate rows no foreign key protects. */
    method DropCertRows(dead: set<Fingerprint>)
      modifies this`certs, this`anchors, this`trust, this`alerts
      ensures View() == DropCerts(old(View()), dead)
    {
      anchors := set a | a in anchors && a.fingerprint !in dead;
      trust := map k | k in trust && k.fingerprint !in dead :: trust[k];
      alerts := set a | a in alerts && a.fingerprint !in dead;
      certs := certs - dead;
    }

    method DeleteCertificate(f: Fingerprint) returns (r: DeleteOutcome)
      requires IssuersHold(certs)
      modifies this`certs, this`anchors, this`trust, this`alerts
      ensures View() == DeleteCert(old(View()), f)
      ensures r.NotFound? <==> f !in old(certs)
      ensures r.Deleted? <==> f in old(certs) && CountReferences(old(View()), f) == CertReferences(0, 0, 0, 0)
      ensures r.HasReferences? ==> r.refs == CountReferences(old(View()), f)
    {
      if f !in certs {
        return NotFound;
      }
      DeleteSucceedsIff(View(), f);
      if DeleteRejected(certs, Obs(), {f}) {
        return HasReferences(CountReferences(View(), f));
      }
      DropCertRows({f});
      r := Deleted;
    }

    method PurgeCertificate(f: Fingerprint) returns (r: PurgeOutcome)
      modifies this`certs, this`links, this`history, this`anchors, this`trust, this`alerts
      ensures View() == PurgeCert(old(View()), f)
      ensures r == if IsIssuer(old(certs), f) then StillIssuer(CountReferences(old(View()), f).issuedCerts)
                   else if f in old(certs) then Purged else Missing
    {
      var issued := set c | c in certs && certs[c].issuer == Some(f);
      assert IsIssuer(certs, f) <==> issued != {} by {
        if IsIssuer(certs, f) {
          var c :| c in certs && certs[c].issuer == Some(f);
          assert c in issued;
        }
      }
      if |issued| > 0 {
        return StillIssuer(|issued|);
      }
      if f !in certs {
        return Missing;
      }
      PurgeCertNeverRejected(View(), f);
      history := map e | e in history :: Keep(history[e], (r: ScanRow) => r.scan.fingerprint != Some(f));
      links := map l | l in links && l.fingerprint != f :: links[l];
      DropCertRows({f});
      r := Purged;
    }

    method PurgeUnreferencedCerts() returns (purged: set<Fingerprint>)
      modifies this`certs, this`anchors, this`trust, this`alerts
      ensures View() == PurgeCerts(old(View()))
      ensures purged == old(certs).Keys - certs.Keys
    {
      purged := set f |
        && f in certs && !certs[f].trustAnchor
        && !(exists a :: a in anchors && a.fingerprint == f)
        && !(exists c :: c in certs && certs[c].issuer == Some(f))
        && !(exists l :: l in links && l.fingerprint == f)
        && !(exists e :: e in history && Seen(history[e], f))
        && !(exists k :: k in inbox && inbox[k] == Some(f));
      PurgeNeverRejected(View());
      assert purged == Unreferenced(View());
      DropCertRows(purged);
    }

    // -------------------------------------------------------------------------
    // Scans
    // -------------------------------------------------------------------------

    /** The two statements of upsertEndpointCert, inside a transaction. */
    method UpsertLink(e: EndpointId, f: Fingerprint, use: Use)
      modifies this`links
      ensures links == LinkCurrent(old(links), e, f, use)
    {
      links := map l | l in links ::
        if l.endpoint == e && l.use == use && links[l] && l.fingerprint != f then false else links[l];
      links := links[Link(e, f, use) := true];
    }

    method UpsertEndpointCert(e: EndpointId, f: Fingerprint, use: Use) returns (ok: bool)
      modifies this`links
      ensures ok <==> e in endpoints && f in certs
      ensures View() == LinkCert(old(View()), e, f, use)
    {
      ok := e in endpoints && f in certs;
      if ok {
        UpsertLink(e, f, use);
      }
    }

    /** The two UPDATE statements of RecordScanResult. */
    method TouchEndpoint(e: EndpointId, error: Option<string>, ip: Option<string>)
      modifies this`endpoints, this`hosts
      ensures FleetView() == FleetApply(old(FleetView()), Touch(e, now, error, ip))
    {
      if e in endpoints {
        endpoints := endpoints[e := endpoints[e].(scanState := TouchState(endpoints[e].scanState, now, error))];
      }
      if ip.Some? && e in hosts {
        hosts := hosts[e := hosts[e].(lastResolvedIp := ip)];
      }
    }

    /** The history and link inserts of RecordScanResult. */
    method RecordObservation(e: EndpointId, scan: Scan)
      modifies this`history, this`links
      ensures Obs() == Observe(old(Obs()), e, ScanRow(now, scan))
    {
      if Changed(Rows(history, e), scan) {
        history := history[e := Rows(history, e) + [ScanRow(now, scan)]];
      }
      if scan.fingerprint.Some? {
        UpsertLink(e, scan.fingerprint.value, Tls);
      }
    }

    method RecordScanResult(e: EndpointId, scan: Scan) returns (ok: bool)
      modifies this`now, this`endpoints, this`hosts, this`history, this`links
      ensures ok <==> !ScanRejected(old(View()), e, scan)
      ensures View() == RecordScan(old(View()), e, scan)
    {
      ok := !ScanRejected(View(), e, scan);
      if ok {
        TouchEndpoint(e, scan.error, scan.resolvedIp);
        RecordObservation(e, scan);
        now := now + 1;
      }
    }

    /** Delete rows older than the cutoff except each endpoint's newest; count what goes. */
    method PurgeScanHistory(days: int) returns (deleted: nat)
      modifies this`history
      ensures View() == PurgeHistory(old(View()), days)
      ensures deleted == |RowIds(old(history))| - |RowIds(history)|
    {
      var kept;
      kept, deleted := DeleteOldRows(history, Cutoff(now, days));
      history := kept;
    }

    // -------------------------------------------------------------------------
    // Alerts
    // -------------------------------------------------------------------------

    method TryInsertExpiryAlert(a: Alert) returns (r: ClaimOutcome)
      modifies this`alerts
      ensures View() == ClaimAlert(old(View()), a)
      ensures r.Inserted? <==> Claims(old(View()), a)
      ensures r.Rejected? <==> a.user !in users || a.fingerprint !in certs
    {
      if a.user !in users || a.fingerprint !in certs {
        return Rejected;
      }
      if a in alerts {
        return AlreadySent;
      }
      alerts := alerts + {a};
      return Inserted;
    }

    method PurgeExpiryAlerts() returns (deleted: nat)
      modifies this`alerts
      ensures View() == PurgeAlerts(old(View()))
      ensures deleted == |old(alerts)| - |alerts|
    {
      var current := set l | l in links && links[l] :: l.fingerprint;
      var gone := set a | a in alerts && a.fingerprint !in current;
      deleted := |gone|;
      alerts := alerts - gone;
    }

    // -------------------------------------------------------------------------
    // Root stores
    // -------------------------------------------------------------------------

    method UpsertTrustAnchor(f: Fingerprint, rec: CertRecord) returns (ghost pick: Option<Fingerprint>)
      modifies this`certs
      ensures IsIssuerPick(old(certs), f, rec, pick)
      ensures View() == UpsertAnchor(old(View()), f, rec, pick)
    {
      if f in certs {
        var p := PickIssuer(f, rec);
        pick := p;
        certs := certs[f := certs[f].(trustAnchor := true)];
      } else {
        pick := InsertRow(f, rec, true);
      }
    }

    method MarkTrustAnchor(f: Fingerprint) returns (existed: bool)
      modifies this`certs
      ensures existed <==> f in certs
      ensures View() == MarkAnchor(old(View()), f)
    {
      existed := f in certs;
      if existed {
        certs := certs[f := certs[f].(trustAnchor := true)];
      }
    }

    method ReplaceRootStoreAnchors(store: StoreId, members: seq<Fingerprint>) returns (ok: bool)
      modifies this`anchors
      ensures ok <==> forall f :: f in members ==> f in certs
      ensures View() == ReplaceAnchors(old(View()), store, members)
    {
      ok := forall f :: f in members ==> f in certs;
      if ok {
        anchors := anchors + set f | f in members :: Anchor(store, f);
        anchors := set a | a in anchors && !(a.store == store && a.fingerprint !in members);
      }
    }

    method ReconcileTrustAnchorFlags() returns (changed: nat)
      modifies this`certs
      ensures View() == ReconcileFlags(old(View()))
      ensures changed == |set f | f in certs && certs[f].trustAnchor != old(certs)[f].trustAnchor|
    {
      var changing := set f | f in certs && certs[f].trustAnchor != MatchesAnchor(anchors, certs, certs[f].rec);
      certs := map f | f in certs ::
        if f in changing then certs[f].(trustAnchor := MatchesAnchor(anchors, certs, certs[f].rec)) else certs[f];
      changed := |changing|;
      assert changing == set f | f in certs && certs[f].trustAnchor != old(certs)[f].trustAnchor;
    }

    method UpsertCertificateTrust(f: Fingerprint, verdicts: map<StoreId, Verdict>) returns (ok: bool)
      modifies this`trust
      ensures ok <==> verdicts == map[] || f in certs
      ensures View() == StoreVerdicts(old(View()), f, verdicts)
    {
      if verdicts == map[] {
        return true;
      }
      ok := f in certs;
      if ok {
        var rows := UpsertRows(trust, f, verdicts);
        trust := rows;
      }
    }

    // -------------------------------------------------------------------------
    // Scanners and endpoints
    // -------------------------------------------------------------------------

    method SetDefaultScannerToken(id: ScannerId) returns (found: bool)
      modifies this`scanners
      ensures found <==> id in scanners
      ensures FleetView() == FleetApply(old(FleetView()), FleetStep.SetDefaultScannerToken(id))
    {
      found := id in scanners;
      if found {
        scanners := map x | x in scanners :: if scanners[x] then false else scanners[x];
        assert OneDefault(scanners);
        scanners := scanners[id := true];
        assert OneDefault(scanners);
      }
    }

    method DeleteScannerToken(id: ScannerId) returns (found: bool)
      modifies this`scanners, this`endpoints
      ensures found <==> id in old(scanners)
      ensures FleetView() == FleetApply(old(FleetView()), FleetStep.DeleteScannerToken(id))
    {
      found := id in scanners;
      if found {
        endpoints := Unassign(endpoints, id);
        scanners := scanners - {id};
      }
    }

    method UpdateEndpoint(e: EndpointId, rec: EndpointRecord) returns (ok: bool)
      requires UrlPresent(rec)
      modifies this`endpoints, this`hosts, this`saml
      ensures ok <==> e in old(endpoints) && ScannerKnown(scanners, rec.scanner)
      ensures FleetView() == FleetApply(old(FleetView()), FleetStep.UpdateEndpoint(e, rec))
    {
      if e !in endpoints || !ScannerKnown(scanners, rec.scanner) {
        return false;
      }
      endpoints := endpoints[e := endpoints[e].(kind := rec.kind, enabled := rec.enabled,
                                                scanExempt := rec.scanExempt, scanner := rec.scanner)];
      if !WantsHostRow(rec.kind) {
        hosts := hosts - {e};
      }
      if !rec.kind.Saml? {
        saml := saml - {e};
      }
      if WantsHostRow(rec.kind) {
        hosts := hosts[e := HostRow(rec.dnsName, rec.ipAddress, rec.port, if e in hosts then hosts[e].lastResolvedIp else None)];
      } else if rec.kind.Saml? {
        saml := saml[e := SamlRow(rec.url.value, if e in saml then saml[e].metadata else None)];
      }
      return true;
    }

    method InsertEndpoint(e: EndpointId, rec: EndpointRecord) returns (ok: bool)
      requires UrlPresent(rec)
      modifies this`endpoints, this`hosts, this`saml
      ensures ok <==> e !in old(endpoints) && ScannerKnown(scanners, rec.scanner)
      ensures FleetView() == FleetApply(old(FleetView()), FleetStep.InsertEndpoint(e, rec))
    {
      if e in endpoints || !ScannerKnown(scanners, rec.scanner) {
        return false;
      }
      endpoints := endpoints[e := Endpoint(rec.kind, rec.enabled, false, rec.scanner, ScanState(None, None, None))];
      if WantsHostRow(rec.kind) {
        hosts := hosts[e := HostRow(rec.dnsName, rec.ipAddress, rec.port, None)];
      } else if rec.kind.Saml? {
        saml := saml[e := SamlRow(rec.url.value, None)];
      }
      return true;
    }
  }

  /** A candidate with the latest expiry. */
  method LatestIssuer(certs: map<Fingerprint, Cert>, f: Fingerprint, rec: CertRecord) returns (pick: Option<Fingerprint>)
    ensures IsIssuerPick(certs, f, rec, pick)
  {
    var candidates := IssuerCandidates(certs, f, rec);
    if candidates == {} {
      return None;
    }
    LatestExists(certs, candidates);
    var i :| i in candidates && forall j :: j in candidates ==> certs[j].rec.notAfter <= certs[i].rec.notAfter;
    return Some(i);
  }

  /** The three statements: insert, link the row, link its children. */
  method InsertAndTrigger(certs: map<Fingerprint, Cert>, f: Fingerprint, rec: CertRecord, anchor: bool)
    returns (after: map<Fingerprint, Cert>, ghost pick: Option<Fingerprint>)
    requires f !in certs
    ensures IsIssuerPick(certs, f, rec, pick) && after == AddCertRow(certs, f, rec, pick, anchor)
  {
    after := certs[f := Cert(rec, None, anchor)];
    var p := LatestIssuer(after, f, rec);
    PickIgnoresSelf(certs, f, rec, anchor, p);
    after := after[f := after[f].(issuer := p)];
    var children := set x | x in after && x != f && after[x].issuer.None? && IssuedBy(after[x].rec, rec);
    after := map x | x in after :: if x in children then after[x].(issuer := Some(f)) else after[x];
    pick := p;
    TriggerStatements(certs, after, f, rec, anchor, p, children);
  }

  /** The new row is no candidate for itself. */
  lemma PickIgnoresSelf(certs: map<Fingerprint, Cert>, f: Fingerprint, rec: CertRecord, anchor: bool, pick: Option<Fingerprint>)
    requires f !in certs && IsIssuerPick(certs[f := Cert(rec, None, anchor)], f, rec, pick)
    ensures IsIssuerPick(certs, f, rec, pick)
  {
    assert IssuerCandidates(certs[f := Cert(rec, None, anchor)], f, rec) == IssuerCandidates(certs, f, rec);
  }

  /** Inserting, linking the row, then linking its children is what AddCertRow says. */
  lemma TriggerStatements(certs: map<Fingerprint, Cert>, after: map<Fingerprint, Cert>, f: Fingerprint, rec: CertRecord,
                          anchor: bool, pick: Option<Fingerprint>, children: set<Fingerprint>)
    requires f !in certs
    requires forall x :: x in children <==> x in certs && certs[x].issuer.None? && IssuedBy(certs[x].rec, rec)
    requires after.Keys == certs.Keys + {f} && after[f] == Cert(rec, pick, anchor)
    requires forall x :: x in certs ==> after[x] == if x in children then certs[x].(issuer := Some(f)) else certs[x]
    ensures after == AddCertRow(certs, f, rec, pick, anchor)
  {
  }

  /** One upsert per verdict. */
  method UpsertRows(trust: map<TrustKey, Verdict>, f: Fingerprint, verdicts: map<StoreId, Verdict>) returns (after: map<TrustKey, Verdict>)
    ensures after == MergeVerdicts(trust, f, verdicts)
  {
    after := trust;
    var rest := verdicts.Keys;
    while rest != {}
      invariant rest <= verdicts.Keys
      invariant MergedSoFar(trust, after, f, verdicts, rest)
      decreases |rest|
    {
      var st :| st in rest;
      MergedNext(trust, after, f, verdicts, rest, st);
      after, rest := after[TrustKey(f, st) := verdicts[st]], rest - {st};
    }
    MergedDone(trust, after, f, verdicts);
  }

  lemma MergedNext(trust: map<TrustKey, Verdict>, after: map<TrustKey, Verdict>, f: Fingerprint,
                   verdicts: map<StoreId, Verdict>, rest: set<StoreId>, st: StoreId)
    requires MergedSoFar(trust, after, f, verdicts, rest) && st in rest && st in verdicts
    ensures MergedSoFar(trust, after[TrustKey(f, st) := verdicts[st]], f, verdicts, rest - {st})
  {
  }

  lemma MergedDone(trust: map<TrustKey, Verdict>, after: map<TrustKey, Verdict>, f: Fingerprint, verdicts: map<StoreId, Verdict>)
    requires MergedSoFar(trust, after, f, verdicts, {})
    ensures after == MergeVerdicts(trust, f, verdicts)
  {
    forall k
      ensures k in after <==> k in MergeVerdicts(trust, f, verdicts)
    {
      assert TrustKey(k.fingerprint, k.store) == k;
    }
  }

  /** The verdicts outside `rest` have been stored. */
  ghost predicate MergedSoFar(trust: map<TrustKey, Verdict>, after: map<TrustKey, Verdict>, f: Fingerprint,
                              verdicts: map<StoreId, Verdict>, rest: set<StoreId>)
  {
    forall k: TrustKey ::
      if k.fingerprint == f && k.store in verdicts && k.store !in rest then k in after && after[k] == verdicts[k.store]
      else (k in after <==> k in trust) && (k in after ==> after[k] == trust[k])
  }

  // ---------------------------------------------------------------------------
  // Issuer links, one row at a time
  // ---------------------------------------------------------------------------

  ghost function Linked(certs: map<Fingerprint, Cert>, picks: map<Fingerprint, Fingerprint>): map<Fingerprint, Cert>
  {
    map f | f in certs :: if f in picks then certs[f].(issuer := Some(picks[f])) else certs[f]
  }

  ghost predicate ChosenIssuers(certs: map<Fingerprint, Cert>, picks: map<Fingerprint, Fingerprint>)
  {
    forall f :: f in picks ==> f in certs && picks[f] in IssuerCandidates(certs, f, certs[f].rec)
  }

  lemma SameCandidates(certs: map<Fingerprint, Cert>, picks: map<Fingerprint, Fingerprint>, f: Fingerprint)
    requires f in Unlinked(certs)
    ensures f in Linked(certs, picks)
    ensures var after := Linked(certs, picks);
            IssuerCandidates(after, f, after[f].rec) == IssuerCandidates(certs, f, certs[f].rec) != {}
  {
  }

  lemma LinkOne(certs: map<Fingerprint, Cert>, picks: map<Fingerprint, Fingerprint>, f: Fingerprint, i: Fingerprint)
    requires ChosenIssuers(certs, picks) && f in certs && i in IssuerCandidates(certs, f, certs[f].rec)
    ensures ChosenIssuers(certs, picks[f := i])
    ensures Linked(certs, picks[f := i]) == Linked(certs, picks)[f := Linked(certs, picks)[f].(issuer := Some(i))]
  {
  }

  lemma LinkedLeavesNone(certs: map<Fingerprint, Cert>, picks: map<Fingerprint, Fingerprint>)
    requires picks.Keys == Unlinked(certs)
    ensures Unlinked(Linked(certs, picks)) == {}
  {
    var after := Linked(certs, picks);
    forall f | f in after && after[f].issuer.None?
      ensures IssuerCandidates(after, f, after[f].rec) == {}
    {
      assert IssuerCandidates(certs, f, certs[f].rec) == {};
    }
  }

  /** Give each unlinked certificate one of its stored issuers. */
  method LinkAll(certs: map<Fingerprint, Cert>) returns (after: map<Fingerprint, Cert>, updated: nat, ghost picks: map<Fingerprint, Fingerprint>)
    ensures AreChainPicks(certs, picks) && after == Linked(certs, picks)
    ensures updated == |Unlinked(certs)| && Unlinked(after) == {}
  {
    after, updated, picks := certs, 0, map[];
    var todo := Unlinked(certs);
    var rest := todo;
    while rest != {}
      invariant rest <= todo && picks.Keys == todo - rest && updated == |todo| - |rest|
      invariant ChosenIssuers(certs, picks) && after == Linked(certs, picks)
      decreases |rest|
    {
      var f :| f in rest;
      SameCandidates(certs, picks, f);
      var i :| i in IssuerCandidates(after, f, after[f].rec);
      LinkOne(certs, picks, f, i);
      after, picks := after[f := after[f].(issuer := Some(i))], picks[f := i];
      rest, updated := rest - {f}, updated + 1;
    }
    LinkedLeavesNone(certs, picks);
  }

  // ---------------------------------------------------------------------------
  // Retention, one endpoint at a time
  // ---------------------------------------------------------------------------

  /** ORDER BY scanned_at DESC, first row. */
  method NewestRow(rows: seq<ScanRow>) returns (newest: Option<ScanRow>)
    ensures newest == if rows == [] then None else Some(Newest(rows))
  {
    newest := None;
    for i := 0 to |rows|
      invariant newest == if i == 0 then None else Some(Newest(rows[..i]))
    {
      assert rows[..i + 1][..i] == rows[..i];
      if newest.None? || rows[i].at >= newest.value.at {
        newest := Some(rows[i]);
      }
    }
    assert rows[..|rows|] == rows;
  }

  /** The rows that are recent or the newest. */
  method DeleteOld(rows: seq<ScanRow>, cutoff: int, newest: Option<ScanRow>) returns (kept: seq<ScanRow>)
    requires newest == if rows == [] then None else Some(Newest(rows))
    ensures kept == Retain(rows, cutoff) && |kept| <= |rows|
  {
    kept := [];
    for i := |rows| downto 0
      invariant |kept| <= |rows| - i
      invariant newest.Some? ==> kept == Keep(rows[i..], (r: ScanRow) => r.at >= cutoff || r == newest.value)
    {
      assert rows[i..][1..] == rows[i + 1..];
      if rows[i].at >= cutoff || Some(rows[i]) == newest {
        kept := [rows[i]] + kept;
      }
    }
  }

  method DeleteOldRows(history: map<EndpointId, seq<ScanRow>>, cutoff: int) returns (after: map<EndpointId, seq<ScanRow>>, deleted: nat)
    ensures after == RetainAll(history, cutoff)
    ensures deleted == |RowIds(history)| - |RowIds(after)|
  {
    after, deleted := history, 0;
    var rest := history.Keys;
    while rest != {}
      invariant rest <= history.Keys && RetainedSoFar(history, after, rest, cutoff)
      invariant deleted == |RowIds(history)| - |RowIds(after)|
      decreases |rest|
    {
      var e :| e in rest;
      var newest := NewestRow(history[e]);
      var kept := DeleteOld(history[e], cutoff, newest);
      RowCountChange(after, e, kept);
      RetainNext(history, after, rest, cutoff, e);
      deleted := deleted + |history[e]| - |kept|;
      after, rest := after[e := kept], rest - {e};
    }
    RetainDone(history, after, cutoff);
  }

  /** The endpoints outside `rest` have been through retention. */
  ghost predicate RetainedSoFar(history: map<EndpointId, seq<ScanRow>>, after: map<EndpointId, seq<ScanRow>>, rest: set<EndpointId>, cutoff: int)
  {
    after.Keys == history.Keys &&
    forall e :: e in history ==> after[e] == if e in rest then history[e] else Retain(history[e], cutoff)
  }

  lemma RetainNext(history: map<EndpointId, seq<ScanRow>>, after: map<EndpointId, seq<ScanRow>>, rest: set<EndpointId>, cutoff: int, e: EndpointId)
    requires RetainedSoFar(history, after, rest, cutoff) && e in rest && e in history
    ensures RetainedSoFar(history, after[e := Retain(history[e], cutoff)], rest - {e}, cutoff)
  {
  }

  lemma RetainDone(history: map<EndpointId, seq<ScanRow>>, after: map<EndpointId, seq<ScanRow>>, cutoff: int)
    requires RetainedSoFar(history, after, {}, cutoff)
    ensures after == RetainAll(history, cutoff)
  {
  }

  /** Every ledger row, by endpoint and place. */
  ghost function RowIds(history: map<EndpointId, seq<ScanRow>>): set<(EndpointId, int)>
  {
    set e, i | e in history && 0 <= i < |history[e]| :: (e, i)
  }

  ghost function Places(e: EndpointId, n: nat): set<(EndpointId, int)>
  {
    set i | 0 <= i < n :: (e, i)
  }

  lemma {:induction false} PlacesCount(e: EndpointId, n: nat)
    ensures |Places(e, n)| == n
  {
    if n > 0 {
      PlacesCount(e, n - 1);
      assert Places(e, n) == Places(e, n - 1) + {(e, n - 1)};
    }
  }

  lemma RowCountSplit(history: map<EndpointId, seq<ScanRow>>, e: EndpointId)
    requires e in history
    ensures |RowIds(history)| == |RowIds(history - {e})| + |history[e]|
  {
    PlacesCount(e, |history[e]|);
    assert RowIds(history) == RowIds(history - {e}) + Places(e, |history[e]|);
    assert RowIds(history - {e}) !! Places(e, |history[e]|);
  }

  lemma RowCountChange(history: map<EndpointId, seq<ScanRow>>, e: EndpointId, rows: seq<ScanRow>)
    requires e in history
    ensures |RowIds(history[e := rows])| + |history[e]| == |RowIds(history)| + |rows|
  {
    RowCountSplit(history, e);
    RowCountSplit(history[e := rows], e);
    assert history[e := rows] - {e} == history - {e};
  }

  lemma {:induction false} LatestExists(certs: map<Fingerprint, Cert>, candidates: set<Fingerprint>)
    requires candidates != {} && candidates <= certs.Keys
    ensures exists i :: i in candidates && forall j :: j in candidates ==> certs[j].rec.notAfter <= certs[i].rec.notAfter
    decreases |candidates|
  {
    var c :| c in candidates;
    var rest := candidates - {c};
    assert candidates == {c} + rest;
    if rest == {} {
      assert forall j :: j in candidates ==> j == c;
    } else {
      LatestExists(certs, rest);
      var m :| m in rest && forall j :: j in rest ==> certs[j].rec.notAfter <= certs[m].rec.notAfter;
      var best := if certs[m].rec.notAfter < certs[c].rec.notAfter then c else m;
      assert best in candidates && forall j :: j in candidates ==> j == c || j in rest;
    }
  }
}
