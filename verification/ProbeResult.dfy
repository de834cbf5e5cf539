/** Ingesting a scan: store the submitted chain, grow the pools, refresh verdicts, record the result. */
module ProbeResult {
  import opened Base
  import opened Db
  import opened StoreClass
  import opened TrustPaths
  import opened TrustEvaluator

  lemma InsertKeepsTrustSound(lib: Library, certs: map<Fingerprint, Cert>, trust: map<TrustKey, Verdict>,
                              pools: map<StoreId, set<X509>>, intermediates: set<X509>, cert: X509, pick: Option<Fingerprint>)
    requires Sound(lib) && TrustSound(lib, certs, trust, pools, intermediates) && lib.fingerprint(cert) !in certs
    ensures TrustSound(lib, AddCertRow(certs, lib.fingerprint(cert), lib.extract(cert), pick, false), trust, pools, intermediates)
  {
  }

  lemma VerdictsKeepTrustSound(lib: Library, certs: map<Fingerprint, Cert>, trust: map<TrustKey, Verdict>,
                               pools: map<StoreId, set<X509>>, intermediates: set<X509>, cert: X509)
    requires Sound(lib) && TrustSound(lib, certs, trust, pools, intermediates) && lib.fingerprint(cert) in certs
    ensures TrustSound(lib, certs, MergeVerdicts(trust, lib.fingerprint(cert), Verdicts(lib, cert, pools, intermediates)), pools, intermediates)
  {
  }

  /** Storing, pooling and judging one submitted certificate. */
  lemma IngestKeepsTrustSound(lib: Library, certs: map<Fingerprint, Cert>, trust: map<TrustKey, Verdict>,
                              pools: map<StoreId, set<X509>>, few: set<X509>, many: set<X509>, cert: X509, pick: Option<Fingerprint>)
    requires Sound(lib) && TrustSound(lib, certs, trust, pools, few) && few <= many
    ensures var f := lib.fingerprint(cert);
            var stored := if f in certs then certs else AddCertRow(certs, f, lib.extract(cert), pick, false);
            TrustSound(lib, stored, MergeVerdicts(trust, f, Verdicts(lib, cert, pools, many)), pools, many)
  {
    var f := lib.fingerprint(cert);
    var stored := if f in certs then certs else AddCertRow(certs, f, lib.extract(cert), pick, false);
    if f !in certs { InsertKeepsTrustSound(lib, certs, trust, pools, few, cert, pick); }
    GrowingPoolsKeepTrustedRows(lib, stored, trust, pools, few, many);
    VerdictsKeepTrustSound(lib, stored, trust, pools, many, cert);
  }

  /** The verdict rows that say trusted hold under the pools in memory. */
  ghost predicate RowsSound(store: Store, ev: Evaluator)
    reads store, ev
  {
    TrustSound(ev.lib, store.certs, store.trust, ev.rootPools, ev.intermediates)
  }

  /** One parsed certificate of the submitted chain. */
  method IngestCert(store: Store, ev: Evaluator, cert: X509) returns (ghost pick: Option<Fingerprint>)
    modifies store`certs, store`trust, ev`intermediates
    ensures var f, certs := ev.lib.fingerprint(cert), old(store.certs);
            && store.certs == (if f in certs then certs else AddCertRow(certs, f, ev.lib.extract(cert), pick, false))
            && ev.intermediates == (if cert.isCA then old(ev.intermediates) + {cert} else old(ev.intermediates))
            && store.trust == MergeVerdicts(old(store.trust), f, Verdicts(ev.lib, cert, ev.rootPools, ev.intermediates))
  {
    var inserted;
    inserted, pick := store.InsertCertificate(ev.lib.fingerprint(cert), ev.lib.extract(cert));
    ev.AddIntermediate(cert);
    ev.EvaluateAndPersist(store, ev.lib.fingerprint(cert), cert);
  }

  /** Certificate `i` of the chain reaches the database: it parses and its insert, which the
      database may refuse (`failed`), goes through. */
  predicate Ingested(lib: Library, pems: seq<string>, failed: set<nat>, i: nat)
    requires i < |pems|
  {
    lib.parse(pems[i]).Some? && i !in failed
  }

  /** The scan as recorded: its fingerprint is dropped when a chain was submitted and its leaf was not ingested. */
  function Linkable(lib: Library, pems: seq<string>, failed: set<nat>, scan: Scan): Scan
  {
    if pems == [] || Ingested(lib, pems, failed, 0) then scan else scan.(fingerprint := None)
  }

  /** The certificates of the chain that reach the database. */
  function Submitted(lib: Library, pems: seq<string>, failed: set<nat>): set<Fingerprint>
  {
    set i: nat | i < |pems| && Ingested(lib, pems, failed, i) :: lib.fingerprint(lib.parse(pems[i]).value)
  }

  /** One submitted PEM: ingested when it parses and the insert goes through, skipped otherwise. */
  method IngestPem(store: Store, ev: Evaluator, pem: string, insertFails: bool) returns (ok: bool)
    modifies store`certs, store`trust, ev`intermediates
    ensures Sound(ev.lib) && old(RowsSound(store, ev)) ==> RowsSound(store, ev)
    ensures ok <==> ev.lib.parse(pem).Some? && !insertFails
    ensures store.certs.Keys == old(store.certs).Keys + (if ok then {ev.lib.fingerprint(ev.lib.parse(pem).value)} else {})
  {
    var cert := ev.lib.parse(pem);
    ok := cert.Some? && !insertFails;
    if ok {
      ghost var certs, trust, few := store.certs, store.trust, ev.intermediates;
      ghost var pick := IngestCert(store, ev, cert.value);
      if Sound(ev.lib) && TrustSound(ev.lib, certs, trust, ev.rootPools, few) {
        IngestKeepsTrustSound(ev.lib, certs, trust, ev.rootPools, few, ev.intermediates, cert.value, pick);
      }
    }
  }

  /** The chain loop of Handler.Result. */
  method IngestChain(store: Store, ev: Evaluator, pems: seq<string>, failed: set<nat>) returns (leafOK: bool)
    modifies store`certs, store`trust, ev`intermediates
    ensures Sound(ev.lib) && old(RowsSound(store, ev)) ==> RowsSound(store, ev)
    ensures store.certs.Keys == old(store.certs).Keys + Submitted(ev.lib, pems, failed)
    ensures leafOK <==> pems == [] || Ingested(ev.lib, pems, failed, 0)
  {
    leafOK := pems == [];
    for i := 0 to |pems|
      invariant Sound(ev.lib) && old(RowsSound(store, ev)) ==> RowsSound(store, ev)
      invariant store.certs.Keys == old(store.certs).Keys + Submitted(ev.lib, pems[..i], failed)
      invariant leafOK <==> pems == [] || (i > 0 && Ingested(ev.lib, pems, failed, 0))
    {
      SubmittedNext(ev.lib, pems, failed, i);
      var ok := IngestPem(store, ev, pems[i], i in failed);
      if ok && i == 0 {
        leafOK := true;
      }
    }
    assert pems[..|pems|] == pems;
  }

  lemma SubmittedNext(lib: Library, pems: seq<string>, failed: set<nat>, i: nat)
    requires i < |pems|
    ensures Submitted(lib, pems[..i + 1], failed) ==
              Submitted(lib, pems[..i], failed) + (if Ingested(lib, pems, failed, i) then {lib.fingerprint(lib.parse(pems[i]).value)} else {})
  {
    assert forall j: nat :: j < i ==> (Ingested(lib, pems[..i + 1], failed, j) <==> Ingested(lib, pems[..i], failed, j));
  }

  /** Handler.Result. If every "trusted" row is true it stays true whatever the scanner submits; the scan is recorded
      exactly when its endpoint and its linkable fingerprint are stored. */
  method Result(store: Store, ev: Evaluator, e: EndpointId, pems: seq<string>, failed: set<nat>, scan: Scan) returns (ok: bool)
    requires e in store.history ==> e in store.endpoints
    modifies store`certs, store`trust, store`now, store`endpoints, store`hosts, store`history, store`links, ev`intermediates
    ensures Sound(ev.lib) && old(RowsSound(store, ev)) ==> RowsSound(store, ev)
    ensures store.certs.Keys == old(store.certs).Keys + Submitted(ev.lib, pems, failed)
    ensures ok <==>
              && e in old(store.endpoints)
              && var f := Linkable(ev.lib, pems, failed, scan).fingerprint;
                 f.Some? ==> f.value in old(store.certs) || f.value in Submitted(ev.lib, pems, failed)
    ensures store.Obs() == if ok then Observe(old(store.Obs()), e, ScanRow(old(store.now), Linkable(ev.lib, pems, failed, scan))) else old(store.Obs())
  {
    var leafOK := IngestChain(store, ev, pems, failed);
    var req := if leafOK then scan else scan.(fingerprint := None);
    ok := store.RecordScanResult(e, req);
  }

  /** What is recorded: the scan as reported when no chain came with it or its leaf was stored,
      otherwise the scan without its fingerprint. */
  lemma RecordedByCases(lib: Library, pems: seq<string>, failed: set<nat>, scan: Scan)
    ensures pems == [] || (lib.parse(pems[0]) != None && 0 !in failed) ==> Linkable(lib, pems, failed, scan) == scan
    ensures pems != [] && (lib.parse(pems[0]) == None || 0 in failed) ==>
              Linkable(lib, pems, failed, scan) == Scan(None, scan.tlsVersion, scan.resolvedIp, scan.error)
  {
  }

  /** Which certificates of the chain are stored: those that parse and whose insert goes through. */
  lemma StoredByCases(lib: Library, pems: seq<string>, failed: set<nat>, f: Fingerprint)
    ensures f in Submitted(lib, pems, failed) <==>
              exists i: nat :: i < |pems| && i !in failed && lib.parse(pems[i]) != None && lib.fingerprint(lib.parse(pems[i]).value) == f
  {
    if i: nat :| i < |pems| && i !in failed && lib.parse(pems[i]) != None && lib.fingerprint(lib.parse(pems[i]).value) == f {
      assert Ingested(lib, pems, failed, i);
    }
  }

  /** An honest scan: chain stored, scan recorded, and the leaf the endpoint's current certificate. */
  method HonestScan(store: Store, ev: Evaluator, e: EndpointId, pems: seq<string>, scan: Scan) returns (ok: bool)
    requires e in store.endpoints && pems != [] && forall i :: 0 <= i < |pems| ==> ev.lib.parse(pems[i]).Some?
    requires scan.fingerprint == Some(ev.lib.fingerprint(ev.lib.parse(pems[0]).value))
    modifies store`certs, store`trust, store`now, store`endpoints, store`hosts, store`history, store`links, ev`intermediates
    ensures ok && Link(e, scan.fingerprint.value, Tls) in store.links && store.links[Link(e, scan.fingerprint.value, Tls)]
    ensures forall i :: 0 <= i < |pems| ==> ev.lib.fingerprint(ev.lib.parse(pems[i]).value) in store.certs
    ensures forall g :: Link(e, g, Tls) in store.links && store.links[Link(e, g, Tls)] ==> g == scan.fingerprint.value
  {
    ok := Result(store, ev, e, pems, {}, scan);
    RecordedByCases(ev.lib, pems, {}, scan);
    HonestLeafIsLinkable(ev.lib, pems, {}, scan);
    forall i: nat | i < |pems|
      ensures ev.lib.fingerprint(ev.lib.parse(pems[i]).value) in Submitted(ev.lib, pems, {})
    {
      assert Ingested(ev.lib, pems, {}, i);
    }
  }

  /** A scanner whose active fingerprint is that of the leaf it submitted is never rejected for a
      missing certificate, whichever inserts fail. */
  lemma HonestLeafIsLinkable(lib: Library, pems: seq<string>, failed: set<nat>, scan: Scan)
    requires pems != [] && lib.parse(pems[0]).Some? ==> scan.fingerprint == Some(lib.fingerprint(lib.parse(pems[0]).value))
    requires pems == [] ==> scan.fingerprint.None?
    ensures var f := Linkable(lib, pems, failed, scan).fingerprint; f.Some? ==> f.value in Submitted(lib, pems, failed)
  {
    if pems != [] && Ingested(lib, pems, failed, 0) {
      assert scan.fingerprint.value in Submitted(lib, pems, failed);
    }
  }
}
