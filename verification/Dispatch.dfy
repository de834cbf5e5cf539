/** Handing endpoints to scanners. */
module Dispatch {
  import opened Base
  import opened FleetTables
  import opened Db
  import opened Runs

  /** The scanner condition of both queries: assigned to it, or unassigned and it is the default. */
  predicate Claimed(s: Fleet, e: EndpointId, scanner: ScannerId)
    requires e in s.endpoints
  {
    || s.endpoints[e].scanner == Some(scanner)
    || (s.endpoints[e].scanner.None? && scanner in s.scanners && s.scanners[scanner])
  }

  predicate Active(s: Fleet, e: EndpointId)
    requires e in s.endpoints
  {
    s.endpoints[e].enabled && !s.endpoints[e].scanExempt
  }

  /** GetScannerHostEndpoints: an inner join with endpoint_hosts. */
  function HostJobs(s: Fleet, scanner: ScannerId): set<EndpointId>
  {
    set e | e in s.endpoints && e in s.hosts && Active(s, e) && s.endpoints[e].kind.Host? && Claimed(s, e, scanner)
  }

  /** GetScannerSAMLEndpoints: an inner join with endpoint_saml. */
  function SamlJobs(s: Fleet, scanner: ScannerId): set<EndpointId>
  {
    set e | e in s.endpoints && e in s.saml && Active(s, e) && s.endpoints[e].kind.Saml? && Claimed(s, e, scanner)
  }

  function Jobs(s: Fleet, scanner: ScannerId): set<EndpointId>
  {
    HostJobs(s, scanner) + SamlJobs(s, scanner)
  }

  /** At every statement boundary inside SetDefaultScannerToken at most one scanner is default,
      and the new default is the only one at the end. */
  lemma SetDefaultStatements(s: Fleet, id: ScannerId)
    requires OneDefault(s.scanners) && id in s.scanners
    ensures OneDefault(ClearDefaults(s.scanners))
    ensures OneDefault(ClearDefaults(s.scanners)[id := true])
    ensures var t := FleetApply(s, SetDefaultScannerToken(id));
            t.scanners.Keys == s.scanners.Keys && forall x :: x in t.scanners ==> (t.scanners[x] <==> x == id)
  {
  }

  lemma {:induction false} NeverTwice(s: Fleet, e: EndpointId, a: ScannerId, b: ScannerId)
    requires FleetWf(s) && e in Jobs(s, a) && e in Jobs(s, b)
    ensures a == b && a in s.scanners
    ensures !(e in HostJobs(s, a) && e in SamlJobs(s, b))
  {
    assert ScannerKnown(s.scanners, s.endpoints[e].scanner);
  }

  /** The column test of the two queries, written out: enabled, not exempt, of type host or saml,
      and either assigned to the scanner or unassigned while the scanner is the default. */
  lemma {:induction false} JobsByColumns(s: Fleet, e: EndpointId, a: ScannerId)
    requires FleetWf(s)
    ensures e in Jobs(s, a) <==>
              && e in s.endpoints && s.endpoints[e].enabled && !s.endpoints[e].scanExempt
              && (s.endpoints[e].kind == Host || s.endpoints[e].kind == Saml)
              && (s.endpoints[e].scanner == Some(a) || (s.endpoints[e].scanner == None && a in s.scanners && s.scanners[a]))
    ensures e in HostJobs(s, a) <==> e in Jobs(s, a) && s.endpoints[e].kind == Host
    ensures e in SamlJobs(s, a) <==> e in Jobs(s, a) && s.endpoints[e].kind == Saml
  {
    assert RowsFit(s.endpoints, s.hosts, s.saml, e);
  }

  /** Some scanner is handed the endpoint exactly when it is enabled, not exempt, of type host or
      saml, and is either assigned or there is a default to pick it up. */
  lemma {:induction false} HandedIff(s: Fleet, e: EndpointId)
    requires FleetWf(s)
    ensures (exists a :: e in Jobs(s, a)) <==>
              && e in s.endpoints && s.endpoints[e].enabled && !s.endpoints[e].scanExempt
              && (s.endpoints[e].kind == Host || s.endpoints[e].kind == Saml)
              && (s.endpoints[e].scanner != None || exists d :: d in s.scanners && s.scanners[d])
  {
    if a :| e in Jobs(s, a) { JobsByColumns(s, e, a); }
    if e in s.endpoints && s.endpoints[e].scanner.Some? { JobsByColumns(s, e, s.endpoints[e].scanner.value); }
    if d :| d in s.scanners && s.scanners[d] { JobsByColumns(s, e, d); }
  }

  /** In every state of every run no endpoint is handed to two scanners, no disabled or exempt one
      to any, and while a default exists every other host or SAML endpoint is handed to
      exactly one, a stored one. */
  lemma {:induction false} HandedToExactlyOne(s: Tables, steps: seq<Step>, n: nat, e: EndpointId)
    requires Wf(s) && n <= |steps|
    ensures var t := After(s, steps, n).fleet;
            && (forall a, b :: e in Jobs(t, a) && e in Jobs(t, b) ==> a == b)
            && (forall a :: e in Jobs(t, a) ==>
                  e in t.endpoints && t.endpoints[e].enabled && !t.endpoints[e].scanExempt
                  && (t.endpoints[e].kind == Host || t.endpoints[e].kind == Saml))
            && (((exists d :: d in t.scanners && t.scanners[d])
                 && e in t.endpoints && t.endpoints[e].enabled && !t.endpoints[e].scanExempt
                 && (t.endpoints[e].kind == Host || t.endpoints[e].kind == Saml)) ==> exists a :: a in t.scanners && e in Jobs(t, a))
  {
    RunKeepsWf(s, steps, n);
    OneOrNone(After(s, steps, n).fleet, e);
  }

  lemma {:induction false} OneOrNone(s: Fleet, e: EndpointId)
    requires FleetWf(s)
    ensures forall a, b :: e in Jobs(s, a) && e in Jobs(s, b) ==> a == b
    ensures forall a :: e in Jobs(s, a) ==>
              a in s.scanners && e in s.endpoints && s.endpoints[e].enabled && !s.endpoints[e].scanExempt
              && (s.endpoints[e].kind == Host || s.endpoints[e].kind == Saml)
    ensures ((exists d :: d in s.scanners && s.scanners[d])
             && e in s.endpoints && s.endpoints[e].enabled && !s.endpoints[e].scanExempt
             && (s.endpoints[e].kind == Host || s.endpoints[e].kind == Saml)) ==> exists a :: a in s.scanners && e in Jobs(s, a)
  {
    HandedIff(s, e);
    forall a | e in Jobs(s, a)
      ensures a in s.scanners && e in s.endpoints && s.endpoints[e].enabled && !s.endpoints[e].scanExempt
      ensures s.endpoints[e].kind == Host || s.endpoints[e].kind == Saml
    {
      NeverTwice(s, e, a, a);
      JobsByColumns(s, e, a);
    }
    forall a, b | e in Jobs(s, a) && e in Jobs(s, b)
      ensures a == b
    {
      NeverTwice(s, e, a, b);
    }
  }

  /** What the scanner is told about a host endpoint. */
  datatype HostWork = HostWork(id: EndpointId, dnsName: string, ipAddress: Option<string>, port: int)

  /** What the scanner is told about a SAML endpoint. */
  datatype SamlWork = SamlWork(id: EndpointId, url: string)

  function HostRows(s: Fleet, scanner: ScannerId): set<HostWork>
  {
    set e | e in HostJobs(s, scanner) :: HostWork(e, s.hosts[e].dnsName, s.hosts[e].ipAddress, s.hosts[e].port)
  }

  function SamlRows(s: Fleet, scanner: ScannerId): set<SamlWork>
  {
    set e | e in SamlJobs(s, scanner) :: SamlWork(e, s.saml[e].url)
  }

  /** What an operator saves for a host endpoint is what its scanner is told, exactly when the
      endpoint is to be scanned. */
  lemma {:induction false} SavedHostIsHanded(s: Fleet, e: EndpointId, rec: EndpointRecord, a: ScannerId, work: HostWork)
    requires FleetWf(s) && rec.kind == Host && e in s.endpoints && ScannerKnown(s.scanners, rec.scanner) && work.id == e
    ensures work in HostRows(FleetApply(s, UpdateEndpoint(e, rec)), a) <==>
              && rec.enabled && !rec.scanExempt && (rec.scanner == Some(a) || (rec.scanner == None && a in s.scanners && s.scanners[a]))
              && work == HostWork(e, rec.dnsName, rec.ipAddress, rec.port)
  {
    var t := FleetApply(s, UpdateEndpoint(e, rec));
    FleetStepKeepsWf(s, UpdateEndpoint(e, rec));
    JobsByColumns(t, e, a);
  }

  lemma {:induction false} SavedSamlIsHanded(s: Fleet, e: EndpointId, rec: EndpointRecord, a: ScannerId, work: SamlWork)
    requires FleetWf(s) && rec.kind == Saml && rec.url.Some? && e in s.endpoints && ScannerKnown(s.scanners, rec.scanner) && work.id == e
    ensures work in SamlRows(FleetApply(s, UpdateEndpoint(e, rec)), a) <==>
              && rec.enabled && !rec.scanExempt && (rec.scanner == Some(a) || (rec.scanner == None && a in s.scanners && s.scanners[a]))
              && work == SamlWork(e, rec.url.value)
  {
    var t := FleetApply(s, UpdateEndpoint(e, rec));
    FleetStepKeepsWf(s, UpdateEndpoint(e, rec));
    JobsByColumns(t, e, a);
  }

  /** The same for a new endpoint, which starts out not exempt and never scanned. */
  lemma {:induction false} NewHostIsHanded(s: Fleet, e: EndpointId, rec: EndpointRecord, a: ScannerId, work: HostWork)
    requires FleetWf(s) && rec.kind == Host && e !in s.endpoints && ScannerKnown(s.scanners, rec.scanner) && work.id == e
    ensures var t := FleetApply(s, InsertEndpoint(e, rec));
            && t.endpoints.Keys == s.endpoints.Keys + {e} && t.endpoints[e].scanState == ScanState(None, None, None)
            && e in t.hosts && t.hosts[e].lastResolvedIp == None
            && (work in HostRows(t, a) <==>
                  && rec.enabled && (rec.scanner == Some(a) || (rec.scanner == None && a in s.scanners && s.scanners[a]))
                  && work == HostWork(e, rec.dnsName, rec.ipAddress, rec.port))
  {
    var t := FleetApply(s, InsertEndpoint(e, rec));
    FleetStepKeepsWf(s, InsertEndpoint(e, rec));
    JobsByColumns(t, e, a);
  }

  lemma {:induction false} NewSamlIsHanded(s: Fleet, e: EndpointId, rec: EndpointRecord, a: ScannerId, work: SamlWork)
    requires FleetWf(s) && rec.kind == Saml && rec.url.Some? && e !in s.endpoints && ScannerKnown(s.scanners, rec.scanner) && work.id == e
    ensures work in SamlRows(FleetApply(s, InsertEndpoint(e, rec)), a) <==>
              && rec.enabled && (rec.scanner == Some(a) || (rec.scanner == None && a in s.scanners && s.scanners[a]))
              && work == SamlWork(e, rec.url.value)
  {
    var t := FleetApply(s, InsertEndpoint(e, rec));
    FleetStepKeepsWf(s, InsertEndpoint(e, rec));
    JobsByColumns(t, e, a);
  }

  /** Writing one endpoint leaves every other endpoint, its rows and all scanners alone. */
  lemma {:induction false} OtherEndpointsUntouched(s: Fleet, step: FleetStep, e: EndpointId, other: EndpointId)
    requires FleetEnabled(step) && other != e
    requires step == DeleteEndpoint(e) || ((step.InsertEndpoint? || step.UpdateEndpoint? || step.Touch?) && step.e == e)
    ensures var t := FleetApply(s, step);
            && t.scanners == s.scanners
            && (other in t.endpoints <==> other in s.endpoints) && (other in s.endpoints ==> t.endpoints[other] == s.endpoints[other])
            && (other in t.hosts <==> other in s.hosts) && (other in s.hosts ==> t.hosts[other] == s.hosts[other])
            && (other in t.saml <==> other in s.saml) && (other in s.saml ==> t.saml[other] == s.saml[other])
  {
  }

  /** Deleting a scanner unassigns its endpoints and changes nothing else. */
  lemma {:induction false} DeletedScannerUnassigns(s: Fleet, id: ScannerId)
    requires id in s.scanners
    ensures var t := FleetApply(s, DeleteScannerToken(id));
            && t.hosts == s.hosts && t.saml == s.saml && t.endpoints.Keys == s.endpoints.Keys
            && (forall x :: x in t.scanners <==> x in s.scanners && x != id) && (forall x :: x in t.scanners ==> t.scanners[x] == s.scanners[x])
            && forall e :: e in s.endpoints ==>
                 t.endpoints[e] == if s.endpoints[e].scanner == Some(id) then s.endpoints[e].(scanner := None) else s.endpoints[e]
  {
  }

  /** An endpoint stored with an empty type would keep a host row but be handed to no scanner;
      the handlers replace an empty type before they store it. */
  lemma EmptyTypeNeverHanded(s: Fleet, e: EndpointId, a: ScannerId)
    requires FleetWf(s) && e in s.endpoints && s.endpoints[e].kind.Unset?
    ensures e in s.hosts && e !in Jobs(s, a)
  {
    assert RowsFit(s.endpoints, s.hosts, s.saml, e);
  }

  /** Editing an endpoint without changing its type keeps the columns scanners own. */
  lemma UpdateKeepsScannerColumns(s: Fleet, e: EndpointId, rec: EndpointRecord)
    requires FleetWf(s) && UrlPresent(rec) && e in s.endpoints && ScannerKnown(s.scanners, rec.scanner)
    requires s.endpoints[e].kind == rec.kind
    ensures var t := FleetApply(s, UpdateEndpoint(e, rec));
            && t.endpoints[e].scanState == s.endpoints[e].scanState
            && (e in s.hosts <==> e in t.hosts) && (e in s.saml <==> e in t.saml)
            && (e in s.hosts ==> t.hosts[e].lastResolvedIp == s.hosts[e].lastResolvedIp && t.hosts[e].dnsName == rec.dnsName)
            && (e in s.saml ==> t.saml[e].metadata == s.saml[e].metadata && Some(t.saml[e].url) == rec.url)
  {
    assert RowsFit(s.endpoints, s.hosts, s.saml, e);
  }
}
