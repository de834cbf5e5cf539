/**
 Scanners and endpoints: the tables `scanners`, `endpoints`, `endpoint_hosts` and
 `endpoint_saml`, the statements that change them, and the queries that hand
 endpoints to scanners.
 */
module FleetTables {
  import opened Base

  /** `endpoints.type`: "host", the empty string, "saml", or any other text ("manual"). */
  datatype Kind = Host | Unset | Saml | Other(name: string)

  datatype Endpoint = Endpoint(
    kind: Kind,
    enabled: bool,
    scanExempt: bool,
    scanner: Option<ScannerId>,
    scanState: ScanState)

  /** The columns RecordScanResult maintains. */
  datatype ScanState = ScanState(lastScannedAt: Option<nat>, lastScanError: Option<string>, errorSince: Option<nat>)

  datatype HostRow = HostRow(dnsName: string, ipAddress: Option<string>, port: int, lastResolvedIp: Option<string>)

  /** `metadata` stands for the scanner-owned columns. */
  datatype SamlRow = SamlRow(url: string, metadata: Option<string>)

  /** `scanners` maps a scanner to `is_default`. */
  datatype Fleet = Fleet(
    scanners: map<ScannerId, bool>,
    endpoints: map<EndpointId, Endpoint>,
    hosts: map<EndpointId, HostRow>,
    saml: map<EndpointId, SamlRow>)

  /** What the API hands to InsertEndpoint and UpdateEndpoint. */
  datatype EndpointRecord = EndpointRecord(
    kind: Kind,
    enabled: bool,
    scanExempt: bool,
    scanner: Option<ScannerId>,
    dnsName: string,
    ipAddress: Option<string>,
    port: int,
    url: Option<string>)

  datatype FleetStep =
    | InsertScannerToken(id: ScannerId)
    | SetDefaultScannerToken(id: ScannerId)
    | DeleteScannerToken(id: ScannerId)
    | InsertEndpoint(e: EndpointId, rec: EndpointRecord)
    | UpdateEndpoint(e: EndpointId, rec: EndpointRecord)
    | DeleteEndpoint(e: EndpointId)
    | Touch(e: EndpointId, now: nat, error: Option<string>, resolvedIp: Option<string>)

  // ---------------------------------------------------------------------------
  // Statements
  // ---------------------------------------------------------------------------

  function ClearDefaults(scanners: map<ScannerId, bool>): map<ScannerId, bool>
  {
    map x | x in scanners :: false
  }

  /** ON DELETE SET NULL on endpoints.scanner_id. */
  function Unassign(endpoints: map<EndpointId, Endpoint>, id: ScannerId): map<EndpointId, Endpoint>
  {
    map e | e in endpoints ::
      if endpoints[e].scanner == Some(id) then endpoints[e].(scanner := None) else endpoints[e]
  }

  predicate WantsHostRow(kind: Kind)
  {
    kind.Host? || kind.Unset?
  }

  predicate ScannerKnown(scanners: map<ScannerId, bool>, scanner: Option<ScannerId>)
  {
    scanner.Some? ==> scanner.value in scanners
  }

  /** Type saml dereferences the URL. */
  predicate UrlPresent(rec: EndpointRecord)
  {
    rec.kind.Saml? ==> rec.url.Some?
  }

  function UpsertHost(hosts: map<EndpointId, HostRow>, id: EndpointId, rec: EndpointRecord): map<EndpointId, HostRow>
  {
    if WantsHostRow(rec.kind) then
      hosts[id := HostRow(rec.dnsName, rec.ipAddress, rec.port, if id in hosts then hosts[id].lastResolvedIp else None)]
    else hosts - {id}
  }

  function UpsertSaml(saml: map<EndpointId, SamlRow>, id: EndpointId, rec: EndpointRecord): map<EndpointId, SamlRow>
    requires UrlPresent(rec)
  {
    if rec.kind.Saml? then saml[id := SamlRow(rec.url.value, if id in saml then saml[id].metadata else None)]
    else saml - {id}
  }

  function TouchState(st: ScanState, now: nat, error: Option<string>): ScanState
  {
    ScanState(
      Some(now),
      error,
      if error.Some? && st.lastScanError.None? then Some(now)
      else if error.None? then None
      else st.errorSince)
  }

  predicate FleetEnabled(step: FleetStep)
  {
    (step.InsertEndpoint? || step.UpdateEndpoint?) ==> UrlPresent(step.rec)
  }

  function FleetApply(s: Fleet, step: FleetStep): Fleet
    requires FleetEnabled(step)
  {
    match step
    case InsertScannerToken(id) =>
      if id in s.scanners then s else s.(scanners := s.scanners[id := false])
    case SetDefaultScannerToken(id) =>
      if id in s.scanners then s.(scanners := ClearDefaults(s.scanners)[id := true]) else s
    case DeleteScannerToken(id) =>
      if id in s.scanners then s.(scanners := s.scanners - {id}, endpoints := Unassign(s.endpoints, id)) else s
    case InsertEndpoint(e, rec) =>
      if e in s.endpoints || !ScannerKnown(s.scanners, rec.scanner) then s
      else
        s.(endpoints := s.endpoints[e := Endpoint(rec.kind, rec.enabled, false, rec.scanner, ScanState(None, None, None))],
           hosts := if WantsHostRow(rec.kind) then s.hosts[e := HostRow(rec.dnsName, rec.ipAddress, rec.port, None)] else s.hosts,
           saml := if rec.kind.Saml? then s.saml[e := SamlRow(rec.url.value, None)] else s.saml)
    case UpdateEndpoint(e, rec) =>
      if e !in s.endpoints || !ScannerKnown(s.scanners, rec.scanner) then s
      else
        s.(endpoints := s.endpoints[e := s.endpoints[e].(kind := rec.kind, enabled := rec.enabled,
                                                         scanExempt := rec.scanExempt, scanner := rec.scanner)],
           hosts := UpsertHost(s.hosts, e, rec),
           saml := UpsertSaml(s.saml, e, rec))
    case DeleteEndpoint(e) =>
      s.(endpoints := s.endpoints - {e}, hosts := s.hosts - {e}, saml := s.saml - {e})
    case Touch(e, now, error, ip) =>
      s.(endpoints := if e in s.endpoints then s.endpoints[e := s.endpoints[e].(scanState := TouchState(s.endpoints[e].scanState, now, error))] else s.endpoints,
         hosts := if ip.Some? && e in s.hosts then s.hosts[e := s.hosts[e].(lastResolvedIp := ip)] else s.hosts)
  }

  // ---------------------------------------------------------------------------
  // Invariants
  // ---------------------------------------------------------------------------

  ghost predicate OneDefault(scanners: map<ScannerId, bool>)
  {
    forall a, b :: a in scanners && b in scanners && scanners[a] && scanners[b] ==> a == b
  }

  ghost predicate ScannersKnown(scanners: map<ScannerId, bool>, endpoints: map<EndpointId, Endpoint>)
  {
    forall e :: e in endpoints ==> ScannerKnown(scanners, endpoints[e].scanner)
  }

  /** The type-specific row matches the endpoint type. */
  ghost predicate TypeRowsMatch(endpoints: map<EndpointId, Endpoint>, hosts: map<EndpointId, HostRow>, saml: map<EndpointId, SamlRow>)
  {
    forall e :: RowsFit(endpoints, hosts, saml, e)
  }

  predicate RowsFit(endpoints: map<EndpointId, Endpoint>, hosts: map<EndpointId, HostRow>, saml: map<EndpointId, SamlRow>, e: EndpointId)
  {
    && (e in hosts <==> e in endpoints && WantsHostRow(endpoints[e].kind))
    && (e in saml <==> e in endpoints && endpoints[e].kind.Saml?)
  }

  ghost predicate FleetWf(s: Fleet)
  {
    OneDefault(s.scanners) && ScannersKnown(s.scanners, s.endpoints) && TypeRowsMatch(s.endpoints, s.hosts, s.saml)
  }

  lemma {:induction false} StepKeepsFit(s: Fleet, step: FleetStep, e: EndpointId)
    requires RowsFit(s.endpoints, s.hosts, s.saml, e) && FleetEnabled(step)
    ensures var t := FleetApply(s, step); RowsFit(t.endpoints, t.hosts, t.saml, e)
  {
  }

  lemma {:induction false} StepKeepsTypeRows(s: Fleet, step: FleetStep)
    requires TypeRowsMatch(s.endpoints, s.hosts, s.saml) && FleetEnabled(step)
    ensures var t := FleetApply(s, step); TypeRowsMatch(t.endpoints, t.hosts, t.saml)
  {
    var t := FleetApply(s, step);
    forall e
      ensures RowsFit(t.endpoints, t.hosts, t.saml, e)
    {
      StepKeepsFit(s, step, e);
    }
  }

  lemma {:induction false} StepKeepsScanners(s: Fleet, step: FleetStep)
    requires OneDefault(s.scanners) && ScannersKnown(s.scanners, s.endpoints) && FleetEnabled(step)
    ensures var t := FleetApply(s, step); OneDefault(t.scanners) && ScannersKnown(t.scanners, t.endpoints)
  {
  }

  lemma {:induction false} FleetStepKeepsWf(s: Fleet, step: FleetStep)
    requires FleetWf(s) && FleetEnabled(step)
    ensures FleetWf(FleetApply(s, step))
  {
    StepKeepsTypeRows(s, step);
    StepKeepsScanners(s, step);
  }
}
