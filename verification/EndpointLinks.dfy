/** Which certificate an endpoint currently presents for a use. */
module EndpointLinks {
  import opened Base
  import opened Db
  import opened Runs

  /** The step removes link rows of the pair: it deletes the endpoint, or purges a certificate
      linked to it. */
  predicate RemovesLinks(s: Tables, step: Step, e: EndpointId, use: Use)
  {
    || (step.OnPurge? && step.purge.PurgeCertificate? && Link(e, step.purge.f, use) in s.obs.links)
    || (step.OnFleet? && step.op.DeleteEndpoint? && step.op.e == e)
  }

  ghost predicate KeepsLinksAt(s: Tables, steps: seq<Step>, i: nat, e: EndpointId, use: Use)
    requires i < |steps|
  {
    !RemovesLinks(After(s, steps, i), steps[i], e, use)
  }

  /** The certificate a step links to the pair, if it is accepted. */
  function Linked(s: Tables, step: Step, e: EndpointId, use: Use): Option<Fingerprint>
  {
    if !step.OnScans? then None
    else
      match step.scan
      case UpsertEndpointCert(x, f, u) =>
        if x == e && u == use && e in s.fleet.endpoints && f in s.certs then Some(f) else None
      case RecordScanResult(x, scan) =>
        if x == e && use == Tls && !ScanRejected(s, e, scan) then scan.fingerprint else None
      case PurgeScanHistory(_) => None
  }

  /** The certificates linked to the pair by the first `n` steps, in order. */
  ghost function LinkHistory(s: Tables, steps: seq<Step>, n: nat, e: EndpointId, use: Use): seq<Fingerprint>
    requires n <= |steps|
  {
    if n == 0 then []
    else
      var f := Linked(After(s, steps, n - 1), steps[n - 1], e, use);
      LinkHistory(s, steps, n - 1, e, use) + (if f.Some? then [f.value] else [])
  }

  /** Linking `f` (if any) to the pair turns `before` into `after`, as far as the pair goes. */
  ghost predicate PairStep(before: map<Link, bool>, after: map<Link, bool>, f: Option<Fingerprint>, e: EndpointId, use: Use)
  {
    forall g ::
      var l := Link(e, g, use);
      && (l in after <==> l in before || f == Some(g))
      && (l in after ==> after[l] == if f.Some? then f.value == g else before[l])
  }

  /** The rows of the pair are the certificates `linked`, and the last of them is current. */
  ghost predicate Tracks(links: map<Link, bool>, linked: seq<Fingerprint>, e: EndpointId, use: Use)
  {
    forall f ::
      && (Link(e, f, use) in links <==> f in linked)
      && (f in linked ==> (links[Link(e, f, use)] <==> f == linked[|linked| - 1]))
  }

  /** One step links exactly what `Linked` says and otherwise leaves the pair alone. */
  lemma {:induction false} StepLinks(s: Tables, step: Step, e: EndpointId, use: Use)
    requires !RemovesLinks(s, step, e, use)
    ensures PairStep(s.obs.links, Apply(s, step).obs.links, Linked(s, step, e, use), e, use)
  {
    if step.OnScans? { ScanStepLinks(s, step.scan, e, use); }
    else if step.OnPurge? && step.purge.PurgeCertificate? { PurgeCertLinks(s, step.purge.f, e, use); }
    else if !step.OnFleet? { assert Apply(s, step).obs == s.obs; }
  }

  lemma {:induction false} PurgeCertLinks(s: Tables, f: Fingerprint, e: EndpointId, use: Use)
    requires Link(e, f, use) !in s.obs.links
    ensures PairStep(s.obs.links, PurgeCert(s, f).obs.links, None, e, use)
  {
  }

  lemma {:induction false} ScanStepLinks(s: Tables, step: ScanStep, e: EndpointId, use: Use)
    ensures PairStep(s.obs.links, ApplyScan(s, step).obs.links, Linked(s, OnScans(step), e, use), e, use)
  {
  }

  lemma {:induction false} ExtendTracks(before: map<Link, bool>, after: map<Link, bool>, linked: seq<Fingerprint>,
                                        f: Option<Fingerprint>, e: EndpointId, use: Use)
    requires Tracks(before, linked, e, use) && PairStep(before, after, f, e, use)
    ensures Tracks(after, linked + (if f.Some? then [f.value] else []), e, use)
  {
  }

  /** In every run that removes no link row of the pair, its rows are exactly the
      certificates ever linked to it, and the current one is the one linked last. */
  lemma {:induction false} LastLinkedIsCurrent(s: Tables, steps: seq<Step>, n: nat, e: EndpointId, use: Use)
    requires n <= |steps| && forall i :: 0 <= i < n ==> KeepsLinksAt(s, steps, i, e, use)
    requires forall l :: l in s.obs.links ==> l.endpoint != e || l.use != use
    ensures Tracks(After(s, steps, n).obs.links, LinkHistory(s, steps, n, e, use), e, use)
  {
    if n > 0 {
      LastLinkedIsCurrent(s, steps, n - 1, e, use);
      var t, step := After(s, steps, n - 1), steps[n - 1];
      assert KeepsLinksAt(s, steps, n - 1, e, use);
      StepLinks(t, step, e, use);
      ExtendTracks(t.obs.links, Apply(t, step).obs.links, LinkHistory(s, steps, n - 1, e, use), Linked(t, step, e, use), e, use);
    }
  }
}
