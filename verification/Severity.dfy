/**
 Two independently written severity aggregators: the profile classifier, which
 folds finding by finding, and the report's attention list, which counts.
 */
module SeverityAggregation {
  import opened Base

  datatype Severity = Ok | Warning | Critical

  datatype Version = Ssl30 | Tls10 | Tls11 | Tls12 | Tls13

  datatype Profile = Profile(ssl30: bool, tls10: bool, tls11: bool, tls12: bool, tls13: bool, suites: seq<string>)

  /** cipherClassifications, as a map from suite name to severity. */
  type CipherTable = map<string, Severity>

  function CipherSeverity(table: CipherTable, name: string): Severity
  {
    if name in table then table[name] else Ok
  }

  function VersionSeverity(v: Version): Severity
  {
    match v
    case Ssl30 => Critical
    case Tls10 => Critical
    case Tls11 => Warning
    case Tls12 => Ok
    case Tls13 => Ok
  }

  function Worst(a: Severity, b: Severity): Severity
  {
    if a.Critical? || b.Critical? then Critical
    else if a.Warning? || b.Warning? then Warning
    else Ok
  }

  const VERSION_ORDER: seq<Version> := [Ssl30, Tls10, Tls11, Tls12, Tls13]

  predicate Accepts(p: Profile, v: Version)
  {
    match v
    case Ssl30 => p.ssl30
    case Tls10 => p.tls10
    case Tls11 => p.tls11
    case Tls12 => p.tls12
    case Tls13 => p.tls13
  }

  /** Some accepted version or suite has the severity. */
  ghost predicate Finds(table: CipherTable, p: Profile, s: Severity)
  {
    (exists v :: Accepts(p, v) && VersionSeverity(v) == s) || exists c :: c in p.suites && CipherSeverity(table, c) == s
  }

  /** The worst severity found. */
  ghost function Overall(table: CipherTable, p: Profile): Severity
  {
    if Finds(table, p, Critical) then Critical else if Finds(table, p, Warning) then Warning else Ok
  }

  /** The worst severity of a list of findings. */
  function WorstOf(findings: seq<Severity>): Severity
  {
    if findings == [] then Ok else Worst(WorstOf(findings[..|findings| - 1]), findings[|findings| - 1])
  }

  lemma {:induction false} WorstOfMeaning(findings: seq<Severity>)
    ensures WorstOf(findings) == if Critical in findings then Critical else if Warning in findings then Warning else Ok
  {
    if findings != [] {
      var n := |findings| - 1;
      WorstOfMeaning(findings[..n]);
      assert findings == findings[..n] + [findings[n]];
    }
  }

  function Severities(versions: seq<Version>): seq<Severity>
  {
    seq(|versions|, i requires 0 <= i < |versions| => VersionSeverity(versions[i]))
  }

  function Age(v: Version): nat
  {
    match v case Ssl30 => 0 case Tls10 => 1 case Tls11 => 2 case Tls12 => 3 case Tls13 => 4
  }

  /** `versions` are the accepted versions below `limit`, oldest first. */
  ghost predicate ListsAccepted(p: Profile, versions: seq<Version>, limit: nat)
  {
    && (forall v :: v in versions <==> Accepts(p, v) && Age(v) < limit)
    && (forall i, j :: 0 <= i < j < |versions| ==> Age(versions[i]) < Age(versions[j]))
  }

  lemma ListNext(p: Profile, versions: seq<Version>, v: Version)
    requires ListsAccepted(p, versions, Age(v))
    ensures ListsAccepted(p, if Accepts(p, v) then versions + [v] else versions, Age(v) + 1)
  {
    forall u: Version | Age(u) == Age(v)
      ensures u == v
    {
    }
  }

  lemma OldestFirst(i: nat)
    requires i < |VERSION_ORDER|
    ensures Age(VERSION_ORDER[i]) == i
  {
  }

  lemma SeveritiesAppend(versions: seq<Version>, v: Version)
    ensures WorstOf(Severities(versions + [v])) == Worst(WorstOf(Severities(versions)), VersionSeverity(v))
  {
    AppendFinding(Severities(versions), VersionSeverity(v));
    assert Severities(versions + [v]) == Severities(versions) + [VersionSeverity(v)];
  }

  /** The version findings, oldest first. */
  method ClassifyVersions(p: Profile) returns (versions: seq<Version>, overall: Severity)
    ensures ListsAccepted(p, versions, 5)
    ensures overall == WorstOf(Severities(versions))
  {
    versions := [];
    overall := Ok;
    for i := 0 to |VERSION_ORDER|
      invariant ListsAccepted(p, versions, i)
      invariant overall == WorstOf(Severities(versions))
    {
      var v := VERSION_ORDER[i];
      OldestFirst(i);
      ListNext(p, versions, v);
      if Accepts(p, v) {
        SeveritiesAppend(versions, v);
        overall := Worst(overall, VersionSeverity(v));
        versions := versions + [v];
      }
    }
  }

  /** Classify: the accepted versions oldest first, one finding per suite in order, and the worst of them all. */
  method Classify(table: CipherTable, p: Profile) returns (versions: seq<Version>, suites: seq<Severity>, overall: Severity)
    ensures ListsAccepted(p, versions, 5)
    ensures |suites| == |p.suites| && forall i :: 0 <= i < |suites| ==> suites[i] == CipherSeverity(table, p.suites[i])
    ensures overall == Overall(table, p)
  {
    versions, overall := ClassifyVersions(p);
    suites := [];
    ghost var all := Severities(versions);
    for i := 0 to |p.suites|
      invariant |suites| == i && forall j :: 0 <= j < i ==> suites[j] == CipherSeverity(table, p.suites[j])
      invariant all == Severities(versions) + suites && overall == WorstOf(all)
    {
      var s := if p.suites[i] in table then table[p.suites[i]] else Ok;
      AppendFinding(all, s);
      suites, all := suites + [s], all + [s];
      overall := Worst(overall, suites[|suites| - 1]);
    }
    AllFindings(table, p, versions, suites);
    WorstOfMeaning(all);
  }

  lemma AppendFinding(findings: seq<Severity>, s: Severity)
    ensures WorstOf(findings + [s]) == Worst(WorstOf(findings), s)
  {
    assert (findings + [s])[..|findings|] == findings;
  }

  lemma VersionsFound(p: Profile, versions: seq<Version>, s: Severity)
    requires ListsAccepted(p, versions, 5)
    ensures s in Severities(versions) <==> exists v :: Accepts(p, v) && VersionSeverity(v) == s
  {
    if s in Severities(versions) {
      var i :| 0 <= i < |versions| && Severities(versions)[i] == s;
      assert versions[i] in versions;
    }
    if v :| Accepts(p, v) && VersionSeverity(v) == s {
      assert v in versions;
      var i :| 0 <= i < |versions| && versions[i] == v;
      assert Severities(versions)[i] == s;
    }
  }

  lemma AllFindings(table: CipherTable, p: Profile, versions: seq<Version>, suites: seq<Severity>)
    requires ListsAccepted(p, versions, 5)
    requires |suites| == |p.suites| && forall i :: 0 <= i < |suites| ==> suites[i] == CipherSeverity(table, p.suites[i])
    ensures forall s :: s in Severities(versions) + suites <==> Finds(table, p, s)
  {
    forall s
      ensures s in suites <==> exists c :: c in p.suites && CipherSeverity(table, c) == s
      ensures s in Severities(versions) <==> exists v :: Accepts(p, v) && VersionSeverity(v) == s
    {
      VersionsFound(p, versions, s);
      if s in suites {
        var i :| 0 <= i < |suites| && suites[i] == s;
        assert p.suites[i] in p.suites;
      }
      if c :| c in p.suites && CipherSeverity(table, c) == s {
        var i :| 0 <= i < |p.suites| && p.suites[i] == c;
        assert suites[i] == s;
      }
    }
  }

  /** What the attention list reports. */
  datatype Issue = SupportsSsl30 | SupportsTls10 | SupportsTls11 | CriticalSuites(count: nat) | WeakSuites(count: nat)

  function CountSeverity(table: CipherTable, suites: seq<string>, s: Severity): nat
  {
    if suites == [] then 0
    else CountSeverity(table, suites[..|suites| - 1], s) + (if CipherSeverity(table, suites[|suites| - 1]) == s then 1 else 0)
  }

  lemma {:induction false} CountPositiveIff(table: CipherTable, suites: seq<string>, s: Severity)
    ensures CountSeverity(table, suites, s) > 0 <==> exists c :: c in suites && CipherSeverity(table, c) == s
  {
    if suites != [] {
      var n := |suites| - 1;
      CountPositiveIff(table, suites[..n], s);
      assert suites == suites[..n] + [suites[n]];
    }
  }

  /** The counting loop of allAttentionIssues. */
  method CountWeak(table: CipherTable, suites: seq<string>) returns (critical: nat, warning: nat)
    ensures critical == CountSeverity(table, suites, Critical) && warning == CountSeverity(table, suites, Warning)
  {
    critical, warning := 0, 0;
    for i := 0 to |suites|
      invariant critical == CountSeverity(table, suites[..i], Critical) && warning == CountSeverity(table, suites[..i], Warning)
    {
      assert suites[..i + 1][..i] == suites[..i];
      match CipherSeverity(table, suites[i])
      case Critical => critical := critical + 1;
      case Warning => warning := warning + 1;
      case Ok =>
    }
    assert suites[..|suites|] == suites;
  }

  /** allAttentionIssues agrees with the classifier: it flags nothing exactly when the overall
      severity is ok, and otherwise reports that severity, whatever the TLS 1.2 and 1.3 flags. */
  method AllAttentionIssues(table: CipherTable, p: Profile) returns (issues: seq<Issue>, severity: Option<Severity>)
    ensures issues == [] <==> Overall(table, p) == Ok
    ensures severity == if Overall(table, p) == Ok then None else Some(Overall(table, p))
    ensures SupportsSsl30 in issues <==> p.ssl30
    ensures SupportsTls10 in issues <==> p.tls10
    ensures SupportsTls11 in issues <==> p.tls11
    ensures forall n :: CriticalSuites(n) in issues <==> n == CountSeverity(table, p.suites, Critical) && n > 0
    ensures forall n :: WeakSuites(n) in issues <==> n == CountSeverity(table, p.suites, Warning) && n > 0
  {
    issues := [];
    var worst := Ok;
    if p.ssl30 {
      issues, worst := issues + [SupportsSsl30], Critical;
    }
    if p.tls10 {
      issues, worst := issues + [SupportsTls10], Critical;
    }
    if p.tls11 {
      issues := issues + [SupportsTls11];
      if !worst.Critical? { worst := Warning; }
    }
    var critical, warning := CountWeak(table, p.suites);
    CountPositiveIff(table, p.suites, Critical);
    CountPositiveIff(table, p.suites, Warning);
    if critical > 0 {
      issues, worst := issues + [CriticalSuites(critical)], Critical;
    }
    if warning > 0 {
      issues := issues + [WeakSuites(warning)];
      if worst.Ok? { worst := Warning; }
    }
    VersionFindings(p);
    severity := if |issues| == 0 then None else Some(worst);
  }

  /** Which suite findings it has: a suite the table does not list is none. */
  lemma SuiteFindings(table: CipherTable, suites: seq<string>)
    ensures (exists c :: c in suites && CipherSeverity(table, c) == Critical) <==> exists c :: c in suites && c in table && table[c] == Critical
    ensures (exists c :: c in suites && CipherSeverity(table, c) == Warning) <==> exists c :: c in suites && c in table && table[c] == Warning
  {
    if c :| c in suites && CipherSeverity(table, c) == Critical { assert c in table; }
    if c :| c in suites && c in table && table[c] == Critical { assert CipherSeverity(table, c) == Critical; }
    if c :| c in suites && CipherSeverity(table, c) == Warning { assert c in table; }
    if c :| c in suites && c in table && table[c] == Warning { assert CipherSeverity(table, c) == Warning; }
  }

  /** The classifier by columns: critical for SSL 3.0, TLS 1.0 or a critical suite, else warning for
      TLS 1.1 or a weak suite, else ok. */
  lemma OverallByColumns(table: CipherTable, p: Profile)
    ensures Overall(table, p) == Critical <==> p.ssl30 || p.tls10 || exists c :: c in p.suites && c in table && table[c] == Critical
    ensures Overall(table, p) == Ok <==> !p.ssl30 && !p.tls10 && !p.tls11 && forall c :: c in p.suites && c in table ==> table[c] == Ok
  {
    VersionFindings(p);
    SuiteFindings(table, p.suites);
  }

  /** One more suite adds one to the count of its severity. */
  lemma CountAppend(table: CipherTable, suites: seq<string>, c: string, s: Severity)
    ensures CountSeverity(table, [], s) == 0
    ensures CountSeverity(table, suites + [c], s) ==
              CountSeverity(table, suites, s) + (if (c in table && table[c] == s) || (c !in table && s == Ok) then 1 else 0)
  {
    assert (suites + [c])[..|suites|] == suites;
  }

  /** Which version findings a profile has. */
  lemma VersionFindings(p: Profile)
    ensures (exists v :: Accepts(p, v) && VersionSeverity(v) == Critical) <==> p.ssl30 || p.tls10
    ensures (exists v :: Accepts(p, v) && VersionSeverity(v) == Warning) <==> p.tls11
  {
    assert Accepts(p, Ssl30) == p.ssl30 && Accepts(p, Tls10) == p.tls10 && Accepts(p, Tls11) == p.tls11;
  }
}
