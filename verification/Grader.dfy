/**
 The SSL Labs-style score and letter grade of a TLS profile, after the SSL Server
 Rating Guide. Suite properties are real substring tests on the upper-cased name.
 */
module Grader {
  import opened Base
  import opened Text

  // ---------------------------------------------------------------------------
  // Suite names
  // ---------------------------------------------------------------------------

  predicate Contains(s: string, part: string)
  {
    part <= s || (s != [] && Contains(s[1..], part))
  }

  /** strings.Contains: the part stands somewhere in the string. */
  lemma {:induction false} ContainsMeaning(s: string, part: string)
    ensures Contains(s, part) <==> exists a, b :: s == a + part + b
  {
    if part <= s {
      assert s == "" + part + s[|part|..];
    } else if s != [] {
      ContainsMeaning(s[1..], part);
      if Contains(s[1..], part) {
        var a, b :| s[1..] == a + part + b;
        assert s == ([s[0]] + a) + part + b;
      }
    }
    if a, b :| s == a + part + b {
      if a == "" {
        assert part <= s;
      } else {
        assert s[1..] == a[1..] + part + b;
      }
    }
  }

  predicate Names(suite: string, part: string)
  {
    Contains(Upper(suite), part)
  }

  /** cipherEffectiveBits: an explicit entry, else the first rule that matches the name. */
  function EffectiveBits(suite: string): (bits: nat)
  {
    if suite in {"TLS_RSA_WITH_NULL_MD5", "TLS_RSA_WITH_NULL_SHA", "TLS_RSA_WITH_NULL_SHA256"} then 0
    else if Names(suite, "NULL") then 0
    else if Names(suite, "EXPORT") then (if Names(suite, "1024") then 56 else 40)
    else if Names(suite, "DES_CBC") && !Names(suite, "3DES") then 56
    else if Names(suite, "RC4") then 128
    else if Names(suite, "RC2") then 128
    else if Names(suite, "3DES") then 112
    else if Names(suite, "IDEA") then 128
    else if Names(suite, "SEED") then 128
    else if Names(suite, "CHACHA20") then 256
    else if Names(suite, "AES_256") || Names(suite, "AES256") then 256
    else if Names(suite, "AES_128") || Names(suite, "AES128") then 128
    else if Names(suite, "CAMELLIA_256") || Names(suite, "CAMELLIA256") then 256
    else if Names(suite, "CAMELLIA_128") || Names(suite, "CAMELLIA128") then 128
    else if Names(suite, "GOST") || Names(suite, "28147") then 256
    else 128
  }

  function BitsScore(bits: int): int
  {
    if bits == 0 then 0 else if bits < 128 then 20 else if bits < 256 then 80 else 100
  }

  function SuiteScore(suite: string): (score: int)
    ensures 0 <= score <= 100
  {
    BitsScore(EffectiveBits(suite))
  }

  predicate HasSuite(suites: seq<string>, part: string)
  {
    exists s :: s in suites && Names(s, part)
  }

  predicate OnlyRc4(suites: seq<string>)
  {
    suites != [] && forall s :: s in suites ==> Names(s, "RC4")
  }

  predicate IsTls13Name(upper: string)
  {
    "TLS_" <= upper && !Contains(upper, "_WITH_")
  }

  predicate HasForwardSecrecy(suites: seq<string>)
  {
    exists s :: s in suites && (Names(s, "ECDHE_") || Names(s, "DHE_") || IsTls13Name(Upper(s)))
  }

  predicate HasAead(suites: seq<string>)
  {
    exists s :: s in suites && (Names(s, "_GCM_") || Names(s, "_CCM") || Names(s, "POLY1305") || IsTls13Name(Upper(s)))
  }

  // ---------------------------------------------------------------------------
  // Input and grades
  // ---------------------------------------------------------------------------

  datatype Protocol = Ssl20 | Ssl30 | Tls10 | Tls11 | Tls12 | Tls13

  /** Certificate problems; each of the first four forces F. */
  datatype CertIssues = CertIssues(
    expired: bool, selfSigned: bool, revoked: bool, insecureSig: bool,
    notTrusted: bool, nameMismatch: bool, chainIncomplete: bool)

  datatype Vulnerabilities = Vulnerabilities(heartbleed: bool, poodle: bool, drown: bool, robot: bool)

  datatype ScoreInput = ScoreInput(
    enabled: set<Protocol>,
    suites: seq<string>,
    keyBits: int,
    cert: CertIssues,
    vuln: Vulnerabilities,
    forwardSecrecy: bool,
    aead: bool,
    hsts: Option<bool>)

  datatype Grade = F | E | D | C | B | AMinus | A | APlus | T | M

  function Rank(g: Grade): int
  {
    match g
    case F => 0 case E => 1 case D => 2 case C => 3 case B => 4
    case AMinus => 5 case A => 6 case APlus => 7 case T => -1 case M => -1
  }

  function CapGrade(current: Grade, cap: Grade): Grade
  {
    if Rank(current) > Rank(cap) then cap else current
  }

  function ScoreToGrade(score: int): Grade
  {
    if score >= 80 then A else if score >= 65 then B else if score >= 50 then C
    else if score >= 35 then D else if score >= 20 then E else F
  }

  // ---------------------------------------------------------------------------
  // Sub-scores
  // ---------------------------------------------------------------------------

  function ProtocolPoints(p: Protocol): int
  {
    match p
    case Ssl20 => 0 case Ssl30 => 80 case Tls10 => 90 case Tls11 => 95 case Tls12 => 100 case Tls13 => 100
  }

  /** Half the sum of the best and the worst enabled protocol. */
  function ProtocolScore(enabled: set<Protocol>): int
  {
    if enabled == {} then 0 else (BestProtocol(enabled) + WorstProtocol(enabled)) / 2
  }

  function BestProtocol(enabled: set<Protocol>): int
  {
    if Tls13 in enabled || Tls12 in enabled then 100 else if Tls11 in enabled then 95
    else if Tls10 in enabled then 90 else if Ssl30 in enabled then 80 else 0
  }

  function WorstProtocol(enabled: set<Protocol>): int
  {
    if Ssl20 in enabled then 0 else if Ssl30 in enabled then 80 else if Tls10 in enabled then 90
    else if Tls11 in enabled then 95 else 100
  }

  /** `best` and `worst` are the extreme points of the enabled protocols visited so far. */
  ghost predicate Visited(order: seq<Protocol>, n: nat, enabled: set<Protocol>, best: int, worst: int)
    requires n <= |order|
  {
    if forall j :: 0 <= j < n ==> order[j] !in enabled then best == -1 && worst == 101
    else
      && (forall j :: 0 <= j < n && order[j] in enabled ==> worst <= ProtocolPoints(order[j]) <= best)
      && (exists j :: 0 <= j < n && order[j] in enabled && ProtocolPoints(order[j]) == best)
      && (exists j :: 0 <= j < n && order[j] in enabled && ProtocolPoints(order[j]) == worst)
  }

  lemma VisitNext(order: seq<Protocol>, n: nat, enabled: set<Protocol>, best: int, worst: int)
    requires n < |order| && Visited(order, n, enabled, best, worst)
    ensures var s := ProtocolPoints(order[n]);
            if order[n] !in enabled then Visited(order, n + 1, enabled, best, worst)
            else Visited(order, n + 1, enabled, if s > best then s else best, if s < worst then s else worst)
  {
  }

  /** scoreProtocols. `order` is the order in which the map happens to be visited. */
  method ScoreProtocols(enabled: set<Protocol>, order: seq<Protocol>) returns (score: int)
    requires forall p: Protocol :: p in order
    ensures score == ProtocolScore(enabled)
  {
    var best, worst := -1, 101;
    for i := 0 to |order|
      invariant Visited(order, i, enabled, best, worst)
    {
      VisitNext(order, i, enabled, best, worst);
      if order[i] !in enabled {
        continue;
      }
      var s := ProtocolPoints(order[i]);
      if s > best { best := s; }
      if s < worst { worst := s; }
    }
    VisitedAll(order, enabled, best, worst);
    if best < 0 {
      return 0;
    }
    score := (best + worst) / 2;
  }

  lemma VisitedAll(order: seq<Protocol>, enabled: set<Protocol>, best: int, worst: int)
    requires (forall p: Protocol :: p in order) && Visited(order, |order|, enabled, best, worst)
    ensures best < 0 <==> enabled == {}
    ensures enabled != {} ==> best == BestProtocol(enabled) && worst == WorstProtocol(enabled)
  {
    if p :| p in enabled {
      assert p in order;
      var t :| 0 <= t < |order| && order[t] in enabled && ProtocolPoints(order[t]) == best;
      var b :| 0 <= b < |order| && order[b] in enabled && ProtocolPoints(order[b]) == worst;
      forall q | q in enabled
        ensures worst <= ProtocolPoints(q) <= best
      {
        assert q in order;
      }
      ProtocolExtremes(enabled, order[t], order[b]);
    }
  }

  lemma ProtocolExtremes(enabled: set<Protocol>, top: Protocol, bottom: Protocol)
    requires top in enabled && bottom in enabled
    requires forall p :: p in enabled ==> ProtocolPoints(bottom) <= ProtocolPoints(p) <= ProtocolPoints(top)
    ensures ProtocolPoints(top) == BestProtocol(enabled) && ProtocolPoints(bottom) == WorstProtocol(enabled)
  {
  }

  /** None when the scanner did not probe key exchange. */
  function KeyScore(bits: int): Option<int>
  {
    if bits < 0 then None
    else if bits == 0 then Some(0)
    else if bits < 512 then Some(20)
    else if bits < 1024 then Some(40)
    else if bits < 2048 then Some(80)
    else if bits < 4096 then Some(90)
    else Some(100)
  }

  /** The strongest suite's score. */
  function BestSuite(suites: seq<string>): (m: int)
    requires suites != []
    ensures (forall s :: s in suites ==> SuiteScore(s) <= m) && exists s :: s in suites && SuiteScore(s) == m
  {
    if |suites| == 1 then SuiteScore(suites[0])
    else
      var rest := BestSuite(suites[1..]);
      assert suites == [suites[0]] + suites[1..];
      if SuiteScore(suites[0]) > rest then SuiteScore(suites[0]) else rest
  }

  /** The weakest suite's score. */
  function WorstSuite(suites: seq<string>): (m: int)
    requires suites != []
    ensures (forall s :: s in suites ==> m <= SuiteScore(s)) && exists s :: s in suites && SuiteScore(s) == m
  {
    if |suites| == 1 then SuiteScore(suites[0])
    else
      var rest := WorstSuite(suites[1..]);
      assert suites == [suites[0]] + suites[1..];
      if SuiteScore(suites[0]) < rest then SuiteScore(suites[0]) else rest
  }

  function CipherScore(suites: seq<string>): int
  {
    if suites == [] then 0 else (BestSuite(suites) + WorstSuite(suites)) / 2
  }

  method ScoreCipherStrength(suites: seq<string>) returns (score: int)
    ensures score == CipherScore(suites)
  {
    if |suites| == 0 {
      return 0;
    }
    var best, worst := -1, 101;
    ghost var top, bottom := 0, 0;
    for i := 0 to |suites|
      invariant i == 0 ==> best == -1 && worst == 101
      invariant i > 0 ==> 0 <= top < i && best == SuiteScore(suites[top]) && 0 <= bottom < i && worst == SuiteScore(suites[bottom])
      invariant forall j :: 0 <= j < i ==> worst <= SuiteScore(suites[j]) <= best
    {
      var s := SuiteScore(suites[i]);
      if s > best { best, top := s, i; }
      if s < worst { worst, bottom := s, i; }
    }
    Extremes(suites, top, bottom);
    score := (best + worst) / 2;
  }

  /** A suite no other beats, and one that beats no other, carry the two extreme scores. */
  lemma Extremes(suites: seq<string>, top: nat, bottom: nat)
    requires top < |suites| && bottom < |suites|
    requires forall j :: 0 <= j < |suites| ==> SuiteScore(suites[bottom]) <= SuiteScore(suites[j]) <= SuiteScore(suites[top])
    ensures SuiteScore(suites[top]) == BestSuite(suites) && SuiteScore(suites[bottom]) == WorstSuite(suites)
  {
  }

  /** The weighted score; without key exchange the other two are reweighted. */
  function FinalScore(protocol: int, key: Option<int>, cipher: int): int
  {
    if key.Some? then (protocol * 30 + key.value * 30 + cipher * 40) / 100 else (protocol * 30 + cipher * 40) / 70
  }

  function ScoreOf(inp: ScoreInput): int
  {
    FinalScore(ProtocolScore(inp.enabled), KeyScore(inp.keyBits), CipherScore(inp.suites))
  }

  // ---------------------------------------------------------------------------
  // Failures and caps
  // ---------------------------------------------------------------------------

  predicate ModernTls(enabled: set<Protocol>)
  {
    Tls11 in enabled || Tls12 in enabled || Tls13 in enabled
  }

  predicate BestIsSsl30(enabled: set<Protocol>)
  {
    Ssl30 in enabled && Tls10 !in enabled && !ModernTls(enabled)
  }

  /** Known and below the limit; 0 bits count as anonymous, not as weak. */
  predicate WeakKey(bits: int, limit: int)
  {
    0 < bits < limit
  }

  /** Some automatic failure other than a weak key applies. */
  predicate FailsOtherwise(inp: ScoreInput)
  {
    || Ssl20 in inp.enabled
    || inp.cert.expired || inp.cert.selfSigned || inp.cert.revoked || inp.cert.insecureSig
    || HasSuite(inp.suites, "EXPORT")
    || inp.vuln.heartbleed || inp.vuln.drown || inp.vuln.robot
    || BestIsSsl30(inp.enabled)
    || OnlyRc4(inp.suites)
  }

  predicate Fails(inp: ScoreInput)
  {
    FailsOtherwise(inp) || WeakKey(inp.keyBits, 1024)
  }

  predicate CappedAtC(inp: ScoreInput)
  {
    || inp.vuln.poodle
    || (HasSuite(inp.suites, "3DES") && ModernTls(inp.enabled))
    || (HasSuite(inp.suites, "RC4") && ModernTls(inp.enabled))
    || (Tls12 !in inp.enabled && Tls13 !in inp.enabled)
  }

  predicate CappedAtB(inp: ScoreInput)
  {
    WeakKey(inp.keyBits, 2048) || CappedAtBOtherwise(inp)
  }

  /** Some cap at B other than a weak key applies. */
  predicate CappedAtBOtherwise(inp: ScoreInput)
  {
    || HasSuite(inp.suites, "RC4")
    || inp.cert.chainIncomplete
    || !inp.forwardSecrecy
    || !inp.aead
    || Tls10 in inp.enabled || Tls11 in inp.enabled
  }

  predicate CappedAtAMinus(inp: ScoreInput)
  {
    Tls13 !in inp.enabled || inp.hsts == Some(false)
  }

  function Min(a: int, b: int): int
  {
    if a < b then a else b
  }

  /** The least of a rank and every limit that applies. */
  function Limited(rank: int, fails: bool, atC: bool, atB: bool, atAMinus: bool): int
  {
    Min(rank, Min(if fails then 0 else 7, Min(if atC then 3 else 7, Min(if atB then 4 else 7, if atAMinus then 5 else 7))))
  }

  /** The closed form: the least of the score's own grade and every limit that applies. */
  function LimitedRank(inp: ScoreInput): int
  {
    RankFrom(inp, ScoreOf(inp))
  }

  function RankFrom(inp: ScoreInput, score: int): int
  {
    Limited(Rank(ScoreToGrade(score)), Fails(inp), CappedAtC(inp), CappedAtB(inp), CappedAtAMinus(inp))
  }

  /** The rank after the certificate overrides, which replace any grade by T or M. */
  function FinalRank(inp: ScoreInput): int
  {
    Overridden(inp.cert, LimitedRank(inp))
  }

  function Overridden(cert: CertIssues, rank: int): int
  {
    if cert.notTrusted || cert.nameMismatch then -1 else rank
  }

  // One warning per rule, grouped by what the rule does to the grade.
  datatype CertFailure = Ssl20Enabled | CertExpired | CertSelfSigned | CertRevoked | CertInsecureSig
  datatype OtherFailure = InsecureKey | ExportSuites | Heartbleed | Drown | Robot | BestProtocolSsl30 | Rc4Only
  datatype CCap = Poodle | TripleDesWithTls11 | Rc4WithTls11 | NoTls12
  datatype BCap = WeakDh | Rc4Support | ChainIncomplete | NoForwardSecrecy | NoAead | OldTls
  datatype AMinusCap = NoTls13 | NoHsts
  datatype Special = NotTrusted | NameMismatch

  /** The source's list is these lists one after the other. */
  datatype Warnings = Warnings(
    certFailures: seq<CertFailure>,
    otherFailures: seq<OtherFailure>,
    atC: seq<CCap>,
    atB: seq<BCap>,
    atAMinus: seq<AMinusCap>,
    special: seq<Special>)

  predicate CertFailureApplies(inp: ScoreInput, w: CertFailure)
  {
    match w
    case Ssl20Enabled => Ssl20 in inp.enabled
    case CertExpired => inp.cert.expired
    case CertSelfSigned => inp.cert.selfSigned
    case CertRevoked => inp.cert.revoked
    case CertInsecureSig => inp.cert.insecureSig
  }

  predicate OtherFailureApplies(inp: ScoreInput, w: OtherFailure)
  {
    match w
    case InsecureKey => WeakKey(inp.keyBits, 1024)
    case ExportSuites => HasSuite(inp.suites, "EXPORT")
    case Heartbleed => inp.vuln.heartbleed
    case Drown => inp.vuln.drown
    case Robot => inp.vuln.robot
    case BestProtocolSsl30 => BestIsSsl30(inp.enabled)
    case Rc4Only => OnlyRc4(inp.suites)
  }

  predicate CCapApplies(inp: ScoreInput, w: CCap)
  {
    match w
    case Poodle => inp.vuln.poodle
    case TripleDesWithTls11 => HasSuite(inp.suites, "3DES") && ModernTls(inp.enabled)
    case Rc4WithTls11 => HasSuite(inp.suites, "RC4") && ModernTls(inp.enabled)
    case NoTls12 => Tls12 !in inp.enabled && Tls13 !in inp.enabled
  }

  predicate BCapApplies(inp: ScoreInput, w: BCap)
  {
    match w
    case WeakDh => WeakKey(inp.keyBits, 2048)
    case Rc4Support => HasSuite(inp.suites, "RC4")
    case ChainIncomplete => inp.cert.chainIncomplete
    case NoForwardSecrecy => !inp.forwardSecrecy
    case NoAead => !inp.aead
    case OldTls => Tls10 in inp.enabled || Tls11 in inp.enabled
  }

  predicate AMinusCapApplies(inp: ScoreInput, w: AMinusCap)
  {
    match w
    case NoTls13 => Tls13 !in inp.enabled
    case NoHsts => inp.hsts == Some(false)
  }

  predicate SpecialApplies(inp: ScoreInput, w: Special)
  {
    match w
    case NotTrusted => inp.cert.notTrusted
    case NameMismatch => inp.cert.nameMismatch
  }

  datatype ScoreResult = ScoreResult(protocol: int, key: Option<int>, cipher: int, score: int, grade: Grade, warnings: Warnings)

  method CertFailures(inp: ScoreInput, start: Grade) returns (grade: Grade, warnings: seq<CertFailure>)
    ensures forall w :: w in warnings <==> CertFailureApplies(inp, w)
    ensures grade == if warnings == [] then start else F
  {
    grade, warnings := start, [];
    if Ssl20 in inp.enabled { grade, warnings := F, warnings + [Ssl20Enabled]; }
    if inp.cert.expired { grade, warnings := F, warnings + [CertExpired]; }
    if inp.cert.selfSigned { grade, warnings := F, warnings + [CertSelfSigned]; }
    if inp.cert.revoked { grade, warnings := F, warnings + [CertRevoked]; }
    if inp.cert.insecureSig { grade, warnings := F, warnings + [CertInsecureSig]; }
  }

  /** Key and suite rules of step 6, and the vulnerabilities. */
  predicate EarlyFailure(w: OtherFailure)
  {
    w.InsecureKey? || w.ExportSuites? || w.Heartbleed? || w.Drown?
  }

  method EarlyFailures(inp: ScoreInput, start: Grade) returns (grade: Grade, warnings: seq<OtherFailure>)
    ensures forall w :: w in warnings <==> EarlyFailure(w) && OtherFailureApplies(inp, w)
    ensures grade == if warnings == [] then start else F
  {
    grade, warnings := start, [];
    if inp.keyBits >= 0 && inp.keyBits > 0 && inp.keyBits < 1024 { grade, warnings := F, warnings + [InsecureKey]; }
    if HasSuite(inp.suites, "EXPORT") { grade, warnings := F, warnings + [ExportSuites]; }
    if inp.vuln.heartbleed { grade, warnings := F, warnings + [Heartbleed]; }
    if inp.vuln.drown { grade, warnings := F, warnings + [Drown]; }
  }

  method OtherFailures(inp: ScoreInput, start: Grade) returns (grade: Grade, warnings: seq<OtherFailure>)
    ensures forall w :: w in warnings <==> OtherFailureApplies(inp, w)
    ensures grade == if warnings == [] then start else F
  {
    grade, warnings := EarlyFailures(inp, start);
    if inp.vuln.robot { grade, warnings := F, warnings + [Robot]; }
    if Ssl30 in inp.enabled && Tls10 !in inp.enabled && Tls11 !in inp.enabled && Tls12 !in inp.enabled && Tls13 !in inp.enabled {
      grade, warnings := F, warnings + [BestProtocolSsl30];
    }
    if OnlyRc4(inp.suites) { grade, warnings := F, warnings + [Rc4Only]; }
  }

  lemma CertFailuresMean(inp: ScoreInput, warnings: seq<CertFailure>)
    requires forall w :: w in warnings <==> CertFailureApplies(inp, w)
    ensures warnings != [] <==>
              Ssl20 in inp.enabled || inp.cert.expired || inp.cert.selfSigned || inp.cert.revoked || inp.cert.insecureSig
  {
    if warnings != [] { assert warnings[0] in warnings; }
    assert CertFailureApplies(inp, Ssl20Enabled) ==> Ssl20Enabled in warnings;
    assert CertFailureApplies(inp, CertExpired) ==> CertExpired in warnings;
    assert CertFailureApplies(inp, CertSelfSigned) ==> CertSelfSigned in warnings;
    assert CertFailureApplies(inp, CertRevoked) ==> CertRevoked in warnings;
    assert CertFailureApplies(inp, CertInsecureSig) ==> CertInsecureSig in warnings;
  }

  lemma OtherFailuresMean(inp: ScoreInput, warnings: seq<OtherFailure>)
    requires forall w :: w in warnings <==> OtherFailureApplies(inp, w)
    ensures warnings != [] <==>
              || WeakKey(inp.keyBits, 1024) || HasSuite(inp.suites, "EXPORT")
              || inp.vuln.heartbleed || inp.vuln.drown || inp.vuln.robot || BestIsSsl30(inp.enabled) || OnlyRc4(inp.suites)
  {
    if warnings != [] { assert warnings[0] in warnings; }
    assert OtherFailureApplies(inp, InsecureKey) ==> InsecureKey in warnings;
    assert OtherFailureApplies(inp, ExportSuites) ==> ExportSuites in warnings;
    assert OtherFailureApplies(inp, Heartbleed) ==> Heartbleed in warnings;
    assert OtherFailureApplies(inp, Drown) ==> Drown in warnings;
    assert OtherFailureApplies(inp, Robot) ==> Robot in warnings;
    assert OtherFailureApplies(inp, BestProtocolSsl30) ==> BestProtocolSsl30 in warnings;
    assert OtherFailureApplies(inp, Rc4Only) ==> Rc4Only in warnings;
  }

  lemma CCapsMean(inp: ScoreInput, warnings: seq<CCap>)
    requires forall w :: w in warnings <==> CCapApplies(inp, w)
    ensures warnings != [] <==> CappedAtC(inp)
  {
    if warnings != [] { assert warnings[0] in warnings; }
    assert CCapApplies(inp, Poodle) ==> Poodle in warnings;
    assert CCapApplies(inp, TripleDesWithTls11) ==> TripleDesWithTls11 in warnings;
    assert CCapApplies(inp, Rc4WithTls11) ==> Rc4WithTls11 in warnings;
    assert CCapApplies(inp, NoTls12) ==> NoTls12 in warnings;
  }

  lemma BCapsMean(inp: ScoreInput, warnings: seq<BCap>)
    requires forall w :: w in warnings <==> BCapApplies(inp, w)
    ensures warnings != [] <==> CappedAtB(inp)
  {
    if warnings != [] { assert warnings[0] in warnings; }
    assert BCapApplies(inp, WeakDh) ==> WeakDh in warnings;
    assert BCapApplies(inp, Rc4Support) ==> Rc4Support in warnings;
    assert BCapApplies(inp, ChainIncomplete) ==> ChainIncomplete in warnings;
    assert BCapApplies(inp, NoForwardSecrecy) ==> NoForwardSecrecy in warnings;
    assert BCapApplies(inp, NoAead) ==> NoAead in warnings;
    assert BCapApplies(inp, OldTls) ==> OldTls in warnings;
  }

  lemma AMinusCapsMean(inp: ScoreInput, warnings: seq<AMinusCap>)
    requires forall w :: w in warnings <==> AMinusCapApplies(inp, w)
    ensures warnings != [] <==> CappedAtAMinus(inp)
  {
    if warnings != [] { assert warnings[0] in warnings; }
    assert AMinusCapApplies(inp, NoTls13) ==> NoTls13 in warnings;
    assert AMinusCapApplies(inp, NoHsts) ==> NoHsts in warnings;
  }

  ghost predicate FailuresListed(inp: ScoreInput, ws: Warnings)
  {
    && (forall w :: w in ws.certFailures <==> CertFailureApplies(inp, w))
    && (forall w :: w in ws.otherFailures <==> OtherFailureApplies(inp, w))
  }

  ghost predicate CapsListed(inp: ScoreInput, ws: Warnings)
  {
    && (forall w :: w in ws.atC <==> CCapApplies(inp, w))
    && (forall w :: w in ws.atB <==> BCapApplies(inp, w))
    && (forall w :: w in ws.atAMinus <==> AMinusCapApplies(inp, w))
  }

  predicate NoCaps(ws: Warnings)
  {
    ws.atC == [] && ws.atB == [] && ws.atAMinus == []
  }

  /** Step 6: every failure forces F and is reported. */
  method ApplyFailures(inp: ScoreInput, start: Grade) returns (grade: Grade, warnings: Warnings)
    ensures grade == if Fails(inp) then F else start
    ensures FailuresListed(inp, warnings) && NoCaps(warnings) && warnings.special == []
  {
    var first, second;
    grade, first := CertFailures(inp, start);
    grade, second := OtherFailures(inp, grade);
    warnings := Warnings(first, second, [], [], [], []);
    FailuresMean(inp, warnings);
  }

  function CapIf(grade: Grade, applies: bool, cap: Grade): Grade
  {
    if applies then CapGrade(grade, cap) else grade
  }

  /** The three caps one after the other. */
  function Capped(grade: Grade, atC: bool, atB: bool, atAMinus: bool): Grade
  {
    CapIf(CapIf(CapIf(grade, atC, C), atB, B), atAMinus, AMinus)
  }

  method CapAtC(inp: ScoreInput, start: Grade) returns (grade: Grade, warnings: seq<CCap>)
    ensures forall w :: w in warnings <==> CCapApplies(inp, w)
    ensures grade == CapIf(start, warnings != [], C)
  {
    grade, warnings := start, [];
    if inp.vuln.poodle { grade, warnings := CapGrade(grade, C), warnings + [Poodle]; }
    if HasSuite(inp.suites, "3DES") && ModernTls(inp.enabled) { grade, warnings := CapGrade(grade, C), warnings + [TripleDesWithTls11]; }
    if HasSuite(inp.suites, "RC4") && ModernTls(inp.enabled) { grade, warnings := CapGrade(grade, C), warnings + [Rc4WithTls11]; }
    if Tls12 !in inp.enabled && Tls13 !in inp.enabled { grade, warnings := CapGrade(grade, C), warnings + [NoTls12]; }
  }

  predicate EarlyBCap(w: BCap)
  {
    w.WeakDh? || w.Rc4Support? || w.ChainIncomplete?
  }

  method EarlyCapsAtB(inp: ScoreInput, start: Grade) returns (grade: Grade, warnings: seq<BCap>)
    ensures forall w :: w in warnings <==> EarlyBCap(w) && BCapApplies(inp, w)
    ensures grade == CapIf(start, warnings != [], B)
  {
    grade, warnings := start, [];
    if inp.keyBits >= 0 && inp.keyBits > 0 && inp.keyBits < 2048 { grade, warnings := CapGrade(grade, B), warnings + [WeakDh]; }
    if HasSuite(inp.suites, "RC4") { grade, warnings := CapGrade(grade, B), warnings + [Rc4Support]; }
    if inp.cert.chainIncomplete { grade, warnings := CapGrade(grade, B), warnings + [ChainIncomplete]; }
  }

  method CapAtB(inp: ScoreInput, start: Grade) returns (grade: Grade, warnings: seq<BCap>)
    ensures forall w :: w in warnings <==> BCapApplies(inp, w)
    ensures grade == CapIf(start, warnings != [], B)
  {
    grade, warnings := EarlyCapsAtB(inp, start);
    if !inp.forwardSecrecy { grade, warnings := CapGrade(grade, B), warnings + [NoForwardSecrecy]; }
    if !inp.aead { grade, warnings := CapGrade(grade, B), warnings + [NoAead]; }
    if Tls10 in inp.enabled || Tls11 in inp.enabled { grade, warnings := CapGrade(grade, B), warnings + [OldTls]; }
  }

  method CapAtAMinus(inp: ScoreInput, start: Grade) returns (grade: Grade, warnings: seq<AMinusCap>)
    ensures forall w :: w in warnings <==> AMinusCapApplies(inp, w)
    ensures grade == CapIf(start, warnings != [], AMinus)
  {
    grade, warnings := start, [];
    if Tls13 !in inp.enabled { grade, warnings := CapGrade(grade, AMinus), warnings + [NoTls13]; }
    if inp.hsts.Some? && !inp.hsts.value { grade, warnings := CapGrade(grade, AMinus), warnings + [NoHsts]; }
  }

  /** The cap statements. */
  method AllCaps(inp: ScoreInput, start: Grade, before: Warnings) returns (grade: Grade, warnings: Warnings)
    ensures grade == Capped(start, CappedAtC(inp), CappedAtB(inp), CappedAtAMinus(inp))
    ensures CapsListed(inp, warnings) && warnings == before.(atC := warnings.atC, atB := warnings.atB, atAMinus := warnings.atAMinus)
  {
    var atC, atB, atAMinus;
    grade, atC := CapAtC(inp, start);
    grade, atB := CapAtB(inp, grade);
    grade, atAMinus := CapAtAMinus(inp, grade);
    CCapsMean(inp, atC);
    BCapsMean(inp, atB);
    AMinusCapsMean(inp, atAMinus);
    warnings := before.(atC := atC, atB := atB, atAMinus := atAMinus);
  }

  /** Step 7: caps, skipped once the grade is F; skipping them changes no grade, but their
      warnings are left out. */
  method ApplyCaps(inp: ScoreInput, start: Grade, before: Warnings) returns (grade: Grade, warnings: Warnings)
    requires Rank(start) >= 0 && NoCaps(before)
    ensures grade == Capped(start, CappedAtC(inp), CappedAtB(inp), CappedAtAMinus(inp))
    ensures if start == F then NoCaps(warnings) else CapsListed(inp, warnings)
    ensures warnings == before.(atC := warnings.atC, atB := warnings.atB, atAMinus := warnings.atAMinus)
  {
    grade, warnings := start, before;
    if grade != F {
      grade, warnings := AllCaps(inp, grade, before);
    }
  }

  /** Failing or capping in stages takes the least limit. */
  lemma StagesTakeTheLeast(start: Grade, fails: bool, atC: bool, atB: bool, atAMinus: bool)
    requires Rank(start) >= 0
    ensures Rank(Capped(if fails then F else start, atC, atB, atAMinus)) == Limited(Rank(start), fails, atC, atB, atAMinus)
    ensures var grade := Capped(if fails then F else start, atC, atB, atAMinus); grade != T && grade != M
  {
  }

  /** Steps 1 to 4: the sub-scores and their weighted combination. */
  method SubScores(inp: ScoreInput, order: seq<Protocol>) returns (protocol: int, key: Option<int>, cipher: int, final: int)
    requires forall p: Protocol :: p in order
    ensures protocol == ProtocolScore(inp.enabled) && key == KeyScore(inp.keyBits) && cipher == CipherScore(inp.suites)
    ensures final == ScoreOf(inp)
  {
    protocol := ScoreProtocols(inp.enabled, order);
    key := KeyScore(inp.keyBits);
    cipher := ScoreCipherStrength(inp.suites);
    final := if key.Some? then (protocol * 30 + key.value * 30 + cipher * 40) / 100 else (protocol * 30 + cipher * 40) / 70;
  }

  /** The failures are reported, and the caps too unless the grade is F before them. */
  ghost predicate LimitsListed(inp: ScoreInput, score: int, ws: Warnings)
  {
    FailuresListed(inp, ws) && if Fails(inp) || ScoreToGrade(score) == F then NoCaps(ws) else CapsListed(inp, ws)
  }

  /** Steps 5 to 7: failures and caps in stages give the least of the base grade and every limit. */
  method Limit(inp: ScoreInput, score: int) returns (grade: Grade, warnings: Warnings)
    ensures Rank(grade) == RankFrom(inp, score) && grade != T && grade != M
    ensures LimitsListed(inp, score, warnings) && warnings.special == []
  {
    var start := ScoreToGrade(score);
    var failed, failures := ApplyFailures(inp, start);
    grade, warnings := ApplyCaps(inp, failed, failures);
    StagesTakeTheLeast(start, Fails(inp), CappedAtC(inp), CappedAtB(inp), CappedAtAMinus(inp));
  }

  /** Step 8: the certificate grades replace any other. */
  method Override(inp: ScoreInput, start: Grade) returns (grade: Grade, warnings: seq<Special>)
    requires start != T && start != M
    ensures Rank(grade) == Overridden(inp.cert, Rank(start))
    ensures grade == M <==> inp.cert.nameMismatch
    ensures grade == T <==> inp.cert.notTrusted && !inp.cert.nameMismatch
    ensures forall w :: w in warnings <==> SpecialApplies(inp, w)
  {
    grade, warnings := start, [];
    if inp.cert.notTrusted { grade, warnings := T, warnings + [NotTrusted]; }
    if inp.cert.nameMismatch { grade, warnings := M, warnings + [NameMismatch]; }
  }

  /** What the warnings of a result are. */
  ghost predicate WarningsListed(inp: ScoreInput, ws: Warnings)
  {
    LimitsListed(inp, ScoreOf(inp), ws) && forall w :: w in ws.special <==> SpecialApplies(inp, w)
  }

  /** Score: the staged computation equals the closed form, and the warnings are the rules that
      were applied. */
  method Score(inp: ScoreInput, order: seq<Protocol>) returns (r: ScoreResult)
    requires forall p: Protocol :: p in order
    ensures r.protocol == ProtocolScore(inp.enabled) && r.key == KeyScore(inp.keyBits) && r.cipher == CipherScore(inp.suites)
    ensures r.score == ScoreOf(inp)
    ensures Rank(r.grade) == FinalRank(inp)
    ensures r.grade == M <==> inp.cert.nameMismatch
    ensures r.grade == T <==> inp.cert.notTrusted && !inp.cert.nameMismatch
    ensures WarningsListed(inp, r.warnings)
    ensures Unlimited(inp) ==> Band(r.grade, r.score)
  {
    var protocol, key, cipher, final := SubScores(inp, order);
    var limited, limits := Limit(inp, final);
    var grade, special := Override(inp, limited);
    r := ScoreResult(protocol, key, cipher, final, grade, limits.(special := special));
    OtherListsStay(inp, final, limits, special);
    if Unlimited(inp) { GradeBands(inp, grade); }
  }

  lemma OtherListsStay(inp: ScoreInput, score: int, ws: Warnings, special: seq<Special>)
    requires LimitsListed(inp, score, ws)
    ensures LimitsListed(inp, score, ws.(special := special))
  {
  }

  // ---------------------------------------------------------------------------
  // The grade rule by rule
  // ---------------------------------------------------------------------------

  /** Some accepted suite's upper-cased name has the text in it. */
  ghost predicate SomeNamed(suites: seq<string>, part: string)
  {
    exists s :: s in suites && exists a, b :: Upper(s) == a + part + b
  }

  lemma NamedMeaning(suites: seq<string>, part: string)
    ensures HasSuite(suites, part) <==> SomeNamed(suites, part)
  {
    forall s | s in suites
      ensures Names(s, part) <==> exists a, b :: Upper(s) == a + part + b
    {
      ContainsMeaning(Upper(s), part);
    }
  }

  lemma FailuresByRule(inp: ScoreInput)
    ensures Fails(inp) <==>
              || Ssl20 in inp.enabled || inp.cert.expired || inp.cert.selfSigned || inp.cert.revoked || inp.cert.insecureSig
              || (inp.keyBits > 0 && inp.keyBits < 1024) || SomeNamed(inp.suites, "EXPORT")
              || inp.vuln.heartbleed || inp.vuln.drown || inp.vuln.robot
              || (Ssl30 in inp.enabled && Tls10 !in inp.enabled && Tls11 !in inp.enabled && Tls12 !in inp.enabled && Tls13 !in inp.enabled)
              || (inp.suites != [] && forall s :: s in inp.suites ==> exists a, b :: Upper(s) == a + "RC4" + b)
  {
    NamedMeaning(inp.suites, "EXPORT");
    forall s | s in inp.suites
      ensures Names(s, "RC4") <==> exists a, b :: Upper(s) == a + "RC4" + b
    {
      ContainsMeaning(Upper(s), "RC4");
    }
  }

  lemma CapsByRule(inp: ScoreInput)
    ensures CappedAtC(inp) <==>
              || inp.vuln.poodle
              || ((SomeNamed(inp.suites, "3DES") || SomeNamed(inp.suites, "RC4")) && (Tls11 in inp.enabled || Tls12 in inp.enabled || Tls13 in inp.enabled))
              || (Tls12 !in inp.enabled && Tls13 !in inp.enabled)
    ensures CappedAtB(inp) <==>
              || (inp.keyBits > 0 && inp.keyBits < 2048) || SomeNamed(inp.suites, "RC4") || inp.cert.chainIncomplete
              || !inp.forwardSecrecy || !inp.aead || Tls10 in inp.enabled || Tls11 in inp.enabled
    ensures CappedAtAMinus(inp) <==> Tls13 !in inp.enabled || inp.hsts == Some(false)
  {
    NamedMeaning(inp.suites, "3DES");
    NamedMeaning(inp.suites, "RC4");
  }

  /** What keeps a rank `r` at or below each rung: an override, a failure, the score, and the caps. */
  predicate Ladder(r: int, s: int, out: bool, fails: bool, atC: bool, atB: bool, atAMinus: bool)
  {
    && (r < Rank(F) <==> out) && r <= Rank(A)
    && (r <= Rank(F) <==> out || fails || s < 20)
    && (r <= Rank(E) <==> out || fails || s < 35)
    && (r <= Rank(D) <==> out || fails || s < 50)
    && (r <= Rank(C) <==> out || fails || s < 65 || atC)
    && (r <= Rank(B) <==> out || fails || s < 80 || atC || atB)
    && (r <= Rank(AMinus) <==> out || fails || s < 80 || atC || atB || atAMinus)
  }

  lemma LimitedLadder(cert: CertIssues, s: int, fails: bool, atC: bool, atB: bool, atAMinus: bool)
    ensures Ladder(Overridden(cert, Limited(Rank(ScoreToGrade(s)), fails, atC, atB, atAMinus)), s,
                   cert.notTrusted || cert.nameMismatch, fails, atC, atB, atAMinus)
  {
  }

  /** Some accepted name is a TLS 1.3 one: it begins with TLS_ and has no _WITH_. */
  ghost predicate SomeTls13Named(suites: seq<string>)
  {
    exists s :: s in suites && (exists b :: Upper(s) == "TLS_" + b) && !exists a, b :: Upper(s) == a + "_WITH_" + b
  }

  lemma Tls13NameMeaning(upper: string)
    ensures IsTls13Name(upper) <==> (exists b :: upper == "TLS_" + b) && !exists a, b :: upper == a + "_WITH_" + b
  {
    ContainsMeaning(upper, "_WITH_");
    if "TLS_" <= upper { assert upper == "TLS_" + upper[4..]; }
  }

  /** The two flags the API handler derives from the suites. */
  lemma FlagsByName(suites: seq<string>)
    ensures HasForwardSecrecy(suites) <==> SomeNamed(suites, "ECDHE_") || SomeNamed(suites, "DHE_") || SomeTls13Named(suites)
    ensures HasAead(suites) <==>
              SomeNamed(suites, "_GCM_") || SomeNamed(suites, "_CCM") || SomeNamed(suites, "POLY1305") || SomeTls13Named(suites)
  {
    NamedMeaning(suites, "ECDHE_");
    NamedMeaning(suites, "DHE_");
    NamedMeaning(suites, "_GCM_");
    NamedMeaning(suites, "_CCM");
    NamedMeaning(suites, "POLY1305");
    forall s | s in suites
      ensures IsTls13Name(Upper(s)) <==> (exists b :: Upper(s) == "TLS_" + b) && !exists a, b :: Upper(s) == a + "_WITH_" + b
    {
      Tls13NameMeaning(Upper(s));
    }
    FlagsUnfold(suites);
  }

  lemma FlagsUnfold(suites: seq<string>)
    ensures HasForwardSecrecy(suites) <==>
              HasSuite(suites, "ECDHE_") || HasSuite(suites, "DHE_") || exists s :: s in suites && IsTls13Name(Upper(s))
    ensures HasAead(suites) <==>
              HasSuite(suites, "_GCM_") || HasSuite(suites, "_CCM") || HasSuite(suites, "POLY1305") || exists s :: s in suites && IsTls13Name(Upper(s))
  {
  }

  /** The whole ladder for every input. */
  lemma GradeLadder(inp: ScoreInput)
    ensures Ladder(FinalRank(inp), ScoreOf(inp), inp.cert.notTrusted || inp.cert.nameMismatch,
                   Fails(inp), CappedAtC(inp), CappedAtB(inp), CappedAtAMinus(inp))
  {
    LimitedLadder(inp.cert, ScoreOf(inp), Fails(inp), CappedAtC(inp), CappedAtB(inp), CappedAtAMinus(inp));
  }

  /** The rungs in order. */
  lemma RungsInOrder()
    ensures Rank(T) < Rank(F) < Rank(E) < Rank(D) < Rank(C) < Rank(B) < Rank(AMinus) < Rank(A) < Rank(APlus) && Rank(T) == Rank(M)
  {
  }

  /** Neither failed nor capped nor overridden. */
  predicate Unlimited(inp: ScoreInput)
  {
    !Fails(inp) && !CappedAtC(inp) && !CappedAtB(inp) && !CappedAtAMinus(inp) && !inp.cert.notTrusted && !inp.cert.nameMismatch
  }

  /** The score's own grade, in points. */
  predicate Band(grade: Grade, s: int)
  {
    && (grade == A <==> s >= 80) && (grade == B <==> 65 <= s < 80) && (grade == C <==> 50 <= s < 65)
    && (grade == D <==> 35 <= s < 50) && (grade == E <==> 20 <= s < 35) && (grade == F <==> s < 20)
  }

  lemma LadderBands(grade: Grade, s: int)
    requires Ladder(Rank(grade), s, false, false, false, false, false)
    ensures Band(grade, s)
  {
  }

  lemma GradeBands(inp: ScoreInput, grade: Grade)
    requires Unlimited(inp) && Rank(grade) == FinalRank(inp)
    ensures Band(grade, ScoreOf(inp))
  {
    GradeLadder(inp);
    LadderBands(grade, ScoreOf(inp));
  }

  // ---------------------------------------------------------------------------
  // The score in points
  // ---------------------------------------------------------------------------

  /** Half the points of the oldest and the newest protocol. */
  lemma ProtocolPointsByAge(enabled: set<Protocol>, oldest: Protocol, newest: Protocol)
    requires oldest in enabled && newest in enabled && forall p :: p in enabled ==> Age(oldest) <= Age(p) <= Age(newest)
    ensures var points := [0, 80, 90, 95, 100, 100];
            ProtocolScore(enabled) == (points[Age(oldest)] + points[Age(newest)]) / 2
  {
  }

  /** A single suite's points, by its name. */
  lemma SuitePointsByName(suite: string)
    ensures var n := (part: string) => Contains(Upper(suite), part);
            CipherScore([suite]) ==
              if n("NULL") then 0
              else if n("EXPORT") || (n("DES_CBC") && !n("3DES")) then 20
              else if n("RC4") || n("RC2") then 80
              else if n("3DES") then 20
              else if n("IDEA") || n("SEED") then 80
              else if n("CHACHA20") || n("AES_256") || n("AES256") then 100
              else if n("AES_128") || n("AES128") then 80
              else if n("CAMELLIA_256") || n("CAMELLIA256") then 100
              else if n("CAMELLIA_128") || n("CAMELLIA128") then 80
              else if n("GOST") || n("28147") then 100 else 80
  {
    if suite in {"TLS_RSA_WITH_NULL_MD5", "TLS_RSA_WITH_NULL_SHA", "TLS_RSA_WITH_NULL_SHA256"} { NullNames(suite); }
    OneSuite(suite);
  }

  lemma OneSuite(suite: string)
    ensures CipherScore([suite]) == SuiteScore(suite)
  {
  }

  lemma {:induction false} UpperAppend(a: string, b: string)
    ensures Upper(a + b) == Upper(a) + Upper(b)
  {
    if a == "" {
      assert a + b == b;
    } else {
      assert (a + b)[1..] == a[1..] + b;
      UpperAppend(a[1..], b);
    }
  }

  lemma NamesNull(before: string, after: string)
    ensures Names(before + "NULL" + after, "NULL")
  {
    UpperAppend(before + "NULL", after);
    UpperAppend(before, "NULL");
    UpperFixed("NULL");
    ContainsMeaning(Upper(before + "NULL" + after), "NULL");
  }

  /** The explicit table lists only names with NULL in them. */
  lemma NullNames(suite: string)
    requires suite == "TLS_RSA_WITH_NULL_MD5" || suite == "TLS_RSA_WITH_NULL_SHA" || suite == "TLS_RSA_WITH_NULL_SHA256"
    ensures Names(suite, "NULL")
  {
    assert suite[13] == 'N' && suite[14] == 'U' && suite[15] == 'L' && suite[16] == 'L';
    assert suite[13..17] == "NULL";
    assert suite == suite[..13] + "NULL" + suite[17..];
    NamesNull(suite[..13], suite[17..]);
  }

  /** Alone, the one suite scores no more than the other. */
  predicate NoStronger(a: string, b: string)
  {
    CipherScore([a]) <= CipherScore([b])
  }

  lemma NoStrongerMeans(a: string, b: string)
    ensures NoStronger(a, b) <==> SuiteScore(a) <= SuiteScore(b)
  {
    OneSuite(a);
    OneSuite(b);
  }

  lemma AllBetween(suites: seq<string>, strongest: string, weakest: string)
    requires forall s :: s in suites ==> NoStronger(weakest, s) && NoStronger(s, strongest)
    ensures forall s :: s in suites ==> SuiteScore(weakest) <= SuiteScore(s) <= SuiteScore(strongest)
  {
    forall s | s in suites
      ensures SuiteScore(weakest) <= SuiteScore(s) <= SuiteScore(strongest)
    {
      NoStrongerMeans(weakest, s);
      NoStrongerMeans(s, strongest);
    }
  }

  /** With several suites only the strongest and the weakest count. */
  lemma CipherPointsByExtremes(suites: seq<string>, strongest: string, weakest: string)
    requires strongest in suites && weakest in suites
    requires forall s :: s in suites ==> NoStronger(weakest, s) && NoStronger(s, strongest)
    ensures CipherScore(suites) == (CipherScore([strongest]) + CipherScore([weakest])) / 2
  {
    AllBetween(suites, strongest, weakest);
    ExtremeScores(suites, strongest, weakest);
    OneSuite(strongest);
    OneSuite(weakest);
  }

  lemma ExtremeScores(suites: seq<string>, strongest: string, weakest: string)
    requires strongest in suites && weakest in suites
    requires forall s :: s in suites ==> SuiteScore(weakest) <= SuiteScore(s) <= SuiteScore(strongest)
    ensures BestSuite(suites) == SuiteScore(strongest) && WorstSuite(suites) == SuiteScore(weakest)
  {
  }

  /** How the score moves with the key bits, the other two sub-scores full. */
  lemma ScoreByKeyBits(inp: ScoreInput)
    requires ProtocolScore(inp.enabled) == 100 && CipherScore(inp.suites) == 100
    ensures ScoreOf(inp) ==
              if inp.keyBits < 0 then 100 else if inp.keyBits == 0 then 70 else if inp.keyBits < 512 then 76
              else if inp.keyBits < 1024 then 82 else if inp.keyBits < 2048 then 94 else if inp.keyBits < 4096 then 97 else 100
  {
  }

  /** How it moves with the protocols and the suites: 30 and 40 parts in 100, or in 70 when the
      key exchange was not probed. */
  lemma ScoreByWeights(inp: ScoreInput)
    ensures inp.keyBits >= 4096 ==> ScoreOf(inp) == (3000 + 30 * ProtocolScore(inp.enabled) + 40 * CipherScore(inp.suites)) / 100
    ensures inp.keyBits < 0 ==> ScoreOf(inp) == (30 * ProtocolScore(inp.enabled) + 40 * CipherScore(inp.suites)) / 70
    ensures inp.enabled == {} ==> ProtocolScore(inp.enabled) == 0
    ensures inp.suites == [] ==> CipherScore(inp.suites) == 0
  {
  }

  /** A 256-bit suite, by its name. */
  predicate Strong(suite: string)
  {
    var n := (part: string) => Contains(Upper(suite), part);
    && (n("AES_256") || n("CHACHA20"))
    && !n("NULL") && !n("EXPORT") && !n("DES_CBC") && !n("RC4") && !n("RC2") && !n("3DES") && !n("IDEA") && !n("SEED")
  }

  lemma StrongSuitesScoreFull(suites: seq<string>)
    requires suites != [] && forall s :: s in suites ==> Strong(s)
    ensures CipherScore(suites) == 100
  {
    forall s | s in suites
      ensures CipherScore([s]) == 100
    {
      SuitePointsByName(s);
    }
    forall s | s in suites
      ensures NoStronger(suites[0], s) && NoStronger(s, suites[0])
    {
      assert suites[0] in suites;
    }
    CipherPointsByExtremes(suites, suites[0], suites[0]);
  }

  /** TLS 1.3 alone with nothing but 256-bit suites and at least 4096 key bits scores 100. */
  lemma BestProfileScores(inp: ScoreInput)
    requires inp.enabled == {Tls13} && inp.suites != [] && inp.keyBits >= 4096 && forall s :: s in inp.suites ==> Strong(s)
    ensures ScoreOf(inp) == 100
  {
    StrongSuitesScoreFull(inp.suites);
    ProtocolPointsByAge(inp.enabled, Tls13, Tls13);
    ScoreByKeyBits(inp);
  }

  lemma TopOfLadder(r: int, s: int)
    requires Ladder(r, s, false, false, false, false, false) && s >= 80
    ensures r == Rank(A)
  {
  }

  lemma NothingLimits(inp: ScoreInput)
    requires inp.enabled == {Tls13} && inp.keyBits >= 4096 && inp.forwardSecrecy && inp.aead && inp.hsts != Some(false)
    requires inp.vuln == Vulnerabilities(false, false, false, false)
    requires inp.cert == CertIssues(false, false, false, false, false, false, false)
    requires !HasSuite(inp.suites, "EXPORT") && !HasSuite(inp.suites, "RC4") && !HasSuite(inp.suites, "3DES") && !OnlyRc4(inp.suites)
    ensures !Fails(inp) && !CappedAtC(inp) && !CappedAtB(inp) && !CappedAtAMinus(inp)
  {
  }

  /** With forward secrecy, AEAD, no known vulnerability and a sound certificate it is graded A. */
  lemma BestProfileGradesA(inp: ScoreInput)
    requires inp.enabled == {Tls13} && inp.suites != [] && inp.keyBits >= 4096 && forall s :: s in inp.suites ==> Strong(s)
    requires inp.forwardSecrecy && inp.aead && inp.hsts != Some(false)
    requires inp.vuln == Vulnerabilities(false, false, false, false)
    requires inp.cert == CertIssues(false, false, false, false, false, false, false)
    ensures FinalRank(inp) == Rank(A)
  {
    BestProfileScores(inp);
    StrongSuitesUnlimited(inp.suites);
    NothingLimits(inp);
    GradeLadder(inp);
    TopOfLadder(FinalRank(inp), ScoreOf(inp));
  }

  lemma StrongSuitesUnlimited(suites: seq<string>)
    requires suites != [] && forall s :: s in suites ==> Strong(s)
    ensures !HasSuite(suites, "EXPORT") && !HasSuite(suites, "RC4") && !HasSuite(suites, "3DES") && !OnlyRc4(suites)
  {
    assert suites[0] in suites;
  }

  /** Each failure is reported exactly when its own condition holds. */
  lemma FailureWarningsByRule(inp: ScoreInput, ws: Warnings)
    requires FailuresListed(inp, ws)
    ensures Ssl20Enabled in ws.certFailures <==> Ssl20 in inp.enabled
    ensures CertExpired in ws.certFailures <==> inp.cert.expired
    ensures CertSelfSigned in ws.certFailures <==> inp.cert.selfSigned
    ensures CertRevoked in ws.certFailures <==> inp.cert.revoked
    ensures CertInsecureSig in ws.certFailures <==> inp.cert.insecureSig
    ensures InsecureKey in ws.otherFailures <==> 0 < inp.keyBits < 1024
    ensures ExportSuites in ws.otherFailures <==> HasSuite(inp.suites, "EXPORT")
    ensures Heartbleed in ws.otherFailures <==> inp.vuln.heartbleed
    ensures Drown in ws.otherFailures <==> inp.vuln.drown
    ensures Robot in ws.otherFailures <==> inp.vuln.robot
    ensures BestProtocolSsl30 in ws.otherFailures <==>
              Ssl30 in inp.enabled && Tls10 !in inp.enabled && Tls11 !in inp.enabled && Tls12 !in inp.enabled && Tls13 !in inp.enabled
    ensures Rc4Only in ws.otherFailures <==> inp.suites != [] && forall s :: s in inp.suites ==> Names(s, "RC4")
  {
  }

  /** Each cap is reported exactly when its own condition holds and the grade is not F before. */
  lemma CapWarningsByRule(inp: ScoreInput, ws: Warnings)
    requires CapsListed(inp, ws)
    ensures Poodle in ws.atC <==> inp.vuln.poodle
    ensures TripleDesWithTls11 in ws.atC <==> HasSuite(inp.suites, "3DES") && (Tls11 in inp.enabled || Tls12 in inp.enabled || Tls13 in inp.enabled)
    ensures Rc4WithTls11 in ws.atC <==> HasSuite(inp.suites, "RC4") && (Tls11 in inp.enabled || Tls12 in inp.enabled || Tls13 in inp.enabled)
    ensures NoTls12 in ws.atC <==> Tls12 !in inp.enabled && Tls13 !in inp.enabled
    ensures WeakDh in ws.atB <==> 0 < inp.keyBits < 2048
    ensures Rc4Support in ws.atB <==> HasSuite(inp.suites, "RC4")
    ensures ChainIncomplete in ws.atB <==> inp.cert.chainIncomplete
    ensures NoForwardSecrecy in ws.atB <==> !inp.forwardSecrecy
    ensures NoAead in ws.atB <==> !inp.aead
    ensures OldTls in ws.atB <==> Tls10 in inp.enabled || Tls11 in inp.enabled
    ensures NoTls13 in ws.atAMinus <==> Tls13 !in inp.enabled
    ensures NoHsts in ws.atAMinus <==> inp.hsts == Some(false)
  {
  }

  /** The warnings explain the grade: the score and which kinds of warning there are decide it. */
  lemma {:induction false} WarningsExplainGrade(inp: ScoreInput, ws: Warnings)
    requires WarningsListed(inp, ws)
    ensures FinalRank(inp) ==
              if ws.special != [] then -1
              else Limited(Rank(ScoreToGrade(ScoreOf(inp))), ws.certFailures != [] || ws.otherFailures != [],
                           ws.atC != [], ws.atB != [], ws.atAMinus != [])
  {
    SpecialsMean(inp, ws.special);
    LimitsExplain(inp, ScoreOf(inp), ws);
  }

  lemma SpecialsMean(inp: ScoreInput, warnings: seq<Special>)
    requires forall w :: w in warnings <==> SpecialApplies(inp, w)
    ensures warnings != [] <==> inp.cert.notTrusted || inp.cert.nameMismatch
  {
    if warnings != [] { assert warnings[0] in warnings; }
    assert SpecialApplies(inp, NotTrusted) ==> NotTrusted in warnings;
    assert SpecialApplies(inp, NameMismatch) ==> NameMismatch in warnings;
  }

  lemma {:induction false} LimitsExplain(inp: ScoreInput, score: int, ws: Warnings)
    requires LimitsListed(inp, score, ws)
    ensures RankFrom(inp, score) ==
              Limited(Rank(ScoreToGrade(score)), ws.certFailures != [] || ws.otherFailures != [], ws.atC != [], ws.atB != [], ws.atAMinus != [])
  {
    FailuresMean(inp, ws);
    if !Fails(inp) && ScoreToGrade(score) != F {
      CCapsMean(inp, ws.atC);
      BCapsMean(inp, ws.atB);
      AMinusCapsMean(inp, ws.atAMinus);
    }
  }

  lemma FailuresMean(inp: ScoreInput, ws: Warnings)
    requires FailuresListed(inp, ws)
    ensures Fails(inp) <==> ws.certFailures != [] || ws.otherFailures != []
  {
    CertFailuresMean(inp, ws.certFailures);
    OtherFailuresMean(inp, ws.otherFailures);
  }

  // ---------------------------------------------------------------------------
  // What the grade depends on
  // ---------------------------------------------------------------------------

  ghost predicate SameSuites(a: seq<string>, b: seq<string>)
  {
    forall s :: s in a <==> s in b
  }

  lemma NonEmptyTogether(a: seq<string>, b: seq<string>)
    requires SameSuites(a, b) && a != []
    ensures b != []
  {
    assert a[0] in b;
  }

  lemma SameCipherScore(a: seq<string>, b: seq<string>)
    requires SameSuites(a, b)
    ensures CipherScore(a) == CipherScore(b)
  {
    if a != [] { NonEmptyTogether(a, b); }
    if b != [] { NonEmptyTogether(b, a); }
  }

  lemma SameDetections(a: seq<string>, b: seq<string>)
    requires SameSuites(a, b)
    ensures HasForwardSecrecy(a) == HasForwardSecrecy(b) && HasAead(a) == HasAead(b) && OnlyRc4(a) == OnlyRc4(b)
    ensures forall part :: HasSuite(a, part) == HasSuite(b, part)
  {
    if a != [] { NonEmptyTogether(a, b); }
    if b != [] { NonEmptyTogether(b, a); }
  }

  /** Score and grade depend on which suites are accepted, not on their order or repetition. */
  lemma OnlyTheSetOfSuitesMatters(inp: ScoreInput, suites: seq<string>)
    requires SameSuites(inp.suites, suites)
    ensures var other := inp.(suites := suites); ScoreOf(other) == ScoreOf(inp) && FinalRank(other) == FinalRank(inp)
  {
    SameDetections(inp.suites, suites);
    SameCipherScore(inp.suites, suites);
    var other := inp.(suites := suites);
    assert FailsOtherwise(other) == FailsOtherwise(inp);
    assert CappedAtC(other) == CappedAtC(inp);
    assert CappedAtBOtherwise(other) == CappedAtBOtherwise(inp);
  }

  // ---------------------------------------------------------------------------
  // Monotonicity
  // ---------------------------------------------------------------------------

  /** Worse sub-scores never give a better base grade. */
  lemma WorseScoresWorseBase(p: int, k: Option<int>, c: int, p': int, k': Option<int>, c': int)
    requires p' <= p && c' <= c && (k.Some? <==> k'.Some?) && (k.Some? ==> k'.value <= k.value)
    ensures Rank(ScoreToGrade(FinalScore(p', k', c'))) <= Rank(ScoreToGrade(FinalScore(p, k, c)))
  {
  }

  /** An input that is no better on score and meets every limit the other meets, or a lower one. */
  lemma DominatedRank(good: ScoreInput, bad: ScoreInput)
    requires good.cert.notTrusted == bad.cert.notTrusted && good.cert.nameMismatch == bad.cert.nameMismatch
    requires Rank(ScoreToGrade(ScoreOf(bad))) <= Rank(ScoreToGrade(ScoreOf(good)))
    requires Fails(good) ==> Fails(bad)
    requires CappedAtC(good) ==> CappedAtC(bad)
    requires CappedAtB(good) ==> CappedAtB(bad)
    requires CappedAtAMinus(good) ==> CappedAtAMinus(bad)
    ensures FinalRank(bad) <= FinalRank(good)
  {
  }

  function Age(p: Protocol): int
  {
    match p
    case Ssl20 => 0 case Ssl30 => 1 case Tls10 => 2 case Tls11 => 3 case Tls12 => 4 case Tls13 => 5
  }

  /** The flags as the API handler derives them from a profile. */
  predicate Derived(inp: ScoreInput)
  {
    && inp.vuln.poodle == (Ssl30 in inp.enabled)
    && inp.forwardSecrecy == HasForwardSecrecy(inp.suites)
    && inp.aead == HasAead(inp.suites)
  }

  lemma OlderProtocolScoresNoBetter(enabled: set<Protocol>, older: Protocol, newer: Protocol)
    requires newer in enabled && Age(older) < Age(newer)
    ensures ProtocolScore(enabled + {older}) <= ProtocolScore(enabled)
  {
  }

  /** Enabling a protocol older than one already enabled never improves the grade. */
  lemma OlderProtocolNeverHelps(inp: ScoreInput, older: Protocol, newer: Protocol)
    requires Derived(inp) && newer in inp.enabled && Age(older) < Age(newer)
    ensures var more := inp.(enabled := inp.enabled + {older}, vuln := inp.vuln.(poodle := Ssl30 in inp.enabled + {older}));
            Derived(more) && FinalRank(more) <= FinalRank(inp)
  {
    var more := inp.(enabled := inp.enabled + {older}, vuln := inp.vuln.(poodle := Ssl30 in inp.enabled + {older}));
    OlderProtocolScoresNoBetter(inp.enabled, older, newer);
    WorseScoresWorseBase(ProtocolScore(inp.enabled), KeyScore(inp.keyBits), CipherScore(inp.suites),
                         ProtocolScore(more.enabled), KeyScore(inp.keyBits), CipherScore(inp.suites));
    DominatedRank(inp, more);
  }

  lemma WeakerSuiteScoresNoBetter(suites: seq<string>, s: string, best: string)
    requires best in suites && EffectiveBits(s) <= EffectiveBits(best)
    ensures CipherScore(suites + [s]) <= CipherScore(suites)
  {
    var more := suites + [s];
    assert SuiteScore(s) <= SuiteScore(best) <= BestSuite(suites);
    assert forall x :: x in more <==> x in suites || x == s;
  }

  lemma AddedSuiteDetections(suites: seq<string>, s: string)
    ensures forall part :: HasSuite(suites, part) ==> HasSuite(suites + [s], part)
    ensures forall part :: Names(s, part) ==> HasSuite(suites + [s], part)
    ensures Names(s, "RC4") && OnlyRc4(suites) ==> OnlyRc4(suites + [s])
  {
    assert s in suites + [s];
  }

  /** Accepting one more RC4 suite, no stronger than the best already accepted, never improves the grade. */
  lemma Rc4SuiteNeverHelps(inp: ScoreInput, s: string, best: string)
    requires Derived(inp) && Names(s, "RC4") && best in inp.suites && EffectiveBits(s) <= EffectiveBits(best)
    ensures var suites := inp.suites + [s];
            var more := inp.(suites := suites, forwardSecrecy := HasForwardSecrecy(suites), aead := HasAead(suites));
            Derived(more) && FinalRank(more) <= FinalRank(inp)
  {
    var suites := inp.suites + [s];
    var more := inp.(suites := suites, forwardSecrecy := HasForwardSecrecy(suites), aead := HasAead(suites));
    WeakerSuiteScoresNoBetter(inp.suites, s, best);
    AddedSuiteDetections(inp.suites, s);
    WorseScoresWorseBase(ProtocolScore(inp.enabled), KeyScore(inp.keyBits), CipherScore(inp.suites),
                         ProtocolScore(inp.enabled), KeyScore(inp.keyBits), CipherScore(suites));
    DominatedRank(inp, more);
  }

  /** Fewer key bits never improve the grade, except that 0 bits escape the weak-key failure: from
      under 1024 bits down to 0 the grade improves exactly when nothing else forces F and the
      other two sub-scores still reach 20 points. */
  lemma FewerKeyBits(inp: ScoreInput, bits: int)
    requires 0 <= bits < inp.keyBits
    ensures FinalRank(inp.(keyBits := bits)) <= FinalRank(inp) <==>
              !(&& bits == 0 && inp.keyBits < 1024
                && !FailsOtherwise(inp) && !inp.cert.notTrusted && !inp.cert.nameMismatch
                && ProtocolScore(inp.enabled) * 30 + CipherScore(inp.suites) * 40 >= 2000)
  {
    OnlyKeyBitsChange(inp, bits);
    SubScoresAreBounded(inp);
    FewerBitsLimited(ProtocolScore(inp.enabled), CipherScore(inp.suites), inp.keyBits, bits,
                     FailsOtherwise(inp), CappedAtC(inp), CappedAtBOtherwise(inp), CappedAtAMinus(inp));
  }

  /** The rank as the key bits alone decide it, the sub-scores and the other limits given. */
  function RankByBits(p: int, c: int, bits: int, fails: bool, atC: bool, atB: bool, atAMinus: bool): int
  {
    Limited(Rank(ScoreToGrade(FinalScore(p, KeyScore(bits), c))), fails || WeakKey(bits, 1024), atC, WeakKey(bits, 2048) || atB, atAMinus)
  }

  lemma SubScoresAreBounded(inp: ScoreInput)
    ensures ProtocolScore(inp.enabled) <= 100 && CipherScore(inp.suites) <= 100
  {
  }

  lemma OnlyKeyBitsChange(inp: ScoreInput, bits: int)
    ensures LimitedRank(inp.(keyBits := bits)) ==
              RankByBits(ProtocolScore(inp.enabled), CipherScore(inp.suites), bits,
                         FailsOtherwise(inp), CappedAtC(inp), CappedAtBOtherwise(inp), CappedAtAMinus(inp))
    ensures LimitedRank(inp) ==
              RankByBits(ProtocolScore(inp.enabled), CipherScore(inp.suites), inp.keyBits,
                         FailsOtherwise(inp), CappedAtC(inp), CappedAtBOtherwise(inp), CappedAtAMinus(inp))
  {
  }

  lemma FewerBitsLimited(p: int, c: int, more: int, fewer: int, fails: bool, atC: bool, atB: bool, atAMinus: bool)
    requires 0 <= fewer < more && p <= 100 && c <= 100
    ensures RankByBits(p, c, fewer, fails, atC, atB, atAMinus) <= RankByBits(p, c, more, fails, atC, atB, atAMinus) <==>
              !(fewer == 0 && more < 1024 && !fails && p * 30 + c * 40 >= 2000)
  {
    WorseScoresWorseBase(p, KeyScore(more), c, p, KeyScore(fewer), c);
  }

  /** So fewer bits can improve a grade: 512 known bits force F, 0 known bits leave E. */
  lemma ZeroBitsEscape()
    ensures var clean := CertIssues(false, false, false, false, false, false, false);
            var weak := ScoreInput({Tls13}, [], 512, clean, Vulnerabilities(false, false, false, false), false, false, None);
            FinalRank(weak) == Rank(F) && FinalRank(weak.(keyBits := 0)) == Rank(E)
  {
    var clean := CertIssues(false, false, false, false, false, false, false);
    var weak := ScoreInput({Tls13}, [], 512, clean, Vulnerabilities(false, false, false, false), false, false, None);
    assert ProtocolScore({Tls13}) == 100 && CipherScore([]) == 0;
    FewerKeyBits(weak, 0);
  }
}
