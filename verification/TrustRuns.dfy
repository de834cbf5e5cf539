/**
 Verdict rows over whole runs: database steps, pool growth, publications of new pools and
 verdicts stored one certificate at a time, in any order. A re-evaluation is no single step:
 it starts after the pools are published and stores verdicts while scans are ingested, and a
 verdict may be stored long after it was computed.
 */
module TrustRuns {
  import opened Base
  import opened Db
  import opened Runs
  import opened TrustPaths
  import StoreClass
  import opened TrustEvaluator

  /** The database, every pool generation published so far with the intermediates it ended
      with (the last is in memory), and the generation each verdict row was computed under. */
  datatype World = World(db: Tables, gens: seq<Pools>, born: map<TrustKey, nat>)

  /** `Persist` stores the verdicts of an evaluation under generation `gen`, which had the
      intermediates `seen` when it was evaluated. */
  datatype TrustStep =
    | Database(step: Step)
    | AddIntermediate(cert: X509)
    | Publish(pools: Pools)
    | Persist(cert: X509, gen: nat, seen: set<X509>)

  /** The pools in memory. */
  function InMemory(w: World): Pools
    requires w.gens != []
  {
    w.gens[|w.gens| - 1]
  }

  /** Certificate rows are written from parsed certificates, and verdicts by `Persist` only. */
  ghost predicate Honest(lib: Library, step: Step)
  {
    && (step.OnCerts? && (step.cert.InsertCertificate? || step.cert.UpsertTrustAnchor?) ==>
          exists x :: step.cert.f == lib.fingerprint(x) && step.cert.rec == lib.extract(x))
    && !(step.OnNotes? && step.note.UpsertCertificateTrust?)
  }

  /** A stored verdict was computed under some generation, which has only grown since. */
  ghost predicate Allowed(lib: Library, w: World, step: TrustStep)
  {
    match step
    case Database(d) => Honest(lib, d)
    case AddIntermediate(_) => true
    case Publish(_) => true
    case Persist(_, gen, seen) => gen < |w.gens| && seen <= w.gens[gen].intermediates
  }

  function Grown(pools: Pools, cert: X509): Pools
  {
    if cert.isCA then pools.(intermediates := pools.intermediates + {cert}) else pools
  }

  /** The rows of `f` for `stores` are now those of generation `gen`. */
  function Tagged(born: map<TrustKey, nat>, f: Fingerprint, stores: set<StoreId>, gen: nat): map<TrustKey, nat>
  {
    map k | k in born.Keys + (set st | st in stores :: TrustKey(f, st)) ::
      if k.fingerprint == f && k.store in stores then gen else born[k]
  }

  ghost function TrustApply(lib: Library, w: World, step: TrustStep): (after: World)
    requires w.gens != []
    ensures after.gens != []
  {
    match step
    case Database(d) => w.(db := Apply(w.db, d))
    case AddIntermediate(cert) => w.(gens := w.gens[|w.gens| - 1 := Grown(InMemory(w), cert)])
    case Publish(pools) => w.(gens := w.gens + [pools])
    case Persist(cert, gen, seen) =>
      if gen < |w.gens| && lib.fingerprint(cert) in w.db.certs then
        w.(db := StoreVerdicts(w.db, lib.fingerprint(cert), Verdicts(lib, cert, w.gens[gen].roots, seen)),
           born := Tagged(w.born, lib.fingerprint(cert), w.gens[gen].roots.Keys, gen))
      else w
  }

  ghost function WorldAfter(lib: Library, w: World, steps: seq<TrustStep>, n: nat): (after: World)
    requires w.gens != [] && n <= |steps|
    ensures after.gens != []
  {
    if n == 0 then w else TrustApply(lib, WorldAfter(lib, w, steps, n - 1), steps[n - 1])
  }

  ghost predicate AllowedAt(lib: Library, w: World, steps: seq<TrustStep>, i: nat)
    requires w.gens != [] && i < |steps|
  {
    Allowed(lib, WorldAfter(lib, w, steps, i), steps[i])
  }

  /** Each of the first `n` steps is one the system may take. */
  ghost predicate IsRun(lib: Library, w: World, steps: seq<TrustStep>, n: nat)
  {
    w.gens != [] && n <= |steps| && forall i :: 0 <= i < n ==> AllowedAt(lib, w, steps, i)
  }

  lemma RunPrefix(lib: Library, w: World, steps: seq<TrustStep>, k: nat, n: nat)
    requires IsRun(lib, w, steps, n) && k <= n
    ensures IsRun(lib, w, steps, k) && (k < n ==> AllowedAt(lib, w, steps, k))
  {
  }

  // ---------------------------------------------------------------------------
  // What holds
  // ---------------------------------------------------------------------------

  /** Evaluating the row's certificate under the pools, if they cover its store, says trusted. */
  predicate RowHolds(lib: Library, certs: map<Fingerprint, Cert>, k: TrustKey, pools: Pools)
  {
    (k.fingerprint in certs && lib.parse(certs[k.fingerprint].rec.pem).Some? && k.store in pools.roots) ==>
      Judge(lib, lib.parse(certs[k.fingerprint].rec.pem).value, pools.roots[k.store], pools.intermediates).trusted
  }

  /** Every row that says trusted holds under the generation it was computed under. */
  ghost predicate TrueWhenMade(lib: Library, certs: map<Fingerprint, Cert>, trust: map<TrustKey, Verdict>,
                               born: map<TrustKey, nat>, gens: seq<Pools>)
  {
    forall k :: k in trust ==> k in born && born[k] < |gens| && (trust[k].trusted ==> RowHolds(lib, certs, k, gens[born[k]]))
  }

  ghost predicate Inv(lib: Library, w: World)
  {
    && w.gens != [] && NoDangling(w.db) && RowsHonest(lib, w.db.certs)
    && TrueWhenMade(lib, w.db.certs, w.db.notes.trust, w.born, w.gens)
  }

  /** The row says trusted, and evaluating now would not. */
  predicate FalselyTrusted(lib: Library, w: World, k: TrustKey)
    requires w.gens != []
  {
    FalseRow(lib, w.db.certs, w.db.notes.trust, k, InMemory(w))
  }

  predicate FalseRow(lib: Library, certs: map<Fingerprint, Cert>, trust: map<TrustKey, Verdict>, k: TrustKey, pools: Pools)
  {
    k in trust && trust[k].trusted && !RowHolds(lib, certs, k, pools)
  }

  /** Every row that says trusted holds now. */
  ghost predicate AllHold(lib: Library, w: World)
    requires w.gens != []
  {
    forall k :: !FalselyTrusted(lib, w, k)
  }

  lemma AllHoldIff(lib: Library, w: World)
    requires w.gens != []
    ensures AllHold(lib, w) <==>
              TrustedRowsHold(lib, w.db.certs, w.db.notes.trust, InMemory(w).roots, InMemory(w).intermediates)
  {
    if !AllHold(lib, w) {
      var k :| FalselyTrusted(lib, w, k);
      assert TrustKey(k.fingerprint, k.store) == k;
    }
    if !TrustedRowsHold(lib, w.db.certs, w.db.notes.trust, InMemory(w).roots, InMemory(w).intermediates) {
      var f, st :| f in w.db.certs && lib.parse(w.db.certs[f].rec.pem).Some? && st in InMemory(w).roots
                   && TrustKey(f, st) in w.db.notes.trust && w.db.notes.trust[TrustKey(f, st)].trusted
                   && !Judge(lib, lib.parse(w.db.certs[f].rec.pem).value, InMemory(w).roots[st], InMemory(w).intermediates).trusted;
      assert FalselyTrusted(lib, w, TrustKey(f, st));
    }
  }

  // ---------------------------------------------------------------------------
  // One step
  // ---------------------------------------------------------------------------

  /** Stored certificates keep their records, new ones are honest, and no verdict row is new. */
  ghost predicate HonestChange(lib: Library, certs: map<Fingerprint, Cert>, certs': map<Fingerprint, Cert>,
                               trust: map<TrustKey, Verdict>, trust': map<TrustKey, Verdict>)
  {
    && (forall f :: f in certs' ==>
          if f in certs then certs'[f].rec == certs[f].rec
          else exists x :: f == lib.fingerprint(x) && certs'[f].rec == lib.extract(x))
    && (forall k :: k in trust' ==> k in trust && trust'[k] == trust[k])
  }

  lemma {:induction false} HonestChangeKeepsHonest(lib: Library, certs: map<Fingerprint, Cert>, certs': map<Fingerprint, Cert>,
                                                   trust: map<TrustKey, Verdict>, trust': map<TrustKey, Verdict>)
    requires Sound(lib) && RowsHonest(lib, certs) && HonestChange(lib, certs, certs', trust, trust')
    ensures RowsHonest(lib, certs')
  {
    forall f | f in certs' && f !in certs && lib.parse(certs'[f].rec.pem).Some?
      ensures lib.fingerprint(lib.parse(certs'[f].rec.pem).value) == f
    {
      var x :| f == lib.fingerprint(x) && certs'[f].rec == lib.extract(x);
    }
  }

  /** A row that survives the change is about a certificate that was there before. */
  lemma {:induction false} HonestChangeKeepsRow(lib: Library, certs: map<Fingerprint, Cert>, certs': map<Fingerprint, Cert>,
                                                trust: map<TrustKey, Verdict>, trust': map<TrustKey, Verdict>, k: TrustKey, pools: Pools)
    requires HonestChange(lib, certs, certs', trust, trust') && k in trust' && k.fingerprint in certs && k.fingerprint in certs'
    ensures RowHolds(lib, certs', k, pools) <==> RowHolds(lib, certs, k, pools)
  {
  }

  lemma {:induction false} CertStepIsHonest(lib: Library, s: Tables, step: CertStep)
    requires Honest(lib, OnCerts(step))
    ensures HonestChange(lib, s.certs, ApplyCert(s, step).certs, s.notes.trust, s.notes.trust)
  {
  }

  lemma {:induction false} PurgeStepIsHonest(lib: Library, s: Tables, step: PurgeStep)
    ensures HonestChange(lib, s.certs, ApplyPurge(s, step).certs, s.notes.trust, ApplyPurge(s, step).notes.trust)
  {
  }

  lemma {:induction false} StepIsHonest(lib: Library, s: Tables, step: Step)
    requires Honest(lib, step)
    ensures HonestChange(lib, s.certs, Apply(s, step).certs, s.notes.trust, Apply(s, step).notes.trust)
  {
    match step
    case OnCerts(c) => CertStepIsHonest(lib, s, c);
    case OnPurge(p) => PurgeStepIsHonest(lib, s, p);
    case _ => assert Apply(s, step).certs == s.certs && Apply(s, step).notes.trust == s.notes.trust;
  }

  /** A row that survives a database step is the same row about the same certificate. */
  lemma {:induction false} DatabaseStepKeepsRow(lib: Library, s: Tables, step: Step, k: TrustKey, pools: Pools)
    requires NoDangling(s) && Honest(lib, step) && k in Apply(s, step).notes.trust
    ensures k in s.notes.trust && Apply(s, step).notes.trust[k] == s.notes.trust[k]
    ensures RowHolds(lib, Apply(s, step).certs, k, pools) <==> RowHolds(lib, s.certs, k, pools)
  {
    var t := Apply(s, step);
    StepKeepsNoDangling(s, step);
    StepIsHonest(lib, s, step);
    HonestChangeKeepsRow(lib, s.certs, t.certs, s.notes.trust, t.notes.trust, k, pools);
  }

  lemma {:induction false} DatabaseStepKeepsInv(lib: Library, w: World, step: Step)
    requires Sound(lib) && Inv(lib, w) && Honest(lib, step)
    ensures Inv(lib, TrustApply(lib, w, Database(step)))
  {
    var t := Apply(w.db, step);
    StepKeepsNoDangling(w.db, step);
    StepIsHonest(lib, w.db, step);
    HonestChangeKeepsHonest(lib, w.db.certs, t.certs, w.db.notes.trust, t.notes.trust);
    forall k | k in t.notes.trust
      ensures k in w.born && w.born[k] < |w.gens| && (t.notes.trust[k].trusted ==> RowHolds(lib, t.certs, k, w.gens[w.born[k]]))
    {
      assert k in w.db.notes.trust;
      DatabaseStepKeepsRow(lib, w.db, step, k, w.gens[w.born[k]]);
    }
  }

  /** A larger pool of intermediates loses no row. */
  lemma GrowthKeepsRow(lib: Library, certs: map<Fingerprint, Cert>, k: TrustKey, pools: Pools, cert: X509)
    requires Sound(lib) && RowHolds(lib, certs, k, pools)
    ensures RowHolds(lib, certs, k, Grown(pools, cert))
  {
    if k.fingerprint in certs && lib.parse(certs[k.fingerprint].rec.pem).Some? && k.store in pools.roots {
      MorePathsWithMoreIntermediates(lib, lib.parse(certs[k.fingerprint].rec.pem).value, pools.roots[k.store],
                                     pools.intermediates, Grown(pools, cert).intermediates);
    }
  }

  lemma {:induction false} GrowthKeepsInv(lib: Library, w: World, cert: X509)
    requires Sound(lib) && Inv(lib, w)
    ensures Inv(lib, TrustApply(lib, w, AddIntermediate(cert)))
  {
    forall k | k in w.db.notes.trust && w.db.notes.trust[k].trusted
      ensures RowHolds(lib, w.db.certs, k, TrustApply(lib, w, AddIntermediate(cert)).gens[w.born[k]])
    {
      GrowthKeepsRow(lib, w.db.certs, k, w.gens[w.born[k]], cert);
    }
  }

  /** A verdict that said trusted when it was computed still holds under its generation. */
  lemma {:induction false} VerdictHolds(lib: Library, certs: map<Fingerprint, Cert>, cert: X509, pools: Pools, seen: set<X509>, st: StoreId)
    requires Sound(lib) && RowsHonest(lib, certs) && seen <= pools.intermediates
    requires st in pools.roots && Judge(lib, cert, pools.roots[st], seen).trusted
    ensures RowHolds(lib, certs, TrustKey(lib.fingerprint(cert), st), pools)
  {
    MorePathsWithMoreIntermediates(lib, cert, pools.roots[st], seen, pools.intermediates);
  }

  lemma {:induction false} PersistKeepsTrueWhenMade(lib: Library, certs: map<Fingerprint, Cert>, trust: map<TrustKey, Verdict>,
                                                    born: map<TrustKey, nat>, gens: seq<Pools>, cert: X509, gen: nat, seen: set<X509>)
    requires Sound(lib) && RowsHonest(lib, certs) && TrueWhenMade(lib, certs, trust, born, gens)
    requires gen < |gens| && seen <= gens[gen].intermediates
    ensures var f := lib.fingerprint(cert);
            TrueWhenMade(lib, certs, MergeVerdicts(trust, f, Verdicts(lib, cert, gens[gen].roots, seen)), Tagged(born, f, gens[gen].roots.Keys, gen), gens)
  {
    forall st | st in gens[gen].roots && Judge(lib, cert, gens[gen].roots[st], seen).trusted
      ensures RowHolds(lib, certs, TrustKey(lib.fingerprint(cert), st), gens[gen])
    {
      VerdictHolds(lib, certs, cert, gens[gen], seen, st);
    }
  }

  lemma {:induction false} PersistKeepsInv(lib: Library, w: World, cert: X509, gen: nat, seen: set<X509>)
    requires Sound(lib) && Inv(lib, w) && gen < |w.gens| && seen <= w.gens[gen].intermediates
    ensures Inv(lib, TrustApply(lib, w, Persist(cert, gen, seen)))
  {
    NoteStepKeepsReferences(w.db, UpsertCertificateTrust(lib.fingerprint(cert), Verdicts(lib, cert, w.gens[gen].roots, seen)));
    PersistKeepsTrueWhenMade(lib, w.db.certs, w.db.notes.trust, w.born, w.gens, cert, gen, seen);
  }

  lemma {:induction false} StepKeepsInv(lib: Library, w: World, step: TrustStep)
    requires Sound(lib) && Inv(lib, w) && Allowed(lib, w, step)
    ensures Inv(lib, TrustApply(lib, w, step))
  {
    match step
    case Database(d) => DatabaseStepKeepsInv(lib, w, d);
    case AddIntermediate(cert) => GrowthKeepsInv(lib, w, cert);
    case Publish(_) =>
    case Persist(cert, gen, seen) => PersistKeepsInv(lib, w, cert, gen, seen);
  }

  // ---------------------------------------------------------------------------
  // Whole runs
  // ---------------------------------------------------------------------------

  /** In every run each row that says trusted holds under the generation it was computed under. */
  lemma {:induction false} RunKeepsInv(lib: Library, w: World, steps: seq<TrustStep>, n: nat)
    requires Sound(lib) && Inv(lib, w) && IsRun(lib, w, steps, n)
    ensures Inv(lib, WorldAfter(lib, w, steps, n))
  {
    if n > 0 {
      var k := n - 1;
      RunPrefix(lib, w, steps, k, n);
      RunKeepsInv(lib, w, steps, k);
      StepKeepsInv(lib, WorldAfter(lib, w, steps, k), steps[k]);
    }
  }

  /** An empty database and an evaluator that has loaded nothing. */
  function Start(): World
  {
    World(Empty(), [Pools(map[], {})], map[])
  }

  lemma StartIsSound(lib: Library)
    ensures Inv(lib, Start()) && AllHold(lib, Start())
  {
  }

  lemma FalseIsOlder(lib: Library, w: World, k: TrustKey)
    requires Inv(lib, w) && FalselyTrusted(lib, w, k)
    ensures IsOlder(w, k) && RowHolds(lib, w.db.certs, k, w.gens[w.born[k]])
  {
  }

  /** The row was not computed under the pools in memory, though they cover its store. */
  predicate IsOlder(w: World, k: TrustKey)
    requires w.gens != []
  {
    k in w.db.notes.trust && k.store in InMemory(w).roots && k in w.born && w.born[k] < |w.gens| - 1
  }

  /** In every run from the start, a row that falsely says trusted was computed before the last
      publication. */
  lemma {:induction false} FalselyTrustedIsOlder(lib: Library, steps: seq<TrustStep>, n: nat, k: TrustKey)
    requires Sound(lib) && IsRun(lib, Start(), steps, n)
    requires FalselyTrusted(lib, WorldAfter(lib, Start(), steps, n), k)
    ensures var w := WorldAfter(lib, Start(), steps, n);
            IsOlder(w, k) && RowHolds(lib, w.db.certs, k, w.gens[w.born[k]])
  {
    StartIsSound(lib);
    RunKeepsInv(lib, Start(), steps, n);
    FalseIsOlder(lib, WorldAfter(lib, Start(), steps, n), k);
  }

  // ---------------------------------------------------------------------------
  // When rows become false
  // ---------------------------------------------------------------------------

  /** Storing the verdict for the store makes a row that falsely says trusted. */
  predicate StoresDenied(lib: Library, w: World, cert: X509, gen: nat, seen: set<X509>, st: StoreId)
    requires w.gens != [] && gen < |w.gens|
  {
    && st in w.gens[gen].roots && Judge(lib, cert, w.gens[gen].roots[st], seen).trusted
    && !RowHolds(lib, w.db.certs, TrustKey(lib.fingerprint(cert), st), InMemory(w))
  }

  /** What can be known before the step: it publishes pools that deny a row recorded as trusted,
      or it stores an older generation's trusted verdict that the pools in memory deny. */
  ghost predicate WillFalsify(lib: Library, w: World, step: TrustStep)
    requires w.gens != []
  {
    match step
    case Publish(pools) =>
      exists k :: k in w.db.notes.trust && w.db.notes.trust[k].trusted && !RowHolds(lib, w.db.certs, k, pools)
    case Persist(cert, gen, seen) =>
      gen < |w.gens| - 1 && exists st :: StoresDenied(lib, w, cert, gen, seen, st)
    case _ => false
  }

  lemma {:induction false} PublishFalsifiesIff(lib: Library, w: World, pools: Pools)
    requires w.gens != []
    ensures !AllHold(lib, TrustApply(lib, w, Publish(pools))) <==> WillFalsify(lib, w, Publish(pools))
  {
    var after := TrustApply(lib, w, Publish(pools));
    assert InMemory(after) == pools;
    if k :| k in w.db.notes.trust && w.db.notes.trust[k].trusted && !RowHolds(lib, w.db.certs, k, pools) {
      assert FalselyTrusted(lib, after, k);
    }
  }

  lemma {:induction false} AfterPersist(lib: Library, w: World, cert: X509, gen: nat, seen: set<X509>, k: TrustKey)
    requires w.gens != [] && gen < |w.gens| && lib.fingerprint(cert) in w.db.certs
    ensures FalselyTrusted(lib, TrustApply(lib, w, Persist(cert, gen, seen)), k) <==>
              FalseRow(lib, w.db.certs, MergeVerdicts(w.db.notes.trust, lib.fingerprint(cert), Verdicts(lib, cert, w.gens[gen].roots, seen)), k, InMemory(w))
  {
  }

  /** A stored row is false exactly when the verdict is denied. */
  lemma {:induction false} PersistedRow(lib: Library, w: World, cert: X509, gen: nat, seen: set<X509>, st: StoreId)
    requires w.gens != [] && gen < |w.gens| && lib.fingerprint(cert) in w.db.certs && st in w.gens[gen].roots
    ensures FalselyTrusted(lib, TrustApply(lib, w, Persist(cert, gen, seen)), TrustKey(lib.fingerprint(cert), st)) <==>
              StoresDenied(lib, w, cert, gen, seen, st)
  {
    AfterPersist(lib, w, cert, gen, seen, TrustKey(lib.fingerprint(cert), st));
    MergedRowFalseIff(lib, w.db.certs, w.db.notes.trust, cert, w.gens[gen].roots, seen, TrustKey(lib.fingerprint(cert), st), InMemory(w));
  }

  /** Any other row is as false as it was. */
  lemma {:induction false} OtherRow(lib: Library, w: World, cert: X509, gen: nat, seen: set<X509>, k: TrustKey)
    requires w.gens != [] && gen < |w.gens| && lib.fingerprint(cert) in w.db.certs
    requires k.fingerprint != lib.fingerprint(cert) || k.store !in w.gens[gen].roots
    ensures FalselyTrusted(lib, TrustApply(lib, w, Persist(cert, gen, seen)), k) <==> FalselyTrusted(lib, w, k)
  {
    AfterPersist(lib, w, cert, gen, seen, k);
    MergedRowFalseIff(lib, w.db.certs, w.db.notes.trust, cert, w.gens[gen].roots, seen, k, InMemory(w));
  }

  lemma {:induction false} MergedRowFalseIff(lib: Library, certs: map<Fingerprint, Cert>, trust: map<TrustKey, Verdict>, cert: X509,
                                             roots: map<StoreId, set<X509>>, seen: set<X509>, k: TrustKey, pools: Pools)
    ensures FalseRow(lib, certs, MergeVerdicts(trust, lib.fingerprint(cert), Verdicts(lib, cert, roots, seen)), k, pools) <==>
              if k.fingerprint == lib.fingerprint(cert) && k.store in roots
              then Judge(lib, cert, roots[k.store], seen).trusted && !RowHolds(lib, certs, TrustKey(lib.fingerprint(cert), k.store), pools)
              else FalseRow(lib, certs, trust, k, pools)
  {
    MergedAt(trust, lib.fingerprint(cert), Verdicts(lib, cert, roots, seen), k);
    assert TrustKey(k.fingerprint, k.store) == k;
  }

  lemma MergedAt(trust: map<TrustKey, Verdict>, f: Fingerprint, verdicts: map<StoreId, Verdict>, k: TrustKey)
    ensures var after := MergeVerdicts(trust, f, verdicts);
            if k.fingerprint == f && k.store in verdicts then k in after && after[k] == verdicts[k.store]
            else (k in after <==> k in trust) && (k in after ==> after[k] == trust[k])
  {
    assert TrustKey(k.fingerprint, k.store) == k;
  }

  /** A verdict of the pools in memory is never denied. */
  lemma {:induction false} CurrentNotDenied(lib: Library, w: World, cert: X509, seen: set<X509>, st: StoreId)
    requires Sound(lib) && w.gens != [] && RowsHonest(lib, w.db.certs) && seen <= InMemory(w).intermediates
    ensures !StoresDenied(lib, w, cert, |w.gens| - 1, seen, st)
  {
    if st in InMemory(w).roots && Judge(lib, cert, InMemory(w).roots[st], seen).trusted {
      VerdictHolds(lib, w.db.certs, cert, InMemory(w), seen, st);
    }
  }

  /** A row that storing made false comes from a denied verdict. */
  lemma {:induction false} FalseAfterPersist(lib: Library, w: World, cert: X509, gen: nat, seen: set<X509>, k: TrustKey)
    requires w.gens != [] && gen < |w.gens| && lib.fingerprint(cert) in w.db.certs && !FalselyTrusted(lib, w, k)
    requires FalselyTrusted(lib, TrustApply(lib, w, Persist(cert, gen, seen)), k)
    ensures StoresDenied(lib, w, cert, gen, seen, k.store)
  {
    if k.fingerprint == lib.fingerprint(cert) && k.store in w.gens[gen].roots {
      assert TrustKey(lib.fingerprint(cert), k.store) == k;
      PersistedRow(lib, w, cert, gen, seen, k.store);
    } else {
      OtherRow(lib, w, cert, gen, seen, k);
    }
  }

  lemma {:induction false} PersistFalsifiesOnlyIf(lib: Library, w: World, cert: X509, gen: nat, seen: set<X509>, k: TrustKey)
    requires Sound(lib) && w.gens != [] && RowsHonest(lib, w.db.certs) && AllHold(lib, w)
    requires gen < |w.gens| && seen <= w.gens[gen].intermediates
    requires FalselyTrusted(lib, TrustApply(lib, w, Persist(cert, gen, seen)), k)
    ensures WillFalsify(lib, w, Persist(cert, gen, seen))
  {
    assert !FalselyTrusted(lib, w, k);
    FalseAfterPersist(lib, w, cert, gen, seen, k);
    if gen == |w.gens| - 1 { CurrentNotDenied(lib, w, cert, seen, k.store); }
  }

  lemma {:induction false} PersistFalsifiesIf(lib: Library, w: World, cert: X509, gen: nat, seen: set<X509>, st: StoreId)
    requires w.gens != [] && gen < |w.gens| && StoresDenied(lib, w, cert, gen, seen, st)
    ensures FalselyTrusted(lib, TrustApply(lib, w, Persist(cert, gen, seen)), TrustKey(lib.fingerprint(cert), st))
  {
    PersistedRow(lib, w, cert, gen, seen, st);
  }

  lemma {:induction false} PersistFalsifiesIff(lib: Library, w: World, cert: X509, gen: nat, seen: set<X509>)
    requires Sound(lib) && w.gens != [] && RowsHonest(lib, w.db.certs) && AllHold(lib, w)
    requires gen < |w.gens| && seen <= w.gens[gen].intermediates
    ensures !AllHold(lib, TrustApply(lib, w, Persist(cert, gen, seen))) <==> WillFalsify(lib, w, Persist(cert, gen, seen))
  {
    if k :| FalselyTrusted(lib, TrustApply(lib, w, Persist(cert, gen, seen)), k) {
      PersistFalsifiesOnlyIf(lib, w, cert, gen, seen, k);
    }
    if st :| StoresDenied(lib, w, cert, gen, seen, st) {
      PersistFalsifiesIf(lib, w, cert, gen, seen, st);
    }
  }

  lemma {:induction false} DatabaseStepKeepsAllHold(lib: Library, w: World, step: Step)
    requires Inv(lib, w) && AllHold(lib, w) && Honest(lib, step)
    ensures AllHold(lib, TrustApply(lib, w, Database(step)))
  {
    forall k | k in Apply(w.db, step).notes.trust
      ensures !FalselyTrusted(lib, TrustApply(lib, w, Database(step)), k)
    {
      DatabaseStepKeepsRow(lib, w.db, step, k, InMemory(w));
      assert !FalselyTrusted(lib, w, k);
    }
  }

  lemma {:induction false} GrowthKeepsAllHold(lib: Library, w: World, cert: X509)
    requires Sound(lib) && w.gens != [] && AllHold(lib, w)
    ensures AllHold(lib, TrustApply(lib, w, AddIntermediate(cert)))
  {
    forall k | k in w.db.notes.trust && w.db.notes.trust[k].trusted
      ensures RowHolds(lib, w.db.certs, k, Grown(InMemory(w), cert))
    {
      assert !FalselyTrusted(lib, w, k);
      GrowthKeepsRow(lib, w.db.certs, k, InMemory(w), cert);
    }
  }

  /** From a state where every trusted row holds, exactly two kinds of step lead to one where
      some row falsely says trusted. */
  lemma {:induction false} StepFalsifiesIff(lib: Library, w: World, step: TrustStep)
    requires Sound(lib) && Inv(lib, w) && AllHold(lib, w) && Allowed(lib, w, step)
    ensures !AllHold(lib, TrustApply(lib, w, step)) <==> WillFalsify(lib, w, step)
  {
    match step
    case Database(d) => DatabaseStepKeepsAllHold(lib, w, d);
    case AddIntermediate(cert) => GrowthKeepsAllHold(lib, w, cert);
    case Publish(pools) => PublishFalsifiesIff(lib, w, pools);
    case Persist(cert, gen, seen) => PersistFalsifiesIff(lib, w, cert, gen, seen);
  }

  ghost predicate HoldAt(lib: Library, w: World, steps: seq<TrustStep>, k: nat)
    requires w.gens != [] && k <= |steps|
  {
    AllHold(lib, WorldAfter(lib, w, steps, k))
  }

  ghost predicate FalsifiesAt(lib: Library, w: World, steps: seq<TrustStep>, k: nat)
    requires w.gens != [] && k < |steps|
  {
    WillFalsify(lib, WorldAfter(lib, w, steps, k), steps[k])
  }

  lemma {:induction false} HoldsNextIff(lib: Library, w: World, steps: seq<TrustStep>, k: nat)
    requires Sound(lib) && Inv(lib, w) && k < |steps| && IsRun(lib, w, steps, k + 1)
    requires HoldAt(lib, w, steps, k)
    ensures HoldAt(lib, w, steps, k + 1) <==> !FalsifiesAt(lib, w, steps, k)
  {
    RunPrefix(lib, w, steps, k, k + 1);
    RunKeepsInv(lib, w, steps, k);
    StepFalsifiesIff(lib, WorldAfter(lib, w, steps, k), steps[k]);
  }

  ghost predicate HoldThrough(lib: Library, w: World, steps: seq<TrustStep>, n: nat)
    requires w.gens != [] && n <= |steps|
  {
    forall k :: 0 <= k <= n ==> HoldAt(lib, w, steps, k)
  }

  ghost predicate FalsifiesNothing(lib: Library, w: World, steps: seq<TrustStep>, n: nat)
    requires w.gens != [] && n <= |steps|
  {
    forall k :: 0 <= k < n ==> !FalsifiesAt(lib, w, steps, k)
  }

  lemma HoldThroughNext(lib: Library, w: World, steps: seq<TrustStep>, k: nat)
    requires w.gens != [] && k < |steps|
    ensures HoldThrough(lib, w, steps, k + 1) <==> HoldThrough(lib, w, steps, k) && HoldAt(lib, w, steps, k + 1)
    ensures HoldThrough(lib, w, steps, k) ==> HoldAt(lib, w, steps, k)
    ensures FalsifiesNothing(lib, w, steps, k + 1) <==> FalsifiesNothing(lib, w, steps, k) && !FalsifiesAt(lib, w, steps, k)
  {
  }

  lemma HoldThroughStart(lib: Library, w: World, steps: seq<TrustStep>)
    requires w.gens != [] && AllHold(lib, w)
    ensures HoldThrough(lib, w, steps, 0) && FalsifiesNothing(lib, w, steps, 0)
  {
  }

  /** A run keeps every trusted row true throughout exactly when it has no such step. */
  lemma {:induction false} RunHoldsIff(lib: Library, w: World, steps: seq<TrustStep>, n: nat)
    requires Sound(lib) && Inv(lib, w) && AllHold(lib, w) && IsRun(lib, w, steps, n)
    ensures HoldThrough(lib, w, steps, n) <==> FalsifiesNothing(lib, w, steps, n)
  {
    if n == 0 {
      HoldThroughStart(lib, w, steps);
    } else {
      var k := n - 1;
      RunPrefix(lib, w, steps, k, n);
      RunHoldsIff(lib, w, steps, k);
      HoldThroughNext(lib, w, steps, k);
      if HoldThrough(lib, w, steps, k) { HoldsNextIff(lib, w, steps, k); }
    }
  }

  // ---------------------------------------------------------------------------
  // Between publications
  // ---------------------------------------------------------------------------

  /** The step publishes nothing and stores no older generation's verdict. */
  ghost predicate SameGenerationAt(lib: Library, w: World, steps: seq<TrustStep>, i: nat)
    requires w.gens != [] && i < |steps|
  {
    && !steps[i].Publish?
    && (steps[i].Persist? ==> steps[i].gen == |WorldAfter(lib, w, steps, i).gens| - 1)
  }

  /** So do all steps from `p` up to `n`. */
  ghost predicate WithinGeneration(lib: Library, w: World, steps: seq<TrustStep>, p: nat, n: nat)
  {
    w.gens != [] && n <= |steps| && forall i :: p <= i < n ==> SameGenerationAt(lib, w, steps, i)
  }

  lemma WithinPrefix(lib: Library, w: World, steps: seq<TrustStep>, p: nat, k: nat, n: nat)
    requires WithinGeneration(lib, w, steps, p, n) && p <= k < n
    ensures WithinGeneration(lib, w, steps, p, k) && SameGenerationAt(lib, w, steps, k)
  {
  }

  lemma SameGenerationFalsifiesNothing(lib: Library, w: World, steps: seq<TrustStep>, i: nat)
    requires w.gens != [] && i < |steps| && SameGenerationAt(lib, w, steps, i)
    ensures !FalsifiesAt(lib, w, steps, i)
  {
  }

  /** The row says something else than evaluating now would. */
  predicate IsStale(lib: Library, w: World, k: TrustKey)
    requires w.gens != []
  {
    && k in w.db.notes.trust && k.fingerprint in w.db.certs && lib.parse(w.db.certs[k.fingerprint].rec.pem).Some?
    && k.store in InMemory(w).roots
    && w.db.notes.trust[k].trusted != RowHolds(lib, w.db.certs, k, InMemory(w))
  }

  /** Until the next publication, as long as no older verdict is stored, added intermediates can
      make only "untrusted" rows stale. */
  lemma {:induction false} StaleRowsAreUntrusted(lib: Library, w: World, steps: seq<TrustStep>, n: nat)
    requires Sound(lib) && Inv(lib, w) && AllHold(lib, w)
    requires IsRun(lib, w, steps, n) && WithinGeneration(lib, w, steps, 0, n)
    ensures HoldAt(lib, w, steps, n)
    ensures var after := WorldAfter(lib, w, steps, n); forall k :: IsStale(lib, after, k) ==> !after.db.notes.trust[k].trusted
  {
    RunHoldsIff(lib, w, steps, n);
    forall i | 0 <= i < n
      ensures !FalsifiesAt(lib, w, steps, i)
    {
      WithinPrefix(lib, w, steps, 0, i, n);
      SameGenerationFalsifiesNothing(lib, w, steps, i);
    }
    assert FalsifiesNothing(lib, w, steps, n) && HoldAt(lib, w, steps, n);
    StaleIsUntrusted(lib, WorldAfter(lib, w, steps, n));
  }

  lemma StaleIsUntrusted(lib: Library, w: World)
    requires w.gens != [] && AllHold(lib, w)
    ensures forall k :: IsStale(lib, w, k) ==> !w.db.notes.trust[k].trusted
  {
    forall k | IsStale(lib, w, k)
      ensures !w.db.notes.trust[k].trusted
    {
      assert !FalselyTrusted(lib, w, k);
    }
  }

  predicate Reevaluates(lib: Library, step: TrustStep, f: Fingerprint)
  {
    step.Persist? && lib.fingerprint(step.cert) == f
  }

  lemma {:induction false} OlderRowPersist(lib: Library, w: World, cert: X509, seen: set<X509>, k: TrustKey)
    requires Inv(lib, w) && IsOlder(TrustApply(lib, w, Persist(cert, |w.gens| - 1, seen)), k)
    ensures IsOlder(w, k) && lib.fingerprint(cert) != k.fingerprint
  {
  }

  lemma {:induction false} OlderRowDatabase(lib: Library, w: World, step: Step, k: TrustKey)
    requires Inv(lib, w) && Honest(lib, step) && IsOlder(TrustApply(lib, w, Database(step)), k)
    ensures IsOlder(w, k)
  {
    DatabaseStepKeepsRow(lib, w.db, step, k, InMemory(w));
  }

  lemma {:induction false} OlderRowStep(lib: Library, w: World, step: TrustStep, k: TrustKey)
    requires Inv(lib, w) && Allowed(lib, w, step) && !step.Publish? && (step.Persist? ==> step.gen == |w.gens| - 1)
    requires IsOlder(TrustApply(lib, w, step), k)
    ensures IsOlder(w, k) && !Reevaluates(lib, step, k.fingerprint)
  {
    match step
    case Database(d) => OlderRowDatabase(lib, w, d, k);
    case Persist(cert, _, seen) => OlderRowPersist(lib, w, cert, seen, k);
    case AddIntermediate(cert) => OlderRowGrowth(lib, w, cert, k);
  }

  lemma {:induction false} OlderRowGrowth(lib: Library, w: World, cert: X509, k: TrustKey)
    requires w.gens != [] && IsOlder(TrustApply(lib, w, AddIntermediate(cert)), k)
    ensures IsOlder(w, k)
  {
  }

  ghost predicate OlderAt(lib: Library, w: World, steps: seq<TrustStep>, i: nat, k: TrustKey)
    requires w.gens != [] && i <= |steps|
  {
    IsOlder(WorldAfter(lib, w, steps, i), k)
  }

  lemma {:induction false} OlderRowBefore(lib: Library, w: World, steps: seq<TrustStep>, i: nat, k: TrustKey)
    requires Sound(lib) && Inv(lib, w) && i < |steps| && IsRun(lib, w, steps, i + 1)
    requires SameGenerationAt(lib, w, steps, i) && OlderAt(lib, w, steps, i + 1, k)
    ensures OlderAt(lib, w, steps, i, k) && !Reevaluates(lib, steps[i], k.fingerprint)
  {
    RunPrefix(lib, w, steps, i, i + 1);
    RunKeepsInv(lib, w, steps, i);
    OlderRowStep(lib, WorldAfter(lib, w, steps, i), steps[i], k);
  }

  lemma CoveredNext(lib: Library, steps: seq<TrustStep>, p: nat, i: nat, k: TrustKey)
    requires p <= i < |steps|
    ensures Covered(lib, steps, p, i + 1, k) <==> Covered(lib, steps, p, i, k) || Reevaluates(lib, steps[i], k.fingerprint)
  {
  }

  /** A row still older at the end was older all along and never re-evaluated. */
  lemma {:induction false} OlderRowsUntouched(lib: Library, w: World, steps: seq<TrustStep>, p: nat, n: nat, k: TrustKey)
    requires Sound(lib) && Inv(lib, w) && p <= n && IsRun(lib, w, steps, n)
    requires WithinGeneration(lib, w, steps, p, n)
    requires OlderAt(lib, w, steps, n, k)
    ensures OlderAt(lib, w, steps, p, k) && !Covered(lib, steps, p, n, k)
    decreases n - p
  {
    if p < n {
      var i := n - 1;
      RunPrefix(lib, w, steps, i, n);
      WithinPrefix(lib, w, steps, p, i, n);
      OlderRowBefore(lib, w, steps, i, k);
      OlderRowsUntouched(lib, w, steps, p, i, k);
      CoveredNext(lib, steps, p, i, k);
    }
  }

  /** Between `p` and `n` the certificate of the row is re-evaluated. */
  ghost predicate Covered(lib: Library, steps: seq<TrustStep>, p: nat, n: nat, k: TrustKey)
    requires n <= |steps|
  {
    exists i :: p <= i < n && Reevaluates(lib, steps[i], k.fingerprint)
  }

  lemma {:induction false} FalseRowUncovered(lib: Library, w: World, steps: seq<TrustStep>, p: nat, n: nat, k: TrustKey)
    requires Sound(lib) && Inv(lib, w) && p <= n && IsRun(lib, w, steps, n)
    requires WithinGeneration(lib, w, steps, p, n)
    requires FalselyTrusted(lib, WorldAfter(lib, w, steps, n), k)
    ensures OlderAt(lib, w, steps, p, k) && OlderAt(lib, w, steps, n, k) && !Covered(lib, steps, p, n, k)
  {
    RunKeepsInv(lib, w, steps, n);
    FalseIsOlder(lib, WorldAfter(lib, w, steps, n), k);
    OlderRowsUntouched(lib, w, steps, p, n, k);
  }

  /** A pass makes everything true again: once each row that was older at step `p` and is older
      still has had its certificate re-evaluated since, with no publication and no older
      verdict in between, every trusted row holds. Ingests, deletes and purges may interleave. */
  lemma {:induction false} PassRestores(lib: Library, w: World, steps: seq<TrustStep>, p: nat, n: nat)
    requires Sound(lib) && Inv(lib, w) && p <= n && IsRun(lib, w, steps, n)
    requires WithinGeneration(lib, w, steps, p, n)
    requires forall k :: OlderAt(lib, w, steps, p, k) ==> Covered(lib, steps, p, n, k) || !StoredAt(lib, w, steps, n, k)
    ensures HoldAt(lib, w, steps, n)
  {
    forall k | FalselyTrusted(lib, WorldAfter(lib, w, steps, n), k)
      ensures false
    {
      FalseRowUncovered(lib, w, steps, p, n, k);
    }
  }

  /** The row is there before step `i`. */
  ghost predicate StoredAt(lib: Library, w: World, steps: seq<TrustStep>, i: nat, k: TrustKey)
    requires w.gens != [] && i <= |steps|
  {
    k in WorldAfter(lib, w, steps, i).db.notes.trust
  }

  // ---------------------------------------------------------------------------
  // The evaluator's methods are such steps
  // ---------------------------------------------------------------------------

  /** The world beside the store and the evaluator. */
  ghost predicate Reflects(w: World, store: StoreClass.Store, ev: Evaluator)
    reads store, ev
  {
    w.gens != [] && w.db == store.View() && InMemory(w) == Pools(ev.rootPools, ev.intermediates)
  }

  /** Loading publishes at once, before any row is re-evaluated; a failed load is no step. */
  method LoadIsPublish(store: StoreClass.Store, ev: Evaluator, readFails: bool, ghost w: World) returns (ok: bool, ghost after: World)
    requires Reflects(w, store, ev)
    modifies ev`rootPools, ev`intermediates
    ensures ok <==> !readFails
    ensures after == if ok then TrustApply(ev.lib, w, Publish(LoadedFrom(ev.lib, store.anchors, store.certs))) else w
    ensures Reflects(after, store, ev)
  {
    ok := ev.LoadPools(store, readFails);
    after := if ok then TrustApply(ev.lib, w, Publish(LoadedFrom(ev.lib, store.anchors, store.certs))) else w;
    assert ok ==> ev.rootPools == LoadedFrom(ev.lib, store.anchors, store.certs).roots;
  }

  /** Evaluating and storing without delay stores a verdict of the pools in memory. */
  method EvaluateIsPersist(store: StoreClass.Store, ev: Evaluator, cert: X509, ghost w: World) returns (ghost after: World)
    requires Reflects(w, store, ev) && ev.lib.fingerprint(cert) in store.certs
    modifies store`trust
    ensures var step := Persist(cert, |w.gens| - 1, ev.intermediates);
            Allowed(ev.lib, w, step) && after == TrustApply(ev.lib, w, step) && Reflects(after, store, ev)
  {
    after := TrustApply(ev.lib, w, Persist(cert, |w.gens| - 1, ev.intermediates));
    ev.EvaluateAndPersist(store, ev.lib.fingerprint(cert), cert);
  }
}
