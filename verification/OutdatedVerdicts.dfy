/**
 A run in which a verdict row falsely says trusted: a root leaves a store whose other anchor
 stays. The row is false from the publication of the new pools until the pass re-evaluates
 it, and false again when an evaluation that began before the publication stores its
 verdict after the pass.
 */
module OutdatedVerdicts {
  import opened Base
  import opened Db
  import opened Runs
  import opened TrustPaths
  import opened TrustEvaluator
  import opened TrustRuns

  const STORE := StoreId("mozilla")

  /** Two end-entity anchors, of which `b` does not vouch for `a`. */
  ghost predicate Suitable(lib: Library, a: X509, b: X509)
  {
    && Sound(lib) && a != b && !a.isCA && !b.isCA
    && lib.extract(a).authorityKeyId.None? && lib.extract(b).authorityKeyId.None?
    && Judge(lib, a, {a, b}, {}).trusted && !Judge(lib, a, {b}, {}).trusted
  }

  lemma SuitableExists()
    ensures Suitable(RootsOnly(), X509("a", false), X509("b", false))
  {
    SoundIsConsistent();
  }

  function Row(lib: Library, a: X509): TrustKey
  {
    TrustKey(lib.fingerprint(a), STORE)
  }

  function Rows(lib: Library, a: X509, b: X509): map<Fingerprint, Cert>
  {
    map[lib.fingerprint(a) := Cert(lib.extract(a), None, false), lib.fingerprint(b) := Cert(lib.extract(b), None, false)]
  }

  function Anchors(lib: Library, members: seq<X509>): set<Anchor>
  {
    set x | x in members :: Anchor(STORE, lib.fingerprint(x))
  }

  function Stored(lib: Library, a: X509, b: X509, anchors: set<Anchor>, trust: map<TrustKey, Verdict>): Tables
  {
    Empty().(certs := Rows(lib, a, b), notes := Annotations(anchors, trust, {}, map[]))
  }

  function NoPools(): Pools
  {
    Pools(map[], {})
  }

  function Both(a: X509, b: X509): Pools
  {
    Pools(map[STORE := {a, b}], {})
  }

  function OnlyOther(b: X509): Pools
  {
    Pools(map[STORE := {b}], {})
  }

  /** Store both, anchor both, load, evaluate `a`; drop `a` from the store, load again, re-evaluate
      `a`; then an evaluation of the first load stores its verdict. */
  function Run(lib: Library, a: X509, b: X509): seq<TrustStep>
  {
    [Database(OnCerts(InsertCertificate(lib.fingerprint(a), lib.extract(a), None))),
     Database(OnCerts(InsertCertificate(lib.fingerprint(b), lib.extract(b), None))),
     Database(OnNotes(ReplaceRootStoreAnchors(STORE, [lib.fingerprint(a), lib.fingerprint(b)]))),
     Publish(Both(a, b)),
     Persist(a, 1, {}),
     Database(OnNotes(ReplaceRootStoreAnchors(STORE, [lib.fingerprint(b)]))),
     Publish(OnlyOther(b)),
     Persist(a, 2, {}),
     Persist(a, 1, {})]
  }

  // ---------------------------------------------------------------------------
  // The states of the run
  // ---------------------------------------------------------------------------

  function First(lib: Library, a: X509): map<Fingerprint, Cert>
  {
    map[lib.fingerprint(a) := Cert(lib.extract(a), None, false)]
  }

  lemma {:induction false} InsertFirst(lib: Library, a: X509, b: X509)
    requires Suitable(lib, a, b)
    ensures Apply(Empty(), Run(lib, a, b)[0].step) == Empty().(certs := First(lib, a))
  {
    assert IssuerCandidates(map[], lib.fingerprint(a), lib.extract(a)) == {};
    assert AddCertRow(map[], lib.fingerprint(a), lib.extract(a), None, false) == First(lib, a);
  }

  lemma {:induction false} InsertSecond(lib: Library, a: X509, b: X509)
    requires Suitable(lib, a, b)
    ensures Apply(Empty().(certs := First(lib, a)), Run(lib, a, b)[1].step) == Stored(lib, a, b, {}, map[])
  {
    var first := First(lib, a);
    assert IssuerCandidates(first, lib.fingerprint(b), lib.extract(b)) == {};
    assert AddCertRow(first, lib.fingerprint(b), lib.extract(b), None, false) == Rows(lib, a, b);
  }

  lemma {:induction false} Anchored(lib: Library, a: X509, b: X509, members: seq<X509>, before: set<Anchor>, trust: map<TrustKey, Verdict>)
    requires forall x :: x in members ==> x == a || x == b
    requires forall x :: x in before ==> x.store == STORE
    ensures var fs := seq(|members|, i requires 0 <= i < |members| => lib.fingerprint(members[i]));
            ReplaceAnchors(Stored(lib, a, b, before, trust), STORE, fs) == Stored(lib, a, b, Anchors(lib, members), trust)
  {
    var fs := seq(|members|, i requires 0 <= i < |members| => lib.fingerprint(members[i]));
    forall f | f in fs
      ensures f in Rows(lib, a, b)
    {
      var i :| 0 <= i < |members| && fs[i] == f;
      assert members[i] in members;
    }
    assert SwapAnchors(before, STORE, fs) == Anchors(lib, members) by {
      forall x | x in members
        ensures Anchor(STORE, lib.fingerprint(x)) in SwapAnchors(before, STORE, fs)
      {
        var i :| 0 <= i < |members| && members[i] == x;
        assert fs[i] in fs;
      }
      forall f | f in fs
        ensures Anchor(STORE, f) in Anchors(lib, members)
      {
        var i :| 0 <= i < |members| && fs[i] == f;
        assert members[i] in members;
      }
    }
  }

  predicate Parses(lib: Library, certs: map<Fingerprint, Cert>, x: X509)
  {
    lib.fingerprint(x) in certs && lib.parse(certs[lib.fingerprint(x)].rec.pem) == Some(x)
  }

  lemma {:induction false} RowsParse(lib: Library, a: X509, b: X509)
    requires Suitable(lib, a, b)
    ensures Parses(lib, Rows(lib, a, b), a) && Parses(lib, Rows(lib, a, b), b)
  {
    assert lib.fingerprint(a) != lib.fingerprint(b);
    assert lib.parse(lib.extract(a).pem) == Some(a) && lib.parse(lib.extract(b).pem) == Some(b);
  }

  lemma {:induction false} RootsRead(lib: Library, certs: map<Fingerprint, Cert>, members: seq<X509>)
    requires forall x :: x in members ==> Parses(lib, certs, x)
    ensures RootsOf(lib, Anchors(lib, members), certs, STORE) == set x | x in members
  {
    var anchors := Anchors(lib, members);
    forall x | x in members
      ensures x in RootsOf(lib, anchors, certs, STORE)
    {
      assert Anchor(STORE, lib.fingerprint(x)) in anchors;
    }
    forall y | y in RootsOf(lib, anchors, certs, STORE)
      ensures y in members
    {
      var k :| k in anchors && k.fingerprint in certs && lib.parse(certs[k.fingerprint].rec.pem) == Some(y);
      var x :| x in members && k == Anchor(STORE, lib.fingerprint(x));
      assert Parses(lib, certs, x);
    }
  }

  lemma {:induction false} NoIntermediatesRead(lib: Library, a: X509, b: X509)
    requires Suitable(lib, a, b)
    ensures IntermediatesOf(lib, Rows(lib, a, b)) == {}
  {
    RowsParse(lib, a, b);
  }

  lemma {:induction false} StoresRead(lib: Library, a: X509, b: X509, members: seq<X509>)
    requires members != [] && forall x :: x in members ==> x == a || x == b
    ensures AnchoredStores(Anchors(lib, members), Rows(lib, a, b)) == {STORE}
  {
    assert Anchor(STORE, lib.fingerprint(members[0])) in Anchors(lib, members);
  }

  /** What the loads of the run read is what the database holds at that moment. */
  lemma {:induction false} LoadsRead(lib: Library, a: X509, b: X509, members: seq<X509>)
    requires Suitable(lib, a, b) && members != [] && forall x :: x in members ==> x == a || x == b
    ensures LoadedFrom(lib, Anchors(lib, members), Rows(lib, a, b)) == Pools(map[STORE := set x | x in members], {})
  {
    StoresRead(lib, a, b, members);
    RowsParse(lib, a, b);
    RootsRead(lib, Rows(lib, a, b), members);
    NoIntermediatesRead(lib, a, b);
  }

  lemma MergeOne(f: Fingerprint, trust: map<TrustKey, Verdict>, verdicts: map<StoreId, Verdict>)
    requires trust.Keys <= {TrustKey(f, STORE)} && verdicts.Keys == {STORE}
    ensures MergeVerdicts(trust, f, verdicts) == map[TrustKey(f, STORE) := verdicts[STORE]]
  {
  }

  lemma TagOne(f: Fingerprint, born: map<TrustKey, nat>, stores: set<StoreId>, gen: nat)
    requires born.Keys <= {TrustKey(f, STORE)} && stores == {STORE}
    ensures Tagged(born, f, stores, gen) == map[TrustKey(f, STORE) := gen]
  {
  }

  /** Storing a verdict of one generation replaces the row. */
  lemma {:induction false} Stores(lib: Library, a: X509, b: X509, anchors: set<Anchor>, trust: map<TrustKey, Verdict>,
                                  gens: seq<Pools>, born: map<TrustKey, nat>, gen: nat)
    requires gens != [] && gen < |gens| && gens[gen].roots.Keys == {STORE} && trust.Keys <= {Row(lib, a)} && born.Keys <= {Row(lib, a)}
    ensures TrustApply(lib, World(Stored(lib, a, b, anchors, trust), gens, born), Persist(a, gen, {})) ==
              World(Stored(lib, a, b, anchors, map[Row(lib, a) := Judge(lib, a, gens[gen].roots[STORE], {})]), gens, map[Row(lib, a) := gen])
  {
    MergeOne(lib.fingerprint(a), trust, Verdicts(lib, a, gens[gen].roots, {}));
    TagOne(lib.fingerprint(a), born, gens[gen].roots.Keys, gen);
  }

  /** The state after four steps: both anchored and loaded, nothing evaluated. */
  function Loaded(lib: Library, a: X509, b: X509): World
  {
    World(Stored(lib, a, b, Anchors(lib, [a, b]), map[]), [NoPools(), Both(a, b)], map[])
  }

  /** After a second load, with the row of `a` computed under generation `gen`. */
  function Reloaded(lib: Library, a: X509, b: X509, gen: nat): World
    requires gen == 1 || gen == 2
  {
    World(Stored(lib, a, b, Anchors(lib, [b]), map[Row(lib, a) := Judge(lib, a, if gen == 1 then {a, b} else {b}, {})]),
          [NoPools(), Both(a, b), OnlyOther(b)], map[Row(lib, a) := gen])
  }

  ghost function At(lib: Library, a: X509, b: X509, n: nat): World
    requires n <= 9
  {
    WorldAfter(lib, Start(), Run(lib, a, b), n)
  }

  lemma {:induction false} Next(lib: Library, a: X509, b: X509, n: nat)
    requires n < 9
    ensures At(lib, a, b, n + 1) == TrustApply(lib, At(lib, a, b, n), Run(lib, a, b)[n])
  {
  }

  lemma {:induction false} BothStored(lib: Library, a: X509, b: X509)
    requires Suitable(lib, a, b)
    ensures At(lib, a, b, 2) == Start().(db := Stored(lib, a, b, {}, map[]))
  {
    InsertFirst(lib, a, b);
    InsertSecond(lib, a, b);
    assert At(lib, a, b, 0) == Start();
    Next(lib, a, b, 0);
    Next(lib, a, b, 1);
  }

  lemma {:induction false} AnchorStep(lib: Library, a: X509, b: X509, members: seq<X509>, fs: seq<Fingerprint>, w: World)
    requires forall x :: x in members ==> x == a || x == b
    requires |fs| == |members| && forall i :: 0 <= i < |fs| ==> fs[i] == lib.fingerprint(members[i])
    requires w.gens != [] && w.db == Stored(lib, a, b, w.db.notes.anchors, w.db.notes.trust)
    requires forall x :: x in w.db.notes.anchors ==> x.store == STORE
    ensures TrustApply(lib, w, Database(OnNotes(ReplaceRootStoreAnchors(STORE, fs)))) ==
              w.(db := Stored(lib, a, b, Anchors(lib, members), w.db.notes.trust))
  {
    Anchored(lib, a, b, members, w.db.notes.anchors, w.db.notes.trust);
    assert seq(|members|, i requires 0 <= i < |members| => lib.fingerprint(members[i])) == fs;
  }

  lemma {:induction false} FirstLoad(lib: Library, a: X509, b: X509)
    requires Suitable(lib, a, b)
    ensures At(lib, a, b, 4) == Loaded(lib, a, b)
  {
    BothStored(lib, a, b);
    Next(lib, a, b, 2);
    Next(lib, a, b, 3);
    AnchorStep(lib, a, b, [a, b], [lib.fingerprint(a), lib.fingerprint(b)], Start().(db := Stored(lib, a, b, {}, map[])));
  }

  lemma {:induction false} SecondLoad(lib: Library, a: X509, b: X509)
    requires Suitable(lib, a, b)
    ensures At(lib, a, b, 7) == Reloaded(lib, a, b, 1)
  {
    FirstLoad(lib, a, b);
    Next(lib, a, b, 4);
    Next(lib, a, b, 5);
    Next(lib, a, b, 6);
    var w := Loaded(lib, a, b);
    Stores(lib, a, b, Anchors(lib, [a, b]), map[], w.gens, map[], 1);
    AnchorStep(lib, a, b, [b], [lib.fingerprint(b)], At(lib, a, b, 5));
  }

  lemma {:induction false} PassAndLateVerdict(lib: Library, a: X509, b: X509)
    requires Suitable(lib, a, b)
    ensures At(lib, a, b, 8) == Reloaded(lib, a, b, 2) && At(lib, a, b, 9) == Reloaded(lib, a, b, 1)
  {
    SecondLoad(lib, a, b);
    Next(lib, a, b, 7);
    Next(lib, a, b, 8);
    var one, two := Reloaded(lib, a, b, 1), Reloaded(lib, a, b, 2);
    Stores(lib, a, b, Anchors(lib, [b]), one.db.notes.trust, one.gens, one.born, 2);
    Stores(lib, a, b, Anchors(lib, [b]), two.db.notes.trust, two.gens, two.born, 1);
  }

  // ---------------------------------------------------------------------------
  // What they show
  // ---------------------------------------------------------------------------

  lemma {:induction false} OldRowIsFalse(lib: Library, a: X509, b: X509)
    requires Suitable(lib, a, b)
    ensures FalselyTrusted(lib, Reloaded(lib, a, b, 1), Row(lib, a))
    ensures AllHold(lib, Reloaded(lib, a, b, 2))
  {
    assert lib.parse(lib.extract(a).pem) == Some(a);
  }

  /** The steps are ones the system may take. */
  lemma {:induction false} RunIsPossible(lib: Library, a: X509, b: X509)
    requires Suitable(lib, a, b)
    ensures IsRun(lib, Start(), Run(lib, a, b), 9)
  {
    FirstLoad(lib, a, b);
    SecondLoad(lib, a, b);
    PassAndLateVerdict(lib, a, b);
    var run := Run(lib, a, b);
    forall i | 0 <= i < 9
      ensures AllowedAt(lib, Start(), run, i)
    {
      if i == 4 { assert At(lib, a, b, 4).gens == [NoPools(), Both(a, b)]; }
      if i == 7 { assert |At(lib, a, b, 7).gens| == 3; }
      if i == 8 { assert |At(lib, a, b, 8).gens| == 3; }
    }
  }

  /** From an empty start the row is false after the publication, true after the pass, and
      false again after the late verdict. */
  lemma {:induction false} RowTurnsFalseTwice(lib: Library, a: X509, b: X509)
    requires Suitable(lib, a, b)
    ensures IsRun(lib, Start(), Run(lib, a, b), 9)
    ensures FalselyTrusted(lib, At(lib, a, b, 7), Row(lib, a))
    ensures AllHold(lib, At(lib, a, b, 8))
    ensures FalselyTrusted(lib, At(lib, a, b, 9), Row(lib, a))
  {
    RunIsPossible(lib, a, b);
    SecondLoad(lib, a, b);
    PassAndLateVerdict(lib, a, b);
    OldRowIsFalse(lib, a, b);
  }

  /** The two publications of the run are what loading from the database gives. */
  lemma {:induction false} PublicationsAreLoads(lib: Library, a: X509, b: X509)
    requires Suitable(lib, a, b)
    ensures LoadedFrom(lib, At(lib, a, b, 4).db.notes.anchors, At(lib, a, b, 4).db.certs) == Both(a, b)
    ensures LoadedFrom(lib, At(lib, a, b, 7).db.notes.anchors, At(lib, a, b, 7).db.certs) == OnlyOther(b)
  {
    FirstLoad(lib, a, b);
    SecondLoad(lib, a, b);
    LoadsRead(lib, a, b, [a, b]);
    LoadsRead(lib, a, b, [b]);
    assert (set x | x in [a, b]) == {a, b} && (set x | x in [b]) == {b};
  }
}
