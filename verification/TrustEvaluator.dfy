/** The in-process trust evaluator, its pools, and the verdict rows it keeps up to date. */
module TrustEvaluator {
  import opened Base
  import opened Db
  import opened StoreClass
  import opened TrustPaths

  /** What the evaluator holds in memory: a root pool per store, and one pool of intermediates. */
  datatype Pools = Pools(roots: map<StoreId, set<X509>>, intermediates: set<X509>)

  /** Stores with at least one anchor row, and so a key in ListAnchorPEMsByStore. */
  function AnchoredStores(anchors: set<Anchor>, certs: map<Fingerprint, Cert>): set<StoreId>
  {
    set a | a in anchors && a.fingerprint in certs :: a.store
  }

  /** The parseable anchors of one store. */
  function RootsOf(lib: Library, anchors: set<Anchor>, certs: map<Fingerprint, Cert>, store: StoreId): set<X509>
  {
    set a | a in anchors && a.store == store && a.fingerprint in certs && lib.parse(certs[a.fingerprint].rec.pem).Some? ::
      lib.parse(certs[a.fingerprint].rec.pem).value
  }

  /** The parseable CA certificates that are not flagged as anchors. */
  function IntermediatesOf(lib: Library, certs: map<Fingerprint, Cert>): set<X509>
  {
    set f | f in certs && !certs[f].trustAnchor && lib.parse(certs[f].rec.pem).Some? && lib.parse(certs[f].rec.pem).value.isCA ::
      lib.parse(certs[f].rec.pem).value
  }

  /** The pools a load builds from the database. */
  ghost function LoadedFrom(lib: Library, anchors: set<Anchor>, certs: map<Fingerprint, Cert>): Pools
  {
    Pools(map st | st in AnchoredStores(anchors, certs) :: RootsOf(lib, anchors, certs, st), IntermediatesOf(lib, certs))
  }

  /** The certificate's rows for the loaded stores are fresh evaluations. */
  ghost predicate RowFresh(lib: Library, f: Fingerprint, pem: string, trust: map<TrustKey, Verdict>,
                           pools: map<StoreId, set<X509>>, intermediates: set<X509>)
  {
    lib.parse(pem).Some? ==>
      forall st :: st in pools ==>
        TrustKey(f, st) in trust && trust[TrustKey(f, st)] == Judge(lib, lib.parse(pem).value, pools[st], intermediates)
  }

  /** Every stored verdict for a loaded store and a parseable certificate is a fresh evaluation. */
  ghost predicate VerdictsFresh(lib: Library, certs: map<Fingerprint, Cert>, trust: map<TrustKey, Verdict>,
                                pools: map<StoreId, set<X509>>, intermediates: set<X509>)
  {
    forall f :: f in certs ==> RowFresh(lib, f, certs[f].rec.pem, trust, pools, intermediates)
  }

  /** Rows of stores outside `stores` are as they were. */
  ghost predicate SameRows(before: map<TrustKey, Verdict>, after: map<TrustKey, Verdict>, stores: set<StoreId>)
  {
    forall k: TrustKey :: k.store !in stores ==> (k in after <==> k in before) && (k in after ==> after[k] == before[k])
  }

  /** Every loaded program's verdict. */
  function Verdicts(lib: Library, cert: X509, pools: map<StoreId, set<X509>>, intermediates: set<X509>): map<StoreId, Verdict>
  {
    map st | st in pools :: Judge(lib, cert, pools[st], intermediates)
  }

  /** Storing a certificate's verdicts makes its rows fresh and disturbs no other certificate's or store's rows. */
  lemma MergeRefreshes(lib: Library, f: Fingerprint, cert: X509, trust: map<TrustKey, Verdict>,
                       pools: map<StoreId, set<X509>>, intermediates: set<X509>)
    ensures var after := MergeVerdicts(trust, f, Verdicts(lib, cert, pools, intermediates));
            && SameRows(trust, after, pools.Keys)
            && (forall pem :: lib.parse(pem) == Some(cert) ==> RowFresh(lib, f, pem, after, pools, intermediates))
            && (forall k :: k in trust && k.fingerprint != f ==> k in after && after[k] == trust[k])
  {
  }

  /** The weaker promise that survives growing pools: a "trusted" row is still true. */
  ghost predicate TrustedRowsHold(lib: Library, certs: map<Fingerprint, Cert>, trust: map<TrustKey, Verdict>,
                                  pools: map<StoreId, set<X509>>, intermediates: set<X509>)
  {
    forall f, st ::
      (f in certs && lib.parse(certs[f].rec.pem).Some? && st in pools && TrustKey(f, st) in trust && trust[TrustKey(f, st)].trusted) ==>
        Judge(lib, lib.parse(certs[f].rec.pem).value, pools[st], intermediates).trusted
  }

  lemma FreshMeansTrustedHold(lib: Library, certs: map<Fingerprint, Cert>, trust: map<TrustKey, Verdict>,
                              pools: map<StoreId, set<X509>>, intermediates: set<X509>)
    requires VerdictsFresh(lib, certs, trust, pools, intermediates)
    ensures TrustedRowsHold(lib, certs, trust, pools, intermediates)
  {
  }

  /** A stored PEM that parses is the certificate its key names. */
  ghost predicate RowsHonest(lib: Library, certs: map<Fingerprint, Cert>)
  {
    forall f :: f in certs && lib.parse(certs[f].rec.pem).Some? ==> lib.fingerprint(lib.parse(certs[f].rec.pem).value) == f
  }

  /** Verdict rows belong to stored certificates, and the "trusted" ones hold. */
  ghost predicate TrustSound(lib: Library, certs: map<Fingerprint, Cert>, trust: map<TrustKey, Verdict>,
                             pools: map<StoreId, set<X509>>, intermediates: set<X509>)
  {
    && RowsHonest(lib, certs)
    && (forall k :: k in trust ==> k.fingerprint in certs)
    && TrustedRowsHold(lib, certs, trust, pools, intermediates)
  }

  /** Until the next load, added intermediates can make only "untrusted" rows stale. */
  lemma GrowingPoolsKeepTrustedRows(lib: Library, certs: map<Fingerprint, Cert>, trust: map<TrustKey, Verdict>,
                                    pools: map<StoreId, set<X509>>, few: set<X509>, many: set<X509>)
    requires Sound(lib) && few <= many && TrustedRowsHold(lib, certs, trust, pools, few)
    ensures TrustedRowsHold(lib, certs, trust, pools, many)
  {
    forall f, st | f in certs && lib.parse(certs[f].rec.pem).Some? && st in pools && TrustKey(f, st) in trust && trust[TrustKey(f, st)].trusted
      ensures Judge(lib, lib.parse(certs[f].rec.pem).value, pools[st], many).trusted
    {
      MorePathsWithMoreIntermediates(lib, lib.parse(certs[f].rec.pem).value, pools[st], few, many);
    }
  }

  class Evaluator {
    const lib: Library
    var rootPools: map<StoreId, set<X509>>
    var intermediates: set<X509>

    constructor (lib: Library)
      ensures this.lib == lib && rootPools == map[] && intermediates == {}
    {
      this.lib := lib;
      rootPools, intermediates := map[], {};
    }

    /** One store's pool: unparseable anchors are skipped. */
    method BuildPool(rows: set<Fingerprint>, certs: map<Fingerprint, Cert>) returns (pool: set<X509>)
      requires rows <= certs.Keys
      ensures pool == set f | f in rows && lib.parse(certs[f].rec.pem).Some? :: lib.parse(certs[f].rec.pem).value
    {
      pool := {};
      var rest := rows;
      while rest != {}
        invariant rest <= rows
        invariant pool == set f | f in rows - rest && lib.parse(certs[f].rec.pem).Some? :: lib.parse(certs[f].rec.pem).value
        decreases |rest|
      {
        var f :| f in rest;
        var parsed := lib.parse(certs[f].rec.pem);
        assert rows - (rest - {f}) == (rows - rest) + {f};
        if parsed.Some? {
          pool := pool + {parsed.value};
        }
        rest := rest - {f};
      }
      assert rows - {} == rows;
    }

    /** One pool for each store that has anchors. */
    method BuildRoots(anchors: set<Anchor>, certs: map<Fingerprint, Cert>) returns (roots: map<StoreId, set<X509>>)
      ensures roots.Keys == AnchoredStores(anchors, certs)
      ensures forall st :: st in roots ==> roots[st] == RootsOf(lib, anchors, certs, st)
    {
      var stores := AnchoredStores(anchors, certs);
      roots := map[];
      var rest := stores;
      while rest != {}
        invariant rest <= stores && roots.Keys == stores - rest
        invariant forall st :: st in roots ==> roots[st] == RootsOf(lib, anchors, certs, st)
        decreases |rest|
      {
        var st :| st in rest;
        var rows := set a | a in anchors && a.store == st && a.fingerprint in certs :: a.fingerprint;
        var pool := BuildPool(rows, certs);
        PoolIsRoots(lib, anchors, certs, st);
        roots, rest := roots[st := pool], rest - {st};
      }
    }

    /** Rebuild every pool from the database and publish the new pools together. When a database
        read fails the previous pools stay. */
    method LoadPools(store: Store, readFails: bool) returns (ok: bool)
      modifies this`rootPools, this`intermediates
      ensures ok <==> !readFails
      ensures ok ==> rootPools.Keys == AnchoredStores(store.anchors, store.certs)
      ensures ok ==> forall st :: st in rootPools ==> rootPools[st] == RootsOf(lib, store.anchors, store.certs, st)
      ensures ok ==> intermediates == IntermediatesOf(lib, store.certs)
      ensures !ok ==> rootPools == old(rootPools) && intermediates == old(intermediates)
    {
      if readFails {
        return false;
      }
      var newRoots := BuildRoots(store.anchors, store.certs);
      var plain := set f | f in store.certs && !store.certs[f].trustAnchor;
      var parsed := BuildPool(plain, store.certs);
      rootPools := newRoots;
      intermediates := set x | x in parsed && x.isCA;
      return true;
    }

    method AddIntermediate(cert: X509)
      modifies this`intermediates
      ensures intermediates == if cert.isCA then old(intermediates) + {cert} else old(intermediates)
    {
      if cert.isCA {
        intermediates := intermediates + {cert};
      }
    }

    /** The per-program verdict of one certificate. */
    method Evaluate(leaf: X509) returns (out: map<StoreId, Verdict>)
      ensures out == Verdicts(lib, leaf, rootPools, intermediates)
    {
      out := map[];
      var rest := rootPools.Keys;
      while rest != {}
        invariant rest <= rootPools.Keys && out.Keys == rootPools.Keys - rest
        invariant forall st :: st in out ==> out[st] == Judge(lib, leaf, rootPools[st], intermediates)
        decreases |rest|
      {
        var st :| st in rest;
        var error := lib.verify(leaf, rootPools[st], intermediates);
        out := out[st := if error.None? then Verdict(true, "") else Verdict(false, error.value)];
        rest := rest - {st};
      }
    }

    /** Evaluate one certificate and upsert its verdict rows. */
    method EvaluateAndPersist(store: Store, f: Fingerprint, cert: X509)
      requires f in store.certs
      modifies store`trust
      ensures store.trust == MergeVerdicts(old(store.trust), f, Verdicts(lib, cert, rootPools, intermediates))
    {
      var verdicts := Evaluate(cert);
      var ok := store.UpsertCertificateTrust(f, verdicts);
      assert verdicts == map[] ==> store.trust == MergeVerdicts(old(store.trust), f, verdicts);
    }

    /** Evaluate and persist every parseable certificate. Rows of other stores keep what they had. */
    method ReevaluateAll(store: Store)
      modifies store`trust
      ensures VerdictsFresh(lib, store.certs, store.trust, rootPools, intermediates)
      ensures SameRows(old(store.trust), store.trust, rootPools.Keys)
      ensures forall k :: k in store.trust ==> k in old(store.trust) || k.fingerprint in store.certs
    {
      var rows := store.certs;
      var rest := rows.Keys;
      while rest != {}
        invariant rest <= rows.Keys
        invariant forall f :: f in rows && f !in rest ==> RowFresh(lib, f, rows[f].rec.pem, store.trust, rootPools, intermediates)
        invariant SameRows(old(store.trust), store.trust, rootPools.Keys)
        invariant forall k :: k in store.trust ==> k in old(store.trust) || k.fingerprint in store.certs
        decreases |rest|
      {
        var f :| f in rest;
        var parsed := lib.parse(rows[f].rec.pem);
        if parsed.Some? {
          ghost var before := store.trust;
          EvaluateAndPersist(store, f, parsed.value);
          MergeRefreshes(lib, f, parsed.value, before, rootPools, intermediates);
        }
        rest := rest - {f};
      }
    }

    /** What startup and every root-store refresh do: afterwards the pools are those of the
        database, each stored verdict of a loaded store is a fresh evaluation against them,
        and so every "trusted" row holds. A failed load changes nothing. */
    method Reload(store: Store, readFails: bool) returns (ok: bool)
      modifies this`rootPools, this`intermediates, store`trust
      ensures ok <==> !readFails
      ensures !ok ==> rootPools == old(rootPools) && intermediates == old(intermediates) && store.trust == old(store.trust)
      ensures ok ==> rootPools.Keys == AnchoredStores(store.anchors, store.certs)
      ensures ok ==> forall st :: st in rootPools ==> rootPools[st] == RootsOf(lib, store.anchors, store.certs, st)
      ensures ok ==> intermediates == IntermediatesOf(lib, store.certs)
      ensures ok ==> VerdictsFresh(lib, store.certs, store.trust, rootPools, intermediates)
      ensures ok ==> SameRows(old(store.trust), store.trust, rootPools.Keys)
      ensures ok ==> RowsReloaded(lib, store.anchors, store.certs, old(store.trust), store.trust)
      ensures ok ==> forall k :: k in store.trust ==> k in old(store.trust) || k.fingerprint in store.certs
      ensures ok && RowsHonest(lib, store.certs) && (forall k :: k in old(store.trust) ==> k.fingerprint in store.certs) ==>
                TrustSound(lib, store.certs, store.trust, rootPools, intermediates)
    {
      ok := LoadPools(store, readFails);
      if ok {
        ReevaluateAll(store);
        FreshMeansTrustedHold(lib, store.certs, store.trust, rootPools, intermediates);
        FreshIsReloaded(lib, store.anchors, store.certs, old(store.trust), store.trust, rootPools);
      }
    }
  }

  /** What a reload does to the row of a parseable certificate: direct evaluation against the
      database's own anchors and CA certificates if the store has an anchor; otherwise nothing. */
  ghost predicate RowReloaded(lib: Library, anchors: set<Anchor>, certs: map<Fingerprint, Cert>,
                              before: map<TrustKey, Verdict>, after: map<TrustKey, Verdict>, cert: X509, k: TrustKey)
  {
    if k.store in AnchoredStores(anchors, certs) then
      k in after && after[k] == Judge(lib, cert, RootsOf(lib, anchors, certs, k.store), IntermediatesOf(lib, certs))
    else (k in after <==> k in before) && (k in after ==> after[k] == before[k])
  }

  ghost predicate RowsReloaded(lib: Library, anchors: set<Anchor>, certs: map<Fingerprint, Cert>,
                               before: map<TrustKey, Verdict>, after: map<TrustKey, Verdict>)
  {
    forall f, st :: f in certs && lib.parse(certs[f].rec.pem).Some? ==>
      RowReloaded(lib, anchors, certs, before, after, lib.parse(certs[f].rec.pem).value, TrustKey(f, st))
  }

  lemma FreshIsReloaded(lib: Library, anchors: set<Anchor>, certs: map<Fingerprint, Cert>,
                        before: map<TrustKey, Verdict>, after: map<TrustKey, Verdict>, pools: map<StoreId, set<X509>>)
    requires pools.Keys == AnchoredStores(anchors, certs) && forall st :: st in pools ==> pools[st] == RootsOf(lib, anchors, certs, st)
    requires VerdictsFresh(lib, certs, after, pools, IntermediatesOf(lib, certs)) && SameRows(before, after, pools.Keys)
    ensures RowsReloaded(lib, anchors, certs, before, after)
  {
    forall f, st | f in certs && lib.parse(certs[f].rec.pem).Some?
      ensures RowReloaded(lib, anchors, certs, before, after, lib.parse(certs[f].rec.pem).value, TrustKey(f, st))
    {
      if st in pools { FreshIsDirect(lib, anchors, certs, after, pools, f, st); }
    }
  }

  /** A chain out of the database: each certificate signed by the next, an anchor of the store at the
      end, and between them stored CA certificates that are not flagged as anchors. */
  ghost predicate StoredPath(lib: Library, anchors: set<Anchor>, certs: map<Fingerprint, Cert>, path: seq<X509>, leaf: X509, st: StoreId)
  {
    && path != [] && path[0] == leaf && lib.acceptable(path)
    && (forall i :: 0 < i < |path| ==> lib.signedBy(path[i - 1], path[i]))
    && (exists a :: a in anchors && a.store == st && a.fingerprint in certs
          && lib.parse(certs[a.fingerprint].rec.pem) == Some(path[|path| - 1]))
    && (forall i :: 0 < i < |path| - 1 ==>
          path[i].isCA && exists g :: g in certs && !certs[g].trustAnchor && lib.parse(certs[g].rec.pem) == Some(path[i]))
  }

  lemma {:induction false} StoredPathIsTrustPath(lib: Library, anchors: set<Anchor>, certs: map<Fingerprint, Cert>,
                                                 path: seq<X509>, leaf: X509, st: StoreId)
    ensures StoredPath(lib, anchors, certs, path, leaf, st) <==>
              IsTrustPath(lib, path, leaf, RootsOf(lib, anchors, certs, st), IntermediatesOf(lib, certs))
  {
  }

  /** Evaluating against the pools of the database finds exactly the chains out of it. */
  lemma {:induction false} JudgedByStoredPaths(lib: Library, anchors: set<Anchor>, certs: map<Fingerprint, Cert>, leaf: X509, st: StoreId)
    requires Sound(lib)
    ensures Judge(lib, leaf, RootsOf(lib, anchors, certs, st), IntermediatesOf(lib, certs)).trusted <==>
              exists path :: StoredPath(lib, anchors, certs, path, leaf, st)
  {
    var roots, intermediates := RootsOf(lib, anchors, certs, st), IntermediatesOf(lib, certs);
    if path :| IsTrustPath(lib, path, leaf, roots, intermediates) {
      StoredPathIsTrustPath(lib, anchors, certs, path, leaf, st);
    }
    if path :| StoredPath(lib, anchors, certs, path, leaf, st) {
      StoredPathIsTrustPath(lib, anchors, certs, path, leaf, st);
    }
  }

  /** After a reload the row of a stored certificate for a store with a stored anchor says trusted
      exactly when there is such a chain. */
  lemma {:induction false} TrustedIffChained(lib: Library, anchors: set<Anchor>, certs: map<Fingerprint, Cert>,
                                             before: map<TrustKey, Verdict>, after: map<TrustKey, Verdict>, f: Fingerprint, st: StoreId, leaf: X509)
    requires Sound(lib) && RowsReloaded(lib, anchors, certs, before, after)
    requires f in certs && lib.parse(certs[f].rec.pem) == Some(leaf)
    requires exists a :: a in anchors && a.store == st && a.fingerprint in certs
    ensures TrustKey(f, st) in after
    ensures after[TrustKey(f, st)].trusted <==> exists path :: StoredPath(lib, anchors, certs, path, leaf, st)
  {
    var a :| a in anchors && a.store == st && a.fingerprint in certs;
    assert a.store in AnchoredStores(anchors, certs);
    assert RowReloaded(lib, anchors, certs, before, after, leaf, TrustKey(f, st));
    JudgedByStoredPaths(lib, anchors, certs, leaf, st);
  }

  /** Reload, then look a certificate up: trusted exactly when the database holds a chain for it. */
  method ReloadAndLookUp(store: Store, ev: Evaluator, f: Fingerprint, st: StoreId) returns (trusted: bool)
    requires Sound(ev.lib) && f in store.certs && ev.lib.parse(store.certs[f].rec.pem).Some?
    requires exists a :: a in store.anchors && a.store == st && a.fingerprint in store.certs
    modifies ev`rootPools, ev`intermediates, store`trust
    ensures trusted <==>
              exists path :: StoredPath(ev.lib, store.anchors, store.certs, path, ev.lib.parse(store.certs[f].rec.pem).value, st)
  {
    ghost var before := store.trust;
    var ok := ev.Reload(store, false);
    TrustedIffChained(ev.lib, store.anchors, store.certs, before, store.trust, f, st, ev.lib.parse(store.certs[f].rec.pem).value);
    trusted := store.trust[TrustKey(f, st)].trusted;
  }

  /** A store that has lost its last anchor trusts nobody, yet a reload leaves its rows saying
      trusted as they were. */
  lemma {:induction false} EmptiedStoreKeepsRow(lib: Library, s: Tables, st: StoreId, f: Fingerprint, after: map<TrustKey, Verdict>)
    requires Sound(lib) && f in s.certs && lib.parse(s.certs[f].rec.pem).Some?
    requires TrustKey(f, st) in s.notes.trust && s.notes.trust[TrustKey(f, st)].trusted
    requires var t := ReplaceAnchors(s, st, []); RowsReloaded(lib, t.notes.anchors, t.certs, t.notes.trust, after)
    ensures TrustKey(f, st) in after && after[TrustKey(f, st)].trusted
    ensures var t := ReplaceAnchors(s, st, []);
            !Judge(lib, lib.parse(s.certs[f].rec.pem).value, RootsOf(lib, t.notes.anchors, t.certs, st), IntermediatesOf(lib, t.certs)).trusted
  {
    var t, leaf := ReplaceAnchors(s, st, []), lib.parse(s.certs[f].rec.pem).value;
    assert st !in AnchoredStores(t.notes.anchors, t.certs);
    assert RowReloaded(lib, t.notes.anchors, t.certs, t.notes.trust, after, leaf, TrustKey(f, st));
    assert RootsOf(lib, t.notes.anchors, t.certs, st) == {};
    NoRootsNoTrust(lib, leaf, IntermediatesOf(lib, t.certs));
  }

  lemma NoRootsNoTrust(lib: Library, leaf: X509, intermediates: set<X509>)
    requires Sound(lib)
    ensures !Judge(lib, leaf, {}, intermediates).trusted
  {
    forall path
      ensures !IsTrustPath(lib, path, leaf, {}, intermediates)
    {
    }
  }

  /** The same through the code: empty the store, then reload. */
  method EmptyStoreAndReload(store: Store, ev: Evaluator, st: StoreId, f: Fingerprint) returns (ok: bool)
    requires Sound(ev.lib) && f in store.certs && ev.lib.parse(store.certs[f].rec.pem).Some?
    requires TrustKey(f, st) in store.trust && store.trust[TrustKey(f, st)].trusted
    modifies ev`rootPools, ev`intermediates, store`anchors, store`trust
    ensures ok && st !in ev.rootPools
    ensures TrustKey(f, st) in store.trust && store.trust[TrustKey(f, st)].trusted
  {
    ghost var s := store.View();
    var replaced := store.ReplaceRootStoreAnchors(st, []);
    ok := ev.Reload(store, false);
    EmptiedStoreKeepsRow(ev.lib, s, st, f, store.trust);
  }

  /** A fresh row for a loaded store is direct evaluation against the database's own anchors
      and CA certificates. */
  lemma FreshIsDirect(lib: Library, anchors: set<Anchor>, certs: map<Fingerprint, Cert>, trust: map<TrustKey, Verdict>,
                      pools: map<StoreId, set<X509>>, f: Fingerprint, st: StoreId)
    requires pools.Keys == AnchoredStores(anchors, certs) && st in pools
    requires pools[st] == RootsOf(lib, anchors, certs, st)
    requires VerdictsFresh(lib, certs, trust, pools, IntermediatesOf(lib, certs))
    requires f in certs && lib.parse(certs[f].rec.pem).Some?
    ensures TrustKey(f, st) in trust
    ensures trust[TrustKey(f, st)] ==
              Judge(lib, lib.parse(certs[f].rec.pem).value, RootsOf(lib, anchors, certs, st), IntermediatesOf(lib, certs))
  {
    assert RowFresh(lib, f, certs[f].rec.pem, trust, pools, IntermediatesOf(lib, certs));
  }

  lemma PoolIsRoots(lib: Library, anchors: set<Anchor>, certs: map<Fingerprint, Cert>, st: StoreId)
    ensures var rows := set a | a in anchors && a.store == st && a.fingerprint in certs :: a.fingerprint;
            (set f | f in rows && lib.parse(certs[f].rec.pem).Some? :: lib.parse(certs[f].rec.pem).value) == RootsOf(lib, anchors, certs, st)
  {
    var rows := set a | a in anchors && a.store == st && a.fingerprint in certs :: a.fingerprint;
    var pool := set f | f in rows && lib.parse(certs[f].rec.pem).Some? :: lib.parse(certs[f].rec.pem).value;
    forall x | x in RootsOf(lib, anchors, certs, st)
      ensures x in pool
    {
      var a :| a in anchors && a.store == st && a.fingerprint in certs && lib.parse(certs[a.fingerprint].rec.pem) == Some(x);
      assert a.fingerprint in rows;
    }
  }
}
