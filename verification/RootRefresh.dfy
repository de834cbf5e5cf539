/** The root-store refresh: per-program anchor sets from the CCADB trust matrix. */
module RootRefresh {
  import opened Base
  import opened Db
  import opened StoreClass
  import opened CertGc

  /** One matrix row. */
  datatype TrustEntry = TrustEntry(
    fingerprint: Fingerprint,
    inApple: bool,
    inChrome: bool,
    inMicrosoft: bool,
    inMozilla: bool)

  const APPLE := StoreId("apple")
  const CHROME := StoreId("chrome")
  const MICROSOFT := StoreId("microsoft")
  const MOZILLA := StoreId("mozilla")

  function Builtin(): set<StoreId>
  {
    {APPLE, CHROME, MICROSOFT, MOZILLA}
  }

  /** The matrix flags the row for the store. */
  predicate Flagged(e: TrustEntry, store: StoreId)
  {
    || (store == APPLE && e.inApple)
    || (store == CHROME && e.inChrome)
    || (store == MICROSOFT && e.inMicrosoft)
    || (store == MOZILLA && e.inMozilla)
  }

  /** The row names a certificate the bundle supplies or the database already had. */
  predicate Resolved(known: set<Fingerprint>, pems: map<Fingerprint, CertRecord>, e: TrustEntry)
  {
    e.fingerprint in pems || e.fingerprint in known
  }

  /** The store should hold the anchor. */
  predicate IsMember(known: set<Fingerprint>, matrix: seq<TrustEntry>, pems: map<Fingerprint, CertRecord>, store: StoreId, f: Fingerprint)
  {
    exists e :: e in matrix && e.fingerprint == f && Flagged(e, store) && Resolved(known, pems, e)
  }

  predicate InBundle(matrix: seq<TrustEntry>, pems: map<Fingerprint, CertRecord>, f: Fingerprint)
  {
    f in pems && exists e :: e in matrix && e.fingerprint == f
  }

  /** Certificates after the matrix loop: the old ones with their records, and the bundle's. */
  ghost predicate CertsLoaded(prior: map<Fingerprint, Cert>, loaded: map<Fingerprint, Cert>, matrix: seq<TrustEntry>, pems: map<Fingerprint, CertRecord>)
  {
    && (forall f :: f in loaded <==> f in prior || InBundle(matrix, pems, f))
    && (forall f :: f in loaded ==> loaded[f].rec == if f in prior then prior[f].rec else pems[f])
  }

  /** The per-store lists collected by the loop. */
  ghost predicate ListsMembers(perStore: map<StoreId, seq<Fingerprint>>, known: set<Fingerprint>, matrix: seq<TrustEntry>, pems: map<Fingerprint, CertRecord>)
  {
    && perStore.Keys == Builtin()
    && (forall st, f :: st in perStore ==> (f in perStore[st] <==> IsMember(known, matrix, pems, st, f)))
  }

  /** What an error-free refresh leaves behind. */
  ghost predicate Refreshed(s: Tables, t: Tables, matrix: seq<TrustEntry>, pems: map<Fingerprint, CertRecord>)
  {
    && CertsLoaded(s.certs, t.certs, matrix, pems)
    && (forall a: Anchor :: a in t.notes.anchors <==>
          if a.store in Builtin() then IsMember(s.certs.Keys, matrix, pems, a.store, a.fingerprint) else a in s.notes.anchors)
    && (forall f :: f in t.certs ==> (t.certs[f].trustAnchor <==> MatchesAnchor(t.notes.anchors, t.certs, t.certs[f].rec)))
    && t == s.(certs := t.certs, notes := s.notes.(anchors := t.notes.anchors))
  }

  // ---------------------------------------------------------------------------
  // The matrix loop
  // ---------------------------------------------------------------------------

  function AppendIf(list: seq<Fingerprint>, flag: bool, f: Fingerprint): seq<Fingerprint>
  {
    if flag then list + [f] else list
  }

  function Collect(perStore: map<StoreId, seq<Fingerprint>>, e: TrustEntry): map<StoreId, seq<Fingerprint>>
  {
    map st | st in perStore :: AppendIf(perStore[st], Flagged(e, st), e.fingerprint)
  }

  lemma MemberNext(known: set<Fingerprint>, matrix: seq<TrustEntry>, i: nat, pems: map<Fingerprint, CertRecord>, st: StoreId, f: Fingerprint)
    requires i < |matrix|
    ensures IsMember(known, matrix[..i + 1], pems, st, f) <==>
              || IsMember(known, matrix[..i], pems, st, f)
              || (matrix[i].fingerprint == f && Flagged(matrix[i], st) && Resolved(known, pems, matrix[i]))
  {
    assert matrix[..i + 1] == matrix[..i] + [matrix[i]];
  }

  lemma BundleNext(matrix: seq<TrustEntry>, i: nat, pems: map<Fingerprint, CertRecord>, f: Fingerprint)
    requires i < |matrix|
    ensures InBundle(matrix[..i + 1], pems, f) <==> InBundle(matrix[..i], pems, f) || (f in pems && matrix[i].fingerprint == f)
  {
    assert matrix[..i + 1] == matrix[..i] + [matrix[i]];
  }

  lemma CollectNext(perStore: map<StoreId, seq<Fingerprint>>, known: set<Fingerprint>, matrix: seq<TrustEntry>, i: nat, pems: map<Fingerprint, CertRecord>)
    requires i < |matrix| && ListsMembers(perStore, known, matrix[..i], pems)
    ensures ListsMembers(if Resolved(known, pems, matrix[i]) then Collect(perStore, matrix[i]) else perStore, known, matrix[..i + 1], pems)
  {
    var next := if Resolved(known, pems, matrix[i]) then Collect(perStore, matrix[i]) else perStore;
    forall st, f | st in next
      ensures f in next[st] <==> IsMember(known, matrix[..i + 1], pems, st, f)
    {
      MemberNext(known, matrix, i, pems, st, f);
      assert IsMember(known, matrix[..i], pems, st, f) <==> f in perStore[st];
    }
  }

  lemma LoadNext(prior: map<Fingerprint, Cert>, before: map<Fingerprint, Cert>, after: map<Fingerprint, Cert>, matrix: seq<TrustEntry>, i: nat,
                 pems: map<Fingerprint, CertRecord>)
    requires i < |matrix| && CertsLoaded(prior, before, matrix[..i], pems)
    requires forall f :: f in after <==> f in before || (f == matrix[i].fingerprint && f in pems)
    requires forall f :: f in after ==> after[f].rec == if f in before then before[f].rec else pems[f]
    ensures CertsLoaded(prior, after, matrix[..i + 1], pems)
  {
    forall f { BundleNext(matrix, i, pems, f); }
  }

  /** One row: upsert the bundle's certificate, or flag the stored one if there is one. */
  method LoadRow(store: Store, e: TrustEntry, pems: map<Fingerprint, CertRecord>) returns (resolved: bool)
    modifies store`certs
    ensures resolved <==> e.fingerprint in pems || e.fingerprint in old(store.certs)
    ensures forall f :: f in store.certs <==> f in old(store.certs) || (f == e.fingerprint && f in pems)
    ensures forall f :: f in store.certs ==> store.certs[f].rec == if f in old(store.certs) then old(store.certs)[f].rec else pems[f]
  {
    resolved := true;
    if e.fingerprint in pems {
      ghost var pick := store.UpsertTrustAnchor(e.fingerprint, pems[e.fingerprint]);
    } else {
      resolved := store.MarkTrustAnchor(e.fingerprint);
    }
  }

  /** Upsert or mark each matrix row's certificate and collect per-store membership. */
  method LoadMatrix(store: Store, matrix: seq<TrustEntry>, pems: map<Fingerprint, CertRecord>) returns (perStore: map<StoreId, seq<Fingerprint>>)
    modifies store`certs
    ensures CertsLoaded(old(store.certs), store.certs, matrix, pems)
    ensures ListsMembers(perStore, old(store.certs).Keys, matrix, pems)
  {
    perStore := map[APPLE := [], CHROME := [], MICROSOFT := [], MOZILLA := []];
    ghost var start := store.certs;
    for i := 0 to |matrix|
      invariant CertsLoaded(start, store.certs, matrix[..i], pems)
      invariant ListsMembers(perStore, start.Keys, matrix[..i], pems)
    {
      var e := matrix[i];
      ghost var before := store.certs;
      var resolved := LoadRow(store, e, pems);
      LoadNext(start, before, store.certs, matrix, i, pems);
      CollectNext(perStore, start.Keys, matrix, i, pems);
      if resolved {
        perStore := Collect(perStore, e);
      }
    }
    assert matrix[..|matrix|] == matrix;
  }

  /** Apply the collected lists store by store, in any order. */
  method ApplyMembership(store: Store, perStore: map<StoreId, seq<Fingerprint>>)
    requires forall st, f :: st in perStore && f in perStore[st] ==> f in store.certs
    modifies store`anchors
    ensures forall a :: a in store.anchors <==>
              if a.store in perStore then a.fingerprint in perStore[a.store] else a in old(store.anchors)
  {
    var rest := perStore.Keys;
    ghost var start := store.anchors;
    while rest != {}
      invariant rest <= perStore.Keys
      invariant forall a :: a in store.anchors <==>
                  if a.store in perStore && a.store !in rest then a.fingerprint in perStore[a.store] else a in start
      decreases |rest|
    {
      var st :| st in rest;
      var ok := store.ReplaceRootStoreAnchors(st, perStore[st]);
      rest := rest - {st};
    }
  }

  /** Refresh, given the downloaded matrix and bundle. */
  method Refresh(store: Store, matrix: seq<TrustEntry>, pems: map<Fingerprint, CertRecord>)
    modifies store`certs, store`anchors
    ensures Refreshed(old(store.View()), store.View(), matrix, pems)
  {
    ghost var s := store.View();
    var perStore := LoadMatrix(store, matrix, pems);
    forall st, f | st in perStore && f in perStore[st]
      ensures f in store.certs
    {
      assert IsMember(s.certs.Keys, matrix, pems, st, f);
    }
    ApplyMembership(store, perStore);
    ghost var loaded := store.certs;
    var changed := store.ReconcileTrustAnchorFlags();
    FlagsIgnoreFlags(store.anchors, loaded, store.certs);
  }

  /** Matching anchors looks only at keys and records. */
  lemma FlagsIgnoreFlags(anchors: set<Anchor>, before: map<Fingerprint, Cert>, after: map<Fingerprint, Cert>)
    requires before.Keys == after.Keys && forall f :: f in before ==> before[f].rec == after[f].rec
    ensures forall c :: MatchesAnchor(anchors, before, c) <==> MatchesAnchor(anchors, after, c)
  {
  }

  // ---------------------------------------------------------------------------
  // Consequences
  // ---------------------------------------------------------------------------

  /** What a refresh leaves, by the columns of the matrix: a root is in a program's store exactly when
      the matrix lists it under that program's own column and its certificate came with the
      bundle or was stored before. */
  lemma {:induction false} StoresByColumns(s: Tables, t: Tables, matrix: seq<TrustEntry>, pems: map<Fingerprint, CertRecord>, f: Fingerprint)
    requires Refreshed(s, t, matrix, pems)
    ensures Anchor(StoreId("apple"), f) in t.notes.anchors <==>
              exists e :: e in matrix && e.fingerprint == f && e.inApple && (f in pems || f in s.certs)
    ensures Anchor(StoreId("chrome"), f) in t.notes.anchors <==>
              exists e :: e in matrix && e.fingerprint == f && e.inChrome && (f in pems || f in s.certs)
    ensures Anchor(StoreId("microsoft"), f) in t.notes.anchors <==>
              exists e :: e in matrix && e.fingerprint == f && e.inMicrosoft && (f in pems || f in s.certs)
    ensures Anchor(StoreId("mozilla"), f) in t.notes.anchors <==>
              exists e :: e in matrix && e.fingerprint == f && e.inMozilla && (f in pems || f in s.certs)
    ensures forall st: StoreId :: st.name !in {"apple", "chrome", "microsoft", "mozilla"} ==>
              (Anchor(st, f) in t.notes.anchors <==> Anchor(st, f) in s.notes.anchors)
  {
  }

  /** The certificates and flags a refresh leaves, by columns: the bundle's listed certificates are
      stored, no record changes, and a certificate is flagged exactly when an anchor has its
      subject and, unless one of the two has none, its key identifier. */
  lemma {:induction false} CertsByColumns(s: Tables, t: Tables, matrix: seq<TrustEntry>, pems: map<Fingerprint, CertRecord>, f: Fingerprint)
    requires Refreshed(s, t, matrix, pems)
    ensures f in t.certs <==> f in s.certs || (f in pems && exists e :: e in matrix && e.fingerprint == f)
    ensures f in t.certs ==> t.certs[f].rec == if f in s.certs then s.certs[f].rec else pems[f]
    ensures f in t.certs ==>
              (t.certs[f].trustAnchor <==>
                 exists a :: a in t.notes.anchors && a.fingerprint in t.certs
                   && t.certs[a.fingerprint].rec.subjectDn == t.certs[f].rec.subjectDn
                   && (t.certs[f].rec.subjectKeyId == "" || t.certs[a.fingerprint].rec.subjectKeyId == ""
                       || t.certs[a.fingerprint].rec.subjectKeyId == t.certs[f].rec.subjectKeyId))
    ensures t == s.(certs := t.certs, notes := s.notes.(anchors := t.notes.anchors))
  {
  }

  /** A second identical refresh changes neither anchors nor flags nor the set of certificates. */
  lemma RefreshIsIdempotent(s: Tables, t: Tables, u: Tables, matrix: seq<TrustEntry>, pems: map<Fingerprint, CertRecord>)
    requires Refreshed(s, t, matrix, pems) && Refreshed(t, u, matrix, pems)
    ensures u.notes.anchors == t.notes.anchors && u.certs.Keys == t.certs.Keys
    ensures forall f :: f in t.certs ==> u.certs[f].trustAnchor == t.certs[f].trustAnchor && u.certs[f].rec == t.certs[f].rec
  {
    forall st, f
      ensures IsMember(t.certs.Keys, matrix, pems, st, f) <==> IsMember(s.certs.Keys, matrix, pems, st, f)
    {
      MembershipStable(s, t, matrix, pems, st, f);
    }
    assert u.certs.Keys == t.certs.Keys;
    FlagsIgnoreFlags(t.notes.anchors, t.certs, u.certs);
  }

  lemma MembershipStable(s: Tables, t: Tables, matrix: seq<TrustEntry>, pems: map<Fingerprint, CertRecord>, st: StoreId, f: Fingerprint)
    requires CertsLoaded(s.certs, t.certs, matrix, pems)
    ensures IsMember(t.certs.Keys, matrix, pems, st, f) <==> IsMember(s.certs.Keys, matrix, pems, st, f)
  {
    forall e | e in matrix
      ensures Resolved(t.certs.Keys, pems, e) <==> Resolved(s.certs.Keys, pems, e)
    {
    }
  }

  /** The next nightly purge removes no anchor and nothing equivalent to one. */
  lemma PurgeSparesAnchors(s: Tables, t: Tables, matrix: seq<TrustEntry>, pems: map<Fingerprint, CertRecord>, f: Fingerprint)
    requires Refreshed(s, t, matrix, pems) && f in t.certs
    requires IsAnchor(t.notes, f) || MatchesAnchor(t.notes.anchors, t.certs, t.certs[f].rec)
    ensures f in PurgeCerts(t).certs
  {
    OnePass(t);
  }
}
