/**
 What the trust evaluator assumes of crypto/x509, at a fixed point in time: a leaf
 verifies exactly when some chain of signatures reaches a root through the
 intermediates and passes the remaining checks of section 6.1 of RFC 5280.
 */
module TrustPaths {
  import opened Base
  import opened Db

  datatype X509 = X509(der: string, isCA: bool)

  /** The library functions the evaluator calls. `verify` returns the error text, if any. */
  datatype Library = Library(
    parse: string -> Option<X509>,
    fingerprint: X509 -> Fingerprint,
    extract: X509 -> CertRecord,
    signedBy: (X509, X509) -> bool,
    acceptable: seq<X509> -> bool,
    verify: (X509, set<X509>, set<X509>) -> Option<string>)

  /** Every certificate is signed by the next, the last is a root, and those between are intermediates. */
  ghost predicate IsSignedPath(lib: Library, path: seq<X509>, leaf: X509, roots: set<X509>, intermediates: set<X509>)
  {
    && path != [] && path[0] == leaf && path[|path| - 1] in roots
    && (forall i :: 0 < i < |path| - 1 ==> path[i] in intermediates)
    && (forall i :: 0 < i < |path| ==> lib.signedBy(path[i - 1], path[i]))
  }

  ghost predicate IsTrustPath(lib: Library, path: seq<X509>, leaf: X509, roots: set<X509>, intermediates: set<X509>)
  {
    IsSignedPath(lib, path, leaf, roots, intermediates) && lib.acceptable(path)
  }

  /** The assumptions: verification is path search, fingerprints do not collide, and an
      extracted record carries a PEM that parses back to the certificate. */
  ghost predicate Sound(lib: Library)
  {
    && (forall leaf, roots, intermediates ::
          lib.verify(leaf, roots, intermediates).None? <==> exists path :: IsTrustPath(lib, path, leaf, roots, intermediates))
    && (forall x, y :: lib.fingerprint(x) == lib.fingerprint(y) ==> x == y)
    && (forall x :: lib.parse(lib.extract(x).pem) == Some(x))
  }

  /** A library that trusts exactly the roots themselves. */
  ghost function RootsOnly(): Library
  {
    Library(
      (text: string) => if text == "" then None else Some(X509(text[1..], text[0] == 'c')),
      (x: X509) => Fingerprint((if x.isCA then "c" else "e") + x.der),
      (x: X509) => CertRecord((if x.isCA then "c" else "e") + x.der, "", None, "", "", 0),
      (child: X509, parent: X509) => child == parent,
      (path: seq<X509>) => |path| == 1,
      (leaf: X509, roots: set<X509>, intermediates: set<X509>) => if leaf in roots then None else Some("unknown authority"))
  }

  lemma RootsOnlyVerifies(leaf: X509, roots: set<X509>, intermediates: set<X509>)
    ensures RootsOnly().verify(leaf, roots, intermediates).None? <==>
              exists path :: IsTrustPath(RootsOnly(), path, leaf, roots, intermediates)
  {
    if leaf in roots { assert IsTrustPath(RootsOnly(), [leaf], leaf, roots, intermediates); }
  }

  lemma RootsOnlyFingerprints(x: X509, y: X509)
    requires RootsOnly().fingerprint(x) == RootsOnly().fingerprint(y)
    ensures x == y
  {
    assert RootsOnly().fingerprint(x).sha256[1..] == x.der && RootsOnly().fingerprint(y).sha256[1..] == y.der;
  }

  /** The assumptions are consistent: some library meets them all. */
  lemma SoundIsConsistent()
    ensures Sound(RootsOnly())
  {
    var lib := RootsOnly();
    forall leaf, roots, intermediates
      ensures lib.verify(leaf, roots, intermediates).None? <==> exists path :: IsTrustPath(lib, path, leaf, roots, intermediates)
    {
      RootsOnlyVerifies(leaf, roots, intermediates);
    }
    forall x, y | lib.fingerprint(x) == lib.fingerprint(y)
      ensures x == y
    {
      RootsOnlyFingerprints(x, y);
    }
  }

  /** One program's verdict. */
  function Judge(lib: Library, leaf: X509, roots: set<X509>, intermediates: set<X509>): Verdict
  {
    match lib.verify(leaf, roots, intermediates)
    case None => Verdict(true, "")
    case Some(reason) => Verdict(false, reason)
  }

  /** A larger pool never loses a path. */
  lemma MorePathsWithMoreIntermediates(lib: Library, leaf: X509, roots: set<X509>, few: set<X509>, many: set<X509>)
    requires Sound(lib) && few <= many && Judge(lib, leaf, roots, few).trusted
    ensures Judge(lib, leaf, roots, many).trusted
  {
    var path :| IsTrustPath(lib, path, leaf, roots, few);
    assert IsTrustPath(lib, path, leaf, roots, many);
  }

  /** An intermediate with no signed path to a root changes no verdict. */
  lemma DeadEndChangesNothing(lib: Library, leaf: X509, roots: set<X509>, pool: set<X509>, added: X509)
    requires Sound(lib)
    requires forall path :: !IsSignedPath(lib, path, added, roots, pool + {added})
    ensures Judge(lib, leaf, roots, pool + {added}).trusted == Judge(lib, leaf, roots, pool).trusted
  {
    if Judge(lib, leaf, roots, pool).trusted {
      MorePathsWithMoreIntermediates(lib, leaf, roots, pool, pool + {added});
    }
    if Judge(lib, leaf, roots, pool + {added}).trusted {
      var path :| IsTrustPath(lib, path, leaf, roots, pool + {added});
      forall i | 0 < i < |path| - 1
        ensures path[i] in pool
      {
        if path[i] == added {
          assert IsSignedPath(lib, path[i..], added, roots, pool + {added});
        }
      }
      assert IsTrustPath(lib, path, leaf, roots, pool);
    }
  }
}
