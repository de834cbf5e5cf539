/** Identifiers and wrappers shared by every part of the model. */
module Base {

  datatype Option<+T> = None | Some(value: T)

  // Keys of the tables. Each wraps the textual key the database stores.
  datatype Fingerprint = Fingerprint(sha256: string)
  datatype UserId = UserId(uuid: string)
  datatype EndpointId = EndpointId(uuid: string)
  datatype ScannerId = ScannerId(uuid: string)
  datatype StoreId = StoreId(name: string)

  ghost predicate NoDuplicates<T(!new)>(s: seq<T>)
  {
    forall i, j :: 0 <= i < j < |s| ==> s[i] != s[j]
  }

  /** A duplicate-free sequence drawn from a finite set is no longer than the set. */
  lemma {:induction false} DistinctFits<T(!new)>(s: seq<T>, pool: set<T>)
    requires NoDuplicates(s)
    requires forall x :: x in s ==> x in pool
    ensures |s| <= |pool|
  {
    if s != [] {
      var last := s[|s| - 1];
      var rest := s[..|s| - 1];
      assert last in pool;
      forall x | x in rest
        ensures x in pool - {last}
      {
        var i :| 0 <= i < |rest| && rest[i] == x;
        assert s[i] == x && s[i] != last;
      }
      DistinctFits(rest, pool - {last});
    }
  }
}
