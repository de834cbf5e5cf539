/**
 Concurrent upserts of one (endpoint, use) pair. UpsertEndpointCert is a READ COMMITTED
 transaction of two statements: roll over the certificates its snapshot shows as current,
 waiting for rows other transactions hold and looking at them again, then upsert its own
 row. No unique index guards is_current. Writes become visible at commit; rows written stay
 locked until then. (RecordScanResult first updates the endpoint's own row, so scans of one
 endpoint wait for each other.)
 */
module LinkRaces {
  import opened Base

  type TxId = nat

  /** A committed row of the pair. `since` is the step at which it last became current. */
  datatype Row = Row(current: bool, since: nat)

  datatype Phase =
    | Started                                           // snapshot taken, roll-over not done
    | RolledOver(rolled: set<Fingerprint>, at: nat)     // first statement done at step `at`
    | Upserted(rolled: set<Fingerprint>, at: nat)       // own row written

  /** `targets` are the other certificates the snapshot of step `begun` shows as current. */
  datatype Tx = Tx(cert: Fingerprint, begun: nat, targets: set<Fingerprint>, phase: Phase)

  datatype State = State(rows: map<Fingerprint, Row>, open: map<TxId, Tx>, clock: nat)

  datatype Action =
    | Begin(t: TxId, cert: Fingerprint)
    | RollOver(t: TxId)
    | Upsert(t: TxId)
    | Commit(t: TxId)
    | Abort(t: TxId)

  predicate Current(rows: map<Fingerprint, Row>, f: Fingerprint)
  {
    f in rows && rows[f].current
  }

  /** The rows a transaction has written. */
  function Locks(tx: Tx): set<Fingerprint>
  {
    match tx.phase
    case Started => {}
    case RolledOver(rolled, _) => rolled
    case Upserted(rolled, _) => rolled + {tx.cert}
  }

  /** No other transaction holds the row. */
  ghost predicate Free(s: State, t: TxId, f: Fingerprint)
  {
    forall u :: u in s.open && u != t ==> f !in Locks(s.open[u])
  }

  /** Statements in order, each waiting for the rows it writes. */
  ghost predicate Possible(s: State, a: Action)
  {
    match a
    case Begin(t, _) => t !in s.open
    case RollOver(t) => t in s.open && s.open[t].phase.Started? && forall f :: f in s.open[t].targets ==> Free(s, t, f)
    case Upsert(t) => t in s.open && s.open[t].phase.RolledOver? && Free(s, t, s.open[t].cert)
    case Commit(t) => t in s.open && s.open[t].phase.Upserted?
    case Abort(t) => t in s.open
  }

  function Committed(rows: map<Fingerprint, Row>, tx: Tx, now: nat): map<Fingerprint, Row>
    requires tx.phase.Upserted?
  {
    map f | f in rows.Keys + {tx.cert} ::
      if f == tx.cert then (if Current(rows, f) then rows[f] else Row(true, now))
      else if f in tx.phase.rolled then Row(false, rows[f].since)
      else rows[f]
  }

  /** The other certificates a snapshot shows as current. */
  function Others(rows: map<Fingerprint, Row>, cert: Fingerprint): set<Fingerprint>
  {
    set f | f in rows && Current(rows, f) && f != cert
  }

  /** Those that are current when the statement gets hold of them. */
  function StillCurrent(rows: map<Fingerprint, Row>, targets: set<Fingerprint>): set<Fingerprint>
  {
    set f | f in targets && Current(rows, f)
  }

  ghost function Step(s: State, a: Action): State
  {
    var next := s.(clock := s.clock + 1);
    if !Possible(s, a) then next else
    match a
    case Begin(t, cert) =>
      next.(open := s.open[t := Tx(cert, s.clock, Others(s.rows, cert), Started)])
    case RollOver(t) =>
      var tx := s.open[t];
      next.(open := s.open[t := tx.(phase := RolledOver(StillCurrent(s.rows, tx.targets), s.clock))])
    case Upsert(t) =>
      var tx := s.open[t];
      next.(open := s.open[t := tx.(phase := Upserted(tx.phase.rolled, tx.phase.at))])
    case Commit(t) => next.(rows := Committed(s.rows, s.open[t], s.clock), open := s.open - {t})
    case Abort(t) => next.(open := s.open - {t})
  }

  ghost function Before(s: State, run: seq<Action>, n: nat): State
    requires n <= |run|
  {
    if n == 0 then s else Step(Before(s, run, n - 1), run[n - 1])
  }

  /** At most one certificate of the pair is current. */
  ghost predicate AtMostOne(rows: map<Fingerprint, Row>)
  {
    forall f, g :: Current(rows, f) && Current(rows, g) ==> f == g
  }

  /** No transaction is open and no row is from the future. */
  ghost predicate Quiescent(s: State)
  {
    s.open == map[] && s.clock == 1 && forall f :: f in s.rows ==> s.rows[f].since == 0
  }

  // ---------------------------------------------------------------------------
  // Invariant
  // ---------------------------------------------------------------------------

  /** The certificate became current behind the transaction's back: after its roll-over, or since
      its snapshot without having been current then. */
  predicate SlippedIn(rows: map<Fingerprint, Row>, tx: Tx, f: Fingerprint)
    requires !tx.phase.Started?
  {
    Current(rows, f) && f != tx.cert &&
    (rows[f].since > tx.phase.at || (rows[f].since > tx.begun && f !in tx.targets))
  }

  /** What a transaction knows about one row. */
  ghost predicate Tracks(rows: map<Fingerprint, Row>, tx: Tx, f: Fingerprint)
  {
    match tx.phase
    case Started => Current(rows, f) && f != tx.cert ==> f in tx.targets || rows[f].since > tx.begun
    case _ =>
      && (f in tx.phase.rolled ==> Current(rows, f) && f in tx.targets && f != tx.cert && rows[f].since < tx.phase.at)
      && (Current(rows, f) && f != tx.cert ==> f in tx.phase.rolled || SlippedIn(rows, tx, f))
  }

  ghost predicate TxOk(s: State, t: TxId)
    requires t in s.open
  {
    && s.open[t].cert !in s.open[t].targets
    && s.open[t].begun < s.clock && (!s.open[t].phase.Started? ==> s.open[t].begun <= s.open[t].phase.at < s.clock)
    && (forall f :: Tracks(s.rows, s.open[t], f))
    && (forall f :: f in Locks(s.open[t]) ==> Free(s, t, f))
  }

  ghost predicate Inv(s: State)
  {
    && (forall f :: f in s.rows ==> s.rows[f].since < s.clock)
    && (forall t :: t in s.open ==> TxOk(s, t))
  }

  /** Another transaction's commit changes what this one knows only by slipping in. */
  lemma {:induction false} CommitKeepsTracks(s: State, t: TxId, u: TxId, f: Fingerprint)
    requires Inv(s) && t in s.open && u in s.open && t != u && s.open[u].phase.Upserted?
    ensures Tracks(Committed(s.rows, s.open[u], s.clock), s.open[t], f)
  {
    assert TxOk(s, t) && TxOk(s, u);
    assert Tracks(s.rows, s.open[t], f);
    if f in Locks(s.open[t]) { assert Free(s, t, f); }
  }

  lemma {:induction false} CommitKeepsInv(s: State, u: TxId)
    requires Inv(s) && Possible(s, Commit(u))
    ensures Inv(Step(s, Commit(u)))
  {
    var after := Step(s, Commit(u));
    forall t | t in after.open
      ensures TxOk(after, t)
    {
      assert TxOk(s, t);
      forall f ensures Tracks(after.rows, after.open[t], f) { CommitKeepsTracks(s, t, u, f); }
      forall f | f in Locks(after.open[t]) ensures Free(after, t, f) { assert Free(s, t, f); }
    }
  }

  lemma {:induction false} AbortKeepsInv(s: State, u: TxId)
    requires Inv(s) && Possible(s, Abort(u))
    ensures Inv(Step(s, Abort(u)))
  {
    var after := Step(s, Abort(u));
    forall t | t in after.open
      ensures TxOk(after, t)
    {
      assert TxOk(s, t);
      forall f | f in Locks(after.open[t]) ensures Free(after, t, f) { assert Free(s, t, f); }
    }
  }

  /** A statement of transaction `u` that writes no committed row, and locks only free rows. */
  lemma {:induction false} StatementKeepsInv(s: State, u: TxId, tx: Tx)
    requires Inv(s) && tx.cert !in tx.targets && tx.begun < s.clock + 1 && (!tx.phase.Started? ==> tx.begun <= tx.phase.at < s.clock + 1)
    requires forall f :: Tracks(s.rows, tx, f)
    requires forall f :: f in Locks(tx) ==> Free(s, u, f)
    ensures Inv(s.(open := s.open[u := tx], clock := s.clock + 1))
  {
    var after := s.(open := s.open[u := tx], clock := s.clock + 1);
    forall t | t in after.open
      ensures TxOk(after, t)
    {
      if t != u {
        assert TxOk(s, t);
        forall f | f in Locks(after.open[t])
          ensures Free(after, t, f)
        {
          assert Free(s, t, f);
          assert f in Locks(tx) ==> Free(s, u, f);
        }
      } else {
        forall f | f in Locks(tx) ensures Free(after, u, f) { assert Free(s, u, f); }
      }
    }
  }

  lemma {:induction false} BeginKeepsInv(s: State, u: TxId, cert: Fingerprint)
    requires Inv(s) && Possible(s, Begin(u, cert))
    ensures Inv(Step(s, Begin(u, cert)))
  {
    StatementKeepsInv(s, u, Step(s, Begin(u, cert)).open[u]);
  }

  lemma {:induction false} RollOverKeepsInv(s: State, u: TxId)
    requires Inv(s) && Possible(s, RollOver(u))
    ensures Inv(Step(s, RollOver(u)))
  {
    assert TxOk(s, u);
    var tx := Step(s, RollOver(u)).open[u];
    forall f
      ensures Tracks(s.rows, tx, f)
    {
      assert Tracks(s.rows, s.open[u], f);
    }
    StatementKeepsInv(s, u, tx);
  }

  lemma {:induction false} UpsertKeepsInv(s: State, u: TxId)
    requires Inv(s) && Possible(s, Upsert(u))
    ensures Inv(Step(s, Upsert(u)))
  {
    assert TxOk(s, u);
    var tx := Step(s, Upsert(u)).open[u];
    forall f
      ensures Tracks(s.rows, tx, f)
    {
      assert Tracks(s.rows, s.open[u], f);
    }
    forall f | f in Locks(tx)
      ensures Free(s, u, f)
    {
      if f != tx.cert { assert f in Locks(s.open[u]); }
    }
    StatementKeepsInv(s, u, tx);
  }

  lemma {:induction false} IdleKeepsInv(s: State)
    requires Inv(s)
    ensures Inv(s.(clock := s.clock + 1))
  {
    var after := s.(clock := s.clock + 1);
    forall t | t in after.open
      ensures TxOk(after, t)
    {
      assert TxOk(s, t);
      forall f | f in Locks(after.open[t]) ensures Free(after, t, f) { assert Free(s, t, f); }
    }
  }

  lemma {:induction false} StepKeepsInv(s: State, a: Action)
    requires Inv(s)
    ensures Inv(Step(s, a))
  {
    if !Possible(s, a) {
      IdleKeepsInv(s);
    } else {
      match a
      case Begin(t, cert) => BeginKeepsInv(s, t, cert);
      case RollOver(t) => RollOverKeepsInv(s, t);
      case Upsert(t) => UpsertKeepsInv(s, t);
      case Commit(t) => CommitKeepsInv(s, t);
      case Abort(t) => AbortKeepsInv(s, t);
    }
  }

  lemma {:induction false} RunKeepsInv(s: State, run: seq<Action>, n: nat)
    requires Quiescent(s) && n <= |run|
    ensures Inv(Before(s, run, n)) && Before(s, run, n).clock == n + 1
  {
    if n > 0 {
      RunKeepsInv(s, run, n - 1);
      StepKeepsInv(Before(s, run, n - 1), run[n - 1]);
    }
  }

  // ---------------------------------------------------------------------------
  // When two certificates become current
  // ---------------------------------------------------------------------------

  /** The step commits a transaction behind whose back another certificate became current. */
  ghost predicate CommitsRaced(s: State, a: Action)
  {
    a.Commit? && Possible(s, a) && exists f :: SlippedIn(s.rows, s.open[a.t], f)
  }

  lemma {:induction false} CommitKeepsOneIff(s: State, t: TxId)
    requires Inv(s) && AtMostOne(s.rows) && Possible(s, Commit(t))
    ensures AtMostOne(Step(s, Commit(t)).rows) <==> !CommitsRaced(s, Commit(t))
  {
    var tx, after := s.open[t], Step(s, Commit(t)).rows;
    assert TxOk(s, t);
    assert Current(after, tx.cert);
    if f :| SlippedIn(s.rows, tx, f) {
      assert Tracks(s.rows, tx, f);
      assert f !in tx.phase.rolled;
      assert Current(after, f);
    }
    if !CommitsRaced(s, Commit(t)) {
      forall f | Current(after, f)
        ensures f == tx.cert
      {
        assert Tracks(s.rows, tx, f);
        assert !SlippedIn(s.rows, tx, f);
      }
    }
  }

  lemma {:induction false} StepKeepsOneIff(s: State, a: Action)
    requires Inv(s) && AtMostOne(s.rows)
    ensures AtMostOne(Step(s, a).rows) <==> !CommitsRaced(s, a)
  {
    if a.Commit? && Possible(s, a) { CommitKeepsOneIff(s, a.t); }
  }

  ghost predicate OneAt(s: State, run: seq<Action>, k: nat)
    requires k <= |run|
  {
    AtMostOne(Before(s, run, k).rows)
  }

  ghost predicate RacedAt(s: State, run: seq<Action>, k: nat)
    requires k < |run|
  {
    CommitsRaced(Before(s, run, k), run[k])
  }

  /** A run keeps at most one current certificate throughout exactly when no commit is raced. */
  lemma {:induction false} RunKeepsOneIff(s: State, run: seq<Action>, n: nat)
    requires Quiescent(s) && AtMostOne(s.rows) && n <= |run|
    ensures (forall k :: 0 <= k <= n ==> OneAt(s, run, k)) <==> (forall k :: 0 <= k < n ==> !RacedAt(s, run, k))
  {
    if n == 0 {
      assert OneAt(s, run, 0);
    } else {
      RunKeepsOneIff(s, run, n - 1);
      if forall k :: 0 <= k <= n - 1 ==> OneAt(s, run, k) {
        assert OneAt(s, run, n - 1);
        RunKeepsInv(s, run, n - 1);
        StepKeepsOneIff(Before(s, run, n - 1), run[n - 1]);
        assert OneAt(s, run, n) <==> !RacedAt(s, run, n - 1);
      }
    }
  }

  // ---------------------------------------------------------------------------
  // Where a race comes from
  // ---------------------------------------------------------------------------

  /** Step `k - 1` commits a transaction for the certificate. */
  ghost predicate CommitsAt(s: State, run: seq<Action>, k: nat, f: Fingerprint)
    requires 0 < k <= |run|
  {
    var b := Before(s, run, k - 1);
    run[k - 1].Commit? && Possible(b, run[k - 1]) && b.open[run[k - 1].t].cert == f
  }

  /** A row that became current during the run did so at a commit for it. */
  lemma {:induction false} SinceIsCommit(s: State, run: seq<Action>, n: nat, f: Fingerprint)
    requires Quiescent(s) && n <= |run| && Current(Before(s, run, n).rows, f) && Before(s, run, n).rows[f].since > 0
    ensures 0 < Before(s, run, n).rows[f].since <= n && CommitsAt(s, run, Before(s, run, n).rows[f].since, f)
  {
    if n > 0 {
      RunKeepsInv(s, run, n - 1);
      var b := Before(s, run, n - 1);
      if Current(b.rows, f) && b.rows[f].since == Before(s, run, n).rows[f].since {
        SinceIsCommit(s, run, n - 1, f);
      }
    }
  }

  /** A raced commit has another certificate's commit inside its own transaction, so
      transactions that run one after the other keep at most one current. */
  lemma {:induction false} RaceOverlaps(s: State, run: seq<Action>, k: nat) returns (f: Fingerprint, i: nat)
    requires Quiescent(s) && k < |run| && RacedAt(s, run, k)
    ensures var tx := Before(s, run, k).open[run[k].t];
            f != tx.cert && tx.begun < i <= k && CommitsAt(s, run, i, f)
  {
    var b := Before(s, run, k);
    RunKeepsInv(s, run, k);
    var tx := b.open[run[k].t];
    assert TxOk(b, run[k].t);
    f :| SlippedIn(b.rows, tx, f);
    i := b.rows[f].since;
    assert Tracks(b.rows, tx, f);
    SlippedAfterBegin(b, run[k].t, f);
    SinceIsCommit(s, run, k, f);
  }

  lemma {:induction false} SlippedAfterBegin(s: State, t: TxId, f: Fingerprint)
    requires t in s.open && !s.open[t].phase.Started? && SlippedIn(s.rows, s.open[t], f)
    requires s.open[t].begun <= s.open[t].phase.at
    ensures s.rows[f].since > s.open[t].begun
  {
  }

  // ---------------------------------------------------------------------------
  // A race
  // ---------------------------------------------------------------------------

  function Start(): State
  {
    State(map[], map[], 1)
  }

  /** Two uploads for one pair, each before the other commits. */
  function Uploads(a: Fingerprint, b: Fingerprint): seq<Action>
  {
    [Begin(0, a), RollOver(0), Upsert(0), Begin(1, b), RollOver(1), Upsert(1), Commit(0), Commit(1)]
  }

  lemma NothingToRollOver(cert: Fingerprint)
    ensures Others(map[], cert) == {} && StillCurrent(map[], {}) == {}
  {
  }

  lemma {:induction false} FirstUpload(a: Fingerprint, b: Fingerprint)
    requires a != b
    ensures Before(Start(), Uploads(a, b), 3) == State(map[], map[0 := Tx(a, 1, {}, Upserted({}, 2))], 4)
  {
    var run := Uploads(a, b);
    NothingToRollOver(a);
    assert Before(Start(), run, 1) == State(map[], map[0 := Tx(a, 1, {}, Started)], 2);
    assert Before(Start(), run, 2) == State(map[], map[0 := Tx(a, 1, {}, RolledOver({}, 2))], 3);
  }

  lemma {:induction false} SecondUpload(a: Fingerprint, b: Fingerprint)
    requires a != b
    ensures Before(Start(), Uploads(a, b), 6) ==
              State(map[], map[0 := Tx(a, 1, {}, Upserted({}, 2)), 1 := Tx(b, 4, {}, Upserted({}, 5))], 7)
  {
    var run := Uploads(a, b);
    var first := Tx(a, 1, {}, Upserted({}, 2));
    FirstUpload(a, b);
    NothingToRollOver(b);
    assert Before(Start(), run, 4) == State(map[], map[0 := first, 1 := Tx(b, 4, {}, Started)], 5);
    assert Before(Start(), run, 5) == State(map[], map[0 := first, 1 := Tx(b, 4, {}, RolledOver({}, 5))], 6);
  }

  /** Both certificates end up current. */
  lemma {:induction false} TwoUploadsBothCurrent(a: Fingerprint, b: Fingerprint)
    requires a != b
    ensures Quiescent(Start())
    ensures var rows := Before(Start(), Uploads(a, b), 8).rows; Current(rows, a) && Current(rows, b)
  {
    var run := Uploads(a, b);
    SecondUpload(a, b);
    assert Before(Start(), run, 7) == State(map[a := Row(true, 7)], map[1 := Tx(b, 4, {}, Upserted({}, 5))], 8);
  }
}
