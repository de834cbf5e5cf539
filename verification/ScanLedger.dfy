/**
 The scan ledger is a compressed form of the scan stream, and retention only ever
 shortens it from the old end. Also the per-endpoint scan state derived from the
 same stream.
 */
module ScanLedger {
  import opened Base
  import opened FleetTables
  import opened Db
  import opened Runs

  /** Two results the ledger does not tell apart. */
  predicate Equivalent(a: Scan, b: Scan)
  {
    a.fingerprint == b.fingerprint && a.tlsVersion == b.tlsVersion && a.resolvedIp == b.resolvedIp &&
    (a.error.None? <==> b.error.None?)
  }

  /** The stream with every result equivalent to the one just before it removed. */
  ghost function Compress(scans: seq<ScanRow>): seq<ScanRow>
  {
    if |scans| <= 1 then scans
    else
      var n := |scans| - 1;
      Compress(scans[..n]) + (if Equivalent(scans[n - 1].scan, scans[n].scan) then [] else [scans[n]])
  }

  ghost predicate IsSuffix(part: seq<ScanRow>, whole: seq<ScanRow>)
  {
    |part| <= |whole| && part == whole[|whole| - |part|..]
  }

  /** The ledger rows are the end of the compressed stream, and never lose its newest row. */
  ghost predicate Represents(rows: seq<ScanRow>, scans: seq<ScanRow>)
  {
    IsSuffix(rows, Compress(scans)) && (scans != [] ==> rows != [])
  }

  // ---------------------------------------------------------------------------
  // One endpoint's rows
  // ---------------------------------------------------------------------------

  lemma {:induction false} NewestIsLast(rows: seq<ScanRow>)
    requires rows != [] && Ascending(rows)
    ensures Newest(rows) == rows[|rows| - 1]
  {
    var last := rows[|rows| - 1];
    assert last in rows;
    var i :| 0 <= i < |rows| && rows[i] == Newest(rows);
  }

  /** The newest compressed row is equivalent to the newest result. */
  lemma {:induction false} CompressEnds(scans: seq<ScanRow>)
    requires scans != []
    ensures Compress(scans) != []
    ensures var c := Compress(scans); Equivalent(c[|c| - 1].scan, scans[|scans| - 1].scan)
  {
    if |scans| > 1 { CompressEnds(scans[..|scans| - 1]); }
  }

  /** Neighbouring rows of the compressed stream differ. */
  lemma {:induction false} CompressDistinct(scans: seq<ScanRow>)
    ensures var c := Compress(scans); forall i :: 0 < i < |c| ==> !Equivalent(c[i - 1].scan, c[i].scan)
  {
    if |scans| > 1 {
      CompressDistinct(scans[..|scans| - 1]);
      CompressEnds(scans[..|scans| - 1]);
    }
  }

  lemma {:induction false} CompressAppend(scans: seq<ScanRow>, row: ScanRow)
    ensures Compress(scans + [row]) ==
              Compress(scans) + (if scans != [] && Equivalent(scans[|scans| - 1].scan, row.scan) then [] else [row])
  {
    var all := scans + [row];
    assert all[..|scans|] == scans;
  }

  lemma {:induction false} SuffixAppend(part: seq<ScanRow>, whole: seq<ScanRow>, row: ScanRow)
    requires IsSuffix(part, whole)
    ensures IsSuffix(part + [row], whole + [row])
  {
  }

  lemma ChangedMeansNotEquivalent(rows: seq<ScanRow>, scan: Scan)
    requires rows != []
    ensures Changed(rows, scan) <==> !Equivalent(Newest(rows).scan, scan)
  {
  }

  lemma EquivalentSteps(a: Scan, b: Scan, c: Scan)
    requires Equivalent(a, b)
    ensures Equivalent(a, c) <==> Equivalent(b, c)
  {
  }

  /** Comparing with the newest row decides the same as comparing with the newest result. */
  lemma {:induction false} ChangedIffNew(rows: seq<ScanRow>, scans: seq<ScanRow>, scan: Scan)
    requires Represents(rows, scans) && Ascending(rows)
    ensures Changed(rows, scan) <==> scans == [] || !Equivalent(scans[|scans| - 1].scan, scan)
  {
    if scans != [] {
      CompressEnds(scans);
      var c := Compress(scans);
      assert rows[|rows| - 1] == c[|c| - 1];
      EquivalentSteps(rows[|rows| - 1].scan, scans[|scans| - 1].scan, scan);
      NewestIsLast(rows);
      ChangedMeansNotEquivalent(rows, scan);
    }
  }

  lemma {:induction false} SuffixOfTail(part: seq<ScanRow>, rows: seq<ScanRow>)
    requires rows != [] && IsSuffix(part, rows[1..])
    ensures IsSuffix(part, rows)
  {
    assert rows[1..][|rows| - 1 - |part|..] == rows[|rows| - |part|..];
  }

  /** Every row after one that stays also stays. */
  ghost predicate KeepsLater(rows: seq<ScanRow>, keep: ScanRow -> bool)
  {
    forall i, j :: 0 <= i < j < |rows| && keep(rows[i]) ==> keep(rows[j])
  }

  lemma KeepsLaterTail(rows: seq<ScanRow>, keep: ScanRow -> bool)
    requires KeepsLater(rows, keep) && rows != []
    ensures KeepsLater(rows[1..], keep)
    ensures keep(rows[0]) ==> forall r :: r in rows ==> keep(r)
  {
  }

  /** Filtering an ascending ledger by a lower time bound keeps its end. */
  lemma {:induction false} KeepIsSuffix(rows: seq<ScanRow>, keep: ScanRow -> bool)
    requires KeepsLater(rows, keep)
    ensures IsSuffix(Keep(rows, keep), rows)
  {
    if rows != [] {
      KeepsLaterTail(rows, keep);
      if keep(rows[0]) {
        KeepAll(rows, keep);
      } else {
        KeepIsSuffix(rows[1..], keep);
        assert Keep(rows, keep) == Keep(rows[1..], keep);
        SuffixOfTail(Keep(rows[1..], keep), rows);
      }
    }
  }

  lemma {:induction false} KeepAll(rows: seq<ScanRow>, keep: ScanRow -> bool)
    requires forall r :: r in rows ==> keep(r)
    ensures Keep(rows, keep) == rows
  {
    if rows != [] { KeepAll(rows[1..], keep); }
  }

  lemma {:induction false} RetainIsSuffix(rows: seq<ScanRow>, cutoff: int)
    requires Ascending(rows)
    ensures IsSuffix(Retain(rows, cutoff), rows) && (rows != [] ==> Retain(rows, cutoff) != [])
  {
    if rows != [] {
      NewestIsLast(rows);
      var newest := Newest(rows);
      var keep := (r: ScanRow) => r.at >= cutoff || r == newest;
      KeepIsSuffix(rows, keep);
      assert newest in Keep(rows, keep);
    }
  }

  lemma {:induction false} RetainRepresents(rows: seq<ScanRow>, scans: seq<ScanRow>, cutoff: int)
    requires Represents(rows, scans) && Ascending(rows)
    ensures Represents(Retain(rows, cutoff), scans)
  {
    RetainIsSuffix(rows, cutoff);
    var kept, whole := Retain(rows, cutoff), Compress(scans);
    assert whole[|whole| - |rows|..][|rows| - |kept|..] == whole[|whole| - |kept|..];
  }

  lemma AppendAscending(rows: seq<ScanRow>, row: ScanRow)
    requires Ascending(rows) && forall r :: r in rows ==> r.at < row.at
    ensures Ascending(rows + [row])
  {
  }

  /** Compressing keeps the clock order. */
  lemma {:induction false} CompressAscending(scans: seq<ScanRow>)
    requires Ascending(scans)
    ensures Ascending(Compress(scans)) && forall r :: r in Compress(scans) ==> r.at <= scans[|scans| - 1].at
  {
    if |scans| > 1 {
      var n := |scans| - 1;
      CompressAscending(scans[..n]);
      assert scans[n - 1].at < scans[n].at;
      AppendAscending(Compress(scans[..n]), scans[n]);
    }
  }

  // ---------------------------------------------------------------------------
  // Event streams
  // ---------------------------------------------------------------------------

  /** What a step means for one endpoint's ledger. */
  datatype Event = Result(row: ScanRow) | Retention(cutoff: int) | Unrelated

  function ApplyEvent(rows: seq<ScanRow>, event: Event): seq<ScanRow>
  {
    match event
    case Result(row) => if Changed(rows, row.scan) then rows + [row] else rows
    case Retention(cutoff) => Retain(rows, cutoff)
    case Unrelated => rows
  }

  /** The rows left by a stream of events, starting from none. */
  ghost function Ledger(events: seq<Event>): seq<ScanRow>
  {
    if events == [] then [] else ApplyEvent(Ledger(events[..|events| - 1]), events[|events| - 1])
  }

  lemma LedgerNext(events: seq<Event>, event: Event)
    ensures Ledger(events + [event]) == ApplyEvent(Ledger(events), event)
  {
    assert (events + [event])[..|events|] == events;
  }

  function ResultsOf(event: Event): seq<ScanRow>
  {
    if event.Result? then [event.row] else []
  }

  ghost function Results(events: seq<Event>): seq<ScanRow>
  {
    if events == [] then [] else Results(events[..|events| - 1]) + ResultsOf(events[|events| - 1])
  }

  lemma {:induction false} SameResultRepresents(rows: seq<ScanRow>, scans: seq<ScanRow>, row: ScanRow)
    requires Represents(rows, scans) && scans != [] && Equivalent(scans[|scans| - 1].scan, row.scan)
    ensures Represents(rows, scans + [row]) && Compress(scans + [row]) == Compress(scans)
  {
    CompressAppend(scans, row);
  }

  lemma {:induction false} NewResultRepresents(rows: seq<ScanRow>, scans: seq<ScanRow>, row: ScanRow)
    requires Represents(rows, scans) && (scans == [] || !Equivalent(scans[|scans| - 1].scan, row.scan))
    ensures Represents(rows + [row], scans + [row]) && Compress(scans + [row]) == Compress(scans) + [row]
  {
    CompressAppend(scans, row);
    SuffixAppend(rows, Compress(scans), row);
  }

  lemma {:induction false} EventRepresents(rows: seq<ScanRow>, scans: seq<ScanRow>, event: Event)
    requires Represents(rows, scans) && Ascending(rows)
    ensures Represents(ApplyEvent(rows, event), scans + ResultsOf(event))
    ensures !event.Retention? && rows == Compress(scans) ==> ApplyEvent(rows, event) == Compress(scans + ResultsOf(event))
  {
    match event
    case Result(row) =>
      ChangedIffNew(rows, scans, row.scan);
      if Changed(rows, row.scan) { NewResultRepresents(rows, scans, row); } else { SameResultRepresents(rows, scans, row); }
    case Retention(cutoff) =>
      RetainRepresents(rows, scans, cutoff);
      assert scans + [] == scans;
    case Unrelated =>
      assert scans + [] == scans;
  }

  lemma SuffixAscending(part: seq<ScanRow>, whole: seq<ScanRow>)
    requires IsSuffix(part, whole) && Ascending(whole)
    ensures Ascending(part)
  {
  }

  /** With retention interleaved anywhere, the ledger is a non-empty end of the compressed results. */
  lemma {:induction false} LedgerRepresentsResults(events: seq<Event>)
    requires Ascending(Results(events))
    ensures Represents(Ledger(events), Results(events))
  {
    if events != [] {
      var n := |events| - 1;
      var earlier := Results(events[..n]);
      assert earlier == Results(events)[..|earlier|];
      LedgerRepresentsResults(events[..n]);
      CompressAscending(earlier);
      SuffixAscending(Ledger(events[..n]), Compress(earlier));
      EventRepresents(Ledger(events[..n]), earlier, events[n]);
    }
  }

  /** Without retention it is exactly the compressed results. */
  lemma {:induction false} LedgerIsCompressed(events: seq<Event>)
    requires Ascending(Results(events)) && forall i :: 0 <= i < |events| ==> !events[i].Retention?
    ensures Ledger(events) == Compress(Results(events))
  {
    if events != [] {
      var n := |events| - 1;
      var earlier := Results(events[..n]);
      assert earlier == Results(events)[..|earlier|];
      LedgerIsCompressed(events[..n]);
      LedgerRepresentsResults(events[..n]);
      CompressAscending(earlier);
      EventRepresents(Ledger(events[..n]), earlier, events[n]);
    }
  }

  // ---------------------------------------------------------------------------
  // Whole runs
  // ---------------------------------------------------------------------------

  function EventOf(s: Tables, step: Step, e: EndpointId): Event
  {
    if !step.OnScans? then Unrelated
    else
      match step.scan
      case RecordScanResult(x, scan) =>
        if x == e && !ScanRejected(s, e, scan) then Result(ScanRow(s.now, scan)) else Unrelated
      case PurgeScanHistory(days) => Retention(Cutoff(s.now, days))
      case UpsertEndpointCert(_, _, _) => Unrelated
  }

  /** What the first `n` steps mean for the endpoint. */
  ghost function Events(s: Tables, steps: seq<Step>, n: nat, e: EndpointId): (events: seq<Event>)
    requires n <= |steps|
    ensures |events| == n
  {
    if n == 0 then [] else Events(s, steps, n - 1, e) + [EventOf(After(s, steps, n - 1), steps[n - 1], e)]
  }

  predicate Deletes(step: Step, e: EndpointId)
  {
    step.OnFleet? && step.op.DeleteEndpoint? && step.op.e == e
  }

  /** A purge of a certificate the endpoint's rows name. */
  predicate PurgesSeen(s: Tables, step: Step, e: EndpointId)
  {
    step.OnPurge? && step.purge.PurgeCertificate? && Seen(Rows(s.obs.history, e), step.purge.f)
  }

  /** The step neither deletes the endpoint nor purges a certificate its rows name. */
  ghost predicate UndisturbedAt(s: Tables, steps: seq<Step>, i: nat, e: EndpointId)
    requires i < |steps|
  {
    !Deletes(steps[i], e) && !PurgesSeen(After(s, steps, i), steps[i], e)
  }

  /** Purging a certificate leaves alone the rows of an endpoint that never saw it. */
  lemma {:induction false} PurgeCertRows(s: Tables, f: Fingerprint, e: EndpointId)
    requires !Seen(Rows(s.obs.history, e), f)
    ensures Rows(PurgeCert(s, f).obs.history, e) == Rows(s.obs.history, e)
  {
    var rows := Rows(s.obs.history, e);
    KeepAll(rows, (r: ScanRow) => r.scan.fingerprint != Some(f));
  }

  /** A step changes the endpoint's rows as its event says. */
  lemma {:induction false} StepRows(s: Tables, step: Step, e: EndpointId)
    requires !Deletes(step, e) && !PurgesSeen(s, step, e)
    ensures Rows(Apply(s, step).obs.history, e) == ApplyEvent(Rows(s.obs.history, e), EventOf(s, step, e))
  {
    if step.OnPurge? && step.purge.PurgeCertificate? {
      PurgeCertRows(s, step.purge.f, e);
    } else if step.OnPurge? || step.OnCerts? || step.OnNotes? || step.Elapse? {
      assert Apply(s, step).obs == s.obs;
    }
  }

  /** After `k` steps the endpoint's rows are what its events leave. */
  ghost predicate LedgerAt(s: Tables, steps: seq<Step>, k: nat, e: EndpointId)
    requires k <= |steps|
  {
    Rows(After(s, steps, k).obs.history, e) == Ledger(Events(s, steps, k, e))
  }

  lemma {:induction false} RowsNext(s: Tables, steps: seq<Step>, k: nat, e: EndpointId)
    requires k < |steps| && UndisturbedAt(s, steps, k, e) && LedgerAt(s, steps, k, e)
    ensures LedgerAt(s, steps, k + 1, e)
  {
    StepRows(After(s, steps, k), steps[k], e);
    LedgerNext(Events(s, steps, k, e), EventOf(After(s, steps, k), steps[k], e));
  }

  lemma {:induction false} RowsAreLedger(s: Tables, steps: seq<Step>, n: nat, e: EndpointId)
    requires Rows(s.obs.history, e) == []
    requires n <= |steps| && forall i :: 0 <= i < n ==> UndisturbedAt(s, steps, i, e)
    ensures LedgerAt(s, steps, n, e)
  {
    if n > 0 {
      var k := n - 1;
      RowsAreLedger(s, steps, k, e);
      RowsNext(s, steps, k, e);
    }
  }

  /** The clock never runs back and has moved past every recorded result. */
  lemma {:induction false} StepClock(s: Tables, step: Step, e: EndpointId)
    ensures s.now <= Apply(s, step).now
    ensures EventOf(s, step, e).Result? ==> EventOf(s, step, e).row.at == s.now < Apply(s, step).now
  {
  }

  lemma LaterInOrder(rows: seq<ScanRow>, now: nat, event: Event, later: nat)
    requires InOrder(rows, now) && now <= later && (event.Result? ==> event.row.at == now < later)
    ensures InOrder(rows + ResultsOf(event), later)
  {
    if event.Result? { AppendAscending(rows, event.row); } else { assert rows + [] == rows; }
  }

  lemma {:induction false} ResultsInOrder(s: Tables, steps: seq<Step>, n: nat, e: EndpointId)
    requires n <= |steps|
    ensures InOrder(Results(Events(s, steps, n, e)), After(s, steps, n).now)
  {
    if n > 0 {
      ResultsInOrder(s, steps, n - 1, e);
      var t, events := After(s, steps, n - 1), Events(s, steps, n - 1, e);
      var event := EventOf(t, steps[n - 1], e);
      StepClock(t, steps[n - 1], e);
      LaterInOrder(Results(events), t.now, event, After(s, steps, n).now);
      assert (events + [event])[..n - 1] == events;
    }
  }

  /** In every run, with retention interleaved anywhere, the rows of an endpoint are a
      non-empty end of its compressed scan stream. */
  lemma {:induction false} LedgerRepresentsStream(s: Tables, steps: seq<Step>, n: nat, e: EndpointId)
    requires Rows(s.obs.history, e) == []
    requires n <= |steps| && forall i :: 0 <= i < n ==> UndisturbedAt(s, steps, i, e)
    ensures Represents(Rows(After(s, steps, n).obs.history, e), Results(Events(s, steps, n, e)))
  {
    RowsAreLedger(s, steps, n, e);
    ResultsInOrder(s, steps, n, e);
    LedgerRepresentsResults(Events(s, steps, n, e));
  }

  lemma {:induction false} NoRetention(s: Tables, steps: seq<Step>, n: nat, e: EndpointId, i: nat)
    requires i < n <= |steps| && forall j :: 0 <= j < n ==> !(steps[j].OnScans? && steps[j].scan.PurgeScanHistory?)
    ensures !Events(s, steps, n, e)[i].Retention?
  {
    if i < n - 1 { NoRetention(s, steps, n - 1, e, i); }
  }

  /** Without retention they are exactly the compressed stream. */
  lemma {:induction false} LedgerIsCompressedStream(s: Tables, steps: seq<Step>, n: nat, e: EndpointId)
    requires Rows(s.obs.history, e) == []
    requires n <= |steps| && forall i :: 0 <= i < n ==> UndisturbedAt(s, steps, i, e)
    requires forall i :: 0 <= i < n ==> !(steps[i].OnScans? && steps[i].scan.PurgeScanHistory?)
    ensures Rows(After(s, steps, n).obs.history, e) == Compress(Results(Events(s, steps, n, e)))
  {
    RowsAreLedger(s, steps, n, e);
    ResultsInOrder(s, steps, n, e);
    forall i | 0 <= i < n { NoRetention(s, steps, n, e, i); }
    LedgerIsCompressed(Events(s, steps, n, e));
  }

  /** Neighbouring rows differ in certificate, version, address or in whether there was an error. */
  ghost predicate DifferByColumn(rows: seq<ScanRow>)
  {
    forall i :: 0 < i < |rows| ==>
      || rows[i - 1].scan.fingerprint != rows[i].scan.fingerprint
      || rows[i - 1].scan.tlsVersion != rows[i].scan.tlsVersion
      || rows[i - 1].scan.resolvedIp != rows[i].scan.resolvedIp
      || (rows[i - 1].scan.error == None) != (rows[i].scan.error == None)
  }

  /** The newest row agrees with the latest result in all four. */
  predicate AgreesByColumn(rows: seq<ScanRow>, latest: Scan)
  {
    rows != [] &&
    var newest := rows[|rows| - 1].scan;
    newest.fingerprint == latest.fingerprint && newest.tlsVersion == latest.tlsVersion
    && newest.resolvedIp == latest.resolvedIp && (newest.error == None <==> latest.error == None)
  }

  lemma RepresentsByColumn(rows: seq<ScanRow>, scans: seq<ScanRow>)
    requires Represents(rows, scans)
    ensures DifferByColumn(rows) && (scans != [] ==> AgreesByColumn(rows, scans[|scans| - 1].scan))
  {
    RowsDistinctAndFresh(rows, scans);
  }

  ghost predicate LedgerByColumnAt(s: Tables, steps: seq<Step>, k: nat, e: EndpointId)
    requires k <= |steps|
  {
    var rows, scans := Rows(After(s, steps, k).obs.history, e), Results(Events(s, steps, k, e));
    DifferByColumn(rows) && (scans != [] ==> AgreesByColumn(rows, scans[|scans| - 1].scan))
  }

  /** The same column by column, in every run. */
  lemma {:induction false} LedgerByColumns(s: Tables, steps: seq<Step>, n: nat, e: EndpointId)
    requires Rows(s.obs.history, e) == []
    requires n <= |steps| && forall i :: 0 <= i < n ==> UndisturbedAt(s, steps, i, e)
    ensures LedgerByColumnAt(s, steps, n, e)
  {
    LedgerRepresentsStream(s, steps, n, e);
    RepresentsByColumn(Rows(After(s, steps, n).obs.history, e), Results(Events(s, steps, n, e)));
  }

  /** A result of the endpoint is recorded as it was reported, at the time of the transaction, exactly
      when its endpoint and its certificate, if it names one, are stored. */
  lemma ResultByColumns(s: Tables, e: EndpointId, scan: Scan)
    requires ObservationsHold(s.certs.Keys, s.fleet.endpoints.Keys, s.obs)
    ensures EventOf(s, OnScans(RecordScanResult(e, scan)), e).Result? ==>
              EventOf(s, OnScans(RecordScanResult(e, scan)), e).row == ScanRow(s.now, scan)
    ensures e in s.fleet.endpoints && (scan.fingerprint.Some? ==> scan.fingerprint.value in s.certs) ==>
              EventOf(s, OnScans(RecordScanResult(e, scan)), e).Result?
    ensures scan.fingerprint.Some? && (e !in s.fleet.endpoints || scan.fingerprint.value !in s.certs) ==>
              RecordScan(s, e, scan) == s
  {
  }

  lemma {:induction false} RetainedRow(rows: seq<ScanRow>, cutoff: int, r: ScanRow)
    requires Ascending(rows)
    ensures r in Retain(rows, cutoff) <==> r in rows && (r.at >= cutoff || forall x :: x in rows ==> x.at <= r.at)
  {
    if rows != [] {
      NewestIsLast(rows);
      if r in rows && r != rows[|rows| - 1] {
        var i :| 0 <= i < |rows| && rows[i] == r;
        assert rows[|rows| - 1] in rows && r.at < rows[|rows| - 1].at;
      }
    }
  }

  lemma CutoffByClock(now: nat, days: int, at: nat)
    ensures at >= Cutoff(now, days) <==> now - at <= days * (24 * 60 * 60 * 1_000_000)
  {
  }

  /** Retention by the clock: a row stays exactly when it is at most `days` times 24 hours old or no
      row of the endpoint is newer. */
  lemma {:induction false} RetentionByClock(s: Tables, days: int, e: EndpointId, r: ScanRow)
    requires LedgerInOrder(s.obs.history, s.now) && e in s.obs.history
    ensures PurgeHistory(s, days) == s.(obs := s.obs.(history := PurgeHistory(s, days).obs.history))
    ensures PurgeHistory(s, days).obs.history.Keys == s.obs.history.Keys
    ensures r in PurgeHistory(s, days).obs.history[e] <==>
              && r in s.obs.history[e]
              && (s.now - r.at <= days * (24 * 60 * 60 * 1_000_000) || forall x :: x in s.obs.history[e] ==> x.at <= r.at)
  {
    RetainedRow(s.obs.history[e], Cutoff(s.now, days), r);
    CutoffByClock(s.now, days, r.at);
  }

  /** So neighbouring rows always differ, and the newest row is equivalent to the latest result. */
  lemma RowsDistinctAndFresh(rows: seq<ScanRow>, scans: seq<ScanRow>)
    requires Represents(rows, scans)
    ensures forall i :: 0 < i < |rows| ==> !Equivalent(rows[i - 1].scan, rows[i].scan)
    ensures scans != [] ==> rows != [] && Equivalent(rows[|rows| - 1].scan, scans[|scans| - 1].scan)
  {
    CompressDistinct(scans);
    if scans != [] { CompressEnds(scans); }
    var c := Compress(scans);
    var d := |c| - |rows|;
    forall i | 0 < i < |rows|
      ensures !Equivalent(rows[i - 1].scan, rows[i].scan)
    {
      assert rows[i - 1] == c[d + i - 1] && rows[i] == c[d + i];
    }
  }

  // ---------------------------------------------------------------------------
  // Scan state
  // ---------------------------------------------------------------------------

  /** The current unbroken run of failures starts at result `k`. */
  ghost predicate FailingSince(scans: seq<ScanRow>, k: nat)
  {
    && k < |scans|
    && (forall i :: k <= i < |scans| ==> scans[i].scan.error.Some?)
    && (k > 0 ==> scans[k - 1].scan.error.None?)
  }

  /** The most recent address any result carried. */
  ghost function LastIp(scans: seq<ScanRow>): Option<string>
  {
    if scans == [] then None
    else
      var last := scans[|scans| - 1].scan.resolvedIp;
      if last.Some? then last else LastIp(scans[..|scans| - 1])
  }

  /** What the scan-state columns say about the results so far. */
  ghost predicate StateMatches(st: ScanState, scans: seq<ScanRow>)
  {
    if scans == [] then st == ScanState(None, None, None)
    else
      var last := scans[|scans| - 1];
      && st.lastScannedAt == Some(last.at)
      && st.lastScanError == last.scan.error
      && (st.errorSince.Some? <==> last.scan.error.Some?)
      && (st.errorSince.Some? ==> exists k: nat :: FailingSince(scans, k) && st.errorSince.value == scans[k].at)
  }

  lemma {:induction false} TouchMatches(st: ScanState, scans: seq<ScanRow>, row: ScanRow)
    requires StateMatches(st, scans)
    ensures StateMatches(TouchState(st, row.at, row.scan.error), scans + [row])
  {
    var all := scans + [row];
    if row.scan.error.Some? {
      if st.lastScanError.None? {
        assert FailingSince(all, |scans|);
      } else {
        var k: nat :| FailingSince(scans, k) && st.errorSince.value == scans[k].at;
        assert FailingSince(all, k);
      }
    }
  }

  /** A result touches the scan state; no other step changes it while the endpoint stays. */
  function StateAfter(st: ScanState, event: Event): ScanState
  {
    if event.Result? then TouchState(st, event.row.at, event.row.scan.error) else st
  }

  lemma {:induction false} FleetStepState(fleet: Fleet, op: FleetStep, e: EndpointId)
    requires FleetEnabled(op) && !op.Touch? && !Deletes(OnFleet(op), e) && e in fleet.endpoints
    ensures var t := FleetApply(fleet, op); e in t.endpoints && t.endpoints[e].scanState == fleet.endpoints[e].scanState
  {
  }

  lemma {:induction false} ScanStepState(s: Tables, step: ScanStep, e: EndpointId)
    requires e in s.fleet.endpoints
    ensures var t := ApplyScan(s, step).fleet;
            e in t.endpoints && t.endpoints[e].scanState == StateAfter(s.fleet.endpoints[e].scanState, EventOf(s, OnScans(step), e))
  {
  }

  lemma {:induction false} StepState(s: Tables, step: Step, e: EndpointId)
    requires !Deletes(step, e) && e in s.fleet.endpoints
    ensures var t := Apply(s, step).fleet;
            e in t.endpoints && t.endpoints[e].scanState == StateAfter(s.fleet.endpoints[e].scanState, EventOf(s, step, e))
  {
    if step.OnFleet? {
      if Runs.Enabled(s, step) { FleetStepState(s.fleet, step.op, e); }
    } else if step.OnScans? {
      ScanStepState(s, step.scan, e);
    } else {
      assert Apply(s, step).fleet == s.fleet;
    }
  }

  lemma StateAfterMatches(st: ScanState, scans: seq<ScanRow>, event: Event)
    requires StateMatches(st, scans)
    ensures StateMatches(StateAfter(st, event), scans + ResultsOf(event))
  {
    if event.Result? { TouchMatches(st, scans, event.row); } else { assert scans + [] == scans; }
  }

  lemma ResultsNext(events: seq<Event>, event: Event)
    ensures Results(events + [event]) == Results(events) + ResultsOf(event)
  {
    assert (events + [event])[..|events|] == events;
  }

  /** After `k` steps the endpoint is stored and its scan state matches its results. */
  ghost predicate StateMatchesAt(s: Tables, steps: seq<Step>, k: nat, e: EndpointId)
    requires k <= |steps|
  {
    var fleet := After(s, steps, k).fleet;
    e in fleet.endpoints && StateMatches(fleet.endpoints[e].scanState, Results(Events(s, steps, k, e)))
  }

  lemma {:induction false} StateNext(s: Tables, steps: seq<Step>, k: nat, e: EndpointId)
    requires k < |steps| && !Deletes(steps[k], e) && StateMatchesAt(s, steps, k, e)
    ensures StateMatchesAt(s, steps, k + 1, e)
  {
    var t, events := After(s, steps, k), Events(s, steps, k, e);
    var event := EventOf(t, steps[k], e);
    StepState(t, steps[k], e);
    StateAfterMatches(t.fleet.endpoints[e].scanState, Results(events), event);
    ResultsNext(events, event);
  }

  /** In every run, for an endpoint of any type and through any change of type, error_since is
      set exactly while the endpoint fails and is the time of the first result of the
      current failures. */
  lemma {:induction false} ScanStateMatchesStream(s: Tables, steps: seq<Step>, n: nat, e: EndpointId)
    requires e in s.fleet.endpoints && s.fleet.endpoints[e].scanState == ScanState(None, None, None)
    requires n <= |steps| && forall i :: 0 <= i < n ==> !Deletes(steps[i], e)
    ensures StateMatchesAt(s, steps, n, e)
  {
    if n > 0 {
      var k := n - 1;
      ScanStateMatchesStream(s, steps, k, e);
      StateNext(s, steps, k, e);
    }
  }

  // ---------------------------------------------------------------------------
  // Last resolved address
  // ---------------------------------------------------------------------------

  function IpAfter(ip: Option<string>, event: Event): Option<string>
  {
    if event.Result? && event.row.scan.resolvedIp.Some? then event.row.scan.resolvedIp else ip
  }

  /** A host row that a step leaves is new and empty, or the old one with the event's address. */
  ghost predicate HostRowFollows(hosts: map<EndpointId, HostRow>, after: map<EndpointId, HostRow>, event: Event, e: EndpointId)
  {
    e in after ==> after[e].lastResolvedIp == if e in hosts then IpAfter(hosts[e].lastResolvedIp, event) else None
  }

  lemma {:induction false} FleetStepIp(fleet: Fleet, op: FleetStep, e: EndpointId)
    requires FleetEnabled(op) && !op.Touch? && RowsFit(fleet.endpoints, fleet.hosts, fleet.saml, e)
    ensures HostRowFollows(fleet.hosts, FleetApply(fleet, op).hosts, Unrelated, e)
  {
  }

  lemma {:induction false} ScanStepIp(s: Tables, step: ScanStep, e: EndpointId)
    requires RowsFit(s.fleet.endpoints, s.fleet.hosts, s.fleet.saml, e)
    ensures HostRowFollows(s.fleet.hosts, ApplyScan(s, step).fleet.hosts, EventOf(s, OnScans(step), e), e)
  {
  }

  lemma {:induction false} StepIp(s: Tables, step: Step, e: EndpointId)
    requires FleetWf(s.fleet)
    ensures HostRowFollows(s.fleet.hosts, Apply(s, step).fleet.hosts, EventOf(s, step, e), e)
  {
    assert RowsFit(s.fleet.endpoints, s.fleet.hosts, s.fleet.saml, e);
    if step.OnFleet? {
      if Runs.Enabled(s, step) { FleetStepIp(s.fleet, step.op, e); }
    } else if step.OnScans? {
      ScanStepIp(s, step.scan, e);
    } else {
      assert Apply(s, step).fleet == s.fleet;
    }
  }

  /** The results recorded since the endpoint's host row was last inserted. */
  ghost function SinceHostRow(s: Tables, steps: seq<Step>, n: nat, e: EndpointId): seq<ScanRow>
    requires n <= |steps|
  {
    if n == 0 then []
    else
      var t := After(s, steps, n - 1);
      if e !in t.fleet.hosts then [] else SinceHostRow(s, steps, n - 1, e) + ResultsOf(EventOf(t, steps[n - 1], e))
  }

  lemma IpAfterMatches(scans: seq<ScanRow>, event: Event)
    ensures LastIp(scans + ResultsOf(event)) == IpAfter(LastIp(scans), event)
  {
    if event.Result? { assert (scans + [event.row])[..|scans|] == scans; } else { assert scans + [] == scans; }
  }

  /** After `k` steps the host row, if there is one, holds the last address seen since it was inserted. */
  ghost predicate LastIpAt(s: Tables, steps: seq<Step>, k: nat, e: EndpointId)
    requires k <= |steps|
  {
    var hosts := After(s, steps, k).fleet.hosts;
    e in hosts ==> hosts[e].lastResolvedIp == LastIp(SinceHostRow(s, steps, k, e))
  }

  lemma {:induction false} LastIpNext(s: Tables, steps: seq<Step>, k: nat, e: EndpointId)
    requires k < |steps| && Wf(s) && LastIpAt(s, steps, k, e)
    ensures LastIpAt(s, steps, k + 1, e)
  {
    RunKeepsWf(s, steps, k);
    var t := After(s, steps, k);
    StepIp(t, steps[k], e);
    IpAfterMatches(SinceHostRow(s, steps, k, e), EventOf(t, steps[k], e));
  }

  /** In every run, through type changes, deletes and re-inserts, last_resolved_ip is the last
      address a result carried since the host row was last inserted. */
  lemma {:induction false} LastIpMatchesStream(s: Tables, steps: seq<Step>, n: nat, e: EndpointId)
    requires Wf(s) && (e in s.fleet.hosts ==> s.fleet.hosts[e].lastResolvedIp.None?) && n <= |steps|
    ensures LastIpAt(s, steps, n, e)
  {
    if n > 0 {
      var k := n - 1;
      LastIpMatchesStream(s, steps, k, e);
      LastIpNext(s, steps, k, e);
    }
  }
}
