/**
 The evaluator's pools under its read-write lock, one memory access at a time.
 Threads load pools (reading the database outside the lock), add intermediates and
 evaluate, interleaved in any order the lock allows. `log` is a history variable:
 the loads and additions completed so far, in order.
 */
module PoolLock {
  import opened Base
  import opened Db
  import opened TrustPaths
  import opened TrustEvaluator

  type Thread = nat

  datatype Entry = Published(pools: Pools) | Added(cert: X509)

  /** Where a thread is in the evaluator's code. */
  datatype Local =
    | Idle
    | LoadStarted                                    // LoadPools: no database read yet
    | AnchorsRead(roots: map<StoreId, set<X509>>)    // root pools built
    | Built(next: Pools)                             // both reads done, about to lock
    | LoadLocked(next: Pools)                        // holds the write lock
    | LoadHalf(next: Pools)                          // rootPools assigned
    | AddStarted(cert: X509)
    | AddLocked(cert: X509)                          // holds the write lock
    | Written                                        // write done, lock still held
    | EvalStarted(leaf: X509)
    | Evaluating(leaf: X509, at: nat, pending: set<StoreId>, out: map<StoreId, Verdict>)   // holds a read lock
    | Evaluated(leaf: X509, at: nat, out: map<StoreId, Verdict>)

  datatype State = State(
    mem: Pools,
    writer: Option<Thread>,
    readers: set<Thread>,
    locals: map<Thread, Local>,
    log: seq<Entry>)

  datatype Action =
    | CallLoad
    | ReadAnchors(roots: map<StoreId, set<X509>>)    // whatever the database holds at that moment
    | ReadCerts(cas: set<X509>)
    | FailLoad
    | LockForLoad
    | WriteRoots
    | WriteIntermediates
    | CallAdd(cert: X509)
    | LockForAdd
    | WriteAdded
    | Unlock
    | CallEvaluate(leaf: X509)
    | RLock
    | EvaluateStore(store: StoreId)
    | RUnlock

  // ---------------------------------------------------------------------------
  // Steps
  // ---------------------------------------------------------------------------

  predicate LockFree(s: State)
  {
    s.writer.None? && s.readers == {}
  }

  function Set(s: State, t: Thread, l: Local): State
  {
    s.(locals := s.locals[t := l])
  }

  /** Thread `t` performs the action where its code and the lock allow it; otherwise nothing happens. */
  function Step(lib: Library, s: State, t: Thread, a: Action): State
    requires t in s.locals
  {
    var l := s.locals[t];
    match a
    case CallLoad => if l.Idle? || l.Evaluated? then Set(s, t, LoadStarted) else s
    case ReadAnchors(roots) => if l.LoadStarted? then Set(s, t, AnchorsRead(roots)) else s
    case ReadCerts(cas) => if l.AnchorsRead? then Set(s, t, Built(Pools(l.roots, cas))) else s
    case FailLoad => if l.LoadStarted? || l.AnchorsRead? then Set(s, t, Idle) else s
    case LockForLoad => if l.Built? && LockFree(s) then Set(s, t, LoadLocked(l.next)).(writer := Some(t)) else s
    case WriteRoots => if l.LoadLocked? then Set(s, t, LoadHalf(l.next)).(mem := s.mem.(roots := l.next.roots)) else s
    case WriteIntermediates =>
      if l.LoadHalf? then Set(s, t, Written).(mem := s.mem.(intermediates := l.next.intermediates), log := s.log + [Published(l.next)]) else s
    case CallAdd(cert) => if (l.Idle? || l.Evaluated?) && cert.isCA then Set(s, t, AddStarted(cert)) else s
    case LockForAdd => if l.AddStarted? && LockFree(s) then Set(s, t, AddLocked(l.cert)).(writer := Some(t)) else s
    case WriteAdded =>
      if l.AddLocked? then Set(s, t, Written).(mem := s.mem.(intermediates := s.mem.intermediates + {l.cert}), log := s.log + [Added(l.cert)]) else s
    case Unlock => if l.Written? then Set(s, t, Idle).(writer := None) else s
    case CallEvaluate(leaf) => if l.Idle? || l.Evaluated? then Set(s, t, EvalStarted(leaf)) else s
    case RLock =>
      if l.EvalStarted? && s.writer.None? then Set(s, t, Evaluating(l.leaf, |s.log|, s.mem.roots.Keys, map[])).(readers := s.readers + {t}) else s
    case EvaluateStore(st) =>
      if l.Evaluating? && st in l.pending && st in s.mem.roots then
        Set(s, t, l.(pending := l.pending - {st}, out := l.out[st := Judge(lib, l.leaf, s.mem.roots[st], s.mem.intermediates)]))
      else s
    case RUnlock =>
      if l.Evaluating? && l.pending == {} then Set(s, t, Evaluated(l.leaf, l.at, l.out)).(readers := s.readers - {t}) else s
  }

  function Initial(threads: set<Thread>): State
  {
    State(Pools(map[], {}), None, {}, map t | t in threads :: Idle, [])
  }

  ghost function After(lib: Library, s: State, run: seq<(Thread, Action)>): State
    requires forall i :: 0 <= i < |run| ==> run[i].0 in s.locals
    ensures After(lib, s, run).locals.Keys == s.locals.Keys
  {
    if run == [] then s
    else
      var n := |run| - 1;
      Step(lib, After(lib, s, run[..n]), run[n].0, run[n].1)
  }

  // ---------------------------------------------------------------------------
  // What the pools should be
  // ---------------------------------------------------------------------------

  /** Replaying the completed loads and additions. */
  ghost function Replay(log: seq<Entry>): Pools
  {
    if log == [] then Pools(map[], {})
    else
      var n := |log| - 1;
      match log[n]
      case Published(pools) => pools
      case Added(cert) =>
        var before := Replay(log[..n]);
        before.(intermediates := before.intermediates + {cert})
  }

  /** `p` is the last load in the log; -1 when there is none. */
  ghost predicate IsLastLoad(log: seq<Entry>, p: int)
  {
    && -1 <= p < |log|
    && (p >= 0 ==> log[p].Published?)
    && (forall i :: p < i < |log| ==> log[i].Added?)
  }

  /** The pools are the last load's, with every intermediate added since. */
  ghost predicate IsGeneration(log: seq<Entry>, p: int, pools: Pools)
  {
    && IsLastLoad(log, p)
    && pools.roots == (if p >= 0 then log[p].pools.roots else map[])
    && (forall x :: x in pools.intermediates <==>
          (p >= 0 && x in log[p].pools.intermediates) || exists i :: p < i < |log| && log[i] == Added(x))
  }

  lemma {:induction false} ReplayIsGeneration(log: seq<Entry>) returns (p: int)
    ensures IsGeneration(log, p, Replay(log))
  {
    if log == [] {
      p := -1;
    } else {
      var n := |log| - 1;
      if log[n].Published? {
        p := n;
      } else {
        p := ReplayIsGeneration(log[..n]);
        var before, now := Replay(log[..n]), Replay(log);
        forall x
          ensures x in now.intermediates <==>
                    (p >= 0 && x in log[p].pools.intermediates) || exists i :: p < i < |log| && log[i] == Added(x)
        {
          assert x in now.intermediates <==> x in before.intermediates || x == log[n].cert;
          if x == log[n].cert { assert log[n] == Added(x); }
          assert forall i :: p < i < n ==> log[..n][i] == log[i];
        }
      }
    }
  }

  // ---------------------------------------------------------------------------
  // Invariant
  // ---------------------------------------------------------------------------

  predicate HoldsWrite(l: Local)
  {
    l.LoadLocked? || l.LoadHalf? || l.AddLocked? || l.Written?
  }

  /** The verdicts gathered so far all come from the given pools. */
  ghost predicate Gathered(lib: Library, leaf: X509, pools: Pools, pending: set<StoreId>, out: map<StoreId, Verdict>)
  {
    && pools.roots.Keys == pending + out.Keys
    && (forall st :: st in out ==> out[st] == Judge(lib, leaf, pools.roots[st], pools.intermediates))
  }

  ghost predicate ThreadOk(lib: Library, s: State, t: Thread, l: Local)
  {
    && (HoldsWrite(l) <==> s.writer == Some(t))
    && (l.Evaluating? <==> t in s.readers)
    && (l.LoadLocked? || l.AddLocked? || l.Written? ==> s.mem == Replay(s.log))
    && (l.LoadHalf? ==> s.mem == Pools(l.next.roots, Replay(s.log).intermediates))
    && (l.Evaluating? ==> l.at == |s.log| && Gathered(lib, l.leaf, s.mem, l.pending, l.out))
    && (l.Evaluated? ==> l.at <= |s.log| && Gathered(lib, l.leaf, Replay(s.log[..l.at]), {}, l.out))
  }

  ghost predicate Inv(lib: Library, s: State)
  {
    && (s.writer.Some? ==> s.readers == {})
    && (s.writer.None? ==> s.mem == Replay(s.log))
    && (forall t :: t in s.locals ==> ThreadOk(lib, s, t, s.locals[t]))
  }

  /** A step of the lock holder that extends the log disturbs no other thread. */
  lemma {:induction false} WriteKeepsOthers(lib: Library, s: State, u: State, t: Thread, o: Thread, l: Local)
    requires o != t && ThreadOk(lib, s, o, l) && s.writer == Some(t) && s.readers == {}
    requires u.readers == {} && u.writer == s.writer
    requires u.log == s.log || exists e :: u.log == s.log + [e]
    ensures ThreadOk(lib, u, o, l)
  {
    if l.Evaluated? { assert u.log[..l.at] == s.log[..l.at]; }
  }

  lemma {:induction false} WriteStepsKeepInv(lib: Library, s: State, t: Thread, a: Action)
    requires Inv(lib, s) && t in s.locals && (a.WriteRoots? || a.WriteIntermediates? || a.WriteAdded?)
    ensures Inv(lib, Step(lib, s, t, a))
  {
    var u := Step(lib, s, t, a);
    assert ThreadOk(lib, s, t, s.locals[t]);
    if u != s {
      forall o | o in u.locals && o != t
        ensures ThreadOk(lib, u, o, u.locals[o])
      {
        WriteKeepsOthers(lib, s, u, t, o, s.locals[o]);
      }
      if u.log != s.log { assert u.log[..|s.log|] == s.log; }
    }
  }

  lemma {:induction false} LockStepsKeepInv(lib: Library, s: State, t: Thread, a: Action)
    requires Inv(lib, s) && t in s.locals && (a.LockForLoad? || a.LockForAdd? || a.Unlock?)
    ensures Inv(lib, Step(lib, s, t, a))
  {
    var u := Step(lib, s, t, a);
    assert ThreadOk(lib, s, t, s.locals[t]);
    forall o | o in u.locals && o != t
      ensures ThreadOk(lib, u, o, u.locals[o])
    {
      assert ThreadOk(lib, s, o, s.locals[o]);
    }
  }

  lemma {:induction false} ReadStepsKeepInv(lib: Library, s: State, t: Thread, a: Action)
    requires Inv(lib, s) && t in s.locals && (a.RLock? || a.EvaluateStore? || a.RUnlock?)
    ensures Inv(lib, Step(lib, s, t, a))
  {
    var u := Step(lib, s, t, a);
    assert ThreadOk(lib, s, t, s.locals[t]);
    assert s.log[..|s.log|] == s.log;
    forall o | o in u.locals && o != t
      ensures ThreadOk(lib, u, o, u.locals[o])
    {
      assert ThreadOk(lib, s, o, s.locals[o]);
    }
  }

  lemma {:induction false} LocalStepsKeepInv(lib: Library, s: State, t: Thread, a: Action)
    requires Inv(lib, s) && t in s.locals
    requires a.CallLoad? || a.ReadAnchors? || a.ReadCerts? || a.FailLoad? || a.CallAdd? || a.CallEvaluate?
    ensures Inv(lib, Step(lib, s, t, a))
  {
    var u := Step(lib, s, t, a);
    assert ThreadOk(lib, s, t, s.locals[t]);
    forall o | o in u.locals && o != t
      ensures ThreadOk(lib, u, o, u.locals[o])
    {
      assert ThreadOk(lib, s, o, s.locals[o]);
    }
  }

  lemma {:induction false} StepKeepsInv(lib: Library, s: State, t: Thread, a: Action)
    requires Inv(lib, s) && t in s.locals
    ensures Inv(lib, Step(lib, s, t, a))
  {
    if a.WriteRoots? || a.WriteIntermediates? || a.WriteAdded? { WriteStepsKeepInv(lib, s, t, a); }
    else if a.LockForLoad? || a.LockForAdd? || a.Unlock? { LockStepsKeepInv(lib, s, t, a); }
    else if a.RLock? || a.EvaluateStore? || a.RUnlock? { ReadStepsKeepInv(lib, s, t, a); }
    else { LocalStepsKeepInv(lib, s, t, a); }
  }

  lemma {:induction false} RunKeepsInv(lib: Library, threads: set<Thread>, run: seq<(Thread, Action)>)
    requires forall i :: 0 <= i < |run| ==> run[i].0 in threads
    ensures Inv(lib, After(lib, Initial(threads), run))
  {
    if run != [] {
      var n := |run| - 1;
      RunKeepsInv(lib, threads, run[..n]);
      StepKeepsInv(lib, After(lib, Initial(threads), run[..n]), run[n].0, run[n].1);
    }
  }

  // ---------------------------------------------------------------------------
  // The promise
  // ---------------------------------------------------------------------------

  /** Thread `t` is in the Evaluate that took its read lock when the log held `at` entries. */
  predicate HoldsSince(l: Local, leaf: X509, at: nat)
  {
    (l.Evaluating? || l.Evaluated?) && l.leaf == leaf && l.at == at
  }

  /** Step `c` of the run calls Evaluate for `leaf` and nothing since has moved the thread on. */
  ghost predicate CalledAt(lib: Library, s: State, run: seq<(Thread, Action)>, t: Thread, leaf: X509, c: nat, k: nat)
    requires t in s.locals && forall i :: 0 <= i < |run| ==> run[i].0 in s.locals
  {
    && c < k <= |run| && run[c] == (t, CallEvaluate(leaf))
    && (forall i :: c < i <= k ==> After(lib, s, run[..i]).locals[t] == EvalStarted(leaf))
  }

  /** Step `k` of the run takes the read lock, when the log is the first `at` entries of the final one,
      and the thread has held the verdicts of that Evaluate since. */
  ghost predicate LockedAt(lib: Library, s: State, run: seq<(Thread, Action)>, t: Thread, leaf: X509, at: nat, k: nat)
    requires t in s.locals && forall i :: 0 <= i < |run| ==> run[i].0 in s.locals
  {
    && k < |run| && run[k] == (t, RLock)
    && at <= |After(lib, s, run).log| && After(lib, s, run[..k]).log == After(lib, s, run).log[..at]
    && (forall i :: k < i <= |run| ==> HoldsSince(After(lib, s, run[..i]).locals[t], leaf, at))
  }

  lemma {:induction false} LogGrows(lib: Library, s: State, t: Thread, a: Action)
    requires t in s.locals
    ensures s.log <= Step(lib, s, t, a).log
  {
  }

  /** A thread waiting for the read lock got there by its own call. */
  lemma {:induction false} FindCall(lib: Library, s: State, run: seq<(Thread, Action)>, t: Thread, leaf: X509) returns (c: nat)
    requires t in s.locals && s.locals[t].Idle? && forall i :: 0 <= i < |run| ==> run[i].0 in s.locals
    requires After(lib, s, run).locals[t] == EvalStarted(leaf)
    ensures CalledAt(lib, s, run, t, leaf, c, |run|)
  {
    var n := |run| - 1;
    var before := run[..n];
    assert run[..|run|] == run;
    if After(lib, s, before).locals[t] == EvalStarted(leaf) {
      c := FindCall(lib, s, before, t, leaf);
      ExtendCalled(lib, s, run, t, leaf, c, n);
    } else {
      CallStep(lib, After(lib, s, before), t, run[n].0, run[n].1, leaf);
      c := n;
    }
  }

  lemma {:induction false} CallStep(lib: Library, s: State, t: Thread, u: Thread, a: Action, leaf: X509)
    requires t in s.locals && u in s.locals
    requires Step(lib, s, u, a).locals[t] == EvalStarted(leaf) && s.locals[t] != EvalStarted(leaf)
    ensures u == t && a == CallEvaluate(leaf)
  {
  }

  lemma {:induction false} LockStep(lib: Library, s: State, t: Thread, u: Thread, a: Action, leaf: X509, at: nat)
    requires t in s.locals && u in s.locals
    requires HoldsSince(Step(lib, s, u, a).locals[t], leaf, at) && !HoldsSince(s.locals[t], leaf, at)
    ensures u == t && a == RLock && s.locals[t] == EvalStarted(leaf) && at == |s.log| && Step(lib, s, u, a).log == s.log
  {
  }

  /** The last step of the run just took the lock. */
  lemma {:induction false} NewlyLocked(lib: Library, s: State, run: seq<(Thread, Action)>, t: Thread, leaf: X509, at: nat)
    requires t in s.locals && run != [] && forall i :: 0 <= i < |run| ==> run[i].0 in s.locals
    requires HoldsSince(After(lib, s, run).locals[t], leaf, at)
    requires !HoldsSince(After(lib, s, run[..|run| - 1]).locals[t], leaf, at)
    ensures LockedAt(lib, s, run, t, leaf, at, |run| - 1)
    ensures After(lib, s, run[..|run| - 1]).locals[t] == EvalStarted(leaf)
  {
    var n := |run| - 1;
    assert run[..|run|] == run;
    LockStep(lib, After(lib, s, run[..n]), t, run[n].0, run[n].1, leaf, at);
  }

  lemma {:induction false} FindLock(lib: Library, s: State, run: seq<(Thread, Action)>, t: Thread, leaf: X509, at: nat) returns (c: nat, k: nat)
    requires t in s.locals && s.locals[t].Idle? && forall i :: 0 <= i < |run| ==> run[i].0 in s.locals
    requires HoldsSince(After(lib, s, run).locals[t], leaf, at)
    ensures CalledAt(lib, s, run, t, leaf, c, k) && LockedAt(lib, s, run, t, leaf, at, k)
  {
    var n := |run| - 1;
    var before := run[..n];
    if HoldsSince(After(lib, s, before).locals[t], leaf, at) {
      c, k := FindLock(lib, s, before, t, leaf, at);
      LogGrows(lib, After(lib, s, before), run[n].0, run[n].1);
      ExtendLocked(lib, s, run, t, leaf, at, k);
    } else {
      NewlyLocked(lib, s, run, t, leaf, at);
      c := FindCall(lib, s, before, t, leaf);
      k := n;
    }
    ExtendCalled(lib, s, run, t, leaf, c, k);
  }

  lemma {:induction false} ExtendCalled(lib: Library, s: State, run: seq<(Thread, Action)>, t: Thread, leaf: X509, c: nat, k: nat)
    requires t in s.locals && run != [] && forall i :: 0 <= i < |run| ==> run[i].0 in s.locals
    requires CalledAt(lib, s, run[..|run| - 1], t, leaf, c, k)
    ensures CalledAt(lib, s, run, t, leaf, c, k)
  {
    var before := run[..|run| - 1];
    forall i | c < i <= k
      ensures After(lib, s, run[..i]).locals[t] == EvalStarted(leaf)
    {
      assert before[..i] == run[..i];
    }
  }

  lemma {:induction false} ExtendLocked(lib: Library, s: State, run: seq<(Thread, Action)>, t: Thread, leaf: X509, at: nat, k: nat)
    requires t in s.locals && run != [] && forall i :: 0 <= i < |run| ==> run[i].0 in s.locals
    requires LockedAt(lib, s, run[..|run| - 1], t, leaf, at, k)
    requires HoldsSince(After(lib, s, run).locals[t], leaf, at)
    requires After(lib, s, run[..|run| - 1]).log <= After(lib, s, run).log
    ensures LockedAt(lib, s, run, t, leaf, at, k)
  {
    var before := run[..|run| - 1];
    assert run[..|run|] == run;
    assert before[..k] == run[..k];
    forall i | k < i < |run|
      ensures HoldsSince(After(lib, s, run[..i]).locals[t], leaf, at)
    {
      assert before[..i] == run[..i];
    }
  }

  /** The verdicts come from one generation: the roots of the last load published in `log`, with
      that load's CA certificates and the intermediates added since. */
  ghost predicate FromGeneration(lib: Library, leaf: X509, log: seq<Entry>, out: map<StoreId, Verdict>)
  {
    exists p, pools :: IsGeneration(log, p, pools) && out == Verdicts(lib, leaf, pools.roots, pools.intermediates)
  }

  lemma {:induction false} GatheredFromGeneration(lib: Library, leaf: X509, log: seq<Entry>, out: map<StoreId, Verdict>)
    requires Gathered(lib, leaf, Replay(log), {}, out)
    ensures FromGeneration(lib, leaf, log, out)
  {
    var p := ReplayIsGeneration(log);
    var pools := Replay(log);
    assert out == Verdicts(lib, leaf, pools.roots, pools.intermediates);
  }

  /** Under every interleaving, a finished Evaluate used one pool generation throughout, the one
      in memory when it took the read lock: at step `k`, after its own call at step `c`, the
      log held exactly the loads and additions its verdicts come from. */
  lemma {:induction false} EvaluateUsesOneGeneration(lib: Library, threads: set<Thread>, run: seq<(Thread, Action)>, t: Thread) returns (c: nat, k: nat)
    requires forall i :: 0 <= i < |run| ==> run[i].0 in threads
    requires t in threads && After(lib, Initial(threads), run).locals[t].Evaluated?
    ensures var l := After(lib, Initial(threads), run).locals[t];
            && CalledAt(lib, Initial(threads), run, t, l.leaf, c, k)
            && LockedAt(lib, Initial(threads), run, t, l.leaf, l.at, k)
            && FromGeneration(lib, l.leaf, After(lib, Initial(threads), run[..k]).log, l.out)
  {
    RunKeepsInv(lib, threads, run);
    var s := After(lib, Initial(threads), run);
    var l := s.locals[t];
    assert ThreadOk(lib, s, t, l);
    c, k := FindLock(lib, Initial(threads), run, t, l.leaf, l.at);
    GatheredFromGeneration(lib, l.leaf, s.log[..l.at], l.out);
  }

  /** A load that has published nothing yet. */
  predicate Unpublished(l: Local)
  {
    l.LoadStarted? || l.AnchorsRead?
  }

  /** Step `k` of the run leaves the pools, the lock and the history alone. */
  ghost predicate ChangesNothingShared(lib: Library, s: State, run: seq<(Thread, Action)>, k: nat)
    requires k < |run| && forall i :: 0 <= i < |run| ==> run[i].0 in s.locals
  {
    var before, after := After(lib, s, run[..k]), After(lib, s, run[..k + 1]);
    after.mem == before.mem && after.log == before.log && after.writer == before.writer && after.readers == before.readers
  }

  lemma {:induction false} StaysUnpublished(lib: Library, s: State, t: Thread, u: Thread, a: Action)
    requires t in s.locals && u in s.locals && (u, a) != (t, CallLoad) && Unpublished(Step(lib, s, u, a).locals[t])
    ensures Unpublished(s.locals[t])
    ensures u == t ==> Step(lib, s, u, a) == s.(locals := Step(lib, s, u, a).locals)
  {
  }

  /** A failed load publishes nothing: from its start at step `i` to its failure at step `j`, no
      step of its thread touched the pools, the lock or the history, and the failure itself
      does not either. */
  lemma {:induction false} FailedLoadPublishesNothing(lib: Library, s: State, run: seq<(Thread, Action)>, i: nat, j: nat, t: Thread)
    requires i <= j < |run| && forall k :: 0 <= k < |run| ==> run[k].0 in s.locals
    requires t in s.locals && Unpublished(After(lib, s, run[..j]).locals[t])
    requires run[j] == (t, FailLoad) && forall k :: i <= k < j ==> run[k] != (t, CallLoad)
    ensures forall k :: i <= k <= j && run[k].0 == t ==> ChangesNothingShared(lib, s, run, k)
    ensures After(lib, s, run[..j + 1]).locals[t].Idle?
  {
    AfterNext(lib, s, run, j);
    QuietWhileUnpublished(lib, s, run, i, j, t);
  }

  lemma AfterNext(lib: Library, s: State, run: seq<(Thread, Action)>, k: nat)
    requires k < |run| && forall i :: 0 <= i < |run| ==> run[i].0 in s.locals
    ensures After(lib, s, run[..k + 1]) == Step(lib, After(lib, s, run[..k]), run[k].0, run[k].1)
  {
    assert run[..k + 1][..k] == run[..k];
  }

  /** Before step `k` the thread is in a load that has published nothing. */
  ghost predicate UnpublishedAt(lib: Library, s: State, run: seq<(Thread, Action)>, k: nat, t: Thread)
    requires k <= |run| && t in s.locals && forall i :: 0 <= i < |run| ==> run[i].0 in s.locals
  {
    Unpublished(After(lib, s, run[..k]).locals[t])
  }

  lemma {:induction false} QuietStep(lib: Library, s: State, run: seq<(Thread, Action)>, k: nat, t: Thread)
    requires k < |run| && t in s.locals && forall i :: 0 <= i < |run| ==> run[i].0 in s.locals
    requires run[k] != (t, CallLoad) && UnpublishedAt(lib, s, run, k + 1, t)
    ensures UnpublishedAt(lib, s, run, k, t)
    ensures run[k].0 == t ==> ChangesNothingShared(lib, s, run, k)
  {
    AfterNext(lib, s, run, k);
    StaysUnpublished(lib, After(lib, s, run[..k]), t, run[k].0, run[k].1);
  }

  lemma {:induction false} QuietWhileUnpublished(lib: Library, s: State, run: seq<(Thread, Action)>, i: nat, j: nat, t: Thread)
    requires i <= j <= |run| && t in s.locals && forall k :: 0 <= k < |run| ==> run[k].0 in s.locals
    requires UnpublishedAt(lib, s, run, j, t)
    requires forall k :: i <= k < j ==> run[k] != (t, CallLoad)
    ensures forall k :: i <= k < j && run[k].0 == t ==> ChangesNothingShared(lib, s, run, k)
    decreases j - i
  {
    if i < j {
      QuietStep(lib, s, run, j - 1, t);
      QuietWhileUnpublished(lib, s, run, i, j - 1, t);
    }
  }
}
