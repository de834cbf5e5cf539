/**
 Concurrent enrolment. ConfirmSetup loads and checks the secret in one statement and sets the
 flag in a later one, which does not look at the secret again; BeginSetup, Disable and
 AdminReset write in between.
 */
module EnrolmentRaces {
  import opened Base
  import opened Totp

  type Call = nat

  /** The two columns, and for each confirmation under way the step at which it loaded the secret. */
  datatype State = State(secret: Option<string>, enabled: bool, loaded: map<Call, nat>, clock: nat)

  datatype Action =
    | StoreSecret(secret: string)   // StoreUserTOTPSecret
    | Load(call: Call)              // GetUserTOTPSecret and a valid code
    | Enable(call: Call)            // EnableUserTOTP
    | ClearSecret                   // DisableUserTOTP

  /** A confirmation goes on only when there is a secret, and enables after it has loaded. */
  predicate Possible(s: State, a: Action)
  {
    match a
    case Load(c) => c !in s.loaded && s.secret.Some?
    case Enable(c) => c in s.loaded
    case _ => true
  }

  function Step(s: State, a: Action): State
  {
    var next := s.(clock := s.clock + 1);
    match a
    case StoreSecret(secret) => next.(secret := Some(secret), enabled := false)
    case Load(c) => next.(loaded := s.loaded[c := s.clock])
    case Enable(c) => next.(enabled := true, loaded := s.loaded - {c})
    case ClearSecret => next.(secret := None, enabled := false)
  }

  ghost function Before(s: State, run: seq<Action>, n: nat): State
    requires n <= |run|
  {
    if n == 0 then s else Step(Before(s, run, n - 1), run[n - 1])
  }

  ghost predicate PossibleAt(s: State, run: seq<Action>, i: nat)
    requires i < |run|
  {
    Possible(Before(s, run, i), run[i])
  }

  ghost predicate IsRun(s: State, run: seq<Action>)
  {
    s.loaded == map[] && s.clock == 0 && forall i :: 0 <= i < |run| ==> PossibleAt(s, run, i)
  }

  /** Armed without a secret. */
  predicate Stuck(s: State)
  {
    s.enabled && s.secret.None?
  }

  /** An account in that state refuses every request but an admin's reset. */
  lemma StuckRefusesAll(a: Account, r: Request)
    requires a.enabled && a.secret.None?
    ensures r != AdminReset ==> Handle(a, r) == a && Redeemed(a, r).None?
    ensures r == AdminReset ==> !Handle(a, r).enabled
  {
  }

  // ---------------------------------------------------------------------------
  // When it happens
  // ---------------------------------------------------------------------------

  /** The secret was cleared after step `from` and before step `to`, with none stored since. */
  ghost predicate ClearedSince(run: seq<Action>, from: nat, to: nat)
    requires to <= |run|
  {
    exists i :: from < i < to && run[i].ClearSecret? && forall m :: i < m < to ==> !run[m].StoreSecret?
  }

  lemma ClearedNext(run: seq<Action>, from: nat, to: nat)
    requires from < to < |run|
    ensures ClearedSince(run, from, to + 1) <==>
              run[to].ClearSecret? || (ClearedSince(run, from, to) && !run[to].StoreSecret?)
  {
    if run[to].ClearSecret? {
      assert from < to < to + 1 && run[to].ClearSecret?;
    } else if ClearedSince(run, from, to) && !run[to].StoreSecret? {
      var i :| from < i < to && run[i].ClearSecret? && forall m :: i < m < to ==> !run[m].StoreSecret?;
      assert forall m :: i < m < to + 1 ==> !run[m].StoreSecret?;
    }
  }

  lemma {:induction false} ClockCounts(s: State, run: seq<Action>, n: nat)
    requires IsRun(s, run) && n <= |run|
    ensures Before(s, run, n).clock == n
  {
    if n > 0 { ClockCounts(s, run, n - 1); }
  }

  /** A confirmation under way found a secret at its load; it is gone now exactly when it was
      cleared since. */
  ghost predicate LoadTracks(s: State, run: seq<Action>, n: nat, c: Call)
    requires n <= |run|
  {
    var b := Before(s, run, n);
    c in b.loaded ==> b.loaded[c] < n && run[b.loaded[c]] == Load(c) && (b.secret.None? <==> ClearedSince(run, b.loaded[c], n))
  }

  lemma {:induction false} LoadTracksNext(s: State, run: seq<Action>, k: nat, c: Call)
    requires IsRun(s, run) && k < |run| && LoadTracks(s, run, k, c)
    ensures LoadTracks(s, run, k + 1, c)
  {
    ClockCounts(s, run, k);
    assert PossibleAt(s, run, k);
    var b := Before(s, run, k);
    if c in b.loaded { ClearedNext(run, b.loaded[c], k); }
  }

  lemma {:induction false} LoadsTracked(s: State, run: seq<Action>, n: nat, c: Call)
    requires IsRun(s, run) && n <= |run|
    ensures LoadTracks(s, run, n, c)
  {
    if n > 0 {
      var k := n - 1;
      LoadsTracked(s, run, k, c);
      LoadTracksNext(s, run, k, c);
    }
  }

  /** The step enables a confirmation whose secret was cleared since it was loaded. */
  ghost predicate EnablesCleared(s: State, run: seq<Action>, k: nat)
    requires k < |run|
  {
    && run[k].Enable? && run[k].call in Before(s, run, k).loaded
    && ClearedSince(run, Before(s, run, k).loaded[run[k].call], k)
  }

  /** One step arms an account without a secret exactly when it is such an enable. */
  lemma {:induction false} StepSticksIff(s: State, run: seq<Action>, k: nat)
    requires IsRun(s, run) && k < |run| && !Stuck(Before(s, run, k))
    ensures Stuck(Before(s, run, k + 1)) <==> EnablesCleared(s, run, k)
  {
    assert PossibleAt(s, run, k);
    if run[k].Enable? { LoadsTracked(s, run, k, run[k].call); }
  }

  ghost predicate StuckAt(s: State, run: seq<Action>, k: nat)
    requires k <= |run|
  {
    Stuck(Before(s, run, k))
  }

  /** A run never arms an account without a secret exactly when no confirmation enables after
      its secret was cleared and none stored since. */
  lemma {:induction false} NeverStuckIff(s: State, run: seq<Action>, n: nat)
    requires IsRun(s, run) && !Stuck(s) && n <= |run|
    ensures (forall k :: 0 <= k <= n ==> !StuckAt(s, run, k)) <==> (forall k :: 0 <= k < n ==> !EnablesCleared(s, run, k))
  {
    if n == 0 {
      assert !StuckAt(s, run, 0);
    } else {
      NeverStuckIff(s, run, n - 1);
      if forall k :: 0 <= k <= n - 1 ==> !StuckAt(s, run, k) {
        assert !StuckAt(s, run, n - 1);
        StepSticksIff(s, run, n - 1);
        assert StuckAt(s, run, n) <==> EnablesCleared(s, run, n - 1);
      }
    }
  }

  /** So a confirmation that enables right after it loads never does. */
  lemma {:induction false} ImmediateEnableIsSafe(s: State, run: seq<Action>, k: nat)
    requires IsRun(s, run) && k < |run| && !Stuck(Before(s, run, k))
    requires run[k].Enable? && run[k].call in Before(s, run, k).loaded && Before(s, run, k).loaded[run[k].call] == k - 1
    ensures !Stuck(Before(s, run, k + 1))
  {
    StepSticksIff(s, run, k);
  }

  /** A user confirms twice; an admin resets between the two enables. */
  function Race(secret: string): seq<Action>
  {
    [StoreSecret(secret), Load(0), Load(1), Enable(0), ClearSecret, Enable(1)]
  }

  lemma {:induction false} ResetRaceSticks(secret: string)
    ensures var s := State(None, false, map[], 0);
            IsRun(s, Race(secret)) && Before(s, Race(secret), 4).enabled && StuckAt(s, Race(secret), 6)
  {
    var s, run := State(None, false, map[], 0), Race(secret);
    assert Before(s, run, 1) == State(Some(secret), false, map[], 1);
    assert Before(s, run, 2) == State(Some(secret), false, map[0 := 1], 2);
    assert Before(s, run, 3) == State(Some(secret), false, map[0 := 1, 1 := 2], 3);
    assert Before(s, run, 4) == State(Some(secret), true, map[1 := 2], 4);
    assert Before(s, run, 5) == State(None, false, map[1 := 2], 5);
    assert PossibleAt(s, run, 0) && PossibleAt(s, run, 1) && PossibleAt(s, run, 2);
    assert PossibleAt(s, run, 3) && PossibleAt(s, run, 4) && PossibleAt(s, run, 5);
  }
}
