/**
 Concurrent redemption of recovery codes. consumeRecoveryCode is two statements: it lists the
 unused rows, and marks the row it matched; whether the mark found the row still unused is
 not looked at. Calls interleave between the two, with each other and with rotations.
 */
module RedemptionRaces {
  import opened Base
  import opened RecoveryCodes
  import opened Totp

  type Call = nat

  /** A call that has listed the rows and matched row `id`, its listing being step `listed`. */
  datatype Match = Match(id: nat, listed: nat)

  datatype State = State(account: Account, matched: map<Call, Match>, clock: nat)

  datatype Action =
    | List(call: Call, typed: string, pick: Option<nat>)   // SELECT the unused rows, compare
    | Mark(call: Call)                                     // UPDATE the matched row, report success
    | Rotate(hashes: seq<Hash>)                            // a rotation; with no hashes, a disable

  /** The pick of a listing is one the loop may make, and a call lists once before it marks. */
  ghost predicate Possible(s: State, a: Action)
  {
    match a
    case List(c, typed, pick) => c !in s.matched && IsRedemption(s.account, typed, pick)
    case Mark(c) => c in s.matched
    case Rotate(_) => true
  }

  function Step(s: State, a: Action): State
  {
    var next := s.clock + 1;
    match a
    case List(c, _, pick) =>
      s.(matched := if pick.Some? then s.matched[c := Match(pick.value, s.clock)] else s.matched, clock := next)
    case Mark(c) =>
      State(if c in s.matched then MarkUsed(s.account, s.matched[c].id) else s.account, s.matched - {c}, next)
    case Rotate(hashes) => s.(account := Replace(s.account, hashes), clock := next)
  }

  ghost function Before(s: State, run: seq<Action>, n: nat): State
    requires n <= |run|
  {
    if n == 0 then s else Step(Before(s, run, n - 1), run[n - 1])
  }

  ghost predicate PossibleAt(s: State, run: seq<Action>, i: nat)
    requires i < |run|
  {
    Possible(Before(s, run, i), run[i])
  }

  ghost predicate IsRun(s: State, run: seq<Action>)
  {
    forall i :: 0 <= i < |run| ==> PossibleAt(s, run, i)
  }

  /** Step `i` reports that row `id` was redeemed. */
  ghost predicate RedeemsAt(s: State, run: seq<Action>, i: nat, id: nat)
    requires i < |run|
  {
    run[i].Mark? && run[i].call in Before(s, run, i).matched && Before(s, run, i).matched[run[i].call].id == id
  }

  /** No call is under way, and every row key has been handed out before. */
  ghost predicate Quiescent(s: State)
  {
    s.matched == map[] && s.clock == 0 && forall id :: id in s.account.codes ==> id < s.account.nextId
  }

  ghost predicate Inv(s: State)
  {
    && (forall id :: id in s.account.codes ==> id < s.account.nextId)
    && (forall c :: c in s.matched ==> s.matched[c].id < s.account.nextId && s.matched[c].listed < s.clock)
  }

  lemma {:induction false} StepKeepsInv(s: State, a: Action)
    requires Inv(s) && Possible(s, a)
    ensures Inv(Step(s, a))
  {
  }

  lemma {:induction false} RunKeepsInv(s: State, run: seq<Action>, n: nat)
    requires Quiescent(s) && IsRun(s, run) && n <= |run|
    ensures Inv(Before(s, run, n)) && Before(s, run, n).clock == n
  {
    if n > 0 {
      RunKeepsInv(s, run, n - 1);
      assert PossibleAt(s, run, n - 1);
      StepKeepsInv(Before(s, run, n - 1), run[n - 1]);
    }
  }

  lemma {:induction false} SpentStays(s: State, a: Action, id: nat)
    requires Inv(s) && Spent(s.account, id)
    ensures Spent(Step(s, a).account, id)
  {
  }

  lemma {:induction false} MarkSpends(s: State, c: Call)
    requires Inv(s) && c in s.matched
    ensures Spent(Step(s, Mark(c)).account, s.matched[c].id)
  {
  }

  /** A row reported redeemed is used or gone from then on. */
  lemma {:induction false} RedeemedStaysSpent(s: State, run: seq<Action>, i: nat, n: nat, id: nat)
    requires Quiescent(s) && IsRun(s, run) && i < n <= |run| && RedeemsAt(s, run, i, id)
    ensures Spent(Before(s, run, n).account, id)
  {
    RunKeepsInv(s, run, n - 1);
    if i == n - 1 {
      MarkSpends(Before(s, run, i), run[i].call);
    } else {
      RedeemedStaysSpent(s, run, i, n - 1, id);
      SpentStays(Before(s, run, n - 1), run[n - 1], id);
    }
  }

  /** The call's match goes back to a listing at which the row was not spent. */
  ghost predicate MatchedUnspent(s: State, run: seq<Action>, n: nat, c: Call, m: Match)
    requires n <= |run|
  {
    m.listed < n && run[m.listed].List? && run[m.listed].call == c && !Spent(Before(s, run, m.listed).account, m.id)
  }

  lemma {:induction false} MatchWasUnspent(s: State, run: seq<Action>, n: nat, c: Call)
    requires Quiescent(s) && IsRun(s, run) && n <= |run| && c in Before(s, run, n).matched
    ensures MatchedUnspent(s, run, n, c, Before(s, run, n).matched[c])
  {
    var k := n - 1;
    RunKeepsInv(s, run, k);
    assert PossibleAt(s, run, k);
    NewMatchIsListing(Before(s, run, k), run[k], c);
    if c in Before(s, run, k).matched {
      MatchWasUnspent(s, run, k, c);
    }
  }

  /** A match is an old one, or a listing of an unused row just made it. */
  lemma {:induction false} NewMatchIsListing(s: State, a: Action, c: Call)
    requires Possible(s, a) && c in Step(s, a).matched
    ensures if c in s.matched then Step(s, a).matched[c] == s.matched[c]
            else a.List? && a.call == c && Step(s, a).matched[c].listed == s.clock && !Spent(s.account, Step(s, a).matched[c].id)
  {
  }

  /** A redemption at step `j` repeats an earlier one of the same row exactly when some call
      redeemed the row after the listing that step `j` acts on. */
  lemma {:induction false} RepeatedIff(s: State, run: seq<Action>, j: nat, id: nat)
    requires Quiescent(s) && IsRun(s, run) && j < |run| && RedeemsAt(s, run, j, id)
    ensures var listed := Before(s, run, j).matched[run[j].call].listed;
            && listed < j
            && ((exists i :: 0 <= i < j && RedeemsAt(s, run, i, id)) <==> (exists i :: listed < i < j && RedeemsAt(s, run, i, id)))
  {
    MatchWasUnspent(s, run, j, run[j].call);
    var listed := Before(s, run, j).matched[run[j].call].listed;
    if i :| 0 <= i < j && RedeemsAt(s, run, i, id) && !(listed < i) {
      NotBeforeListing(s, run, i, listed, id);
    }
  }

  lemma {:induction false} NotBeforeListing(s: State, run: seq<Action>, i: nat, listed: nat, id: nat)
    requires Quiescent(s) && IsRun(s, run) && i <= listed < |run| && run[listed].List? && RedeemsAt(s, run, i, id)
    ensures Spent(Before(s, run, listed).account, id)
  {
    RedeemedStaysSpent(s, run, i, listed, id);
  }

  /** So a call that marks in the step after its listing never repeats a redemption. */
  lemma {:induction false} ImmediateMarkIsFirst(s: State, run: seq<Action>, i: nat, j: nat, id: nat)
    requires Quiescent(s) && IsRun(s, run) && i < j < |run| && RedeemsAt(s, run, j, id)
    requires Before(s, run, j).matched[run[j].call].listed == j - 1
    ensures !RedeemsAt(s, run, i, id)
  {
    RepeatedIff(s, run, j, id);
  }

  /** An account with one code, and two logins that both list it before either marks it. */
  function RaceStart(code: string, salt: nat): State
  {
    State(Replace(FRESH, [Hash(Normalize(code), salt)]), map[], 0)
  }

  function Race(code: string): seq<Action>
  {
    [List(0, code, Some(0)), List(1, code, Some(0)), Mark(0), Mark(1)]
  }

  lemma {:induction false} RaceStates(code: string, salt: nat)
    ensures var s, run := RaceStart(code, salt), Race(code);
            && Before(s, run, 0) == s
            && Before(s, run, 1) == State(s.account, map[0 := Match(0, 0)], 1)
            && Before(s, run, 2) == State(s.account, map[0 := Match(0, 0), 1 := Match(0, 1)], 2)
            && Before(s, run, 3) == State(MarkUsed(s.account, 0), map[1 := Match(0, 1)], 3)
  {
    var s, run := RaceStart(code, salt), Race(code);
    assert Before(s, run, 1) == Step(s, run[0]);
    assert Before(s, run, 2) == Step(Before(s, run, 1), run[1]);
    assert Before(s, run, 3) == Step(Before(s, run, 2), run[2]);
    assert map[0 := Match(0, 0), 1 := Match(0, 1)] - {0} == map[1 := Match(0, 1)];
  }

  lemma RaceStartRedeemable(code: string, salt: nat)
    ensures Redeemable(RaceStart(code, salt).account, 0, code) && Quiescent(RaceStart(code, salt))
  {
  }

  /** Two logins with one code both succeed. */
  lemma {:induction false} TwoLoginsRedeemTwice(code: string, salt: nat)
    ensures var s, run := RaceStart(code, salt), Race(code);
            Quiescent(s) && IsRun(s, run) && RedeemsAt(s, run, 2, 0) && RedeemsAt(s, run, 3, 0)
  {
    var s, run := RaceStart(code, salt), Race(code);
    RaceStates(code, salt);
    RaceStartRedeemable(code, salt);
    assert PossibleAt(s, run, 0) && PossibleAt(s, run, 1) && PossibleAt(s, run, 2) && PossibleAt(s, run, 3);
  }
}
