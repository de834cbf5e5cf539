/** TOTP enrolment and recovery-code redemption for one account. */
module Totp {
  import opened Base
  import opened RecoveryCodes

  /** bcrypt, taken to match exactly the text it was generated from. */
  datatype Hash = Hash(text: string, salt: nat)

  predicate Compare(hash: Hash, text: string)
  {
    hash.text == text
  }

  datatype Code = Code(hash: Hash, used: bool)

  /** The TOTP columns of the user row and the user's rows of user_totp_recovery_codes. `nextId`
      stands for the generator of row keys, which never repeats one. */
  datatype Account = Account(secret: Option<string>, enabled: bool, codes: map<nat, Code>, nextId: nat)

  // ---------------------------------------------------------------------------
  // Store operations
  // ---------------------------------------------------------------------------

  /** One unused row per hash, under fresh keys. */
  function NewRows(first: nat, hashes: seq<Hash>): (rows: map<nat, Code>)
    ensures |rows| == |hashes| && forall id :: id in rows <==> first <= id < first + |hashes|
    ensures forall id :: id in rows ==> rows[id] == Code(hashes[id - first], false)
  {
    if hashes == [] then map[]
    else
      var n := |hashes| - 1;
      NewRows(first, hashes[..n])[first + n := Code(hashes[n], false)]
  }

  /** ReplaceUserTOTPRecoveryCodes: delete every row, insert one unused row per hash. */
  function Replace(a: Account, hashes: seq<Hash>): Account
  {
    a.(codes := NewRows(a.nextId, hashes), nextId := a.nextId + |hashes|)
  }

  /** DisableUserTOTP. */
  function Clear(a: Account): Account
  {
    a.(secret := None, enabled := false, codes := map[])
  }

  function MarkUsed(a: Account, id: nat): Account
  {
    if id in a.codes then a.(codes := a.codes[id := a.codes[id].(used := true)]) else a
  }

  predicate Redeemable(a: Account, id: nat, typed: string)
  {
    id in a.codes && !a.codes[id].used && Compare(a.codes[id].hash, Normalize(typed))
  }

  /** The row consumeRecoveryCode may redeem: any unused match, as rows come in no fixed order. */
  ghost predicate IsRedemption(a: Account, typed: string, pick: Option<nat>)
  {
    match pick
    case Some(id) => Redeemable(a, id, typed)
    case None => forall id :: !Redeemable(a, id, typed)
  }

  function Redeem(a: Account, pick: Option<nat>): Account
  {
    if pick.Some? then MarkUsed(a, pick.value) else a
  }

  // ---------------------------------------------------------------------------
  // Handlers
  // ---------------------------------------------------------------------------

  /** One handler call. `valid` is the outcome of checking the 6-digit code, `password` of the
      password check, `userEnabled` the user row's own flag; `pick` is the recovery row redeemed,
      if the call gets that far. */
  datatype Request =
    | BeginSetup(isLocal: bool, secret: string)
    | ConfirmSetup(valid: bool, hashes: seq<Hash>, enableFails: bool)
    | Disable(password: bool, valid: bool, typed: string, pick: Option<nat>)
    | Regenerate(valid: bool, hashes: seq<Hash>)
    | AdminReset
    | Login(userEnabled: bool, isRecovery: bool, typed: string, pick: Option<nat>)

  /** The call reaches consumeRecoveryCode. */
  predicate Consults(a: Account, r: Request)
  {
    match r
    case Disable(password, valid, _, _) => a.enabled && password && a.secret.Some? && !valid
    case Login(userEnabled, isRecovery, _, _) => userEnabled && a.enabled && a.secret.Some? && isRecovery
    case _ => false
  }

  /** New sets have ten codes, and a consulted `pick` is one the loop may make. */
  ghost predicate Enabled(a: Account, r: Request)
  {
    && (r.ConfirmSetup? || r.Regenerate? ==> |r.hashes| == RECOVERY_CODE_COUNT)
    && (Consults(a, r) ==> IsRedemption(a, r.typed, r.pick))
  }

  /** The recovery row the call redeems. */
  function Redeemed(a: Account, r: Request): Option<nat>
  {
    if Consults(a, r) then r.pick else None
  }

  function Handle(a: Account, r: Request): Account
  {
    match r
    case BeginSetup(isLocal, secret) => if isLocal && !a.enabled then a.(secret := Some(secret), enabled := false) else a
    case ConfirmSetup(valid, hashes, enableFails) =>
      if a.secret.None? || !valid then a
      else if enableFails then Replace(a, hashes)
      else Replace(a, hashes).(enabled := true)
    case Disable(password, valid, _, pick) =>
      if !a.enabled || !password || a.secret.None? then a
      else if valid then Clear(a)
      else if pick.Some? then Clear(Redeem(a, pick))
      else a
    case Regenerate(valid, hashes) => if a.enabled && a.secret.Some? && valid then Replace(a, hashes) else a
    case AdminReset => if a.enabled then Clear(a) else a
    case Login(userEnabled, isRecovery, _, pick) => if userEnabled && a.enabled && a.secret.Some? && isRecovery then Redeem(a, pick) else a
  }

  ghost function After(a: Account, run: seq<Request>, n: nat): Account
    requires n <= |run|
  {
    if n == 0 then a else Handle(After(a, run, n - 1), run[n - 1])
  }

  ghost predicate StepEnabled(a: Account, run: seq<Request>, i: nat)
    requires i < |run|
  {
    Enabled(After(a, run, i), run[i])
  }

  ghost predicate IsRun(a: Account, run: seq<Request>)
  {
    forall i :: 0 <= i < |run| ==> StepEnabled(a, run, i)
  }

  const FRESH := Account(None, false, map[], 0)

  // ---------------------------------------------------------------------------
  // Invariants
  // ---------------------------------------------------------------------------

  function UsedIds(a: Account): set<nat>
  {
    set id | id in a.codes && a.codes[id].used
  }

  function UnusedIds(a: Account): set<nat>
  {
    set id | id in a.codes && !a.codes[id].used
  }

  /** Armed means there is a secret and a full set of codes; a set is full or empty. */
  ghost predicate Wf(a: Account)
  {
    && (a.enabled ==> a.secret.Some? && |a.codes| == RECOVERY_CODE_COUNT)
    && (|a.codes| == 0 || |a.codes| == RECOVERY_CODE_COUNT)
    && (forall id :: id in a.codes ==> id < a.nextId)
  }

  lemma ReplaceIsFull(a: Account, hashes: seq<Hash>)
    ensures |Replace(a, hashes).codes| == |hashes| && UsedIds(Replace(a, hashes)) == {}
    ensures forall id :: id in Replace(a, hashes).codes ==> a.nextId <= id < a.nextId + |hashes|
  {
  }

  lemma RedeemKeepsKeys(a: Account, pick: Option<nat>)
    ensures Redeem(a, pick).codes.Keys == a.codes.Keys && |Redeem(a, pick).codes| == |a.codes|
  {
    var after := Redeem(a, pick).codes;
    assert after.Keys == a.codes.Keys;
    assert |after| == |after.Keys| && |a.codes| == |a.codes.Keys|;
  }

  lemma {:induction false} HandleKeepsWf(a: Account, r: Request)
    requires Wf(a) && Enabled(a, r)
    ensures Wf(Handle(a, r)) && a.nextId <= Handle(a, r).nextId
  {
    match r
    case ConfirmSetup(_, hashes, _) => ReplaceIsFull(a, hashes);
    case Regenerate(_, hashes) => ReplaceIsFull(a, hashes);
    case Login(_, _, _, pick) => RedeemKeepsKeys(a, pick);
    case _ =>
  }

  /** In every run an armed account has a stored secret and a full set of codes. */
  lemma {:induction false} RunKeepsWf(a: Account, run: seq<Request>, n: nat)
    requires Wf(a) && IsRun(a, run) && n <= |run|
    ensures Wf(After(a, run, n))
  {
    if n > 0 {
      RunKeepsWf(a, run, n - 1);
      assert StepEnabled(a, run, n - 1);
      HandleKeepsWf(After(a, run, n - 1), run[n - 1]);
    }
  }

  // ---------------------------------------------------------------------------
  // Redemption
  // ---------------------------------------------------------------------------

  /** The row is spent: marked used, or gone with its key never to return. */
  predicate Spent(a: Account, id: nat)
  {
    id < a.nextId && (id in a.codes ==> a.codes[id].used)
  }

  lemma {:induction false} RedeemedBecomesSpent(a: Account, r: Request, id: nat)
    requires Wf(a) && Enabled(a, r) && Redeemed(a, r) == Some(id)
    ensures !Spent(a, id) && Spent(Handle(a, r), id)
  {
  }

  lemma {:induction false} SpentStays(a: Account, r: Request, id: nat)
    requires Wf(a) && Enabled(a, r) && Spent(a, id)
    ensures Spent(Handle(a, r), id)
  {
    match r
    case ConfirmSetup(_, hashes, _) => ReplaceIsFull(a, hashes);
    case Regenerate(_, hashes) => ReplaceIsFull(a, hashes);
    case _ =>
  }

  lemma {:induction false} SpentStep(a: Account, run: seq<Request>, i: nat, id: nat)
    requires Wf(a) && IsRun(a, run) && i < |run| && Spent(After(a, run, i), id)
    ensures Spent(After(a, run, i + 1), id)
  {
    RunKeepsWf(a, run, i);
    assert StepEnabled(a, run, i);
    SpentStays(After(a, run, i), run[i], id);
  }

  lemma {:induction false} SpentAfter(a: Account, run: seq<Request>, i: nat, j: nat, id: nat)
    requires Wf(a) && IsRun(a, run) && i <= j <= |run| && Spent(After(a, run, i), id)
    ensures Spent(After(a, run, j), id)
    decreases j - i
  {
    if i < j {
      SpentAfter(a, run, i, j - 1, id);
      SpentStep(a, run, j - 1, id);
    }
  }

  /** In every serial run each recovery-code row is redeemed at most once. */
  lemma {:induction false} RedeemedAtMostOnce(a: Account, run: seq<Request>, i: nat, j: nat, id: nat)
    requires Wf(a) && IsRun(a, run) && i < |run| && j < |run|
    requires Redeemed(After(a, run, i), run[i]) == Some(id) && Redeemed(After(a, run, j), run[j]) == Some(id)
    ensures i == j
  {
    RunKeepsWf(a, run, i);
    RunKeepsWf(a, run, j);
    assert StepEnabled(a, run, i) && StepEnabled(a, run, j);
    RedeemedBecomesSpent(After(a, run, i), run[i], id);
    RedeemedBecomesSpent(After(a, run, j), run[j], id);
    if i < j { SpentAfter(a, run, i + 1, j, id); }
    if j < i { SpentAfter(a, run, j + 1, i, id); }
  }

  // ---------------------------------------------------------------------------
  // Conservation
  // ---------------------------------------------------------------------------

  /** The call installs a new set of codes, or removes the set. */
  predicate ResetsCodes(a: Account, r: Request)
  {
    match r
    case ConfirmSetup(valid, _, _) => a.secret.Some? && valid
    case Regenerate(valid, _) => a.enabled && a.secret.Some? && valid
    case Disable(password, valid, _, pick) => a.enabled && password && a.secret.Some? && (valid || pick.Some?)
    case AdminReset => a.enabled
    case _ => false
  }

  /** Redemptions since the last reset within the first `n` calls. */
  ghost function RedeemedSince(a: Account, run: seq<Request>, n: nat): nat
    requires n <= |run|
  {
    if n == 0 then 0
    else
      var before := After(a, run, n - 1);
      if ResetsCodes(before, run[n - 1]) then 0
      else RedeemedSince(a, run, n - 1) + (if Redeemed(before, run[n - 1]).Some? then 1 else 0)
  }

  lemma UnusedAndUsed(a: Account)
    ensures |UnusedIds(a)| + |UsedIds(a)| == |a.codes|
  {
    assert UnusedIds(a) + UsedIds(a) == a.codes.Keys && UnusedIds(a) !! UsedIds(a);
    assert |UnusedIds(a) + UsedIds(a)| == |UnusedIds(a)| + |UsedIds(a)|;
    assert |a.codes| == |a.codes.Keys|;
  }

  /** A call changes the number of redeemed rows only by resetting the set or redeeming one. */
  lemma {:induction false} UsedCount(a: Account, r: Request)
    requires Enabled(a, r)
    ensures |UsedIds(Handle(a, r))| ==
              if ResetsCodes(a, r) then 0 else |UsedIds(a)| + (if Redeemed(a, r).Some? then 1 else 0)
  {
    if ResetsCodes(a, r) {
      if r.ConfirmSetup? || r.Regenerate? { ReplaceIsFull(a, r.hashes); }
      assert UsedIds(Handle(a, r)) == {};
    } else if Redeemed(a, r).Some? {
      assert Handle(a, r) == MarkUsed(a, r.pick.value);
      MarkAddsOne(a, r.pick.value);
    } else {
      assert Handle(a, r).codes == a.codes;
    }
  }

  lemma MarkAddsOne(a: Account, id: nat)
    requires id in a.codes && !a.codes[id].used
    ensures |UsedIds(MarkUsed(a, id))| == |UsedIds(a)| + 1
  {
    assert UsedIds(MarkUsed(a, id)) == UsedIds(a) + {id};
  }

  lemma {:induction false} UsedMatchesRedeemed(a: Account, run: seq<Request>, n: nat)
    requires UsedIds(a) == {} && IsRun(a, run) && n <= |run|
    ensures |UsedIds(After(a, run, n))| == RedeemedSince(a, run, n)
  {
    if n > 0 {
      UsedMatchesRedeemed(a, run, n - 1);
      assert StepEnabled(a, run, n - 1);
      UsedCount(After(a, run, n - 1), run[n - 1]);
    }
  }

  /** In every run of a new account there are either no codes, or the unused ones and the
      redemptions since the last rotation add up to ten. */
  lemma {:induction false} CodesAreConserved(run: seq<Request>, n: nat)
    requires IsRun(FRESH, run) && n <= |run|
    ensures var a := After(FRESH, run, n);
            a.codes == map[] || |UnusedIds(a)| + RedeemedSince(FRESH, run, n) == RECOVERY_CODE_COUNT
    ensures After(FRESH, run, n).enabled ==> After(FRESH, run, n).secret.Some?
  {
    RunKeepsWf(FRESH, run, n);
    UsedMatchesRedeemed(FRESH, run, n);
    var a := After(FRESH, run, n);
    UnusedAndUsed(a);
  }

  /** Disabling leaves no codes and no secret. */
  lemma DisableLeavesNothing(a: Account, r: Request)
    requires (r.Disable? || r.AdminReset?) && ResetsCodes(a, r)
    ensures Handle(a, r).codes == map[] && Handle(a, r).secret == None && !Handle(a, r).enabled
  {
  }

  // ---------------------------------------------------------------------------
  // The redemption loop
  // ---------------------------------------------------------------------------

  /** rotateRecoveryCodes hashes the normalised form of each displayed code. */
  function HashCodes(codes: seq<string>, salt: nat): seq<Hash>
  {
    seq(|codes|, i requires 0 <= i < |codes| => Hash(Normalize(codes[i]), salt + i))
  }

  /** The hashing loop of rotateRecoveryCodes. */
  method HashAll(displayed: seq<string>, salt: nat) returns (hashes: seq<Hash>)
    ensures hashes == HashCodes(displayed, salt)
  {
    hashes := [];
    for i := 0 to |displayed|
      invariant |hashes| == i && forall j :: 0 <= j < i ==> hashes[j] == Hash(Normalize(displayed[j]), salt + j)
    {
      hashes := hashes + [Hash(Normalize(displayed[i]), salt + i)];
    }
  }

  /** Any spelling of a code as displayed redeems its row. */
  lemma SpellingIsRedeemable(code: string, typed: string, salt: nat)
    requires IsBase32(code) && Spells(typed, code)
    ensures Compare(HashCodes([Grouped(code)], salt)[0], Normalize(typed))
  {
    GroupedSpells(code);
    SpellingsNormalize(Grouped(code), code);
    SpellingsNormalize(typed, code);
  }

  // ---------------------------------------------------------------------------
  // What each request does, column by column
  // ---------------------------------------------------------------------------

  /** Setup stores the new secret unconfirmed, for a local account that is not armed, and keeps the codes. */
  lemma BeginSetupByColumns(a: Account, isLocal: bool, secret: string)
    ensures var t := Handle(a, BeginSetup(isLocal, secret));
            if isLocal && !a.enabled then t == Account(Some(secret), false, a.codes, a.nextId) else t == a
  {
  }

  /** The rows are unused, one per hash, in order, under the keys from `first` on. */
  ghost predicate FreshRows(first: nat, rows: map<nat, Code>, hashes: seq<Hash>)
  {
    && (forall id :: id in rows <==> first <= id < first + |hashes|)
    && forall id :: id in rows ==> rows[id] == Code(hashes[id - first], false)
  }

  lemma NewRowsAreFresh(first: nat, hashes: seq<Hash>)
    ensures FreshRows(first, NewRows(first, hashes), hashes)
  {
  }

  /** A valid code against a stored secret installs the new codes and, unless that write fails, arms
      the account; the secret stays. */
  lemma ConfirmSetupByColumns(a: Account, valid: bool, hashes: seq<Hash>, enableFails: bool)
    ensures var t := Handle(a, ConfirmSetup(valid, hashes, enableFails));
            if valid && a.secret != None then
              && t.secret == a.secret && (t.enabled <==> a.enabled || !enableFails)
              && t.nextId == a.nextId + |hashes| && FreshRows(a.nextId, t.codes, hashes)
            else t == a
  {
    NewRowsAreFresh(a.nextId, hashes);
  }

  lemma RegenerateByColumns(a: Account, valid: bool, hashes: seq<Hash>)
    ensures var t := Handle(a, Regenerate(valid, hashes));
            if valid && a.secret != None && a.enabled then
              t.secret == a.secret && t.enabled && t.nextId == a.nextId + |hashes| && FreshRows(a.nextId, t.codes, hashes)
            else t == a
  {
    NewRowsAreFresh(a.nextId, hashes);
  }

  /** Disabling needs the password and a valid code or a matching recovery code; a reset needs an
      armed account. Both leave nothing. */
  lemma DisableByColumns(a: Account, password: bool, valid: bool, typed: string, pick: Option<nat>)
    ensures Handle(a, Disable(password, valid, typed, pick)) ==
              if a.enabled && password && a.secret != None && (valid || pick != None) then Account(None, false, map[], a.nextId) else a
    ensures Handle(a, AdminReset) == if a.enabled then Account(None, false, map[], a.nextId) else a
  {
    if pick.Some? && pick.value in a.codes { assert Redeem(a, pick).nextId == a.nextId; }
  }

  /** A login with a recovery code marks the row it matched and changes nothing else. */
  lemma LoginByColumns(a: Account, userEnabled: bool, isRecovery: bool, typed: string, id: nat)
    requires id in a.codes
    ensures Handle(a, Login(userEnabled, isRecovery, typed, Some(id))) ==
              if userEnabled && isRecovery && a.enabled && a.secret != None then a.(codes := a.codes[id := a.codes[id].(used := true)]) else a
    ensures Handle(a, Login(userEnabled, isRecovery, typed, None)) == a
  {
  }

  /** A row can be redeemed exactly while it is unused and the typed text, trimmed, without dashes and
      spaces and in upper case, is the text it was hashed from. */
  lemma RedeemableByColumns(a: Account, id: nat, typed: string)
    ensures Redeemable(a, id, typed) <==> id in a.codes && !a.codes[id].used && Spells(TrimRight(TrimLeft(typed)), a.codes[id].hash.text)
  {
    if id in a.codes { NormalizedIffSpells(typed, a.codes[id].hash.text); }
  }

  // ---------------------------------------------------------------------------
  // From enrolment to redemption
  // ---------------------------------------------------------------------------

  /** The codes as displayed. */
  function Displayed(codes: seq<string>): seq<string>
  {
    seq(|codes|, i requires 0 <= i < |codes| => Grouped(codes[i]))
  }

  lemma {:induction false} RowHoldsCode(codes: seq<string>, salt: nat, i: nat)
    requires i < |codes| && IsBase32(codes[i])
    ensures HashCodes(Displayed(codes), salt)[i].text == codes[i]
  {
    GroupedSpells(codes[i]);
    SpellingsNormalize(Grouped(codes[i]), codes[i]);
  }

  /** The account after setup and confirmation. */
  function Enrolled(a: Account, secret: string, codes: seq<string>, salt: nat): Account
  {
    Handle(Handle(a, BeginSetup(true, secret)), ConfirmSetup(true, HashCodes(Displayed(codes), salt), false))
  }

  /** It is armed with the new secret and has one unused row per code, holding that code. */
  ghost predicate HoldsCodes(first: nat, rows: map<nat, Code>, codes: seq<string>)
  {
    && (forall id :: id in rows <==> first <= id < first + |codes|)
    && forall id :: id in rows ==> !rows[id].used && rows[id].hash.text == codes[id - first]
  }

  ghost predicate AllBase32(codes: seq<string>)
  {
    forall j :: 0 <= j < |codes| ==> IsBase32(codes[j])
  }

  lemma {:induction false} HashesHoldCodes(codes: seq<string>, salt: nat)
    requires AllBase32(codes)
    ensures var hashes := HashCodes(Displayed(codes), salt); |hashes| == |codes| && forall j :: 0 <= j < |codes| ==> hashes[j].text == codes[j]
  {
    forall j | 0 <= j < |codes|
      ensures HashCodes(Displayed(codes), salt)[j].text == codes[j]
    {
      RowHoldsCode(codes, salt, j);
    }
  }

  lemma FreshRowsHoldCodes(first: nat, rows: map<nat, Code>, hashes: seq<Hash>, codes: seq<string>)
    requires FreshRows(first, rows, hashes) && |hashes| == |codes| && forall j :: 0 <= j < |codes| ==> hashes[j].text == codes[j]
    ensures HoldsCodes(first, rows, codes)
  {
  }

  lemma {:induction false} EnrolledHoldsCodes(a: Account, secret: string, codes: seq<string>, salt: nat)
    requires !a.enabled && AllBase32(codes)
    ensures var t := Enrolled(a, secret, codes, salt);
            t.enabled && t.secret == Some(secret) && HoldsCodes(a.nextId, t.codes, codes)
  {
    var hashes := HashCodes(Displayed(codes), salt);
    BeginSetupByColumns(a, true, secret);
    ConfirmSetupByColumns(Handle(a, BeginSetup(true, secret)), true, hashes, false);
    HashesHoldCodes(codes, salt);
    FreshRowsHoldCodes(a.nextId, Enrolled(a, secret, codes, salt).codes, hashes, codes);
  }

  /** Only row `id` holds the code, and it is unused. */
  ghost predicate OnlyRow(rows: map<nat, Code>, id: nat, code: string)
  {
    id in rows && !rows[id].used && rows[id].hash.text == code && forall k :: k in rows && rows[k].hash.text == code ==> k == id
  }

  lemma OnlyRowHolds(first: nat, rows: map<nat, Code>, codes: seq<string>, i: nat)
    requires HoldsCodes(first, rows, codes) && i < |codes| && forall j :: 0 <= j < |codes| && codes[j] == codes[i] ==> j == i
    ensures OnlyRow(rows, first + i, codes[i])
  {
    forall k | k in rows && rows[k].hash.text == codes[i]
      ensures k == first + i
    {
      assert codes[k - first] == codes[i];
    }
  }

  /** A code only one row holds is redeemed from that row, and then from none. */
  lemma {:induction false} RedeemOnce(t: Account, id: nat, code: string, typed: string)
    requires OnlyRow(t.codes, id, code) && Normalize(typed) == code && t.enabled && t.secret.Some?
    ensures IsRedemption(t, typed, Some(id)) && IsRedemption(Handle(t, Login(true, true, typed, Some(id))), typed, None)
  {
    LoginByColumns(t, true, true, typed, id);
  }

  /** Enrolling arms the account with the new secret and exactly the new codes; then any spelling of
      a displayed code logs the user in, once: typed again it matches nothing. */
  lemma {:induction false} EnrolThenRedeem(a: Account, secret: string, codes: seq<string>, salt: nat, i: nat, typed: string)
    requires !a.enabled && AllBase32(codes) && i < |codes| && Spells(typed, codes[i])
    requires forall j :: 0 <= j < |codes| && codes[j] == codes[i] ==> j == i
    ensures var t := Enrolled(a, secret, codes, salt); t.enabled && t.secret == Some(secret) && HoldsCodes(a.nextId, t.codes, codes)
    ensures IsRedemption(Enrolled(a, secret, codes, salt), typed, Some(a.nextId + i))
    ensures IsRedemption(Handle(Enrolled(a, secret, codes, salt), Login(true, true, typed, Some(a.nextId + i))), typed, None)
  {
    EnrolledHoldsCodes(a, secret, codes, salt);
    SpellingsNormalize(typed, codes[i]);
    OnlyRowHolds(a.nextId, Enrolled(a, secret, codes, salt).codes, codes, i);
    RedeemOnce(Enrolled(a, secret, codes, salt), a.nextId + i, codes[i], typed);
  }

  class AccountStore {
    var secret: Option<string>
    var enabled: bool
    var codes: map<nat, Code>
    var nextId: nat

    function View(): Account
      reads this
    {
      Account(secret, enabled, codes, nextId)
    }

    constructor ()
      ensures View() == FRESH
    {
      secret, enabled, codes, nextId := None, false, map[], 0;
    }

    /** ListUnusedUserTOTPRecoveryCodes, in the order the database returns. */
    method ListUnused() returns (rows: seq<nat>)
      ensures forall id :: id in rows <==> id in codes && !codes[id].used
    {
      rows := [];
      var rest := UnusedIds(View());
      while rest != {}
        invariant forall id :: id in rows || id in rest <==> id in UnusedIds(View())
        decreases |rest|
      {
        var id :| id in rest;
        rows, rest := rows + [id], rest - {id};
      }
    }

    /** Redeem the first unused row that matches what the user typed. */
    method ConsumeRecoveryCode(typed: string) returns (ok: bool, ghost pick: Option<nat>)
      modifies this`codes
      ensures IsRedemption(old(View()), typed, pick) && (ok <==> pick.Some?)
      ensures View() == Redeem(old(View()), pick)
    {
      var rows := ListUnused();
      var normalized := Normalize(typed);
      for i := 0 to |rows|
        invariant codes == old(codes)
        invariant forall j :: 0 <= j < i ==> !Compare(codes[rows[j]].hash, normalized)
      {
        var id := rows[i];
        if Compare(codes[id].hash, normalized) {
          codes := codes[id := codes[id].(used := true)];
          return true, Some(id);
        }
      }
      return false, None;
    }

    method DisableUserTotp()
      modifies this`secret, this`enabled, this`codes
      ensures View() == Clear(old(View()))
    {
      secret, enabled := None, false;
      codes := map[];
    }

    /** rotateRecoveryCodes: hash every code, then replace the set. */
    method RotateRecoveryCodes(displayed: seq<string>, salt: nat)
      modifies this`codes, this`nextId
      ensures View() == Replace(old(View()), HashCodes(displayed, salt))
    {
      var hashes := HashAll(displayed, salt);
      codes, nextId := NewRows(nextId, hashes), nextId + |hashes|;
    }

    method BeginSetup(isLocal: bool, newSecret: string) returns (ok: bool)
      modifies this`secret, this`enabled
      ensures ok <==> isLocal && !old(enabled)
      ensures View() == Handle(old(View()), Request.BeginSetup(isLocal, newSecret))
    {
      ok := isLocal && !enabled;
      if ok {
        secret, enabled := Some(newSecret), false;
      }
    }

    /** Verify, rotate the codes, then flip the flag; the flag write may fail on its own. */
    method ConfirmSetup(valid: bool, displayed: seq<string>, salt: nat, enableFails: bool) returns (ok: bool)
      modifies this`enabled, this`codes, this`nextId
      ensures ok <==> old(secret).Some? && valid && !enableFails
      ensures View() == Handle(old(View()), Request.ConfirmSetup(valid, HashCodes(displayed, salt), enableFails))
    {
      if secret.None? || !valid {
        return false;
      }
      RotateRecoveryCodes(displayed, salt);
      if enableFails {
        return false;
      }
      enabled := true;
      return true;
    }

    method RegenerateRecoveryCodes(valid: bool, displayed: seq<string>, salt: nat) returns (ok: bool)
      modifies this`codes, this`nextId
      ensures ok <==> enabled && secret.Some? && valid
      ensures View() == Handle(old(View()), Request.Regenerate(valid, HashCodes(displayed, salt)))
    {
      ok := enabled && secret.Some? && valid;
      if ok {
        RotateRecoveryCodes(displayed, salt);
      }
    }

    method AdminReset() returns (ok: bool)
      modifies this`secret, this`enabled, this`codes
      ensures ok <==> old(enabled)
      ensures View() == Handle(old(View()), Request.AdminReset)
    {
      ok := enabled;
      if ok {
        DisableUserTotp();
      }
    }

    /** Handler.Disable: password, then a 6-digit code or a recovery code. */
    method Disable(password: bool, valid: bool, typed: string) returns (ok: bool, ghost pick: Option<nat>)
      modifies this`secret, this`enabled, this`codes
      ensures Enabled(old(View()), Request.Disable(password, valid, typed, pick))
      ensures View() == Handle(old(View()), Request.Disable(password, valid, typed, pick))
      ensures ok <==> ResetsCodes(old(View()), Request.Disable(password, valid, typed, pick))
    {
      ok, pick := false, None;
      if !enabled || !password || secret.None? {
        return;
      }
      ok := valid;
      if !valid {
        ok, pick := ConsumeRecoveryCode(typed);
        if !ok {
          return;
        }
      }
      DisableUserTotp();
    }

    /** Handler.LoginTOTP. */
    method LoginTotp(userEnabled: bool, isRecovery: bool, valid: bool, typed: string) returns (verified: bool, ghost pick: Option<nat>)
      modifies this`codes
      ensures Enabled(old(View()), Request.Login(userEnabled, isRecovery, typed, pick))
      ensures View() == Handle(old(View()), Request.Login(userEnabled, isRecovery, typed, pick))
      ensures verified <==> userEnabled && enabled && secret.Some? && if isRecovery then pick.Some? else valid
    {
      verified, pick := false, None;
      if !userEnabled || !enabled || secret.None? {
        return;
      }
      if isRecovery {
        verified, pick := ConsumeRecoveryCode(typed);
      } else {
        verified := valid;
      }
    }
  }
}
