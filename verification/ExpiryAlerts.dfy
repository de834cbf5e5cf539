/**
 Expiry alerts over whole runs: a row of `certificate_expiry_alerts` is claimed
 before each mail is attempted, while other jobs delete rows from the same table.
 */
module ExpiryAlerts {
  import opened Base
  import opened Db
  import opened Runs

  /** The step claims the alert, so a mail for it is attempted. */
  predicate Mails(s: Tables, step: Step, a: Alert)
  {
    step == OnNotes(TryInsertExpiryAlert(a)) && Claims(s, a)
  }

  /** Either the certificate is current on no endpoint or the user is gone. */
  predicate Quiet(s: Tables, a: Alert)
  {
    !Current(s.obs.links, a.fingerprint) || a.user !in s.users
  }

  /** An alert row only ever disappears around a quiet state. */
  lemma {:induction false} RowVanishesQuietly(s: Tables, step: Step, a: Alert)
    requires NoDangling(s) && a in s.notes.alerts && a !in Apply(s, step).notes.alerts
    ensures Quiet(s, a) || Quiet(Apply(s, step), a)
  {
    if step.OnPurge? { DroppedMeansUnlinked(s, step.purge, a); }
    else { assert step.OnNotes?; NoteRowVanishesQuietly(s, step.note, a); }
  }

  lemma {:induction false} NoteRowVanishesQuietly(s: Tables, step: NoteStep, a: Alert)
    requires a in s.notes.alerts && a !in ApplyNote(s, step).notes.alerts
    ensures Quiet(s, a) || Quiet(ApplyNote(s, step), a)
  {
  }

  lemma {:induction false} DroppedMeansUnlinked(s: Tables, step: PurgeStep, a: Alert)
    requires NoDangling(s) && a in s.notes.alerts && a !in ApplyPurge(s, step).notes.alerts
    ensures !Current(ApplyPurge(s, step).obs.links, a.fingerprint)
  {
    var t := ApplyPurge(s, step);
    PurgeStepKeepsNoDangling(s, step);
    assert a.fingerprint !in t.certs;
  }

  /** A row present before step `i` and absent before step `j` vanished at some step between. */
  lemma {:induction false} VanishesBetween(s: Tables, steps: seq<Step>, i: nat, j: nat, a: Alert) returns (m: nat)
    requires i <= j <= |steps|
    requires a in After(s, steps, i).notes.alerts && a !in After(s, steps, j).notes.alerts
    ensures i <= m < j
    ensures a in After(s, steps, m).notes.alerts && a !in After(s, steps, m + 1).notes.alerts
    decreases j - i
  {
    if a in After(s, steps, j - 1).notes.alerts {
      m := j - 1;
    } else {
      m := VanishesBetween(s, steps, i, j - 1, a);
    }
  }

  /** A claim leaves the row in place. */
  lemma {:induction false} MailLeavesRow(s: Tables, step: Step, a: Alert)
    requires Mails(s, step, a)
    ensures a in Apply(s, step).notes.alerts
  {
  }

  /** At most one mail: in every run, between two mails for the same user, certificate and
      threshold there is a state where the certificate is current nowhere or the user is gone. */
  lemma {:induction false} QuietBetweenMails(s: Tables, steps: seq<Step>, i: nat, j: nat, a: Alert)
    requires NoDangling(s) && i < j < |steps|
    requires Mails(After(s, steps, i), steps[i], a) && Mails(After(s, steps, j), steps[j], a)
    ensures exists k :: i < k <= j && Quiet(After(s, steps, k), a)
  {
    MailLeavesRow(After(s, steps, i), steps[i], a);
    assert After(s, steps, i + 1) == Apply(After(s, steps, i), steps[i]);
    var m := VanishesBetween(s, steps, i + 1, j, a);
    RunKeepsNoDangling(s, steps, m);
    RowVanishesQuietly(After(s, steps, m), steps[m], a);
    assert After(s, steps, m + 1) == Apply(After(s, steps, m), steps[m]);
  }

  /** The purge by columns: a row stays exactly when its certificate is current on some endpoint. */
  lemma PurgeAlertsByColumns(s: Tables, a: Alert)
    ensures a in PurgeAlerts(s).notes.alerts <==>
              a in s.notes.alerts && exists l :: l in s.obs.links && s.obs.links[l] && l.fingerprint == a.fingerprint
    ensures PurgeAlerts(s) == s.(notes := s.notes.(alerts := PurgeAlerts(s).notes.alerts))
  {
  }

  /** A claim adds exactly its own row, when user and certificate are stored; deleting a user takes
      exactly that user's rows. */
  lemma AlertRowsByColumns(s: Tables, a: Alert, u: UserId, x: Alert)
    ensures x in ClaimAlert(s, a).notes.alerts <==> x in s.notes.alerts || (x == a && a.user in s.users && a.fingerprint in s.certs)
    ensures x in DropUser(s, u).notes.alerts <==> x in s.notes.alerts && x.user != u
  {
  }

  // ---------------------------------------------------------------------------
  // Thresholds
  // ---------------------------------------------------------------------------

  /** FLOOR of the remaining time in days. */
  function DaysRemaining(notAfter: int, now: nat): int
  {
    (notAfter - now) / 86_400_000_000
  }

  /** A threshold of `t` days covers the certificate exactly when less than `t + 1` days are left. */
  lemma DaysByClock(notAfter: int, now: nat, t: int)
    ensures DaysRemaining(notAfter, now) <= t <==> notAfter - now < (t + 1) * (24 * 60 * 60 * 1_000_000)
  {
  }

  ghost predicate Descending(thresholds: seq<int>)
  {
    forall i, j :: 0 <= i < j < |thresholds| ==> thresholds[i] >= thresholds[j]
  }

  ghost predicate Positive(thresholds: seq<int>)
  {
    forall t :: t in thresholds ==> t > 0
  }

  /** What the loop of alertThreshold leaves after the whole list. */
  function AlertThreshold(days: int, thresholds: seq<int>): int
  {
    if thresholds == [] then 0
    else
      var n := |thresholds| - 1;
      if days <= thresholds[n] then thresholds[n] else AlertThreshold(days, thresholds[..n])
  }

  lemma LastOrEarlier(thresholds: seq<int>, t: int)
    requires thresholds != []
    ensures var n := |thresholds| - 1; t in thresholds <==> t in thresholds[..n] || t == thresholds[n]
  {
    var n := |thresholds| - 1;
    assert thresholds == thresholds[..n] + [thresholds[n]];
  }

  lemma {:induction false} ZeroIffNoneQualifies(days: int, thresholds: seq<int>)
    requires Positive(thresholds)
    ensures AlertThreshold(days, thresholds) == 0 <==> forall t :: t in thresholds ==> t < days
  {
    if thresholds != [] {
      var n := |thresholds| - 1;
      assert thresholds[n] in thresholds;
      forall t
        ensures t in thresholds <==> t in thresholds[..n] || t == thresholds[n]
      {
        LastOrEarlier(thresholds, t);
      }
      ZeroIffNoneQualifies(days, thresholds[..n]);
    }
  }

  lemma LastIsLeast(thresholds: seq<int>, t: int)
    requires Descending(thresholds) && t in thresholds
    ensures thresholds[|thresholds| - 1] <= t
  {
    var i :| 0 <= i < |thresholds| && thresholds[i] == t;
  }

  lemma {:induction false} ResultQualifies(days: int, thresholds: seq<int>)
    requires AlertThreshold(days, thresholds) != 0
    ensures AlertThreshold(days, thresholds) in thresholds && days <= AlertThreshold(days, thresholds)
  {
    var n := |thresholds| - 1;
    if thresholds[n] < days { ResultQualifies(days, thresholds[..n]); }
  }

  lemma {:induction false} ResultIsLeast(days: int, thresholds: seq<int>, t: int)
    requires Descending(thresholds) && t in thresholds && days <= t
    ensures AlertThreshold(days, thresholds) <= t
  {
    var n := |thresholds| - 1;
    LastIsLeast(thresholds, t);
    if thresholds[n] < days {
      LastOrEarlier(thresholds, t);
      ResultIsLeast(days, thresholds[..n], t);
    }
  }

  /** On a descending list of positive thresholds it is the smallest that still covers the
      remaining days, and 0 exactly when none does. */
  lemma SmallestQualifying(days: int, thresholds: seq<int>)
    requires Descending(thresholds) && Positive(thresholds)
    ensures var r := AlertThreshold(days, thresholds);
            && (r == 0 <==> forall t :: t in thresholds ==> t < days)
            && (r != 0 ==> r in thresholds && days <= r && forall t :: t in thresholds && days <= t ==> r <= t)
  {
    ZeroIffNoneQualifies(days, thresholds);
    if AlertThreshold(days, thresholds) != 0 {
      ResultQualifies(days, thresholds);
      forall t | t in thresholds && days <= t { ResultIsLeast(days, thresholds, t); }
    }
  }

  /** Fewer days never mean a larger threshold. */
  lemma ThresholdMonotone(fewer: int, more: int, thresholds: seq<int>)
    requires Descending(thresholds) && Positive(thresholds)
    requires fewer <= more && AlertThreshold(more, thresholds) != 0
    ensures 0 < AlertThreshold(fewer, thresholds) <= AlertThreshold(more, thresholds)
  {
    SmallestQualifying(fewer, thresholds);
    SmallestQualifying(more, thresholds);
  }

  /** The alert carries the threshold the certificate's remaining days call for. */
  predicate Due(s: Tables, a: Alert, thresholds: seq<int>)
  {
    && a.fingerprint in s.certs
    && a.threshold != 0
    && a.threshold == AlertThreshold(DaysRemaining(s.certs[a.fingerprint].rec.notAfter, s.now), thresholds)
  }

  /** A stored certificate's record never changes, and the clock never runs back. */
  lemma {:induction false} StepKeepsRecord(s: Tables, step: Step, f: Fingerprint)
    requires f in s.certs && f in Apply(s, step).certs
    ensures Apply(s, step).certs[f].rec == s.certs[f].rec
    ensures s.now <= Apply(s, step).now
  {
  }

  lemma {:induction false} CurrentIsStored(s: Tables, steps: seq<Step>, k: nat, f: Fingerprint)
    requires NoDangling(s) && k <= |steps| && Current(After(s, steps, k).obs.links, f)
    ensures f in After(s, steps, k).certs
  {
    RunKeepsNoDangling(s, steps, k);
  }

  lemma {:induction false} RecordStep(s: Tables, steps: seq<Step>, i: nat, f: Fingerprint)
    requires i < |steps| && f in After(s, steps, i).certs && f in After(s, steps, i + 1).certs
    ensures RecordKept(After(s, steps, i), After(s, steps, i + 1), f)
  {
    StepKeepsRecord(After(s, steps, i), steps[i], f);
  }

  ghost predicate StoredAt(s: Tables, steps: seq<Step>, k: nat, f: Fingerprint)
    requires k <= |steps|
  {
    f in After(s, steps, k).certs
  }

  /** From state `t` to state `u`: the certificate's record is the same and time has not run back. */
  predicate RecordKept(t: Tables, u: Tables, f: Fingerprint)
  {
    && f in t.certs && f in u.certs
    && u.certs[f].rec == t.certs[f].rec
    && t.now <= u.now
  }

  lemma RecordKeptThrough(t: Tables, u: Tables, v: Tables, f: Fingerprint)
    requires RecordKept(t, u, f) && RecordKept(u, v, f)
    ensures RecordKept(t, v, f)
  {
  }

  /** A certificate that stays stored keeps its expiry. */
  lemma {:induction false} RecordStays(s: Tables, steps: seq<Step>, i: nat, j: nat, f: Fingerprint)
    requires i <= j <= |steps|
    requires forall k :: i <= k <= j ==> StoredAt(s, steps, k, f)
    ensures RecordKept(After(s, steps, i), After(s, steps, j), f)
    decreases j - i
  {
    assert StoredAt(s, steps, j, f);
    if i < j {
      RecordStays(s, steps, i, j - 1, f);
      assert RecordKept(After(s, steps, j - 1), After(s, steps, j), f) by {
        RecordStep(s, steps, j - 1, f);
      }
      RecordKeptThrough(After(s, steps, i), After(s, steps, j - 1), After(s, steps, j), f);
    }
  }

  /** Two mails to one user about one certificate, each listed no later than it was claimed and
      listed in the order claimed: while the certificate stays current and the user exists,
      the later mail carries the smaller threshold. */
  lemma {:induction false} ThresholdsDecrease(s: Tables, steps: seq<Step>, listedA: nat, i: nat, listedB: nat, j: nat,
                                              a: Alert, b: Alert, thresholds: seq<int>)
    requires NoDangling(s) && i < j < |steps| && listedA <= i && listedA <= listedB <= j
    requires Descending(thresholds) && Positive(thresholds)
    requires a.user == b.user && a.fingerprint == b.fingerprint
    requires Mails(After(s, steps, i), steps[i], a) && Due(After(s, steps, listedA), a, thresholds)
    requires Mails(After(s, steps, j), steps[j], b) && Due(After(s, steps, listedB), b, thresholds)
    requires forall k :: listedA <= k <= j ==> !Quiet(After(s, steps, k), a)
    ensures b.threshold < a.threshold
  {
    var f := a.fingerprint;
    forall k | listedA <= k <= listedB ensures StoredAt(s, steps, k, f) { CurrentIsStored(s, steps, k, f); }
    RecordStays(s, steps, listedA, listedB, f);
    var early, late := After(s, steps, listedA), After(s, steps, listedB);
    ThresholdMonotone(DaysRemaining(late.certs[f].rec.notAfter, late.now), DaysRemaining(early.certs[f].rec.notAfter, early.now), thresholds);
    if a == b {
      QuietBetweenMails(s, steps, i, j, a);
    }
  }

  /** One mail of a run: listed before step `listed`, claimed by step `at`. */
  datatype Mail = Mail(listed: nat, at: nat, alert: Alert)

  ghost predicate IsMail(s: Tables, steps: seq<Step>, m: Mail, user: UserId, f: Fingerprint, thresholds: seq<int>)
  {
    && m.listed <= m.at < |steps| && m.alert.user == user && m.alert.fingerprint == f
    && Mails(After(s, steps, m.at), steps[m.at], m.alert)
    && Due(After(s, steps, m.listed), m.alert, thresholds)
  }

  /** Claimed one after the other, and listed in that order. */
  ghost predicate InSequence(mails: seq<Mail>)
  {
    forall x, y :: 0 <= x < y < |mails| ==> mails[x].at < mails[y].at && mails[x].listed <= mails[y].listed
  }

  lemma FirstAndLast(mails: seq<Mail>, x: nat)
    requires InSequence(mails) && x < |mails|
    ensures mails[0].listed <= mails[x].listed && mails[x].at <= mails[|mails| - 1].at
  {
  }

  /** `mails` are mails of the run to `user` about `f`, in order. */
  ghost predicate AreMails(s: Tables, steps: seq<Step>, mails: seq<Mail>, user: UserId, f: Fingerprint, thresholds: seq<int>)
  {
    && InSequence(mails)
    && (forall x :: 0 <= x < |mails| ==> IsMail(s, steps, mails[x], user, f, thresholds))
  }

  ghost predicate AwakeAt(s: Tables, steps: seq<Step>, k: nat, user: UserId, f: Fingerprint)
    requires k <= |steps|
  {
    Current(After(s, steps, k).obs.links, f) && user in After(s, steps, k).users
  }

  ghost predicate AwakeBetween(s: Tables, steps: seq<Step>, from: nat, to: nat, user: UserId, f: Fingerprint)
  {
    forall k :: from <= k <= to && k <= |steps| ==> AwakeAt(s, steps, k, user, f)
  }

  lemma AwakeNarrower(s: Tables, steps: seq<Step>, from: nat, to: nat, user: UserId, f: Fingerprint, from': nat, to': nat)
    requires AwakeBetween(s, steps, from, to, user, f) && from <= from' && to' <= to
    ensures AwakeBetween(s, steps, from', to', user, f)
  {
  }

  /** The certificate stays current and the user stored from the first listing to the last claim. */
  ghost predicate AwakeThrough(s: Tables, steps: seq<Step>, mails: seq<Mail>, user: UserId, f: Fingerprint)
  {
    mails != [] ==> AwakeBetween(s, steps, mails[0].listed, mails[|mails| - 1].at, user, f)
  }

  lemma {:induction false} LaterMailSmaller(s: Tables, steps: seq<Step>, m: Mail, n: Mail, user: UserId, f: Fingerprint, thresholds: seq<int>)
    requires NoDangling(s) && Descending(thresholds) && Positive(thresholds)
    requires m.at < n.at && m.listed <= n.listed
    requires IsMail(s, steps, m, user, f, thresholds) && IsMail(s, steps, n, user, f, thresholds)
    requires AwakeBetween(s, steps, m.listed, n.at, user, f)
    ensures n.alert.threshold < m.alert.threshold
  {
    forall k | m.listed <= k <= n.at
      ensures !Quiet(After(s, steps, k), m.alert)
    {
      assert AwakeAt(s, steps, k, user, f);
    }
    ThresholdsDecrease(s, steps, m.listed, m.at, n.listed, n.at, m.alert, n.alert, thresholds);
  }

  lemma {:induction false} MailCarriesConfigured(s: Tables, steps: seq<Step>, m: Mail, user: UserId, f: Fingerprint, thresholds: seq<int>)
    requires IsMail(s, steps, m, user, f, thresholds)
    ensures m.alert.threshold in thresholds
  {
    var t := After(s, steps, m.listed);
    ResultQualifies(DaysRemaining(t.certs[f].rec.notAfter, t.now), thresholds);
  }

  /** The thresholds mailed, in order. */
  function Sent(mails: seq<Mail>): seq<int>
  {
    seq(|mails|, i requires 0 <= i < |mails| => mails[i].alert.threshold)
  }

  lemma {:induction false} SentDecreases(s: Tables, steps: seq<Step>, mails: seq<Mail>, user: UserId, f: Fingerprint, thresholds: seq<int>, x: nat, y: nat)
    requires NoDangling(s) && Descending(thresholds) && Positive(thresholds)
    requires AreMails(s, steps, mails, user, f, thresholds) && AwakeThrough(s, steps, mails, user, f)
    requires x < y < |mails|
    ensures Sent(mails)[y] < Sent(mails)[x]
  {
    FirstAndLast(mails, x);
    FirstAndLast(mails, y);
    AwakeNarrower(s, steps, mails[0].listed, mails[|mails| - 1].at, user, f, mails[x].listed, mails[y].at);
    LaterMailSmaller(s, steps, mails[x], mails[y], user, f, thresholds);
  }

  lemma {:induction false} SentAreConfigured(s: Tables, steps: seq<Step>, mails: seq<Mail>, user: UserId, f: Fingerprint, thresholds: seq<int>)
    requires AreMails(s, steps, mails, user, f, thresholds)
    ensures forall t :: t in Sent(mails) ==> t in thresholds
  {
    forall x | 0 <= x < |mails|
      ensures Sent(mails)[x] in thresholds
    {
      MailCarriesConfigured(s, steps, mails[x], user, f, thresholds);
    }
  }

  /** A user gets at most one mail per configured threshold, in decreasing order, about a
      certificate that stays current from the first listing to the last claim. */
  lemma {:induction false} MailsBounded(s: Tables, steps: seq<Step>, mails: seq<Mail>, user: UserId, f: Fingerprint, thresholds: seq<int>)
    requires NoDangling(s) && Descending(thresholds) && Positive(thresholds)
    requires AreMails(s, steps, mails, user, f, thresholds) && AwakeThrough(s, steps, mails, user, f)
    ensures forall x, y :: 0 <= x < y < |mails| ==> Sent(mails)[y] < Sent(mails)[x]
    ensures |mails| <= |thresholds|
  {
    forall x, y | 0 <= x < y < |mails|
      ensures Sent(mails)[y] < Sent(mails)[x]
    {
      SentDecreases(s, steps, mails, user, f, thresholds, x, y);
    }
    SentAreConfigured(s, steps, mails, user, f, thresholds);
    DistinctFits(Sent(mails), set t | t in thresholds);
    PoolFits(thresholds);
  }

  lemma {:induction false} PoolFits(thresholds: seq<int>)
    ensures |set t | t in thresholds| <= |thresholds|
  {
    if thresholds != [] {
      var n := |thresholds| - 1;
      PoolFits(thresholds[..n]);
      assert (set t | t in thresholds) == (set t | t in thresholds[..n]) + {thresholds[n]};
    }
  }
}
