/** The hourly job that claims and mails expiry alerts. */
module AlertJob {
  import opened Base
  import opened FleetTables
  import opened Db
  import opened ExpiryAlerts
  import opened StoreClass

  /** A notify-enabled user with the endpoints its tag subscriptions reach (none: all endpoints). */
  datatype Recipient = Recipient(user: UserId, hasEmail: bool, subscribed: set<EndpointId>)

  // ---------------------------------------------------------------------------
  // Thresholds
  // ---------------------------------------------------------------------------

  function InsertDescending(x: int, sorted: seq<int>): (r: seq<int>)
  {
    if sorted == [] || x >= sorted[0] then [x] + sorted
    else [sorted[0]] + InsertDescending(x, sorted[1..])
  }

  /** sort.Sort(sort.Reverse(...)). */
  function SortDescending(s: seq<int>): (r: seq<int>)
  {
    if s == [] then [] else InsertDescending(s[0], SortDescending(s[1..]))
  }

  lemma {:induction false} InsertKeepsMembers(x: int, sorted: seq<int>)
    ensures |InsertDescending(x, sorted)| == |sorted| + 1
    ensures forall y :: y in InsertDescending(x, sorted) <==> y == x || y in sorted
  {
    if sorted != [] && x < sorted[0] {
      InsertKeepsMembers(x, sorted[1..]);
      assert sorted == [sorted[0]] + sorted[1..];
    }
  }

  lemma {:induction false} InsertKeepsOrder(x: int, sorted: seq<int>)
    requires Descending(sorted)
    ensures Descending(InsertDescending(x, sorted))
  {
    if sorted != [] && x < sorted[0] {
      InsertKeepsOrder(x, sorted[1..]);
      InsertKeepsMembers(x, sorted[1..]);
      var rest := InsertDescending(x, sorted[1..]);
      forall i | 0 <= i < |rest|
        ensures rest[i] <= sorted[0]
      {
        assert rest[i] in rest;
      }
    }
  }

  lemma {:induction false} SortSorts(s: seq<int>)
    ensures Descending(SortDescending(s)) && |SortDescending(s)| == |s|
    ensures forall t :: t in SortDescending(s) <==> t in s
  {
    if s != [] {
      SortSorts(s[1..]);
      InsertKeepsOrder(s[0], SortDescending(s[1..]));
      InsertKeepsMembers(s[0], SortDescending(s[1..]));
      assert s == [s[0]] + s[1..];
    }
  }

  /** alertThreshold: later qualifying entries overwrite earlier ones. */
  method ComputeThreshold(days: int, thresholds: seq<int>) returns (result: int)
    ensures result == AlertThreshold(days, thresholds)
  {
    result := 0;
    for i := 0 to |thresholds|
      invariant result == AlertThreshold(days, thresholds[..i])
    {
      assert thresholds[..i + 1][..i] == thresholds[..i];
      if days <= thresholds[i] {
        result := thresholds[i];
      }
    }
    assert thresholds[..|thresholds|] == thresholds;
  }

  // ---------------------------------------------------------------------------
  // What is due
  // ---------------------------------------------------------------------------

  /** A row of v_active_certificates the recipient is subscribed to. */
  predicate ActiveFor(certs: map<Fingerprint, Cert>, links: map<Link, bool>, endpoints: map<EndpointId, Endpoint>, r: Recipient, l: Link)
  {
    && l in links && links[l] && l.fingerprint in certs
    && l.endpoint in endpoints && endpoints[l.endpoint].enabled
    && (r.subscribed == {} || l.endpoint in r.subscribed)
  }

  function Days(certs: map<Fingerprint, Cert>, now: nat, l: Link): int
  {
    if l.fingerprint in certs then DaysRemaining(certs[l.fingerprint].rec.notAfter, now) else 0
  }

  /** The alert is owed to the recipient: its certificate is current on an enabled endpoint the
      recipient watches, less than one day more than its threshold is left, and that is so for
      no smaller configured threshold. */
  ghost predicate IsDue(store: Tables, r: Recipient, a: Alert, configured: seq<int>)
  {
    && r.hasEmail && a.user == r.user && a.threshold in configured && a.fingerprint in store.certs
    && (exists l :: l in store.obs.links && store.obs.links[l] && l.fingerprint == a.fingerprint
          && l.endpoint in store.fleet.endpoints && store.fleet.endpoints[l.endpoint].enabled
          && (r.subscribed == {} || l.endpoint in r.subscribed))
    && var left := store.certs[a.fingerprint].rec.notAfter - store.now;
       left < (a.threshold + 1) * (24 * 60 * 60 * 1_000_000)
       && forall t :: t in configured && left < (t + 1) * (24 * 60 * 60 * 1_000_000) ==> a.threshold <= t
  }

  /** The alerts the given rows call for. */
  function DueFrom(certs: map<Fingerprint, Cert>, now: nat, user: UserId, rows: seq<Link>, thresholds: seq<int>): set<Alert>
  {
    set l | l in rows && AlertThreshold(Days(certs, now, l), thresholds) != 0 ::
      Alert(user, l.fingerprint, AlertThreshold(Days(certs, now, l), thresholds))
  }

  /** `mails` lists, once each, the alerts of `due` not recorded before. */
  ghost predicate MailsExactly(mails: seq<Alert>, due: set<Alert>, recorded: set<Alert>)
  {
    NoDuplicates(mails) && forall a :: a in mails <==> a in due && a !in recorded
  }

  lemma ExtendMails(mails: seq<Alert>, due: set<Alert>, recorded: set<Alert>, a: Alert)
    requires MailsExactly(mails, due, recorded)
    ensures a in recorded + due ==> MailsExactly(mails, due + {a}, recorded)
    ensures a !in recorded + due ==> MailsExactly(mails + [a], due + {a}, recorded)
  {
  }

  ghost predicate Sorted(rows: seq<Link>, key: Link -> int)
  {
    forall i, j :: 0 <= i < j < |rows| ==> key(rows[i]) <= key(rows[j])
  }

  lemma {:induction false} LeastExists(rows: set<Link>, key: Link -> int)
    requires rows != {}
    ensures exists l :: l in rows && forall y :: y in rows ==> key(l) <= key(y)
    decreases |rows|
  {
    var c :| c in rows;
    var rest := rows - {c};
    assert rows == {c} + rest;
    if rest == {} {
      assert forall y :: y in rows ==> y == c;
    } else {
      LeastExists(rest, key);
      var m :| m in rest && forall y :: y in rest ==> key(m) <= key(y);
      var best := if key(c) < key(m) then c else m;
      assert best in rows && forall y :: y in rows ==> y == c || y in rest;
    }
  }

  /** ORDER BY key ASC; ties are the database's choice. */
  method OrderBy(all: set<Link>, key: Link -> int) returns (rows: seq<Link>)
    ensures Sorted(rows, key) && NoDuplicates(rows) && forall l :: l in rows <==> l in all
  {
    var rest := all;
    rows := [];
    while rest != {}
      invariant rest <= all && forall l :: l in rows <==> l in all && l !in rest
      invariant Sorted(rows, key) && NoDuplicates(rows)
      invariant forall x, y :: x in rows && y in rest ==> key(x) <= key(y)
      decreases |rest|
    {
      LeastExists(rest, key);
      var l :| l in rest && forall y :: y in rest ==> key(l) <= key(y);
      rows, rest := rows + [l], rest - {l};
    }
  }

  /** No row has a whole day more left than a later one. */
  ghost predicate UrgentFirst(certs: map<Fingerprint, Cert>, now: nat, rows: seq<Link>)
  {
    forall i, j, d: int | 0 <= i < j < |rows| && rows[i].fingerprint in certs && rows[j].fingerprint in certs ::
      certs[rows[j].fingerprint].rec.notAfter - now < DayBoundary(d) ==> certs[rows[i].fingerprint].rec.notAfter - now < DayBoundary(d)
  }

  function DayBoundary(d: int): int
  {
    d * (24 * 60 * 60 * 1_000_000)
  }

  lemma SortedIsUrgentFirst(s: Tables, rows: seq<Link>)
    requires Sorted(rows, (l: Link) => Days(s.certs, s.now, l))
    ensures UrgentFirst(s.certs, s.now, rows)
  {
    forall i, j, d: int | 0 <= i < j < |rows| && rows[i].fingerprint in s.certs && rows[j].fingerprint in s.certs
      ensures s.certs[rows[j].fingerprint].rec.notAfter - s.now < DayBoundary(d) ==> s.certs[rows[i].fingerprint].rec.notAfter - s.now < DayBoundary(d)
    {
      CoversByClock(s, rows[i], d - 1);
      CoversByClock(s, rows[j], d - 1);
    }
  }

  /** Every certificate row the recipient should hear about, once each, most urgent day first: current,
      on an enabled endpoint the recipient watches, with less than `maxDays + 1` days left. */
  method ListExpiringActiveCertsTagged(store: Store, r: Recipient, maxDays: int) returns (rows: seq<Link>)
    ensures forall l :: l in rows <==>
              && l in store.links && store.links[l] && l.fingerprint in store.certs
              && l.endpoint in store.endpoints && store.endpoints[l.endpoint].enabled
              && (r.subscribed == {} || l.endpoint in r.subscribed)
              && store.certs[l.fingerprint].rec.notAfter - store.now < (maxDays + 1) * (24 * 60 * 60 * 1_000_000)
    ensures NoDuplicates(rows)
    ensures UrgentFirst(store.certs, store.now, rows)
    ensures IsListing(store.View(), r, rows, maxDays)
  {
    var certs, now := store.certs, store.now;
    var all := set l | l in store.links && ActiveFor(certs, store.links, store.endpoints, r, l) && Days(certs, now, l) <= maxDays;
    rows := OrderBy(all, (l: Link) => Days(certs, now, l));
    ghost var s := store.View();
    forall l: Link | l.fingerprint in certs
      ensures Days(certs, now, l) <= maxDays <==> certs[l.fingerprint].rec.notAfter - now < (maxDays + 1) * (24 * 60 * 60 * 1_000_000)
    {
      CoversByClock(s, l, maxDays);
    }
    SortedIsUrgentFirst(s, rows);
  }

  // ---------------------------------------------------------------------------
  // The job
  // ---------------------------------------------------------------------------

  /** The inner loop: claim an alert for each listed row and mail the ones claimed. */
  method AlertRows(store: Store, user: UserId, rows: seq<Link>, thresholds: seq<int>) returns (mails: seq<Alert>)
    requires user in store.users && forall l :: l in rows ==> l.fingerprint in store.certs
    modifies store`alerts
    ensures var due := DueFrom(store.certs, store.now, user, rows, thresholds);
            store.alerts == old(store.alerts) + due && MailsExactly(mails, due, old(store.alerts))
  {
    mails := [];
    ghost var certs, now, before := store.certs, store.now, store.alerts;
    ghost var due: set<Alert> := {};
    for i := 0 to |rows|
      invariant due == DueFrom(certs, now, user, rows[..i], thresholds)
      invariant store.alerts == before + due && MailsExactly(mails, due, before)
    {
      var l := rows[i];
      assert l in rows;
      var threshold := ComputeThreshold(Days(store.certs, store.now, l), thresholds);
      DueFromNext(certs, now, user, rows, i, thresholds);
      if threshold != 0 {
        var a := Alert(user, l.fingerprint, threshold);
        ExtendMails(mails, due, before, a);
        due := due + {a};
        var claimed := store.TryInsertExpiryAlert(a);
        if claimed.Inserted? {
          mails := mails + [a];
        }
      }
    }
    assert rows[..|rows|] == rows;
  }

  lemma DueFromNext(certs: map<Fingerprint, Cert>, now: nat, user: UserId, rows: seq<Link>, i: nat, thresholds: seq<int>)
    requires i < |rows|
    ensures var t := AlertThreshold(Days(certs, now, rows[i]), thresholds);
            DueFrom(certs, now, user, rows[..i + 1], thresholds) ==
              DueFrom(certs, now, user, rows[..i], thresholds) + (if t != 0 then {Alert(user, rows[i].fingerprint, t)} else {})
  {
    assert rows[..i + 1] == rows[..i] + [rows[i]];
  }

  /** The listing holds exactly the recipient's active rows within the largest threshold. */
  ghost predicate IsListing(s: Tables, r: Recipient, rows: seq<Link>, maxDays: int)
  {
    forall l :: l in rows <==> ActiveFor(s.certs, s.obs.links, s.fleet.endpoints, r, l) && Days(s.certs, s.now, l) <= maxDays
  }

  lemma CoversByClock(s: Tables, l: Link, t: int)
    requires l.fingerprint in s.certs
    ensures Days(s.certs, s.now, l) <= t <==> s.certs[l.fingerprint].rec.notAfter - s.now < (t + 1) * (24 * 60 * 60 * 1_000_000)
  {
    DaysByClock(s.certs[l.fingerprint].rec.notAfter, s.now, t);
  }

  lemma ListedIsDue(s: Tables, r: Recipient, rows: seq<Link>, configured: seq<int>, a: Alert)
    requires |SortDescending(configured)| > 0 && Positive(configured) && r.hasEmail
    requires IsListing(s, r, rows, SortDescending(configured)[0])
    requires a in DueFrom(s.certs, s.now, r.user, rows, SortDescending(configured))
    ensures IsDue(s, r, a, configured)
  {
    var sorted := SortDescending(configured);
    SortSorts(configured);
    var l :| l in rows && l.fingerprint == a.fingerprint && a.threshold == AlertThreshold(Days(s.certs, s.now, l), sorted) != 0;
    SmallestQualifying(Days(s.certs, s.now, l), sorted);
    CoversByClock(s, l, a.threshold);
    forall t | t in configured
      ensures Days(s.certs, s.now, l) <= t <==> s.certs[l.fingerprint].rec.notAfter - s.now < (t + 1) * (24 * 60 * 60 * 1_000_000)
    {
      CoversByClock(s, l, t);
    }
  }

  lemma DueIsListed(s: Tables, r: Recipient, rows: seq<Link>, configured: seq<int>, a: Alert)
    requires |SortDescending(configured)| > 0 && Positive(configured)
    requires IsListing(s, r, rows, SortDescending(configured)[0])
    requires IsDue(s, r, a, configured)
    ensures a in DueFrom(s.certs, s.now, r.user, rows, SortDescending(configured))
  {
    var sorted := SortDescending(configured);
    SortSorts(configured);
    var l :| l in s.obs.links && s.obs.links[l] && l.fingerprint == a.fingerprint
      && l.endpoint in s.fleet.endpoints && s.fleet.endpoints[l.endpoint].enabled
      && (r.subscribed == {} || l.endpoint in r.subscribed);
    forall t | t in configured
      ensures Days(s.certs, s.now, l) <= t <==> s.certs[l.fingerprint].rec.notAfter - s.now < (t + 1) * (24 * 60 * 60 * 1_000_000)
    {
      CoversByClock(s, l, t);
    }
    CoversByClock(s, l, a.threshold);
    SmallestQualifying(Days(s.certs, s.now, l), sorted);
    var i :| 0 <= i < |sorted| && sorted[i] == a.threshold;
    assert sorted[0] >= sorted[i];
    assert l in rows;
    CoversByClock(s, l, AlertThreshold(Days(s.certs, s.now, l), sorted));
    assert AlertThreshold(Days(s.certs, s.now, l), sorted) == a.threshold;
  }

  /** An alert the job owes carries the threshold that the whole-run bounds on mails speak of. */
  lemma OwedCarriesThreshold(s: Tables, r: Recipient, configured: seq<int>, a: Alert)
    requires Positive(configured) && IsDue(s, r, a, configured)
    ensures Due(s, a, SortDescending(configured)) && Current(s.obs.links, a.fingerprint)
  {
    var sorted := SortDescending(configured);
    SortSorts(configured);
    var c := s.certs[a.fingerprint].rec.notAfter;
    forall t | t in configured
      ensures DaysRemaining(c, s.now) <= t <==> c - s.now < (t + 1) * (24 * 60 * 60 * 1_000_000)
    {
      DaysByClock(c, s.now, t);
    }
    SmallestQualifying(DaysRemaining(c, s.now), sorted);
    assert a.threshold in sorted;
  }

  /** Owed to one of the recipients whose listing does not fail. */
  ghost predicate IsDueToAny(s: Tables, recipients: seq<Recipient>, failing: set<UserId>, a: Alert, configured: seq<int>)
  {
    exists r :: r in recipients && r.user !in failing && IsDue(s, r, a, configured)
  }

  lemma JoinMails(mails: seq<Alert>, due: set<Alert>, more: seq<Alert>, next: set<Alert>, recorded: set<Alert>)
    requires MailsExactly(mails, due, recorded) && MailsExactly(more, next, recorded + due)
    ensures MailsExactly(mails + more, due + next, recorded)
  {
    var all := mails + more;
    forall i, j | 0 <= i < j < |all|
      ensures all[i] != all[j]
    {
      if i < |mails| <= j {
        assert mails[i] in mails && more[j - |mails|] in more;
      }
    }
  }

  /** The due alerts do not depend on what is already recorded. */
  lemma DueIgnoresAlerts(s: Tables, t: Tables, r: Recipient, a: Alert, configured: seq<int>)
    requires s.certs == t.certs && s.obs.links == t.obs.links && s.fleet.endpoints == t.fleet.endpoints && s.now == t.now
    ensures IsDue(s, r, a, configured) <==> IsDue(t, r, a, configured)
  {
  }

  /** One recipient's share of the job. */
  method AlertRecipient(store: Store, r: Recipient, configured: seq<int>) returns (mails: seq<Alert>, ghost due: set<Alert>)
    requires configured != [] && Positive(configured) && r.user in store.users
    modifies store`alerts
    ensures forall a :: a in due <==> IsDue(old(store.View()), r, a, configured)
    ensures store.alerts == old(store.alerts) + due && MailsExactly(mails, due, old(store.alerts))
  {
    if !r.hasEmail {
      return [], {};
    }
    var thresholds := SortDescending(configured);
    SortSorts(configured);
    var rows := ListExpiringActiveCertsTagged(store, r, thresholds[0]);
    ghost var s := store.View();
    forall a
      ensures a in DueFrom(s.certs, s.now, r.user, rows, thresholds) <==> IsDue(s, r, a, configured)
    {
      if a in DueFrom(s.certs, s.now, r.user, rows, thresholds) { ListedIsDue(s, r, rows, configured, a); }
      if IsDue(s, r, a, configured) { DueIsListed(s, r, rows, configured, a); }
    }
    due := DueFrom(store.certs, store.now, r.user, rows, thresholds);
    mails := AlertRows(store, r.user, rows, thresholds);
  }

  /** RunExpiryAlerts: unless mail is not set up, the job mails exactly the alerts owed to some
      recipient and not recorded before, each once, and records every alert owed. A recipient
      whose listing fails is passed over. */
  method RunExpiryAlerts(store: Store, mailReady: bool, recipients: seq<Recipient>, failing: set<UserId>, configured: seq<int>) returns (mails: seq<Alert>, ghost due: set<Alert>)
    requires Positive(configured) && forall r :: r in recipients ==> r.user in store.users
    modifies store`alerts
    ensures forall a :: a in due <==> mailReady && IsDueToAny(old(store.View()), recipients, failing, a, configured)
    ensures store.alerts == old(store.alerts) + due && MailsExactly(mails, due, old(store.alerts))
  {
    mails, due := [], {};
    if !mailReady || configured == [] {
      return;
    }
    ghost var s, before := store.View(), store.alerts;
    for i := 0 to |recipients|
      invariant forall a :: a in due <==> IsDueToAny(s, recipients[..i], failing, a, configured)
      invariant store.alerts == before + due && MailsExactly(mails, due, before)
    {
      var r := recipients[i];
      assert r in recipients;
      if r.user in failing {
        forall a
          ensures IsDueToAny(s, recipients[..i + 1], failing, a, configured) <==> IsDueToAny(s, recipients[..i], failing, a, configured)
        {
          DueToNext(s, recipients, i, failing, a, configured);
        }
        continue;
      }
      ghost var t := store.View();
      var more, next := AlertRecipient(store, r, configured);
      forall a
        ensures a in due + next <==> IsDueToAny(s, recipients[..i + 1], failing, a, configured)
      {
        DueIgnoresAlerts(s, t, r, a, configured);
        DueToNext(s, recipients, i, failing, a, configured);
      }
      JoinMails(mails, due, more, next, before);
      mails, due := mails + more, due + next;
    }
    assert recipients[..|recipients|] == recipients;
  }

  lemma DueToNext(s: Tables, recipients: seq<Recipient>, i: nat, failing: set<UserId>, a: Alert, configured: seq<int>)
    requires i < |recipients|
    ensures IsDueToAny(s, recipients[..i + 1], failing, a, configured) <==>
              || IsDueToAny(s, recipients[..i], failing, a, configured)
              || (recipients[i].user !in failing && IsDue(s, recipients[i], a, configured))
  {
    assert recipients[..i + 1] == recipients[..i] + [recipients[i]];
  }
}
