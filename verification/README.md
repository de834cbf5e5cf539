# TLSentinel: verified model

TLSentinel watches the TLS certificates of a fleet of endpoints: scanners report what each
endpoint presents, a PostgreSQL store keeps certificates, links, a scan ledger, root-store
anchors and trust verdicts, and scheduled jobs purge, alert and refresh. This project models
its most stateful parts in Dafny and proves what they keep over every input, every run and,
where noted, every interleaving of statements. `dafny verify dfyconfig.toml` checks the whole
project.

## Parts

- **The store as a state machine** (`Fleet`, `Db`, `Runs`, `Store`). `Tables` is the database:
  certificates with issuer links and anchor flags, endpoint links, scan ledger, anchors,
  verdicts, alerts, discovery inbox, users, scanners, endpoints with their type rows. Every
  statement or transaction is a function on `Tables`; a statement's predicate is evaluated on
  the state before it, and a failed transaction changes nothing. NO ACTION foreign keys reject
  deletes, the others cascade or set NULL (README.md:268-276, README.md:341-343 and the
  migrations). The discovery inbox has no foreign key to certificates: migration 37 drops it.
  `Runs.Step` mixes all steps in any order. `Store` is the imperative form, one field per table and one method per store operation, each proved to make exactly the
  transition of its function. Runs are runs of whole transactions; `LinkRaces`,
  `EnrolmentRaces` and `RedemptionRaces` take apart three that race.
- **The nightly purge as a garbage collector** (`IssuerGraph`, `CertGc`): what any number of
  passes leaves is what a layer-by-layer collection of the issuer graph leaves; the passes
  needed are exactly the longest chain of garbage.
- **Deletes, links, inbox, ledger, alerts** (`CertDeletes`, `EndpointLinks`, `IssuerLinks`,
  `LinkRaces`, `Inbox`, `ScanLedger`, `ExpiryAlerts`, `AlertJob`): whole-run properties of the
  same state machine.
- **Root-store refresh, trust evaluator, scan ingest** (`RootRefresh`, `TrustPaths`,
  `TrustEvaluator`, `TrustRuns`, `OutdatedVerdicts`, `ProbeResult`, `PoolLock`). X.509
  verification at a fixed time is the relation "a signed chain to a root exists and passes the other checks" (section 6.1 of
  RFC 5280). `TrustPaths.Sound` states every assumption about the library and
  `SoundIsConsistent` shows that they can be met together. `PoolLock` is the read-write lock at
  the level of single memory accesses.
- **Grader and severity** (`Grader`, `Severity`), after the SSL Labs "SSL Server Rating Guide".
- **TOTP and CSV** (`RecoveryCodes`, `Totp`, `RedemptionRaces`, `EnrolmentRaces`, `CsvLine`).

## Where the code does less than it may seem to

- Garbage certificates that issue each other in a cycle (cross-signed pairs) are never purged;
  the purge equals mark-and-sweep exactly when there is no such cycle
  (`CertGc.PurgeConverges`). Two inserts on an empty database reach such a pair
  (`CertGc.CrossSignedPairIsGarbage`).
- An inbox row may name a certificate that is not stored. Exactly three kinds of step bring
  that about (`DiscoveryInbox.StepAddsStrayIff`); a first discovery report already does
  (`DiscoveryInbox.FirstReportIsStray`).
- Two concurrent logins with one recovery code both succeed when both list the unused rows
  before either marks its match (`RedemptionRaces.TwoLoginsRedeemTwice`); a redemption is
  repeated exactly when another call redeems the row between its listing and its mark
  (`RedemptionRaces.RepeatedIff`).
- A known key strength of 0 bits escapes both weak-key limits, so lowering the bits to 0 can
  improve a grade; `Grader.FewerKeyBits` says exactly when, `Grader.ZeroBitsEscape` gives one
  input of Score. Its one caller never passes 0: internal/tlsprofile/keybits.go:25-51 returns
  -1 or a positive number.
- Verdict rows of a store that has no anchors are left as they were by a reload, even where
  they say trusted (`TrustEvaluator.EmptiedStoreKeepsRow`).
- A verdict row can falsely say trusted: from the publication of pools that dropped a root
  until the row is re-evaluated, and afterwards if an evaluation of older pools stores its
  verdict late (`OutdatedVerdicts.RowTurnsFalseTwice`). `TrustRuns.StepFalsifiesIff` says
  exactly which steps do it, `TrustRuns.PassRestores` when it ends.
- Two concurrent uploads for one endpoint and use can both stay current
  (`LinkRaces.TwoUploadsBothCurrent`; exactly when: `LinkRaces.RunKeepsOneIff`).
- An admin reset during a second confirmation can leave an account armed without a secret,
  which only another reset undoes (`EnrolmentRaces.ResetRaceSticks`; exactly when:
  `EnrolmentRaces.NeverStuckIff`).
- A CSV field printed with surrounding white space comes back trimmed even when it was quoted
  (`CsvLine.RoundTripIff`).

## Model

| member | source | states |
|---|---|---|
| `Runs.RunKeepsWf` | internal/db/endpoints_store.go:696-752 | in every state of every run of whole transactions: no dangling reference under a foreign key, at most one current certificate per (endpoint, use), ledgers in clock order, one default scanner, type rows matching endpoint types |
| `Runs.RunKeepsNoDangling` | internal/db/certificates_store.go:544-665 | in every reachable state no issuer link, endpoint link, ledger row, anchor, verdict or alert names a missing certificate, endpoint or user |
| `Runs.RunKeepsLedgerOrder` | internal/db/endpoints_store.go:666-694 | in every run each endpoint's ledger rows have strictly increasing times, all in the past |
| `Runs.CertStepKeepsIssuers` | migrations/000001_init.up.sql:43-73 | inserting certificates with the issuer trigger, marking and reconciling keep every certificate and leave every issuer link naming another stored certificate |
| `Runs.DropKeepsReferences` | internal/db/maintenance_store.go:86-112 | deleting certificates that no NO ACTION reference names leaves no row with a foreign key dangling |
| `StoreClass.Store.constructor` | migrations/000001_init.up.sql:6-26 | an empty database meets every invariant |
| `StoreClass.Store.PickIssuer` | migrations/000001_init.up.sql:46-58 | finds an issuer with the latest expiry among the matching ones, and none exactly when none matches |
| `StoreClass.Store.InsertCertificate` | internal/db/certificates_store.go:322-344 | inserts once, links the new row to its issuer and waiting children to the new row, and reports whether it inserted |
| `StoreClass.Store.InsertRow` | migrations/000001_init.up.sql:43-73 | insert, link the row, link its children: the three statements leave what the trigger promises |
| `StoreClass.Store.ReconcileCertificateChains` | internal/db/certificates_store.go:356-371 | every unlinked certificate with a stored issuer gets one of its matching issuers, their number is returned, and none is left unlinked |
| `StoreClass.LinkAll` | internal/db/certificates_store.go:356-371 | choosing an issuer row by row for each unlinked certificate leaves a valid choice for all of them and nobody unlinked |
| `StoreClass.Store.DeleteCertificate` | internal/db/certificates_store.go:544-565 | deleted exactly when stored and all four counts are zero; otherwise nothing changes and the counts are reported |
| `StoreClass.Store.PurgeCertificate` | internal/db/certificates_store.go:600-642 | refused for an issuer with the number of issued certificates, not found, or every row under a foreign key about the certificate removed in one transaction |
| `StoreClass.Store.PurgeUnreferencedCerts` | internal/db/maintenance_store.go:86-117 | one pass removes exactly the unreferenced certificates and returns them |
| `StoreClass.Store.UpsertLink` | internal/db/endpoints_store.go:718-752 | roll-over then upsert: this certificate is current, every other of the pair is not, other pairs are untouched |
| `StoreClass.Store.UpsertEndpointCert` | internal/db/endpoints_store.go:711-715 | links when endpoint and certificate exist, otherwise changes nothing |
| `StoreClass.Store.RecordScanResult` | internal/db/endpoints_store.go:634-705 | scan state, last address, ledger row and link move together, or nothing changes when a foreign key refuses |
| `StoreClass.Store.PurgeScanHistory` | internal/db/maintenance_store.go:23-41 | rows older than the cutoff go, the newest row of each endpoint stays, and the number of deleted rows is returned |
| `StoreClass.NewestRow` | internal/db/maintenance_store.go:27-31 | the scan over an endpoint's rows finds one with the latest time |
| `StoreClass.DeleteOldRows` | internal/db/maintenance_store.go:23-41 | endpoint by endpoint, old rows other than the newest go, and the count of deleted rows is the difference in rows |
| `StoreClass.Store.TryInsertExpiryAlert` | internal/db/alerts_store.go:94-110 | claims the slot exactly when it was free; a missing user or certificate is an error |
| `StoreClass.Store.PurgeExpiryAlerts` | internal/db/maintenance_store.go:48-64 | removes exactly the rows of certificates current nowhere and counts them |
| `StoreClass.Store.UpsertTrustAnchor` | internal/db/root_stores_store.go:174-187 | the certificate is stored and flagged, linked by the trigger when new |
| `StoreClass.Store.MarkTrustAnchor` | internal/db/root_stores_store.go:194-205 | flags a stored certificate and says whether there was one |
| `StoreClass.Store.ReplaceRootStoreAnchors` | internal/db/root_stores_store.go:246-273 | insert-then-sweep leaves exactly the given members, other stores untouched |
| `StoreClass.Store.ReconcileTrustAnchorFlags` | internal/db/root_stores_store.go:217-241 | the flag is true exactly on Subject+SKI matches of some anchor, and the number of changed rows is returned |
| `StoreClass.Store.UpsertCertificateTrust` | internal/db/trust_store.go:99-123 | upserts the given stores' verdicts and leaves every other row |
| `StoreClass.UpsertRows` | internal/db/trust_store.go:99-123 | upserting verdict by verdict changes exactly the certificate's rows for the given stores |
| `StoreClass.Store.SetDefaultScannerToken` | internal/db/scanners_store.go:162-201 | clear then set; at most one default after each statement; unknown scanners change nothing |
| `StoreClass.Store.DeleteScannerToken` | internal/db/scanners_store.go:204-217 | removes the scanner and unassigns its endpoints |
| `StoreClass.Store.InsertEndpoint` | internal/db/endpoints_store.go:341-386 | stores the endpoint with exactly the row its type calls for |
| `StoreClass.Store.UpdateEndpoint` | internal/db/endpoints_store.go:388-467 | rows of other types are cleared, the row of the new type upserted with the scanner-owned columns kept |
| `CertGc.PurgeNeverRejected` | internal/db/maintenance_store.go:86-112 | no foreign key ever rejects the unreferenced-certificate purge |
| `CertGc.OnePass` | internal/db/maintenance_store.go:72-81 | one pass removes exactly the unreferenced rows and unpins no survivor |
| `CertGc.PurgeByColumns` | internal/db/maintenance_store.go:86-112 | a certificate survives a pass exactly when it is flagged, an anchor, an issuer, linked, in a scan row or in the inbox, read off the columns |
| `CertGc.PassesAreLayers` | internal/db/maintenance_store.go:80-83 | after n nights exactly n layers of the issuer graph are gone, survivors unchanged |
| `CertGc.PurgeTerminates` | internal/db/maintenance_store.go:80-83 | after as many passes as certificates a further pass removes nothing |
| `CertGc.PurgeIsSafe` | internal/db/maintenance_store.go:66-79 | no number of passes removes a pinned certificate or an issuer above one |
| `CertGc.PurgeIsExact` | internal/db/maintenance_store.go:80-83 | n passes leave exactly the pinned certificates and their issuers if and only if no chain of garbage is longer than n |
| `CertGc.PurgeConverges` | internal/db/maintenance_store.go:80-83 | repeated passes equal mark-and-sweep if and only if no garbage certificates form an issuer cycle |
| `CertGc.AcyclicPurgeConverges` | internal/db/maintenance_store.go:80-83 | on acyclic issuer links the purge is mark-and-sweep |
| `CertGc.PurgeLeavesIssuersOfKept` | internal/db/maintenance_store.go:66-112 | on acyclic links repeated passes leave exactly the certificates those columns keep and what their issuer columns lead to |
| `CertGc.CrossSignedPairLeaks` | internal/db/maintenance_store.go:94-97 | two certificates that issue each other survive every pass |
| `CertGc.CrossSignedPairIsGarbage` | internal/db/maintenance_store.go:94-97 | two inserts on the empty database give a pair that mark-and-sweep would remove and no number of passes does |
| `IssuerGraph.PassesNeeded` | internal/db/maintenance_store.go:80-83 | on any issuer graph, n layers suffice if and only if no garbage chain is longer than n |
| `IssuerGraph.ConvergesIffNoGarbageCycle` | internal/db/maintenance_store.go:80-83 | layer collection reaches the live set if and only if there is no garbage cycle |
| `IssuerGraph.PassesTerminate` | internal/db/maintenance_store.go:80-83 | layer collection is stable after as many passes as nodes |
| `CertDeletes.CountsAreZeroIff` | internal/db/certificates_store.go:651-665 | all four counts are zero exactly when no link, ledger row or issuer link names the certificate |
| `CertDeletes.CountsByColumn` | internal/db/certificates_store.go:651-665 | each of the four counts is positive exactly when its own column names the certificate, current links apart from past ones |
| `CertDeletes.LinkCountsOnce` | internal/db/certificates_store.go:651-665 | a link adds one to the count of its kind and to no other |
| `CertDeletes.DeleteSucceedsIff` | internal/db/certificates_store.go:544-565 | deleting a stored certificate succeeds exactly when all four counts are zero; otherwise nothing changes |
| `CertDeletes.DeletableByColumns` | internal/db/certificates_store.go:544-565 | a stored certificate can be deleted exactly when no link, scan row or issuer column names it |
| `CertDeletes.PurgeCertNeverRejected` | internal/db/certificates_store.go:600-642 | after the clearing statements no foreign key rejects the delete |
| `CertDeletes.PurgeCertAllOrNothing` | internal/db/certificates_store.go:600-642 | either nothing changes, or no row under a foreign key names the certificate any more and every row about another one and the inbox are untouched |
| `IssuerLinks.InsertKeepsLinked` | migrations/000001_init.up.sql:43-73 | the insert trigger leaves no certificate unlinked whose issuer is stored |
| `IssuerLinks.ReconcileFindsNothing` | internal/db/certificates_store.go:346-371 | in every run from the empty database the reconcile job finds nothing to link |
| `IssuerLinks.IssuerColumnIsRight` | migrations/000001_init.up.sql:43-73 | in every run from the empty database an issuer column names a stored certificate with that key identifier and name, and is empty only where none is stored |
| `IssuerLinks.NewRowByColumns` | internal/db/certificates_store.go:322-344 | a new row is stored as extracted, flagged only by the anchor upsert, linked to a match that expires last, and linked to by exactly the matching rows without an issuer |
| `IssuerLinks.StoredRowByColumns` | internal/db/root_stores_store.go:174-205 | another insert leaves a stored row alone, the anchor upsert and the mark flag it and change nothing else |
| `DiscoveryInbox.StepAddsStrayIff` | internal/db/discovery_store.go:365-417 | a step leaves the inbox naming a missing certificate if and only if it reports an unstored one, or successfully deletes or purges one the inbox names |
| `DiscoveryInbox.RunStaysCleanIff` | migrations/000037_discovery_inbox_cert_fields.up.sql:1-7 | a run keeps every inbox reference valid throughout if and only if it has no such step |
| `DiscoveryInbox.NightlyPurgeAddsNoStray` | internal/db/maintenance_store.go:106-109 | the nightly purge never strands an inbox row |
| `DiscoveryInbox.FirstReportIsStray` | internal/db/discovery_store.go:365-417 | one discovery report on the empty database leaves a row naming a missing certificate, with every foreign key intact |
| `EndpointLinks.StepLinks` | internal/db/endpoints_store.go:718-752 | every step but deleting the endpoint or purging a certificate linked to it changes a pair's rows only by linking |
| `EndpointLinks.LastLinkedIsCurrent` | internal/db/endpoints_store.go:696-752 | over a run the rows of a pair are exactly the certificates ever linked and the current one is the last |
| `LinkRaces.RunKeepsOneIff` | internal/db/endpoints_store.go:711-752 | concurrent upserts of a pair keep at most one current certificate throughout if and only if no transaction commits after another certificate became current behind its back |
| `LinkRaces.CommitKeepsOneIff` | internal/db/endpoints_store.go:718-752 | the same for one commit |
| `LinkRaces.RaceOverlaps` | internal/db/endpoints_store.go:711-715 | such a commit has another certificate's commit inside its own transaction |
| `LinkRaces.TwoUploadsBothCurrent` | internal/db/endpoints_store.go:718-752 | two uploads that each roll over before the other commits leave both current |
| `ScanLedger.ChangedIffNew` | internal/db/endpoints_store.go:604-622 | comparing with the newest ledger row decides the same as comparing with the latest result |
| `ScanLedger.RetainIsSuffix` | internal/db/maintenance_store.go:23-32 | retention keeps a non-empty end of a ledger |
| `ScanLedger.LedgerRepresentsResults` | internal/db/endpoints_store.go:604-694 | for any stream of results with retention anywhere the ledger is a non-empty suffix of the compressed results |
| `ScanLedger.LedgerIsCompressed` | internal/db/endpoints_store.go:604-694 | without retention the ledger is exactly the compressed results |
| `ScanLedger.LedgerRepresentsStream` | internal/db/endpoints_store.go:634-694 | the same over whole runs of the store, with every other job interleaved |
| `ScanLedger.LedgerIsCompressedStream` | internal/db/endpoints_store.go:634-694 | over runs without retention the history is exactly the scan sequence with adjacent equivalents removed |
| `ScanLedger.RowsDistinctAndFresh` | internal/db/maintenance_store.go:20-32 | neighbouring rows differ and the newest row is equivalent to the latest scan |
| `ScanLedger.LedgerByColumns` | internal/db/endpoints_store.go:604-622 | in every run neighbouring rows differ in certificate, version, address or error presence, and the newest row agrees with the latest scan in all four |
| `ScanLedger.ResultByColumns` | internal/db/endpoints_store.go:634-705 | a scan is recorded as reported and at the transaction's time when its endpoint and certificate are stored; a missing one changes nothing |
| `ScanLedger.RetentionByClock` | internal/db/maintenance_store.go:23-32 | a row stays exactly when it is at most that many times 24 hours old or none of its endpoint is newer |
| `ScanLedger.ScanStateMatchesStream` | internal/db/endpoints_store.go:634-650 | for endpoints of every type and through type changes, error_since is set exactly while the last scan failed and is the time of the first scan of the current failures |
| `ScanLedger.LastIpMatchesStream` | internal/db/endpoints_store.go:652-665 | in every run, through type changes and deletes, last_resolved_ip is the last address a scan carried since the host row was last inserted |
| `ExpiryAlerts.RowVanishesQuietly` | internal/db/maintenance_store.go:43-55 | whichever job removes an alert row, the certificate is current nowhere or the user is gone, just before or just after |
| `ExpiryAlerts.PurgeAlertsByColumns` | internal/db/maintenance_store.go:48-55 | the purge keeps exactly the rows whose certificate is current on some endpoint |
| `ExpiryAlerts.AlertRowsByColumns` | internal/db/alerts_store.go:94-110 | a claim adds exactly its own row when user and certificate are stored; deleting a user takes exactly that user's rows |
| `ExpiryAlerts.DaysByClock` | migrations/000038_active_certs_view_sans_issuer.up.sql:22 | days remaining are at most t exactly when less than t + 1 times 24 hours are left |
| `ExpiryAlerts.QuietBetweenMails` | internal/notifications/alerts.go:96-162 | in every run, between two mail attempts for the same user, certificate and threshold there is a state where the certificate is current nowhere or the user is gone |
| `ExpiryAlerts.SmallestQualifying` | internal/notifications/alerts.go:19-31 | on a descending list of positive thresholds the loop picks the smallest that covers the days left, and 0 exactly when none does |
| `ExpiryAlerts.ThresholdMonotone` | internal/notifications/alerts.go:23-31 | fewer days left never give a larger threshold |
| `ExpiryAlerts.ThresholdsDecrease` | internal/notifications/alerts.go:83-132 | successive mails to one user about one still-current certificate carry strictly decreasing thresholds |
| `ExpiryAlerts.MailsBounded` | internal/settings/handler.go:79-95 | mails about a certificate current from the first listing to the last claim carry decreasing thresholds and number at most the configured ones |
| `AlertJob.SortSorts` | internal/notifications/alerts.go:83-84 | sorting is descending and keeps length and members |
| `AlertJob.ComputeThreshold` | internal/notifications/alerts.go:23-31 | the overwriting loop returns the last qualifying entry, as specified |
| `AlertJob.ListExpiringActiveCertsTagged` | internal/db/alerts_store.go:43-89 | lists exactly the links that are current, on an enabled endpoint the recipient watches and with less than the limit plus one day left, once each, most urgent first |
| `AlertJob.AlertRows` | internal/notifications/alerts.go:113-162 | claims every alert the rows call for and mails exactly the newly claimed ones, once each |
| `AlertJob.ListedIsDue` | internal/notifications/alerts.go:103-118 | every alert computed from the listing is owed under the declarative definition |
| `AlertJob.DueIsListed` | internal/notifications/alerts.go:103-118 | every alert owed is computed from the listing cut off at the largest threshold |
| `AlertJob.OwedCarriesThreshold` | internal/notifications/alerts.go:113-132 | every alert the job owes is about a current certificate and carries the threshold `ThresholdsDecrease` and `MailsBounded` are about |
| `AlertJob.AlertRecipient` | internal/notifications/alerts.go:97-162 | one recipient gets exactly the alerts owed and not recorded; none without an address |
| `AlertJob.RunExpiryAlerts` | internal/notifications/alerts.go:35-169 | with mail set up, the job mails exactly the alerts owed and not recorded before, each once, and records every alert owed; owed is read off links, endpoints, expiry and clock: t is the smallest configured number with less than t + 1 times 24 hours left |
| `FleetTables.FleetStepKeepsWf` | internal/db/endpoints_store.go:341-467 | every insert, type change, delete and scanner change keeps one default, known scanners and matching type rows |
| `Dispatch.SetDefaultStatements` | internal/db/scanners_store.go:162-201 | at each statement boundary at most one default; afterwards exactly the chosen one |
| `Dispatch.NeverTwice` | internal/db/endpoints_store.go:483-552 | no endpoint is handed to two scanners or by both queries |
| `Dispatch.HandedIff` | internal/db/endpoints_store.go:483-552 | some scanner is handed an endpoint if and only if it is enabled, not exempt, of type host or saml, and assigned, or unassigned while a default exists |
| `Dispatch.HandedToExactlyOne` | internal/db/endpoints_store.go:481-552 | in every state of every run an endpoint goes to at most one scanner, a disabled or exempt one to none, and every other host or SAML one to exactly one stored scanner while a default exists |
| `Dispatch.JobsByColumns` | internal/db/endpoints_store.go:493-504 | the queries' test on the columns themselves: enabled, not exempt, type host or saml, and assigned to the scanner or unassigned while it is the default |
| `Dispatch.SavedHostIsHanded` | internal/db/endpoints_store.go:388-467 | what an operator saves for a host (name, address, port) is what the scanner it belongs to is told, exactly when it is to be scanned |
| `Dispatch.SavedSamlIsHanded` | internal/db/endpoints_store.go:523-552 | the same for a SAML URL |
| `Dispatch.NewHostIsHanded` | internal/db/endpoints_store.go:341-386 | the same for a new host, which starts unexempted, never scanned and without an address |
| `Dispatch.NewSamlIsHanded` | internal/db/endpoints_store.go:341-386 | the same for a new SAML endpoint |
| `Dispatch.OtherEndpointsUntouched` | internal/db/endpoints_store.go:388-479 | writing, scanning or deleting one endpoint leaves every other and all scanners alone |
| `Dispatch.DeletedScannerUnassigns` | internal/db/scanners_store.go:204-217 | deleting a scanner unassigns exactly its endpoints |
| `Dispatch.EmptyTypeNeverHanded` | internal/db/endpoints_store.go:498-504 | an endpoint of empty type would keep its host row but be handed to nobody; internal/endpoints/handler.go:125-126 and 255-256 replace an empty type, so none is stored |
| `Dispatch.UpdateKeepsScannerColumns` | internal/db/endpoints_store.go:410-459 | editing without a type change keeps scan state, last address and SAML metadata |
| `RootRefresh.LoadRow` | internal/rootstore/refresh.go:79-111 | upserts a bundled certificate or marks a stored one, and resolves exactly those |
| `RootRefresh.LoadMatrix` | internal/rootstore/refresh.go:78-118 | collects for each store exactly its flagged and resolved rows, and stores the bundle's certificates |
| `RootRefresh.ApplyMembership` | internal/rootstore/refresh.go:120-131 | whatever the map order, each listed store ends with exactly its list |
| `RootRefresh.Refresh` | internal/rootstore/refresh.go:64-143 | anchors are exactly the flagged rows in the bundle or already stored; flags are exactly the Subject+SKI matches; nothing else changes |
| `RootRefresh.StoresByColumns` | internal/rootstore/refresh.go:113-116 | a root is in the store apple, chrome, microsoft or mozilla exactly when the matrix lists it under that program's own column and its certificate came with the bundle or was stored |
| `RootRefresh.CertsByColumns` | internal/db/root_stores_store.go:217-241 | the bundle's listed certificates are stored, no record changes, and a certificate is flagged exactly when an anchor has its subject and, unless either is empty, its key identifier |
| `RootRefresh.RefreshIsIdempotent` | internal/rootstore/refresh.go:64-143 | an identical second refresh changes neither anchors nor flags nor the certificates stored |
| `RootRefresh.PurgeSparesAnchors` | internal/db/maintenance_store.go:88-93 | the next purge removes no anchor and no match of one |
| `TrustPaths.SoundIsConsistent` | internal/trust/evaluator.go:191-213 | a library that trusts only the roots themselves meets every assumption about X.509 verification |
| `TrustPaths.MorePathsWithMoreIntermediates` | internal/trust/evaluator.go:168-179 | a larger pool never turns trusted into untrusted |
| `TrustPaths.DeadEndChangesNothing` | internal/trust/evaluator.go:168-213 | an intermediate with no signed path to a root changes no verdict |
| `TrustEvaluator.Evaluator.LoadPools` | internal/trust/evaluator.go:109-166 | one pool per anchored store with its parseable anchors; intermediates are the parseable unflagged CA certificates; a failed read keeps the previous pools |
| `TrustEvaluator.Evaluator.AddIntermediate` | internal/trust/evaluator.go:172-179 | adds CA certificates only |
| `TrustEvaluator.Evaluator.Evaluate` | internal/trust/evaluator.go:191-213 | one verdict for every loaded store, from that store's pool |
| `TrustEvaluator.Evaluator.EvaluateAndPersist` | internal/probe/handler.go:39-51 | exactly the certificate's rows for the loaded stores become the fresh verdicts |
| `TrustEvaluator.MergeRefreshes` | internal/db/trust_store.go:99-123 | storing verdicts makes the certificate's rows fresh and disturbs no other certificate or store |
| `TrustEvaluator.Evaluator.ReevaluateAll` | internal/trust/reevaluate.go:52-90 | every parseable certificate's rows for loaded stores equal direct evaluation; rows of other stores stay |
| `TrustEvaluator.Evaluator.Reload` | internal/app/jobs.go:135-137 | with nothing in between, the pools are the database's, a row of a parseable certificate is a fresh evaluation if its store has an anchor and unchanged otherwise, and every trusted row of a loaded store holds; a failed load changes nothing |
| `TrustEvaluator.FreshIsDirect` | internal/trust/reevaluate.go:52-90 | a fresh row equals direct evaluation against the database's own anchors and CA certificates |
| `TrustEvaluator.FreshIsReloaded` | internal/trust/reevaluate.go:52-90 | re-evaluating the loaded stores amounts to that exact condition, row by row |
| `TrustEvaluator.JudgedByStoredPaths` | internal/trust/evaluator.go:130-166 | the loaded pools verify exactly the chains out of the database: anchors of the store at the end, stored unflagged CA certificates between |
| `TrustEvaluator.TrustedIffChained` | internal/db/trust_store.go:15-60 | after a reload the row of a stored certificate for an anchored store says trusted if and only if there is such a chain |
| `TrustEvaluator.ReloadAndLookUp` | internal/app/jobs.go:135-137 | the same through the store and evaluator methods |
| `TrustEvaluator.EmptiedStoreKeepsRow` | internal/db/trust_store.go:15-33 | a store that loses its last anchor trusts nobody, yet a reload leaves its trusted rows as they were |
| `TrustEvaluator.EmptyStoreAndReload` | internal/db/root_stores_store.go:246-273 | the same through the store and evaluator methods |
| `TrustEvaluator.GrowingPoolsKeepTrustedRows` | internal/trust/evaluator.go:168-179 | until the next load added intermediates can make only untrusted rows stale |
| `TrustRuns.RunKeepsInv` | internal/probe/handler.go:185-249 | in every run of ingests, deletes, purges, refreshes, publications and verdicts stored late, a row that says trusted holds under the pool generation it was computed under |
| `TrustRuns.FalselyTrustedIsOlder` | internal/app/app.go:96-114 | from an empty start, a row that says trusted where evaluating now says otherwise was computed before the last publication |
| `TrustRuns.StepFalsifiesIff` | internal/app/jobs.go:135-137 | from a state where every trusted row holds, a step leads to a false one if and only if it publishes pools that deny a row recorded as trusted, or stores an older generation's trusted verdict that the pools in memory deny |
| `TrustRuns.RunHoldsIff` | internal/settings/handler.go:426-428 | a run keeps every trusted row true throughout if and only if it has no such step |
| `TrustRuns.StaleRowsAreUntrusted` | internal/trust/evaluator.go:168-179 | until the next publication, with no older verdict stored, added intermediates make only untrusted rows stale |
| `TrustRuns.PassRestores` | internal/trust/reevaluate.go:52-90 | once every row that was older has been re-evaluated, with no publication and no older verdict in between, every trusted row holds, whatever else interleaves |
| `TrustRuns.VerdictHolds` | internal/probe/handler.go:39-51 | a verdict stored after its generation has grown still holds under it |
| `TrustRuns.LoadIsPublish` | internal/trust/evaluator.go:109-166 | loading publishes what the database holds before any row is re-evaluated; a failed load is no step |
| `TrustRuns.EvaluateIsPersist` | internal/probe/handler.go:39-51 | evaluating and storing without delay stores a verdict of the pools in memory |
| `OutdatedVerdicts.RowTurnsFalseTwice` | internal/app/jobs.go:135-137 | a run from an empty start: a root leaves its store, the row is false from the publication to its re-evaluation, and false again when an evaluation of the old pools stores its verdict |
| `OutdatedVerdicts.PublicationsAreLoads` | internal/trust/evaluator.go:109-166 | both publications of that run are what loading from its database gives |
| `PoolLock.RunKeepsInv` | internal/trust/evaluator.go:109-213 | under every interleaving the lock excludes writers from readers and the pools equal the replayed loads and additions outside a write |
| `PoolLock.ReplayIsGeneration` | internal/trust/evaluator.go:155-179 | replaying loads and additions gives the last load's roots with its CA certificates and the intermediates added since |
| `PoolLock.EvaluateUsesOneGeneration` | internal/trust/evaluator.go:109-213 | every finished Evaluate took its read lock at a step after its own call, and all its verdicts come from the generation in memory at that step: the last published load plus later additions |
| `PoolLock.FailedLoadPublishesNothing` | internal/trust/evaluator.go:109-128 | from its start to its failure no step of a failed load touches pools, lock or history |
| `ProbeResult.IngestKeepsTrustSound` | internal/probe/handler.go:199-237 | where every trusted row is true, storing, pooling and judging any certificate leaves it so |
| `ProbeResult.IngestPem` | internal/probe/handler.go:200-237 | a certificate is stored exactly when it parses and its insert succeeds |
| `ProbeResult.IngestChain` | internal/probe/handler.go:198-238 | the chain's ingested certificates are stored, true trusted rows stay true, and leafOK says whether the leaf may be linked |
| `ProbeResult.Result` | internal/probe/handler.go:185-249 | recorded exactly when endpoint and linkable fingerprint are stored, with the fingerprint dropped when the leaf was not ingested; where every trusted row was true it stays true |
| `ProbeResult.RecordedByCases` | internal/probe/handler.go:194-241 | the scan is recorded as reported unless a chain came with it whose leaf was not stored; then only its fingerprint is dropped |
| `ProbeResult.StoredByCases` | internal/probe/handler.go:199-219 | exactly the certificates that parse and whose insert goes through are stored |
| `ProbeResult.HonestScan` | internal/probe/handler.go:185-249 | a scan whose chain parses and that names its leaf is recorded, and the leaf is then the endpoint's one current certificate for its use |
| `ProbeResult.HonestLeafIsLinkable` | internal/probe/handler.go:194-241 | a scanner that names the leaf it submitted is never refused for a missing certificate |
| `Grader.ScoreProtocols` | internal/tlsprofile/score.go:273-302 | half the sum of best and worst protocol whatever the map order |
| `Grader.ScoreCipherStrength` | internal/tlsprofile/score.go:349-370 | half the sum of strongest and weakest suite score |
| `Grader.ApplyFailures` | internal/tlsprofile/score.go:127-177 | F exactly when some automatic failure applies, and the warnings are exactly the failures that apply |
| `Grader.ApplyCaps` | internal/tlsprofile/score.go:179-235 | the caps take effect as if the guard on F were absent; the cap warnings are those that apply, or none behind the guard |
| `Grader.StagesTakeTheLeast` | internal/tlsprofile/score.go:506-511 | failing and capping in stages gives the least rank of the start and all limits |
| `Grader.Limit` | internal/tlsprofile/score.go:124-235 | base grade, failures and caps in stages equal the least of all of them |
| `Grader.Score` | internal/tlsprofile/score.go:98-260 | the staged computation equals the closed form: least of base grade and all triggered limits, then M over T over the rest; the warnings are exactly the rules applied |
| `Grader.GradeLadder` | internal/tlsprofile/score.go:473-511 | what keeps a grade at or below each rung: overrides, failures, caps, and 20, 35, 50, 65 and 80 points |
| `Grader.GradeBands` | internal/tlsprofile/score.go:473-488 | where nothing limits it the grade is A from 80 points, B from 65, C from 50, D from 35, E from 20, else F |
| `Grader.FailuresByRule` | internal/tlsprofile/score.go:127-177 | the twelve failure rules on the input's own fields and suite names |
| `Grader.CapsByRule` | internal/tlsprofile/score.go:179-235 | the cap rules on the input's own fields and suite names |
| `Grader.FlagsByName` | internal/tlsprofile/score.go:560-592 | forward secrecy and AEAD by what the suite names contain |
| `Grader.ContainsMeaning` | internal/tlsprofile/score.go:515-554 | the substring test finds the text exactly where the name is something, the text, something |
| `Text.UpperByChar` | internal/tlsprofile/score.go:381 | upper-casing character by character |
| `Grader.ProtocolPointsByAge` | internal/tlsprofile/score.go:264-302 | half the points of the oldest and the newest protocol, from 0, 80, 90, 95, 100 and 100 |
| `Grader.SuitePointsByName` | internal/tlsprofile/score.go:340-469 | a suite's points, 0, 20, 80 or 100, by what its name contains |
| `Grader.CipherPointsByExtremes` | internal/tlsprofile/score.go:349-370 | only the strongest and the weakest suite count |
| `Grader.ScoreByKeyBits` | internal/tlsprofile/score.go:311-336 | with the other sub-scores full the score is 70, 76, 82, 94, 97 or 100 as the key bits grow, and 100 when they are unknown |
| `Grader.ScoreByWeights` | internal/tlsprofile/score.go:115-122 | 30 and 40 parts in 100, or in 70 when the key exchange is unknown |
| `Grader.BestProfileScores` | internal/tlsprofile/score.go:98-122 | TLS 1.3 alone, 256-bit suites and 4096 key bits score 100 |
| `Grader.BestProfileGradesA` | internal/tlsprofile/score.go:98-260 | and with nothing wrong are graded A |
| `Grader.FailureWarningsByRule` | internal/tlsprofile/score.go:127-177 | each failure is reported exactly on its own condition |
| `Grader.CapWarningsByRule` | internal/tlsprofile/score.go:181-234 | each cap is reported exactly on its own condition |
| `Grader.WarningsExplainGrade` | internal/tlsprofile/score.go:127-245 | the score and which kinds of warning there are decide the grade |
| `Grader.OnlyTheSetOfSuitesMatters` | internal/tlsprofile/score.go:349-370 | score and grade do not depend on order or repetition of suites |
| `Grader.OlderProtocolNeverHelps` | internal/endpoints/handler.go:584-599 | enabling a protocol older than one already enabled never improves the grade |
| `Grader.Rc4SuiteNeverHelps` | internal/endpoints/handler.go:584-599 | accepting one more RC4 suite no stronger than the best never improves the grade |
| `Grader.FewerKeyBits` | internal/tlsprofile/score.go:149-152 | fewer known bits do not improve the grade if and only if they do not drop from under 1024 to 0 with nothing else failing and 20 points left |
| `Grader.ZeroBitsEscape` | internal/tlsprofile/score.go:149-152 | an input of Score: 512 bits force F where 0 bits leave E |
| `SeverityAggregation.ClassifyVersions` | internal/tlsprofile/classify.go:82-98 | the accepted versions oldest first, and the worst of their severities |
| `SeverityAggregation.Classify` | internal/tlsprofile/classify.go:79-121 | findings in order and the worst severity over all accepted versions and suites |
| `SeverityAggregation.WorstOfMeaning` | internal/tlsprofile/classify.go:124-132 | folding worst gives critical if any is, else warning if any is, else ok |
| `SeverityAggregation.CountPositiveIff` | internal/db/reports_store.go:200-213 | a severity count is positive exactly when some suite has that severity |
| `SeverityAggregation.AllAttentionIssues` | internal/db/reports_store.go:182-225 | flags nothing exactly when the classifier's overall severity is ok and otherwise reports that severity; lists exactly the issues present |
| `SeverityAggregation.OverallByColumns` | internal/tlsprofile/classify.go:79-132 | critical for SSL 3.0, TLS 1.0 or a suite the table lists as critical; ok exactly without those, TLS 1.1 and listed weak suites |
| `SeverityAggregation.CountAppend` | internal/db/reports_store.go:200-213 | a suite adds one to the count of its listed severity; an unlisted one counts as ok |
| `RecoveryCodes.FormatCode` | internal/totp/recovery.go:46-61 | the loop groups the code in fours with dashes |
| `RecoveryCodes.GroupedSpells` | internal/totp/recovery.go:46-61 | the displayed form spells the code |
| `RecoveryCodes.GroupedShape` | internal/totp/recovery.go:46-61 | the displayed code has a dash in every fifth place and the code's characters in order elsewhere |
| `RecoveryCodes.NormalizedIffSpells` | internal/totp/recovery.go:36-44 | a typed string normalises to a code if and only if, white space at the ends aside, it spells it |
| `RecoveryCodes.SpellingsNormalize` | internal/totp/recovery.go:36-44 | dashes and spaces anywhere and either letter case normalise to the code |
| `RecoveryCodes.PaddingIgnored` | internal/totp/recovery.go:36-44 | white space around what is typed does not matter |
| `Totp.HandleKeepsWf` | internal/users/totp_handler.go:104-456 | every handler keeps: armed means a secret and ten codes; a set is full or empty |
| `Totp.RunKeepsWf` | internal/users/totp_handler.go:155-456 | the same in every state of every serial run |
| `EnrolmentRaces.NeverStuckIff` | internal/users/totp_handler.go:155-199 | under every interleaving an account is never armed without a secret if and only if no confirmation enables after its secret was cleared and none stored since |
| `EnrolmentRaces.StepSticksIff` | internal/db/users_totp_store.go:55-71 | the same for one step |
| `EnrolmentRaces.ImmediateEnableIsSafe` | internal/users/totp_handler.go:155-199 | a confirmation that enables right after loading never arms without a secret |
| `EnrolmentRaces.ResetRaceSticks` | internal/users/totp_handler.go:415-456 | an admin reset between two confirmations' enables leaves the account armed without a secret |
| `EnrolmentRaces.StuckRefusesAll` | internal/auth/handler.go:250-254 | such an account refuses every request but an admin reset |
| `Totp.RedeemedAtMostOnce` | internal/db/users_totp_store.go:152-182 | in every serial run each recovery-code row is redeemed at most once |
| `RedemptionRaces.RepeatedIff` | internal/db/users_totp_store.go:152-182 | under every interleaving of calls and rotations a redemption repeats an earlier one of the row if and only if another call redeemed it between this call's listing and its mark |
| `RedemptionRaces.ImmediateMarkIsFirst` | internal/auth/handler.go:301-316 | a call that marks right after listing never repeats a redemption |
| `RedemptionRaces.TwoLoginsRedeemTwice` | internal/auth/handler.go:301-316 | two logins that both list before either marks redeem one code twice |
| `Totp.CodesAreConserved` | internal/db/users_totp_store.go:115-182 | either no codes, or unused codes plus redemptions since the last rotation are ten; armed implies a secret |
| `Totp.DisableLeavesNothing` | internal/db/users_totp_store.go:79-113 | disabling or an admin reset leaves no secret and no codes |
| `Totp.BeginSetupByColumns` | internal/users/totp_handler.go:104-139 | the new secret is the one stored, unconfirmed, and the codes stay |
| `Totp.ConfirmSetupByColumns` | internal/users/totp_handler.go:155-199 | a valid code installs exactly the new codes, unused and in order, keeps the secret and arms the account unless the flag write fails |
| `Totp.RegenerateByColumns` | internal/users/totp_handler.go:295-342 | the same without touching the flag, for an armed account |
| `Totp.DisableByColumns` | internal/users/totp_handler.go:215-456 | exactly when disabling or a reset goes through, and what it leaves |
| `Totp.LoginByColumns` | internal/auth/handler.go:224-297 | a recovery login marks its row and nothing else, for an enabled, armed user |
| `Totp.RedeemableByColumns` | internal/users/totp_handler.go:466-486 | a row matches exactly while unused and when what is typed, trimmed, spells its code |
| `Totp.EnrolThenRedeem` | internal/users/totp_handler.go:155-486 | after enrolment any spelling of a displayed code logs in once and, typed again, matches nothing |
| `Totp.SpellingIsRedeemable` | internal/users/totp_handler.go:368-390 | any spelling of a displayed code matches its stored hash |
| `Totp.AccountStore.ConsumeRecoveryCode` | internal/users/totp_handler.go:466-486 | redeems one unused matching row, and fails exactly when there is none |
| `Totp.AccountStore.RotateRecoveryCodes` | internal/users/totp_handler.go:368-390 | every old row is replaced by one unused row per new code |
| `Totp.HashAll` | internal/users/totp_handler.go:368-390 | one hash of the normalised form per displayed code, in order |
| `Totp.AccountStore.DisableUserTotp` | internal/db/users_totp_store.go:79-113 | clears secret, flag and codes |
| `Totp.AccountStore.BeginSetup` | internal/users/totp_handler.go:104-139 | a local, unarmed account gets a new unconfirmed secret; others are refused |
| `Totp.AccountStore.ConfirmSetup` | internal/users/totp_handler.go:155-199 | codes are rotated before the flag is set; a failing flag write leaves codes but no armed account |
| `Totp.AccountStore.RegenerateRecoveryCodes` | internal/users/totp_handler.go:295-342 | rotates only for an armed account and a valid code |
| `Totp.AccountStore.AdminReset` | internal/users/totp_handler.go:415-456 | disarms an armed account |
| `Totp.AccountStore.Disable` | internal/users/totp_handler.go:215-281 | password first, then a valid code or an unused recovery code, which is then redeemed |
| `Totp.AccountStore.LoginTotp` | internal/auth/handler.go:224-316 | an enabled, armed user is verified by a valid code or by redeeming a recovery code; nothing else changes |
| `CsvLine.ParseLine` | web/src/components/BulkImportDialog.tsx:60-77 | the index loop computes the recursive parse |
| `CsvLine.ParsePrint` | web/src/components/BulkImportDialog.tsx:60-77 | parsing a line printed per section 2 of RFC 4180 gives the fields, each trimmed |
| `CsvLine.TrimMeaning` | web/src/components/BulkImportDialog.tsx:68-75 | trimming leaves what stands between white space, with none at its ends |
| `CsvLine.RoundTripIff` | web/src/components/BulkImportDialog.tsx:60-77 | the round trip is exact if and only if no field has leading or trailing white space |

## Left out

- HTTP decoding, routing, JSON responses, logging, audit rows, permissions, settings and listing pages.
- SMTP, OIDC, CCADB downloads, TLS dialling and DNS: their results are inputs.
- bcrypt, AES-GCM, SHA-256, PEM and X.509 parsing: bcrypt matches exactly its own text, X.509 is `TrustPaths.Library` under the assumptions of `TrustPaths.Sound`.
- Database errors other than foreign-key refusals, except a refused certificate insert in `ProbeResult.Result`, a failing pool load, a failing listing in `AlertJob.RunExpiryAlerts` and a failing flag write in `Totp`.
- The clock: whole microseconds, strictly increasing from one recorded scan to the next.
- Timestamps first_seen_at, last_seen_at, created_at, updated_at, names and notes of endpoints, subject_org backfill, and the store's own updated_at.
- Cipher classification tables: `SeverityAggregation` takes the table as a parameter.
- Upper-casing of letters whose upper case is not ASCII, which no comparison with an ASCII name or code can tell; parseLine works on UTF-16 units, the model on characters.
- UpsertSAMLMetadata, TLS profiles, tags, groups and BackfillDNHashes; tag subscriptions are the set of endpoints they reach.
- The discovery inbox is modelled as upserts and deletes of single rows; skipping reports of monitored targets is a report that is not made.
- AlertJob.RunExpiryAlerts: the job is one step here; in `ExpiryAlerts` its listings and claims interleave with every other step.
- Runs.RunKeepsWf: transactions are serial. READ COMMITTED lets two of them interleave; `LinkRaces` covers that for the pair upsert, other pairs of transactions are not taken apart.
- IssuerLinks.ReconcileFindsNothing: inserts are serial; two concurrent inserts of a certificate and its issuer are not modelled.
- ExpiryAlerts.ThresholdsDecrease: assumes that two mails were listed in the order in which they were claimed, as one job at a time does.
- ScanLedger.LedgerRepresentsStream: excludes purging a certificate the endpoint's own rows name, which deletes those rows, and the deletion of the endpoint itself.
- TrustPaths.DeadEndChangesNothing: states the verdict, not the text of the reason, which is the library's own.
- Grader.Score: warnings are named by their rules, not by their texts.
- SeverityAggregation.Classify: findings carry versions and severities, not the reason texts.
- Dispatch.HandedToExactlyOne: does not model the ORDER BY of the two queries.
- PoolLock.RunKeepsInv: does not model the lock's preference for waiting writers, so it allows more interleavings than the lock does.
- Totp.RedeemedAtMostOnce: serial handler calls; `RedemptionRaces` says what concurrent ones do.
- Totp.RunKeepsWf: serial handler calls; `EnrolmentRaces` says what concurrent ones do to the secret and the flag.
- The scheduler.
