# Portal user reconciliation — a Dafny model

`updateUsers.py` keeps the accounts of an ArcGIS portal in step with the
enterprise directory. For every portal account that has an identity-provider
user name (`idpUsername`), it looks the user up in the directory. A user who
is missing or disabled there (`userAccountControl == 514`) is disabled in the
portal. A portal account that is disabled while its directory user is active
is enabled again. Every change goes into one of three report buckets. The
HTML report is mailed only when something was enabled or disabled. A
non-empty `testUser` selects rehearsal mode: no portal call is made, and the
report goes to the test user alone.

This project models that core as pure functions over immutable data:

- `directory.dfy` (module `Directory`): the search attribute chosen from
  `portalCheck`, the lower-cased lookup key, and `ldapCheck`'s reading of the
  first entry into a department and the fail-closed `respCode`.
- `reconcile.dfy` (module `Reconcile`): the four-branch decision, the
  per-account outcome (bucket row and portal call), and `Outcomes`, a
  functional reference for the enumeration loop. `GetPortalUsers` is the
  loop itself, proved to agree with `Outcomes`. The module also holds the
  partition, order, rehearsal and convergence properties.
- `notification.dfy` (module `Notification`): the structural report (three
  sections, each holding rows or a placeholder), its read-back, its HTML
  rendering, and the send gate with the recipient choice.
- `pipeline.dfy` (module `Pipeline`): `main` as one function of its inputs,
  with run-level properties.
- `options.dfy` (module `Options`): the optional-value type.

External collaborators are parameters. The directory is a function from a
search attribute and a key to a `Lookup`. That lookup is either
`Unreachable` (a query that raises, either the connection at line 120 or a
search at line 123 or 125, for instance on a transport failure or a
malformed filter; the uncaught exception ends the run) or the search's first
entry, if there is one. Portal calls
are an emitted trace of `Intent`s. Mail is the `Mail` value the script would
hand to the SMTP server. The accounts are an input sequence, in enumeration
order.

Behaviour of the script worth noting:

- Department: the code takes the entry's `Department` attribute verbatim.
  There is no `"N/A"` sentinel for a missing department. (`N/A` appears
  only in a console message at line 165.) When no entry is found, the
  department is `None`, which the report renders as `None`.
- Failed search: a query that raises (the connection at line 120, or a
  search at line 123 or 125 that raises) is `Unreachable` and ends the run.
  A search that only returns an error result leaves no entries, so the code
  treats it as "not found" and fails closed.
- Abort behaviour: the run does not stop cleanly when the directory is
  unreachable. The exception ends it, and any portal calls already made
  stand.

## Model

| member | source | states |
|---|---|---|
| `Directory.Lower` | updateUsers.py:166 | the lookup key keeps the user name's length, has no upper-case ASCII letter left, and keeps every other character unchanged |
| `Directory.LowerIdempotent` | updateUsers.py:166 | lower-casing an already lower-cased key changes nothing |
| `Directory.LowerIgnoresCase` | updateUsers.py:166-167 | two user names that differ only in the case of ASCII letters give the same key, and so send the same directory query |
| `Directory.LdapCheck` | updateUsers.py:127-145 | `respCode` is 0 or 1, and it is 1 exactly when no entry was found or the entry's `userAccountControl` is 514; the department is absent exactly when no entry was found, and otherwise is the entry's |
| `Directory.FailClosed` | updateUsers.py:127-145 | `respCode == 1` exactly when the three-way directory status is not Active; the department is missing exactly when the status is NotFound |
| `Reconcile.Decide` | updateUsers.py:168-195 | exactly one of the four branches holds for every `respCode` and disabled flag, each characterised by both directions of its condition |
| `Reconcile.DecisionMatchesTable` | updateUsers.py:168-195 | the script's decision on (`respCode`, disabled) equals a decision table on the three-way directory status (active, disabled, not found) and the enabled flag, for every entry and flag |
| `Reconcile.ProcessAccount` | updateUsers.py:166-195 | per account: the branch is fixed by "not found or 514" and the disabled flag; a row exists iff the branch is not no-action; the row carries the account's names, the entry's department and the branch's fixed action and recommendation texts; a disable or enable call on the account's user name is made iff the branch calls for it and `testUser` is empty |
| `Reconcile.GetPortalUsers` | updateUsers.py:153-197 | the loop stops exactly when some managed account's directory is unreachable; the calls it makes, and on completion its three buckets, are those of the reference `Outcomes` |
| `Reconcile.OutcomesAppend` | updateUsers.py:160-197 | the loop over `p + q` is the loop over `p` followed, unless `p` stopped the run, by the loop over `q` |
| `Reconcile.OutcomesWellFormed` | updateUsers.py:160-167 | every outcome belongs to a managed account and is the decision on the answer to that account's own lower-cased query |
| `Reconcile.OutcomesFollowEnumeration` | updateUsers.py:159-197 | the decided accounts are a prefix of the managed accounts in enumeration order: all of them when the run completes, strictly fewer when it stops |
| `Reconcile.UnmanagedAccountIgnored` | updateUsers.py:161 | inserting an account without an identity-provider user name anywhere in the enumeration changes no outcome and does not change whether the run stops |
| `Reconcile.BucketTexts` | updateUsers.py:175-190 | every row of a bucket carries that bucket's action and recommendation texts |
| `Reconcile.BucketsDisjoint` | updateUsers.py:168-192 | no row appears in two buckets |
| `Reconcile.BucketsPartition` | updateUsers.py:168-195 | the sizes of the three buckets plus the number of no-action outcomes equal the number of decided accounts |
| `Reconcile.BucketIsSubsequence` | updateUsers.py:176-191 | each bucket is a subsequence of all reported rows in processing order (append-only, order preserved) |
| `Reconcile.BucketFollowsEnumeration` | updateUsers.py:159-197 | the accounts named by a bucket's rows (display name and identity-provider user name) form a subsequence of the managed accounts in enumeration order |
| `Reconcile.RehearsalIssuesNothing` | updateUsers.py:171-189 | with a non-empty `testUser`, no enable or disable call is made |
| `Reconcile.LiveIntentsMatchBuckets` | updateUsers.py:171-191 | with an empty `testUser`, the number of calls equals the number of disabled-bucket rows plus enabled-bucket rows |
| `Reconcile.IntentsByMode` | updateUsers.py:171-189 | a run makes no call when `testUser` is non-empty, and one call per disabled- or enabled-bucket row when it is empty |
| `Reconcile.IntentsDistinct` | updateUsers.py:168-191 | with distinct user names, no two calls of a run name the same account |
| `Reconcile.AccountDecided` | updateUsers.py:160-167 | every managed account of a run that does not stop is decided by some outcome |
| `Reconcile.DeprovisionedOutcome` | updateUsers.py:137-176 | in live mode, with distinct user names, a completed run disables an enabled account the directory does not know with exactly one call naming it, and puts its row, with no department, in the disabled bucket |
| `Reconcile.RehearsalDecidesLikeLive` | updateUsers.py:168-192 | the buckets, and whether the run stops, do not depend on `testUser` |
| `Reconcile.Mutate` | updateUsers.py:174-189 | a disable call on an account's user name leaves it disabled, an enable call without a disable call naming it leaves it enabled, and without a call naming it the account is unchanged; no call changes its names |
| `Reconcile.ApplyIntents` | updateUsers.py:174-189 | the portal after the calls: the same accounts in the same order, each changed only by the calls naming it |
| `Reconcile.OutcomesAfterMutation` | updateUsers.py:166-195 | after the calls, a run queries the same keys, stops in the same place, and re-decides each account on the same directory answer |
| `Reconcile.IntentsNamingAccount` | updateUsers.py:168-191 | in live mode, with distinct user names, a disable (or enable) call names a decided account exactly when that account's own branch is disable (or enable) |
| `Reconcile.ReconciledOutcomesSettle` | updateUsers.py:168-195 | in live mode, with distinct user names, after its own calls every decided account re-decides to already-disabled or no-action |
| `Reconcile.SettledRunIsQuiet` | updateUsers.py:168-195 | decided outcomes that are all already-disabled or no-action make no call, whatever the mode, and leave the enabled and disabled buckets empty |
| `Reconcile.ReconciliationConverges` | updateUsers.py:160-197 | in live mode, with distinct user names, a second loop after the first loop's calls took effect makes no call and fills neither the enabled nor the disabled bucket |
| `Notification.SectionFor` | updateUsers.py:296-368 | a section shows exactly its bucket's rows in bucket order, and shows its placeholder exactly when the bucket is empty |
| `Notification.Compose` | updateUsers.py:283-407 | the report has three sections in the order Disabled, Enabled, Previously Disabled; each shows its bucket's rows, or "No accounts were disabled" / "No accounts were enabled" / "No accounts were disabled" when empty |
| `Notification.RecoverCompose` | updateUsers.py:283-407 | all three buckets, empty or not, can be read back from the composed report |
| `Notification.ComposeRecover` | updateUsers.py:283-407 | every well-shaped report is the composition of the buckets read back from it |
| `Notification.RowsHtmlAppend` | updateUsers.py:202-219 | rendering the rows of two lists concatenated is the two renderings concatenated, so rows appear in bucket order |
| `Notification.BuildRowOutput` | updateUsers.py:202-219 | the row loop's accumulated markup is one rendered row per bucket entry, in order |
| `Notification.ReportHtml` | updateUsers.py:370-407 | the page is the fixed head, then the Disabled, Enabled and Previously Disabled sections in that order, then the fixed foot |
| `Notification.Notify` | updateUsers.py:410-460 | a message exists exactly when the enabled or disabled bucket is non-empty; in rehearsal mode it goes to the test user alone; in live mode it goes to the department administrator with the administrator in copy and on the envelope; it carries the report, the fixed subject, sender, low priority and plain-text fallback |
| `Notification.AlreadyDisabledAloneIsSilent` | updateUsers.py:419-460 | with the enabled and disabled buckets empty, no message is sent, whatever the previously-disabled bucket holds |
| `Pipeline.Job` | updateUsers.py:79-90 | a run produces buckets exactly when no directory query was unreachable, and sends only then; it sends exactly when a bucket of changes is non-empty; the message body is the report of the buckets; rehearsal makes no call; live mode makes one call per change |
| `Pipeline.RunJob` | updateUsers.py:79-90 | `main`, with the loop and the notification composed, produces exactly the run described by `Job` |
| `Pipeline.UnreachableDirectoryStopsRun` | updateUsers.py:114-167 | when the first unreachable query is at account k, no message is sent, no buckets are produced, and the only calls are those decided for the accounts before k |
| `Pipeline.RehearsalMatchesLive` | updateUsers.py:419-438 | a rehearsal run has the buckets of the live run, makes no call, and sends to exactly the test user whenever the live run would send |
| `Pipeline.SecondRunIsQuiet` | updateUsers.py:160-197 | in live mode, with distinct user names, a second run after the first run's calls took effect makes no call and sends no message |
| `Pipeline.DeprovisionedAccountIsDisabled` | updateUsers.py:140-176 | in a live run that completes, with distinct user names, an enabled account with no directory entry, anywhere in the enumeration, gets one disable call and no other call naming it, and an Accounts Disabled row with no department; the message goes to the department administrator with the administrator in copy and on the envelope |

## Left out

- Portal sign-in and the detection of the portal kind (lines 92-112). These
  are a vendor API call and configuration. `portalCheck` is an input.
- Base64 credential decoding, and the LDAP connection and search-filter text
  (lines 120-125). These are network I/O. The directory is the `DirectoryFn`
  function, and a query that raises is `Unreachable`.
- Account enumeration (`GIS('Home')`, `gis.users.search`, the unused user
  count, lines 157-159). The accounts are an input sequence. The
  10000-account cap of the search is not modelled.
- The portal calls `disable_users` / `enable_users` (lines 174, 189). They
  appear as an `Intent` trace. Their effect is modelled only by `Mutate`,
  for the convergence lemmas. If both calls named one user name, `Mutate`
  would apply the disable; with distinct user names this cannot happen.
- MIME assembly and SMTP delivery (lines 410-434, 453-456). These are mail
  transport. Only the resulting message fields are modelled.
- All console output, including the condition at line 277. It only selects
  a message to print and does not gate sending.
- The stylesheet and the whitespace of the HTML (lines 283-405). The
  markup is kept without them.
- Directory.Lower: models `str.lower()` on ASCII letters only. Other
  characters are kept as they are, so non-ASCII case mapping is not
  modelled.
- Failures of a portal call or of sending the mail. In the script these
  raise and end the run; the model treats both as always succeeding. Lines
  174 and 189 also discard the return values of `disable_users` and
  `enable_users`, so a call that reports failure without raising still
  yields an "Account Disabled" or "Account Enabled" row; the model shares
  this behaviour.
- Concurrency. `concurrent.futures` is imported but unused, and processing
  is sequential.
