# Verified model of the Vlumeaware API core

A Dafny model of the parts of the API whose correctness spans several steps or several functions, with proofs
about all inputs and all runs. `dafny verify dfyconfig.toml` checks it.

## What is modelled

**Campaigns and the send queue** (`campaign_protocol`, `campaign_invariants`, `campaign_kill`, `campaign_drain`,
`campaign_launch`, `campaign_rules`, `campaign_delivery`, `campaign_examples`, `campaigns_service`, `send_worker`).
The database tables, the keyed job queue and the workers are one state. Each method of the campaign service is one
atomic step; the send processor takes one step per awaited call (claim, read and check, look up the scenario, mail,
stamp, return), any of which may throw. A failed job is retried up to three attempts, adding an id that already has a
job does nothing, an active job cannot be removed, and a failed or completed job may disappear. The environment may
also choose a sending domain and delete an employee's rows. A mail log and a log of lost stamps exist only for the
proofs. The main results hold for every interleaving of all these steps from the empty state. The classes of
`campaigns_service` are the imperative services over mutable fields; each method is proved to take exactly the
protocol's step, and `campaign_rules` says what each call answers and changes in terms of the tables alone. In
`send_worker` the processor's `process` is one method that lets everybody else take any steps wherever it awaits.

**The tenant guard** (`tenant_guard`). Clauses are a small tree (AND, OR, NOT, a tenantId filter, any other test) with
a meaning on rows; operations act on one table per model. The guard is proved to keep the meaning of a clause within a
tenant, so that a guarded query does to the tenant's rows what the caller's own query would do to a table of them
alone; and any adaptive program of guarded queries is proved not to interfere with other tenants.

**Authentication-Results** (`auth_comments`, `auth_results`, `auth_round_trip`, `auth_verdict`). The comment scanner
is proved equivalent to a grammar of nested comments, quoted strings and quoted pairs (sections 3.2.1, 3.2.2 and 3.2.4
of RFC 5322); the splitter and parser are proved to give back the records of a printed header, with arbitrary white
space and balanced comments between its tokens, exactly when a space stands before every property (section 2.2 of RFC
8601); and the verdict on a sender is stated by the message's headers, the printed records and the address.

**Algorithms with bounds**: greedy wrapping (`line_wrap`), the fixed-window limiter in both stores and its guard
(`rate_limit`), roster upload under a seat cap (`bulk_upload`, and in terms of the file's rows `bulk_rows`), lockout
(`lockout`), Base32, HOTP and TOTP (`totp`, section 6 of RFC 4648, section 5.3 of RFC 4226, RFC 6238), the risk score
(`risk`) and licence keys (`license_key`). Imperative code is a method with its loop, proved against a function, and
the theorems are about that function.

## Where the code does not do what its comments or callers expect

The code is modelled as it is. Each of the first five is a theorem with the exact condition, and an input.

- `resume` re-queues only rows whose id has no job. A row whose job finished during the pause (the worker skips it
  and returns) keeps that completed job, and resume and the workers do not send it; `retryUnsent` would. The condition
  is that of `CampaignDrain.ResumeDelivers`, the input that of `CampaignExamples.PauseLeavesJob`. The same condition
  decides whether relaunching a paused campaign delivers it: `CampaignDelivery.LaunchDelivers`.
- `retryUnsent` cannot replace a job that a worker holds, and its comment relies on that worker to finish or fail.
  A worker that read the row while the campaign was paused returns without sending:
  `CampaignDrain.RetryDelivers`, with the input of `CampaignExamples.RetryMissesGivenUpRow`.
- The next occurrence of a recurring campaign has no sending domain, preflight refuses it, and no code chooses one
  later; so recurrence alone never sends a second round: `CampaignLaunch.OccurrenceNeverMails`. What it takes to launch
  one is `CampaignLaunch.OccurrenceLaunchIff`, and a run in which it comes due and is refused is that of
  `CampaignExamples.OccurrenceComesDue`. The occurrence also drops the chosen employees and the sender fields.
- `parse` separates tokens at the space character only. Printed records come back exactly when every property has a
  space somewhere in the gap before it, when no record repeats a name or has a property named `__proto__` (which the
  parser's object does not keep, `AuthRoundTrip.PropsExact`): `AuthRoundTrip.ParsePrintIff`. A tab or a comment alone
  makes the property part of the result: `AuthRoundTrip.JoinedTokens`, with the inputs of
  `AuthRoundTrip.TabAndCommentJoin`.
- `verifyTotp` throws on a six-digit code when the window reaches below counter 0, as in the first 30 seconds after the
  epoch: `Totp.VerifyExact`.
- A wrapped text that ends in white space keeps one space at the end of its last line if the line fits with it, and
  otherwise none: `LineWrap.WrapIsOptimal`. Every line still fits or is one word.
- The comment in `license-key.ts` calls the alphabet Crockford's without U; it also lacks 0 and 1. The model uses the
  alphabet of the code.

## Model

| member | source | states |
|---|---|---|
| CampaignInvariants.MailsConserved | api/src/queue/send.processor.ts:26-86 | in every run of service, worker and environment steps, the mails of a row are its lost stamps, plus one if it is stamped or its worker is between mail and stamp; with no lost stamp nobody is mailed twice, and a stamped row was mailed |
| CampaignInvariants.OneRowOneWorker | api/prisma/schema.prisma:443 | in every reachable state a campaign has one row per recipient and scenario, and a job is running exactly when a worker holds it |
| CampaignInvariants.RunKeepsInv | api/src/modules/campaigns/campaigns.service.ts:295-568 | every step of every run keeps the whole invariant: ids, queue and workers, rows, conservation of mails, lineage |
| CampaignInvariants.CreateManyExact | api/src/modules/campaigns/campaigns.service.ts:354-364 | inserting with duplicates skipped keeps every old row, adds only unsent rows for asked pairs that had none, and leaves no asked pair without its row |
| CampaignInvariants.WorkerStepKeepsInv | api/src/queue/send.processor.ts:23-87 | a worker step keeps the invariant and touches only the row, job, worker and mails of its own send |
| CampaignKill.KillIsFinal | api/src/modules/campaigns/campaigns.service.ts:454-487 | after kill on any reachable state, over every continuation the campaign stays killed, gains no job, and sends at most one more mail for each of its workers already past the status check and not yet mailed |
| CampaignKill.KillDrains | api/src/modules/campaigns/campaigns.service.ts:468-486 | afterwards an unsent row has a job only if a worker holds it; the report counts the jobs gone and the rows unsent |
| CampaignKill.PauseHolds | api/src/modules/campaigns/campaigns.service.ts:434-443 | after pause on any reachable active state, over every continuation in which nobody resumes or relaunches the campaign, it stays paused or is killed, gains no job, and its further mails are bounded as after a kill |
| CampaignKill.WorkerOwnGain | api/src/queue/send.processor.ts:40-46 | a worker of a killed or paused campaign can only use up a mail it was already committed to |
| CampaignDrain.OkRunIsBounded | api/src/queue/send.processor.ts:23-87 | a run of effective worker steps without failures is no longer than a measure of the state: the workers terminate |
| CampaignDrain.OkRunToIdle | api/src/queue/send.processor.ts:23-87 | from every state such a run to an idle state exists |
| CampaignDrain.DeliveredIffGoing | api/src/queue/send.processor.ts:32-84 | when the workers of an active campaign have gone idle, no row is unsent if and only if every unsent row had a live job that its worker had not given up |
| CampaignDrain.RetryQueuesAll | api/src/modules/campaigns/campaigns.service.ts:516-543 | after retryUnsent on an active campaign every unsent row has a live job of the campaign |
| CampaignDrain.RetryFrame | api/src/modules/campaigns/campaigns.service.ts:516-543 | it changes no other job, no running job, no row, no status and no mail |
| CampaignDrain.RetryDelivers | api/src/modules/campaigns/campaigns.service.ts:489-552 | after retryUnsent from any reachable active state the workers deliver every unsent row if and only if no worker had given one up |
| CampaignDrain.ResumeDelivers | api/src/modules/campaigns/campaigns.service.ts:445-452 | after resume from any reachable paused state they do if and only if no unsent row had a failed or finished job left over or a worker that had given it up |
| CampaignExamples.PauseLeavesJob | api/src/modules/campaigns/campaigns.service.ts:434-452 | a run reaches a paused state after whose resume one row stays unsent whatever the workers do without failing |
| CampaignExamples.RetryMissesGivenUpRow | api/src/modules/campaigns/campaigns.service.ts:516-530 | a run reaches an active state after whose retryUnsent one row stays unsent whatever the workers do without failing |
| CampaignDelivery.LaunchDelivers | api/src/modules/campaigns/campaigns.service.ts:290-409 | launching a draft or a paused campaign in any reachable state and running its workers to idle without failures leaves no row unsent exactly when none had a leftover job or a worker that had given it up; then every recipient and scenario has a stamped row, mailed once more than its stamp was lost |
| CampaignDelivery.DraftDelivers | api/src/modules/campaigns/campaigns.service.ts:290-409 | for a draft that is always so: its rows are then exactly the product of its recipients and scenarios, each stamped and mailed exactly once |
| CampaignLaunch.LaunchAllowedIff | api/src/modules/campaigns/campaigns.service.ts:295-349 | a launch succeeds exactly for a draft or paused campaign when the agreement is signed, tracking and allowlist are confirmed, it has scenarios and a verified sending domain, and somebody chosen is on a verified domain; a refused launch changes nothing |
| CampaignLaunch.RecipientsExact | api/src/modules/campaigns/campaigns.service.ts:328-344 | the recipients are the chosen employees, or everybody when none are chosen, whose address is on a verified domain |
| CampaignLaunch.LaunchCreatesProduct | api/src/modules/campaigns/campaigns.service.ts:326-389 | after a launch the campaign's rows are the old ones plus exactly the missing pairs of recipients and scenarios, one row a pair; queued is the number of unsent rows, and each of them has a job |
| CampaignLaunch.LaunchClones | api/src/modules/campaigns/campaigns.service.ts:391-432 | a launch of a recurring campaign adds one draft that points at the root, keeps the root's scenarios, window and recurrence, and is due that many days later; any other launch adds no campaign |
| CampaignLaunch.ClonesCountLaunches | api/src/modules/campaigns/campaigns.service.ts:391-432 | in every run a root has exactly as many clones as there were successful launches of recurring campaigns in its lineage |
| CampaignLaunch.OccurrenceNeverMails | api/src/modules/campaigns/campaigns.service.ts:412-432 | the occurrence a launch schedules stays unlaunched and mails nobody in every run in which nobody chooses a sending domain for it |
| CampaignLaunch.OccurrenceLaunchIff | api/src/modules/campaigns/campaigns.service.ts:155-201 | an occurrence, whenever and wherever tried, launches exactly when a verified sending domain has been chosen for it, the other gates are met, and anybody on the roster is on a verified domain |
| CampaignLaunch.OccurrenceRefusedWhenDue | api/src/queue/scheduler.processor.ts:26-47 | after every recurring launch, once the days have passed, the tick finds the occurrence due and refuses it as not ready, in every environment |
| CampaignExamples.OccurrenceComesDue | api/src/modules/campaigns/campaigns.service.ts:412-432 | a run launches a daily campaign, and a day later the tick finds its occurrence due and refuses it |
| CampaignLaunch.TickLaunchesAccepted | api/src/queue/scheduler.processor.ts:37-47 | a tick launches as many of the due campaigns as would be accepted on their own, in any order, and its effect is that of those launches |
| CampaignLaunch.TickActivates | api/src/queue/scheduler.processor.ts:37-47 | each due draft is active afterwards exactly when its own launch would have been accepted, and otherwise its record is as it was |
| CampaignLaunch.ScheduleSetsDue | api/src/modules/campaigns/campaigns.service.ts:134-148 | a draft, and only a draft, becomes due at exactly the time it is scheduled for, a cleared one never, and nothing else changes or becomes due |
| CampaignRules.StatusChanges | api/src/modules/campaigns/campaigns.service.ts:295-487 | whatever anybody does, a campaign's status changes only in these ways: a launchable draft or paused one is launched, an active one paused, a paused one resumed, any one killed |
| CampaignRules.CallsRefused | api/src/modules/campaigns/campaigns.service.ts:434-516 | pause, resume, retryUnsent, schedule and kill are accepted exactly in their statuses; a refusal names the status or says there is no such campaign, and changes nothing |
| CampaignRules.LaunchRefused | api/src/modules/campaigns/campaigns.service.ts:295-349 | which refusal a launch gives: the status, then the gates and an empty roster, then that nobody is chosen, then that nobody chosen is on a verified domain |
| CampaignRules.CreateExact | api/src/modules/campaigns/campaigns.service.ts:26-131 | a new campaign is a draft under a new id with the chosen targets, sending domain, schedule, window, recurrence and scenarios, and nothing else changes; none is made without scenarios |
| CampaignRules.LaunchQueuesExactly | api/src/modules/campaigns/campaigns.service.ts:367-389 | a launch gives a fresh waiting job to exactly the unsent rows that had none, reports the unsent rows, and touches no job, worker, mail or foreign row |
| CampaignRules.ResumeExact | api/src/modules/campaigns/campaigns.service.ts:445-452 | resume changes the status and the queue alone: each unsent row without a job gains a waiting one, and the unsent rows are reported |
| CampaignRules.RetryExact | api/src/modules/campaigns/campaigns.service.ts:502-552 | retryUnsent replaces the jobs of unsent rows, but for those that workers hold, by fresh ones, queues the unsent rows without one, and reports the unsent rows and the jobs replaced |
| CampaignRules.KillExact | api/src/modules/campaigns/campaigns.service.ts:458-487 | kill sets the status and takes away exactly the jobs of unsent rows that no worker holds, and reports both numbers; a second kill does nothing |
| CampaignsService.Store.CreateRows | api/src/modules/campaigns/campaigns.service.ts:354-364 | the loop over the table is the insertion that CreateManyExact characterises |
| CampaignsService.Store.RemoveJobs | api/src/modules/campaigns/campaigns.service.ts:473-484 | the loop removes exactly the listed jobs that no worker holds and counts them |
| CampaignsService.Service.Launch | api/src/modules/campaigns/campaigns.service.ts:295-409 | the service's sequence of writes is the protocol's launch step, in state and result |
| CampaignsService.Service.Resume | api/src/modules/campaigns/campaigns.service.ts:445-452 | the service is the protocol's resume step, in state and result |
| CampaignsService.Service.LaunchPending | api/src/modules/campaigns/campaigns.service.ts:554-568 | the service queues every unsent row that has no job, and reports the unsent rows |
| CampaignsService.Service.Kill | api/src/modules/campaigns/campaigns.service.ts:458-487 | the service is the protocol's kill step, in state and report |
| CampaignsService.Service.RetryUnsent | api/src/modules/campaigns/campaigns.service.ts:502-552 | the service is the protocol's retry step, in state and report |
| SendWorker.SendProcessor.Process | api/src/queue/send.processor.ts:23-87 | with anybody else taking any steps wherever the processor awaits: a throw of the first read, of the scenario look-up or of the mailer ends in Threw before any mail, one of the stamp after it; without a throw the job is skipped unless its row is unsent and its campaign active at the moment of the read and the scenario exists, and else it is sent, or threw after the mail because its row was deleted; and each outcome leaves exactly its mails, lost stamp, job state and row |
| SendWorker.WorkerIsAlone | api/src/queue/send.processor.ts:26-86 | while a worker holds a job, no run of other steps touches its phase, its job, its mails and lost stamps or, short of deleting it, its row |
| SendWorker.ThreeAttempts | api/src/queue/queue.module.ts:27-37 | in every run a job is attempted at most three times and fails for good exactly with the third failure |
| CampaignsService.SchedulerProcessor.Process | api/src/queue/scheduler.processor.ts:26-48 | a draft whose time has come is active afterwards exactly when it was launchable, and the record of every other campaign is as it was; checked is the number of such drafts and launched that of the launchable ones |
| TenantGuard.ScopeWhereExact | api/src/common/prisma/tenant-guard.extension.ts:57-86 | for every clause and row, the row matches the narrowed clause exactly when it matches the clause and belongs to the tenant |
| TenantGuard.ExecOwn | api/src/common/prisma/tenant-guard.extension.ts:116-147 | a guarded operation on the whole table has the outcome and effect it has on the tenant's own rows alone, and leaves the other rows alone |
| TenantGuard.GuardArgsGuards | api/src/common/prisma/tenant-guard.extension.ts:116-145 | after the rewriting the clause is confined to the tenant, what is created belongs to it, and what is updated keeps its tenant |
| TenantGuard.RefusedIffMovesRows | api/src/common/prisma/tenant-guard.extension.ts:131-145 | a scoped operation is refused exactly when its update would move a row of the tenant to another tenant, or carries an undefined tenantId key |
| TenantGuard.Noninterference | api/src/common/prisma/tenant-guard.extension.ts:98-147 | any adaptive program under a tenant leaves other tenants' rows as they were, and on databases that agree on what the tenant sees gets the same results and keeps them agreeing |
| TenantGuard.PerformIsOwnQuery | api/src/common/prisma/tenant-guard.extension.ts:98-147 | under a tenant a query has the outcome, and on the tenant's rows the effect, that the caller's own query, clause and all, has on a table of these rows alone, created rows being the tenant's; it is refused exactly when it would move rows to another tenant |
| TenantGuard.UnscopedChangesNothing | api/src/common/prisma/tenant-guard.extension.ts:103-111 | without a tenant in scope every query on a scoped model throws, and no program changes a scoped table |
| TenantGuard.GuardedClient.AllOperations | api/src/common/prisma/tenant-guard.extension.ts:98-148 | what the hook sends on matches the tenant's rows that the caller's clause matches and no others, writes what the caller writes, and creates the tenant's rows; global models and system scope pass unchanged, and a refused query changes nothing |
| TenantGuard.GuardedClient.StampRows | api/src/common/prisma/tenant-guard.extension.ts:121-123 | every created row is stamped with the tenant, in order |
| AuthComments.StripComments | api/src/modules/intake/postmark-auth.ts:20-64 | the index loop is the scan that the grammar theorems are about |
| AuthComments.StrippedIffGrammar | api/src/modules/intake/postmark-auth.ts:13-64 | the scan returns null exactly on text the grammar does not derive, and otherwise the derived value without its comments |
| AuthComments.StrippedIdempotent | api/src/modules/intake/postmark-auth.ts:20-64 | stripping a stripped value changes nothing |
| AuthComments.CommentInsertion | api/src/modules/intake/postmark-auth.ts:36-59 | a balanced comment may be inserted at any unquoted, unescaped point of any text without effect |
| AuthResults.SplitOutsideQuotes | api/src/modules/intake/postmark-auth.ts:66-97 | the loop, with its skip over escaped characters, is the character-by-character splitter |
| AuthRoundTrip.DocStripped | api/src/modules/intake/postmark-auth.ts:118-121 | stripping a printed header removes its comments and nothing else |
| AuthRoundTrip.RecordsSplit | api/src/modules/intake/postmark-auth.ts:122-124 | splitting at semicolons cuts exactly between records, whatever their quoted values hold |
| AuthRoundTrip.PropsTokens | api/src/modules/intake/postmark-auth.ts:128-130 | splitting at spaces gives back exactly the tokens of a record whose properties all have a space before them |
| AuthRoundTrip.UnquoteQuoted | api/src/modules/intake/postmark-auth.ts:99-105 | unquoting a quoted string gives back the value, its quotes and backslashes included |
| AuthResults.ParseHeader | api/src/modules/intake/postmark-auth.ts:119-145 | the loops of the parser compute the parse that the round trip is about |
| AuthRoundTrip.UnquoteSpelled | api/src/modules/intake/postmark-auth.ts:136-141 | a value comes back whether it is written bare or quoted |
| AuthRoundTrip.ParsePrint | api/src/modules/intake/postmark-auth.ts:67-145 | printing records, values bare or quoted, with any white space and balanced comments between tokens and a space before every property, and parsing the text gives the records back |
| AuthRoundTrip.ParsePrintIff | api/src/modules/intake/postmark-auth.ts:118-145 | without repeated or __proto__ names the records come back if and only if every property has a space in the gap before it |
| AuthRoundTrip.JoinedTokens | api/src/modules/intake/postmark-auth.ts:128-142 | without one, whatever else the gap holds, the property becomes part of the result and none is found |
| AuthRoundTrip.TabAndCommentJoin | api/src/modules/intake/postmark-auth.ts:128-142 | a passing record loses its header.from at a folded tab, and at a bare comment |
| AuthRoundTrip.PropsExact | api/src/modules/intake/postmark-auth.ts:136-141 | with distinct names the parsed object holds exactly the printed properties, except one named __proto__ |
| AuthResults.IsAuthenticatedSender | api/src/modules/intake/postmark-auth.ts:165-187 | the verdict for any configuration, headers and sender that the next four rows are about |
| AuthResults.SecondHeaderRefused | api/src/modules/intake/postmark-auth.ts:155-179 | two headers that bear the trusted id refuse the sender, whatever they say |
| AuthVerdict.StampedHeaderDecides | api/src/modules/intake/postmark-auth.ts:158-187 | in a message with any other headers, when exactly one bears the trusted id and holds a printed document, the sender is accepted exactly when some printed record has method dmarc, result pass and, as the last property of its name, a header.from that is the text after the address's last @ |
| AuthVerdict.AuthenticatedNeeds | api/src/modules/intake/postmark-auth.ts:155-182 | nobody is accepted without a configured id, without exactly one header that bears it, or when its value is not one the grammar of quoted strings and comments derives |
| AuthVerdict.RawIdExact | api/src/modules/intake/postmark-auth.ts:107-116 | the id read from any raw value is the given one exactly when the value is white space, that id in any case, and then nothing or a semicolon, parenthesis or white space |
| AuthVerdict.DocBears | api/src/modules/intake/postmark-auth.ts:107-116 | a printed header bears its server's id when only white space stands before it |
| LineWrap.Wrap | api/src/modules/certificates/certificate-pdf.ts:62-77 | the loop produces the greedy lines |
| LineWrap.SplitShape | api/src/modules/certificates/certificate-pdf.ts:66 | splitting a text leaves an empty word at each end that is white space, and nowhere else |
| LineWrap.WrapIsOptimal | api/src/modules/certificates/certificate-pdf.ts:62-77 | for every text the lines are a layout of its words (in order, each line fits or is one word), but for a space kept at the end exactly when the text ends in white space and the last line fits with it; when runs inside fitting lines fit, no layout has fewer lines |
| LineWrap.LinesKeepText | api/src/modules/certificates/certificate-pdf.ts:62-77 | the lines of any layout, joined by spaces, are the words joined by spaces |
| RateLimit.InMemoryRateLimitStore.Sweep | api/src/common/ratelimit/rate-limit.store.ts:125-131 | at most once a minute, drops exactly the expired counters |
| RateLimit.StoresAgree | api/src/common/ratelimit/rate-limit.store.ts:34-131 | over any time-ordered calls, the swept map, the map without sweeping and the Redis script give the same results |
| RateLimit.CountsCallsInWindow | api/src/common/ratelimit/rate-limit.store.ts:110-122 | the count a call gets is the number of its key's calls since the window opened, which was at a call that found every earlier window over; all of them were told the same reset time |
| RateLimit.AtMostTwiceTheLimit | api/src/common/ratelimit/rate-limit.guard.ts:68-73 | with one window per key, no half-open interval one window long lets more than twice the limit through, whichever store counts |
| RateLimit.RetryAfterIsLeast | api/src/common/ratelimit/rate-limit.guard.ts:68-72 | a request is refused exactly past the limit, and Retry-After is the least whole number of seconds, at least one, that reaches the reset |
| RateLimit.RateLimitGuard.CanActivate | api/src/common/ratelimit/rate-limit.guard.ts:41-86 | no rule or a failing store lets the request pass, the fallback store is made once and counts, a configured one is judged by its count |
| BulkUpload.EmployeesService.BulkUpload | api/src/modules/employees/employees.service.ts:49-128 | the loop's roster and report are those that the rows below characterise |
| BulkUpload.SkippedExact | api/src/modules/employees/employees.service.ts:68-113 | the report lists in order exactly the rows that are unusable, repeat the address of an earlier usable row, or find no seat left after the distinct new addresses before them, each with its number and reason |
| BulkUpload.UploadCounts | api/src/modules/employees/employees.service.ts:53-127 | rows = created + updated + skipped; created = min(free seats, distinct usable new addresses); the roster grows by the created and never past the cap |
| BulkUpload.UploadDecides | api/src/modules/employees/employees.service.ts:92-125 | an address on the roster afterwards has the entry of its first usable row, or without one the entry it had |
| BulkUpload.UploadIsIdempotent | api/src/modules/employees/employees.service.ts:44-128 | uploading the same rows again leaves the roster unchanged and creates nobody |
| BulkRows.RowsDecide | api/src/modules/employees/employees.service.ts:68-125 | an address on the roster afterwards has the trimmed name and department, none if blank, of its first usable row, that is a row with a valid address on a verified domain and a name; an address without one has the entry it had |
| BulkRows.RowsReported | api/src/modules/employees/employees.service.ts:68-113 | the report lists in file order exactly the rows that fail a check, each with its number, its address and the first of the five checks it fails, stated by the fields of the rows |
| BulkRows.NotSkippedIsOn | api/src/modules/employees/employees.service.ts:96-125 | the address of every row that is not skipped is on the roster afterwards |
| BulkRows.RowsCounted | api/src/modules/employees/employees.service.ts:53-127 | the created are the distinct usable addresses that were not on the roster, as many as the free seats hold; every row is created, updated or skipped |
| Lockout.FailuresCounted | api/src/common/auth/auth.service.ts:394-440 | over any run of wrong passwords and codes the count goes up by exactly the comparisons, and from five on the account is locked until 15 minutes after the last recorded failure |
| Lockout.LockedIsShut | api/src/common/auth/auth.service.ts:116-121 | whatever secret a call carries, right or wrong, a locked account is not compared, not let in and not changed |
| Lockout.AuthService.Login | api/src/common/auth/auth.service.ts:54-192 | the loops over the candidates leave the rows, compare the accounts and give the outcome that the lemmas below are about |
| Lockout.WrongCall | api/src/common/auth/auth.service.ts:116-142 | a wrong call compares the secret of every unlocked account it reaches exactly once and records the failure; every other account is not compared and is untouched |
| Lockout.AcceptedIffRight | api/src/common/auth/auth.service.ts:63-189 | a secret is found right exactly when an account the call reaches is unlocked and the secret is its own; then that account is cleared and no other changed; a deactivated account is told so, second factor or not, an active one is asked for its second factor exactly when it has one, and else gets a token |
| Lockout.WhoIsTold | api/src/common/auth/auth.service.ts:63-142 | of several client rows the first welcome one is let in; a call is told that the account is locked exactly when it names one account and that one is locked |
| Lockout.WhoIsCompared | api/src/common/auth/auth.service.ts:63-130 | the secrets compared are exactly those of the unlocked accounts the call reaches, up to the first right one |
| Lockout.LockoutBound | api/src/common/auth/auth.service.ts:373-447 | in any run with nothing right in it, the comparisons of an account's secret within T ms number at most 5 + T / 900000, and at most 1 + T / 900000 once it has failed four times |
| Totp.GenerateSecret | api/src/common/auth/totp.ts:10-19 | the secret is the Base32 encoding of the bytes, group by group |
| Totp.Base32Decode | api/src/common/auth/totp.ts:21-34 | the decoded bytes of any text, padding, white space and foreign characters ignored |
| Totp.DecodeEncode | api/src/common/auth/totp.ts:10-34 | decoding an encoded secret gives a prefix of its bytes lacking at most one, and all of them exactly when their number is a multiple of five |
| Totp.EncodeExact | api/src/common/auth/totp.ts:10-19 | the letters spell, base 32, the number the bytes spell, without the bits left over, most significant first |
| Totp.DecodeExact | api/src/common/auth/totp.ts:21-34 | of any text only the letters of the alphabet count, in either case, and the bytes spell the number that those letters spell, without the bits left over |
| Totp.MessageExact | api/src/common/auth/totp.ts:38-40 | the message for a counter is the one string of eight bytes that spells it, highest byte first |
| Totp.HotpExact | api/src/common/auth/totp.ts:36-49 | the code is six digits: the number spelled by the four bytes of the MAC from the offset on, highest first, without its top bit, modulo a million |
| Totp.VerifyTotp | api/src/common/auth/totp.ts:52-63 | the loop over the window is the search that the next two rows characterise |
| Totp.VerifyExact | api/src/common/auth/totp.ts:53-62 | the check throws exactly when a six-digit token's window reaches below counter 0, and otherwise accepts exactly the codes of the window's counters |
| Totp.SpacesIgnored | api/src/common/auth/totp.ts:53 | white space anywhere in a code makes no difference |
| Totp.MintedCodeAccepted | api/src/common/auth/totp.ts:51-63 | a code minted at one time is accepted at every time within 30 seconds of it, from 30 seconds after the epoch on |
| Risk.BreakdownSums | api/src/modules/employees/risk.service.ts:103-127 | the points shown add up to within 1 of the rounded score before clamping |
| Risk.ScoreInWholeNumbers | api/src/modules/employees/risk.service.ts:107-119 | the score is one integer division of the weighed counts, halves upward, repeated clicks and quiz passes counting up to five, clamped to 0..100 |
| Risk.PointsExact | api/src/modules/employees/risk.service.ts:107-127 | the points in the order of the factors, each as an integer division, halves upward |
| Risk.RowExact | api/src/modules/employees/risk.service.ts:81-155 | a row's counts are the numbers of the employee's sent, clicked, reported and submitted rows and passed quizzes; the levels start at 25, 50 and 75, and two clicks make a repeat clicker |
| Risk.ScoreMonotone | api/src/modules/employees/risk.service.ts:97-119 | the score lies in 0..100, never falls as clicks or submissions rise, never rises as reports or quiz passes rise |
| Risk.ScoreAllRanksScoreOne | api/src/modules/employees/risk.service.ts:36-95 | the list from the three grouped queries is a permutation of everybody's own score, descending, ties in roster order |
| LicenseKey.GenerateLicenseKey | api/src/modules/licenses/license-key.ts:20-28 | the key is the prefix and the picked letters in hyphenated fives |
| LicenseKey.NormaliseLicenseKey | api/src/modules/licenses/license-key.ts:35-41 | the loop computes the normal form of any input |
| LicenseKey.NormaliseIdempotent | api/src/modules/licenses/license-key.ts:35-41 | normalising twice is normalising once, on every input |
| LicenseKey.NormalisesToIssuedKey | api/src/modules/licenses/license-key.ts:30-41 | an input normalises to an issued key exactly when its letters and digits, upper-cased, are the key's, with or without the prefix |
| LicenseKey.NormalFormAt | api/src/modules/licenses/license-key.ts:35-41 | of any letters and digits, the character at each position, after a leading VLA, stands in the normal form after VLA and as many hyphens as there are fives before it; hyphens stand between fives and nowhere else |
| LicenseKey.OnlyAlphanumericsCount | api/src/modules/licenses/license-key.ts:36 | any other character anywhere, and case, make no difference |
| LicenseKey.IssuedKeysAreNormal | api/src/modules/licenses/license-key.ts:3-41 | an issued key is its own normal form, and two issued keys never share one |

## Left out

- CampaignInvariants.MailsConserved: is stated for rows that exist; when an employee is removed, the mails of the deleted rows stay in the log but have no row to count them against.
- CampaignKill.KillIsFinal: each service method is one atomic step, so a launch whose status write comes between kill's check and its write is not modelled.
- CampaignDrain.RetryDelivers: the workers' run is one without failures; stalled jobs that the queue hands to a second worker are not modelled.
- CampaignsService.Service.Create: keeps only the refusal of an empty scenario list; the other input checks of `create` (approved scenarios, targets on the roster, dates, sender fields) are single branches.
- CampaignsService.Service.Launch: job delays are not modelled (every added job is waiting), nor are launchedAt, tracking tokens and the audit record.
- CampaignsService.Service.RetryUnsent: the overMinutes window only chooses job delays, and is not modelled either.
- TenantGuard.Noninterference: nested writes, include, raw SQL, connect, operations outside the two sets and unique-constraint errors are not rewritten by the guard and not modelled.
- TenantGuard.GuardedClient.AllOperations: update payloads are objects, as the client requires; the branch that skips any other payload is not modelled.
- AuthRoundTrip.ParsePrint: case mapping is that of ASCII letters, as in every module that maps case, and strings are sequences of characters rather than UTF-16 units.
- LineWrap.WrapIsOptimal: the font is any width function.
- RateLimit.StoresAgree: one clock reading per call stands for the store's clock and the process's; the live map entry that the first hit of a window returns is read at once.
- Lockout.LockoutBound: calls come one after the other; overlapping calls that both read the old count are not modelled.
- Lockout.AuthService.Login: password hashes, the contents of tokens and challenges, enrolment flags and look-ups by address are outside it; what a password or code matches is an input.
- Totp.HotpExact: HMAC-SHA-1 is any function to 20 bytes, and the 64-bit counter limit is the only range check; floating point is not modelled in the division of the clock.
- Risk.BreakdownSums: scores are exact rationals, not floating point; the detail texts of the breakdown and the displayed rates are left out.
- The campaign modules hold one tenant's data: reading the tenant, the roster, domains and settings is a parameter of each launch.
- Certificates and risk reports beyond `wrap`: PDF drawing, fonts and storage.
- CSV parsing, automatic training enrolment, digest mails, groups, domains, trials, migrations and tenant deletion.
- HTML sanitising and entity decoding: rewriting by regular expressions with no grammar to refine.
- Controllers, roles, the web console, the website and the content packs: interface and data.
- HMAC, bcrypt, JWT, DNS, mail transport and Redis itself: parameters or uninterpreted functions.
