# A verified model of the Uaagro voice assistant's core

Dafny models of the parts of the system where a quiet mistake would cost most: the word error rate, the
hash-chained audit log, outbound dialling and its compliance gate, the Live page, number scrubbing, land and
dose arithmetic, the live feed, post-call retries, monthly partitions, and the phone number with its
encryption. Each file follows one or two source files; code that computes is written as functions and
lemmas, code that changes things step by step as classes, methods with loops, or step machines.

`dafny verify dfyconfig.toml` checks the whole project.

| file | what it models |
|---|---|
| `EditScripts.dfy`, `Wer.dfy`, `WerReport.dfy` | edit scripts, the two-row alignment loop, corpus reports |
| `AuditChain.dfy`, `AuditAppend.dfy` | the batched chain walk; concurrent appends under the lock |
| `Compliance.dfy`, `CampaignTables.dfy`, `LoadedContacts.dfy`, `WeeklyCap.dfy` | the gate's checks; the contact loader over tables, and what it says told by the tables; what the weekly cap bounds |
| `Dialler.dfy`, `CampaignRuns.dfy`, `CampaignRedial.dfy`, `CampaignHalts.dfy` | one dialling session; campaign runs with crashes; who can be rung again; what a pause or the closed window lets through |
| `ContactStatuses.dfy`, `Reconciliation.dfy`, `CallResults.dfy` | contact statuses; the reconciliation job; what calls and dials leave behind |
| `LiveReducer.dfy`, `LiveOrder.dfy`, `LiveInvariants.dfy`, `DayFigures.dfy` | the Live page's fold, and what its figures count |
| `NumberPattern.dfy`, `NumberScrub.dfy`, `SummaryText.dfy`, `LogRedaction.dfy`, `LinkRedaction.dfy`, `RedactedEvents.dfy` | number patterns, replacement, summaries, log redaction, and what an event shows afterwards |
| `Units.dfy`, `LandUnits.dfy` | rounded land and dose arithmetic, and the units in plain figures |
| `LiveFeed.dfy`, `PostCall.dfy` | the bounded feed; the post-call pipeline |
| `Partitions.dfy` | monthly partitions and the job that creates them |
| `Phone.dfy`, `Crypto.dfy` | phone spellings; envelope encryption and lookup hashes |
| `Wrappers.dfy` | the option and result types |

## Where the code and its promises differ

The models follow the code. Where a promise of the documentation or of a comment is not kept for all inputs,
an input that breaks it is shown and the exact condition under which it is kept is proved.

- Land units: converting to acres and back is exact for every four-decimal area if and only if the unit is at
  least an acre (`Units.RoundTripExactIffWide`; `Units.NarrowTripsFail` for the others), so not for the usual
  bigha and katha.
- A condition of a word error report can show a rate of zero with errors in it: exactly when all its references
  are empty and some hypothesis is not (`CorpusScoring.ZeroRateWithErrors`, `CorpusScoring.SilenceHeardAsWords`).
- The audit walk notices every deletion but that of the newest rows (`AuditChain.DeletedRows`), although the
  file's heading speaks of any deletion. A batch size of zero reads nothing and reports success
  (`AuditChain.VerifyChain`).
- `contacts.py` line 30 means a completed contact not to be rung again for its campaign, but no query and no
  recheck looks at the stored status (`CampaignTables.LoadingIgnoresStatus`, `CampaignRuns.DiallingIgnoresStatus`).
  `CampaignRedial.CompletedContactIsRungAgain` is a run that rings one again. A contact is safe from another
  attempt exactly when it has reached the attempt cap or the gate blocks the campaign's settings at every
  instant (`CampaignRedial.RungAgainExactlyBelowCap`); and at one instant exactly when the gate blocks, the
  calling window is closed or its recheck finds something (`CampaignRedial.RungNowExactlyWhenItPasses`).
- Pauses and the calling window are looked at before a launch, not before a dial. A call can go out after the
  window closed (`CampaignHalts.DialledOutsideTheWindow`) and after a pause (`CampaignHalts.DialledAfterAPause`),
  to exactly the contacts that can be rung at all. A halted session makes no further call exactly when no task is
  still to ask the provider, no contact is cleared for launch, and of those past their window check none passes
  its recheck, at one instant (`CampaignHalts.HaltedSessionDialsExactlyWhen`), or none is below the attempt cap,
  however long the session stays halted (`CampaignHalts.HaltedSessionEverDialsExactlyWhen`).
  `CampaignHalts.HaltedSessionDialsOut` bounds how many.
- The weekly cap of two counts contact rows, not calls, and is looked at before an attempt waits for its turn, not
  when it is recorded, while other campaigns do the same. A farmer is rung at most three times more in a week than
  contacts of the farmer wait at once (`WeeklyCap.AttemptsAWeek`), and that often it happens
  (`WeeklyCap.BoundIsAttained`): four times with one waiting, five with two. How often the farmer can still be rung
  is told exactly by the rows that count and the contacts that wait (`WeeklyCap.RungExactlyWhen`).
- A dial whose farmer row is missing, or whose last attempt has no time, is never resolved
  (`Reconciliation.FarmerlessDialStays`).
- A back-fill for a call is lost by a snapshot that does not list the call, and survives if it comes after; the
  two orders agree exactly for calls still live (`LiveOrder.BackfillAcrossSnapshot`).
- A log text that holds both a phone number and a recording link keeps a link, since links are looked for only
  when no number was found (`LinkRedaction.LinkStaysIffNumber`, `LinkRedaction.ALinkStays`).
- A full feed drops the new event, whatever the comment at line 64 of `livefeed.py` says; and a close that
  follows one that timed out can return with accepted events unhandled (`LiveFeed.LaterCloseMissesAnEvent`;
  `LiveFeed.CloseHandlesAll` gives the exact condition).
- A contact's result does not always become that of a clean run: the campaign stage may run before the outcome
  stage ever succeeded, and then what it wrote stays (`PostCall.EarlyResultStays`; `PostCall.ContactConvergesIff`
  gives the exact condition).
- The envelope's version byte is authenticated but never compared with the key provider in use: a blob opens
  exactly when it is an envelope with one of the two versions sealed under the key its wrapped key stands for
  (`FieldEncryption.OpensExactlyEnvelopes`). So the local provider opens an envelope of the key service's version
  (`FieldEncryption.OtherVersionOpens`).

## Model

| member | source | states |
|---|---|---|
| `WordAlignment.Align` | packages/evals/src/uaagro_evals/wer.py:110-146 | The two-row loop reports the counts of a preferred edit script between the two word lists, no edit script at all costs less, and the reported counts are those of the table |
| `WordAlignment.NoCheaperScript` | packages/evals/src/uaagro_evals/wer.py:128-145 | No edit script from one list to the other costs less than the table entry, the outright diagonal on equal words included |
| `WordAlignment.NeighboursDifferByOne` | packages/evals/src/uaagro_evals/wer.py:124-145 | Adjacent table entries differ by at most one, which is why the unconditional diagonal is safe |
| `WordAlignment.BacktraceIsPreferred` | packages/evals/src/uaagro_evals/wer.py:132-145 | The script behind the table settles ties as substitution, then deletion, then insertion, at every prefix |
| `WordAlignment.BacktraceCounts` | packages/evals/src/uaagro_evals/wer.py:124-145 | The counts carried in each entry are those of one script, and its cost is their sum |
| `WordAlignment.PreferredReportIsUnique` | packages/evals/src/uaagro_evals/wer.py:132-146 | Any report of a preferred script is the one the loop gives: the tie-break leaves no choice |
| `EditScripts.PreferredIsUnique` | packages/evals/src/uaagro_evals/wer.py:132-145 | Two preferred scripts between the same lists are the same script |
| `WordAlignment.DistanceIsMetric` | packages/evals/src/uaagro_evals/wer.py:82-146 | Total errors are zero exactly for equal lists, symmetric, and obey the triangle inequality |
| `WordAlignment.CountsBalance` | packages/evals/src/uaagro_evals/wer.py:82-146 | Lengths balance with deletions and insertions, substitutions plus deletions fit the reference, and errors lie between the length difference and the longer length |
| `CorpusScoring.WerReport.Add` | packages/evals/src/uaagro_evals/wer.py:206-213 | Adds one alignment's figures to its condition, made empty first if new, and touches no other condition |
| `CorpusScoring.Score` | packages/evals/src/uaagro_evals/wer.py:227-232 | The report of a corpus is the fold of its items |
| `CorpusScoring.GroupingConservesTotals` | packages/evals/src/uaagro_evals/wer.py:190-213 | However items are grouped into conditions, the report's errors and words add up to those of the corpus |
| `CorpusScoring.ConditionSumsItsItems` | packages/evals/src/uaagro_evals/wer.py:206-232 | Each of a condition's six figures is the sum over that condition's own items |
| `CorpusScoring.RateIsPerWord` | packages/evals/src/uaagro_evals/wer.py:176-180 | A condition's rate times its reference words is its errors |
| `CorpusScoring.ZeroRateWithErrors` | packages/evals/src/uaagro_evals/wer.py:96-107 | A condition rates zero with errors in it exactly when all its references are empty and some hypothesis is not |
| `CorpusScoring.SilenceHeardAsWords` | packages/evals/src/uaagro_evals/wer.py:176-180 | One silent utterance in which anything was heard: as many errors as words, at a rate of zero |
| `AuditChain.VerifyChain` | packages/db/src/uaagro_db/audit.py:160-220 | The batched walk over a growing table gives the verdict of one unbatched pass over the rows it saw: success over a consistent chain of at least the rows first counted, or the first bad row with its reason |
| `AuditChain.QuiescentVerdict` | packages/db/src/uaagro_db/audit.py:160-220 | On a table nobody writes to the verdict is ok exactly for a consistent chain; otherwise it names the first bad row |
| `AuditChain.VerifyTable` | packages/db/src/uaagro_db/audit.py:160-220 | The walk over a table nobody writes to succeeds exactly on a consistent chain, counting every row, and otherwise names the first bad row and its index |
| `AuditChain.SameTailSameLog` | packages/db/src/uaagro_db/audit.py:47-87 | Two accepted logs of equal length and equal last hash agree on every hashed field of every row |
| `AuditChain.AlteredRow` | packages/db/src/uaagro_db/audit.py:83-87 | Replacing a row before the last is accepted exactly when no hashed field changed; replacing the last exactly when it is sealed over the same predecessor |
| `AuditChain.DeletedRows` | packages/db/src/uaagro_db/audit.py:160-220 | Deleting a stretch of rows is accepted exactly when it is empty or takes the newest rows |
| `AuditAppend.StepKeepsInv` | packages/db/src/uaagro_db/audit.py:110-149 | Every step of any appending transaction keeps what each transaction sees a consistent chain |
| `AuditAppend.CommittedRowsFormAChain` | packages/db/src/uaagro_db/audit.py:90-149 | Under every interleaving with commits and rollbacks the committed rows in chain order are one consistent chain with rising indices |
| `AuditAppend.CommittedRowsStay` | packages/db/src/uaagro_db/audit.py:110-149 | No later step removes or moves a committed row |
| `AuditAppend.VerifyWhileAppending` | apps/worker/src/worker/tasks.py:265-281 | The walk whose queries see what is committed at rising points of any run of appending transactions reports no break and covers the rows first counted |
| `Compliance.ContactFailures` | packages/domain/src/uaagro_domain/compliance.py:264-308 | The list of failures of one contact |
| `Compliance.FailuresAreFailedChecks` | packages/domain/src/uaagro_domain/compliance.py:264-308 | It lists each failed contact-level check once, in the report's order, and nothing else |
| `Compliance.FirstFailure` | packages/domain/src/uaagro_domain/compliance.py:247-261 | The head of that list, if any |
| `Compliance.FirstFailureIsEarliest` | packages/domain/src/uaagro_domain/compliance.py:247-261 | The dial-time answer is the earliest failed check, and none exactly when no check fails |
| `Compliance.AnswersAre` | packages/domain/src/uaagro_domain/compliance.py:264-308 | Who may be rung, by the contact's own fields: not barred internally, below three attempts, four hours past the last, with fewer than two contacts this week, in no other live campaign; and for a promotional campaign not on the do-not-disturb list and with a promotional consent that is neither revoked nor expired |
| `Compliance.AnswerNames` | packages/domain/src/uaagro_domain/compliance.py:264-308 | Which check the dial-time answer names, by the same fields |
| `Compliance.BlockedBy` | packages/domain/src/uaagro_domain/compliance.py:213-234 | The campaign-level checks that block, exactly those and in order; there are none exactly when the campaign may run at this instant |
| `Compliance.Evaluate` | packages/domain/src/uaagro_domain/compliance.py:197-244 | The eligible list, each removed count exactly the number of contacts failing that check, and the blocking checks |
| `Compliance.RemovedCountsPerExcluded` | packages/domain/src/uaagro_domain/compliance.py:236-244 | Removed counts add up to between one and five per excluded contact |
| `Compliance.EligibleMembers` | packages/domain/src/uaagro_domain/compliance.py:236-261 | A contact is eligible exactly when it is listed and the dial-time check finds nothing |
| `Compliance.RemovedAre` | packages/domain/src/uaagro_domain/compliance.py:197-244 | The contacts each check removes, counted by their own fields; the campaign-level checks remove none |
| `Compliance.WindowIs` | packages/domain/src/uaagro_domain/compliance.py:171-180 | The calling window is 3:30 to 15:30 of every day by the clock of UTC |
| `Compliance.CliIs` | packages/domain/src/uaagro_domain/compliance.py:183-194 | A promotional caller id is one whose digits start with 140, or with 91140 if there are more than ten |
| `Compliance.RetriedWhen` | packages/domain/src/uaagro_domain/compliance.py:311-336 | The retry table: a day and three hours for each attempt, four hours, a day once, or never |
| `CampaignTables.LoadContacts` | packages/db/src/uaagro_db/campaigns.py:86-156 | The loader gives, row by row, what the tables say of each selected contact |
| `CampaignTables.NarrowLookupsSuffice` | packages/db/src/uaagro_db/campaigns.py:123-156 | Lookups narrowed to a set of farmers lose nothing for the farmers in it |
| `CampaignTables.UniqueHashesUniqueFarmers` | packages/db/src/uaagro_db/models/outbound.py:236-256 | The unique key on campaign and phone hash makes a campaign list a farmer once, if rows carry their farmer's hash |
| `CampaignTables.RecheckContact` | apps/worker/src/worker/campaign.py:161-174 | The reload and recheck of one farmer; a contact that vanished is refused |
| `CampaignTables.GateAgreesWithRecheck` | apps/worker/src/worker/campaign.py:232-246 | On one state of the tables and one instant, a listed contact is in the gate's eligible list exactly when its narrowed reload passes the recheck |
| `CampaignTables.UnlistedFarmerIsRefused` | apps/worker/src/worker/campaign.py:168-174 | A farmer the campaign does not list is never passed |
| `CampaignTables.LoadingIgnoresStatus` | packages/db/src/uaagro_db/campaigns.py:86-156 | Full or narrowed, the loader gives the same contacts whatever statuses the rows are stored with |
| `LoadedContacts.LoadedTells` | packages/db/src/uaagro_db/campaigns.py:123-152 | What the loader returns says of each row, over the tables: the row's attempts, the newest promotional consent's type, expiry and revocation or none, the two bars of the farmer's phone hash, how many of the farmer's rows were attempted this week, and whether another live campaign lists the farmer |
| `LoadedContacts.RowsAre` | packages/db/src/uaagro_db/campaigns.py:106-122 | The rows that are read: those of the campaign whose farmer is known and not deleted, and among those asked for |
| `LoadedContacts.WeekStartIs` | packages/db/src/uaagro_db/campaigns.py:211-212 | A week starts on Monday at midnight UTC and lasts seven days |
| `LoadedContacts.RefusedWithoutConsent` | apps/worker/src/worker/campaign.py:161-174 | The recheck of a promotional campaign refuses a farmer whose newest promotional consent is revoked, expired or missing |
| `LoadedContacts.RefusedWhenGone` | apps/worker/src/worker/campaign.py:168-174 | A farmer who is deleted, or in no row of the campaign, is refused as barred |
| `LoadedContacts.RefusedWhenBarred` | packages/db/src/uaagro_db/campaigns.py:148-149 | It refuses a farmer whose number is barred internally, and one on the do-not-disturb list if the campaign is promotional |
| `LoadedContacts.RecheckPassesExactlyWhen` | apps/worker/src/worker/campaign.py:161-174 | Whom the recheck passes, told by the tables alone |
| `WeeklyCap.RungExactlyWhen` | packages/domain/src/uaagro_domain/compliance.py:296-304 | How often a farmer can still be rung in the week, over all campaigns: any number of times while fewer than two of the farmer's contact rows were attempted in it, and from then on exactly as often as contacts of the farmer are past their rechecks |
| `WeeklyCap.AttemptsAWeek` | apps/worker/src/worker/dialer.py:148-176 | Over any rechecks, recorded attempts and failures of one week, on any campaigns side by side and while everything else changes, one farmer is attempted at most three times more than contacts of the farmer wait at once between recheck and record |
| `WeeklyCap.FourAttemptsAWeek` | packages/db/src/uaagro_db/campaigns.py:203-223 | So at most four times if they only ever wait one at a time |
| `WeeklyCap.BoundIsAttained` | apps/worker/src/worker/campaign.py:176-182 | For every number of contacts that wait at once the bound is attained: three attempts of one campaign on a Monday, and then as many more campaigns pass their rechecks before any of them records; all rechecks in the calling window |
| `WeeklyCap.FourAttemptsHappen` | packages/domain/src/uaagro_domain/compliance.py:296-304 | Four attempts in one week with one contact waiting at a time |
| `Dialler.MoveKeepsInv` | apps/worker/src/worker/dialer.py:121-184 | Every move of the loop, its tasks and the operator's flags keeps concurrency, pacing, window checks and one outcome or unfinished task per visited contact |
| `Dialler.LaunchesArePaced` | apps/worker/src/worker/dialer.py:117-119 | Any two launches lie that many pacing gaps of 60 seconds over the rate apart, or more |
| `Dialler.LaunchesPerMinute` | apps/worker/src/worker/dialer.py:117-119 | At so many calls a minute, and one at least, launches lie that part of a minute apart |
| `Dialler.WakesWhen` | apps/worker/src/worker/dialer.py:176-180 | The pacing sleep ends as soon as that part of a minute is over, and no sooner |
| `Dialler.StopsFor` | apps/worker/src/worker/dialer.py:130-146 | A loop that stops names a cancel before a pause, and the closed window only where neither is set |
| `Dialler.ReasonKept` | apps/worker/src/worker/dialer.py:130-146 | The reason is never changed, and agrees with the flags, which are never taken back in a run |
| `Dialler.OutcomeAdded` | apps/worker/src/worker/dialer.py:148-172 | A refused contact is reported with its check, a dial as dialled or as an error, and nothing else is |
| `Dialler.OneOutcomeEach` | apps/worker/src/worker/dialer.py:143-184 | On return every visited contact has exactly one outcome, nobody else has one, and no stop reason is given exactly when the whole list was visited |
| `Dialler.ReportCoversVisited` | apps/worker/src/worker/campaign.py:206-209 | Dialled, skipped and failed add up to the contacts visited |
| `CampaignRuns.RunsKeepInv` | apps/worker/src/worker/campaign.py:161-220 | Every step of any sequence of runs, crashes included, keeps the session, the contact table and the pending dials in agreement |
| `CampaignRuns.AttemptsAreCapped` | apps/worker/src/worker/campaign.py:176-194 | Over any runs with a crash at any step: originate calls never exceed recorded attempts, attempts begun below the cap never pass it, and recorded attempts lie four hours or more apart |
| `CampaignRuns.ReachableSession` | apps/worker/src/worker/campaign.py:156-204 | In every reachable state at most the allowed number of dials is active and launches are paced |
| `CampaignRuns.DialsStayUnderBothLimits` | apps/worker/src/worker/campaign.py:156 | In every reachable state the active dials stay under the deployment's ceiling and under the campaign's own limit, where these are at least one |
| `CampaignRuns.CompletedMeansVisited` | apps/worker/src/worker/campaign.py:211-216 | A run marks the campaign completed exactly when its whole list was visited |
| `CampaignRuns.RowAfter` | apps/worker/src/worker/campaign.py:327-376 | An attempt is counted and dated as it is recorded, a refusal by the provider is stored as a failure, and no other step of the session writes a contact's row |
| `CampaignRuns.CampaignAfter` | apps/worker/src/worker/campaign.py:126-216 | The campaign's mark: running from a start, paused by the gate or a stopped session, completed otherwise |
| `CampaignRuns.FlaggedSessionLaunchesNoMore` | apps/worker/src/worker/dialer.py:127-139 | Once a pause or cancel is set, nothing is launched but the contact in hand, if there was one |
| `CampaignRuns.DiallingIgnoresStatus` | apps/worker/src/worker/campaign.py:161-216 | No step of any runs depends on a stored status: what can happen from one assignment of statuses can happen, attempt for attempt, from any other |
| `CampaignRedial.ReloadShows` | apps/worker/src/worker/campaign.py:161-174 | Over tables that agree with the system a reload shows the contact's row, and judging it is the recheck over the tables |
| `CampaignRedial.LoadedRecheckIsAStep` | apps/worker/src/worker/campaign.py:232-246 | The recheck over such tables is a step of the session that clears or rejects the contact in hand as it finds |
| `CampaignRedial.NoRunStarts` | apps/worker/src/worker/campaign.py:126-143 | Under settings the gate always blocks, or blocks at the one instant looked at, no run starts and no attempt is recorded |
| `CampaignRedial.PassesAtSomeInstant` | packages/domain/src/uaagro_domain/compliance.py:213-227 | A promotional campaign with a wrong caller id or without its registration, or any campaign scheduled outside the calling window, is blocked at every instant, and only such a one |
| `CampaignRedial.CompletedContactIsRungAgain` | apps/worker/src/worker/contacts.py:27-37 | A campaign paused with one contact completed at its first attempt and another still to be rung, and a run over both that rings the first a second time |
| `CampaignRedial.RungAgainExactlyBelowCap` | packages/domain/src/uaagro_domain/compliance.py:296-301 | From any state without a session, some runs record an attempt for a contact exactly when it is below the attempt cap and the campaign's settings pass the gate at some instant; one run over any list that has the contact in front is then enough |
| `CampaignRedial.RungNowExactlyWhenItPasses` | apps/worker/src/worker/campaign.py:124-194 | At one instant over one state of the tables, a contact can have an attempt recorded exactly when the gate does not block the campaign, the calling window is open and the contact's recheck finds nothing |
| `CampaignHalts.HaltedSessionDialsExactlyWhen` | apps/worker/src/worker/dialer.py:124-186 | A reachable halted session still asks the provider at this instant exactly when a task has not asked yet, a contact is cleared for launch, or one past its window check passes its recheck |
| `CampaignHalts.HaltedSessionEverDialsExactlyWhen` | apps/worker/src/worker/dialer.py:124-186 | However long it stays halted, exactly when a task has not asked yet, a contact is cleared for launch, or one past its window check is below the attempt cap |
| `CampaignHalts.HaltedSessionDialsOut` | apps/worker/src/worker/dialer.py:127-181 | While a session is halted, by a flag or the closed window, the provider is asked at most once for each task not yet asked for and once for the contact in hand |
| `CampaignHalts.FlagHalts` | apps/worker/src/worker/dialer.py:130-139 | A pause or cancel halts the session until it ends |
| `CampaignHalts.DialledOutsideTheWindow` | apps/worker/src/worker/dialer.py:143-176 | Some runs reach the dial of a contact outside the calling window exactly when it is below the attempt cap and the settings pass the gate; the attempt is then recorded half a second before the window closes and the dial comes half a second after |
| `CampaignHalts.DialledAfterAPause` | apps/worker/src/worker/dialer.py:127-176 | Some runs reach the dial of a contact in a session that was paused or cancelled exactly when the same holds |
| `Reconciliation.CampaignContact.Reconcile` | apps/worker/src/worker/tasks.py:325-337 | One contact's fields after the job, and whether it was resolved |
| `Reconciliation.ReconcileContacts` | apps/worker/src/worker/tasks.py:303-353 | Every contact after a pass, and the number resolved |
| `Reconciliation.PassIsIdempotent` | apps/worker/src/worker/tasks.py:303-337 | A second pass at the same time changes and resolves nothing |
| `Reconciliation.OnlyStaleDialsChange` | apps/worker/src/worker/tasks.py:318-337 | A pass changes exactly the stale dials without a call in progress and leaves no such contact stale |
| `Reconciliation.ResultIsNeverDialing` | apps/worker/src/worker/contacts.py:16-37 | Every status a pass writes is another than dialling |
| `Reconciliation.ScheduledRetryClearsTheGate` | packages/domain/src/uaagro_domain/compliance.py:311-336 | A retry is scheduled exactly below the attempt cap, and from that time on the gate's attempt cap and four-hour gap let the contact through |
| `Reconciliation.FarmerlessDialStays` | apps/worker/src/worker/tasks.py:315-322 | A dial that is not fresh stays exactly when its farmer row or its last attempt time is missing or its call is in progress |
| `CallResults.ResultIs` | apps/worker/src/worker/contacts.py:16-37 | Opted out, failed, not answered or completed, and whether the farmer pressed 1, each by the call's outcome |
| `CallResults.StaleDialIs` | apps/worker/src/worker/tasks.py:303-337 | What becomes of a dial after three minutes: nothing while its call runs, the result of its call, or not answered with the time of the next try |
| `LiveReducer.FindLastDigit` | apps/admin/src/lib/live-reducer.ts:222-228 | The newest keypress among the notes, and none exactly when there is none |
| `LiveOrder.AtAfterBackfill` | apps/admin/src/lib/live-reducer.ts:183-192 | After a back-fill an index holds the live turns if it had any, and otherwise the stored ones |
| `LiveOrder.TurnAndBackfillCommute` | apps/admin/src/lib/live-reducer.ts:126-192 | A live turn and a back-fill give the same transcript in either order |
| `LiveOrder.BackfillCommutes` | apps/admin/src/lib/live-reducer.ts:100-197 | A back-fill commutes with every event but a snapshot and another back-fill, up to the live calls' turn counts |
| `LiveOrder.BackfillMayArriveAnyTime` | apps/admin/src/lib/live-reducer.ts:100-197 | Wherever one back-fill lands in a stream without snapshots, transcripts, finished list and day's figures come out the same |
| `LiveOrder.BackfillAcrossSnapshot` | apps/admin/src/lib/live-reducer.ts:102-111 | A back-fill and a snapshot commute exactly for calls the snapshot lists |
| `LiveInvariants.EventsKeepWellFormed` | apps/admin/src/lib/live-reducer.ts:100-197 | Every event sequence keeps call ids unique, transcripts strictly ordered, at most 25 recent calls with unique ids, and the day's figures in balance |
| `LiveInvariants.CallsAreCountedOnce` | apps/admin/src/lib/live-reducer.ts:113-181 | Between snapshots live plus finished calls grow only by starts of calls not yet live |
| `LiveInvariants.SecondEndCountsNothing` | apps/admin/src/lib/live-reducer.ts:151-181 | A repeated end changes neither the figures nor either list |
| `DayFigures.FiguresCountEnds` | apps/admin/src/lib/live-reducer.ts:235-255 | Between snapshots the day's figures grow by the ends of live calls: all, inbound, outbound, pitched, accepted by a newest keypress of 1, and transferred |
| `DayFigures.ShareIsRounded` | apps/admin/src/lib/live-reducer.ts:251 | Once a call has ended the percentage is the rounded share of the calls that were not transferred |
| `DayFigures.EndIsListed` | apps/admin/src/lib/live-reducer.ts:151-181 | An ended call is listed first among the finished ones with what the call and the end say of it, before at most 24 others |
| `DayFigures.CallAfterTurn` | apps/admin/src/lib/live-reducer.ts:126-137 | A turn sets its call's count of turns, and the reply time if the agent spoke and it is known, and changes no other call |
| `NumberPattern.MatcherIsExact` | apps/worker/src/worker/summary.py:65-71 | The matcher succeeds at a position exactly when a number with no digit on either side stands there |
| `NumberScrub.NothingSurvives` | apps/worker/src/worker/summary.py:148-149 | After leftmost replacement no match stands anywhere, although each replacement changes its neighbours' surroundings |
| `NumberScrub.UnchangedIffFree` | apps/worker/src/worker/summary.py:148-149 | A text is left alone exactly when no number stands in it |
| `NumberScrub.ReplacingIsIdempotent` | apps/worker/src/worker/summary.py:148-149 | Replacing twice is replacing once |
| `LogRedaction.ScrubbedIsFree` | apps/worker/src/worker/summary.py:148-149 | A scrubbed text holds no number, scrubbing it again changes nothing, and scrubbing changes exactly the texts with a number |
| `SummaryText.SummariesHoldNoNumber` | apps/worker/src/worker/summary.py:122-149 | Whatever the model wrote, neither of the two summaries read from it holds a subscriber number |
| `SummaryText.BlankLineCostsNothing` | apps/worker/src/worker/summary.py:129-134 | White space on lines of its own changes nothing, before, between or after the other lines |
| `SummaryText.TwoLinesAreRead` | apps/worker/src/worker/summary.py:122-134 | Whatever white space stands before and between them, the two summaries are the first two lines that say something, and nothing after them |
| `SummaryText.LabelCostsNothing` | apps/worker/src/worker/summary.py:137-145 | A label of the list, in capitals or not, with its colon and any white space before the label and before the colon, is dropped, and the rest is trimmed |
| `SummaryText.NumeralCostsNothing` | apps/worker/src/worker/summary.py:137-145 | So is a numeral with a dot or a bracket, behind any white space |
| `SummaryText.PlainLineStays` | apps/worker/src/worker/summary.py:137-145 | A line that starts with neither a digit nor a label is only trimmed |
| `SummaryText.BreakEndsLine` | apps/worker/src/worker/summary.py:129 | A line ends at each of ten characters and at no other |
| `RedactedEvents.TenDigitsInASummary` | apps/worker/src/worker/summary.py:148-149 | Ten digits alone become the mark exactly if the first is 6 to 9, in Devanagari or not |
| `RedactedEvents.SpacedNumber` | apps/worker/src/worker/summary.py:148-149 | So do ten digits parted by a space or a hyphen |
| `LogRedaction.RedactProcessor` | packages/domain/src/uaagro_domain/logging.py:93-102 | Every entry of the event is overwritten by its redacted value, keys and order kept |
| `RedactedEvents.RedactedEntriesAreShown` | packages/domain/src/uaagro_domain/logging.py:57-102 | At any depth of any event: what stands under one of the thirteen secret names or four endings, in capitals or not, becomes the mark; a text under a phone key shows the last four digits and stars; any other text without number or link stays as it is |
| `RedactedEvents.TenDigitsInALog` | packages/domain/src/uaagro_domain/logging.py:44-54 | Ten digits alone show the last four and six stars exactly if the first is 6, 7, 8 or 9 |
| `RedactedEvents.CodedNumberInALog` | packages/domain/src/uaagro_domain/logging.py:44-83 | So does such a number behind its country code, which goes with it |
| `RedactedEvents.LinkIs` | packages/domain/src/uaagro_domain/logging.py:48-50 | Where a link stands: a scheme, then without white space one of four markers and something behind it, up to the next white space |
| `LogRedaction.RedactionLeavesNoNumber` | packages/domain/src/uaagro_domain/logging.py:57-90 | At any depth of any value no string leaf holds a phone number after redaction |
| `LogRedaction.LinksLeaveFree` | packages/domain/src/uaagro_domain/logging.py:84-87 | Taking links out of a text without numbers puts no number together |
| `LogRedaction.EntriesLeaveNoNumber` | packages/domain/src/uaagro_domain/logging.py:93-102 | No entry of a redacted event holds a phone number in a string leaf |
| `LinkRedaction.WithoutLinksHoldsNone` | packages/domain/src/uaagro_domain/logging.py:52-87 | Taking the links out of a text leaves none and makes none |
| `LinkRedaction.MaskingKeepsLinks` | packages/domain/src/uaagro_domain/logging.py:78-83 | Masking the numbers of a text with a link leaves it with a link |
| `LinkRedaction.LinkStaysIffNumber` | packages/domain/src/uaagro_domain/logging.py:78-88 | A text with a link still has one after redaction exactly when its key is no phone key and it held a number |
| `LinkRedaction.ALinkStays` | packages/domain/src/uaagro_domain/logging.py:78-83 | A link that ends in a number is still a link after redaction |
| `Units.NearestIsCharacterised` | packages/domain/src/uaagro_domain/units.py:108-132 | Rounding is to the nearest whole step with halves away from zero, and nothing else is |
| `Units.ConversionError` | packages/domain/src/uaagro_domain/units.py:80-132 | Converting through acres to another unit is off by at most half a step over that unit's factor plus half a step |
| `Units.RoundTripExactIffWide` | packages/domain/src/uaagro_domain/units.py:91-132 | Every four-decimal area survives the trip to acres and back exactly when the unit is at least an acre |
| `Units.DoseError` | packages/domain/src/uaagro_domain/units.py:147-172 | A scaled dose, of either sign, is within its magnitude times the conversion error plus half a rounding step of the exact product |
| `Units.DoseIsMonotoneInArea` | packages/domain/src/uaagro_domain/units.py:147-172 | A larger plot never gets a smaller dose, nor a larger one when the stated dose is negative |
| `Units.AcceptedPlotIsScaled` | packages/domain/src/uaagro_domain/units.py:70-172 | For an area that is accepted a dose is refused exactly when its basis is no area, and a scaled dose is never negative |
| `LandUnits.KathaIs` | packages/domain/src/uaagro_domain/units.py:91-108 | Katha in acres: a twentieth of the bigha each, rounded to four decimals |
| `LandUnits.HectareIs` | packages/domain/src/uaagro_domain/units.py:91-108 | Hectares in acres: 2.471054 each, rounded to four decimals |
| `LandUnits.FromAcresIs` | packages/domain/src/uaagro_domain/units.py:111-132 | Acres in each unit, rounded to four decimals, and the division by a bigha of no size |
| `LandUnits.TwentyKathaAreABigha` | packages/domain/src/uaagro_domain/units.py:80-172 | Twenty katha and one bigha are the same acres and get the same dose, for every number of them |
| `LandUnits.DoseOnOneUnit` | packages/domain/src/uaagro_domain/units.py:135-172 | A dose per acre, hectare, bigha or katha on one of them is the dose, up to the roundings |
| `LandUnits.DoseIsPerItsUnit` | packages/domain/src/uaagro_domain/units.py:135-172 | A dose is multiplied by the plot in its own unit and rounded to two decimals; per litre and per plant it is refused |
| `LiveFeed.RedisLiveFeed.Publish` | packages/domain/src/uaagro_domain/livefeed.py:138-151 | A full queue drops the new event and counts it; otherwise it is queued, and the drain starts with the first |
| `LiveFeed.RedisLiveFeed.Deliver` | packages/domain/src/uaagro_domain/livefeed.py:158-170 | The event in hand is counted published or dropped and the drain waits again |
| `LiveFeed.RedisLiveFeed.BeginClose` | packages/domain/src/uaagro_domain/livefeed.py:187-191 | A stop mark is queued if a task runs and there is room |
| `LiveFeed.RunsConserve` | packages/domain/src/uaagro_domain/livefeed.py:138-195 | In every run publish calls equal published plus dropped plus queued plus the one in hand plus those cut off in hand when a close cancels the drain, and the queue keeps its bound |
| `LiveFeed.ChannelIsInOrder` | packages/domain/src/uaagro_domain/livefeed.py:153-170 | What reaches the channel is an in-order part of what was accepted |
| `LiveFeed.CloseHandlesAll` | packages/domain/src/uaagro_domain/livefeed.py:187-195 | A close that did not time out has handled every event accepted before it exactly when none waited behind an earlier stop mark or for a drain that had returned |
| `LiveFeed.LaterCloseMissesAnEvent` | packages/domain/src/uaagro_domain/livefeed.py:187-195 | After a close that timed out, a publish and a second close that returns with that event still waiting |
| `LiveFeed.FirstCloseReachesAll` | packages/domain/src/uaagro_domain/livefeed.py:187-195 | Before any close that condition always holds |
| `PostCall.Call.SetOutcome` | apps/worker/src/worker/postcall.py:176-196 | A missing outcome is filled in from the transfer and the answer; a set one stays |
| `PostCall.Call.FinaliseCost` | apps/worker/src/worker/postcall.py:324-353 | The total is the rounded sum of the components other than an earlier total |
| `PostCall.Contact.Finish` | apps/worker/src/worker/postcall.py:228-232 | The contact is linked, and takes the call's result if it is dialling or has none |
| `PostCall.Job.EnsureTicket` | apps/worker/src/worker/postcall.py:267-305 | A ticket is made only for a call without one that needs a follow-up |
| `PostCall.Job.Run` | apps/worker/src/worker/postcall.py:115-143 | A stage that fails leaves the later ones running; exactly the failed ones are reported, in run order |
| `PostCall.OutcomeAndTicketsAreStable` | apps/worker/src/worker/postcall.py:176-305 | No run changes a set outcome, and a call without a ticket gets at most one |
| `PostCall.RetriesConverge` | apps/worker/src/worker/tasks.py:96-101 | Once outcome, ticket and cost stages have each succeeded somewhere, the call, its total and its tickets are those of one clean run, for any pattern of failures and reruns |
| `PostCall.ContactConvergesIff` | apps/worker/src/worker/postcall.py:199-232 | The contact is that of a clean run exactly when it was already decided, or the outcome was known by the first successful campaign stage, or it reads like no outcome |
| `PostCall.EarlyResultStays` | apps/worker/src/worker/postcall.py:122-125 | An answered call whose campaign stage succeeds before its outcome stage ever did: the contact stays unanswered where a clean run says talked |
| `CallResults.OutcomeLeft` | apps/worker/src/worker/postcall.py:176-196 | After any runs a missing outcome is that of a transfer, of a call nobody answered, or of one the caller ended |
| `CallResults.TicketLeft` | apps/worker/src/worker/postcall.py:267-305 | Runs leave a call without a ticket one exactly if it fell silent, failed, or was transferred and not taken |
| `CallResults.CostLeft` | apps/worker/src/worker/postcall.py:324-353 | Runs leave as total the sum of the other components to four decimals, and the rest of the breakdown as it was |
| `Partitions.MonthOffsets` | packages/db/src/uaagro_db/partitions.py:62-69 | The months in order from the first to the last of the window, each one after the other |
| `Partitions.WindowIsTiled` | packages/db/src/uaagro_db/partitions.py:34-84 | Every date of the window has exactly one planned partition of each table, and no other date has any |
| `Partitions.RangesMeet` | packages/db/src/uaagro_db/partitions.py:46-52 | Each planned range ends where the next begins |
| `Partitions.PlanIsTheWindow` | packages/db/src/uaagro_db/partitions.py:72-84 | A partition is planned exactly when its table is listed and its month lies in the window |
| `Partitions.NamesAreDistinct` | packages/db/src/uaagro_db/partitions.py:42-44 | Two partitions have one name exactly when they are the same, whatever the tables are called |
| `Partitions.Catalogue.EnsurePartitions` | packages/db/src/uaagro_db/partitions.py:99-123 | The tables after the job and the names it created |
| `Partitions.EnsuredHolds` | packages/db/src/uaagro_db/partitions.py:99-123 | After the job exactly the tables there before and the planned ones stand, each under its own name |
| `Partitions.EnsuringTwice` | packages/db/src/uaagro_db/partitions.py:106-108 | A second run of the same plan creates nothing and changes nothing |
| `Partitions.InsertsBetweenRunsLand` | packages/db/src/uaagro_db/partitions.py:22-31 | If the next run comes within the months kept ahead, every insert dated between the runs finds exactly one partition |
| `Partitions.QuarterlyRunsSuffice` | packages/db/src/uaagro_db/partitions.py:26-31 | With the months the job keeps, runs at most three months apart leave no insert without its one partition |
| `Partitions.ThreeMonthsAroundLand` | packages/db/src/uaagro_db/partitions.py:26-31 | So does a date up to three months before or after the last run |
| `Partitions.NameIs` | packages/db/src/uaagro_db/partitions.py:42-44 | A partition is named after its table with the year in four digits and the month in two |
| `PhoneNumbers.ReadExactlyWhenSpelled` | packages/domain/src/uaagro_domain/phone.py:58-88 | A text is read as a number exactly when its digits are that national number behind some of 00, 91 and 0, in this order, nationals beginning with 91 included |
| `PhoneNumbers.RefusedExactlyWhen` | packages/domain/src/uaagro_domain/phone.py:67-88 | A refused text spells no number; blank texts and texts without digits are told apart |
| `PhoneNumbers.RefusedForItsDigits` | packages/domain/src/uaagro_domain/phone.py:83-86 | The refusal is for no mobile number exactly when ten other digits are spelled, and for the count exactly when no ten are |
| `PhoneNumbers.CanonicalFormsReadBack` | packages/domain/src/uaagro_domain/phone.py:42-44 | The national form and the dialled form are read as the same number again |
| `PhoneNumbers.SpelledNumberIsUnique` | packages/domain/src/uaagro_domain/phone.py:75-81 | No digit string spells two numbers |
| `PhoneNumbers.TenDigitsRead` | packages/domain/src/uaagro_domain/phone.py:58-88 | Ten digits alone are read as they stand from 6 on, and refused from 1 to 5 as no mobile number |
| `FieldEncryption.EnvelopeParses` | packages/db/src/uaagro_db/crypto.py:194-219 | The parts of an envelope are read back as they were laid out |
| `FieldEncryption.EnvelopeIs` | packages/db/src/uaagro_db/crypto.py:182-200 | An envelope byte by byte: version, two bytes of length, wrapped key, twelve bytes of nonce, text |
| `FieldEncryption.VersionsAre` | packages/db/src/uaagro_db/crypto.py:202-214 | The two versions are 1 and 2; a blob of another, or of fewer than fifteen bytes, is refused as such |
| `FieldEncryption.OpensExactlyEnvelopes` | packages/db/src/uaagro_db/crypto.py:202-222 | A blob opens to a text exactly when it is an envelope around that text |
| `FieldEncryption.OtherVersionOpens` | packages/db/src/uaagro_db/crypto.py:202-222 | The local provider opens an envelope sealed under its key with the version of the key service |
| `FieldEncryption.KmsKeyProvider.Generate` | packages/db/src/uaagro_db/crypto.py:129-136 | The key service is asked for a data key at most once, and the reply is what every later call gets |
| `FieldEncryption.KmsKeyProvider.Unwrap` | packages/db/src/uaagro_db/crypto.py:138-145 | From the memory or from the key service, a wrapped key unwraps to the same key, and is remembered |
| `FieldEncryption.PhoneCipher.EncryptField` | packages/db/src/uaagro_db/crypto.py:182-200 | An encrypted field says its plaintext, whatever the provider remembers; it fails only without a key or with a wrapped key of 65536 bytes or more |
| `FieldEncryption.PhoneCipher.DecryptField` | packages/db/src/uaagro_db/crypto.py:202-222 | Decryption says what the blob says whatever the caches hold, unless an unknown wrapped key meets a key service that is down |
| `FieldEncryption.PhoneCipher.Encrypt` | packages/db/src/uaagro_db/crypto.py:224-227 | An accepted spelling is encrypted as a blob that decrypts to its canonical number |
| `FieldEncryption.PhoneCipher.Decrypt` | packages/db/src/uaagro_db/crypto.py:229-231 | Decryption reads the field as a number, or says why not |
| `FieldEncryption.OneHashPerNumber` | packages/db/src/uaagro_db/crypto.py:170-174 | Two accepted spellings have one lookup hash exactly when they spell one number |

## Left out

Assumptions the models make:

- Runs of one campaign do not overlap, and a campaign lists a farmer once; detached tasks after a job timeout and `resume()` during a run are not modelled.
- A campaign's settings stay as they are over the runs looked at. `run_campaign` does not look at the campaign's status: from which statuses the panel and the schedule start a campaign is not modelled.
- The recheck always answers, and contact rows are not deleted during a run. A refusal by the number lookup is a dial that fails before an attempt is recorded.
- SHA-256, the payload encoding, HMAC, AES-GCM and the key service are parameters; what each lemma needs of them is in its `requires`. That the JSON payload encoding is injective is assumed, not proved.
- What counts as a decimal digit or as white space in the number patterns is a parameter with the facts Unicode gives; phone spellings are read over ASCII digits, and keys of log entries are lowered as ASCII.

Parts the models simplify:

- `CorpusScoring.WerReport.Add`: a condition's figures are a value put back into the report, not an object shared with it.
- `Dialler.MoveKeepsInv`: the session is a machine of moves on a value, since its loop, tasks and flags interleave; the order in which waiting tasks get the semaphore is left open, which allows more runs than the code.
- `CampaignRuns.RunsKeepInv`: pacing is about launches; a task waiting for the semaphore may dial later than its recheck.
- `CampaignRedial.RungAgainExactlyBelowCap`: what a recheck sees of consents, blocks and other campaigns is free, since others write those tables between runs.
- `WeeklyCap.RungExactlyWhen`: how many campaigns a worker runs at once, which bounds how many contacts of a farmer wait, is a setting of the queue and left open.
- `CampaignTables.LoadContacts`: of two consents granted at the same instant the earlier row is taken, where the query leaves it open.
- `CampaignTables.GateAgreesWithRecheck`: the calling window is the gate's own, campaign-level check and not part of the comparison; the gate looks at the scheduled start where there is one, the dialler at the clock.
- `Units.DoseError`: exact real arithmetic between the roundings; the decimal context's 28 digits are not modelled.
- `PostCall.Job.Run`: each stage succeeds or fails as a whole, and no new attempt on the contact comes between runs.
- `Partitions.NamesAreDistinct`: years are not negative, and the database's limit on the length of a name is not modelled.
- `LogRedaction.RedactProcessor`: integers and other values that are not strings, lists or mappings pass as they are, as in the code; so do the keys of mappings.
- `SummaryText.LabelCostsNothing`: the letters of a label are folded to lower case as ASCII.
- `FieldEncryption.PhoneCipher.EncryptField`: the checks of key and pepper lengths at construction are not modelled; the nonce is a parameter.
- `PhoneNumbers.ReadExactlyWhenSpelled`: decimal digits outside ASCII, which the code would keep, are taken for separators.

Parts of the system that are not modelled, none of which the models above depend on:

- Databases, Redis, HTTP, object storage, telephony and language models: outside services, which enter only as tables, or as calls that succeed or fail.
- Folding and splitting a transcript into words: alignment holds for words of any kind.
- The corpus checks and printed tables of `wer.py`: they read finished reports.
- The panel's components and pages, server actions, sessions, proxies and settings: they show or pass on what the modelled functions return.
- Migrations, row-level security and scripts: SQL text and one-off commands.
- Audio, recognition, tools and flows of the voice worker: they end in the call rows the post-call pipeline starts from.
- `money.py`: the rounding of `units.py` with another step. `telemetry.percentile`, `turn_eval.py`, `overview.ts`: figures computed once from a finished list.
- `campaign-reducer.ts`, `locale-choice.ts`, `flows.ts`, `rbac.ts`, `netsafety.py`, `working-days.ts`: tables and choices that no modelled part reads.
- The transcript, recording, summary, farmer and notify stages of the post-call pipeline: they write nothing that the four modelled stages read.
- Service numbers and promotional series of `phone.py`, and building a cipher from settings: separate entry points.
