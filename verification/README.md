# voldt_web: a verified model of the job, payout, punishment and statistics logic

voldt_web is a React front end over a hosted database. An administrator
assigns jobs from job templates to users, then rates each solved job
*godt*, *fint*, *skidt* or *fejlet* (good, fine, poor, failed). The rating
decides how much of the job's `money` the user is credited. Punishments
(*bøder*) are debited from a user's balance. A statistics view charts each
user's running net amount over the day's delivery times and draws one bar
per user.

This Dafny project models the parts of that front end that hold logic:

- the payout table and the approval flow;
- the payout tiers shown on the job cards;
- the `addPunishment` transaction and the punishment getters;
- the punishment form's gate;
- the punishment page;
- the statistics aggregation;
- the realtime subscriber registry;
- the job template list;
- the three zod form schemas.

Pure logic is written as functions and lemmas. State that the source
updates step by step is written as classes with `modifies` clauses, or as
methods with loops proved against those functions. Examples are the
store, the form fields, the registry's map of sets and the `forEach`
accumulators.

Files, one module each:

| file | module | models |
|---|---|---|
| wrappers.dfy | Wrappers | `Option`, `Result` |
| js.dfy | Js | JavaScript built-ins used by the logic: `slice`, `includes`, the default string sort order, `String(n)`, `parseInt` |
| sorting.dfy | Sorting | `Array.prototype.sort` and SQL `order by` as a stable insertion sort, on sequences and in place on arrays |
| records.dfy | Records | the row types `Job`, `UserJob`, `User`, `Punishment` |
| payout.dfy | Payouts | the rating to payout table |
| approve_modal.dfy | ApproveModal | the approval modal: rating state, captions, confirm |
| approve_job.dfy | ApproveJob | the approval page: `userMap`, `onApprove` dispatch |
| job_cards.dfy | JobCards | the tiers shown on the solved-job card and the detailed template card |
| punishment_api.dfy | PunishmentApi | the punishment store calls |
| punishment_schema.dfy | PunishmentSchema | `punishmentSchema` |
| give_punishment.dfy | GivePunishment | the `GivePunishment` form and its gate |
| punishment_page.dfy | PunishmentPage | the punishment page: loads, balance list, its copy of the gate |
| statistics_spec.dfy | StatisticsSpec | the statistics results as functions |
| statistics.dfy | Statistics | the `processedData` loops, proved against `StatisticsSpec` |
| realtime.dfy | Realtime | the `RealtimeProvider` registry |
| job_templates.dfy | JobTemplates | `JobTemplatesList`: filter, sort modes, `handleSave` |
| job_schema.dfy | JobSchema | `jobSchema` |
| signup_schema.dfy | SignUpSchema | `signUpSchema` |

Some things are parameters rather than modelled code:

- Store calls: each call's success or failure is a boolean parameter.
- The time a row is stamped with is a parameter `now`.
- Collation (`localeCompare`) is a parameter `collate`. Lemmas that need it to be a total preorder say so.
- Case folding (`toLowerCase`) is a parameter `fold`.
- The e-mail format check is a parameter `isEmail`.
- The build-time secret code is an `Option<string>`.
- The local `"HH:MM"` clock of an instant is a parameter `clock`.

Strings are sequences of Unicode characters. JavaScript's `length`, `slice` and default string order work on UTF-16 code units, where a character above U+FFFF takes two. `Js.Length`, `Js.Slice` and `Js.CodeUnitLe` model them that way.

## Model

| member | source | states |
|---|---|---|
| Payouts.RoundingIsUnique | src/modals/ApproveUserJobModal.tsx:28-29 | `Math.round` of a value has one result: two whole numbers that both round `num/den` are equal |
| Payouts.FintAmount | src/modals/ApproveUserJobModal.tsx:28 | the fint payout is the whole number nearest to 0.667 × money, halves rounded up |
| Payouts.SkidtAmount | src/modals/ApproveUserJobModal.tsx:29 | the skidt payout is the whole number nearest to 0.33 × money, halves rounded up |
| Payouts.Payout | src/modals/ApproveUserJobModal.tsx:26-31 | godt pays money, fint and skidt pay the rounded fractions, fejlet pays 0 |
| Payouts.TiersOrdered | src/modals/ApproveUserJobModal.tsx:26-31 | 0 = fejlet ≤ skidt ≤ fint ≤ godt = money |
| Payouts.PayoutBounded | src/modals/ApproveUserJobModal.tsx:26-31 | every payout lies between 0 and the job's money |
| Payouts.ZeroMoneyPaysZero | src/modals/ApproveUserJobModal.tsx:26-31 | a job worth 0 pays 0 at every rating |
| ApproveModal.RatingOrderComplete | src/modals/ApproveUserJobModal.tsx:84 | the buttons offer each of the four ratings exactly once, in the order fejlet, skidt, fint, godt |
| ApproveModal.FejletLabelIsZero | src/modals/ApproveUserJobModal.tsx:94 | the fejlet caption reads "0 kr." whatever money is |
| ApproveModal.LabelShowsPayout | src/modals/ApproveUserJobModal.tsx:94 | given a money value, each caption is that rating's payout followed by " kr." |
| ApproveModal.LabelWithoutMoney | src/modals/ApproveUserJobModal.tsx:26-31 | without a money prop, the caption of every rating but fejlet differs from the caption for any real amount |
| ApproveModal.RatingPicker.constructor | src/modals/ApproveUserJobModal.tsx:20-22 | when the modal mounts, which happens once with the approval page, godt is selected |
| ApproveModal.RatingPicker.Choose | src/modals/ApproveUserJobModal.tsx:89 | clicking a rating selects it |
| ApproveModal.RatingPicker.Confirm | src/modals/ApproveUserJobModal.tsx:101-109 | confirm calls `onApprove` once with the selected rating, and not at all exactly when the button is disabled (no rating) |
| ApproveModal.PickerScenario | src/modals/ApproveUserJobModal.tsx:84-109 | after any sequence of clicks since the modal mounted, confirm calls `onApprove` with the last rating clicked, or with godt when there was no click |
| ApproveJob.ResolveAmount | src/pages/ApproveUserJob.tsx:90-94 | the `let amount` reassignments yield exactly the modal's payout for the rating, never more than the job's money |
| ApproveJob.UserMapKeys | src/pages/ApproveUserJob.tsx:61 | `userMap` has an entry for exactly the users' ids |
| ApproveJob.UserMapLastWins | src/pages/ApproveUserJob.tsx:61 | the name for an id is that of the last user with the id |
| ApproveJob.ShownPayoutDiffersFromCredit | src/pages/ApproveUserJob.tsx:82-105 | as rendered (no `money` prop), the modal's caption for every rating but fejlet differs from the amount the rating credits |
| ApproveJob.IntendedLabelShowsCredit | src/pages/ApproveUserJob.tsx:82-105 | when the selected job's money is passed, every caption shows exactly the amount its rating credits |
| ApproveJob.ApprovalPage.constructor | src/pages/ApproveUserJob.tsx:12-16 | the page starts with no selected job, the modal closed and the modal's rating state freshly mounted with godt |
| ApproveJob.ApprovalPage.OpenApproveModal | src/pages/ApproveUserJob.tsx:49-52 | the approve button selects the job and opens the modal |
| ApproveJob.ApprovalPage.CloseApproveModal | src/pages/ApproveUserJob.tsx:55-58 | closing forgets the selected job and closes the modal |
| ApproveJob.ApprovalPage.OnApprove | src/pages/ApproveUserJob.tsx:85-103 | with no selected id there is no store call and the modal closes. Fejlet calls only `markJobAsUnsolved(id)`. Any other rating calls `approveJob(id, payout)` exactly once. The reload follows and the modal closes, each only if the step before succeeded |
| ApproveJob.ApprovalPage.ChooseRating | src/modals/ApproveUserJobModal.tsx:89 | a rating button selects that rating in the page's mounted modal |
| ApproveJob.ApprovalPage.ConfirmModal | src/modals/ApproveUserJobModal.tsx:105-108 | confirm calls `onApprove` with the rating still selected in the modal, whichever job it was chosen for. That rating determines the store calls, the reload and the close, as for `OnApprove`; with no rating nothing happens |
| ApproveJob.CarriedRatingScenario | src/pages/ApproveUserJob.tsx:82-105 | the modal is mounted once and nothing resets its rating: after approving job a as skidt, confirming job b without a click credits b at skidt, not godt |
| JobCards.CardFintAmount | src/components/approve-user-job-components/SolvedUserJobCard.tsx:69 | the card's fint value is the whole number nearest to 0.66 × money |
| JobCards.SolvedCardAgreesExceptFint | src/components/approve-user-job-components/SolvedUserJobCard.tsx:60-76 | the card's godt, skidt and fejlet values are the amounts those ratings credit |
| JobCards.SolvedCardFintMisstated | src/components/approve-user-job-components/SolvedUserJobCard.tsx:69 | for a 150 kr. job the card shows fint 99 while fint credits 100 |
| JobCards.SolvedCardFintUnderstates | src/components/approve-user-job-components/SolvedUserJobCard.tsx:69 | the card's fint value is never above the credited amount and is below it by at most 0.007 × money + 1 |
| JobCards.SolvedCardIntendedAgrees | src/components/approve-user-job-components/SolvedUserJobCard.tsx:60-76 | with the factor 0.667, all four card values are the amounts their ratings credit |
| JobCards.DetailedCardAgrees | src/components/create-job-components/JobCardDetailed.tsx:65-81 | the detailed card lists fejlet, skidt, fint, godt (the modal's order), each with exactly the amount it credits |
| JobCards.DeliveryLabel | src/components/approve-user-job-components/SolvedUserJobCard.tsx:42 | a delivery time is shown as `slice(0, 5)`: its longest prefix of at most five UTF-16 code units (all of it when shorter). A missing one is shown as nothing. The detailed card (src/components/create-job-components/JobCardDetailed.tsx:50) shows the delivery time with the same expression |
| JobCards.UserLabel | src/components/approve-user-job-components/SolvedUserJobCard.tsx:24 | the label is the user's name when known and non-empty, otherwise the raw user id |
| JobCards.CardShowsKnownUser | src/pages/ApproveUserJob.tsx:61-76 | a card whose user has a profile shows the last such profile's name (its id if that name is empty) |
| JobCards.CardShowsUnknownUserId | src/pages/ApproveUserJob.tsx:61-76 | a card whose user has no profile shows the raw user id |
| PunishmentApi.NewerOrSameIsPreorder | src/api/punishment.tsx:54 | the newest-first order on `created_at` is a total preorder |
| PunishmentApi.WithId | src/api/punishment.tsx:71-76 | the rows a delete returns are exactly the rows with that id |
| PunishmentApi.WithoutId | src/api/punishment.tsx:71-76 | the rows left after a delete are exactly the others |
| PunishmentApi.OfUser | src/api/punishment.tsx:60-64 | the rows of a user are exactly those with that `user_id` |
| PunishmentApi.Store.AddPunishment | src/api/punishment.tsx:4-45 | a failed read (or no such profile) throws and writes nothing. A failed update throws and inserts no row. Success debits the balance (null read as 0) by exactly the amount, appends exactly one row with the given user, amount and reason, and returns it. A failed insert adds no row and writes the balance read back (null becomes 0) if that write succeeds. Row ids stay distinct |
| PunishmentApi.Store.DeletePunishment | src/api/punishment.tsx:71-80 | removes exactly the rows with the id and returns them; balances are untouched |
| PunishmentApi.Store.GetPunishments | src/api/punishment.tsx:47-58 | every row, newest first (a permutation of the table) |
| PunishmentApi.Store.GetUserPunishments | src/api/punishment.tsx:60-69 | exactly the user's rows, newest first |
| PunishmentApi.Store.GetLatest15Punishments | src/api/punishment.tsx:82-94 | the first min(15, n) rows of the newest-first order |
| PunishmentApi.WithoutIdKeepsDistinct | src/api/punishment.tsx:71-76 | deleting keeps the row ids distinct |
| PunishmentApi.OverdraftScenario | src/api/punishment.tsx:14-23 | nothing checks the balance: punishing 10 from a balance of 5 leaves -5 |
| PunishmentApi.WholeBalanceScenario | src/api/punishment.tsx:14-21 | punishing the whole balance leaves 0; a null balance counts as 0 before the debit |
| PunishmentSchema.SafeParse | src/validation/punishmentSchema.ts:3-14 | succeeds exactly when the user id is non-empty, the amount is a whole number in 1..10000 (NaN rejected) and the reason has 3..200 UTF-16 code units; otherwise returns a non-empty issue list |
| PunishmentSchema.IssuesAreViolations | src/validation/punishmentSchema.ts:3-14 | every reported issue names a field whose constraint the data breaks |
| PunishmentSchema.WideReasonLength | src/validation/punishmentSchema.ts:3-14 | lengths count UTF-16 code units: a reason of two U+1F600 characters passes the minimum of 3, while "ab" does not |
| GivePunishment.AmountValue | src/components/punishment-components/GivePunishment.tsx:43 | an empty amount field becomes NaN; any number read is whole |
| GivePunishment.AmountTruncatesFraction | src/components/punishment-components/GivePunishment.tsx:43 | a typed "n.fraction" reads as n (so "2.5" becomes 2) |
| GivePunishment.ErrorMapKeys | src/components/punishment-components/GivePunishment.tsx:50-54 | a field has a message exactly when some issue is about it |
| GivePunishment.ErrorMapLastWins | src/components/punishment-components/GivePunishment.tsx:50-54 | a field's message is that of the last issue about it |
| GivePunishment.CollectFieldErrors | src/components/punishment-components/GivePunishment.tsx:50-54 | the `forEach` loop builds exactly that field-to-message map |
| GivePunishment.FindUser | src/components/punishment-components/GivePunishment.tsx:67 | finds nothing exactly when no user has the id, otherwise the first user with it |
| GivePunishment.Gate | src/components/punishment-components/GivePunishment.tsx:36-79 | rejected by the schema exactly when it fails (with the per-field map, non-empty); user not found exactly when it passes and no user has the id; over balance exactly when it passes, the user exists and the amount exceeds the balance (null as 0); otherwise accepted with the validated values, so an amount equal to the balance is accepted |
| GivePunishment.EmptyAmountRejected | src/components/punishment-components/GivePunishment.tsx:43-58 | an empty amount field is rejected with "Skal være et tal" under `penaltyAmount`, whatever else is typed |
| GivePunishment.Options | src/components/punishment-components/GivePunishment.tsx:29-33 | one option per user, in order, value the id and label the name |
| GivePunishment.SortedOptions | src/components/punishment-components/GivePunishment.tsx:29-34 | `userOptions` holds exactly those options |
| GivePunishment.SortedOptionsAscending | src/components/punishment-components/GivePunishment.tsx:34 | under a consistent collation the options are in ascending label order |
| GivePunishment.PenaltyForm.constructor | src/components/punishment-components/GivePunishment.tsx:22-27 | the form starts with empty fields and no messages |
| GivePunishment.PenaltyForm.Edit | src/components/punishment-components/GivePunishment.tsx:109-139 | the inputs set the three fields and leave the messages |
| GivePunishment.PenaltyForm.ApplyPenalty | src/components/punishment-components/GivePunishment.tsx:36-97 | the decision is `Gate` of the fields. `addPunishment` is called exactly when it accepts, with the validated values, and the store is untouched otherwise. The messages shown follow the decision. Success resets the three fields and clears the messages; any other outcome keeps the fields |
| GivePunishment.PenaltyForm.Validate | src/components/punishment-components/GivePunishment.tsx:36-79 | the three gates in order give exactly `Gate`'s decision, set the messages it shows and keep the fields |
| GivePunishment.PenaltyForm.Submit | src/components/punishment-components/GivePunishment.tsx:81-96 | the store call succeeds exactly when read, update and insert succeed. On success exactly one row is added, the balance is debited and the form is reset. On failure no row is added and the form is kept |
| PunishmentPage.RicherOrSameIsPreorder | src/pages/Punishment.tsx:277 | the balance comparator is a total preorder |
| PunishmentPage.BalanceLines | src/pages/Punishment.tsx:278-285 | one line per user with the balance (null as 0), green exactly when it is not negative |
| PunishmentPage.UserOptions | src/pages/Punishment.tsx:124-127 | one option per user, in the current order of the `users` array: load order until the balance list renders, richest first after that |
| PunishmentPage.UserOptionsMatchForm | src/pages/Punishment.tsx:124-127 | the page offers the same options as the form component, in the array's order rather than sorted by label |
| PunishmentPage.OptionsAfterBalanceList | src/pages/Punishment.tsx:276-277 | after the balance list's in-place sort, the options list the same users, richest first |
| PunishmentPage.OrEmpty | src/pages/Punishment.tsx:39-40 | a null load result becomes the empty list |
| PunishmentPage.Page.constructor | src/pages/Punishment.tsx:17-24 | the page starts loading, with no users, no punishments and an empty form |
| PunishmentPage.Page.Store | src/pages/Punishment.tsx:39-40 | a successful load stores both lists (null as empty); a failed one keeps them |
| PunishmentPage.Page.InitialLoad | src/pages/Punishment.tsx:26-47 | the initial load stores the lists and clears the loading flag whatever happens |
| PunishmentPage.Page.UpdateData | src/pages/Punishment.tsx:49-70 | the background reload stores the lists, swallows a failure and clears the updating flag |
| PunishmentPage.Page.BalanceList | src/pages/Punishment.tsx:276-285 | sorts the `users` array in place, richest first (a permutation of it); the lines shown are non-increasing in balance |
| PunishmentPage.Page.ApplyPenalty | src/pages/Punishment.tsx:129-188 | the decision is the form's gate over the page's users, and `addPunishment` is called exactly when it accepts. On success the store gains one row with the validated user, amount and reason, and that user's balance is debited by the amount. Success needs the balance read, the update and the insert to succeed. A rejection leaves the store untouched. The messages shown follow the decision. Success resets the form, and any other outcome keeps its fields. The lists change only when the call succeeds and the reload succeeds |
| StatisticsSpec.JobKey | src/hooks/useStatisticsData.ts:115-116 | a job's bucket is `slice(0, 5)` of its delivery time; a missing or empty one gives no bucket |
| StatisticsSpec.PunishmentKey | src/hooks/useStatisticsData.ts:89-97 | a punishment's bucket is the local time of its `created_at`; none without a timestamp |
| StatisticsSpec.JobEvents | src/hooks/useStatisticsData.ts:114-119 | one event per job: its user, its money, its bucket |
| StatisticsSpec.PunishmentEvents | src/hooks/useStatisticsData.ts:122-130 | one event per punishment: its user, its amount, its bucket |
| StatisticsSpec.Bucket | src/hooks/useStatisticsData.ts:104-130 | a bucket holds exactly the events with that key |
| StatisticsSpec.TotalOfBucket | src/hooks/useStatisticsData.ts:141-152 | summing one bucket is summing the events with that key |
| StatisticsSpec.TotalInNone | src/hooks/useStatisticsData.ts:134-135 | before any bucket every running amount is 0 |
| StatisticsSpec.TotalInSplit | src/hooks/useStatisticsData.ts:137-163 | passing one more bucket adds exactly that bucket's events |
| StatisticsSpec.TotalInAll | src/hooks/useStatisticsData.ts:137-163 | when every event has a bucket, the sum over all buckets is the whole sum |
| StatisticsSpec.TotalInIsUpTo | src/hooks/useStatisticsData.ts:137-163 | summing over the buckets up to a bound is summing the events whose key is at most that bound |
| StatisticsSpec.NoEventsNoTotals | src/hooks/useStatisticsData.ts:190-194 | a user with no events has 0 jobs and 0 sums |
| StatisticsSpec.Keys | src/hooks/useStatisticsData.ts:85-97 | the keys listed are exactly the keys some event has |
| StatisticsSpec.Distinct | src/hooks/useStatisticsData.ts:99-100 | `new Set` keeps every key once and no other |
| StatisticsSpec.CodeUnitLeIsPreorder | src/hooks/useStatisticsData.ts:101 | the default sort order on strings is a total preorder |
| StatisticsSpec.AllTimesSpec | src/hooks/useStatisticsData.ts:99-101 | the buckets are exactly the keys of the jobs and punishments, strictly ascending (so without duplicates) |
| StatisticsSpec.BucketPrefix | src/hooks/useStatisticsData.ts:137-163 | in ascending buckets, the first i + 1 are exactly those at most bucket i |
| StatisticsSpec.Cumulative | src/hooks/useStatisticsData.ts:133-135 | `cumulative` has one entry per profile id |
| StatisticsSpec.Row | src/hooks/useStatisticsData.ts:137-162 | a row always has `delivery` and otherwise only display names of profiles |
| StatisticsSpec.RowLabel | src/hooks/useStatisticsData.ts:138-160 | `delivery` holds the bucket unless a user's display name is "delivery" |
| StatisticsSpec.RowValue | src/hooks/useStatisticsData.ts:155-160 | a name holds the running amount of the last profile with that display name |
| StatisticsSpec.DisplayName | src/hooks/useStatisticsData.ts:76-77 | names of up to 15 UTF-16 code units are kept. A longer one becomes its `slice(0, 15)` followed by "..." |
| StatisticsSpec.WideNameIsCut | src/hooks/useStatisticsData.ts:76-77 | a name of ten U+1F600 characters (20 code units) is cut to seven of them and "..." |
| StatisticsSpec.ChartUsersOf | src/hooks/useStatisticsData.ts:74-79 | one series per profile: display name and id |
| StatisticsSpec.ChartUsers | src/hooks/useStatisticsData.ts:74-80 | `chartUsers` holds exactly those series |
| StatisticsSpec.ChartUsersSorted | src/hooks/useStatisticsData.ts:80 | under a consistent collation `chartUsers` is in ascending name order |
| StatisticsSpec.NameMap | src/hooks/useStatisticsData.ts:82 | `userMap` has an entry for exactly the series' ids |
| StatisticsSpec.NameMapValue | src/hooks/useStatisticsData.ts:82 | when all series with an id agree on the name, the map gives that name |
| StatisticsSpec.BarOf | src/hooks/useStatisticsData.ts:187-195 | a bar's net is its money less its punishments |
| StatisticsSpec.BarsOf | src/hooks/useStatisticsData.ts:186-195 | one bar per profile, in order |
| StatisticsSpec.Bars | src/hooks/useStatisticsData.ts:186-196 | `barData` holds exactly those bars |
| StatisticsSpec.BarsSorted | src/hooks/useStatisticsData.ts:196 | under a consistent collation `barData` is in ascending name order |
| Statistics.GroupByTime | src/hooks/useStatisticsData.ts:104-130 | the bucket maps have exactly the buckets as keys, each holding the bucket's events in order |
| Statistics.Accumulate | src/hooks/useStatisticsData.ts:141-152 | each profile's running amount moves by exactly its events' sum in the group (added or subtracted) |
| Statistics.BuildRow | src/hooks/useStatisticsData.ts:138-162 | the loop over the ids builds exactly `Row` |
| Statistics.ZeroCumulative | src/hooks/useStatisticsData.ts:133-135 | the initial running amounts are the amounts over no buckets |
| Statistics.AddBucket | src/hooks/useStatisticsData.ts:141-152 | a bucket's jobs are added and then its punishments subtracted |
| Statistics.LineChart | src/hooks/useStatisticsData.ts:132-163 | one row per bucket, in order; row i holds the running amounts over the first i + 1 buckets |
| Statistics.CountJobs | src/hooks/useStatisticsData.ts:166-176 | `jobCounts[id] or 0` and `moneyEarned[id] or 0` are the user's job count and money sum |
| Statistics.SumPunishments | src/hooks/useStatisticsData.ts:178-184 | `punishmentAmounts[id] or 0` is the user's punishment sum |
| Statistics.BarRows | src/hooks/useStatisticsData.ts:186-195 | given maps whose entries are each user's job count, money sum and punishment sum, the mapped rows are exactly `BarsOf` the profiles |
| Statistics.BarData | src/hooks/useStatisticsData.ts:165-196 | the loops and the in-place sort produce exactly `Bars` |
| Statistics.ProcessedData | src/hooks/useStatisticsData.ts:62-203 | no raw data gives three empty lists. Otherwise it gives the sorted series, one line row per bucket with the running amounts, and the sorted bars |
| Statistics.RunningTotals | src/hooks/useStatisticsData.ts:137-163 | row i's amount for a profile is its job money with key ≤ bucket i less its punishments with key ≤ bucket i |
| Statistics.SeriesNames | src/hooks/useStatisticsData.ts:74-82 | with distinct profile ids, `userMap` gives each profile's display name |
| Statistics.LastBucketIsTotal | src/hooks/useStatisticsData.ts:137-163 | when every event has a bucket, the amount after the last bucket is the whole net |
| Statistics.LaterNamesDiffer | src/hooks/useStatisticsData.ts:82 | a later profile maps to the same name only when its display name is the same |
| Statistics.FinalAmountIsNet | src/hooks/useStatisticsData.ts:137-195 | when every event has a bucket, a profile's running amount after the last bucket is its bar's `netEarnings` |
| Statistics.LastRowIsNet | src/hooks/useStatisticsData.ts:137-195 | when every event has a bucket, the ids are distinct and no later profile shares the display name, the last row's value for a user is that user's bar `netEarnings` |
| Realtime.Subscribed | src/context/RealtimeContext.tsx:83-94 | every listed table holds the callback, a missing set having been created; other tables keep their sets |
| Realtime.Unsubscribed | src/context/RealtimeContext.tsx:98-112 | listed tables lose the callback and are dropped once empty; other tables keep their sets |
| Realtime.SubscribeStep | src/context/RealtimeContext.tsx:86-91 | handling one more listed table adds the callback to its set, creating the set if missing |
| Realtime.UnsubscribeStep | src/context/RealtimeContext.tsx:101-109 | handling one more listed table removes the callback from its set and drops the table once the set is empty |
| Realtime.SubscribedKeepsNoEmptySets | src/context/RealtimeContext.tsx:86-91 | subscribing keeps the invariant that no table maps to an empty set |
| Realtime.UnsubscribedKeepsNoEmptySets | src/context/RealtimeContext.tsx:101-109 | unsubscribing keeps that invariant |
| Realtime.SubscribeIdempotent | src/context/RealtimeContext.tsx:90 | subscribing the same callback again changes nothing |
| Realtime.UnsubscribeAbsent | src/context/RealtimeContext.tsx:101-109 | unsubscribing a callback the tables do not hold changes nothing |
| Realtime.SubscribeRoundTrip | src/context/RealtimeContext.tsx:82-113 | unsubscribing undoes subscribing when the callback was not registered for those tables |
| Realtime.Registry.constructor | src/context/RealtimeContext.tsx:30-32 | the registry starts empty |
| Realtime.Registry.SubscribeTo | src/context/RealtimeContext.tsx:82-94 | the loop yields exactly `Subscribed` and keeps the invariant |
| Realtime.Registry.Unsubscribe | src/context/RealtimeContext.tsx:97-113 | the loop yields exactly `Unsubscribed` and keeps the invariant |
| Realtime.Registry.HandleTableChange | src/context/RealtimeContext.tsx:36-44 | each callback of the table runs exactly once and no other; an unknown table runs none |
| JobTemplates.Merge | src/components/job-list-components/JobTemplatesList.tsx:40 | a field present in the update replaces the job's; the others are kept |
| JobTemplates.Keep | src/components/job-list-components/JobTemplatesList.tsx:51-56 | a filter keeps only jobs it accepts |
| JobTemplates.KeepPositions | src/components/job-list-components/JobTemplatesList.tsx:51-56 | the kept jobs are the accepted ones at strictly increasing positions, and every accepted position is kept, so the filter preserves order |
| JobTemplates.Filtered | src/components/job-list-components/JobTemplatesList.tsx:51-56 | kept jobs have a non-empty title whose lower-cased form contains the lower-cased search |
| JobTemplates.EmptySearchKeepsTitled | src/components/job-list-components/JobTemplatesList.tsx:51-56 | an empty search keeps exactly the titled jobs |
| JobTemplates.ModeOrderIsPreorder | src/components/job-list-components/JobTemplatesList.tsx:58-63 | each of the four sort modes is a total preorder when the collation is |
| JobTemplates.TemplatesList.constructor | src/components/job-list-components/JobTemplatesList.tsx:17-23 | the list starts with nothing selected, the modal closed, an empty search and title ascending |
| JobTemplates.TemplatesList.Open | src/components/job-list-components/JobTemplatesList.tsx:104-107 | a job's button selects it and opens the modal |
| JobTemplates.TemplatesList.SortedJobs | src/components/job-list-components/JobTemplatesList.tsx:51-64 | the result is the stable sort of the filtered jobs by the chosen mode. It is a permutation of them and, under a total-preorder collation, ordered by the mode. The `jobs` state is untouched |
| JobTemplates.TemplatesList.HandleSave | src/components/job-list-components/JobTemplatesList.tsx:29-48 | no id: nothing happens. Pick mode: the merged job with the selected job's id is handed over, the list is unchanged and the modal closes. Edit mode after a successful write: exactly the jobs with that id are merged, the length is kept and the modal closes. A failed write changes nothing |
| JobSchema.SafeParse | src/validation/jobSchema.ts:3-15 | succeeds exactly when title, address and delivery are non-empty, the description has 1..500 UTF-16 code units, duration is a whole number ≥ 0 and money is a number ≥ 0; otherwise returns a non-empty issue list |
| JobSchema.IssuesAreViolations | src/validation/jobSchema.ts:3-15 | every reported issue names a field whose constraint the data breaks |
| JobSchema.FractionalMoneyAccepted | src/validation/jobSchema.ts:12-14 | money may be fractional: a valid form stays valid with any money ≥ 0 |
| JobSchema.NegativeFractionalDuration | src/validation/jobSchema.ts:7-10 | a negative fractional duration reports both "Må ikke være negativ" and "Skal være et helt tal", in that order |
| SignUpSchema.Issues | src/validation/signUpSchema.ts:5-12 | each constraint's message is reported exactly when that constraint is broken, and no other message is |
| SignUpSchema.SafeParse | src/validation/signUpSchema.ts:5-12 | succeeds exactly when the name is non-empty, the e-mail passes the format check, the password has at least 6 UTF-16 code units and the secret equals the configured code |
| SignUpSchema.NoSecretCodeRejectsAll | src/validation/signUpSchema.ts:3-11 | with no configured secret code every sign-up is rejected, with "Forkert hemmelig kode" among the issues |
| Js.Slice | src/components/approve-user-job-components/SolvedUserJobCard.tsx:42 | `slice(0, n)` is the longest prefix of at most n UTF-16 code units (`IsSlice`) |
| Js.SliceUnique | src/components/approve-user-job-components/SolvedUserJobCard.tsx:42 | at most one prefix fits that description, so `IsSlice` determines the slice |
| Js.SliceOfBmp | src/components/approve-user-job-components/SolvedUserJobCard.tsx:42 | on text without characters above U+FFFF, `slice(0, n)` is the first min(n, length) characters |
| Js.LengthOfBmp | src/validation/punishmentSchema.ts:3-14 | without characters above U+FFFF, `length` counts characters |
| Js.LengthOfAstral | src/validation/punishmentSchema.ts:3-14 | each character above U+FFFF counts as two code units |
| Js.LengthAppend | src/validation/punishmentSchema.ts:3-14 | the length of a concatenation is the sum of the lengths |
| Js.IncludesIff | src/components/job-list-components/JobTemplatesList.tsx:55 | `includes` holds exactly when the search occurs at some position |
| Js.Lower | src/components/job-list-components/JobTemplatesList.tsx:55 | lower-casing applies the per-character case mapping `fold` to each character |
| Js.PairSortsBeforeHighBmp | src/hooks/useStatisticsData.ts:101 | the order is by UTF-16 code unit, not by character: U+1F600 (a surrogate pair) sorts before U+FF01, although U+FF01 is the smaller character |
| Js.CodeUnitLeTotal | src/hooks/useStatisticsData.ts:101 | any two strings are ordered one way or the other |
| Js.CodeUnitLeTransitive | src/hooks/useStatisticsData.ts:101 | the order is transitive |
| Js.CodeUnitLeAntisymmetric | src/hooks/useStatisticsData.ts:101 | strings ordered both ways are equal |
| Js.NatToString | src/modals/ApproveUserJobModal.tsx:94 | a whole number prints as digits without leading zeros |
| Js.ParseIntIsInteger | src/components/punishment-components/GivePunishment.tsx:43 | `parseInt` gives NaN or a whole number |
| Js.ParseIntOfNumeral | src/components/punishment-components/GivePunishment.tsx:43 | `parseInt` reads back every printed whole number and stops at the first non-digit |
| Js.ParseIntNoDigits | src/components/punishment-components/GivePunishment.tsx:43 | a field without digits reads as NaN |
| Sorting.Sort | src/pages/Punishment.tsx:277 | sorting keeps the elements (a permutation) and the length |
| Sorting.SortSorted | src/pages/Punishment.tsx:277 | under a total preorder the result is sorted |
| Sorting.SortInPlace | src/pages/Punishment.tsx:277 | sorting an array in place leaves the sorted sequence in it |
| Sorting.NoDuplicatesPermuted | src/hooks/useStatisticsData.ts:99-101 | sorting a list without duplicates gives a list without duplicates |

## Left out

- Network, storage and auth: every database call is an outcome flag. `approveJob`, `markJobAsUnsolved`, `getSolvedJobs` and `getApprovedJobs` are recorded as calls; their bodies are not in src/api/user_job.tsx, so their effect on balances is not part of this model.
- The data-loading effects of the approval page (src/pages/ApproveUserJob.tsx:28-46) and of the statistics hook (src/hooks/useStatisticsData.ts:30-60): the loaded lists are constructor or method parameters.
- Realtime channel wiring (src/context/RealtimeContext.tsx:46-80, src/pages/Punishment.tsx:72-122): network transport. A change event is modelled by calling `HandleTableChange` or `UpdateData`.
- Realtime.Registry: the source copies the map with `new Map(prev)`, but the copy shares its `Set` objects with the previous state. The model treats the registry as a single value, so it does not capture that aliasing.
- Realtime.Registry.HandleTableChange: a JavaScript `Set` runs its callbacks in insertion order, while the model runs them in an unspecified order. Nothing depends on the order, because each callback is an independent reload.
- Concurrency: interleavings of overlapping async handlers and loads are not modelled; each handler runs to completion.
- Payouts.FintAmount, Payouts.SkidtAmount, JobCards.CardFintAmount: these use exact rational round-half-up on whole `money >= 0`. IEEE doubles could differ at exact .5 points, and fractional money (which `jobSchema` accepts) is not modelled.
- JobCards.DetailedCardAgrees: the card shows numbers; the `toLocaleString('da-DK')` formatting is left out.
- Collation and case folding: `localeCompare` and `toLowerCase` are parameters.
- Js.Lower: the case mapping is a per-character `fold`, so the model omits the mappings of `toLowerCase` that change the length (U+0130 becomes "i" followed by U+0307) or depend on context (a word-final capital sigma becomes ς). `JobTemplates.Matches` and `Filtered` can therefore disagree with the source on titles or searches containing such characters.
- Sorting: `Array.prototype.sort` is stable. For a comparator that is a total preorder, its result is the one stable sorted permutation, which is what the insertion sort `Sorting.Sort` computes. For a comparator that is not consistent, the engine's order is implementation-defined, and the model gives the insertion sort's order.
- PunishmentApi.Store.GetLatest15Punishments: the database leaves the order of rows with equal `created_at` unspecified, and with it which of them fall within the first 15. The model breaks such ties by table order. `GetPunishments` and `GetUserPunishments` promise only a sorted permutation, so they leave ties open.
- StatisticsSpec.DisplayName, Js.Slice: when the cut falls inside a surrogate pair, JavaScript keeps the lone high surrogate, which a Dafny string cannot hold. The model stops before the pair, one code unit short.
- StatisticsSpec.PunishmentKey: the timezone-dependent conversion of `created_at` to `"HH:MM"` is the parameter `clock`.
- Statistics.LineChart: requires distinct bucket keys, which the source guarantees by building them from a `Set`. `ProcessedData` discharges it with `AllTimesSpec`.
- Statistics.Accumulate: an event whose user is not a profile would create a `NaN` entry in `cumulative` in the source. That entry is never read, so the model skips such events.
- Statistics.LastRowIsNet: asks only that no later profile share the user's display name, not that all display names be unique.
- StatisticsSpec.RowLabel: requires that no user's display name be "delivery". A user with that name overwrites the bucket label in the source.
- JobTemplates.TemplatesList.HandleSave: requires a selected job, because the save button exists only inside the modal, which renders only when a job is selected (src/components/job-list-components/JobTemplatesList.tsx:114-124).
- JobTemplates.TemplatesList: the search and sort inputs' change handlers are plain field assignments; they are not separate methods.
- Js.ParseInt: numbers are unbounded, so precision loss above 2^53 is not modelled. `-0` reads as 0, and Infinity does not occur.
- PunishmentApi.Store: `created_at` is an integer instant stamped by the store, and row ids come from a counter. The `profiles(name)` join of the getters is left out.
- Toasts, console output, spinners, the image preview and zoom state, and all markup.

## Findings

| source | as written | input that shows it | evidently intended | confidence | as-written member | corrected member |
|---|---|---|---|---|---|---|
| src/components/approve-user-job-components/SolvedUserJobCard.tsx:69 | the card's fint value is `Math.round(money * 0.66)` | a job with money 150 shows fint 99, but approving it as fint credits `Math.round(150 * 0.667)` = 100 | the factor 0.667 used by the payout (src/modals/ApproveUserJobModal.tsx:28, src/pages/ApproveUserJob.tsx:92) | not executed; high | JobCards.SolvedCardFintMisstated | JobCards.SolvedCardIntendedAgrees |
| src/pages/ApproveUserJob.tsx:82-105 | the approval modal is rendered without its `money` prop | any selected job: the modal's captions read "undefined kr." (godt) and "NaN kr." (fint, skidt), while approving credits a real amount | pass `money={selectedJob?.money}` so that each caption shows the amount its rating credits | not executed; medium | ApproveJob.ShownPayoutDiffersFromCredit | ApproveJob.IntendedLabelShowsCredit |
