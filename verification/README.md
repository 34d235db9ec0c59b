# Contract tracker core, modelled in Dafny

The application tracks public-procurement contracts: who requested them, how they are awarded
(open, restricted or nominated bidding, open or private negotiation), the stage each has reached,
and its budget, contract amount and executed amount. An AI assistant creates and edits contracts
through tool calls that take free Korean text. A dashboard rolls the budget up and raises alerts.
A nightly job marks contracts whose term has ended as delayed, and a PIN screen guards the app.

This project models the business rules of that core and proves their properties:

- `Constants`: the stage lists per method, the status, category and method labels, and the alert
  thresholds.
- `Amount`: the Korean amount parser `parseKoreanAmount` (조, 억, 천만, 백만, 만, 천 plus
  leftover digits), the tiered short formatter `formatAmountShort`, and `formatDDay`.
- `Tools`: the assistant's keyword mappers, the contract-id counter, contract creation, the
  `updateContract` change builder with its stage-driven status rules, the progress percentage
  and the note-tag extraction.
- `ContractsApi`: the contract listing (its `where` filter, paging, `hasMore` and per-row
  progress) and contract creation over HTTP.
- `Dashboard`: the status tallies, the budget roll-up with its per-mille execution rate, the
  first-match alert cascade and the critical-first sort.
- `CheckDeadlines`: the overdue sweep that sets DELAYED and logs each change.
- `PinVerify`: the PIN check with its per-client limit on failed attempts.
- `QuickReply`: the numbered-option parser of chat messages.
- `PinInput`: the four-cell PIN entry buffer.
- `ContractTree`: the grouping of contracts by requesting department, its ordering, the group
  totals and the expand/collapse set.
- `Validation`: the request schemas, as parsers with defaults.

Supporting modules:

- `Wrappers`: `Option` and `Result`.
- `Text`: digits, JavaScript white space, trimming, `split`/`join` and `parseInt`.
- `Domain`: the stored entities.
- `Store`: the persisted tables, as one class `Db` whose fields the operations update.

Persistence is an in-memory `Db`. Clocks are integer parameters: `now` and `today` are
millisecond instants, and the dashboard takes per-contract day counts from a `clock` parameter.
The conversions the code leaves to the JavaScript runtime are fields of a `Host` value: `toFixed`,
`Intl.NumberFormat`, ISO day text and date parsing.

## Model

| member | source | states |
|---|---|---|
| Constants.StagesByLabel | src/lib/constants.ts:17-23 | a known method label has a non-empty stage list ending at 집행완료; an unknown label has the empty list |
| Constants.MethodLabel | src/lib/constants.ts:54-60 | every method's label is a key of the stage table |
| Constants.Threshold | src/lib/constants.ts:63-67 | a threshold is defined exactly for the keys of `ALERT_THRESHOLDS` |
| Constants.MethodStageGroups | src/lib/constants.ts:17-23 | the four bidding and open-negotiation methods use the seven-stage list; private negotiation uses the four-stage list |
| Constants.PrivateIsCompetitiveTail | src/lib/constants.ts:4-14 | the private list is the competitive list from 계약준비 on |
| Constants.StageListsWellFormed | src/lib/constants.ts:4-14 | both lists end at 집행완료 and repeat no stage |
| Constants.MethodLabelsBijective | src/lib/constants.ts:17-23 | method labels are one-to-one onto the keys of the stage table |
| Constants.StatusLabelsDistinct | src/lib/constants.ts:26-33 | the six statuses have six different labels |
| Constants.ThresholdFacts | src/lib/constants.ts:63-67 | CRITICAL_DAYS 3 < WARNING_DAYS 7, WAITING_DAYS is 7, and CONTRACT_END_WARNING is undefined |
| Amount.Normalize | src/lib/utils.ts:10 | the normalized text holds no white space and no comma, and every other character occurs in it as often as in the input |
| Amount.NormalizeAppend | src/lib/utils.ts:10 | normalizing distributes over concatenation, so the kept characters stay in order |
| Amount.NormalizeKeeps | src/lib/utils.ts:10 | text without white space or commas is left as it is |
| Amount.NormalizeIdempotent | src/lib/utils.ts:10 | normalizing twice is normalizing once |
| Amount.DigitRun | src/lib/utils.ts:16 | the digit run at a position is maximal |
| Amount.MatchAt | src/lib/utils.ts:16 | a match reported at a position starts there and is digits, an optional fraction, then the suffix |
| Amount.MatchAtComplete | src/lib/utils.ts:16 | every occurrence of the pattern at a position is the match reported there |
| Amount.FindFrom | src/lib/utils.ts:16 | the match found is the leftmost one; no earlier position matches, and when none is found no position matches |
| Amount.Find | src/lib/utils.ts:16 | a match found by `exec` covers the pattern, no earlier position matches, and when nothing is found no position matches |
| Amount.FindComplete | src/lib/utils.ts:16 | when the pattern occurs anywhere, `exec` finds a match at or before that occurrence |
| Amount.FoundHasSuffix | src/lib/utils.ts:16 | no pattern matches text without its suffix's first character |
| Amount.MatchesLeadingDigits | src/lib/utils.ts:16 | digits directly followed by the suffix are matched whole at position 0 |
| Amount.FirstNumberFrom | src/lib/utils.ts:58 | the leftover number is the whole digit run at the first digit at or after the position; when none is found there is no digit there |
| Amount.TermValue | src/lib/utils.ts:18 | a term is worth its decimal coefficient times the magnitude, rounded down to whole won, and exactly the product for a whole coefficient |
| Amount.KoreanAmount | src/lib/utils.ts:63 | the result is null exactly when the total is 0, and positive otherwise |
| Amount.ConsumeStep | src/lib/utils.ts:12-55 | the suffix steps run in table order, each on what the previous left |
| Amount.MatchAndConsume | src/lib/utils.ts:16-20 | one block adds the first match's value and cuts that match out of the remaining text |
| Amount.ParseKoreanAmount | src/lib/utils.ts:9-64 | the method returns the additive total of the first term per suffix plus the leftover digits, or null for 0 |
| Amount.IgnoresSpacesAndCommas | src/lib/utils.ts:10 | white space and commas never change the result, so "5,000 만" reads as "5000만" |
| Amount.ConsumeFromSkips | src/lib/utils.ts:12-55 | steps whose suffix does not occur change nothing |
| Amount.FormatAmountShort | src/lib/utils.ts:76-91 | the tier suffix is 억 from 10^8, 천만원 from 10^7 and 만원 from 10^4; below 10^4 it is the currency text; a whole number of units is written as that number, anything else with the host's fixed-point text |
| Amount.ReadsEok | src/lib/utils.ts:9-63 | "k억" parses to k·10^8 |
| Amount.ReadsCheonman | src/lib/utils.ts:9-63 | "k천만원" parses to k·10^7, because 천만 is tried before 만 and 천 |
| Amount.ReadsMan | src/lib/utils.ts:9-63 | "k만원" parses to k·10^4 |
| Amount.RoundTrip | src/lib/utils.ts:9-63 | parsing the short format gives back k·10^8 (k ≥ 1), k·10^7 (k in 1..9) and k·10^4 (k in 1..999) |
| Amount.FormatDDay | src/lib/utils.ts:114-118 | "D-n" for a positive count, "D+n" for a negative one |
| Amount.DDayRoundTrip | src/lib/utils.ts:114-118 | the label reads back as the day count: "D-Day" is 0, "D-n" is n and "D+n" is −n |
| Tools.MapCategory | src/lib/ai/tools.ts:35-47 | the cascade, one if-and-only-if per result on the lower-cased input: 제조 or 제작 gives GOODS_MANUFACTURE; otherwise 물품 or 구매 gives GOODS_PURCHASE; otherwise 공사, 시설 or 건설 gives CONSTRUCTION; otherwise SERVICE |
| Tools.MapMethod | src/lib/ai/tools.ts:50-65 | the cascade, one if-and-only-if per result on the lower-cased input: 제한 gives RESTRICTED_BID; otherwise 지명 gives NOMINATED_BID; otherwise 공개수의 gives OPEN_NEGOTIATION; otherwise 수의 or 비공개 gives PRIVATE_NEGOTIATION; otherwise OPEN_BID |
| Tools.MapMethodCorrected | src/lib/ai/tools.ts:50-65 | the corrected mapper agrees with the one as written on every input without 비공개 |
| Tools.MapStatus | src/lib/ai/tools.ts:68-83 | the first of 진행/in_progress, 대기/waiting, 지연/delayed, 완료/completed that the lower-cased input contains or equals wins, each as an if-and-only-if; otherwise BEFORE_START, and never DELETED |
| Tools.MapCategoryInvertsLabels | src/lib/ai/tools.ts:35-47 | each category label maps back to its category |
| Tools.MapMethodInvertsOtherLabels | src/lib/ai/tools.ts:50-65 | the four labels other than 비공개수의 map back to their methods |
| Tools.MapMethodPrivateLabelIsOpen | src/lib/ai/tools.ts:58-63 | as written, 비공개수의 maps to OPEN_NEGOTIATION |
| Tools.MapMethodCorrectedInvertsLabels | src/lib/ai/tools.ts:50-65 | the corrected mapper maps all five labels back to their methods |
| Tools.MapStatusInvertsLabels | src/lib/ai/tools.ts:68-83 | each live status label maps back to its status |
| Tools.MapStatusReadsNames | src/lib/ai/tools.ts:68-83 | the English name of each live status maps back to it |
| Tools.InitialStage | src/lib/ai/tools.ts:98-103 | the initial stage is the first stage of the method's list: 계약준비 for private negotiation, else 공고준비 |
| Tools.RoundPercentBounds | src/lib/ai/tools.ts:296 | `Math.round` of a fraction in [0,1] times 100 is in [0,100]; 0 maps to 0 and 1 to 100 |
| Tools.RoundPercentMonotone | src/lib/ai/tools.ts:296 | rounding keeps the order of fractions |
| Tools.Progress | src/lib/ai/tools.ts:293-296 | progress is at most 100, and 0 when the stage is not in the list |
| Tools.ProgressAlongStages | src/lib/ai/tools.ts:293-296 | progress grows along the stage list and is 100 at 집행완료 |
| Tools.ContractId | src/lib/ai/tools.ts:31 | an id starts with 'C' and is at least five characters long |
| Tools.ContractIdFormat | src/lib/ai/tools.ts:31 | for a year of two or more digits the id is 'C', the last two digits of the year, '-' at index 3, then the counter padded to three characters |
| Tools.LastTwoDigits | src/lib/ai/tools.ts:31 | the last two digits of a year are digits whose value is the year modulo 100 |
| Tools.ContractIdFields | src/lib/ai/tools.ts:9-31 | read back, the id of counter n names the year modulo 100 and n |
| Tools.GenerateContractId | src/lib/ai/tools.ts:9-32 | the id is built from the stored counter (1 when missing), the counter is stored incremented, and only the config table changes |
| Tools.ContractIdInjective | src/lib/ai/tools.ts:31 | different counters give different ids in the same year |
| Tools.SuccessiveIdsDiffer | src/lib/ai/tools.ts:9-32 | two calls in a row give different ids |
| Tools.ParseAmountArg | src/lib/ai/tools.ts:127-129 | an absent or unparsable amount argument is 0; otherwise it is the parsed amount |
| Tools.NewContract | src/lib/ai/tools.ts:121-146 | a created contract takes its method from the mapper it is given and is BEFORE_START at that method's initial stage, which is in its stage list; amounts are parsed arguments, execution is 0, contact and contractor are empty |
| Tools.CreatesPrivateAsOpen | src/lib/ai/tools.ts:125 | with `mapMethod` as written, asking for 비공개수의 creates an OPEN_NEGOTIATION contract at 공고준비 |
| Tools.CreatesPrivateCorrected | src/lib/ai/tools.ts:125 | with the corrected mapper, the same request creates a PRIVATE_NEGOTIATION contract at 계약준비 |
| Tools.CreateContract | src/lib/ai/tools.ts:121-162 | the counter moves on; a fresh id stores exactly the new contract and one CREATE log; a clash of ids fails and writes no contract or log; ids stay unique |
| Tools.StageSection | src/lib/ai/tools.ts:373-395 | a stage outside the method's list is refused; 집행완료 sets COMPLETED; a BEFORE_START contract moving to another stage becomes IN_PROGRESS |
| Tools.AmountSection | src/lib/ai/tools.ts:411-449 | an amount argument is parsed (0 when unparsable) and adds one change exactly when given |
| Tools.FieldSections | src/lib/ai/tools.ts:398-449 | status, contractor and amounts are set in order, each with its change entry |
| Tools.PaymentSection | src/lib/ai/tools.ts:452-464 | a payment date records the date, forces 집행완료 and COMPLETED, and appends three changes |
| Tools.BuildUpdate | src/lib/ai/tools.ts:369-471 | the builder fails with the stage error or "nothing to change"; otherwise it returns the planned updates and changes |
| Tools.NoUpdatesIffNothingGiven | src/lib/ai/tools.ts:466-471 | the planned record is empty exactly when no argument is given |
| Tools.UpdatePlanWellFormed | src/lib/ai/tools.ts:373-471 | an update is refused exactly for a bad stage or no field; an accepted one has at least one change and a valid stage |
| Tools.PaymentDateCompletes | src/lib/ai/tools.ts:452-464 | a payment date forces 집행완료 and COMPLETED without stage validation; the last three changes are date, stage and status |
| Tools.ExplicitStatusOverrides | src/lib/ai/tools.ts:397-402 | an explicit status, applied after the stage section, wins and is never DELETED |
| Tools.StageDrivesStatus | src/lib/ai/tools.ts:387-395 | 집행완료 completes; a BEFORE_START contract moving stage starts; with no stage argument no status is set |
| Tools.LogsOf | src/lib/ai/tools.ts:480-490 | one log per change, in order: STAGE for 단계, STATUS for 상태, UPDATE otherwise |
| Tools.UpdateContract | src/lib/ai/tools.ts:353-505 | not found or refused writes nothing; otherwise the row is replaced by the updated contract and one log per change is appended |
| Tools.AppendLogs | src/lib/ai/tools.ts:480-490 | the loop appends exactly the logs of the changes and touches no other table |
| Tools.KeywordsIn | src/lib/ai/tools.ts:542-547 | a keyword is tagged exactly when it is in the list and the content contains it; no more tags than keywords |
| Tools.KeywordsInAppend | src/lib/ai/tools.ts:542-547 | tagging follows the keyword list: tagging a concatenated list tags each part in turn |
| Tools.ExtractTags | src/lib/ai/tools.ts:540-548 | supplied tags are kept as given; otherwise the keywords contained in the content, in list order |
| Tools.AddNote | src/lib/ai/tools.ts:523-566 | not found writes nothing; otherwise one note with its tags and one NOTE log are appended |
| ContractsApi.BuildWhere | src/app/api/contracts/route.ts:73-92 | a row is selected exactly when the listing query asks for it |
| ContractsApi.DeletedOnlyWhenAsked | src/app/api/contracts/route.ts:73-79 | by default no DELETED row is listed; an explicit DELETED filter lists only, and all, deleted rows |
| ContractsApi.Window | src/app/api/contracts/route.ts:98-99 | the page is rows offset, offset+1, … in order: at most `limit` of them, exactly `limit` when enough remain, else the rest, and none past the end |
| ContractsApi.RowOf | src/app/api/contracts/route.ts:104-125 | a row keeps the contract's id, stage, status and amount; progress is in [0,100], 0 off the list and 100 at 집행완료 |
| ContractsApi.RowProgressMonotone | src/app/api/contracts/route.ts:105-108 | later stages show at least as much progress |
| ContractsApi.ListContracts | src/app/api/contracts/route.ts:94-132 | total counts the matching rows, the page is formatted in order, and `hasMore` holds iff offset + limit < total |
| ContractsApi.OrNull | src/app/api/contracts/route.ts:163-166 | an empty or missing string is stored as null, and any other string as itself |
| ContractsApi.PostedContract | src/app/api/contracts/route.ts:156-170 | a new row has the given id and title, status BEFORE_START, and the initial stage of its method |
| ContractsApi.PostContract | src/app/api/contracts/route.ts:148-185 | the counter moves on; a fresh id stores exactly the posted row and one CREATE log; a clash of ids fails and writes no row or log; ids stay unique |
| CheckDeadlines.IdsOf | src/app/api/cron/check-deadlines/route.ts:53 | the id list follows the contracts one by one |
| CheckDeadlines.DelayAll | src/app/api/cron/check-deadlines/route.ts:36-40 | exactly the rows whose ids were selected become DELAYED; every other row is unchanged |
| CheckDeadlines.SweepLog | src/app/api/cron/check-deadlines/route.ts:43-51 | one STATUS log from the previous status to DELAYED |
| CheckDeadlines.SweepLogs | src/app/api/cron/check-deadlines/route.ts:36-51 | one log per selected contract, in order |
| CheckDeadlines.DelayAllStep | src/app/api/cron/check-deadlines/route.ts:36-40 | updating one more id after a batch equals updating the longer batch |
| CheckDeadlines.SweepDelaysExactlyOverdue | src/app/api/cron/check-deadlines/route.ts:17-40 | with unique ids, the sweep delays exactly the overdue contracts |
| CheckDeadlines.NothingOverdueAfterSweep | src/app/api/cron/check-deadlines/route.ts:28 | after the sweep nothing is selected |
| CheckDeadlines.SweepIdempotent | src/app/api/cron/check-deadlines/route.ts:28-39 | a second run on the same day changes nothing |
| CheckDeadlines.SweepSpares | src/app/api/cron/check-deadlines/route.ts:22-26 | a contract at another stage or with no past end date is left alone |
| CheckDeadlines.CheckDeadlines | src/app/api/cron/check-deadlines/route.ts:9-61 | a wrong secret gives 401 and changes nothing; otherwise the selected rows are delayed and logged, and the message count equals the length of `updatedContracts` |
| Dashboard.SumSplits | src/app/api/dashboard/route.ts:60-78 | a sum of pointwise sums is the sum of the sums |
| Dashboard.AllocatedIsActiveAmounts | src/app/api/dashboard/route.ts:63-72 | the allocated budget is the summary amount of IN_PROGRESS, WAITING and DELAYED |
| Dashboard.CountsAddUp | src/app/api/dashboard/route.ts:49-68 | over live contracts the five counts add up to the number of contracts |
| Dashboard.RateBounds | src/app/api/dashboard/route.ts:82-84 | spending within the budget gives a rate of at most 1000 per mille, and exactly 1000 when all is spent |
| Dashboard.BudgetOf | src/app/api/dashboard/route.ts:81-84 | remaining is total − allocated − executed, unclamped; the rate is 0 without a positive budget |
| Dashboard.TalliedStep | src/app/api/dashboard/route.ts:65-68 | counting one more contract adds 1 and its display amount under its own label |
| Dashboard.Aggregate | src/app/api/dashboard/route.ts:49-78 | each live label counts its contracts and their display amounts; allocated, contracted and executed are the sums over their statuses |
| Dashboard.AlertOf | src/app/api/dashboard/route.ts:98-180 | an alert carries the contract's id and title and the level of its rule |
| Dashboard.AlertTexts | src/app/api/dashboard/route.ts:98-180 | the alert the cascade raises reads 상태: 지연, "계약종료 N일 경과" with N > 0 days passed, "계약종료 D-n" with n ≥ 0, "마감 D-d" with a single digit d in 0..7, or "대기 N일" with N ≥ 7; the date shown is the contract end for the contract-end rules and the deadline otherwise |
| Dashboard.AlertsOf | src/app/api/dashboard/route.ts:90-183 | at most one alert per contract |
| Dashboard.CollectAlerts | src/app/api/dashboard/route.ts:88-183 | the loop pushes exactly the cascade's alerts in contract order |
| Dashboard.CascadeHead | src/app/api/dashboard/route.ts:92-106 | COMPLETED and BEFORE_START never alert; DELAYED always takes the critical DELAYED-status rule, whose text is stated by `Dashboard.AlertTexts` |
| Dashboard.DeadlineWindows | src/app/api/dashboard/route.ts:140-166 | 0 ≤ d ≤ 3 is critical, 3 < d ≤ 7 a warning, and a past deadline or d > 7 gives nothing |
| Dashboard.LongWaitRule | src/app/api/dashboard/route.ts:169-182 | a WAITING contract with no other alert is flagged iff it has waited 7 days or more |
| Dashboard.EndWarningNeverFires | src/app/api/dashboard/route.ts:126 | as written the threshold is undefined, so the contract-end warning never fires and control falls through |
| Dashboard.EndWarningWithThreshold | src/app/api/dashboard/route.ts:109-137 | with the five-day threshold of the comment, a signed contract ending in 0..5 days gets the warning |
| Dashboard.OfLevel | src/app/api/dashboard/route.ts:186-190 | the alerts of one level, drawn from the input |
| Dashboard.LevelsPartition | src/app/api/dashboard/route.ts:186-190 | critical and warning alerts together are all the alerts |
| Dashboard.CriticalFirstPermutes | src/app/api/dashboard/route.ts:186-190 | the sorted list is a permutation of the alerts |
| Dashboard.CriticalFirstOrdered | src/app/api/dashboard/route.ts:186-190 | every critical alert comes before every warning |
| Dashboard.CriticalFirstStable | src/app/api/dashboard/route.ts:186-190 | within a level the input order is kept |
| Dashboard.GetDashboard | src/app/api/dashboard/route.ts:20-203 | the budget block, summary and sorted alerts are those of the live contracts |
| PinVerify.Fresh | src/app/api/auth/verify/route.ts:19-26 | cleanup keeps exactly the entries at most 15 minutes old, unchanged |
| PinVerify.FreshIdempotent | src/app/api/auth/verify/route.ts:19-26 | cleaning twice at the same instant removes nothing more |
| PinVerify.ClientKey | src/app/api/auth/verify/route.ts:33 | the client key is the header up to its first comma, or "unknown" when the header is missing or that part is empty |
| PinVerify.PinError | src/app/api/auth/verify/route.ts:8-10 | a PIN is accepted for checking iff it is present, 4 characters long and all digits |
| PinVerify.WaitBounds | src/app/api/auth/verify/route.ts:38-40 | the wait is the ceiling of the rest of the lockout in minutes, between 1 and 15 |
| PinVerify.Remaining | src/app/api/auth/verify/route.ts:76-81 | remaining attempts are max(0, 5 − previous − 1) |
| PinVerify.RateLimiter.CleanupOldAttempts | src/app/api/auth/verify/route.ts:19-26 | the loop deletes exactly the entries older than 15 minutes |
| PinVerify.RateLimiter.Post | src/app/api/auth/verify/route.ts:28-93 | a POST runs cleanup, the lockout check, validation and the PIN check, and leaves the table as the step function says |
| PinVerify.LockoutRefuses | src/app/api/auth/verify/route.ts:36-51 | within the lockout the client is refused; after it the entry is dropped and the PIN is checked |
| PinVerify.StepRecords | src/app/api/auth/verify/route.ts:55-88 | only a wrong PIN records a failure (previous + 1, stamped now); a correct PIN deletes the entry; other clients' entries are only cleaned |
| PinVerify.FifthFailureLocks | src/app/api/auth/verify/route.ts:36-74 | the failure that uses the last attempt locks the client out for the next 15 minutes |
| PinVerify.FirstFailureLeavesFour | src/app/api/auth/verify/route.ts:68-81 | a client's first wrong PIN reports four remaining and stores count 1 |
| QuickReply.ReplyOf | src/components/chat/quick-reply-buttons.tsx:50-72 | an option's value is a non-empty digit string and its label is trimmed text |
| QuickReply.ReplyOfSplits | src/components/chat/quick-reply-buttons.tsx:50-72 | the value is the whole leading digit run, which an item line ends with its dot, and the label is the trimmed rest of the line |
| QuickReply.ListedIsItem | src/components/chat/quick-reply-buttons.tsx:50-67 | every fallback line also matches the item pattern |
| QuickReply.HeaderLine | src/components/chat/quick-reply-buttons.tsx:47 | the header found is the first "[선택]" line followed by an item line; when none is found no line is |
| QuickReply.LastTen | src/components/chat/quick-reply-buttons.tsx:62-63 | the fallback scans the last ten lines, or all of them when there are fewer |
| QuickReply.ParseQuickReplyOptions | src/components/chat/quick-reply-buttons.tsx:42-82 | the loops return the header's item run, else at least two numbered lines of the last ten, else nothing |
| QuickReply.RepliesAreNumbered | src/components/chat/quick-reply-buttons.tsx:50-72 | every option has a digit value and a trimmed label |
| QuickReply.HeaderWins | src/components/chat/quick-reply-buttons.tsx:47-58 | when a header is found, exactly its run of items is returned, and it is not empty |
| QuickReply.FallbackShape | src/components/chat/quick-reply-buttons.tsx:60-81 | the fallback returns nothing or 2..10 numbered lines from the last ten, in line order |
| QuickReply.MenuRoundTrip | src/components/chat/quick-reply-buttons.tsx:42-58 | a "[선택]" menu written from options parses back to exactly those options |
| QuickReply.HeaderThenItems | src/components/chat/quick-reply-buttons.tsx:47-58 | a header followed by item lines to the end parses as exactly those items |
| PinInput.Initial | src/components/auth/pin-input.tsx:19-20 | every cell starts empty with focus on the first |
| PinInput.DigitsOnly | src/components/auth/pin-input.tsx:81 | the pasted text keeps exactly its digits and nothing else |
| PinInput.DigitsOnlyAppend | src/components/auth/pin-input.tsx:81 | stripping distributes over concatenation, so the digits keep their order and repetitions |
| PinInput.PinInputState.HandleChange | src/components/auth/pin-input.tsx:43-58 | the cells, focus and `onComplete` value change as the change function says |
| PinInput.PinInputState.HandleKeyDown | src/components/auth/pin-input.tsx:60-77 | the state changes as the key function says |
| PinInput.PinInputState.HandlePaste | src/components/auth/pin-input.tsx:79-97 | the overwrite loop leaves the state the paste function says |
| PinInput.PinInputState.HandleFocus | src/components/auth/pin-input.tsx:99-103 | focus moves to the cell |
| PinInput.PinInputState.ErrorChanged | src/components/auth/pin-input.tsx:31-41 | an error resets the buffer as the reset function says |
| PinInput.JoinedCells | src/components/auth/pin-input.tsx:55 | the joined string has one digit per cell exactly when every cell is filled |
| PinInput.NonDigitIgnored | src/components/auth/pin-input.tsx:44 | input with a non-digit changes nothing |
| PinInput.ChangeKeepsLastDigit | src/components/auth/pin-input.tsx:46-53 | the cell keeps the last character typed, other cells are kept, and focus moves on unless at the last cell |
| PinInput.ChangeCompletesIffFilled | src/components/auth/pin-input.tsx:55-57 | `onComplete` fires, with the cells joined, iff every cell is filled |
| PinInput.BackspaceRule | src/components/auth/pin-input.tsx:61-69 | Backspace on an empty cell after the first moves focus left; otherwise it clears the cell |
| PinInput.ArrowsStayInRow | src/components/auth/pin-input.tsx:70-76 | arrows move focus by one and never leave the row |
| PinInput.DigitsOnlyKeepsDigits | src/components/auth/pin-input.tsx:81 | stripping non-digits keeps digit text and is idempotent |
| PinInput.PasteOverwritesPrefix | src/components/auth/pin-input.tsx:81-92 | a paste overwrites cells 0..k−1, keeps the rest and focuses k−1; a paste with no digits does nothing |
| PinInput.PasteCompletesIffFilled | src/components/auth/pin-input.tsx:94-96 | a paste completes iff every cell is filled; a paste of enough digits gives its first `length` digits |
| PinInput.ErrorResets | src/components/auth/pin-input.tsx:31-41 | an error empties every cell and focuses the first; no error changes nothing |
| PinInput.FocusKeepsWellFormed | src/components/auth/pin-input.tsx:99-103 | focusing a cell moves focus there and keeps the cells |
| ContractTree.KeyOfRule | src/components/contract/contract-tree.tsx:43 | the group key is the requester, or 미지정 when it is missing or empty |
| ContractTree.MembersAre | src/components/contract/contract-tree.tsx:42-48 | a group holds exactly the rows with its key |
| ContractTree.KeysInOrderAre | src/components/contract/contract-tree.tsx:42-48 | the keys are distinct, and every row's key and only those appear |
| ContractTree.GroupByRequester | src/components/contract/contract-tree.tsx:40-48 | the loop builds one group per key, each with its rows in input order |
| ContractTree.GroupedContracts | src/components/contract/contract-tree.tsx:39-64 | the groups come out with their keys sorted |
| ContractTree.SortKeysPermutes | src/components/contract/contract-tree.tsx:52-58 | sorting keeps exactly the keys |
| ContractTree.UnassignedLast | src/components/contract/contract-tree.tsx:54-56 | 미지정 sorts last when present |
| ContractTree.SortKeysSorted | src/components/contract/contract-tree.tsx:53-58 | the sorted keys are in comparator order |
| ContractTree.UnassignedGroupLast | src/components/contract/contract-tree.tsx:51-61 | the 미지정 group is the last group |
| ContractTree.GroupsFollowComparator | src/components/contract/contract-tree.tsx:57 | the other groups follow the comparator |
| ContractTree.EachRowInOneGroup | src/components/contract/contract-tree.tsx:39-64 | group keys are distinct and every contract is in exactly the group of its key |
| ContractTree.Stats | src/components/contract/contract-tree.tsx:80-87 | count is the number of items, the total is the sum of amounts, and the label is its short format |
| ContractTree.GroupsCoverRows | src/components/contract/contract-tree.tsx:42-48 | groups over the keys of the rows sum to the sum over the rows |
| ContractTree.GroupTotalsAddUp | src/components/contract/contract-tree.tsx:80-86 | group counts add up to the number of contracts, and group totals to the total amount |
| ContractTree.ExpandedGroups.ToggleGroup | src/components/contract/contract-tree.tsx:67-77 | the set becomes the toggle of the key |
| ContractTree.ToggleFlipsOnlyKey | src/components/contract/contract-tree.tsx:67-77 | toggling flips only that key, and toggling twice restores the set |
| Validation.CategoryOf | src/lib/validations/contract.ts:4-9 | a category is accepted only as its own name |
| Validation.MethodOf | src/lib/validations/contract.ts:12-18 | a method is accepted only as its own name |
| Validation.StatusOf | src/lib/validations/contract.ts:21-28 | a status is accepted only as its own name, DELETED included |
| Validation.EnumsAcceptTheirNames | src/lib/validations/contract.ts:4-28 | each enumeration accepts every one of its names |
| Validation.ParseCreate | src/lib/validations/contract.ts:31-53 | accepted input has a non-empty title, enum category and method, and the amounts sent or 0 |
| Validation.ParseEncoded | src/lib/validations/contract.ts:31-53 | a body carrying every field of a value with a non-empty title parses to that value |
| Validation.CreateRoundTrip | src/lib/validations/contract.ts:31-53 | a value with a non-empty title is read back from its own JSON |
| Validation.CreateRejects | src/lib/validations/contract.ts:32 | a missing or empty title is rejected |
| Validation.ParseUpdate | src/lib/validations/contract.ts:56-80 | every field is optional; a present title is non-empty; a status is present iff sent and is the status sent; requester, contact, contractor and the dates keep absent, null and a string apart; a requester or status of the wrong kind is refused |
| Validation.UpdateKeepsSentFields | src/lib/validations/contract.ts:57-70 | category, method, the four amounts and the stage of an accepted update are present exactly when sent, and are the values their rules read from what was sent |
| Validation.UpdateRefusesBadField | src/lib/validations/contract.ts:57-70 | an update with a title, category, method, amount or stage that its rule refuses is refused |
| Validation.UpdateText | src/lib/validations/contract.ts:66-79 | a text field of an update is read iff it is absent, null or a string, and the reading says which |
| Validation.ReadUpdateDates | src/lib/validations/contract.ts:72-79 | the eight dates are each read as absent, null or the string sent |
| Validation.UpdateNullIsNotAbsent | src/lib/validations/contract.ts:66 | a requester sent as null clears the column, unlike a requester left out |
| Validation.UpdateAcceptsEmptyAndAnyStatus | src/lib/validations/contract.ts:56-80 | the empty body is accepted, and so is any of the six statuses, DELETED included |
| Validation.ParseNote | src/lib/validations/contract.ts:83-86 | a note needs non-empty content, and its tags default to [] |
| Validation.ParseListQuery | src/lib/validations/contract.ts:89-98 | limit is positive; limit 20, offset 0, sort updatedAt and order desc when absent, and the values sent otherwise; status, category, method and search are present exactly when sent and are the values sent; a bad limit, offset, status, category or method is refused |
| Validation.ListQueryDefaults | src/lib/validations/contract.ts:93-96 | the empty query gives the defaults, and a limit ≤ 0 is refused |
| Store.FindLive | src/lib/ai/tools.ts:355-360 | the first live contract whose id is the key or whose title contains it |
| Store.FilterBy | src/app/api/dashboard/route.ts:29-46 | `findMany` keeps a row exactly when it satisfies the filter, and no more rows than the table has |
| Store.FilterByAppend | src/app/api/dashboard/route.ts:29-46 | filtering distributes over concatenation, so rows keep table order and repetitions |
| Store.AppendFreshId | src/lib/ai/tools.ts:131-146 | appending a contract whose id is not taken keeps ids unique |
| Store.Db.Insert | src/lib/ai/tools.ts:131-146 | the row is stored iff its id is not taken; other tables are unchanged and ids stay unique |
| Store.Db.AddLog | src/lib/ai/tools.ts:149-161 | exactly one log entry is appended and nothing else changes |
| Json.EscapeChar | src/lib/ai/tools.ts:155-160 | a character is escaped iff it is a quote, a backslash or a control character; otherwise it is written as itself |
| Json.Quote | src/lib/ai/tools.ts:155-160 | a string literal is the text between double quotes |
| Json.EscapeRoundTrip | src/lib/ai/tools.ts:155-160 | the escaped text of a string reads back as that string |
| Json.EscapePlain | src/lib/ai/tools.ts:155-160 | text with nothing to escape is written unchanged |

## Left out

- Persistence is an in-memory `Db`. Database ordering (`orderBy`) is left out: a listing keeps
  table order, so the `sort` and `order` query fields are parsed but not applied.
- Concurrency: the read-then-write id counter and the per-instance rate-limit map are modelled
  sequentially.
- Exceptions and the 500 responses, malformed JSON, and ORM errors are left out. A store refusal
  is modelled only as the `CreateFailed` result on an id clash.
- Dates: `getDDay`, `new Date`, `setHours` and the day arithmetic of the dashboard are not
  modelled. Day counts and instants are parameters, and one `now` serves a whole request. An
  Invalid Date from malformed text is not modelled.
- Floating point: the `toFixed` branches of `formatAmountShort` and the `Intl.NumberFormat` of
  `formatAmount` are `Host` functions, so only the whole-unit branches are proved. JavaScript
  numbers are unbounded integers here; 53-bit precision is not modelled.
- Amount.TermValue: decimal coefficients such as "1.5억" are evaluated exactly in decimal and
  truncated to whole won, where the source multiplies binary floats and can return a fraction.
  For "1.1억" the float product is 110000000.00000001, and for "2.3억" it is
  229999999.99999997. `BigInt` of such a number throws, so the source refuses those amounts where
  the model stores the truncated value. In `createContract` (src/lib/ai/tools.ts:137-139) the
  throw comes after `generateContractId` has advanced the counter. In `updateContract`
  (src/lib/ai/tools.ts:413-443) it comes before anything is written.
- Dashboard.RateBounds: the rate is kept in per mille; the division by 10 and the later
  `Math.round(executionRate * 10) / 10` on floats are not modelled.
- Dashboard.GetDashboard: `BigInt(value)` of the stored budget is the `toBigInt` parameter.
- Dashboard.CriticalFirst: `alerts.sort` is modelled on values, as the stable ordering the
  comparator defines, not as an in-place sort.
- Text.Lower: `toLowerCase` folds ASCII capitals only. That is exact for every keyword and English
  status name the mappers compare.
- QuickReply.QuickReplies: the regular expressions are read line by line. Matches in which `\s+`
  crosses a line break are not modelled.
- Validation: `z.coerce.number()` on query strings is not modelled; the query arrives as typed
  JSON. zod's error messages are not modelled beyond rejection.
- PinVerify: the PIN hash check is the `checkPin` parameter. `createSession` and its cookie are
  left out. A non-string `pin` in the body counts as absent.
- PinVerify.PinError: lengths are counted in Unicode scalar values, where zod's `.length(4)`
  counts UTF-16 code units. The accepted PINs are the same, because `\d` matches ASCII digits
  only. The message can differ: two characters outside the Basic Multilingual Plane, such as
  "𝟏𝟐", get the digits message in the source and the length message here.
- ContractTree: `localeCompare(b, 'ko')` is a comparator parameter. The key sort is a stable
  insertion sort. `Object.keys` listing array-index-like keys first is not modelled.
- ContractTree.GroupedContracts: the grouping record is a `seq` of groups, not a JavaScript
  object.
- PinInput: a `length` prop changed after mount is not modelled. The focus timers, DOM focus and
  `select` are left out. `onComplete` is the returned `Option`. React's state closures and update
  batching are modelled as one sequential state.
- The tools `listContracts`, `getContract` (other than its progress), `deleteContract` and
  `setBudget` are not part of this model. Their listing and lookup are store queries like the
  modelled ones. Neither are the chat route and the other route handlers.
- Tools.CreateContract: the method mapper is a parameter. The tool as written passes
  `Tools.MapMethod` (src/lib/ai/tools.ts:125), so 비공개수의 creates an open negotiation
  (`Tools.CreatesPrivateAsOpen`); `Tools.CreatesPrivateCorrected` shows the corrected mapper.
- Amount.KoreanAmount: sums of several terms, such as "1억5천만", are covered only by the general
  definition through `Amount.ConsumeStep`. Closed forms are proved for single terms
  (`Amount.ReadsEok`, `Amount.ReadsCheonman`, `Amount.ReadsMan`, `Amount.RoundTrip`), because
  the solver does not settle a multi-term closed form within its resource limit.
- ContractTree.GroupByRequester: a requester named like an `Object.prototype` member
  ("toString", "constructor", "hasOwnProperty") makes `groups[key]` truthy before any push, so
  src/components/contract/contract-tree.tsx:44-47 calls `push` on a function and throws. The
  model groups such a key like any other.
- ContractsApi.ContainsInsensitive: folds ASCII capitals only. The database's insensitive mode
  folds more of Unicode, so a search term with non-ASCII capitals may match more rows there.
- Json.Quote: Dafny characters are Unicode scalar values, so the `\uXXXX` escapes
  `JSON.stringify` writes for lone surrogates are not modelled.

## Findings

| source | as written | input that shows it | evidently intended | confidence | as-written member | corrected member |
|---|---|---|---|---|---|---|
| src/app/api/dashboard/route.ts:126 | compares the day count with `ALERT_THRESHOLDS.CONTRACT_END_WARNING`, which src/lib/constants.ts:63-67 does not define, so `diffDays <= undefined` is always false | a signed IN_PROGRESS contract ending in 2 days, with no deadline: no alert | warn when the contract ends within 5 days, as the comment on line 127 says | not executed | Dashboard.EndWarningNeverFires | Dashboard.EndWarningWithThreshold |
| src/lib/ai/tools.ts:58-63 | tests 공개수의 before 비공개, and 비공개수의 contains 공개수의 | "비공개수의" maps to OPEN_NEGOTIATION | 비공개수의 maps to PRIVATE_NEGOTIATION, its own label in src/lib/constants.ts:59 | not executed | Tools.MapMethodPrivateLabelIsOpen | Tools.MapMethodCorrectedInvertsLabels |
