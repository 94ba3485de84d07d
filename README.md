# Zcash Android wallet: view-model logic

This project models the decision logic of the Zcash Android wallet's screens.

- **Send.** How the send form validates its input and builds the memo, which issues and failures it reports, and how its timed metrics are paired and reported.
- **Home.** The amount keypad reducer and the home-screen model with its sync progress.
- **Auto-shielding.** The statuses and balances shown on the auto-shielding screens.
- **Transaction details.** The transaction detail model: direction, confirmations, amounts, the reply-to address found in a memo, and the transaction id as reversed hex.
- **Final send screen.** What the final send screen shows for each state of a pending transaction.
- **QR scanning.** How an address is read from a scanned QR code.
- **Server settings.** The server settings form.
- **Rescans.** The rescan heights and distances.
- **Wallet setup.** Wallet setup over the encrypted key store. A stored seed is never overwritten.
- **Helpers.** The analytics keys and the small extension helpers the screens use.

Every value that comes from the wallet SDK or the platform is a parameter or a plain datatype in module `Sdk`. This covers address validation, key derivation, ZEC formatting, string resources, the clock and rewind-height rounding. The SDK's lifecycle predicates of a pending transaction (`isCreating()`, `isMined()`, …) are independent flags.

The modules follow the source files:

| module | file |
|---|---|
| `Wrappers` | `Option` and `Result` |
| `Text` | Kotlin string operations used by the sources (prefix tests, parsing, `indexOf`, `replace`, case folding, trimming) |
| `Sdk` | SDK constants and data (`MINERS_FEE`, `MAX_MEMO_SIZE`, balances, pending and confirmed transactions, processor info) |
| `Report` | `feedback/Report.kt` |
| `MemoUtil` | `ui/util/MemoUtil.kt` |
| `Extensions` | `ext/Extensions.kt` |
| `Send` | `ui/send/SendViewModel.kt` |
| `Home` | `ui/home/HomeViewModel.kt` |
| `AutoShield` | `ui/send/AutoShieldViewModel.kt` |
| `History` | `ui/history/HistoryViewModel.kt` |
| `SendFinal` | `ui/send/SendFinalFragment.kt` |
| `Scan` | `ui/scan/ScanViewModel.kt` |
| `Settings` | `ui/settings/SettingsViewModel.kt` |
| `Profile` | `ui/profile/ProfileViewModel.kt` |
| `WalletSetup` | `ui/setup/WalletSetupViewModel.kt` |

Some objects update their own fields: the send view model's form and metric table, the auto-shield view model, the settings form and the wallet-setup key store. Each of these is a class whose methods state the whole new state. Where a method's new state is given by a function (`PairMetrics`, `ReportMetrics`, `UpdateMetricsStep`, `UpdatedModel`, `StoredWallet`, …), the properties are proved as lemmas about that function.

## Model

| member | source | states |
|---|---|---|
| Report.ScreenKeyAndDescription | app/src/main/java/cash/z/ecc/android/feedback/Report.kt:114-136 | a screen's key is `screen.` followed by its id, else its lowercased name; its description is `viewed the <label with dots as spaces> screen` and holds no dot |
| Report.ScreenDescriptionOfKey | app/src/main/java/cash/z/ecc/android/feedback/Report.kt:134-135 | dropping the 7-character `screen.` prefix and replacing dots with spaces gives back the label, so the description has no dot |
| Report.TapKeyAndDescription | app/src/main/java/cash/z/ecc/android/feedback/Report.kt:206-207 | a tap's key is `tap.` + id; its description starts with `tapped the ` and ends with ` button` |
| Report.TapDescriptionShape | app/src/main/java/cash/z/ecc/android/feedback/Report.kt:207 | replacing `tap.` and dots in `tap.<id>` + ` button` always starts with `tapped the ` and ends with ` button`, whatever the id |
| Report.NoTapStraddlesButton | app/src/main/java/cash/z/ecc/android/feedback/Report.kt:207 | no occurrence of `tap ` spans the boundary before the appended `button` |
| Report.ButtonHasNoTap | app/src/main/java/cash/z/ecc/android/feedback/Report.kt:207 | the `button` suffix is left untouched by the `tap ` replacement |
| Report.Issue.Key | app/src/main/java/cash/z/ecc/android/feedback/Report.kt:99 | an issue's key is `issue.` followed by its name |
| Report.Issue.Properties | app/src/main/java/cash/z/ecc/android/feedback/Report.kt:94-98 | an issue records its name and `isIssue = true` first, then its own properties |
| Report.Performance.Key | app/src/main/java/cash/z/ecc/android/feedback/Report.kt:87 | a performance metric's key is `performance.` followed by its name |
| Report.MainPathStepsIncrease | app/src/main/java/cash/z/ecc/android/feedback/Report.kt:10-21 | the main-path funnel steps are 10, 20, 30, 50, 60, 70, 80, 90, 100 and strictly increase |
| Report.ErrorStepDefaults | app/src/main/java/cash/z/ecc/android/feedback/Report.kt:24-35 | encode and submit errors are steps 71 and 81 named `error.encode` and `error.submit`, recording code -1 and message `None` when absent |
| Report.TxError.Name | app/src/main/java/cash/z/ecc/android/feedback/Report.kt:71-78 | a transaction error's key is `tx.` + its action, `tx.encode` exactly for an encode error |
| Report.TxError.Properties | app/src/main/java/cash/z/ecc/android/feedback/Report.kt:71-76 | a transaction error records its code, 1 when absent |
| Report.MetricKeysDistinct | app/src/main/java/cash/z/ecc/android/feedback/Report.kt:218-233 | distinct metric types have distinct keys |
| MemoUtil.LastIndexOfIgnoreCase | app/src/main/java/cash/z/ecc/android/ui/util/MemoUtil.kt:43 | the last position where the prefix matches ignoring case, or -1; no later position matches |
| MemoUtil.SubstringAfterLast | app/src/main/java/cash/z/ecc/android/ui/util/MemoUtil.kt:42-46 | empty when the prefix does not occur (ignoring case); otherwise the text after its last occurrence with leading whitespace trimmed |
| MemoUtil.FirstNonBlank | app/src/main/java/cash/z/ecc/android/ui/util/MemoUtil.kt:37 | the first non-blank candidate, absent exactly when every candidate is blank |
| MemoUtil.CandidatesAsWrittenAreEmpty | app/src/main/java/cash/z/ecc/android/ui/util/MemoUtil.kt:35-36 | applying the helper to a prefix itself yields only empty candidates |
| MemoUtil.FindAddressInMemoAsWrittenIsAlwaysNull | app/src/main/java/cash/z/ecc/android/ui/util/MemoUtil.kt:27-39 | as written, the lookup returns null for every memo and every validator |
| MemoUtil.CandidateAt | app/src/main/java/cash/z/ecc/android/ui/util/MemoUtil.kt:34-35 | candidate `k` is the text after the last occurrence of recognized prefix `k` in the memo |
| MemoUtil.FirstAcceptable | app/src/main/java/cash/z/ecc/android/ui/util/MemoUtil.kt:36-37 | the first candidate, in list order from a given index, that is non-blank and accepted by the validator; absent exactly when there is none |
| MemoUtil.FindAddressAmong | app/src/main/java/cash/z/ecc/android/ui/util/MemoUtil.kt:27-39 | null for a missing memo or one shorter than 35 characters; any result is non-blank, accepted, and the candidate of some prefix whose earlier candidates were all refused; absent from a long memo exactly when every candidate is refused |
| MemoUtil.StandardTrailerCandidate | app/src/main/java/cash/z/ecc/android/ui/util/MemoUtil.kt:11 | after `Reply-To:` and a newline, the text after the last standard prefix is the address |
| MemoUtil.StandardTrailerIsFound | app/src/main/java/cash/z/ecc/android/ui/util/MemoUtil.kt:11-39 | a memo ending in `Reply-To:`, a newline and a valid address yields exactly that address |
| Extensions.Distribute | app/src/main/java/cash/z/ecc/android/ext/Extensions.kt:19-31 | zero chunks fails as `roundToInt` of NaN; a negative count calls nothing; otherwise exactly `chunks` calls with indices 0.. in order, whose parts concatenate to the string, the first `len % chunks` one character longer than `len / chunks` |
| Extensions.Pending | app/src/main/java/cash/z/ecc/android/ext/Extensions.kt:35-36 | the part of the total not yet available, never negative |
| Extensions.AsString | app/src/main/java/cash/z/ecc/android/ext/Extensions.kt:33 | one of the two texts, the first exactly when the flag holds |
| Extensions.TryWithWarning | app/src/main/java/cash/z/ecc/android/ext/Extensions.kt:38-45 | a value passes through; a thrown error becomes null |
| Extensions.FailWith | app/src/main/java/cash/z/ecc/android/ext/Extensions.kt:47-53 | a value passes through; any thrown error is replaced by the given one |
| Send.CreateMemoToSend | app/src/main/java/cash/z/ecc/android/ui/send/SendViewModel.kt:92-93 | the memo alone, or followed by a newline, `Reply-To:`, a newline and the sender's address |
| Send.IncludedAddressIsRecovered | app/src/main/java/cash/z/ecc/android/ui/send/SendViewModel.kt:92-93 | the address appended to a memo is the one that the corrected memo lookup finds again (the intended half of the lookup finding; as written the lookup finds nothing) |
| Send.ChunkedConcat | app/src/main/java/cash/z/ecc/android/ui/send/SendViewModel.kt:78 | the chunks of a string concatenate back to the string |
| Send.SentMemo | app/src/main/java/cash/z/ecc/android/ui/send/SendViewModel.kt:78 | the memo sent is the first 512 characters of the memo, or all of it |
| Send.Validate | app/src/main/java/cash/z/ecc/android/ui/send/SendViewModel.kt:103-140 | any error it emits is a failing check; a missing amount never fails the amount checks |
| Send.ValidateIsFirstFailing | app/src/main/java/cash/z/ecc/android/ui/send/SendViewModel.kt:105-139 | the emitted error is the first failing check: address, minimum, unknown funds, no funds, dust, too much, memo length |
| Send.ValidatePassesIff | app/src/main/java/cash/z/ecc/android/ui/send/SendViewModel.kt:138 | null is emitted exactly when no check fails |
| Send.ValidMemoIsSentWhole | app/src/main/java/cash/z/ecc/android/ui/send/SendViewModel.kt:78 | a memo that passes validation is sent without truncation |
| Send.ReportUserInputIssues | app/src/main/java/cash/z/ecc/android/ui/send/SendViewModel.kt:182-196 | a self-send exactly when sender equals recipient; a tiny amount exactly below the fee; never the minimum-amount issue; truncation exactly above 512; a large memo exactly above 96% of 512 and not above it; at most three issues |
| Send.NoMicroAmountIssue | app/src/main/java/cash/z/ecc/android/ui/send/SendViewModel.kt:182-196 | the micro-amount issue is never reported |
| Send.ReportFailures | app/src/main/java/cash/z/ecc/android/ui/send/SendViewModel.kt:161-180 | nothing for null; cancelled, then encoding failure (funnel step and non-fatal error), then submit failure, in that precedence; nothing otherwise |
| Send.TimeMetric.ElapsedTime | app/src/main/java/cash/z/ecc/android/ui/send/SendViewModel.kt:221 | last mark minus first mark, absent with no marks |
| Send.TimeMetric.MarkTime | app/src/main/java/cash/z/ecc/android/ui/send/SendViewModel.kt:260-262 | adds one mark at the end, which becomes the end time, and keeps key and description |
| Send.Fresh | app/src/main/java/cash/z/ecc/android/ui/send/SendViewModel.kt:250-251 | a new metric with the type's key and one mark, so zero elapsed time |
| Send.MetricIdFor | app/src/main/java/cash/z/ecc/android/ui/send/SendViewModel.kt:271 | the transaction id, a dot, then the metric key |
| Send.RelatedMetricId | app/src/main/java/cash/z/ecc/android/ui/send/SendViewModel.kt:272 | the id followed by `.related` |
| Send.ToTxIdRoundTrip | app/src/main/java/cash/z/ecc/android/ui/send/SendViewModel.kt:271-273 | the transaction id is read back from any metric id built from it |
| Send.MetricIdInjective | app/src/main/java/cash/z/ecc/android/ui/send/SendViewModel.kt:271 | for one transaction, metric ids are equal exactly when their keys are |
| Send.PairMetrics | app/src/main/java/cash/z/ecc/android/ui/send/SendViewModel.kt:256-269 | an id is returned exactly when a start metric with a time point is stored; otherwise nothing changes and null is returned; the end metric, with the second type's key and description and the times from the start's end to now, is stored under the end id, which is returned; the start metric is stored under the end id's related id; every other entry is unchanged |
| Send.ReportMetrics | app/src/main/java/cash/z/ecc/android/ui/send/SendViewModel.kt:219-243 | reports exactly a stored metric with positive elapsed time, else changes nothing; the report fails afterwards exactly when a relation is stored and the id carries no transaction number; afterwards the table only loses entries, and keeps a failed report's table as it was |
| Send.ReportRemovesExactly | app/src/main/java/cash/z/ecc/android/ui/send/SendViewModel.kt:230-237 | reporting removes exactly the start entry and the relation of a paired metric, and a mined metric itself; every other entry stays |
| Send.PairThenReportDropsStart | app/src/main/java/cash/z/ecc/android/ui/send/SendViewModel.kt:219-269 | pairing a start metric whose end precedes now and reporting the pair succeeds and removes that start entry from the table |
| Send.RepeatedPairFindsNoStart | app/src/main/java/cash/z/ecc/android/ui/send/SendViewModel.kt:219-269 | after pairing and reporting, pairing again from the same start finds nothing and changes nothing |
| Send.UpdateMetricsStep | app/src/main/java/cash/z/ecc/android/ui/send/SendViewModel.kt:198-217 | no transaction changes nothing; otherwise the first matching state decides: mined pairs submitted with mined, then submit success pairs created with submitted, then created pairs initialized with created, each reporting the pair's id; a creating transaction stores a fresh initialized metric under its id; a transaction in no tracked state changes nothing |
| Send.MinedStepClearsInterval | app/src/main/java/cash/z/ecc/android/ui/send/SendViewModel.kt:206-239 | a mined step after a timed submission leaves neither the submitted start, nor the mined metric, nor their relation in the table |
| Send.SendViewModel.IsShielded | app/src/main/java/cash/z/ecc/android/ui/send/SendViewModel.kt:61 | the recipient starts with `z` |
| Send.SendViewModel.SetIncludeFromAddress | app/src/main/java/cash/z/ecc/android/ui/send/SendViewModel.kt:53-60 | turning the flag on needs a non-empty sender address, else the call fails and the flag is kept; nothing else changes |
| Send.SendViewModel.Reset | app/src/main/java/cash/z/ecc/android/ui/send/SendViewModel.kt:149-155 | clears the form fields and the flag; the memo to send becomes empty; the metric table is kept |
| Send.SendViewModel.StoreBy | app/src/main/java/cash/z/ecc/android/ui/send/SendViewModel.kt:253-254 | stores the metric under its id for the transaction and returns that id |
| Send.SendViewModel.PairBy | app/src/main/java/cash/z/ecc/android/ui/send/SendViewModel.kt:256-269 | the new table and result are those of `PairMetrics` on the old table |
| Send.SendViewModel.Report | app/src/main/java/cash/z/ecc/android/ui/send/SendViewModel.kt:219-243 | the new table and outcome are those of `ReportMetrics` on the old table |
| Send.SendViewModel.UpdateMetrics | app/src/main/java/cash/z/ecc/android/ui/send/SendViewModel.kt:198-217 | the new table is that of `UpdateMetricsStep` on the old table |
| Home.Reduce | app/src/main/java/cash/z/ecc/android/ui/home/HomeViewModel.kt:46-70 | the typed amount is never empty |
| Home.BackspaceBehaviour | app/src/main/java/cash/z/ecc/android/ui/home/HomeViewModel.kt:49-61 | backspace keeps `0`, turns one character into `0` and otherwise drops the last character |
| Home.LeadingZeroReplaced | app/src/main/java/cash/z/ecc/android/ui/home/HomeViewModel.kt:49-64 | a digit typed after `0` replaces it, and a second `0` is ignored |
| Home.ReducePreserves | app/src/main/java/cash/z/ecc/android/ui/home/HomeViewModel.kt:46-70 | each key keeps the amount well formed: non-empty, at most one decimal point, no leading zero, at most eight digits after the point |
| Home.Scan | app/src/main/java/cash/z/ecc/android/ui/home/HomeViewModel.kt:46 | the sequence of amounts starts with the initial text and each next amount is the reducer applied to the previous one |
| Home.ScanWellTyped | app/src/main/java/cash/z/ecc/android/ui/home/HomeViewModel.kt:46-70 | every amount the keypad produces from a well-formed start is well formed |
| Home.Progress | app/src/main/java/cash/z/ecc/android/ui/home/HomeViewModel.kt:129-151 | a percentage in 0..100; 100 for an empty range or a height at or past its end; 0 below its start |
| Home.ProgressMonotone | app/src/main/java/cash/z/ecc/android/ui/home/HomeViewModel.kt:129-151 | progress never decreases as the height grows |
| Home.TotalProgress | app/src/main/java/cash/z/ecc/android/ui/home/HomeViewModel.kt:152-156 | download weighted 0.4 and scan 0.6, between 0 and 1; 1 when both are complete |
| Home.UnminedCount | app/src/main/java/cash/z/ecc/android/ui/home/HomeViewModel.kt:83-85 | counts submitted, unmined transactions; 0 exactly when there is none |
| Home.UnminedCountAppend | app/src/main/java/cash/z/ecc/android/ui/home/HomeViewModel.kt:83-85 | the count of two lists together is the sum of their counts |
| Home.HasFundsAsWrittenIff | app/src/main/java/cash/z/ecc/android/ui/home/HomeViewModel.kt:118 | as written, any shielded balance of at least one zatoshi counts as funds |
| Home.OneZatoshiCountsAsFunds | app/src/main/java/cash/z/ecc/android/ui/home/HomeViewModel.kt:117-118 | a one-zatoshi balance cannot pay the fee yet counts as funds as written |
| Home.HasFundsPassesBalanceChecks | app/src/main/java/cash/z/ecc/android/ui/home/HomeViewModel.kt:117-122 | with funds in the corrected sense, the send form's balance checks pass, and the corrected send switch is on exactly when synced |
| Home.IsSendEnabledIff | app/src/main/java/cash/z/ecc/android/ui/home/HomeViewModel.kt:118-122 | as written, sending is enabled exactly when synced with a shielded available balance of at least one zatoshi |
| Home.OneZatoshiEnablesSend | app/src/main/java/cash/z/ecc/android/ui/home/HomeViewModel.kt:118-122 | a synced wallet with one zatoshi has sending enabled, which the corrected switch refuses, while the send form fails it as below the fee |
| Home.TotalProgressBounded | app/src/main/java/cash/z/ecc/android/ui/home/HomeViewModel.kt:129-156 | every model's progress values are in range |
| Home.InitialUiModel | app/src/main/java/cash/z/ecc/android/ui/home/HomeViewModel.kt:95 | the first model is disconnected with no balances and `0` typed, so sending and auto-shielding are off |
| Home.ToUiModel | app/src/main/java/cash/z/ecc/android/ui/home/HomeViewModel.kt:83-94 | the emitted fields are passed through, and the unmined count is within the list and 0 exactly when no transaction is submitted but unmined |
| AutoShield.FilterMultiplicity | app/src/main/java/cash/z/ecc/android/ui/send/AutoShieldViewModel.kt:47-48 | filtering keeps every kept element as often as it occurs and drops every other |
| AutoShield.Unconfirmed | app/src/main/java/cash/z/ecc/android/ui/send/AutoShieldViewModel.kt:47 | exactly the pending transactions without ten confirmations |
| AutoShield.Unmined | app/src/main/java/cash/z/ecc/android/ui/send/AutoShieldViewModel.kt:48 | exactly the submitted, unmined transactions |
| AutoShield.SortDescending | app/src/main/java/cash/z/ecc/android/ui/send/AutoShieldViewModel.kt:138-142 | sorted from largest to smallest, and a permutation of its input |
| AutoShield.StatusModel.RemainingConfirmations | app/src/main/java/cash/z/ecc/android/ui/send/AutoShieldViewModel.kt:138-142 | sorted descending, positive, at most one per unconfirmed transaction |
| AutoShield.RemainingComesFromUnconfirmed | app/src/main/java/cash/z/ecc/android/ui/send/AutoShieldViewModel.kt:138-142 | every remaining count belongs to some unconfirmed transaction |
| AutoShield.UnconfirmedContributes | app/src/main/java/cash/z/ecc/android/ui/send/AutoShieldViewModel.kt:138-142 | every unconfirmed transaction that still needs confirmations has its count listed |
| AutoShield.StatusesAsWritten | app/src/main/java/cash/z/ecc/android/ui/send/AutoShieldViewModel.kt:45-50 | as written, the unconfirmed field holds the unmined list and the unmined field the unconfirmed list |
| AutoShield.StatusesAsWrittenSwapsLists | app/src/main/java/cash/z/ecc/android/ui/send/AutoShieldViewModel.kt:49 | a submitted, mined transaction one block old shows as unmined but not as unconfirmed |
| AutoShield.Statuses | app/src/main/java/cash/z/ecc/android/ui/send/AutoShieldViewModel.kt:45-50 | each list holds exactly its kind of transaction; the pending balance is total minus available |
| AutoShield.StatusFlags | app/src/main/java/cash/z/ecc/android/ui/send/AutoShieldViewModel.kt:134-136 | has-unconfirmed, has-unmined and has-pending-balance hold exactly when those lists or that balance are non-empty |
| AutoShield.TenConfirmationsEdge | app/src/main/java/cash/z/ecc/android/ui/send/AutoShieldViewModel.kt:52-54 | a transaction with exactly ten confirmations still counts as unconfirmed, and no remaining count is listed for it |
| AutoShield.Pad | app/src/main/java/cash/z/ecc/android/ui/send/AutoShieldViewModel.kt:117-125 | left-pads with spaces to the maximum length, unchanged when already as long |
| AutoShield.NewBalanceModel | app/src/main/java/cash/z/ecc/android/ui/send/AutoShieldViewModel.kt:98-126 | formats the shielded, transparent and total balances and pads each to the longest; auto-shield is possible exactly with transparent funds |
| AutoShield.AutoShieldViewModel.OnBalances | app/src/main/java/cash/z/ecc/android/ui/send/AutoShieldViewModel.kt:34-43 | keeps the latest balance model: the shielded, transparent and total texts, auto-shielding exactly with transparent funds, and the three texts padded to the longest; the achievement flag is unchanged |
| AutoShield.AutoShieldViewModel.UpdateAutoshieldAchievement | app/src/main/java/cash/z/ecc/android/ui/send/AutoShieldViewModel.kt:65-73 | reports first time exactly when not yet triggered, and sets the stored flag |
| AutoShield.AchievementOnlyOnce | app/src/main/java/cash/z/ecc/android/ui/send/AutoShieldViewModel.kt:65-73 | the second call never reports a first time |
| History.ToTxId | app/src/main/java/cash/z/ecc/android/ui/history/HistoryViewModel.kt:161-168 | null for a missing id; otherwise the bytes from last to first, two lowercase hex digits each |
| History.HexReversedIsHex | app/src/main/java/cash/z/ecc/android/ui/history/HistoryViewModel.kt:165 | the id text holds lowercase hex digits only |
| History.HexReversedRoundTrip | app/src/main/java/cash/z/ecc/android/ui/history/HistoryViewModel.kt:161-168 | the hex text decodes back to the id's bytes |
| History.IsInbound | app/src/main/java/cash/z/ecc/android/ui/history/HistoryViewModel.kt:72-76 | outbound with a recipient address; inbound without one when the value and mined height are positive; unknown otherwise |
| History.TruncDiv | app/src/main/java/cash/z/ecc/android/ui/history/HistoryViewModel.kt:175 | long division of the clock, truncating toward zero: the quotient has the dividend's sign and the remainder lies within one divisor of zero on the dividend's side |
| History.TruncDivAgainstEuclidean | app/src/main/java/cash/z/ecc/android/ui/history/HistoryViewModel.kt:175 | truncation agrees with Euclidean division exactly for non-negative dividends and for exact multiples |
| History.ConfirmationOf | app/src/main/java/cash/z/ecc/android/ui/history/HistoryViewModel.kt:101-127 | pending exactly without a block time; a confirming count is latest minus mined plus one, below ten |
| History.ConfirmationWithLatestHeight | app/src/main/java/cash/z/ecc/android/ui/history/HistoryViewModel.kt:104-112 | with a latest height above activation, confirmed exactly from ten confirmations, else confirming with the count |
| History.ConfirmationWithoutCount | app/src/main/java/cash/z/ecc/android/ui/history/HistoryViewModel.kt:113-122 | otherwise confirmed exactly when no latest height is known and the transaction is sufficiently old, else count unavailable |
| History.NoCountWithoutLatestHeight | app/src/main/java/cash/z/ecc/android/ui/history/HistoryViewModel.kt:32 | without a latest height a confirming count is never shown |
| History.ToUiModel | app/src/main/java/cash/z/ecc/android/ui/history/HistoryViewModel.kt:68-156 | direction, mined flag, confirmation, value and id of the transaction (no id when the raw id is missing); outbound totals add the fee and show the recipient; inbound shows no address, since the as-written memo lookup never finds one; no labels when the direction is unknown; the memo only when non-empty |
| History.OutboundTotalIncludesFee | app/src/main/java/cash/z/ecc/android/ui/history/HistoryViewModel.kt:141-150 | an outbound total exceeds the value by exactly the miner's fee |
| SendFinal.NullableToString | app/src/main/java/cash/z/ecc/android/ui/send/SendFinalFragment.kt:143 | a missing error message reads `null` |
| SendFinal.RecipientAddress | app/src/main/java/cash/z/ecc/android/ui/send/SendFinalFragment.kt:149-153 | the address value of an address recipient, else empty |
| SendFinal.ToUiModel | app/src/main/java/cash/z/ecc/android/ui/send/SendFinalFragment.kt:130-180 | success first (sent, details, otherwise defaults), then failure (retry, secondary button, encoding or submitting message, described by the error message), else in progress (cancel this transaction while creating with the close icon hidden, details otherwise) |
| SendFinal.ToUiModelFlags | app/src/main/java/cash/z/ecc/android/ui/send/SendFinalFragment.kt:130-180 | the close icon is hidden exactly while creating, progress shows exactly while in progress, the secondary button exactly on failure |
| SendFinal.OnPendingTxUpdated | app/src/main/java/cash/z/ecc/android/ui/send/SendFinalFragment.kt:65-78 | ignores null updates and updates while not resumed; otherwise shows the model and clears the send form exactly on submit success |
| Scan.Candidate | app/src/main/java/cash/z/ecc/android/ui/scan/ScanViewModel.kt:17-21 | without `zcash:` the code unchanged; with it the text from index 6, holding no `?` |
| Scan.CandidateEnds | app/src/main/java/cash/z/ecc/android/ui/scan/ScanViewModel.kt:18 | the candidate runs to the first `?`, or to the end when there is none |
| Scan.EmptyCandidates | app/src/main/java/cash/z/ecc/android/ui/scan/ScanViewModel.kt:18 | `zcash:` alone or followed at once by `?` gives the empty candidate |
| Scan.Parse | app/src/main/java/cash/z/ecc/android/ui/scan/ScanViewModel.kt:14-23 | null exactly when the validator rejects the candidate, else the candidate |
| Settings.UiModel.PortInt | app/src/main/java/cash/z/ecc/android/ui/settings/SettingsViewModel.kt:80 | the parsed port, or -1 for text that is not a 32-bit number |
| Settings.UpdatedModel | app/src/main/java/cash/z/ecc/android/ui/settings/SettingsViewModel.kt:58-69 | submit is enabled exactly when host or port text differ from the initial server; a host error exactly for `://`; a port error exactly from 65535 |
| Settings.UnparsablePortHasNoError | app/src/main/java/cash/z/ecc/android/ui/settings/SettingsViewModel.kt:59-65 | port text that is not a number counts as -1 and raises no error |
| Settings.UpdatedModelHasErrorIff | app/src/main/java/cash/z/ecc/android/ui/settings/SettingsViewModel.kt:81-87 | the form has an error exactly for an invalid host or a port from 65535 |
| Settings.InitialTextDisablesSubmit | app/src/main/java/cash/z/ecc/android/ui/settings/SettingsViewModel.kt:63 | restoring the initial text disables submission |
| Settings.SettingsViewModel.Init | app/src/main/java/cash/z/ecc/android/ui/settings/SettingsViewModel.kt:26-37 | the stored host and port, or the defaults, become the initial and current model |
| Settings.SettingsViewModel.OnUpdateModel | app/src/main/java/cash/z/ecc/android/ui/settings/SettingsViewModel.kt:58-69 | the model becomes the updated model of the pending fields |
| Settings.SettingsViewModel.SetPendingHost | app/src/main/java/cash/z/ecc/android/ui/settings/SettingsViewModel.kt:23 | writing the pending host rebuilds the model |
| Settings.SettingsViewModel.SetPendingPortText | app/src/main/java/cash/z/ecc/android/ui/settings/SettingsViewModel.kt:24 | writing the pending port text rebuilds the model |
| Settings.SettingsViewModel.Submit | app/src/main/java/cash/z/ecc/android/ui/settings/SettingsViewModel.kt:49-56 | stores the model's host and parsed port, clears the change error and marks the model complete; nothing else changes |
| Settings.SettingsViewModel.ResetServer | app/src/main/java/cash/z/ecc/android/ui/settings/SettingsViewModel.kt:39-47 | the preferences end up holding the default host and port, and the model is the completed default |
| Settings.SubmittedPortRoundTrip | app/src/main/java/cash/z/ecc/android/ui/settings/SettingsViewModel.kt:35 | a stored port written as text parses back to itself |
| Profile.ToInt32 | app/src/main/java/cash/z/ecc/android/ui/profile/ProfileViewModel.kt:152 | `toInt` keeps the low 32 bits: a 32-bit result congruent to the long, equal to it when it fits |
| Profile.FullRescanTarget | app/src/main/java/cash/z/ecc/android/ui/profile/ProfileViewModel.kt:113-117 | rewinds to the birthday exactly when it is known |
| Profile.QuickRescanTarget | app/src/main/java/cash/z/ecc/android/ui/profile/ProfileViewModel.kt:119-125 | no rewind without a latest height; otherwise the larger of latest minus 8064 and activation |
| Profile.FullScanDistance | app/src/main/java/cash/z/ecc/android/ui/profile/ProfileViewModel.kt:132-139 | latest minus birthday clamped at zero, and 0 when either is unknown |
| Profile.FullScanDistanceMatchesRescan | app/src/main/java/cash/z/ecc/android/ui/profile/ProfileViewModel.kt:113-139 | the full distance is measured to the height the full rescan rewinds to |
| Profile.QuickScanRequestHeight | app/src/main/java/cash/z/ecc/android/ui/profile/ProfileViewModel.kt:142-148 | a week before the latest height (or activation), never below activation |
| Profile.QuickScanDistance | app/src/main/java/cash/z/ecc/android/ui/profile/ProfileViewModel.kt:141-153 | a non-negative 32-bit distance from the nearest rewind height to the latest, exact when it fits |
| Profile.QuickScanMatchesQuickRescan | app/src/main/java/cash/z/ecc/android/ui/profile/ProfileViewModel.kt:119-148 | one week is 8064 blocks, so the quick distance starts from the quick rescan's target |
| Profile.UtxoRefreshHeight | app/src/main/java/cash/z/ecc/android/ui/profile/ProfileViewModel.kt:52-53 | the stored birthday, else the activation height |
| Profile.FetchUtxos | app/src/main/java/cash/z/ecc/android/ui/profile/ProfileViewModel.kt:50-56 | the refreshed count from that height, 0 when none is reported |
| WalletSetup.CheckSeed | app/src/main/java/cash/z/ecc/android/ui/setup/WalletSetupViewModel.kt:48-54 | seed with backup exactly when backed up; without backup exactly when a seed but no backup; otherwise no seed |
| WalletSetup.LoadBirthdayHeight | app/src/main/java/cash/z/ecc/android/ui/setup/WalletSetupViewModel.kt:63-70 | the stored birthday, null exactly when none is stored |
| WalletSetup.LoadUnifiedViewingKey | app/src/main/java/cash/z/ecc/android/ui/setup/WalletSetupViewModel.kt:113-128 | both stored key halves, null exactly when either is missing |
| WalletSetup.StoredWalletReadsBack | app/src/main/java/cash/z/ecc/android/ui/setup/WalletSetupViewModel.kt:202-234 | after a complete store the birthday, phrase, seed (with their flags) and viewing key read back, and a seed is reported |
| WalletSetup.StoredWalletKeepsOthers | app/src/main/java/cash/z/ecc/android/ui/setup/WalletSetupViewModel.kt:213-234 | storing a wallet leaves every other entry as it was |
| WalletSetup.SecondStoreIsRefused | app/src/main/java/cash/z/ecc/android/ui/setup/WalletSetupViewModel.kt:197-200 | after a complete store the seed flag is set, so a further store is refused |
| WalletSetup.RecoveredKeyLoads | app/src/main/java/cash/z/ecc/android/ui/setup/WalletSetupViewModel.kt:153-155 | a stored recovered key loads, and the birthday is unchanged |
| WalletSetup.Recovered | app/src/main/java/cash/z/ecc/android/ui/setup/WalletSetupViewModel.kt:139-149 | a key derived from the stored seed, none without a seed |
| WalletSetup.WalletSetupViewModel.StoreBirthday | app/src/main/java/cash/z/ecc/android/ui/setup/WalletSetupViewModel.kt:213-216 | writes the birthday entry |
| WalletSetup.WalletSetupViewModel.StoreSeedPhrase | app/src/main/java/cash/z/ecc/android/ui/setup/WalletSetupViewModel.kt:218-222 | writes the phrase and its flag |
| WalletSetup.WalletSetupViewModel.StoreSeed | app/src/main/java/cash/z/ecc/android/ui/setup/WalletSetupViewModel.kt:224-228 | writes the seed and its flag |
| WalletSetup.WalletSetupViewModel.StoreUnifiedViewingKey | app/src/main/java/cash/z/ecc/android/ui/setup/WalletSetupViewModel.kt:230-234 | writes both key halves |
| WalletSetup.WalletSetupViewModel.StoreWallet | app/src/main/java/cash/z/ecc/android/ui/setup/WalletSetupViewModel.kt:192-211 | with a seed already flagged, fails and writes nothing; a bad phrase or failed derivation leaves only the birthday written; otherwise it succeeds with the derived key; success writes the whole wallet |
| WalletSetup.WalletSetupViewModel.OnMissingViewingKey | app/src/main/java/cash/z/ecc/android/ui/setup/WalletSetupViewModel.kt:130-169 | a key derived from the stored seed is stored and returned; otherwise the missing-key issue is reported and the call fails with the store unchanged |
| WalletSetup.WalletSetupViewModel.LoadConfig | app/src/main/java/cash/z/ecc/android/ui/setup/WalletSetupViewModel.kt:97-111 | the stored or recovered key, keys overwritten exactly when recovered, and the store untouched when no key is stored or recoverable; the stored birthday else the checkpoint; the server from the preferences else the defaults; the two failure cases exactly |
| WalletSetup.WalletSetupViewModel.ImportWallet | app/src/main/java/cash/z/ecc/android/ui/setup/WalletSetupViewModel.kt:81-86 | stores with the given birthday, else the checkpoint, and opens that wallet without overwriting keys; an existing seed refuses the import and writes nothing; a bad phrase or failed derivation fails with only the birthday written; otherwise the import succeeds with the derived key |

## Left out

- Coroutines, flows and channels (`combine`, `scan` over a channel, `conflate`, `onStart`, `viewModelScope`, `withContext`) are not modelled. Each emission's reducer or mapping is modelled as a function.
- View binding, navigation, toasts, vibration, logging and the Bugsnag breadcrumbs are not modelled.
- Foreign values are parameters:
  - string resources are named constants;
  - address validation is a `string -> bool` callback;
  - key derivation and mnemonic-to-seed are callbacks returning an option, "none" where they throw;
  - ZEC formatting is a callback;
  - the clock is a parameter;
  - the nearest rewind height and the UTXO refresh are callbacks;
  - the latest checkpoint is a value.
- Floating point is modelled as exact real arithmetic: the progress percentages, `roundToInt` and the 96% memo threshold. `Distribute` uses integer division in place of the float sizes.
- Memo text `toUtf8Memo` is not part of this model. The history model takes the decoded memo text as part of the transaction.
- History.ToUiModel passes the transaction's memo text to the as-written memo lookup. The source passes the transaction object itself to `findAddressInMemo`, whose parameter is a nullable string; either way the as-written lookup finds nothing. The icon rotation and the formatted height and timestamp are not modelled.
- `BlockHeight.new` may reject heights below activation. That check is inside the SDK and is not modelled.
- The key store's typed `get` is modelled on one number type. The source stores the birthday as a long and reads it back as an int.
- WalletSetup: `newWallet`, `validatePhrase` and `openStoredWallet`'s initializer construction are left out. They generate randomness or call into the SDK.
- Settings.SettingsViewModel.constructor: the source's `lateinit` fields throw if used before `init`. The model starts them at the empty model.
- Home.BackspaceBehaviour and Home.ReducePreserves: these assume the backspace key is not the decimal point. The backspace key is a resource character.
- Send.ReportMetrics: a metric id without a transaction number makes `toLong` throw after reporting. The model returns this as `ReportedThenFailed` and keeps the table.
- Feedback.kt is not part of this model. Send.TimeMetric takes a metric's end time as its last mark and its elapsed time as the last mark minus the first.
- Text: case folding is ASCII only. Whitespace is the full JVM set of `Char.isWhitespace`.
- Text.IsDigit, Text.ToIntOrNull and Text.ToLongOrNull accept ASCII digits only. Kotlin's `toIntOrNull` and `toLong` also accept other Unicode decimal digits. Settings.UiModel.PortInt and Send.ReportMetrics (through `ToTxId`) therefore refuse text that the source parses.
- Send.Validate, Send.ReportUserInputIssues, Send.SentMemo, Send.Chunked and MemoUtil.FindAddressAmong (its 35-character minimum) count a memo's length in characters (code points), not in UTF-16 units as Kotlin's `length` and `chunked` do. A memo with characters outside the Basic Multilingual Plane is therefore measured shorter than the source measures it, and a cut through a surrogate pair is not modelled.
- Profile: `blocksToMinutesString` is duration formatting and is not modelled.
- ProfileViewModel's `shieldFunds`, `wipe`, `cancel` and the easter-egg preference are left out. They are SDK calls.

## Findings

| source | as written | input that shows it | evidently intended | confidence | as-written member | corrected member |
|---|---|---|---|---|---|---|
| app/src/main/java/cash/z/ecc/android/ui/util/MemoUtil.kt:35 | `substringAfterLast` is applied to the prefix itself instead of to the memo, so every candidate is empty | any memo, e.g. one ending in `Reply-To:` + newline + a valid address | look each recognized prefix up in the memo | not executed | MemoUtil.FindAddressInMemoAsWrittenIsAlwaysNull | MemoUtil.StandardTrailerIsFound |
| app/src/main/java/cash/z/ecc/android/ui/send/AutoShieldViewModel.kt:49 | the unmined list is passed as the unconfirmed argument and the unconfirmed list as the unmined one | a submitted, mined transaction at its own block height | each list in its own field | not executed | AutoShield.StatusesAsWrittenSwapsLists | AutoShield.StatusFlags |
| app/src/main/java/cash/z/ecc/android/ui/home/HomeViewModel.kt:118 | the zatoshi balance is compared with the fee converted to ZEC (0.00001), so one zatoshi counts as funds | a shielded available balance of 1 zatoshi | the balance exceeds the miner's fee, both in zatoshi | not executed | Home.OneZatoshiCountsAsFunds | Home.HasFundsPassesBalanceChecks |
