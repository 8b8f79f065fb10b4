# TickSTX profile, leaderboard and dialog logic in Dafny

TickSTX is a web front end for a shared on-chain counter on Stacks. Anyone can
call `increment`, `decrement`, `increment-by`, `decrement-by` and `reset` on the
counter contract. This project models the logic of that front end that does
not touch the screen or the network, and proves properties of it:

- **The user profile** (`frontend/hooks/useUserProfile.ts`). This covers three functions:
  - `calculateUserStats` folds the contract's transaction list into one user's counters and dated activity records.
  - `calculateUserRank` builds a leaderboard of every sender, sorted stably by net contribution and then operations, and finds the user's place on it.
  - `calculateAchievements` turns the counters into badges.
- **The display helpers** (`frontend/utils/helpers.ts`, `frontend/utils/constants.ts`):
  - address truncation;
  - address validation and its network;
  - "n units ago" times;
  - contract error messages.
- **The "increment by" dialog** (`frontend/components/Counter/IncrementByModal.tsx`):
  - validating the typed amount;
  - the confirm button;
  - the Enter key.
- **The activity log** (`frontend/lib/activityTracker.ts`): a newest-first list of at most 20 entries in `localStorage`.

## Modules

| file | module | contents |
|---|---|---|
| wrappers.dfy | Wrappers | `Option` |
| sequences.dfy | Sequences | `Init` and `Last`, which take a list apart at its end for the folds over transactions and activities. |
| js_string.dfy | JsString | The JavaScript built-ins the code relies on: `toLowerCase`, `startsWith`, `indexOf`, `replace` of the first occurrence, `slice` with negative offsets, `parseInt` (white space, sign, `0x` prefix, longest digit run, NaN) and the decimal rendering of an integer. |
| stable_sort.dfy | StableSort | `Array.prototype.sort` with a comparator that is a descending lexicographic pair of keys, as a stable insertion sort. |
| transactions.dfy | Transactions | The API transaction, which calls count, the amount read from an argument, and reference totals over a list. |
| user_stats.dfy | UserStats | `calculateUserStats` |
| user_rank.dfy | UserRank | `calculateUserRank` |
| achievements.dfy | Achievements | `calculateAchievements` |
| helpers.dfy | Helpers | `truncateAddress`, `isValidStacksAddress`, `getNetworkFromAddress`, `formatRelativeTime`, `getContractErrorMessage`, `CONTRACT_ERROR_MESSAGES` |
| increment_by_modal.dfy | IncrementByModal | the dialog's state and event handlers |
| activity_tracker.dfy | ActivityTracker | `loadActivities`, `saveActivity`, `clearActivities` |

The code reads several things from outside, which the model takes as parameters:

- **The contract id.** `getContractInfo` reads it from the environment; here it is a parameter `contractId`.
- **The clock.** `new Date()` is a parameter `now`, in milliseconds.
- **The browser.** `window` and `localStorage` are a parameter `Env`. It is either no window, or a storage slot that may be absent, hold a list, or hold text that does not parse. Storage may refuse `setItem` (a full quota, for one) and, separately, `removeItem`.
- **The random activity id.** It is a parameter too.

JavaScript numbers are modelled as unbounded integers.

## Model

| member | source | states |
|---|---|---|
| UserStats.CalculateUserStats | frontend/hooks/useUserProfile.ts:115-240 | Operations count the user's successful calls to the contract that carry a function name, with the sender compared up to case. Increments and decrements are the sums of the per-call amounts, and net contribution is increments minus decrements. There is one activity record per operation whose function is one of the five known ones, so never more than the operations. Every record is well formed and is the record of one of the user's known operations: that operation's id, the kind its function names, the amount it moves the counter by (0 for a reset), its time and its block height. The list is exactly the known operations' records in list order, sorted newest first with records of equal time kept in list order, which is the stable sort's result. |
| UserStats.Step | frontend/hooks/useUserProfile.ts:145-221 | One loop pass: a call without a function name changes nothing. Any other call counts as one operation and moves the counters by its increment and decrement. It appends exactly one record when the function name is known, and leaves the earlier records as they were. That record carries the transaction's id, the kind its function names, the amount it moves the counter by (0 for a reset), its time (the block time in milliseconds, or the clock when missing) and its block height (0 when missing). |
| UserStats.Fold | frontend/hooks/useUserProfile.ts:129-221 | The filter and the loop, starting from any consistent accumulators, add exactly the reference totals of the list. The new records follow the old ones and are exactly the records of the user's known operations, one for each, in list order. Each has that operation's kind, amount and time. |
| UserStats.StepRecords | frontend/hooks/useUserProfile.ts:130-221 | One pass of the filter and the loop appends the transaction's own record exactly when it is a known operation of the user, and nothing otherwise. |
| UserStats.Finish | frontend/hooks/useUserProfile.ts:223-229 | The records are reordered newest first without losing or adding any, and records of equal time keep their order, as the stable sort keeps them. First and last activity are absent exactly when there are no records. Otherwise last activity is the newest record's time and first activity the oldest's, and first is not after last. |
| UserStats.RecordWellFormed | frontend/hooks/useUserProfile.ts:162-219 | A record's amount is 0 exactly for a reset, and 1 for a plain increment or decrement. |
| UserStats.RecordsComplete | frontend/hooks/useUserProfile.ts:129-221 | Every operation of the user with a known function name leaves its record in the list. |
| UserStats.FirstSeenIsEarliest | frontend/hooks/useUserProfile.ts:157-228 | First activity is present exactly when the user has an operation with a known function name. It is then the earliest time among those operations. |
| UserStats.LastActiveIsLatest | frontend/hooks/useUserProfile.ts:157-229 | Last activity is present exactly when the user has an operation with a known function name. It is then the latest time among those operations. |
| UserStats.MinTimestamp | frontend/hooks/useUserProfile.ts:228 | `Math.min` over the times is a lower bound attained by some record. |
| UserStats.MaxTimestamp | frontend/hooks/useUserProfile.ts:229 | `Math.max` over the times is an upper bound attained by some record. |
| UserStats.IgnoredTransaction | frontend/hooks/useUserProfile.ts:130-136 | A transaction that is not one of the user's operations, inserted anywhere in the list, leaves the whole result unchanged. |
| UserStats.OneMoreOperation | frontend/hooks/useUserProfile.ts:145-221 | One more operation of the user counts once. It adds its increment and decrement, and adds a record exactly when its function is known. |
| UserStats.OrderIndependent | frontend/hooks/useUserProfile.ts:115-240 | Swapping two parts of the list gives the same counters, the same records up to order, and the same first and last activity. |
| UserStats.FoldAppend | frontend/hooks/useUserProfile.ts:145-221 | Running the loop over a concatenation is running it over each part in turn. |
| Transactions.AmountFromRepr | frontend/hooks/useUserProfile.ts:154 | The amount read from an argument is never 0: NaN and 0 fall back to 1. It is at least 1 for any text without a minus sign. |
| Transactions.CallAmount | frontend/hooks/useUserProfile.ts:151-155 | The amount is 1 unless the call is `increment-by` or `decrement-by` with a first argument. Then it is the amount read from that argument, which is never 0. |
| Transactions.UintCallAmount | frontend/hooks/useUserProfile.ts:151-155 | An `increment-by` or `decrement-by` call whose first argument is `u<digits>` moves the counter by the number the digits spell, or by 1 when it is 0. |
| Transactions.UintAmount | frontend/hooks/useUserProfile.ts:154 | A Clarity `uint` argument `u<digits>` gives the number the digits spell, or 1 when it is 0. |
| Transactions.NonNumericAmount | frontend/hooks/useUserProfile.ts:154 | An argument without a decimal digit gives the fallback amount 1. |
| Transactions.OperationsOfPositive | frontend/hooks/useUserProfile.ts:130-149 | The user has at least one operation exactly when some successful call of the contract with a function name was sent by the user, up to case. |
| UserRank.Entries | frontend/hooks/useUserProfile.ts:252-290 | The map after the loop has one entry per exact-case sender of an operation, no address twice, and each entry holds that address's operations and net contribution. Entries stand in the order of their senders' first operations, which is `Map` insertion order. |
| UserRank.Find | frontend/hooks/useUserProfile.ts:266 | `userStatsMap.get` finds the entry for exactly that address, or reports that there is none. |
| UserRank.SameDelta | frontend/hooks/useUserProfile.ts:280-289 | The rank loop's `switch` moves a sender's net contribution exactly as the profile's counters do. |
| UserRank.CountStep | frontend/hooks/useUserProfile.ts:261-290 | One loop pass keeps the map's summary invariant over the list extended by one transaction. |
| UserRank.LeaderboardOrder | frontend/hooks/useUserProfile.ts:293-298 | Going down the sorted board, net contribution never increases. Among equal net contributions, operations never increase. Senders tied on both stay in the order of their first operations, because the sort is stable. |
| UserRank.BoardEntries | frontend/hooks/useUserProfile.ts:252-298 | Every board entry belongs to a sender of an operation and carries that sender's own totals. |
| UserRank.SendersOnBoard | frontend/hooks/useUserProfile.ts:252-298 | Every sender of an operation has an entry on the board. |
| UserRank.OneEntryPerSender | frontend/hooks/useUserProfile.ts:252-298 | The board has exactly as many entries as there are distinct exact-case senders. |
| UserRank.FindUser | frontend/hooks/useUserProfile.ts:301-303 | `findIndex` returns the first entry whose address equals the user's up to case, or -1 when no entry does. |
| UserRank.FindUserIgnoresCase | frontend/hooks/useUserProfile.ts:301-303 | Two lookups that differ only in letter case find the same entry. |
| UserRank.RankIgnoresLookupCase | frontend/hooks/useUserProfile.ts:300-305 | Looking the user up in another letter case gives the same rank. |
| UserRank.RankedIffOperations | frontend/hooks/useUserProfile.ts:254-303 | Some board entry matches the user exactly when the user has an operation. |
| UserRank.CalculateUserRank | frontend/hooks/useUserProfile.ts:245-306 | The rank is 0 exactly when the user has no operation. Otherwise it is the 1-based place of the first matching entry, and it never exceeds the number of senders. |
| UserRank.RankedEntryIsUser | frontend/hooks/useUserProfile.ts:245-306 | Suppose every call of the user to the contract carries one spelling of the address, and the lookup address equals that spelling up to case. Then the entry at the rank has that spelling as its address, with the user's operation count and net contribution. |
| UserRank.RankAgreesWithProfile | frontend/hooks/useUserProfile.ts:115-306 | Under the same condition, the entry at the user's rank and the user's profile report the same operations and net contribution. |
| StableSort.Sort | frontend/hooks/useUserProfile.ts:293-298 | The sort returns a descending permutation of its input that keeps tied elements in input order. |
| StableSort.SortIsUnique | frontend/hooks/useUserProfile.ts:293-298 | Any descending permutation that keeps ties in input order is the sort's result, so the board is fully determined. |
| StableSort.SortKeepsOrder | frontend/hooks/useUserProfile.ts:293-298 | An order the input already respects among equal keys is still respected after sorting. |
| Achievements.CalculateAchievements | frontend/hooks/useUserProfile.ts:311-401 | A badge is unlocked exactly when its threshold holds: 1, 10, 50 or 100 operations; incrementer or decrementer (more of one than the other, at least 5); balanced (20 operations, net within 5); high impact (net at least 50 either way). Badges come in table order, each at most once. Only "First Steps" carries a date, the first activity. |
| Achievements.BadgeRelations | frontend/hooks/useUserProfile.ts:322-398 | The milestones nest. Incrementer and decrementer exclude each other, as do balanced and high impact. With net equal to increments minus decrements, incrementer means a positive net and decrementer a negative one. |
| Achievements.AtMostSix | frontend/hooks/useUserProfile.ts:311-401 | At most six of the eight badges are ever unlocked together. |
| Achievements.SixBadges | frontend/hooks/useUserProfile.ts:311-401 | The bound of six is reached: 100 operations, mostly increments (at least 5), and a net of at least 50. |
| Achievements.ProfileFirstSteps | frontend/hooks/useUserProfile.ts:322-330 | On a computed profile, "First Steps" is unlocked exactly when the user has an operation. It is undated exactly when none of those operations has a known function name. |
| Helpers.TruncateAddressShape | frontend/utils/helpers.ts:23-35 | An empty address gives "", and one no longer than the two lengths comes back unchanged. A longer one gives its first `prefixLength` and last `suffixLength` characters around "...", three longer than the kept parts. |
| Helpers.DefaultTruncation | frontend/utils/helpers.ts:23-35 | With the default lengths of 4 and 4, an address longer than eight characters shows its first four and last four characters around "...", eleven characters in all. |
| Helpers.ZeroSuffixKeepsAddress | frontend/utils/helpers.ts:32 | A suffix length of 0 is `slice(-0)`, the whole address, so the result is longer than the address. |
| Helpers.IsValidStacksAddress | frontend/utils/helpers.ts:182-187 | An address is valid exactly when it starts with "SP" or "ST", has 40 to 42 characters, and every character after the prefix is a digit or an upper-case letter. |
| Helpers.ValidAddressNetwork | frontend/utils/helpers.ts:194-196 | A valid address is main net exactly when its second letter is P, and test net exactly when it is T. |
| Helpers.OtherPrefixIsTestnet | frontend/utils/helpers.ts:194-196 | Valid or not, a string is taken for main net exactly when it starts with "SP", and for test net otherwise. |
| Helpers.RelativeTimeBuckets | frontend/utils/helpers.ts:70-95 | Under a minute, including any time in the future, reads "just now". Otherwise the count is the elapsed time in whole units of the largest unit that fits: minutes below an hour, hours below a day, days below 30 days, then 30-day months. |
| Helpers.OlderReadsOlder | frontend/utils/helpers.ts:70-95 | An older date never reads as more recent than a newer one at the same moment. |
| Helpers.RenderReadsBack | frontend/utils/helpers.ts:80-94 | The number at the start of "n units ago" reads back as the count. |
| Helpers.SingularIffOne | frontend/utils/helpers.ts:80-94 | The unit lacks its plural "s" exactly when the count is 1. |
| Helpers.KnownErrorMessage | frontend/utils/constants.ts:10-16 | Codes 100 to 104 give their table messages. |
| Helpers.UnknownErrorMessage | frontend/utils/helpers.ts:118-120 | Any other code gives "Unknown error (code: …)", from which the code reads back. |
| IncrementByModal.ValidateNumeral | frontend/components/Counter/IncrementByModal.tsx:37-57 | A digit string is accepted exactly when its value is in 1..999999, and then with that value. The value 0 is "not positive", a larger value is "too large", and the empty text is "not a valid number". |
| IncrementByModal.NonNumeralIgnored | frontend/components/Counter/IncrementByModal.tsx:59-66 | Typing text that is not all digits changes nothing. |
| IncrementByModal.StaysConsistent | frontend/components/Counter/IncrementByModal.tsx:28-97 | Opening, typing, the button, Enter and settling keep the state consistent: the amount is empty with no error, or digits with the error its validation leaves. |
| IncrementByModal.GuardMeansValid | frontend/components/Counter/IncrementByModal.tsx:75-97 | In a consistent state, "an amount and no error" means the amount validates. Confirming then submits its value, which lies in 1..999999. |
| IncrementByModal.EnterNeedsValidAmount | frontend/components/Counter/IncrementByModal.tsx:93-97 | Enter submits only a valid amount. |
| IncrementByModal.EnterAgreesWithButton | frontend/components/Counter/IncrementByModal.tsx:176 | With the button's guard, Enter submits exactly when the button is enabled. |
| IncrementByModal.DoubleSubmit | frontend/components/Counter/IncrementByModal.tsx:93-97 | As written, typing "5" and pressing Enter twice before the first confirmation settles submits 5 twice. |
| IncrementByModal.NoDoubleSubmit | frontend/components/Counter/IncrementByModal.tsx:176 | With the guard, Enter while processing submits nothing and changes nothing. |
| ActivityTracker.SaveShape | frontend/lib/activityTracker.ts:41-66 | After a save whose `setItem` succeeds, the log holds the new activity first, then the newest old entries in order, min(old + 1, 20) in all. |
| ActivityTracker.SavedActivityFirst | frontend/lib/activityTracker.ts:41-60 | After a save, the head of the log is an activity with exactly the given type, amount and transaction id, the drawn id and the current time. |
| ActivityTracker.NoStorageNoChange | frontend/lib/activityTracker.ts:41-80 | Without a window, saving and clearing change nothing and the log loads empty. When storage refuses `setItem`, a save changes nothing. When it refuses `removeItem`, a clear changes nothing. |
| ActivityTracker.UnreadableIsEmpty | frontend/lib/activityTracker.ts:19-36 | A missing or unparsable slot loads as the empty log. |
| ActivityTracker.ClearEmpties | frontend/lib/activityTracker.ts:71-80 | After clearing, the log loads empty, and clearing again changes nothing. |
| ActivityTracker.KeepsMostRecent | frontend/lib/activityTracker.ts:41-66 | Any run of saves leaves the saved activities newest first, in front of the old log, cut to the 20 most recent. |
| ActivityTracker.TwentyOneSaves | frontend/lib/activityTracker.ts:14-66 | After 21 saves into an empty log, the first activity is gone and the other 20 stand newest first. |

## Left out

- Fetching transactions from the indexing API, its `limit`, its errors and the React hook around the three calculations. The list is an input.
- `getContractInfo` and `getStacksApiUrl`, which read the environment. The contract id is a parameter, and a missing configuration (which throws) is not modelled.
- `new Date()`, `Math.random()` and the 2^53 limit of JavaScript numbers. The clock and the random id are parameters, and numbers are unbounded integers.
- `toLowerCase` beyond ASCII. The model folds A-Z only. Senders are ASCII addresses, but the looked-up address comes from the profile URL. A non-ASCII lookup string, such as one with the Kelvin sign U+212A that JavaScript lowers to 'k', may match a sender in the source and not in the model.
- `parseInt` radixes other than "none" and 10, since the code uses no others.
- `JSON.stringify`/`JSON.parse` of the activity list. A parsable list is modelled as the list itself, with timestamps in milliseconds. Text that does not parse is the `Unreadable` slot.
- The asynchronous part of the dialog. `onConfirm` and `onClose` are outside the model. `Settle` is the `finally` that ends processing, whether the call succeeded or failed.
- Icons, class names, the `toLocaleString` preview and everything else rendered.
- The other helpers in `frontend/utils/helpers.ts` (`formatNumber`, `formatStx`, `stxToMicroStx`, `formatDateTime`, `copyToClipboard`, `debounce`, `sleep` and the rest). They are formatting, timers or browser calls outside the core.
- The badges' icons. Names, ids and descriptions are kept as `Badge` members.
- UserRank.RankedEntryIsUser: states that the entry at the rank holds the user's totals only under a condition. Every successful call of the user to the contract must carry one spelling of the address, and that spelling must equal the lookup address up to case, as a lower-cased profile URL does. The map is keyed by the exact address while `findIndex` compares up to case. So with two spellings, the first matching entry holds only one spelling's totals. The same holds for UserRank.RankAgreesWithProfile.
- Helpers.TruncateAddressShape: lengths and `slice` offsets count characters (Unicode scalar values), while JavaScript's `length` and `slice` count UTF-16 code units. The model therefore matches `truncateAddress` only on strings inside the Basic Multilingual Plane, which include every Stacks address. On text with characters outside it, such as an emoji in the profile URL parameter, the source may truncate where the model does not, or split a surrogate pair, which a Dafny string cannot hold. The same holds for Helpers.DefaultTruncation and Helpers.ZeroSuffixKeepsAddress. `isValidStacksAddress`, `getNetworkFromAddress`, `startsWith` and `parseInt` give the same answer under either way of counting.
- UserStats.CalculateUserStats: the clock is one reading `now` for the whole calculation, while the source calls `new Date()` once for each transaction without a block time. Such records all get the same time and keep their input order under the stable sort. An advancing clock could give later ones later times and so put them first.

## Findings

| source | as written | input that shows it | evidently intended | confidence | as-written member | corrected member |
|---|---|---|---|---|---|---|
| frontend/components/Counter/IncrementByModal.tsx:93-97 | `handleKeyDown` confirms on Enter whenever there is an amount and no error. It does not check `isProcessing`, which the confirm button checks (line 176), and the input field stays enabled while processing. Modelled as `KeyDownAsWritten`; the corrected `KeyDown` adds the button's guard. | Type "5", press Enter, then press Enter again before `onConfirm` settles: 5 is submitted twice. | Enter follows the button's condition and does nothing while a confirmation is processing. | medium; not executed | IncrementByModal.DoubleSubmit | IncrementByModal.NoDoubleSubmit |
