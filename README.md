# Last bank operations, in Dafny

This project models `main.py` of the account_transaction program. The
program reads a list of bank operations, keeps those whose state is
`"EXECUTED"`, sorts them newest first and prints the first `n` of them. Each
printed operation is a block of lines:

- the date as `DD.MM.YYYY` followed by the description;
- an optional route line `from -> to`, where each side is masked
  (`mask_card_number` or `mask_account_number`);
- the amount and the currency name;
- an empty line.

The model is split into modules that follow the parts of `main.py`:

| file | module | what it holds |
|---|---|---|
| `wrappers.dfy` | `Wrappers` | `Option` and `Result` |
| `py_str.dfy` | `PyStr` | the Python string operations the code uses: clamped slices, `str.split()` without a separator (over Python's whitespace characters), `str.join` |
| `dates.dfy` | `Dates` | a naive `datetime` as a record of its fields; Python's field-by-field `<`; `strftime("%d.%m.%Y")` |
| `operations.dfy` | `Operations` | the `Currency`, `OperationAmount` and `Operation` records; the exceptions the code can raise; the `{}` → `None` rule of `operation_from_dict` |
| `masking.dfy` | `Masking` | `mask_card_number` and `mask_account_number` |
| `formatting.dfy` | `Formatting` | one turn of the loop of `print_last_operations`: splitting the sides, masking them, and the header, route and amount lines |
| `selection.dfy` | `Selection` | the filter on `"EXECUTED"`, the stable newest-first sort (a specification function and an in-place insertion sort on an array proved equal to it) and the `[:n]` slice |
| `report.dfy` | `Report` | `print_last_operations` as a whole: a method that selects, sorts and loops, proved equal to a specification of what is printed |

Modelling choices:

- **Output.** It is the sequence of arguments passed to `print`. `Report.Stdout` turns that sequence into the text written, adding one newline per call.
- **Crashes are outcomes, not preconditions.** The code raises `AttributeError` at main.py:66 when `from_account` is present but `to_account` is `None`. It raises `IndexError` at main.py:73-74 when `from_account` is truthy and a truthy side splits into fewer than two tokens. When `from_account` is falsy, both sides are read from the two-character placeholder `"  "` and nothing is raised, whatever `to_account` holds (`Formatting.WellFormed` gives the exact condition). Python has already printed the blocks before the failing one, so `Report.Outcome` records both the blocks printed and the exception that ended the loop.
- **Negative `n`.** `executed_operations[:n]` with a negative `n` drops the last `-n` operations, as Python does.
- **Dates.** A date is ordered by a mixed-radix ordinal. `Dates.BeforeIsLexicographic` proves that ordinal order equals Python's field-by-field comparison.

The code and its test disagree on the to sides, and the model follows the code. tests.py:52 and tests.py:55 expect `"Счет **1234"` and `"Счет **9638"` to print as `Счет **1234` and `Счет **9638`. Both strings are eleven characters long, so main.py:74 takes the card branch and prints `Счет **12 34** **** 1234` and `Счет **96 38** **** 9638` (`Formatting.MasterCardToSideTakesCardBranch` and `Formatting.AccountSideTakesCardBranch`).

## Model

| member | source | states |
|---|---|---|
| PyStr.Prefix | main.py:46 | `s[:k]` has min(k, len s) characters and is the start of `s` |
| PyStr.Slice | main.py:46 | `s[i:j]` is the part of `s` between the two bounds, each clamped to the length |
| PyStr.Suffix | main.py:46 | `s[-k:]` has min(k, len s) characters and is the end of `s` |
| PyStr.Split | main.py:63 | every token `str.split()` returns is non-empty and free of whitespace |
| PyStr.SplitJoin | main.py:65 | splitting words joined by single spaces gives back exactly those words |
| PyStr.SplitKeepsCharacters | main.py:63 | concatenated, the tokens are exactly the non-whitespace characters of the side, in order |
| PyStr.SplitBlank | main.py:63 | a side made only of whitespace, the empty string included, has no tokens |
| PyStr.SplitAtSpace | main.py:63 | a whitespace character separates tokens and belongs to none: the split of `a + c + b` is the split of `a` followed by the split of `b`, so a run of whitespace acts as one separator |
| PyStr.JoinEnds | main.py:65 | `sep.join(words)` of one or more words starts with the first word and ends with the last |
| Dates.BeforeIsLexicographic | main.py:53 | the order the sort uses on dates is Python's field-by-field comparison, year first |
| Dates.OrdinalInjective | main.py:53 | two dates at the same point in time are the same date |
| Dates.BeforeTrichotomy | main.py:53 | `<` on dates is irreflexive and asymmetric, and any two distinct dates are ordered |
| Dates.FormatDate | main.py:57 | `%d.%m.%Y` is ten characters: two digits, a dot, two digits, a dot, four digits |
| Dates.FormatDateRoundTrip | main.py:57 | day, month and year can be read back from the formatted date |
| Dates.FormatDateSameDay | main.py:57 | two dates print alike exactly when they fall on the same day |
| Operations.OperationFromDict | main.py:29-43 | `{}` gives `None` and nothing else does; a missing top-level key raises `KeyError`; otherwise the fields are those read, and an absent `from` or `to` gives `None` |
| Masking.MaskCardNumber | main.py:45-46 | for six characters or more: 19 characters, namely the first four, a space, characters 5-6, `** **** ` and the last four |
| Masking.MaskAccountNumber | main.py:48-49 | `**` and the last four characters (all of them when there are fewer than four) |
| Masking.MaskCardNumberHidesMiddle | main.py:45-46 | two card numbers get the same mask exactly when their first six and last four characters agree |
| Masking.MaskAccountNumberHidesAllButLastFour | main.py:48-49 | two account numbers get the same mask exactly when their last four characters agree |
| Masking.MaskCardNumberExample1 | tests.py:41 | `"1234567890123456"` is masked as `1234 56** **** 3456` |
| Masking.MaskCardNumberExample2 | tests.py:42 | `"6543210987654321"` is masked as `6543 21** **** 4321` |
| Masking.MaskAccountNumberExample1 | tests.py:45 | `"1234567890"` is masked as `**7890` |
| Masking.MaskAccountNumberExample2 | tests.py:46 | `"9876543210"` is masked as `**3210` |
| Formatting.SideParts | main.py:63-68 | a side gives min(number of tokens, 2) parts; with two parts, the second is the last token |
| Formatting.SideText | main.py:73-74 | a side raises `IndexError` exactly when it is truthy and has fewer than two parts; a falsy side displays as the empty string |
| Formatting.Route | main.py:78-81 | a second line is printed exactly when the to text is non-empty; it ends with the to text, and starts with the from text when that is non-empty |
| Formatting.SidePartsAreLabelAndIdentifier | main.py:63-68 | a side yields two parts exactly when it has at least two tokens; the parts are then all tokens but the last joined by spaces, and the last token |
| Formatting.SideTextNonEmpty | main.py:73-74 | a present, non-empty side never displays as the empty string |
| Formatting.SideTextIsDisplaySide | main.py:63-74 | a present side of two or more tokens shows label and masked card number when it is longer than six characters, else the masked account number |
| Formatting.FormatBlockSucceeds | main.py:62-74 | formatting succeeds exactly on well-formed operations; it raises `AttributeError` exactly when `from_account` is truthy and `to_account` is `None`, and `IndexError` in every other failing case |
| Formatting.RouteExactlyWhenToPresent | main.py:78-81 | a route line is printed exactly when `to_account` is truthy |
| Formatting.RouteWithBothSides | main.py:73-79 | with both sides present the route line is `from -> to`, each side displayed as above |
| Formatting.RouteDroppedWithoutTo | main.py:74-81 | with `from_account` present and `to_account == ""` no route line is printed, though the from side was formatted |
| Formatting.RouteFromPlaceholder | main.py:69-81 | without `from_account` the to side comes from the two-space placeholder: no line, `    ** ****  ` or `** `, chosen by the length of `to_account` only |
| Formatting.HeaderLine | main.py:57-82 | the header is the `DD.MM.YYYY` text of the date (from which day, month and year read back), a space and the description; it and the amount line do not depend on the sides |
| Formatting.CardSide | main.py:63-74 | a side of two or more words joined by single spaces, longer than six characters, shows its leading words and its masked last word (the general case is `SideTextIsDisplaySide`) |
| Formatting.VisaPlatinumSide | main.py:73 | `"Visa Platinum 700079******6361"` shows as `Visa Platinum 7000 79** **** 6361` |
| Formatting.AccountSideTakesCardBranch | main.py:74 | `"Счет **9638"` shows as `Счет **96 38** **** 9638`, not as the `Счет **9638` of tests.py:55 |
| Formatting.MasterCardToSideTakesCardBranch | main.py:74 | `"Счет **1234"` shows as `Счет **12 34** **** 1234`, not as the `Счет **1234` of tests.py:52 |
| Selection.Executed | main.py:52 | an operation is kept exactly when it is present and its state is `"EXECUTED"` |
| Selection.ExecutedAppend | main.py:52 | filtering a concatenation filters each part |
| Selection.ExecutedSkips | main.py:52 | an entry that is `None` or not executed is dropped wherever it stands in the list |
| Selection.ExecutedIdempotent | main.py:52 | filtering an already filtered list changes nothing |
| Selection.ExecutedEmpty | main.py:52 | a list without executed operations gives nothing |
| Selection.InsertionPoint | main.py:53 | an operation is inserted after every operation not older than it and before the first older one |
| Selection.SortByDatePermutation | main.py:53 | the sort only reorders: the result is a permutation of its input |
| Selection.SortByDateSorted | main.py:53 | the result is newest first: no operation is older than one after it |
| Selection.SortByDateStable | main.py:53 | the sort is stable: the operations of any one date keep their input order |
| Selection.SortByDateSpec | main.py:53 | the three together, for every date |
| Selection.InsertSorted | main.py:53 | inserting into a newest-first list keeps it newest first |
| Selection.DatedOnInsert | main.py:53 | insertion puts an operation after those of its date already in the list |
| Selection.SortNewestFirst | main.py:53 | the in-place sort of the array leaves in it the stable newest-first order of its old contents |
| Selection.InsertLast | main.py:53 | one pass of the sort moves element i into place among the sorted elements before it and leaves the rest |
| Selection.ShiftOlder | main.py:53 | the inner loop moves the operations older than the one inserted one place right and returns the gap |
| Selection.Take | main.py:55 | `s[:n]` keeps min(n, len s) elements for `n >= 0` and drops the last `-n` for negative `n`; it is always a prefix |
| Selection.LastOperationsCount | main.py:55 | for `n >= 0`, exactly min(n, number executed) operations are visited |
| Selection.LastOperationsExecuted | main.py:52-55 | every visited operation is an executed operation of the input, and they come newest first |
| Selection.LastOperationsNewest | main.py:52-55 | the visited operations are among the executed ones, and none left out is newer than one visited |
| Report.PrintLastOperations | main.py:51-82 | the method (with `n` defaulting to 5) prints exactly the blocks `Report.Report` gives and raises exactly its exception |
| Report.SelectLast | main.py:52-55 | the list the loop walks is the newest `n` of the executed operations |
| Report.PrintBlocks | main.py:55-82 | the loop prints the blocks of the operations up to the first that raises, and ends with that exception |
| Report.RenderStep | main.py:55-82 | one more turn of the loop adds the next block, or stops with the next exception |
| Report.RenderStops | main.py:55 | once an exception has been raised, later operations change nothing |
| Report.RenderInOrder | main.py:55-82 | block i is the formatting of operation i; either every operation is printed, or the loop stops at the first one that raises and reports its exception |
| Report.RenderCompletes | main.py:55-74 | the loop finishes without an exception exactly when every visited operation is well formed |
| Report.ReportBlocks | main.py:55 | with `n >= 0` and no exception, one block per visited operation, min(n, number executed) in all, newest first |
| Report.ReportShowsExecutedOnly | main.py:52-82 | every printed block formats an executed operation of the input |
| Report.StdoutAppend | main.py:77-82 | the text of two runs of print calls is the text of each, one after the other |
| Report.StdoutEndsWithBlankLine | main.py:82 | the output of one or more blocks ends with an empty line |
| Report.BlockStdout | main.py:77-82 | a block prints the header line, the route line if any, the amount line and an empty line |
| Report.PrintsStdout | main.py:55-82 | the output is the text of each printed block, in order |
| Report.ReportNothingExecuted | main.py:52-55 | an input without executed operations, the empty list included, prints nothing and raises nothing |
| Report.ReportIgnoresOthers | main.py:52 | an entry that is `None` or not executed, wherever it stands, changes neither the output nor the exception |
| Report.TestDataSelection | tests.py:10-38 | of the three test operations, the two executed ones are visited, the 2019 one first, and the cancelled one is not |

## Left out

- The file read and `json.load` at main.py:84-89, and the call at main.py:89: file I/O and a foreign decoder. The input is the already built list, with `None` for `{}` records.
- The nested lookups and the `float(...)` coercion of `operation_from_dict` (main.py:32-33, 36-42): `OperationFromDict` takes the set of top-level keys and the record the lookups would build. It models the `{}` rule, a missing top-level key (`KeyError`) and the `dict.get` of `from` and `to`. It does not model a missing nested key or a malformed amount.
- `datetime.fromisoformat` (main.py:34): a date is already a record of its fields. Timezone-aware datetimes are not modelled.
- Dates: the day is bounded by 31 for every month, not by the true length of the month. The year runs from 1000 to 9999, where `%Y` gives four digits.
- The amount is the text Python prints for the float (`OperationAmount.amount`). Floating point and `repr` are not modelled.
- `id` and `currency.code` are carried but never printed.
- `print` itself: the output is the sequence of its arguments, and `Report.Stdout` gives the text.
