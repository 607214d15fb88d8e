# Wallet ledger in Dafny

A model of the in-memory wallet service of the Go package `pkg/wallet`
(`service.go`) and its record types (`pkg/types/types.go`), with proofs of
what the service does.

The service keeps an account-id counter and three slices in insertion order:
accounts, payments and favorites. Its operations are:

- register an account;
- deposit to an account and pay from it;
- look up an account, payment or favorite by id, where the first match wins;
- reject a payment, repeat it, save it as a favorite, and pay from a favorite;
- sum the payments, or filter them, with a shard schedule that splits the slice among goroutines;
- export one account's history to numbered files;
- dump the ledger to three `;`-separated text files and merge such a dump back by id.

The project has these modules:

| module | file | what it holds |
|---|---|---|
| `Types` | `types.dfy` | money, statuses, the three record types, the Progress record and the error values |
| `Decimal` | `decimal.dfy` | `strconv.Itoa`, and `strconv.Atoi` on a 64-bit platform as the left-to-right scan of `strconv.ParseUint`, which reports a range error at the digit that takes the value past 2^64 - 1 even when a non-digit follows; their round trip over the 64-bit range |
| `Text` | `text.dfy` | `strings.Split` on one separator, records joined by that separator, and the file read line by line with `ReadString('\n')` |
| `Ledger` | `ledger.dfy` | the service state as a value, each operation as a state transition with its error cases, the invariant every operation keeps, and lemmas that relate operations |
| `Shards` | `shards.dfy` | the goroutine loop of `SumPayments` and the filters as a pure schedule of ranges, with the per-goroutine sum and filter folds |
| `History` | `history.dfy` | `ExportAccountHistory`, the chunk and file-name schedule of `HistoryToFiles`, and the record text of `exportPayments` |
| `Dump` | `dump.dfy` | the line formats of `Export`, parsing in the order `Import` reads the fields, the merge by id, and the round trips |
| `Wallet` | `wallet.dfy` | class `Service`: the Go struct with its four fields, and every method as imperative code proved against the functions above |

File contents are modelled as a map from path to text. Inside the service,
the linear searches `FindAccountIndex`, `FindPaymentIndex` and
`FindFavoriteIndex` give an index into the sequence, and the Go code's write
through a found `*types.Account` (or payment) becomes an update of the
element at that index. The records the public methods return are values:
`FindAccountByID`, `RegisterAccount`, `Pay` and the others return a copy of
the record as it is at the time of the call (see "## Left out").

## Where the code departs from the intended behaviour

The model does what `service.go` does, also where that is evidently not
what the wallet is meant to do:

- A phone number is meant to be required to register; `RegisterAccount` accepts any phone, the empty one included.
- A payment is meant to be refunded once; a second `Reject` of the same payment refunds its amount again. `Ledger.RejectTwiceRefundsTwice` proves this.
- Paying from a favorite is meant to be an ordinary payment with the favorite's fields; `PayFromFavorite` does not go through `Pay`, so it checks no balance and moves none.
- After an import, new accounts are meant to get ids above every id on file; `Import` sets the counter to the id of the last account it appends, not to the largest id. `Dump.ImportedCounterRepeatsIds` shows a later registration reusing an imported id.
- A sharded sum or filter is meant to equal the sequential one. With two or more goroutines, the shard loop spawns `[count, len)` at the last index. When `k = len / goroutines` is positive and divides `len - 1`, it also spawns `[len-1-k, len-1)` there. That range is then summed, or filtered, twice.
- A file's last line may lack its `'\n'`; on import that line is dropped, because `ReadString` returns it together with `io.EOF`.
- `ExportAccountHistory` of an account on file is meant to give the account's payments, possibly none; it fails with "payments not found" when the ledger has no payments at all, for any account on file. An unknown account is refused first with "account not found".

## Model

| member | source | states |
|---|---|---|
| Types.StatusOf | pkg/types/types.go:9-17 | reading a status text gives back that same text; only "OK", "FAIL" and "INPROGRESS" give the predefined statuses, and any other text is kept as it is |
| Types.StatusTextInjective | pkg/types/types.go:13-17 | the three predefined texts are distinct and none is the text of another status, so the text determines the status and reads back as it |
| Decimal.Atoi | pkg/wallet/service.go:387-394 | a successful parse is in the 64-bit range; a failure is either a syntax error or a range error |
| Decimal.AtoiLeadingRun | pkg/wallet/service.go:387-394 | the parse of the ID and balance fields for every text, stated on the leading run of digits after an optional sign: no digit text is a syntax error; a run above 2^64 - 1 is a range error even when a non-digit follows it; otherwise a non-digit is a syntax error; a numeral is its signed value when that fits in 64 bits and a range error otherwise |
| Decimal.ScanFromRun | pkg/wallet/service.go:387-394 | the digit-by-digit scan, started anywhere inside the leading run, ends in a range error exactly when the run's value exceeds 2^64 - 1, else in a syntax error when a non-digit follows, else in the run's value |
| Decimal.AtoiErrorKinds | pkg/wallet/service.go:387-394 | `99999999999999999999x` is a range error and `1x` a syntax error |
| Decimal.AtoiItoa | pkg/wallet/service.go:316 | parsing the decimal text of any 64-bit value gives the value back |
| Decimal.ItoaInjective | pkg/wallet/service.go:339 | different 64-bit values have different decimal texts |
| Text.Split | pkg/wallet/service.go:386 | there is at least one piece and no piece contains the separator |
| Text.SplitJoin | pkg/wallet/service.go:386 | splitting fields joined by the separator gives the fields back when none of them holds it |
| Text.Lines | pkg/wallet/service.go:378-385 | no line read holds a '\n' |
| Text.LinesUnlines | pkg/wallet/service.go:378-385 | reading back records written one per line gives exactly those records, whatever unterminated text follows |
| Ledger.AccountIndex | pkg/wallet/service.go:113-127 | the index found holds the id and no earlier account does; there is no index exactly when no account has the id |
| Ledger.PaymentIndex | pkg/wallet/service.go:130-144 | the first payment with the id, or none exactly when no payment has it |
| Ledger.FavoriteIndex | pkg/wallet/service.go:147-161 | the first favorite with the id, or none exactly when no favorite has it |
| Ledger.RegisterAccount | pkg/wallet/service.go:36-52 | fails with PhoneRegistered, changing nothing, exactly when the phone is on file; otherwise the counter goes up by one and an account with that id, the phone and balance 0 is appended |
| Ledger.Deposit | pkg/wallet/service.go:55-74 | a non-positive amount is refused first, then an unknown account, both changing nothing; it succeeds exactly for a positive amount to an account on file, and then only that account's balance grows by the amount |
| Ledger.Pay | pkg/wallet/service.go:77-110 | a non-positive amount, an unknown account and a balance below the amount are refused in that order, changing nothing; it succeeds exactly for a positive amount from an account on file holding at least the amount, and then only that balance drops, never below 0, and one INPROGRESS payment is appended |
| Ledger.Reject | pkg/wallet/service.go:164-179 | an unknown payment is refused with no change; otherwise only that payment becomes FAIL and only its account gets the amount back |
| Ledger.Repeat | pkg/wallet/service.go:182-194 | an unknown payment is refused; otherwise the result is exactly Pay with the original's account, amount and category, and the original stays |
| Ledger.FavoritePayment | pkg/wallet/service.go:197-214 | an unknown payment is refused; otherwise a favorite copying its account, amount and category under the name is appended, and no balance or payment changes |
| Ledger.PayFromFavorite | pkg/wallet/service.go:217-233 | an unknown favorite is refused; otherwise an INPROGRESS payment with the favorite's fields is appended, and no balance is checked or changed |
| Ledger.EmptyValid | pkg/wallet/service.go:28-33 | the zero-value service satisfies the invariant: ids positive, increasing and at most the counter, phones distinct, balances not negative, payments and favorites positive and owned by an account |
| Ledger.RegisterPreservesValid | pkg/wallet/service.go:36-52 | RegisterAccount keeps the invariant |
| Ledger.DepositPreservesValid | pkg/wallet/service.go:55-74 | Deposit keeps the invariant |
| Ledger.PayPreservesValid | pkg/wallet/service.go:77-110 | Pay keeps the invariant, balances included |
| Ledger.RejectPreservesValid | pkg/wallet/service.go:164-179 | under the invariant Reject is defined and keeps the invariant |
| Ledger.FavoritePreservesValid | pkg/wallet/service.go:197-214 | FavoritePayment keeps the invariant |
| Ledger.PayFromFavoritePreservesValid | pkg/wallet/service.go:217-233 | PayFromFavorite keeps the invariant |
| Ledger.ValidRejectDefined | pkg/wallet/service.go:172-177 | under the invariant, the account of every payment is on file, so the lookup at line 172 cannot fail |
| Ledger.RegisterThenFind | pkg/wallet/service.go:43-49 | under the invariant, the new account is the first one found with its id, and it is last |
| Ledger.PayThenReject | pkg/wallet/service.go:164-179 | rejecting a payment just made with a fresh id succeeds, restores every account and marks that payment FAIL |
| Ledger.RejectTwiceRefundsTwice | pkg/wallet/service.go:164-179 | a second Reject of the same payment succeeds and the account has gained twice the amount |
| Ledger.OkNeverProduced | pkg/wallet/service.go:77-233 | no operation produces an OK status: a ledger without OK payments keeps having none |
| Shards.Quota | pkg/wallet/service.go:619 | Go's `len / goroutines`, truncated toward zero: for positive goroutines the largest k with `k * goroutines <= len`; for negative ones the non-positive k with `k * goroutines <= len < k * goroutines - goroutines` |
| Shards.FlattenSchedule | pkg/wallet/service.go:619-650 | the ranges of a run cover every payment once, in order, followed once more by the duplicated range |
| Shards.DoubleCountedWhenDivides | pkg/wallet/service.go:619-650 | with two or more goroutines, a range is spawned twice exactly when k is positive and divides len - 1 |
| Shards.ScheduleExamples | pkg/wallet/service.go:619-650 | 12 payments on 2 goroutines give [0,6) and [6,12); 3 payments and 7 payments on 2 goroutines each spawn one range twice |
| Shards.SumOfSchedule | pkg/wallet/service.go:616-652 | the sums of the ranges add up to the total plus the duplicated range's total |
| Shards.MatchingCount | pkg/wallet/service.go:525-529 | the filter keeps every accepted payment as often as it occurs, and drops every other one |
| Shards.ConcatAllPermutation | pkg/wallet/service.go:687-689 | buffers appended in any order hold the same multiset of payments |
| Shards.FilterAnyInterleaving | pkg/wallet/service.go:671-711 | whatever order the goroutines take the mutex in, the result is up to order the sequential result plus the duplicated range's matches, and a permutation of the sequential result when no range repeats |
| History.AccountHistory | pkg/wallet/service.go:516-532 | an unknown account is refused first; a ledger with no payments gives PaymentsNotFound; otherwise the result is the account's payments in insertion order |
| History.AccountHistoryExact | pkg/wallet/service.go:524-531 | every payment in the history belongs to the account; each of the account's payments appears as often as in the ledger; the order follows any split of the ledger |
| History.HistoryTextLines | pkg/wallet/service.go:567-575 | the text written is one line per record: the payments.dump line with one more empty field |
| History.RecordLineHead | pkg/wallet/service.go:569-574 | a history record read by the payments.dump parser gives back the payment's id, account, amount, category and status |
| History.HistoryReadBack | pkg/wallet/service.go:564-575 | importing a history file as payments.dump appends its payments in order, when their ids are new and distinct |
| History.Chunks | pkg/wallet/service.go:545-559 | the chunks concatenate to the input and none is empty; all but the last hold exactly `records` payments; a single chunk when records is not positive |
| History.HistoryPathsDistinct | pkg/wallet/service.go:548-549 | the files HistoryToFiles writes have distinct names |
| History.NumberedPathNotSingle | pkg/wallet/service.go:541-549 | no numbered file is named payments.dump |
| History.HistoryWritten | pkg/wallet/service.go:536-561 | with more payments than `records`, file payments`n`.dump holds the records of the n-th chunk (that no other path changes is stated by Wallet.Service.HistoryToFiles through History.WriteAll) |
| Dump.PathsDistinct | pkg/wallet/service.go:303-349 | the three dump files have different paths |
| Dump.Export | pkg/wallet/service.go:297-371 | each non-empty collection's file holds its lines; every other file, including the dump of an empty collection, is untouched |
| Dump.ParseAccountLine | pkg/wallet/service.go:386-392 | an exported account line with a `;`-free phone parses back to the account |
| Dump.PaymentLineHead | pkg/wallet/service.go:429-441 | an exported payment line yields the payment's id, account, amount, category and status |
| Dump.FavoriteLineHead | pkg/wallet/service.go:476-488 | an exported favorite line yields its id, account, name, amount and category, with the name before the amount |
| Dump.FirstNew | pkg/wallet/service.go:395-404 | the records an import by id appends carry ids that are new and distinct, come from the input, and together with the known ids carry every id of the input |
| Dump.Parsed | pkg/wallet/service.go:378-394 | the values of the lines before the first line that does not parse, which is a failure when there is one |
| Dump.MergeAccountsExact | pkg/wallet/service.go:378-406 | for every input: the accounts on file stay in front, followed in order by the first account of each id not on file among the lines before the first bad line; the result is that line's error, or success without one; the counter ends at the id of the last account appended |
| Dump.MergePaymentsExact | pkg/wallet/service.go:421-453 | for every input: the payments on file stay in front, followed in order by the payments of the first head of each new id before the first bad line, up to the first such head without category or status; that head gives IndexOutOfRange, otherwise the bad line's error or success is the result; counter, accounts and favorites unchanged |
| Dump.MergeFavoritesExact | pkg/wallet/service.go:468-500 | for every input: as for payments, a new favorite needing its category field |
| Dump.ImportExact | pkg/wallet/service.go:374-513 | for every input: the three files are merged in turn as above; the first file whose merge stops gives the error and the files after it change nothing; Import succeeds exactly when no file stops |
| Dump.MergeAccountsNoDuplicate | pkg/wallet/service.go:395-404 | an import never appends an account whose id is already on file |
| Dump.MergeNewAccounts | pkg/wallet/service.go:395-404 | accounts with new, distinct ids are appended exactly, and the counter ends at the last one's id |
| Dump.MergeKnownAccounts | pkg/wallet/service.go:395-404 | accounts whose ids are all on file change nothing |
| Dump.MergeNewPayments | pkg/wallet/service.go:442-452 | payments with new, distinct ids are appended exactly, in order |
| Dump.MergeKnownPayments | pkg/wallet/service.go:442-452 | payments whose ids are all on file change nothing |
| Dump.MergeNewFavorites | pkg/wallet/service.go:489-499 | favorites with new, distinct ids are appended exactly, in order |
| Dump.MergeKnownFavorites | pkg/wallet/service.go:489-499 | favorites whose ids are all on file change nothing |
| Dump.ExportedAccounts | pkg/wallet/service.go:315-321 | the accounts file reads back as one line per account, each parsing to its account |
| Dump.ExportedPayments | pkg/wallet/service.go:338-344 | the payments file reads back as one line per payment, each yielding its payment |
| Dump.ExportedFavorites | pkg/wallet/service.go:361-367 | the favorites file reads back as one line per favorite, each yielding its favorite |
| Dump.ExportImportRoundTrip | pkg/wallet/service.go:297-513 | exporting a ledger of writable records with unique ids and importing the dump into a fresh service gives the same accounts, payments and favorites in order; the counter ends at the last account's id |
| Dump.ReimportUnchanged | pkg/wallet/service.go:297-513 | importing a ledger's own dump back into it succeeds and changes nothing, provided the directory held no older dump of a collection that is now empty |
| Dump.ImportedCounterRepeatsIds | pkg/wallet/service.go:395-404 | after importing ids 3 and 1 the counter is 1, and the second account registered afterwards gets id 3 again |
| Wallet.ExportPayments | pkg/wallet/service.go:564-575 | the loop writes the history text of the payments to the path and nothing else |
| Wallet.WriteLines | pkg/wallet/service.go:315-321 | the write loop produces the records one per line |
| Wallet.SumRange | pkg/wallet/service.go:626-629 | one goroutine adds the amounts of its range |
| Wallet.FilterRange | pkg/wallet/service.go:681-686 | one goroutine keeps the accepted payments of its range, in order |
| Wallet.FilterShard | pkg/wallet/service.go:676-708 | one iteration of the spawning loop emits the buffers of the ranges it spawns and moves the range start as the schedule says |
| Wallet.ShardedFilter | pkg/wallet/service.go:671-711 | the buffers appended in spawn order are the sequential result followed by the duplicated range's matches |
| Wallet.HistoryTurn | pkg/wallet/service.go:548-558 | one iteration of the file loop writes the pending chunk when it is full or at the last index, leaving the rest of the schedule to write |
| Wallet.Service.constructor | pkg/wallet/service.go:28-33 | the zero-value service is the empty ledger |
| Wallet.Service.FindAccountIndex | pkg/wallet/service.go:114-120 | the linear search with break finds the first account with the id |
| Wallet.Service.FindPaymentIndex | pkg/wallet/service.go:131-137 | the linear search finds the first payment with the id |
| Wallet.Service.FindFavoriteIndex | pkg/wallet/service.go:148-154 | the linear search finds the first favorite with the id |
| Wallet.Service.FindAccountByID | pkg/wallet/service.go:113-127 | AccountNotFound exactly when no account has the id; otherwise the first account that has it |
| Wallet.Service.FindPaymentByID | pkg/wallet/service.go:130-144 | PaymentNotFound exactly when no payment has the id; otherwise the first payment that has it |
| Wallet.Service.FindFavoriteByID | pkg/wallet/service.go:147-161 | FavoriteNotFound exactly when no favorite has the id; otherwise the first favorite that has it |
| Wallet.Service.RegisterAccount | pkg/wallet/service.go:36-52 | the new fields and the result are those of Ledger.RegisterAccount |
| Wallet.Service.Deposit | pkg/wallet/service.go:55-74 | the in-place balance update gives the fields and result of Ledger.Deposit |
| Wallet.Service.Pay | pkg/wallet/service.go:77-110 | the in-place update and the append give the fields and result of Ledger.Pay |
| Wallet.Service.Reject | pkg/wallet/service.go:164-179 | the status update and the refund give the fields and result of Ledger.Reject |
| Wallet.Service.Repeat | pkg/wallet/service.go:182-194 | the fields and result of Ledger.Repeat |
| Wallet.Service.FavoritePayment | pkg/wallet/service.go:197-214 | the fields and result of Ledger.FavoritePayment |
| Wallet.Service.PayFromFavorite | pkg/wallet/service.go:217-233 | the fields and result of Ledger.PayFromFavorite |
| Wallet.Service.SumPayments | pkg/wallet/service.go:607-653 | the total of all amounts plus the total of the duplicated range, so exactly the total whenever no range is spawned twice |
| Wallet.Service.ExportAccountHistory | pkg/wallet/service.go:516-532 | the result of History.AccountHistory |
| Wallet.Service.FilterPayments | pkg/wallet/service.go:656-712 | with 0 or 1 goroutines the account history; otherwise fails exactly for an unknown account, and succeeds with the matches plus those of the duplicated range |
| Wallet.Service.FilterPaymentsByFn | pkg/wallet/service.go:715-768 | the accepted payments in order, plus the accepted ones of the duplicated range |
| Wallet.Service.HistoryToFiles | pkg/wallet/service.go:536-561 | the file system after the loop is that of writing History.HistoryFiles one file after another |
| Wallet.Service.Export | pkg/wallet/service.go:297-371 | the file system after the three write loops is Dump.Export |
| Wallet.Service.ImportAccounts | pkg/wallet/service.go:378-406 | the account loop gives the fields and result of Dump.MergeAccounts over the parsed lines, which Dump.MergeAccountsExact states for every input |
| Wallet.Service.ImportPayments | pkg/wallet/service.go:421-453 | the payment loop gives the fields and result of Dump.MergePayments, which Dump.MergePaymentsExact states for every input |
| Wallet.Service.ImportFavorites | pkg/wallet/service.go:468-500 | the favorite loop gives the fields and result of Dump.MergeFavorites, which Dump.MergeFavoritesExact states for every input |
| Wallet.Service.Import | pkg/wallet/service.go:374-513 | the fields and result of Dump.Import, which Dump.ImportExact states for every input |

## Left out

- Ledger.RegisterAccount: the counter is an unbounded integer, so Go's int64 wrap-around of `s.nextAccountID++` is not modelled. It is reachable: importing an account with id 9223372036854775807 sets the counter to it, and the next registration gets id -9223372036854775808 in Go but 2^63 here.
- Wallet.Service.RegisterAccount: does not model the same wrap-around of the counter.
- Ledger.Deposit: balances are unbounded integers, so Go's int64 wrap-around on `Balance += amount` is not modelled.
- Ledger.Reject: the refund is exact and does not wrap around at int64. The function also requires the payment's account to be on file. The Go code tests the wrong error variable after the account lookup, so a missing account would crash on a nil dereference. Ledger.ValidRejectDefined shows that the invariant rules that state out.
- Wallet.Service.Reject: requires the same as Ledger.Reject, for the same reason.
- Wallet.Service.SumPayments: the sum is exact and does not wrap around at int64.
- Goroutines, `sync.WaitGroup` and `sync.Mutex` are not modelled. Each goroutine is a sequential fold, and the buffers are appended in spawn order. Shards.FilterAnyInterleaving covers every other order up to permutation. For the sum the order does not matter.
- File system plumbing is not modelled, because the model keeps only the text each file holds. This covers: `os.MkdirAll` and its panic, `os.Create` and `os.Open` errors other than a missing file, `ReadString` errors other than `io.EOF`, `defer Close`, `log.Print` and `WriteDump`. The file system is a map from path to content. A file that cannot be opened on import reads as no lines.
- Panics on a dump line with too few fields become the error IndexOutOfRange. In Go the program crashes instead; the records merged before that line are kept either way.
- Wallet.Service.FindAccountByID, Wallet.Service.FindPaymentByID, Wallet.Service.FindFavoriteByID, Wallet.Service.RegisterAccount, Wallet.Service.Pay, Wallet.Service.Repeat, Wallet.Service.FavoritePayment and Wallet.Service.PayFromFavorite return a copy of the record. Go returns a `*types.Account`, `*types.Payment` or `*types.Favorite` into the service's slices. A caller holding it sees later Deposit, Pay and Reject updates of that record and can write through it. The model does not capture that aliasing.
- `uuid.New` is not modelled: the new payment or favorite id is a parameter.
- ExportToFile and ImportFromFile are not part of this model. They are the older `|`-separated account format, which Export and Import do not use.
- SumPaymentsWithProgress is not part of this model, because `service.go` does not define it. The Progress record type is declared but nothing produces it.
- The demo programs under `cmd/` are not part of this model, because they hold no logic.
- Wallet.Service.FilterPaymentsByFn: the error result is always nil and is left out.
- The model does not tell a nil slice from an empty one: both are `[]`.
- Import does not keep Ledger.Valid. Duplicate phones, unordered ids and a counter below the largest id can all be imported, and Dump.ImportedCounterRepeatsIds shows the consequence.
