# ABMCY Core: a model of the payment ledger, and what it guarantees

This project models ABMCY Core, a payment aggregator written in Go with a Next.js dashboard, and proves properties of
the model. Five parts are covered.

**The payment ledger** (`fees`, `model`, `table`, `repo`, `ledger`, `invariant`, `steps`, `runs`, `guarantees`,
`serial*`, `refs`, `races`, `handler`, `handler_runs`, `idempotence`, `outcomes`, `filing`, `requests`, `notify`,
`assumptions`). The `payments` table is modelled twice: as a plain list of rows on which each SQL statement is a
function (`Table`), and as a class with the two unique indexes of the schema (`Repo.AppRepo`), which is proved to
refine the list. Every handler is a small program (`Ledger.Proc`): one step is one SQL statement or one gateway call.
A gateway call may never arrive, may succeed, or may succeed and still report an error. `Ledger.Run` is the state
after any sequence of actions: requests arriving, programs taking a step, processes dying, the clock moving, KYC
levels changing, deposits changing status at the gateway and callbacks being sent, duplicated and reordered. Rates
travel with the requests, so replicas with different rates interleave.

`Guarantees`, `Requests` and `Refs` hold for every run. Payouts and refunds are made at most once per name
(`Requests.NameMovesMoneyOnce`), but not exactly once: after a crash between the INSERT and the call they are never
made (`Requests.CrashLosesMoney`). `SerialGuarantees` holds for orderly runs (`Serial.Orderly`): programs on the same
deposit row do not overlap, the idempotence lookup of `Pay` fails only when there is no row, UUIDs and test refs are
new, the gateway never leaves `completed`, and it sends the callbacks of a deposit in order after the request that
created the deposit has returned. Each assumption is there for a reason. `Races` gives two runs that break the
guarantees when requests overlap, and one when a callback comes before the creating request has returned.
`Assumptions` says for the others exactly what goes wrong without them: a lookup that fails for an existing row, a
test ref that is taken, a ref that is not new, a late callback or a gateway that leaves `completed`.

The handlers are also written out statement by statement as methods of `Handler.PaymentHandler`, over the store class.
Each is proved to do exactly what its program does when it runs alone (`Handler.Serve`); `Outcomes` and `Idempotence`
say what that is, whatever the environment answers, `Filing` what the rows are, column by column, and `Notify` what
the merchant is told; and `HandlerRuns.HandlerIsARun` shows that this is a run of the interleaved machine, so all
guarantees apply to it.

**The migration runner** (`migrate`, `migrate_progress`): any number of replicas run it at once, with crashes between
any two statements.

**The dashboard's aggregates** (`stats`, `stats_counts`): four grouped views of one table and the success rates.

**The Markdown renderer** (`inline`, `lines`, `markdown`, `documents`, `separation`, `reading`): the span lexer and
the block loop. A description of the result that mentions neither loop fixes it completely, and says exactly when a
blank line splits a document in two.

**Commission arithmetic and number formatting** (`fees`, `grouping`), with 64-bit wrap-around written out.

Where code and documentation disagree, the model follows the code:

- `INTEGRATION.md:142` promises strict idempotence per `app_ref`. Two overlapping `Pay` requests can both pass
  the lookup and create two gateway deposits, possibly for different amounts (`Races.OverlappingPaysDisagree`), or one
  can refresh the other's row before the other has sent (`Races.RefreshOvertakesFirst`). `Refs.OwnDepositExactly` says
  exactly, for every run, when the deposit a request creates is the one its row names; `Idempotence.PayRepeated` says
  exactly when a repeated request changes nothing.
- The status update is unconditional, so `completed` can be overwritten (`Races.CompletedCanBeOverwritten`);
  `Guarantees.CompletedUndoneExactly` says exactly by which step.
- A link is considered expired 23 hours after the row was created, not after the link was
  (`Idempotence.RefreshHelpsExactly`).
- The comment on the dashboard says that payments never started are excluded; the queries have no such filter.
- The commission formula can miss the tariff when 64-bit arithmetic wraps; `Fees.ComputeExactly` says exactly when.
  On every amount and rate a 32-bit column can hold it does not (`Fees.ComputeIsCommission`).

Dafny guesses an induction hypothesis for lemmas unless told otherwise; every lemma here carries `{:induction false}`
and states its own recursion.

## Model

| member | source | states |
|---|---|---|
| Fees.ComputeExactly | internal/fees/fees.go:33-55 | for every 64-bit amount and rate: the fee is the tariff (50 per started dollar, capped at the amount) if and only if the sum and the product do not wrap, or wrap harmlessly; then fee + net = amount; non-positive amounts are free and non-positive rates fall back |
| Fees.FeeBounds | internal/fees/fees.go:40-48 | an uncapped fee lies in [50·amount/rate, 50·amount/rate + 50) |
| Fees.FeeMonotoneInAmount | internal/fees/fees.go:40-48 | a larger amount never costs less |
| Fees.FeeAntitoneInRate | internal/fees/fees.go:40-48 | a larger rate never costs more |
| Fees.NetZeroExactly | internal/fees/fees.go:45-53 | at a rate of 100 or more the net is zero exactly for amounts up to 50 |
| Fees.NetPositiveThreshold | internal/fees/fees.go:45-53 | 100 is the exact rate from which every amount over 50 keeps a positive net |
| Fees.SplitNeverCheaper | internal/fees/fees.go:33-55 | splitting into n parts of at least 50 never lowers the commission and adds at most 50·(n−1) |
| Fees.CutNeverCheaperExactly | internal/fees/fees.go:33-55 | for parts of any size, cutting an amount in two saves nothing if and only if the smaller part is at least 50, or both are below, or the smaller starts no dollar of its own |
| Grouping.GroupThousands | internal/handler/payment_handler.go:919-936 | the left-to-right loop writes the groups cut from the right, for every integer |
| Grouping.GroupsShape | internal/handler/payment_handler.go:924-934 | the groups spell the digits; the first has 1 to 3, all others 3 |
| Grouping.GroupingRoundTrip | internal/handler/payment_handler.go:919-936 | without its spaces the text is the decimal digits of n, which parse back to n; length d + (d−1)/3 |
| Grouping.SignStandsAlone | internal/handler/payment_handler.go:920-934 | the sign of a negative number stands alone, cut off by a space, exactly when the number of digits is a multiple of three |
| Table.InsertExact | internal/repository/app_repo.go:160-178 | an INSERT adds a row exactly when neither unique index clashes, the row fits its columns and its references exist; ON CONFLICT DO NOTHING answers only for the (app, ref, type) index |
| Table.InsertKeepsUnique | migrations/006_refunds.sql:17-18 | both unique indexes hold after every INSERT |
| Table.FindExact | internal/repository/app_repo.go:208-227 | a lookup under either key of a row finds that row |
| Table.RekeyMovesTheRef | internal/repository/app_repo.go:180-185 | a refresh is refused exactly when another row has the ref; otherwise it frees the old client ref, attaches the new one to the same row and moves no (app, ref, type) key |
| Repo.AppRepo.FindPaymentByAppRefType | internal/repository/app_repo.go:216-221 | the index answers what a scan of all rows would |
| Repo.AppRepo.FindPaymentByAppRef | internal/repository/app_repo.go:208-214 | the same for deposits |
| Repo.AppRepo.FindPaymentByDiarraRef | internal/repository/app_repo.go:223-227 | the ref index answers what a scan would |
| Repo.AppRepo.FindPaymentByID | internal/repository/app_repo.go:243-246 | the row with this id, if any |
| Repo.AppRepo.Insert | internal/repository/app_repo.go:160-178 | the indexes accept, ignore or refuse a row exactly as the list semantics says, and list the new row |
| Repo.AppRepo.UpdatePaymentStatus | internal/repository/app_repo.go:235-241 | the whole new table: status, provider if given, reason; refused outside the five statuses |
| Repo.AppRepo.UpdatePaymentRedirect | internal/repository/app_repo.go:229-233 | the whole new table: only this row's link changes |
| Repo.AppRepo.UpdateDiarraRefAndRedirect | internal/repository/app_repo.go:180-187 | refused when another row has the ref; otherwise the index loses the old key and gains the new one |
| Repo.AppRepo.SetRelayResult | internal/repository/app_repo.go:344-355 | outcome, error and time are replaced and the counter goes up by one |
| Repo.AppRepo.Replay | internal/repository/app_repo.go:160-240 | after any sequence of statements the store holds what the list holds and lookups answer what scans answer |
| Repo.ReplayKeepsRows | migrations/006_refunds.sql:15-18 | no sequence of statements loses, moves or re-identifies a row, and every row is found under both keys |
| Steps.LocalOk | internal/handler/payment_handler.go:96-719 | any single step of any handler keeps the world invariant and hands its claim on a client ref over correctly |
| Runs.RunKeeps | internal/handler/payment_handler.go:96-719 | every reachable state of every interleaving satisfies the invariant |
| Runs.RunExtends | internal/repository/app_repo.go:180-240 | nothing a run has fixed (identity, money, calls made, history) changes later |
| Guarantees.MoneyMovesOutOnce | internal/handler/payment_handler.go:440-520 | in every interleaving at most one payout or refund call per row, on the row's own client ref, a payout carrying exactly its net and recipient |
| Guarantees.PayoutsConserved | internal/handler/payment_handler.go:486-505 | the total sent never exceeds the total debited minus the commissions |
| Guarantees.RefundLinks | internal/handler/payment_handler.go:287-346 | every refund row points to an older deposit of the same app, amount and currency that was completed before the refund row existed |
| Guarantees.DefaultRefundsShareOneRow | internal/handler/payment_handler.go:365-385 | the admin refund and the app's default refund are one row and at most one call |
| Guarantees.MoneyFrozen | internal/repository/app_repo.go:180-240 | identity, money, rate, currency and refund link never change; fee and net are what `Compute` gives at the recorded rate; the status is one of five; payouts send at least 1 |
| Guarantees.CompletedInRun | internal/repository/app_repo.go:235-241 | the recorded set of once-completed rows is exactly the rows completed in some state of the run |
| Guarantees.KYCCeilings | internal/handler/payment_handler.go:126-143 | every row not made by `PayoutForAdmin` is within 1,000,000, and within 200,000 unless its app was verified in some state |
| Guarantees.AdminMadeByAdmin | internal/handler/payment_handler.go:529-536 | only an insert by `PayoutForAdmin` escapes the ceilings |
| Guarantees.LevelsAreSet | internal/repository/app_repo.go:71-76 | no handler and nothing in the surroundings changes an app's KYC level but the admin's decision about that app |
| Guarantees.RelayBookkeeping | internal/handler/payment_handler.go:654-719 | attempts count the recorded outcomes; pending iff none iff no time; error iff failed; skipped iff no callback URL |
| Guarantees.PayoutsNameTheirOperator | internal/repository/app_repo.go:291-302 | every payout row names its operator |
| Guarantees.CompletedUndoneExactly | internal/repository/app_repo.go:235-240 | a step takes a deposit out of `completed` if and only if it is a failing creation giving up or a callback with another status, and re-keys it if and only if a refresh saves a new ref |
| Requests.EveryRowWasAsked | internal/handler/payment_handler.go:96-565 | in every interleaving every row is one that a request of the run asked for: under the name and with the amount, rate, currency, callback and recipient it stated; a refund row refunds the deposit its request named |
| Requests.NameMovesMoneyOnce | internal/handler/payment_handler.go:276-346 | in every interleaving all payout requests of one (app, app_ref) together, and all refund requests of one name, make the gateway move money at most once |
| Requests.CrashLosesMoney | internal/handler/payment_handler.go:470-505 | at most once is not exactly once: when a process dies between the INSERT of a payout or refund and its call, the row stays and nothing that happens later makes the gateway move its money |
| SerialLocal.SerialLocalOk | internal/handler/payment_handler.go:96-719 | each step of an orderly run respects the row it works on and keeps table and gateway in agreement |
| SerialRuns.OrderlyKeeps | internal/handler/payment_handler.go:113-248 | every state of every orderly run satisfies the agreement invariant |
| SerialGuarantees.CompletedIsFinal | internal/handler/payment_handler.go:615-652 | in an orderly run a completed deposit keeps status and client ref for good, and that ref is one the gateway completed for the row's amount |
| SerialGuarantees.RefundsNamePaidDeposits | internal/handler/payment_handler.go:287-346 | every refund call names a completed gateway deposit of exactly the refund row's amount |
| SerialGuarantees.LinksAgree | internal/handler/payment_handler.go:160-248 | a deposit's link is empty or the one issued for its current client ref, and every gateway deposit carries its row's amount |
| SerialGuarantees.RefreshRetires | internal/handler/payment_handler.go:218-248 | a refresh attaches the new ref and link to its row and leaves the old ref on no row; a ref the gateway knows is retired |
| SerialGuarantees.RetiredForever | internal/handler/payment_handler.go:633-640 | a superseded or orphaned ref never comes back, and callbacks on it change nothing |
| Refs.RefInRun | internal/repository/app_repo.go:180-185 | in every interleaving a deposit row carries a ref that nobody draws again if and only if it did before and no refresh of that row was saved since |
| Refs.OwnDepositExactly | internal/handler/payment_handler.go:160-201 | whatever runs between, the gateway deposit a `Pay` creates is the one its row names if and only if its INSERT met no row with the same key and no refresh of that row was saved before the call |
| Refs.LinkBreaksExactly | internal/handler/payment_handler.go:196-248 | in every state, a step gives a row whose link was its own ref's another link if and only if it saves, unhindered, a link the gateway did not issue for the ref the row then carries |
| Outcomes.OwnDepositAlone | internal/handler/payment_handler.go:160-201 | when nothing else runs from the INSERT on, the deposit made is the row's own if and only if the INSERT met no row |
| Races.OverlappingPaysDisagree | internal/handler/payment_handler.go:160-201 | the other case is reachable: a run in which two overlapping `Pay` make two gateway deposits and the link belongs to another amount and ref |
| Races.RefreshOvertakesFirst | internal/handler/payment_handler.go:113-122 | so is the refresh: a run in which a second `Pay` refreshes the first one's row before the first has sent, and the row ends with the second's ref and the first's link |
| Races.OvertakenByRefresh | internal/handler/payment_handler.go:113-122 | the run meets every condition of `Refs.OwnDepositExactly` but one: the first INSERT met no row, and a refresh was saved before the call |
| Assumptions.FailedLookupStrays | internal/handler/payment_handler.go:113-201 | when the lookup fails for an existing deposit, a request alone creates a stray gateway deposit exactly when its checks pass, no later read fails and the gateway is reached |
| Assumptions.TakenTestRefStrays | internal/handler/test_page.go:26-82 | when the drawn test ref is already a deposit's, a test alone creates a stray gateway deposit exactly when the amount is within the ceiling and fits, no statement fails and the gateway is reached |
| Assumptions.RefreshNeedsNewRef | internal/handler/payment_handler.go:225-248 | after a saved refresh the row shows the gateway's link for its ref if and only if the drawn ref was new or stands for the same link |
| Assumptions.CallbackKeepsCompletedExactly | internal/handler/payment_handler.go:633-652 | after a callback on its ref a completed deposit is completed if and only if the callback was not applied or said so |
| Races.CompletedCanBeOverwritten | internal/handler/payment_handler.go:188-194 | a run in which a paid, completed deposit is then marked failed |
| Handler.PaymentHandler.constructor | internal/handler/payment_handler.go:59-72 | a non-positive rate becomes the default |
| Handler.PaymentHandler.Pay | internal/handler/payment_handler.go:96-203 | statement by statement, does what its program does alone |
| Handler.PaymentHandler.RefreshDepositLink | internal/handler/payment_handler.go:218-249 | one gateway deposit for the row's own amount, then one re-keying write |
| Handler.PaymentHandler.TestPay | internal/handler/test_page.go:26-82 | the test page's deposit, with its defaults and its cap |
| Handler.PaymentHandler.Payout | internal/handler/payment_handler.go:426-520 | checks, insert, call and status update in order |
| Handler.PaymentHandler.PayoutForAdmin | internal/handler/payment_handler.go:529-565 | the same without the KYC cap |
| Handler.PaymentHandler.Refund | internal/handler/payment_handler.go:264-352 | full refund of a completed deposit under the given or default ref |
| Handler.PaymentHandler.RefundDeposit | internal/handler/payment_handler.go:365-409 | the admin refund, idempotent on the default ref |
| Handler.PaymentHandler.DiarraCallback | internal/handler/payment_handler.go:615-660 | unknown refs are ignored; a known one updates the status, then relays |
| Handler.PaymentHandler.RelayPayment | internal/handler/payment_handler.go:669-719 | skipped, failed or delivered is recorded; nothing when the request cannot be built |
| HandlerRuns.HandlerIsARun | internal/handler/payment_handler.go:96-719 | a handler that runs alone is a run of the interleaved machine |
| Outcomes.PayOutcome | internal/handler/payment_handler.go:96-203 | on a new app_ref `Pay` adds one row and one gateway deposit of the requested amount under the row's ref exactly when accepted; the row ends linked, failed or as inserted; refused, nothing changes |
| Outcomes.TestPayOutcome | internal/handler/test_page.go:26-82 | the same for the test page, with its defaults |
| Outcomes.CreateOutcome | internal/handler/payment_handler.go:160-201 | the three ways the shared creation path can go: a new row, the row it collided with, or nothing |
| Outcomes.CallbackOutcome | internal/handler/payment_handler.go:633-660 | a known ref and an allowed status give its row exactly that status and reason, no gateway call, no other row, at most one relay record; otherwise nothing changes |
| Outcomes.RelayOutcome | internal/handler/payment_handler.go:669-719 | exactly which outcome is recorded, and exactly when none is |
| Outcomes.AdminPayoutOutcome | internal/handler/payment_handler.go:529-565 | one call for the net amount exactly when accepted and reached, whatever the KYC level; refused, nothing changes |
| Outcomes.AdminRefundOutcome | internal/handler/payment_handler.go:365-409 | one call with the deposit's current ref exactly when it is completed and has no default refund; refused, nothing changes |
| Outcomes.PayoutRowOutcome | internal/handler/payment_handler.go:472-520 | one new row, failed when the call was not answered, else with the gateway's status, unknown ones as processing |
| Outcomes.RefundRowOutcome | internal/handler/payment_handler.go:308-350 | the same for refunds |
| Filing.PayoutFiled | internal/handler/payment_handler.go:426-520 | an admitted payout adds one row, column by column that of the request, under its own app_ref, with the status the answer calls for, and calls for the net amount under the row's ref; exactly when the request is complete, under its ceiling (200,000 or, verified, 1,000,000), leaves a net, and its name is free; otherwise nothing changes |
| Filing.PayoutOnce | internal/handler/payment_handler.go:440-445 | once a payout request has been admitted, no request of the same name, after any run, changes a row or calls the gateway, even when its lookup fails |
| Filing.PayFiled | internal/handler/payment_handler.go:96-203 | the same for `Pay` on a new name: one row of the request's own columns, callback included, and one gateway deposit |
| Filing.TestFiled | internal/handler/test_page.go:26-82 | the same for the test page: a name of its own, 500 in Senegal by default, no callback |
| Filing.RefundFiled | internal/handler/payment_handler.go:264-352 | the same for a refund: under the given or the default name, for the deposit's amount and currency, pointing to the deposit |
| Notify.CallbackRecorded | internal/handler/payment_handler.go:633-719 | a callback from which nothing is lost gives its row the status and reason, and the relay columns say what became of the POST, when, and how many there were; no other row changes |
| Notify.PayIsNotified | internal/handler/payment_handler.go:153-170 | from `Pay` to the merchant: whatever runs in between, a callback on the row's current ref is relayed if and only if the request named a callback URL |
| Notify.CallbackPosts | internal/handler/payment_handler.go:647-700 | a callback posts one message to the row's URL, with its app_ref and amount and the reported status and reason, or none when there is no URL |
| Notify.ResendRecorded | internal/handler/admin_handler.go:148-165 | sending a relay again records one attempt more and what became of it; only this row's relay columns change |
| Notify.ResendPosts | internal/handler/admin_handler.go:148-165 | and posts the row as it is now, when it has a URL |
| Notify.MessagesAreTrue | internal/handler/payment_handler.go:669-700 | in every interleaving a message posted to a merchant says a status and reason that its row had in some state, with the row's name, amount and URL |
| Idempotence.PayoutOutcome | internal/handler/payment_handler.go:426-520 | a payout request makes one call for the net amount exactly when it is accepted and gets through; refused, it changes nothing |
| Idempotence.PayoutRepeated | internal/handler/payment_handler.go:440-445 | repeating a payout's app_ref changes nothing, whatever ran in between, even when the lookup fails |
| Idempotence.RefundOutcome | internal/handler/payment_handler.go:276-346 | a refund request calls with the deposit's current ref exactly when accepted, however often the deposit was refunded under other refs |
| Idempotence.RefundRepeated | internal/handler/payment_handler.go:276-285 | repeating a refund ref changes nothing, even when the lookup fails |
| Idempotence.PayRepeated | internal/handler/payment_handler.go:113-122 | on an existing deposit `Pay` makes one more gateway deposit, for the row's own amount, if and only if the request is valid, the deposit is open, its link is missing or old and the gateway is reached; the table changes exactly by the re-keying write |
| Idempotence.RefreshHelpsExactly | internal/handler/payment_handler.go:207-248 | after a `Pay` the deposit still needs a link exactly when it did before and no new link was saved or the row is older than 23 hours |
| Idempotence.TimeMakesDue | internal/handler/payment_handler.go:207-212 | a linked deposit that is paid for again after any number of seconds gets one more gateway deposit if and only if by then it is still open and older than 23 hours, and the gateway is reached |
| Migrate.MigrationsCommitInOrder | cmd/migrate/main.go:43-74 | with any number of runners and crashes the committed scripts are a prefix of the list, recorded iff committed, and a runner at file k has all earlier ones recorded |
| Migrate.FinishedIsFinal | cmd/migrate/main.go:43-53 | once a runner has finished, the list is complete and nothing changes it any more |
| MigrateProgress.CommitsNext | cmd/migrate/main.go:50-73 | from every reachable state in which nobody holds an uncommitted name, a runner at the next file commits its script and its name with four statements, and touches nothing else |
| MigrateProgress.RunnerFinishes | cmd/migrate/main.go:43-74 | such a runner, left alone, goes through the list; then every script is committed and recorded |
| MigrateProgress.NoDeadEnd | cmd/migrate/main.go:43-74 | whatever has failed and whoever has died, from every reachable state some continuation without failures completes the list |
| MigrateProgress.FailsClean | cmd/migrate/main.go:60-73 | a failure anywhere in a script, short of the commit, leaves the database as it was |
| Migrate.Migrator.Migrate | cmd/migrate/main.go:43-74 | one runner gets to the first file that stops it, recorded or not, and applies exactly the missing scripts before it, once and in order |
| MigrateProgress.LoneRunnerMigrates | cmd/migrate/main.go:43-74 | a runner launched in any such state and left alone gets to the same file, with the same database, as the loop of one runner |
| Migrate.NothingMissing | cmd/migrate/main.go:50-53 | a run after a complete run applies nothing |
| Stats.MakeDashboard | internal/repository/stats_repo.go:70-150 | given the answers of the four queries about any rows, in any order, it returns a dashboard of those rows |
| StatsCounts.DashboardCounts | internal/repository/stats_repo.go:70-150 | every figure of a dashboard, totals and entries of all three lists, is the number of rows concerned or the sum of their amounts, fees or nets; every rate is completed over completed and failed |
| StatsCounts.RatesAtTheEnds | internal/repository/stats_repo.go:77-118 | a rate, overall or of an app, is 1 if and only if something completed and nothing failed, and 0 if and only if nothing completed |
| StatsCounts.WindowKeeps | internal/repository/stats_repo.go:60-66 | a window of n days keeps every row as often as it occurs, if and only if it is at most n times 86,400 seconds old; a window that is not positive keeps all |
| Stats.Window | internal/repository/stats_repo.go:60-66 | exactly the rows created in the window, or all when no window is asked for |
| Stats.Partition | internal/repository/stats_repo.go:89-112 | grouped sums add up to the ungrouped sum, whatever the grouping and the order of groups |
| Stats.ViewsAddUp | internal/repository/stats_repo.go:70-129 | by-type and by-app counts, amounts and fees each add up to the totals |
| Stats.OperatorsAddUp | internal/repository/stats_repo.go:133-150 | the by-operator counts add up to the payout entry of the by-type list if and only if every payout names its operator |
| Stats.AmountSplits | internal/repository/stats_repo.go:75-80 | total amount = total fee + total net, null nets included |
| Stats.RunsAddUp | internal/repository/stats_repo.go:70-150 | for every run of the ledger and every window, operators match payouts and amount = fee + net |
| Stats.OverallIsTheAverage | internal/repository/stats_repo.go:84-86 | the overall rate is the average of the per-app rates weighted by completed-or-failed rows |
| Stats.OverallRateIsBracketed | internal/repository/stats_repo.go:107-129 | all rates lie in [0, 1] and the overall one between the smallest and largest of apps with a completed or failed row |
| Stats.DashboardExists | internal/repository/stats_repo.go:89-150 | every set of rows has query answers and a dashboard |
| Inline.Lex | dashboard/src/app/docs/md.tsx:9-32 | the loop ends and its spans are losslessly the text: code without backticks, bold without stars, never empty, no match starting in plain text |
| Inline.MatchIsUnique | dashboard/src/app/docs/md.tsx:12-12 | a stretch matches the regular expression exactly when the scanner ends there |
| Inline.FirstMatch | dashboard/src/app/docs/md.tsx:16-16 | the leftmost match at or after a position |
| Inline.LexedOnce | dashboard/src/app/docs/md.tsx:9-32 | only one list of spans meets that description |
| Lines.LinesLoseNothing | dashboard/src/app/docs/md.tsx:35-35 | joining the lines gives the source back, with CRLF as newline |
| Lines.RuleTest | dashboard/src/app/docs/md.tsx:62-62 | the test for a rule is the regular expression |
| Lines.HeadingTest | dashboard/src/app/docs/md.tsx:69-69 | the test for a heading, and what it captures, are those of the regular expression |
| Lines.RulingTest | dashboard/src/app/docs/md.tsx:98-98 | the test for a table's second line is the regular expression |
| Lines.ItemTest | dashboard/src/app/docs/md.tsx:154-158 | the tests for list items and numbered lists are the regular expressions, and the text starts where the longest match ends |
| Lines.BlankIsAllSpace | dashboard/src/app/docs/md.tsx:177-177 | a line trims to nothing exactly when it is all white space |
| Reading.LinesReadBack | dashboard/src/app/docs/md.tsx:35-35 | lines put together with CRLF, or with newlines, read back as they are |
| Reading.ItemReadsBack | dashboard/src/app/docs/md.tsx:154-158 | indentation, a marker, white space and a text read back as an item of exactly that text |
| Reading.ContinuesExactly | dashboard/src/app/docs/md.tsx:185-193 | the lines over which a paragraph goes on, in terms of the regular expressions |
| Reading.TableStartsExactly | dashboard/src/app/docs/md.tsx:98-98 | a table starts exactly at a line with a bar over a line that matches the expression |
| Markdown.ReadBlock | dashboard/src/app/docs/md.tsx:40-198 | one turn of the loop consumes at least one line and yields the block those lines call for |
| Markdown.MakeDocument | dashboard/src/app/docs/md.tsx:34-202 | the loop ends on every source; its nodes are the lexed blocks of a document of all the lines |
| Documents.DocumentOnce | dashboard/src/app/docs/md.tsx:34-202 | the lines have only one document |
| Documents.EveryLineOnce | dashboard/src/app/docs/md.tsx:39-198 | line ranges are contiguous, in order and disjoint, and hold every line exactly once |
| Documents.NothingLost | dashboard/src/app/docs/md.tsx:35-198 | the consumed lines put together are the source |
| Documents.FencesAreVerbatim | dashboard/src/app/docs/md.tsx:44-59 | fenced lines come out as they are, up to the next fence or to the end |
| Documents.OpenFenceTakesAll | dashboard/src/app/docs/md.tsx:48-52 | an unclosed fence takes every line after it |
| Documents.RowRoundTrip | dashboard/src/app/docs/md.tsx:99-105 | a table row written from cells reads back as those cells |
| Reading.ListReadsBack | dashboard/src/app/docs/md.tsx:153-161 | written items read back as one list of their texts, ordered or not |
| Reading.QuotesReadBack | dashboard/src/app/docs/md.tsx:138-150 | quoted lines read back as one quote of their texts |
| Reading.CodeReadsBack | dashboard/src/app/docs/md.tsx:44-59 | fenced code reads back as it was written, with its language |
| Reading.TableReadsBack | dashboard/src/app/docs/md.tsx:98-111 | a head, a second line and rows, written with a bar around every cell, read back as the table of their cells |
| Separation.BlankLineSeparates | dashboard/src/app/docs/md.tsx:39-198 | a blank line splits a document into two independent ones if and only if no fence before it is open and, unless it is empty, the last line before it is no quote, item or paragraph line with a bar that starts a block |
| Separation.EmptyLineSeparates | dashboard/src/app/docs/md.tsx:39-198 | an empty line does so if and only if no fence before it is open |
| Separation.WhiteLineRulesATable | dashboard/src/app/docs/md.tsx:98-98 | over any white-space line, such a line becomes a table with a head and no rows |

## Left out

- HTTP decoding, routing, responses, templates, the hosted page, the landing page, the widget and the rest of the Next.js dashboard: input and output.
- HMAC signatures, SHA-256, API keys, UUID and token generation: refs are arbitrary strings drawn by the environment; a collision is an insert that fails.
- The gateway client: replaced by the environment's reply (never arrived, answered, or acted and reported an error). A deposit's status history at the gateway is the environment's.
- PostgreSQL itself: only statement atomicity, UNIQUE, CHECK, foreign keys, INTEGER range and the migration transactions are kept. Locks, timeouts, schema changes inside scripts and connection pooling are not.
- The columns `description`, `return_url` and `updated_at`, and the name, keys and active flag of an app: no modelled property depends on them.
- The clock: a non-decreasing integer in seconds; a window day is 24 hours, without daylight saving.
- The marshalling error of the relay body, which ends like a request that cannot be built.
- The country a refresh falls back to when none is given: `Pay`, its only caller, always has one.
- Two rows of `apps` with the same id, app names and the join with `apps` in the by-app query: the foreign key gives each row exactly one app.
- The order of rows in the by-type, by-app and by-operator lists: the lists are proved right in any order.
- Floating-point rounding of the success rates: they are real quotients.
- `ListPayments`, `appQuery`, signup approval, activation of apps and the admin wrappers: easy members or thin calls.
- React elements, keys and CSS classes: the renderer's result is a datatype. Strings are sequences of characters, not of UTF-16 units.
- A changed file list between two migration runs: many runners share one list; the single-runner method starts from any recorded set.
- The test page's refs: orderly runs take a test ref to be new, as its random token intends.
