# Verified core of the account shop

The repository sells digital accounts through Telegram bots. This project models the parts of it whose
correctness is hard to see from one function, and proves what they promise. Everything is checked with

    dafny verify dfyconfig.toml

Money is an integer number of hundredths of VND, time stamps are natural numbers, ids are natural numbers or
strings, and a database transaction that holds its row locks is one atomic step. Interleaving happens between
steps. A debit is split as in apps/api/src/lib/utils.ts:45-58, commission first, so that a negative commission
balance is settled from the main one; the price test is that of packages/shared/src/server/order-pricing.ts:11-25.
Every imperative part is a class or a method proved against a specification function, and the theorems
about runs are proved about those functions.

| module | subject |
|---|---|
| Wallets, SharedWallet | the two-part wallet, its ledger as a chain, all wallet operations mixed on one wallet, where each family keeps its own promises |
| OrderMoney, LegacyShelf | one internal-source order: debit, three delivery commits, failure with refund, parking, manual delivery; the delivery from a product's own texts |
| WorkerWallet | debits and refunds paired only by counting ledger rows |
| Refunds | admin refunds of an order and the affiliate clawbacks that follow |
| TopUps | confirmation and expiry of wallet top-ups |
| Campaign, CampaignWorker | claim, resume and recovery of userbot campaigns; one worker's loop and the scheduler |
| Utf8, SseReader | text as bytes; the incremental reader of server-sent events (a subset of section 9.2 of the HTML Living Standard) |
| DamagedText, CutStreams | what cuts do to a text and to a stream of messages |
| StreamMessages, GrokStream, VeoStream | replay-then-subscribe streams of the two check servers, end to end |
| ParallelLimit, RetryEngine, CheckRow | the account-check engine: bounded parallel map, proxy choice and retries, which run may end a check of a claim |
| Stock, StockRoom, Ranking, DeliveryList | which entries a sale takes, what sales keep, the list of texts kept beside the stock |
| ProxyString, ProxyLock, ResultsCsv | the proxy parser and printer, the per-key mutex, the CSV writer |
| SourceWatch | polling schedule and canonical stock text |
| Strings, Options | searching, splitting, trimming, decimal text; optional values |

## What the proofs found

Where a promise turned out to hold only under a condition, the code is modelled as it is, the condition is
exact, and in most cases a lemma also shows a state or a run in which the promise fails.

- A refund of an internal order restores main and commission separately exactly if commission was not negative
  when the order was debited. With negative commission the recorded commission part is negative, the split test
  rejects it, and everything goes to the main part; the sum is right in every case.
- Parking an internal order and delivering it by hand test the status before their transaction. A late parking
  write reopens a refunded order, which can then be refunded again; a late manual delivery hands over a refunded
  order. Without such late writes all promises hold.
- A failed internal order keeps the customer's money exactly if its failing step asked for no refund or found no
  wallet. Every caller in the repository asks for the refund.
- The delivery from a product's own texts reads them before the lock. Two orders get the same texts exactly if
  another such delivery commits in between.
- A delivery from stock writes back the list of texts that it read before the lock. Texts that another delivery has
  handed out since come back to the list, exactly if the delivery does not hand them out itself.
- The counter that an internal delivery stores counts available entries of expired batches, which cannot be sold.
- A worker debit leaves the main balance at zero or more exactly if it was so before or the debit exceeds the
  commission balance.
- Crediting affiliate commission overwrites what the order records. Credits and clawbacks balance exactly if each
  credit finds zero recorded. A clawback request of zero means everything.
  A credit that lands after the clawback of a full refund stands for good.
- A campaign's claim compares the two time stamps but not the counters. If the session lock expires under a
  worker, a second one can claim with counters that the first has moved since, count a group twice and leave
  another one out. As long as the lock does not expire under its holder this cannot happen, even if the recovery
  sweep, whose test of the lock and whose update are two statements, re-arms beside the owner.
- All jobs of a warranty claim carry one id, so the guard by job id and status does not tell a run from an earlier
  one. A run that lost its row to the sweep or to the failure handler and is still going can end the check that a
  recheck has started since; the new run's verdict is then lost. A run ends its own start exactly if the claim was
  not started again in between, which the row's count of attempts would tell.
- The failure handler finds the claim row by claim id only, so the late failure of an old run also fails a recheck.
- A proxy that dies in the first retry loop is not recorded before the second loop's first pass is over, and is used
  again by any account's attempt that meets no healthy proxy before it; one that dies under a first attempt or in
  the second loop is never used again.
- A network chunk that begins inside a character damages the text: one additional character arrives for each
  byte that continues a character of the chunk before. All other cuts are harmless, and no cut loses a message,
  changes its name or its index, or keeps the batch from resolving.
- A proxy with credentials but an empty user loses the user when it is printed. Of what the parser produces, only
  this and a host with an '@' (possible in the form without a scheme) do not survive printing.
- A proxy string that has no colon left for a port loses the last character of its host, and what would be the
  host is read as the port.
- A body that throws before it returns a promise would block its proxy key for good; the two callers in the
  repository pass asynchronous functions, which cannot.

## Model

| member | source | states |
|---|---|---|
| OrderMoney.RunExact | apps/api/src/internal-source/internal-source.service.ts:2595-2640 | over every interleaving of creation debits, delivery commits, failures, parking and manual deliveries, each order's status tells the truth about goods and money throughout, if and only if no unguarded write lands on an order that was meanwhile refunded (or, for parking, handed over) |
| OrderMoney.StepExact | apps/api/src/internal-source/internal-source.service.ts:2595-2780 | one step from a truthful book leads to a truthful book exactly when it is timely; in particular every guarded step always does |
| OrderMoney.TimelyRunIsSafe | apps/api/src/internal-source/internal-source.service.ts:1694-1844 | in timely runs each order is debited once for its total, commission first; it gets at most one refund row, never both goods and refund; a delivered one nets minus its total; a failed one is made whole (nets zero in total, and zero in each part exactly if commission was not negative at the debit) unless its failing step asked for no refund or found no wallet, and then it has no refund row and keeps its total |
| OrderMoney.GuardedRunIsSafe | apps/api/src/internal-source/internal-source.service.ts:2112-2195 | creation, the three commits that re-read the status under the lock, and any number of failures are safe in every order; every order that ends failed and whose failures all pay was debited once and made whole |
| OrderMoney.DeliveredExactly | apps/api/src/internal-source/internal-source.service.ts:2258-2283 | over every guarded run a pending order ends delivered, handed over and without a refund if and only if a delivery whose caller read it in time comes before its first failure; it ends failed if and only if the failure comes first; otherwise it is still pending |
| OrderMoney.ClosedStays | apps/api/src/internal-source/internal-source.service.ts:2600-2645 | once an order is delivered or failed, nothing in a guarded run changes it or refunds it again |
| OrderMoney.ClosedIsFinal | apps/api/src/internal-source/internal-source.service.ts:2079-2081 | in every run, parking and manual deliveries included: a closed order that nobody read in time stays as it is, because later readers are turned away |
| OrderMoney.ParkedAs | apps/api/src/internal-source/internal-source.service.ts:2348-2354 | parking writes the status that it is for, and touches neither goods nor money |
| OrderMoney.RefundedToMain | apps/api/src/internal-source/internal-source.service.ts:2692-2706 | an open order without a debit row is refunded to the main balance, in full |
| OrderMoney.FailedIsRefunded | apps/api/src/internal-source/internal-source.service.ts:2595-2780 | in every run, timely or not, in which an order's failures ask for the refund and find the wallet: if it ends failed, it has a refund row |
| OrderMoney.KeptExactly | apps/api/src/internal-source/internal-source.service.ts:2600-2645 | from a truthful book, a step leaves an order failed without a refund row exactly if it is a failure that finds the order open and asks for no refund or finds no wallet |
| OrderMoney.MoneyKeptExactly | apps/api/src/internal-source/internal-source.service.ts:2595-2780 | over every guarded run: an order ends failed without a refund row if and only if it was so before or one of the steps was such a failure |
| OrderMoney.FreshRunIsSafe | apps/api/src/internal-source/internal-source.service.ts:1563-1844 | all of this for a desk that starts without orders, whatever its wallet holds, together with the ledger chain from the opening balances |
| OrderMoney.RunKeepsChain | apps/api/src/internal-source/internal-source.service.ts:2706-2764 | whatever the run, the wallet's VND ledger leads row by row from the opening balances to the stored ones |
| OrderMoney.LateParkingRefundsTwice | apps/api/src/internal-source/internal-source.service.ts:2503-2511 | a parking write on a refunded order reopens it, and the next failure refunds it a second time |
| OrderMoney.LateWrites | apps/api/src/internal-source/internal-source.service.ts:1362-1384 | for a caller that tested the status in time: late parking leads to two refunds, late manual delivery hands over a refunded order |
| OrderMoney.LateWriterIsReachable | apps/api/src/internal-source/internal-source.service.ts:2348-2354 | for every affordable order such a caller and such an order come about from an empty book |
| OrderMoney.OrderDesk.CreateOrder | apps/api/src/internal-source/internal-source.service.ts:1563-1844 | accepts exactly the requests whose lookups all succeed, with a positive, price-safe total that the wallet covers, and then debits commission first and posts the row; every other request changes nothing |
| OrderMoney.OrderDesk.CommitDelivery | apps/api/src/internal-source/internal-source.service.ts:2258-2311 | if the order is still pending under the lock, it is delivered with its delivery columns set, and nothing else changes; otherwise nothing does |
| OrderMoney.OrderDesk.NewestSpend | apps/api/src/internal-source/internal-source.service.ts:2692-2705 | finds the newest debit row of the order, or none exactly if there is none |
| OrderMoney.OrderDesk.FailOrder | apps/api/src/internal-source/internal-source.service.ts:2595-2780 | closes an open order once and gives back the split of its newest debit row, or everything to the main part if that row is unusable |
| OrderMoney.OrderDesk.ParkOrder | apps/api/src/internal-source/internal-source.service.ts:2348-2354 | the parking write, with no status test of its own |
| OrderMoney.OrderDesk.DeliverByHand | apps/api/src/internal-source/internal-source.service.ts:1375-1384 | the manual delivery write, with no status test of its own |
| WorkerWallet.RunKeepsPaired | apps/worker/src/wallet.ts:175-193 | for each order, over any run of debits and refunds of any orders and any other postings that do not count as this order's own: refunds <= debits <= refunds + 1, and the i-th refund row reverses the i-th debit row in main, in commission and in amount |
| WorkerWallet.RefundReversesOutstanding | apps/worker/src/wallet.ts:286-316 | after any run, counting finds the outstanding newest debit; both parts get back exactly what it took, and without an outstanding debit nothing happens |
| WorkerWallet.RetriedDebitIsNoOp | apps/worker/src/wallet.ts:193-232 | while a debit is outstanding a retry of any amount changes nothing, and one refund restores both parts |
| WorkerWallet.DebitSigns | apps/worker/src/wallet.ts:203-215 | a debit lowers the sum by the amount and leaves commission at zero or more; main is at zero or more exactly if it was so before or the debit exceeded commission |
| WorkerWallet.DebitHappensExactly | apps/worker/src/wallet.ts:175-246 | a debit happens if and only if the amount is positive and covered by the two balances together and the order has no outstanding debit; it posts one row and takes the amount |
| WorkerWallet.MainStaysNonNegative | apps/worker/src/wallet.ts:203-317 | debits and refunds alone never make a non-negative main balance negative |
| WorkerWallet.RunKeepsChain | apps/worker/src/wallet.ts:232-246 | the ledger stays a chain that ends at the stored balances |
| WorkerWallet.UsdtRestoredExactly | apps/worker/src/wallet.ts:216-325 | a refund restores the USDT mirror exactly when the debit was not clamped and the rate did not change (or nothing left main); a clamped debit comes back only if the new rate happens to hit |
| WorkerWallet.ConnectionWallet.DebitBalance | apps/worker/src/wallet.ts:142-265 | reports invalid, already debited, insufficient or debited exactly as specified, and posts nothing but a debit |
| WorkerWallet.ConnectionWallet.RefundBalance | apps/worker/src/wallet.ts:267-367 | refunds exactly if fewer refunds than debits are on record, reversing the debit at that position |
| Refunds.RunKeepsRefundsFit | apps/api/src/admin/admin.service.ts:695-756 | over any sequence of admin refunds: refund rows add up to at most the order total, and the order is marked refunded, in both columns, exactly when they reach a positive total |
| Refunds.RefundHappensExactly | apps/api/src/admin/admin.service.ts:695-756 | a refund happens if and only if the order is paid and not refunded and the amount fits; it goes to the main balance only, and its follow-up is the full clawback exactly if it completes the total |
| Refunds.ClawbackTakes | apps/api/src/affiliate/affiliate.service.ts:136-205 | a clawback without a positive request takes everything; one that comes to nothing posts nothing |
| Refunds.TaskIsPositive | apps/api/src/affiliate/affiliate.service.ts:222-256 | what a partial refund orders is positive and no more than what is recorded, as long as anything is |
| Refunds.RunBalancedExactly | apps/api/src/affiliate/affiliate.service.ts:77-205 | everything ever credited equals what the order still records plus what was clawed back, throughout the run, if and only if every credit lands on an order that records none |
| Refunds.StepKeepsBalancedExactly | apps/api/src/affiliate/affiliate.service.ts:136-205 | one step keeps that balance exactly unless it is a credit over a recorded commission; the record never goes below zero |
| Refunds.ShareIsProportional | packages/shared/src/server/order-pricing.ts:97-122 | a partial refund's share of the commission is its exact proportion if and only if that much is left, and never more than is left |
| Refunds.PartialRefundTakesShare | apps/api/src/affiliate/affiliate.service.ts:207-256 | after a partial refund and its follow-up the affiliate and the order's record have lost the commission's exact proportion of the refund, rounded to a hundredth, or what was left if that was less; the customer has the refund |
| Refunds.FullRefundClearsExactly | apps/api/src/affiliate/affiliate.service.ts:136-205 | over every run of refunds, credits and clawbacks: the promise that a fully refunded order records no commission once its clawback has run holds throughout if and only if no credit lands after that clawback; credits before the refund or before its clawback do no harm |
| Refunds.StepKeepsSettlingExactly | apps/api/src/affiliate/affiliate.service.ts:136-205 | one step keeps that promise exactly if it is not such a late credit |
| Refunds.LateCreditStands | apps/api/src/affiliate/affiliate.service.ts:77-122 | the failing run: refund in full, claw back, credit; the commission stands and nothing is pending that would remove it |
| Refunds.RefundDesk.RefundToWallet | apps/api/src/admin/admin.service.ts:687-773 | refunds exactly if the order is paid, not refunded and the amount fits, and then posts row, status and follow-up |
| Refunds.RefundDesk.RevokeCommission | apps/api/src/affiliate/affiliate.service.ts:136-205 | claws back the request capped by the record, all of it when no positive request is given |
| Refunds.RefundDesk.CreditCommission | apps/api/src/affiliate/affiliate.service.ts:77-122 | credits the affiliate and writes, not adds, the order's record |
| TopUps.RunCreditsOnce | apps/api/src/customer-wallet/customer-wallet.service.ts:262-394 | however often a top-up is confirmed, however that races with expiry and whatever else happens to the wallet: its rows add up to amount plus bonus if the run makes it paid, and to nothing otherwise; a paid one never changes again |
| TopUps.PaidExactly | apps/api/src/customer-wallet/customer-wallet.service.ts:262-487 | over every run a top-up ends paid if and only if it was paid before, or was pending or canceled and some confirmation came from outside, or was pending and some confirmation came before the first expiry |
| TopUps.BalanceGrowsOnce | apps/api/src/customer-wallet/customer-wallet.service.ts:307-326 | over confirmations and expiries of one top-up the balance grows by amount plus bonus exactly if the top-up becomes paid in that sense, and not at all otherwise |
| TopUps.CreditChainsExactly | apps/api/src/customer-wallet/customer-wallet.service.ts:328-374 | main row, bonus row and USDT row continue the ledger chain if and only if the bonus is not negative |
| TopUps.CreditPosts | apps/api/src/customer-wallet/customer-wallet.service.ts:328-374 | a credit posts a row for the amount, one for the bonus if there is one, and at last the mirror row from the old to the new USDT balance; each row's amount is its own move |
| TopUps.PaidIsAbsorbing | apps/api/src/customer-wallet/customer-wallet.service.ts:281-294 | no step changes a paid top-up or anything but the status of another |
| TopUps.TopUpDesk.MarkTopUpPaid | apps/api/src/customer-wallet/customer-wallet.service.ts:262-394 | credits exactly if pending, or canceled and confirmed from outside |
| TopUps.TopUpDesk.ExpirePending | apps/api/src/customer-wallet/customer-wallet.service.ts:467-487 | cancels exactly the listed top-ups that are still pending, and reports each of them once |
| SharedWallet.RunKeepsConsistent | apps/api/src/internal-source/internal-source.service.ts:1713-1807 | on one wallet, under any mix of internal orders, worker debits and refunds, top-ups, admin refunds, commission credits and clawbacks, the VND ledger stays a chain from the opening to the stored balances |
| SharedWallet.LedgerExplainsBalances | apps/worker/src/wallet.ts:195-246 | so the stored balances are always the opening ones plus the sums of the ledger rows, main and commission separately |
| SharedWallet.RunProjects | apps/api/src/internal-source/internal-source.service.ts:1694-1807 | whatever else happens to the wallet, its internal orders live the life of a run of their own operations in the same order, to which everything else is a posting from elsewhere |
| SharedWallet.SharedOrdersAreSafe | apps/api/src/internal-source/internal-source.service.ts:2112-2195 | so all guarded orders on the shared wallet are debited once, and delivered or made whole but not both |
| SharedWallet.TopUpsProject | apps/api/src/customer-wallet/customer-wallet.service.ts:262-394 | the top-ups on the shared wallet end as a run of their own operations would leave them |
| SharedWallet.RunKeepsCasesFit | apps/api/src/admin/admin.service.ts:695-756 | on the shared wallet, too, the refunds of each order fit its total, and the order is marked refunded exactly when they reach it |
| Wallets.ChainConserves | apps/api/src/internal-source/internal-source.service.ts:2740-2764 | a chain of rows accounts for every hundredth between two balances, in each part |
| Campaign.ClaimedOnce | apps/worker/src/userbot-campaign.worker.ts:143-157 | once a claim lands, no worker that read the row before can claim that start, in any continuation |
| Campaign.ClaimsAreDue | apps/worker/src/userbot-campaign.worker.ts:143-157 | over every run: a claim that lands takes a time that had come when its worker read the row, and if its job names a time, the time taken is that one within a second |
| Campaign.DueJobClaims | apps/worker/src/userbot-campaign.worker.ts:143-184 | a job that is due claims, if nobody else moves the row in between, and starts after the settled groups |
| Campaign.SleepsUntilDue | apps/worker/src/userbot-campaign.worker.ts:143-152 | a row armed for a time and owned by nobody stays as it is, through recoveries, late writers and jobs that name other times or come early, until a job reads it that is for that time and comes when it has come; only workers whose ownership test had passed before can still send |
| Campaign.NothingIsSentEarly | apps/worker/src/userbot-campaign.worker.ts:205-306 | after an owner's flood wait until t, or at the end of a cycle whose next one is at t, under exclusion nothing is sent until a job for t reads the row when t has come; duplicate jobs of the cycle just ended change nothing |
| Campaign.LastWrites | apps/worker/src/userbot-campaign.worker.ts:501-548 | a campaign that repeats is armed for its next cycle with both counters at zero, one that does not is completed, an aborted one has failed, and neither of the last two is armed |
| Campaign.StaleForever | apps/worker/src/userbot-campaign.worker.ts:233-298 | a worker whose start was replaced never changes the row again |
| Campaign.RunKeepsStamps | apps/worker/src/userbot-campaign.worker.ts:152-157 | start stamps identify their owners in every run |
| Campaign.RunAccountedExactly | apps/worker/src/userbot-campaign.worker.ts:181-306 | over every run with floods, duplicate jobs, takeovers and crashes the two counters account for the settled groups, the first ones in list order and each once, throughout if and only if every landing claim is clean, that is, the counters did not move between the read and the claim |
| Campaign.AccountedStepExact | apps/worker/src/userbot-campaign.worker.ts:143-184 | a step keeps the account exactly if it is not an unclean claim |
| Campaign.NothingSkipped | apps/worker/src/userbot-campaign.worker.ts:184-306 | in clean runs an owner only ever sends to the first unsettled group, and a cycle ends with all groups settled |
| Campaign.LockedRunsAreClean | apps/worker/src/userbot-campaign.worker.ts:109-157 | as long as the session lock does not expire while its holder is at work, every landing claim is clean: whatever recovery does, whether or not jobs name a time, and wherever workers crash |
| Campaign.LockedCampaignsAreAccounted | apps/worker/src/userbot-campaign.worker.ts:109-306 | so with a lock that does not expire under its holder the counters account for the groups all along |
| Campaign.ExclusiveRunsAreClean | apps/worker/src/userbot-campaign.worker.ts:143-157 | the same from exclusion alone: if a worker reads the row only when all others are gone, every claim is clean |
| Campaign.TurnsAreARun | apps/worker/src/userbot-campaign.worker.ts:109-143 | what workers with a lock do is a run of the campaign, and an exclusive one if the lock does not expire under its holder |
| Campaign.LockComesFree | apps/worker/src/userbot-campaign.worker.ts:549-557 | whoever is gone or was turned away can give the lock back, and then any other worker can take it |
| Campaign.ExpiringLockExcludesNothing | apps/worker/src/userbot-campaign.worker.ts:114 | a lock that may expire at any time excludes no run at all |
| Campaign.WaitingRunsAreClean | apps/worker/src/userbot-campaign-scheduler.ts:14-42 | without any lock, claims are clean if recovery re-arms only when the owner is gone and jobs name their time |
| Campaign.AttemptsBounded | apps/worker/src/userbot-campaign.worker.ts:186-306 | over every run, clean or not, attempts exceed settled groups by at most the claims that did not end a cycle |
| Campaign.AttemptsPerCycle | apps/worker/src/userbot-campaign.worker.ts:501-528 | with clean claims a recurring campaign has sent at most once per group and cycle, plus once per interruption; a one-shot campaign at most once per group, plus once per interruption |
| Campaign.OvertakenIsReachable | apps/worker/src/userbot-campaign-scheduler.ts:30-42 | from an armed campaign: one worker has sent and not yet written, the sweep has re-armed, a second worker has read the row |
| Campaign.UncleanClaim | apps/worker/src/userbot-campaign.worker.ts:153-184 | the second worker then claims with counters that are out of date |
| Campaign.UncleanClaimMiscounts | apps/worker/src/userbot-campaign.worker.ts:218-306 | it settles the first group a second time, and the counters add up to two |
| Campaign.MiscountSkipsAGroup | apps/worker/src/userbot-campaign.worker.ts:181-184 | the next worker, claiming cleanly, starts at the third group and the second is never sent to |
| CampaignWorker.CampaignRow.TryClaim | apps/worker/src/userbot-campaign.worker.ts:152-157 | changes the row exactly if status, next and last time are still as read |
| CampaignWorker.ProcessJob | apps/worker/src/userbot-campaign.worker.ts:141-306 | an undisturbed run of the loop is a run of the interleaving model; it happens exactly if the campaign is running, its time has come and the job, if it names a time, names that one within a second; it attempts the groups from the settled count up to the first flood wait and leaves the counters of exactly those answers |
| CampaignWorker.SendLoop | apps/worker/src/userbot-campaign.worker.ts:186-306 | the loop leaves at the first flood wait with the row re-armed, or after the last group, with the counters of exactly the answers so far |
| CampaignWorker.LoopStopsAtFlood | apps/worker/src/userbot-campaign.worker.ts:186-306 | the loop stops at the first flood wait or the end, having counted every answer before |
| CampaignWorker.RecoverStuck | apps/worker/src/userbot-campaign-scheduler.ts:14-42 | lists at most fifty running, unarmed campaigns whose last start is a minute old, all of them unless the list is full, and re-arms exactly the listed ones that are not locked |
| CampaignWorker.EnqueueDue | apps/worker/src/userbot-campaign-scheduler.ts:47-67 | afterwards every due start has one job that is waiting or running, and other jobs are untouched |
| SseReader.ChunkingInvariant | apps/worker/src/account-check.ts:423-447 | for every cut of a character stream into chunks the reader ends in the state of reading the whole stream at once: results, settlement and left-over buffer |
| SseReader.SameStreamSameState | apps/worker/src/account-check.ts:594-618 | two cuts of one stream give the same state |
| SseReader.BlocksLoseNothing | apps/worker/src/account-check.ts:425-429 | the blocks and the left-over buffer, joined again, are the stream, and none contains a separator |
| SseReader.BlocksContinue | apps/worker/src/account-check.ts:423-429 | reading on from the left-over buffer yields what reading everything at once would |
| SseReader.SettlesAtFirstTerminal | apps/worker/src/account-check.ts:438-446 | the batch resolves with the results before the first done or error, whatever follows, and not before it |
| SseReader.SettledForGood | apps/worker/src/account-check.ts:441-444 | a later done or error does not change what the batch resolved with |
| SseReader.WritesAreRead | tools/CheckGrokJS/server.js:162-167 | whatever messages and keep-alives a server writes and however their text is cut on the way, the reader ends as if it had been handed the messages one by one |
| SseReader.BytesAreRead | apps/worker/src/account-check.ts:425 | the same from the bytes on the wire: the text the reader gets is the written one if and only if no chunk begins inside a character, and then the reader ends as if handed the messages one by one |
| DamagedText.ChunksDamage | apps/worker/src/account-check.ts:425 | however the bytes of a text are cut, decoding chunk by chunk gives the text with some characters of several bytes replaced by replacement characters, and nothing else changed |
| CutStreams.PiecesDamaged | tools/CheckGrokJS/server.js:162-167 | damage to what a server wrote is damage to the data of its messages: the same writes, with the same names, line ends and order |
| CutStreams.EveryIndexArrives | apps/worker/src/account-check.ts:423-447 | wherever the bytes of a stream are cut, even inside characters, the reader ends with the same indices, and resolves with the same ones, as if it had been handed the written messages (for a parser that damage inside JSON strings does not upset) |
| DamagedText.ReceivedExactly | apps/worker/src/account-check.ts:594-596 | for every text and every cut of its UTF-8 bytes: decoding chunk by chunk gives the text back if and only if no chunk begins inside a character |
| DamagedText.ReceivedLength | apps/worker/src/account-check.ts:425 | otherwise the received text is longer by exactly the number of bytes with which chunks continue a character begun before them |
| DamagedText.HalvedCharacter | apps/worker/src/account-check.ts:425 | the smallest damaged stream: two halves of one character arrive as two replacement characters |
| SseReader.StreamReader.OnData | apps/worker/src/account-check.ts:423-447 | decodes the chunk on its own and drains exactly the complete blocks of what is buffered |
| SseReader.StreamReader.OnBlock | apps/worker/src/account-check.ts:430-444 | the last event line and the last data line of a block decide |
| GrokStream.StayersAreServed | tools/CheckGrokJS/server.js:586-621 | over every interleaving of completions, joins, leaves, clean-up and a job that breaks off: a connection that did not leave has been sent every result so far exactly once and in push order; when the job is over these are all accounts' results (a prefix of the stored ones if it broke off), then one final message and nothing else |
| GrokStream.EveryoneIsLetIn | tools/CheckGrokJS/server.js:586-589 | until the job is forgotten, whoever asks is connected |
| GrokStream.CompletedJobCloses | tools/CheckGrokJS/server.js:195-236 | in every run a job whose tasks have all run can close, and then tells every subscriber |
| GrokStream.GoneHearNothing | tools/CheckGrokJS/server.js:614-621 | whoever left is sent nothing more |
| GrokStream.ForgottenIsClosed | tools/CheckGrokJS/server.js:586-589 | once the job is forgotten, nobody is let in any more |
| GrokStream.WorkerGetsEveryResult | tools/CheckGrokJS/server.js:195-236 | end to end, from tasks to resolved batch, wherever the bytes of the stream are cut: a worker that stays resolves with exactly what every account's task delivered if no chunk begins inside a character, and with an entry for exactly the same accounts in any case; if the job broke off, with a prefix of the stored results |
| GrokStream.RunKeepsServed | tools/CheckGrokJS/server.js:162-174 | the invariant of one connection, in every run |
| GrokStream.CheckServer.Publish | tools/CheckGrokJS/server.js:162-167 | each subscriber is written to exactly once |
| GrokStream.CheckServer.FinishAccount | tools/CheckGrokJS/server.js:228-231 | stores, counts and publishes one result |
| GrokStream.CheckServer.CloseJob | tools/CheckGrokJS/server.js:233-236 | publishes done and drops the subscribers |
| GrokStream.CheckServer.BreakOff | tools/CheckGrokJS/server.js:557-562 | a job that throws is marked, tells its subscribers and drops them |
| GrokStream.CheckServer.Connect | tools/CheckGrokJS/server.js:586-612 | replays, then ends, also for a job that broke off, or subscribes; not found exactly if the job is unknown |
| GrokStream.CheckServer.Disconnect | tools/CheckGrokJS/server.js:614-621 | only ends the subscription |
| VeoStream.StayersAreServed | tools/check_veo/server.js:433-452 | the index-addressed variant: each stored result exactly once, in whatever order, then done once all slots are filled |
| VeoStream.EveryoneIsLetIn | tools/check_veo/server.js:433-436 | until the job is forgotten, whoever asks is connected |
| VeoStream.FinishedExactly | tools/check_veo/server.js:337-351 | in every run the job is finished if and only if it has slots and all of them are filled |
| VeoStream.GoneHearNothing | tools/check_veo/server.js:449-451 | whoever left is sent nothing more |
| VeoStream.ForgottenIsClosed | tools/check_veo/server.js:433-436 | once the job is forgotten, nobody is let in any more |
| VeoStream.WorkerGetsEveryResult | tools/check_veo/server.js:337-351 | end to end, wherever the bytes of the stream are cut: the worker resolves with the full table of slots if no chunk begins inside a character, and with an entry for every slot in any case |
| VeoStream.CheckServer.CompleteAccount | tools/check_veo/server.js:337-351 | fills its slot, tells the listeners, and closes the job with the last one |
| VeoStream.CheckServer.Connect | tools/check_veo/server.js:433-448 | replays the filled slots in index order, then ends or listens |
| VeoStream.CheckServer.Disconnect | tools/check_veo/server.js:449-451 | removes the connection from the listeners |
| ProxyString.RoundTripExactly | tools/CheckGrokJS/toolgrok.js:253-297 | for every proxy value: printing and parsing gives it back, up to a null versus an empty password, if and only if its scheme is lower case, holds no scheme mark and does not start with white space or '#', its user is absent (then without password) or non-empty without ':', its host has no '@' and its port is not zero |
| ProxyString.ReprintedProxyIsStable | tools/CheckGrokJS/toolgrok.js:327-396 | a proxy parsed from any text survives print and parse exactly unless its user is empty or its host holds an '@' |
| ProxyString.ParsedShape | tools/CheckGrokJS/toolgrok.js:253-283 | whatever the text, a parsed proxy has a plain scheme, and it is printable exactly unless its user is empty or its host holds an '@' |
| ProxyString.ColonFormReads | tools/CheckGrokJS/toolgrok.js:270-283 | host:port:user:password and host:port:user read as exactly these parts, for HTTP |
| ProxyString.NumberReads | tools/CheckGrokJS/toolgrok.js:281 | a port reads up to the first character that is no digit, with or without a sign |
| ProxyString.HexReads | tools/CheckGrokJS/toolgrok.js:281 | hexadecimal ports read in base sixteen, in either case of the digits |
| ProxyString.LettersLower | tools/CheckGrokJS/toolgrok.js:263 | the scheme loses its capital letters, and nothing else of it changes |
| ProxyString.EmptyUserIsLost | tools/CheckGrokJS/toolgrok.js:293-297 | an empty user is never printed and so never comes back |
| ProxyString.PortlessHostIsCutExactly | tools/CheckGrokJS/toolgrok.js:278-282 | for every text that parses: the host is the text left for host and port without its last character, and that character is no colon, if and only if no colon is left, and then that whole text is read as the port; otherwise host and port are the two sides of the last colon |
| ProxyLock.EntersExactlyInTurn | tools/CheckGrokJS/toolgrok.js:31-38 | in every run a waiting call can start exactly when all earlier calls of its key have settled, fulfilled or rejected; other keys play no part |
| ProxyLock.StartedInTurn | tools/CheckGrokJS/toolgrok.js:31-38 | first come, first served |
| ProxyLock.NeverTwoInBody | tools/CheckGrokJS/toolgrok.js:31-38 | mutual exclusion per key |
| ProxyLock.ChainWaitsForAll | tools/CheckGrokJS/toolgrok.js:33-36 | the chained promise of a key resolves exactly when all its calls have been released |
| ProxyLock.TurnComes | tools/CheckGrokJS/toolgrok.js:31-38 | unless an earlier body throws at once, a waiting call's turn can always come, whichever of the bodies ahead are fulfilled and whichever rejected |
| ProxyLock.SettlingLetsNextIn | tools/CheckGrokJS/toolgrok.js:35-37 | when a body settles, fulfilled or rejected, its call is over and the next waiting call of the key can start, which it could not before |
| ProxyLock.SettledExactly | tools/CheckGrokJS/toolgrok.js:31-38 | over every run a call is over if and only if some settlement of it, of either kind, came after it started; and it has started and is not over exactly while it is in its body |
| ProxyLock.ThrownBlocks | tools/CheckGrokJS/toolgrok.js:37 | a body that throws at once blocks its key for good |
| ProxyLock.LockTable.WithProxyLock | tools/CheckGrokJS/toolgrok.js:32-38 | links the call behind all earlier ones of its key |
| ProxyLock.LockTable.TryStart | tools/CheckGrokJS/toolgrok.js:37 | starts the body exactly if the chained promise has resolved |
| ProxyLock.LockTable.Finally | tools/CheckGrokJS/toolgrok.js:37 | the call is over and its latch open, whichever way the body settled |
| ResultsCsv.CsvComesBack | tools/CheckGrokJS/toolgrok.js:1680-1718 | for all field contents the written file, read by the rules of section 2 of RFC 4180 after the byte-order mark, gives back exactly the stringified rows (of two or more fields) |
| ResultsCsv.SavedTableReadsBack | tools/CheckGrokJS/toolgrok.js:1686-1719 | the saved table reads back cell by cell: header, then one record of eleven fields per account, in order |
| ResultsCsv.SavedCodeTellsOutcome | tools/CheckGrokJS/toolgrok.js:1675-1696 | the code in the first column of the saved table tells exactly which of the seven outcomes an account had |
| ResultsCsv.SavedRowTells | tools/CheckGrokJS/toolgrok.js:1640-1705 | every record of the saved file, read back: code and name tell exactly which plan or which error the account had, and the other nine columns are the account's own and those of its check |
| ResultsCsv.LineInGroup | tools/CheckGrokJS/toolgrok.js:1689-1691 | every account's line, in either form, is in the group of its outcome |
| ResultsCsv.FilesAre | tools/CheckGrokJS/toolgrok.js:1707-1715 | the files are exactly those of the non-empty groups, each with its group's lines |
| ResultsCsv.GroupsPartition | tools/CheckGrokJS/toolgrok.js:1687-1705 | the groups lose no account and list none twice |
| ResultsCsv.Tabulate | tools/CheckGrokJS/toolgrok.js:1686-1705 | one pass fills the seven groups and the table |
| ResultsCsv.GroupFiles | tools/CheckGrokJS/toolgrok.js:1707-1715 | one file for each non-empty group, in the fixed order |
| ResultsCsv.SaveResults | tools/CheckGrokJS/toolgrok.js:1686-1718 | groups, files and CSV text of a run |
| ParallelLimit.AtMostLimitInFlight | apps/worker/src/account-check.ts:83-99 | under every interleaving at most limit tasks are in flight |
| ParallelLimit.EachTaskOnce | apps/worker/src/account-check.ts:90-96 | no task is called twice; one that was called is in flight or has its own result stored at its own index |
| ParallelLimit.StaggersExactly | apps/worker/src/account-check.ts:90-96 | over every interleaving a started task has waited in its drain if and only if the stagger is on and it is not the first |
| ParallelLimit.ResultsAreSequential | apps/worker/src/account-check.ts:83-99 | when all drains have returned the results are those of the sequential map, if and only if the limit is at least one or there is no task |
| ParallelLimit.Progress | apps/worker/src/account-check.ts:90-97 | a drain that has not returned can always go on, and that lowers the work left |
| ParallelLimit.DrainPool.Advance | apps/worker/src/account-check.ts:90-96 | one drain from await to await |
| ParallelLimit.RunParallel | apps/worker/src/account-check.ts:83-99 | scheduling the drains in any order terminates with the sequential results |
| RetryEngine.PickIsRight | apps/worker/src/account-check.ts:1067-1087 | the pick is the first healthy proxy in circular order, or the stated fallback if the pool has none |
| RetryEngine.DeadMarkIsShared | apps/worker/src/account-check.ts:715-728 | dead marks are filed under host and port: neither scheme nor credentials, which may contain '@', change the key |
| RetryEngine.ColonFormIsShared | apps/worker/src/account-check.ts:715-728 | so are those of the form without scheme and with trailing credentials, whatever colons these hold |
| RetryEngine.MarkedHostIsNeverUsed | apps/worker/src/account-check.ts:1045-1062 | if a job's snapshot is taken from the dead marks, none of its attempts uses a proxy whose host and port are marked, however it is written |
| RetryEngine.NeverBareAddress | apps/worker/src/account-check.ts:1067-1087 | with proxies required, an attempt uses a healthy proxy of the pool or the job aborts, and it aborts exactly if none is left |
| RetryEngine.NoPoolNoChoice | apps/worker/src/account-check.ts:1067-1087 | without a pool the job's own proxy is used if it has one, else the job aborts or goes without, as required; a pool without a healthy proxy is never replaced by the job's own |
| RetryEngine.PickHealthyProxy | apps/worker/src/account-check.ts:1067-1087 | the loop computes that pick |
| RetryEngine.RetriesAreSound | apps/worker/src/account-check.ts:1337-1425 | through both loops and for every account: a verdict that is dead, still paid or one of the seven errors that are not retried is never re-run or replaced, the stored result is the account's own last attempt's, and re-runs are at most the two retry counts together |
| RetryEngine.JobIsSound | apps/worker/src/account-check.ts:1324-1425 | the same for whole jobs, first parallel run included |
| RetryEngine.HistoryExactly | apps/worker/src/account-check.ts:1337-1425 | over whole jobs, attempt by attempt: a result that is dead, still paid or has one of the seven errors that are not retried is the account's last and stands; one without a parsed answer is followed by the next attempt of the first loop while there is one; any other by the next of the second loop while there is one; and nothing else is attempted |
| RetryEngine.EveryAttemptIsRight | apps/worker/src/account-check.ts:1161-1168 | every attempt of a job, the first included, was made with the proxies that the job had recorded as failed before its pass began |
| RetryEngine.ProxiesAreRight | apps/worker/src/account-check.ts:1067-1087 | so with proxies required every attempt used the first proxy, in circular order from its account's start plus its offset, that was neither marked dead nor recorded as failed by then |
| RetryEngine.FailedGrows | apps/worker/src/account-check.ts:1328-1336 | the record of failed proxies only grows |
| RetryEngine.DeadProxiesAreLeftAlone | apps/worker/src/account-check.ts:1328-1425 | over whole jobs: once a proxy has died under some account's first attempt, or under any attempt of the second loop, no account's later attempt uses it |
| RetryEngine.PassAt | apps/worker/src/account-check.ts:1345-1367 | one pass re-runs exactly the accounts it is for, once each, and leaves all others alone |
| RetryEngine.LoopsRunOut | apps/worker/src/account-check.ts:1345-1350 | a loop stops early only when no account is left that it would run again |
| RetryEngine.FirstLoopRecordsNothing | apps/worker/src/account-check.ts:1345-1367 | whatever dies in the first loop, the record is the same in all its passes |
| RetryEngine.FirstLoopDeathIsReusedExactly | apps/worker/src/account-check.ts:1337-1425 | the proxy of an attempt in the first loop, whether it died there or not, is used by a later attempt of any account if and only if it is not recorded by then and no healthy proxy comes before it, in circular order from that attempt's start; up to the first pass of the second loop it is not recorded |
| RetryEngine.OnlyProxyIsReused | apps/worker/src/account-check.ts:1337-1425 | a job with such a run: no answer, death of the proxy, and the same proxy again |
| RetryEngine.CheckJob.RunLoop | apps/worker/src/account-check.ts:1345-1367 | one loop, with the abort when a proxy is required and none is left |
| RetryEngine.CheckJob.RetryAll | apps/worker/src/account-check.ts:1337-1425 | recording, first loop, second loop |
| RetryEngine.CheckJob.RecordFailed | apps/worker/src/account-check.ts:1328-1337 | records the proxies of all results that say proxy_die |
| RetryEngine.CheckJob.RunFirst | apps/worker/src/account-check.ts:1067-1110 | the first parallel run, with the abort when proxies are required and none is live |
| RetryEngine.CheckJob.RunJob | apps/worker/src/account-check.ts:1324-1425 | first run, recording and both loops compute the whole job |
| CheckRow.OneEndingPerOpening | apps/worker/src/account-check.ts:1495-1542 | in every interleaving of jobs, sweep, failure handler, queueing and clearing: between two terminal writes there is a new start or queueing, and callbacks are as many as terminal writes |
| CheckRow.EndingsComeFrom | apps/worker/src/account-check.ts:1497-1542 | in every run only a run's own positive verdict completes a check; what the sweep and the failure handler end is failed |
| CheckRow.ResetClears | apps/api/src/warranty/warranty.service.ts:1451-1457 | a reset leaves neither a check nor a job id on the row, but the count of attempts |
| CheckRow.InFlightIsFailed | apps/worker/src/account-check.ts:1575-1653 | sweep and handler fail every check in flight, with one callback, and leave all others alone |
| CheckRow.RunKeepsGood | apps/worker/src/account-check.ts:1575-1599 | each terminal write directly follows the opening it closes, that of a run a start; the row's count of attempts tells the starts of a claim apart, although all its jobs have one id |
| CheckRow.EndsOwnStartExactly | apps/worker/src/account-check.ts:1497-1530 | the last write of a run that lands closes that run's own start if and only if the claim was not started again since, that is, if the row still bears the number of attempts that the start wrote |
| CheckRow.RunOwnsExactly | apps/worker/src/account-check.ts:1492-1530 | over every interleaving: all endings by runs close their own starts if and only if no last write lands after a newer start of the claim |
| CheckRow.SeparateRunsOwn | apps/worker/src/account-check.ts:1613-1630 | as long as runs of a claim do not overlap, each ends only its own start, whatever sweep, handler and queueing side do |
| CheckRow.OldRunEndsNewCheck | apps/api/src/lib/queue.service.ts:160-187 | for every state in which a run has lost its row but is still going, and every later run: after a recheck the old run's last write ends the new check, and the new run's own verdict is lost |
| CheckRow.OldRunIsReachable | apps/worker/src/account-check.ts:1575-1599 | such states come about for any two runs, by a sweep and by the failure handler |
| CheckRow.VerdictLandsExactly | apps/worker/src/account-check.ts:1497-1523 | a run's verdict lands on its own start if and only if nothing moved the row since: no sweep, no failure handler, no other start, no queueing write or diversion, and no last write of any other run of the claim; a reset cannot interfere, as it is refused while a check is in flight |
| CheckRow.StaleJobIsMute | apps/worker/src/account-check.ts:1497-1523 | once the row is not running under the claim's id, no last write of any run changes its status or fires the callback until the claim is started again, in any run without a start |
| CheckRow.HandlerEndsOwnCheckExactly | apps/worker/src/account-check.ts:1631-1653 | the check that the failure handler ends is its own run's if and only if the claim was queued or started for that run, and for no other since |
| CheckRow.OldFailureEndsNewCheck | apps/worker/src/account-check.ts:1631-1653 | from every state in which a run has lost its row: after a recheck, the late failure of the old run fails the new check |
| CheckRow.ClaimRow.EndIfOwned | apps/worker/src/account-check.ts:1497-1523 | the guarded update changes the row exactly if it is running under this job's id |
| CheckRow.ClaimRow.FinishJob | apps/worker/src/account-check.ts:1497-1542 | one guarded write, and the callback exactly if it landed |
| CheckRow.ClaimRow.SweepOne | apps/worker/src/account-check.ts:1575-1599 | a stuck check fails exactly if still in flight and not known to be alive |
| CheckRow.ClaimRow.Reset | apps/api/src/warranty/warranty.service.ts:1412-1457 | the reset for a recheck, refused exactly while a check is in flight |
| CheckRow.ClaimRow.OnJobFailed | apps/worker/src/account-check.ts:1631-1653 | fails whatever check is in flight on the claim |
| Stock.CompareOrders | apps/worker/src/stock.ts:38-55 | the five-key comparator is antisymmetric, transitive, and ties only candidates with the same id |
| Stock.SaleTakesTheFirst | apps/worker/src/stock.ts:13-59 | a sale succeeds exactly if the available count suffices, and takes that many different sellable entries, each before every sellable one that stays |
| Stock.SaleGoesByColumns | apps/worker/src/stock.ts:30-56 | in the columns of entry and batch: a sale takes its entries in the order no batch first, then higher priority, older batch, older upload, smaller id, and each of them before every sellable entry that stays |
| Stock.ListingOrderIsIrrelevant | apps/worker/src/stock.ts:13-56 | the entries taken do not depend on the order in which the database lists them |
| Stock.CandidatesAre | apps/worker/src/stock.ts:87-103 | the count of available entries is the number of candidates, and the candidates are exactly the sellable entries |
| StockRoom.RunKeepsGood | apps/worker/src/stock.ts:60-84 | over any run of sales and uploads no entry is sold twice, each sale's entry bears its buyer, and a batch is closed exactly when it has no available entry |
| StockRoom.SaleCounts | apps/worker/src/stock.ts:60-103 | a sale lowers its product's available count by exactly the quantity and no other product's, although it may close batches |
| StockRoom.CounterStaysRight | apps/worker/src/stock.ts:105-122 | a stored counter that was right before a sale is right after it; the clamp hides no difference, and sold plus available stays the same |
| StockRoom.RecountRightExactly | apps/api/src/internal-source/internal-source.service.ts:2148-2153 | the counter stored by an internal delivery is the availability count if and only if no available entry of the product was unsellable |
| StockRoom.StrandedMeansExpired | apps/api/src/internal-source/internal-source.service.ts:2148-2153 | and those are exactly the available entries of expired batches |
| StockRoom.StockTables.PopManualStockEntries | apps/worker/src/stock.ts:4-85 | nothing on a shortage; otherwise texts, cost and ids of the taken entries, which are the first in the order of the columns, are marked as sold, and emptied batches are closed |
| StockRoom.StockTables.CloseEmptied | apps/worker/src/stock.ts:71-83 | closes exactly the touched batches with nothing left |
| StockRoom.InternalDelivery.Deliver | apps/api/src/internal-source/internal-source.service.ts:2112-2227 | stock moves exactly when the order is delivered; the stored counter becomes the recount, and the metadata list the one read before the locks without the texts handed out; shortage, unsafe margin and a non-pending order leave every entry, batch, counter and list as it was |
| StockRoom.InternalDelivery.Record | apps/api/src/internal-source/internal-source.service.ts:2141-2195 | what the delivery writes to the product: counter, sold count and the list that was read, without the texts handed out |
| DeliveryList.ListRightExactly | apps/api/src/internal-source/internal-source.service.ts:2081-2195 | over every run of deliveries from stock: the metadata list is throughout what it was without everything handed out, if and only if no delivery writes back a text that another one has handed out since it read |
| DeliveryList.StepExact | apps/api/src/internal-source/internal-source.service.ts:2141-2195 | one delivery keeps the list right exactly if every text that others have handed out since the read stands on the list read no more often than the delivery hands it out itself |
| DeliveryList.TextsComeBack | apps/api/src/internal-source/internal-source.service.ts:2081-2195 | of two deliveries that read the same list, the one that commits last brings back what the other one handed out and it does not |
| LegacyShelf.HandedOnceExactly | apps/api/src/internal-source/internal-source.service.ts:2229-2311 | over every run of legacy deliveries: no text is handed out twice if and only if no other legacy commit of the product lands between a read and its commit, and then the texts handed out are the front of the shelf, in order |
| LegacyShelf.StepExact | apps/api/src/internal-source/internal-source.service.ts:2258-2311 | a commit keeps that exactly if it is not late; a late one hands out its first text again |
| LegacyShelf.ServedOnce | apps/api/src/internal-source/internal-source.service.ts:2258-2271 | however many calls have read for an order, it is handed texts at most once, and never once it is closed |
| LegacyShelf.TwoOrdersOneText | apps/api/src/internal-source/internal-source.service.ts:2056-2084 | two orders that read before either commits are given the same text |
| LegacyShelf.ShelfRows.ReadShelf | apps/api/src/internal-source/internal-source.service.ts:2072-2084 | the read before the locks, taken exactly for a pending order whose quantity the texts cover |
| LegacyShelf.ShelfRows.CommitLegacy | apps/api/src/internal-source/internal-source.service.ts:2258-2311 | delivers exactly if the order is still pending, and writes back what was left at the read |
| StockRoom.SpliceDelivered | apps/api/src/internal-source/internal-source.service.ts:2142-2147 | delivered texts leave the metadata list, each once, as far as they are in it |
| Ranking.SortIgnoresOrder | apps/worker/src/stock.ts:37-55 | sorting by a strict total order forgets the order of its input |
| Ranking.TextLessExactly | apps/worker/src/stock.ts:54 | texts are ordered by their first difference, the end of a text counting as least |
| SourceWatch.IntervalIsLeast | apps/worker/src/source-watch.ts:106-116 | the interval is the least one that reaches the target and keeps one request per group within the rate |
| SourceWatch.NoGroupsNoRequests | apps/worker/src/source-watch.ts:95-99 | nothing is asked exactly if there are no groups, and then at the target interval |
| SourceWatch.ScheduleKeepsItsBounds | apps/worker/src/source-watch.ts:95-124 | 1 <= batch <= groups; a sweep of ceil(groups / batch) ticks starts its last tick within the interval; a batch exceeds what the rate allows in a tick by less than one request |
| SourceWatch.FingerprintIsCanonical | apps/worker/src/source-watch.ts:54-66 | two stock lists have the same text exactly when their normalised rows are equal as multisets (ids without NUL or line feed; blank ids dropped) |
| SourceWatch.ChangeTells | apps/worker/src/source-watch.ts:54-66 | changing one product of a list changes its text if and only if the trimmed id, the whole count or the visibility changes, unless it has no id both times |
| SourceWatch.RowTells | apps/worker/src/source-watch.ts:61 | a row text determines id, availability and visibility |

## Left out

- OrderMoney: the USDT mirror, the connection's own ledger and the event rows of these transactions are not modelled.
- OrderMoney: a full warranty cascade pays an internal order back under another reference and sets it to CANCELED (apps/api/src/warranty/warranty.service.ts:2731); this write is not one of its steps.
- OrderMoney.OrderDesk.FailOrder: a wallet created on the fly for a customer without one is not modelled; `linked` says whether connection and customer exist.
- WorkerWallet.ConnectionWallet.DebitBalance: the lookups of connection and customer before the lock, and their errors, are not modelled; an unusable rate falls back to a positive one before the call. USDT is a real number, without the database's rounding.
- WorkerWallet.RunKeepsPaired: only postings that carry the worker's kinds and the id of the order itself are kept out of its run.
- Refunds.RefundDesk.RefundToWallet: the amount is taken to be positive, as request validation demands. Clawback amounts are rounded to hundredths, ties upwards.
- TopUps.TopUpDesk.MarkTopUpPaid: the conversion to USDT is a parameter; notifications and the audit row written after the transaction are not modelled.
- `manualAdjustConnectionBalance` and `topUpConnectionByRecord` read the wallet before they lock it, so they do not belong to the interleaved ledger theorem.
- Campaign: start stamps of different workers are taken to be distinct and group ids not blank; pausing by an operator, database errors, and the modes that write to group members are not modelled. Without Redis there is no session lock at all.
- SseReader.StreamReader.OnData: a text is a sequence of code points, not of UTF-16 units. The end or failure of the connection and the deadline also finish a batch in the source and are not modelled. JSON parsing is a parameter.
- GrokStream, VeoStream: a failed write to a connection is taken for a connection that leaves. The total of both servers is fixed when the job is created, as in the source.
- ParallelLimit: tasks do not throw; a throwing task rejects the whole map in the source.
- ProxyString.RoundTripExactly: lower case is that of ASCII letters, and ports are unbounded integers, printed without exponent.
- ProxyLock: tasks enter when the promise they wait for has resolved; the order in which the event loop runs callbacks of different keys is left open.
- LegacyShelf.HandedOnceExactly, DeliveryList.ListRightExactly: uploads to a product's texts between a read and its commit, which the commit overwrites, are not modelled. On the legacy shelf the texts are taken to be different at the start.
- CampaignWorker.EnqueueDue: the query for due campaigns, which lists the first hundred by time, is a parameter.
- RetryEngine: the HTTP fast paths are not modelled, and the tool's answer to each attempt is a parameter; progress counters, dead marks written at the end of the job and the per-domain counters are not modelled. Whether an account is skipped because its domain is known to be dead is a parameter.
- RetryEngine.PassAt: error types are taken to be in lower case, as the source makes them before it compares.
- CheckRow: jobs for disabled tools, the guard that refuses a recheck while a result is being applied, and the progress column are not modelled; database errors count as a write that did not land. Runs are numbered freely, so the queue's own rule, that a job is added again only when the one before it is finished or removed, is not assumed.
- CutStreams.EveryIndexArrives: that replacing characters inside JSON strings changes neither whether a text parses nor its index is a hypothesis on the parser.
- StockRoom.InternalDelivery.Deliver: the buyer written by the worker's variant is also written here. The internal service compares ids with `localeCompare`; the worker's comparison by code units is modelled for both. Batches that an administrator deletes while they still hold available entries are outside StockRoom.RunKeepsGood.
- Stock.SaleTakesTheFirst: sorting is a library call in the source; it is modelled by a sorting function on sequences, not in place.
- ResultsCsv.SaveResults: file names and writing to disk are left out; the source's loop is split over three methods.
- SourceWatch.FingerprintIsCanonical: the SHA-256 of the text is not modelled. Reported counts are real numbers or unreadable, and are printed in full.
- Browser pools, login flows, scraping, HTTP, Telegram, BullMQ and Redis transport, encryption, and the web application.
