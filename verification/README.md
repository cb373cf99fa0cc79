# Trace: a verified model of the marketplace and its protocols

Trace is a marketplace for reclaimed building materials. Hubs register
materials as passports, list them as lots, sell parts of a lot, and have the
passports inspected and anchored on a chain. This project models the parts of
it where several rows, several people or several processes have to agree, and
proves what they promise.

## What is modelled

**Lots, orders and passports** (`Lots`, `LotInvariant`, `OrderLog`, `Runs`,
`Effects`, `Offers`, `OrderActions`, `Market`). A table is a sequence of rows and a row's
id is its position. `Lots` specifies each service function as one transaction
from tables to tables, refusals included; `Market` is the same service as a
class whose methods update the tables statement by statement, each proved to
compute its specification. `LotInvariant` is what every operation keeps,
`OrderLog` what an order's recorded steps say, and `Runs` both of them over
every sequence of requests. `Effects` and `Offers` say of each request, on the rows'
own columns and with every number written out, who may make it and what it
leaves. `OrderActions` holds the decisions about a step
against the documented list of steps.

**Time limits and the sweep** (`Sweep`, `SweepBatch`, `Starvation`). Under the invariant the
tables are a function of the order rows and of a skeleton no order step
touches; confluence of the sweep, and its commuting with people's actions,
follow from that.

**Concurrency** (`RowLocks`, `LockRuns`). The transactions again, one database
access at a time, on row locks, under arbitrary schedules.

**The data checker** (`InvariantCheck`). The checker's maps and loops against
a declared invariant, and that invariant against the marketplace.

**Login backoff** (`LoginBackoff`). The counting, and the amortised bound on
guesses.

**Anchoring** (`Anchor`, `AnchorOverlap`, `AnchorTransactions`,
`AnchorWorker`, `SimulatedAnchor`). One passport with its row, the registry,
the log of transactions and any number of interleaved jobs; exactly when
overlapping jobs leave row and registry agreeing, and when the row's
transaction is the one that anchored its fingerprint; the worker's sweep over
all passports with its batch limits and its queue; and the fingerprint stored
without a chain, over the columns that make the hashed document.

**Wallets, storage, uploads** (`OrganisationWallet`, `ObjectStore`,
`PhotoQuota`). The claim of a custodial wallet, write-once files, and uploads
under a passport lock and a quota lock, each under arbitrary schedules.

**Grades** (`Grades`). Who sets a material's grade over whole histories of
reports and edits, the guard and the write of an edit together or apart, and
what a buyer is told about it.

**The demonstration catalogue** (`Catalogue`, `Replenish`). Which passport is a
product's lot, which spares may be deleted, and the top-up over the
marketplace's own tables and invariant.

**Algorithms** (`Sorting`, `Schedules`, `JsonText`, `StableJson`,
`JsonReader`, `Calendar`, `London`, `Slugs`). The canonical JSON printer against
a reader of JSON text, the end of a day in London, and the
search for a free slug. `Wrappers` holds optional values and results.

## Where the code does less than it intends

Each of these is proved, with the exact condition or with a concrete history.

- An edit that shrinks only a lot's quantity can leave its minimum order above
  it (`Runs.MinimumSurvivesEdit`, `Runs.ShrinkBreaksMinimum`).
- At the instant a listing expires it reads as expired and still takes orders
  (`Offers.ExpiredLotSellsAtItsLastInstant`).
- Listings that wait for open orders can fill every batch of the sweep, so
  that another listing past its date is never expired, however often the sweep
  comes (`SweepBatch.ExpiryProgressCondition`, `Starvation.ListingsCanStarve`).
- Two overlapping anchor jobs for one passport can leave the registry and the
  row disagreeing (`Anchor.OverlapCanDisagree`). They agree exactly when
  nothing was accepted after the last writer of the row last looked at the
  registry, or what was carries its fingerprint
  (`AnchorOverlap.AgreeExactlyWhen`); overlap in order is safe
  (`AnchorOverlap.InOrderIsSafe`).
- A transaction whose receipt was lost is never restored
  (`Anchor.LostReceiptStays`), and the row can then show an earlier one
  (`AnchorTransactions.TransactionIsTrueWhen`,
  `AnchorTransactions.TransactionCanBeStale`).
- Two overlapping edits can leave a stored fingerprint of the older one: the
  check matches exactly when the last writer of the row stored its fingerprint
  last, or both wrote the same document (`SimulatedAnchor.MatchesExactlyWhen`,
  `SimulatedAnchor.OverlappingEditsMismatch`).
- An edit's guard is checked before the write. Authority over the grade stands
  exactly when the guard would still pass on the row being written
  (`Grades.AuthorityStandsWhen`); an edit that overlaps an inspection, or one
  that repeats an inspected grade, can break it
  (`Grades.OverlappingEditOverrides`, `Grades.RepeatedGradeOverrides`).
- A seller's check that repeats a grade the platform set is named for it
  (`Grades.BasisOfInspected`).
- A date before the year 100 is taken for one of the twentieth century
  (`London.RefusesNonDates`).
- A slug that already ends in its own number costs the search one look-up more
  (`Slugs.TakenCandidates`, `Slugs.RepeatsWhen`).
- `locate` is documented to answer null for a URL that is not the store's own.
  It looks at the decoded path alone, so the origin does not matter
  (`ObjectStore.LocatesItsPath`). It undoes `urlFor` exactly for places whose
  path decodes to itself, so under a base path with an encoded character it
  loses every object's own URL (`ObjectStore.RoundTripWhen`,
  `ObjectStore.BaseServesWhenPlain`).

## Inputs taken as parameters

Clock readings, random draws, the order in which an unordered query returns
rows, the outcome of a password comparison, and the digest, key-to-address and
percent-decoding functions are parameters. The bounds that request schemas
check before a service function is called are preconditions (`Runs.Valid`).
A fingerprint stands for the hashed data it is computed from.

## Model

| member | source | states |
|---|---|---|
| `LotInvariant.SettleRestores` | packages/api/src/modules/marketplace/marketplace.service.ts:472-511 | Whatever order rows were just written, settling the lot by the stock they leave and their open count restores the whole invariant: stock equation, exact status, passport following, one live listing a passport. |
| `LotInvariant.CreateKeeps` | packages/api/src/modules/marketplace/marketplace.service.ts:61-137 | A created listing keeps the invariant. |
| `LotInvariant.EditKeeps` | packages/api/src/modules/marketplace/marketplace.service.ts:550-647 | An edit, a reopening of an expired listing included, keeps the invariant. |
| `LotInvariant.CancelKeeps` | packages/api/src/modules/marketplace/marketplace.service.ts:649-691 | Cancelling keeps the invariant, so no open order sits on a cancelled listing. |
| `LotInvariant.ExpireKeeps` | packages/api/src/modules/marketplace/marketplace.service.ts:1063-1085 | Expiring keeps the invariant, so no open order sits on an expired listing. |
| `LotInvariant.OfferKeeps` | packages/api/src/modules/marketplace/marketplace.service.ts:731-823 | An order placed keeps the invariant. |
| `LotInvariant.StepKeeps` | packages/api/src/modules/marketplace/marketplace.service.ts:930-989 | Every order step along the transitions keeps the invariant, and the clamp of returned stock to the lot's quantity never bites. |
| `LotInvariant.CloseKeeps` | packages/api/src/modules/marketplace/marketplace.service.ts:996-1020 | A step taken by a time limit keeps the invariant. |
| `LotInvariant.TakeStepKeeps` | packages/api/src/modules/marketplace/marketplace.service.ts:1103-1160 | A step taken by a person keeps the invariant, whatever is asked by whomever. |
| `Runs.EveryRunKeeps` | packages/api/src/modules/marketplace/marketplace.service.ts:455-1160 | Over every sequence of requests from a marketplace with nothing listed, the invariant and the order log's rules hold throughout. |
| `Runs.StockIsConserved` | packages/db/scripts/lib/invariants.ts:103-124 | In every run and for every lot, sold plus held plus available units are the quantity, through every price and quantity edit. |
| `Runs.LogReplays` | packages/api/src/modules/marketplace/marketplace.service.ts:930-989 | In every run the order's recorded steps form one path from placing to its row's status, of at most three steps after placing, with exactly one sale event for a completed or resolved order and none for another. |
| `OrderLog.AtMostThreeSteps` | packages/api/src/modules/marketplace/marketplace.service.ts:856-864 | Any path along the transitions has at most three steps after placing: the statuses have a rank every step raises. |
| `OrderLog.StepKeepsLog` | packages/api/src/modules/marketplace/marketplace.service.ts:930-989 | A step extends the order's path, is in time, and records a sale for exactly a completed or resolved outcome. |
| `OrderLog.ActKeepsLog` | packages/api/src/modules/marketplace/marketplace.service.ts:1091-1160 | A person's request, refused or not, keeps the log of every order a timely path. |
| `OrderLog.OfferKeepsLog` | packages/api/src/modules/marketplace/marketplace.service.ts:785-820 | Placing an order starts a path for it and leaves the others alone. |
| `OrderLog.NothingDueAfterClosing` | packages/api/src/modules/marketplace/marketplace.service.ts:996-1020 | Once a time limit's step is taken, no time limit is due on that order at that instant. |
| `Runs.StepsBeatDeadlines` | packages/api/src/modules/marketplace/marketplace.service.ts:1098-1119 | In every run, no accepting, rejecting or cancelling of a pending order is recorded at or after its response deadline, and no confirming, flagging or cancelling of a confirmed one at or after its problem deadline. |
| `Runs.AmountIsPriceAtOrdering` | packages/api/src/modules/marketplace/marketplace.service.ts:785-800 | In every run an order's amount is the price its listing asked when it was placed, times its quantity, and within the money limit, whatever edits came since. |
| `Runs.TermsStand` | packages/api/src/modules/marketplace/marketplace.service.ts:930-989 | No request changes an order's listing, parties, quantity or amount, and only placing adds one. |
| `Runs.PassportRequests` | packages/api/src/modules/passport/passport.service.ts:62-112 | A registered passport is off the market without photos, and a photo is one more on its passport alone. |
| `Runs.MinimumSurvivesEdit` | packages/api/src/modules/marketplace/marketplace.service.ts:596-601 | An accepted edit keeps the minimum order within the lot exactly when it carries a minimum, leaves the quantity alone, or leaves at least the old minimum. |
| `Runs.ShrinkBreaksMinimum` | packages/api/src/modules/marketplace/marketplace.service.ts:596-601 | The run that breaks it: a lot of ten sold in fives is cut to three. |
| `Market.Marketplace.OrderRow` | packages/api/src/modules/marketplace/marketplace.service.ts:742-800 | An offer's row is made if and only if the listing is on sale and in time, the asker is not its seller, the quantity fits the stock less any held-back unit and is the minimum or all of it, and the amount is within the limit; the row then has that quantity and the price times it. |
| `Effects.EveryListingStands` | packages/db/scripts/lib/invariants.ts:103-198 | In every state the marketplace keeps, on the rows' own columns: units available, held and bought sum to the quantity; a listing is active, reserved or sold exactly as stock and open orders say, its passport listed, reserved or sold with it; no closed listing has an open order; and no two listings of a material are live. |
| `Effects.ListingIsCreatedWhen` | packages/api/src/modules/marketplace/marketplace.service.ts:61-137 | A listing is created if and only if the passport exists, is the organisation's, has a photo and is draft, active or installed; every column of the new row, the passport's status and the history entry are given, and each refusal is told apart. |
| `Effects.ListingIsEditedWhen` | packages/api/src/modules/marketplace/marketplace.service.ts:550-647 | On raw columns: when an edit is accepted, and that price, quantity, minimum and date are each the request's or the old value, the seller, organisation and passport stay, and no other row changes. |
| `Effects.EditIsRefusedFor` | packages/api/src/modules/marketplace/marketplace.service.ts:559-632 | Why an edit is refused, error by error. |
| `Effects.ListingIsCancelledWhen` | packages/api/src/modules/marketplace/marketplace.service.ts:649-691 | A listing is cancelled if and only if it is the organisation's, active or reserved, and no order on it is pending, confirmed or disputed; its passport becomes free and nothing else changes. |
| `Effects.ListingExpiresWhen` | packages/api/src/modules/marketplace/marketplace.service.ts:1063-1085 | The sweep expires a listing if and only if it is active, past its date and without an open order, and frees its passport. |
| `Effects.StepIsTakenWhen` | packages/api/src/modules/marketplace/marketplace.service.ts:697-721 | On an order that is not overdue a step is taken if and only if the status is the step's and the asker is the buyer, the user who listed the lot or whoever sells for its organisation (hub administrator, hub staff or supplier), or the platform administrator, as that step requires; the order, stock, history and logged side afterwards are given column by column. |
| `Effects.LimitsTakeTheirStep` | packages/api/src/modules/marketplace/marketplace.service.ts:904-1020 | An order unanswered for 72 hours is cancelled and one whose problem window has passed is completed, with the record a time limit leaves; otherwise nothing happens. |
| `Effects.OverdueStepIsRefused` | packages/api/src/modules/marketplace/marketplace.service.ts:1098-1139 | On an overdue order only the limit's step is taken, and whoever asks for whatever is refused: with the limit's own error if the step was theirs to take. |
| `Offers.OfferHasItsEffect` | packages/api/src/modules/marketplace/marketplace.service.ts:785-823 | An order placed has every column as promised, its answer due in 72 hours, takes its units off the lot and nothing else, and leaves every listing standing. |
| `Offers.OfferIsRefusedFor` | packages/api/src/modules/marketplace/marketplace.service.ts:739-784 | Why an order is refused, error by error. |
| `Market.Marketplace.EditRow` | packages/api/src/modules/marketplace/marketplace.service.ts:573-640 | An edit goes through if and only if the listing is live or expired, its new quantity covers the committed units, its minimum fits, its date is ahead, and a reopening finds stock and a free passport; price, quantity, minimum and date are then the request's where it gives them and the old ones otherwise, and the committed units are as many as before. |
| `Offers.OfferIsTakenWhen` | packages/api/src/modules/marketplace/marketplace.service.ts:731-784 | In every state that keeps the invariant, an order is taken if and only if it is a stranger's, in time, within the amount limit, and for at least the minimum or for all that may be ordered. |
| `Offers.OfferTakesItsSize` | packages/api/src/modules/marketplace/marketplace.service.ts:785-823 | A taken order takes exactly its size off the lot, and leaves the held-back unit of a curated lot. |
| `Offers.ExpiredLotSellsAtItsLastInstant` | packages/api/src/modules/marketplace/marketplace.service.ts:188-195 | A listing that reads as expired still takes an order at one instant only, the one it expires at. |
| `Offers.ExpiredLotSells` | packages/api/src/modules/marketplace/marketplace.service.ts:755-757 | And at that instant it does. |
| `OrderActions.StepsAreAsDocumented` | packages/api/src/modules/marketplace/marketplace.service.ts:831-888 | The transition table with its parties allows a step exactly when the documented list of steps has it, to the documented status; a request is forbidden, rather than a conflict, exactly when the list never lets a person of that standing take that step (who has which standing is `Effects.StepIsTakenWhen`). |
| `OrderActions.OfferedIsTaken` | packages/api/src/modules/marketplace/marketplace.service.ts:894-902 | The steps an order list offers its reader, after closing what is overdue, are exactly those that would be taken at that instant. |
| `Market.Marketplace.SettleLot` | packages/api/src/modules/marketplace/marketplace.service.ts:472-511 | Counts the open orders, writes the lot's row, and moves the passport, as the specification of settling says. |
| `Market.Marketplace.CountOpen` | packages/api/src/modules/marketplace/marketplace.service.ts:479-487 | The loop counts exactly the listing's open orders. |
| `Market.Marketplace.CreateListing` | packages/api/src/modules/marketplace/marketplace.service.ts:61-137 | The statements as the code has them compute the specified commit or refusal, leaving the tables alone on refusal. |
| `Market.Marketplace.UpdateListing` | packages/api/src/modules/marketplace/marketplace.service.ts:550-647 | As specified, with every refusal; and, on raw columns, accepted if and only if the edit may be made, every edited column the request's or the old one, every other row unchanged. |
| `Market.Marketplace.CancelListing` | packages/api/src/modules/marketplace/marketplace.service.ts:649-691 | As specified, with every refusal. |
| `Market.Marketplace.MakeOffer` | packages/api/src/modules/marketplace/marketplace.service.ts:731-823 | As specified, with every refusal. |
| `Market.Marketplace.ApplyStep` | packages/api/src/modules/marketplace/marketplace.service.ts:930-989 | The order row, the lot, the passport and both histories after a step are those specified. |
| `Market.Marketplace.CloseIfOverdue` | packages/api/src/modules/marketplace/marketplace.service.ts:996-1020 | Takes the time limit's step if one is due, and says which. |
| `Market.Marketplace.UpdateTransaction` | packages/api/src/modules/marketplace/marketplace.service.ts:1091-1160 | The limit's step persists even when the person's is refused; and, on raw columns, a step on an order that is not overdue is taken if and only if that person may take it in that status, with its whole effect. |
| `Market.Marketplace.ExpireListing` | packages/api/src/modules/marketplace/marketplace.service.ts:1063-1085 | Expires exactly a listing past its date with no open order. |
| `Market.Marketplace.SelectOverdue` | packages/api/src/modules/marketplace/marketplace.service.ts:1045-1049 | The first overdue orders of the scan, up to the limit. |
| `Market.Marketplace.SelectPastDate` | packages/api/src/modules/marketplace/marketplace.service.ts:1058-1062 | The first listings past their date of the scan, up to the limit. |
| `Market.Marketplace.SweepOrderLifecycle` | packages/api/src/modules/marketplace/marketplace.service.ts:1040-1089 | Both loops leave the tables of one specified sweep and count its steps; late orders fall to none if there were at most 500 and by 500 otherwise, and with at most 500 late orders and then at most 500 listings past their date nothing is left late and nothing that could expire. |
| `Sweep.SkeletonDetermines` | packages/api/src/modules/marketplace/marketplace.service.ts:472-511 | Under the invariant, the order rows and what no order step touches determine every listing and passport. |
| `Sweep.SweepIsConfluent` | packages/api/src/modules/marketplace/marketplace.service.ts:1040-1056 | Closing the same orders in any sequence gives the same tables and the same record of every order. |
| `Sweep.CloseAllPointwise` | packages/api/src/modules/marketplace/marketplace.service.ts:1045-1056 | Closing any orders changes exactly the rows that are overdue, each on its own. |
| `Sweep.QueryMatchesTimedStep` | packages/api/src/modules/marketplace/marketplace.service.ts:1023-1032 | The query's condition selects exactly the orders a time limit closes, and never one already closed. |
| `Sweep.ActionCommutesWithLimits` | packages/api/src/modules/marketplace/marketplace.service.ts:1091-1160 | A person's action succeeds exactly when it succeeds after every overdue order is closed at the same instant, and closing them before or after leaves the same tables. |
| `Sweep.ActPointwise` | packages/api/src/modules/marketplace/marketplace.service.ts:1091-1160 | An action leaves one order row moved, the invariant, and no limit due on that order. |
| `SweepBatch.CloseBatchProgress` | packages/api/src/modules/marketplace/marketplace.service.ts:1045-1056 | Each sweep brings the number of overdue orders down by the limit, or to none. |
| `SweepBatch.SweepIsComplete` | packages/api/src/modules/marketplace/marketplace.service.ts:1040-1089 | With at most the limit of due rows of each kind, nothing overdue and no expirable listing is left. |
| `SweepBatch.SweepDoes` | packages/api/src/modules/marketplace/marketplace.service.ts:1045-1085 | The same on raw columns, for every limit and whatever rows the queries meet first. |
| `SweepBatch.SecondSweepDoesNothing` | packages/api/src/modules/marketplace/marketplace.service.ts:1040-1089 | A sweep that leaves nothing due is idempotent at that instant. |
| `SweepBatch.ExpireBatchEffect` | packages/api/src/modules/marketplace/marketplace.service.ts:1058-1087 | A batch expires exactly the expirable listings it selected; those waiting for open orders go on waiting. |
| `SweepBatch.ExpiryProgressCondition` | packages/api/src/modules/marketplace/marketplace.service.ts:1058-1070 | With something to expire, every sweep is sure to expire something exactly when fewer listings than the limit wait for open orders. |
| `Starvation.ListingsCanStarve` | packages/api/src/modules/marketplace/marketplace.service.ts:1058-1085 | For every batch limit, a run of requests from an empty marketplace and an order in which the queries may read the tables, such that any number of sweeps at any instants from the date on change nothing, though the first listing could be expired at each. |
| `Starvation.CloggingClogs` | packages/api/src/modules/marketplace/marketplace.service.ts:930-989 | Listing, ordering, accepting and flagging do lead there: each lot but the first with one disputed order, past its date. |
| `RowLocks.CommitIsSerial` | packages/api/src/modules/marketplace/marketplace.service.ts:472-511 | A transaction that commits from rows still current and an exact count of open orders commits what it would have alone. |
| `LockRuns.CommittedIsSerial` | packages/api/src/modules/marketplace/marketplace.service.ts:479-487 | Under every schedule of any number of offers, edits, order steps, time limits and expiries on row locks, the committed tables and the answers are the serial run's in finishing order. |
| `LockRuns.CountIsExact` | packages/api/src/modules/marketplace/marketplace.service.ts:479-487 | Under every schedule, the unlocked count a transaction settles its lot by is the true one, because every order write happens under its listing's lock. |
| `LockRuns.ConcurrentRunsKeep` | packages/api/src/modules/marketplace/marketplace.service.ts:472-511 | Under every schedule the committed tables keep the marketplace invariant at every moment. |
| `LockRuns.LocksGoUp` | packages/api/src/modules/marketplace/marketplace.service.ts:1103-1115 | Locks are taken order row, then listing row, then passport row. |
| `LockRuns.SomeoneCanStep` | packages/api/src/modules/marketplace/marketplace.service.ts:997-1009 | While a transaction is unfinished, some transaction can step: there is no wait cycle. |
| `LockRuns.StepsRunOut` | packages/api/src/modules/marketplace/marketplace.service.ts:997-1009 | Every step lowers the work left, so no schedule steps for ever. |
| `LockRuns.EveryoneCanFinish` | packages/api/src/modules/marketplace/marketplace.service.ts:565-571 | From every reachable point some schedule finishes all transactions. |
| `LockRuns.SimultaneousOrdersShareExactly` | packages/api/src/modules/marketplace/marketplace.service.ts:739-790 | Of n simultaneous orders of q units on one lot, with q at least the minimum and no unit held back, exactly min(n, available div q) are accepted under every schedule. |
| `InvariantCheck.CheckInvariants` | packages/db/scripts/lib/invariants.ts:81-285 | The loops and maps report a violation exactly when the data breaks that rule for that row, and report no error exactly when the declared invariant holds. |
| `InvariantCheck.CleanMeansNoErrors` | packages/db/scripts/lib/invariants.ts:81-285 | The declared invariant, without maps or loops, is the absence of errors. |
| `InvariantCheck.ReachableIsClean` | packages/db/scripts/lib/invariants.ts:81-285 | On every state the marketplace can reach, the only errors possible are a minimum order an edit outgrew and a stale fingerprint. |
| `InvariantCheck.CheckLive` | packages/db/scripts/lib/invariants.ts:188-198 | Reports exactly the passports with two live listings, from the buckets the listing loop filled. |
| `InvariantCheck.CheckOrder` | packages/db/scripts/lib/invariants.ts:200-249 | Reports exactly the faults of one order row. |
| `InvariantCheck.CheckListing` | packages/db/scripts/lib/invariants.ts:103-186 | Reports exactly the faults of one listing row. |
| `InvariantCheck.CheckCurated` | packages/db/scripts/lib/invariants.ts:254-271 | Reports exactly the catalogue products with two passports. |
| `LoginBackoff.GuessesAreRateLimited` | packages/api/src/modules/auth/login-backoff.ts:15-45 | From any account state, n wrong passwords checked with no sign-in between take at least 3 (n - 6) minutes, letting the window lapse included. |
| `LoginBackoff.CreditBound` | packages/api/src/modules/auth/login-backoff.ts:31-45 | The bound after each attempt, with the minutes of credit the account's count leaves. |
| `LoginBackoff.AllowanceIsTight` | packages/api/src/modules/auth/login-backoff.ts:15-45 | Seven wrong passwords can be checked in three minutes: no smaller allowance holds. |
| `LoginBackoff.WaitIsAtMostFifteenMinutes` | packages/api/src/modules/auth/auth.service.ts:22-39 | A refused attempt is told of a wait between nothing and fifteen minutes. |
| `LoginBackoff.User.LoginUser` | packages/api/src/modules/auth/auth.service.ts:22-43 | When an attempt is refused, checked or counted, and what it leaves on the row. |
| `LoginBackoff.User.RecordFailedLogin` | packages/api/src/modules/auth/login-backoff.ts:31-45 | The update, every right-hand side reading the old columns, counts as specified. |
| `LoginBackoff.LoginMeans` | packages/api/src/modules/auth/login-backoff.ts:15-45 | On any account: refused exactly inside a wait, with what is left of it; a right password outside a wait signs in; a wrong one adds to the run or starts one, and waits nothing up to four failures, then 1, 2, 4, 8 and 15 minutes. |
| `LoginBackoff.SignInStartsOver` | packages/api/src/modules/auth/auth.service.ts:37-43 | After any run of attempts, a right password outside a wait leaves no count, no date and no wait. |
| `Anchor.AnchorsAreHonest` | packages/api/src/workers/anchor-passport.worker.ts:155-188 | In every interleaving of edits, reports, jobs and sweeps, jobs overlapping or not, a passport with a transaction stores a fingerprint the registry really held. |
| `Anchor.OutsideSteps` | packages/api/src/modules/passport/passport.service.ts:415-431 | Edits, activation and the sweep's marking happen when they may and clear the anchor columns, whatever jobs are under way. |
| `Anchor.GradeIsAnEdit` | packages/api/src/modules/quality/quality.service.ts:150-172 | A report's two statements together do to the row what an edit does. |
| `Anchor.JobsApartStaySound` | packages/api/src/workers/anchor-passport.worker.ts:259-408 | With jobs for one passport apart and edits anywhere, a row that looks anchored is registered with the current fingerprint. |
| `Anchor.RegistryNeverRefuses` | packages/api/src/workers/anchor-passport.worker.ts:328-408 | A lone job never registers a registered passport nor updates one its wallet does not own. |
| `Anchor.SweepConverges` | packages/api/src/workers/anchor-passport.worker.ts:551-564 | With edits stopped and the chain answering, one sweep brings a registered passport to agreement of stored, recomputed and registered fingerprints with a transaction, exactly when it need not restore an anchor whose receipt was lost. |
| `Anchor.OneSweepConverges` | packages/api/src/workers/anchor-passport.worker.ts:532-564 | After every run of edits, reports and jobs apart whose receipts arrive, one sweep converges, and later sweeps change nothing. |
| `Anchor.ConvergedStays` | packages/api/src/workers/anchor-passport.worker.ts:259-325 | Sweeping a converged passport, or running a leftover job for it, changes nothing. |
| `Anchor.LogStaysComplete` | packages/api/src/workers/anchor-passport.worker.ts:167-181 | While receipts arrive, the log keeps a succeeded transaction for what the registry holds. |
| `Anchor.LostReceiptStays` | packages/api/src/workers/anchor-passport.worker.ts:155-188 | After a lost receipt no number of sweeps restores the transaction. |
| `Anchor.ReceiptCanBeLost` | packages/api/src/workers/anchor-passport.worker.ts:393-482 | A single job can lose its receipt: the registry takes the transaction and the wait for it fails. |
| `Anchor.OverlapCanDisagree` | packages/api/src/workers/anchor-passport.worker.ts:594-620 | A history of two overlapping jobs that leaves the registry and the row disagreeing, unnoticed by the sweep. |
| `AnchorOverlap.AgreeExactlyWhen` | packages/api/src/workers/anchor-passport.worker.ts:259-482 | Over every interleaving from creation, overlapping jobs included, a row that looks anchored agrees with the registry if and only if no transaction was accepted since the job that wrote the row last looked at the registry, or the one accepted last carries the same fingerprint. |
| `AnchorOverlap.InOrderIsSafe` | packages/api/src/workers/anchor-passport.worker.ts:259-482 | Overlapping jobs that write the row in the order of their last looks at the registry, and whose receipts arrive, leave a row that agrees with the registry and a log that has its transaction. |
| `AnchorOverlap.OneSweepConvergesInOrder` | packages/api/src/workers/anchor-passport.worker.ts:532-564 | After every such run one sweep converges and later sweeps change nothing: jobs need not be apart. |
| `AnchorOverlap.ApartIsInOrder` | packages/api/src/workers/anchor-passport.worker.ts:594-620 | Jobs kept apart are in that order. |
| `AnchorTransactions.TransactionIsTrueWhen` | packages/api/src/workers/anchor-passport.worker.ts:155-188 | Over every interleaving from creation, the row's transaction is at every point one that anchored the row's fingerprint, if and only if every job that restores an anchor while knowing an older transaction finds the fingerprint in the log. |
| `AnchorTransactions.ApartIsTrue` | packages/api/src/workers/anchor-passport.worker.ts:167-181 | With jobs apart and receipts arriving, that is always so. |
| `AnchorTransactions.TransactionCanBeStale` | packages/api/src/workers/anchor-passport.worker.ts:155-188 | The run that breaks it: after a lost receipt a row shows the earlier transaction beside the new fingerprint. |
| `AnchorWorker.Worker.ProcessAnchorJob` | packages/api/src/workers/anchor-passport.worker.ts:259-482 | After one job alone, stored, recomputed and registered fingerprints agree: where the registry held the fingerprint only the row changed, with the logged transaction where there is one; where not, one new transaction by the organisation's wallet is in registry, log and row. Other passports stay. |
| `Anchor.JobRunIsDone` | packages/api/src/workers/anchor-passport.worker.ts:259-482 | The job's steps, each on what the one before left, have that outcome whatever the row, registry and log were. |
| `AnchorWorker.Worker.ReconcileStaleAnchors` | packages/api/src/workers/anchor-passport.worker.ts:532-549 | Marks pending exactly the anchored passports of the batch whose data no longer matches, and returns how many passports it changed. |
| `AnchorWorker.Worker.EnqueueAll` | packages/api/src/workers/anchor-passport.worker.ts:556-560 | Queues exactly those without a job under way, and returns how many they were. |
| `AnchorWorker.Worker.EnqueueSweepAnchor` | packages/api/src/workers/anchor-passport.worker.ts:577-590 | Queues a passport unless its job waits or runs, a finished job's place being freed first. |
| `AnchorWorker.Worker.ProcessSweepJob` | packages/api/src/workers/anchor-passport.worker.ts:551-564 | Reconciles the batch of anchored passports, then leaves waiting exactly the jobs that were and those of the batch without a transaction. |
| `AnchorWorker.Worker.SweepAndDrain` | packages/api/src/workers/anchor-passport.worker.ts:551-564 | Over all passports at once and within the batch limits, a sweep and its jobs bring every passport to rest, and every registered one to convergence, lost receipts aside; whatever the limits, where all passports are at rest a sweep changes none of them. |
| `SimulatedAnchor.CompletedChangesMatch` | packages/api/src/lib/anchor.ts:33-48 | Without a chain, with one writer of a passport at a time, its creation included, and listings, orders, photos and identifiers at any moment, the integrity check matches after every completed change. |
| `SimulatedAnchor.DocumentStaysWhen` | packages/db/src/passport-hash.ts:38-88 | A statement leaves the hashed document as it is if and only if every hashed column it sets already had that value. |
| `SimulatedAnchor.SameDocumentWhen` | packages/db/src/passport-hash.ts:38-88 | Two rows have one document if and only if they agree, a missing value reading as null, on each of 27 columns written out. |
| `SimulatedAnchor.ChangeShowsWhenProtected` | packages/api/src/modules/passport/passport.service.ts:487-505 | A row that carries another's fingerprint checks out, under an injective hash, if and only if it agrees with that one on all of those columns. |
| `SimulatedAnchor.EditedColumn` | packages/api/src/modules/passport/passport.service.ts:415-431 | An edit gives each column the request carries, takes the anchor off, and leaves every other column. |
| `SimulatedAnchor.EditableAre` | packages/api/src/modules/passport/passport.service.ts:758-800 | The columns a request may carry are those written out. |
| `SimulatedAnchor.TradesLeaveTheDocument` | packages/api/src/modules/marketplace/marketplace.service.ts:472-511 | Listing, every order step and settling set no hashed column. |
| `SimulatedAnchor.PhotosLeaveTheDocument` | packages/api/src/modules/passport/passport.service.ts:850-877 | Nor does a photo. |
| `SimulatedAnchor.IdentifiersLeaveTheDocument` | packages/api/src/lib/passport-identifiers.ts:28-58 | Nor do the Digital Link and QR code issued after creation. |
| `SimulatedAnchor.MatchesExactlyWhen` | packages/api/src/modules/passport/passport.service.ts:419-456 | Under every interleaving from creation, and an injective fingerprint, the check matches if and only if the writer that stored its fingerprint last is the one that wrote the row last, or wrote the same document. |
| `SimulatedAnchor.InOrderMatches` | packages/api/src/modules/passport/passport.service.ts:419-456 | Writers that store in the order they wrote end in a match, however they overlap. |
| `SimulatedAnchor.OverlappingEditsMismatch` | packages/api/src/modules/passport/passport.service.ts:419-456 | Any two edits where the first to write is the last to store end in a match only if they leave the same fingerprint. |
| `StableJson.PrintIsCanonical` | packages/db/scripts/demo-restore.ts:100-108 | Two values print the same text if and only if they are equal as data, with objects read as maps whatever their key order. |
| `StableJson.DecimalsAreNumbers` | packages/db/scripts/demo-restore.ts:101-101 | The number texts taken include every sign, digits, fraction and exponent JSON allows in the printer's form. |
| `JsonReader.PrintedIsRead` | packages/db/scripts/demo-restore.ts:100-108 | A reader of JSON text that knows nothing of the printer reads what is printed as the value's data, whatever follows it, and no further. |
| `JsonReader.KeysAscend` | packages/db/scripts/demo-restore.ts:104-107 | An object is printed as its own entries, none lost or added, with their keys ascending by code unit. |
| `StableJson.ReadsBack` | packages/db/scripts/demo-restore.ts:100-108 | A printed value is read back in one way, whatever may follow it in a document. |
| `StableJson.SaysSoPrintsSo` | packages/db/scripts/demo-restore.ts:100-108 | Values equal as data print the same. |
| `StableJson.SameObject` | packages/db/scripts/demo-restore.ts:104-107 | Two objects are the same map exactly when their entries sorted by key read the same. |
| `JsonText.QuoteReadsBack` | packages/db/scripts/demo-restore.ts:101-106 | Quoted text, escapes and lone surrogates included, is injective and ends where its quote ends. |
| `JsonText.EscapedIsItself` | packages/db/scripts/demo-restore.ts:101-106 | Text is written as it is if and only if it has no quote, backslash, control unit or lone half of a surrogate pair. |
| `Sorting.SortForgetsOrder` | packages/db/scripts/demo-restore.ts:104-105 | Lists with the same members, none of them level, sort to the same list. |
| `OrganisationWallet.EveryoneGetsTheSame` | packages/api/src/lib/wallet.ts:68-98 | In every interleaving, every caller that returns does so with the one stored wallet, having started over at most once. |
| `OrganisationWallet.NeverOverwritten` | packages/api/src/lib/wallet.ts:107-130 | A wallet stored at one point of a run is stored at every later point. |
| `OrganisationWallet.OneWalletIsStored` | packages/api/src/lib/wallet.ts:107-130 | Of all wallets drawn in a run, one is stored if none was there and none otherwise; the stored key and address are then those of one draw, and every member shows its address. |
| `OrganisationWallet.EveryMoveCounts` | packages/api/src/lib/wallet.ts:68-98 | No caller waits, and four database accesses a caller are enough to finish. |
| `OrganisationWallet.ClaimsAreAnswered` | packages/api/src/lib/wallet.ts:84-98 | A claim that stores its wallet returns that wallet at once; a late one changes nothing and starts over. |
| `OrganisationWallet.Organisation.EnsureOrganisationWallet` | packages/api/src/lib/wallet.ts:68-98 | Returns the stored wallet, backfilling a missing address and losing a claim to a rival included. |
| `OrganisationWallet.Organisation.ClaimOrganisationWallet` | packages/api/src/lib/wallet.ts:107-130 | Writes the row and its members only while no key is stored, and says whether it did. |
| `Grades.InspectionStands` | packages/api/src/modules/quality/quality.service.ts:150-172 | Over every history from registration, once an inspector has reported, the passport's grade is the newest inspector's or platform report's. |
| `Grades.WhoMovesTheGrade` | packages/api/src/modules/passport/passport.service.ts:400-410 | After an inspection only an inspector's or the platform's report changes the grade, to the one it gives. |
| `Grades.BasisOfInspected` | packages/web/src/lib/inspection.ts:39-56 | What buyers are told over every history of an inspected material: the last inspection exactly while its grade stands, else the platform, else the seller when a later check of the seller's repeats the platform's grade. |
| `Grades.InspectionIsCredited` | packages/web/src/lib/inspection.ts:39-56 | With no platform report since the last inspection, that inspection is credited. |
| `Grades.FindIsNewest` | packages/web/src/lib/inspection.ts:20-25 | Whatever order reports are fetched in, sorting and finding yields the newest of its kind. |
| `Grades.SellerTakesTheCredit` | packages/web/src/lib/inspection.ts:49-55 | The history in which the seller is named for a grade the platform set. |
| `Grades.WriteKeepsWhen` | packages/api/src/modules/passport/passport.service.ts:400-430 | A write keeps the authority's grade if and only if the guard still passes on the row being written. |
| `Grades.AuthorityStandsWhen` | packages/api/src/modules/passport/passport.service.ts:400-430 | Over every history with checks and writes of edits apart, the grade is at every point the newest authority's once an inspector has reported, if and only if every write would still pass the guard its edit passed when checked. |
| `Grades.OverlappingEditOverrides` | packages/api/src/modules/passport/passport.service.ts:400-430 | The history that breaks it: an edit checked before an inspection and written after it overrides the inspector. |
| `Grades.RepeatedGradeOverrides` | packages/api/src/modules/passport/passport.service.ts:400-410 | Another: an edit that repeats an inspected grade passes the guard and then overrides the next inspection. |
| `Grades.Material.FileReport` | packages/api/src/modules/quality/quality.service.ts:108-175 | A report is refused, recorded, or recorded and applied as specified. |
| `Grades.Material.EditGrade` | packages/api/src/modules/passport/passport.service.ts:375-430 | An edit of the grade is refused or applied as specified. |
| `Grades.Material.HasInspection` | packages/api/src/modules/quality/quality.service.ts:88-104 | Found exactly when an inspector's report with a grade exists. |
| `Grades.ReportCountsWhen` | packages/api/src/modules/quality/quality.service.ts:108-175 | A report is taken on any registered material by an inspector or the platform and on its own by a hub, and sets the grade unless it is a hub's after an inspection. |
| `Grades.EditCountsWhen` | packages/api/src/modules/passport/passport.service.ts:375-430 | An edit is taken from the material's organisation while it is draft, active or installed, except a new grade after an inspection. |
| `London.RefusesNonDates` | packages/core/src/constants/dates.ts:23-36 | A text is accepted exactly when it has the form of a date and is real in its full year; the result is the last millisecond of the day written exactly when the year is at least 100 too. |
| `London.RightFromYear100` | packages/core/src/constants/dates.ts:23-36 | The same over numbers: right exactly for real dates from the year 100 on. |
| `London.EndIsTheLastInstant` | packages/core/src/constants/dates.ts:29-35 | Under any clocks that change at 01:00 UTC, the instants up to the computed end are exactly those of this day or an earlier one. |
| `London.LengthOfADay` | packages/core/src/constants/dates.ts:35-35 | Consecutive ends are 23 hours apart on the last Sunday of March, 25 on the last Sunday of October, and 24 on every other day. |
| `London.EndsRise` | packages/core/src/constants/dates.ts:35-35 | Later days end later. |
| `London.SteadyBetweenSwitches` | packages/core/src/constants/dates.ts:9-17 | London's clocks do not change between one 01:00 UTC and the next. |
| `London.LastSundayIs` | packages/core/src/constants/dates.ts:9-17 | The last Sunday of a month is the day of its last seven that is whole weeks from 29 March 2026. |
| `London.WrittenIsRead` | packages/core/src/constants/dates.ts:24-25 | Any year, month and date written with four, two and two digits are read as those numbers. |
| `London.ReadIsWritten` | packages/core/src/constants/dates.ts:24-25 | And every text that is read is one so written. |
| `London.SpringForward2026` | packages/core/src/constants/dates.ts:26-35 | 29 March 2026 ends at 22:59:59.999 UTC and the day before at 23:59:59.999, in milliseconds since 1970. |
| `London.YearFiftyIsNineteenFifty` | packages/core/src/constants/dates.ts:26-35 | A date of the year 50 is taken for that of 1950. |
| `Calendar.ComesBackWhenReal` | packages/core/src/constants/dates.ts:30-33 | The month and date of the day made from numbers are those numbers exactly when they are in the calendar. |
| `Calendar.CivilOfDayOf` | packages/core/src/constants/dates.ts:30-33 | Reading the date of a day made from a real date gives that date back. |
| `Calendar.RealWhen` | packages/core/src/constants/dates.ts:30-33 | A date is in the calendar exactly when its month is one of twelve and its date within the month's 28, 29, 30 or 31 days. |
| `Calendar.NextDay` | packages/core/src/constants/dates.ts:29-29 | The day after a date is numbered one more; with `Calendar.DayZero` this fixes the count. |
| `Calendar.MonthsCarry` | packages/core/src/constants/dates.ts:29-29 | Twelve months too many are a year, a date too many is a day. |
| `Slugs.SlugifyMakesASlug` | packages/api/src/modules/access-request/access-request.service.ts:17-27 | A slug is non-empty, at most 63 characters of a-z, 0-9 and single hyphens, starts with none and ends with one only when cut. |
| `Slugs.KeptAre` | packages/api/src/modules/access-request/access-request.service.ts:20-22 | The characters kept are small letters and digits, by character code. |
| `Slugs.SqueezeIsIdle` | packages/api/src/modules/access-request/access-request.service.ts:24-24 | The step that squeezes hyphens never finds two together. |
| `Slugs.FreeSlug` | packages/api/src/modules/access-request/access-request.service.ts:60-75 | The unbounded loop ends, at the first free candidate, after at most as many taken ones as there are slugs, and one more when a slug repeats itself. |
| `Slugs.TakenCandidates` | packages/api/src/modules/access-request/access-request.service.ts:60-75 | The pigeonhole bound behind it. |
| `Slugs.RepeatsWhen` | packages/api/src/modules/access-request/access-request.service.ts:73-73 | A slug repeats itself exactly when it has full length and already ends in that number. |
| `Slugs.RepeatingCostsATry` | packages/api/src/modules/access-request/access-request.service.ts:60-75 | Such a slug does cost the extra look-up, and it is the slug of a name. |
| `Slugs.SlugifyFixes` | packages/api/src/modules/access-request/access-request.service.ts:17-27 | A name is its own slug if and only if it is one to 63 characters of the alphabet with single hyphens, none at either end. |
| `Slugs.NumberedIsInjective` | packages/api/src/modules/access-request/access-request.service.ts:73-73 | Different numbers give different slugs. |
| `Slugs.NumberedFits` | packages/api/src/modules/access-request/access-request.service.ts:73-73 | A numbered slug has at most 63 characters exactly while its number has at most 61 digits. |
| `Slugs.ResolveOrganisation` | packages/api/src/modules/access-request/access-request.service.ts:47-89 | Finds an organisation by name or adds one under an unused slug of the slug alphabet, keeping all slugs different. |
| `ObjectStore.OneWriterCreates` | packages/db/src/object-store.ts:119-154 | Of concurrent writers of a new key exactly one creates it once any finishes, the others succeed exactly when their digest agrees with what it wrote, and a key that was there is created by none. |
| `ObjectStore.WrittenOnce` | packages/db/src/object-store.ts:119-154 | A key's bytes are the same at every later point of every run. |
| `ObjectStore.EveryStepCounts` | packages/db/src/object-store.ts:119-154 | No writer waits for another: three file operations are enough, and each moves its own writer only. |
| `ObjectStore.LocatesItsPath` | packages/db/src/object-store.ts:163-178 | A URL is located at a place if and only if the place is valid and the URL's decoded path is that place's path; its origin does not matter. |
| `ObjectStore.SegmentWhen` | packages/db/src/object-store.ts:35-35 | A bucket and each part of a key start with a letter or digit and go on with letters, digits, dots, underscores and hyphens, by character code. |
| `ObjectStore.LocateUndoesUrlFor` | packages/db/src/object-store.ts:158-178 | Under a base path without percent signs, locating undoes addressing for every valid bucket and key. |
| `ObjectStore.RoundTripWhen` | packages/db/src/object-store.ts:158-178 | Under any base path, locating a place's own URL gives the place back if and only if its path under that base decodes to itself. |
| `ObjectStore.BaseServesWhenPlain` | packages/db/src/object-store.ts:158-178 | So, with a decoder that shortens every escape it reads, a base path serves every place if it has no percent sign and none if it has one. |
| `ObjectStore.EncodedBaseIsLost` | packages/db/src/object-store.ts:163-178 | For one: under a base path with an encoded space an object's own URL is located nowhere. |
| `ObjectStore.FileObjectStore.Put` | packages/db/src/object-store.ts:119-154 | Creates, accepts or refuses a key as specified when another writer may come first, changing no other key. |
| `PhotoQuota.NeverOverTheLimits` | packages/api/src/lib/storage.ts:75-95 | Under every schedule of uploads, no organisation's photos pass its quota and no passport its photo limit. |
| `PhotoQuota.EveryoneIsServed` | packages/api/src/modules/passport/passport.service.ts:850-877 | Under every schedule an accepted photo stays on its passport with all that were there, and an upload is refused only if it does not fit at any later moment either. |
| `PhotoQuota.StoredIsAccepted` | packages/api/src/modules/passport/passport.service.ts:850-877 | Under every schedule an organisation's use grows by exactly the bytes of its accepted uploads, and a passport's photos by exactly the uploads accepted on it. |
| `PhotoQuota.AloneFitsWhen` | packages/api/src/lib/storage.ts:80-95 | An upload on its own is accepted if and only if the passport has a place and the quota room for it. |
| `PhotoQuota.SomeoneCanMove` | packages/api/src/lib/storage.ts:75-81 | Passport row before quota lock, organisations sharing a lock or not: while an upload is unfinished, some upload can move. |
| `PhotoQuota.MovesRunOut` | packages/api/src/modules/passport/passport.service.ts:850-877 | Every move brings the end nearer: three moves an upload. |
| `Catalogue.ProductLotIsFirst` | packages/db/scripts/lib/catalogue-lots.ts:44-58 | A product's lot is the one that ranks first: on sale, else sold, else any, lowest number first. |
| `Catalogue.ProductLotForgetsOrder` | packages/db/scripts/lib/catalogue-lots.ts:44-58 | The order lots come in does not matter. |
| `Catalogue.PlanSplits` | packages/db/scripts/lib/demo-spares-policy.ts:56-77 | Every passport of a product is its keeper, retired or protected, and only one of these; retired exactly when not the keeper and nothing depends on it. |
| `Catalogue.SecondPlanRetiresNothing` | packages/db/scripts/lib/demo-spares-policy.ts:56-77 | Planning again after the deletion keeps the same lot and the same protected ones and retires nothing. |
| `Catalogue.SpareProtection` | packages/db/scripts/lib/demo-spares-policy.ts:39-48 | There is no reason exactly when nothing depends on the passport, and each reason is given exactly when it holds. |
| `Catalogue.PlanSpareRetirement` | packages/db/scripts/lib/demo-spares-policy.ts:56-77 | The loop builds the specified plan. |
| `Replenish.PassKeeps` | packages/db/scripts/demo-replenish.ts:134-283 | A pass over the catalogue keeps the marketplace invariant and every order, and leaves every product stocked. |
| `Replenish.SecondPassDoesNothing` | packages/db/scripts/demo-replenish.ts:134-283 | With no orders in between, a second pass leaves every product alone. |
| `Replenish.ReplenishOneKeeps` | packages/db/scripts/demo-replenish.ts:145-230 | Restocking, reopening, listing again and creating each keep the invariant. |
| `Replenish.ReplenishOneStocks` | packages/db/scripts/demo-replenish.ts:145-230 | A product's turn leaves its lot with exactly the catalogue's quantity available, or finds it fully ordered or with at least that. |
| `Replenish.TurnDoes` | packages/db/scripts/demo-replenish.ts:134-268 | What a turn does to the rows: a restocked or reopened listing has the catalogue's quantity available and the units ordered of it as before; a new one has the catalogue's price, quantity and minimum and no date; a passport is created exactly when the product has none, as lot 1; nothing else changes. |
| `Replenish.Pass` | packages/db/scripts/demo-replenish.ts:134-283 | The loop computes the specified pass, and its three counters count what it did. |

## Left out

- Runs.EveryRunKeeps: the minimum-order rule is not part of the invariant, because edits do not keep it; `Runs.MinimumSurvivesEdit` says exactly when they do.
- InvariantCheck.ReachableIsClean: allows the minimum-order error for that reason, and the stale-fingerprint error because fingerprints are not columns of the marketplace's tables here.
- InvariantCheck.CheckInvariants: the wording of a violation and the order in which violations are reported are not modelled.
- LockRuns.CommittedIsSerial: a person's action is two transactions and is scheduled as two; that no time limit falls due between them is not claimed under schedules, only in `Runs.StepsBeatDeadlines` where the action is one step.
- LockRuns.SomeoneCanStep: creating and cancelling a listing run outside a database transaction, are single atomic steps in `Runs`, and are not among the scheduled transactions.
- LoginBackoff.GuessesAreRateLimited: the check of an attempt and its count are one step; attempts checked at the same moment before any is counted are not modelled.
- Anchor.SweepConverges: a transaction takes effect when it is submitted or not at all; one that lands later, gas, chain ids, granting the hub's role and polling for receipts are not modelled.
- AnchorWorker.Worker.SweepAndDrain: a sweep on a quiet system, every job of which the chain answers; retries and backfilling of identifiers are not modelled.
- Grades.AuthorityStandsWhen: filing a report, its row and the grade it sets, is one step with a distinct time and a recorded role; only edits are taken apart.
- SimulatedAnchor.CompletedChangesMatch: the document is the map of its columns, the printed text being a function of it, a column's content is a number, and the log entries beside a fingerprint are not modelled.
- StableJson.PrintIsCanonical: a finite number is given by its shortest decimal text, so negative zero is zero; a date is given by its ISO text, and an invalid date, which throws, is not a value of the model.
- Slugs.SlugifyMakesASlug: starts from the name already trimmed and in lower case; Unicode case folding is not modelled.
- Slugs.FreeSlug: the suffix is an unbounded number, and two approvals that find the same slug free at once are not modelled.
- London.SteadyBetweenSwitches: takes today's rule for London's clocks for every year; the earlier history of the time zone is not modelled.
- ObjectStore.LocateUndoesUrlFor: percent-decoding is a parameter, known only to leave text without percent signs alone and, for `ObjectStore.BaseServesWhenPlain`, to shorten what it decodes.
- ObjectStore.FileObjectStore.Put: temporary file names do not clash; directory creation, file modes and disk errors are not modelled.
- PhotoQuota.NeverOverTheLimits: photos are never taken off a passport; image processing, the free-disk check and the file written before a rollback are not modelled.
- Catalogue.PlanSplits: rows come with their product and lot number; reading these from a passport's attributes and names is not modelled.
- Replenish.PassKeeps: one pass is one atomic step, which the script's catalogue lock and row locks give it; the dry run and the stored images are not modelled.
- OrganisationWallet.OneWalletIsStored: a private key is stored as itself; its encryption is not modelled.
- Market.Marketplace.MakeOffer: reads the clock once for the whole request.
- Legacy orders for whole lots appear only in the checker's data; shipping options, notes, audit rows and currencies are not modelled.
- Search, facets, statistics, certificates, public views, sessions and the web pages.
- Importing stored files, restoring and resetting the demonstration, and the one-off correction scripts.
- The smart contracts are known only through the registry's rules for registering, updating and transferring.
