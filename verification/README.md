# Relio, modelled in Dafny

Relio is a CRM server written in Go over PostgreSQL. This project models the parts of it that hold an
algorithm, a protocol or a state machine with a stated guarantee, and proves those guarantees for every
input, every order of ranging over a Go map, and every run.

A table is a map from id to row (or a `class` holding such a map) and an SQL statement or transaction is one
atomic step on it. Activation, recognition and answering a recommendation read first and commit later: for
these, reading and committing are two steps, so other clients can act in between. Overlapping re-parentings,
key creations and rotations, and key cache calls are treated the same way in theorems of their own. Other
operations check and write in one step ("Left out" names them). Code that works step by step in the source is
a method with loops here, proved against a specification function; the theorems are lemmas about those
functions and about runs.
Money is in whole cents, instants are integers, dates are (year, month, day) or day numbers. Rows, clocks,
fetched documents, fresh ids and the order in which a map or an UPDATE visits its rows are inputs.

| files | what they model |
|---|---|
| `Calendar`, `RevenueSchedule` | month arithmetic, schedule dates, the split in cents |
| `ContractLedger`, `ContractStore`, `ContractVersions`, `RecognitionRace` | contracts, activation, recognition, merging, over any interleaving |
| `StageOrder` | pipeline stage positions under a UNIQUE constraint |
| `OrganizationForest` | the organization tree and the two scope queries |
| `SignalRules`, `SignalFacts`, `RiskScoring`, `RiskFacts`, `PassOrder`, `Recommendations`, `AdviceFacts` | the rules of the intelligence engine, and what they come to |
| `Reconciliation`, `EngineSpec`, `Engine`, `EngineScan`, `EngineInputs` | a pass over the stored tables, and people acting between passes |
| `AdviceRace` | accepting and dismissing recommendations at the same time |
| `SearchPattern`, `Cursor`, `Paging` | LIKE patterns, cursors, walking pages |
| `HealthRules`, `HealthFiring`, `DealHealth` | deal health rules, truncated history, batches |
| `Forecast` | the forecast waterfall |
| `Arguments`, `ArgumentMeaning` | checking and repairing tool arguments, and what it preserves |
| `KeyAccess`, `PersonalKeys`, `KeyOwners`, `KeyLife`, `KeyOverlap`, `KeyTable` | personal keys from creation to revocation |
| `KeyCache` | the cache of discovery documents and signing keys |
| `JsLiteral`, `JsObject` | JavaScript literals |
| `Wrappers`, `Sums`, `Text`, `Ordering` | shared vocabulary |

`dafny verify dfyconfig.toml` checks all of it.

## Where the code and its intention part

For each of these there is a lemma with an input or a run on which the intention fails, and a lemma that says
for all of them exactly when it holds.

- Recognition reads the contract before its transaction, and a customer merge in between leaves the new sale
  booked on the merged-away customer (`ContractLedger.MergeCanStrandASale`). Over every run, all linked sales
  end on their contract's customer exactly when no recognition commits after an effective merge has listed the
  customer it read among its sources (`RecognitionRace.BooksAgreeIff`).
- Accepting and dismissing advice write without asking again whether it is still OPEN, so one recommendation
  can end up with two tasks (`AdviceRace.TwoAcceptancesTwoTasks`). Over every run, each task is the task of its
  recommendation exactly when no commit meets a recommendation accepted in the meantime and no acceptance meets
  one withdrawn in the meantime (`AdviceRace.TasksAreLinkedIff`).
- The bulk `stage_order-1` statements run under a UNIQUE constraint that is checked row by row: moving the
  first of three stages to the end can fail (`StageOrder.ThreeStageMoveCanFail`). The statement succeeds for
  every row order exactly when no two rows of its block stand at adjacent positions; on a gapless board, when
  it passes at most one stage (`StageOrder.AlwaysGoesThroughIff`, `StageOrder.BoardAlwaysGoesThroughIff`).
- `updateStage` bounds the new position below but not above: positions stay 1..n exactly when it is at most n
  (`StageOrder.PositionBeyondTheEnd`, `StageOrder.MoveKeepsBoardIff`).
- The organization cycle check and the UPDATE are two statements, and overlapping re-parentings can make a
  cycle (`OrganizationForest.ConcurrentReparentsCanCycle`). Any number of them leave a forest exactly when the
  re-parented organizations form one among themselves (`OrganizationForest.AllReparentsIff`).
- A comment promises that only issued cursors are accepted, and others are (`Cursor.ForeignCursorAccepted`,
  `Cursor.BlankCursorAccepted`). An accepted cursor was issued exactly when it is not blank, has no surrounding
  blanks, line breaks or spare bits, and its number has neither sign nor leading zero (`Cursor.IssuedIff`).
- Signal and risk rows keep the account of their first detection when a record moves
  (`EngineInputs.MovedDealKeepsItsAccount`): it is the current one exactly when the key is new or has not moved
  (`Reconciliation.AccountIsKept`).
- A pass ends in a nil dereference (`EngineInputs.StalledDealOfUnscannedAccount`) exactly when a late open deal
  or a contract in its renewal window belongs to a customer the account query leaves out
  (`EngineInputs.PassPanicsIff`).
- Advice that no rule calls for any more can stay open (`EngineInputs.QuietAccountKeepsAdvice`): it is withdrawn
  exactly when its account still has some signal (`EngineInputs.StaleAdviceIsWithdrawnIff`).
- Which names an argument error lists can depend on map order, although acceptance and result cannot
  (`Arguments.TwoSpellingsOneProperty`). The list is the same for every order exactly when no two given keys
  spell the same free property (`Arguments.ReportIgnoresOrderIff`).
- The key quota is counted before the INSERT, and rotation skips it, so overlapping creations exceed the quota,
  and so do two rotations of one key without any creation (`KeyOverlap.TwoRotationsOverrun`). Overlapping
  operations exceed it exactly when the accepted ones outnumber the different keys they replace by more than
  the quota has left (`KeyOverlap.OverrunIff`, `KeyOverlap.TwoAdditionsOverrunIff`).
- A signing key of any age can be answered (`KeyCache.HeldBackKeyHasNoAgeBound`); one over six hours old is
  answered exactly when the latest attempt failed less than thirty seconds before (`KeyCache.AnsweredKeyAge`,
  `KeyCache.OldKeyAnsweredIff`).
- Overlapping cache calls can forget a key just fetched (`KeyCache.OverlapForgetsKey`), put older keys over
  newer ones, and fetch without the thirty seconds between them; each with its exact condition
  (`KeyCache.OverlapReflectsIff`, `KeyCache.HoldsNewestIff`, `KeyCache.OverlapIsSpacedIff`).

## Model

| member | source | states |
|---|---|---|
| Calendar.ClampedIsLatest | internal/crm/contracts.go:101-116 | Adding months lands in exactly the month asked for and there on the latest existing day not beyond the anchor's day. |
| Calendar.CalendarIsGregorian | internal/crm/contracts.go:101-116 | The months are those of the Gregorian calendar: their lengths follow its closed form and the years its count of leap days. |
| RevenueSchedule.BuildScheduleDates | internal/crm/contracts.go:120-152 | The loop ends within 601 rounds and returns, for a recurring type, exactly the anchor-relative occurrences that are not after the end (1 to 600 of them, starting at the start), "too long" exactly when the 601st fits too, and never the final "no date" error. |
| RevenueSchedule.ScheduleIsUnique | internal/crm/contracts.go:120-152 | The specification of the loop leaves one answer for each period and type. |
| RevenueSchedule.ScheduleStaysInPeriod | internal/crm/contracts.go:120-152 | All dates of a schedule are real dates inside the contract period, strictly increasing. |
| RevenueSchedule.OccurrencesIncrease | internal/crm/contracts.go:101-116 | A later occurrence is a strictly later date, clamped month ends included. |
| RevenueSchedule.ScheduleRecurs | internal/crm/contracts.go:101-152 | A monthly, quarterly or annual schedule has a date every 1, 3 or 12 months from the start, clamped to the end of a month, up to the last that is not after the end; no other recurring type has one. |
| RevenueSchedule.SplitScheduleAmount | internal/crm/contracts.go:154-170 | The array filled by the loop is the even split, larger parts first. |
| RevenueSchedule.SplitPreservesTotal | internal/crm/contracts.go:154-170 | The parts sum to the total if and only if the total is not negative or the count divides it. |
| RevenueSchedule.SplitIsEven | internal/crm/contracts.go:154-170 | Parts never increase and any two differ by at most one cent. |
| ContractLedger.StepKeepsInv | internal/crm/contracts.go:179-429 | Creating, either half of activating and recognizing, renewing, merging and direct sales by any client each keep the whole ledger invariant: rows if and only if ACTIVE, rows equal to the schedule of the terms, each recognized row linked to its own sale of the same amount. |
| ContractLedger.RunKeepsInv | internal/crm/contracts.go:179-429 | Hence every interleaving of such steps from the empty ledger satisfies it. |
| ContractLedger.MoneyIsConserved | internal/crm/contracts.go:306-429 | In every interleaving linked sales plus planned rows make up the contract amount to the cent, and a contract has rows exactly when it is ACTIVE. |
| ContractLedger.PlanIsWrittenOnce | internal/crm/contracts.go:268-346 | Once a contract has rows no step of anybody adds, drops or rewrites an entry, and a recognized row keeps its sale. |
| ContractLedger.PlanFollows | internal/crm/contracts.go:268-281 | Freshly written rows are the schedule of the terms and sum to the contract amount. |
| ContractLedger.LinkedSalesMatchRecognizedRows | internal/crm/contracts.go:372-429 | The linked sales of a contract and its recognized rows correspond one to one and total the same. |
| ContractVersions.StepRaisesVersion | internal/crm/contracts.go:179-462 | Whatever step of whatever client changes a contract raises its version. |
| ContractVersions.NothingChangedIff | internal/crm/contracts.go:179-462 | Over any run a contract ends as it began if and only if no step of the run changed it. |
| ContractVersions.ActivatesIffUnchanged | internal/crm/contracts.go:306-346 | Over every run: an activation that names no version goes through, writing its rows, if and only if no step of anybody between its read and its commit changed the contract. |
| ContractVersions.ActivatesIffVersion | internal/crm/contracts.go:306-346 | One that names a version goes through if and only if the contract is a DRAFT of that version at the commit. |
| ContractVersions.RefusedActivationChangesNothing | internal/crm/contracts.go:328-334 | A commit that does not go through leaves every table as it was. |
| ContractVersions.RenewalIff | internal/crm/contracts.go:431-462 | A renewal goes through if and only if it names no version or the contract's, and raises just the version. |
| ContractVersions.CreationIff | internal/crm/contracts.go:179-266 | In every reachable ledger a creation adds the contract asked for, with its rows if it starts ACTIVE, if and only if it is titled, its amount, kind and period are in order, its customer is active and, for an ACTIVE start, its schedule exists. |
| ContractVersions.CreationRefusalIsTrue | internal/crm/contracts.go:179-266 | A creation refused is told something true of the request. |
| ContractLedger.RecognitionAgreesIff | internal/crm/contracts.go:372-429 | A commit keeps every linked sale on its contract's customer exactly when the customer read is still the contract's. |
| RecognitionRace.BooksAgreeIff | internal/crm/contracts.go:372-429 | Over every run of every number of clients from the empty ledger: each linked sale is on its contract's customer if and only if no recognition commits after an effective merge of the customer it read. |
| RecognitionRace.ReadCustomerIsThere | internal/crm/contracts.go:384-391 | The customer a recognition reads has not been merged away by then, so a merge that overtakes it comes after the read. |
| RecognitionRace.GoneIff | internal/crm/service.go:425-485 | Over every run a customer is inactive if and only if an effective merge listed it among its sources. |
| RecognitionRace.MergeIff | internal/crm/service.go:425-485 | A merge takes effect if and only if it names 1 to 20 different active customers and an active target besides. |
| ContractVersions.MergeMovesOnce | internal/crm/service.go:425-485 | A merge hands over just the contracts of its sources, each once and with its version raised by one. |
| RecognitionRace.StrandedStays | internal/crm/service.go:425-485 | A sale booked on another customer than its contract's never comes right again, whatever anybody does. |
| ContractLedger.OtherStepsAgree | internal/crm/service.go:425-485 | No other step can break that agreement. |
| ContractLedger.MergeCanStrandASale | internal/crm/contracts.go:372-429 | A concrete six-step run in which a merge between the read and the commit strands a sale. |
| ContractStore.Store.CreateContract | internal/crm/contracts.go:179-266 | Refuses in the source's order, otherwise inserts the contract and, if it starts ACTIVE, its rows in one transaction. |
| ContractStore.Store.CreateRevenueSchedule | internal/crm/contracts.go:268-281 | One INSERT per date, or the error and an unchanged table. |
| ContractStore.Store.BeginActivation | internal/crm/contracts.go:306-322 | Reads a DRAFT contract with a valid schedule, remembering the version the commit must find. |
| ContractStore.Store.CommitActivation | internal/crm/contracts.go:323-346 | Commits if and only if the contract is still a DRAFT of the version remembered and its schedule exists; then its rows are written. |
| ContractStore.Store.BeginRecognition | internal/crm/contracts.go:384-391 | Reads the row's contract and remembers the customer it belongs to. |
| ContractStore.Store.CommitRecognition | internal/crm/contracts.go:392-417 | Only a PLANNED row of the contract read becomes a sale, and it is linked to it. |
| ContractStore.Store.MergeCustomers | internal/crm/service.go:425-485 | Moves contracts and sales source by source and retires the sources, or changes nothing. |
| ContractStore.Store.CreateSale | internal/crm/resources.go:156-185 | Adds just the sale asked for, if its amount is not negative, its customer active and its contract known. |
| StageOrder.StageTable.ReorderStage | internal/server/admin_crud.go:917-951 | Moving a stage to an earlier position never meets the constraint; to a later one it goes through exactly for visits that take each row after its lower neighbour, and going through is the specified rearrangement. |
| StageOrder.StageTable.LowerBlock | internal/server/admin_crud.go:921-926 | A row-by-row decrement under UNIQUE goes through exactly when no row is visited before its lower neighbour. |
| StageOrder.StageTable.UpdateStage | internal/server/admin_crud.go:880-903 | Accepts every position from 1 on; a refused statement leaves the table as it was. |
| StageOrder.StageTable.DeleteStage | internal/server/admin_crud.go:953-1000 | Keeps at least one stage and closes the gap, or changes nothing. |
| StageOrder.MoveRefinesRemoveInsert | internal/server/admin_crud.go:917-951 | On a board with positions 1..n a move to 1..n is "remove at i, insert at j" on the sequence of stages. |
| StageOrder.MoveKeepsBoardIff | internal/server/admin_crud.go:880-903 | Positions stay exactly 1..n if and only if the requested one is at most n. |
| StageOrder.PositionBeyondTheEnd | internal/server/admin_crud.go:880-903 | Three stages, the first moved to position 7: the board has gaps. |
| StageOrder.MoveKeepsOthersInOrder | internal/server/admin_crud.go:917-951 | Every other pair of stages keeps its relative order. |
| StageOrder.MoveBackRestores | internal/server/admin_crud.go:917-951 | Moving a stage back to where it was restores the whole table. |
| StageOrder.MoveKeepsUnique | internal/server/admin_crud.go:917-951 | No two stages share a position afterwards, and none is parked. |
| StageOrder.LoweringCollidesIff | internal/server/admin_crud.go:921-926 | The i-th row update collides exactly when the row right below has not been lowered yet. |
| StageOrder.RaisingNeverCollides | internal/server/admin_crud.go:927-950 | Raising rows one by one, highest first, never meets a taken position. |
| StageOrder.GaplessVisitMustAscend | internal/server/admin_crud.go:921-926 | On a gapless board the bulk decrement succeeds only for the ascending visit. |
| StageOrder.AlwaysGoesThroughIff | internal/server/admin_crud.go:921-926 | The bulk decrement succeeds for every order of its rows if and only if no two of them stand at adjacent positions. |
| StageOrder.BoardAlwaysGoesThroughIff | internal/server/admin_crud.go:917-951 | On a gapless board: if and only if the move passes, or the deletion closes up, at most one stage. |
| StageOrder.ThreeStageMoveCanFail | internal/server/admin_crud.go:917-951 | Three stages, the first moved to the end, the last row visited first: its new position is taken. |
| StageOrder.DeleteRefinesRemove | internal/server/admin_crud.go:992-1000 | Deleting a stage is removing it from the sequence, positions compacted. |
| OrganizationForest.ForestIffNoCycle | internal/server/admin_crud.go:435-460 | All upward walks end if and only if nobody is its own ancestor, and then within as many steps as there are organizations. |
| OrganizationForest.ReparentKeepsForestIff | internal/server/admin_crud.go:435-460 | A re-parenting keeps the forest exactly when the new parent is not at or below the organization: the question the chain query asks. |
| OrganizationForest.CreateKeepsForest | internal/server/admin_operations.go:74-75 | Creating an organization under an existing parent keeps the forest. |
| OrganizationForest.DeleteKeepsForest | internal/server/admin_crud.go:503-517 | Deleting an organization without children keeps the forest. |
| OrganizationForest.ConcurrentReparentsIff | internal/server/admin_crud.go:435-460 | Two re-parentings checked on the same tree leave a forest exactly when they do not put each one's subtree under the other. |
| OrganizationForest.AllReparentsIff | internal/server/admin_crud.go:435-460 | Any number of overlapping re-parentings leave a forest if and only if the re-parented organizations do, each put under the first of them on the upward path of its new parent. |
| OrganizationForest.ConcurrentReparentsCanCycle | internal/server/admin_crud.go:435-460 | A tree and two accepted requests that end in a cycle. |
| OrganizationForest.ChainContains | internal/crm/service.go:122-131 | The upward recursive query terminates on a forest and answers whether the target is on the path. |
| OrganizationForest.ScopeTree | internal/crm/service.go:93-116 | The downward recursive query terminates and collects exactly the organizations whose upward path meets the root. |
| OrganizationForest.ScopeAgreesWithMembership | internal/crm/service.go:93-131 | Descending from a root child by child, as many levels as there are organizations, meets an organization exactly when ascending from it meets the root. |
| OrganizationForest.ScopeContainsOwnOrganization | internal/crm/service.go:93-116 | A scoped user's own organization and everything below it is in the scope. |
| OrganizationForest.OrganizationTable.Update | internal/server/admin_crud.go:415-478 | A parent at or below the organization is refused, and every accepted change keeps the forest. |
| OrganizationForest.OrganizationTable.Delete | internal/server/admin_crud.go:488-524 | Refused while children or references remain; otherwise the row is gone and the forest kept. |
| SignalRules.KeysAreDistinct | internal/intelligence/engine.go:211-360 | Over a whole pass no two signals share a dedupe key. |
| SignalRules.KeyTextIdentifies | internal/intelligence/engine.go:593-596 | The joined text of a dedupe key determines its parts, whatever the entity id contains. |
| SignalRules.ListsAreComplete | internal/intelligence/engine.go:129-150 | The per-account lists hold exactly the signals that hold, for every order of ranging over the deals. |
| SignalFacts.HoldsIff | internal/intelligence/engine.go:211-360 | Exactly which signals hold, with severity, entity and source, said on the facts: days without contact, contacts and decision makers, requests, touches and quotes of an account, days in stage and close date of a deal, days left and renewal of a contract. |
| RiskScoring.ScoreRisks | internal/intelligence/engine.go:365-476 | The loops and maps of scoreRisks compute the specified risks of an account's signals. |
| RiskScoring.ScoresAreExplained | internal/intelligence/engine.go:365-476 | Each risk scores min(100, sum of its factor points), between 1 and 100, with the matching severity. |
| RiskScoring.RiskIffSignal | internal/intelligence/engine.go:365-476 | A risk is present exactly when a signal behind it holds, also when rising engagement counts against it. |
| RiskScoring.RiskKeysAreDistinct | internal/intelligence/engine.go:365-476 | No two risks of an account share a key. |
| RiskFacts.RiskIsByFacts | internal/intelligence/engine.go:365-476 | Every risk has the score and severity the facts give: 50 or 35 points for silence, 35 or 25 for missing decision makers, 20 off for growing engagement, 75 for a critical request, 60 or 45 plus 55 for a deal, and 40 to 100 for a contract. |
| RiskFacts.FactsGiveRisks | internal/intelligence/engine.go:365-476 | And wherever the facts give a score there is a risk. |
| RiskFacts.RiskIsGrounded | internal/intelligence/engine.go:365-476 | Every factor of a risk stands for a signal of its account that holds now, with that signal's points, or for a renewal not started. |
| PassOrder.RisksIgnoreOrder | internal/intelligence/engine.go:129-171 | The risks of an account do not depend on the order in which the deals were ranged over. |
| Recommendations.Recommend | internal/intelligence/engine.go:521-573 | The loop with its seen map computes the specified advice. |
| Recommendations.AdviceIff | internal/intelligence/engine.go:521-573 | At most one recommendation of a type; each exactly when a risk of 70 or more (or a quote without such a deal risk) calls for it. |
| Recommendations.AdviceFollowsFirstRisk | internal/intelligence/engine.go:521-573 | The due date is that of the first risk calling for it. |
| Recommendations.AdviceIsExact | internal/intelligence/engine.go:521-573 | The advice of an account is, for each kind, what its first risk of 70 or more calls for (which kind, high priority, due in 7 days or in 3 from 90 on) and a follow-up of a quote in 5 days unless a deal risk is that high. |
| Reconciliation.LiveRowsAreExact | internal/intelligence/store.go:99-189 | After a pass the live rows are precisely the keys found by it that nobody has decided about, one row a key. |
| Reconciliation.DecisionSurvives | internal/intelligence/store.go:108-114 | A decided row keeps its decision through a pass. |
| Reconciliation.SecondPassChangesNothing | internal/intelligence/store.go:99-189 | A second pass over the same findings opens nothing, resolves nothing and leaves every row. |
| Reconciliation.OutcomeIsDetermined | internal/intelligence/store.go:99-189 | The rows after a pass depend on what was found, not on the order of the upserts. |
| Reconciliation.ValuesAreCurrent | internal/intelligence/store.go:99-189 | After a pass every finding's row carries its value, known key or new, and a row without a finding keeps its value and account. |
| Reconciliation.AccountIsKept | internal/intelligence/store.go:108-114 | A row's account is the current one if and only if the key is new or has not moved. |
| Reconciliation.ResolvedAreTheStale | internal/intelligence/store.go:133-144 | The bulk update resolves exactly the live rows whose key was not found. |
| Reconciliation.Table.PersistAll | internal/intelligence/store.go:99-131 | The nested upsert loops add or refresh every item and count the inserted rows, for every order of accounts. |
| Reconciliation.Table.ResolveStale | internal/intelligence/store.go:133-144 | Resolves and counts the live rows missing from the pass. |
| EngineSpec.SignalItemsAreDistinct | internal/intelligence/engine.go:211-360 | A key names one finding over all accounts. |
| EngineSpec.RisksAreDistinct | internal/intelligence/engine.go:365-476 | Risk keys are distinct over all accounts of a pass. |
| EngineSpec.OpenAdviceIsExact | internal/intelligence/store.go:228-265 | For an account that has signals the open advice types are exactly what recommend produces now, minus the decided ones. |
| AdviceFacts.AdviceByFacts | internal/intelligence/engine.go:521-573 | Advice of a kind is produced for a scanned account exactly when the facts call for it: a score of 70 or more for the account, one of its deals or contracts, or a quote while no deal has one. |
| AdviceFacts.OpenAdviceByFacts | internal/intelligence/engine.go:188-200 | After a pass the advice open for an account it has advised is what the facts call for, minus what somebody has decided about. |
| EngineSpec.DecidedAdviceSurvives | internal/intelligence/store.go:228-265 | Decided advice is never reopened or withdrawn and keeps its assignee and due date. |
| EngineSpec.AdviceRowsAreCurrent | internal/intelligence/store.go:233-246 | A row of advice found now has its priority; while OPEN also its assignee and due date, and once decided those it had. |
| EngineSpec.SecondAdviceChangesNothing | internal/intelligence/store.go:228-265 | A second pass leaves the advice as it is. |
| Engine.CollectSignals | internal/intelligence/engine.go:129-150 | The three loops, in any order of accounts and deals, build lists and the live key set that hold exactly the emitted signals. |
| EngineScan.Tables.Scan | internal/intelligence/engine.go:105-203 | One pass reconciles signals, risks and advice exactly as specified, with the counts it reports. |
| RiskFacts.SignalRowsAreCurrent | internal/intelligence/store.go:99-131 | After a pass every signal that holds has a row with its severity and source as they are now, and each live row shows such a signal. |
| RiskFacts.RiskRowsAreCurrent | internal/intelligence/store.go:146-189 | After a pass every risk has a row with its score, severity and factors as they are now: the score the facts give, which is the capped sum of the points stored beside it, and factors that hold now; each live row shows such a risk. |
| EngineScan.Tables.AdviseAll | internal/intelligence/engine.go:188-200 | The last loop panics exactly when a signal's account was not scanned; until then each account visited is reconciled. |
| EngineInputs.PassPanicsIff | internal/intelligence/store.go:38-82 | That is exactly when an open deal that is stalled or past its close date, or a contract in its renewal window, belongs to a customer the account query leaves out. |
| EngineInputs.StalledDealOfUnscannedAccount | internal/intelligence/store.go:54-58 | One stalled deal of such a customer ends the pass before any advice. |
| EngineInputs.StaleAdviceIsWithdrawnIff | internal/intelligence/engine.go:188-200 | Open advice that no rule calls for any more is withdrawn if and only if its account still has some signal. |
| EngineInputs.QuietAccountKeepsAdvice | internal/intelligence/engine.go:188-200 | A scanned account with no signal keeps all its advice. |
| EngineInputs.MovedDealKeepsItsAccount | internal/intelligence/store.go:108-114 | A deal found stalled under one account and moved to another: the live row still names the first. |
| EngineScan.SecondPassIsQuiet | internal/intelligence/engine.go:105-203 | A second pass over the same facts leaves all tables as they are and reports zeros. |
| EngineScan.PassIsDetermined | internal/intelligence/engine.go:105-203 | Two passes from the same tables over the same facts end in the same tables. |
| EngineScan.DecisionsSurvive | internal/intelligence/queries.go:293-417 | Over every run mixing passes and human actions, accepted risks, ignored signals and decided advice stay decided. |
| EngineScan.StepKeepsTasks | internal/intelligence/queries.go:293-343 | Each accepted recommendation has its own task with its assignee and due date, and no task has another origin, when actions run one after another. |
| AdviceRace.TasksAreLinkedIff | internal/intelligence/queries.go:293-372 | Over every run of people and engine, reads and commits apart: each task is the task of the accepted recommendation it was made for if and only if no commit was overtaken. |
| AdviceRace.RunKeepsInv | internal/intelligence/queries.go:293-372 | Over every run an accepted recommendation has a task made for it, and no task belongs to two. |
| AdviceRace.DecidedStaysDecided | internal/intelligence/queries.go:293-372 | No step makes a decided recommendation open again or deletes it. |
| AdviceRace.PromptCommitIsTimely | internal/intelligence/queries.go:293-372 | A commit that directly follows its read is not overtaken. |
| AdviceRace.TwoAcceptancesTwoTasks | internal/intelligence/queries.go:293-343 | Two overlapping acceptances leave two tasks for one recommendation. |
| EngineScan.Tables.AcceptAdvice | internal/intelligence/queries.go:293-343 | Open advice becomes accepted with one new task for the assignee and date given, or else those of the advice; anything else is refused unchanged. |
| EngineScan.Tables.DismissAdvice | internal/intelligence/queries.go:345-372 | Open advice is dismissed when a reason is given. |
| EngineScan.Tables.AcceptRisk | internal/intelligence/queries.go:374-397 | A risk is accepted whatever its status, if a reason is given. |
| EngineScan.Tables.IgnoreSignal | internal/intelligence/queries.go:399-417 | A signal is ignored whatever its status. |
| SearchPattern.PatternMeansContains | internal/crm/service.go:163-171 | Under LIKE with escape \ (section 8.5 of ISO/IEC 9075-2) a text matches the pattern of a non-blank query if and only if it contains the trimmed, folded query literally, wildcards included. |
| SearchPattern.SearchFindsExactly | internal/crm/service.go:192-215 | A blank query filters nothing; any other keeps exactly the customers that have it, trimmed and folded, in their name, registration number or code. |
| Cursor.Base64RoundTrip | internal/crm/service.go:47-68 | Unpadded base64url decodes to the bytes it encoded (section 5 of RFC 4648). |
| Cursor.CursorRoundTrip | internal/crm/service.go:47-68 | Every cursor handed out parses back to its offset. |
| Cursor.AcceptedIff | internal/crm/service.go:47-65 | A cursor is accepted for an offset exactly when it is blank and the offset is 0, or it decodes to the prefix and a number of that value: digits within 64 bits, perhaps with a plus sign, or a zero with a minus. |
| Cursor.IssuedIff | internal/crm/service.go:40-68 | An accepted cursor is the one handed out for its offset if and only if it is not blank, has no surrounding blanks, no line breaks and no spare bits, and its number has neither a sign nor a leading zero. |
| Cursor.ForeignCursorAccepted | internal/crm/service.go:47-64 | Each offset also has an accepted cursor, its number signed, that is never handed out. |
| Cursor.LineBreaksDoNotCount | internal/crm/service.go:47-64 | A line break anywhere makes no difference to what is decoded. |
| Cursor.LeadingZerosDoNotCount | internal/crm/service.go:47-64 | Neither do a leading zero or a plus sign, and a number over 64 bits is refused. |
| Cursor.BlankCursorAccepted | internal/crm/service.go:47-64 | So is the blank cursor. |
| Paging.FetchPage | internal/crm/service.go:192-237 | Asking for one row more decides whether there is a next page, and the page itself never holds that row. |
| Paging.PageIsWindow | internal/crm/service.go:196-203 | A page holds the rows from its offset on, as many as asked for if that is 1 to 200 and 50 otherwise, and says whether rows are left. |
| Paging.WalkVisitsEverythingOnce | internal/crm/service.go:192-237 | From the empty cursor, with any limit, following cursors ends and lays the whole result end to end, each row once. |
| Paging.PagesMakeProgress | internal/crm/service.go:192-237 | No page of a walk over a non-empty rest is empty or over the limit, and its cursor continues right behind it. |
| HealthRules.WindowDays | internal/intelligence/health.go:80-89 | A window is always positive: the configured number if it is, the seeded one otherwise. |
| HealthRules.EvaluateHealthRule | internal/intelligence/health.go:325-413 | The rule loops compute the specified verdict and evidence. |
| HealthFiring.NoActivityFiresIff | internal/intelligence/health.go:330-341 | The activity rule fires if and only if there is no activity or the last one lies at least the threshold days back; it shows the whole days since. |
| HealthFiring.CloseDateFiresIff | internal/intelligence/health.go:342-347 | The close date rule fires if and only if there is a date and it is before today. |
| HealthFiring.NextActionFiresIff | internal/intelligence/health.go:348-350 | The next action rule stays quiet if and only if the action has a visible character and a date. |
| HealthFiring.StageFiresIff | internal/intelligence/health.go:351-357 | The stage rule fires if and only if the whole days in the stage exceed the stage's limit, or the rule's where the stage has none, and shows both. |
| HealthFiring.ContactRulesFireIff | internal/intelligence/health.go:398-401 | Each contact rule fires if and only if its own count is zero, and shows it. |
| HealthFiring.UnknownRuleNeverFires | internal/intelligence/health.go:402 | A rule of another name never fires. |
| HealthFiring.SlippageCountsMoves | internal/intelligence/health.go:358-369 | The slippage rule shows how many changes in its window moved the close date later and fires if and only if these reach its threshold. |
| HealthFiring.AmountDropFiresIff | internal/intelligence/health.go:370-382 | The amount rule fires if and only if one change in its window took at least the threshold's share off a positive amount, or the threshold is not positive. |
| HealthFiring.ProbabilityDropFiresIff | internal/intelligence/health.go:383-394 | The probability rule likewise, in points. |
| HealthFiring.AmountDropShows | internal/intelligence/health.go:370-382 | The amount rule shows the largest loss in its window to the nearest tenth of a percent. |
| HealthFiring.ProbabilityDropShows | internal/intelligence/health.go:383-394 | The probability rule shows the largest loss in points. |
| HealthFiring.CountedIff | internal/intelligence/health.go:404-413 | A change counts if and only if it lies in the window, to the nanosecond, with the limits of 64 bits. |
| HealthRules.DropRulesFireIff | internal/intelligence/health.go:370-395 | The amount and the probability rule fire exactly when one change inside their window lost at least the threshold (or the threshold is not positive). |
| HealthRules.SlippageFiresIff | internal/intelligence/health.go:357-369 | The slippage rule fires exactly when at least the threshold number of changes inside its window moved the close date later. |
| HealthRules.HistorySince | internal/intelligence/health.go:309-323 | The loop over the rules computes how far back history is read. |
| HealthRules.AtLeastAYearIsRead | internal/intelligence/health.go:75-77 | History is never read for less than a year. |
| HealthRules.CountedWasRead | internal/intelligence/health.go:309-323 | Whatever any window counts lies inside what is read, even for windows too long for an int64 duration. |
| HealthRules.TruncatedHistoryIsEnough | internal/intelligence/health.go:309-323 | Every rule of any list, with any thresholds, gives the same verdict and evidence on the truncated history as on the full one. |
| DealHealth.TruncatedHistorySameHealth | internal/intelligence/health.go:415-450 | So does the whole scoring. |
| DealHealth.ScoreDealHealth | internal/intelligence/health.go:419-450 | The scoring loop with its seen map computes the specified verdict. |
| DealHealth.VerdictIsExplained | internal/intelligence/health.go:419-450 | Factors are exactly the rules that fire, their points those rules' scores, recommendations their actions without repetition, the score is the sum of the fired scores capped at 100 and the level follows 70, 40 and 20. |
| DealHealth.ClosedDealIsHealthy | internal/intelligence/health.go:420-424 | A deal that is not open scores nothing and is healthy. |
| DealHealth.HealthInputs | internal/intelligence/health.go:452-472 | Each distinct customer, stage and deal id is collected, customers and stages once. |
| DealHealth.ReadShared | internal/intelligence/health.go:495-515 | One round of reads fails exactly when a read some open deal needs fails, and otherwise covers every deal of the list. |
| DealHealth.VerdictNeedsNoMore | internal/intelligence/health.go:478-525 | What a deal has no need to read makes no difference to its verdict. |
| DealHealth.FactsAreStored | internal/intelligence/health.go:478-525 | The facts of a deal are what is stored under its customer, its stage and itself. |
| DealHealth.HealthOfAll | internal/intelligence/health.go:478-525 | Position by position a batch gives each deal the verdict it gets alone, from everything stored, at the same instant. |
| Forecast.ForecastIntelligence | internal/intelligence/forecast.go:137-180 | The loops over both snapshots, in any order, compute the column totals and list each deal's movements. |
| Forecast.ReportIsExact | internal/intelligence/forecast.go:137-180 | The report lists each movement that happened once and nothing else: new, removed, lost and won deals, amounts that rose or fell and dates that slipped, each with its signed amount. |
| Forecast.ReportAddsOpenDeals | internal/intelligence/forecast.go:132-146 | Its amounts are totals over the OPEN deals of either snapshot, the commitment over those of them in that category. |
| Forecast.WaterfallResidual | internal/intelligence/forecast.go:137-180 | The change minus all movements but slippage is exactly the earlier amounts of deals that came back to OPEN, minus the amount changes of deals OPEN in neither snapshot, minus what left OPEN for another status than WON or LOST. |
| Forecast.WaterfallBalancesIff | internal/intelligence/forecast.go:137-180 | The report balances if and only if these amounts add up to zero over all deals. |
| Forecast.WaterfallBalances | internal/intelligence/forecast.go:137-180 | In particular it does when no deal is of those kinds. |
| Forecast.DealReconciles | internal/intelligence/forecast.go:143-179 | The same residual deal by deal. |
| Arguments.ConvertedHasKind | internal/mcp/arguments.go:143-230 | A converted value is of the declared kind (ids are UUIDs, integers whole), and a value already of that kind is left alone. |
| Arguments.ConvertIsIdempotent | internal/mcp/arguments.go:143-230 | Converting a converted value changes nothing. |
| Arguments.RepairNames | internal/mcp/arguments.go:67-87 | The loop that renames keys of the map it ranges over, in the order the range takes them, reports exactly the keys left without a free property of their own and repairs the rest. |
| Arguments.ConvertEach | internal/mcp/arguments.go:95-111 | The loop that rewrites and deletes entries while ranging converts each entry once. |
| Arguments.ValidateArguments | internal/mcp/arguments.go:55-139 | For every order of ranging the whole check ends in the answer the specification gives for that order. |
| Arguments.OrderDoesNotMatter | internal/mcp/arguments.go:55-139 | With distinct normal forms any two runs agree on acceptance, on the resulting map and on conversion problems. |
| Arguments.UnknownNamesIff | internal/mcp/arguments.go:67-92 | Unknown names are reported exactly when the renaming is not total, injective and clear of the names given. |
| Arguments.ReportIgnoresOrderIff | internal/mcp/arguments.go:67-92 | The names reported are the same for every order of ranging if and only if no two given keys spell the same free property. |
| Arguments.TwoSpellingsOneProperty | internal/mcp/arguments.go:76-92 | Two spellings of one property: ranging one way reports the one, ranging the other way reports the other. |
| Arguments.ResultIsClean | internal/mcp/arguments.go:55-139 | An accepted result has only declared keys under a closed schema, no nulls, every value of its declared kind, and every required name with a non-blank value. |
| Arguments.RevalidationIsIdentity | internal/mcp/arguments.go:55-139 | Checking an accepted result again accepts it unchanged. |
| ArgumentMeaning.ConvertedMeans | internal/mcp/arguments.go:143-230 | A value is accepted as kept if and only if kept is of the declared kind and says what was given: the text or its printed number or flag (an id: trimmed), the number a text spells, the flag a text spells in any case; it is dropped if and only if it is a blank id. |
| ArgumentMeaning.AcceptedMeansGiven | internal/mcp/arguments.go:55-139 | Every value of an accepted call says what was given under a spelling of its name, and every value given, nulls apart, is there under the name it spells unless it is a blank id. |
| ArgumentMeaning.CheckedIff | internal/mcp/arguments.go:95-139 | With its names in order a call is accepted if and only if every value can be read as its kind and every required name has a value that is not blank. |
| ArgumentMeaning.SeparatorsDoNotCount | internal/mcp/arguments.go:46-50 | A separator anywhere in a name makes no difference to what it spells. |
| ArgumentMeaning.UuidIsFiveGroups | internal/mcp/arguments.go:29 | An id is five groups of hexadecimal digits of the lengths of a UUID, joined by dashes. |
| ArgumentMeaning.IdFieldsAreNamed | internal/mcp/arguments.go:31-35 | A property holds an id if and only if it is called id or something followed by Id. |
| KeyAccess.Normalize | internal/apikey/service.go:100-120 | The loop with its seen map computes the cleaned values at first appearance. |
| KeyAccess.NormalizedHolds | internal/apikey/service.go:100-120 | It keeps exactly the non-blank cleaned values, once each. |
| KeyAccess.GrantedIff | internal/apikey/service.go:131-160 | Access is granted exactly when it is well formed, its channels are switched on and the user holds every scope; well formed includes MCP channel if and only if mcp:use scope. |
| KeyAccess.AccessErrorIsTrue | internal/apikey/service.go:131-160 | The reason given for refusing access is true of what was asked for. |
| KeyAccess.KeyNarrowsUser | internal/auth/service.go:73-92 | A keyed request may do exactly what both the user and the listed scopes allow, the user what his permissions, admin:* or the bootstrap account give. |
| KeyAccess.NoAdminScope | internal/apikey/service.go:22 | The delegable scopes do not include the administrative wildcard. |
| PersonalKeys.StatusOnlyAdvances | internal/apikey/service.go:223-375 | Over any interleaving of statements statuses only move ACTIVE, ROTATING, EXPIRED, REVOKED and no key loses its row, owner or expiry. |
| PersonalKeys.FailureIsPermanent | internal/auth/service.go:328-332 | A key that fails the lifecycle test fails it at every later instant, whatever ran in between. |
| KeyLife.WorksUntilEnded | internal/auth/service.go:327-331 | Over every interleaving of statements a stored key is accepted for an instant exactly when it was at first and no statement has ended it since: a revocation, a grace over by then, maintenance that finds its grace or its time over. |
| KeyLife.CreatedKeyWorks | internal/auth/service.go:327-331 | A key just created is accepted up to the expiry asked for, that instant included. |
| KeyLife.RotatedKeysWork | internal/auth/service.go:327-331 | After a rotation the new key is accepted up to the old one's expiry, the old one up to the same and before the end of its grace. |
| KeyLife.RevokedKeyFails | internal/auth/service.go:327-331 | A key revoked is never accepted again, whatever runs after. |
| PersonalKeys.MaintenanceVerdictIff | internal/job/runner.go:79-84 | With two clock readings, maintenance changes the verdict on a key at an instant from then on exactly when the key is valid there and that instant is both its expiry and the second reading. |
| PersonalKeys.RunKeepsAccess | internal/apikey/service.go:268-309 | Over any interleaving every stored key has the MCP channel if and only if it has the mcp:use scope. |
| PersonalKeys.OperationsAreChecked | internal/apikey/service.go:223-346 | Every operation writes only access it has normalised and checked. |
| PersonalKeys.OperationsKeepAccess | internal/apikey/service.go:223-346 | So serial runs of whole operations keep all stored access in order. |
| KeyOwners.OthersCannotTouch | internal/apikey/service.go:223-419 | Over every serial run of operations by others who are no administrators a user's keys stay as they are, and nobody gives him one. |
| KeyOwners.ChangesNeedRight | internal/apikey/service.go:223-419 | An operation changes a key only by its owner, by an administrator revoking, by whoever revokes all keys of its owner, or by maintenance; it adds a key only to the user acting and removes none. |
| KeyOwners.UpdateIff | internal/apikey/service.go:268-309 | An update takes effect if and only if the caller owns the ACTIVE key, names its version and may have the access; then just the access and the version change. |
| KeyOwners.UpdateRefusalIsTrue | internal/apikey/service.go:268-309 | An update refused is told something true of the key and the request. |
| KeyOwners.RevocationIff | internal/apikey/service.go:353-375 | A revocation takes effect if and only if the caller owns the key or administers keys and it is not revoked yet; otherwise which refusal is answered. |
| KeyOwners.CreationIff | internal/apikey/service.go:227-253 | A creation adds just its key, if and only if it is named, its access granted, its expiry within the policy, its id new and the user below the quota. |
| KeyOwners.RefusalIsTrue | internal/apikey/service.go:227-253 | So is a creation or a rotation refused. |
| KeyOwners.RotationIff | internal/apikey/service.go:324-346 | A rotation goes through if and only if the caller owns the ACTIVE key and the same key would be accepted now, whatever the quota. |
| KeyOwners.RevokingAllTakesLiveKeys | internal/apikey/service.go:377-419 | Revoking all keys of a user takes his live ones and nobody else's. |
| KeyOwners.MaintenanceMoves | internal/job/runner.go:72-84 | A maintenance pass revokes the rotating keys past their grace, expires the other live keys past their expiry and does nothing else; without the lock it does nothing. |
| PersonalKeys.RotationHandsOver | internal/apikey/service.go:324-346 | A rotation hands owner, access and expiry to the new key; the old one works until its grace ends. |
| PersonalKeys.QuotaHoldsSerially | internal/apikey/service.go:223-346 | In serial runs no user ever has more ACTIVE keys than the quota, although rotation skips the check. |
| KeyOverlap.OverlapActive | internal/apikey/service.go:223-346 | Creations and rotations decided on one table, their statements in any order: a user's ACTIVE keys lose every key that some rotation replaces, once, and gain one for each accepted operation. |
| KeyOverlap.OverrunIff | internal/apikey/service.go:227-346 | So they exceed the quota if and only if the accepted operations outnumber the different keys replaced by more than what is left of it. |
| KeyOverlap.TwoAdditionsOverrunIff | internal/apikey/service.go:227-346 | Two creations need room for two; two rotations need room for one exactly when they rotate the same key. |
| KeyOverlap.TwoRotationsOverrun | internal/apikey/service.go:324-346 | With a quota of one, two overlapping rotations of the only key end over it. |
| KeyTable.Table.Create | internal/apikey/service.go:223-253 | Refuses in the source's order, otherwise inserts the checked row. |
| KeyTable.Table.Rotate | internal/apikey/service.go:324-346 | Creates the replacement, then parks the old key and links the two. |
| KeyTable.Table.UpdateAccess | internal/apikey/service.go:268-309 | Changes the access of the caller's own ACTIVE key of the right version, or nothing. |
| KeyTable.Table.Revoke | internal/apikey/service.go:353-375 | Revokes a key not revoked yet, for its owner or an administrator. |
| KeyTable.Table.RevokeAll | internal/apikey/service.go:377-419 | Counts and revokes the live keys of a user; none is ever valid again. |
| KeyTable.Table.DetachUser | internal/server/admin_crud.go:181-184 | Revokes what a deactivated account could still use. |
| KeyTable.Table.Maintain | internal/job/runner.go:72-84 | With the lock, revokes keys past their grace, then expires keys past their expiry. |
| KeyCache.FetchesAreSpaced | internal/oidc/access.go:302-334 | In any sequential run two fetches of one URI between resets begin at least thirty seconds apart. |
| KeyCache.FreshKeyNeedsNoFetch | internal/oidc/access.go:306-310 | A key found less than fifteen minutes after its fetch is answered without a fetch. |
| KeyCache.ReturnedKeyIsLatest | internal/oidc/access.go:302-334 | Every key returned is the entry for its kid of the latest successful fetch of that URI. |
| KeyCache.StaleKeyIsBounded | internal/oidc/access.go:320-327 | After a failed fetch a key is answered only while under six hours old. |
| KeyCache.AnsweredKeyAge | internal/oidc/access.go:302-334 | Over every sequential run, a key answered is just fetched, under six hours old when it is answered, or answered while the call is held back after a failed attempt. |
| KeyCache.OldKeyAnsweredIff | internal/oidc/access.go:302-334 | A key older than that is answered from the cache if and only if the latest attempt failed less than thirty seconds before. |
| KeyCache.HeldBackKeyHasNoAgeBound | internal/oidc/access.go:311-317 | For every age there is a run in which a held-back call answers an older key. |
| KeyCache.OverlapReflectsIff | internal/oidc/access.go:302-334 | After two overlapping calls the entry is what the latest fetches brought if and only if the one that stores last succeeds, neither does, or the other brought just what was cached, dated alike. |
| KeyCache.HoldsNewestIff | internal/oidc/access.go:302-334 | Going by when fetches began, the entry is that of the newest success if and only if the call that stores first fails, or began no later than a success that stores last, or brought just what stays, dated alike. |
| KeyCache.OverlapIsSpacedIff | internal/oidc/access.go:311-334 | Overlapping fetches keep the thirty seconds exactly when the one that stores last begins that long after the other is stored. |
| KeyCache.OverlapForgetsKey | internal/oidc/access.go:302-334 | A run from the empty cache after which a key just fetched is not found. |
| KeyCache.DiscoveryIsRecent | internal/oidc/access.go:281-300 | A discovery document returned is the latest fetched one and under six hours old. |
| KeyCache.CallByLog | internal/oidc/access.go:302-334 | Over every sequential run, what a call answers is said by the fetches made before it: whether it fetches, and the key, the missing key or the failure it answers. |
| KeyCache.DiscoveryByLog | internal/oidc/access.go:281-300 | The same for a discovery call. |
| KeyCache.Cache.Key | internal/oidc/access.go:302-334 | The method is one step of those runs. |
| KeyCache.Cache.Discovery | internal/oidc/access.go:281-300 | The method is one step of those runs. |
| JsLiteral.JsString | internal/analytics/loader.go:140-170 | The loop computes the specified escaping. |
| JsLiteral.StringRoundTrip | internal/analytics/loader.go:140-170 | Read as a double-quoted literal (section 12.9.4 of ECMA-262) the output gives back the text, and reading stops right behind it whatever follows. |
| JsLiteral.UnitsAreUtf16 | internal/analytics/loader.go:140-170 | The code units read are UTF-16: a code point above 0xFFFF is a high and a low surrogate of ten bits each. |
| JsLiteral.Utf16IsInjective | internal/analytics/loader.go:140-170 | The code units read determine the text. |
| JsLiteral.LiteralIsSafe | internal/analytics/loader.go:140-170 | No <, >, & or control character below 0x20 in the output. |
| JsObject.SortNames | internal/analytics/loader.go:180-185 | The in-place insertion sort arranges the names in order, keeping each. |
| JsObject.SortedArrangementIsUnique | internal/analytics/loader.go:180-185 | There is one such arrangement of a set of names. |
| JsObject.JsObject | internal/analytics/loader.go:172-191 | The output is a function of the map alone, for every order of ranging. |
| JsObject.ObjectRoundTrip | internal/analytics/loader.go:172-191 | Read member by member the output gives back the entries in ascending order of names. |

## Left out

- Permissions, data scope arguments, HTTP, JSON encoding, audit rows, notifications and mail.
- Names, codes, notes, currencies, exchange rates and base amounts; only what a guarantee speaks about is a field.
- Ids and tokens are fresh values, timestamps of rows are not kept, and numbers wider than 64 bits appear only where a conversion is modelled.
- Opportunities, quotations, tasks, contacts and activities, which a customer merge also moves.
- Insights, their expiry, and the Korean titles, evidence and descriptions of signals, risks and advice.
- Writing the health snapshots and the manager commitment of the forecast, which read nothing back.
- Forecast.ForecastIntelligence: the final sort of the movements by type and name only rearranges them and is not modelled; the report's counts and names are left out.
- HealthRules.EvaluateHealthRule: percentages, ages and windows are exact reals; rounding of float64 is not modelled, only its conversion to int64 as amd64 does it. Dates arrive already read from their text.
- Arguments.ValidateArguments: number printing and parsing and lower-casing a rune are parameters; error texts are reduced to the names they mention.
- SearchPattern.PatternMeansContains: case folding maps one rune to one rune and is a parameter; the collation of the database is equality of characters.
- RevenueSchedule.BuildScheduleDates: dates are calendar dates, as the DATE columns hold them; times of day and zones are not modelled.
- KeyTable.Table.Create: lifetimes are durations rather than calendar days, a failed count or policy read is not modelled, and the secret and its digest are left out.
- KeyTable.Table.RevokeAll: the administrator's permission and the existence of the user are not checked.
- KeyCache.OverlapReflectsIff: two calls that read the same entry; longer overlaps are not modelled.
- JsObject.ObjectRoundTrip: reads members as name and value; the special meaning JavaScript gives to a member named `__proto__` is not modelled.
- StageOrder.StageTable.UpdateStage: the position is read in the same step as it is used; the source reads it before the transaction. Won and lost flags, names and probabilities of a stage are not modelled, nor the deals that still refer to a deleted stage.
- OrganizationForest.OrganizationTable.Update: the chain check and the UPDATE are one step; AllReparentsIff takes them apart. The protection of the root organization and the active flag are not modelled. The reporting chain of users is checked by the same query on another table and not modelled again.
- EngineScan.StepKeepsTasks: each action is one step here; overlapping ones are the subject of AdviceRace.
- EngineScan.Tables.AcceptAdvice: read and UPDATE are one step, as they are in DismissAdvice; AdviceRace takes them apart, without assignees and due dates.
- EngineScan.Tables.Scan: a pass is one step against human actions, and insights are left out.
- ContractStore.Store.MergeCustomers: the check that all customers are accessible and the transaction are one step; the source checks first.
- ContractStore.Store.CreateSale: the customer check and the INSERT are one step; dates, currencies and rates are not modelled.
- StageOrder.StageTable.DeleteStage: the position is read in the same step as it is used, as in UpdateStage; the source reads it before the transaction.
- OrganizationForest.OrganizationTable.Delete: the checks and the DELETE are one step, the references to an organization are one flag, and the protection of the root is not modelled.
- KeyTable.Table.Rotate: its reads and statements are one step, as in Create and UpdateAccess; KeyOverlap interleaves the statements of rotations and creations.
- KeyOverlap.OverrunIff: the operations all read before any of them writes; ones that read between the statements of others are not covered.
- PersonalKeys.QuotaHoldsSerially: whole operations run one after another under one policy.
- ContractStore.Store.CreateContract: the customer check and the INSERT are one step; currency, quotation and opportunity links, and contract numbers are not modelled.
- Creating a stage or a pipeline, custom fields, settings, the permission catalogue, products, approvals, the web interface.
- Cancellation and lost connections: a transaction either commits or leaves the tables alone.
