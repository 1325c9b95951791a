# Operatebench tools: a verified model

This project models four parts of the repository's tooling and proves what they are for.

**The settled budget controller.** Every provider attempt is a row that moves from reserved to sent to settled, unknown or
cancelled. A reducer computes the next table, a hash-chained line is appended to a journal, and only then is the new table
published. `Ledger` is the reducer, `Acceptance` exactly which events it accepts, `History` whole runs of it, `Journal` the file
as bytes, `Controller` the relation between calls, memory and file, `Progress` what each call comes to, `Budgets` the object
itself (base controller and campaign successor) over a disk that counts its faults, `CrashWorld` the controller among its
threads, the wire, failed appends, crashes and reopenings, `CrashReach` that none of these is ruled out, `CrashRecovery` what a
reopened campaign owes inside that machine, `Guards` and `SharedGuards` the per-cell guards over one budget, `Fleets` every run of such
guards, `Transport` the dispatch that precedes the wire, and `Execution` one attempt from authorisation to settlement.

**The safe-regex grammar.** `Regex` gives expressions a meaning, `SafePattern` builds the published pattern fragment by
fragment, `UnitShapes` and `Substitution` show which arrangements of units its body allows, `PatternText` says as plain text
what an atom and a quantifier are to each of the two grammars, `SafeNumbers`, `SafePairs` and `AuthoredText` prove that the
published fragments match exactly that, `GateText` that the scan of the runtime gate (`RuntimeScanner`) consumes exactly that,
and `SafeAtoms` and `SafeAscii` relate the two. `SafeUnits` proves that the pattern accepts exactly the strings that decompose
into allowed units, `SafeGate` characterises the gate in the same way, with one reading a string, and shows it accepts whatever
the published pattern accepts, and `SafeMatching` draws the conclusion: matching a pattern the gate lets through leaves nothing to choose.

**The one-shot launch protocol.** `Markers` is the creation of a permanent marker over an operating system that may write
short, interrupt, fail or corrupt; `Launches` is any number of live and offline launches interleaving over
shared directories and `LaunchReach` that one whose names are free can finish; `ReleasedClaims` is the variant that removes its claims, with what it still guarantees and exactly when it
collides, and `ReleasedCollision` a run in which it does.

**Admission.** `OwnerPricing` is the owner's price envelope, `Roster` the ordered-subset checks, `Admissions` the admission
with its embedded original, `AdmissionTerms` exactly when each kind of admission is accepted, `Series` the carry of a part-spent authorisation.

Amounts are exact integers in one decimal unit fine enough for every rate in use, so the source's division by a million is
folded into the unit. Canonical JSON text and SHA-256 enter as a `Codec` about which only framing and a round trip are
assumed (`Sound`), and freedom from collisions where a result is about hashes (`CollisionFree`).

One property of admission is worth spelling out: validating a correction compares models and prices with the original, not
trials, so a correction may name a trial its original never selected. The comparison of trials is made later, when the launch
is consumed (`tools/three_flow_live.py:232-233`).

Two things are worth knowing about the results on spend. "True cost" is the usage a dispatched request is billed, at its
row's rates; the theorem assumes that this usage stays within the bounds dispatched with it and that a reported settlement is
the true one, and nothing else. And the base controller refuses a torn tail before reading any line, while the campaign
controller meets it as the last line; both refuse with the same fault in the model.

## Model

| member | source | states |
|---|---|---|
| Ledger.PriceIsLinear | tools/aggregate_budget.py:70-71 | the price the reducer adds up token by token is input tokens times the input rate plus output tokens times the output rate |
| Ledger.PriceMonotone | tools/aggregate_budget.py:70-71 | more tokens never cost less |
| Ledger.StepChangesOneRow | tools/aggregate_budget.py:232-299 | an accepted event adds one reserved row for an idle cell or advances exactly one open row, keeping who it is and at what rates |
| Ledger.StepKeepsRows | tools/aggregate_budget.py:244-283 | every row's bound stays the price of its current bounds, its initial bound that of its first, a settled amount stays within the bound |
| Ledger.StepKeepsCap | tools/aggregate_budget.py:286-298 | after every accepted event exposure, and each row's first bound, is within the cap |
| Ledger.StepKeepsValid | tools/aggregate_budget.py:232-299 | the whole ledger invariant is inductive: legal rows, distinct ids, one open row per cell, within the cap |
| Ledger.ReleaseNeverMeetsCap | tools/aggregate_budget.py:265-298 | settling, forfeiting, cancelling and counting never raise exposure, so the cap refuses only reserve and dispatch, and the second settlement refusal is unreachable |
| Ledger.OpenRowForfeits | tools/aggregate_budget.py:269-272 | an open row can always be forfeited, at the same exposure |
| Acceptance.ReserveAcceptedIff | tools/aggregate_budget.py:238-254 | a reservation is accepted if and only if its name is new, the cell has no reserved or sent row, its counts and rates are counts and rates, and exposure with its price is within the cap; what it adds is that row, and the duplicate and cap refusals are those two tests |
| Acceptance.DispatchAcceptedIff | tools/aggregate_budget.py:256-264 | a dispatch is accepted if and only if its row is reserved, the input bound does not shrink and exposure at the new price is within the cap; the row becomes sent at that bound and price |
| Acceptance.SettleAcceptedIff | tools/aggregate_budget.py:273-283 | a settlement is accepted if and only if its row is sent and both counts lie within its bounds, ends included, and settles it at their price; it is refused for its usage exactly at nonnegative counts beyond them |
| Acceptance.CancelAcceptedIff | tools/aggregate_budget.py:265-268 | a cancellation is accepted if and only if its row is reserved and the proof is the prewire one |
| Acceptance.ForfeitAcceptedIff | tools/aggregate_budget.py:269-272 | a forfeit is accepted if and only if its row is reserved or sent |
| Acceptance.RawRpcAcceptedIff | tools/three_flow_budget.py:194-209 | a raw RPC is accepted if and only if the ledger is a campaign's, its row is sent and its ordinal is the next; only that count changes |
| Acceptance.StrangersAreRefused | tools/aggregate_budget.py:232-254 | any other event on a name without a row, and a genesis, is refused |
| Decimals.ShowRoundTrip | tools/aggregate_budget.py:337-337 | the decimal text of a sequence number is canonical and reads back as that number |
| Decimals.ShowInjective | tools/aggregate_budget.py:337-337 | two numbers never print alike |
| History.RunValid | tools/aggregate_budget.py:181-181 | the rows any accepted event list folds to satisfy the ledger invariant |
| History.RunPrefix | tools/aggregate_budget.py:181-181 | along a run rows keep their place and identity, and a resolved row never changes again |
| History.TellsNext | tools/three_flow_budget.py:194-209 | each accepted event extends its own row's legal path and leaves every other row's path alone |
| History.HistoryTellsRow | tools/aggregate_budget.py:238-283 | every row is read back whole from its own events: one reservation, at most one dispatch, raw RPCs numbered 1..k while sent, at most one resolution |
| History.IdentInjective | tools/aggregate_budget.py:337-337 | identifiers of different journal positions differ |
| History.IssuedIdsAreFresh | tools/aggregate_budget.py:337-350 | an identifier formed from the current position names no row of the run |
| Journal.PartialWrite | tools/aggregate_budget.py:305-316 | a write cut at any byte leaves no new line, a torn tail or the whole line, and says which |
| Journal.ReplayIsRun | tools/aggregate_budget.py:157-183 | an accepted journal is the genesis event followed by an accepted run, and its last hash is that of its last line |
| Journal.ReplayNext | tools/aggregate_budget.py:181-183 | one more well-formed line is accepted exactly when the reducer accepts its event |
| Journal.GenesisWrite | tools/aggregate_budget.py:147-155 | a first write that stops early leaves an empty journal, a whole one exactly the genesis |
| Journal.LoadsIff | tools/aggregate_budget.py:157-185 | a file loads if and only if it is not empty, its last line is whole and every line replays; the base controller refuses an empty or torn one as such before reading a line |
| Journal.ChainShape | tools/aggregate_budget.py:164-169 | in an accepted journal every line states its own position and the hash of its predecessor |
| Journal.ReplayPrefix | tools/aggregate_budget.py:162-183 | truncation at a line boundary is accepted |
| Journal.LastLinePinsHistory | tools/aggregate_budget.py:164-183 | without collisions an accepted journal ending in a line of another is that journal up to there |
| Journal.SameHashSameJournal | tools/aggregate_budget.py:162-183 | without collisions two accepted journals with the same last hash are identical |
| Journal.OnlyPrefixesAccepted | tools/aggregate_budget.py:164-169 | no reordering, repetition or interior deletion of an accepted journal's lines is accepted |
| Controller.WrittenLine | tools/aggregate_budget.py:301-318 | what any prefix of an appended line does to the durable reading of the file |
| Controller.FiredStaysInStep | tools/aggregate_budget.py:320-326 | every outcome of an event keeps memory equal to the journal's replay, or one reducer step behind it once broken |
| Controller.CrashedAppendReload | tools/three_flow_budget.py:157-185 | a crash inside an append reloads to the same image, one step further, or a refusal as torn |
| Controller.RecoveryStep | tools/three_flow_budget.py:186-189 | each forfeit of the recovery loop is accepted and costs nothing |
| Controller.RecoveryKeepsExposure | tools/three_flow_budget.py:186-189 | exposure is the same after any number of recovery forfeits |
| Controller.RecoverySettlesEverything | tools/three_flow_budget.py:186-189 | recovery ends with no pending row, unchanged exposure, and a second recovery changes nothing |
| Progress.ReservationComesTo | tools/aggregate_budget.py:328-350 | in an open, unbroken controller a reservation of an idle cell ends journalled under the next identifier with exactly its row added, or refused by the cap, or in a failed journal write |
| Progress.DispatchComesTo | tools/aggregate_budget.py:352-377 | dispatching a cell's reserved row journals the larger of the two input bounds and the body's digest and leaves the row sent at that price; it is declined exactly for another output limit or for the cap, and otherwise only the write can fail |
| Progress.DispatchNeedsAdmission | tools/aggregate_budget.py:352-360 | without a reserved row of the cell the dispatch is declined and nothing moves |
| Progress.SettlementComesTo | tools/aggregate_budget.py:379-394 | a settlement within a sent row's bounds is journalled unless the write fails; beyond them it is refused for its usage, and nothing moves |
| Progress.ForfeitComesTo | tools/aggregate_budget.py:379-397 | a forfeit, or a settlement without usage, of a reserved or sent row is journalled unless the write fails |
| Progress.CancelComesTo | tools/aggregate_budget.py:399-400 | a cancellation of a reserved row is journalled unless the write fails |
| Progress.RawRpcComesTo | tools/three_flow_budget.py:211-233 | a raw RPC of a campaign cell with a sent row is always accepted: the next ordinal is journalled and that row alone counts one more, unless the write fails |
| Progress.StrangersComeToNothing | tools/aggregate_budget.py:379-400 | settling, forfeiting or cancelling a name no row has is refused and nothing moves |
| Progress.RawRpcNeedsDispatch | tools/three_flow_budget.py:216-223 | without a sent row of the cell the RPC is declined and nothing moves |
| CellSums.ForfeitsCoverInitial | tools/aggregate_budget.py:402-422 | a cell's full forfeits are never below their projection at first bounds, so the wire supplement is not negative |
| Budgets.Budget.Append | tools/aggregate_budget.py:301-318 | succeeds exactly when the disk met no fault: one whole line, both barriers passed after its last byte, position and hash advanced; otherwise broken with a prefix of the line on disk |
| Budgets.Budget.Fire | tools/aggregate_budget.py:320-326 | reduces, journals and publishes, or leaves memory alone; memory and journal stay in step, a finished event has passed both barriers, and a failed journal write is exactly a disk fault |
| Budgets.Budget.Reserve | tools/aggregate_budget.py:328-350 | fires a reservation under the next identifier and returns it |
| Budgets.Budget.Dispatch | tools/aggregate_budget.py:352-377 | needs exactly one reserved row of the cell and an unchanged output limit, and never shrinks the input bound |
| Budgets.Budget.Settle | tools/aggregate_budget.py:379-394 | settles at the reported usage and returns the actual of that row, or forfeits when a count is missing |
| Budgets.Budget.Forfeit | tools/aggregate_budget.py:396-397 | fires the unknown event of the row |
| Budgets.Budget.Cancel | tools/aggregate_budget.py:399-400 | fires the cancellation with its prewire proof |
| Budgets.Budget.RawRpc | tools/three_flow_budget.py:211-233 | needs exactly one sent row of the cell and journals the next ordinal before it counts |
| Budgets.Budget.Create | tools/three_flow_budget.py:157-158 | without a disk fault the new file is exactly the genesis line behind both barriers and memory is its replay; with one the controller is broken and closed with a prefix of that line on disk |
| Budgets.Budget.ReplayFile | tools/aggregate_budget.py:157-183 | the line-by-line loop rebuilds exactly what loading the file means, stopping at the first fault |
| Budgets.Budget.ForfeitOpen | tools/three_flow_budget.py:186-189 | the recovery loop forfeits every open row if and only if the disk meets no fault, and writes nothing when none is open |
| Budgets.Budget.Reopen | tools/three_flow_budget.py:157-192 | succeeds if and only if the file loads and the disk meets no fault; then the base controller is audit-only with the file untouched, and a campaign has nothing pending, the same exposure, and memory equal to the journal's replay |
| Budgets.Budget.Totals | tools/aggregate_budget.py:200-230 | known, pending and unknown split exposure exactly, and remaining is the cap less exposure |
| Budgets.Budget.CellAccounting | tools/aggregate_budget.py:402-422 | legacy forfeits plus a nonnegative supplement equal the cell's full unknown amount |
| Budgets.LoadedInStep | tools/aggregate_budget.py:157-185 | a file that loads is whole and already in step with the memory built from it |
| Budgets.RecoveredFileOwesNothing | tools/three_flow_budget.py:157-189 | the file a recovered campaign leaves loads to the same settled rows, so another opening has nothing to forfeit |
| CrashWorld.StepKeepsCovered | tools/aggregate_budget.py:273-283 | an accepted event leaves every request that went out answered by its row |
| CrashWorld.SpendAndRest | tools/aggregate_budget.py:286-296 | true spend plus the liability of rows that never went out is within exposure |
| CrashWorld.NextKeepsInv | tools/aggregate_budget.py:301-326 | every step of the crash machine keeps its invariant |
| CrashWorld.TraceInv | tools/aggregate_budget.py:105-326 | the invariant holds in every world of every run |
| CrashWorld.SpendNeverPassesCap | tools/aggregate_budget.py:286-326 | over every interleaving, failed append, crash and reopening, true spend is within what the durable journal answers for, and within the cap |
| CrashWorld.LiabilityNeverDropped | tools/three_flow_budget.py:186-189 | a request that went out is answered for ever after at no less than its true cost |
| CrashWorld.AttemptsGoOutOnce | tools/diagnose_aggregate_budget.py:56-65 | no attempt reaches the wire twice in any run |
| CrashWorld.MemoryRefinesJournal | tools/aggregate_budget.py:320-326 | in every world of every run memory is the journal's replay, or one reducer step behind it once broken |
| CrashWorld.TraceIssued | tools/aggregate_budget.py:337-337 | in every run each journalled reservation carries the identifier of its own line |
| CrashWorld.ReserveIdsAreFresh | tools/aggregate_budget.py:328-350 | in every run the identifier `reserve` is about to use is new, so a duplicate refusal means the cell is busy |
| CrashWorld.ReopenedBaseIsAuditOnly | tools/aggregate_budget.py:184-185 | a reopened base controller accepts no call and writes nothing |
| CrashReach.CreationHappens | tools/three_flow_budget.py:157-158 | creating a journal may succeed, or stop after any number of bytes |
| CrashReach.CallsHappen | tools/aggregate_budget.py:320-400 | whatever a call of a live process may come to extends the run, and a dispatch lets out exactly the cell's reserved row |
| CrashReach.RequestGoesOut | tools/diagnose_aggregate_budget.py:56-65 | a dispatched request may go out at any usage within its row's bounds, and adds that usage at its row's rates to what is spent |
| CrashReach.RecoveryHappens | tools/three_flow_budget.py:186-189 | each recovery forfeit may be journalled, or fail and take the process down |
| CrashReach.DeathHappens | tools/aggregate_budget.py:301-326 | the process may die at any moment |
| CrashReach.ReopeningHappens | tools/three_flow_budget.py:157-189 | any file that loads may be reopened, a campaign owing exactly its open rows |
| CrashRecovery.TraceTodo | tools/three_flow_budget.py:186-189 | in every world of every run a recovering process owes exactly its open rows and can still write |
| CrashRecovery.RecoveryIsNeverRefused | tools/three_flow_budget.py:186-189 | in every run no recovery forfeit is refused; only its journal write can fail |
| CrashRecovery.RecoveryEndsSettled | tools/three_flow_budget.py:186-189 | a recovery carried through in the crash machine ends with nothing open, at the exposure the file loaded |
| CrashRecovery.SecondReopeningOwesNothing | tools/three_flow_budget.py:186-189 | in every run, dying after a finished recovery and reopening finds the same file and the same rows, with nothing to forfeit |
| CrashRecovery.BaseNeverWritesAgain | tools/aggregate_budget.py:184-185 | in every run, from a base reopening on, the file never changes again, nothing more goes out, and every later process is audit-only |
| Guards.OtherCellKeepsTied | tools/aggregate_budget.py:477-547 | events of other cells leave a guard's totals true as they are |
| Guards.OwnCellKeepsTied | tools/aggregate_budget.py:477-547 | following its own cell's events keeps a guard's measured, forfeited, reserved and token totals equal to sums over its rows, and its ticket its one open row |
| Fleets.RunTied | tools/aggregate_budget.py:443-547 | from any journal whose rows belong to other cells, new or resumed, over every run of guards on distinct cells authorising, sending, polling, settling, forfeiting and cancelling, with any call refused or failing, every guard's totals and ticket mean what they say, memory is in step with the journal, and what other cells had resolved stands still |
| Fleets.NewJournalStarts | tools/aggregate_budget.py:147-155 | new guards over a journal of just its genesis are one such start |
| Fleets.FreeCellsStart | tools/three_flow_campaign.py:690-697 | and any journal in step with memory, new or resumed, is a start for new guards if and only if their cells are distinct and have no rows in it |
| Fleets.CallsExtendRuns | tools/aggregate_budget.py:477-547 | whatever a guard's reservation at its own terms, dispatch, RPC, settlement or cancellation may come to extends the run |
| Fleets.RunConserves | tools/aggregate_budget.py:200-230 | in every state of every such run the guards' totals, what other cells had resolved at the start, and the open bounds make up the shared exposure, within the cap |
| Fleets.RunNeverMeetsCeiling | tools/episode100.py:34-47 | in no state of any such run does the derived ceiling refuse one of a cell's first hundred authorisations that the budget admits |
| Guards.GuardsAddUpToExposure | tools/aggregate_budget.py:200-230 | the guards' measured and forfeited totals, what cells without a guard have resolved, and the open bounds are the shared exposure |
| Guards.CeilingIsLeast | tools/episode100.py:34-47 | the derived ceiling is the least number of tokens that cost a hundred caps at the input rate and at the output rate |
| Guards.CeilingNeverRefuses | tools/episode100.py:34-47 | with positive rates and at most a hundred authorisations the derived token ceiling refuses nothing the budget admits |
| SharedGuards.SharedGuard.constructor | tools/aggregate_budget.py:450-468 | a new guard on a cell without rows starts tied |
| SharedGuards.SharedGuard.Authorize | tools/aggregate_budget.py:477-497 | refuses on its own exactly when pending or over the token ceiling; otherwise its answer is the budget's answer to that reservation, and on success its totals move by the price of its bounds |
| SharedGuards.SharedGuard.SettleWith | tools/aggregate_budget.py:504-534 | the budget's answer to that settlement: the totals follow it and a measured amount is the price of the usage at the guard's rates, or nothing changes |
| SharedGuards.SharedGuard.Settle | tools/aggregate_budget.py:504-537 | usage an open controller finds over the bounds always ends in the answer to a forfeit of the whole wire bound, reported as a breach when it goes through; any other usage ends in the budget's answer to its settlement |
| SharedGuards.SharedGuard.Cancel | tools/aggregate_budget.py:539-547 | refuses on its own exactly for a handle that is not current or a bound that is not the ticket's; otherwise the budget's answer, giving back exactly the ticket's tokens |
| Transport.DispatchTransport.HandleRequest | tools/diagnose_aggregate_budget.py:62-65 | answers as the budget answers the dispatch, and a body goes out only after the journal durably holds a sent row of the cell whose bounds cover it |
| Transport.DispatchCoversBody | tools/aggregate_budget.py:352-377 | a successful dispatch leaves such a row on disk |
| Execution.WireKeepsTied | tools/aggregate_budget.py:352-377 | a dispatch or raw RPC of any cell, however it ends, leaves every guard's totals and ticket true |
| Execution.GiveUp | src/operatebench/providers/executor.py:641-644 | forfeits a reserved attempt's whole bound unless the journal fails |
| Execution.Account | src/operatebench/providers/executor.py:689-703 | settles a sent attempt: usage within its bounds is measured unless the journal fails, anything else forfeits its whole bound or leaves it open for the journal or a negative count |
| Execution.Run | src/operatebench/providers/executor.py:384-421 | authorise, dispatch, settle: the guard stays tied throughout, nothing unadmitted or undispatched goes out, and a failed dispatch, missing usage or usage over the bounds forfeits exactly the bound the attempt was admitted for; usage within the bounds is measured at exactly its price unless the journal failed, and an attempt with nothing in its way goes out unless the disk meets a fault |
| Regex.AltAllMeaning | tools/generate_safe_regex_schema.py:31-32 | an alternation matches what some alternative matches |
| Regex.Local | tools/generate_safe_regex_schema.py:145-161 | without anchors or lookaheads a match depends on its own span only |
| UnitShapes.BeforeMeaning | tools/generate_safe_regex_schema.py:156-156 | the part before a variable unit is exactly the calm stretches not ending in a quantified unit |
| UnitShapes.AfterMeaning | tools/generate_safe_regex_schema.py:157-157 | the part after a variable unit is exactly the calm stretches not starting with a quantified unit |
| UnitShapes.BodyIsShaped | tools/generate_safe_regex_schema.py:145-161 | the starred body denotes exactly the unit words with at most one variable unit and no two adjacent quantified units |
| Substitution.MatchSpellsWord | tools/generate_safe_regex_schema.py:152-158 | a match of the body's text can be cut into unit texts that spell a word of the unit language |
| Substitution.WordIsMatched | tools/generate_safe_regex_schema.py:152-158 | text spelling a word of the unit language is a match of the body |
| SafeNumbers.NumberMeaning | tools/generate_safe_regex_schema.py:95-102 | the number grammars accept exactly the canonical decimals of 0..4096 and of 0..4095 |
| SafeNumbers.PositiveMeaning | tools/generate_safe_regex_schema.py:119-119 | the positive number grammar accepts exactly the canonical decimals of 1..4096 |
| SafePairs.PairMeaning | tools/generate_safe_regex_schema.py:111-130 | the pair grammar accepts `m,n` exactly when m < n <= 4096 and m is 0, or n is 4096, or m is shorter, or both have one digit |
| AuthoredText.ItemMeaning | tools/generate_safe_regex_schema.py:44-66 | a published class item is a printable character outside the class syntax, an approved escape, or one of the four ranges `0-9`, `A-Z`, `a-z`, ` -~`, and nothing else |
| AuthoredText.ClassMatches | tools/generate_safe_regex_schema.py:54-86 | the published class matches exactly `[`, perhaps `^`, perhaps a hyphen, items, perhaps a hyphen, `]`, with something inside and no bare `^` where it would negate |
| AuthoredText.AtomMeaning | tools/generate_safe_regex_schema.py:89-93 | the published atom matches exactly a printable character outside the special ones, an approved escape, or such a class |
| AuthoredText.FixedMeaning | tools/generate_safe_regex_schema.py:133-136 | the fixed quantifiers match exactly `{n}` for canonical n up to 4096, and `{4096,}` |
| AuthoredText.VariableMeaning | tools/generate_safe_regex_schema.py:139-142 | the variable quantifiers match exactly `?`, `*`, `+`, `{n,}` for canonical n below 4096, and `{m,n}` for a published pair |
| RuntimeScanner.PrintableIsOneByteEach | src/operatebench/cards.py:337-344 | for printable ASCII the character limit and the byte limit are one limit |
| GateText.ClassIff | src/operatebench/cards.py:358-391 | the class scan consumes exactly `[`, perhaps `^`, a first member that may be a hyphen, members and hyphen-member ranges, perhaps a hyphen, `]` |
| GateText.ConsumeAtomIff | src/operatebench/cards.py:346-432 | away from an anchor the scan consumes exactly a character outside the metacharacters, a backslash before a category letter or a character that is no letter or digit, or such a class |
| GateText.ConsumeQuantifierIff | src/operatebench/cards.py:393-416 | the scan consumes exactly `*`, `+`, `?`, `{m}`, `{m,}` or `{m,n}` with m <= n <= 4096, and reads those bounds |
| SafeAtoms.ClassConsumed | tools/generate_safe_regex_schema.py:54-85 | a published class ends exactly where the gate finds its first unescaped bracket |
| SafeAtoms.AtomConsumed | tools/generate_safe_regex_schema.py:88-92 | a published atom is consumed whole and never starts like an anchor or a quantifier |
| SafeAtoms.FixedConsumed | tools/generate_safe_regex_schema.py:133-136 | a fixed quantifier is consumed whole and its effective bounds are equal |
| SafeAtoms.VariableConsumed | tools/generate_safe_regex_schema.py:139-142 | a variable quantifier is consumed whole and its effective bounds differ |
| SafeAtoms.QuantifiersDisjoint | tools/generate_safe_regex_schema.py:133-142 | no text is both kinds of quantifier, whatever their ends |
| SafeAscii.AcceptedIsPrintable | tools/generate_safe_regex_schema.py:164-174 | every accepted text is printable ASCII |
| SafeUnits.BodyIsSubstitution | tools/generate_safe_regex_schema.py:152-158 | the generated body is the unit expression with each unit's text put in |
| SafeUnits.BodyGivesUnits | tools/generate_safe_regex_schema.py:145-161 | a match of the body is a chain of units in an allowed arrangement |
| SafeUnits.UnitsGiveBody | tools/generate_safe_regex_schema.py:145-161 | every chain of units in an allowed arrangement is a match of the body |
| SafeUnits.AbsoluteEnd | tools/generate_safe_regex_schema.py:159-161 | `$` with the closing lookahead is the very end, never the place before a last newline |
| SafeUnits.AcceptedIffDecomposes | tools/generate_safe_regex_schema.py:145-161 | the pattern accepts exactly the strings that are an optional `^`, units of an authored atom and an authored quantifier as text, in an allowed arrangement, and an optional `$`; the schema those of at most 256 characters |
| SafeUnits.NothingQuantifies | tools/generate_safe_regex_schema.py:145-161 | no quantifier character follows a unit: lazy, stacked and detached quantifiers are impossible |
| SafeGate.DecomposesIsGate | src/operatebench/cards.py:418-454 | a reading by the published grammar is a reading by the gate, unit for unit |
| SafeGate.UniqueReading | src/operatebench/cards.py:418-454 | whatever the gate reads, it reads in one way |
| SafeGate.UniqueDecomposition | tools/generate_safe_regex_schema.py:145-161 | every string the published pattern accepts decomposes in one way only |
| SafeGate.ScanIffReads | src/operatebench/cards.py:418-454 | the gate's scan accepts exactly the strings that are an optional `^`, units of a gate atom and a gate quantifier as text with at most one variable and no two adjacent quantified ones, and an optional `$` |
| SafeGate.ValidateSafePattern | src/operatebench/cards.py:322-454 | the gate's loop accepts exactly the strings of at most 256 printable characters that can be so read |
| SafeGate.PublishedImpliesRuntime | src/operatebench/cards.py:322-454 | whatever the published schema accepts the runtime gate accepts, and its length in bytes is its length in characters |
| SafeMatching.PieceMeaning | src/operatebench/cards.py:393-416 | a quantified atom matches exactly the runs of allowed characters of an admitted length |
| SafeMatching.PieceIsWritten | src/operatebench/cards.py:393-416 | the repeat bounds of a piece are the ones its quantifier's text writes |
| SafeMatching.FitIsForced | tools/generate_safe_regex_schema.py:14-15 | within the input limit any counts that fit are the ones the length forces |
| SafeMatching.AtMostOneFit | tools/generate_safe_regex_schema.py:14-15 | at most one assignment of repeat counts matches the whole input |
| SafeMatching.MatchIffForced | src/operatebench/cards.py:462-474 | a whole-input match exists exactly when the forced counts fit |
| SafeMatching.CappingChangesNothing | tools/generate_safe_regex_schema.py:14-15 | closing every open quantifier at 4096 matches the same inputs within the limit |
| SafeMatching.AcceptedIsSteady | tools/generate_safe_regex_schema.py:133-161 | the pieces of a pattern the gate can read have ordered bounds within 4096 and at most one of them varies |
| SafeMatching.MatchingHasNoChoice | src/operatebench/cards.py:462-474 | for a pattern the gate can read, anchors included, and any input within the limit: match iff the forced counts fit, no other counts fit, and capping changes nothing |
| SafeMatching.GatedPatternHasNoChoice | src/operatebench/cards.py:462-474 | every pattern the gate lets through, published or not, has one reading, and matching it within the limit has no choice |
| SafeMatching.BeyondTheLimitThereIsAChoice | tools/generate_safe_regex_schema.py:14-15 | the gate accepts `a{4096,}aa?`, reads it as three pieces, and on 4098 characters they have two fits: the input limit is needed |
| Markers.Os.WriteAll | tools/run_lifecycle_v1_anthropic_sonnet_canary.py:1403-1416 | the write loop ends under finitely many interruptions, and without faults lands exactly the bytes |
| Markers.Os.ReadUpTo | tools/run_lifecycle_v1_anthropic_sonnet_canary.py:1427-1440 | the read loop collects exactly the file's first bytes, however short the reads |
| Markers.Os.FillExactly | tools/run_lifecycle_v1_anthropic_sonnet_canary.py:1401-1449 | success means the file holds exactly the bytes and nothing after them, its mode was fixed and both barriers were passed after the last write; failure means something was disturbed |
| Markers.Os.TakeReservation | tools/run_lifecycle_v1_anthropic_sonnet_canary.py:1370-1449 | a claim is held with exactly its bytes behind both barriers and no call interrupted, or the name was taken, or a failure leaves any created marker in place |
| Markers.Os.ConsumePreregistration | tools/run_lifecycle_v1_anthropic_sonnet_canary.py:1149-1243 | the same for the nonce marker, whose barriers are retried while interrupted, so that past its mode only a fault spoils it |
| Markers.Os.ConsumeEpisode | tools/run_episode100.py:209-243 | the receipt is one whole write behind both barriers, or a failure that leaves the marker |
| Launches.StepsWellMade | tools/run_lifecycle_v1_anthropic_sonnet_canary.py:1998-2037 | the gate order, live or offline: every name created once, filled by its creator, checked before it is written, and no claim or output before the first claim |
| Launches.StepKeepsInv | tools/run_lifecycle_v1_anthropic_sonnet_canary.py:1525-1586 | every interleaved step keeps ownership, contents and checks, and removes nothing |
| Launches.RunGrows | tools/run_lifecycle_v1_anthropic_sonnet_canary.py:1526-1564 | along a run files and their owners stay and launches only move forward |
| Launches.OnlyOnePasses | tools/run_lifecycle_v1_anthropic_sonnet_canary.py:1388-1400 | over a whole run only one launch ever gets past the creation of a given name |
| Launches.OneCredentialPerNonce | tools/run_lifecycle_v1_anthropic_sonnet_canary.py:2014-2037 | at most one launch per nonce ever reaches the credential read |
| Launches.OneReservationPerDirectory | tools/run_lifecycle_v1_anthropic_sonnet_canary.py:1910-1937 | at most one launch, live or offline preflight, ever holds a directory's reservation |
| Launches.OneEpisodePerAuthority | tools/run_episode100.py:209-249 | at most one episode launch per authority directory reads its credential |
| Launches.MarkersAreComplete | tools/run_lifecycle_v1_anthropic_sonnet_canary.py:1370-1449 | whoever holds a reservation has its nonce, if it needed one, and all claims on disk with exactly their bytes |
| Launches.NextNameIsFree | tools/run_lifecycle_v1_anthropic_sonnet_canary.py:1557-1560 | the next name the owner of the first claim creates is free |
| Launches.HolderGoesOn | tools/run_lifecycle_v1_anthropic_sonnet_canary.py:1557-1560 | past the first claim, an action that works is never refused: all claims are won and no output create collides |
| Launches.WinnerStopsOnlyByFailing | tools/run_lifecycle_v1_anthropic_sonnet_canary.py:1526-1564 | over a whole run the winner of the first claim is found stopped only after one of its own actions failed |
| Launches.TakingIsTwoSteps | tools/run_lifecycle_v1_anthropic_sonnet_canary.py:1370-1449 | each way a marker file can end is a create step and a fill step of the launch machine |
| LaunchReach.AnyDirectoryBegins | tools/run_lifecycle_v1_anthropic_sonnet_canary.py:1998-2037 | a run may begin over any files of strangers in which no later claim stands without its directory's first, and over no others |
| LaunchReach.AnyActionHappens | tools/run_lifecycle_v1_anthropic_sonnet_canary.py:1401-1449 | any running launch may act next, and its action may work or fail with anything left where it was writing |
| LaunchReach.FreeLaunchFinishes | tools/run_lifecycle_v1_anthropic_sonnet_canary.py:1998-2037 | from any state of any run a launch whose names are all free can finish: nonce and claims on disk with their bytes, exactly its outputs created |
| LaunchReach.FreeEpisodeFinishes | tools/run_episode100.py:209-249 | an episode whose authority directory is unused can finish: its receipt is the one change on disk, and the credential is read |
| ReleasedClaims.ExclusionWhileHeld | tools/run_lifecycle_v1_canary.py:775-806 | over every run of the releasing variant two launches are never both between winning a directory's first claim and ending |
| ReleasedClaims.OutputCollidesIff | tools/run_lifecycle_v1_canary.py:775-806 | over every run, an output a launch comes to create is taken exactly when it was already there at any moment since it won the first claim: checking again after that claim decides it |
| ReleasedClaims.AnyDirectoryReleases | tools/run_lifecycle_v1_canary.py:775-806 | a run of the releasing variant may begin over any files of strangers |
| ReleasedClaims.ReleasingGoesOn | tools/run_lifecycle_v1_canary.py:775-806 | any plan without a nonce may begin, and a launch that has ended, well or not, may remove any claim it holds |
| ReleasedCollision.ReleasedClaimsCollide | tools/run_lifecycle_v1_canary.py:794-806 | such a collision does happen, with every claim held and no action failing, on an empty directory |
| OwnerPricing.CategoryMaximum | tools/three_flow_admission.py:691-713 | the loop over a category finds its largest rate, or says whether it is unreadable, negative or uncovered |
| OwnerPricing.ValidateOwnerPricing | tools/three_flow_admission.py:691-724 | accepted exactly when every category is covered, each envelope rate is the least that covers its group, and the guarantees say whether anything was assumed |
| OwnerPricing.PriceCoversEveryBill | tools/three_flow_admission.py:642-724 | however tokens split over categories and tiers, the bill is within the reducer's price at the envelope |
| OwnerPricing.ReservedBoundCoversBill | tools/aggregate_budget.py:70-71 | the bound of a reservation covers every bill within its token bounds |
| OwnerPricing.PriceIsAttained | tools/three_flow_admission.py:714-724 | some bill with exactly those tokens costs exactly that price |
| OwnerPricing.EnvelopeIsLeast | tools/three_flow_admission.py:714-724 | rates cover every chargeable bill if and only if they are at least the accepted envelope |
| Roster.AssignmentAt | tools/three_flow_campaign.py:136-157 | every configuration of the first model, then of the second, and so on: trial (m, c) stands at place m times the configurations plus c |
| Roster.TrialIdText | tools/three_flow_campaign.py:136-157 | an identifier is `initial-`, the model in at least three digits, a dash and the configuration in at least two, padded no further |
| Roster.TrialIdsDistinct | tools/three_flow_campaign.py:136-157 | no two trials of a roster share their padded identifier text |
| Roster.KeptIffSubsequence | tools/three_flow_admission.py:267-273 | over distinct ids, equality with the filtered roster is being a subsequence of it |
| Roster.SelectionIffOrdered | tools/three_flow_admission.py:264-273 | a selection is accepted exactly when it is a nonempty duplicate-free subsequence in roster order |
| Roster.PendingIsOrdered | tools/three_flow_admission.py:323-326 | a pending list accepted against an accepted selection is an ordered duplicate-free subsequence of the roster |
| Roster.CheckIffDistinct | tools/three_flow_admission.py:264-273 | filter equality is being a subsequence, for every list, if and only if the ids are distinct |
| Admissions.NestingAtMostOne | tools/three_flow_admission.py:217-222 | an accepted admission embeds at most one other, however deep the input |
| Admissions.CorrectionEmbedsInitial | tools/three_flow_admission.py:601-624 | an accepted correction embeds an accepted initial admission with the same campaign, roots, mode, cap, limits and roster |
| Admissions.CorrectionStaysInside | tools/three_flow_admission.py:295-306 | a correction brings no model, profile, price source or registry entry the original did not have |
| Admissions.CorrectionCoversItsTrials | tools/three_flow_admission.py:329-339 | a correction's trials are ordered roster members, each with a confirmed fix and an original artifact, none pending |
| Admissions.CorrectionAcceptedIff | tools/three_flow_admission.py:543-624 | a correction is accepted if and only if consent, artifacts, the same authority, an accepted historical original of depth zero and its own part hold; limits, cap, campaign, profiles and prices follow from the original |
| Admissions.TrialIsCorrectableIff | tools/three_flow_admission.py:601-624 | a roster trial can be corrected if and only if the original priced its model, whether or not it selected the trial |
| Admissions.CorrectionsKeepToOriginalIff | tools/three_flow_admission.py:601-624 | every accepted correction keeps to the original's trials if and only if the original selected every trial of each model it priced |
| Admissions.AcceptedInitialStaysValid | tools/three_flow_admission.py:446-455 | what was accepted as an initial admission is accepted as the embedded original ever after |
| Admissions.InitialBorrowsNothing | tools/three_flow_admission.py:310-317 | an accepted initial series claims no history and has all of its ordered selection pending |
| AdmissionTerms.StandaloneAcceptedIff | tools/three_flow_admission.py:200-345 | an admission without a correction binding is accepted if and only if its terms hold: mode, source, installation, cap or limits, names and gates, ordered trials, exactly their models priced and bound to this source, what its operation (initial, resume or correction) has to bring, and its assets |
| AdmissionTerms.HistoricalAcceptedIff | tools/three_flow_admission.py:213-345 | an embedded original is accepted if and only if it is a plain initial admission on those terms with its installation and assets on record |
| AdmissionTerms.GeminiAcceptedIff | tools/three_flow_admission.py:348-440 | a Gemini admission is accepted if and only if it is an uncapped initial series of this source with accepted limits, ordered trials, all of them pending, and exactly its models' own profiles |
| AdmissionTerms.BoundCorrectionAcceptedIff | tools/three_flow_admission.py:543-624 | a bound correction is accepted if and only if the owner agreed to this execution and these artifacts, the original is accepted as a historical one and keeps the authority, and the terms hold against the original's registry and source |
| Series.SeriesAcceptedIff | tools/run_episode100.py:61-110 | the full cell set takes no manifest, the pair exactly a positive balanced one whose new cap is this series' cap, the timeout cell only the pinned one |
| Series.CarryAndSpendFitTotal | tools/run_episode100.py:99-106 | committed exposure plus all that the new series truly spends stays within the authorised total |

## Left out

- File modes, ownership, inode and link checks, `fcntl` locks, path canonicalisation: the model keeps exclusive create, appends that may stop anywhere, and barriers that may fail.
- JSON text and SHA-256: an abstract codec and hash; the events are typed, so a line holding extra or wrongly typed keys is a line the codec does not decode.
- `Decimal` printing, context precision and fraction text: amounts are integers in one unit.
- Namespace, cap value, limit policy and expected-digest arguments of the two controllers' constructors: checks made before any state exists.
- `splitlines` also breaks at a carriage return; canonical JSON holds none, and the model splits at newlines only.
- `LifecycleCostGuard`: its totals start at zero and its event list is not modelled.
- SharedGuards.SharedGuard.Settle: the source compares the returned amount by object identity; here the ticket's row identifier plays that part, so two equal amounts are never confused, as in the source.
- `request_input_token_bound`: a nonnegative bound carried with the payload.
- Markers.Os.ConsumeEpisode: the source does not read the receipt back, so its content is promised only when no write misbehaved.
- The content of evidence files, transports, SDK clients and what happens after the credential read beyond exclusive creates of output names.
- Removal of credentials and authorisations from the environment.
- SafeGate.PublishedImpliesRuntime: the final `re.compile` of the gate is not part of the model.
- SafeMatching.MatchingHasNoChoice: an atom means any set of characters it is given; which characters Python's `\d`, `\s` and `\w` take is not modelled.
- The Haiku and Mistral canaries: the same protocol with other constants.
- Admissions.CorrectionAcceptedIff: provider profile rules, recorded runtime shape, asset inventories and path and digest syntax enter as predicates.
- Closed key sets, schema names, the resource policy and the transport policy of an admission: constants compared for equality, and the record types leave no room for other keys.
- Admissions and rosters range over positions in the roster; their identifier text is shown to determine the position.
- Guards.OwnCellKeepsTied: a guard's output limit is fixed; the campaign's HTTP adapter sets it anew before each authorisation.
- The admission's authenticated consumption and the reconciliation of original trial artifacts on disk.
- Report generation, release and isolation checkers, argument parsing and schema file copying: independent acceptance lists with no state between them.
