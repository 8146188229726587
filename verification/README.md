# PulseTrace: proofs about its core protocols

A Dafny 4.11 model of the parts of PulseTrace whose promises range over every input or every
interleaving, and proofs of those promises. `dafny verify dfyconfig.toml` checks all of it.

| files | what they model |
|---|---|
| `SqlScan`, `SqlSplit`, `SqlAgreement`, `SqlLiterals`, `SqlStatements`, `Placeholders`, `Binding` | the two SQL lexers of `shared/db`, their agreement, the placeholder translation, and what the two databases make of it |
| `AuditChain`, `AuditLog`, `AuditRuns` | the hash-chained audit trail: encoding, verifier, append, back-fill, concurrent writers |
| `Sessions`, `IngestionKeys` | the two bounded-staleness caches, in timed interleavings |
| `Abac` | policy ordering and evaluation |
| `Forecast` | the least-squares budget forecast, over the reals |
| `CausalChain`, `Grounding`, `Remediation`, `Approvals`, `Operator` | from alerts to a change of the cluster: causal chain, guardrail, policy and approval lifecycle, operator |
| `Failover`, `RateLimit` | failover with backoff, and the distributed fixed-window limiter |
| `Seqs`, `Sorting`, `Options`, `Spaces` | shared groundwork |

The failover chains over causal analyzers and over chat providers are one machine written twice;
`Failover` proves it once, generic in what a link answers.

Code that updates state is modelled as classes and loops proved against functions; the theorems are
lemmas about those functions and about runs of step systems built from them. Whatever the code
calls but this model does not define (the digest, JSON canonicalisation, name normalisation,
condition evaluation, number parsing, the network) is a parameter, so results hold for every choice
of it; assumptions about such a parameter are named preconditions.

## Where the code and its promises differ

Each of these is proved, with the exact condition under which the promise does hold.

- A revoked session is not always rejected after 30 seconds. `refresh` stamps its time after its
  query and its install overwrites a local mark, so the bound is 30 seconds plus the longest refresh,
  and `BoundIsExact` reaches it. The bound needs that the request's own refresh, if it makes one, does
  not fail, since a failure leaves the old set in force (`FailedRefreshAccepts`), and that no read lost
  the token's row, since a read that breaks off or skips a row is installed as if complete
  (`LostRowsForget`).
- A revoked key is refused after 30 seconds in every run if and only if no rotation had loaded it when
  it was revoked (`RevocationHoldsExactly`): such a rotation moves the revocation time into the future.
- Back-fill anchors on the newest hashed row while verification reads in id order, so a back-filled
  table verifies exactly when the hashed rows were a verified prefix (`BackfillVerifies`,
  `BackfillNeedsAnchor`, `LegacyBeforeLiveBreaks`).
- SQLite does not always read the translated query as Postgres reads the original. `a$1` is one column
  name, `$$x$$` a literal, `a[$1]` a subscript and `?` an operator to Postgres only. `RewriteBindsTheSame`
  gives the exact condition and `BindsTheSameInPlainWords` its plain form. `codeMask` keeps byte offsets
  exactly when the blanked text is ASCII (`MaskOffsets`).
- `BuildChain` remembers pairs as `from→to` strings; it is exact if and only if those strings separate the
  qualifying pairs (`ChainExact`), which no arrow in an upstream's name ensures (`PlainNamesAreExact`).
  Which pairs are blamed depends on the input order if and only if the earliest alert of a declared
  upstream ties with the latest alert of another service that declares it (`OrderMattersExactly`;
  `TieMeansMinIsMax` spells the tie out in times, `TiesMatter` is the smallest example). A service that
  declares itself qualifies in every order or in none (`SelfQualifies`).
- The comment on `rootService` promises an empty answer when there is no unique source; the code
  answers the least source, or the first cause when there is none. The model follows the code.
- Asking for a plan of a playbook that awaits approval withdraws it from approval, exactly unless the
  write is lost or the agent echoes the status (`PlanningWithdrawsTheProposal`), although the plan is
  offered to inform that approval.
- The replica count of a scale plan is printed in full and applied in 32 bits; the plan is true
  exactly when the number fits (`ReviewThenExecute`).
- Under a rate-limit window that is not positive each counter is deleted when its EXPIRE arrives. All
  requests with a positive limit are then served exactly when no EXPIRE is in flight and no counter was
  left without one (`NonPositiveWindowNeverLimits`); between an INCR and its EXPIRE a second request is
  refused (`BetweenIncrAndExpire`). A positive window below a second divides by zero.
- A failed policy query replaces the cached policies by none (`Abac.RBACEngine.Refresh`), and a read that
  loses rows decides as the table does if it has the deciding row (`PartialReadDecides`), but can turn a
  deny into an allow (`LostDenyAllows`).
- The approver is on record when an approved live request is sent exactly if the write before it arrived
  (`ApproverIsOnRecord`); a write that fails is only logged.

## Model

| member | source | states |
|---|---|---|
| `SqlScan.DollarQuoteTag` | shared/db/rewrite.go:311-328 | the loop returns exactly the opening tag the tag grammar reads off the front, or empty |
| `SqlScan.ScanLiteral` | shared/db/segments.go:52-122 | whichever literal or comment opens here, the scan ends where the reference length says, and returns that text |
| `SqlScan.ScanSegments` | shared/db/segments.go:38-126 | the segments concatenate back to the script and label every rune as the reference labelling does |
| `SqlScan.SegmentsMeaning` | shared/db/segments.go:38-126 | for every script, segmentation loses nothing and flattens to the reference labels |
| `SqlScan.MapCode` | shared/db/segments.go:130-140 | applies the function to code segments only, literals verbatim |
| `SqlLiterals.WhatOpens` | shared/db/segments.go:52-105 | a literal or comment opens with a quote, two dashes, slash and star, or a dollar tag of at most 64 ASCII runes, and with nothing else |
| `SqlLiterals.TagIsTheOpening` | shared/db/rewrite.go:311-328 | the tag read is the one `$name$` prefix of letters, digits and underscores that there is, or none |
| `SqlLiterals.DollarEnds` | shared/db/segments.go:103-116 | a dollar-quoted body ends where its tag first ends again, or with the text |
| `SqlSplit.SplitStatements` | shared/db/rewrite.go:230-308 | the flag machine computes the trimmed, non-empty pieces of its mode-by-mode specification |
| `SqlAgreement.CutsAgree` | shared/db/rewrite.go:230-308 | for every input, the splitter cuts at exactly those `;` that the other lexer labels code |
| `SqlAgreement.SplitLosesNothing` | shared/db/rewrite.go:230-308 | the pieces joined by `;` are the script |
| `SqlAgreement.LabelsRestart` | shared/db/segments.go:38-126 | scanning from any code rune gives the labels it has inside the whole script |
| `SqlAgreement.LabelsAround` | shared/db/segments.go:38-126 | a code `;` splits the labelling into the labellings of the two sides |
| `SqlAgreement.StatementsReadAlone` | shared/db/rewrite.go:230-308 | the pieces scanned alone have the labels they have inside the script, and none holds a code `;` |
| `SqlAgreement.TrimLabels` | shared/db/rewrite.go:230-308 | trimming removes only surrounding whitespace and leaves the labels of the rest unchanged |
| `SqlAgreement.StatementsAreSlices` | shared/db/rewrite.go:230-308 | every returned statement is a slice of a piece with its labels, and every piece is returned or blank |
| `SqlStatements.StatementsInOrder` | shared/db/rewrite.go:230-308 | the script is its statements in order, separated and surrounded by whitespace and cut semicolons, at least one between two; no statement is empty, starts or ends with whitespace (by code point) or holds a code semicolon, and all labels are accounted for |
| `Placeholders.RewritePlaceholders` | shared/db/rewrite.go:189-213 | the loop over code segments equals a rune-by-rune swap guided by the labels |
| `Placeholders.Rebind` | shared/db/rewrite.go:217-222 | unchanged for Postgres, rewritten for SQLite |
| `Placeholders.MapIsSwap` | shared/db/rewrite.go:189-213 | segment-wise rewriting with its digit loop is the rune-wise swap |
| `Placeholders.SwapAt` | shared/db/rewrite.go:189-213 | a rune changes only if it is a code `$` directly before a digit, and then to `?`; length is kept |
| `Placeholders.RewriteAt` | shared/db/rewrite.go:189-213 | the translation rune by rune: a code `$` directly before a digit becomes `?`, nothing else changes, and the length is kept |
| `Placeholders.RewriteKeepsLabels` | shared/db/rewrite.go:189-213 | the rewritten query has the same segmentation |
| `Placeholders.RewriteIdempotent` | shared/db/rewrite.go:189-213 | rewriting twice is rewriting once |
| `Binding.RewriteBindsTheSame` | shared/db/rewrite.go:189-213 | for every query: SQLite reads the translation as Postgres reads the query (same parameter numbers in the same places, same literals, no other rune changed) if and only if every rune outside quotes is one the databases agree on, and exactly the `$n` that stand alone are code to the scanner |
| `Binding.BindsTheSameInPlainWords` | shared/db/rewrite.go:189-213 | without `$tag$` glued to an identifier: if and only if outside quotes there is no dollar quote, no `?`, `[`, backtick, `@`, `#`, `:`, no `$n` glued to an identifier and no other lone `$` |
| `Binding.GluedDollarFails` | shared/db/rewrite.go:210-212 | `a$1` has no Postgres parameter and is translated to `a?1`, in which SQLite reads parameter 1 |
| `Binding.DollarQuoteFails` | shared/db/segments.go:103-118 | any `$$` quote is a literal to Postgres and opens a variable for SQLite |
| `Placeholders.RewriteCommutesWithSplit` | shared/db/rewrite.go:189-308 | rewriting then splitting is splitting then rewriting each statement |
| `Placeholders.CodeMask` | shared/db/segments.go:148-161 | code stays, every other rune becomes one space |
| `Placeholders.MaskAt` | shared/db/segments.go:148-161 | the mask rune by rune: code stays, every other rune is a space |
| `Placeholders.MaskOffsets` | shared/db/segments.go:148-161 | byte offsets into mask and script agree everywhere if and only if all blanked runes take one byte |
| `AuditChain.EncodeInjective` | gateway-service/internal/auth/audit_chain.go:56-59 | length-prefixed encodings of equally long field lists are equal only for equal lists |
| `AuditChain.ComputeAuditHash` | gateway-service/internal/auth/audit_chain.go:43-59 | digests predecessor, actor, action, target type, target id, before, after and time, each with its length, in this order |
| `AuditChain.InputInjective` | gateway-service/internal/auth/audit_chain.go:43-54 | equal hash inputs mean equal predecessor, actor, action, target type, target id, canonical states and rendered time, field by field |
| `AuditChain.VerifyAuditChain` | gateway-service/internal/auth/audit_chain.go:144-172 | valid if and only if every row links to its predecessor and matches its hash; otherwise reports the first row that fails |
| `AuditChain.TamperEvidence` | gateway-service/internal/auth/audit_chain.go:144-172 | two verified tables ending in one hash agree row for row, or the walk returns a collision or a preimage of the genesis value |
| `AuditChain.TablesAgree` | gateway-service/internal/auth/audit_chain.go:144-172 | tables that the walk finds to agree have, row by row, equal actor, action, target, states, time, link and hash |
| `AuditChain.RepeatBreaks` | gateway-service/internal/auth/audit_chain.go:144-172 | a row that links to itself or a later row yields such a collision or preimage |
| `AuditChain.NoForks` | gateway-service/internal/auth/audit_chain.go:144-172 | two rows of a verified table with one predecessor yield one too |
| `AuditChain.EditLocated` | gateway-service/internal/auth/audit_chain.go:116-172 | replacing one row: verification stops at that row, at the next, or not at all, each under its exact condition |
| `AuditChain.OneFieldEdit` | gateway-service/internal/auth/audit_chain.go:116-172 | a row with any other actor, action, target, state, time or link, under the old hash, is reported at that row, or the old and new inputs collide |
| `AuditChain.HashEdit` | gateway-service/internal/auth/audit_chain.go:144-172 | another hash under the old content and link is reported at that row |
| `AuditChain.UnhashedRowBreaks` | gateway-service/internal/auth/audit_chain.go:147-152 | a row without a hash, or with one of whitespace only, breaks the chain |
| `AuditChain.FirstRowLinksToZeros` | gateway-service/internal/auth/audit_chain.go:14-14 | the first row of a verified table links to sixty-four zeros |
| `AuditChain.DeleteLocated` | gateway-service/internal/auth/audit_chain.go:144-172 | deleting a row that is not the last is reported at its successor, barring a digest break; deleting the last goes unnoticed |
| `AuditLog.RecordRoundTrips` | gateway-service/internal/auth/audit.go:24-49 | what `WriteAudit` hashes survives storage, given that canonical JSON is a fixpoint of jsonb |
| `AuditLog.StoredLinks` | gateway-service/internal/auth/audit.go:53-88 | a stored record verifies against the predecessor it was hashed with |
| `AuditLog.TailOfIntact` | gateway-service/internal/auth/audit.go:53-88 | the newest hashed row of a verified table carries the hash the next row must link to |
| `AuditLog.Log.ReadTail` | gateway-service/internal/auth/audit.go:64-75 | returns the hash of the newest hashed row, genesis when there is none |
| `AuditLog.Log.AppendChained` | gateway-service/internal/auth/audit.go:53-88 | appends one row hanging on the tail, touches nothing else, and a verified table stays verified |
| `AuditLog.Log.WriteAudit` | gateway-service/internal/auth/audit.go:24-49 | one new row with the caller's actor (or `unknown`), action and target, canonical before and after states and time cut to microseconds, on the tail; a verified table stays verified |
| `AuditLog.Log.BackfillAuditChain` | gateway-service/internal/auth/audit.go:95-177 | collecting and applying the updates by id yields the back-filled table |
| `AuditLog.BackfillKeeps` | gateway-service/internal/auth/audit.go:95-177 | every row ends hashed; content, ids and existing hashes are unchanged |
| `AuditLog.BackfillIdempotent` | gateway-service/internal/auth/audit.go:95-177 | a second back-fill changes nothing |
| `AuditLog.BackfillVerifies` | gateway-service/internal/auth/audit.go:95-177 | if the hashed rows are a verified prefix, the result verifies and keeps that prefix |
| `AuditLog.BackfillNeedsAnchor` | gateway-service/internal/auth/audit.go:119-129 | conversely a result that verifies had such a prefix, barring a digest break |
| `AuditLog.LegacyBeforeLiveBreaks` | gateway-service/internal/auth/audit.go:119-129 | a legacy row before a live one is chained behind it and reported as broken |
| `AuditLog.UpdatesApplied` | gateway-service/internal/auth/audit.go:131-176 | applying the collected updates one by one is the whole back-fill |
| `AuditRuns.Exclusive` | shared/db/chainlock.go:63-81 | in every locked run, from whatever tables, two transactions past the lock step on one chain are the same, for any key function |
| `AuditRuns.CommittedRowsStay` | gateway-service/internal/auth/audit.go:53-177 | in every locked run committed rows stay in place, hashed rows unchanged and the others but for their missing hashes |
| `AuditRuns.LockedRunsVerify` | gateway-service/internal/auth/audit.go:53-88 | every interleaving of any number of appends, back-fills, commits and rollbacks over any number of chains leaves verified tables that extend the old ones |
| `AuditRuns.BackfilledChainVerifies` | gateway-service/internal/auth/audit.go:90-177 | from tables whose hashed rows are a verified prefix, a chain verifies once a concurrent back-fill has committed, at the end of every run in which no append came earlier |
| `AuditRuns.UnlockedRunForks` | shared/db/chainlock.go:63-71 | without the lock step a two-writer run forks the chain, and the result does not verify |
| `Sessions.SessionStore.Install` | gateway-service/internal/auth/sessions.go:74-97 | the queried rows replace the whole set and are stamped at install time |
| `Sessions.SessionStore.MarkRevokedLocal` | gateway-service/internal/auth/sessions.go:168-176 | adds exactly the non-empty ids to the cached set |
| `Sessions.SessionStore.IsRevoked` | gateway-service/internal/auth/sessions.go:74-119 | alone: a blank id is not revoked; a stale cache is replaced by what a successful refresh read; otherwise the cached set answers and stays |
| `Sessions.RevocationTakesHold` | gateway-service/internal/auth/sessions.go:74-119 | in every interleaving in which no read loses the token's row, a request that starts more than 30 seconds plus the longest refresh after revocation, and whose own refresh did not fail, is rejected through the token's 24 hours and one hour more |
| `Sessions.OldRowsAreNotLoaded` | gateway-service/internal/auth/sessions.go:24-33 | a refresh loads the revocations of the last 25 hours and no older ones |
| `Sessions.FailedRefreshAccepts` | gateway-service/internal/auth/sessions.go:81-84 | after a failed refresh a replica that has just started accepts a token revoked arbitrarily long ago |
| `Sessions.LostRowsForget` | gateway-service/internal/auth/sessions.go:86-96 | a read cut short is installed as fresh, and a token revoked long before is accepted |
| `Sessions.BoundIsExact` | gateway-service/internal/auth/sessions.go:74-97 | for every refresh duration a run accepts a revoked, locally marked token exactly at the bound |
| `IngestionKeys.IngestionKeyStore.Resolve` | gateway-service/internal/auth/ingestion_keys.go:99-142 | blank key, cache hit, miss and database error: the answer and the cache afterwards |
| `IngestionKeys.IngestionKeyStore.InvalidateCache` | gateway-service/internal/auth/ingestion_keys.go:156-160 | the cache is emptied |
| `IngestionKeys.AnswersAreRecent` | gateway-service/internal/auth/ingestion_keys.go:99-142 | in every interleaving with create, revoke, rotate and invalidate, each answer was the database's own less than 30s before the call or during it |
| `IngestionKeys.RevocationShuts` | gateway-service/internal/auth/ingestion_keys.go:286-314 | revoking a key shuts it as of that moment: no later instant finds it live |
| `IngestionKeys.RevokedKeysAreRefused` | gateway-service/internal/auth/ingestion_keys.go:99-142 | a shut key that no rotation holds is refused, in every run from there, by each call starting 30s or more after its revocation |
| `IngestionKeys.RotationIsBounded` | gateway-service/internal/auth/ingestion_keys.go:335-443 | the old key is scheduled to end at most thirty days ahead, and the new one has its grant and no end |
| `IngestionKeys.RevocationHoldsExactly` | gateway-service/internal/auth/ingestion_keys.go:335-443 | a revoked key is refused so in every run if and only if no rotation in flight has loaded it |
| `IngestionKeys.LateRotationRevives` | gateway-service/internal/auth/ingestion_keys.go:335-443 | a rotation that read the key before it was revoked makes it acceptable again for the grace period |
| `Abac.RBACEngine.Refresh` | gateway-service/internal/auth/rbac.go:85-122 | the cache is the rows that were read, sorted by priority, name, id; empty when the query fails |
| `Abac.PartialReadDecides` | gateway-service/internal/auth/rbac.go:95-102 | a read that lost rows decides as the table does if nothing applies or it has the deciding row |
| `Abac.LostDenyAllows` | gateway-service/internal/auth/rbac.go:95-102 | losing the only applying row turns its deny into an allow |
| `Abac.RBACEngine.EvaluateABAC` | gateway-service/internal/auth/rbac.go:241-271 | the least applying policy decides; allow when none applies; evaluation errors skip a policy |
| `Abac.RowOrderIsForgotten` | gateway-service/internal/auth/rbac.go:104-115 | with unique ids any two row orders sort to the same list |
| `Abac.CacheDecidesAsRows` | gateway-service/internal/auth/rbac.go:241-271 | the decision over the sorted cache is the one the unsorted rows call for |
| `Abac.OneDecision` | gateway-service/internal/auth/rbac.go:241-271 | with unique ids the rows call for one outcome and one deciding policy |
| `Abac.DecisionInNumbers` | gateway-service/internal/auth/rbac.go:241-271 | with a policy concerned, the decision is that of one with the smallest priority number, ties going to the name and then the id in dictionary order; deny in any letter case; allow with none |
| `Forecast.PairsExpands` | correlation-service/internal/engine/slo_forecast.go:99-117 | numerator and denominator of the fit are sums over pairs of products of differences |
| `Forecast.DenominatorZero` | correlation-service/internal/engine/slo_forecast.go:99-117 | the denominator is non-negative, and zero exactly when no two times differ |
| `Forecast.PairsSign` | correlation-service/internal/engine/slo_forecast.go:99-117 | Chebyshev: similarly ordered sequences give a non-negative numerator |
| `Forecast.LeastSquaresSlope` | correlation-service/internal/engine/slo_forecast.go:99-117 | a slope is returned exactly when two times differ, and is the quotient of the pair sums |
| `Forecast.SlopeIsOptimal` | correlation-service/internal/engine/slo_forecast.go:99-117 | that line has the least squared error of all lines, and every other line is strictly worse |
| `Forecast.ForecastBudgetExhaustion` | correlation-service/internal/engine/slo_forecast.go:33-73 | burning if and only if a budget, a fit, a falling slope and a run-out within 365 days exist; for SLI points on a falling line, if and only if the line meets the target within them, and the run-out is the moment it does |
| `Forecast.BudgetLeft` | correlation-service/internal/engine/slo_forecast.go:78-94 | between target and 100 the budget left is the linear share of the error budget, at or below the target none, from 100 all |
| `Forecast.LineReachesTarget` | correlation-service/internal/engine/slo_forecast.go:33-94 | on a falling SLI line the projected run-out of the budget is the moment the line reaches the target |
| `Forecast.RecoveringNeverBurns` | correlation-service/internal/engine/slo_forecast.go:33-94 | if the SLI never falls as time increases, the forecast is not burning |
| `CausalChain.VisitUpstream` | shared/causal/graph.go:47-72 | the innermost loop finds the earliest alert of the upstream before the target, and links it unless its key was seen |
| `CausalChain.BuildChain` | shared/causal/graph.go:24-75 | over some time-sorted permutation: every link qualifies and carries the right times, every key appears once, every qualifying pair's key appears |
| `CausalChain.ChainSpec` | shared/causal/graph.go:24-75 | the same of the loops as a function, for every sorted input and dependency map |
| `CausalChain.ChainExact` | shared/causal/graph.go:24-75 | a link exists for exactly the qualifying pairs if and only if no two of them share a key |
| `CausalChain.ChainNonEmpty` | shared/causal/graph.go:24-75 | some link is found if and only if some pair qualifies |
| `CausalChain.PlainNamesAreExact` | shared/causal/graph.go:54-58 | no arrow in any declared upstream's name suffices |
| `CausalChain.ArrowsLoseLinks` | shared/causal/graph.go:54-58 | with arrows a qualifying link can be lost |
| `CausalChain.LinkTimeIsEarliest` | shared/causal/graph.go:48-72 | a link's time is the earliest alert of its cause among all alerts, and its effect's alert is not before it |
| `CausalChain.QualifiesByTime` | shared/causal/graph.go:24-75 | an upstream alert strictly earlier than the target's qualifies in every sort order |
| `CausalChain.ChainIgnoresInputOrder` | shared/causal/graph.go:29-33 | unless two services alert at one instant, the result does not depend on the input order |
| `CausalChain.AlwaysIffEarlier` | shared/causal/graph.go:24-75 | a pair of two services qualifies in every time-sorted order if and only if it is declared and some alert of the cause is strictly earlier than some alert of the effect |
| `CausalChain.SometimesIffNotLater` | shared/causal/graph.go:24-75 | and in some order if and only if it is declared and some such alert is not later |
| `CausalChain.OrderMattersExactly` | shared/causal/graph.go:29-33 | the qualifying pairs are the same in all orders if and only if no declared upstream's earliest alert ties with the latest of its service |
| `CausalChain.RootService` | shared/causal/eval.go:140-165 | the least cause that is never an effect; the first cause when there is none; empty for no chain |
| `CausalChain.NoOriginMeansCycle` | shared/causal/eval.go:159-161 | a chain without such a cause contains a directed cycle, which the lemma returns |
| `CausalChain.AcyclicHasOrigin` | shared/causal/eval.go:140-165 | over an acyclic dependency graph every non-empty chain has an origin |
| `CausalChain.RootOfIncident` | shared/causal/eval.go:140-165 | chain and root together: an origin whenever dependencies are acyclic, and anything else only with a directed cycle in the chain |
| `Grounding.KnownServices` | shared/causal/grounding.go:101-126 | exactly the non-blank normalised names of incident, alerts and both ends of dependencies |
| `Grounding.Scan` | shared/causal/grounding.go:59-77 | keeps exactly the grounded links in order, counts the others and collects their unknown names |
| `Grounding.SortedKeys` | shared/causal/grounding.go:145-155 | the set's members, each once, in order |
| `Grounding.GroundAnalysis` | shared/causal/grounding.go:40-94 | the pruned and capped analysis, and a report whose count, names, verdict and penalty account for the difference |
| `Grounding.KeptSpec` | shared/causal/grounding.go:59-77 | exactly the grounded links survive; nothing is dropped if and only if all are grounded |
| `Grounding.SurvivorsAreNamed` | shared/causal/grounding.go:59-143 | a link survives if and only if each end is blank or, normalised, named by the incident, an alert or either end of a dependency |
| `Grounding.GroundIdempotent` | shared/causal/grounding.go:40-94 | grounding twice is grounding once, and the second pass drops nothing |
| `Grounding.PrunedIsCapped` | shared/causal/grounding.go:84-90 | an analysis that lost a link keeps the claimed confidence or 0.4, whichever is less, and only grounded links |
| `Grounding.GroundedIsKept` | shared/causal/grounding.go:48-57 | an analysis that loses no link keeps chain and the rest, and its confidence but for clamping to 0 and 1 |
| `Grounding.NoopConfidence` | shared/causal/graph.go:131-146 | the loop counts distinct causes |
| `Grounding.ConfidenceSteps` | shared/causal/graph.go:127-146 | between 0.4 and 0.85, and at least 0.7 exactly when the chain has a link |
| `Grounding.ConfidenceByCauses` | shared/causal/graph.go:127-146 | no link gives 0.4, one cause 0.7, two 0.8, three or more 0.85 |
| `Grounding.RuleBasedPasses` | shared/causal/graph.go:84-95 | a rule-based analysis passes the guardrail with chain and confidence unchanged |
| `Remediation.AutomationRouter.Persist` | correlation-service/internal/engine/automation_router.go:262-267 | the record is stored if the write succeeds, and the attempt is in the history either way |
| `Remediation.AutomationRouter.DispatchTo` | correlation-service/internal/engine/automation_router.go:198-260 | one request, then the agent's own account or FAILED is recorded |
| `Remediation.AutomationRouter.Route` | correlation-service/internal/engine/automation_router.go:91-129 | the policy's decision for the confidence, with the write before any dispatch |
| `Remediation.WhatRouteDoes` | correlation-service/internal/engine/automation_router.go:91-129 | mode by mode and against the threshold: the status it tries to store, and exactly when it asks the agent for a plan or for the change, about which service |
| `Remediation.AgentHasTheLastWord` | correlation-service/internal/engine/automation_router.go:198-272 | after a request the last attempt to store carries the agent's own status, output and dry-run flag, or FAILED and why |
| `Remediation.WhereCorrelationRoutes` | correlation-service/internal/engine/correlator.go:236-247 | to the head of the chain, or without a chain to the first service; a blank target or a record not stored stops it |
| `Remediation.AutomationRouter.ApproveBy` | correlation-service/internal/engine/automation_router.go:136-161 | refused without effect unless pending, permitted and attributed; otherwise approver written, then dispatched |
| `Remediation.AutomationRouter.RejectBy` | correlation-service/internal/engine/automation_router.go:164-182 | refused unless pending; otherwise the refusal is recorded |
| `Remediation.AutomationRouter.PlanNow` | correlation-service/internal/engine/automation_router.go:187-194 | one dry-run request in any status and under any policy |
| `Remediation.AutomationRouter.CorrelateWith` | correlation-service/internal/engine/correlator.go:191-247 | ground, store, then route to the first cause or the first service |
| `Remediation.CorrelateIncident` | correlation-service/internal/engine/correlator.go:191-247 | an analyzer that fails is replaced by the rules, whose analysis reaches store and router unchanged by the guardrail |
| `Remediation.LiveRequestsAreAuthorised` | correlation-service/internal/engine/automation_router.go:91-194 | in every run every live request follows an attempt to store what is sent, under a policy in force that allows execution, and either auto clears the threshold or a pending record gained a named approver |
| `Remediation.ApproverIsOnRecord` | correlation-service/internal/engine/automation_router.go:131-161 | when an approved live request is sent the stored record names the approver if and only if that write arrived, and is still pending otherwise |
| `Approvals.ApprovalsAreSpent` | correlation-service/internal/engine/automation_router.go:136-194 | conservation: approved requests plus open proposals never exceed proposals plus faults, in every run |
| `Approvals.AtMostOncePerProposal` | correlation-service/internal/engine/automation_router.go:136-161 | in a faultless run two approved requests have a fresh proposal between them |
| `Approvals.RejectionIsFinal` | correlation-service/internal/engine/automation_router.go:164-182 | a stored rejection names who rejected, and no live approved request follows without a proposal or a fault |
| `Approvals.FaultsAreExact` | correlation-service/internal/engine/automation_router.go:136-161 | an approved request leaves its proposal open if and only if both writes are lost, or the agent's PENDING_APPROVAL is stored |
| `Approvals.FaultsRepeatRequests` | correlation-service/internal/engine/automation_router.go:262-267 | each such fault allows a second request under one proposal |
| `Approvals.PlanningWithdrawsTheProposal` | correlation-service/internal/engine/automation_router.go:187-194 | after an on-demand plan the playbook is still pending if and only if the write was lost or the agent echoed the status; only then, with policy, name and authority, does an approval take effect |
| `Approvals.PrunedStaysQuiet` | shared/remediation/policy.go:155-174 | an analysis that lost a link is only suppressed or suggested whatever confidence it claims, if and only if the mode is off or the threshold exceeds 0.4 |
| `Approvals.PrunedNeverActs` | correlation-service/internal/engine/correlator.go:191-247 | end to end it sends nothing and opens no approval under any threshold above 0.4 |
| `Approvals.RulesProposeOnEvidence` | shared/remediation/policy.go:93-174 | under the default policy a rule-based analysis is put up for approval if and only if some pair of alerts qualifies |
| `Operator.Candidates` | action-service/internal/k8s/operator.go:166-195 | exactly the owned replica sets with a readable revision, newest first |
| `Operator.ChooseRollback` | action-service/internal/k8s/operator.go:195-227 | the revision asked for, or the newest that is not current; none exactly when there is no such set |
| `Operator.ClusterOperator.Resolve` | action-service/internal/k8s/operator.go:139-307 | a plan the cluster calls for; none, with the API answering, only if there is no such plan |
| `Operator.ClusterOperator.ExecuteRunbook` | action-service/internal/k8s/operator.go:112-308 | nothing changes on a dry run, a forbidding mode or a missing cluster; a live run applies exactly the reported plan; an error has changed nothing unless the update's answer was lost |
| `Operator.ClusterOperator.ReviewThenExecute` | action-service/internal/k8s/operator.go:112-308 | a dry run and then the live run on the cluster reviewed: with distinct revisions the same plan; only the named deployment in the named or default namespace changes, by exactly the template, stamp or replica count the plan asks for; a scale plan is true if and only if it fits 32 bits |
| `Failover.CandidatesSpec` | shared/causal/fallback.go:131-147 | never empty, in priority order, exactly the eligible links, or all when none is |
| `Failover.FallbackChain.Candidates` | correlation-service/internal/llm/router.go:112-128 | the loop computes that list |
| `Failover.FallbackChain.RecordFailure` | shared/causal/fallback.go:199-211 | one more failure, and a pause for that many failures in a row |
| `Failover.FallbackChain.Analyze` | shared/causal/fallback.go:103-126 | the first candidate that succeeds is returned, all before it failed and were recorded; cancelled before an attempt aborts |
| `Failover.NewFallback` | shared/causal/fallback.go:65-81 | nil links are dropped, the others keep their order; an error exactly when none is left |
| `Failover.CallsReturnTheFirstSuccess` | shared/causal/fallback.go:103-126 | in every interleaving each call's candidates are those of the moment it began, and its recorded attempts are these in order up to the first success |
| `Failover.PauseBounds` | shared/causal/fallback.go:199-211 | pauses start at 30s, double five times and stay at 960s |
| `Failover.SitsOutExactly` | shared/causal/fallback.go:190-211 | in every run a link is ineligible exactly until the pause for its current streak after its last failure is over |
| `Failover.BackWithinSixteenMinutes` | correlation-service/internal/llm/router.go:112-150 | every link is a candidate again at most 960s after it last failed |
| `RateLimit.RateLimiter.RuleFor` | shared/middleware/ratelimit.go:63-76 | the first rule with a matching prefix, or the built-in fallback |
| `RateLimit.MatchesByPrefix` | shared/middleware/ratelimit.go:63-76 | a rule is for the paths that begin with one of its prefixes |
| `RateLimit.BucketsAreCut` | shared/middleware/ratelimit.go:157-162 | buckets are cut every whole number of seconds of the window, every minute if it is not positive; none for a positive window below a second |
| `RateLimit.RulesCountApart` | shared/middleware/ratelimit.go:104-153 | for one identity a request under one named rule leaves another's counters alone |
| `RateLimit.RateLimiter.RateLimit` | shared/middleware/ratelimit.go:96-143 | alone: who is served and the counters afterwards, with the premium budget, the fail-open and the divide-by-zero case, and an EXPIRE that arrives late or never |
| `RateLimit.CounterLastsItsBucket` | shared/middleware/ratelimit.go:104-118 | in every interleaving of INCRs with EXPIREs that arrive later or are lost, a counter shows all hits of its bucket at every moment of the bucket |
| `RateLimit.ExactlyTheFirstAreServed` | shared/middleware/ratelimit.go:96-143 | in every such run, with one limit, exactly the first `limit` requests of a bucket are served |
| `RateLimit.BucketNeverExceeds` | shared/middleware/ratelimit.go:96-143 | in every such run, with changing limits, no bucket admits more than the largest |
| `RateLimit.SpanNeverExceedsTwice` | shared/middleware/ratelimit.go:96-162 | in every such run at most twice the limit in any half-open span of one window |
| `RateLimit.TwiceIsReached` | shared/middleware/ratelimit.go:157-162 | that factor is reached for every limit, window and bucket |
| `RateLimit.CountersAreAccountedFor` | shared/middleware/ratelimit.go:109-118 | under a window that is not positive the counters left are as many as the EXPIREs in flight and the counters left without one |
| `RateLimit.NonPositiveWindowNeverLimits` | shared/middleware/ratelimit.go:109-118 | in every run under such a window all requests with a positive limit are served if and only if no EXPIRE is in flight and no counter was left without one |
| `RateLimit.BetweenIncrAndExpire` | shared/middleware/ratelimit.go:109-118 | with limit one a request between another's INCR and EXPIRE is refused though nothing is lost |

## Left out

- Binding.RewriteBindsTheSame: reads quotes and comments by the scanner's own rule for both databases, so it does not model Postgres's `E''` escapes, its nested block comments or `/*/`, nor that Postgres ends a `--` comment at a carriage return while the scanner and SQLite end it only at a newline; nor a number glued to a parameter or an out-of-range parameter number, which neither database accepts.
- Binding.BindsTheSameInPlainWords: leaves out queries in which a `$tag$` is glued to an identifier; `RewriteBindsTheSame` covers them.
- The regular-expression rewrites of `shared/db/rewrite.go` (types, casts, serials, upserts, extensions): Go's regex matching is not modelled.
- SHA-256, HMAC, bcrypt, JWT and AES: parameters or not modelled; no statement about their strength.
- Invalid UTF-8 in scripts, which Go maps to replacement runes before the lexers see it.
- The decimal and text rendering of Redis keys; a counter is keyed by scope and bucket number.
- `AuditRuns`: commit and release of the lock are one step, and SQLite's error for a missing lock row is not a step.
- `Sessions` and `IngestionKeys`: gateway and database read one clock, and a revocation is stamped and visible at one instant. In Postgres `now()` is the start of the transaction and the row shows at its commit, so both bounds grow by that latency.
- `RateLimit`: reading the bucket and incrementing its counter are one step, gateways and Redis read one clock, and one window holds throughout a run.
- Floating-point rounding: confidences, thresholds and the forecast are over the reals.
- Overlapping approvals of one playbook: the handler decides on a loaded copy, so the lifecycle theorems are for serial calls.
- The risk classification behind approval authority: whether the approver is authorised is an input.
- The in-flight map that keeps two analyses of one incident apart, the forwarding of incidents and the topology push.
- Error texts, narratives, evidence wording and log lines.
- `Operator`: parsing of numbers is an input.
- Role permissions, which are a lookup beside the policies in `rbac.go`.
- The message bus, incident upserts in SQL, prompts and parsing of model output, SAML, SCIM, mail, billing and the frontend.
