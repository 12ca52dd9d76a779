# FlowStitch, verified

FlowStitch stitches events into open flows, closes flows into a durable outbox, and drains the outbox
to a sink with retries and a capped dead-letter queue, while rules are reloaded underneath. This
project models that engine in Dafny and proves what it is for: over every interleaving of its steps no
accepted event is lost or kept twice, no document reaches the sink under two identities, and no rule
version in use is reclaimed.

`dafny verify dfyconfig.toml` checks everything.

## How the model is laid out

| part | modules |
|---|---|
| path language, decimals, byte order | `ByteText`, `Decimal`, `PathLanguage`, `PathSpellings` |
| rules, their normal form and their permutations | `Rules`, `RuleNormalisation`, `RulePermutations` |
| the correlation aggregate, as a value and as the object updated in place | `FlowModel`, `FlowAccounting`, `FlowDeadline`, `FlowEffects`, `FlowOrder`, `SharedStitchNames`, `FlowAggregate` |
| the rule registry and how it is seeded at start | `Registry`, `Recovery` |
| outbox, dead letters, alerts summary | `Outbox`, `DeadLetters`, `DeadLetterPaging`, `Delivery`, `Alerts` |
| the two stores | `DueFlows`, `MemoryStore`, `PebbleKeys`, `PebbleStore`, `PebbleTx`, `PebbleDelivery` |
| the services | `Ingest`, `IngestAnswers`, `DurableIngest`, `Sweep`, `SweepRuns`, `Drain`, `DrainFates`, `DurableDrain`, `DrainsEmpty` |
| the engine as a state machine, and what every run keeps | `Engine`, `EngineDelivery`, `EngineFlows`, `EngineEvents`, `EngineRules`, `EngineRuns`, `EngineNames`, `ReusedIds` |
| index patterns and output IDs | `IndexName`, `OutputIds` |
| sums over maps, sorting | `Sums`, `Ordering` |

The engine (`Engine`) has one step per atomic action of the program: rule selection with its retain, the
Accept transaction, each deferred release, publication, closing one due flow, loading a batch, a sink
write (which may happen at any later time, and whether or not it is reported), resolving a batch, giving
one up, replay, and a crash with restart. The services carry the same operations
out on mutable objects: `Ingest` and `Drain` over the memory store, `DurableIngest`, `DurableDrain` and
`Sweep` over the durable one, each with the registry calls that belong to it. They are proved to leave
flows, boxes and registry as those steps do, so that what is proved of runs covers them.

Three hypotheses are explicit in the theorems about runs: the rule digest does not collide
(`Collisionless`), an output ID is not used twice (`FreshIds`), and a sink that reports a document as
delivered has it (`Truthful`). Published rules are valid and versioned by their digest, as the loader
leaves them, and the clock does not read a time before the zero time.

The second hypothesis is not a theorem of the code: two batches of one key that were first observed at the
same instant share an ID, and every event of one ingress batch carries one time
(internal/adapters/httpapi/server.go:238-252). `ReusedIds.ConservesIffFresh` shows that in every reachable
state a step leaves each accepted event in exactly one place if and only if its ID is new: an earlier
document that is still waiting is overwritten, and for one that is dead, delivered or evicted the ID would
be in two places at once. `EngineNames.NewIdIffNewInstant` says when an ID is new in terms of flows, and
`ReusedIds.SharedInstantLosesFlow` is the run in which two events of one batch, each opening and closing a
flow of one key, leave only the second.

Where the code does less than one might expect, the code is modelled and the exact condition is proved:

- Per-reason and per-index alert counts can exceed a recount: removals are applied before additions and
  stop at zero, so a record buried and evicted by one transaction is never subtracted. They stay exact for
  a change if and only if it removes no more under a key than was counted before it
  (`Alerts.CounterTracks`, `Alerts.SameTransactionEvictionDrifts`).
- A dry run previews what a replay would move if and only if no record with the empty ID matches
  (`DeadLetterPaging.PreviewIsReplay`).
- An expiry key parses back if and only if its flow key is not empty in both parts
  (`PebbleKeys.ExpiryKeyRoundTrip`), and a prefix scan reaches a record if and only if its ID does not
  start with the byte 0xff (`PebbleKeys.PrefixScanReaches`).
- Two rules can share an output ID if and only if one rule ID continues the other after a colon
  (`OutputIds.ConfusableIff`).
- Stitch IDs are not checked for uniqueness. Two documents that do not contend for a slot commute in
  every view of a flow with room for both if and only if their slots are compatible: in one invocation
  they show the same group, and if one stitch needs the role that the other's document fills, the other
  needs nothing beyond what the first needs and the two roles (`FlowOrder.SeenCommutesIff`). Stitches
  that differ in ID or in number of group values are always compatible
  (`FlowOrder.SeparateIsHarmonious`); `SharedStitchNames.SharedNamesBreakOrder` is a valid rule that is
  not. Exact completeness is proved for stitches that differ in that way.

Times are integers (nanoseconds since the Unix epoch); the zero time, which the program also uses for
"not settling", is Go's. Byte strings are sequences of characters, one per byte. JSON is taken as lossless,
so a stored flow or document is its value.

## Model

| member | source | states |
|---|---|---|
| `PathLanguage.Compile` | internal/domain/path/path.go:37-126 | the cursor loop accepts exactly the grammar `Parse` and yields its segments |
| `PathSpellings.CompilesIffSpelled` | internal/domain/path/path.go:37-126 | an expression compiles to given segments if and only if it is a dollar sign followed by one spelling for each, the first a bare key |
| `PathLanguage.PrintCanonical` | internal/domain/path/path.go:198-236 | the builder prints the canonical spelling of the segments |
| `PathLanguage.CanonicalAppends` | internal/domain/path/path.go:198-236 | how the next segment is spelled: an index and an unusual key in brackets, a bare key that is not all digits after a dot |
| `PathLanguage.ResolvePath` | internal/domain/path/path.go:129-192 | walking the document step by step is the recursive selection `Resolve` |
| `PathLanguage.IndexesCount` | internal/domain/path/path.go:129-192 | an index counts from the start, a negative one from the end, and one outside the array selects nothing |
| `PathLanguage.ScalarsResolve` | internal/domain/path/path.go:129-192 | texts, numbers and truth values resolve to their spelling, nothing else resolves |
| `PathLanguage.CanonicalRoundTrip` | internal/domain/path/path.go:198-236 | for every expression that compiles, its canonical form compiles to the same segments |
| `PathLanguage.EverySpellingCompiles` | internal/domain/path/path.go:37-126 | every list of segments a path may have is what its canonical spelling compiles to |
| `PathLanguage.CanonicalIdentifiesSegments` | internal/domain/path/path.go:198-236 | canonical forms are equal exactly when the segments are |
| `Decimal.AtoiOfItoa` | internal/domain/path/path.go:93-111 | a printed index reads back exactly when it fits 64 bits |
| `Rules.Validate` | internal/domain/rule/rule.go:158-206 | accepts exactly the valid rules: identity, key, timeout and index present, no event type claimed twice, no undeclared required role, every promotion of a known type from a declared role or the first or last event |
| `Rules.ValidRuleExactly` | internal/domain/rule/rule.go:158-206 | validity spelled out: every field, every claim, every required role and every promotion |
| `Rules.MatchingRole` | internal/domain/flow/flow.go:299-313 | the nested search finds the first claim of the event type |
| `Rules.ClaimIsUnique` | internal/domain/rule/rule.go:172-186 | in a valid rule the first claim of a type is its only one |
| `Rules.FieldNames` | internal/domain/rule/rule.go:89-106 | group field names are distinct, one per path, whatever the paths |
| `Rules.GroupFields` | internal/domain/rule/rule.go:89-106 | the naming loop produces those names |
| `Rules.FieldNameIsFirst` | internal/domain/rule/rule.go:93-101 | a free name is kept, else the first free one of name2, name3 and so on is taken |
| `RuleNormalisation.NormalisedSame` | internal/domain/rule/rule.go:220-245 | what the version hash sorts away does not change what the rule correlates |
| `RuleNormalisation.SameNormalFormSameCorrelation` | internal/domain/rule/rule.go:218-245 | two rules with one normal form correlate alike |
| `RuleNormalisation.SameApply` | internal/domain/flow/flow.go:187-244 | under two spellings of a valid rule Apply makes the same flow and the same duplicate report |
| `RuleNormalisation.SameClose` | internal/domain/flow/flow.go:247-275 | and ShouldClose gives the same verdict and moves the deadline alike |
| `RuleNormalisation.SameRuns` | internal/domain/flow/flow.go:187-275 | over every run of events the two spellings give the same flow |
| `RulePermutations.PermutationIsValid` | internal/domain/rule/rule.go:158-245 | reordering roles, role types, required roles, terminal events and promotions keeps a valid rule valid and its correlation the same |
| `RulePermutations.PermutationChangesNothing` | internal/domain/flow/flow.go:187-275 | such a reordering changes no flow of any run, no duplicate report and no close verdict |
| `RulePermutations.PermutationKeepsHash` | internal/domain/rule/rule.go:220-245 | what is hashed is the same for every reordering, when no two roles of a stitch and no two promotions share a name |
| `FlowModel.InvocationKeyInjective` | internal/domain/flow/flow.go:335-347 | invocation identities are equal only for equal stitch ID and group values, whatever bytes they hold |
| `FlowModel.GroupKeepsValues` | internal/domain/flow/flow.go:201-213 | every group value is found under its own field name in the invocation's group |
| `FlowAccounting.ApplyKeepsBooks` | internal/domain/flow/flow.go:187-297 | Apply keeps: stored events are exactly slot members plus plain entries, byte total and the three duplicate tallies agree, timeline positions and identities are distinct |
| `FlowAccounting.ApplyCounts` | internal/domain/flow/flow.go:187-244 | an event is appended to the stored events, or counted as a duplicate, never both or neither |
| `FlowAccounting.ApplyKeepsExact` | internal/domain/flow/flow.go:199-241 | with stitches that differ in ID or number of group values, an invocation is complete exactly when every required role is filled, and each member sits in its own slot |
| `FlowAccounting.RunIsAccounted` | internal/domain/flow/flow.go:187-297 | all of it after every run of Apply from Open, and stored events plus duplicates count the calls |
| `FlowEffects.SlotExactly` | internal/domain/flow/flow.go:188-213 | an event has a slot exactly when its type is claimed and every group value is there, and then it is that of its type, role and values |
| `FlowEffects.ApplyLatches` | internal/domain/flow/flow.go:187-297 | the flow is over its limits exactly when it was, or a stored event is larger than allowed or makes the flow so; it has ended exactly when it had, or the event's type is terminal |
| `FlowEffects.ApplyRecordsConflicts` | internal/domain/flow/flow.go:222-235 | an anomaly is recorded exactly for a different event in an occupied role; that event and those without a slot become plain entries |
| `FlowEffects.ApplyTallies` | internal/domain/flow/flow.go:223-229 | a duplicate is tallied under its own event type and no other |
| `FlowEffects.ApplyKeepsEntryTimes` | internal/domain/flow/flow.go:216-221 | an invocation keeps time and position of its first applied event |
| `FlowEffects.RepeatIsDuplicate` | internal/domain/flow/flow.go:222-230 | once an event has taken its slot, any event of the same body is a duplicate |
| `FlowEffects.OnlyRepeatsAreDuplicates` | internal/domain/flow/flow.go:187-244 | an event without a slot, in a free role, or different from who sits there is none |
| `FlowEffects.CompleteMeans` | internal/domain/flow/flow.go:315-333 | complete means every required role is filled, or every declared one when none is required |
| `FlowEffects.VerdictExact` | internal/domain/flow/flow.go:247-275 | the reason an accepted event closes a saved flow for, condition by condition and in order of priority |
| `FlowEffects.RunIsWithinLimits` | internal/domain/flow/flow.go:283-297 | after every run that keeps a flow open, bytes, each event's size and the number of events are within the limits |
| `FlowEffects.DeadlineIsEarlier` | internal/domain/flow/flow.go:262-275 | a saved flow is due at its timeout, or at the end of its settle window when that is earlier |
| `FlowDeadline.AcceptSaves` | internal/domain/flow/flow.go:247-275 | a flow that stays open is saved not terminal, below its limits, due at its timeout or at the end of the settle window if earlier, and settling exactly when the close condition holds |
| `FlowDeadline.RunDeadlineAgrees` | internal/application/ingest/service.go:170-184 | the same over every run that keeps the flow open |
| `FlowDeadline.SettleWindowIsAnchored` | internal/domain/flow/flow.go:262-271 | the settle window counts from the event that made the flow complete; later events neither extend nor shorten it, losing completeness cancels it |
| `FlowDeadline.SweepReasonExact` | internal/application/expire/service.go:80-86 | a sweep closes a saved flow as invocations_complete exactly when the settle window elapsed, else as timeout |
| `FlowOrder.ApplyFollows` | internal/domain/flow/flow.go:187-244 | Apply acts on slots, tallies, stored documents and latches as a function of the document alone |
| `FlowOrder.SeenCommutes` | internal/domain/flow/flow.go:187-244 | two documents with compatible slots, equal if they contend for one, can be applied in either order in every state such documents lead to |
| `FlowOrder.SeatsCommuteIff` | internal/domain/flow/flow.go:232-241 | two empty roles of one invocation can be filled in either order, whatever else it holds, if and only if a stitch needing the role the other fills leaves the other nothing more to need than its own roles and the two |
| `FlowOrder.SeenCommutesIff` | internal/domain/flow/flow.go:187-244 | two documents that do not contend for a slot commute in every view with room for both if and only if their slots are compatible |
| `FlowOrder.SeparateIsHarmonious` | internal/domain/rule/rule.go:172-191 | stitches that differ in ID or number of group values make all documents compatible |
| `FlowOrder.OrderIndependent` | internal/domain/flow/flow.go:187-244 | any two orders of the same compatible documents, contenders for a slot being equal, give the same invocations, completeness, duplicate counts, stored documents, byte total and close flags |
| `SharedStitchNames.SharedNamesBreakOrder` | internal/domain/rule/rule.go:172-191 | a valid rule with two stitches of one ID and two incompatible documents whose order matters |
| `FlowAggregate.LiveFlow.constructor` | internal/domain/flow/flow.go:91-104 | a new object holds the opened flow, its list and map empty |
| `FlowAggregate.LiveFlow.Apply` | internal/domain/flow/flow.go:187-244 | updating the object in place makes its value the applied one; list and identity map keep naming the same objects |
| `FlowAggregate.LiveFlow.ShouldClose` | internal/domain/flow/flow.go:247-275 | verdict and deadline update on the object are those of the value |
| `FlowAggregate.LiveFlow.Encode` | internal/domain/flow/codec.go:52-81 | inverting the identity map labels every invocation with its own identity |
| `FlowAggregate.Decode` | internal/domain/flow/codec.go:83-124 | an unknown format fails; otherwise list and map are rebuilt together over new objects with the stored value |
| `FlowAggregate.Clone` | internal/adapters/state/memory/store.go:375-381 | Decode after Encode is an independent object of the same value |
| `FlowAggregate.BuildKey` | internal/domain/flow/flow.go:335-347 | the builder loop writes the length-prefixed identity |
| `Registry.PublishKeeps` | internal/adapters/rules/registry.go:35-50 | publication keeps every held version, counts unchanged, and every current rule resolvable under its own reference |
| `Registry.ReleaseKeeps` | internal/adapters/rules/registry.go:83-105 | a release takes one holder and reclaims the version exactly when it was the last and the version is not current |
| `Registry.RetainKeeps` | internal/adapters/rules/registry.go:54-71 | retaining keeps the registry free of unheld old versions |
| `Registry.FirstMatchIsFirst` | internal/adapters/rules/registry.go:61-70 | no rule before the selected one matches the event |
| `Registry.FirstMatchExact` | internal/adapters/rules/registry.go:61-70 | the selected rule is enabled and its key resolves to a non-empty text; none is selected only if no enabled rule's does |
| `Registry.FindMatch` | internal/adapters/rules/registry.go:61-70 | the loop finds the first enabled rule whose key resolves to a non-empty text |
| `Registry.LiveRegistry.Publish` | internal/adapters/rules/registry.go:35-50 | the rebuilt snapshot is held versions overlaid with the current rules |
| `Registry.LiveRegistry.MatchAndRetain` | internal/adapters/rules/registry.go:54-71 | returns the first match and counts one holder for it, or changes nothing |
| `Registry.LiveRegistry.Release` | internal/adapters/rules/registry.go:83-105 | decrements, or drops count and version together unless current |
| `Registry.LiveRegistry.SeedOpenFlows` | internal/adapters/rules/registry.go:74-80 | every listed count replaces the one before, the others stay |
| `Recovery.OpenFlows` | internal/adapters/state/memory/store.go:259-270 | the loop counts exactly the open flows that hold each version |
| `Recovery.OpenFlowsFromStore` | internal/adapters/state/pebble/store.go:77-105 | the scan of the flow family gives the same counts |
| `Recovery.Boot` | cmd/flowstitch/main.go:109-121 | the registry a process starts with is the one the engine's restart step assumes |
| `DeadLetters.RetentionKeepsNewest` | internal/adapters/state/memory/store.go:237-252 | the cap is met, nothing is evicted needlessly, every evicted record is older, by creation time then ID, than every kept one |
| `DeadLetters.EvictedIsOlder` | internal/adapters/state/memory/store.go:237-252 | an evicted record was created before every kept one, or with it and has the lesser ID |
| `DeadLetters.OldestIsNext` | internal/adapters/state/memory/store.go:237-252 | after n evictions the oldest remaining record is the next of the sorted queue |
| `DeadLetters.SortedPrefixIsVictims` | internal/adapters/state/pebble/store.go:606-659 | sorting any listing and dropping a prefix evicts the same records in the same order |
| `DeadLetters.ResolutionBalances` | internal/adapters/state/memory/store.go:149-202 | the change a resolution reports is exactly the difference it made to the dead letters, the drop total and the cap |
| `DeadLetterPaging.PagesAreComplete` | internal/adapters/state/memory/store.go:308-333 | following next cursors ends, and the pages are every matching record once in ID order |
| `DeadLetterPaging.PageSize` | internal/adapters/state/memory/store.go:308-333 | a page is full or holds all that is left |
| `DeadLetterPaging.PreviewIsReplay` | internal/application/admin/service.go:42-65 | the dry run lists what a replay moves if and only if no matching record has the empty ID |
| `DeadLetterPaging.ReplayBalances` | internal/adapters/state/memory/store.go:204-235 | what replay reports as removed is what left the dead letters; nothing is dropped |
| `DeadLetterPaging.ReplayMoves` | internal/adapters/state/memory/store.go:204-235 | replay takes exactly the listed records from the dead letters and adds exactly those, revived, to the outbox |
| `DeadLetterPaging.ReplayTakesExactly` | internal/domain/outbox/record.go:144-149 | an unlimited replay leaves exactly the records some named dimension of the filter rules out, a cut-off ruling out what was dead-lettered at or after it |
| `DeadLetterPaging.ReplayedStartsOver` | internal/adapters/state/memory/store.go:218-228 | a replayed record has no attempts, error or rejection, is ready at once, counts one replay more, and keeps ID, index, document and creation time |
| `DeadLetterPaging.MetadataShows` | internal/domain/outbox/record.go:127-131 | a listing shows each record under its own fields |
| `DueFlows.AnswersAgree` | internal/adapters/state/memory/store.go:103-119 | any two answers to a due query are in deadline order with the same deadlines, and the same flows when not cut off |
| `DueFlows.AnswersAreEarliest` | internal/adapters/state/memory/store.go:103-119 | every named flow is past its deadline, and none left out is due before a named one |
| `DueFlows.SortedCandidatesAnswer` | internal/adapters/state/memory/store.go:112-118 | sorting all candidates by deadline and cutting at the limit answers the query |
| `MemoryStore.Store.DueFlows` | internal/adapters/state/memory/store.go:103-119 | the full scan answers the due query |
| `MemoryStore.ScanDue` | internal/adapters/state/memory/store.go:103-111 | the scan collects every due flow once with its deadline |
| `MemoryStore.Store.PendingOutbox` | internal/adapters/state/memory/store.go:128-147 | the longest-waiting ready records, oldest first, ties by ID, up to the limit |
| `MemoryStore.TrimByMinimum` | internal/adapters/state/memory/store.go:237-252 | deleting the minimum repeatedly evicts the front of the eviction queue in order |
| `MemoryStore.ResolveEach` | internal/adapters/state/memory/store.go:149-190 | verdicts are applied in order; an unknown verdict for a waiting record fails the transaction, one for a record that is gone does not |
| `MemoryStore.Store.ResolveOutbox` | internal/adapters/state/memory/store.go:149-202 | verdicts, then retention when anything was buried, and the change reported |
| `MemoryStore.Store.ListDeadLetters` | internal/adapters/state/memory/store.go:308-333 | the page after the cursor in ID order, and the cursor of the next one |
| `MemoryStore.Store.ReplayDeadLetters` | internal/adapters/state/memory/store.go:204-235 | moves exactly the selected records back with attempts reset and replay counted |
| `PebbleKeys.FlowKeyRoundTrip` | internal/adapters/state/pebble/store.go:686-706 | a percent-escaped flow key parses back to its two parts |
| `PebbleKeys.BigEndianOrder` | internal/adapters/state/pebble/store.go:715-721 | big-endian bytes compare as the numbers do |
| `PebbleKeys.MillisFloors` | internal/adapters/state/pebble/store.go:715-721 | a time is encoded as the millisecond it falls in, before the epoch as after it |
| `PebbleKeys.ExpiryKeyRoundTrip` | internal/adapters/state/pebble/store.go:723-754 | an expiry key parses back unless both parts are empty, and yields its deadline truncated to the millisecond |
| `PebbleKeys.ExpiryKeyInjective` | internal/adapters/state/pebble/store.go:715-730 | expiry keys are equal exactly for one flow at one millisecond |
| `PebbleKeys.DueScanIsByMillisecond` | internal/adapters/state/pebble/store.go:331-345 | the byte-range scan holds exactly the entries due by millisecond, negative times included |
| `PebbleKeys.PrefixScanReaches` | internal/adapters/state/pebble/store.go:756-761 | a prefix scan reaches a key exactly when what follows the prefix does not start with 0xff |
| `PebbleKeys.PrefixScanStays` | internal/adapters/state/pebble/store.go:756-761 | and reaches nothing of another prefix |
| `PebbleStore.SaveIndexes` | internal/adapters/state/pebble/store.go:288-310 | saving replaces the flow's index entry by the one at its new deadline and touches no other |
| `PebbleStore.DeleteKeeps` | internal/adapters/state/pebble/store.go:312-329 | deleting removes the flow and its entry and touches no other |
| `PebbleStore.IndexAlwaysAgrees` | internal/adapters/state/pebble/store.go:288-329 | after any sequence of saves and deletes the index agrees with the open flows |
| `PebbleStore.ExactlyOneEntry` | internal/adapters/state/pebble/store.go:288-310 | an agreeing index holds exactly one entry per open flow, at its current deadline |
| `PebbleStore.DueFromIndex` | internal/adapters/state/pebble/store.go:331-384 | the index scan answers the due query as the full scan does, and on an index with orphans still lists every due flow |
| `PebbleStore.ExactScanAnswers` | internal/adapters/state/pebble/store.go:331-384 | millisecond-truncated entries, filtered and sorted, are the due set in deadline order |
| `PebbleTx.Tx.SaveFlow` | internal/adapters/state/pebble/store.go:288-310 | the keyspace holds the saved flow and the index still agrees |
| `PebbleTx.Tx.DeleteFlow` | internal/adapters/state/pebble/store.go:312-329 | the keyspace no longer holds the flow and the index still agrees |
| `PebbleTx.Tx.DueFlows` | internal/adapters/state/pebble/store.go:331-384 | answers the due query; fails exactly when an entry in range does not parse |
| `PebbleTx.TrimBySorting` | internal/adapters/state/pebble/store.go:606-645 | evicts the same records in the same order as deleting the minimum repeatedly |
| `PebbleTx.Tx.TrimDeadLetters` | internal/adapters/state/pebble/store.go:606-659 | leaves exactly the retained records in the keyspace, returns the evicted ones in order, adds them to the durable count and touches nothing else |
| `PebbleTx.ScanPage` | internal/adapters/state/pebble/store.go:176-205 | the early-stopping scan returns the page and cursor the memory store returns |
| `PebbleTx.ScanReplay` | internal/adapters/state/pebble/store.go:520-550 | the scan selects the records the memory store replays |
| `PebbleTx.Tx.ListDeadLetters` | internal/adapters/state/pebble/store.go:176-205 | the page read from the keyspace is the memory store's |
| `PebbleDelivery.EnqueueOutbox` | internal/adapters/state/pebble/store.go:386-398 | the keyspace holds the boxes with the record added; flows and index are untouched |
| `PebbleDelivery.ApplyVerdict` | internal/adapters/state/pebble/store.go:436-501 | one verdict by point reads and writes does what it does to the boxes, failing exactly on an unknown verdict for a waiting record |
| `PebbleDelivery.ResolveOutbox` | internal/adapters/state/pebble/store.go:433-518 | the durable store resolves to the same boxes, fails on the same batches and reports the same change as the simple store |
| `PebbleDelivery.ReplayDeadLetters` | internal/adapters/state/pebble/store.go:520-585 | the durable store moves the same records and reports the same metadata and change as the simple store |
| `PebbleDelivery.FlowsUnaffected` | internal/adapters/state/pebble/store.go:433-585 | resolving and replaying leave the open flows and their index in agreement |
| `PebbleDelivery.BoxesUnaffected` | internal/adapters/state/pebble/store.go:288-329 | writes outside the delivery families leave outbox, dead letters and drop count as they were |
| `PebbleDelivery.FlowWritesLeaveBoxes` | internal/adapters/state/pebble/store.go:288-329 | saving and deleting flows are such writes |
| `Sweep.Finalize` | internal/application/finalize.go:17-41 | on the durable store the record is written, then flow and index entry are deleted; nothing else changes |
| `Sweep.CloseEach` | internal/application/expire/service.go:60-98 | one pass finalizes each listed live flow once, rule_unavailable exactly when its version is gone, skipping visited and orphaned keys |
| `Sweep.RunSweep` | internal/application/expire/service.go:52-102 | finalizes exactly the lesser of the batch and the live due flows, leaves the store holding the other flows and the boxes with one new record per closed flow, and ends although the index may hold orphans |
| `Sweep.SweepOnce` | internal/application/expire/service.go:49-109 | a committed sweep also releases the version of each closed flow once, in order; a failed one changes neither store nor registry |
| `Sweep.Startup` | cmd/flowstitch/main.go:187-195 | the startup loop ends and leaves no flow due at its last clock reading |
| `SweepRuns.SweepIsRun` | internal/application/expire/service.go:52-102 | the closings of a sweep are a run of the engine that removes exactly those flows, files each with its reason and owes one release for each |
| `SweepRuns.SweptStateIsReached` | internal/application/expire/service.go:49-109 | flows, boxes and registry after a committed sweep are those at the end of an engine run |
| `SweepRuns.ReportIsSweepable` | internal/application/expire/service.go:63-98 | what the sweep loop closes is what the engine would close, for the same reasons |
| `Delivery.CompleteResults` | internal/application/deliver/service.go:202-220 | one result per record in order: the last answer for its ID, or a retryable omission |
| `Delivery.JudgedSpends` | internal/application/deliver/service.go:80-107 | every verdict spends one attempt, a retry stays within the limit and gets a deadline, a rejection is typed and stamped |
| `Delivery.ComputeCapFloor` | internal/application/deliver/service.go:229-232 | the loop finds the largest doubling of the base below the maximum |
| `Delivery.BackoffBounds` | internal/application/deliver/service.go:222-242 | for every attempt and jitter the delay is between 750 ms and 5 minutes and fits 64 bits |
| `Delivery.BackoffGrows` | internal/application/deliver/service.go:222-242 | delays strictly increase through attempt 9, never decrease after, and are constant at the cap |
| `Delivery.BackoffSpans` | internal/application/deliver/service.go:222-242 | the jitter spans the last quarter of the doubled delay, and at the cap the way from 256 seconds to 5 minutes |
| `Delivery.ResolvedAllLowers` | internal/application/deliver/service.go:115-123 | resolving a batch lowers the attempts left in the outbox by at least one per record and keeps every record within the limit |
| `Delivery.DrainsAreBounded` | internal/application/deliver/service.go:74-131 | a closed outbox sees at most as many committed drains of non-empty batches as it has attempts left |
| `DrainsEmpty.ReadyYieldsBatch` | internal/adapters/state/memory/store.go:128-147 | whenever a record is ready, the pending batch is not empty |
| `DrainsEmpty.OutboxEmpties` | internal/application/deliver/service.go:74-131 | whatever known verdicts the sink gives and whatever still backs off, a closed outbox of which something is ready at each drain is empty after as many drains as it had attempts left |
| `DrainsEmpty.ServiceDrains` | internal/application/deliver/service.go:57-146 | the drain step of the engine, and so the service's drain, is such a drain |
| `Drain.PendingIsLoadable` | internal/application/deliver/service.go:57-66 | a pending batch consists of distinct, waiting, ready records |
| `Drain.PendingIsOldest` | internal/adapters/state/memory/store.go:138-143 | a batch is in order of creation, ties by ID, and no ready record left out is older than one that is in |
| `DrainFates.ResolvedRecord` | internal/adapters/state/memory/store.go:149-190 | a delivered record is gone, a retried one waits with its new deadline, attempts and error, a rejected one is dead with its type, time and error; nothing else about it changes |
| `DrainFates.AbsentIsIgnored` | internal/adapters/state/memory/store.go:153-156 | a result for a record that no longer waits changes nothing |
| `DrainFates.NoRejectionNoTrim` | internal/adapters/state/memory/store.go:186-202 | without a rejection the dead letters are left alone and no change is reported |
| `DrainFates.UnansweredFate` | internal/application/deliver/service.go:202-220 | a record the sink did not mention waits with one attempt more while the limit allows it, and is rejected for the limit once it does not |
| `DrainFates.AnsweredFate` | internal/application/deliver/service.go:74-107 | a record the sink did mention follows its last word: delivered, retried or rejected, with the reported error and type |
| `DrainFates.BacksOff` | internal/application/deliver/service.go:96-97 | no drain loads a record kept for retry before its backoff has ended |
| `DrainFates.ReadyAfterBackoff` | internal/domain/outbox/record.go:61-63 | it is ready exactly from then on |
| `DrainFates.EveryDrainDecides` | internal/application/deliver/service.go:57-146 | in every reachable state a drain with known verdicts decides fates in this way |
| `Drain.Judge` | internal/application/deliver/service.go:74-107 | the loop rewrites the sink's answer into one verdict per record and counts deliveries |
| `Drain.Worker.Run` | internal/application/deliver/service.go:57-146 | a drain leaves the store as the engine's drain step does, or as it was when capture, transaction or a verdict fails |
| `DurableDrain.PendingOutbox` | internal/adapters/state/pebble/store.go:400-431 | the scan of the outbox family yields the batch the memory store yields |
| `DurableDrain.Run` | internal/application/deliver/service.go:57-146 | over the durable store a drain leaves the boxes as the engine's drain step does, or as they were, and flows and index alone |
| `Alerts.CounterTracks` | internal/application/alerts/service.go:73-89 | a per-key count never falls below a recount, and stays exact for a change if and only if it removes no more under the key than was counted |
| `Alerts.UpdateTracks` | internal/application/alerts/service.go:73-89 | record and drop totals stay equal to a recount across any change |
| `Alerts.Summarise` | internal/adapters/state/memory/store.go:293-306 | the store's own summary counts every retained record exactly |
| `Alerts.Service.constructor` | internal/application/alerts/service.go:50-61 | reasons are merged under their normal names, the empty one under unknown; the rest of the seed is kept |
| `Alerts.SeedTracks` | internal/application/alerts/service.go:50-61 | a service seeded from the store's summary starts with every counter exact |
| `Alerts.SummaryTracks` | internal/application/alerts/service.go:73-89 | the same after any sequence of resolutions and replays applied in commit order |
| `Alerts.SameTransactionEvictionDrifts` | internal/application/alerts/service.go:215-221 | for every cap: a record buried into a full set of newer ones is evicted by its own transaction and leaves its reason counted once with none retained |
| `Alerts.Service.ApplyDeadLetterChange` | internal/application/alerts/service.go:73-89 | the counters in place become the updated summary; an unchanged report changes nothing |
| `Engine.Verdicts` | internal/application/deliver/service.go:74-107 | one judged result per record of the batch, under its ID |
| `EngineDelivery.StepKeepsDelivery` | internal/application/deliver/service.go:57-146 | every step keeps each finalized document filed in exactly one place, with the index and bytes of its enqueue, attempts within the limit and dead letters within the cap; the ledger only grows |
| `EngineDelivery.VerdictsFile` | internal/adapters/state/memory/store.go:149-190 | a batch of verdicts moves each document to delivered, dead or back to waiting, and nowhere else |
| `EngineDelivery.ReplayFiles` | internal/adapters/state/memory/store.go:204-235 | replay moves documents from dead to waiting and leaves waiting records alone |
| `EngineFlows.HandledUnderOpeningVersion` | internal/application/ingest/service.go:153-190 | whatever was published since, an event is applied and judged as the flow's opening version says |
| `EngineFlows.StepKeepsFlows` | internal/application/ingest/service.go:153-190 | every step keeps every stored flow sound: deadline, limits, settle window, books and completeness under its pinned rule |
| `EngineEvents.StepConserves` | internal/application/finalize.go:17-41 | every step keeps accepted events equal to those in open flows plus those in finalized documents |
| `EngineEvents.EventsAreInOnePlace` | internal/application/finalize.go:17-41 | with every document filed once, each event is in exactly one place if and only if open flows and ledger account for the accepted events |
| `EngineEvents.FinalizeConservesIff` | internal/application/finalize.go:17-41 | finalizing leaves every accepted event in exactly one place if and only if the output ID is new or its document still waits and holds no event |
| `EngineEvents.UndeliveredConservedIff` | internal/adapters/state/memory/store.go:121-126 | and conserves those still to be delivered if and only if no record with events waits under it |
| `ReusedIds.ConservesIffFresh` | internal/application/finalize.go:17-41 | in every reachable state a step leaves every accepted event in exactly one of the five places if and only if the output ID it enqueues under is new |
| `ReusedIds.SharedInstantLosesFlow` | internal/adapters/httpapi/server.go:238-252 | the run of two events of one ingress batch, each opening and closing a flow of one key at its own clock reading: only the last step reuses an ID, and after it the first event is in none of the five places |
| `ReusedIds.SuchBatchesExist` | internal/domain/projection/document.go:60-64 | for every configuration there are a valid rule and two such events |
| `EngineRules.StepKeepsRegistry` | internal/adapters/rules/registry.go:35-105 | every step keeps a version's count equal to its open flows plus the calls that hold it, and everything in use resolvable |
| `EngineRules.AcceptKeepsRegistry` | internal/application/ingest/service.go:130-199 | in each outcome of Accept the releases still owed and the flow's pin account for the retained candidate exactly |
| `EngineRules.ReleaseOneKeepsRegistry` | internal/adapters/rules/registry.go:83-105 | a release never takes a version that an open flow or a call still needs |
| `EngineRules.RestartKeepsRegistry` | internal/adapters/rules/registry.go:74-80 | after a restart the seeded counts are those of the stored flows |
| `EngineRuns.EveryRunConservesEvents` | internal/application/ingest/service.go:153-190 | in every reachable state each accepted non-duplicate event is in exactly one of open flow, outbox, dead letter, delivered, evicted |
| `EngineRuns.EveryRunDeliversOnce` | internal/application/deliver/service.go:57-146 | at most one sink document per finalized flow, through unreported writes, retries, dead-lettering and replays |
| `EngineRuns.DocumentsAreFixedAtEnqueue` | internal/application/finalize.go:29-33 | index and bytes of a sink document are those of the moment of enqueue, however much later it is written |
| `EngineRuns.ReleasedHasArrived` | internal/application/deliver/service.go:90-92 | what left the outbox as delivered is in the sink |
| `EngineRuns.EveryRunCountsExactly` | internal/adapters/rules/registry.go:35-105 | in every reachable state a version's count is its open flows plus in-flight calls, and a version resolves if current and only if current or needed |
| `EngineRuns.OpenFlowsKeepTheirVersion` | internal/adapters/rules/registry.go:108-115 | a flow opened in this process, or recovered with its version at hand, resolves its own version while it is open |
| `EngineRuns.SweepReasonInEveryRun` | internal/application/expire/service.go:72-86 | such a flow is swept as invocations_complete exactly when its settle window elapsed, else as timeout, never as rule_unavailable |
| `EngineRuns.SweptRecordInEveryRun` | internal/application/expire/service.go:72-98 | in every reachable state a sweep files a due flow as rule_unavailable exactly when no registry entry holds its version, then under its own pinned rule; else as complete or timeout by its settle window; the record is new and ready |
| `EngineRuns.StoredFlowsAreSound` | internal/application/ingest/service.go:170-184 | every open flow of every reachable state is within its byte and event limits, has its deadline and settle window in agreement and its books balanced |
| `EngineRuns.EveryRunIsBounded` | internal/application/deliver/service.go:88-97 | no outbox record ever has more attempts than allowed, and the dead letters never exceed the cap |
| `EngineRuns.DrainSpendsAttempts` | internal/application/deliver/service.go:74-131 | in every reachable state a committed drain lowers the attempts left by at least the size of its batch |
| `EngineNames.NewIdIffNewInstant` | internal/domain/projection/document.go:60-64 | in every reachable state closing a flow uses a new output ID if and only if no finalized flow had its key and first instant |
| `Ingest.Service.Accept` | internal/application/ingest/service.go:106-201 | one call leaves registry and store as its session of engine steps does, and reports what the session decided |
| `IngestAnswers.AnswersTell` | internal/application/ingest/service.go:176-199 | correlated exactly when the event has joined the flow of its key, duplicate exactly when that flow counts one repeat more and holds what it held, finalized exactly when the flow is gone, its document then waiting with the named reason; nothing else changes |
| `IngestAnswers.RefusalsChangeNothing` | internal/application/ingest/service.go:110-141 | a quarantined or refused event leaves flows, boxes, rules and every version's holders as they were |
| `Ingest.Service.Transact` | internal/application/ingest/service.go:153-190 | the transaction on the flow object commits what the engine's Accept step commits |
| `Ingest.Service.WithTx` | internal/adapters/state/memory/store.go:53-68 | an aborted transaction changes nothing |
| `Ingest.Settle` | internal/application/ingest/service.go:194-199 | gives back the closed flow's version and the candidate, in that order, unless an opened flow keeps the candidate |
| `Ingest.Service.Finalize` | internal/application/finalize.go:17-41 | the record is enqueued under the output ID and the flow deleted |
| `DurableIngest.Transact` | internal/application/ingest/service.go:153-190 | over the durable store the transaction commits what the engine's Accept step commits, index included |
| `DurableIngest.Accept` | internal/application/ingest/service.go:106-201 | one call over the durable store leaves flows, index, boxes and registry as its session does, and reports what the session decided |
| `Ingest.AcceptIsCallable` | internal/application/ingest/service.go:106-201 | in every reachable state the stored flows can be decoded, so that Accept may be called, and its result is reachable again |
| `Ingest.SessionRuns` | internal/application/ingest/service.go:106-201 | the session of a call is a run of the engine |
| `IndexName.Validate` | internal/domain/indexname/index.go:17-54 | accepts exactly the concatenations of brace-free characters and known placeholders |
| `IndexName.Substitute` | internal/domain/indexname/index.go:64-67 | replacing placeholders gives the same text in whatever order they are visited |
| `IndexName.Resolve` | internal/domain/indexname/index.go:58-69 | the index is the pattern with the document's date, or the finalization date when it has none, and holds no brace |
| `IndexName.Wildcard` | internal/domain/indexname/index.go:72-86 | the rewriting loop ends, leaves no separator between stars, and its glob matches the index of every date |
| `IndexName.ShorteningKeepsMatches` | internal/domain/indexname/index.go:79-81 | collapsing star, separator, star never loses a match |
| `OutputIds.PreimageInjective` | internal/domain/projection/document.go:60-64 | with colon-free rule IDs and UTC times (section 5.6 of RFC 3339) the hashed text determines rule, key and time |
| `OutputIds.ConfusableIff` | internal/domain/projection/document.go:60-64 | two rules can produce one hashed text if and only if one rule ID continues the other after a colon |
| `OutputIds.SharedIdIffSameInstant` | internal/domain/projection/document.go:60-64 | two batches share an output ID if and only if key and first instant are equal |

## Left out

- Promotion values, projection views, invocation durations and the sorted entry list: long but shallow, and durations depend on the order of required roles, which the version hash sorts away.
- The pass-through buffer: a bounded queue whose properties are easy next to the ones here.
- HTTP, authentication, OpenSearch transport, YAML loading, logging, metrics and health.
- The Pebble engine itself (write-ahead log, sync, torn writes): a transaction is an indexed batch over an atomic, byte-ordered map.
- PebbleTx.DroppedTotal: the drop count is unbounded, while the program's wraps at 64 bits.
- Alert phase transitions and alert documents: only the counters behind them are modelled.
- The file capture of permanent rejections before they are resolved: a yes-or-no input of a drain.
- AcceptBatch: a loop over Accept that stops at the first error.
- Messages inside errors, except those stored in records.
- Concurrent mutation of a document between rule selection and key resolution, for which Accept has a rejection: the document is a value here, so that branch cannot be reached.
- Delivery.BackoffDelay: the jitter fraction is an exact rational over 65535 instead of a floating-point number, and the digest bytes behind it are arbitrary.
- RuleNormalisation.NormalisedSame: roles of one stitch with equal names are sorted stably, while the program's sort leaves their order open; equal normal forms still mean the same correlation.
- Engine.Next: a sweep is one step per closed flow, which allows more interleavings than the single transaction does; an aborted transaction is no step.
- Engine.Verdicts: the backoff delay is a parameter of the engine; its arithmetic is in Delivery.
- Ingest.Service.Accept: the capacity verdict, the clock and whether the transaction commits are inputs; without the pass-through buffer an unmatched event is quarantined.
- Drain.Worker.Run: the pass-through drain and the refresh of depth metrics that follow a drain are not modelled.
- FlowOrder.SeenCommutesIff: the only-if half speaks of all views; a role that no event type fills can keep a view from being reached by a run.
- DurableIngest.Accept: keys are byte strings and deadlines fit the millisecond encoding of the index.
- DurableDrain.Run: as Drain.Worker.Run.
- EngineRuns.EveryRunIsBounded: retry limit and cap stay the same over restarts; a restart with smaller ones can leave records beyond them until they are next resolved.
- FlowModel.Applied: the encoded length of a document comes with it instead of being computed from its body; duplicates are decided by the body alone, as in the program.
