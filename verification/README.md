# Gearbox, verified

A Dafny model of the parts of Gearbox, a job server, whose behaviour spans many
calls: the JSON schema engine, the agent scheduler, the status row with its
cancellation protocol, the delay daemon, the worker's call of a handler, and the
codecs between them. Each module follows one component.

* **JSON** (`JsonValue`, `JsonSchema`, `JsonTree`, `JsonStream`, `JsonAgreement`,
  `JsonMeaning`, `JsonGenerator`, `SchemaStore`, `JsonParser`). Documents and schemas are values,
  yajl is a list of events. `JsonStream` is an abstract machine for the callbacks,
  with a stack of open containers. `JsonParser` is the code as it is: nodes with
  parent links, one cursor in the tree and one in the schema, refined step by step
  to that machine. `SchemaStore` is the arena of schema nodes that lookups fill in
  lazily. `JsonAgreement` shows exactly when streaming and tree validation agree, and
  `JsonMeaning` that what they accept is what the keywords mean.
* **Agents** (`JobQueue`, `AgentRun`). The layering, with the depth-first search of
  the topological sort written out, and the run of the layers as a transition system
  over all interleavings of messages.
* **Statuses** (`StatusRow`, `Cancellation`). The shared row with stale copies, where
  only the locked part of a call is atomic, and the cancellation of a tree of
  statuses by many concurrent jobs, where each status operation is one step.
* **Delay daemon** (`DelayDaemon`). The wake-up protocol between the daemon and the
  workers that write its table.
* **Worker** (`WorkerRun`). One call of a handler with every outcome, and many calls
  on one row.
* **Codecs** (`JobEnvelope`, `ShellQuote`, `Uris` in `Uri.dfy`, `PathCanonical`,
  `Base32`). Round trips, each with the exact condition under which it holds.

`Outcomes` and `Text` hold shared result types and string searches. Check everything
with `dafny verify dfyconfig.toml`.

Objects that the source updates in place are classes (`SchemaStore.Store`,
`JsonParser.Context`, `StatusRow.Status`, `WorkerRun.Worker`, `JobEnvelope.JobManager`,
`Uris.Uri`); loops are methods with invariants, proved against functions; the laws
are lemmas about those functions.

Properties that one would expect and that the code does not have, each with the exact
condition under which it holds and a case in which it does not:

* the two ways of validating differ on integers under a "number" type with enum or
  maxDecimal, or beyond 32 bits (parse_number checks before typeFixup, validate after);
* handlers can leave their base_uri in the manager, although the comment at
  gearbox/job/JobManager.cc:269-272 says they do not taint it: when the job has no
  base_uri of its own, and also when one of its handlers cannot be decoded;
* a row can run before its time when it is postponed after the daemon fetched it, and a
  failed poke is not "picked up eventually" (the comment at
  workers/gearbox/WorkerGearbox.cc:95-96) when the daemon sleeps without a deadline;
* a handler that reports progress 100 itself loses the final code;
* the afterwards queue is not emptied by every call: a job that throws leaves the rest
  for the next call, which drops it when it fails;
* a stale copy of a status that was stopped or cancelled loses the COMPLETED event;
* a query or fragment right after the authority of a Uri is read as its path, unless it
  is empty;
* a run of agents is left without an overall code when an agent is lost, before or after
  it was queued, and none fails;
* canonicalising "a/.." gives the empty string, which is not a canonical path.

## Model

| member | source | states |
|---|---|---|
| `JsonValue.EqualsIsEqualNormalForms` | gearbox/core/Json.cc:93-147 | equals, whichever side is the receiver, holds iff both trees are the same after null, "", {} and [] collapse to null at every depth |
| `JsonValue.EqIsAnEquivalence` | gearbox/core/Json.cc:118-151 | operator== is reflexive, symmetric and transitive on all documents |
| `JsonValue.EqIsACongruence` | gearbox/core/Json.cc:93-116 | replacing a member of an object or an element of an array by an equal one keeps the container equal |
| `JsonSchema.ToInt32` | gearbox/core/JsonSchema.cc:214-233 | as<int>() narrows to 32 bits: always in range, and the identity on what already fits |
| `JsonSchema.FillingStep` | gearbox/core/JsonSchema.cc:445-463 | one round of the setDefaults loop adds exactly the missing default of one property, fixed up, and nothing else |
| `JsonSchema.FillingDone` | gearbox/core/JsonSchema.cc:445-463 | after the last round the object is the input plus every default it lacked |
| `JsonTree.SetDefaults` | gearbox/core/JsonSchema.cc:445-463 | the loop gives the members plus the fixed-up default of every missing property that has one, in any iteration order |
| `JsonTree.ValidRequires` | gearbox/core/JsonSchema.cc:399-443 | true iff every non-optional property is present and every present optional one has all the properties it requires |
| `JsonTree.ValidateJson` | gearbox/core/Json.cc:391-411 | the recursive validator computes the specification Validate, verdict and resulting tree, whose meaning keyword by keyword is JsonMeaning.ValidateIsMeant |
| `JsonTree.ValidateObject` | gearbox/core/Json.cc:413-425 | the member loop, then defaults, then requires: equal to the specification on every object |
| `JsonTree.ValidateArray` | gearbox/core/Json.cc:427-440 | size checks and the element loop: equal to the specification on every array |
| `JsonStream.RunValue` | gearbox/core/JsonParser.cc:60-309 | from any machine state that takes a value, the events of a document of any depth either fail or store exactly the recursive result, and both cursors are back where they were |
| `JsonStream.RunObject` | gearbox/core/JsonParser.cc:204-270 | the same for an object, with its keys, members, defaults and requires |
| `JsonStream.RunArray` | gearbox/core/JsonParser.cc:272-309 | the same for an array, with the size check at each push and at the end |
| `JsonStream.ParseIsStream` | gearbox/core/JsonParser.cc:60-109 | driving the callbacks over a whole document is one recursive function of it; on acceptance nothing is left open and the cursor is above the root |
| `JsonAgreement.StreamIsJudge` | gearbox/core/JsonParser.cc:149-179 | streaming under a schema is the reading that checks integers before they are fixed up, at every depth |
| `JsonAgreement.JudgeIsValidate` | gearbox/core/Json.cc:391-440 | building the tree and calling validate is the same reading with the check after the fix-up: defaults, requires, size limits at every push against once at the end |
| `JsonAgreement.JudgeIsValidateAt` | gearbox/core/Json.cc:391-440 | with the check at either time, reading a document is building its tree and checking that; JudgeIsValidate is the late case |
| `JsonAgreement.JudgeSplits` | gearbox/core/JsonSchema.cc:214-233 | the check on fixed-up integers can be separated from everything else a reading does |
| `JsonAgreement.StreamingEqualsTree` | gearbox/core/Json.cc:391-440 | main agreement, exact: for every schema and document the two routes give the same verdict and the same tree if and only if the document is rejected whatever its fixed-up integers are, or those integers pass the check before the fix-up iff they pass it afterwards |
| `JsonAgreement.AcceptedTreesAreEqual` | gearbox/core/Json.cc:391-440 | whenever both routes accept they leave the same tree, defaults and fix-ups included |
| `JsonAgreement.SafeSchemasAgree` | gearbox/core/JsonSchema.cc:191-233 | a condition without running anything: no enum or maxDecimal at a number node and 32-bit integers under number nodes, wider ones elsewhere, and the two routes agree |
| `JsonAgreement.EnumBreaksAgreement` | gearbox/core/JsonSchema.cc:263-397 | {"type":"number","enum":[1]} on 1: streaming accepts, validate rejects |
| `JsonAgreement.MaxDecimalBreaksAgreement` | gearbox/core/JsonSchema.cc:263-397 | maxDecimal on an integer under "number": streaming skips the check that validate makes |
| `JsonAgreement.WideIntegersBreakAgreement` | gearbox/core/JsonSchema.cc:214-233 | an integer beyond 32 bits under "number": the range check sees different values on the two routes |
| `JsonMeaning.ValidateIsMeant` | gearbox/core/JsonSchema.cc:113-577 | validation accepts a document with a result if and only if the two are related by the keywords' meaning, written on the schema's fields at every depth: type and disallow by name, at least minimum, at most maximum, lengths, format, pattern, enum, item counts, members or elements by their own schema, defaults filled in, required members present |
| `JsonMeaning.StreamingIsMeant` | gearbox/core/JsonParser.cc:60-309 | parsing under a schema, for every schema and document: accepted with a result iff the document spells a tree that conforms in that same meaning, with numbers as they were read, and becomes the result |
| `JsonMeaning.TreeRouteIsMeant` | gearbox/core/Json.cc:391-440 | parsing and then validating: the same, with numbers as what they become |
| `JsonMeaning.ReadingIsMeant` | gearbox/core/JsonParser.cc:60-309 | without a schema a document is read as the tree it spells, and refused iff it spells none: a repeated key, an integer outside int64_t or an unconvertible number, at any depth |
| `JsonMeaning.AnyIsFree` | gearbox/core/JsonSchema.cc:465-503 | under the schema of type any a tree is accepted iff all its strings pass the default format, and is left unchanged |
| `JsonGenerator.Generate` | gearbox/core/JsonGenerator.cc:37-71 | the emitted events are those of some text of the tree, for every tree |
| `JsonGenerator.GenerateObject` | gearbox/core/JsonGenerator.cc:73-85 | every member is emitted once, after its key, whatever the iteration order |
| `JsonGenerator.GenerateArray` | gearbox/core/JsonGenerator.cc:87-94 | every element is emitted once, in order |
| `JsonGenerator.StreamOfText` | gearbox/core/JsonGenerator.cc:37-94 | reading any text of a double-free tree gives the tree back |
| `JsonGenerator.GenerateThenParse` | gearbox/core/JsonParser.cc:60-109 | generate's events fed to the callbacks rebuild the same tree and leave the cursor above the root, for every double-free tree |
| `SchemaStore.Store.GetAdditionalProperties` | gearbox/core/JsonSchema.cc:481-503 | returns no child iff the schema is closed; otherwise a child whose parent link is the node asked, after lazily adding {"type":"any"} without changing the meaning of any node |
| `SchemaStore.Store.GetKeyChild` | gearbox/core/JsonSchema.cc:553-577 | returns a node that means the key's schema and whose parent is the node asked; every node keeps its meaning |
| `SchemaStore.Store.GetIndexChild` | gearbox/core/JsonSchema.cc:505-551 | the same for an element, through items lists, single items and additional properties |
| `SchemaStore.Store.ValidMinSize` | gearbox/core/JsonSchema.cc:126-154 | minItems and the fixed size of closed tuples; the lookup it makes on the way keeps every meaning |
| `SchemaStore.FillKeepsMeaning` | gearbox/core/JsonSchema.cc:481-503 | writing the any-schema into a node keeps the meaning and the parent links of every node of the arena |
| `SchemaStore.ParentKeepsMeaning` | gearbox/core/JsonSchema.cc:505-577 | relinking a child to the node that returned it keeps the meaning of every node |
| `SchemaStore.MeaningIsUnique` | gearbox/core/JsonSchema.cc:481-577 | two schemas a node stands for accept the same documents with the same result, so lazy filling cannot be observed |
| `SchemaStore.FillingKeepsAcceptance` | gearbox/core/JsonSchema.cc:481-577 | after any sequence of lookups on any nodes every node still stands for its schema, and whatever schema it stands for accepts the same documents with the same resulting tree |
| `SchemaStore.LookupKeeps` | gearbox/core/JsonSchema.cc:126-154 | one lookup of any kind keeps every meaning and every link |
| `SchemaStore.LookupsKeep` | gearbox/core/JsonSchema.cc:481-577 | so does any sequence of lookups |
| `JsonParser.Context.GetObj` | gearbox/core/JsonParser.cc:90-109 | in an array a fresh element is pushed and both cursors step down to it; refused exactly when the size limit or the missing child schema refuses it |
| `JsonParser.Context.PushElement` | gearbox/core/JsonParser.cc:90-109 | the element's node is linked to the open array, its schema node to the array's |
| `JsonParser.Context.SetUp` | gearbox/core/JsonParser.cc:68-88 | both cursors climb through the parent links and land on the container that was open before |
| `JsonParser.Context.ParseScalar` | gearbox/core/JsonParser.cc:111-202 | null, boolean, number and string callbacks: the node store steps exactly as the abstract machine |
| `JsonParser.Context.StoreScalar` | gearbox/core/JsonParser.cc:149-179 | type check, value check, then fix-up, in that order |
| `JsonParser.Context.ParseStartMap` | gearbox/core/JsonParser.cc:204-220 | opens an object under both cursors, as the machine does |
| `JsonParser.Context.ParseStartArray` | gearbox/core/JsonParser.cc:272-289 | opens an array under both cursors, as the machine does |
| `JsonParser.Context.ParseMapKey` | gearbox/core/JsonParser.cc:222-249 | adds the member and steps both cursors down; repeated keys and missing child schemas fail |
| `JsonParser.Context.ParseEndMap` | gearbox/core/JsonParser.cc:251-270 | defaults, requires, then the climb: the machine's close step |
| `JsonParser.Context.FillDefaults` | gearbox/core/JsonSchema.cc:445-463 | defaults are appended to the open object's node as leaves, leaving all other nodes alone |
| `JsonParser.Context.ParseEndArray` | gearbox/core/JsonParser.cc:291-309 | the minimum size check and the climb: the machine's close step |
| `JsonParser.Context.Callback` | gearbox/core/JsonParser.cc:60-309 | every callback on nodes and parent links refines the abstract machine step, Valid() keeps the parent chain equal to the stack of open containers, and, on failure too, every schema node keeps its meaning |
| `JsonParser.Context.Drive` | gearbox/core/JsonParser.cc:27-58 | callbacks run until the first failure; the outcome is the machine's run, and the whole schema store keeps its meaning |
| `JsonParser.ClimbImplements` | gearbox/core/JsonParser.cc:68-73 | storing a finished child and following its parent link gives the machine with one container less |
| `JsonParser.PathUp` | gearbox/core/JsonParser.cc:83-88 | the schema cursor's parent link is the schema node that was current one level up |
| `JsonParser.ParseDocument` | gearbox/core/JsonParser.cc:27-58 | a whole parse over the node store: accepted iff the recursive reading accepts, the root then holds its value, the cursor is back at the root's parent, and every schema node means what it did |
| `JsonParser.ParseAll` | gearbox/job/JobManager.cc:33-51 | a cached schema serves any number of documents: each verdict is that of the schema as it was at first |
| `JobQueue.BuildGraph` | gearbox/job/JobManager.cc:501-527 | edges from each requirement to its dependents; refused only if a requirement is undefined or an agent requires itself |
| `JobQueue.Visit` | gearbox/job/JobManager.cc:529-537 | depth-first search: succeeds with an order of the finished vertices, or a cycle exists |
| `JobQueue.TopologicalSort` | gearbox/job/JobManager.cc:529-537 | every agent once and after all its requirements, or a cycle exists |
| `JobQueue.BackEdge` | gearbox/job/JobManager.cc:529-537 | an edge into the current search path is a cycle of requirements |
| `JobQueue.OrderedIsAcyclic` | gearbox/job/JobManager.cc:529-537 | a configuration that has such an order has no cycle |
| `JobQueue.MaxDist` | gearbox/job/JobManager.cc:544-554 | one more than the largest depth among the requirements, zero without any |
| `JobQueue.Layer` | gearbox/job/JobManager.cc:541-558 | every agent gets a depth one above its deepest requirement and is appended to that group |
| `JobQueue.LocalDepthIsDepth` | gearbox/job/JobManager.cc:541-558 | such a depth is the length of the longest requirement chain |
| `JobQueue.FillQueue` | gearbox/job/JobManager.cc:559-563 | dropping the group keys loses nothing: batch i is the group with key i |
| `JobQueue.JobQueue` | gearbox/job/JobManager.cc:452-564 | rejects exactly the configurations with an undefined or cyclic requirement; otherwise every agent appears once, its batch index is the length of its longest requirement chain, and no batch is empty |
| `AgentRun.ChainLevels` | workers/gearbox/WorkerGearbox.cc:471-525 | the backward loop builds the nested continuation of the levels and one counter for each level that does not have exactly one agent |
| `AgentRun.StepKeeps` | workers/gearbox/WorkerGearbox.cc:471-625 | every step of the run protocol keeps the invariant: counters count the agents not heard of yet, and at most one continuation is alive |
| `AgentRun.OneMoreCounted` | workers/gearbox/WorkerGearbox.cc:570-625 | a success message makes the counter one less, never below zero, and it reaches zero exactly when the whole level has succeeded |
| `AgentRun.DecrementPassesOn` | workers/gearbox/WorkerGearbox.cc:543-625 | one decrement: the event goes on at once after a failure, without a counter and when the counter was 1 or less; otherwise only the counter goes down by one |
| `AgentRun.RunIsSafe` | workers/gearbox/WorkerGearbox.cc:471-625 | over every interleaving: an agent is queued at most once, only after all agents of all earlier levels completed with code 0, and the run succeeds only if every agent did |
| `AgentRun.QuietRunIsDecided` | workers/gearbox/WorkerGearbox.cc:471-625 | in every run, with nothing queued or waiting there is an overall code iff some agent failed or every agent of every level started has ended, and it is 0 iff every agent completed with code 0; runs that lose no agent never get stuck |
| `AgentRun.OverallIsAFailure` | workers/gearbox/WorkerGearbox.cc:471-541 | in every run an overall code other than 0 is the code of an agent that failed if throw_from_code knows it, and 500 otherwise; once there, the code stays |
| `AgentRun.ErrorCodes` | gearbox/core/Errors.cc:72-114 | the codes throw_from_code keeps: 300-305, 307, 400-417, 422-424, 426, 500-507 and 510; every other one becomes 500 |
| `AgentRun.LostAgentSticks` | gearbox/worker/Worker.cc:333-340 | a run that gets stuck without an overall code because its only agent is lost from the afterwards queue |
| `AgentRun.LayeredIsDistinct` | gearbox/job/JobManager.cc:541-563 | the levels job_queue returns never repeat an agent |
| `AgentRun.ChainLowersDepth` | gearbox/job/JobManager.cc:541-558 | following requirements leads to strictly earlier levels |
| `AgentRun.RequirementsSucceedFirst` | workers/gearbox/WorkerGearbox.cc:526-625 | with the layering: no agent is queued before everything it transitively requires has completed with code 0 |
| `StatusRow.PhaseNeverDrops` | gearbox/job/Status.cc:248-289 | every valid transition that avoids UNKNOWN keeps the order PENDING < RUNNING < STOPPING < STOPPED < COMPLETED, CANCELLING < CANCELLED |
| `StatusRow.TransitionsAre` | gearbox/job/Status.cc:248-289 | the eleven changes between different known states, listed, and no other |
| `StatusRow.PhaseOrder` | gearbox/job/Status.cc:248-289 | the phase order itself: PENDING, RUNNING, STOPPING, STOPPED, then COMPLETED and CANCELLING together, then CANCELLED, each strictly after the one before |
| `StatusRow.CheckpointStops` | gearbox/job/Status.cc:184-202 | checkpoint() throws iff the row says STOPPING, STOPPED, CANCELLING or CANCELLED, whatever the copy shows; STOPPING and STOPPED end as STOPPED with code 410 at 100, and every other row stays |
| `StatusRow.EndEnds` | plugins/status/sql/SQLStatusImpl.cc:161-228 | a status that has not ended becomes COMPLETED with 100 and the given code |
| `StatusRow.EndIsTooLate` | plugins/status/sql/SQLStatusImpl.cc:161-228 | a status that has ended keeps its code, and STOPPED and CANCELLED refuse |
| `StatusRow.CancelCancels` | plugins/status/sql/SQLStatusImpl.cc:236-242 | PENDING is cancelled with code 409, CANCELLING with its own code; RUNNING, STOPPING, STOPPED and COMPLETED refuse |
| `StatusRow.ProgressReports` | plugins/status/sql/SQLStatusImpl.cc:555-571 | a report leaves the larger of the two progress values in the row |
| `StatusRow.StateIsSet` | plugins/status/sql/SQLStatusImpl.cc:610-655 | the state is written iff the copy and the row both allow it, and nothing else changes |
| `StatusRow.CallsMove` | gearbox/job/Status.cc:248-289 | which state each state-changing call writes, and that none moves a CANCELLED row |
| `StatusRow.Status.ReallyLoad` | plugins/status/sql/SQLStatusImpl.cc:112-159 | loads the row into the cached copy once, through the cached state check |
| `StatusRow.Status.DoSync` | plugins/status/sql/SQLStatusImpl.cc:677-686 | after a sync the copy shows the row |
| `StatusRow.SyncShowsRow` | plugins/status/sql/SQLStatusImpl.cc:677-686 | the cached state, progress and code equal the row's after a sync |
| `StatusRow.Status.SetState` | plugins/status/sql/SQLStatusImpl.cc:610-655 | checked on the copy, then checked again under the lock; returns false when the copy refuses |
| `StatusRow.Status.End` | plugins/status/sql/SQLStatusImpl.cc:161-228 | the final code and progress 100 are written only if the row still allows the transition |
| `StatusRow.Status.Cancel` | plugins/status/sql/SQLStatusImpl.cc:236-242 | end with the copy's own code: an already loaded copy may write a stale one |
| `StatusRow.Status.SetProgress` | plugins/status/sql/SQLStatusImpl.cc:555-571 | the row's progress only grows |
| `StatusRow.Status.Checkpoint` | gearbox/job/Status.cc:184-202 | false, with STOPPED and code 410 written if possible, exactly when the synced state is STOPPING or beyond |
| `StatusRow.EventKeeps` | plugins/status/sql/SQLStatusImpl.cc:161-228 | with stale copies and only the locked part atomic, each event is a valid row transition that lowers neither phase nor progress |
| `StatusRow.RowStepsAreValid` | plugins/status/sql/SQLStatusImpl.cc:610-655 | in every run of any number of workers, successive row states are valid transitions |
| `StatusRow.RowIsSafe` | plugins/status/sql/SQLStatusImpl.cc:555-655 | over any stretch of any run the phase never goes down, CANCELLED is permanent and progress never decreases |
| `StatusRow.AnyEventIsValid` | plugins/status/sql/SQLStatusImpl.cc:161-228 | one event of any kind is a valid transition, and progress drops iff end() writes a copy that shows less than the row |
| `StatusRow.RowStepsAreAlwaysValid` | plugins/status/sql/SQLStatusImpl.cc:555-655 | in every run, UNKNOWN included, with reports of at most 100, every step of the row is a valid transition and progress never decreases |
| `StatusRow.PhaseDropsIff` | gearbox/job/Status.cc:248-289 | whatever is asked for through whatever copy, a step lowers the phase of the row iff it writes UNKNOWN over a known state |
| `StatusRow.PhaseKeptIff` | plugins/status/sql/SQLStatusImpl.cc:610-655 | over every series of events, UNKNOWN included, the phase never goes down iff UNKNOWN is never written over a known state |
| `StatusRow.UnknownResetsTheRow` | gearbox/job/Status.cc:248-289 | why nobody may write UNKNOWN: it is accepted from every state and leads to every state |
| `StatusRow.CallKeeps` | plugins/status/sql/SQLStatusImpl.cc:161-246 | every call but an ending report keeps: progress 100 exactly in a final state, and then the code is set and is not changed again |
| `StatusRow.KeptIffHarmless` | gearbox/job/Status.cc:65-73 | a call keeps progress 100 for the final states if and only if it is not a report of 100 or more that is new to both the copy and the row |
| `StatusRow.FinalOkIffNoEndingReport` | plugins/status/sql/SQLStatusImpl.cc:555-571 | over every run with any reports: final states and only they have progress 100 and a code, throughout, iff no report of 100 or more is the first to write it |
| `StatusRow.CopiesLagBehind` | plugins/status/sql/SQLStatusImpl.cc:161-228 | after any call no copy, its own or another, shows more progress than the row |
| `StatusRow.CancelledIsForever` | gearbox/job/Status.cc:248-289 | no call leaves CANCELLED, and only cancel() enters it |
| `StatusRow.OnlySuccessWritesZero` | plugins/status/sql/SQLStatusImpl.cc:230-246 | a code 0 that was not there comes from success(), from a failure with code 0, or from cancel() through a loaded copy that carries a 0 |
| `StatusRow.FirstFinalCodeWins` | plugins/status/sql/SQLStatusImpl.cc:161-246 | in every run progress is 100 iff the state is STOPPED, COMPLETED, CANCELLING or CANCELLED; the code is then not -1 and no later call changes it |
| `StatusRow.ReportingHundredLosesTheCode` | plugins/status/sql/SQLStatusImpl.cc:555-571 | a run of a new status in which the handler reports 100 and then fails: COMPLETED with code -1 |
| `Cancellation.ScanWatch` | workers/gearbox/WorkerGearbox.cc:202-260 | the watch loop: all done iff every entry has progress 100 and code 0; a failure at the first entry that has not, with progress 100 and another code; otherwise queued again from the first entry below 100, which with final states at 100 has not ended |
| `Cancellation.ScanIsSteps` | workers/gearbox/WorkerGearbox.cc:208-232 | a scan that leaves a rest is a series of single watch steps of the transition system |
| `Cancellation.WatchAgain` | workers/gearbox/WorkerGearbox.cc:202-260 | the handler moves its job, along steps of the system, to watching exactly what the scan left |
| `Cancellation.StepKeeps` | workers/gearbox/WorkerGearbox.cc:202-425 | every step of any cancellation job and of any other worker keeps the tree invariant |
| `Cancellation.WatchKeeps` | workers/gearbox/WorkerGearbox.cc:202-260 | a watched job that succeeded has cancelled its child |
| `Cancellation.RecordKeeps` | workers/gearbox/WorkerGearbox.cc:281-308 | the one call that enters CANCELLED leaves a record whose children are all CANCELLED |
| `Cancellation.CancelledTreeIsCancelled` | workers/gearbox/WorkerGearbox.cc:262-322 | in every reachable state a CANCELLED status was cancelled by a job that, after its step to state CANCELLING, read its list of children, a prefix of the present one; each child read is CANCELLED; an on-cancel job ran iff one is registered, and ended with progress 100 and code 0 |
| `Cancellation.KidsWereRead` | workers/gearbox/WorkerGearbox.cc:281-296 | the list a cancellation job works on is the list of its target's children at an earlier step of the run, taken after it entered CANCELLING |
| `Cancellation.EntersCancelling` | workers/gearbox/WorkerGearbox.cc:262-280 | a job that gets past the entry has left its target in CANCELLING |
| `Cancellation.RecordWasRead` | workers/gearbox/WorkerGearbox.cc:254-258 | so is the list recorded for every CANCELLED status |
| `Cancellation.WholeTreeIsCancelled` | workers/gearbox/WorkerGearbox.cc:202-425 | hence CANCELLED all the way down every path of children read |
| `Cancellation.WatchListIsSuffix` | workers/gearbox/WorkerGearbox.cc:202-260 | what a job still watches is always a suffix of what it posted; what it dropped belongs to CANCELLED children |
| `DelayDaemon.RunDelayedJobs` | workers/gearbox/DelayProcessor.cc:81-127 | a row is left iff it was not due or its job returned 300 or more; times are unchanged |
| `DelayDaemon.NoLostWakeup` | workers/gearbox/DelayProcessor.cc:129-181 | in every run whose pokes arrive, whenever the daemon is blocked each row's time is at or after the deadline, or a poke is pending, or its writer has yet to poke |
| `DelayDaemon.CoveredIffNoLastCoverFails` | workers/gearbox/WorkerGearbox.cc:61-100 | over every run, failed pokes included: no sleeping daemon ever misses a row iff no poke fails that is the last cover of a row |
| `DelayDaemon.PickedUpIff` | workers/gearbox/DelayProcessor.cc:129-181 | a blocked daemon, whatever pokes have failed, can still fetch a row iff it has a deadline, a poke is pending or a writer has yet to poke |
| `DelayDaemon.NothingIsMissed` | workers/gearbox/DelayProcessor.cc:129-181 | in every run without new writes a sleeping daemon wakes or sleeps the same sleep: its deadline stays and no poke, pending or to come, is lost |
| `DelayDaemon.WakesInTime` | workers/gearbox/DelayProcessor.cc:129-181 | in every such run the daemon has woken, or it can wake as soon as its deadline has passed or the writers have poked |
| `DelayDaemon.FetchesDueRow` | workers/gearbox/DelayProcessor.cc:81-98 | at the top of its loop the daemon can fetch all rows whose time has come, in the order of their times |
| `DelayDaemon.SleepsForEver` | workers/gearbox/DelayProcessor.cc:142-146 | without a deadline and without pokes the daemon never wakes, whatever is inserted or updated |
| `DelayDaemon.DueRowWakesDaemon` | workers/gearbox/WorkerGearbox.cc:61-139 | with all writers done, a due row finds the daemon with a pending poke or an expired deadline |
| `DelayDaemon.RowsAreNotLost` | workers/gearbox/DelayProcessor.cc:117-126 | every row ever inserted is in the table, or an earlier step of the run ran it and got a code below 300; so did every row about to be deleted |
| `DelayDaemon.RanWasRun` | workers/gearbox/DelayProcessor.cc:99-116 | every code in the history was returned by the run of that row at an earlier step |
| `DelayDaemon.RefusedRowStays` | workers/gearbox/DelayProcessor.cc:117-126 | a run that returns 300 or more leaves the table as it is and the daemon goes on to the next row |
| `DelayDaemon.RunsInOrder` | workers/gearbox/DelayProcessor.cc:81-98 | in every run the rows still to be run are in the order of the times they were fetched with |
| `DelayDaemon.SleepsOnlyWhenNothingIsDue` | workers/gearbox/DelayProcessor.cc:129-181 | if the table is still as selected when the daemon blocks, the time of every row is still to come |
| `DelayDaemon.PokesAreUsedOnce` | workers/gearbox/DelayProcessor.cc:129-181 | over any series of steps pokes pending at first plus pokes that arrived equal wake-ups plus pokes pending |
| `DelayDaemon.NothingRunsEarly` | workers/gearbox/DelayProcessor.cc:81-127 | a row is run before its time if and only if it is still in the table and the last that happened to its time since it was fetched is an update to a time that has not come |
| `DelayDaemon.FetchedRowsStayDue` | workers/gearbox/WorkerGearbox.cc:413-423 | no fetched row ever has its time in the future iff no worker postpones a row that is already fetched |
| `DelayDaemon.NoPostponementNoEarlyRun` | workers/gearbox/DelayProcessor.cc:81-127 | hence nothing runs early in runs without such a postponement |
| `DelayDaemon.LoopIsSteps` | workers/gearbox/DelayProcessor.cc:81-127 | the loop over due rows is a series of run and delete steps of the transition system that leaves the same table |
| `DelayDaemon.PostponedRowStillRuns` | workers/gearbox/WorkerGearbox.cc:413-423 | a run in which a row due at 5 is fetched, postponed to 100 and run at 10 |
| `DelayDaemon.FailedPokeLosesTheRow` | workers/gearbox/WorkerGearbox.cc:93-98 | a run from the start in which a poke fails and the daemon sleeps without a deadline over a due row |
| `WorkerRun.Worker.PostRequest` | gearbox/worker/Worker.cc:481-496 | entries are popped and run in order up to the first whose job throws; what is behind it stays in the queue |
| `WorkerRun.Worker.Finalise` | gearbox/worker/Worker.cc:280-318 | the status is ended unless the copy in the response, which may be stale, shows progress 100; events are fired by what the copy shows, none when ending it throws |
| `WorkerRun.Worker.RunJob` | gearbox/worker/Worker.cc:109-378 | for every way a call can return or throw, with any leftovers in the queue and any of its jobs throwing: the effects in order, the final row and copy, and what stays in the queue |
| `WorkerRun.EveryStartStops` | gearbox/worker/Worker.cc:139-340 | a call with a status starts and stops it once each, starting first; others do neither |
| `WorkerRun.CompletedFiresIff` | gearbox/worker/Worker.cc:280-318 | COMPLETED fires at most once, and exactly when the call is the last one and either the copy is at 100 and shows COMPLETED or STOPPED, or it is not and the row can still go to COMPLETED |
| `WorkerRun.LastCallEndsStatus` | gearbox/worker/Worker.cc:280-297 | after the last call the status is final, with the code of the call if nobody ended it before and with its old code otherwise |
| `WorkerRun.StaleCopyLosesCompleted` | gearbox/worker/Worker.cc:287-317 | with a copy that does not know that the status has ended, COMPLETED is lost if and only if it was ended as STOPPED or CANCELLED |
| `WorkerRun.EventsTellTheOutcome` | gearbox/worker/Worker.cc:298-312 | the last call of a status nobody has ended fires COMPLETED, SUCCEEDED iff the code is below 300 and FAILED iff it is not |
| `WorkerRun.ThrowingCallFails` | gearbox/worker/Worker.cc:221-318 | a handler that throws, on a status nobody has ended: COMPLETED at 100 with 400 for a JsonError, 500 for a database or other error, 410 for WorkerStop, or the error's own code from 300 on; FAILED fires, SUCCEEDED does not, and nothing runs from the afterwards queue |
| `WorkerRun.ReturningCallEnds` | gearbox/worker/Worker.cc:195-318 | a handler that returns, on a status nobody has ended: WORKER_ERROR ends with 500, a code from 300 on with that code, a code below with 0; with WORKER_CONTINUE and WORKER_RETRY the row stays and no outcome is fired |
| `WorkerRun.CancelledFiresIff` | gearbox/worker/Worker.cc:298-312 | CANCELLED fires iff it is the last call of a status whose copy shows it ended as CANCELLED |
| `WorkerRun.OtherEffects` | gearbox/worker/Worker.cc:139-340 | exactly which calls fire STARTED and STOPPED, start the status, delay the job and retry it |
| `WorkerRun.ThrowingCallClears` | gearbox/worker/Worker.cc:327-340 | a call that throws, with a code from 300 on, leaves nothing in the queue |
| `WorkerRun.AfterwardsOnlyOnSuccess` | gearbox/worker/Worker.cc:327-340 | an entry runs in a call iff the call did not fail, the entry is among the leftovers or the entries it pushed, and nothing at or before it throws |
| `WorkerRun.QueueEmptyIff` | gearbox/worker/Worker.cc:327-340 | the queue is empty after a call iff the call failed, there was nothing to run, or no entry but the last one threw |
| `WorkerRun.QueueIsConserved` | gearbox/worker/Worker.cc:481-518 | over any series of calls of one worker every pushed entry is tried once, in order, or still queued, if and only if no failed call finds anything in the queue |
| `WorkerRun.TriedAtMostOnce` | gearbox/worker/Worker.cc:481-518 | no series of calls tries more entries than were pushed |
| `WorkerRun.LeftoverIsDropped` | gearbox/worker/Worker.cc:327-340 | an entry accepted by a successful call is lost when the one before it throws and the next call fails |
| `WorkerRun.PrefixBalance` | gearbox/worker/Worker.cc:139-340 | nowhere inside a call is stopping() ahead of starting() |
| `WorkerRun.ConcurrencyIsInFlight` | plugins/status/sql/SQLStatusImpl.cc:764-798 | over every interleaving of calls with any outcomes the row's concurrency is the number of calls between starting and stopping, never negative, and zero when all calls are over |
| `JobEnvelope.EventOfName` | gearbox/job/Job.cc:223-246 | str2event undoes event2str |
| `JobEnvelope.NameReadsBack` | gearbox/job/JobImpl.cc:10-43 | do_<op>_<component>_<resource>_<version> is read back field by field |
| `JobEnvelope.ToJson` | gearbox/job/JobImpl.cc:332-416 | to_json writes exactly the members of the specification Envelope, handlers at any depth included; the lemmas from EnvelopeNames to EnvelopeHasNothingElse say which these are |
| `JobEnvelope.EnvelopeNames` | gearbox/job/JobImpl.cc:332-363 | by their names in the text: version, job_type, operation and component always, base_uri, parent_uri, status and content iff not empty, each with the job's own value |
| `JobEnvelope.EnvelopeHashes` | gearbox/job/JobImpl.cc:364-396 | headers, environ, query_params and matrix_arguments hold the job's own hashes, arguments its list in order |
| `JobEnvelope.EnvelopeObjects` | gearbox/job/JobImpl.cc:342-351 | resource has type, and name iff not empty; remote has ip and user iff not empty, and is there iff one is |
| `JobEnvelope.EnvelopeHandlers` | gearbox/job/JobImpl.cc:398-407 | on is there iff the job has handlers, with one member for each by its event's name: name and envelope |
| `JobEnvelope.EnvelopeHasNothingElse` | gearbox/job/JobImpl.cc:332-416 | no other member is written |
| `JobEnvelope.HandlersToJson` | gearbox/job/JobImpl.cc:398-407 | each handler is serialized and its text parsed into the envelope: nothing is lost on the way |
| `JobEnvelope.Serialize` | gearbox/job/Job.cc:263-267 | the emitted events are those of a text of the envelope |
| `JobEnvelope.HashToJson` | gearbox/job/JobImpl.cc:369-396 | the loops over headers, environ, query and matrix arguments |
| `JobEnvelope.ArgumentsToJson` | gearbox/job/JobImpl.cc:364-367 | positional arguments in order |
| `JobEnvelope.EnvelopeIsDoubleFree` | gearbox/job/JobImpl.cc:332-416 | an envelope of any depth survives being printed and parsed |
| `JobEnvelope.JobManager.ReadJob` | gearbox/job/JobManager.cc:247-367 | decodes as the specification and leaves the specified base_uri in the manager, on success and on failure |
| `JobEnvelope.DecodedFields` | gearbox/job/JobManager.cc:285-359 | for any envelope: version, component, base_uri, parent_uri, status, content, the four hashes and the arguments of the decoded job are the members of those names or the defaults; the parent header goes to parent_uri and not to headers |
| `JobEnvelope.DecodedNames` | gearbox/job/JobManager.cc:247-307 | for any envelope: job type, operation with put and post renamed, resource type and name, and the schema that must exist when one is required |
| `JobEnvelope.HandlersComeFrom` | gearbox/job/JobManager.cc:273-284 | every handler of a decoded job is what the name and envelope under a member of on decode to |
| `JobEnvelope.DecodesIff` | gearbox/job/JobManager.cc:247-367 | an envelope is decoded iff the name is valid, every member present has its type, the handlers are decoded and a required schema is found |
| `JobEnvelope.NamesHaveVersions` | gearbox/job/JobImpl.cc:10-43 | a name that is no URI is accepted only if a v and a digit follow its last underscore |
| `JobEnvelope.JobManager.ReadHandlers` | gearbox/job/JobManager.cc:273-284 | handlers are decoded in key order by the same manager |
| `JobEnvelope.ReadTexts` | gearbox/job/JobManager.cc:314-351 | an object of strings is copied; anything else is refused |
| `JobEnvelope.ReadArguments` | gearbox/job/JobManager.cc:353-359 | an array of strings is copied; anything else is refused |
| `JobEnvelope.JobIgnoresBase` | gearbox/job/JobManager.cc:247-367 | the decoded job does not depend on the manager's base_uri |
| `JobEnvelope.OnDecodes` | gearbox/job/JobManager.cc:273-284 | the handlers arrive iff each would arrive on its own, and then each as it would |
| `JobEnvelope.FinishEnvelope` | gearbox/job/JobManager.cc:285-367 | exactly what any job, sendable or not, turns into: every field that can change and how |
| `JobEnvelope.EnvelopeRoundTrip` | gearbox/job/JobImpl.cc:332-416 | decoding an encoded job gives back every portable field and all handlers at every depth if and only if, at every depth, the name is valid, the type is sync or async, base_uri is not empty, the operation is not put or post, there is no y-status-parent-uri header, and a required schema exists |
| `JobEnvelope.OutermostBaseWins` | gearbox/job/JobManager.cc:269-302 | a job with a base_uri whose handlers can all be decoded leaves its own base_uri in the manager, whatever they carry |
| `JobEnvelope.DecodedBase` | gearbox/job/JobManager.cc:247-367 | for every job with any handlers at any depth: decoding succeeds iff nothing throws, and success or not it leaves the last base_uri written, by recursion over the job |
| `JobEnvelope.TaintedIff` | gearbox/job/JobManager.cc:269-302 | for one manager, whether the handlers change the base_uri that is left: all land and the job has none of its own, or one throws and theirs is not what the job would have written |
| `JobEnvelope.UntaintedIff` | gearbox/job/JobManager.cc:269-302 | the handlers have no effect on any manager's base_uri if and only if they all land and the job has its own or they write none, or one throws and the last one written equals the job's own |
| `JobEnvelope.FailedHandlerTaints` | gearbox/job/JobManager.cc:273-284 | a job with its own base_uri, a good handler and a later handler with an invalid name: the exception leaves the first handler's base_uri in the manager |
| `JobEnvelope.Forward` | gearbox/job/JobManager.cc:238-245 | encoder and decoder put together on real objects: the same equivalence and the same base_uri |
| `ShellQuote.ReplaceQuotes` | gearbox/core/util.cc:165-187 | the loop over single quotes replaces each by the five-character sequence |
| `ShellQuote.ShellquoteList` | gearbox/core/util.cc:153-200 | naked or quoted words, one space apart |
| `ShellQuote.LeftAlone` | gearbox/core/util.cc:115-200 | a word is left as it is iff it is not empty and made of letters, digits and + , - . / = _ alone; any other is put in quotes |
| `ShellQuote.QuotingRoundTrip` | gearbox/core/util.cc:115-200 | for every list of words, a shell following section 2.2 of the POSIX.1-2017 Shell Command Language reads back exactly that list, and everything it meets unquoted is neutral, a space or a quote |
| `Text.AtoiShow` | gearbox/core/Uri.cc:385-393 | atoi reads back every port that was printed |
| `Text.AtoiSkipsBlank` | gearbox/core/Uri.cc:385-393 | blanks and a plus sign before a number make no difference |
| `Text.AtoiStops` | gearbox/core/Uri.cc:385-393 | nor does anything after its digits |
| `Uris.Uri.ReadAuthority` | gearbox/core/Uri.cc:428-455 | user, password, host and port as the specification ParseAuthority; refused iff empty |
| `Uris.Uri.ReadTail` | gearbox/core/Uri.cc:484-499 | fragment at the first '#', then query at the first '?', then path |
| `Uris.Uri.ReadUri` | gearbox/core/Uri.cc:457-500 | parse_uristr computes the specification Parse, errors included |
| `Uris.Uri.Str` | gearbox/core/Uri.cc:370-412 | str() computes the specification Print, or throws exactly when the scheme is unknown |
| `Uris.DefaultPorts` | gearbox/core/Uri.cc:457-500 | a host without a port gets 80 under http and 443 under https |
| `Uris.ElidedPorts` | gearbox/core/Uri.cc:370-412 | the port is left out iff it is 80 under http or 443 under https |
| `Uris.LowerCase` | gearbox/core/Uri.cc:428-500 | a text is its own lower case iff it has no letter from A to Z |
| `Uris.ParsedIsClean` | gearbox/core/Uri.cc:428-500 | whatever a parse yields has lower-case hosts, a non-zero port and no delimiter inside a field |
| `Uris.UriRoundTrip` | gearbox/core/Uri.cc:370-500 | parsing a printed Uri gives the same Uri if and only if it is printable: a condition field by field, for http, https and file, default ports elided or not |
| `Uris.QueryWithoutSlashIsPath` | gearbox/core/Uri.cc:472-493 | a query without further delimiters right after the authority is taken for the path |
| `Uris.FragmentWithoutSlashIsPath` | gearbox/core/Uri.cc:472-493 | and so is a fragment |
| `Uris.TailFollowsRfc` | gearbox/core/Uri.cc:472-499 | after any authority, path, query and fragment are read as section 3 of RFC 3986 has them if and only if a path follows, or nothing, or an empty query or fragment alone, or an empty query before a fragment |
| `Uris.RfcPartsExist` | gearbox/core/Uri.cc:472-499 | whatever may follow an authority has parts by that syntax, so the condition covers every text |
| `PathCanonical.EraseParts` | gearbox/core/Uri.cc:233-248 | the in-place erase loop equals the stack fold |
| `PathCanonical.CanonicalizePath` | gearbox/core/Uri.cc:225-259 | the result is the rendered fold, with a final slash iff the input had one or was empty |
| `PathCanonical.OneMoreSegment` | gearbox/core/Uri.cc:233-248 | one more segment: empty and . change nothing, .. takes exactly the last kept segment away, any other is appended |
| `PathCanonical.OneSegment` | gearbox/core/Uri.cc:233-248 | a path without a slash keeps its one segment unless that is empty, . or .. |
| `PathCanonical.FinalSlash` | gearbox/core/Uri.cc:255-258 | the result ends in a slash iff the input is empty or ended in one |
| `PathCanonical.CanonicalSegments` | gearbox/core/Uri.cc:233-254 | no segment of the result is "." or "..", and none is empty but the first and a final one: no doubled slash |
| `PathCanonical.SplitCanonical` | gearbox/core/Uri.cc:225-259 | splitting the result gives back exactly the kept segments |
| `PathCanonical.FixedPoint` | gearbox/core/Uri.cc:225-259 | canonicalising again changes nothing iff the result is not empty; it is empty iff the input is not empty, does not end in a slash and every segment is dropped or popped |
| `PathCanonical.ParentOfOneSegmentIsEmpty` | gearbox/core/Uri.cc:225-259 | "a/.." gives the empty string, whose canonical form is "/" |
| `Base32.EncodeB32c` | gearbox/core/util.cc:204-226 | appends the digits, least significant first, and reverses the whole string |
| `Base32.DecodeB32c` | gearbox/core/util.cc:228-258 | illegal characters are refused; otherwise the value modulo 2^64, by arithmetic that wraps at every step |
| `Base32.EncodeThenDecode` | gearbox/core/util.cc:204-258 | decode(encode(n)) = n for every uint64 |
| `Base32.DecodeThenEncode` | gearbox/core/util.cc:204-258 | encode(decode(s)) = s if and only if the legal text s has no leading zero and its value fits 64 bits |
| `Base32.UuidB32c` | gearbox/core/util.cc:260-279 | the second call reverses the first again: the code of the second half followed by the reversed code of the first |
| `Base32.UuidHalves` | gearbox/core/util.cc:260-279 | the text has 26 characters iff both halves are at least 2^60, and then both can be decoded from it |
| `Base32.AmbiguousIff` | gearbox/core/util.cc:260-279 | another pair of halves gives the same text if and only if the text can be cut into two codes at another place |
| `Base32.SmallHalvesCollide` | gearbox/core/util.cc:260-279 | two different small uuids with one text |

## Left out

- Schemas whose keywords have the wrong JSON type: a schema node is a typed record, so the errors raised while reading such keywords are not modelled.
- JsonTree.ValidateJson: Json::validate updates nodes in place; here it returns the new tree, so aliasing between nodes is not captured. The in-place update is modelled for the parser.
- JsonParser.Context.FillDefaults: a default is attached as one leaf holding the whole value, without nodes for its parts, and typeFixup's write-back into the schema's own default is not kept.
- JsonGenerator.GenerateThenParse: covers double-free trees; the text printed for a double depends on %.15g, which is a parameter.
- Doubles are reals (no rounding, no NaN); formats, patterns and decimal counts are parameters; text-level JSON lexing is yajl's.
- Error handlers of Json that do not throw.
- JobQueue.JobQueue: agents are named by their configuration keys, and the search visits vertices in an arbitrary order; the two error texts for undefined and self-requiring agents are one.
- job_queue_run, its timeouts and the transport of REST agents; the agents of a run are gearman agents with one COMPLETED event each.
- AgentRun.RunIsSafe: the counter section is atomic, and the progress updates between levels are left out. The counter's own continuation is run without throwing (gearbox/worker/Worker.cc:314-317), and a retry after the counter was written (workers/gearbox/WorkerGearbox.cc:615-623) does not occur.
- StatusRow.FirstFinalCodeWins: one status operation is one step here; the interleaving between the check and the lock of end() is covered by StatusRow.RowIsSafe only.
- Cancellation.StepKeeps: which statuses have an on-cancel job is fixed over a run; each status operation is one step.
- DelayDaemon.NoLostWakeup: reading the clock and entering select() is one step.
- WorkerRun.Worker.RunJob: event handlers and logging do not throw; database commit and rollback are left out, and so is a handler that replaces the status in its response.
- JobEnvelope.EnvelopeRoundTrip: remote ip, remote user, timeout and event_status are not part of it; the first three are never decoded, the last is a reference to another status. The job-envelope schema is not applied before decoding.
- JobEnvelope.JobManager.ReadHandlers: reading a missing handler envelope adds a null member to the Json object in the source; the model reads null and leaves the object alone.
- Uris.Uri.ReadUri: ports are unbounded integers, while atoi overflows beyond int.
- ShellQuote.QuotingRoundTrip: words are characters; a NUL byte cannot be passed to a shell.
- The database, gearman, libcurl, zlib, configuration files, plugins and the meta cache of statuses.
- JobManager::retry and its floating-point delay formula.
