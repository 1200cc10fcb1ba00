# mmt-security: a verified model

mmt-security watches a stream of messages for security rules. A rule is a tree of events joined by THEN, AND, OR, NOT and
BEFORE, with a time window on every operator. The tree is compiled into a finite state machine; an engine runs many
instances of that machine, cloning one whenever a message could start a match, and gives a verdict when an instance
reaches a final state. Several worker threads can share the rules, each fed through a lock-free ring.

This project models that system in Dafny and proves what it is meant to guarantee. The parts, from the rule to the threads:

- **Compiler.** `Rules`, `Compiler` (the state graph as a function), `Builder` (the same builders as methods that append to
  a graph in place), `CompilerWellFormed` (roles, timeouts and a rank for every rule), `CompilerWords` (what every rule
  means, and that its table has exactly this meaning), `ThenChain` (what a THEN rule compiles to, transition by transition).
- **Runtime.** `Messages` (traces and reference counts), `Fsm` (one move of an instance), `ChainSteps` (what a move is for a
  THEN rule), `RuleMeaning` (when an accepted sequence of messages satisfies the rule), `Instance` (instances updated in
  place), `TemporaryStates` (their dead timeouts), `SinglePacket` (the short cut for rules about one packet).
- **Engine.** `Engine` (lists by event and by family, on an explicit heap), `EngineInvariant`, `EngineMoves`, `EngineStep`,
  `EngineVerdict`, `EngineOrigins`, `EngineRefs`, `EngineRun` (the invariant and whole runs), `EngineComplete` (nothing is
  missed), `EngineHerd` (a simple picture of the engine of a two-event rule, for runs that go wrong), `EngineHalts` (when the
  engine halts), `EngineIdentifiers` (when families share an identifier), `EngineRivals` (two matches at once), `RuleEngine`
  (the engine as an object).
- **Threads.** `Dispatch` (dispatcher and workers as interleaved steps), `SpscRing` (the ring as an object), `Release`
  (reference counts under interleaving), `Handling` (one handler, its rules and the flows it ignores), `Sharing` (one rule
  hides messages from another), `Pipeline` (threads, handlers and engines together), `Modular` (wrapped indices).
- **Rules at run time.** `RuleChanges`, `RuleHandler`, `Partition`.
- **Indexes and expressions.** `Probing`, `FlowSet`, `FlowSetObjects`, `HashTable`, `ByteTrie`, `MessageArena`,
  `Expressions`, `SourceText` (the original's own spelling), `ExpressionParser`.

Verify everything with `dafny verify dfyconfig.toml`.

## Reading the model

- Guards are an arbitrary function of the event, the message and the trace so far, so every theorem holds for every
  interpretation of the guards.
- 64-bit attribute masks are sets of attribute numbers. Event 0, the timeout, has no attributes, as the generated code has it
  (src/lib/gen_code.c:898), so its list is visited by every message.
- Deadlines are added modulo 2^64. Family identifiers are truncated to 16 bits where the code stores them in a `uint16_t`.
- `mmt_halt` and failed assertions end a run (`Halted`, `Stopped`, `None`), they are not excluded by preconditions.
- A rule whose root is COMPUTE is a THEN rule whose second event is always true (src/lib/rule.c:430-448).
- The theorems about whole runs of the engine are for THEN rules without zero delays, with distinct events, message counters
  that increase from above 0, deadlines below 2^64, and at most 2^16 instance places or fewer than 2^16 messages. Reference
  counts are conserved for every rule and every run.
- A handler is described by what each of its engines has got so far and by the flows that verdicts have added to its set of
  ignored flows; the set itself is `FlowSet`.

## What the proofs found

- Satisfying a rule is not enough to be accepted. A window opened by an enclosing context stays in force until an operator
  resets the timer, so a message may come in time for its own operator and still be late (`RuleMeaning.AcceptedIff` says
  exactly when, `RuleMeaning.HoldsButNotAccepted` is an example; src/lib/mmt_fsm.c:141-161).
- The sweep over the timeout list "for each 10 messages" never runs, because its condition is reversed
  (src/lib/rule_verif_engine.c:481-485); only a counter of 2^64 - 10 or a timestamp of 2^64 - 100000 makes it due
  (`EngineRun.SweepNeverRuns`). Nothing is lost: the timeout list is also the list of event 0, so deadlines are kept
  (`EngineRun.RunInTime`) and the sweep would find nothing to do (`EngineRun.SweepAddsNothing`).
- A temporary state never fires its timeout transition, although a comment says that it should
  (src/lib/mmt_fsm.c:127-139, 203-224): no run of any machine depends on where it leads (`TemporaryStates.HandleSame`). The
  single-packet short cut does fire it.
- The short cut takes slot 1 for its first event, whatever its number (src/lib/mmt_fsm.c:306). With the events numbered 2 and
  1, an attack rule can detect every message on the general route and none on the short cut (`SinglePacket.BackwardsMissed`).
  `SinglePacket.SinglePacketRefines` says for every THEN rule that takes the short cut when the two agree.
- A new family gets the first free place from the remembered one on, and places before that are not looked at
  (src/lib/rule_verif_engine.c:265-278), so the process can halt with places free: `EngineHalts.HaltsWithFreePlace` is such a
  run, and `EngineHalts.MessageHaltsIff` says which message halts. No run of at most n messages with `size` places halts if
  and only if n < size or size > 65536 (`EngineHalts.NeverHaltsIff`).
- With more than 65536 instance places, and the default is 100000, message number 65536 of a run can start a family under the
  bootstrap's identifier, and the next one under the same (`EngineIdentifiers.CrowdShares`). With at most 65536 places, or
  fewer than 65536 messages, each family has an identifier of its own, so the bound is exact
  (`EngineIdentifiers.OwnFamiliesIff`). A verdict on a family with the bootstrap's identifier removes the bootstrap, too, and
  from then on the rule sees nothing (`EngineIdentifiers.BootstrapLost`).
- A message brings one verdict only, so when it completes two matches one of them gets no alarm (`EngineRivals.RivalUnanswered`).
- When flows are ignored, the verdict of one rule takes messages away from all rules of its handler, so which alarms are
  raised depends on how the rules are shared out (`Sharing.SharingHides`); `Handling.SameStreamsIff` says when it does not.
- Two overlapping releases can both decrement and leave a message that nobody frees (`Release.OverlappingReleasesLeak`). The
  message is freed if and only if some release begins when it holds all references (`Release.FreedIff`); releases that do not
  overlap are one such case (`Release.SerialReleasesFree`).
- A ring with one or two slots never carries anything (`Dispatch.TwoSlotsStall`).
- After an eviction the flow set can deny an id that it still stores: `FlowSet.StoredButDenied` is a run in which it does, and
  `FlowSet.StaysVisibleIff` says for every state and addition which ids stay visible.
- The text printed for an expression is not always one that the parser accepts: variables are printed with underscores, texts
  in double quotes, functions without their mark, and comparisons of two operations as a call of `strcmp`
  (`SourceText.SourceRoundTripIff`).
- A thread mask that names a rule that does not exist, or one rule twice, is not reported, because the assertion compares
  with `<=` (src/lib/mmt_smp_security.c:203); the thread then verifies other rules than its mask says (`Partition.PlaceAll`).
  For the same reason masks that name one rule more than there are make the handler read behind its array (`Partition.FateIs`).

## Model

| member | source | states |
|---|---|---|
| CompilerWellFormed.GenTreeKeeps | src/lib/gen_code.c:313-347 | each builder, on every tree, adds at least one edge to its source, touches no other old state, and leaves all edges inside the construction, ordered by rank, with the timeout first |
| CompilerWellFormed.GenOperKeeps | src/lib/gen_code.c:219-308 | the same for AND, OR, NOT and BEFORE, which put their subtrees together in different ways |
| CompilerWellFormed.GenWaitKeeps | src/lib/gen_code.c:188-214 | the common part of THEN and NOT: a waiting state between context and trigger gets its index after the context's states and before the trigger's |
| CompilerWellFormed.GenerateComplete | src/lib/gen_code.c:351-409 | the finished graph has no unlisted state, the initial state has an edge, and every waiting state has a timeout and at least one event |
| CompilerWellFormed.CompileWellFormed | src/lib/gen_code.c:188-409 | for every rule: the four fixed states keep their roles, exactly the final states have no way out, every other state has one timeout and it comes first, all targets exist, and a rank increases along every edge |
| CompilerWellFormed.WalkClimbs | src/lib/gen_code.c:188-347 | along any walk through the table the rank rises with every step |
| CompilerWellFormed.WalksAreShort | src/lib/gen_code.c:188-347 | no instance visits a state twice or makes more moves than the rule has states |
| Builder.GraphBuilder.constructor | src/lib/gen_code.c:367-389 | the four fixed states, listed in the order init, fail, pass, inconclusive |
| Builder.GraphBuilder.CreateState | src/lib/gen_code.c:191-205 | a new state with its delay and its timeout edge, not yet listed |
| Builder.GraphBuilder.FinishState | src/lib/gen_code.c:210-211 | the state gets the next index and the last place in the list, its delay and edges stay as they are, and no other state changes |
| Builder.GraphBuilder.GenTransitionRule | src/lib/gen_code.c:313-347 | the in-place builder computes the graph of the specification |
| Builder.GraphBuilder.GenTransitionOperator | src/lib/gen_code.c:326-346 | every operator is dispatched to its builder |
| Builder.GraphBuilder.GenTransitionThen | src/lib/gen_code.c:188-214 | the in-place THEN builder computes the graph of the specification |
| Builder.GraphBuilder.GenTransitionNot | src/lib/gen_code.c:243-271 | the in-place NOT builder computes the graph of the specification |
| Builder.GraphBuilder.GenTransitionBefore | src/lib/gen_code.c:277-308 | the in-place BEFORE builder computes the graph of the specification |
| Builder.GenFsmStates | src/lib/gen_code.c:351-470 | the table that is written out is well formed, and its paths from the initial state to the pass, fail and inconclusive state are exactly the sequences that satisfy the rule, violate it or leave it undecided |
| CompilerWords.WaitWords | src/lib/gen_code.c:188-271 | what THEN and NOT add: words of the context lead to the waiting state, from there its timeout or words of the trigger lead on, each to the state that the operator says |
| CompilerWords.GenOperWords | src/lib/gen_code.c:188-271 | the edges and states that the builder of THEN, AND, OR or NOT adds carry exactly the words of that operator |
| CompilerWords.GenTreeWords | src/lib/gen_code.c:313-347 | for every tree, wherever it is put: from the source one reaches the pass, fail and inconclusive targets by exactly the words that satisfy it, violate it or leave it undecided |
| CompilerWords.BeforeWords | src/lib/gen_code.c:277-308 | the same for BEFORE at the root, whose context appears before and after the trigger |
| CompilerWords.EmitKeepsRuns | src/lib/gen_code.c:423-480 | writing the table renames states by their index and makes every initial transition clone, and changes no path otherwise |
| CompilerWords.CompileKeepsWords | src/lib/gen_code.c:188-480 | for every rule and every sequence of steps, each with its event, action and delay: the sequence leads from the initial state to the pass, fail or inconclusive state if and only if by the meaning of the operators it satisfies the rule, violates it or leaves it undecided |
| ThenChain.GenTreeThen | src/lib/gen_code.c:188-214 | a THEN tree adds exactly one state for each operator, strung between its leaves from left to right |
| ThenChain.CompileThen | src/lib/gen_code.c:188-409 | the compiler turns a THEN rule into a chain: state k waits, after k events, for event k+1 or its timeout, and for nothing else |
| ThenChain.LatesOfRule | src/lib/gen_code.c:207-213 | a timeout before the rule's context is complete is inconclusive, a later one is a failure |
| Messages.RetainAllSlots | src/lib/mmt_fsm.c:51-58 | retaining a whole trace adds one reference for every slot |
| Messages.ReleaseAllSlots | src/lib/mmt_fsm.c:45-48 | releasing a whole trace takes away one reference for every slot and frees exactly what is no longer referred to |
| FsmRuntime.HandleEvent | src/lib/mmt_fsm.c:174-250 | handling an event ends, although it calls itself through temporary states; it keeps the identifier and never lowers the rank of the state |
| FsmRuntime.RecordConserves | src/lib/mmt_fsm.c:93-99 | overwriting a trace slot releases the old message and retains the new one |
| FsmRuntime.UpdateConserves | src/lib/mmt_fsm.c:79-168 | a move keeps every count equal to the slots that refer to the message |
| FsmRuntime.FireConserves | src/lib/mmt_fsm.c:65-76 | trying the transitions of a temporary state keeps the counts, also when it discards a child |
| FsmRuntime.HandleConserves | src/lib/mmt_fsm.c:174-250 | handling an event keeps the counts of the instance and of the child it may create |
| ChainSteps.HandleChain | src/lib/mmt_fsm.c:192-249 | what an event does to an instance that has matched given messages: it stays as it is, is late, clones, advances or passes, decided by its window, its guard and its place in the chain |
| ChainSteps.HandleEnd | src/lib/mmt_fsm.c:192-224 | too early, too late, guard false, or the last event: the instance is untouched or its trace says why it ended |
| ChainSteps.HandleNext | src/lib/mmt_fsm.c:141-161 | after a match the new window is a fresh one after a timer reset and otherwise the intersection with the old one |
| ChainSteps.AcceptedExtend | src/lib/mmt_fsm.c:192-249 | one more message in the window and past the guard extends an accepted sequence |
| RuleMeaning.SubtreeHolds | src/lib/mmt_fsm.c:79-250 | accepted messages satisfy every subtree they cover: guards on the earlier events, order from left to right, and each operator's delay |
| RuleMeaning.SubtreeGives | src/lib/mmt_fsm.c:79-250 | conversely a satisfied subtree gives the guard of each of its events and the window of each neighbouring pair |
| RuleMeaning.ContextHolds | src/lib/gen_code.c:207-209 | an instance that has been read past the root context has satisfied that context |
| RuleMeaning.WindowMeaning | src/lib/mmt_fsm.c:141-161 | an event is in time if and only if it lies in the window of every operator opened since the last timer reset |
| RuleMeaning.AcceptedIff | src/lib/mmt_fsm.c:79-250 | a complete sequence is accepted if and only if its trace satisfies the rule and no window of an enclosing context cut a later one short |
| RuleMeaning.HoldsButNotAccepted | src/lib/mmt_fsm.c:149-161 | a concrete rule and messages that satisfy it and are not accepted |
| Instance.Memory.AtomicRetain | src/lib/mmt_alloc.h:137-142 | the count of the message goes up by one, every other count stays |
| Instance.Memory.FreeMessage | src/lib/message_t.c:91-106 | the message is still there if and only if it had more than one reference, and then has one less; every other count stays |
| Instance.Instance.Clone | src/lib/mmt_fsm.c:51-58 | the copy has its own trace, and every message in it has one more reference |
| Instance.Instance.Free | src/lib/mmt_fsm.c:344-350 | every message in the trace has one reference less |
| Instance.Instance.Reset | src/lib/mmt_fsm.c:37-49 | initial state, empty trace, references given back |
| Instance.Instance.StoreMessage | src/lib/mmt_fsm.c:93-99 | the in-place overwrite of a slot is the specified one |
| Instance.Instance.UpdateDeadline | src/lib/mmt_fsm.c:141-161 | the in-place deadline is the specified one |
| Instance.Instance.Update | src/lib/mmt_fsm.c:79-168 | the in-place move is the specified one, counts included |
| Instance.Instance.FireTransitions | src/lib/mmt_fsm.c:127-139 | the loop over the transitions of a temporary state is the specified one |
| Instance.Instance.Handle | src/lib/mmt_fsm.c:174-250 | the in-place event handler is the specified one, and a child is a new object |
| Instance.Instance.HandlePacket | src/lib/mmt_fsm.c:287-338 | the in-place short cut is the specified one |
| SinglePacket.SinglePacketIff | src/lib/mmt_fsm.c:252-284 | of all THEN rules exactly those with two events and a zero delay take the short cut |
| SinglePacket.GeneralRoute | src/lib/mmt_fsm.c:125-139 | what the general route makes of a message on a zero-delay pair of events 1 and 2 in either order: it passes when both guards hold, the second seeing the message in the slot of the first event, and otherwise stays in the temporary state |
| SinglePacket.SinglePacketRefines | src/lib/mmt_fsm.c:287-338 | for every THEN rule that takes the short cut and every message: the two routes pass alike, with the same trace, if and only if the first guard fails or the second one makes the same of slot 1 and of the slot of the first event; the verdicts agree if and only if the first guard fails or these two answers agree as the type of the rule needs it |
| SinglePacket.ShortCutAgrees | src/lib/rule_verif_engine.c:387-432 | the same for whole messages, with the attribute tests of both routes |
| SinglePacket.BackwardsMissed | src/lib/mmt_fsm.c:306-325 | a rule with events 2 and 1 for which the general route detects every message and the short cut none |
| SinglePacket.SinglePacketBalance | src/lib/mmt_fsm.c:306-325 | the double retain of the short cut is given back in full by storing and resetting |
| TemporaryStates.UpdateSame | src/lib/mmt_fsm.c:79-168 | a move of any machine does not depend on where the timeout transitions of temporary states lead, or on their actions |
| TemporaryStates.FireSame | src/lib/mmt_fsm.c:65-76 | trying the transitions of a temporary state never takes its timeout transition: redirecting it changes nothing |
| TemporaryStates.HandleSame | src/lib/mmt_fsm.c:174-250 | for every machine, instance, transition and message the outcome is the same when timeout transitions of temporary states lead elsewhere, so the failure they announce never comes |
| EngineInvariant.WithoutFsms | src/lib/rule_verif_engine.c:173-199 | removing the nodes of some instances from a list removes theirs and no others and keeps one node for each instance |
| EngineInvariant.WithoutOne | src/lib/rule_verif_engine.c:226-252 | removing one instance leaves the part of the list behind its node untouched |
| EngineMoves.TouchKeeps | src/lib/rule_verif_engine.c:466-472 | a node that has looked at a message without effect keeps the index invariant |
| EngineMoves.JoinKeeps | src/lib/rule_verif_engine.c:297-340 | a clone joins its family, the timeout list and the list of its next event with the right transition, and no other list |
| EngineMoves.MoveKeeps | src/lib/rule_verif_engine.c:319-340 | an instance that moves on leaves the list of the old event, enters that of the next one, and stays in the timeout list |
| EngineMoves.DropInstanceKeeps | src/lib/rule_verif_engine.c:218-262 | stopping one instance removes it and its nodes and nothing else |
| EngineMoves.DropFamilyKeeps | src/lib/rule_verif_engine.c:168-211 | a verdict removes every instance and node of its family and none of any other, and the stored trace is that of the instance that ended |
| EngineStep.NodeShape | src/lib/rule_verif_engine.c:281-373 | the five things a node can do to the engine of a THEN rule, as whole new states |
| EngineVerdict.NodeKeeps | src/lib/rule_verif_engine.c:281-373 | whatever a node does, the index invariant survives, no freed node or instance is used, and without a verdict the rest of the list is still there to walk |
| EngineVerdict.FreshPlace | src/lib/rule_verif_engine.c:265-278 | the place found for a new family is at most the number of messages so far, so its number is not truncated while tables or runs are small enough |
| EngineVerdict.ForkBoot | src/lib/rule_verif_engine.c:297-316 | the clone of the bootstrap gets an identifier that no live instance carries, and has matched the message at hand and nothing else |
| EngineOrigins.PassSound | src/lib/rule_verif_engine.c:344-356 | when an instance passes, its trace satisfies the whole rule and ends with the message at hand |
| EngineOrigins.LateSound | src/lib/mmt_fsm.c:203-218 | when an instance fails, its trace satisfies the context and stops before some event: that event and all later ones have no message, and an operator still in force for it was opened too long ago |
| EngineOrigins.OverdueFails | src/lib/mmt_fsm.c:203-218 | a trace that is overdue in this sense does not satisfy the rule |
| EngineOrigins.NewFamilyTraced | src/lib/rule_verif_engine.c:300-316 | when a message starts a family with an identifier of its own, two live instances still share an identifier exactly when the same message started them |
| EngineOrigins.FamilySettled | src/lib/rule_verif_engine.c:346-355 | after a verdict no live instance stems from the message that started the family |
| EngineRun.NodeTraced | src/lib/rule_verif_engine.c:281-373 | every step of a node keeps the link between families and the messages that started them, and any verdict it gives is sound: a match satisfies the rule and ends with this message, a failure satisfies the context and is overdue |
| EngineRun.ListKeeps | src/lib/rule_verif_engine.c:457-478 | walking a list by saved next pointers visits every node that was there, never a freed one, while nodes are removed and inserted on the way |
| EngineRun.EventsKeep | src/lib/rule_verif_engine.c:445-479 | after all lists, a message that brought no verdict leaves every instance in time |
| EngineRun.NextMessage | src/lib/rule_verif_engine.c:463-468 | a later message finds no node that has already looked at it |
| EngineRun.SweepNeverRuns | src/lib/rule_verif_engine.c:481-517 | for every rule and run the second sweep over the timeout list does not take place until the first message with counter 2^64 - 10 or timestamp 2^64 - 100000, where the additions in its test wrap |
| EngineRun.SweepAddsNothing | src/lib/rule_verif_engine.c:481-517 | over every run of a THEN rule the second sweep, even when it is due, changes nothing but the two remembered numbers |
| EngineRun.RunSound | src/lib/rule_verif_engine.c:435-520 | over every run of a THEN rule: no dangling pointer; a stop only by halting, and only after at least as many messages as there are places; every match has a trace of received messages that satisfies the rule and ends with this message; every failure has one that satisfies the context, lacks the next event, and names an operator in force whose time is over; at most one verdict for each starting message; and the index invariant throughout |
| EngineRun.RunInTime | src/lib/mmt_fsm.c:192-218 | after every message without verdict no instance has outlived its deadline unnoticed |
| EngineComplete.NodeOthers | src/lib/rule_verif_engine.c:281-373 | a node that brings no verdict leaves every other instance and all its nodes alone |
| EngineComplete.NodeSpares | src/lib/rule_verif_engine.c:281-373 | an instance other than that of the node survives it, and a verdict on another family leaves the instance and its family alone |
| EngineComplete.EventsWalk | src/lib/rule_verif_engine.c:445-479 | whatever property of the engine every single node keeps, a whole message keeps |
| EngineComplete.MessagePassed | src/lib/rule_verif_engine.c:435-480 | an instance that a message does not concern, or that only sends a clone ahead, is still there afterwards, unless the engine halts or the verdict of this message is on its own family |
| EngineComplete.MessageTaken | src/lib/rule_verif_engine.c:435-480 | a message with the attributes, guard and window of the next event is taken by some instance, and one that completes the rule brings a verdict |
| EngineComplete.MessageLate | src/lib/mmt_fsm.c:203-218 | a message that shows that a deadline has passed brings a verdict when the rule reports failures |
| EngineComplete.NoMatchMissed | src/lib/rule_verif_engine.c:435-520 | whenever messages of a stream match the events of a THEN rule one after the other, and none in between takes the chance away, a rule that reports matches raises an alarm, not after the last of them, for the family of the first one, or one of the matched messages has brought another verdict; this holds with fewer messages than places, and otherwise if the engine has not halted |
| EngineComplete.NoFailureMissed | src/lib/rule_verif_engine.c:435-520 | whenever messages have matched the context of a THEN rule, or more, and a later one shows that the next event is overdue, a rule that reports failures raises an alarm, not after that message, for the family of the first one, or one of the messages named has brought another verdict; with fewer messages than places, and otherwise if the engine has not halted |
| EngineIdentifiers.CrowdRun | src/lib/rule_verif_engine.c:265-316 | after n messages that each start a family, with n below the number of places or more than 65536 places, there are n families, and family k carries identifier k below 65536 and the bootstrap's identifier 0 from there on |
| EngineIdentifiers.OwnFamiliesIff | src/lib/rule_verif_engine.c:265-316 | in all runs of all THEN rules with tables of a given size and at most n messages each family has an identifier of its own, if and only if the size is at most 65536 or n is below 65536 |
| EngineIdentifiers.BootstrapLost | src/lib/rule_verif_engine.c:168-211 | with more than 65536 places there is a run in which a verdict removes the bootstrap along with the family that shares its identifier, and after which no message starts a family, however many come |
| EngineHerd.KnockDelivered | src/lib/rule_verif_engine.c:297-316 | for any engine state of a two-event rule that looks like a given herd: a message that fits the first event adds one family at the first free place from the remembered one on and changes nothing else |
| EngineHerd.HitDelivered | src/lib/rule_verif_engine.c:344-356 | a message that fits the second event of some instances ends the family of the youngest, brings its verdict, and frees the place |
| EngineHalts.LargeNeverHalts | src/lib/rule_verif_engine.c:265-278 | with more than 65536 places no run of any rule halts, because a truncated identifier is always below the number of places |
| EngineHalts.MessageHaltsIff | src/lib/rule_verif_engine.c:297-316 | a message halts the engine of a THEN rule if and only if the bootstrap has to start a family for it, that is, it has the attributes of the first event, the guard holds and no list before has brought a verdict, and every place from the remembered one on is taken |
| EngineHalts.NeverHaltsIff | src/lib/rule_verif_engine.c:265-278 | no run of a THEN rule with tables of a given size and at most n messages halts, if and only if the size is more than 65536 or more than n |
| EngineHalts.HaltsWithFreePlace | src/lib/rule_verif_engine.c:210-278 | a run with three places that halts although place 1 is free |
| EngineRivals.RivalUnanswered | src/lib/rule_verif_engine.c:474-477 | a run in which messages match the rule and the only alarm is another family's |
| EngineRefs.NodeBalance | src/lib/rule_verif_engine.c:281-373 | for every rule a step of a node keeps the counts equal to the references |
| EngineRefs.StoreTraceBalance | src/lib/rule_verif_engine.c:132-149 | storing a verdict's trace moves its references from the old stored trace to the new one |
| EngineRefs.DeliverBalance | src/lib/mmt_single_security.c:180-232 | after a message has been processed and the caller's reference given up, only slots are counted |
| EngineRefs.RunConservesReferences | src/lib/rule_verif_engine.c:435-520 | over every run of every rule a message's count is the number of slots of live instances and of the stored trace that hold it |
| EngineRefs.InUseNotFreed | src/lib/message_t.c:91-106 | a message is still allocated if and only if a live instance or the stored trace holds it |
| RuleEngine.RuleEngine.SetExpectingEvents | src/lib/rule_verif_engine.c:34-73 | the loop over the transitions enters the nodes that the specification says |
| RuleEngine.RuleEngine.ResetForInstance | src/lib/rule_verif_engine.c:218-262 | the in-place removal of one instance is the specified one |
| RuleEngine.RuleEngine.ResetForFsm | src/lib/rule_verif_engine.c:168-211 | the in-place removal of a family is the specified one |
| RuleEngine.RuleEngine.StoreValidExecutionTrace | src/lib/rule_verif_engine.c:132-149 | the slot-by-slot copy with release and retain is the specified one |
| RuleEngine.RuleEngine.FindAvailableId | src/lib/rule_verif_engine.c:265-278 | the loop finds the first free place from the remembered one on |
| RuleEngine.RuleEngine.ProcessANode | src/lib/rule_verif_engine.c:281-373 | the in-place step of a node is the specified one |
| RuleEngine.RuleEngine.ProcessOneList | src/lib/rule_verif_engine.c:454-478 | the walk along saved pointers is the specified one |
| RuleEngine.RuleEngine.ProcessMultiPackets | src/lib/rule_verif_engine.c:435-520 | the two nested loops, with the sweep behind them, are the specified ones |
| Dispatch.FullTest | src/lib/lock_free_spsc_ring.h:88-100 | the producer's test on wrapped indices says exactly whether there is room for what it knows of the consumer |
| Dispatch.WriteKeeps | src/lib/lock_free_spsc_ring.h:102 | the slot that is written holds no unread item |
| Dispatch.BurstInside | src/lib/lock_free_spsc_ring.h:202-211 | a burst stays inside the published items and inside the array |
| Dispatch.CopyReads | src/lib/lock_free_spsc_ring.h:215 | every slot that is copied holds the next item in order |
| Dispatch.WorkerKeeps | src/lib/mmt_smp_security.c:114-133 | every step of a worker keeps: stale indices are behind the real ones, and what was taken is processed or in the buffer, in order |
| Dispatch.PushStepKeeps | src/lib/lock_free_spsc_ring.h:88-111 | every step of a push keeps the same for all rings |
| Dispatch.ExecKeepsInv | src/lib/mmt_smp_security.c:291-358 | the invariant of dispatcher, rings and workers holds after every schedule |
| Dispatch.WholeRunDelivery | src/lib/mmt_smp_security.c:100-138 | under every schedule each worker has processed, once each and in order, a prefix of the messages it wants, all of them when it exits; NULL is only ever last in a burst; at most size - 2 items wait |
| Dispatch.StepAdvances | src/lib/mmt_smp_security.c:339-357 | every step lowers the rank of the system or leaves it and every agent that can lower it as they are |
| Dispatch.FairRunDelivers | src/lib/mmt_smp_security.c:291-358 | with at least three slots, under every fair schedule all workers exit with exactly their share processed |
| Dispatch.TwoSlotsStall | src/lib/lock_free_spsc_ring.h:91-100 | with rings of one or two slots, under every schedule nothing is published, processed or ended |
| SpscRing.Ring.Push | src/lib/lock_free_spsc_ring.h:88-111 | appends to the pending items, and fails without effect exactly when size - 2 are pending |
| SpscRing.Ring.Pop | src/lib/lock_free_spsc_ring.h:152-173 | takes the oldest pending item, and fails exactly when there is none |
| SpscRing.Ring.PopBurst | src/lib/lock_free_spsc_ring.h:187-222 | takes a prefix of the pending items into the caller's array, nothing only when nothing is pending, and leaves the rest of the array alone |
| Release.ReleaseIsSafe | src/lib/message_t.c:91-106 | under every interleaving of retains, hand-overs and releases a message is freed at most once, never while a reference is held, and not touched afterwards; until then its count is the number of references held |
| Release.FreedIff | src/lib/message_t.c:98-103 | under every interleaving the message is freed, or a thread is about to free it, if and only if some release began while the references it gave back were all there were |
| Release.LeakIff | src/lib/message_t.c:98-103 | a message that nobody holds any more, with all threads at rest, has leaked if and only if no release began in this way |
| Release.OverlappingReleasesLeak | src/lib/message_t.c:98-103 | two overlapping releases leave a message with count zero that nobody frees |
| Release.OneThreadKeeps | src/lib/mmt_alloc.h:150-168 | the plain, non-atomic addition of the dispatcher is safe because it holds the only reference |
| Handling.EngineGets | src/lib/mmt_single_security.c:155-179 | after any messages, an engine gets the next one if and only if it has an attribute of the rule and its flow is not in the set of ignored flows at that time |
| Handling.NothingIgnored | src/lib/mmt_single_security.c:155-179 | without ignoring, an engine gets exactly the messages that have an attribute of its rule, whatever rules share the handler |
| Handling.FilterTwice | src/lib/mmt_smp_security.c:313-320 | filtering by a mask that includes the handler's changes nothing for the handler: its engines get the same and it ignores the same flows |
| Handling.StreamsFrom | src/lib/mmt_single_security.c:161-179 | what an engine gets are messages of the handler in their order |
| Handling.IgnoredIsAccused | src/lib/mmt_single_security.c:206-224 | a flow is ignored only if a verdict of one of the handler's rules has had a message of this flow in its trace |
| Handling.SameStreamsIff | src/lib/mmt_single_security.c:143-233 | a rule gets the same messages at all times in two handlers, whatever other rules they have, if and only if both ignore the same of the messages that it wants |
| Sharing.SharingHides | src/lib/mmt_single_security.c:206-224 | two rules and four messages for which, with sets of ignored flows of any size from two on, the second rule raises an alarm in a handler of its own and gets nothing in a shared one |
| Pipeline.AlarmsAreSequential | src/lib/mmt_smp_security.c:100-138 | at any time under any schedule, whether flows are ignored or not, a rule of a worker has raised a prefix of the alarms that it would raise in a single thread with the same rules |
| Pipeline.FairRunSameVerdicts | src/lib/mmt_smp_security.c:291-358 | under every fair schedule each worker ends as a single thread with its rules would: its engines have got the same messages and given the same verdicts, and the same flows are ignored |
| Pipeline.WorkerAlarmsSound | src/lib/mmt_smp_security.c:100-138 | every alarm that a THEN rule raises in a worker, at any time, under any schedule and whatever flows are ignored, is sound, in the sense of `EngineRun.RunSound`, and the only one of its family |
| RuleChanges.IndexOf | src/lib/mmt_security.c:94-103 | finds the attribute if and only if it is registered |
| RuleChanges.IndexStable | src/lib/mmt_security.c:722-883 | the index of a registered attribute does not change when others are appended |
| RuleChanges.MaskStable | src/lib/rule_verif_engine.c:531-569 | the mask of a rule does not change when attributes are appended |
| RuleChanges.RemoveIdsMembers | src/lib/mmt_security.c:730-746 | removal by overwriting with the last rule keeps exactly the rules that were not named |
| RuleChanges.RetainRowsMembers | src/lib/mmt_single_security.c:298-324 | the swap-and-look-again loop keeps exactly the rows whose rule is still global |
| RuleChanges.AddKeeps | src/lib/mmt_security.c:796-869 | an addition keeps all rows and gives every new global rule a row of its own |
| RuleChanges.AlwaysConsistent | src/lib/mmt_single_security.c:285-449 | from initialisation on, over any sequence of additions, removals and alerts: unique ids, the handler has exactly the global rules, each with its own engine and current mask, the handler's mask is their union, and no index changes |
| RuleChanges.RowSurvives | src/lib/mmt_single_security.c:298-324 | engine, counter and mask of a rule survive every change that does not remove the rule, and only those |
| RuleChanges.FilterIsExact | src/lib/mmt_single_security.c:155-179 | unless its flow is ignored, a message reaches exactly the rules whose own mask shares an attribute with it: the test with the handler's mask hides nothing more |
| RuleChanges.NeverFilteredOut | src/lib/mmt_single_security.c:155-179 | from initialisation on, after any changes, a message with all attributes of an event that has any reaches the engine of that rule if and only if its flow is not ignored |
| RuleHandler.Handler.constructor | src/lib/mmt_single_security.c:54-70 | one fresh row for each rule, and the union of their masks |
| RuleHandler.Handler.SwapRule | src/lib/mmt_single_security.c:237-264 | the four arrays are swapped alike, so rows stay together |
| RuleHandler.Handler.RemoveRules | src/lib/mmt_single_security.c:285-337 | the loops on the parallel arrays compute the rows of the specification, and the mask is recomputed when something was removed |
| RuleHandler.Handler.AddRules | src/lib/mmt_single_security.c:340-449 | the old rows and one fresh row for each global rule that the ids name and that was missing |
| RuleHandler.RuleBase.RemoveRules | src/lib/mmt_security.c:722-763 | global removal followed by the handler's is the specified change |
| RuleHandler.RuleBase.AddRules | src/lib/mmt_security.c:768-883 | global addition with new attribute indices, followed by the handler's, is the specified change; it halts exactly when a limit is passed |
| Partition.BringForward | src/lib/mmt_smp_security.c:192-203 | a swap brings the named rule to its place if it is there or behind, and otherwise nothing changes |
| Partition.PlaceMask | src/lib/mmt_smp_security.c:190-204 | a mask of rules that exist and are not placed yet puts them in its order behind the placed ones; a mask one longer than the remaining rules is let through, and a longer one halts |
| Partition.FitsIff | src/lib/mmt_smp_security.c:183-225 | the original gets past the masks without reading behind its array if and only if they name at most as many rules as there are |
| Partition.FateIs | src/lib/mmt_smp_security.c:189-218 | otherwise the first mask that is too long decides: by one rule it makes the handler read behind the array, by more it halts |
| Partition.PlaceAll | src/lib/mmt_smp_security.c:183-225 | for all masks: which of these happens, and if none, all masked threads get what their masks say if the masks name existing rules and no rule twice; with unique rule ids only if |
| Partition.FairShare | src/lib/mmt_smp_security.c:230-252 | quotas cut one after the other from what is left differ by at most one |
| Partition.ShareRest | src/lib/mmt_smp_security.c:230-252 | the threads without mask get all remaining rules, in shares that differ by at most one |
| Partition.ShareOut | src/lib/mmt_smp_security.c:183-252 | for all masks the rules are permuted; if the masks fit, every rule goes to exactly one thread when there is a thread without mask, near-equally among those; sensible masks always fit and are obeyed |
| Probing.ProbeFinds | src/lib/mmt_set.h:120-150 | a search around the table fails only if no slot stops it |
| Probing.ProbeFirst | src/lib/mmt_set.h:120-150 | a search that succeeds ends at the first slot on its way that stops it |
| Probing.ProbeStable | src/lib/mmt_set.h:159-188 | filling slots does not disturb a search that ends at a slot that still stops it |
| FlowSet.EvictKeeps | src/lib/mmt_set_uint64.h:107-119 | evicting in queue order leaves every occupied slot queued |
| FlowSet.AddSucceeds | src/lib/mmt_set_uint64.h:93-136 | in every reachable state an addition finds a slot, is queued, and a check finds it at once |
| FlowSet.AlwaysCovered | src/lib/mmt_set_uint64.h:93-136 | after any additions every occupied slot is queued and holds an id that was added |
| FlowSet.CheckIsSound | src/lib/mmt_set_uint64.h:145-152 | after any additions a positive check is right, and the id added last is found |
| FlowSet.ExactBeforeEviction | src/lib/mmt_set_uint64.h:145-152 | while fewer ids than slots have been added the filtered check is exact for every id |
| FlowSet.FirstEviction | src/lib/mmt_set_uint64.h:100-105 | the queue is full for the first time after size - 1 additions |
| FlowSet.StaysVisibleIff | src/lib/mmt_set_uint64.h:93-152 | one addition to any covered state: an id that could be seen can still be seen if and only if a slot that holds it is not evicted and no emptied slot that the new id does not refill lies before it, and every byte mark it shares with evicted content is a mark of the new id |
| FlowSetObjects.OneBit | src/lib/mmt_bit.h:34-61 | setting or clearing a bit of a byte changes that bit only |
| FlowSetObjects.Filter.Add | src/lib/mmt_filter.h:113-117 | sets exactly the marks of the eight bytes of the id |
| FlowSetObjects.Filter.Remove | src/lib/mmt_filter.h:142-146 | clears exactly the marks of the eight bytes of the id, whoever shares them |
| FlowSetObjects.Filter.Check | src/lib/mmt_filter.h:127-134 | true if and only if all eight marks are set |
| FlowSetObjects.SlotRing.Enqueue | src/lib/mmt_ring.h:88-99 | appends to the queue unless size - 1 slots are queued |
| FlowSetObjects.SlotRing.Dequeue | src/lib/mmt_ring.h:113-122 | takes the oldest slot, and leaves the caller's variable alone when there is none |
| FlowSetObjects.SlotTable.Search | src/lib/mmt_set.h:127-150 | the loop finds the place of an id, the slot that holds it or where it would go |
| FlowSetObjects.SlotTable.Add | src/lib/mmt_set.h:120-152 | the id is put into its place, and fails without effect when there is none |
| FlowSetObjects.SlotTable.Check | src/lib/mmt_set.h:159-188 | true if and only if the id's place holds it |
| FlowSetObjects.FlowSetEx.MakeRoomInPlace | src/lib/mmt_set_uint64.h:98-121 | the eviction loop on table, ring and filter is the specified one |
| FlowSetObjects.FlowSetEx.Add | src/lib/mmt_set_uint64.h:93-136 | the addition on table, ring and filter is the specified one, and refuses only the empty id |
| FlowSetObjects.FlowSetEx.Check | src/lib/mmt_set_uint64.h:145-152 | asking the filter first and then the table is the specified check |
| HashTable.SlotIffRoom | src/lib/mmt_hash64.h:84-105 | an addition fails if and only if every slot is taken |
| HashTable.TableIsMap | src/lib/mmt_hash64.h:84-133 | after any additions a search gives the first data accepted for the key and nothing for other keys |
| HashTable.Table.Insert | src/lib/mmt_hash64.h:84-105 | the probe loop adds as specified, and fails exactly when the table is full |
| HashTable.Table.Find | src/lib/mmt_hash64.h:112-133 | the probe loop searches as specified |
| ByteTrie.Table.Search | src/lib/mmt_hash.h:89-105 | the walk along the key's bytes gives what the table holds for the key |
| ByteTrie.Table.Add | src/lib/mmt_hash.h:51-80 | returns what the key had, replaces it only when asked to or when it was empty, and changes no other key |
| MessageArena.Stored | src/lib/message_t.c:171-187 | laying out an element gives it a region of its own, readable as written, and changes no other element |
| MessageArena.MessageData.SetElement | src/lib/message_t.c:137-190 | presence bits say which elements have data; accepted data is read back, refused or filtered data changes nothing, and data that does not fit is refused |
| Expressions.RunPrinted | src/lib/expression.c:444-678 | running over the text of any tree hands that tree, as it rereads, to the operation around it |
| Expressions.RereadIff | src/lib/expression.c:444-678 | a tree rereads as itself if and only if it is well formed |
| Expressions.RoundTripIff | src/lib/expression.c:444-701 | parsing the text of an operation, with names and operands in the parser's own spelling, gives it back if and only if it is well formed |
| Expressions.TopLevelIff | src/lib/expression.c:444-701 | a leaf or function call at the top, in the parser's own spelling, comes back inside an operation without operator if and only if it is well formed |
| Expressions.ParseKeepsWords | src/lib/expression.c:444-678 | every accepted text gives a tree with exactly its operands and function names in its order |
| SourceText.RefusesForeign | src/lib/expression.c:444-678 | a text with a double quote, or a name that is neither a variable nor a constant, is refused wherever that stands |
| SourceText.SourceRoundTripIff | src/lib/expression.c:707-836 | the parser reads an operation back from the text that the original prints for it if and only if the operation is well formed, has no variables, texts and functions, prints its numbers as spelled, and compares nothing as text |
| ExpressionParser.TakeToken | src/lib/expression.c:444-678 | one token does to the nodes, the parameter lists and the father pointers what the specification does to its stack, and halts on the same texts |
| ExpressionParser.ParseExpression | src/lib/expression.c:688-701 | the parser on mutable nodes builds the specified tree, with right father pointers, and halts exactly when the specification has none |

## Left out

- Nested BEFORE and nested COMPUTE operators in the compiler: the nested BEFORE case enters the root's own children again (src/lib/gen_code.c:341-343) and nested COMPUTE emits nothing; the types of the model exclude both.
- EngineRun.RunSound: is for THEN rules without zero delays; for OR, NOT and BEFORE a move that does not clone leaves nodes of other events with an old transition index, so for these operators, AND and rules with temporary states the theorems are about the compiled table (`CompilerWords`, `CompilerWellFormed`) and about reference counts.
- EngineRun.RunInTime: says nothing about a message that brings a verdict, because the loop over the lists ends there.
- CompilerWords.CompileKeepsWords: says which sequences of steps lead where, not in which order the transitions of one state are tried; that order is part of `ThenChain.CompileThen` for THEN rules and of `CompilerWellFormed.CompileWellFormed` for the timeout.
- ChainSteps.HandleChain: guards see the trace as it is before the message is stored, as in the code; what the generated guard functions compute is not part of this model.
- EngineIdentifiers.BootstrapLost: names are never used again in the model; in the original a later clone could get the address of the freed bootstrap and pass for it in the comparison at src/lib/rule_verif_engine.c:300.
- EngineRefs.RunConservesReferences: for rules other than THEN a node can hold an old transition index; behind the last transition of the state, the model refuses it with an error result, where the original, outside its debug mode, reads outside the array.
- RuleMeaning.AcceptedIff: assumes that no deadline passes 2^64 microseconds.
- RuleEngine: holds instances as values under names instead of pointers, and its lists as sequences of nodes with addresses, so `prev` pointers are not modelled; the object form of one instance is `Instance.Instance`.
- Instance.Instance.Handle: the reference count in the block header is one shared multiset of messages here; the header itself is in `Release`.
- Dispatch: atomics are sequentially consistent; handler masks do not change during a run; waiting, cancellation by `stop_immediately`, and CPU affinity are left out.
- Dispatch.FairRunDelivers: counts every shared access as a step, so fairness means that every thread gets a turn again and again.
- `ring_push_burst` (src/lib/lock_free_spsc_ring.h:113-138): not used by the dispatcher; it writes without wrapping and fills to another limit than `ring_push`.
- Release.ReleaseIsSafe: the size of a release is at most what the thread holds, and hand-over between threads is one step.
- Expressions.Print: uses the parser's spelling of variables, texts and function names; the original's own (src/lib/expression.c:707-836) is `SourceText.SourcePrint`.
- Expressions: characters, number formats and data types are left out; leaves are their spelling, and `SourceText` takes the printed spelling of a number as given.
- RuleChanges.NeverFilteredOut: whether a flow is ignored is an input here; when it is, is said in `Handling`.
- Handling.EngineGets: the rules of a handler do not change during a run, and a halt of one engine, which ends the process, ends only this engine's run; other threads asking whether a flow is ignored (src/lib/mmt_smp_security.c:278-288) change nothing and are left out.
- RuleChanges: one handler without threads; the engine of a rule is known by its rule, and its state is in `Engine`; spin locks and the loading of rule files are left out.
- Partition.PlaceAll: ends when a handler is about to read behind the array; what it finds there is not part of the model.
- FlowSet.StaysVisibleIff: is about one addition; over several additions it applies again from each state to the next, with the content of the slots in between.
- FlowSet.AddSucceeds: needs at least two slots; with one slot the ring is always full and never queues.
- HashTable: the hash functions for strings and numbers, which nothing else here uses, are left out.
- MessageArena.MessageData.SetElement: the conversion of data and the lookup of the attribute's index are left out, and the index is one of the message's elements, which the original checks in debug mode only.
- Memory pools, which are disabled (src/lib/mmt_alloc.c:280-295), `mmt_map_t`, linked lists, version parsing, XML reading, C text emission, plugins, sockets, DPI conversion and output.
