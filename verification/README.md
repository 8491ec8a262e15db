# BSS-CLI: models and proofs

This project models the parts of BSS-CLI where a mistake would be hardest to see by reading one function, and proves what they are for. `dafny verify dfyconfig.toml` checks everything.

**The event plane** (`Topology`, `DeathHeader`, `EventPlane`, `Runs`, `Safety`, `RelayAccounting`, `Losses`, `Quiescence`, `FailureBudget`, `LifeRuns`, `RetryReach`). Services stage rows in an outbox; any number of relay replicas publish and mark them; a topic exchange fans a message out; each consumer claims an inbox row, runs its handler and commits in one transaction, then acks, nacks to a TTL retry queue, or parks. `EventPlane` is a labelled transition system: outbox rows with their locks, relay transactions with the prefix they have published, every copy of every message with its `x-death` counts and where it stands, the committed inbox and the committed handler effects. A step can be a crash, a rollback, a lost connection with redelivery, a commit whose answer is lost, a publish the broker accepts and then loses, or a publish by a relay whose transaction has been rolled back under it. The theorems hold for every run from the empty plane.

**The relay and the consumer as programs** (`Relay`, `RelayProgress`, `Consumer`, `ConsumerProperties`, `ConsumerLog`). The loops of the source, imperative and proved against specification functions, and what those functions amount to over many ticks or turns. `ConsumerLog` reads the consume loop's log delivery by delivery. `PlaneRefinement` shows that one delivery, the answer to the broker and one turn of the relay, committed or not, are runs of the plane, the copies on the queues included, and `ConsumerRuns` that the whole consume loop is, with everybody else's steps in between.

**The cockpit** (`AgentEvents`, `Bubble`, `Cockpit`, `CockpitHistory`). The session store as a class, `drive_turn` with `finalize_bubble`, and the propose/confirm protocol over any history of turns, intent turns, resets and session changes.

**Smaller cores**: the Python-repr printer with a reader that undoes it (`PyRepr`) and what the printed argument line tells (`ArgsDetermined`), the `.env` reader and writer (`EnvFile`, `EnvFileRoundTrip`, `EnvFileOrder`, `EnvFileReading`), the two mtime-keyed caches under racing callers and writers (`ConfigCache`, `BrandingCache`), the compare-and-swap scenario clock (`Clock`, `ClockRuns`) and the greedy word wrap (`WordWrap`) with what a terminal shows of it (`WrapDisplay`). `Wrappers`, `Seqs` and `Sums` are helpers.

## Assumptions

Broker: a delivered publish puts one copy on every queue whose binding matches its routing key (AMQP 0-9-1, section 3.1.3.3); the message id and the headers survive dead-lettering; dead-lettering counts the source queue's `x-death` entry up and moves it to the front. All bindings exist before the first publish and do not change. Every bound queue is consumed by `bind_consumer`, so it has its retry and parked queues; the rating and provisioning-sim services, which consume with `declare_and_bind`, are outside the model. A relay message has a body that parses, because `drain_batch` serializes a JSON value or `{}`; inline messages may not.

Database: a transaction's writes appear at its commit or not at all; the inbox primary key is (event id, consumer), so a second insert waits for an open transaction that holds the key; `FOR UPDATE SKIP LOCKED` returns only rows nobody holds; the event id of a row is unique, so the row's position stands for it.

Handlers write only through the transaction they are given and never commit it. What a handler, the database or the broker answers is otherwise arbitrary; it is in the label of a step or in a parameter.

Files: a write of a configuration file is one step. Wall time is an abstract clock that does not go back; TTL expiry and sleeps are steps.

## What the proofs found

- `publish_on` awaits lapin's confirmation, but no channel ever selects confirm mode, so an Ok publish does not mean the broker has the message (`crates/bss-events/src/mq.rs:153-175`). The model keeps "returned Ok" and "delivered" apart. `Losses.UnconfirmedPublishLoses` is a run that marks a row nobody will ever see; `Losses.PublishKeepsIffDelivered` and, for every run, `RelayAccounting.NoSilentLoss` say exactly when a row is kept.
- The consumer acks after a failed park publish. `Losses.FailedParkLoses` is a run that loses an event this way; `Losses.ParkKeepsIffDelivered` says exactly when parking keeps it.
- A retry queue dead-letters under the binding key of its queue, which the comment in `topology.rs` calls the original routing key. The two agree for every key if and only if the binding has no wildcard (`Topology.LiteralIff`), and then and only then a retry reaches what the publish reached (`RetryReach.RetryKeepsReachIff`); for every binding with a wildcard `RetryReach.RetryMissesQueue` is a run where it does not. Every binding in `services/` is literal today.
- A batch of rows that can never be published blocks every row behind it for good: `RelayProgress.MarkedIffFewPoisonBefore` is an if-and-only-if on the number of such rows before it.
- Typing `/confirm` is not what permits a destructive call. Any line that is not empty, does not start with a slash and matches no list intent takes the staged proposal, runs with destructive tools allowed, and the prompt says the operator typed `/confirm` (`cli/src/repl.rs:111-157`, `crates/bss-cockpit/src/prompts.rs:54-77`). `Cockpit.OnlyConfirmPermitsIff` says exactly of which lines "only a typed /confirm permits" holds; `CockpitHistory.NextLineTakesProposal` shows that a `/confirm` typed any time after such a line comes too late, unless some turn has staged again.
- A turn whose consume fails leaves an old proposal in force for the turn after it (`CockpitHistory.FailedConsumeKeepsProposal`). A staged proposal whose own text looks like a handbook claim is replaced by the fallback although it is staged (`Bubble.ProposalOverridesModel`).
- Rewriting a `.env` file is not idempotent when a kept line still ends in a carriage return: `EnvFileRoundTrip.WriteTwice` gives the exact condition and `TwoReturnsShrink` a file. Values do not always come back: `EnvFile.ValueRoundTrip` and `EnvFileRoundTrip.RoundTrip` give the exact condition.
- `freeze(None)` reads the time before its compare-and-swap loop. It pins the time of the state it read, whatever has landed since (`ClockRuns.FreezePinsWhatItPeeked`); if only advances landed, the pinned time lacks exactly their deltas, so the freeze is atomic if and only if they sum to nothing (`ClockRuns.FreezeUndoesAdvances`); `ClockRuns.AnAdvanceUndone` shows it can happen from any state.
- The printed argument line tells the last value and the text before it, and nothing more (`ArgsDetermined.SameLineIff`). So it determines an argument list among all lists if and only if the list is empty, or is one argument whose key does not itself hold a printed argument (`ArgsDetermined.DeterminedIff`); a lone key without `=` never does (`ArgsDetermined.LoneArgDetermined`). Every list of two or more prints like the single argument it collapses to, and like the one in which any two neighbours are merged (`PyRepr.ArgsLineAmbiguous`). Among lists whose keys have no `=`, parameter names for instance, the line determines the arguments (`PyRepr.ArgsLineInjective`).
- Words on a wrapped line have one space between them if and only if the line is one word or its first word has a width (`WordWrap.SpacedIffFirstVisible`); up to the first visible word, words run into each other (`WordWrap.SpaceIffVisibleBefore`).
- The configuration cache sees a write if and only if it raises the mtime above the file's record (`ConfigCache.WriteSeenIffRaised`). The branding cache, which tests for equality, needs a different mtime (`BrandingCache.WriteSeenIffDistinct`); of two writes with one mtime the second is never seen (`BrandingCache.SecondWriteUnseen`).

## Model

| member | source | states |
|---|---|---|
| Safety.EffectsExactlyOnce | crates/bss-events/src/consumer.rs:267-298 | After any run, an (event, queue) has at most one committed handler effect, and exactly one if and only if it is in the inbox. |
| Safety.ClaimKeepsExactlyOnce | crates/bss-events/src/consumer.rs:278-293 | A claim, which waits while another open transaction holds the key, never makes two holders of one key or a holder of a handled one. |
| Safety.CommitKeepsExactlyOnce | crates/bss-events/src/consumer.rs:295-297 | A commit, reported or not, adds the first effect of its key and no other, records it in the inbox, and leaves no holder of the key. |
| Safety.CopiesWithinBudget | crates/bss-events/src/consumer.rs:195-239 | After any run, each copy keeps every per-queue death count within the largest budget M and has been nacked at most Q(M-1)+1 times among Q queues, despite the fan-out of each retry. |
| Safety.KeepCovered | crates/bss-events/src/consumer.rs:158-240 | No step takes away the last trace of an event that is not yet handled, parked or lost to a park. |
| Safety.KeepNothingLost | crates/bss-events/src/consumer.rs:158-240 | Every step keeps: a row the broker ever enqueued is, for each bound queue, handled, carried or lost to a park; and an ack is only due for what is settled. |
| Safety.KeepOriginates | crates/bss-events/src/consumer.rs:158-240 | Every step keeps: whatever carries or records an event stems from an enqueued publish of its row. |
| RelayAccounting.NoSilentLoss | crates/bss-events/src/relay.rs:91-120 | After any run and for every row and bound queue: the pair is handled, or a copy of it exists, or a park of it was lost, if and only if the broker ever enqueued a publish of the row; a marked row of which it never did has had an Ok publish that was lost. |
| RelayAccounting.PublishesAccounted | crates/bss-events/src/relay.rs:171-218 | Ok publishes of a row = 1 if marked + those in aborted drains, before or after the rollback, + those in open drains; its attempts = committed drains that selected it; marked implies published. |
| RelayAccounting.OpenDrainsDisjoint | crates/bss-events/src/relay.rs:17-24 | Two open relay transactions share no row, and hold none that is marked. |
| Losses.FailedParkLoses | crates/bss-events/src/consumer.rs:219-238 | A run in which the park publish fails, the ack follows, and the event is gone for the queue. |
| Losses.UnconfirmedPublishLoses | crates/bss-events/src/mq.rs:153-175 | A run in which an Ok publish is not enqueued, the row is marked, and the event is gone. |
| Losses.PublishKeepsIffDelivered | crates/bss-events/src/relay.rs:108-113 | For the last row of a drain and a queue that has nothing of it, an Ok publish then the commit marks the row, and keeps the event if and only if the publish was delivered. |
| Losses.ParkKeepsIffDelivered | crates/bss-events/src/consumer.rs:219-238 | For the last copy of an unhandled event, parking then acking keeps the event if and only if the park was delivered. |
| Quiescence.QuietRunsRest | crates/bss-events/src/consumer.rs:147-242 | After any past, steps that are neither staging nor failures number at most a measure of the state, whatever the handlers answer; none is left that must come if and only if all rows are marked, no drain is open, and main and retry queues are empty. |
| Quiescence.Quiescent | crates/bss-events/src/consumer.rs:147-242 | And then each (event, bound queue) is handled or parked, unless the past lost every publish of the row so far or a park. |
| Quiescence.QuietLowers | crates/bss-events/src/consumer.rs:195-239 | Each such step lowers the measure, a retry that fans out to all bound queues included. |
| Quiescence.AtRestIffNoQuietStep | crates/bss-events/src/consumer.rs:147-242 | In every state reached: rest is exactly that no such step is due. |
| Quiescence.RestIsReachable | crates/bss-events/src/relay.rs:223-241 | From every state reached, some such steps lead to rest, where none is due: a blocked claim always waits for a transaction that can move. |
| Topology.LiteralMatch | crates/bss-events/src/topology.rs:26-34 | A binding without wildcards matches its own key and no other. |
| Topology.MatchIff | crates/bss-events/src/topology.rs:26-34 | A binding matches a key if and only if the words of the key can be dealt out to its words in order: a hash takes any number, a star one, any other word itself. |
| Topology.LiteralIff | crates/bss-events/src/topology.rs:26-34 | The key a message was published under is always the binding key if and only if the binding has no wildcard. |
| RetryReach.RetryKeepsReachIff | crates/bss-events/src/topology.rs:26-34 | In every configuration and for every key a retry reaches the queues the publish reached, if and only if the binding of the retrying queue has no wildcard. |
| RetryReach.RetryMissesQueue | crates/bss-events/src/topology.rs:26-34 | For every binding with a wildcard, a run where the publish reaches two queues and the retry one. |
| Topology.RetryCycle | crates/bss-events/src/topology.rs:17-34 | A nack reaches exactly the queue's own retry queue; an expiry reaches exactly the main queues bound to the queue's binding key, its own among them. |
| DeathHeader.CountBump | crates/bss-events/src/consumer.rs:39-51 | Dead-lettering counts up the entry of its source and no other. |
| DeathHeader.LapinReadsDeathCount | crates/bss-events/src/consumer.rs:318-336 | From any headers the broker delivers, with or without x-death and whatever else they hold, the lapin decoder reads the count of the most recent entry if and only if it fits 32 bits. |
| DeathHeader.LapinReadsAnyWidth | crates/bss-events/src/consumer.rs:318-336 | A count of any integer width that fits 32 bits is read as it is, a negative one and any other value as 0. |
| DeathHeader.NackRests | crates/bss-events/src/consumer.rs:199-218 | A nack below the budget leaves the header of a copy that may rest in the retry queue. |
| DeathHeader.CirculatingLimit | crates/bss-events/src/consumer.rs:29-37 | A circulating header counts at most the budget per queue and at most Q(R-1)+1 rejections in all. |
| FailureBudget.FailuresWithinBudget | crates/bss-events/src/consumer.rs:29-51 | In every run, for a queue no other queue's retries reach: its handler fails on an event at most max_retries+1 times for each copy the broker enqueued, and once more for each delivery it took back. |
| FailureBudget.FailuresExhaustBudget | crates/bss-events/src/consumer.rs:195-239 | Exactly that often, if no handler success, database error or crash used up a try and all copies are parked or gone. |
| FailureBudget.LiteralsOwnRetries | crates/bss-events/src/topology.rs:26-34 | Distinct literal bindings keep every queue's retries to itself. |
| LifeRuns.LifeIsRun | crates/bss-events/src/consumer.rs:195-239 | The life of an always-failing copy, counted on its own, is a run of the plane with exactly as many failed handler runs and parks, and no effect. |
| ConsumerProperties.RetryBudgetExact | crates/bss-events/src/consumer.rs:29-51 | Without lost connections an always-failing copy is run exactly max_retries+1 times, logs attempts 1 to max_retries in order, and is parked once. |
| ConsumerProperties.RetryBudgetWithDrops | crates/bss-events/src/consumer.rs:29-51 | With k lost deliveries it is run at most max_retries+1+k times, and exactly that often up to the drops before its end. |
| ConsumerProperties.SleepsRestartAfterDelivery | crates/bss-events/src/consumer.rs:132-255 | The sleep after each round is min(2^j, 30) seconds, j being the rounds since the last delivery. |
| ConsumerProperties.OutageSleeps | crates/bss-events/src/consumer.rs:78-95 | n rounds without a delivery sleep 2^n-1 seconds for n <= 5 and 31+30(n-5) beyond. |
| Consumer.ProcessOncePerEvent | crates/bss-events/src/consumer.rs:267-298 | One delivery, whatever is answered, keeps one effect per inbox entry; a transaction that takes effect adds exactly its effect and its inbox entry, any other changes nothing. |
| Consumer.Store.ProcessOne | crates/bss-events/src/consumer.rs:267-298 | The transaction's steps in order make the specified change and answer; the state moves only at the commit. |
| ConsumerProperties.DelayIsMin | crates/bss-events/src/consumer.rs:78-95 | Advancing the backoff k times from one second gives a delay of min(2^k, 30) seconds. |
| Consumer.BindConsumer | crates/bss-events/src/consumer.rs:121-256 | The loops over rounds and deliveries do, one after the other, what the specification says of each: acks, logged retries, nacks, parks, sleeps. |
| ConsumerLog.DeliveryAnswered | crates/bss-events/src/consumer.rs:148-242 | Over any rounds, each delivery adds to the log exactly: one ack if it did not fail or has no body; below the budget the attempt, its death count plus one, and one nack; with the budget spent one park under its id, with its body and the reason of that failure, and then one ack. |
| ConsumerLog.OneAnswerEach | crates/bss-events/src/consumer.rs:148-242 | In all there are as many acks and nacks as deliveries. |
| ConsumerLog.RoundWithin | crates/bss-events/src/consumer.rs:147-255 | A round adds what it tells the broker and then one sleep. |
| ConsumerLog.BindConsumerAnswers | crates/bss-events/src/consumer.rs:121-256 | The loop itself answers every delivery so. |
| PlaneRefinement.ProcessIsRun | crates/bss-events/src/consumer.rs:267-298 | One delivery through the transaction is a run of the plane that leaves the same inbox and effects. |
| PlaneRefinement.AnswerIsRun | crates/bss-events/src/consumer.rs:195-240 | What the loop then tells the broker, read off whatever headers came with the copy, is a run of the plane that handles nothing and ends the delivery; a parked copy of the event, and nothing else, is new exactly if it failed with its budget spent and the park reached the queue. |
| ConsumerRuns.TurnIsRun | crates/bss-events/src/consumer.rs:148-242 | Serving one element of the stream, from delivery to ack or nack, is a run that leaves the same inbox and effects. |
| ConsumerRuns.DriveIsRun | crates/bss-events/src/consumer.rs:121-256 | So is bind_consumer over any rounds, with any steps of others that handle nothing of its queue between two deliveries. |
| PlaneRefinement.DrainIsPlaneRun | crates/bss-events/src/relay.rs:171-218 | Select, publish each, then mark and commit or roll back: a run that marks exactly the rows whose publish returned Ok, counts one attempt for each selected, and puts exactly the copies of the delivered rows on the queues. |
| PlaneRefinement.DrainRefines | crates/bss-events/src/relay.rs:171-218 | One turn of the relay, whatever fails in its transaction, is a run of the plane that leaves the same table, and the copies it adds are those of exactly the messages sent and enqueued, each on the queues bound to the routing key and under the event of the message id it was sent with. |
| PlaneRefinement.MarkAllAttempts | crates/bss-events/src/relay.rs:200-214 | Each row named by an outcome is attempted once more, every other not at all. |
| Relay.DrainBatch | crates/bss-events/src/relay.rs:94-120 | Every row is published in order whatever became of those before: routed by its event type, under its event id, with its payload as body and an empty object only for a missing one; the outcomes are the answers, errors cut at 500 characters. |
| Relay.MessageCarries | crates/bss-events/src/relay.rs:94-110 | The message is that of the row's own fields; two rows have one message id if and only if they have one event id. |
| Relay.DrainMarksRow | crates/bss-events/src/relay.rs:25-36 | A published row is marked, a refused one keeps the first 500 characters of its own error, each with one attempt more; no other row is touched. |
| Relay.PendingSpec | crates/bss-events/src/relay.rs:17-24 | The query returns exactly the unpublished rows, strictly ordered by (occurred_at, id). |
| Relay.Outbox.DrainOnce | crates/bss-events/src/relay.rs:171-218 | Only a commit changes the table, by exactly the marks, and it may report an error; a failure after the select leaves the publishes done. |
| RelayProgress.DrainSteps | crates/bss-events/src/relay.rs:171-218 | A committed drain leaves pending exactly the batch's failures and the rows behind the batch, in order. |
| RelayProgress.Tick | crates/bss-events/src/relay.rs:226-238 | One turn drains a batch; it waits if and only if it failed or there was less than a full batch. |
| RelayProgress.RunRelay | crates/bss-events/src/relay.rs:223-241 | Any turns, each with any fault, leave pending what as many committed drains leave, publish the events of the rows attempted, in order, and wait as specified. |
| RelayProgress.OnlyCommitsCount | crates/bss-events/src/relay.rs:223-241 | Turns that do not commit only repeat publishes. |
| RelayProgress.DrainingIsSortAndPublish | crates/bss-events/src/relay.rs:94-218 | With every publish succeeding, n committed drains attempt the first n*batch pending rows in order, each once, and leave the rest, for every positive batch size. |
| RelayProgress.RelaySortsAndPublishes | crates/bss-events/src/relay.rs:94-241 | The relay loop, without faults and with every pending row publishable, publishes the events of the pending rows sorted by (occurred_at, id), each once, as far as its turns go, leaves exactly the others pending, and waits exactly after the turns that found less than a full batch. |
| RelayProgress.PoisonOnlySlows | crates/bss-events/src/relay.rs:171-241 | With p < batch unpublishable rows, n ticks publish n*(batch-p) healthy rows or all there are. |
| RelayProgress.MarkedIffFewPoisonBefore | crates/bss-events/src/relay.rs:17-36 | A publishable row is some time marked if and only if fewer than a batch of unpublishable rows stand before it. |
| Cockpit.Store.Reset | crates/bss-cockpit/src/conversation.rs:395-408 | Deletes the session's messages and its pending row, and nothing of other sessions, at each way the two statements can end. |
| Cockpit.Store.SetPending | crates/bss-cockpit/src/conversation.rs:434-464 | At most one row a session: the new proposal replaces the old one. |
| Cockpit.Store.Consume | crates/bss-cockpit/src/conversation.rs:482-496 | Returns and deletes the row in one step; a failure reads as nothing pending. |
| AgentEvents.Gather | cli/src/repl.rs:293-362 | The event loop finds one captured call for each start, the last blocked destructive call, one executed call for each destructive completion that was not blocked, the cards, each in order, and the last final message; a call has the arguments of the last start with its call id, and none if there was none. |
| AgentEvents.ArgsForGiven | cli/src/repl.rs:323-328 | The arguments found for a call id are those of the last event that started a call with it, whatever other calls there were, and an empty object if none did. |
| AgentEvents.ExecutedAre | cli/src/repl.rs:322-338 | The executed calls are exactly the completed destructive calls that were not blocked, in order, each with its own arguments. |
| AgentEvents.FullResultDecides | cli/src/repl.rs:317-335 | Whether a completed call counts as blocked depends on its full result alone if there is one. |
| Cockpit.EndTurn | cli/src/repl.rs:364-425 | A turn stages p if and only if p is its proposal, it saw no error, it has a final message, and the assistant row and the staging are written; the row's text is the bubble. |
| Cockpit.DriveTurn | cli/src/repl.rs:233-434 | Destructive tools are allowed by the default or by exactly what was staged for this session, and the prompt has the section of that proposal; what is staged is the last blocked call with the arguments the agent gave it under its call id; the pending rows and the whole transcript after the turn. |
| Cockpit.TranscriptInOrder | cli/src/repl.rs:245-409 | A turn whose rows are all written adds the operator's line, the cards in order, and the assistant's text or the error notice, and nothing else. |
| Cockpit.RoutesIff | cli/src/repl.rs:101-158 | Which lines are commands; a line drives a turn if and only if it is /confirm, or has text, no slash in front, and is no list intent. |
| Cockpit.SlashParts | cli/src/repl.rs:479-481 | A slash line is its command, without white space, and what follows the first white space, trimmed. |
| Cockpit.HandleSlash | cli/src/repl.rs:473-577 | Of the slash commands only /reset touches a proposal, its own session's; /reset, /360 and /ports change the transcript, and /new and /switch the active session, as stated. |
| Cockpit.DriveLine | cli/src/repl.rs:99-159 | Which lines drive a turn; a turn is allowed, the default being off, exactly by the row it could consume, and the typed line does not matter; and for every line the pending rows, the transcript and the active session after it. |
| Cockpit.OnlyConfirmPermitsIff | cli/src/repl.rs:111-158 | "Only a typed /confirm permits" holds of a line if and only if it is empty, starts with a slash or matches a list intent. |
| Cockpit.SectionInjective | crates/bss-cockpit/src/prompts.rs:54-77 | The prompt section of a confirmed proposal determines its tool and its ordered arguments. |
| Cockpit.DriveIntentTurn | cli/src/repl.rs:794-832 | An intent turn writes its two rows, each of which can fail, and touches no proposal. |
| Cockpit.IntentRowsInOrder | cli/src/repl.rs:811-830 | Both rows written, they are the operator's line and then the tool's answer. |
| Cockpit.SlashNew | cli/src/repl.rs:488-513 | /new leaves messages and proposals alone and keeps the current session if the open fails. |
| Cockpit.SlashSwitch | cli/src/repl.rs:514-534 | /switch moves to a session that exists and otherwise stays. |
| CockpitHistory.PerformTurn | cli/src/repl.rs:233-434 | A turn changes the pending rows as its entry in the history says. |
| CockpitHistory.PerformLine | cli/src/repl.rs:99-159 | Whatever is typed, the pending rows change as one op of the history says, or not at all. |
| CockpitHistory.RowIsStagingInForce | crates/bss-cockpit/src/conversation.rs:434-496 | After any history a session has a pending row if and only if some staging is in force, and it is what that staging proposed. |
| CockpitHistory.AllowedIffInForce | cli/src/repl.rs:250-252 | With the default off, a turn whose consume is answered is allowed if and only if a staging of its session is in force, whatever failed before. |
| CockpitHistory.OneProposalOneTurn | cli/src/repl.rs:250-252 | With no consume failing, a turn is allowed if and only if the latest earlier turn of its session that got past its consume staged, and no reset came between. |
| CockpitHistory.StagingConsumedOnce | crates/bss-cockpit/src/conversation.rs:482-496 | No staging allows two turns. |
| CockpitHistory.AllowedRunsWhatWasStaged | cli/src/repl.rs:250-265 | The prompt section of the allowed turn is that of the proposal in force, and of no other tool or arguments. |
| CockpitHistory.NextLineTakesProposal | cli/src/repl.rs:250-252 | While a staging is in force, the next turn of the session that consumes is allowed by it, whatever was typed, and no later one is, whatever other sessions do, unless some turn has staged again. |
| CockpitHistory.OfTwoTurnsTheFirst | cli/src/repl.rs:250-252 | Of the next two turns of a session after a staging, the first is allowed and the second, if the first staged nothing, is not, whatever happens in other sessions meanwhile. |
| CockpitHistory.FailedConsumeKeepsProposal | cli/src/repl.rs:251-252 | A history in which a failed consume lets a proposal outlive a turn. |
| Bubble.FinalizeBubble | crates/bss-cockpit/src/bubble.rs:119-195 | The override chain ends in the settled text or, exactly for an uncited claim, the fallback; and when each flag is set. |
| Bubble.ProposalOverridesModel | crates/bss-cockpit/src/bubble.rs:159-191 | With a staged proposal the bubble is the proposal text or the fallback, whatever the model wrote. |
| Bubble.ProposedTextInjective | crates/bss-cockpit/src/bubble.rs:165-170 | The proposal text names one tool and one list of leading arguments. |
| Bubble.ExecutedOverridesModel | crates/bss-cockpit/src/bubble.rs:171-191 | Without a proposal, and with destructive calls run, the bubble is their wrap-up or the fallback, whatever the model wrote. |
| Bubble.ExecutedTextIff | crates/bss-cockpit/src/bubble.rs:171-185 | The wrap-up depends on the number of calls and the last one's name and first three arguments alone, and for tool names of one word it tells them. |
| Bubble.HonestTextIsShown | crates/bss-cockpit/src/bubble.rs:123-157 | What the recap filter and then the propose filter leave of the model's text is shown if it plays no proposal and makes no uncited claim. |
| Bubble.MisleadingTextIsNotShown | crates/bss-cockpit/src/bubble.rs:142-191 | A turn that called no tool and staged nothing shows no text that asks for a confirm, and no turn an uncited claim, but for the fixed notices. |
| Bubble.NoAnswerNamesTools | crates/bss-cockpit/src/bubble.rs:123-137 | The notice for an empty answer tells which tools were called, in order. |
| Bubble.KnowledgeCalledIff | crates/bss-cockpit/src/postprocess.rs:69-78 | A claim is backed if and only if a tool whose name continues after "knowledge." was called. |
| PyRepr.PyReprStr | crates/bss-cockpit/src/prompts.rs:120-143 | Pushing char by char yields the quoted, escaped string. |
| PyRepr.UnescapeEscape | crates/bss-cockpit/src/prompts.rs:118-143 | The reader takes back the string and stops at its closing quote, whatever follows. |
| PyRepr.ReadRepr | crates/bss-cockpit/src/prompts.rs:88-116 | The reader takes back any nested value and leaves what follows it. |
| PyRepr.ReprInjective | crates/bss-cockpit/src/prompts.rs:88-116 | Two values with the same repr are equal, nested and ordered. |
| PyRepr.EscapesOnlyBothQuotes | crates/bss-cockpit/src/prompts.rs:120-143 | A text without backslashes, line breaks and tabs is printed with an escape if and only if it holds both kinds of quotes. |
| PyRepr.ReprOneLine | crates/bss-cockpit/src/prompts.rs:88-143 | A printed value, however nested, holds no line break and no tab. |
| PyRepr.ArgsLineInjective | crates/bss-cockpit/src/prompts.rs:54-66 | For keys without '=' the argument line determines the whole ordered argument map. |
| PyRepr.ArgsPreviewInjective | crates/bss-cockpit/src/bubble.rs:46-60 | For such keys the preview determines the first three arguments. |
| PyRepr.ArgsLineAmbiguous | crates/bss-cockpit/src/prompts.rs:54-66 | In any argument list, merging two adjacent arguments into one key with '=' gives another list with the same printed line. |
| ArgsDetermined.NoInnerEquals | crates/bss-cockpit/src/prompts.rs:88-143 | No printed value ends in an equals sign and a printed value. |
| ArgsDetermined.SameLineIff | crates/bss-cockpit/src/prompts.rs:54-66 | Two argument lists print the same line if and only if both are empty, or their last values and the texts before them are equal. |
| ArgsDetermined.LineNeverBlank | crates/bss-cockpit/src/prompts.rs:54-66 | The line is never blank, and has an equals sign if and only if there are arguments. |
| ArgsDetermined.DeterminedIff | crates/bss-cockpit/src/prompts.rs:54-66 | No other list prints like this one if and only if it is empty, or one argument whose key does not hold a printed argument. |
| ArgsDetermined.LongerNotDetermined | crates/bss-cockpit/src/prompts.rs:54-66 | Every list of two or more arguments prints like a list of one. |
| EnvFile.ValueRoundTrip | cli/src/commands/onboard.rs:501-519 | A written value reads back as itself if and only if it is faithful: quoted without a double quote or backslash, or bare, trimmed and not in double quotes. |
| EnvFileRoundTrip.ReadEnvFile | cli/src/commands/onboard.rs:490-519 | The loop over lines reads the map the lines denote; a missing file is empty. |
| EnvFileRoundTrip.RewriteExisting | cli/src/commands/onboard.rs:541-559 | Each line is kept, rewritten or dropped, and the covered keys are recorded. |
| EnvFileRoundTrip.WriteEnvFile | cli/src/commands/onboard.rs:526-581 | The content is the rewritten lines, then the header and the variables no line covered. |
| EnvFileRoundTrip.LinesOfUnlines | cli/src/commands/onboard.rs:499-500 | Splitting joined lines gives them back, each with at most one carriage return dropped. |
| EnvFileRoundTrip.ParseLine | cli/src/commands/onboard.rs:501-508 | A written line parses to its key and its value, for every sane key. |
| EnvFileRoundTrip.RoundTrip | cli/src/commands/onboard.rs:490-581 | For sane keys and any previous file, reading the written file gives the variables if and only if every value is faithful and free of line feeds. |
| EnvFileRoundTrip.CommentsSurvive | cli/src/commands/onboard.rs:521-569 | Comment, blank and other non-assignment lines survive in order; the only new ones stand above new variables. |
| EnvFileOrder.LinesKeepOrder | cli/src/commands/onboard.rs:541-569 | Line by line: the rewritten file has the old lines in their order, without the assignments of dropped variables, then the blank, the header and the new variables in the order of the map. |
| EnvFileReading.PaddedAssignment | cli/src/commands/onboard.rs:500-509 | White space around a key and around a value does not matter. |
| EnvFileReading.UnquoteTakesOnePair | cli/src/commands/onboard.rs:510-516 | One pair of equal quotes of either kind is taken off a value, and nothing else is. |
| EnvFileReading.LastAssignmentWins | cli/src/commands/onboard.rs:500-519 | A variable is read if and only if some line sets it, with the value of the last such line. |
| EnvFileReading.BareValuesArePlain | cli/src/commands/onboard.rs:601-612 | A value is written bare only if it holds no blank, tab, hash, dollar, single quote or backquote; otherwise in double quotes. |
| EnvFileRoundTrip.WriteTwice | cli/src/commands/onboard.rs:526-581 | Writing again leaves the content unchanged if and only if no kept line of the first file still ends in a carriage return. |
| EnvFileRoundTrip.WriteReadWrite | cli/src/commands/onboard.rs:490-581 | With the header the wizard writes: what is read back is the variables, and a second write changes nothing, each if and only if its condition holds. |
| EnvFileRoundTrip.TwoReturnsShrink | cli/src/commands/onboard.rs:541-547 | A file that the second write changes. |
| ConfigCache.Cache.Current | crates/bss-cockpit/src/config.rs:220-251 | Under the lock: serve a fresh enough cache, else load and store with the mtimes taken before, else serve the last good or fail. |
| ConfigCache.KeepInv | crates/bss-cockpit/src/config.rs:184-251 | Each step of racing callers, writers and resets keeps: cached content is never older than its recorded mtimes. |
| ConfigCache.CallsSeeTheirOwnTime | crates/bss-cockpit/src/config.rs:205-251 | In any run whose writes raise the mtimes, a call that hits or reloads returns, file by file, content that was on disk while it ran; any other has met a read error or unparsable settings while it ran. |
| ConfigCache.QuietCallIsDirectLoad | crates/bss-cockpit/src/config.rs:201-251 | A call no write overlapped returns the parse of the current files, or, only if they do not parse or a read failed, the last good or the error. |
| ConfigCache.FailedLoadServesLastGood | crates/bss-cockpit/src/config.rs:238-249 | After any run, a call whose load fails gets the configuration of the last successful load since the last reset, and the error only if there is none. |
| ConfigCache.UnraisedWriteIsInvisible | crates/bss-cockpit/src/config.rs:222-229 | From any fresh state, a write to either file that leaves the mtime within the record is not seen by a call that runs alone after it. |
| ConfigCache.WriteSeenIffRaised | crates/bss-cockpit/src/config.rs:222-236 | From any fresh state reached, a call that runs alone after a write to either file returns the written version if and only if the mtime exceeds that file's record. |
| BrandingCache.Cache.CachedSettings | crates/bss-branding/src/config.rs:209-256 | Under the lock: serve on equal mtimes, defaults for an absent file, the last good for one that does not load, defaults if there is none. |
| BrandingCache.ServedIsSince | crates/bss-branding/src/config.rs:226-230 | What the cache serves for a stat reflects the disk at that stat or later. |
| BrandingCache.CallsSeeTheirOwnTime | crates/bss-branding/src/config.rs:203-256 | With distinct mtimes every call, under racing writes, removals and resets, reflects the disk at some moment while it ran, or met one that did not load and got the settings last stored by then since the last reset. |
| BrandingCache.FailedLoadServesLastGood | crates/bss-branding/src/config.rs:232-250 | After any run, a call whose load fails gets the settings last stored since the last reset and leaves the cache alone; only if there are none it gets, and stores, the defaults. |
| BrandingCache.QuietCallIsDirectLoad | crates/bss-branding/src/config.rs:203-256 | A call nothing overlapped returns what the file says, defaults without one; only a file that does not load gets anything else. |
| BrandingCache.WriteSeenIffDistinct | crates/bss-branding/src/config.rs:226-256 | A call that runs alone after a write that loads returns what was written if and only if the mtime differs from the recorded one or the settings are the cached ones. |
| BrandingCache.SecondWriteUnseen | crates/bss-branding/src/config.rs:226-230 | A run in which the second of two writes with one mtime is never seen. |
| Clock.Clock.Freeze | crates/bss-clock/src/clock.rs:99-107 | Pins the given instant or the present one; the visible time is then the pinned one. |
| Clock.Clock.Unfreeze | crates/bss-clock/src/clock.rs:113-119 | Back to wall time plus the offset kept. |
| Clock.Clock.Advance | crates/bss-clock/src/clock.rs:150-167 | Moves the visible time by delta in either mode; refuses a negative one and changes nothing. |
| ClockRuns.NoUpdateIsLost | crates/bss-clock/src/clock.rs:99-167 | After any run of concurrent compare-and-swap loops: Frozen if and only if an instant is set; the instant is the last freeze plus the deltas landed since; the offset is the sum of the deltas landed in wall mode. |
| ClockRuns.EachCallLandsOnce | crates/bss-clock/src/clock.rs:99-167 | A finished call has landed its own update exactly once, after it began; a refused one never; its failed swaps are at most the changes landed since it began. |
| ClockRuns.OffsetNeverFalls | crates/bss-clock/src/clock.rs:150-167 | Without a reset the offset never decreases. |
| ClockRuns.FreezePinsWhatItPeeked | crates/bss-clock/src/clock.rs:99-107 | A freeze at the current time pins the time of the log it peeked at, at the wall time it read, whatever landed since; it is atomic if and only if that and the whole log tell the same time. |
| ClockRuns.FreezeUndoesAdvances | crates/bss-clock/src/clock.rs:99-107 | If only advances landed since, the pinned time is short of exactly their sum; it is atomic if and only if they sum to nothing. |
| ClockRuns.AnAdvanceUndone | crates/bss-clock/src/clock.rs:99-107 | From any state there is a run in which an advance returns and a freeze then takes it back. |
| WordWrap.WrapToks | cli/src/repl_ui.rs:206-236 | The loops with their widths and separators render the greedy lines; no words give one empty line. |
| WordWrap.KeepsWords | cli/src/repl_ui.rs:206-236 | The lines hold every word once, in order. |
| WordWrap.GreedySplits | cli/src/repl_ui.rs:203-236 | Every line fits, or nothing visible precedes its last word. |
| WordWrap.GreedyIsOptimal | cli/src/repl_ui.rs:206-236 | No way to break the words into such lines needs fewer, for words of any width. |
| WordWrap.VisibleOptimal | cli/src/repl_ui.rs:206-236 | With words of width at least 1: greedy breaks them into lines that, single-spaced, fit the limit or are one word, and no other way to do so has fewer. |
| WordWrap.VisibleLinesFit | cli/src/repl_ui.rs:203-236 | With words of width at least 1, a greedy line is its words with one space between, and exceeds the limit only if it is one over-long word. |
| WordWrap.SpacedIffFirstVisible | cli/src/repl_ui.rs:215-230 | A line shows its words with one space between if and only if it is one word or its first word has a width. |
| WordWrap.SpaceIffVisibleBefore | cli/src/repl_ui.rs:226-230 | A word follows a space if and only if some word before it on the line has a width. |
| WordWrap.SplitKeepsText | cli/src/repl_ui.rs:211-214 | Splitting at spaces loses nothing but the spaces, and no piece has one. |
| WordWrap.SplitUnjoins | cli/src/repl_ui.rs:211 | Joined by single spaces the pieces are the text again. |
| WordWrap.PiecesAre | cli/src/repl_ui.rs:211-214 | The words of a run are its pieces that are not empty, in order, in its style. |
| WordWrap.WordsKeepText | cli/src/repl_ui.rs:210-214 | The words of all runs, one after the other, are their text without the spaces. |
| WrapDisplay.SgrShown | cli/src/repl_ui.rs:31-37 | A terminal shows a styled word in its style and is left in none. |
| WrapDisplay.LineShown | cli/src/repl_ui.rs:226-230 | A terminal shows a wrapped line as its words in their styles, with plain spaces. |

## Left out

- Consumer.BindConsumer: the loop is endless; the model runs it for any finite number of rounds, each a failed bind or a stream that ends.
- RelayProgress.RunRelay: the loop is endless; the model runs it for any finite number of turns. A negative batch size, which the database refuses in every turn, is outside it.
- Relay.Outbox.DrainOnce: one transaction at a time; locks between replicas are in the plane only. How a routing key is split at its dots is a parameter of `PlaneRefinement.DrainRefines`.
- ConsumerLog.DeliveryAnswered: a message id that is not a UUID counts as none; the header and properties of a parked message beyond its id, body and reason are not modelled.
- ConfigCache.Cache.Current: reads of the disk are a parameter; the races are in the transition system of the same module.
- Clock.Clock.Advance: `chrono` overflow panics and sub-unit rounding are not modelled; the value a concurrent `advance` returns is a later read, which the transition system leaves out.
- EnvFileRoundTrip.RoundTrip: the order of the map that is read is not stated; that of the lines is, in `EnvFileOrder.LinesKeepOrder`. Keys that are empty, padded, start with '#', or hold '=' or a line feed, and environments with a repeated key, are outside it.
- PyRepr.ReprInjective: numbers are tokens of number characters; how `serde_json` prints a number is not part of this model.
- Cockpit.DriveLine: which lines are list intents, and what the services answer to intents, /360 and /ports, are parameters.
- AgentEvents.Gather: which tool names are destructive and how a card renders are parameters.
- Bubble.FinalizeBubble: the pattern-based filters (tool recap, fake propose, confirm mention, handbook claim) are uninterpreted functions.
- WrapDisplay.LineShown: words that hold an escape character themselves, and codes that are not a style, are outside it.
- WordWrap.WrapToks: the Unicode display width of a word is an uninterpreted function.
- Spans, `traceparent` headers, logs and telemetry.
- Producers that write audit rows already marked and publish inline; the plane has them only as messages without an id.
- Empty relay ticks and the select of a database that fails are not steps of the plane; they change nothing.
- Autobootstrap of the two configuration files, environment overrides and logo of the branding view, and torn reads of a file being written.
- `.env` backups, their pruning, and the temporary file before the rename.
- The agent loop: a turn's event list is an arbitrary function of its permission and of the prompt section about the confirmed action.
- The `last_active_at` and `state` columns beyond open and closed, customer focus, the transcript text, and the rest of the system prompt.
- The HTTP clients, the other commands, scenarios and renderers.
