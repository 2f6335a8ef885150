# Forge: verified core

A Dafny model of the parts of Forge where state is shared, replicated or
raced for: the daemon's terminal replication protocol with its client
replicas, the replicas' scrollback cache, seven smaller concurrent state
machines of the daemon and the client, and three algorithms. `dafny verify
dfyconfig.toml` checks everything.

## How it is put together

**Terminal replication.** `TerminalTypes` holds what travels; `Engine` is a
terminal's screen, damage and delta builder; `Replica` and `Scrollback` are a
client's grid and its 5,000-row history cache as values, `Store` the same as
classes updated in place. `Handles` is the per-client policy of the registry,
`Registry` the class under its lock. `Emission` says what a numbered emission
and a snapshot show, `Flow` what order messages of one terminal may come in,
`View` what each step does to one client's view of one terminal. `Replication`
puts every terminal, client, queue, writer task, attach handler, wire and
replica into one state machine and proves its invariant; `ReplicationTheorems`
draws the guarantees for every run, `Routing` says what an emission and a
detach come to for a client in every run, `Snapshots` says exactly when a snapshot is
the emission of its number and `Reattach` exactly when a client may attach
again. `History` covers cached scrollback, over runs in which messages come
late, twice, out of order or not at all.

**State machines.** `Ipc`; `Prompts` with `PromptText`, `PromptSafety`,
`PromptMoves` and `PromptTheorems`; `LspPool` with `LspManager`; `LspSync`; `CommandPort`;
`FileWatch` with `WatchedPaths`; and `FileIndex`. Each step is no longer than
one hold of the lock the source takes, and a thread's place between holds is
part of the state. A run is any interleaving of enabled steps; theorems speak
of every state of every run.

**Algorithms.** `Boundaries` with `Tarjan` and `Graph` (import cycles),
`Worktrees` (reconcile plan), `Jsonl` (capped record reader). `Sequences` and
`Options` are shared helpers.

## What the model takes as given

- Emission, snapshot, attach and recovery each run under the core lock and are
  one step. Feeding output changes an engine only as `Engine.Fed` allows:
  damage covers what changed, history is fixed within its generation, and
  the geometry stays.
- A client asks to attach a terminal again only once it has the ack of its last
  attach of it. That the daemon has also run that attach's `finish_attach` is
  not enforced by the code; the theorems on every run take it as a premise
  (`Replication.IsOrderlyRun`), and `Reattach.AttachSafeIff` shows that it is
  exactly what is needed.
- A client takes the events of one connection in order. An ack may be
  installed ahead of events sent before it, never after events sent behind it.
- A writer task that fails is a disconnect.
- Sequence numbers, request ids, contexts and lock counters do not wrap. Where
  the source wraps and it matters (document versions, index generations), the
  wrap is modelled.

## Where the code falls short of the plain promise

1. A snapshot carries the last emitted number but may show output fed since. A
   replica is always the terminal's whole picture of some moment under its
   number, but not always the frame emitted under it: a snapshot is certain to
   be that frame exactly when nothing is pending (`Snapshots.SettledIff`, and
   `Snapshots.ReplicaRunsAhead` for a run that shows it). The next delta lands
   it exactly in any case.
2. A client that attaches again after its ack but before the daemon ran
   `finish_attach` for the first attach can get a delta before an older ack, and
   then a gap, from any such state (`Reattach.UnfinishedAttachGaps`).
3. A scrollback fetch past the end of history serves screen rows and blanks,
   which the client caches as history (`History.FetchPastTheEndMisleads`); a
   page is lasting exactly when it ends within the history of the moment
   (`History.FetchDurableIff`).
4. A language-server start that fails with a full pool still evicts a server
   (`LspPool.FailedStartEvictsIff`, `LspPool.FailedStartHappens`).
5. A file-watch callback refused by a full channel raises its flag after the
   refusal; if the worker drains the channel and looks at the flag in between,
   the change waits for the next native event (`FileWatch.LateFlagHappens`,
   `FileWatch.OnlyALateFlagStrands` for exactly when, and
   `FileWatch.RoomNeverStrands` for when never).
6. A workspace id forgotten and begun again lets an overtaken walk store its
   listing (`FileIndex.RevivedServesStale`, `FileIndex.OvertakenIsKeptIff`).
7. An open document's version wraps once it passes 2^31 - 1 (where overflow is
   not checked), and that change is malformed (`LspSync.WellFormedIff`); 2^31
   lookups are enough, and fewer never are (`LspSync.SafeLengthIff`).

The comment on `apply_delta` lists no failure beyond a resync, but a delta with
a full row narrower than a patch of the same line would panic; the model has
that outcome as `Panicked`, and no delta the daemon builds leads to it.

## Model

| member | source | states |
|---|---|---|
| Engine.DeltaRepairs | crates/terminal-core/src/snapshot.rs:57-130 | applied to any screen that agrees with the engine outside its damage, a delta's rows and column patches leave exactly the engine's screen |
| Emission.NextDeltaLandsExactly | crates/daemon/src/core.rs:6153-6187 | a replica at number n takes delta n+1 and then shows exactly the screen that delta was built from |
| Emission.SnapshotShows | crates/daemon/src/core.rs:5873-5923 | a snapshot is, whole, what the terminal is at that moment under the current number, and differs from the screen the next delta leads to only where that delta writes |
| Flow.EarlyAck | crates/client/src/store.rs:244-257 | an ack installed ahead of events queued before it leaves those events stale and the later ones in sequence |
| Store.CellGrid.FromSnapshot | crates/client/src/store.rs:468-485 | a grid from a snapshot has its screen, number, generation and the newest rows of its tail at their absolute indices |
| Replica.SnapshotIsOffered | crates/client/src/store.rs:648-658 | a replica just attached offers, at every offset within the tail and the cap, the tail's row that many lines above the viewport |
| Store.CellGrid.SeedScrollbackTail | crates/client/src/store.rs:648-658 | the tail's newest rows, at most the cap, are cached at the indices just below the viewport |
| Store.CellGrid.ApplyDelta | crates/client/src/store.rs:498-549 | stale, gap and geometry mismatch leave the grid alone; otherwise rows then patches are written, and a new generation drops the cache |
| Replica.DeltaKeepsCache | crates/client/src/store.rs:529-531 | an applied delta keeps every cached row while the generation stays, and none when it moves |
| Store.CellGrid.ApplyResync | crates/client/src/store.rs:554-567 | a resync makes the grid what attaching with that snapshot would |
| Store.CellGrid.MergeScrollback | crates/client/src/store.rs:571-605 | a page is taken only for the grid's generation, after a carried newer snapshot of the page's own generation |
| Replica.TakenPageIsOffered | crates/client/src/store.rs:571-605 | every row of a taken page of at most 2,501 rows is cached at its own index whatever was cached before; a page not taken changes nothing |
| Store.CellGrid.InsertPage | crates/client/src/store.rs:583-605 | rows go in one by one from the newest cap-full, stopping where the index would overflow |
| Store.CellGrid.InsertRow | crates/client/src/store.rs:588-605 | over the cap, the end further from the inserted row goes first |
| Store.Store.ApplyEvent | crates/client/src/store.rs:233-257 | events of unattached terminals and resyncs older than the grid are ignored, the rest applied to that terminal's grid only |
| Scrollback.InsertRowsBounded | crates/client/src/store.rs:588-605 | whatever page is inserted, a cache within 5,000 rows stays within them |
| Scrollback.SeedTailBounded | crates/client/src/store.rs:648-658 | a seeded cache never exceeds 5,000 rows, however long the tail |
| Scrollback.PageKeptFrom | crates/client/src/store.rs:571-605 | no eviction while a page of at most 2,501 rows goes in removes a row of that page |
| Scrollback.LongPageLosesItsFirstRow | crates/client/src/store.rs:571-605 | for every longer page some full cache makes it lose its first row |
| Scrollback.PageKeptIff | crates/client/src/store.rs:571-605 | pages of n rows are always wholly cached, whatever the cache held, if and only if n is at most 2,501 |
| Scrollback.RoomKeepsAll | crates/client/src/store.rs:583-605 | while there is room a page takes nothing from the cache but the rows at its own indices |
| Scrollback.PageNeverShrinks | crates/client/src/store.rs:583-605 | a cache within its cap never shrinks under a page: a row goes only for one that comes |
| History.FetchDurableIff | crates/daemon/src/core.rs:5986-6031 | a served page agrees with all later history of its generation if and only if it ends within the history of the moment |
| History.FetchPastTheEndMisleads | crates/daemon/src/core.rs:5986-6031 | without that condition a replica can offer a row its generation's history never had |
| History.RunKeeps | crates/client/src/store.rs:498-615 | over every run of output, deltas, resyncs, generation changes and fetches, everything sent and cached is true of its generation |
| History.CachedHistoryIsTrue | crates/client/src/store.rs:571-615 | in every state a row the replica offers at an offset is the daemon's row at that absolute index of that generation, and the cache is within its cap |
| History.PageHolds | crates/daemon/src/core.rs:5986-6031 | a page holds as many rows as were asked for or fit the cell budget, each the row at its own index, and a fetch is refused only for its count, its sign or the end of the counter |
| History.AttachedOffersNewest | crates/client/src/store.rs:648-658 | a replica just attached offers the newest min(200, history) rows of the terminal's history |
| Registry.ClientRegistry.SendTo | crates/daemon/src/registry.rs:118-122 | a message is queued if the client is there with room, and only that queue changes |
| Registry.ClientRegistry.BeginAttach | crates/daemon/src/registry.rs:144-154 | the client subscribes, owes nothing, and deltas are withheld from now |
| Registry.ClientRegistry.FinishAttach | crates/daemon/src/registry.rs:156-169 | withholding ends; a client that missed a delta and still subscribes is behind |
| Registry.ClientRegistry.Unsubscribe | crates/daemon/src/registry.rs:171-180 | every trace of the terminal leaves that client's handle |
| Registry.ClientRegistry.RouteTerminalDelta | crates/daemon/src/registry.rs:214-249 | each client gets the delta, a resync, a withheld mark or a lag mark by its own state, and a resync is built if and only if one wants it |
| Routing.EmissionReachesSubscriber | crates/daemon/src/registry.rs:214-249 | in every run an emission queues, for a subscriber that is not attaching and has room, exactly one message more, a resync if it lagged and the delta if not; it lags no longer and what is on its way ends at the new number |
| Routing.DetachedGetsNothing | crates/daemon/src/registry.rs:171-180 | in every run, after a detach and before the next attach, no event of that terminal is added to the client's queue |
| Registry.ClientRegistry.Recover | crates/daemon/src/registry.rs:259-287 | lagging terminals are resynced in turn while the queue is low; a snapshot that could not be queued is kept |
| Routing.RecoverLosesNothing | crates/daemon/src/registry.rs:259-287 | after a recovery each lagging terminal either lags no more, with its final or live snapshot queued if there is any, or still lags with what was kept for it |
| Routing.UnsentIsKept | crates/daemon/src/registry.rs:276-283 | a snapshot that was built but could not be queued is what the next recovery sends |
| Registry.ClientRegistry.FinishTerminal | crates/daemon/src/registry.rs:291-306 | exactly the clients that lag or missed a delta keep the final snapshot |
| View.DeltaQueued | crates/daemon/src/registry.rs:231-249 | a delta queued to an up-to-date view keeps its messages in sequence and its replica on course |
| View.Withheld | crates/daemon/src/registry.rs:214-249 | a delta withheld during an attach leaves a mark that the ack alone will not satisfy |
| View.Finishes | crates/daemon/src/server.rs:339-373 | ending an attach leaves the view current or behind, never wrong |
| View.Exits | crates/daemon/src/registry.rs:291-306 | when the terminal ends, a view that still owes something holds the final screen |
| View.TakesEvent | crates/client/src/store.rs:233-257 | taking the next event keeps the view true and never steps the replica back |
| View.InstallsAck | crates/client/src/store.rs:349-357 | installing an ack, even early, keeps the view true and never steps the replica back |
| Replication.RecoverKeeps | crates/daemon/src/registry.rs:259-287 | recovery keeps every view of the client true and the queue within bounds, and leaves no lag behind an empty queue |
| Replication.StepKeeps | crates/daemon/src/server.rs:195-373 | every step of daemon, writer, handler or client keeps the whole-system invariant, if an attach waits for the last one's handler |
| Replication.RunKeeps | crates/daemon/src/registry.rs:144-306 | the invariant holds in every state of every run whose attaches so wait |
| ReplicationTheorems.ReplicaShowsItsTerminal | crates/client/src/store.rs:498-567 | in every reachable state each replica is, whole (screen, cursor, modes, history length, generation), what its terminal was at some moment of the run when it had the replica's number; it differs from the screen its next delta leads to only where that delta writes, and is the daemon's screen when current with nothing pending |
| ReplicationTheorems.ReplicaIsItsEmission | crates/client/src/store.rs:498-567 | a replica last set by a delta, or by a snapshot taken with nothing pending, is exactly the emission of its number |
| ReplicationTheorems.NoEventEverGaps | crates/client/src/store.rs:498-504 | no event taken is ever reported as a gap, and a delta that advances the replica is the next one and lands exactly |
| ReplicationTheorems.SequenceNeverDecreases | crates/client/src/store.rs:244-257 | no step lowers an attached replica's number |
| ReplicationTheorems.NoLagIsForgotten | crates/daemon/src/server.rs:195-212 | a lagging client has a queued message, a writer about to look, or a finished attach about to recover |
| ReplicationTheorems.DrainedReplicaIsCurrent | crates/daemon/src/registry.rs:231-305 | once everything towards a client drained, each subscribed replica is at the terminal's last number, also after its exit, and shows its screen |
| ReplicationTheorems.ResponsesKeepTheirRoom | crates/daemon/src/registry.rs:15-25 | deltas and resyncs never hold more than 64 of 256 slots, so a response is refused only behind 192 other messages |
| ReplicationTheorems.SettledSnapshotIsItsEmission | crates/daemon/src/core.rs:5873-5923 | with nothing pending a snapshot is the emission of its number |
| Snapshots.SettledIff | crates/daemon/src/core.rs:5873-5923 | whatever output can have done since the last emission, a snapshot is the emission of its number if and only if nothing is pending |
| Snapshots.TerminalHolds | crates/daemon/src/core.rs:6102-6187 | in every run a terminal holds what its last emission left, or, if pending, what output can have made of that |
| Snapshots.ReplicaRunsAhead | crates/daemon/src/core.rs:5873-5923 | a run from the start that ends with an attached replica which is not the emission of its number |
| Reattach.UnfinishedAttachGaps | crates/daemon/src/server.rs:339-373 | from every state reached by attaches that so waited, in which a client may attach and the handler of its last attach has not finished, whatever is queued, attaching leads in some run to an event reported as a gap |
| Reattach.AttachSafeIff | crates/daemon/src/registry.rs:144-169 | in every such state, no run that goes on with an attach, and only with attaches that wait after it, ever gaps if and only if the handler of the client's last attach of that terminal has finished |
| Ipc.StepKeeps | crates/client/src/ipc.rs:322-366 | every step of caller, reader or disconnect keeps ids unique, waiters with their unanswered callers, and no waiter past a finished disconnect |
| Ipc.NoWaiterIsStranded | crates/client/src/ipc.rs:164-174 | after any finished disconnect a pending waiter's call has yet to check again or is about to take it back; a returned call never leaves one |
| Ipc.DisconnectWakesEveryCaller | crates/client/src/ipc.rs:322-366 | after a finished disconnect every unreturned call can take a step, or the reader holds its answer and can hand it over |
| Ipc.DisconnectSettles | crates/client/src/ipc.rs:164-174 | when nothing can move any more, every call has returned and no waiter is left |
| Ipc.AnswerIsTheCallersOwn | crates/client/src/ipc.rs:1982-2000 | an answer returned is the body of a response to the caller's own id, which reached no other call |
| Ipc.HandOverNeverBlocks | crates/client/src/ipc.rs:1982-2015 | a call is handed at most one response however often the daemon repeats it, so the reader never waits on a full channel |
| Ipc.CallsEndForAReason | crates/client/src/ipc.rs:322-366 | in every run no call returns disconnected while the connection is up, only a call given a time times out, and a blocked unanswered call still has its waiter |
| Ipc.WriteFailureHappened | crates/client/src/ipc.rs:322-366 | a call reports a failed write only if its own write failed |
| Ipc.RoutedReachesItsCall | crates/client/src/ipc.rs:1982-2000 | a response routed while its id is pending is from then on in the reader's hand for that call, in that call's channel, or found the call already returned |
| PromptText.Paste | crates/terminal-core/src/input.rs:244-259 | the byte loop computes the guarded body between the paste brackets |
| PromptText.PasteEndsOnce | crates/terminal-core/src/input.rs:244-259 | whatever the text, the end bracket occurs in a bracketed paste at its very end and nowhere else, not even across the seam |
| PromptText.CleanPastesWhole | crates/daemon/src/prompts.rs:29-43 | cleaned text loses no character to that guard |
| PromptText.PromptNeverSubmitsItself | crates/daemon/src/prompts.rs:29-43 | a cleaned prompt writes no carriage return, and outside a bracketed paste no control character at all |
| PromptText.AcceptedIff | crates/daemon/src/prompts.rs:29-43 | a prompt is accepted if and only if it fits in 8 KiB of UTF-8 and holds a kept character that is no whitespace; clean text goes through unchanged |
| PromptText.CleaningDropsInPlace | crates/daemon/src/prompts.rs:34-38 | cleaning drops a control character other than LF and TAB wherever it stands, and nothing else |
| PromptText.UnbracketedIsFlat | crates/daemon/src/prompts.rs:234-241 | unbracketed, a prompt keeps its length and every character but LF and TAB, which become spaces |
| PromptSafety.GateExcludes | crates/daemon/src/prompts.rs:137-146 | two deliveries past the gate whose target still lives are one, although a restart replaces the gate |
| PromptSafety.StepKeeps | crates/daemon/src/prompts.rs:122-260 | every step of a request, drain, user input or session change keeps the delivery invariant |
| PromptTheorems.PastedOnceWhereAccepted | crates/daemon/src/prompts.rs:122-260 | in every run a paste is of a prompt accepted for that very terminal, and no other paste anywhere carries it |
| PromptTheorems.ReturnOnlyWhenIdle | crates/daemon/src/prompts.rs:196-260 | a carriage return stands right behind its prompt's whole paste, was asked for, and the session was hook-idle in the section that consumed the prompt |
| PromptTheorems.QueuedIsUnwritten | crates/daemon/src/prompts.rs:178-192 | a queued prompt waits in one slot, for its own session, and nothing of it was written |
| PromptTheorems.RecordedIsNotOvertaken | crates/daemon/src/prompts.rs:147-192 | once recorded under the gate a delivery is never refused for a conflict or a consumed prompt, and displaces no other prompt |
| PromptTheorems.QueuedLeavesOnlyConsumed | crates/daemon/src/prompts.rs:178-260 | over every step of every run a queued prompt stays in its slot unchanged, unless that step consumes it for writing or restarts, ends or removes its own session |
| PromptTheorems.DeliveredIsWritten | crates/daemon/src/prompts.rs:196-260 | in every run a delivery reported delivered has its whole paste in its terminal's input; it is reported submitted if and only if that was asked for and the session was hook-idle when the prompt was taken, and then the carriage return stands right behind |
| PromptTheorems.DeliveryEndsForAReason | crates/daemon/src/prompts.rs:70-260 | in every run each step of a delivery brings it further; a request is recorded only from a caller that exists for a live agent with a free slot; a delivery is refused only for the fact it names, queued only for a busy live agent, fails only with its write, and takes its prompt only from a live agent, hook-idle unless it was to be written at once |
| PromptTheorems.RecordedFirst | crates/daemon/src/prompts.rs:157-177 | in every run nothing of a request is queued or written before its record is stored |
| PromptTheorems.AcceptedAsAsked | crates/daemon/src/prompts.rs:45-68 | in every run each accepted prompt is the cleaned text of one request, with that request's session and its wish to submit |
| LspManager.Manager.Begin | crates/daemon/src/lsp.rs:172-230 | use, refuse or claim, by the slot found and the server's status |
| LspPool.LookupIsAnswered | crates/daemon/src/lsp.rs:172-230 | in every run a lookup of a running server is answered with exactly that server and changes nothing, an unheld key is claimed, an exited server's key waits for its retry time, and a refusal means the pool is closed, a start is in flight, the server exited or the retry time is not reached |
| LspManager.Manager.Finish | crates/daemon/src/lsp.rs:232-262 | a started server is adopted and the pool cut to size, or handed back for shutdown if the pool closed |
| LspManager.Manager.EvictOverBudget | crates/daemon/src/lsp.rs:265-289 | exactly the least recently used servers over the budget leave, never the kept key |
| LspPool.EvictionFits | crates/daemon/src/lsp.rs:265-289 | eviction brings the pool to its capacity, keeps the kept key, and takes nothing when there is room beside it |
| LspPool.FailedStartEvictsIff | crates/daemon/src/lsp.rs:232-289 | a failed start evicts if and only if the pool was full |
| LspPool.FailedStartHappens | crates/daemon/src/lsp.rs:232-289 | for every configuration, a run that fills the pool, fails one more start and by that stops a server that was running |
| LspPool.SweepStopsTheIdle | crates/daemon/src/lsp.rs:106-140 | a sweep hands exactly the idle servers to shutdown, leaves none of them in the map and every other slot alone |
| LspPool.StepKeeps | crates/daemon/src/lsp.rs:106-289 | every lookup, start, sweep, exit and shutdown keeps claims, owners and capacity |
| LspPool.PoolWithinCapacity | crates/daemon/src/lsp.rs:166-289 | outside the lock at most max(1, max_servers) run, and no key has two starts in flight |
| LspPool.NoServerIsLost | crates/daemon/src/lsp.rs:166-289 | every server ever started is in the map, with its starter, exited or handed to shutdown, and the map holds none that was handed over or is held elsewhere |
| LspPool.AdoptionOverwritesNothing | crates/daemon/src/lsp.rs:232-262 | a finished start lands on its own claim and stays; others stay or are handed to shutdown |
| LspPool.ShutdownIsFinal | crates/daemon/src/lsp.rs:142-157 | from the shutdown on the map stays empty |
| LspPool.ShutdownReachesEveryServer | crates/daemon/src/lsp.rs:142-157 | once lookups in flight end too, every server has exited or was told to shut down |
| LspSync.Documents.SyncDocument | crates/daemon/src/lsp.rs:502-539 | a known document moves to the end and is changed if its fingerprint moved; a new one opens, closing the first of 64 |
| LspSync.Documents.Position | crates/daemon/src/lsp.rs:513 | the first document of that path, or none |
| LspSync.ServerFollows | crates/daemon/src/lsp.rs:502-539 | over any lookups that change no document whose 32-bit counter is at its end, what is sent is well formed, and the server has open exactly the listed documents, at most 64, each at its version with text of the last synced fingerprint |
| LspSync.OnlyNewsIsSent | crates/daemon/src/lsp.rs:502-539 | one more lookup sends nothing if the server's copy has the text's fingerprint, the text under the next version if it has another, and if it has none the text as a first version, after closing the oldest of 64 |
| LspSync.WellFormedIff | crates/daemon/src/lsp.rs:502-539 | over all lookups, what is sent is well formed if and only if no lookup changes a document whose counter is at its end |
| LspSync.FewLookupsCount | crates/daemon/src/lsp.rs:515-525 | in at most 2^31 - 1 lookups no counter passes the number of lookups, so none overruns |
| LspSync.AlternatingOverruns | crates/daemon/src/lsp.rs:515-525 | a run of 2^31 lookups of one document with two texts in turn whose last one overruns |
| LspSync.SafeLengthIff | crates/daemon/src/lsp.rs:502-539 | for any hash that tells two texts apart, every n lookups are well formed if and only if n is at most 2^31 - 1 |
| LspSync.OpenIsMostRecent | crates/daemon/src/lsp.rs:502-539 | the open documents are the 64 most recently looked up, in that order |
| CommandPort.LivePort.Send | crates/daemon/src/editor.rs:219-254 | a command is queued or refused whole, and a refused reload leaves the slot free |
| CommandPort.LivePort.Finish | crates/daemon/src/editor.rs:256-268 | the revision is returned, and the slot freed, for the outstanding id only |
| CommandPort.StepKeeps | crates/daemon/src/editor.rs:180-268 | every setter, writer and reader step keeps debts woken, paths in order, refreshes covered and reloads one at a time |
| CommandPort.NoDebtWithoutAWake | crates/daemon/src/editor.rs:189-217 | while the writer lives a set slot has a queued command, a setter about to send, or a writer yet to look |
| CommandPort.QuietOwesNothing | crates/daemon/src/editor.rs:481-513 | once drained, the editor was last told the last path set, a state request followed every refresh, and every accepted command was handled in order |
| CommandPort.PathsToldInOrder | crates/daemon/src/editor.rs:189-204 | paths are told in the order set, none twice |
| CommandPort.ReloadsAnsweredInTurn | crates/daemon/src/editor.rs:219-268 | at most one reload is outstanding and each answered one was answered once, in turn, with its own id and revision |
| CommandPort.SubmittedIsTakenIff | crates/daemon/src/editor.rs:219-254 | in every run a submitted command is accepted, and its reload begun, if and only if the queue has room and no other reload is unanswered; a refused one leaves no trace |
| CommandPort.AnswerSettles | crates/daemon/src/editor.rs:256-268 | in every run the answer to the outstanding reload leaves none unanswered, and any other answer settles nothing |
| CommandPort.StopsOnlyOnFailure | crates/daemon/src/editor.rs:481-513 | the writer stops only over a failed send, and a mark that cannot be encoded is none |
| CommandPort.HandledIsSent | crates/daemon/src/editor.rs:481-513 | a command counts as handled only once it was sent itself, but for a mark that cannot be encoded and a wake whose state request the refresh has just sent |
| WatchedPaths.CollectPath | crates/daemon/src/file_watch.rs:236-245 | a path under the root is in the set or the flag is raised, the flag is raised if and only if it was up or such a path met a full set, and the set stays within 32 |
| WatchedPaths.CollectPaths | crates/daemon/src/file_watch.rs:203-234 | unless the flag is raised every name of every path, aliases too, is in the set, which gains nothing else; the flag is newly raised only with the set full or a name too long |
| WatchedPaths.AliasIsNamed | crates/daemon/src/file_watch.rs:203-234 | what a client opened under a name is told to it by that name, the directory and each of its children, wherever they really are |
| FileWatch.StepKeeps | crates/daemon/src/file_watch.rs:44-136 | every callback and worker step keeps each change answered or represented |
| FileWatch.NoChangeIsLost | crates/daemon/src/file_watch.rs:44-136 | every native change is answered by a resync or all its names sent after it happened, or is in a callback, the channel, the flag, the worker's set or an owed resync |
| FileWatch.NothingSentUnasked | crates/daemon/src/file_watch.rs:72-136 | in every run each name sent is a name of a change that happened, or a resync, and a resync only once the flag was raised or a send failed |
| FileWatch.StrandsIff | crates/daemon/src/file_watch.rs:64-68 | a step leaves a change behind the flag with nothing to wake the worker if and only if it is such a late flag |
| FileWatch.OnlyALateFlagStrands | crates/daemon/src/file_watch.rs:64-68 | over every run, only and always such a late flag does it |
| FileWatch.RoomNeverStrands | crates/daemon/src/file_watch.rs:64-68 | a run in which the channel always has room for a callback's list never strands a change |
| FileWatch.LateFlagHappens | crates/daemon/src/file_watch.rs:41-136 | a run from the start in which it happens |
| FileIndex.Cache.Get | crates/daemon/src/file_index.rs:48-56 | the listing if there is one for that workspace and root |
| FileIndex.Cache.Begin | crates/daemon/src/file_index.rs:60-72 | the current fence, making a slot if there was none |
| FileIndex.Cache.Put | crates/daemon/src/file_index.rs:75-99 | the listing is stored if and only if epoch and generation are those of the fence |
| FileIndex.Cache.Invalidate | crates/daemon/src/file_index.rs:105-111 | an existing slot loses its listing and moves on a generation; none is made |
| FileIndex.OvertakenIsKeptIff | crates/daemon/src/file_index.rs:60-125 | an accepted walk is current if and only if its workspace was not forgotten while it ran |
| FileIndex.ListingIsCurrent | crates/daemon/src/file_index.rs:48-125 | with no forgotten workspace begun again, a listing handed out is from a walk of that workspace and root begun after its last invalidate, forget or clear |
| FileIndex.CurrentWalkIsServed | crates/daemon/src/file_index.rs:48-99 | in every run a walk that nothing overtook is what a reader of its workspace and root is handed once it is put |
| FileIndex.ServedUntilDropped | crates/daemon/src/file_index.rs:48-125 | an invalidate, forget or clear leaves no listing to hand out, and no other step but a put of that workspace changes it |
| FileIndex.RevivedServesStale | crates/daemon/src/file_index.rs:60-118 | with one begun again, a walk from before an invalidate is handed out after it |
| Boundaries.CycleFinder.Connect | apps/tauri/scripts/boundaries.ts:161-185 | visiting a node visits all it reaches, closes exactly the components below it and leaves the search invariant |
| Boundaries.CycleFinder.CloseComponent | apps/tauri/scripts/boundaries.ts:176-184 | what is popped is one whole strongly connected component |
| Tarjan.ComponentIsScc | apps/tauri/scripts/boundaries.ts:176-184 | the stack from a node whose low number is its own is a maximal set of mutually reachable nodes |
| Boundaries.ReachIsLoads | apps/tauri/scripts/boundaries.ts:147-154 | reaching by index is loading by name through imports that are not type-only |
| Boundaries.ReportIsExact | apps/tauri/scripts/boundaries.ts:147-188 | the report of a finished search is exactly the cycles |
| Boundaries.NoCyclesMeansOrder | apps/tauri/scripts/boundaries.ts:147-188 | without a component of two, the closing order puts each module after all it imports |
| Boundaries.CyclesOf | apps/tauri/scripts/boundaries.ts:147-188 | exactly the strongly connected components of more than one module, each once with each member once; an empty answer means a load order, self-imports aside |
| Worktrees.MakePlan | crates/daemon/src/worktrees.rs:81-121 | the loop and filters compute the plan the convergence law is about |
| Worktrees.IgnoredAfter | crates/daemon/src/worktrees.rs:66-75 | collecting spent tombstones uncovers only their own paths |
| Worktrees.OnePassConverges | crates/daemon/src/worktrees.rs:66-121 | planning again after applying a plan adopts, drops and collects nothing and keeps the same session-held rows |
| Worktrees.PassReconciles | crates/daemon/src/worktrees.rs:81-121 | after a pass every live worktree no remaining rule hides has a row, and every row no session holds is not hidden and is live or on disk |
| Worktrees.RowFate | crates/daemon/src/worktrees.rs:89-106 | a row stays if and only if a session holds it, or no rule hides it and git or the disk still has it; a row to go that a session holds is reported, and no other |
| Worktrees.NewRowsFrom | crates/daemon/src/worktrees.rs:81-90 | a row is new after a pass only if git lists a live worktree there, no rule hides it and it had no row |
| Worktrees.CollectedIff | crates/daemon/src/worktrees.rs:108-113 | a stored rule is collected if and only if it is a tombstone of a path neither listed, live or stale, nor on disk |
| Worktrees.TwoRulesAtAPathDiverge | crates/daemon/src/core.rs:792-803 | with two stored rules at one path, which the table's key forbids, it would not |
| Jsonl.PiecesAreTheInput | crates/agents/src/jsonl.rs:24-33 | the records are the input, whole and in order, each with its only line feed at its end |
| Jsonl.ReadRecord | crates/agents/src/jsonl.rs:36-65 | one turn hands over the next record, or skips an overlong one to its end, holding at most the cap and one byte |
| Jsonl.ForEach | crates/agents/src/jsonl.rs:29-68 | exactly the records within the cap, in order, stripped as `lines` strips; longer ones counted once up to the counter's end; failure reported if and only if a read failed |
| Jsonl.ReadsBack | crates/agents/src/jsonl.rs:24-68 | records written one a line are read back exactly, those within the cap handed over in order and the others counted |
| Jsonl.TerminatorsStripped | crates/agents/src/jsonl.rs:58-64 | a line ends in LF or CR LF, neither of which is handed over; an unterminated last record is whole |
| Jsonl.EveryRecordCounted | crates/agents/src/jsonl.rs:36-65 | unless the stream breaks off, each record is either handed over or counted |

## Left out

- Resizing and the shared-size policy: the geometry of a terminal is fixed.
- Titles, bells, activity marks and attention: carried by a grid, nothing is claimed about them.
- PTY reads, sockets, framing, wire encoding, tokio, thread spawning and wall-clock time: steps take their outcome as a parameter.
- Fairness and real-time progress: theorems say what is owed to whom and what a drained state looks like.
- Domain lists of the client store, pull requests, usage statistics, configuration, descriptors and the one-line request wrappers: they would add only easy members.
- Store.Store.ApplyEvent: the store keeps grids as values, so aliasing of one grid by several holders is not modelled.
- Ipc.StepKeeps: the shared map, flag and counter are fields of the state machine rather than of a class, since every caller interleaves between their uses; the 64-bit id counter does not wrap.
- PromptSafety.StepKeeps: the gate, the writer lock and the core lock are modelled, session state changes and idle reports come as steps at any time, and every other write to a terminal (keys, shell commands) is one step under its writer lock. A request refused before it becomes a prompt is not a step.
- LspPool.StepKeeps: crash histories are reduced to the retry time they allow; the probe cache and the server processes are not modelled.
- LspSync.ServerFollows: holds up to the fingerprint, whatever the hash; two texts with one fingerprint are one to it, as in the source.
- CommandPort.StepKeeps: assumes a queue with room for at least one command; the save, conflict and disk-sync branches of the editor's read loop are not modelled.
- FileWatch.StepKeeps: `resolve_directories` and the daemon's end are not modelled; the aliases of each directory are given.
- FileIndex.ListingIsCurrent: holds for fewer than 2^64 invalidates of a workspace and fewer than 2^64 clears.
- Worktrees.OnePassConverges: persistence always succeeds and no session appears between planning and applying; adopted rows take fresh ids.
- Boundaries.CyclesOf: starts from the edge list; import specifiers and path resolution are not modelled.
- Jsonl.ForEach: a stream shorter than 2^64 - 1 bytes; interrupted reads are retried by the standard library and not seen.
