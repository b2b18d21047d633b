# Verification of the WSRPC transport, the poll loop, the repository and wsrpcgen

A Dafny model of the four parts of the system whose behaviour is hardest to see from the code, with
proofs about every run, every input or every reachable state.

* **WSRPC transport** (`Framing`, `Transport`, `Completions`, `Rpc`, `NestedRpc`): length-prefixed messages received in
  pieces, classification of requests and responses, providers that accept or decline, and nested
  synchronous calls as a stack of `awaitReply` frames over one shared queue. `Transport` is the object
  with its buffer, queue and completions, each operation proved against the pure model.
* **Poll event loop** (`Signals`, `Timers`, `Alarms`, `Descriptors`, `Listener`): a signal handler that interrupts the
  loop between any two accesses to the shared flags, the timer table, the two descriptor tables that
  handlers change while the loop walks over them, and the manager's listener as that handler.
  `Timers.TimerLoop`, `Descriptors.Poller` and `Listener.Manager` are the imperative forms.
* **Repository** (`Repository`, `AddSys`, `Integrity`, `Rebuild`, `Sections`, `Reimport`, `Composed`,
  `Idempotence`): a class with its property trees flattened into tables, deleted per bundle, read back,
  and seen through the layered-override query. `AddSys.AddSys` performs the import row by row.
* **wsrpcgen** (`Codec`, `Stubs`, `Scope`, `EndToEnd`): the meaning of the generated serialisers,
  dispatcher and client calls; scope lookup and qualified names; and a call followed from the client's
  arguments to the implementation and back.

`Ucl` holds the object trees that all messages are made of.

The model follows the code. Where the code does not do what the headers and notes say, the intended
variant is modelled next to it (a `Build` parameter, or an `Intended...` function), the property is proved
for the intended variant, and for the code there is an exact condition, as an equivalence, together with an
input for which it fails:

| where | the code | the condition | a failing input |
|---|---|---|---|
| `doRecv` | stores every piece at the start of the buffer | a body arrives intact exactly when it comes in one piece: `Framing.WrittenFramingInvertsIff` | `Framing.SplitBodyIsGarbled` |
| `awaitReply` | polls again after its reply was found in the queue, and writes the timeout over the completion each time; does not look in the queue first; returns -1, that is true, on a malformed message | the promise is kept exactly when the wait read its reply itself, or timed out with no reply ever queued; after a malformed message never, but for a reply that is the timeout error itself: `NestedRpc.WrittenBuildKeepsPromiseIff`; what callers see: `Stubs.StubAfterWait` | `NestedRpc.NestedReplyIsReportedMissing`, `NestedRpc.NestedReplyIsOverwritten`, `NestedRpc.MalformedMessageReportsSuccess` |
| `processMessage` | a handler that waits lets later requests be served and answered first | answers come in the order of requests exactly when no request is read while another is being served: `NestedRpc.ArrivalOrderIff` | `NestedRpc.LaterRequestAnsweredFirst` |
| `signalFired` | read and cleared in two statements | no signal is lost exactly when none lands between the two: `Signals.NeverLosesIffRaceFree` | `Signals.CodeLosesASignal` |
| timer table | a 256th slot is given out and never dispatched | at most 256 timers are live, and 256 exactly when every slot is taken: `Timers.TimersFireAtMostOnce`; an expired timer is called exactly when its slot is below 255 and no earlier callback deletes it: `Timers.CalledIff` | `Timers.OneTimerTooMany`, `Timers.LastSlotNeverFires` |
| generated server case | a missing later argument is reported as success; a first parameter that is a list is always refused, because nothing sets `succeeded` | `Stubs.CaseAsIntendedIff` | `Stubs.MissingLaterArgumentSucceeds`, `Stubs.ListFirstIsAlwaysRejected` |
| generated server | `return -1` stands after the cases of each version | the method meant is found exactly when the first version offers it or none does: `Stubs.DispatchAsIntendedIff` | `Stubs.LaterVersionUnreachable` |
| generated client | a local deserialisation failure is overwritten by the completion's success | `EndToEnd.ResultComesBackIff` | `EndToEnd.WrongResultReportsSuccess` |
| `importProp` | pages of an instance and of its service share a group | the tree is read back exactly when no two lists share a place: `Reimport.ImportThenRebuild` | `Reimport.SharedPageIsMerged` |
| scope lookup | types of a program cannot be named from the unit; `A::B` falls back to an outer `B` | `Scope.PrintThenResolveIff` | `Scope.ProgramTypeNotFound`, `Scope.QualifiedNameFallsBack` |
| codec | an enumerator equal to `kMax`, an enum variable that was not set, an enumerator with the string of an earlier one, and a string with a NUL are not read back | `Codec.RoundTripIff`, `Codec.EnumRoundTripIff` | `Codec.UnsetEnumIsLost`, `Codec.KMaxIsLost`, `Codec.SharedStringIsMistaken`, `Codec.NulCutsString` |

## Model

| member | source | states |
|---|---|---|
| NestedRpc.NothingLostOrDuplicated | lib/eci/WSRPC.cc:301-440 | In every run of sends, waits, messages, handler returns and timeouts, of the code and of the documented variant, each response among the messages read is in exactly one place (queue or `completeWith`), and each request among them with a nonzero id is being served or was answered exactly once. |
| NestedRpc.EverythingIsHeard | lib/eci/WSRPC.cc:426-480 | Over every run, and from the events alone: the replies and the requests on record are those that were read, all of them and in order, and the delegated ids those sent with a delegate. |
| NestedRpc.StepHears | lib/eci/WSRPC.cc:426-480 | Every event is recorded as what it says, and ends at most a wait that it can end. |
| NestedRpc.OutcomeIsHeard | lib/eci/WSRPC.cc:301-378 | Every wait that ended was ended by an event of its kind, and the replies that count as arrived are those to its id among the replies read up to that event. |
| NestedRpc.DelegateGetsReply | lib/eci/WSRPC.cc:430-437 | In every run a reply to a call sent with a delegate goes to its completion as soon as it is read, and the delegate is called. |
| NestedRpc.RequestIsServed | lib/eci/WSRPC.cc:441-468 | A request's handler is called on top of whatever was running. |
| NestedRpc.WaitEnds | lib/eci/WSRPC.cc:316-351 | A wait that reads its reply or a malformed message, or gives up, ends there and then. |
| NestedRpc.ScanAfterMessage | lib/eci/WSRPC.cc:355-362 | After any other message that is handled at once, the innermost wait takes its replies out of the queue. |
| NestedRpc.DocumentedBuildKeepsPromise | hdr/eci/WSRPC.hh:192-198 | In the documented variant every wait, however nested, returns true exactly when a reply to its id had been read by then; its completion then holds exactly the error and result that the replies given to it leave there, all of which had arrived, and with a single reply what that reply says. |
| NestedRpc.WrittenBuildKeepsPromiseIff | lib/eci/WSRPC.cc:301-378 | In every run of the code a wait keeps the header's promise exactly when it read its reply itself, or timed out and no reply was ever queued; a wait cut short by a malformed message keeps it only if the last reply given to its completion is the very timeout error that the poll wrote over it. |
| NestedRpc.WrittenEndings | lib/eci/WSRPC.cc:308-347 | What the code leaves in the completion by the way the wait ended: exactly what the replies say if it read one itself; else the timeout error, next to the result of a reply taken from the queue before. |
| NestedRpc.AnswersAreNested | lib/eci/WSRPC.cc:441-472 | In every run an answer is to the request read last among those being served: requests and answers nest like brackets, those open are the ones on the stack, and each answer goes to the id of its request. |
| NestedRpc.ArrivalOrderIff | lib/eci/WSRPC.cc:354-355 | Once no request is being served, the answers were sent in the order of the requests exactly when no request was read while another was being served. |
| NestedRpc.LaterRequestAnsweredFirst | lib/eci/WSRPC.cc:354-355 | A run in which the second request is answered while the first is still being served. |
| NestedRpc.UnwindingCompletesOuterWait | lib/eci/WSRPC.cc:354-365 | When a handler returns to a wait whose reply is queued, that reply is taken out and given to its completion; the documented wait ends there, the code's goes on waiting. |
| NestedRpc.StepKeeps | lib/eci/WSRPC.cc:301-509 | Every step of sending, waiting, receiving, serving and giving up keeps the conservation laws, the shape of the stack and the account of where replies went. |
| NestedRpc.RunKeeps | lib/eci/WSRPC.cc:301-509 | The invariant holds throughout every run. |
| NestedRpc.SplitQueue | lib/eci/WSRPC.cc:356-362 | The scan splits the queue into the replies to one id and the rest, losing and duplicating none. |
| NestedRpc.NestedReplyIsReportedMissing | lib/eci/WSRPC.cc:343-365 | A reachable run of two nested waits in which the outer call's reply arrives and is completed, and the call is reported as failed, with the timeout for an error. |
| NestedRpc.NestedReplyIsOverwritten | lib/eci/WSRPC.cc:312-347 | The same nest cut short by a malformed message: success is returned and the completion holds the timeout error. |
| NestedRpc.MalformedMessageReportsSuccess | lib/eci/WSRPC.cc:343-347 | A run in which a message that does not parse makes a wait report success without any reply. |
| NestedRpc.SendAndWait | lib/eci/WSRPC.cc:482-509 | In every reachable state in which code runs, a call with a fresh id can be sent and waited for; nothing has been given to its completion, and the documented wait goes on unless an unsolicited reply to that id is queued already. |
| Completions.OnlyResultShows | lib/eci/WSRPC.cc:229-244 | After one or more replies a completion depends on what it held before only through the result. |
| Completions.CompleteMore | lib/eci/WSRPC.cc:229-244 | Completing with some replies and then with others is completing with all of them in turn. |
| Completions.LastResultStands | lib/eci/WSRPC.cc:231-240 | The result is that of the last reply that has one, even if errors came after it. |
| Framing.FramingInverts | lib/eci/WSRPC.cc:385-409 | In the documented variant, for every message sequence and every way to receive the bodies in pieces, the buffers delivered are the messages sent, in order; at any moment a prefix of them; and each call leaves fewer bytes. |
| Framing.WholeBodiesArrive | lib/eci/WSRPC.cc:385-409 | In the code, bodies that each come in one piece arrive as sent, whatever `malloc` returns. |
| Framing.WrittenFramingInvertsIff | lib/eci/WSRPC.cc:385-409 | In every run of the code, whatever `malloc` returns, a message is delivered as sent exactly when its body came in one piece. |
| Framing.SplitBodyIsGarbled | lib/eci/WSRPC.cc:398-399 | A two-byte body received in two pieces is delivered as other bytes, without its NUL. |
| Framing.HeaderInverts | lib/eci/WSRPC.cc:134-137 | The four length bytes read back as the length written. |
| Framing.CallKeeps | lib/eci/WSRPC.cc:385-409 | Every `doRecv` keeps the receiver at the right place in the stream with the right buffer contents, and uses up part of the wire. |
| Framing.NeverStuck | lib/eci/WSRPC.cc:385-409 | While bytes are left, another receive is possible. |
| Transport.Transport.Recv | lib/eci/WSRPC.cc:399 | Bytes are copied from the wire to an offset of the buffer; the rest of the buffer stays. |
| Transport.Transport.BeginMessage | lib/eci/WSRPC.cc:389-396 | Between messages the length is read and a buffer of that size allocated; inside one, nothing happens. |
| Transport.Transport.RecvBody | lib/eci/WSRPC.cc:398-399 | The body's receive is the model's `Take`. |
| Transport.Transport.DoRecv | lib/eci/WSRPC.cc:385-409 | One call is the model's `DoRecv`; it reports a full message exactly when one more buffer is delivered. |
| Transport.Transport.WriteObj | lib/eci/WSRPC.cc:131-150 | The stream sent grows by exactly one framed message. |
| Transport.Transport.SendMessage | lib/eci/WSRPC.cc:482-509 | The message is framed onto the stream sent, and its completion is remembered exactly when it has a delegate. |
| Transport.Transport.ProcessResponse | lib/eci/WSRPC.cc:430-440 | A response goes to the completion with its id or to the end of the queue, as the nested-call machine says. |
| Transport.Transport.ScanReceived | lib/eci/WSRPC.cc:356-362 | The loop over the queue takes out exactly the replies to one id, in order, and completes with them. |
| Rpc.ReplyDiscipline | lib/eci/WSRPC.cc:426-480 | For every stream of inbound messages, and handlers that do not wait for replies themselves, the ids of the responses sent are those of the requests with a nonzero integer id, one each, in order; nothing else is answered. |
| Rpc.FirstAcceptingProvider | lib/eci/WSRPC.cc:457-472 | The answer is that of the first provider that does not decline; there is none exactly when all decline. |
| Rpc.ResponseCarriesFirstAnswer | lib/eci/WSRPC.cc:457-471 | The one response to a request carries the error or the result of the first provider that does not decline, and error -32601 if all decline. |
| Rpc.OneResponse | lib/eci/WSRPC.cc:426-480 | One message gets one response under its own id, or none if it is a notification, a response or malformed. |
| Rpc.ReplyIsResponse | lib/eci/WSRPC.cc:266-278 | A reply is classified as the response to the id it carries and holds the result given, null for none. |
| Rpc.ErrorIsResponse | lib/eci/WSRPC.cc:246-264 | So is an error, which holds its code and message and no result. |
| Rpc.ClassifyIff | lib/eci/WSRPC.cc:57-105 | What a message is, in terms of its members: when it is the response to an id, and when a request with or without parameters and id. |
| Rpc.PlainRequest | lib/eci/WSRPC.cc:57-69 | A request without parameters is one, with or without an id. |
| Signals.NeverLosesIffRaceFree | lib/eci/Event-Poll.cc:299-361 | Over every interleaving and every variant, each pending signal stays noticed (flag set, or scan not past it) exactly when no signal lands between the read and the clear of the flag. |
| Signals.EveryDeliveryIsDispatched | lib/eci/Event-Poll.cc:299-408 | In every race-free run a signal that was delivered and awaits its dispatch is dispatched in every continuation in which the loop makes 3 * NSIG + 6 steps, however many signals and handlers come in between. |
| Signals.DispatchesAreBacked | lib/eci/Event-Poll.cc:306-361 | In every run, of every variant and with races or not: at every moment each signal has been dispatched at most as often as it was delivered, so none without a delivery. |
| Signals.DeliveriesAreLogged | lib/eci/Event-Poll.cc:53-64 | What the log has as delivered is what the kernel delivered, in order. |
| Signals.AtomicSwapDispatchesEveryDelivery | lib/eci/Event-Poll.cc:301-303 | With an atomic swap this holds in all runs. |
| Signals.Responds | lib/eci/Event-Poll.cc:299-408 | The bound for each point of the loop at which the signal may find it. |
| Signals.LoopApproaches | lib/eci/Event-Poll.cc:299-408 | Every step of the loop dispatches the waiting signal or brings its dispatch nearer. |
| Signals.EverySignalIsServed | lib/eci/Event-Poll.cc:299-408 | In every race-free run `loop` does not return, and poll cannot block, while a delivered signal awaits its dispatch. |
| Signals.AtomicSwapServesEverySignal | lib/eci/Event-Poll.cc:301-303 | With an atomic swap this holds in all runs. |
| Signals.AtomicSwapIsRaceFree | lib/eci/Event-Poll.cc:301-303 | An atomic swap leaves no window. |
| Signals.StepKeeps | lib/eci/Event-Poll.cc:53-64 | Every step of the handler and of the loop, outside the race, keeps the invariant. |
| Signals.RaceLoses | lib/eci/Event-Poll.cc:302-303 | The racing clear always leaves a pending signal unnoticed. |
| Signals.RaceStrands | lib/eci/Event-Poll.cc:302-303 | The signal that raced is left pending with the flag clear. |
| Signals.StrandedUntilNextSignal | lib/eci/Event-Poll.cc:299-408 | It stays so, undispatched, for as long as the loop runs without another signal. |
| Signals.CodeLosesASignal | lib/eci/Event-Poll.cc:301-303 | A run of the code that ends with a delivered signal undispatched. |
| Signals.PipeNeverDrains | lib/eci/Event-Poll.cc:382-386 | The code never takes a byte out of the self-pipe. |
| Signals.PipeHasAll | lib/eci/Event-Poll.cc:61-62 | Undrained, the self-pipe has a byte for every handler that ever returned. |
| Signals.DrainedAfterPoll | lib/eci/Event-Poll.cc:382-386 | A variant that drains it leaves nothing in it. |
| Timers.TimersFireAtMostOnce | lib/eci/Event-Poll.cc:127-340 | Over every run from the empty table in which no callback deletes its own slot, sources and valid slots are one to one, each timer armed is live or has ended once (called with its own handler, or deleted), at most 256 are live, and 256 exactly when every slot is taken. |
| Timers.CalledIff | lib/eci/Event-Poll.cc:317-340 | A timer that has expired when a pass over the slots begins is called in it exactly when its slot is below 255 and no callback run earlier in the pass deletes it. |
| Timers.CalledOnlyIfExpired | lib/eci/Event-Poll.cc:318 | Over every run from the empty table: a timer that was called had expired before, while it was armed. |
| Timers.UnexpiredStays | lib/eci/Event-Poll.cc:317-340 | A pass leaves a timer alone that has not expired, if no callback expires or deletes it. |
| Timers.VisitCalls | lib/eci/Event-Poll.cc:318-333 | The visit of its slot calls an expired timer with its own handler. |
| Timers.SlotsBound | lib/eci/Event-Poll.cc:134-145 | At most 256 timers are live, and 256 exactly when every slot is taken. |
| Timers.DispatchErasesItsOwnSource | lib/eci/Event-Poll.cc:315-340 | Erasing the source after the callback equals erasing it before: what the callback arms survives, even in the slot just freed. |
| Timers.PassKeeps | lib/eci/Event-Poll.cc:317-340 | A pass over the slots, with any lawful callbacks, keeps the table's invariant. |
| Timers.LastSlotNeverFires | lib/eci/Event-Poll.cc:317-318 | A timer in slot 255 is called in no pass of any run: it stays armed until it is deleted. |
| Timers.OneTimerTooMany | lib/eci/Event-Poll.cc:50-51 | 256 timers can be armed at once, the last of them in slot 255. |
| Timers.EmptyInOrder | lib/eci/Event-Poll.cc:265-266 | The table that `init` leaves is in order. |
| Alarms.ExpiredTimerIsCalled | lib/eci/Event-Poll.cc:53-64 | In every race-free run, a timer armed below slot 255 that expires is called within 3 * NSIG + 6 steps of the loop after its SIGALRM, if nothing deletes it in the meantime, however many signals, timers and callbacks come in between. |
| Alarms.DueIsCalled | lib/eci/Event-Poll.cc:299-361 | The bound from each point of the loop at which the signal may find it. |
| Alarms.RunKeeps | lib/eci/Event-Poll.cc:299-361 | Loop, signals and timer table stay in order together over every race-free run. |
| Timers.TimerLoop.AddTimer | lib/eci/Event-Poll.cc:127-191 | Claims the first free slot, or returns -E2BIG and changes nothing. |
| Timers.TimerLoop.DelTimer | lib/eci/Event-Poll.cc:228-256 | Frees the slot and removes its first source; returns -ENOENT in every case, as the code does. |
| Timers.TimerLoop.Expire | lib/eci/Event-Poll.cc:57-58 | Marks the slot as fired. |
| Timers.TimerLoop.DispatchSlot | lib/eci/Event-Poll.cc:318-333 | Dispatch of one slot is the model's. |
| Timers.TimerLoop.DispatchTimers | lib/eci/Event-Poll.cc:317-340 | The loop over the slots is the model's. |
| Descriptors.DispatchUnderMutation | lib/eci/Event-Poll.cc:388-404 | In one pass with handlers that remove themselves and add others: no descriptor is dispatched twice, only ready and registered ones are, an entry is skipped only right after one that removed itself and stays registered, each removal skips at most one, and the tables still agree. |
| Descriptors.PassDispatchesVisits | lib/eci/Event-Poll.cc:388-404 | The pass over the changing tables dispatches exactly the visits computed from the table before the pass. |
| Descriptors.VisitedOnce | lib/eci/Event-Poll.cc:388-404 | No descriptor is visited twice. |
| Descriptors.OnlyReadyVisited | lib/eci/Event-Poll.cc:388-397 | Only entries that poll reported are visited. |
| Descriptors.SkippedOnlyAfterRemoval | lib/eci/Event-Poll.cc:211-217 | A ready entry is skipped only if the one before it removed itself. |
| Descriptors.AtMostOneSkippedPerRemoval | lib/eci/Event-Poll.cc:211-217 | Ready entries not visited are at most as many as removals. |
| Descriptors.StaysRegistered | lib/eci/Event-Poll.cc:388-404 | A descriptor that did not remove itself is still in the table after the pass. |
| Descriptors.PassLeavesQuiet | lib/eci/Event-Poll.cc:402-403 | A pass clears every report, also that of an entry it steps over. |
| Descriptors.SecondWalkDispatchesNothing | lib/eci/Event-Poll.cc:388-408 | Walking over the table again without another poll dispatches nothing. |
| Descriptors.RegisteredHandlersAreCalled | lib/eci/Event-Poll.cc:393-397 | Each event is given to the handler that was registered for its descriptor when poll reported it, whatever other handlers did to the tables. |
| Descriptors.RegisterGivesHandler | lib/eci/Event-Poll.cc:76-79 | A new descriptor's events go to the handler it was registered with, and all others' as before. |
| Descriptors.Poller.FindHandler | lib/eci/Event-Poll.cc:393-395 | Finds the handler of the first source for a descriptor. |
| Descriptors.Poller.AddFD | lib/eci/Event-Poll.cc:66-93 | Appends to both tables. |
| Descriptors.Poller.DelFD | lib/eci/Event-Poll.cc:193-220 | Removes the first entry from each table; -ENOENT exactly when there is no poll entry. |
| Descriptors.Poller.DispatchReady | lib/eci/Event-Poll.cc:388-404 | The loop is the model's pass, visit by visit and handler by handler. |
| Listener.DescriptorsAgree | lib/eci/WSRPC.cc:521-557 | Over every run of poll rounds with accepts, hangups and reuse of descriptor numbers at any moment: poll entries, sources, transports and open descriptors are the same, each once; every readable event that is dispatched reaches exactly the one transport registered when that round's poll reported it; and each round tells exactly those, and leaves exactly those clients, that can be computed from the poll's report. |
| Listener.RoundTellsRight | lib/eci/Event-Poll.cc:388-404 | One round of the loop with the manager as handler keeps the agreement and tells no stale transport and no second one, also when a number is closed and given out again within the round. |
| Listener.ReadableIsTold | lib/eci/WSRPC.cc:551-556 | In every round each client that poll reported readable and not hung up is told exactly once, through the transport registered at the poll, unless the entry before it is a client that hung up and was dispatched; then it is not told. |
| Listener.ClientsAfterRound | lib/eci/WSRPC.cc:525-550 | After a round the clients are those at the poll, without the ones that hung up and were dispatched, and with the one accepted. |
| Listener.RoundByPoll | lib/eci/Event-Poll.cc:388-404 | A round over the changing tables does exactly what is computed from the table as poll left it. |
| Listener.RoundUnderMutation | lib/eci/Event-Poll.cc:388-404 | In such a round no descriptor is dispatched twice, only reported ones are, one that is skipped comes right after a client that hung up and stays registered, and each hangup skips at most one. |
| Listener.RoundIsPass | cmd/manager/Manager.cc:158-190 | The manager's round is a pass of the loop in which handlers remove themselves and add others. |
| Listener.EventAgrees | cmd/manager/Manager.cc:158-190 | Every event keeps the agreement of tables and transports. |
| Listener.CurrentAfter | lib/eci/WSRPC.cc:525-550 | Handling one entry changes the transport of no other entry that is still to be dispatched. |
| Listener.Manager.constructor | cmd/manager/Manager.cc:158-190 | Starts in agreement with no clients. |
| Listener.Manager.DropClient | lib/eci/WSRPC.cc:525-536 | A hangup removes transport, source and entry of the descriptor, if it is a client. |
| Listener.Manager.AcceptClient | lib/eci/WSRPC.cc:537-550 | A new client is added everywhere, under a new serial. |
| Listener.Manager.TellReaders | lib/eci/WSRPC.cc:551-556 | Tells every transport with this descriptor, in order. |
| Listener.Manager.FdEvent | lib/eci/WSRPC.cc:521-557 | An event changes the whole state as the model says. |
| Listener.Manager.DispatchReady | lib/eci/Event-Poll.cc:388-404 | The loop over the entries with the manager as handler is the model's round. |
| AddSys.AddSys.ImportProp | cmd/addsys.cc:293-383 | Row by row, recursing over pages, the tables become those of the specification. |
| AddSys.AddSys.GetOrCreateGroup | cmd/addsys.cc:319-342 | Finds the group of this parent and name, or creates it. |
| AddSys.AddSys.DeleteBundle | cmd/addsys.cc:123-165 | Deleting values and their properties one at a time, in any order, removes exactly the bundle's. |
| AddSys.AddSys.ImportInstances | cmd/addsys.cc:250-283 | The loop over instances is the specification's. |
| AddSys.AddSys.Import | cmd/addsys.cc:167-291 | For layers 1 to 4 the tables become those of the specification; otherwise nothing changes. |
| AddSys.ImportPropsAppend | cmd/addsys.cc:344-345 | Importing a list element by element from the left equals the recursive specification. |
| AddSys.SurvivingStep | cmd/addsys.cc:149-152 | Deleting the properties of one more value is deleting those of the larger set. |
| Integrity.ImportKeepsIntegrity | cmd/addsys.cc:167-383 | An import into any valid repository leaves every property with an existing parent (that it has just one of the three kinds is built into the type of parents) and an existing value, every value with an existing bundle and group, groups inside older ones, and no snapshot property dangling. |
| Integrity.ImportsKeepIntegrity | cmd/addsys.cc:167-291 | So does every sequence of imports from the empty repository on. |
| Integrity.DeleteBundleKeeps | cmd/addsys.cc:123-165 | Deleting a bundle keeps all references intact. |
| Integrity.DeleteBundleKeepsPins | cmd/addsys.cc:202-205 | Deleting a bundle of reference count 0 leaves no snapshot property dangling, if a bundle in use has a positive count. |
| Integrity.ImportPropKeeps | cmd/addsys.cc:293-383 | Importing one tree only appends rows and keeps integrity. |
| Integrity.GroupsAreAcyclic | share/repositorySchema.sql:62-71 | No group lies in itself, through however many others. |
| Integrity.ImportKeepsNamesUnique | cmd/addsys.cc:224-274 | An import creates no second service of a name, no second instance of a name in a service, and no second group of a name in a place. |
| Rebuild.ImportPropView | cmd/addsys.cc:293-383 | An import appends exactly the flattened tree to its bundle's rows and touches no other bundle's. |
| Rebuild.ReadsIsFunctional | cmd/addsys.cc:293-383 | At most one tree can be read from given rows. |
| Sections.ReadsIffClear | cmd/addsys.cc:360-382 | A list and all pages below it are read back exactly when each of their places holds just their own rows. |
| Sections.ClearIffClashFree | cmd/addsys.cc:320-322 | All places are clear exactly when lists that share a place are all empty. |
| Sections.AtFlatProps | cmd/addsys.cc:293-383 | Under each parent lie exactly the entries of the lists stored there, in order. |
| Reimport.ImportThenRebuild | cmd/addsys.cc:213-383 | Re-reading the new bundle yields the imported class, service and instance trees, exactly when no two of its lists share a page path or an instance name (unless empty), whatever other bundles exist. |
| Reimport.SharedPageIsMerged | cmd/addsys.cc:320-322 | A class with a page "p" of its own and one in an instance is not read back, whatever repository it is imported into. |
| Reimport.ClashFreeIffMergesNothing | cmd/addsys.cc:320-345 | Whether places clash in the tables can be told from the class alone. |
| Reimport.PathsDiffer | cmd/addsys.cc:324-340 | Different page paths lead to different groups. |
| Reimport.ImportView | cmd/addsys.cc:193-283 | After an import its own bundle holds the flattened class, and all other bundles are as they were, but for the old one dropped. |
| Reimport.DropOldView | cmd/addsys.cc:193-208 | Dropping the old bundle empties its view and leaves all others. |
| Composed.SelectIsOverride | lib/eci/queryGetInstancePropertiesComposed.sql:24-67 | A property is selected exactly when none of the same key has a greater (level, layer). |
| Composed.EveryKeySelected | lib/eci/queryGetInstancePropertiesComposed.sql:43-67 | Every key present at either level is selected. |
| Composed.SelectedOnce | lib/eci/queryGetInstancePropertiesComposed.sql:43-67 | Exactly once, if key, level and layer are unique. |
| Composed.DraftIsSubset | doc/notes/2021-03-01-repo.md:54-60 | The draft with independent maxima selects a subset of the final query. |
| Composed.DraftAgreesIff | doc/notes/2021-03-01-repo.md:54-60 | The two agree exactly when every key attains its highest layer at its highest level. |
| Idempotence.ReimportChangesNothing | cmd/addsys.cc:193-219 | Importing a class again at its layer over its own, unreferenced bundle leaves every instance's composed pairs and every other bundle's rows unchanged; the class is held by a bundle with a new id. |
| Idempotence.ComposedIsWinners | lib/eci/queryGetInstancePropertiesComposed.sql:6-67 | What an instance sees is the set of stored facts that no stored fact outranks. |
| Idempotence.ComposedFromTables | lib/eci/queryGetInstancePropertiesComposed.sql:6-67 | From the tables alone: an instance sees a key and content exactly when one of its own rows sets them in the highest layer of its own rows with that key, or, if none of its own rows has the key, one of its service's rows does so; rows of others play no part. |
| Idempotence.UnknownInstanceSeesNothing | lib/eci/queryGetInstancePropertiesComposed.sql:6-16 | A number that no instance has shows nothing. |
| Idempotence.ImportHolds | cmd/addsys.cc:213-283 | After an import the new bundle holds the class. |
| Idempotence.OtherImportKeepsHolding | cmd/addsys.cc:193-291 | A bundle keeps holding its class through imports of other files. |
| Codec.RoundTripIff | cmd/wsrpcgen/gen.cc:62-129 | For every schema, recursive ones included, and every value, enum variables left at `kMax` included: deserialising what was serialised, if an object was made at all, yields the value exactly when its strings hold no NUL and its enumerators are faithful. |
| Codec.BaseRoundTripIff | lib/eci/WSRPC.cc:152-201 | The same for values of builtin and named types. |
| Codec.StructRoundTripIff | cmd/wsrpcgen/gen.cc:182-249 | A struct is read back exactly when all its members are. |
| Codec.EnumRoundTripIff | cmd/wsrpcgen/gen.cc:435-516 | A value of an enum variable, any at all, is read back exactly when it is that of an enumerator, differs from `kMax`, and no earlier enumerator has its string. |
| Codec.UnsetEnumIsLost | cmd/wsrpcgen/gen.cc:411-412 | No object is made of an enum variable that was not set, unless an enumerator has the value of `kMax`; it is not read back in either case. |
| Codec.ElementsRoundTripIff | cmd/wsrpcgen/gen.cc:71-76 | A list is read back exactly when each element is; one of which no object is made is left out. |
| Codec.KMaxIsLost | cmd/wsrpcgen/gen.cc:395-398 | Of the enumerators a = 1 and b = 0, a equals `kMax` and is refused. |
| Codec.SharedStringIsMistaken | cmd/wsrpcgen/gen.cc:488-496 | The second of two enumerators with one string is read back as the first. |
| Codec.NulCutsString | lib/eci/WSRPC.cc:167-170 | Every string is read back up to its first NUL. |
| Codec.ReadHasType | cmd/wsrpcgen/gen.cc:81-129 | Whatever the peer sent, a value that is read has the declared type. |
| Codec.BuiltinsRead | lib/eci/WSRPC.cc:179-201 | Which objects each builtin type is read from, and what is read: integers modulo 2^32, strings up to the first NUL. |
| Codec.NamedRead | cmd/wsrpcgen/gen.cc:226-241 | A struct is read from objects only; an enum from strings only, as the first enumerator with the string, unless its value is `kMax`. |
| Codec.ListRead | cmd/wsrpcgen/gen.cc:96-124 | A list is read from the elements of an array, the members of an object, or anything else as its one element. |
| Codec.FieldsReadBack | cmd/wsrpcgen/gen.cc:229-241 | Members are read back together exactly when each is. |
| Codec.LookupStored | cmd/wsrpcgen/gen.cc:198-200 | A member is found under the name it was stored with, and is missing if no object was made of it. |
| Codec.IndexOfValue | cmd/wsrpcgen/gen.cc:446-460 | The first enumerator with a value, or the end if there is none. |
| Codec.IndexOfString | cmd/wsrpcgen/gen.cc:484-498 | The first enumerator with a string, or the end if there is none. |
| Stubs.WireNameInjective | cmd/wsrpcgen/gen.cc:518-521 | Two methods have the same name on the wire exactly when name and version agree. |
| Stubs.WireNameIs | cmd/wsrpcgen/gen.cc:518-521 | A wire name is the name, "_v" and the version in decimal. |
| Stubs.CaseRunsIff | cmd/wsrpcgen/gen.cc:719-774 | The implementation is called exactly when all arguments are there and deserialise and the first is no list, and on those values; otherwise `succeeded` is true exactly when the first problem is a later argument that is missing. |
| Stubs.CaseAsIntendedIff | cmd/wsrpcgen/gen.cc:734-749 | When exactly the generated case does what the design asks: call with all values, or report -32602. |
| Stubs.ListFirstIsAlwaysRejected | cmd/wsrpcgen/gen.cc:94-126 | A method whose first parameter is a list answers every call with -32602. |
| Stubs.MissingLaterArgumentSucceeds | cmd/wsrpcgen/gen.cc:734-749 | A call without its second argument is answered with success and no result. |
| Stubs.DeclinesIff | cmd/wsrpcgen/gen.cc:826-833 | The handler declines exactly when the first version does not offer the method. |
| Stubs.DispatchAsIntendedIff | cmd/wsrpcgen/gen.cc:896-914 | Running the emitted statements finds the method meant exactly when the first version offers it or no version does. |
| Stubs.EmittedIsFirstVersion | cmd/wsrpcgen/gen.cc:826-833 | The statements emitted for all versions, when run, lead to the case of the first version that has the name, or to `return -1`, and never past the first version. |
| Stubs.GenServer | cmd/wsrpcgen/gen.cc:904-907 | The loop over versions emits their statements in order. |
| Stubs.GenCases | cmd/wsrpcgen/gen.cc:826-833 | The loop over methods emits a case for each and the `else` after the last. |
| Stubs.LaterVersionUnreachable | cmd/wsrpcgen/gen.cc:904-907 | Running the emitted statements reaches no case of a later version with another number, although one is emitted for the method. |
| Stubs.MethodFound | cmd/wsrpcgen/gen.cc:722 | Among distinct names a wire name leads to its method. |
| Stubs.LocalFailureIsLost | cmd/wsrpcgen/gen.cc:584-608 | Whatever result a reply carries, the stub reports success; it has a value exactly when the result deserialises. |
| Stubs.StubTail | cmd/wsrpcgen/gen.cc:584-610 | The statements after the wait end with the completion's error, and with the value only if the wait succeeded and the result deserialised. |
| Stubs.StubAfterWait | cmd/wsrpcgen/gen.cc:584-610 | What callers of the code's stubs see in every run: the reply if the wait read it itself, and else a timeout, even if the reply had arrived; after a malformed message the timeout comes with the value of a reply taken from the queue before. |
| EndToEnd.CallsAreTransparent | cmd/wsrpcgen/gen.cc:554-613 | For every sequence of calls to a single-version program, received in any pieces on both sides: the server parses the requests built, and the client one response per call, in order and under its id, from which the stub concludes exactly what the implementation returned on the caller's arguments. |
| EndToEnd.SynchronousCall | cmd/wsrpcgen/gen.cc:554-613 | In every run of the client's transport, with requests, other replies, delegates and nested waits before, during and after the call: if the one reply to its id by the time its wait ends is the server's answer, received in any pieces, the wait reports success and the stub gives its caller exactly what the implementation returned on the caller's arguments (in the documented variant; in the code, if the wait read the answer itself). |
| EndToEnd.AnsweredAtOnce | cmd/wsrpcgen/gen.cc:554-613 | From every reachable state in which code runs, the call can be sent, waited for and answered, which leaves the stack as it was and gives the caller what the implementation returned; the documented variant would take an unsolicited reply that is queued already instead. |
| EndToEnd.CallIsTransparent | cmd/wsrpcgen/gen.cc:554-774 | The same for one call without the wire. |
| EndToEnd.ArgumentsArriveIff | cmd/wsrpcgen/gen.cc:734-749 | The implementation gets exactly the caller's arguments if and only if all are transparent and the first parameter is no list. |
| EndToEnd.ResultComesBackIff | cmd/wsrpcgen/gen.cc:763-770 | The stub concludes with what the caller should see of the implementation's outcome (its error, its value, or a local failure for a result object that does not deserialise) if and only if a value returned is transparent and a result object that was set deserialises. |
| EndToEnd.WrongResultReportsSuccess | cmd/wsrpcgen/gen.cc:596-607 | An implementation that sets a string where an integer is declared: its caller sees success without a value. |
| EndToEnd.ListFirstCallIsRefused | cmd/wsrpcgen/gen.cc:94-126 | A call whose first parameter is a list ends with -32602 whatever its arguments. |
| EndToEnd.RequestReachesCase | cmd/wsrpcgen/gen.cc:896-914 | The request reaches the case of the method called, past providers that decline. |
| EndToEnd.SentIsUnderstood | lib/eci/WSRPC.cc:482-497 | What is sent is classified as the request meant, not as a response. |
| EndToEnd.RequestIsRequest | lib/eci/WSRPC.cc:57-105 | Name, parameters and id of a request built by `sendMessage` are those read by the receiver. |
| EndToEnd.MessagesArrive | lib/eci/WSRPC.cc:411-424 | What is parsed from the buffers is what was written, in order. |
| EndToEnd.ErrorReadBack | lib/eci/WSRPC.cc:107-128 | An error is read back with its code and message. |
| EndToEnd.ResponseEndsWait | lib/eci/WSRPC.cc:349-351 | The response ends the wait for its id with success, and the completion has been given it. |
| Scope.PrintThenResolveIff | cmd/wsrpcgen/scope.cc:29-109 | Printing a definition's qualified name, splitting it and resolving the parts from the unit yields that definition exactly when every scope on the way is a type and no earlier sibling has its name. |
| Scope.ProgramTypeNotFound | cmd/wsrpcgen/scope.cc:45-55 | A type T inside a program P is not found under its printed name P::T. |
| Scope.UniqueNamesAreFirst | cmd/wsrpcgen/scope.cc:21-27 | With unique sibling names that is every definition outside programs. |
| Scope.SplitQualifiedName | cmd/wsrpcgen/scope.cc:29-43 | Splitting a printed name gives the enclosing names and its own. |
| Scope.LookupIsInnermost | cmd/wsrpcgen/scope.cc:21-27 | A name means the declaration in the innermost enclosing scope that has one. |
| Scope.LookupThenImports | cmd/wsrpcgen/scope.cc:45-55 | If no enclosing scope has one, the imports are searched. |
| Scope.ImportsDepthFirst | cmd/wsrpcgen/scope.cc:51-54 | They are searched depth first, in order. |
| Scope.QualifiedNameFallsBack | cmd/wsrpcgen/scope.cc:104 | `A::B` finds a `B` of the unit when `A` declares none. |
| Scope.SplitParts | cmd/wsrpcgen/scope.cc:93-97 | The loop splits at "::" and drops empty parts. |
| Scope.SkipColonsFacts | cmd/wsrpcgen/scope.cc:93 | The search for the start of a part passes over colons, and over all of them. |
| Scope.PartFacts | cmd/wsrpcgen/scope.cc:95-96 | A part is a prefix that ends at a separator or at the end of the name. |
| Scope.SynthInScope | cmd/wsrpcgen/scope.cc:86-109 | The definition found is that of resolving the parts one inside the other. |

## Left out

- UCL text: emission and parsing belong to libucl; `EndToEnd` takes them as two functions and asks only that the messages of the call at hand parse back.
- UCL details: implicit arrays, floating-point and time values, comments and reference counts. Of libucl it is taken that no object is made of a null string, and that inserting or appending a null object does nothing.
- SQLite: statements are table operations; quoting, the NUMERIC affinity of `PropertyGroups.Name` and of `Bundles.Filename`, and `Services.Type`, which the insert omits although it is NOT NULL.
- `process`, `processDeps`, `processInst`, `processPage`, `processProp`: the model starts from the class tree that they build.
- Snapshots: their creation is not implemented; the model keeps the set of properties they use and the reference counts.
- cmd/manager/Backend.cc and RPC.cc, lssys, the KQueue loop, sd-daemon, logging: connection set-up and thin wrappers.
- Union code generation, whose bodies are stubs, and types supplied by the user outside the IDL.
- The text of generated code: names that clash (a second iterator `it`, the literal name `suc` in list code) and versions without methods, for which an `else` stands alone; the meaning of the code is modelled as if these compiled. The `void` type is a method without a return type.
- Asynchronous client stubs: the completion with a delegate is part of `NestedRpc`, the generated dispatcher is not.
- Partial lists that a failed deserialisation leaves in an output argument, and lists that were not empty before.
- The generator's output stream, its indentation and layout.
- wsrpcgen's lexer and grammar, and file inclusion: a unit and its imports are a finite tree.
- Transport.Transport.BeginMessage: asks that the length read be nonnegative; the code passes a negative one to `malloc`, which fails, and goes on with a null buffer.
- Transport.Transport.DoRecv: asks the same of the header it reads.
- Framing.FramingInverts: asks that a text with its NUL fit the `int32_t` length and that a header arrive whole, which the code asserts.
- NestedRpc.SendAndWait: a completion is waited for once only, and never one that has a delegate; so it is in all runs of `NestedRpc`.
- NestedRpc.NothingLostOrDuplicated: ids are fresh and nonzero, while the code draws them with `rand()`; the removal of a list element during the iteration over the list is modelled as the removal that is meant.
- `awaitReply` as one method: handlers re-enter it, so its loop is the step relation of `NestedRpc`, and `Transport` has the parts of it that change the object.
- Transport.Transport.ScanReceived: the element removed is dropped without the undefined behaviour of the range-based loop.
- Timers.TimersFireAtMostOnce: a callback that deletes the slot being dispatched makes the code erase a list node twice; such callbacks are excluded.
- Timers.OneTimerTooMany: the entry past the end of the array is modelled as a slot of its own.
- Descriptors.Poller.DelFD: the `memmove` of one entry too many reads past the array and is modelled as the move that is meant.
- Signals: the statements of the signal handler and the accesses to shared flags are atomic steps; reordering by the compiler is not modelled. `awaitReply` and `poll` time out at any moment, without clocks.
- Allocation failure, write errors and the return value of `writeObj`.
