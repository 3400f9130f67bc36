# Verified model of `reactive-messaging`

`reactive-messaging` is a Rust library for writing clients and servers that exchange messages over TCP/IP, and that may
hand a connection over from one protocol to the next ("Composite Protocol Stacking"). It ships a ping-pong game as its
main example of that pattern. This project models the logic of the library and of the game, and proves what they are
for. `dafny verify dfyconfig.toml` checks all of it.

| file | what it models |
|---|---|
| `PingPongModels.dfy`, `PingPongLogic.dfy` | the game and its umpire |
| `ProtocolProcessor.dfy`, `GameDialog.dfy` | what a player does about each message, as the client and as the server |
| `PingPongMatch.dfy` | two players, each with its own umpire, and the two queues of messages between them |
| `Wire.dfy`, `TextualDialog.dfy`, `SerializedBinaryDialog.dfy`, `MmapBinaryDialog.dfy` | the three ways messages are framed on the wire: one per line, length-prefixed, of a fixed size |
| `Bits.dfy`, `Config.dfy` | the configuration packed in a 64 bits word |
| `SocketConnectionHandler.dfy` | the state a connection carries from processor to processor |
| `Connections.dfy`, `Routing.dfy`, `ServerRouting.dfy`, `ClientRouting.dfy` | the tasks that route connections between processors |
| `Termination.dfy`, `TerminationTracking.dfy` | how the end of a service is signaled and waited for |
| `ConnectionProvider.dfy` | attempts to connect to a host with several addresses |
| `Wrappers.dfy` | the stock optional value |

Code that updates things step by step is modelled as methods -- of a class, where the program has an object with fields;
over local variables, where it has a loop over them, as the three dialogs and the two loops of the length codec do --
each proved against a function on values. Protocols between several tasks are state machines, with one step for
whatever each task may do next; the main results hold after any sequence of steps. Randomness, the network, the outcome of
each send and the program's own closures are parameters, so the results hold for all of them.

## Where the code does not do what one could expect

Each of these is kept as the code has it, with the exact condition under which it matters.

- The client services the ball once when the game starts (`client_protocol_processor.rs:153-158`) and nobody answers a
  soft fault: if the opening service is a soft fault the match stalls, and only then
  (`PingPongMatch.StallsExactlyOnOpeningSoftFault`; `OpeningSoftFaultHappens` is the run).
- A report of the end of the game is taken without a look at the receiver's own umpire, although `protocol_model.rs:31`
  has the client verify it. A forged one is endorsed (`GameDialog.ForgedEndIsEndorsed`); one is rightly taken if, and only
  if, the reported action is the opponent's fault that gives us the last point, with that score
  (`GameDialog.EndIsRightlyTaken`). All other reports are accepted exactly when true (`GameDialog.AcceptsExactlyTheTruth`),
  and between honest parties so are those of the end (`PingPongMatch.MatchHasOneWinner`).
- No umpire ever declares a hard fault, so `react_to_hard_fault` always cancels the match; the branches for exceeded
  service attempts are never reached. The methods that model them prove so.
- A payload size that does not arrive in one read is lost (`serialized_binary_dialog.rs:112`): all payloads are received
  if, and only if, that never happens (`SerializedBinaryDialog.RoundTripUnlessCutInPrefix`; `CutPrefixLosesPayload` is an
  input). A vectored write may be
  partial: the wire has whole frames if, and only if, none is (`SerializedBinaryDialog.FramesAreWrittenWhole`).
- When a fixed-size dialog can't reserve a slot for one more message, the slot just published is also cancelled
  (`mmap_binary_dialog.rs:176-195`): slots are given back once if, and only if, that does not happen
  (`MmapBinaryDialog.ReleasedOnceUnlessReservationFails`; `PublishedSlotIsCancelled` is an input).
- A linger of 0 milliseconds comes back as 1 from the configuration word; everything else comes back as it was
  (`Config.ConfigRoundTrip`).
- The client's processors are good for one connection. Routing it to one that had its own, or a dialog that fails, makes
  the connection vanish with no `Disconnected` event, and nothing else does
  (`ClientRouting.ToldOfTheEndUnlessWentWrong`; `ConnectionOfFailedDialogIsLost` is a run). On the server a connection
  vanishes if, and only if, its address is unknown when a processor takes it, its dialog fails, or the routing is over
  (`ServerRouting.LostIfDropped`).
- Waiting for the end of the server ends well even if processors went away without signaling, or none was ever spawned
  (`TerminationTracking.Wait`), but fails for all who ask after the first (`ServerService.TerminationWaiter`). On the client
  it ends well exactly when enough processors ended (`Termination.LatchIsExact`).

## Model

| member | source | states |
|---|---|---|
| PingPongLogic.FaultsByPriority | examples/composite_protocol_stacking_common/logic/ping_pong_logic.rs:132-161 | both cascades of comparisons pick the first fault, by priority, whose threshold the lucky number does not exceed; soft faults only before the last attempt |
| PingPongLogic.VerdictNamesFirstFault | examples/composite_protocol_stacking_common/logic/ping_pong_logic.rs:38-74 | whatever the state, the verdict names the action and the first fault of its kind it incurs in: a soft fault allows for one more attempt, any other costs the point, and the match if it was the last; with none the turn passes |
| PingPongLogic.MirrorTwice | examples/composite_protocol_stacking_common/logic/ping_pong_logic.rs:345-388 | changing sides twice changes nothing, and keeps what umpires keep |
| PingPongLogic.MirrorTurn | examples/composite_protocol_stacking_common/logic/ping_pong_logic.rs:38-74 | a turn commutes with changing sides, in every state, for every action and whoever is said to have acted |
| PingPongLogic.MirrorMatch | examples/composite_protocol_stacking_common/logic/ping_pong_logic.rs:305-341 | umpires of opposite sides told of the same actions, whatever they are, stay mirror images with mirrored events |
| PingPongLogic.PointWinnerServesNext | examples/composite_protocol_stacking_common/logic/ping_pong_logic.rs:98-121 | the point goes to whoever did not fault, who serves next; each event tells the state the match is in; hard faults are never declared |
| PingPongLogic.PointsAddUp | examples/composite_protocol_stacking_common/logic/ping_pong_logic.rs:98-121 | along any playable sequence of actions the score grows by exactly the points awarded |
| PingPongLogic.DecidedByGracefulEnd | examples/composite_protocol_stacking_common/logic/ping_pong_logic.rs:103-122 | a match gets decided by the score exactly when a graceful end is declared, whatever comes after |
| PingPongLogic.ScoreConservation | examples/composite_protocol_stacking_common/logic/ping_pong_logic.rs:98-121 | the score is the points awarded, at most twice the goal less one; the game is gracefully ended exactly when one player, and only one, reaches it |
| PingPongLogic.Umpire.constructor | examples/composite_protocol_stacking_common/logic/ping_pong_logic.rs:22-34 | a new match, nobody with points, waiting for the first service |
| PingPongLogic.Umpire.ProcessTurn | examples/composite_protocol_stacking_common/logic/ping_pong_logic.rs:38-74 | the umpire's new state and event are those of the turn, for which the mirror and score results are proved; attempts stay in 1..3; it panics only when asked for one more turn of a finished game |
| PingPongLogic.Umpire.ProgressOnTheRally | examples/composite_protocol_stacking_common/logic/ping_pong_logic.rs:92-95 | the other player is up next |
| PingPongLogic.Umpire.ComputeLostScore | examples/composite_protocol_stacking_common/logic/ping_pong_logic.rs:98-121 | the score, the state and who is up next after a lost point, with no overflow |
| PingPongLogic.Umpire.NextTurnPlayer | examples/composite_protocol_stacking_common/logic/ping_pong_logic.rs:124-129 | players alternate |
| ProtocolProcessor.ServiceIsABatch | examples/composite_protocol_stacking_common/logic/protocol_processor.rs:132-147 | servicing ends, after as many attempts as are left at most, all soft faults but the last one |
| ProtocolProcessor.ServiceActsAnew | examples/composite_protocol_stacking_common/logic/protocol_processor.rs:132-147 | the events of a service are about different actions, in the order they were taken |
| ProtocolProcessor.ServiceBall | examples/composite_protocol_stacking_common/logic/protocol_processor.rs:132-147 | the loop services again after each soft fault, returns at most three events, and leaves the umpire where those events lead |
| ProtocolProcessor.ReactToRallyEvent | examples/composite_protocol_stacking_common/logic/protocol_processor.rs:12-42 | plays back if the report is what our umpire expects, else cancels with the rule that was broken |
| ProtocolProcessor.ReactToHardFault | examples/composite_protocol_stacking_common/logic/protocol_processor.rs:44-63 | always cancels: the branch for an expected hard fault is never reached |
| ProtocolProcessor.ReactToServiceSoftFault | examples/composite_protocol_stacking_common/logic/protocol_processor.rs:65-99 | answers nothing to the expected soft fault, else cancels; the branches for exceeded attempts are never reached |
| ProtocolProcessor.ReactToScore | examples/composite_protocol_stacking_common/logic/protocol_processor.rs:101-118 | services if the report is what our umpire expects, else cancels |
| ProtocolProcessor.OurTurnIsTrue | examples/composite_protocol_stacking_common/logic/protocol_processor.rs:12-42 | what our umpire says of our turn is true for the opponent's umpire, which stays its mirror |
| ProtocolProcessor.ServiceIsTrue | examples/composite_protocol_stacking_common/logic/protocol_processor.rs:132-147 | replaying all the events of a service on the opponent's umpire gives the mirror of ours |
| GameDialog.AcceptsExactlyTheTruth | examples/composite_protocol_stacking_server/server_protocol_processor.rs:176-237 | whatever the opponent reports, either side cancels or quits if, and only if, its own umpire does not come to the same verdict and the report is not that of the end |
| GameDialog.AnswersWithOwnActions | examples/composite_protocol_stacking_common/logic/protocol_processor.rs:12-118 | a true report is answered with events about our own actions, in order; only a soft fault has no answer |
| GameDialog.CancelsByTheRuleBroken | examples/composite_protocol_stacking_common/logic/protocol_processor.rs:12-118 | any other report, but that of the end, is answered with the cancellation for the rule it broke and the score of our umpire, or makes us leave |
| GameDialog.ClientLeavesExactlyWhen | examples/composite_protocol_stacking_client/client_protocol_processor.rs:150-240 | the messages for which the client leaves, those for which it quits and those it endorses |
| GameDialog.ServerLeavesExactlyWhen | examples/composite_protocol_stacking_server/server_protocol_processor.rs:176-262 | the messages for which the server leaves: always, and only then, with a goodbye |
| GameDialog.EndIsRightlyTaken | examples/composite_protocol_stacking_client/client_protocol_processor.rs:213-222 | any reported graceful end is taken by both sides, and endorsed by the client; our umpire would agree if, and only if, the action is the opponent's fault that gives us the last point, with that score |
| GameDialog.ForgedEndIsEndorsed | examples/composite_protocol_stacking_client/client_protocol_processor.rs:213-222 | a victory reported before the first service is not true, yet endorsed |
| GameDialog.NoCancellationIsTrue | examples/composite_protocol_stacking_common/logic/protocol_processor.rs:12-118 | a cancellation is never among reports our umpire agrees with |
| GameDialog.ClientDialogProcessor.constructor | examples/composite_protocol_stacking_client/client_protocol_processor.rs:144-149 | the client's umpire has the client service first |
| GameDialog.ClientDialogProcessor.OnServerMessage | examples/composite_protocol_stacking_client/client_protocol_processor.rs:150-240 | the client's answers, new umpire and whether its dialog goes on, for every message |
| GameDialog.ServerDialogProcessor.constructor | examples/composite_protocol_stacking_server/server_protocol_processor.rs:150-175 | the server's umpire has the opponent service first |
| GameDialog.ServerDialogProcessor.OnClientMessage | examples/composite_protocol_stacking_server/server_protocol_processor.rs:176-262 | the server's answers, new umpire and whether its dialog goes on, for every message |
| PingPongMatch.SoftFaultKeepsAgreement | examples/composite_protocol_stacking_common/logic/protocol_processor.rs:65-72 | handling a true soft fault leaves the rest of the batch true and answers nothing |
| PingPongMatch.AnswerIsAgreed | examples/composite_protocol_stacking_common/logic/protocol_processor.rs:12-118 | handling a true report that passes the turn yields a batch that is true for the other party |
| PingPongMatch.EndIsSettled | examples/composite_protocol_stacking_client/client_protocol_processor.rs:213-222 | the report of the end is graceful, and the receiver's umpire would have agreed had it seen the last action |
| PingPongMatch.HealthyStep | examples/composite_protocol_stacking_server/server_protocol_processor.rs:176-237 | every handled message leads from a phase of play to a phase of play, in any interleaving, with any luck |
| PingPongMatch.OpeningService | examples/composite_protocol_stacking_client/client_protocol_processor.rs:153-158 | the opening service is one true report, alone |
| PingPongMatch.OpeningSoftFaultStalls | examples/composite_protocol_stacking_client/client_protocol_processor.rs:153-158 | after an opening soft fault both queues get empty for good, the umpires in agreement |
| PingPongMatch.OpeningSoftFaultHappens | examples/composite_protocol_stacking_client/client_protocol_processor.rs:153-158 | with an opening soft fault, two steps are a run that ends stalled |
| PingPongMatch.RunsByPhases | examples/composite_protocol_stacking_server/server_protocol_processor.rs:176-237 | every run is in one of the phases, or stalled after an opening soft fault |
| PingPongMatch.UmpiresAlwaysAgree | examples/composite_protocol_stacking_common/logic/protocol_processor.rs:12-118 | in every run replaying the messages in flight on the receiver's umpire gives the mirror of the sender's; nobody ever cancels, quits, contests or panics |
| PingPongMatch.HalfDuplex | examples/composite_protocol_stacking_common/logic/protocol_processor.rs:65-72 | in every run at most one direction has messages, one batch of soft faults and what follows them |
| PingPongMatch.StallsExactlyOnOpeningSoftFault | examples/composite_protocol_stacking_client/client_protocol_processor.rs:153-158 | a match that goes past its opening runs until both dialogs are closed if, and only if, the opening service is not a soft fault |
| PingPongMatch.MatchHasOneWinner | examples/composite_protocol_stacking_client/client_protocol_processor.rs:213-238 | when a dialog closes there is one winner, and the two umpires are consistent on the final score |
| PingPongMatch.ConfigIsKept | examples/composite_protocol_stacking_common/logic/ping_pong_logic.rs:22-34 | both umpires play by the configuration they started with |
| TextualDialog.CutIsUnique | src/socket_connection/socket_dialog/textual_dialog.rs:126-183 | newline-free lines joined by newlines, plus a newline-free tail, are cut back into exactly these |
| TextualDialog.CutLosesNothing | src/socket_connection/socket_dialog/textual_dialog.rs:126-183 | the lines of a stream, joined again, are the stream up to its tail |
| TextualDialog.CutIncrementally | src/socket_connection/socket_dialog/textual_dialog.rs:126-183 | cutting the carry-over and what arrives gives the lines and the tail of the whole stream; the carry-over has no newline, so it is not searched again |
| TextualDialog.LinesSurviveIfNewlineFree | src/socket_connection/socket_dialog/textual_dialog.rs:105-112 | what was sent is read back as the same lines if, and only if, no serialized message has a newline |
| TextualDialog.TextualRoundTrip | src/socket_connection/socket_dialog/textual_dialog.rs:105-183 | while the processor accepts, the messages delivered are the first ones written, unchanged and in order, however the bytes were cut; all of them once all was read |
| TextualDialog.DeliveredOneByOne | src/socket_connection/socket_dialog/textual_dialog.rs:131-169 | each line that is a message the processor takes is delivered after those taken before it, and nothing else is |
| TextualDialog.EndsExactlyWhen | src/socket_connection/socket_dialog/textual_dialog.rs:94-200 | with no channel that gives up, all lines of what arrived were offered and only a wake-up ended the dialog; a line ends it exactly when the processor gave up on its message, or the peer on being told of a refusal or of an unknown line |
| TextualDialog.OfferLine | src/socket_connection/socket_dialog/textual_dialog.rs:131-169 | a line is offered once, its message delivered if the channel takes it, and the dialog goes on unless a channel gave up |
| TextualDialog.OfferNextLine | src/socket_connection/socket_dialog/textual_dialog.rs:128-181 | the next complete line of the buffer is offered, if there is one; the bytes searched before are not searched again |
| TextualDialog.OfferLines | src/socket_connection/socket_dialog/textual_dialog.rs:126-183 | looking for newlines in the bytes just arrived only, all complete lines of the buffer are offered in order, or those up to the first that ends the dialog; tells where the tail starts |
| TextualDialog.OnRead | src/socket_connection/socket_dialog/textual_dialog.rs:122-184 | after a read the lines offered are those of all bytes ever received, and the carry-over is their tail |
| TextualDialog.Write | src/socket_connection/socket_dialog/textual_dialog.rs:103-113 | the wire gets one more serialized message and its newline |
| TextualDialog.DialogLoop | src/socket_connection/socket_dialog/textual_dialog.rs:94-200 | for any interleaving of reads and writes: what was offered, delivered and written, why the dialog ended, and whether the connection was reported closed |
| TextualDialog.WrittenIsDelivered | src/socket_connection/socket_dialog/textual_dialog.rs:94-200 | what one dialog delivers is the first messages another one wrote, even if either ended half way |
| SerializedBinaryDialog.MinBytesIsLeast | src/socket_connection/socket_dialog/serialized_binary_dialog.rs:224-231 | the number of bytes is the least in which the value fits |
| SerializedBinaryDialog.MinBytesForUsize | src/socket_connection/socket_dialog/serialized_binary_dialog.rs:224-231 | the loop computes that number |
| SerializedBinaryDialog.LengthSurvivesIfItFits | src/socket_connection/socket_dialog/serialized_binary_dialog.rs:132-132 | a length comes back from the first bytes of its little endian representation if, and only if, it fits them |
| SerializedBinaryDialog.LengthBelowLimitSurvives | src/socket_connection/socket_dialog/serialized_binary_dialog.rs:87-132 | every length below a sender limit that is not above the receiver's survives |
| SerializedBinaryDialog.EncodesWhatWasDecoded | src/socket_connection/socket_dialog/serialized_binary_dialog.rs:235-241 | decoding loses nothing: the bytes are the representation of the value |
| SerializedBinaryDialog.DecodeUsizeMin | src/socket_connection/socket_dialog/serialized_binary_dialog.rs:235-241 | or-ing the shifted bytes gives the number they represent |
| SerializedBinaryDialog.KeptIsAccountedFor | src/socket_connection/socket_dialog/serialized_binary_dialog.rs:107-215 | for any stream of bytes, framed or not, the payloads emitted, each after the size read for it, and what is being read are all the bytes that were not dropped |
| SerializedBinaryDialog.FramesInOneWay | src/socket_connection/socket_dialog/serialized_binary_dialog.rs:107-215 | there is one way to see a stream as frames |
| SerializedBinaryDialog.KeptUnlessCutInPrefix | src/socket_connection/socket_dialog/serialized_binary_dialog.rs:109-114 | bytes are dropped if, and only if, a read ends inside a payload size |
| SerializedBinaryDialog.PayloadsComeInOrder | src/socket_connection/socket_dialog/serialized_binary_dialog.rs:107-215 | what was emitted is the first payloads written, and what is being read the beginning of the next: no read crosses the end of a frame |
| SerializedBinaryDialog.RoundTripUnlessCutInPrefix | src/socket_connection/socket_dialog/serialized_binary_dialog.rs:107-215 | once all bytes arrived the payloads were all emitted, and nothing else, if and only if no read ended inside a payload size |
| SerializedBinaryDialog.CutPrefixLosesPayload | src/socket_connection/socket_dialog/serialized_binary_dialog.rs:107-215 | a size that comes in two reads makes the payload after it be lost |
| SerializedBinaryDialog.TakenInOrder | src/socket_connection/socket_dialog/serialized_binary_dialog.rs:170-190 | each payload accepted is at the position given by how many were before it, and there is nothing else; with no refusals, all payloads in order |
| SerializedBinaryDialog.EndsExactlyWhen | src/socket_connection/socket_dialog/serialized_binary_dialog.rs:107-215 | the dialog goes through all wake-ups that let it; a payload ends it exactly when the processor gave up on it, or the peer on being told it was refused; the connection is reported closed unless the sender ended |
| SerializedBinaryDialog.FramesAreWrittenWhole | src/socket_connection/socket_dialog/serialized_binary_dialog.rs:129-141 | the wire carries the frames of what was sent if, and only if, no vectored write was partial |
| SerializedBinaryDialog.OnRead | src/socket_connection/socket_dialog/serialized_binary_dialog.rs:154-193 | a read fills the size or the payload; a full payload is offered once, and the dialog goes on unless a channel gave up |
| SerializedBinaryDialog.OnWakeUp | src/socket_connection/socket_dialog/serialized_binary_dialog.rs:121-215 | each wake-up keeps the account of what was emitted, taken and written, and ends the dialog when it has to |
| SerializedBinaryDialog.DialogLoop | src/socket_connection/socket_dialog/serialized_binary_dialog.rs:107-215 | for any interleaving of reads and writes: what was emitted, taken and written, why the dialog ended, and whether the connection was reported closed |
| SerializedBinaryDialog.WrittenIsEmitted | src/socket_connection/socket_dialog/serialized_binary_dialog.rs:107-215 | what one dialog emits is the first payloads another one sent, with whole writes and sizes read whole |
| SerializedBinaryDialog.WrittenIsTaken | src/socket_connection/socket_dialog/serialized_binary_dialog.rs:107-215 | what its processor takes is, of the payloads the other one sent, the first ones; only those it refuses are missing |
| MmapBinaryDialog.CutInOneWay | src/socket_connection/socket_dialog/mmap_binary_dialog.rs:167-179 | there is one way to see a stream as blocks of a size plus less than one |
| MmapBinaryDialog.BlockIsThere | src/socket_connection/socket_dialog/mmap_binary_dialog.rs:167-179 | the block number i is at i times the size in the stream |
| MmapBinaryDialog.FixedSizeRoundTrip | src/socket_connection/socket_dialog/mmap_binary_dialog.rs:134-195 | what was published is the first messages written, unchanged and in order, and the slot in hand has the beginning of the next one |
| MmapBinaryDialog.WrittenIsPublished | src/socket_connection/socket_dialog/mmap_binary_dialog.rs:136-194 | what one dialog publishes is the first messages another one wrote, even if either ended half way |
| MmapBinaryDialog.ReleasedOnceUnlessReservationFails | src/socket_connection/socket_dialog/mmap_binary_dialog.rs:170-195 | each slot reserved is published or cancelled once if, and only if, the dialog did not end for failing to reserve another; then the last one is both |
| MmapBinaryDialog.EndsExactlyWhen | src/socket_connection/socket_dialog/mmap_binary_dialog.rs:66-197 | the dialog starts if there is a slot, and goes through all wake-ups that let it unless there is no slot for one more message; when the connection is reported closed |
| MmapBinaryDialog.PublishedSlotIsCancelled | src/socket_connection/socket_dialog/mmap_binary_dialog.rs:170-195 | with one message and no slot for another, any dialog ends with the slot published and cancelled |
| MmapBinaryDialog.ReceivedLenIsPartial | src/socket_connection/socket_dialog/mmap_binary_dialog.rs:170-178 | a full block is never left in the slot |
| MmapBinaryDialog.AllocateReaderSlot | src/socket_connection/socket_dialog/mmap_binary_dialog.rs:92-131 | a slot of the size of a message, or none; and when none makes the connection be reported closed |
| MmapBinaryDialog.ReadInto | src/socket_connection/socket_dialog/mmap_binary_dialog.rs:167-170 | a read is put in the slot after what was there, in place |
| MmapBinaryDialog.OnRead | src/socket_connection/socket_dialog/mmap_binary_dialog.rs:167-179 | a full slot is published and another one reserved; slots once published are not written over |
| MmapBinaryDialog.OnWakeUp | src/socket_connection/socket_dialog/mmap_binary_dialog.rs:138-193 | each wake-up keeps the account of what arrived and was sent, and ends the dialog when it has to |
| MmapBinaryDialog.ConnectionLoop | src/socket_connection/socket_dialog/mmap_binary_dialog.rs:136-194 | for any interleaving of reads and writes the published slots are the consecutive blocks of the bytes that arrived |
| MmapBinaryDialog.DialogLoop | src/socket_connection/socket_dialog/mmap_binary_dialog.rs:66-197 | the same for a whole dialog, with the slots reserved, published and cancelled by it; it does not start without a first slot |
| Config.GetsWhatWasSet | src/config.rs:331-350 | for all words, ranges and fitting values, what was set in a range of bits is what is got from it |
| Config.SetsNothingElse | src/config.rs:340-350 | setting a range leaves every disjoint range as it was |
| Config.SetsWhatFits | src/config.rs:340-350 | setting panics exactly when the value does not fit |
| Config.GetsAPowerOf2 | src/config.rs:353-356 | what is got is a power of 2 with the logarithm that is there, and fits the type |
| Config.FormRoundTrip | src/config.rs:36-55 | a message form has a representation exactly when its size is a power of 2, and comes back from it |
| Config.StrategyRoundTrip | src/config.rs:87-110 | every retrying strategy comes back from its representation, which fits the bits reserved for it |
| Config.OptionsRoundTrip | src/config.rs:130-162 | socket options have a representation exactly when the linger is absent, 0 or a power of 2, and come back from it but for a linger of 0 |
| Config.PackedIsUnpacked | src/config.rs:244-259 | for any disjoint ranges, values are packed exactly when all fit, and each is got back from its own range |
| Config.LayoutIsSound | src/config.rs:199-215 | the ranges of the eight fields are disjoint, within 64 bits |
| Config.Into | src/config.rs:244-259 | setting the fields one after the other packs the configuration, or panics |
| Config.PackedIfPackable | src/config.rs:244-259 | packing does not panic exactly when sizes and timeout are powers of 2, the options have a representation and the instruments fit |
| Config.ConfigRoundTrip | src/config.rs:244-282 | every configuration that can be packed comes back from its word, if and only if its linger is not 0 |
| Config.PackedInOneWay | src/config.rs:244-282 | a word is the packed configuration if, and only if, it holds all its fields and nothing else |
| Config.StrategyReprRoundTrip | src/config.rs:87-110 | bits that hold a strategy come back from it if, and only if, those of a strategy with no data have none |
| Config.OptionsReprRoundTrip | src/config.rs:130-162 | 16 bits come back from the options they hold if, and only if, absent options have no data |
| Config.WordRoundTrip | src/config.rs:244-282 | a word comes back from the configuration it holds if, and only if, it has no bits that mean nothing |
| Config.SetsAbove | src/config.rs:340-350 | setting bits above all those in use adds the value times the power of 2 of its place |
| Config.WordIsWeighed | src/config.rs:244-259 | the word as a number: the logarithm or representation of each field with the weight of its place |
| Config.StrategyIsWeighed | src/config.rs:87-97 | the number that represents each retrying strategy |
| Config.OptionsAreWeighed | src/config.rs:130-146 | the number that represents socket options |
| Config.FormIsWeighed | src/config.rs:36-44 | the number that represents a message form |
| SocketConnectionHandler.SocketConnection.constructor | src/socket_connection/connection.rs:32-39 | a connection starts open, with the initial state |
| SocketConnectionHandler.SocketConnection.SetState | src/socket_connection/connection.rs:57-59 | the state is replaced |
| SocketConnectionHandler.SocketConnection.ReportClosed | src/socket_connection/connection.rs:65-67 | closed is for good |
| SocketConnectionHandler.Peer.constructor | src/socket_connection/peer.rs:42-49 | the peer starts with the id and the state of the connection |
| SocketConnectionHandler.Peer.SetState | src/socket_connection/peer.rs:79-81 | the state of the peer is replaced |
| SocketConnectionHandler.Peer.TakeState | src/socket_connection/peer.rs:113-115 | the state is taken: it is not there any more |
| SocketConnectionHandler.SpecialistDialogLoop | src/socket_connection/socket_connection_handler.rs:239-239 | whatever the program does to the state of the peer, one operation after the other |
| SocketConnectionHandler.DialogLoop | src/socket_connection/socket_connection_handler.rs:219-257 | the connection is given back exactly when nothing failed, with the state left in the peer, or else the one it came with |
| SocketConnectionHandler.Client | src/socket_connection/socket_connection_handler.rs:148-209 | the same from the very start, with a new peer: the connection that comes back, its state, and if it is closed |
| SocketConnectionHandler.LastStateLeftStays | src/socket_connection/socket_connection_handler.rs:239-255 | after any number of hops the state is the one set last in the last dialog that ended with setting one |
| SocketConnectionHandler.InitialStateStays | src/socket_connection/socket_connection_handler.rs:239-255 | or the initial one if none did |
| Routing.StageIsHistory | src/socket_services/socket_server/socket_server.rs:357-406 | a connection whose life makes sense is announced once, before it is routed, and its end at most once, after all the rest |
| ServerRouting.EveryStepIsMove | src/socket_services/socket_server/socket_server.rs:357-406 | whatever happens in the server moves a connection from one place to another, drops it, or does not touch it |
| ServerRouting.ReceiveIsMove | src/socket_connection/socket_connection_handler.rs:70-79 | a processor takes a connection into a dialog, or drops it when its address is not known |
| ServerRouting.FinishIsMove | src/socket_connection/socket_connection_handler.rs:117-131 | a dialog gives its connection back, or drops it when it ends in an error or the routing is over |
| ServerRouting.RoutingIsSound | src/socket_services/socket_server/socket_server.rs:357-406 | in every run each connection is in exactly one place, has the right history, is announced over exactly if it is, and no processor has one reported closed |
| ServerRouting.StateIsHandedOff | src/socket_connection/socket_connection_handler.rs:239-255 | in every run, wherever a connection is -- in a channel, with the router or in a dialog -- it has the state its dialogs so far left it with, and is closed if, and only if, any of them reported it so |
| ServerRouting.ClosureSeesLastStateLeft | src/socket_services/socket_server/socket_server.rs:370-377 | so the routing closure sees, of a connection that came back, the state set last in the last dialog that ended with setting one, or else the initial one |
| ServerRouting.GoesWhereRouted | src/socket_services/socket_server/socket_server.rs:364-388 | in every run, a connection is being sent to, waiting for or in a dialog with no other processor than the one it was last routed to |
| ServerRouting.NeverRoutedOnceClosed | src/socket_services/socket_server/socket_server.rs:371-376 | in every run, once a dialog reported a connection closed it is never routed again |
| ServerRouting.FirstComeFirstServed | src/socket_services/socket_server/socket_server.rs:357-388 | in every run, connections are announced in the order they were accepted, each processor takes those routed to it in the order they were, and they are routed again in the order they came back |
| ServerRouting.LostIfDropped | src/socket_connection/socket_connection_handler.rs:70-131 | in every run a connection is lost if, and only if, a step dropped it: its address unknown, its dialog failed, or the routing over |
| ServerRouting.StepKeepsOpenOnes | src/socket_services/socket_server/socket_server.rs:374-376 | a connection reported closed is not sent to any processor |
| ServerRouting.NeverStuck | src/socket_services/socket_server/socket_server.rs:357-406 | full channels do not make a deadlock: while someone holds a connection and the routing goes on, some connection may proceed |
| ServerRouting.RoutingTask.constructor | src/socket_services/socket_server/socket_server.rs:270-285 | the routing starts with nothing |
| ServerRouting.RoutingTask.RouteOne | src/socket_services/socket_server/socket_server.rs:357-405 | a round of the loop is a step of the server: the connection is announced if it is new, and sent to the processor the closure answered for it or, with none or if it was reported closed, told to be over |
| ClientRouting.EveryStepIsMove | src/socket_services/socket_client/socket_client.rs:467-510 | whatever happens in the client moves the connection from one place to another, drops it, or does not touch it |
| ClientRouting.EveryStepCounts | src/socket_services/socket_client/socket_client.rs:418-438 | each step uses up some of what the processors still may do |
| ClientRouting.RunsAreShort | src/socket_services/socket_client/socket_client.rs:418-438 | so every run ends |
| ClientRouting.StepKeepsWellFormed | src/socket_services/socket_client/socket_client.rs:418-438 | each processor has one session at most, and none with a connection reported closed |
| ClientRouting.SessionsUseUpProcessors | src/socket_services/socket_client/socket_client.rs:418-438 | a session starts only by using up a processor that had none; those left bound the sessions to come |
| ClientRouting.DoomedByBadStep | src/socket_services/socket_client/socket_client.rs:418-510 | the connection has no way to go but to be lost if, and only if, it already had none or this step is a routing to a processor that had its connection or the failure of a dialog |
| ClientRouting.RoutingIsSound | src/socket_services/socket_client/socket_client.rs:467-510 | in every run the connection is in exactly one place, with the right history |
| ClientRouting.StateIsHandedOff | src/socket_connection/socket_connection_handler.rs:239-255 | in every run, wherever the connection is, it has the state its dialogs so far left it with, and is closed if, and only if, any of them reported it so |
| ClientRouting.ClosureSeesLastStateLeft | src/socket_services/socket_client/socket_client.rs:479-485 | so the routing closure sees the state set last in the last dialog that ended with setting one, or else the initial one |
| ClientRouting.GoesWhereRouted | src/socket_services/socket_client/socket_client.rs:477-497 | in every run, the connection is being sent to, waiting for or in a dialog with no other processor than the one it was last routed to |
| ClientRouting.NeverRoutedOnceClosed | src/socket_services/socket_client/socket_client.rs:479-485 | in every run, once a dialog reported the connection closed it is never routed again |
| ClientRouting.ToldInOrder | src/socket_services/socket_client/socket_client.rs:418-510 | `Connected` comes first and once, `Disconnected` at most once and last; one session a processor; and no more than five steps a processor, plus three |
| ClientRouting.RestsOverOrLost | src/socket_services/socket_client/socket_client.rs:467-510 | nothing more can happen, without the program giving up its channels, only once the connection is over or lost |
| ClientRouting.ToldOfTheEndUnlessWentWrong | src/socket_services/socket_client/socket_client.rs:467-510 | at rest, whoever still holds channels, the program was told `Disconnected` if, and only if, no dialog failed and no routing chose a processor that had had its connection |
| ClientRouting.ConnectionOfFailedDialogIsLost | src/socket_services/socket_client/socket_client.rs:431-436 | a run in which a dialog fails comes to rest, another processor unused, with no `Disconnected` |
| ClientRouting.RoutingTask.constructor | src/socket_services/socket_client/socket_client.rs:449-453 | the routing starts with the connection just made |
| ClientRouting.RoutingTask.RouteOne | src/socket_services/socket_client/socket_client.rs:469-507 | a round of the loop is a step of the client: the connection is announced if it is new, and sent to the processor the closure answered for it or, with none or if it was reported closed, told to be over, with which the loop ends |
| Termination.StepKeepsOneSignal | src/socket_services/socket_client/common.rs:38-47 | the right of a processor to signal is in one place: not used, dropped, with one of its handlers, or spent |
| Termination.RunWaitsAsAsked | src/socket_services/socket_client/socket_client.rs:514-526 | in every run, there are as many processors as were spawned, and a wait is for as many as had been when it was asked for |
| Termination.RunFinishesByCallback | src/socket_services/socket_client/common.rs:50-62 | in every run, a processor counts as finished exactly once a callback for an event that ends it returned |
| Termination.SignalsMeanTermination | src/socket_services/socket_client/common.rs:31-65 | however events interleave each processor signals at most once, after the callback for an event that ends it returned in it; a wait that ends well counted exactly as many signals as processors had been spawned when it was asked for |
| Termination.LatchIsExact | src/socket_services/socket_client/socket_client.rs:514-532 | once all is handled, the wait ended well if, and only if, events that end them were reported to at least as many processors as had been spawned when it was asked for |
| TerminationTracking.ClientSignalsOnFirstEnd | src/socket_services/socket_client/common.rs:48-64 | the program is told of all events, and the signal follows the first that ends the processor |
| TerminationTracking.ConnectedWhilePeerIsThere | src/socket_services/socket_client/common.rs:50-58 | the client is said to be connected exactly from the arrival of its peer until it leaves |
| TerminationTracking.ServerSignalsOnFirstTermination | src/socket_services/socket_server/common.rs:35-49 | only the first local termination is heard, and the signal follows it; peers that leave do not matter |
| TerminationTracking.ClientTracker.constructor | src/socket_services/socket_client/common.rs:31-33 | a tracker starts with its signaler |
| TerminationTracking.ClientTracker.UserProvidedCallback | src/socket_services/socket_client/common.rs:52-52 | the program is told of the event |
| TerminationTracking.ClientTracker.ReportServiceTermination | src/socket_services/socket_client/common.rs:38-47 | the signaler is taken, and used if it was there |
| TerminationTracking.ClientTracker.OnEvent | src/socket_services/socket_client/common.rs:48-64 | the callback first, the signal after it |
| TerminationTracking.ServerTracker.constructor | src/socket_services/socket_server/common.rs:30-31 | a tracker starts with its signaler |
| TerminationTracking.ServerTracker.OnEvent | src/socket_services/socket_server/common.rs:35-49 | the signaler is taken first: without it a local termination is not heard |
| TerminationTracking.NothingLeftOnceAsked | src/socket_services/socket_server/socket_server.rs:413-414 | all processors spawned are to wait for, until the first to ask takes their receivers |
| TerminationTracking.ServerService.constructor | src/socket_services/socket_server/socket_server.rs:279-279 | no processors, but receivers there are to take |
| TerminationTracking.ServerService.Spawn | src/socket_services/socket_server/socket_server.rs:311-313 | one more processor to wait for |
| TerminationTracking.ServerService.TerminationWaiter | src/socket_services/socket_server/socket_server.rs:413-420 | the first to ask is given the receivers of all processors spawned, be it none; others get nothing |
| TerminationTracking.Wait | src/socket_services/socket_server/socket_server.rs:417-428 | the wait ends well exactly for who was given receivers, whatever the signals; those missing are only reported |
| ConnectionProvider.ConnectContinuation.constructor | src/socket_connection/connection_provider.rs:106-108 | no address is known at first |
| ConnectionProvider.ConnectContinuation.Connect | src/socket_connection/connection_provider.rs:109-141 | an attempt goes for the next address, resolving the host only when there is none left; an error of the resolver is fatal, no addresses a panic; nothing resolved is skipped or tried twice |
| ConnectionProvider.AttemptsGoRound | src/socket_connection/connection_provider.rs:100-141 | while the host resolves to the same addresses, attempts go round all of them, in order |

## Left out

- Tokio's sockets, scheduling, timers and flush timeouts: they are the events, outcomes and interleavings the results
  quantify over. That sending has priority over receiving is one of the interleavings.
- The channels and executors of `reactive-mutiny` and the retries of `keen-retry`: a send is taken, refused, or refused
  with a request to abort. They are not part of this model.
- RON, rkyv and pointer casts: (de)serialization is a function, with an inverse where the result says so. A serializer
  is expected to clear its buffer before writing to it, as these two do.
- Floating point: lucky numbers and probabilities are real numbers, so the comparisons that pick a fault have no NaN.
- PingPongMatch.UmpiresAlwaysAgree: the two queues deliver every message, in order; that is what the dialogs are proved
  to do, but the models are not composed. Dishonest opponents are in `GameDialog.dfy` only, one report at a time.
- PingPongMatch.MatchHasOneWinner: the umpire told of the end is not shown the last action, so the relation is the one it
  would have if it were.
- SerializedBinaryDialog.RoundTripUnlessCutInPrefix: payloads are not empty (the program asserts so in debug builds) and
  both ends use the same prefix width, as they have to; `Vec::with_capacity` is taken to give exactly the capacity asked for.
- SerializedBinaryDialog.DialogLoop: the receiver's limit is positive, as the program asserts in debug builds. Those also
  stop at a size of 0; the others, modelled here, read into a buffer that Tokio makes 64 bytes long.
- TextualDialog.WrittenIsDelivered: a write that fails puts nothing on the wire, where it may have put a part of it; the
  same goes for the other two dialogs.
- MmapBinaryDialog.DialogLoop: the memory of slots is allocated anew; that a channel reuses it once a message was
  consumed is not modelled.
- Config.ConfigRoundTrip: the instruments are the number `reactive-mutiny` represents them with.
- ServerRouting.RoutingIsSound: connection ids do not wrap around, so it holds for the first 2^32 connections of a
  program; connections fed by hand to the server are not modelled.
- ClientRouting.ToldInOrder: the ids of connections of other clients in the same program are not modelled.
- TerminationTracking.ServerSignalsOnFirstTermination: events are handled one at a time; for the client any interleaving
  is in `Termination.dfy`.
- Termination.LatchIsExact: whether the client is connected is in `TerminationTracking.dfy` only. A second waiter, which
  gets an error at once, is not modelled.
- The order of `PeerLeft` relative to `Disconnected`, which depends on timeouts.
- The pre-game handshake of the example, its sessions and its metrics; the macros and the services with one protocol
  only; the benchmarks: they would add only easy members.
