# CheIME front end: verified models

CheIME is an input method for Windows. Its front end is a text service loaded into every application:
it sends keys over a named pipe to an engine process, applies the engine's actions to the document
through the Text Services Framework, and shows candidates in a window of its own. This project models
the parts of that front end, and of the engine's end of the pipe, that are state machines or
algorithms, and proves what they keep.

`dafny verify dfyconfig.toml` checks everything. Each module stands for one source component. Where
the source changes fields, buffers or arrays in place the model is a class whose methods are proved
against functions; the promises are then lemmas about those functions. `Numbers.dfy` and `Wrappers.dfy`
hold what the modules share.

| file | what it models |
|---|---|
| `Framing.dfy`, `Pipe.dfy` | length-prefixed framing over a pipe that delivers arbitrary pieces, interruptions and timeouts; the buffered and the blocking reader; the writer |
| `Deadlines.dfy` | what ends a read: its exact outcome from the events the pipe meets |
| `Handshake.dfy`, `Admission.dfy` | the two parties of the handshake, byte by byte, in every interleaving, and the hand-over to the unbuffered reader; who gets a session, and that those who should do |
| `SessionRunner.dfy` | the engine's session loop on pipes that may break or fail to flush anywhere |
| `Protocol.dfy`, `FrontendSession.dfy`, `Dispatch.dfy`, `Separators.dfy` | the messages, the client's identity and sequence state, the dispatch of engine messages with one preedit held back, and the projection of syllable breaks onto the input |
| `IoThread.dfy` | the client's connected loop, built from all of the above |
| `Apartment.dfy` | activation tokens, focus tickets and the references held |
| `Activation.dfy` | `ActivateEx`, `Deactivate` and the focus callbacks as programs that stop at every outside call and may be re-entered there |
| `ActivationLedgers.dfy` | what the host has advised, against what the service holds and what the calls on the stack answer for |
| `Publication.dfy`, `ActivationCells.dfy` | where window, channel and I/O thread are, against the log of publications and deactivations |
| `ActivationScripts.dfy`, `ActivationOutcomes.dfy` | calls that are not re-entered, and the two re-entrancies by which window, channel and I/O thread go wrong; what such calls, failing ones included, leave in the fields of the service |
| `ActivationLoans.dfy`, `ActivationSubscriptions.dfy` | the loans of the subscription cells, what they leave in them, and how a subscription outlives its activation or its focus |
| `EditSession.dfy` | actions applied to a host document, every call of which may fail; the callback whose payload is taken once |
| `Rollback.dfy`, `TakeBack.dfy` | the window in which a Backspace takes back what was learned from a commit; the same together with the document |
| `TextExtent.dfy`, `PositionRetries.dfy` | the asynchronous text-extent requests and their retry timer: bounds, and that it keeps trying |
| `RowGeometry.dfy`, `WindowLayout.dfy`, `Outline.dfy` | rows, text alignment and hit test of the candidate window; what its settings mean; its outline rasteriser |
| `ComLifetime.dfy` | reference counts, live objects and server locks |

## How the outside is modelled

- A pipe handle is a script: pieces of data, interruptions, refusals (with whether the caller's
  deadline has passed by then) and breakage, in any order; an exhausted script is end of input. The
  message codec is any pair of functions with `decode(encode(m)) == m` and payload lengths in
  `1..=max_size < 2^32`. Clocks are inputs.
- Activation runs against any sequence of host events: a reply to the topmost outside call, or a new call
  of `ActivateEx`, `Deactivate` or a focus callback at any moment, on top of the calls that wait. An advise
  or an unadvise takes effect between two moments at which the host may call back.
- A host document is a text of UTF-16 units, a selection and the ranges of its open compositions. An
  edit carries other anchors along: at or before the start of the edited range they stay, at or behind
  its end they move with it. Each call site may fail, and a failing call has no effect.
- Connecting, posting window messages and sending into channels are recorded attempts.
- The session engine is an arbitrary function from a state and a message to a new state and replies,
  or to an error.

## Results that are not plain guarantees

Some expected properties do not hold as stated. The project then proves exactly when they do.

- **Activation.** Over every re-entrancy the advised sinks and subscriptions balance (`BooksBalance`), but
  window, channel and I/O thread need not follow the activation. A deactivation that re-enters between
  publication and storing leaves them in a service that is not active (`DeactivatedWhileAttaching`); an
  activation that completes while a deactivation drops the language bar loses its own to that deactivation
  (`ActivatedWhileEnding`). They match the state exactly when neither happened within the last outermost
  call of this kind (`CellsMatchState`, `StoredExactlyWhileLive`).
- **Subscriptions.** A cell holds what its last loan ended with (`HeldExactlyWhenLastLoanKept`). A deactivation
  skips a cell that is on loan, so one that re-enters while a sink is being advised leaves the subscription with
  a service that is not active (`DeactivatedWhileSubscribing`); a subscription held after a deactivation is due
  to such a loan or to a later one for a context (`HeldAfterDeactivation`, `QuietDeactivationLeavesNothing`).
  Nor need the subscribed context be the focused one: a focus callback may skip the cell, or be followed by an
  older replacement (`FocusMovedDuringLoan`, `OlderReplacementComesLast`); it is exactly when the last loan
  was taken for it and kept (`SubscribedToFocusExactly`).
- **Focus tickets.** A ticket is meant to be refused once the focus changed. A completed activation without a
  focus replaces the focus and an abort drops its identity without making tickets stale, so an older update
  can still be installed (`StaleTicketIsHonoured`, `OlderUpdateIsInstalled`); `TicketCurrentIffUnchanged` and
  `TicketRefusedThoughUnchanged` say exactly when a ticket and the focus disagree.
- **Separators.** Using a projection as the annotation gives the projection again for input without typed
  separators, and for other input exactly when the first of them leads it or already has an apostrophe
  before it (`ProjectIsIdempotent`, `IdempotenceExample`). Projecting the same annotation onto an already
  projected text inserts further apostrophes unless there was nothing to separate
  (`ReprojectingDoublesApostrophes`, with an example). An apostrophe typed inside the input can
  be doubled; `BesideTyped` says exactly when (`DoublingExample`).
- **Dispatch.** A commit or cancellation is posted at once and overtakes a preedit that is held back;
  order across kinds is kept exactly when that does not happen (`OrderIsKeptUnlessOvertaken`,
  `CommitOvertakesPreedit`). A preedit still held when the connection ends is dropped:
  exactly the last one, if no snapshot followed it (`EngineIsHeardInFull`).
- **Commits under failing calls.** If anything fails on the composition path after its text is written,
  the selection path inserts the text a second time; if the range could not be written, the preedit
  stays; in both cases the host's composition is left open although the slot is empty
  (`CommitUnderFaults`; call by call in `RangeCallFails`, `CaretCallFails`, `FinishingCallFails`). The comment at crates/cheime-tip/src/edit_session.rs:265
  speaks of cleaning up composition state regardless; by then the slot is always empty, so that call
  never has anything to end.
- **Preedits under failing calls.** When the range of a just started composition cannot be read, the
  composition is ended without clearing its text (`PreeditAtCaretUnderFaults`); a selection that the
  preedit replaced is gone even if the preedit is taken back (`PreeditUnderFaults`).
- **Edit-session results.** A rejected request whose callback nevertheless ran sends two results, an
  accepted one that is never run sends none (`RequestEditSession`).
- **Rollback.** A commit that is applied but cannot arm the guard still excuses one more end-edit
  notification without closing the window of the commit before it (`UnarmedCommitKeepsWindowOpen`); the
  bound on notifications accounts for such commits (`OpenWindowIsQuiet`). What a Backspace takes back is
  the end of the commit's own text exactly when that was not empty and every change since spared its last
  unit (`TokenTakesBackItsCommit`); otherwise it takes the end of the change, or an older unit, and sends the
  token all the same (`UnsparedChangeIsTakenInstead`, `EmptyCommitTakesOlderUnit`).
- **Document notifications.** The comment at crates/cheime-tip/src/tsf_interfaces.rs:1478-1480 says that
  the notification for an unrelated document is a no-op. The pattern before it also matches when nothing
  was cleared, so with a current ticket the subscriptions of the focused context are dropped all the same
  (`UnrelatedUninitUnsubscribes`).
- **Deactivation.** The identity of the last focused document outlives a deactivation
  (`IdentityOutlivesDeactivation`).
- **Generations.** Activation tokens are safe for fewer than 2^64 steps and not beyond
  (`WrapRevivesToken`); text-extent generations for fewer than 2^64 - 1 invalidations (`SameGeneration`).
- **Hidden window.** Hiding does not forget the snapshot, so a later layout change places it again
  (`LayoutAfterHideAsksAgain`, `LayoutAfterNewsAsksAgain`).
- **Timers.** A timer that is killed may have queued its message, which still asks for the place
  (`StaleTimerAsksAgain`); the bounds on attempts count such messages (`AtMostSevenAttempts`,
  `AttemptsArePaidByNews`).
- **Rows.** In a vertical window with nothing to show, no width asked for and only a left margin, candidate
  rows stick out by a pixel (`RowsStayInsideMargins`, `HollowWindow`); the preedit row begins at the
  window's edge (`PreeditRowStays`).
- **Sessions.** Connection ids of 2^63 and above share one session (`SessionsCollideOnlyWhenSaturated`).

## Model

| member | source | states |
|---|---|---|
| `Framing.LeRoundTrip` | crates/cheime-tip-core/src/pipe.rs:25-27 | the four little-endian header bytes read back as the length, modulo 2^32 |
| `Framing.LeUnique` | crates/cheime-tip-core/src/pipe.rs:207-207 | every four-byte header is the header of the length it reads as |
| `Framing.ParsedFrameIsPrefix` | crates/cheime-tip-core/src/pipe.rs:198-213 | a frame that is decoded is, byte for byte, the front of the buffer |
| `Framing.ParseFrameIsStable` | crates/cheime-tip-core/src/pipe.rs:198-213 | more bytes behind a whole frame or a refused header never change the verdict on it |
| `Framing.ParseWrittenFrame` | crates/cheime-tip-core/src/pipe.rs:17-34 | a written frame is found again whatever follows it |
| `Framing.ParsePartialFrame` | crates/cheime-tip-core/src/pipe.rs:198-213 | a strict prefix of a written frame is never taken for a frame nor refused |
| `Framing.StreamRoundTrip` | crates/cheime-tip-core/src/pipe.rs:17-34 | the stream of the written frames of a list of messages means exactly that list, ended cleanly |
| `Framing.CutStream` | crates/cheime-tip-core/src/pipe.rs:215-228 | a stream cut inside a frame gives the whole frames before the cut and then the matching truncation error |
| `Framing.NextReadConserves` | crates/cheime-tip-core/src/pipe.rs:112-114 | a read of the handle neither loses nor invents bytes, for every script of pieces, interruptions and refusals |
| `Framing.DecodeAccounts` | crates/cheime-tip-core/src/pipe.rs:198-213 | what a decode drains is the frame of what it returns |
| `Framing.WaitingBufferIsShort` | crates/cheime-tip-core/src/pipe.rs:203-210 | a reader that still waits holds less than one legal frame |
| `Framing.RefusedLength` | crates/cheime-tip-core/src/pipe.rs:235-245 | a header that announces nothing or too much is refused for the length it announces, whatever follows |
| `Framing.ReadConserves` | crates/cheime-tip-core/src/pipe.rs:102-133 | one buffered read, whatever its outcome: bytes buffered and to come equal bytes drained, buffered and to come; errors and timeouts discard nothing |
| `Framing.ReadAccounts` | crates/cheime-tip-core/src/pipe.rs:102-190 | the bytes one read drains are exactly the frame of the message or payload it returns, and none on any other outcome |
| `Framing.ReadIsBounded` | crates/cheime-tip-core/src/pipe.rs:102-228 | the buffer never exceeds max_size + 4099 bytes, and a truncation report names a legal length larger than what arrived |
| `Framing.RunConserves` | crates/cheime-tip-core/src/pipe.rs:102-190 | over any mix of the three buffered reads, bytes received are, in order, the frames of what each read returned, followed by the buffer |
| `Framing.UndecodableFrameBlocks` | crates/cheime-tip-core/src/pipe.rs:198-245 | a whole frame that does not decode stays at the front for ever; only a raw read gets past it |
| `Framing.RetryShortensScript` | crates/cheime-tip-core/src/pipe.rs:117-128 | a read that is to be retried has consumed an event of the handle, so retrying makes progress |
| `Framing.ReadMeetsStream` | crates/cheime-tip-core/src/pipe.rs:102-157 | one call of a decoding read, against the meaning of the whole stream: it takes the first message off, reports the ending, or changes nothing; which of these it does at which event is stated in `Deadlines` |
| `Framing.CollectIsParse` | crates/cheime-tip-core/src/pipe.rs:102-157 | repeated `read_message_until` or `try_read_frame`, under every chunking, timeout and interruption, returns exactly the messages and the ending of the byte stream |
| `Framing.ReadExactTakesPrefix` | crates/cheime-tip-core/src/pipe.rs:276-291 | the exact read takes the first n bytes of the stream, fewer only at its end |
| `Framing.BlockingReadMeetsStream` | crates/cheime-tip-core/src/pipe.rs:60-99 | one blocking read, against the meaning of the whole stream |
| `Framing.CollectBlockingIsParse` | crates/cheime-tip-core/src/pipe.rs:60-99 | repeated blocking reads return the same messages and ending as the buffered ones, for every byte stream |
| `Framing.WrittenMessagesArrive` | crates/cheime-tip-core/src/pipe.rs:17-157 | every list of encodable messages, delivered in any pieces, is returned in order and then the end of the stream, by all three readers |
| `Framing.NextFrame` | crates/cheime-tip-core/src/pipe.rs:198-213 | a written frame in front of a stream is its first message |
| `Deadlines.ReadsThrough` | crates/cheime-tip-core/src/pipe.rs:102-133 | interruptions, an empty pipe before the deadline, and bytes that complete no frame leave a read running with those bytes in its buffer |
| `Deadlines.ReadAnswers` | crates/cheime-tip-core/src/pipe.rs:102-245 | as soon as the bytes received hold a whole frame or a refused header, that is the outcome, and no later event is used up |
| `Deadlines.ReadStops` | crates/cheime-tip-core/src/pipe.rs:102-228 | while they hold neither, the first event that cannot be waited out decides and is used up: the end of input with the report its bytes call for, a broken handle, a passed deadline or, without waiting, an empty pipe; all that arrived stays buffered |
| `Deadlines.WaitingIsInvisible` | crates/cheime-tip-core/src/pipe.rs:117-128 | interruptions, and an empty pipe before the deadline, change neither what a waiting read delivers nor what it leaves |
| `Deadlines.TimesOutAfterWaiting` | crates/cheime-tip-core/src/pipe.rs:117-128 | when the deadline has passed after such waiting, the read times out at that event, keeps its buffer and leaves the rest |
| `Deadlines.TimesOutExactly` | crates/cheime-tip-core/src/pipe.rs:117-128 | a deadline read times out exactly when an empty pipe is met after the deadline before a frame is complete, and at the first such event |
| `Deadlines.NotYetOnlyWhenEmpty` | crates/cheime-tip-core/src/pipe.rs:139-157 | the non-waiting read never times out, and says not yet exactly when it meets an empty pipe before a frame is complete |
| `Deadlines.CountFails` | crates/cheime-tip-core/src/pipe.rs:276-291 | the exact read fails at the event at which the handle breaks or would have blocked, if it is not filled by then |
| `Deadlines.BlockingReadFails` | crates/cheime-tip-core/src/pipe.rs:60-99 | so does the blocking read in the middle of a message, in its header or in its payload |
| `Pipe.ByteSource.ReadInto` | crates/cheime-tip-core/src/pipe.rs:276-286 | a read into the rest of a slice writes the bytes delivered and nothing else |
| `Pipe.ByteSink.Write` | crates/cheime-tip-core/src/pipe.rs:29-31 | a write takes a piece of its own choosing and appends exactly that |
| `Pipe.PipeWriter.WriteAll` | crates/cheime-tip-core/src/pipe.rs:29-31 | `write_all` writes everything, or up to where the pipe broke, and succeeds exactly when everything fits |
| `Pipe.PipeWriter.WriteMessage` | crates/cheime-tip-core/src/pipe.rs:17-34 | a message goes out as one whole frame; an encoding error leaves the pipe untouched; a broken pipe holds a prefix of the frame |
| `Pipe.PipeReader.DecodeBuffered` | crates/cheime-tip-core/src/pipe.rs:198-245 | decodes the frame at the front and drains exactly it; on any other outcome the buffer stays |
| `Pipe.PipeReader.ReadUntil` | crates/cheime-tip-core/src/pipe.rs:102-190 | the two deadline reads compute the read step whose outcome `Deadlines` states event by event, and keep the buffer bounded |
| `Pipe.PipeReader.TryReadFrame` | crates/cheime-tip-core/src/pipe.rs:139-157 | the non-waiting read computes the specified read step and keeps the buffer bounded |
| `Pipe.PipeReader.ReadExactCount` | crates/cheime-tip-core/src/pipe.rs:276-291 | fills the target with the next bytes of the handle and counts them |
| `Pipe.PipeReader.ReadMessage` | crates/cheime-tip-core/src/pipe.rs:60-99 | the blocking read computes the specified blocking step, straight from the handle and past the buffer |
| `Handshake.OnlyFrame` | crates/cheime-engine-host/src/server.rs:201-207 | where only one frame is left on a link, the frame found is that one and nothing is behind it in the buffer, in flight or unwritten |
| `Handshake.StepKeepsToServer` | crates/cheime-engine-host/src/server.rs:184-257 | every step of either party keeps: before the acknowledgement the client has written at most its one hello frame; in session the buffer is empty and the loop misses no byte |
| `Handshake.StepKeepsToClient` | crates/cheime-tip/src/io_thread.rs:381-417 | every step keeps: no reply is under way before the server has decided |
| `Handshake.ReachableOk` | crates/cheime-engine-host/src/server.rs:184-257 | both invariants hold after every interleaving and every chunking |
| `Handshake.PrefixParses` | crates/cheime-tip-core/src/pipe.rs:60-99 | a stream cut anywhere is understood as a prefix of its messages, with no error but truncation |
| `Handshake.HandOverIsClean` | crates/cheime-engine-host/src/server.rs:201-257 | when the server switches to the reader that ignores the buffer, the buffer is empty and the session loop sees the client's messages from their first byte |
| `Handshake.EveryMessageIsHeard` | crates/cheime-engine-host/src/server.rs:243-257 | once everything written is read, the session has understood every message sent |
| `Handshake.PipelinedMessageIsLost` | crates/cheime-engine-host/src/server.rs:201-257 | why the client must wait: a message sent together with the hello is read into the buffer and never heard |
| `Admission.StepKeepsGreeting` | crates/cheime-engine-host/src/server.rs:184-257 | every step keeps: nothing reaches the server before the client accepted its greeting, and a session means that both sides accepted |
| `Admission.StepKeepsReply` | crates/cheime-engine-host/src/server.rs:208-257 | every step keeps: what a waiting client can find is nothing or the reply that the verdict on the hello calls for, and then exactly what the session wrote |
| `Admission.VerdictsAreHonoured` | crates/cheime-engine-host/src/server.rs:208-256 | in every reachable state a session means an accepted hello and an accepted greeting, a client past the greeting accepted it, and a connected client took as an acknowledgement the very reply the verdict called for |
| `Admission.RepliesAreKept` | crates/cheime-engine-host/src/server.rs:230-257 | the hand-over towards the client: once connected it can still read all that the session wrote, from the first byte, and nothing else |
| `Admission.HandshakeRuns` | crates/cheime-tip/src/io_thread.rs:384-417 | the undisturbed handshake, in pieces of any sizes that add up: the verdict on the hello decides whether there is a session, the one on the reply whether the client is connected, and no byte is left over |
| `Admission.SessionExactlyWhenAccepted` | crates/cheime-engine-host/src/server.rs:208-256 | some run reaches a session exactly when each side accepts what the other sends |
| `Admission.ConnectedExactlyWhenAcknowledged` | crates/cheime-tip/src/io_thread.rs:389-417 | some run connects the client exactly when it accepts the greeting and takes the reply called for as an acknowledgement |
| `Admission.RefusedHelloLeadsNowhere` | crates/cheime-engine-host/src/server.rs:208-236 | after a refused hello whose rejection is not taken for an acknowledgement, no run reaches a session or a connection |
| `Admission.ConnectedClientIsHeard` | crates/cheime-engine-host/src/server.rs:243-257 | from every state with a session and a connected client, whatever the client goes on to send can be brought to the session, which then understands all of it after all sent before |
| `SessionRunner.WriteReplies` | crates/cheime-engine-host/src/session_runner.rs:48-50 | a batch is written in order up to the first failure, cut where the pipe breaks |
| `SessionRunner.ServeOne` | crates/cheime-engine-host/src/session_runner.rs:38-51 | one turn hears the next message, writes its answers and goes on, or ends with what still got out |
| `SessionRunner.RunClientLoop` | crates/cheime-engine-host/src/session_runner.rs:25-53 | the loop hears what blocking reads deliver and writes exactly what the session answers, until the first failure, on pipes that may break anywhere and flushes that may fail |
| `SessionRunner.ServeAnswersEverything` | crates/cheime-engine-host/src/session_runner.rs:25-53 | a session that answers every message writes exactly the frames of all answers and ends as a disconnection |
| `SessionRunner.ServeGoesOn` | crates/cheime-engine-host/src/session_runner.rs:38-51 | as long as messages are answered, answers encode and flushes work, it writes the frames of all answers and goes on from where it is |
| `SessionRunner.ServeStops` | crates/cheime-engine-host/src/session_runner.rs:38-51 | at a message it stops without writing on the session's own failure, after the answers before it on one that does not encode, and after all of them on a flush that fails |
| `SessionRunner.ServeEnds` | crates/cheime-engine-host/src/session_runner.rs:38-45 | at the end of the stream it reports how the stream ended |
| `Separators.ProjectSeparators` | crates/cheime-tip/src/io_thread.rs:298-322 | the loops compute the specified projection, with the binary search exact because the list is already sorted |
| `Separators.BreaksAreSorted` | crates/cheime-tip/src/io_thread.rs:300-313 | the recorded positions are in order and strictly inside the input, so sorting changes nothing |
| `Separators.GreedyIsOptimal` | crates/cheime-tip/src/io_thread.rs:303-311 | the greedy counter has passed p exactly when the first p characters embed in the annotation's letters as a subsequence |
| `Separators.MatchedIsLongest` | crates/cheime-tip/src/io_thread.rs:303-311 | the greedy counter is the length of the longest embeddable prefix |
| `Separators.BreakCharacterization` | crates/cheime-tip/src/io_thread.rs:298-322 | an apostrophe goes before index p exactly when 0 < p < len and some separator is preceded by letters whose longest embeddable prefix of the input has length p |
| `Separators.ProjectKeepsRaw` | crates/cheime-tip/src/io_thread.rs:314-322 | whatever was typed, only apostrophes are added: deleting all apostrophes gives the input without its own |
| `Separators.ProjectWellSeparated` | crates/cheime-tip/src/io_thread.rs:314-322 | no apostrophe leads, trails or is doubled: always without a typed apostrophe; with one exactly when the input was so already and no separator of the annotation follows all that was typed before the first |
| `Separators.BesideTyped` | crates/cheime-tip/src/io_thread.rs:298-322 | an inserted apostrophe stands beside a typed one exactly when something was typed before the first typed apostrophe and a separator of the annotation follows letters in which all of that can be found |
| `Separators.SpaceDoublesTyped` | crates/cheime-tip/src/io_thread.rs:298-322 | a word typed with an apostrophe after it and annotated with a space there comes out with two |
| `Separators.DoublingExample` | crates/cheime-tip/src/io_thread.rs:298-322 | for instance ni'hao annotated ni hao |
| `Separators.MarksBecomeApostrophes` | crates/cheime-tip/src/io_thread.rs:298-322 | marks of any accepted kind placed anywhere in the input become apostrophes at the same places |
| `Separators.ProjectIsIdempotent` | crates/cheime-tip/src/io_thread.rs:298-322 | using the projection as annotation gives the projection again: always without a typed separator, and otherwise exactly when the first one leads the input or already has an apostrophe before it |
| `Separators.IdempotenceExample` | crates/cheime-tip/src/io_thread.rs:298-322 | for instance a'b without annotation, whose projection as annotation doubles the apostrophe |
| `Separators.SyllablesAreSeparated` | crates/cheime-tip/src/io_thread.rs:298-322 | non-empty syllables joined by any accepted separators come out joined by apostrophes |
| `Separators.SeparatesExactly` | crates/cheime-tip/src/io_thread.rs:303-307 | between two syllables exactly the apostrophe, the two curly quotes, the space and the tab insert an apostrophe, and no other character does |
| `Separators.ReprojectingDoublesApostrophes` | crates/cheime-tip/src/io_thread.rs:298-322 | projecting the same annotation onto an already projected text is harmless exactly when there was nothing to separate |
| `Separators.ReprojectionExample` | crates/cheime-tip/src/io_thread.rs:298-322 | a concrete input on which the second projection doubles an apostrophe |
| `FrontendSession.BothEndsAgree` | crates/cheime-engine-host/src/server.rs:266-282 | for every connection and non-zero client id both ends derive the same client, session and epoch, and the engine's own header, of this version and deployment and counting from zero, is accepted |
| `FrontendSession.HandshakeAccepts` | crates/cheime-tip/src/io_thread.rs:518-540 | another version is refused first, then a client or session id of zero; anything else is a fresh session, one epoch after its id |
| `FrontendSession.SessionsCollideOnlyWhenSaturated` | crates/cheime-engine-host/src/server.rs:271-272 | different connections share a session exactly when both ids are at least 2^63 |
| `FrontendSession.SessionHistory` | crates/cheime-tip/src/io_thread.rs:449-498 | over a whole connection the identity never changes, the sequence counts the messages prepared up to saturation, revision and deployment are those of the last accepted message |
| `FrontendSession.AcceptedExactly` | crates/cheime-tip/src/io_thread.rs:449-482 | after any history a message is accepted exactly when it is of this version, client, session and epoch, and of the deployment accepted before, if any |
| `FrontendSession.DeploymentIsCapturedOnce` | crates/cheime-tip/src/io_thread.rs:472-479 | once captured, no later message replaces the deployment |
| `FrontendSession.PreparedHeaders` | crates/cheime-tip/src/io_thread.rs:484-498 | the k-th message prepared carries the protocol version, the connection's identity, sequence k, and the last accepted revision and deployment |
| `FrontendSession.Session.ObserveEngine` | crates/cheime-tip/src/io_thread.rs:449-482 | an accepted message updates the session as specified, a refused one leaves it untouched |
| `FrontendSession.Session.PrepareMessage` | crates/cheime-tip/src/io_thread.rs:484-515 | keeps the body, replaces the header and advances the sequence |
| `Dispatch.SynchronizeRenders` | crates/cheime-tip/src/io_thread.rs:244-250 | a held preedit is changed only by separators and the matching cursor |
| `Dispatch.SynchronizeShows` | crates/cheime-tip/src/io_thread.rs:282-296 | a held preedit is shown with the breaks of the first candidate that has the highlighted id, and unchanged if there is none or it has no annotation |
| `Dispatch.DispatchConserves` | crates/cheime-tip/src/io_thread.rs:228-280 | every message keeps: what was accepted is posted or held, in order within its kind, nothing else is, and each preedit is posted with the breaks of the highlighted candidate of the snapshot after it, or unchanged when another preedit comes first |
| `Dispatch.ConnectionConserves` | crates/cheime-tip/src/io_thread.rs:228-296 | over a connection, every accepted preedit is posted with the breaks of the next snapshot's highlighted candidate, unchanged if another preedit came first, or is the one held; every other action is posted exactly once in order, and no snapshot overtakes a preedit |
| `Dispatch.StaleMessagesChangeNothing` | crates/cheime-tip/src/io_thread.rs:234-241 | a message of an older epoch changes nothing and posts nothing |
| `Dispatch.ReconnectsExactly` | crates/cheime-tip/src/io_thread.rs:234-243 | the connection is given up exactly for a rejection, another version, client or session, or another deployment under the same epoch, and nothing is posted then |
| `Dispatch.TokensNameTheConnection` | crates/cheime-tip/src/io_thread.rs:261-267 | over a connection, every action posted or held carries the session and epoch of this connection and its own id |
| `Dispatch.OrderIsKeptUnlessOvertaken` | crates/cheime-tip/src/io_thread.rs:244-276 | all actions come out in the order they went in exactly when no other action was accepted while a preedit was held back |
| `Dispatch.CommitOvertakesPreedit` | crates/cheime-tip/src/io_thread.rs:244-276 | the shortest run that overtakes: a preedit and then a commit, which is posted while the preedit is still held |
| `Dispatch.Dispatcher.DispatchEngineMessage` | crates/cheime-tip/src/io_thread.rs:228-280 | the steps compute the specified dispatch |
| `IoThread.DispatchIgnoresSequence` | crates/cheime-tip/src/io_thread.rs:484-498 | stamping outbound messages does not disturb the dispatch of inbound ones |
| `IoThread.HearOne` | crates/cheime-tip/src/io_thread.rs:180-220 | one read takes the next message off the stream and dispatches it, reports the ending, or leaves all as it was |
| `IoThread.HearBurst` | crates/cheime-tip/src/io_thread.rs:180-220 | a turn hears exactly what up to 32 reads deliver, in stream order, and stops early only at a message that ends the connection |
| `IoThread.HearNext` | crates/cheime-tip/src/io_thread.rs:193-218 | one read of a burst hears what it delivers and goes on, or ends the burst or the connection |
| `IoThread.SendOne` | crates/cheime-tip/src/io_thread.rs:166-171 | a queued message goes out whole under this connection's identity and next sequence number, or the pipe holds a proper prefix of it |
| `IoThread.TakeOne` | crates/cheime-tip/src/io_thread.rs:166-171 | a turn takes at most one message from the queue and touches nothing inbound |
| `IoThread.BeginTurn` | crates/cheime-tip/src/io_thread.rs:151-172 | a turn ends at once, and sends nothing, exactly when the stop flag is set; otherwise it sends |
| `IoThread.TakeTurn` | crates/cheime-tip/src/io_thread.rs:151-221 | one turn sends and then hears a burst, and says how it ended the connection if it did |
| `IoThread.RunConnection` | crates/cheime-tip/src/io_thread.rs:151-221 | a connection to its end: messages heard are the front of the engine's stream, dispatched in order, all of it when the engine closed; messages taken are written in order, stamped with consecutive sequence numbers; only a write error loses the one it happened on; it stops at the first turn that finds the stop flag set |
| `IoThread.EngineIsHeardInFull` | crates/cheime-tip/src/io_thread.rs:151-280 | when the engine's frames in any pieces were the whole stream, the client has heard exactly its messages and posted every action, except exactly a last preedit that no snapshot followed |
| `Apartment.ReachableIsCoherent` | crates/cheime-tip/src/runtime.rs:123-226 | in every reachable state keys are admitted exactly while all four resources are held, in progress and activated exclude each other, a live client id is that of the last activation begun |
| `Apartment.TokenCompletesOnce` | crates/cheime-tip/src/runtime.rs:173-192 | no token completes twice |
| `Apartment.NoTokenSurvives` | crates/cheime-tip/src/runtime.rs:194-226 | no token survives an abort or an effective deactivation |
| `Apartment.TokenStaysCurrent` | crates/cheime-tip/src/runtime.rs:147-192 | a token stays good as long as nothing completes, aborts or deactivates its activation |
| `Apartment.ResourcesAreHandedBack` | crates/cheime-tip/src/runtime.rs:173-226 | the resources an activation was completed with are the ones that ending it hands back, under the client id it was begun with |
| `Apartment.RoundsWrap` | crates/cheime-tip/src/runtime.rs:147-226 | n rounds of activating and deactivating move the generation by 2n modulo 2^64 |
| `Apartment.WrapRevivesToken` | crates/cheime-tip/src/runtime.rs:147-226 | why fewer than 2^64 steps: after 2^63 rounds an old token is honoured again |
| `Apartment.TicketCurrentIffUnchanged` | crates/cheime-tip/src/runtime.rs:173-262 | a ticket is still honoured although the focus changed since it was taken exactly when some change was silent (a completion over another focus with neither document nor context, or an abort that drops an identity) and no operation announced one |
| `Apartment.TicketRefusedThoughUnchanged` | crates/cheime-tip/src/runtime.rs:173-305 | and it is refused although the focus never changed exactly when something was announced that repeated the focus there was |
| `Apartment.StepOfTickets` | crates/cheime-tip/src/runtime.rs:173-305 | for one operation, exactly when it makes older tickets stale, when it changes the focus without, and when it makes them stale without changing it |
| `Apartment.CurrentExactlyUnlessAnnounced` | crates/cheime-tip/src/runtime.rs:173-305 | a ticket is current exactly as long as no operation of the announcing kinds took effect |
| `Apartment.StaleTicketIsHonoured` | crates/cheime-tip/src/runtime.rs:173-192 | a run in which an activation completes without a focus and an update older than that is installed |
| `Apartment.TicketedUpdate` | crates/cheime-tip/src/runtime.rs:236-293 | an update takes effect only if nothing was announced since its ticket, an offered focus is installed exactly then, and if nothing changed silently either it replaces the focus its ticket was taken for |
| `Apartment.OneUpdateWins` | crates/cheime-tip/src/runtime.rs:236-293 | of updates started together at most one changes the focus |
| `Apartment.SetFocusConserves` | crates/cheime-tip/src/runtime.rs:236-262 | documents and contexts held and offered before are those held and handed back after |
| `Apartment.ClearConserves` | crates/cheime-tip/src/runtime.rs:272-321 | clearing hands back exactly what was held, and only for the matching document |
| `Apartment.ReplaceContextConserves` | crates/cheime-tip/src/runtime.rs:283-305 | replacing a context conserves contexts and leaves the document |
| `Apartment.DeactivateConserves` | crates/cheime-tip/src/runtime.rs:205-226 | deactivation hands back exactly the document and context held |
| `Apartment.RunConserves` | crates/cheime-tip/src/runtime.rs:123-321 | over every run, each document and context is held or was handed back as often as it was given, or was let go of by a completion that found a focus set |
| `Apartment.IdentityOutlivesDeactivation` | crates/cheime-tip/src/runtime.rs:205-305 | the document identity outlives a deactivation: a context pushed for it afterwards is installed though no document is held |
| `Apartment.ApartmentState.BeginActivation` | crates/cheime-tip/src/runtime.rs:147-155 | takes the token of a new activation, or refuses while one is live; keeps the object coherent |
| `Apartment.ApartmentState.CompleteActivation` | crates/cheime-tip/src/runtime.rs:173-192 | installs all resources at once, or none for a stale token |
| `Apartment.ApartmentState.AbortActivation` | crates/cheime-tip/src/runtime.rs:194-203 | ends the activation its token names, or changes nothing |
| `Apartment.ApartmentState.BeginDeactivation` | crates/cheime-tip/src/runtime.rs:205-226 | takes every resource out of the state at once |
| `Apartment.ApartmentState.ReplaceFocusIfCurrent` | crates/cheime-tip/src/runtime.rs:236-245 | installs the offered focus or hands it back |
| `Apartment.ApartmentState.ClearFocusIfCurrent` | crates/cheime-tip/src/runtime.rs:272-281 | clears the focus of the matching document |
| `Apartment.ApartmentState.ReplaceFocusedContextIfCurrent` | crates/cheime-tip/src/runtime.rs:283-305 | replaces the context of the matching document |
| `Publication.StoredExactlyWhileLive` | crates/cheime-tip/src/tsf_interfaces.rs:417-710 | window, channel and I/O thread are those of the live activation, and absent while none is, exactly when in the last outermost stretch no deactivation fell between a publication and its storing, and no activation that completed between a deactivation and its clearing was still live |
| `Publication.PresentExactlyWhileLive` | crates/cheime-tip/src/tsf_interfaces.rs:417-710 | they are there at all exactly while some activation is live, unless the last word within a publication was an end or within an end a publication |
| `Activation.TextService.Handle` | crates/cheime-tip/src/tsf_interfaces.rs:417-710 | serves a reply to the topmost outside call or a new call into the service, as the specification does |
| `Activation.TextService.Proceed` | crates/cheime-tip/src/tsf_interfaces.rs:464-710 | runs a call to its next outside call, step by step, on the state in place |
| `Activation.TextService.Decide` | crates/cheime-tip/src/tsf_interfaces.rs:650-671 | publication, deactivation and the ticketed focus updates, and how each call goes on from them |
| `Activation.TextService.Execute` | crates/cheime-tip/src/tsf_interfaces.rs:421-461 | the effects between two outside calls: advises and unadvises, loans of the subscription cells, abort, storing and clearing |
| `ActivationLedgers.Resuming` | crates/cheime-tip/src/tsf_interfaces.rs:464-671 | from every answer of the host, an activation goes on in a way that undoes or hands over both sinks it has advised, on every branch |
| `ActivationLedgers.Returning` | crates/cheime-tip/src/tsf_interfaces.rs:1278-1323 | the same for the replies to an unadvise and to the two questions of a subscription, whose cell is given back on every branch |
| `ActivationLedgers.Ending` | crates/cheime-tip/src/tsf_interfaces.rs:424-463 | a deactivation undoes exactly what it took out of the state |
| `ActivationLedgers.MoveBalances` | crates/cheime-tip/src/tsf_interfaces.rs:417-710 | every step keeps: what the host has advised is what the service holds plus what the calls on the stack answer for |
| `ActivationLedgers.StepAccounted` | crates/cheime-tip/src/tsf_interfaces.rs:417-710 | so does every event: a reply, or a call at any moment of any other call |
| `ActivationLedgers.EveryBookBalances` | crates/cheime-tip/src/tsf_interfaces.rs:417-710 | over every run, whenever no call is on the stack, each sink and subscription is advised exactly as often as the service holds it, and no cell is on loan |
| `ActivationLedgers.BooksBalance` | crates/cheime-tip/src/tsf_interfaces.rs:417-710 | over every run, whenever no call is on the stack: both sinks are advised exactly once while activated and not at all otherwise, and each subscription cell holds exactly what is advised for it |
| `ActivationLedgers.NothingIsUndoneTwice` | crates/cheime-tip/src/tsf_interfaces.rs:451-461 | at every moment of every run, an unadvise under way is of something advised, and what the state and the cells hold is advised |
| `ActivationLedgers.NothingIsLeftHanging` | crates/cheime-tip/src/tsf_interfaces.rs:464-671 | no activation is still in progress once every call has returned |
| `ActivationCells.MoveLogs` | crates/cheime-tip/src/tsf_interfaces.rs:417-710 | every step keeps the log of publications, storings, ends and clearings proper, with the stretches on the stack innermost first |
| `ActivationCells.CellsMatchState` | crates/cheime-tip/src/tsf_interfaces.rs:417-710 | over every run, whenever no call is on the stack: window, channel and I/O thread match the activation state exactly when the last outermost stretch was not disturbed |
| `ActivationScripts.CalmActivation` | crates/cheime-tip/src/tsf_interfaces.rs:464-671 | an activation that is not re-entered is accepted with exactly what the host answered, on the focused document with its own identity and context or on none, both sinks advised, whatever waits below it |
| `ActivationScripts.CalmStart` | crates/cheime-tip/src/tsf_interfaces.rs:673-709 | without a focused document it then stores window, channel and I/O thread under its own token |
| `ActivationScripts.CalmDeactivation` | crates/cheime-tip/src/tsf_interfaces.rs:417-463 | a deactivation that is not re-entered leaves neither sink, nor window, channel or I/O thread |
| `ActivationScripts.CalmReplacement` | crates/cheime-tip/src/tsf_interfaces.rs:1278-1323 | a replacement that is not re-entered: the old cookie unadvised, a new one advised and kept if one is wanted and, for the layout, there is a window |
| `ActivationScripts.CalmSetFocus` | crates/cheime-tip/src/tsf_interfaces.rs:1404-1442 | when a focus callback that is not re-entered returns, the document has the focus with the identity and context answered, and both subscriptions are to that context |
| `ActivationScripts.CalmUninit` | crates/cheime-tip/src/tsf_interfaces.rs:1448-1484 | when a document notification that is not re-entered returns, the focus is gone exactly if it was on that document, and both subscriptions are gone in either case |
| `ActivationScripts.UnrelatedUninitUnsubscribes` | crates/cheime-tip/src/tsf_interfaces.rs:1463-1483 | for an unrelated document the notification leaves the focus and drops both subscriptions; it is a no-op exactly when nothing was subscribed |
| `ActivationScripts.StaleUninit` | crates/cheime-tip/src/tsf_interfaces.rs:1448-1484 | a notification overtaken by a focus update while the host is asked for the identity changes nothing |
| `ActivationScripts.StaleSetFocus` | crates/cheime-tip/src/tsf_interfaces.rs:1404-1442 | an overtaken focus callback changes nothing and reports it |
| `ActivationScripts.StaleChange` | crates/cheime-tip/src/tsf_interfaces.rs:1506-1590 | an overtaken push or pop changes nothing |
| `ActivationScripts.CalmChange` | crates/cheime-tip/src/tsf_interfaces.rs:1506-1590 | when a context push or pop on the focused document returns, the focus is on the pushed context or the one below the popped one, and both subscriptions are to that |
| `ActivationScripts.UnrelatedChange` | crates/cheime-tip/src/tsf_interfaces.rs:1506-1590 | on any other document a push or pop changes nothing |
| `ActivationScripts.DeactivatedWhileAttaching` | crates/cheime-tip/src/tsf_interfaces.rs:679-709 | a deactivation while the language bar is being attached leaves window, channel and I/O thread in a service that is not active |
| `ActivationScripts.OvertakesEnding` | crates/cheime-tip/src/tsf_interfaces.rs:430-450 | an activation that completes while a deactivation drops the language bar item loses what it stored to that deactivation, from any state |
| `ActivationScripts.ActivatedWhileEnding` | crates/cheime-tip/src/tsf_interfaces.rs:430-450 | so a service can end active without window, channel and I/O thread |
| `ActivationScripts.OlderUpdateIsInstalled` | crates/cheime-tip/src/tsf_interfaces.rs:1404-1442 | a focus callback that waits while the service is activated without a focus is installed afterwards, although the focus was replaced since it began |
| `ActivationScripts.FocusWithoutActivation` | crates/cheime-tip/src/tsf_interfaces.rs:1487-1504 | a service that is not active can have a focus, so that run is reachable |
| `ActivationOutcomes.ActivationTakesFocus` | crates/cheime-tip/src/tsf_interfaces.rs:558-600 | a fresh activation has the document the host called focused with the identity and the context it gave for it, and no focus without one |
| `ActivationOutcomes.ActivatedService` | crates/cheime-tip/src/tsf_interfaces.rs:464-709 | when an activation that is not re-entered returns, the service is active on that focus, both subscriptions are to its context, and window, channel and I/O thread are stored |
| `ActivationOutcomes.FailedActivationLeavesNothing` | crates/cheime-tip/src/tsf_interfaces.rs:500-643 | whichever call an activation fails at, no sink and no cell of it is left, the failure is reported, and the service can be activated again |
| `ActivationOutcomes.SecondActivationIsRefused` | crates/cheime-tip/src/tsf_interfaces.rs:474-483 | a live service refuses to be activated again and nothing happens to it |
| `ActivationOutcomes.EndedBeforeAdvising` | crates/cheime-tip/src/tsf_interfaces.rs:496-526 | an activation that finds itself ended before it advised anything stops without touching anything |
| `ActivationOutcomes.EndedAfterAdvising` | crates/cheime-tip/src/tsf_interfaces.rs:551-591 | one that finds itself ended after both sinks were advised undoes both, the thread sink first |
| `ActivationOutcomes.SetFocusOutcome` | crates/cheime-tip/src/tsf_interfaces.rs:1404-1442 | after a focus callback the focus is the document with the host's answers, the text-edit subscription is to its context, and the layout subscription is too while there is a window |
| `ActivationOutcomes.UninitOutcome` | crates/cheime-tip/src/tsf_interfaces.rs:1448-1484 | after a document notification no focus is left if it was on that document, it is as before otherwise, and no subscription is left |
| `ActivationOutcomes.ChangeOutcome` | crates/cheime-tip/src/tsf_interfaces.rs:1506-1590 | a context pushed on the focused document takes the focus, a popped one gives it to the context below; document and identity stay, and the subscriptions follow |
| `ActivationOutcomes.PushAfterActivation` | crates/cheime-tip/src/tsf_interfaces.rs:558-671 | the identity an activation recorded is matched later: a context pushed on its document takes the focus and both subscriptions follow |
| `ActivationOutcomes.UninitAfterActivation` | crates/cheime-tip/src/tsf_interfaces.rs:558-671 | and when that document goes away, focus and subscriptions go |
| `ActivationLoans.MoveTracks` | crates/cheime-tip/src/tsf_interfaces.rs:1278-1323 | every step writes to the log of loans only what fits: loans do not overlap, and a cookie is kept only for the context its loan was taken for |
| `ActivationLoans.AnswersDecideLoan` | crates/cheime-tip/src/tsf_interfaces.rs:1286-1297 | a loan for a context ends empty when the source or the cookie is refused, and otherwise with the cookie answered |
| `ActivationLoans.HeldExactlyWhenLastLoanKept` | crates/cheime-tip/src/tsf_interfaces.rs:1278-1323 | over every run, whenever no call is on the stack, a cell holds a subscription exactly when its last loan ended by keeping a cookie, and then that cookie, to the context of that loan |
| `ActivationLoans.SubscribedToFocusExactly` | crates/cheime-tip/src/tsf_interfaces.rs:1278-1323 | at rest the subscribed context is the focused one exactly when the last loan was taken for it and kept, or neither exists |
| `ActivationSubscriptions.DeactivationEmptiesCells` | crates/cheime-tip/src/tsf_interfaces.rs:417-425 | whatever re-enters it, a deactivation takes every subscription it finds: each cell is empty at some moment after it was called |
| `ActivationSubscriptions.HeldAfterDeactivation` | crates/cheime-tip/src/tsf_interfaces.rs:417-425 | over every run, a subscription held at rest after a deactivation is there because the cell was on loan when that was called, or a loan was taken for a context since |
| `ActivationSubscriptions.QuietDeactivationLeavesNothing` | crates/cheime-tip/src/tsf_interfaces.rs:417-425 | a deactivation called at rest, with no activation, focus callback or context change after it, leaves both cells empty |
| `ActivationSubscriptions.DeactivatedWhileSubscribing` | crates/cheime-tip/src/tsf_interfaces.rs:1278-1323 | a deactivation while the text-edit sink is being advised skips the cell on loan, and both subscriptions stay with a service that is not active |
| `ActivationSubscriptions.FocusMovedDuringLoan` | crates/cheime-tip/src/tsf_interfaces.rs:1279-1281 | a focus callback during another one's loan sets the focus and skips the cell, which then subscribes to the older context |
| `ActivationSubscriptions.OlderReplacementComesLast` | crates/cheime-tip/src/tsf_interfaces.rs:1425-1436 | a focus callback that runs while another drops the previous focus is followed by the older replacement, with the same result and no loan disturbed |
| `EditSession.StepRefines` | crates/cheime-tip/src/edit_session.rs:245-526 | with calls succeeding, each action does on the host what a plain editor with one preedit does, is reported applied, and keeps slot and host composition in step |
| `EditSession.RunRefines` | crates/cheime-tip/src/edit_session.rs:245-526 | so does every run, with the selection moving and the host ending compositions in between |
| `EditSession.TypingEnds` | crates/cheime-tip/src/edit_session.rs:245-526 | from a caret at p, any preedits ended by a cancel or an empty preedit restore text and caret, ended by a commit insert its text at p with the caret behind; no composition is left |
| `EditSession.CommitIgnoresTheCaret` | crates/cheime-tip/src/edit_session.rs:464-489 | once composing, neither preedits nor caret moves shift the place a commit goes to |
| `EditSession.HostCommitIgnoresTheCaret` | crates/cheime-tip/src/edit_session.rs:464-489 | so on the host: the committed text stands where the composition stood, with the caret behind it and no composition left |
| `EditSession.NothingLeaks` | crates/cheime-tip/src/edit_session.rs:245-526 | over any run the text without preedit is what it was, changed in turn exactly by the commits, the selections new preedits replaced and the preedits the host ended |
| `EditSession.HostTextNeverLeaks` | crates/cheime-tip/src/edit_session.rs:245-526 | so for the host's own text, with any selections |
| `EditSession.CommitUnderFaults` | crates/cheime-tip/src/edit_session.rs:245-281 | under any failing calls and any selection: the resulting text, where the text was written twice, whether the preedit stays, whether the composition is left open, and what is reported |
| `EditSession.ActiveUnderFaults` | crates/cheime-tip/src/edit_session.rs:464-489 | the composition path alone: the text in place of the preedit or the preedit left, and where the selection ends up |
| `EditSession.FallbackUnderFaults` | crates/cheime-tip/src/edit_session.rs:528-568 | the selection path alone: the text over the selection or nothing, and when it reports success |
| `EditSession.SingleCallDoubles` | crates/cheime-tip/src/edit_session.rs:464-489 | a single failing call makes a commit appear twice exactly when it comes after the composition text is written |
| `EditSession.RangeCallFails` | crates/cheime-tip/src/edit_session.rs:464-472 | a single failing call that does not reach the composition's range leaves the preedit and the composition, and the commit goes over the selection |
| `EditSession.CaretCallFails` | crates/cheime-tip/src/edit_session.rs:473-477 | a single one that fails to set the caret inserts the text again where the selection was carried to |
| `EditSession.FinishingCallFails` | crates/cheime-tip/src/edit_session.rs:478-489 | a single one that fails to end the composition inserts the text twice in a row |
| `EditSession.OtherCallFails` | crates/cheime-tip/src/edit_session.rs:245-281 | no other single call changes what a commit over a composition does or reports |
| `EditSession.EraseUnderFaults` | crates/cheime-tip/src/edit_session.rs:491-523 | under any failing calls: the text is restored exactly when the range could be emptied, the composition closed exactly when ending worked too |
| `EditSession.PreeditUnderFaults` | crates/cheime-tip/src/edit_session.rs:286-415 | starting a preedit over any selection under any failing calls: the resulting text, and exactly when a composition is tracked |
| `EditSession.PreeditAtCaretUnderFaults` | crates/cheime-tip/src/edit_session.rs:286-415 | at a caret, a new preedit stays in the text untracked exactly when clearing it failed, or the new composition's range could not be read |
| `EditSession.PreeditOverUnderFaults` | crates/cheime-tip/src/edit_session.rs:286-415 | over a tracked composition, the new preedit takes the old one's place or leaves it, and the composition stays tracked |
| `EditSession.DocumentContext.CommitActiveComposition` | crates/cheime-tip/src/edit_session.rs:464-489 | the steps compute the specified composition path |
| `EditSession.DocumentContext.CommitAtSelection` | crates/cheime-tip/src/edit_session.rs:528-568 | the steps compute the specified selection path |
| `EditSession.DocumentContext.HandleCommit` | crates/cheime-tip/src/edit_session.rs:245-281 | both paths in order, and exactly one result sent |
| `EditSession.DocumentContext.StartPreedit` | crates/cheime-tip/src/edit_session.rs:343-391 | text first, then a composition over it, with the cleanup of each failure |
| `EditSession.DocumentContext.HandleSetPreedit` | crates/cheime-tip/src/edit_session.rs:286-415 | the steps compute the specified preedit, and exactly one result sent |
| `EditSession.DocumentContext.HandleCancelComposition` | crates/cheime-tip/src/edit_session.rs:491-523 | the steps compute the specified erasure, and exactly one result sent |
| `EditSession.EditSessionCallback.DoEditSession` | crates/cheime-tip/src/edit_session.rs:151-230 | the payload is taken by the first run; a run after deactivation only reports; later runs do nothing |
| `EditSession.ActionDoesWhatItSays` | crates/cheime-tip/src/edit_session.rs:191-230 | an action that reaches a document without a composition does what its kind says, with the caret behind a preedit whatever cursor it carries, and is reported as applied |
| `EditSession.RequestEditSession` | crates/cheime-tip/src/edit_session.rs:777-844 | however often and whenever the host runs the callback, the document changes by the first run alone, and not if the service is dead by then; the results sent are the first run's, saying whether it was applied, and for a rejected request one that says it was not, in that order of events |
| `Rollback.RunIsCoherent` | crates/cheime-tip/src/edit_session.rs:577-631 | over every run the guard is armed exactly when there is an anchor |
| `Rollback.RunOpensWindow` | crates/cheime-tip/src/rollback_guard.rs:26-54 | after any run the guard holds what the one commit with an open window armed, or nothing |
| `Rollback.OneWindow` | crates/cheime-tip/src/rollback_guard.rs:31-37 | at most one commit has its window open |
| `Rollback.SendsExactlyWhenOpen` | crates/cheime-tip/src/edit_session.rs:600-631 | a token is sent exactly when an earlier commit with that token has its window open, in the same context, before its deadline, and the unit before its anchor was deleted with the caret there |
| `Rollback.WithinTenSeconds` | crates/cheime-tip/src/edit_session.rs:595-597 | the deletion comes less than 10 000 ms after the commit |
| `Rollback.LastsTenSeconds` | crates/cheime-tip/src/edit_session.rs:595-597 | an undisturbed commit can be taken back exactly until ten seconds after it |
| `Rollback.OpenWindowIsQuiet` | crates/cheime-tip/src/tsf_interfaces.rs:1605-1619 | while a window is open there is no guard event, no Backspace, no arming commit, and at most one end-edit notification more than commits that failed to arm |
| `Rollback.LastsExactly` | crates/cheime-tip/src/tsf_interfaces.rs:1605-1619 | if every applied commit arms, a window lasts exactly while nothing but at most one end-edit notification happens |
| `Rollback.AnsweredAtMostOnce` | crates/cheime-tip/src/edit_session.rs:600-631 | no commit is answered by two Backspaces |
| `Rollback.SendsAreLogged` | crates/cheime-tip/src/edit_session.rs:600-631 | over any run the tokens sent are, in order, one for each Backspace that answers an open window, and no others |
| `Rollback.UnarmedCommitKeepsWindowOpen` | crates/cheime-tip/src/edit_session.rs:577-597 | a commit that is applied but cannot arm lets a second end-edit notification pass |
| `Rollback.LearningWindow.OnCommitApplied` | crates/cheime-tip/src/edit_session.rs:262-274 | arming saves the anchor and arms the guard, or neither; the flag is set either way |
| `Rollback.LearningWindow.HandleGuardedBackspace` | crates/cheime-tip/src/edit_session.rs:600-631 | guard and anchor are used up, and the token is sent only after the deletion |
| `Rollback.LearningWindow.TextEditEnd` | crates/cheime-tip/src/tsf_interfaces.rs:1605-1619 | the flag excuses one notification, any other ends the window |
| `Rollback.LearningWindow.GiveUp` | crates/cheime-tip/src/edit_session.rs:846-893 | a rejected request, or a callback run after deactivation, closes the window and sends nothing |
| `Rollback.LearningWindow.DisarmRollback` | crates/cheime-tip/src/candidate_window.rs:442-449 | a guard event ends the window |
| `TakeBack.DeletionIsSeen` | crates/cheime-tip/src/edit_session.rs:633-681 | the deletion goes through with the caret at the anchor exactly when the call that deletes reports it |
| `TakeBack.DeletionUnderFaults` | crates/cheime-tip/src/edit_session.rs:633-681 | under any failing calls a Backspace empties the selection or takes the unit before the caret, or changes nothing if a call before that fails or nothing is there |
| `TakeBack.CommitWritesPlaces` | crates/cheime-tip/src/edit_session.rs:245-281 | a commit under failing calls writes its text over the composition, the selection, both or neither, in that order |
| `TakeBack.SparedUnitIsCarried` | crates/cheime-tip/src/edit_session.rs:577-597 | the changes of one happening spare the unit before an anchor exactly when it is still in the text afterwards, and then it is the same unit and before the anchor again |
| `TakeBack.UnarmedTracks` | crates/cheime-tip/src/edit_session.rs:577-681 | every commit, edit, caret move, Backspace and notification keeps: the open window's anchor stands behind the last unit of its commit's text exactly as long as that unit was spared |
| `TakeBack.TokenTakesBackItsCommit` | crates/cheime-tip/src/edit_session.rs:577-681 | over any run, a Backspace that sends a token sends that of the commit that armed last and deletes the unit before the caret; that is the last unit of the commit's text exactly when the text was not empty and every change since spared it |
| `TakeBack.UnsparedChangeIsTakenInstead` | crates/cheime-tip/src/edit_session.rs:600-681 | after any change that reaches that unit the token is still sent, unless anchor and caret are carried to the front, and the end of the change or an older unit is deleted |
| `TakeBack.EmptyCommitTakesOlderUnit` | crates/cheime-tip/src/edit_session.rs:577-681 | a commit of the empty text arms, and its Backspace deletes what stood there before |
| `TextExtent.GenerationSteps` | crates/cheime-tip/src/candidate_window.rs:1024-1027 | the stored generation is the 64-bit image of the number of invalidations, skipping zero |
| `TextExtent.SameGeneration` | crates/cheime-tip/src/candidate_window.rs:993-995 | two requests share a generation exactly when they are a multiple of 2^64 - 1 invalidations apart |
| `TextExtent.OnlyCurrentResultsCount` | crates/cheime-tip/src/candidate_window.rs:993-995 | a result counts exactly when it belongs to the current generation; any other changes nothing |
| `TextExtent.StepIsValid` | crates/cheime-tip/src/candidate_window.rs:894-1031 | every step keeps: one request of the current generation in flight exactly while the tracker waits for it, and never two |
| `TextExtent.NeverTwoCurrentRequests` | crates/cheime-tip/src/candidate_window.rs:894-1031 | so over every run of fewer than 2^64 - 1 events |
| `TextExtent.QuietStepSettles` | crates/cheime-tip/src/candidate_window.rs:747-777 | every timer or result pays for the requests, timers and delay it adds |
| `TextExtent.QuietRunEnds` | crates/cheime-tip/src/candidate_window.rs:747-777 | with no news from outside only a bounded number of timers and results can follow |
| `TextExtent.AtMostSevenAttempts` | crates/cheime-tip/src/candidate_window.rs:747-777 | between two pieces of news at most seven attempts, one more for each message of a timer killed before, and at most 1008 ms of scheduled delay |
| `TextExtent.AttemptsArePaidByNews` | crates/cheime-tip/src/candidate_window.rs:568-587 | over every run, stale timer messages included, at most seven attempts and 1008 ms for each piece of news, and what could be tried at the beginning |
| `PositionRetries.KeepsTrying` | crates/cheime-tip/src/candidate_window.rs:1164-1187 | no rendering of a kept snapshot gives up early: the place is known and no retry is due, or a timer runs, or all six retries are used up, as long as timers start |
| `PositionRetries.ExactlySevenAttempts` | crates/cheime-tip/src/candidate_window.rs:747-777 | with every request refused and every timer started, a snapshot after news that resets the count makes exactly seven attempts and schedules exactly 1008 ms, and then no timer is left |
| `PositionRetries.DelaysDouble` | crates/cheime-tip/src/candidate_window.rs:767-769 | the six delays double from 16 to 512 ms |
| `PositionRetries.ResultPlacesWindow` | crates/cheime-tip/src/candidate_window.rs:985-1022 | a current result that has a place is the place, and ends the retries |
| `PositionRetries.AcceptedRequestFlies` | crates/cheime-tip/src/candidate_window.rs:894-970 | a request the host takes is the one current request in flight |
| `PositionRetries.AsksAnew` | crates/cheime-tip/src/candidate_window.rs:568-587 | a snapshot, a layout change and a timer each ask anew, or leave it to the result of the request in flight |
| `PositionRetries.ResultAsksAnew` | crates/cheime-tip/src/candidate_window.rs:985-1022 | and that result then asks |
| `PositionRetries.LayoutAfterNewsAsksAgain` | crates/cheime-tip/src/candidate_window.rs:972-983 | no news that resets the position forgets a kept snapshot: a layout change afterwards asks for its place exactly when there is one |
| `TextExtent.StaleTimerAsksAgain` | crates/cheime-tip/src/candidate_window.rs:579-587 | the message of a timer killed by hiding asks for the place again |
| `TextExtent.LayoutAfterHideAsksAgain` | crates/cheime-tip/src/candidate_window.rs:972-983 | hiding neither forgets nor makes a snapshot: a later layout change asks for its place again exactly when one is kept, and otherwise does nothing |
| `TextExtent.AnchorStaysPinned` | crates/cheime-tip/src/candidate_window.rs:725-745 | however many renderings follow, the inline anchor keeps its x, and its y is that of the last extent known |
| `PositionRetries.AnchorBegins` | crates/cheime-tip/src/candidate_window.rs:725-745 | the anchor begins at the first extent, or at the caret if none is known at the first rendering, and keeps that x |
| `TextExtent.PositionCells.RequestPositionExtent` | crates/cheime-tip/src/candidate_window.rs:894-970 | asks at most once per dirtying and never while a request is pending; a refusal is remembered |
| `TextExtent.PositionCells.SchedulePositionRetry` | crates/cheime-tip/src/candidate_window.rs:747-765 | starts a timer with the next delay unless one runs, all six are used up, or it cannot be started |
| `TextExtent.PositionCells.HandleSnapshot` | crates/cheime-tip/src/candidate_window.rs:1164-1187 | an empty preedit hides and invalidates, any other is kept and placed |
| `TextExtent.PositionCells.HandleTextExtentUpdate` | crates/cheime-tip/src/candidate_window.rs:985-1022 | a current result is stored or asks for a retry, a stale one is dropped |
| `TextExtent.PositionCells.OnTimer` | crates/cheime-tip/src/candidate_window.rs:579-587 | any timer message, of the timer that runs or of one killed before, stops the timer, dirties the position and renders again |
| `TextExtent.PositionCells.OnLayoutChange` | crates/cheime-tip/src/candidate_window.rs:568-575 | a layout change dirties the position and renders a kept snapshot again |
| `TextExtent.PositionCells.InvalidatePosition` | crates/cheime-tip/src/candidate_window.rs:1024-1031 | a new generation, nothing pending, nothing known |
| `RowGeometry.BuildRows` | crates/cheime-tip/src/candidate_window.rs:2056-2239 | lays every row of the page out where the layout puts it, and sizes the content to the widest row and its margin and to the last row and its margin |
| `RowGeometry.StretchVerticalCandidateRows` | crates/cheime-tip/src/candidate_window.rs:1727-1737 | stretches candidate rows in place and realigns their text, leaves the preedit row |
| `RowGeometry.LayOut` | crates/cheime-tip/src/candidate_window.rs:1136-1156 | the rows and the window size as a snapshot settles them |
| `RowGeometry.HitTest` | crates/cheime-tip/src/candidate_window.rs:1785-1791 | finds the first candidate row at the point |
| `RowGeometry.Click` | crates/cheime-tip/src/candidate_window.rs:1778-1800 | a click selects candidate k exactly when k is a candidate of the snapshot, on its page, and the click falls into row k |
| `RowGeometry.RowsStayInsideMargins` | crates/cheime-tip/src/candidate_window.rs:2056-2239 | every candidate row lies inside all four margins, except that in a hollow window (vertical, no right margin, no minimum width beyond a left margin of at least a pixel, nothing to show) rows stick out by exactly a pixel |
| `RowGeometry.HollowWindow` | crates/cheime-tip/src/candidate_window.rs:2056-2239 | one such window: a single empty candidate beside a left margin of one pixel |
| `RowGeometry.PreeditRowStays` | crates/cheime-tip/src/candidate_window.rs:2097-2117 | with or without candidates the preedit row starts at the window's edge, its text at the margin, it ends before the right and the bottom margin and above all candidates |
| `RowGeometry.StretchingNeverShrinks` | crates/cheime-tip/src/candidate_window.rs:1727-1737 | stretching moves the right edge only, never inwards |
| `RowGeometry.RowsAreDisjoint` | crates/cheime-tip/src/candidate_window.rs:2056-2239 | no point lies in two rows, before or after stretching, in either layout |
| `RowGeometry.TextKeepsClear` | crates/cheime-tip/src/candidate_window.rs:2278-2299 | aligned text stays between the paddings and clear of the mark, and the mark inside the row |
| `RowGeometry.CandidateTextKeepsClear` | crates/cheime-tip/src/candidate_window.rs:2278-2299 | so in every window, for every alignment and however far rows were stretched |
| `WindowLayout.AlignmentIsMeant` | crates/cheime-tip/src/candidate_window.rs:2278-2299 | with room for it, left text starts at the left padding, right text ends at the right one, centred text has equal gaps or one more pixel behind it, and a mark takes its gap, width and spacing away on its own side |
| `WindowLayout.WidthAdds` | crates/cheime-tip/src/candidate_window.rs:2241-2251 | a text is as wide as its parts |
| `WindowLayout.NarrowText` | crates/cheime-tip/src/candidate_window.rs:2241-2251 | each ASCII character is half as wide as a wide one, rounded up |
| `WindowLayout.WideText` | crates/cheime-tip/src/candidate_window.rs:2241-2251 | any other character has the full width |
| `WindowLayout.SegmentsAddUp` | crates/cheime-tip/src/candidate_window.rs:2257-2268 | a row holds its candidate and, where there are any, caption and comment, each in its own font size and set apart by its own spacing |
| `WindowLayout.LineHoldsFont` | crates/cheime-tip/src/candidate_window.rs:1137-1145 | a line is the least height that holds the font and the least candidate height between the paddings of its own two sides |
| `WindowLayout.PageIsFront` | crates/cheime-tip/src/candidate_window.rs:2119-2122 | the candidates shown are the first ones, as many as a page holds and at least one |
| `WindowLayout.FirstRowLies` | crates/cheime-tip/src/candidate_window.rs:2056-2239 | the first candidate row lies inside the left and the top margin and is as wide as its two paddings and its text |
| `WindowLayout.CandidatesFollowPreedit` | crates/cheime-tip/src/candidate_window.rs:2097-2117 | below a preedit the candidates begin after the spacing |
| `WindowLayout.RowsStandApart` | crates/cheime-tip/src/candidate_window.rs:2183-2222 | neighbouring candidates stand the candidate spacing apart, below each other or beside each other |
| `WindowLayout.ContentEnds` | crates/cheime-tip/src/candidate_window.rs:2056-2239 | the content ends a bottom margin below the last candidate, after one more spacing in a vertical window |
| `WindowLayout.WindowIsLeast` | crates/cheime-tip/src/candidate_window.rs:1146-1156 | the window is the least that holds the content and has the least width |
| `WindowLayout.RowsReachMargin` | crates/cheime-tip/src/candidate_window.rs:1727-1737 | in a vertical window that is not hollow all candidate rows end at the right margin |
| `WindowLayout.OtherRowsKeepTheirWidth` | crates/cheime-tip/src/candidate_window.rs:1727-1737 | no row of a horizontal window is stretched, and no preedit row |
| `Outline.RenderOutlinePixels` | crates/cheime-tip/src/candidate_window.rs:1664-1693 | writes every pixel of the image at its own index, inside the buffer |
| `Outline.CountCovered` | crates/cheime-tip/src/candidate_window.rs:1674-1682 | counts the covered samples of a pixel |
| `Outline.OutlineIsSymmetric` | crates/cheime-tip/src/candidate_window.rs:1664-1693 | the image is its own mirror image in both directions, for all sizes and radii |
| `Outline.OpaqueAwayFromCorners` | crates/cheime-tip/src/candidate_window.rs:1676-1684 | alpha is 255 wherever no sample lies in a corner square, and exactly where all samples are inside |
| `Outline.AlphaGrowsInwards` | crates/cheime-tip/src/candidate_window.rs:1676-1684 | along a row the outline never gets fainter towards the middle |
| `Outline.PackedIsPremultiplied` | crates/cheime-tip/src/candidate_window.rs:1684-1690 | packing gives a 32-bit value whose channels do not exceed its alpha, and keeps the colour where opaque |
| `Outline.PixelIsPremultiplied` | crates/cheime-tip/src/candidate_window.rs:1684-1690 | every pixel is valid premultiplied ARGB |
| `Outline.InsideIsRoundedRectangle` | crates/cheime-tip/src/candidate_window.rs:1676-1682 | a sample counts exactly when it lies in a disc of the corner radius that fits into the rectangle: the shape is the rounded rectangle |
| `Outline.CornerIsRadius` | crates/cheime-tip/src/candidate_window.rs:1668-1671 | the corner radius is the configured one, or half the smaller side if that is less |
| `Outline.OpaquePixelHasColour` | crates/cheime-tip/src/candidate_window.rs:1665-1690 | an opaque pixel has exactly the colour's channels, with the lowest byte of the colour as red |
| `Outline.ChannelsAreRounded` | crates/cheime-tip/src/candidate_window.rs:1684-1690 | a translucent pixel has each channel's share of its alpha, to the nearest whole number |
| `Outline.AlphaIsRounded` | crates/cheime-tip/src/candidate_window.rs:1684-1684 | the alpha is the covered share of 255, to the nearest whole number |
| `ComLifetime.ReleaseAccounts` | crates/cheime-tip/src/tsf_interfaces.rs:325-334 | a release frees the object exactly when it gives back the last reference |
| `ComLifetime.CreateAccounts` | crates/cheime-tip/src/tsf_interfaces.rs:1718-1730 | creation hands over exactly one reference to a new object, or leaves no object behind |
| `ComLifetime.StepAccounts` | crates/cheime-tip/src/class_factory.rs:54-142 | every call through any header keeps the counts equal to the references held |
| `ComLifetime.RunAccounts` | crates/cheime-tip/src/tsf_interfaces.rs:303-334 | over every balanced run each object is there exactly as long as someone holds it, is freed once, and the counter counts those there are |
| `ComLifetime.UnloadsExactlyWhenUnused` | crates/cheime-tip/src/dll_exports.rs:176-182 | unloading is granted exactly when no reference and no lock is held |
| `ComLifetime.OneIdentity` | crates/cheime-tip/src/tsf_interfaces.rs:218-235 | asked for IUnknown, an object gives the same pointer through every header, and no two objects the same one |
| `ComLifetime.EachInterfaceHasItsTable` | crates/cheime-tip/src/tsf_interfaces.rs:218-235 | each interface is answered with its own table and costs one reference; anything else is refused and costs none |
| `ComLifetime.ErrorsInOrder` | crates/cheime-tip/src/class_factory.rs:110-127 | a creating call reports a null argument first, then what is wrong with the call, and only then an interface the object does not have |
| `ComLifetime.LocksBalance` | crates/cheime-tip/src/exports.rs:30-40 | the lock count is the balance of locks and unlocks, save for unlocks at zero, which are not carried over |
| `ComLifetime.ComModule.ReleaseOwner` | crates/cheime-tip/src/tsf_interfaces.rs:325-334 | the count goes down by one, and zero is returned exactly when the object is gone |
| `ComLifetime.ComModule.QueryOwner` | crates/cheime-tip/src/tsf_interfaces.rs:303-319 | a supported interface costs one reference, anything else changes nothing |
| `ComLifetime.ComModule.CreateInstance` | crates/cheime-tip/src/class_factory.rs:110-127 | the checks in order, then a new text service handed over through the interface asked for |
| `ComLifetime.ComModule.GetClassObject` | crates/cheime-tip/src/dll_exports.rs:153-173 | the checks in order, then a new factory handed over through the interface asked for |
| `ComLifetime.ComModule.LockServer` | crates/cheime-tip/src/class_factory.rs:129-142 | locks count up, unlocks down and never below zero |

## Left out

- Named-pipe, registry, window, message-pump, GDI, DWM and monitor calls; only their outcome is an input.
- Full deadlock freedom of the two blocking pipes: it depends on buffer sizes of the operating system.
- The engine behind the session loop, the dictionaries, and the internals of the message codec.
- Reconnecting itself, and messages that wait in the queue across a reconnect: `IoThread.dfy` is about one connection.
- IoThread.RunConnection: the 25 ms and 1 ms deadlines are inputs of the read script, not durations.
- Mutex poisoning, full channels and failed window posts.
- The language bar item itself: only that attaching and dropping it are outside calls.
- Activation.TextService.Execute: window, channel and I/O thread are stored in one step and cleared in one step; destroying the window is one stop after that.
- Activation.TextService.Handle: thread checks and re-entrant borrows of the state, which the source turns into error returns; those of the subscription cells are modelled.
- ActivationLedgers.BooksBalance: counts cookies; which context they belong to is the subject of `ActivationLoans.dfy`.
- EditSession.DocumentContext.HandleSetPreedit: the display attribute, whose failures the source only logs.
- Rollback.LearningWindow.HandleGuardedBackspace: whether the caret stands at the saved anchor and what the deletion does are inputs here; `TakeBack.dfy` takes both from the document.
- TakeBack.TokenTakesBackItsCommit: the end-edit notification that an edit of the host causes is an event of its own, not tied to the edit.
- TextExtent.AtMostSevenAttempts: every killed timer may leave a message; that the system queues at most one at a time is not used.
- TextExtent.PositionCells.HandleTextExtentUpdate: the normalisation of the measured rectangle is an input; the kind of anchor (composition start or selection) is taken as fixed by the configuration; the host runs an accepted request once and a rejected one not at all.
- RowGeometry.BuildRows: 32-bit overflow of coordinates, and how the three texts of a row are put together (labels, abbreviation, comments).
- RowGeometry.Click: the selection gate, and the conversion of mouse coordinates.
- Outline.RenderOutlinePixels: rounding of 32-bit floats; coordinates are scaled by eight and compared exactly.
- ComLifetime.StepAccounts: recovering the owner from a header by its offset; a pointer carries its owner here. A null class id is treated like a null interface id, which the source answers alike.
- ComLifetime.RunAccounts: runs of 2^32 and more calls, where the 32-bit count would wrap.
- Shadow rendering: a floating-point exponential with no exact claim.
- Key admission, display attributes, colours, the older row layout and work-area fitting: finite tables or single expressions.
- Registration and unregistration plans, installer, probes, configurator.
