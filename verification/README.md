# Verified models of Echadron's text pipeline, glob walkers and ACP sessions

A Dafny 4.11 project that models the hard parts of `packages/kaos`,
`packages/acp-adapter`, `packages/acp-server`, `packages/kap-server` and the hook slots of
`packages/agent-core-v2`, and proves properties of them for all inputs and all runs.
`dafny verify dfyconfig.toml` checks everything.

Code that the system runs step by step is imperative here too: the decoders, the line
reader, the tail reader, the text scan, the validator, the replay, the command builder and
the PATH merge are loops and classes, each proved against a reference that is defined
without them. Event handlers are classes whose methods are proved to take the step of a
pure transition function, and the theorems are about all runs of that function. Concurrent
code is cut at its awaits, and every interleaving of the pieces is a run.

## Modules

- `Wrappers`: a value that may be missing.
- `Utf8`: RFC 3629 as a reference: the encoder of section 3, the grammar of section 4, and
  the lossy reading of arbitrary bytes. `Chars` jumps over each character it takes;
  `Occurrences` looks for a character at every byte; they are proved equal.
- `LossyDecoder`, `Utf16Decoder`: the two loops behind `errors: 'ignore'`. Masks and shifts
  are written as remainders, products and sums, the bit fields being disjoint.
- `Utf8Validator`: the streaming validator as an object, its automaton, and the theorem
  that chunking is invisible and acceptance is well-formedness.
- `LineCutting`: cutting after each line feed; `IsCut` says what a cut is, and there is one.
- `Files`, `LineReader`, `TailReader`, `TextScan`: the readers over an open file. A
  sequential read delivers any non-empty prefix of what is left into a buffer that is
  overwritten by the next read, so every chunking is covered, and carried-over bytes live in
  arrays of their own. The chunk and block sizes are parameters.
- `TextDecoding`: decoding a file against decoding its lines, in strict and ignoring mode.
  The line reader itself takes any decoder, so the replacing mode is covered there.
- `GlobWalk`, `SshGlobWalk`: the two walkers. A file system is a finite graph of nodes;
  listings and stats may fail; segment matching is a parameter.
- `WireIds`, `AcpTurn`, `AcpTurnRuns`, `AcpTurnOutputs`: one ACP turn, what holds of all its runs, and
  what the literal events make it send and answer.
- `Replay`: replaying a stored history, any push of which may fail.
- `AcpV2Session`, `AcpV2Runs`: message ids, message contents and the prompt flag of a v2
  session, with any number of `finishTurn` calls in flight; and what a client gets to see,
  said of the notifications and the inputs alone.
- `InstanceRegistry`: writes, release and peer sweeps of one registry entry.
- `ShellCommand`: the remote command line against a lexer for the quoting rules of section
  2.2 of the POSIX Shell Command Language (IEEE Std 1003.1).
- `HookSlot`: the ordered hook slot and its chain runs.
- `LoginShellPath`: merging the login shell's PATH.

## Where the code does less than one might expect

- Reading lines with errors ignored yields one extra empty line exactly when the file ends
  in a non-empty unterminated piece without any character in it
  (`TextDecoding.IgnoringLinesAreLinesOfText`). The tail reader drops that line, so the two
  readers differ there (`TailReader.TailAgreesWithForwardReader`).
- Read strictly, a file that is nothing but a byte order mark has one empty line for the
  forward reader and none for the tail reader; it is the only such file
  (`TailReader.StrictTailAgreesWithForwardReader`).
- The line reader looks at its limit only after yielding, so a limit below 1 acts as 1;
  `LineReader.ReadUtf8Lines` states the result for every integer limit and start line.
- A glob with two or more `**` can yield a path several times, once for each way the pattern
  takes its names (`GlobWalk.WalkCounts`). Exactly the patterns with at most one `**`, and
  those with a segment that matches no name, never do (`GlobWalk.DistinctIffOneStar`).
- A first argument such as `A=b` reaches the remote shell unquoted and is an assignment there,
  not a command (`ShellCommand.FirstArgumentIsCommand`).
- A hook registration whose target is missing, or is its own id, throws, but the registration
  it was to replace is already gone (`HookSlot.OrderedHookSlot.Register`, `HookSlot.NextToItself`).
- Two idle updates can be sent with no activation in between, when a turn starts while the
  final message of the turn before is still being sent. How many idle updates a state can
  still send before the next activation is proved exactly
  (`AcpV2Session.TwoIdlesWithoutActivation`, `AcpV2Session.OverlapIsReachable`).

## Model

| member | source | states |
|---|---|---|
| Utf8.ScalarOfEncode | packages/kaos/src/internal.ts:15-76 | the payload-bit formula inverts RFC 3629 encoding on every scalar value |
| Utf8.EncodeScalarOf | packages/kaos/src/internal.ts:15-76 | each byte sequence the decoder takes for a character is the encoding of the scalar it emits |
| Utf8.CharsAreAllOccurrences | packages/kaos/src/internal.ts:11-79 | jumping over a taken character misses none: the characters kept are all those occurring anywhere |
| Utf8.DecodeEncoded | packages/kaos/src/internal.ts:7-82 | lossy decoding of the UTF-8 of any scalar sequence gives it back, whatever bytes follow |
| Utf8.DecodeIsStable | packages/kaos/src/internal.ts:7-82 | decoding the re-encoded output changes nothing |
| Utf8.KeptBytes | packages/kaos/src/internal.ts:7-82 | the decoder never keeps more bytes than it got, and all of them only from well-formed input |
| Utf8.WellFormedIffReencodes | packages/kaos/src/internal.ts:123-134 | bytes are well-formed by section 4 of RFC 3629 exactly when re-encoding the lossy decoding gives them back |
| Utf8.DecodeConcat | packages/kaos/src/internal.ts:7-82 | decoding splits over a cut exactly when no character straddles it, as none does before a byte that is no continuation byte or after ASCII; a straddling character, and nothing else, is lost |
| Utf8.WellFormedConcat | packages/kaos/src/local.ts:816-867 | at such a cut the whole is well-formed exactly when both sides are |
| LossyDecoder.DecodeUtf8Ignore | packages/kaos/src/internal.ts:7-82 | the loop computes, for all bytes, the lossy reading: every well-formed character and nothing else |
| Utf16Decoder.DecodeUtf16LeIgnore | packages/kaos/src/internal.ts:84-121 | the loop combines surrogate pairs and drops lone surrogates and a stray last byte |
| Utf16Decoder.TextSurvives | packages/kaos/src/internal.ts:84-121 | decoding the UTF-16LE bytes of any text, even with a stray byte after them, gives the text |
| Utf16Decoder.Decode16Concat | packages/kaos/src/internal.ts:95-114 | decoding splits over a cut exactly when the cut is not inside a surrogate pair |
| Utf8Validator.Validator.Write | packages/kaos/src/local.ts:826-862 | a chunk is accepted exactly when the automaton accepts all bytes so far; a failure names the first rejected byte |
| Utf8Validator.Validator.End | packages/kaos/src/local.ts:863-865 | end succeeds exactly when all bytes seen are well-formed |
| Utf8Validator.AcceptsIffWellFormed | packages/kaos/src/local.ts:816-867 | the automaton is at rest exactly on well-formed strings |
| Utf8Validator.FailsOnlyWhenHopeless | packages/kaos/src/local.ts:852-857 | it has not failed exactly when some continuation makes the bytes well-formed |
| Utf8Validator.AcceptsIffDecoderDropsNothing | packages/kaos/src/local.ts:816-867 | the validator accepts exactly when the lossy decoder drops nothing |
| Utf8Validator.ChunkingIsInvisible | packages/kaos/src/local.ts:826-828 | any division into chunks runs like the whole |
| Utf8Validator.StreamingAcceptance | packages/kaos/src/local.ts:508-525 | for every division into chunks, all writes and end succeed exactly on well-formed bytes |
| LineCutting.PiecesIsCut | packages/kaos/src/local.ts:776-788 | the pieces lose nothing, none is empty, and a line feed stands exactly at each inner end |
| LineCutting.CutIsUnique | packages/kaos/src/local.ts:776-788 | nothing else has those properties |
| LineCutting.SplitLinesKeepingTerminator | packages/kaos/src/local.ts:776-788 | the splitting loop yields exactly the pieces |
| LineCutting.PieceCount | packages/kaos/src/local.ts:517-526 | there are as many pieces as line feeds, plus one for an unterminated tail |
| LineReader.ReadUtf8Lines | packages/kaos/src/local.ts:593-648 | for every chunking, start line, limit and decoder: the texts of exactly the pieces asked for, in order, up to the first that will not decode, a mark being stripped only at offset 0 |
| LineReader.PartIsSlice | packages/kaos/src/local.ts:593-626 | asking for maxLines lines from startLine gives exactly that slice of all lines of the file |
| LineReader.RestIsSlice | packages/kaos/src/local.ts:598-599 | without a limit, the rest from startLine, lines below 1 counting as 1 |
| LineReader.LimitIsAtLeastOne | packages/kaos/src/local.ts:621-625 | a limit below 1 acts as 1 |
| LineReader.CutChunk | packages/kaos/src/local.ts:613-629 | the inner loop continues the open line from the bytes held and leaves the reader at the state of the longer prefix |
| LineReader.YieldLine | packages/kaos/src/local.ts:621-625 | a complete line is yielded when asked for; reading stops where decoding fails or the limit is full, with exactly the lines promised |
| LineReader.CopyOf | packages/kaos/src/local.ts:631-635 | carried-over bytes are copied out of the buffer into a fresh one |
| TextDecoding.CutCommutesWithDecode | packages/kaos/src/local.ts:622-642 | the lines of the lossily decoded file are the decoded pieces, but for empty ones |
| TextDecoding.IgnoringLinesAreLinesOfText | packages/kaos/src/local.ts:639-644 | reading line by line equals splitting the decoded text exactly when the unterminated tail is empty or has a character |
| TextDecoding.ExtraEmptyLine | packages/kaos/src/local.ts:639-644 | the file of one byte 0x80 is read as one empty line although its text has none |
| TextDecoding.StrictMeaning | packages/kaos/src/internal.ts:166-168 | the executable form of strict decoding: it throws exactly on ill-formed input and drops a leading mark unless told not to |
| TextDecoding.StrictLinesJoinToText | packages/kaos/src/local.ts:478-493 | strict decoding of the pieces joins up to strict decoding of the file, failures included |
| TextDecoding.StrictReaderAgreesWithReadText | packages/kaos/src/local.ts:467-493 | readLines gets through exactly the well-formed files, and its lines join to what readText returns |
| TailReader.FindTailStart | packages/kaos/src/local.ts:557-584 | for every block size the backward scan finds the offset from which exactly the last tailCount pieces run |
| TailReader.ScanBlock | packages/kaos/src/local.ts:572-580 | one block backwards: it finds the line feed looked for, or has counted all line feeds from the block on |
| TailReader.ReadRange | packages/kaos/src/local.ts:869-882 | however short the reads, the range is read to its end or to the end of the file |
| TailReader.ReadTailLines | packages/kaos/src/local.ts:545-591 | the pieces of the decoded tail, or none for a count below 1 or an empty file |
| TailReader.TailAgreesWithForwardReader | packages/kaos/src/local.ts:545-648 | errors ignored, the tail reader yields the forward reader's last lines but for empty ones, and the same lines exactly when the unterminated tail, if any, has a character in it |
| TailReader.ReadersDiffer | packages/kaos/src/local.ts:545-648 | on the file of one byte 0x80 the two readers differ, whatever number of lines is asked for |
| TailReader.StrictTailFails | packages/kaos/src/local.ts:585-587 | strictly, it throws exactly when those lines are not well-formed |
| TailReader.StrictTailAgreesWithForwardReader | packages/kaos/src/local.ts:586-587 | strictly, it yields the forward reader's texts of those lines exactly when the file is not a lone byte order mark |
| TextScan.UpdateLineEndingFlagsFromBytes | packages/kaos/src/local.ts:790-814 | across any chunk boundary the flags mean CR LF, bare LF and settled lone CR of all bytes so far |
| TextScan.ScanTextFile | packages/kaos/src/local.ts:495-531 | for every chunking: success exactly on well-formed files, and line count, NUL, final newline and line-ending flags as defined on the whole file |
| TextScan.CountChunk | packages/kaos/src/local.ts:513-518 | the counting loop counts line feeds and notices NUL |
| TextScan.ScanAgreesWithStrictReader | packages/kaos/src/local.ts:478-531 | scan and strict reader succeed on the same files, and then the scan's count is the number of lines read |
| GlobWalk.WalkCounts | packages/kaos/src/local.ts:344-450 | how often each path is yielded: exactly as often as there are ways for the pattern to take its names, no matter which graph |
| GlobWalk.WalkIsExact | packages/kaos/src/local.ts:344-450 | on any graph of directories with inode numbers, cycles included, the walk yields exactly the paths whose descent matches the pattern and enters no directory already on the path |
| GlobWalk.GlobIsExact | packages/kaos/src/local.ts:299-322 | the same for glob, the root counting as entered from the start |
| GlobWalk.WalkFollowsListing | packages/kaos/src/local.ts:378-450 | results come in listing order: of two entries the earlier one's first; before them those `**` finds right here |
| GlobWalk.WalkIsDistinct | packages/kaos/src/local.ts:356-409 | with at most one `**` no path is yielded twice |
| GlobWalk.DistinctIffOneStar | packages/kaos/src/local.ts:299-322 | a pattern yields no path twice on every graph and from every directory exactly when it has at most one `**`, or a segment that no name matches |
| GlobWalk.TwoStarsRepeat | packages/kaos/src/local.ts:356-378 | a concrete directory in which a pattern with two `**` yields a path twice |
| SshGlobWalk.SameWalk | packages/kaos/src/ssh.ts:674-745 | on a tree with distinct keys the SSH walk and the local walk yield the same sequence, from any directory |
| SshGlobWalk.GlobsAgreeOnTrees | packages/kaos/src/ssh.ts:659-672 | so do the two globs |
| SshGlobWalk.SshWalkFollowsListing | packages/kaos/src/ssh.ts:674-745 | the same order for the SSH walk, dot entries aside |
| WireIds.WireIdsAreDistinct | packages/acp-adapter/src/events-map.ts:122-133 | different turns or raw ids never share a wire id |
| WireIds.WireIdReads | packages/acp-adapter/src/events-map.ts:122-133 | up to its first colon a wire id is the turn id in decimal without leading zeros, and what follows is the raw id |
| AcpTurn.TurnBody.OnEvent | packages/acp-adapter/src/session.ts:1025-1287 | the listener takes the step of which AcpTurnRuns and AcpTurnOutputs say what every run of it sends and answers |
| AcpTurn.TurnBody.ToolCallStarted | packages/acp-adapter/src/session.ts:1113-1170 | a start seeds the arguments and sends a CREATE, or an upgrade of a card a fragment created |
| AcpTurn.TurnBody.ToolCallDelta | packages/acp-adapter/src/session.ts:1172-1213 | a fragment creates the card or adds to its text |
| AcpTurn.TurnBody.OnKickRejected | packages/acp-adapter/src/session.ts:1289-1294 | a rejected kick settles an open turn and nothing else |
| AcpTurnRuns.SubagentsAreSilent | packages/acp-adapter/src/session.ts:995-996 | a subagent's event neither changes nor emits anything |
| AcpTurnRuns.FirstSettlementIsFinal | packages/acp-adapter/src/session.ts:1061-1082 | the first of turn end, busy error before an own turn start, or kick rejection fixes the outcome, and nothing is emitted from then on |
| AcpTurnRuns.OutcomeIffSettled | packages/acp-adapter/src/session.ts:1241-1294 | a prompt has an outcome exactly when some input settles it |
| AcpTurnRuns.CreateBeforeUpdate | packages/acp-adapter/src/session.ts:1003-1022 | in every run each wire id is created at most once, and start and argument updates follow their CREATE |
| AcpTurnRuns.SeedIsSent | packages/acp-adapter/src/session.ts:1113-1196 | a first fragment or a start sends a CREATE or upgrade with exactly its own text |
| AcpTurnRuns.DeltaTextIsCumulative | packages/acp-adapter/src/session.ts:1197-1213 | any other fragment updates the card with the text of the latest CREATE or start for the raw id and all fragments since, in order |
| AcpTurnOutputs.SentIsWhatEventsSay | packages/acp-adapter/src/session.ts:1049-1240 | in every run, apart from tool cards, exactly what the main agent's events up to the end of the turn say is sent, in order and each as what it is; each start and each fragment updates its own card exactly once |
| AcpTurnOutputs.TextsAreDeltas | packages/acp-adapter/src/session.ts:1083-1111 | the message chunks are, in order, the assistant deltas of the main agent before the end of the turn, the thought chunks its thinking deltas |
| AcpTurnOutputs.AnswerIs | packages/acp-adapter/src/session.ts:1061-1082 | the first input that ends the turn answers the prompt, with the outcome its literal reason or code calls for; without one there is no answer |
| AcpTurnOutputs.CurrentTurnIs | packages/acp-adapter/src/session.ts:1039-1048 | the turn id kept for approvals is that of the main agent's latest event; the end of the turn drops it, a rejected kick does not |
| Replay.Replayer.ReplayHistory | packages/acp-adapter/src/session.ts:587-638 | any push may fail: what is sent is, message by message, a prefix of what the history and the earlier failures determine, and a failure costs only the rest of its own message |
| Replay.Replayer.ReplayMessage | packages/acp-adapter/src/session.ts:648-718 | with the map right about the messages before, a result names the latest one that got as far as issuing its raw id, or emits nothing; the map stays right, also when a push fails half-way |
| Replay.Replayer.ReplayAssistant | packages/acp-adapter/src/session.ts:673-684 | parts before calls, up to the first push that fails; each call is recorded under the new turn before it is pushed, the failing one included |
| Replay.TurnsNameMessages | packages/acp-adapter/src/session.ts:612-624 | later assistant messages have larger turn ids, whatever failed, so a turn id names one message |
| Replay.ResultFollowsCall | packages/acp-adapter/src/session.ts:673-713 | every emitted result has the message's status and content, names the latest preceding assistant message that issued its raw id, and comes after that message's tool call with the same wire id, unless exactly that call's push had failed |
| Replay.ReplayIsDetermined | packages/acp-adapter/src/session.ts:594-718 | the history and where pushes failed determine everything sent |
| Replay.MessageSays | packages/acp-adapter/src/session.ts:659-684 | whatever fails, a user message is to send its non-empty texts as user chunks, an assistant message its texts and thoughts, in order, as message and thought chunks |
| Replay.TextsAreReplayed | packages/acp-adapter/src/session.ts:594-735 | with no push failing the client gets, in order, exactly the texts and thoughts of the history in the right voice |
| Replay.CallsAreReplayed | packages/acp-adapter/src/session.ts:679-682 | an assistant message ends with its tool calls, whole and in order, under its turn; nothing else is a call |
| Replay.TurnsCount | packages/acp-adapter/src/session.ts:612-624 | the turn of a message is the number of assistant messages up to it |
| Replay.ResultsAreNotDropped | packages/acp-adapter/src/session.ts:685-713 | the result of a call that was sent is sent too |
| AcpV2Runs.UpsertsCoverTheTurn | packages/acp-server/src/index.ts:458-478 | in every run each agent_message and agent_thought carries exactly the defined contents of all chunks of its kind since a turn last started, under their id, and is never empty |
| AcpV2Runs.MessagesAreTurns | packages/acp-server/src/index.ts:768-774 | two chunks of a kind share a message id exactly when no turn started between them |
| AcpV2Runs.UserChunksFollowTheirPrompt | packages/acp-server/src/index.ts:311-318 | each user_message has an id of its own, and the user's chunks go on the latest one |
| AcpV2Runs.NotesFollowInputs | packages/acp-server/src/index.ts:766-779 | prompts let in, turn starts of the main agent and chunks go out one for one, in order, with their contents |
| AcpV2Runs.FlagFollowsInputs | packages/acp-server/src/index.ts:911-961 | when promptActive is up, on the inputs alone |
| AcpV2Runs.IdleReasonsAreConserved | packages/acp-server/src/index.ts:458-494 | over every interleaving and for each stop reason: idle updates sent, owed by a finish in flight and lost to a failed notification are those the inputs call for |
| AcpV2Runs.StopReasonMeans | packages/acp-server/src/index.ts:484-491 | which reasons give which stop reason |
| AcpV2Runs.TurnEndGoesThrough | packages/acp-server/src/index.ts:458-494 | undisturbed, the end of a turn sends the agent's message, then its thoughts, as far as there were any, then idle with its reason |
| AcpV2Runs.FinisherSends | packages/acp-server/src/index.ts:469-493 | whatever came between, a finish that goes on sends the thoughts there are before its idle update |
| AcpV2Session.UpsertsFoldTheirChunks | packages/acp-server/src/index.ts:458-478 | in every run each agent_message and agent_thought carries exactly the defined contents of the chunks sent before under its id |
| AcpV2Session.StepKeepsContent | packages/acp-server/src/index.ts:319-340 | every handler stretch keeps the stored contents equal to the chunks under the current id |
| AcpV2Session.IdlesAreConserved | packages/acp-server/src/index.ts:911-961 | over every interleaving, each fall of promptActive but a failed user_message has sent one idle update, has one finish in flight, or lost it to a notification that failed; idles never outnumber activations |
| AcpV2Session.StepConserves | packages/acp-server/src/index.ts:766-779 | one step owes an idle update exactly when it is such a fall, and only a failed finish forgets one |
| AcpV2Session.IdlesUntilActivation | packages/acp-server/src/index.ts:458-494 | until the next activation no more idles are sent than there are finishes in flight, plus one if active |
| AcpV2Session.BudgetIsReached | packages/acp-server/src/index.ts:458-494 | and that many can be |
| AcpV2Session.TwoIdlesWithoutActivation | packages/acp-server/src/index.ts:766-779 | two idles without an activation between them can follow a state exactly when that number is at least two |
| AcpV2Session.OverlapIsReachable | packages/acp-server/src/index.ts:459-468 | such a state is reached when a turn starts during the upsert of the turn before |
| AcpV2Session.V2Session.Finish | packages/acp-server/src/index.ts:458-494 | finishTurn up to its first await |
| AcpV2Session.V2Session.ContinueFinisher | packages/acp-server/src/index.ts:469-493 | finishTurn after an await, on the state as it then is |
| AcpV2Session.V2Session.FailFinisher | packages/acp-server/src/index.ts:775-778 | a notification of finishTurn that fails ends it silently |
| AcpV2Session.V2Session.OnTurnStarted | packages/acp-server/src/index.ts:768-774 | turn start activates, forgets ids and contents, and says running |
| AcpV2Session.V2Session.OnTurnEnded | packages/acp-server/src/index.ts:775-778 | turn end finishes an active prompt once |
| AcpV2Session.V2Session.Prompt | packages/acp-server/src/index.ts:914-926 | a prompt is refused while one is active |
| AcpV2Session.V2Session.OnUserMessageSettled | packages/acp-server/src/index.ts:918-932 | a failed user_message deactivates without an idle update |
| AcpV2Session.V2Session.OnAdapterResolved | packages/acp-server/src/index.ts:933-941 | the adapter's completion finishes the prompt only if nothing has |
| AcpV2Session.V2Session.OnAdapterRejected | packages/acp-server/src/index.ts:942-950 | its failure sends a refusal idle only if nothing has finished the prompt |
| AcpV2Session.V2Session.OnCancelContinued | packages/acp-server/src/index.ts:957-960 | cancel finishes a still active prompt |
| AcpV2Session.V2Session.LegacyMessageUpdate | packages/acp-server/src/index.ts:311-340 | a chunk gets the current id or a fresh one, and is stored when its content is defined |
| InstanceRegistry.Registration.StartWriting | packages/kap-server/src/instanceRegistry.ts:257-260 | no write starts once released |
| InstanceRegistry.Registration.FinishWriting | packages/kap-server/src/instanceRegistry.ts:272-275 | the last write in flight calls the drain callback if it is set |
| InstanceRegistry.Registration.StartRelease | packages/kap-server/src/instanceRegistry.ts:294-304 | only the first release does anything, and it waits exactly when writes are in flight |
| InstanceRegistry.PresentUntilReleased | packages/kap-server/src/instanceRegistry.ts:241-311 | over every interleaving the entry is there, naming this process, from register's return until release's unlink and never afterwards |
| InstanceRegistry.EntryIsThere | packages/kap-server/src/instanceRegistry.ts:241-311 | over every interleaving the entry is there exactly when register's first write was renamed into place and release has not unlinked it |
| InstanceRegistry.RegisterReportsItsWrite | packages/kap-server/src/instanceRegistry.ts:278-288 | register returns exactly when its first write was renamed, and throws otherwise |
| InstanceRegistry.WritesUntilReleased | packages/kap-server/src/instanceRegistry.ts:257-283 | a heartbeat or update writes exactly when release has not been called |
| InstanceRegistry.NoMissedWakeUp | packages/kap-server/src/instanceRegistry.ts:298-304 | with no write in flight a waiting release has been woken; with some in flight one of them can go on |
| InstanceRegistry.ReleaseIsBounded | packages/kap-server/src/instanceRegistry.ts:294-310 | after the call at most two steps for each write in flight and two more of its own side are left, whatever anybody else does |
| InstanceRegistry.ReleaseGetsDone | packages/kap-server/src/instanceRegistry.ts:294-310 | once release has been called and nothing of its own side is left to happen, the entry is gone |
| InstanceRegistry.SweepRemovesTheDead | packages/kap-server/src/instanceRegistry.ts:177-199 | a sweep that found an entry's process dead removes that file and no other, and one that found it alive removes none |
| InstanceRegistry.StepKeepsEntry | packages/kap-server/src/instanceRegistry.ts:177-199 | no step, sweeps by peers included, takes the entry away before its time or brings it back |
| ShellCommand.LexQuoted | packages/kaos/src/ssh.ts:114-120 | for every string the quoted form adds exactly that string to the shell word, in any context |
| ShellCommand.BuildExecCommand | packages/kaos/src/ssh.ts:934-963 | the command lexes to exactly cd, the directory and `&&`, the assignments in order, and the arguments; otherwise the first invalid name is reported |
| ShellCommand.FirstArgumentIsCommand | packages/kaos/src/ssh.ts:114-120 | after the assignments, the first argument is the command word exactly when it is not an unquoted NAME=... and, with no assignments before it, no reserved word |
| ShellCommand.NamesAgree | packages/kaos/src/ssh.ts:946 | the variable names let through are exactly the shell's names |
| ShellCommand.SafeCharacters | packages/kaos/src/ssh.ts:117 | which characters need no quotes |
| HookSlot.OrderedHookSlot.Register | packages/agent-core-v2/src/hooks.ts:43-68 | ids stay unique, the entry sits at the end or right next to its target, all others keep their order; it throws exactly when the target is missing or is the id itself, and then leaves the slot as it was exactly when nothing was registered under the id |
| HookSlot.NextToItself | packages/agent-core-v2/src/hooks.ts:54-63 | registering next to the entry to be replaced throws and leaves neither |
| HookSlot.OrderedHookSlot.Delete | packages/agent-core-v2/src/hooks.ts:70-75 | the entry under the id, and only that, is taken out |
| HookSlot.OrderedHookSlot.DisposeEntry | packages/agent-core-v2/src/hooks.ts:83-89 | a disposable takes out its own entry and never a replacement |
| HookSlot.OrderedHookSlot.Run | packages/agent-core-v2/src/hooks.ts:91-108 | the calls of a run are those of the chain as it was when the run began, whatever changes meanwhile |
| HookSlot.RunCounts | packages/agent-core-v2/src/hooks.ts:96-107 | handler j is called k0 * ... * k(j-1) times, the terminal the product of all |
| HookSlot.RunHandsContextsDown | packages/agent-core-v2/src/hooks.ts:97-104 | every call but the first gets the override of a handler one place up, or that handler's own context |
| HookSlot.RunHandsOnInOrder | packages/agent-core-v2/src/hooks.ts:97-104 | the calls one handler call causes are, in order, one for each next, with that one's override or else the handler's own context |
| LoginShellPath.MergeLoginShellPath | packages/kaos/src/login-shell-path.ts:92-113 | the loop computes the merged PATH |
| LoginShellPath.MergeKeepsLoginOrder | packages/kaos/src/login-shell-path.ts:81-113 | the parts of the merged PATH are the current one's, then exactly the missing absolute login entries at increasing places of the login PATH, each the first of its kind |
| LoginShellPath.JoinOfSplit | packages/kaos/src/login-shell-path.ts:97-112 | splitting and joining lose nothing, so its parts determine a PATH |
| LoginShellPath.AdditionsMean | packages/kaos/src/login-shell-path.ts:98-106 | appended are exactly the missing absolute entries, each once |
| LoginShellPath.MergeAddsExactlyTheMissing | packages/kaos/src/login-shell-path.ts:81-113 | the merged PATH starts with the current one verbatim, has every absolute login entry, and nothing else new |
| LoginShellPath.MergeIsIdempotent | packages/kaos/src/login-shell-path.ts:92-113 | merging the same login PATH again changes nothing |
| LoginShellPath.Deps.ApplyLoginShellPath | packages/kaos/src/login-shell-path.ts:116-126 | PATH is written exactly when an absolute login entry is missing from it, so an unset PATH stays unset otherwise |

## Left out

- Real files, processes, SSH and SFTP: a file is a byte sequence, a sequential read any non-empty prefix of the rest, a directory a finite listing, `join` the appending of a name.
- The replacing mode of TextDecoder: the line and tail readers take any decoder, the theorems about whole files are for the strict and the ignoring mode.
- Text as UTF-16 code units: texts are sequences of scalar values; a line feed is one unit in both.
- The byte count of positional reads in the tail scan: the code ignores it, and the model takes the block to be filled.
- GlobWalk.WalkIsExact: directories with inode number 0 are not covered, because the code then switches cycle tracking off and may not terminate.
- Segment patterns: matching one path segment is an abstract predicate; the translation to a regular expression is not part of this model.
- AcpTurn.TurnBody.OnEvent: diffs, titles, kinds and raw inputs of tool cards, and the entries of plans, are left out of the updates; turn ids are natural numbers printed in decimal.
- Order of tool.progress and tool.result updates: the code sends them without looking at the created cards.
- AcpV2Session.UpsertsFoldTheirChunks: a notification carries the contents as they are when it is sent, and random ids never repeat.
- Terminals, plans, permissions, configuration and history replay of the v2 server: other branches over other fields.
- InstanceRegistry.PresentUntilReleased: the port and heartbeat in the file are left out, because concurrent writes may be renamed out of order; unlinking in release succeeds or finds nothing.
- The sorted list listLive returns: its sweep is modelled, its sorting would only add an easy member.
- ShellCommand.FirstArgumentIsCommand: reserved words that only some shells have (`function`, `select`, `time`), aliases and functions are not part of this model.
- HookSlot.OrderedHookSlot.Run: handlers call next one call after the other and finitely often; what else they do is an arbitrary change of the slot.
- probeLoginShellPath: running the shell and finding the PATH line in its output; the answer is a parameter.
- User interfaces, HTTP wiring, authentication, telemetry, image compression and the small tables and mappers.
