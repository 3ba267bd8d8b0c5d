# A model of the voice agent runtime's stateful algorithms

The runtime holds a phone or browser conversation: it remembers turns and fits them into a prompt,
filters internal markup out of streamed answers, notices an absent caller, dispatches banking calls,
streams audio to a transcriber and from a synthesizer, suppresses noise, saves the call's history,
mails hospital lists and books appointments. Each file here models one of these algorithms and
proves what it keeps, over all inputs and, for the protocols, over all runs.

- `JsonText`, `Exchanges`, `PromptContext`, `Compaction`, `CompactionRuns`, `MemoryStore`:
  the conversation memory. The size of JSON text, the division of turns into exchanges, the prompt
  under a token budget, and the compaction of old exchanges while other writes arrive. The class
  `MemoryStore.ConversationMemory` has the source's fields and loops and is proved against the
  functions of the other modules.
- `Scanner`, `TagScanner`, `Rendering`, `SpokenText`: the streaming filter. A scanner over any rule
  that decides to match, speak or hold; the rule for internal tags; what is spoken of scanned tokens
  and what a cut changes of it; the filter object.
- `IdleHangup`, `BankDispatch`: the engagement loop and the banking calls, as state machines whose
  steps are the stretches of code between two awaits.
- `RealtimeWire`: the websocket of the realtime transcriber, shared by a sender and a receiver.
- `DemucsPadding`, `SpeechSegment`, `SpokenAudio`, `NoiseFilter`: audio lengths, the last stretch of
  speech, streamed speech with retries, and block-wise noise suppression. `Division` holds the
  arithmetic they share; `Wrappers`, `Characters` and `Runs` hold what others share.
- `ConversationHistory`, `MailOutbox`, `Appointments`, `StrictSchema`: history writes, the mail
  outbox, the appointment book and the tool schema transformer.

`dafny verify dfyconfig.toml` checks everything.

## What turned out not to hold

- The streaming filter does depend on how the text is cut when a tag name is followed by white space
  that the regular expression accepts and the hold test does not, such as a form feed.
  `SpokenText.CutsShowExactly` gives the exact condition for what a caller sees: cuts show if and only
  if such a tag would be heard as text or opens or closes a hidden span where it stands.
  `SpokenText.SplitsOfFreshFilter` is the condition for the scanned tokens alone, and
  `SpokenText.FormFeedShowsTheCut` an input.
- The filter does not only hold what may still become an internal tag: once a second opening bracket
  follows a tag name and a delimiter, the tag can no longer be completed, and the filter waits for good
  and speaks nothing that comes after (`SpokenText.HeldForGoodExactly`,
  `SpokenText.SecondBracketIsHeld`).
- The transcriber's end of input is declared before the last utterance is sent. When the previous
  utterance still awaits its reply, that reply stops the receiver, the last utterance is never sent
  and the stream never ends. `RealtimeWire.StuckExactly` gives the exact conditions,
  `RealtimeWire.LateTailIsLost` and `RealtimeWire.CaughtForever` the run and its permanence.
- A compaction found unchanged is one that no other compaction overtook, if and only if its first
  turn was not created once more since the snapshot (`CompactionRuns.NoOtherCompaction`). Otherwise it
  can put its summary in place of one it does not know: `CompactionRuns.ReusedIdLosesASummary` is a run
  of genuine snapshots in which it does. This is a hazard of the memory's interface: the pipeline starts one
  compaction at a time and numbers its turns.
- A check-in that was heard arms the idle close only if the pipeline is done with it when the await for
  its playback returns (`IdleHangup.HeardCheckInArmsExactly`). The browser transport returns from
  sending before the playback ends (`latency_lab/server.py`, lines 151-152) and need not be;
  `IdleHangup.SilentCallEnds` is about calls in which the pipeline is idle again by then.
- The handlers in `_stream_once` that retry timeouts and lost connections are never reached:
  `_stream_request` has already turned both into errors that they do not catch. Only refusals are
  retried, which `SpokenAudio.StreamOnce` states.
- Banking calls outside the dispatcher can execute one preview twice
  (`BankDispatch.DirectCallsPostTwice`); `BankDispatch.PostsFreshExactly` says when they do, and
  `BankDispatch.CarefulCallsAreSafe` how to avoid it.
- An appointment of negative length that starts after closing time, or ends before opening time, is
  accepted (`Appointments.InsideExactly`, `Appointments.NegativeLengthIsAccepted`), and two requests
  handled at the same time can book one slot (`Appointments.RacingRequests`,
  `Appointments.SlotBookedTwice`).
- Two messages can share an idempotency key when a turn id spells a sequence number
  (`ConversationHistory.KeysClashExactly`, `ConversationHistory.KeysClashInARun`). This is a hazard of
  the store's interface: the turn ids of the pipeline have other forms.

## Model

| member | source | states |
|---|---|---|
| JsonText.ListLength | latency_lab/memory.py:62-64 | the UTF-8 size of a JSON list is two bytes when empty and otherwise the sum of its items' sizes plus two each, so it is additive under concatenation |
| JsonText.WidthIsRight | latency_lab/memory.py:62-64 | a character's width is the number of bytes of its UTF-8 form, which RFC 3629 makes the shortest |
| JsonText.EscapeRoundTrips | latency_lab/memory.py:62-64 | an escaped text is read back as it was, up to its closing quote, and holds no control character |
| JsonText.EscapeLength | latency_lab/memory.py:62-64 | quote, backslash and five control characters take two characters escaped, other control characters six, and all others one |
| Characters.SpacesExactly | latency_lab/llm_output.py:8-8 | which characters are white space |
| Characters.LowerExactly | latency_lab/llm_output.py:17-17 | lower case, for ASCII letters |
| Exchanges.TokensSubadditive | latency_lab/memory.py:62-64 | the token estimate of a joined message list is at most the sum of the parts' estimates and at least the first part's |
| Exchanges.GroupsCharacterised | latency_lab/memory.py:136-146 | a division of the turns is the one `_groups` finds if and only if it keeps all turns in order, has no empty group, and every boundary turn ends a group and every group but the last ends at one |
| Exchanges.PrefixRegroups | latency_lab/memory.py:209-217 | regrouping the flattened leading groups gives the same groups, and their turns are a prefix of the history |
| Exchanges.GroupsStep | latency_lab/memory.py:138-143 | a boundary turn closes the pending run, whatever follows |
| Exchanges.ExchangesExactly | latency_lab/memory.py:136-146 | all turns are kept in order; a run ends with the first closed turn that was only listened to, or answered without interruption, and only the last run may go on |
| Exchanges.MessagesShown | latency_lab/memory.py:148-162 | every message of every turn is shown in order: unchanged but for reasoning that is not asked for and the mark on listening-only speech |
| Exchanges.MessagesPaired | latency_lab/memory.py:148-162 | showing turns to the model keeps each tool reply right behind a request that names its call |
| PromptContext.NoteCost | latency_lab/memory.py:173-205 | the reserve of 80 tokens covers the omission note |
| PromptContext.DumpBytes | latency_lab/memory.py:62-64 | the bytes of each kind of message, counted from its texts |
| PromptContext.TokensExactly | latency_lab/memory.py:62-64 | the estimate is a third of a message list's bytes, rounded up |
| PromptContext.ContextLeavesOut | latency_lab/memory.py:176-176 | the context with a turn left out is that of a memory without this turn |
| PromptContext.ContextExactly | latency_lab/memory.py:164-207 | the context is the summary unless it leaves no room for the note, the note exactly when the summary or an exchange had to go, and all messages of as many of the newest exchanges as fit |
| PromptContext.ContextWithinBudget | latency_lab/memory.py:164-207 | for every history, summary and setting the context's estimate is at most max(512, memory_context_tokens) |
| PromptContext.ContextPaired | latency_lab/memory.py:164-207 | in every context, also of an oversized exchange, each tool reply directly follows a request that names its call |
| PromptContext.CutIsLeast | latency_lab/memory.py:179-200 | the cut is the earliest exchange from which all newer ones fit the room |
| PromptContext.FitIsLongestSuffix | latency_lab/memory.py:177-200 | the backward loop keeps the longest run of newest exchanges that fits, reports an omission exactly when one had to go, and uses part of an exchange only when no message was kept |
| PromptContext.UnitsExactly | latency_lab/memory.py:187-192 | an exchange is divided into single messages and requests for tools with the replies behind them |
| PromptContext.FitUnitsIsGreedy | latency_lab/memory.py:193-197 | of an oversized exchange a unit is kept exactly when it fits besides the later ones kept |
| PromptContext.AssembleShape | latency_lab/memory.py:166-207 | the context is the summary if it fits with the reserve, a note exactly when the summary or an exchange was left out, and that longest run |
| Compaction.AffordableFits | latency_lab/memory.py:215-224 | the exchanges taken fit one request and one more would not |
| Compaction.SelectsWholeExchanges | latency_lab/memory.py:209-225 | a compaction selects whole, fully closed leading exchanges, as many as one request carries, and leaves at least max(2, memory_recent_exchanges) |
| Compaction.CompactionStartsExactly | latency_lab/memory.py:210-226 | a compaction starts exactly when more than max(2, memory_recent_exchanges) exchanges are held, all turns of the older ones are closed, and the first of them fits one request |
| Compaction.SnapshotExactly | latency_lab/memory.py:209-229 | the snapshot is of as many leading exchanges as fit one request and are not to be kept, with the epoch and the summary |
| Compaction.CheckedExactly | latency_lab/memory.py:237-245 | a reply is taken exactly when something is in it, no list has more than 12 items, no item more than 600 characters, and its text no more than 3600 bytes, which is 1200 tokens |
| Compaction.UnchangedExactly | latency_lab/memory.py:246-250 | a snapshot is unchanged exactly when the epoch is the same and the leading turns have its ids and show its messages |
| Compaction.WriteExactly | latency_lab/memory.py:96-117 | the effect of each write on every field of its turn |
| Compaction.FinishExactly | latency_lab/memory.py:119-129 | finishing closes a turn; the first interruption of an answered turn is noted at the end of its last message, and only there |
| Compaction.WriteTwice | latency_lab/memory.py:96-129 | repeating a write changes nothing |
| Compaction.PutExactly | latency_lab/memory.py:88-120 | a write reaches the turn with its id, or a fresh one behind the others, and no other; finishing creates none |
| CompactionRuns.StepKeepsInv | latency_lab/memory.py:88-135 | every write, clear and completion keeps: turns created are those removed followed by those held, ids held are distinct |
| CompactionRuns.RunKeepsInv | latency_lab/memory.py:88-255 | so does every run of them |
| CompactionRuns.NothingIsLost | latency_lab/memory.py:88-255 | since the last clear, the turns ever created are, in order, those that compactions removed followed by those held, whatever the interleaving; tool replies stay with the requests they were written with |
| CompactionRuns.SummaryKeepsToBounds | latency_lab/memory.py:237-251 | in every run the summary is empty or keeps to the bounds of a reply |
| CompactionRuns.ApplyWellFormed | latency_lab/memory.py:96-129 | each write to a turn has its effect, whether or not it came before, and keeps the turn well formed |
| CompactionRuns.TurnsAreWellFormed | latency_lab/memory.py:88-255 | in every run each turn holds the caller's text at most once and first, one reply for each tool call, and one answer exactly when it is marked answered |
| CompactionRuns.RunIsLater | latency_lab/memory.py:88-255 | within an epoch, a run only adds created and removed turns, and until a compaction completes the summary stays and turns only grow |
| CompactionRuns.SnapshotIsIssued | latency_lab/memory.py:209-228 | a snapshot records the ids and messages of leading turns, the epoch and the summary of its moment |
| CompactionRuns.CompletionIsExact | latency_lab/memory.py:246-255 | a completion that succeeds removes exactly the messages the summariser was sent, from the front, and leaves every later turn and every concurrent write in place |
| CompactionRuns.NoOtherCompaction | latency_lab/memory.py:246-250 | in every run, a snapshot found unchanged means no other compaction completed since, if and only if its first turn was not created once more |
| CompactionRuns.CompletionSucceedsExactly | latency_lab/memory.py:246-255 | a completion succeeds without its first turn having been created once more if and only if nothing was cleared, no other compaction completed and nothing the model would be shown of the selected turns changed; the summary it replaces is then the one it was merged from; ids never reused are enough |
| CompactionRuns.ReusedIdLosesASummary | latency_lab/memory.py:209-252 | a run from the empty memory, with snapshots as taken at their moments, in which a removed turn is written again word for word and a second completion of its snapshot puts its reply in place of another, later summary that it was not merged with |
| MemoryStore.ConversationMemory.constructor | latency_lab/memory.py:78-82 | a new memory is empty, in epoch 0 |
| MemoryStore.ConversationMemory.Locate | latency_lab/memory.py:88-94 | the newest turn with the id is found, or a fresh one is appended |
| MemoryStore.ConversationMemory.User | latency_lab/memory.py:96-101 | a user text goes to the front of its turn, once |
| MemoryStore.ConversationMemory.Tool | latency_lab/memory.py:103-108 | request and reply are appended together, once for each call id, and stay paired when the request names the call |
| MemoryStore.ConversationMemory.Answer | latency_lab/memory.py:110-117 | an answer is appended once and marks the turn answered |
| MemoryStore.ConversationMemory.FinishTurn | latency_lab/memory.py:119-129 | a turn is closed; a first interruption of an answered turn is noted in its last message; a missing turn stays missing |
| MemoryStore.ConversationMemory.SetListeningOnly | latency_lab/pipeline.py:1247-1247 | the pipeline's assignment through the turn it looks up reaches that turn only |
| MemoryStore.ConversationMemory.Clear | latency_lab/memory.py:131-134 | turns and summary go and the epoch advances |
| MemoryStore.ConversationMemory.Context | latency_lab/memory.py:164-207 | the prompt is the specified context, within the budget, with tool replies paired when the memory's are; with a turn excluded it is that of the memory without this turn |
| MemoryStore.ConversationMemory.BeginCompaction | latency_lab/memory.py:209-229 | the code before the await takes the specified snapshot or none |
| MemoryStore.ConversationMemory.CompleteCompaction | latency_lab/memory.py:237-255 | the code after the await succeeds exactly when the reply is within its bounds and epoch, ids and messages are unchanged; it then replaces the leading turns by the reply, and otherwise changes nothing |
| MemoryStore.ConversationMemory.Replace | latency_lab/memory.py:246-255 | the comparison with the snapshot and the deletion are one atomic step |
| MemoryStore.GroupTurns | latency_lab/memory.py:136-146 | the loop finds the one division into exchanges |
| MemoryStore.CollectMessages | latency_lab/memory.py:148-162 | the nested loop shows all messages in order, without reasoning unless asked for, with listening-only speech marked |
| MemoryStore.FillPrompt | latency_lab/memory.py:166-207 | summary, note and exchanges are put together as specified |
| MemoryStore.FitNewest | latency_lab/memory.py:177-200 | the loop over newest exchanges, with its early exit |
| MemoryStore.FitTail | latency_lab/memory.py:184-197 | the whole units of an oversized exchange that fit, tried from its end |
| MemoryStore.CollectUnits | latency_lab/memory.py:187-192 | messages are joined into whole messages and tool pairs |
| MemoryStore.Others | latency_lab/memory.py:176-176 | all turns but the excluded one, in order; all of them when none is excluded |
| Scanner.SplitScan | latency_lab/llm_output.py:25-56 | for any stable rule, scanning in two parts gives the whole's tokens when no tag has a delimiter the hold test rejects |
| Scanner.WideTagBreaks | latency_lab/llm_output.py:25-56 | for any rule, a tag with such a delimiter gives a cut that is scanned differently |
| Scanner.SplitsExactlyWhenNarrow | latency_lab/llm_output.py:25-56 | every cut is invisible if and only if no recognised tag has such a delimiter |
| Rendering.NestExactly | latency_lab/llm_output.py:40-47 | a closing tag ends the innermost span of its name with all that is open inside, and does nothing without one; only an opening tag that does not close itself opens one |
| TagScanner.HeadIsUnique | latency_lab/llm_output.py:6-8 | a tag name followed by a delimiter is determined by the text |
| TagScanner.FoundExtends | latency_lab/llm_output.py:8-48 | a complete tag stays the same tag when more text follows |
| TagScanner.FoundTrims | latency_lab/llm_output.py:8-48 | a complete tag is recognised without the text behind it |
| TagScanner.DecisionOfShorter | latency_lab/llm_output.py:16-55 | a shorter buffer decides like the longer one or holds, except before a tag with a delimiter the hold test rejects |
| TagScanner.CutTagIsEmitted | latency_lab/llm_output.py:16-23 | cut behind such a delimiter, the start of a tag is given up on |
| TagScanner.DecideIsStable | latency_lab/llm_output.py:16-55 | the match, hold or speak decision is stable under extension |
| TagScanner.DecideIsTrimmable | latency_lab/llm_output.py:16-55 | and under cutting |
| TagScanner.FormFeedTagIsFound | latency_lab/llm_output.py:8-23 | a tag name followed by a form feed is a tag when complete and spoken when cut |
| TagScanner.DecideIsClean | latency_lab/llm_output.py:8-8 | a recognised tag holds no second opening bracket |
| TagScanner.WrittenTagIsFound | latency_lab/llm_output.py:8-48 | a tag in any case and with any attributes the regular expression takes is found whatever follows it, with its name, its closing slash and whether it closes itself |
| TagScanner.OtherBracketIsEmitted | latency_lab/llm_output.py:16-55 | a bracket in front of anything but a slash or the first letter of a tag name is spoken |
| TagScanner.HeldForGood | latency_lab/llm_output.py:16-51 | what is held with a second bracket in it is held whatever follows |
| TagScanner.HeldMayComplete | latency_lab/llm_output.py:16-51 | anything else that is held can still become a tag |
| Rendering.SplitIsUnfelt | latency_lab/llm_output.py:25-56 | for any stable rule, a cut changes neither hidden spans, text nor buffer when no tag with a rejected delimiter makes a difference, and leaves the second part the same |
| Rendering.FeltBreaks | latency_lab/llm_output.py:25-56 | for any such rule, a tag that does make a difference gives a beginning of the text and a cut of it that show |
| Rendering.CutsShowExactlyWhenFelt | latency_lab/llm_output.py:25-56 | so cuts in two show if and only if there is such a tag |
| SpokenText.SpokenTextFilter.constructor | latency_lab/llm_output.py:12-14 | a new filter holds nothing back and hides nothing |
| SpokenText.SpokenTextFilter.Push | latency_lab/llm_output.py:25-56 | the loop over the buffer leaves exactly the scanned rest, the nested hidden spans and the characters spoken outside them |
| SpokenText.PushTwice | latency_lab/llm_output.py:25-56 | two pushes do what one push of both texts does, when no tag with a delimiter the hold test rejects makes a difference where it stands |
| SpokenText.ChunksAreInvisible | latency_lab/llm_output.py:25-56 | from any state and for every chunking, output, buffer and hidden spans are those of one push, under the same condition |
| SpokenText.OrdinaryTextHidesCuts | latency_lab/llm_output.py:16-56 | from any state, every chunking gives the output, buffer and hidden spans of one push when the only white space in the text is spaces, tabs, carriage returns and line feeds |
| SpokenText.OtherTextIsSpoken | latency_lab/llm_output.py:25-56 | text without brackets that could start a tag is spoken as it is, nothing held back |
| SpokenText.HeldForGoodExactly | latency_lab/llm_output.py:16-51 | after any push, what is held is held for good, and all later text with it, if and only if it has a second bracket in it |
| SpokenText.SecondBracketIsHeld | latency_lab/llm_output.py:16-51 | a text that is held so |
| SpokenText.CutsShowExactly | latency_lab/llm_output.py:25-56 | from a filter that holds nothing back, every chunking of every beginning of a text gives the output, buffer and hidden spans of one push if and only if no tag with a delimiter the hold test rejects would be heard as text or opens or closes a hidden span where it stands |
| SpokenText.SplitsOfFreshFilter | latency_lab/llm_output.py:25-56 | the scanned tokens and the held rest are the whole's for every split if and only if no recognised tag has a delimiter the hold test rejects |
| SpokenText.FormFeedShowsTheCut | latency_lab/llm_output.py:16-56 | a concrete tag that is hidden when pushed whole and spoken when pushed in two parts |
| SpokenText.NestedMarkup | latency_lab/llm_output.py:40-47 | the tokens of well-nested markup restore the hidden spans and speak exactly the characters outside its spans, none inside a hidden span; a span may be closed in another case than it was opened |
| SpokenText.ScanMarkup | latency_lab/llm_output.py:25-56 | markup of any known tags, in any case and with any attributes, around text without opening brackets, is scanned to its own tokens, whatever follows |
| SpokenText.NestedMarkupIsHidden | latency_lab/llm_output.py:25-56 | pushing such markup, well nested, speaks exactly the text outside its tags and spans, nothing inside a hidden span, holds nothing back and restores the hidden spans |
| IdleHangup.StepKeeps | latency_lab/engagement.py:139-504 | every stretch of code between awaits keeps the invariant of the idle close |
| IdleHangup.StartExactly | latency_lab/engagement.py:115-133 | at the start nothing is armed or under way, and the first check is the idle time away |
| IdleHangup.CallerEventExactly | latency_lab/engagement.py:139-162 | a caller event voids what was decided, forgets the armed close and starts the idle time anew |
| IdleHangup.GateExactly | latency_lab/engagement.py:168-170 | so do the wish for silence and the close of the session, which change nothing else |
| IdleHangup.CancelledIsSilent | latency_lab/engagement.py:396-504 | a cancelled task says nothing, arms nothing and hangs up on nobody |
| IdleHangup.ToolEventsExactly | latency_lab/engagement.py:213-276 | what tools do to the operation, the checks and what was decided |
| IdleHangup.AudioEventsExactly | latency_lab/engagement.py:172-178 | audio sent is heard after what is still being heard, and a stop ends it |
| IdleHangup.HangupOnlyOnAbsentCaller | latency_lab/engagement.py:354-394 | in every run a hang-up is sent only when the closing time has passed since the latest arming and no caller event came since, also across goodbye synthesis and playback |
| IdleHangup.HangsUpExactly | latency_lab/engagement.py:313-394 | a step hangs up exactly when the closing task comes to its end and, field by field, nobody speaks or begins to and nothing is under way |
| IdleHangup.HangupsFindNobody | latency_lab/engagement.py:313-394 | in every run each hang-up is sent at such a moment |
| IdleHangup.RefusedCloseSendsNothing | latency_lab/engagement.py:354-394 | a starting close that finds somebody there changes nothing but the closing time, which becomes a second later; one that has begun is given up |
| IdleHangup.IdleDecisionsAreBounded | latency_lab/engagement.py:286-311 | idle decisions between two caller events never exceed engagement_max_idle_updates |
| IdleHangup.PollStartsExactly | latency_lab/engagement.py:286-340 | a poll starts the close when its time has come, and otherwise a decision for exactly the reason there is, field by field |
| IdleHangup.DecisionBegins | latency_lab/engagement.py:396-408 | a decision that begins is counted and puts off the next check |
| IdleHangup.DecisionGoesOn | latency_lab/engagement.py:420-504 | when a decision goes on to its audio or to the stock phrase, how it ends, and when its words count as delivered |
| IdleHangup.ClosingGoesOn | latency_lab/engagement.py:354-394 | how the closing task goes on, and that a failed hang-up is tried again five seconds later |
| IdleHangup.ArmsExactly | latency_lab/engagement.py:396-504 | a step arms the closing time exactly when an idle decision comes to its end and the caller may still be addressed |
| IdleHangup.PlaysExactly | latency_lab/engagement.py:340-500 | something begins to be played exactly when its audio is there and it may be said, field by field |
| IdleHangup.IdleDecisionArms | latency_lab/engagement.py:329-504 | once the loop finds the caller idle, every schedule in which the caller stays silent and what is said is played arms the closing time within six turns of the decision, whatever it decides, whatever fails, and whatever the pipeline does while something is played, as long as it is idle again when that playback's await returns |
| IdleHangup.ArmedCallEnds | latency_lab/engagement.py:329-394 | once the closing time has passed in an otherwise idle call, every such schedule hangs up within one poll and three turns of the closing task; the goodbye may be played, as long as the pipeline is idle again when that await returns |
| IdleHangup.SilentCallEnds | latency_lab/engagement.py:329-504 | from any moment of such a call with the close armed or an idle decision under way or still allowed, every such schedule ends in a hang-up, at the latest after one round of the loop for each idle decision left or under way and one for the close; a round is a poll that finds something due and six turns of the task |
| IdleHangup.HeardCheckInArmsExactly | latency_lab/engagement.py:459-468 | a check-in that was heard arms the closing time if and only if the pipeline has no turn and no caller candidate, and is idle or playing, when the await for its playback returns |
| IdleHangup.PlayedCheckInArms | latency_lab/engagement.py:396-468 | a schedule of that kind in which a check-in is synthesized, played through any state of the pipeline, and arms the closing time when its playback is over |
| IdleHangup.SilentDecisionArms | latency_lab/engagement.py:396-446 | an idle decision that finds nothing to say, and has no stock phrase, arms the closing time at its second turn and otherwise changes only the decision count, the time of the next check and the playing flag |
| IdleHangup.ArmedCloseHangsUp | latency_lab/engagement.py:329-390 | once the closing time passed, a closing task without a goodbye phrase hangs up at its first turn |
| IdleHangup.SilenceEndsTheCall | latency_lab/engagement.py:329-504 | one schedule in which nothing is said, from the idle decision to the hang-up at the very end of the closing time |
| BankDispatch.StepKeeps | latency_lab/engagement.py:233-284 | every stretch of a dispatched call keeps single flight, the pinned unknown outcome and the fresh preview |
| BankDispatch.DispatchStartsExactly | latency_lab/engagement.py:233-284 | in every dispatched run a call starts exactly when none is in flight and no outcome is unknown |
| BankDispatch.PostsExactly | latency_lab/banking_tools.py:300-331 | a call asks for authorization exactly when it is enabled, valid and, to execute, confirmed and of the preview held; it posts exactly when the authorization is granted |
| BankDispatch.RefusedCallPostsNothing | latency_lab/banking_tools.py:300-319 | a call that is refused logs nothing, ends in a known failure and leaves the preview, unless it prepares another one |
| BankDispatch.ExecutionsWereGranted | latency_lab/banking_tools.py:300-331 | in every run each execution that was posted had passed its checks and was granted its authorization after that |
| BankDispatch.PreviewExactly | latency_lab/banking_tools.py:306-341 | what becomes of the preview held in each step |
| BankDispatch.AnswersExactly | latency_lab/banking_tools.py:332-342 | an answer is reported as it came, and a well-formed preview is accepted |
| BankDispatch.EndsExactly | latency_lab/engagement.py:253-276 | how a call ends, and that an unknown end is logged |
| BankDispatch.DispatchIsSafe | latency_lab/banking_tools.py:300-342 | in every run of dispatched calls at most one is in flight, none starts after an unknown outcome, and each execution posts the confirmed id of the latest preview, accepted after the execution before it |
| BankDispatch.PostsFreshExactly | latency_lab/banking_tools.py:300-342 | in every run, dispatched or not, executions that were not overtaken post the confirmed id of a fresh preview; with distinct preview ids all do if and only if none was overtaken between its checks and its post |
| BankDispatch.CarefulCallsAreSafe | latency_lab/banking_tools.py:300-342 | so do all executions as long as nobody posts one or accepts a preview while another is about to post |
| BankDispatch.DirectCallsPostTwice | latency_lab/banking_tools.py:312-330 | a run from the start in which, without the dispatcher, two overlapping executions both pass the preview check and post one preview twice |
| RealtimeWire.LanguageRecognised | agent/odion_stt.py:688-719 | a wire is closed generations followed by an open one if and only if the frame-by-frame recogniser accepts it |
| RealtimeWire.StepKeeps | agent/odion_stt.py:688-889 | every stretch of the tasks keeps the wire in shape while replies only answer final commits |
| RealtimeWire.WireKeepsShape | agent/odion_stt.py:688-889 | under every interleaving and any server the wire keeps its shape if and only if no unasked reply re-armed the stream |
| RealtimeWire.ProtocolIsKept | agent/odion_stt.py:688-889 | with a server that answers each final commit once, the wire keeps its shape and every final commit triggered by voice activity follows audio of its own generation |
| RealtimeWire.StepHolds | agent/odion_stt.py:721-841 | every step keeps all audio in order and adds what it takes in; only a start of speech gives up what was waiting of earlier speech |
| RealtimeWire.AudioIsSentInOrder | agent/odion_stt.py:721-841 | in every run without such a restart the audio on the wire is a beginning of the audio taken in, in chunks of at most 100 ms, none empty; all but less than a chunk while the sender listens, and all of it when the sender has finished |
| RealtimeWire.SenderExactly | agent/odion_stt.py:701-841 | the sender waits for its generation before it sends audio or the final commit, and goes on with the next chunk until less than one is left |
| RealtimeWire.ReceiverExactly | agent/odion_stt.py:688-699 | a reply stops the receiver when the input is over, and otherwise opens the next generation and arms it |
| RealtimeWire.IntakeExactly | agent/odion_stt.py:721-825 | which events are taken in, and what they leave waiting |
| RealtimeWire.StuckExactly | agent/odion_stt.py:721-841 | with such a server the receiver is left waiting if and only if speech ended the input without a byte, the sender if and only if audio was left while the previous reply was owed, and closing the socket never gives up an owed reply |
| RealtimeWire.CaughtForever | agent/odion_stt.py:827-841 | audio caught that way is never sent, whatever happens next |
| RealtimeWire.LateTailIsLost | agent/odion_stt.py:768-882 | a caller who speaks again before the reply and hangs up is lost: the receiver stops and the tail is never sent |
| RealtimeWire.AwaitsReplyIsReached | agent/odion_stt.py:721-766 | one finished utterance leads to the state that statement starts from |
| DemucsPadding.ValidLength | agent/wema_voiceprint.py:116-124 | the two loops compute the padded length for any depth, kernel, stride and resampling |
| DemucsPadding.Adjoint | agent/wema_voiceprint.py:120-123 | shrinking a length stays within w if and only if the length fits what w grows to |
| DemucsPadding.AdjointAtDepth | agent/wema_voiceprint.py:120-123 | the same at every depth |
| DemucsPadding.KeptExactly | agent/wema_voiceprint.py:116-124 | layers never lengthen a signal and keep its length if and only if each divides its input exactly |
| DemucsPadding.GrownIsLeast | agent/wema_voiceprint.py:116-124 | for every shape of network the grown length is the least one that all layers divide exactly |
| DemucsPadding.PaddedIsLeastKept | agent/wema_voiceprint.py:38-124 | with the denoiser's numbers the padded length is the least length of at least the audio's that the denoiser keeps |
| DemucsPadding.KeptLengths | agent/wema_voiceprint.py:38-42 | those lengths are exactly 256w + 341 for w at least 1 |
| DemucsPadding.PaddingIsTight | agent/wema_voiceprint.py:116-124 | padding is monotone, idempotent, at most 255 samples from 342 on, and 597 below |
| DemucsPadding.Pad | agent/wema_voiceprint.py:137-139 | the buffer holds the audio followed by zeros |
| DemucsPadding.Denoise | agent/wema_voiceprint.py:131-142 | denoising gives back as many samples as it was given, a prefix of what the denoiser makes of the padded audio |
| SpeechSegment.CloseGaps | agent/voice_auth.py:311-315 | after the in-place loop a frame is marked if and only if it is speech or in a run of at most 6 silent frames between two speech frames |
| SpeechSegment.GapGoesOn | agent/voice_auth.py:313-315 | one loop step extends a gap exactly when it lies in a short one |
| SpeechSegment.LastRunIsUnique | agent/voice_auth.py:316-320 | the last run of speech is determined by its ends, its short gaps and the silence around it |
| SpeechSegment.LastRunExists | agent/voice_auth.py:309-320 | it exists as soon as a frame is speech |
| SpeechSegment.RunStartsWithSpeech | agent/voice_auth.py:318-320 | the walk back stops at a speech frame behind a long silence or the beginning |
| SpeechSegment.KeptExactly | agent/voice_auth.py:321-327 | the run is kept with two frames on either side, as far as there are any, unless that is under 19200 samples |
| SpeechSegment.LastSpeechSegment | agent/voice_auth.py:296-327 | short audio comes back whole, silence gives nothing, otherwise the last run with two frames around it, inside the audio, or all of it when that is under 1.2 seconds |
| SpokenAudio.WholeGrows | agent/odion_tts.py:590-597 | carried bytes and the next chunk give the next whole samples and the next remainder |
| SpokenAudio.Align | agent/odion_tts.py:589-597 | a chunk is cut to whole samples; other formats pass unchanged |
| SpokenAudio.Hand | agent/odion_tts.py:600-611 | audio is collected until the initial target and pushed at once from then on, none lost or reordered |
| SpokenAudio.Receive | agent/odion_tts.py:577-612 | for every chunking, what is pushed and held back is exactly the whole samples received, each push aligned, the first at least the target |
| SpokenAudio.StreamRequest | agent/odion_tts.py:537-666 | one request: whole samples in order, nothing lost when it completes or breaks off after a whole sample, nothing pushed when refused; every failure becomes a refusal, a timeout or a lost connection |
| SpokenAudio.DeliversInBytes | agent/odion_tts.py:537-666 | in bytes: of PCM audio whole samples of all channels, each push aligned, and all but an unfinished sample when the response completes; every byte of other formats |
| SpokenAudio.TargetExactly | agent/odion_tts.py:129-133 | the target is the whole number of 16-bit samples in the buffering time |
| SpokenAudio.CompletesExactly | agent/odion_tts.py:620-641 | a response completes when it ends, or breaks off in its payload after a whole sample |
| SpokenAudio.StreamOnce | agent/odion_tts.py:422-467 | only refusals are retried, only passing ones, at most retry_attempts times, and only the last request is heard |
| SpokenAudio.Synthesizer.Speak | agent/odion_tts.py:394-420 | over all retries and the fallback voice at most one request pushes audio, and it is the last; the session drops its voice only after a refusal for it, and never ends with such a refusal while it keeps the voice |
| NoiseFilter.SuppressConcat | latency_lab/input_noise.py:79-83 | suppressing whole blocks and then the rest is suppressing both |
| NoiseFilter.SuppressedInOrder | latency_lab/input_noise.py:78-84 | each block of the output is what the suppressor makes of that block after all those before it |
| NoiseFilter.ProcessConserves | latency_lab/input_noise.py:70-92 | no call loses or invents a byte, also when the suppressor raises |
| NoiseFilter.FinishConserves | latency_lab/input_noise.py:139-148 | finishing gives back as many bytes as were waiting, suppressed or not |
| NoiseFilter.FinishExactly | latency_lab/input_noise.py:139-148 | the waiting bytes are filled up with silence, suppressed and cut back; they come back themselves when the suppressor raises |
| NoiseFilter.CallConserves | latency_lab/input_noise.py:63-148 | over a whole call total output equals total input in length, wherever the suppressor fails |
| NoiseFilter.FailsOpen | latency_lab/input_noise.py:63-92 | in every run what comes out is the audio suppressed up to some block and the caller's own audio, untouched and complete, from there on; without a failure all whole blocks are suppressed |
| NoiseFilter.CutsDoNotShow | latency_lab/input_noise.py:70-92 | how the audio is cut into calls changes neither whether the suppressor fails nor, if not, the output |
| NoiseFilter.FailureShowsTheCut | latency_lab/input_noise.py:84-90 | after a failure the cuts can show |
| NoiseFilter.SuppressBlocks | latency_lab/input_noise.py:78-84 | the loop over blocks computes the specified suppression |
| NoiseFilter.InputNoiseFilter.constructor | latency_lab/input_noise.py:22-51 | a new filter holds nothing back |
| NoiseFilter.InputNoiseFilter.ProcessPcm | latency_lab/input_noise.py:63-92 | output and new state are the specified ones |
| NoiseFilter.InputNoiseFilter.FinishCall | latency_lab/input_noise.py:139-148 | the waiting block is filled up, processed and cut back |
| StrictSchema.StrictExactly | agent/tool_schema_compat.py:123-180 | the strict form passes the strictness test if and only if every item schema that is not under an array type was strict to begin with |
| StrictSchema.StrictifyMakesStrict | agent/tool_schema_compat.py:123-180 | a schema whose items stand under array types becomes strict |
| StrictSchema.StrictifyIsIdempotent | agent/tool_schema_compat.py:123-149 | making strict twice is making strict once, on all schemas |
| StrictSchema.OnlyEnforces | agent/tool_schema_compat.py:123-149 | apart from the type and additionalProperties of objects nothing of a schema changes |
| StrictSchema.FieldsExactly | agent/tool_schema_compat.py:123-149 | what becomes of each key of a schema |
| StrictSchema.TypeExactly | agent/tool_schema_compat.py:130-130 | a type is recognised in any case and with white space around it |
| StrictSchema.StrictMeansEveryObject | agent/tool_schema_compat.py:152-180 | a schema passes the strictness test if and only if every object schema in it, at any depth, forbids additional properties |
| ConversationHistory.QueueStep | latency_lab/conversation_persist.py:221-237 | every step keeps the queue: a live worker for waiting work, order, and the bound |
| ConversationHistory.NoLostWakeUp | latency_lab/conversation_persist.py:221-237 | until the close a waiting job has a live worker, jobs are taken up first in first out, and at most 256 wait |
| ConversationHistory.HolderStep | latency_lab/conversation_persist.py:267-318 | every step, timeouts included, keeps one holder of each lock and at most one resolve |
| ConversationHistory.LedgerStep | latency_lab/conversation_persist.py:322-332 | every step keeps the ledger faithful |
| ConversationHistory.SavedOnceInOrder | latency_lab/conversation_persist.py:267-342 | in every run the session is resolved at most once, saved messages are numbered without gaps, at most one for each role and turn, no repeat without a turn, and at most one write is under way |
| ConversationHistory.GivenUpOnlyAfterStart | latency_lab/conversation_persist.py:317-324 | a message is given up only as a duplicate or when the start is over without a session |
| ConversationHistory.TaskExactly | latency_lab/conversation_persist.py:267-342 | where a task goes in its turn, and what it does to the session, the ledger and other tasks |
| ConversationHistory.NoLockIsLost | latency_lab/conversation_persist.py:267-342 | in every run, timeouts at any place included, a lock is held only by a task that has not come to its end |
| ConversationHistory.JobsRunOneAtATime | latency_lab/conversation_persist.py:230-237 | in every run the jobs of the queue are done one after the other |
| ConversationHistory.WorkerExactly | latency_lab/conversation_persist.py:230-237 | a free worker takes the job that waited longest and leaves when none waits |
| ConversationHistory.SpawnExactly | latency_lab/conversation_persist.py:221-228 | a job is taken in while the store runs and fewer than 256 wait, and otherwise dropped without a trace |
| ConversationHistory.TurnsExactly | latency_lab/conversation_persist.py:230-237 | a waiting task does nothing; another one runs, or ends at its time limit and gives back its locks |
| ConversationHistory.CloseExactly | latency_lab/conversation_persist.py:440-452 | the steps of the close |
| ConversationHistory.KeysClashExactly | latency_lab/conversation_persist.py:325-328 | two saved messages share an idempotency key if and only if the turn id of one spells the number of the other, which has none |
| ConversationHistory.KeysClashInARun | latency_lab/conversation_persist.py:313-332 | a run from a new store in which two different messages are saved under one key |
| MailOutbox.StepKeepsAtMostOnce | latency_lab/directory_email.py:230-291 | every step, deaths included, keeps one holder for each outbox row |
| MailOutbox.StepKeepsConsent | latency_lab/directory_email.py:201-242 | every step keeps mails addressed and confirmed as prepared |
| MailOutbox.MailedAtMostOnce | latency_lab/directory_email.py:230-291 | in every run from any surviving outbox at most one mail is submitted for a row key, none for a surviving one, none to an unconfirmed other address, and none whose contact differed at the check |
| MailOutbox.PreparesExactly | latency_lab/directory_email.py:167-229 | what is prepared: the saved address of a verified caller, or another one that the caller gave, for a valid search |
| MailOutbox.SendsExactly | latency_lab/directory_email.py:230-243 | a send takes what was prepared and begins exactly when there is something, another address is confirmed, the contact is unchanged and mail is set up |
| MailOutbox.ProgressExactly | latency_lab/directory_email.py:243-291 | how a send goes on from each place |
| MailOutbox.SubmitsExactly | latency_lab/directory_email.py:266-283 | a mail is submitted exactly when a send that has its row goes on |
| MailOutbox.OthersExactly | latency_lab/directory_email.py:122-137 | contacts change from outside, and new mailers have nothing prepared |
| MailOutbox.RecordedForGood | latency_lab/directory_email.py:254-264 | a row without its sender is never mailed again or made up for |
| MailOutbox.LookupToMail | latency_lab/directory_email.py:243-283 | from the lookup on an unrecorded send goes through |
| MailOutbox.ChangeDuringLookupIsMissed | latency_lab/directory_email.py:236-243 | a contact that changes after the check is mailed at the address it was prepared for |
| Appointments.AppointmentBook.constructor | backend/api.py:110-113 | a new book is empty |
| Appointments.AppointmentBook.Check | backend/api.py:120-147 | the hours test and the loop over stored rows accept exactly what is in hours and clashes with none |
| Appointments.ClashExactly | backend/api.py:138-147 | two appointments that take time clash exactly when they share a moment of a day; one may begin when another ends |
| Appointments.AcceptsExactly | backend/api.py:120-147 | a request that takes time is accepted exactly when all its moments are between 9:00 and 18:00 and none is one of an appointment of that day |
| Appointments.AppointmentBook.Store | backend/api.py:149-158 | the appointment is added and nothing else changes |
| Appointments.AppointmentBook.Create | backend/api.py:120-158 | an appointment is stored if and only if it is in hours and clashes with none, and otherwise nothing changes |
| Appointments.BookKeeps | backend/api.py:120-158 | any sequence of requests keeps appointments in hours and without clashes |
| Appointments.MinutesAreSeparate | backend/api.py:138-147 | appointments that do not clash take up separate time |
| Appointments.NeverOverbooked | backend/api.py:120-158 | after any sequence of requests appointments do not clash and a day has at most nine hours booked |
| Appointments.InsideExactly | backend/api.py:120-127 | an accepted appointment has both ends in the opening hours if and only if it does not start after they end nor end before they begin, which only one of negative length can |
| Appointments.BookedInside | backend/api.py:120-158 | without requests of negative length every appointment of every book has both ends in the opening hours |
| Appointments.NegativeLengthIsAccepted | backend/api.py:120-127 | one of negative length is accepted at 23:00 |
| Appointments.RacingRequests | backend/api.py:129-158 | in every interleaving of checks and stores the stored appointments do not clash if and only if none was stored between the check and the store of one it clashes with |
| Appointments.RequestExactly | backend/api.py:129-158 | a request is checked once, against what is stored then, and stored once if it was accepted |
| Appointments.OneAtATimeIsSound | backend/api.py:120-158 | requests whose store follows their check at once never leave a clash |
| Appointments.SlotBookedTwice | backend/api.py:129-158 | two requests for one slot that are both checked before either is stored are both booked |

## Left out

- Protocols (`IdleHangup`, `BankDispatch`, `RealtimeWire`, `ConversationHistory`, `MailOutbox`,
  `CompactionRuns`) are state machines on values: they capture every interleaving at awaits, not
  object identity or aliasing.
- A memory turn is a value; the alias that `turn()` hands to the pipeline is modelled by
  `SetListeningOnly`, the only write made through it. `tool` with a reply without a call id raises and is
  not modelled, nor is a message without `content`.
- Trace records, clocks, language models, synthesizers, HTTP responses and the text of prompts are
  inputs or left out. The summariser's reply is modelled as a parsed summary or none.
- JSON is rendered for the shapes the memory stores; lone surrogates, which cannot be encoded, and
  numbers are left out.
- Names of tags are compared with ASCII case folding; the further letters that `re.I` and `lower()`
  fold differently are left out.
- Engagement switched off, and the pipeline's own background tools apart from their effect on the idle
  close.
- The banking authorization and its voice monitor are one await that passes or fails.
- The websocket's other messages, transcripts and connection set-up; a frame counts as on the wire
  when its sending starts.
- `valid_length` divides floating-point numbers; the model divides integers, which agrees as long as
  the quotients are exact in a double.
- The speech test of a frame, resampling, encoders and the suppressor's signal processing are
  parameters; the RNNoise path and the switch between filters are left out.
- The synthesizer's request payload, its log lines and failures of the audio emitter itself.
- Recording, transfer snapshots and the end-of-call requests of the history store; the retries inside
  one request repeat the same key and count as one.
- The mail's text, the directory lookup and the digest of the row key, which is modelled as the
  search and the folded recipient.
- Database failures, appointment fields other than day, start and length, and times with an offset.
- Schema keys other than those the transformer reads are told apart by name only.
