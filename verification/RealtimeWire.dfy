/** The realtime transcription stream: a sender and a receiver share one websocket.
    A message is on the wire from the step that sends it; anything may happen at an await. */
module RealtimeWire {

  type Bytes = seq<bv8>

  datatype Frame = Commit(final: bool) | Append(audio: Bytes)

  /** Bytes of one audio chunk: 16 kHz, two bytes a sample, 100 ms. */
  const CHUNK: nat := 3200

  /** What follows the chunk being sent: the rest of the buffer, or the end of the utterance. */
  datatype Next = More | Tail(last: bool)

  datatype SenderAt =
    | Listening
    | WaitingToSend(chunk: Bytes, next: Next)
    | Sending(next: Next)
    | WaitingToFinalize(last: bool)
    | Finalizing(last: bool)
    | Finished

  datatype ReceiverAt = Receiving | Arming | Stopped

  /** The current generation: whether it is armed, has audio, and was asked to finish. */
  datatype Gate = Gate(ready: bool, hasAudio: bool, finalRequested: bool)

  /** The audio coming in: whether it and the voice activity events ended, whether there is speech,
      and the audio not sent yet. */
  datatype Intake = Intake(ended: bool, drained: bool, speech: bool, pending: Bytes)

  /** How the voice activity events ended: inside speech with nothing of it sent or left to send,
      inside speech with audio left while the previous utterance still awaits its reply, or otherwise. */
  datatype Ending = NotYet | Regular | SilentSpeech | LateTail

  /** What happened: the socket closed, the server's replies, whether one re-armed the stream unasked,
      and how the voice activity events ended. */
  datatype Past = Past(closed: bool, dones: nat, intruded: bool, ending: Ending)

  /** The stream: its flags, the wire, and where its two tasks are. */
  datatype Stream = Stream(vad: bool, wire: seq<Frame>, gate: Gate, intake: Intake, sender: SenderAt,
                           receiver: ReceiverAt, past: Past)
  {
    function Wrote(frame: Frame): Stream {
      this.(wire := wire + [frame])
    }

    function Speech(audio: Bytes): Stream {
      this.(intake := intake.(speech := true, pending := audio))
    }

    function Buffered(audio: Bytes): Stream {
      this.(intake := intake.(pending := intake.pending + audio))
    }

    function InputOver(): Stream {
      this.(intake := intake.(ended := true))
    }

    // ---------- the sender ----------

    /** Sends whole chunks while there are any. */
    function Flush(): Stream {
      if |intake.pending| >= CHUNK then
        this.(intake := intake.(pending := intake.pending[CHUNK..]),
              sender := WaitingToSend(intake.pending[..CHUNK], More))
      else this.(sender := Listening)
    }

    function After(last: bool): Stream {
      this.(sender := if last then Finished else Listening)
    }

    function Finalize(last: bool): Stream {
      if gate.finalRequested then After(last)
      else if vad && !gate.hasAudio then After(last)
      else if gate.ready then CommitFinal(last)
      else this.(sender := WaitingToFinalize(last))
    }

    function CommitFinal(last: bool): Stream {
      this.(gate := gate.(ready := false, finalRequested := true), sender := Finalizing(last)).Wrote(Commit(true))
    }

    function Quiet(): Stream {
      this.(intake := intake.(speech := false))
    }

    /** The end of an utterance: the rest of the buffer, then the final commit. */
    function EndUtterance(last: bool): Stream {
      if intake.pending != []
      then this.(intake := intake.(pending := []), sender := WaitingToSend(intake.pending, Tail(last)))
      else Quiet().Finalize(last)
    }

    function Heard(): Stream {
      this.(gate := gate.(hasAudio := true))
    }

    function SenderResumes(): Stream {
      match sender
      case WaitingToSend(chunk, next) =>
        if gate.ready then this.(sender := Sending(next)).Wrote(Append(chunk)) else this
      case Sending(next) =>
        var s := Heard();
        if next.More? then s.Flush() else s.Quiet().Finalize(next.last)
      case WaitingToFinalize(last) => if gate.ready then CommitFinal(last) else this
      case Finalizing(last) => After(last)
      case _ => this
    }

    function HowEnded(): Ending {
      if intake.speech && intake.pending != [] && gate.finalRequested then LateTail
      else if intake.speech && intake.pending == [] && !gate.hasAudio && !gate.finalRequested then SilentSpeech
      else Regular
    }

    function Drained(): Stream {
      this.(intake := intake.(drained := true), past := past.(ending := HowEnded()))
    }

    function VadEnds(): Stream {
      var s := Drained();
      if intake.speech then s.EndUtterance(true)
      else if !gate.hasAudio then s.(past := s.past.(closed := true), sender := Finished)
      else s.(sender := Finished)
    }

    // ---------- the receiver ----------

    function Armed(): Stream {
      this.(gate := gate.(ready := true), receiver := Receiving)
    }

    function DoneArrives(): Stream {
      var counted := past.(dones := past.dones + 1);
      if intake.ended && (!vad || intake.drained) then this.(past := counted, receiver := Stopped)
      else
        this.(gate := gate.(hasAudio := false, finalRequested := false), receiver := Arming,
              past := counted.(intruded := past.intruded || Finals(wire) <= past.dones)).Wrote(Commit(false))
    }
  }

  datatype Input =
    | SpeechStarts(audio: Bytes)
    | SpeechContinues(audio: Bytes)
    | SpeechEnds
    | VadStreamEnds
    | AudioArrives(audio: Bytes)
    | FlushAsked
    | InputEnds
    | SenderRuns
    | ServerDone
    | ReceiverRuns

  function Step(s: Stream, input: Input): Stream {
    var idle := s.sender.Listening?;
    match input
    case SpeechStarts(audio) => if s.vad && idle then s.Speech(audio).Flush() else s
    case SpeechContinues(audio) => if s.vad && idle && s.intake.speech then s.Buffered(audio).Flush() else s
    case SpeechEnds => if s.vad && idle && s.intake.speech then s.EndUtterance(false) else s
    case VadStreamEnds => if s.vad && idle && s.intake.ended then s.VadEnds() else s
    case AudioArrives(audio) =>
      if !s.vad && idle && !s.intake.ended then s.Buffered(audio).Flush() else s
    case FlushAsked => if !s.vad && idle && !s.intake.ended then s.Flush() else s
    case InputEnds =>
      if s.vad then s.InputOver()
      else if idle && !s.intake.ended then s.InputOver().EndUtterance(true)
      else s
    case SenderRuns => s.SenderResumes()
    case ServerDone => if s.receiver.Receiving? && !s.past.closed then s.DoneArrives() else s
    case ReceiverRuns => if s.receiver.Arming? then s.Armed() else s
  }

  function Run(s: Stream, inputs: seq<Input>): Stream
    decreases |inputs|
  {
    if inputs == [] then s else Run(Step(s, inputs[0]), inputs[1..])
  }

  /** A stream just connected: the first generation is armed. */
  function Start(vad: bool): Stream {
    Stream(vad, [Commit(false)], Gate(true, false, false), Intake(false, false, false, []), Listening, Receiving,
           Past(false, 0, false, NotYet))
  }

  // ---------- the language of the wire ----------

  function Finals(wire: seq<Frame>): nat {
    if wire == [] then 0
    else Finals(wire[..|wire| - 1]) + if wire[|wire| - 1] == Commit(true) then 1 else 0
  }

  function Appends(chunks: seq<Bytes>): seq<Frame> {
    seq(|chunks|, i requires 0 <= i < |chunks| => Append(chunks[i]))
  }

  /** Closed generations, each with its audio, its final commit and the opening of the next one. */
  function ClosedGenerations(closed: seq<seq<Bytes>>): seq<Frame> {
    if closed == [] then [Commit(false)]
    else ClosedGenerations(closed[..|closed| - 1]) + Appends(closed[|closed| - 1]) + [Commit(true), Commit(false)]
  }

  /** The whole wire: closed generations, then an open one or one just finalized. */
  function Pattern(closed: seq<seq<Bytes>>, tail: seq<Bytes>, finalized: bool): seq<Frame> {
    ClosedGenerations(closed) + Appends(tail) + if finalized then [Commit(true)] else []
  }

  ghost predicate WellShaped(wire: seq<Frame>) {
    exists closed, tail, finalized :: wire == Pattern(closed, tail, finalized)
  }

  datatype Phase = Fresh | Open | Closed | Broken

  /** The same language, recognised frame by frame. */
  function PhaseOf(wire: seq<Frame>): Phase {
    if wire == [] then Fresh
    else
      var before, last := PhaseOf(wire[..|wire| - 1]), wire[|wire| - 1];
      if last == Commit(false) && (before.Fresh? || before.Closed?) then Open
      else if last.Append? && before.Open? then Open
      else if last == Commit(true) && before.Open? then Closed
      else Broken
  }

  lemma PhaseStep(wire: seq<Frame>, frame: Frame)
    ensures PhaseOf(wire + [frame]) ==
            if frame == Commit(false) && (PhaseOf(wire).Fresh? || PhaseOf(wire).Closed?) then Open
            else if frame.Append? && PhaseOf(wire).Open? then Open
            else if frame == Commit(true) && PhaseOf(wire).Open? then Closed
            else Broken
    ensures Finals(wire + [frame]) == Finals(wire) + if frame == Commit(true) then 1 else 0
  {
    assert (wire + [frame])[..|wire|] == wire;
  }

  lemma {:induction false} AppendsStayOpen(wire: seq<Frame>, chunks: seq<Bytes>)
    requires PhaseOf(wire).Open?
    ensures PhaseOf(wire + Appends(chunks)).Open?
  {
    if chunks == [] {
      assert wire + Appends(chunks) == wire;
    } else {
      var before, last := chunks[..|chunks| - 1], chunks[|chunks| - 1];
      AppendsStayOpen(wire, before);
      PhaseStep(wire + Appends(before), Append(last));
      assert wire + Appends(chunks) == (wire + Appends(before)) + [Append(last)];
    }
  }

  lemma {:induction false} ClosedGenerationsOpen(closed: seq<seq<Bytes>>)
    ensures PhaseOf(ClosedGenerations(closed)).Open?
  {
    if closed == [] {
      PhaseStep([], Commit(false));
      assert [] + [Commit(false)] == [Commit(false)];
    } else {
      var before, last := ClosedGenerations(closed[..|closed| - 1]), closed[|closed| - 1];
      ClosedGenerationsOpen(closed[..|closed| - 1]);
      AppendsStayOpen(before, last);
      var w := before + Appends(last);
      PhaseStep(w, Commit(true));
      PhaseStep(w + [Commit(true)], Commit(false));
      assert w + [Commit(true), Commit(false)] == (w + [Commit(true)]) + [Commit(false)];
    }
  }

  lemma PatternIsAccepted(closed: seq<seq<Bytes>>, tail: seq<Bytes>, finalized: bool)
    ensures PhaseOf(Pattern(closed, tail, finalized)) == if finalized then Closed else Open
  {
    ClosedGenerationsOpen(closed);
    AppendsStayOpen(ClosedGenerations(closed), tail);
    var w := ClosedGenerations(closed) + Appends(tail);
    if finalized { PhaseStep(w, Commit(true)); } else { assert w + [] == w; }
  }

  lemma {:induction false} AcceptedHasPattern(wire: seq<Frame>)
    returns (closed: seq<seq<Bytes>>, tail: seq<Bytes>, finalized: bool)
    requires PhaseOf(wire).Open? || PhaseOf(wire).Closed?
    ensures wire == Pattern(closed, tail, finalized) && (finalized <==> PhaseOf(wire).Closed?)
    decreases |wire|
  {
    hide Finals;
    var before, last := wire[..|wire| - 1], wire[|wire| - 1];
    assert wire == before + [last];
    if before == [] {
      closed, tail, finalized := [], [], false;
    } else {
      closed, tail, finalized := AcceptedHasPattern(before);
      if last.Append? {
        assert Appends(tail + [last.audio]) == Appends(tail) + [last];
        tail := tail + [last.audio];
      } else if last == Commit(true) {
        finalized := true;
      } else {
        assert (closed + [tail])[..|closed|] == closed;
        closed, tail, finalized := closed + [tail], [], false;
      }
    }
  }

  /** The frame-by-frame recogniser accepts exactly the well-shaped wires. */
  lemma LanguageRecognised(wire: seq<Frame>)
    ensures WellShaped(wire) <==> PhaseOf(wire).Open? || PhaseOf(wire).Closed?
  {
    if PhaseOf(wire).Open? || PhaseOf(wire).Closed? {
      var closed, tail, finalized := AcceptedHasPattern(wire);
    }
    if WellShaped(wire) {
      var closed, tail, finalized :| wire == Pattern(closed, tail, finalized);
      PatternIsAccepted(closed, tail, finalized);
    }
  }

  // ---------- the invariant ----------

  /** Every final commit comes right after audio of its own generation. */
  ghost predicate FinalsHaveAudio(wire: seq<Frame>) {
    forall i :: 0 <= i < |wire| && wire[i] == Commit(true) ==> 0 < i && wire[i - 1].Append?
  }

  predicate HeardLast(wire: seq<Frame>) {
    wire != [] && wire[|wire| - 1].Append?
  }

  /** While the server only answers final commits. */
  ghost predicate Orderly(s: Stream) {
    && (PhaseOf(s.wire).Open? || PhaseOf(s.wire).Closed?)
    && (PhaseOf(s.wire).Open? ==>
          && !s.gate.finalRequested
          && (s.gate.hasAudio ==> HeardLast(s.wire))
          && (s.gate.ready <==> !s.receiver.Arming?)
          && (s.receiver.Stopped? || Finals(s.wire) == s.past.dones))
    && (PhaseOf(s.wire).Closed? ==>
          && s.gate.finalRequested && !s.gate.ready && !s.receiver.Arming?
          && (s.receiver.Stopped? || Finals(s.wire) == s.past.dones + 1)
          && !s.sender.Sending? && !s.sender.WaitingToFinalize?)
    && (s.sender.Sending? ==> HeardLast(s.wire))
    && (s.sender.WaitingToFinalize? && s.vad ==> s.gate.hasAudio)
    && (s.vad ==> FinalsHaveAudio(s.wire))
  }

  ghost predicate Inv(s: Stream) {
    if s.past.intruded then PhaseOf(s.wire).Broken? else Orderly(s)
  }

  lemma WriteFacts(s: Stream, frame: Frame)
    ensures var t := s.Wrote(frame);
            && PhaseOf(t.wire) == (
                 if frame == Commit(false) && (PhaseOf(s.wire).Fresh? || PhaseOf(s.wire).Closed?) then Open
                 else if frame.Append? && PhaseOf(s.wire).Open? then Open
                 else if frame == Commit(true) && PhaseOf(s.wire).Open? then Closed
                 else Broken)
            && Finals(t.wire) == Finals(s.wire) + (if frame == Commit(true) then 1 else 0)
            && (HeardLast(t.wire) <==> frame.Append?)
            && (FinalsHaveAudio(s.wire) && (frame == Commit(true) ==> HeardLast(s.wire)) ==> FinalsHaveAudio(t.wire))
  {
    PhaseStep(s.wire, frame);
  }

  lemma FlushKeeps(s: Stream)
    requires Inv(s)
    ensures Inv(s.Flush())
  {
    hide PhaseOf, Finals, FinalsHaveAudio;
  }

  lemma FinalizeKeeps(s: Stream, last: bool)
    requires Inv(s)
    ensures Inv(s.Finalize(last))
  {
    hide PhaseOf, Finals, FinalsHaveAudio;
    WriteFacts(s, Commit(true));
  }

  lemma SenderKeeps(s: Stream)
    requires Inv(s)
    ensures Inv(s.SenderResumes())
  {
    hide PhaseOf, Finals, FinalsHaveAudio, Stream.Flush, Stream.Finalize;
    match s.sender
    case WaitingToSend(chunk, _) => WriteFacts(s, Append(chunk));
    case Sending(next) =>
      var t := s.Heard();
      if next.More? { FlushKeeps(t); } else { FinalizeKeeps(t.Quiet(), next.last); }
    case WaitingToFinalize(last) => WriteFacts(s, Commit(true));
    case _ =>
  }

  lemma EndUtteranceKeeps(s: Stream, last: bool)
    requires Inv(s)
    ensures Inv(s.EndUtterance(last))
  {
    hide PhaseOf, Finals, FinalsHaveAudio, Stream.Finalize;
    if s.intake.pending == [] { FinalizeKeeps(s.Quiet(), last); }
  }

  lemma VadEndsKeeps(s: Stream)
    requires Inv(s)
    ensures Inv(s.VadEnds())
  {
    hide PhaseOf, Finals, FinalsHaveAudio, Stream.EndUtterance;
    if s.intake.speech {
      EndUtteranceKeeps(s.Drained(), true);
    }
  }

  lemma DoneKeeps(s: Stream)
    requires Inv(s) && s.receiver.Receiving?
    ensures Inv(s.DoneArrives())
  {
    hide PhaseOf, Finals, FinalsHaveAudio;
    WriteFacts(s, Commit(false));
  }

  lemma StepKeeps(s: Stream, input: Input)
    requires Inv(s)
    ensures Inv(Step(s, input))
  {
    hide PhaseOf, Finals, FinalsHaveAudio, Stream.Flush, Stream.EndUtterance, Stream.VadEnds,
         Stream.SenderResumes, Stream.DoneArrives;
    match input
    case SpeechStarts(audio) => FlushKeeps(s.Speech(audio));
    case SpeechContinues(audio) => FlushKeeps(s.Buffered(audio));
    case SpeechEnds => EndUtteranceKeeps(s, false);
    case VadStreamEnds => VadEndsKeeps(s);
    case AudioArrives(audio) => FlushKeeps(s.Buffered(audio));
    case FlushAsked => FlushKeeps(s);
    case InputEnds => EndUtteranceKeeps(s.InputOver(), true);
    case SenderRuns => SenderKeeps(s);
    case ServerDone => if s.receiver.Receiving? { DoneKeeps(s); }
    case ReceiverRuns =>
  }

  lemma {:induction false} RunKeeps(s: Stream, inputs: seq<Input>)
    requires Inv(s)
    ensures Inv(Run(s, inputs))
    decreases |inputs|
  {
    hide Inv;
    if inputs != [] {
      StepKeeps(s, inputs[0]);
      RunKeeps(Step(s, inputs[0]), inputs[1..]);
    }
  }

  lemma StartInv(vad: bool)
    ensures Inv(Start(vad))
  {
    assert [Commit(false)][..0] == [];
    assert PhaseOf([]) == Fresh;
    assert Finals([]) == 0;
  }

  /** Whatever the interleaving of the tasks and the server's replies, the wire keeps its shape
      exactly as long as no reply that was not asked for re-armed the stream. */
  lemma WireKeepsShape(vad: bool, inputs: seq<Input>)
    ensures var s := Run(Start(vad), inputs);
            WellShaped(s.wire) <==> !s.past.intruded
  {
    hide Inv, Run;
    StartInv(vad);
    RunKeeps(Start(vad), inputs);
    var s := Run(Start(vad), inputs);
    LanguageRecognised(s.wire);
    assert s.past.intruded <==> PhaseOf(s.wire).Broken? by { InvDecides(s); }
    PhaseNotFresh(s);
  }

  lemma InvDecides(s: Stream)
    requires Inv(s)
    ensures s.past.intruded <==> PhaseOf(s.wire).Broken?
    ensures s.past.intruded || PhaseOf(s.wire).Open? || PhaseOf(s.wire).Closed?
  {
    hide PhaseOf;
  }

  lemma PhaseNotFresh(s: Stream)
    requires Inv(s)
    ensures !PhaseOf(s.wire).Fresh?
  {
    hide PhaseOf;
  }

  /** A reply only ever answers a final commit. */
  predicate Permitted(s: Stream, input: Input) {
    input.ServerDone? && s.receiver.Receiving? && !s.past.closed ==> s.past.dones < Finals(s.wire)
  }

  /** A server that answers each final commit once, and nothing else. */
  ghost predicate ServerKeepsProtocol(s: Stream, inputs: seq<Input>)
    decreases |inputs|
  {
    inputs != [] ==>
      && Permitted(s, inputs[0])
      && ServerKeepsProtocol(Step(s, inputs[0]), inputs[1..])
  }

  lemma NeverIntrudes(s: Stream, input: Input)
    requires Permitted(s, input)
    ensures Step(s, input).past.intruded == s.past.intruded
  {
    hide PhaseOf, Finals;
  }

  lemma {:induction false} ProtocolMeansNoIntrusion(s: Stream, inputs: seq<Input>)
    requires !s.past.intruded && ServerKeepsProtocol(s, inputs)
    ensures !Run(s, inputs).past.intruded
    decreases |inputs|
  {
    hide Step, Permitted, Finals;
    if inputs != [] {
      NeverIntrudes(s, inputs[0]);
      ProtocolMeansNoIntrusion(Step(s, inputs[0]), inputs[1..]);
    }
  }

  /** With such a server every run keeps the wire in shape, and every final commit that voice
      activity triggers closes a generation that carried audio. */
  lemma ProtocolIsKept(vad: bool, inputs: seq<Input>)
    requires ServerKeepsProtocol(Start(vad), inputs)
    ensures var s := Run(Start(vad), inputs);
            WellShaped(s.wire) && (vad ==> FinalsHaveAudio(s.wire))
  {
    hide PhaseOf, Finals, FinalsHaveAudio, WellShaped, Pattern, Step;
    ProtocolMeansNoIntrusion(Start(vad), inputs);
    WireKeepsShape(vad, inputs);
    StartInv(vad);
    RunKeeps(Start(vad), inputs);
    VadStays(Start(vad), inputs);
  }

  lemma VadStep(s: Stream, input: Input)
    ensures Step(s, input).vad == s.vad
  {
    hide PhaseOf, Finals;
  }

  lemma {:induction false} VadStays(s: Stream, inputs: seq<Input>)
    ensures Run(s, inputs).vad == s.vad
    decreases |inputs|
  {
    hide Step;
    if inputs != [] {
      VadStep(s, inputs[0]);
      VadStays(Step(s, inputs[0]), inputs[1..]);
    }
  }

  // ---------- what each task does ----------

  /** The stream with less than a chunk waiting, or with the next chunk taken from what waits. */
  ghost predicate HandsOn(s: Stream, t: Stream) {
    if |s.intake.pending| < CHUNK then t == s.(sender := Listening)
    else
      && t == s.(intake := t.intake, sender := WaitingToSend(s.intake.pending[..CHUNK], More))
      && t.intake == s.intake.(pending := s.intake.pending[CHUNK..])
  }

  /** The sender waits for its generation to be armed before it sends audio or the final commit, and goes
      on with the next chunk until less than one is left. */
  lemma SenderExactly(s: Stream)
    ensures var t := Step(s, SenderRuns);
            match s.sender {
              case Listening => t == s
              case WaitingToSend(chunk, next) =>
                t == if s.gate.ready then s.(wire := s.wire + [Append(chunk)], sender := Sending(next)) else s
              case Sending(next) =>
                var heard := s.(gate := s.gate.(hasAudio := true));
                if next.More? then HandsOn(heard, t)
                else
                  var quiet := heard.(intake := s.intake.(speech := false));
                  if s.gate.finalRequested then t == quiet.(sender := if next.last then Finished else Listening)
                  else if !s.gate.ready then t == quiet.(sender := WaitingToFinalize(next.last))
                  else Commits(quiet, t, next.last)
              case WaitingToFinalize(last) => if s.gate.ready then Commits(s, t, last) else t == s
              case Finalizing(last) => t == s.(sender := if last then Finished else Listening)
              case Finished => t == s
            }
  {
  }

  ghost predicate Commits(s: Stream, t: Stream, last: bool) {
    t == s.(wire := s.wire + [Commit(true)], gate := Gate(false, s.gate.hasAudio, true), sender := Finalizing(last))
  }

  /** A reply is counted; it stops the receiver when the input is over, and otherwise opens the next
      generation, which is armed in the receiver's next step. */
  lemma ReceiverExactly(s: Stream)
    ensures var t := Step(s, ServerDone);
            if !s.receiver.Receiving? || s.past.closed then t == s
            else
              && t.past.dones == s.past.dones + 1 && t.past.closed == s.past.closed && t.past.ending == s.past.ending
              && t.intake == s.intake && t.sender == s.sender
              && if s.intake.ended && (s.vad ==> s.intake.drained)
                 then t.receiver == Stopped && t.wire == s.wire && t.gate == s.gate
                 else t.receiver == Arming && t.wire == s.wire + [Commit(false)]
                      && t.gate == Gate(s.gate.ready, false, false)
    ensures Step(s, ReceiverRuns)
            == if s.receiver.Arming? then s.(gate := s.gate.(ready := true), receiver := Receiving) else s
  {
  }

  /** Events are taken in one after the other, while the sender listens: audio without voice activity
      until the input ends, audio of speech between its start and its end. */
  lemma IntakeExactly(s: Stream, audio: Bytes)
    ensures var open := !s.vad && s.sender.Listening? && !s.intake.ended;
            var over := s.(intake := s.intake.(ended := true));
            && (if s.vad && s.sender.Listening?
                then HandsOn(s.(intake := s.intake.(speech := true, pending := audio)), Step(s, SpeechStarts(audio)))
                else Step(s, SpeechStarts(audio)) == s)
            && (if s.vad && s.sender.Listening? && s.intake.speech
                then HandsOn(s.(intake := s.intake.(pending := s.intake.pending + audio)),
                             Step(s, SpeechContinues(audio)))
                else Step(s, SpeechContinues(audio)) == s)
            && (if open
                then HandsOn(s.(intake := s.intake.(pending := s.intake.pending + audio)), Step(s, AudioArrives(audio)))
                else Step(s, AudioArrives(audio)) == s)
            && (if open then HandsOn(s, Step(s, FlushAsked)) else Step(s, FlushAsked) == s)
            && Step(s, SpeechEnds)
               == (if !(s.vad && s.sender.Listening? && s.intake.speech) then s
                   else if s.intake.pending == [] then s.Quiet().Finalize(false)
                   else s.(intake := s.intake.(pending := []), sender := WaitingToSend(s.intake.pending, Tail(false))))
            && Step(s, InputEnds)
               == if s.vad then over
                  else if !open then s
                  else if s.intake.pending == [] then over.Quiet().Finalize(true)
                  else over.(intake := over.intake.(pending := []),
                             sender := WaitingToSend(s.intake.pending, Tail(true)))
  {
    hide Stream.Finalize;
  }

  // ---------- the audio ----------

  /** The audio on the wire, in order. */
  function Sent(wire: seq<Frame>): Bytes {
    if wire == [] then []
    else
      var last := wire[|wire| - 1];
      Sent(wire[..|wire| - 1]) + if last.Append? then last.audio else []
  }

  /** All audio taken in and not given up: sent, about to be sent, and waiting. */
  function Held(s: Stream): Bytes {
    Sent(s.wire) + (if s.sender.WaitingToSend? then s.sender.chunk else []) + s.intake.pending
  }

  /** The stream takes the audio of this event in. */
  predicate Takes(s: Stream, input: Input) {
    && s.sender.Listening?
    && match input
       case SpeechStarts(_) => s.vad
       case SpeechContinues(_) => s.vad && s.intake.speech
       case AudioArrives(_) => !s.vad && !s.intake.ended
       case _ => false
  }

  /** Audio that begins an utterance while that of another one is waiting, which is then given up. */
  predicate Restarts(s: Stream, input: Input) {
    Takes(s, input) && input.SpeechStarts? && s.intake.pending != []
  }

  lemma SentMore(wire: seq<Frame>, frame: Frame)
    ensures Sent(wire + [frame]) == Sent(wire) + if frame.Append? then frame.audio else []
  {
    assert (wire + [frame])[..|wire|] == wire;
  }

  lemma FlushHolds(s: Stream)
    requires s.sender.Listening? || s.sender.Sending?
    ensures Held(s.Flush()) == Held(s)
  {
    hide Sent;
    if |s.intake.pending| >= CHUNK { assert s.intake.pending[..CHUNK] + s.intake.pending[CHUNK..] == s.intake.pending; }
  }

  lemma FinalizeHolds(s: Stream, last: bool)
    requires !s.sender.WaitingToSend?
    ensures Held(s.Finalize(last)) == Held(s)
  {
    hide Sent;
    SentMore(s.wire, Commit(true));
  }

  lemma EndHolds(s: Stream, last: bool)
    requires s.sender.Listening?
    ensures Held(s.EndUtterance(last)) == Held(s)
  {
    hide Sent, Stream.Finalize;
    if s.intake.pending == [] { FinalizeHolds(s.Quiet(), last); }
  }

  lemma SenderHolds(s: Stream)
    ensures Held(s.SenderResumes()) == Held(s)
  {
    hide Sent, Stream.Finalize, Stream.Flush;
    match s.sender
    case WaitingToSend(chunk, _) => SentMore(s.wire, Append(chunk));
    case Sending(next) => if next.More? { FlushHolds(s.Heard()); } else { FinalizeHolds(s.Heard().Quiet(), next.last); }
    case WaitingToFinalize(_) => SentMore(s.wire, Commit(true));
    case _ =>
  }

  lemma VadEndsHolds(s: Stream)
    requires s.sender.Listening?
    ensures Held(s.VadEnds()) == Held(s)
  {
    hide Sent, Stream.EndUtterance;
    if s.intake.speech { EndHolds(s.Drained(), true); }
  }

  /** Every step keeps all audio in order and adds what it takes in; only the start of an utterance
      gives up what is waiting of another one. */
  lemma StepHolds(s: Stream, input: Input)
    ensures Held(Step(s, input))
            == (if Restarts(s, input) then Sent(s.wire) else Held(s)) + (if Takes(s, input) then input.audio else [])
  {
    hide Sent, Stream.EndUtterance, Stream.Flush, Stream.VadEnds, Stream.SenderResumes;
    if s.sender.Listening? {
      match input {
        case SpeechStarts(audio) => FlushHolds(s.Speech(audio));
        case SpeechContinues(audio) => FlushHolds(s.Buffered(audio));
        case AudioArrives(audio) => FlushHolds(s.Buffered(audio));
        case FlushAsked => FlushHolds(s);
        case SpeechEnds => EndHolds(s, false);
        case VadStreamEnds => VadEndsHolds(s);
        case InputEnds => EndHolds(s.InputOver(), true);
        case _ =>
      }
    }
    if input.SenderRuns? { SenderHolds(s); }
    if input.ServerDone? { SentMore(s.wire, Commit(false)); }
  }

  /** The audio a run takes in. */
  function TakenIn(s: Stream, inputs: seq<Input>): Bytes
    decreases |inputs|
  {
    if inputs == [] then []
    else (if Takes(s, inputs[0]) then inputs[0].audio else []) + TakenIn(Step(s, inputs[0]), inputs[1..])
  }

  /** No utterance of the run begins before the audio of the one before it was handed on. */
  predicate NoRestart(s: Stream, inputs: seq<Input>)
    decreases |inputs|
  {
    inputs != [] ==> !Restarts(s, inputs[0]) && NoRestart(Step(s, inputs[0]), inputs[1..])
  }

  lemma {:induction false} RunHolds(s: Stream, inputs: seq<Input>)
    requires NoRestart(s, inputs)
    ensures Held(Run(s, inputs)) == Held(s) + TakenIn(s, inputs)
    decreases |inputs|
  {
    hide Held, Step, Takes, Restarts;
    if inputs != [] {
      StepHolds(s, inputs[0]);
      RunHolds(Step(s, inputs[0]), inputs[1..]);
    }
  }

  /** Less than a chunk waits while the sender listens, and nothing once it ends an utterance; what is
      sent is a whole chunk, or the rest of an utterance. */
  predicate Tidy(s: Stream) {
    && (s.vad && !s.intake.speech ==> s.intake.pending == [])
    && (match s.sender
        case Listening => |s.intake.pending| < CHUNK
        case WaitingToSend(chunk, next) =>
          if next.More? then |chunk| == CHUNK else 0 < |chunk| < CHUNK && s.intake.pending == []
        case Sending(next) => next.Tail? ==> s.intake.pending == []
        case _ => s.intake.pending == [])
    && (forall i :: 0 <= i < |s.wire| && s.wire[i].Append? ==> 0 < |s.wire[i].audio| <= CHUNK)
  }

  lemma FlushTidy(s: Stream)
    requires s.vad && !s.intake.speech ==> s.intake.pending == []
    requires forall i :: 0 <= i < |s.wire| && s.wire[i].Append? ==> 0 < |s.wire[i].audio| <= CHUNK
    ensures Tidy(s.Flush())
  {
  }

  lemma SenderTidy(s: Stream)
    requires Tidy(s)
    ensures Tidy(s.SenderResumes())
  {
    hide Stream.Flush;
    if s.sender.Sending? && s.sender.next.More? { FlushTidy(s.Heard()); }
  }

  lemma StepTidy(s: Stream, input: Input)
    requires Tidy(s)
    ensures Tidy(Step(s, input))
  {
    hide Finals, Stream.Flush, Stream.SenderResumes;
    SenderTidy(s);
    match input
    case SpeechStarts(audio) => FlushTidy(s.Speech(audio));
    case SpeechContinues(audio) => if s.intake.speech { FlushTidy(s.Buffered(audio)); }
    case AudioArrives(audio) => if !s.vad { FlushTidy(s.Buffered(audio)); }
    case FlushAsked => FlushTidy(s);
    case _ =>
  }

  lemma {:induction false} RunTidy(s: Stream, inputs: seq<Input>)
    requires Tidy(s)
    ensures Tidy(Run(s, inputs))
    decreases |inputs|
  {
    hide Tidy, Step;
    if inputs != [] {
      StepTidy(s, inputs[0]);
      RunTidy(Step(s, inputs[0]), inputs[1..]);
    }
  }

  /** Whatever the interleaving, the audio on the wire is a beginning of the audio taken in, in chunks of
      100 ms or less, and none is empty; while the sender listens all but less than a chunk of it has
      been sent, and when it has finished all has been. */
  lemma AudioIsSentInOrder(vad: bool, inputs: seq<Input>)
    requires NoRestart(Start(vad), inputs)
    ensures var s := Run(Start(vad), inputs);
            var taken := TakenIn(Start(vad), inputs);
            && Sent(s.wire) <= taken
            && (forall i :: 0 <= i < |s.wire| && s.wire[i].Append? ==> 0 < |s.wire[i].audio| <= CHUNK)
            && (s.sender.Listening? ==> |taken| - |Sent(s.wire)| < CHUNK)
            && (s.sender.Finished? ==> Sent(s.wire) == taken)
  {
    hide Run, TakenIn, NoRestart;
    var start := Start(vad);
    assert start.wire[..0] == [] && Sent([]) == [];
    RunHolds(start, inputs);
    assert [] + TakenIn(start, inputs) == TakenIn(start, inputs);
    RunTidy(start, inputs);
  }

  // ---------- being left waiting ----------

  /** The sender is done, no reply is owed and the socket is open: the receiver waits for nothing. */
  predicate Abandoned(s: Stream) {
    s.sender.Finished? && !s.receiver.Stopped? && !s.past.closed && Finals(s.wire) == s.past.dones
  }

  /** The sender holds audio for a generation that no later reply will open. */
  predicate Caught(s: Stream) {
    s.intake.ended && s.intake.drained && s.sender.WaitingToSend? && !s.gate.ready && !s.receiver.Arming?
  }

  predicate LastRound(at: SenderAt) {
    match at
    case WaitingToSend(_, next) => next.Tail? && next.last
    case Sending(next) => next.Tail? && next.last
    case WaitingToFinalize(last) => last
    case Finalizing(last) => last
    case _ => false
  }

  /** Between the first and the last frame of an utterance. */
  predicate Talking(at: SenderAt) {
    at.WaitingToSend? || at.Sending?
  }

  /** Audio of a finished utterance is being finalized. */
  predicate Settled(s: Stream) {
    && (s.vad && !s.intake.speech && s.gate.hasAudio ==> s.gate.finalRequested || s.sender.WaitingToFinalize?)
    && (s.vad && Talking(s.sender) ==> s.intake.speech)
    && (s.vad && PhaseOf(s.wire).Closed? ==> s.gate.hasAudio)
    && (s.receiver.Stopped? ==> PhaseOf(s.wire).Closed?)
  }

  predicate Early(s: Stream) {
    && s.past.ending.NotYet? && !s.past.closed && !s.intake.drained && !s.receiver.Stopped?
    && (!s.vad ==> !s.intake.speech && !s.intake.ended && PhaseOf(s.wire).Open? && Streaming(s.sender))
  }

  predicate Streaming(at: SenderAt) {
    at.Listening? || (Talking(at) && at.next.More?)
  }

  predicate InputDone(s: Stream) {
    s.intake.ended && (s.vad <==> s.intake.drained)
  }

  predicate Late(s: Stream) {
    && InputDone(s) && !s.past.closed && !s.past.ending.SilentSpeech?
    && (s.past.ending.LateTail? ==> s.vad && s.sender.WaitingToSend?)
    && (PhaseOf(s.wire).Closed? <==> s.past.ending.LateTail? || s.sender.Finalizing?)
  }

  predicate Over(s: Stream) {
    && InputDone(s) && !s.past.ending.LateTail?
    && (s.past.closed ==> s.past.ending.Regular?)
    && (PhaseOf(s.wire).Closed? <==> !s.past.closed && !s.past.ending.SilentSpeech?)
  }

  /** Where the end of the input has led the sender. */
  predicate Course(s: Stream) {
    && Settled(s)
    && if s.sender.Finished? then Over(s) else if LastRound(s.sender) then Late(s) else Early(s)
  }

  ghost predicate Sound(s: Stream) {
    Orderly(s) && Course(s)
  }

  lemma EarlyFlush(s: Stream)
    requires Orderly(s) && Early(s) && (s.vad ==> s.intake.speech)
    requires s.vad && PhaseOf(s.wire).Closed? ==> s.gate.hasAudio
    ensures Course(s.Flush())
  {
    hide PhaseOf, Finals, FinalsHaveAudio;
  }

  /** Finalizing an utterance whose end is the end of the input, or not. */
  lemma FinalizeCourse(s: Stream, last: bool)
    requires Orderly(s) && !s.intake.speech
    requires if last then InputDone(s) && !s.past.closed && !s.past.ending.LateTail? else Early(s) && s.vad
    requires s.receiver.Stopped? ==> PhaseOf(s.wire).Closed?
    requires s.vad && PhaseOf(s.wire).Closed? ==> s.gate.hasAudio
    requires s.past.ending.SilentSpeech? <==> last && s.vad && !s.gate.hasAudio && !s.gate.finalRequested
    requires !s.vad ==> PhaseOf(s.wire).Open?
    ensures Course(s.Finalize(last))
  {
    hide PhaseOf, Finals, FinalsHaveAudio;
    WriteFacts(s, Commit(true));
  }

  lemma SenderCourse(s: Stream)
    requires Sound(s)
    ensures Course(s.SenderResumes())
  {
    hide PhaseOf, Finals, FinalsHaveAudio, Stream.Flush, Stream.Finalize;
    match s.sender
    case WaitingToSend(chunk, _) => WriteFacts(s, Append(chunk));
    case Sending(next) =>
      var t := s.Heard();
      if next.More? { EarlyFlush(t); } else { FinalizeCourse(t.Quiet(), next.last); }
    case WaitingToFinalize(last) => WriteFacts(s, Commit(true));
    case _ =>
  }

  lemma EndUtteranceCourse(s: Stream)
    requires Sound(s) && s.vad && s.sender.Listening? && s.intake.speech
    ensures Course(s.EndUtterance(false))
  {
    hide PhaseOf, Finals, FinalsHaveAudio, Stream.Finalize;
    if s.intake.pending == [] { FinalizeCourse(s.Quiet(), false); }
  }

  lemma VadEndsCourse(s: Stream)
    requires Sound(s) && s.vad && s.sender.Listening? && s.intake.ended
    ensures Course(s.VadEnds())
  {
    hide PhaseOf, Finals, FinalsHaveAudio, Stream.Finalize;
    if s.intake.speech && s.intake.pending == [] { FinalizeCourse(s.Drained().Quiet(), true); }
  }

  lemma InputEndsCourse(s: Stream)
    requires Sound(s) && !s.vad && s.sender.Listening?
    ensures Course(s.InputOver().EndUtterance(true))
  {
    hide PhaseOf, Finals, FinalsHaveAudio, Stream.Finalize;
    if s.intake.pending == [] { FinalizeCourse(s.InputOver().Quiet(), true); }
  }

  lemma DoneCourse(s: Stream)
    requires Sound(s) && s.receiver.Receiving? && s.past.dones < Finals(s.wire)
    ensures Course(s.DoneArrives())
  {
    hide PhaseOf, Finals, FinalsHaveAudio;
    WriteFacts(s, Commit(false));
  }

  lemma StepSound(s: Stream, input: Input)
    requires Sound(s) && !s.past.intruded && Permitted(s, input)
    ensures Sound(Step(s, input)) && !Step(s, input).past.intruded
  {
    hide PhaseOf, Finals, FinalsHaveAudio, Stream.Flush, Stream.EndUtterance, Stream.VadEnds,
         Stream.SenderResumes;
    StepKeeps(s, input);
    NeverIntrudes(s, input);
    match input
    case SpeechStarts(audio) => if s.vad && s.sender.Listening? { EarlyFlush(s.Speech(audio)); }
    case SpeechContinues(audio) => if s.vad && s.sender.Listening? && s.intake.speech { EarlyFlush(s.Buffered(audio)); }
    case SpeechEnds => if s.vad && s.sender.Listening? && s.intake.speech { EndUtteranceCourse(s); }
    case VadStreamEnds => if s.vad && s.sender.Listening? && s.intake.ended { VadEndsCourse(s); }
    case AudioArrives(audio) => if !s.vad && s.sender.Listening? { EarlyFlush(s.Buffered(audio)); }
    case FlushAsked => if !s.vad && s.sender.Listening? { EarlyFlush(s); }
    case InputEnds => if !s.vad && s.sender.Listening? { InputEndsCourse(s); }
    case SenderRuns => SenderCourse(s);
    case ServerDone => if s.receiver.Receiving? && !s.past.closed { DoneCourse(s); }
    case ReceiverRuns =>
  }

  lemma {:induction false} RunSound(s: Stream, inputs: seq<Input>)
    requires Sound(s) && !s.past.intruded && ServerKeepsProtocol(s, inputs)
    ensures Sound(Run(s, inputs))
    decreases |inputs|
  {
    hide Sound, Step, Permitted;
    if inputs != [] {
      StepSound(s, inputs[0]);
      RunSound(Step(s, inputs[0]), inputs[1..]);
    }
  }

  lemma SoundDecides(s: Stream)
    requires Sound(s) && !s.past.intruded
    ensures Abandoned(s) <==> s.past.ending.SilentSpeech?
    ensures Caught(s) <==> s.past.ending.LateTail?
    ensures s.past.closed ==> Finals(s.wire) == s.past.dones
  {
    hide PhaseOf, Finals, FinalsHaveAudio;
  }

  /** With a server that answers every final commit once and nothing else, the stream is left
      waiting in exactly two cases: speech that never gave a byte, and audio left over when the
      input ends while the previous utterance still awaits its reply. Closing the socket instead
      never gives up a reply that is owed. */
  lemma StuckExactly(vad: bool, inputs: seq<Input>)
    requires ServerKeepsProtocol(Start(vad), inputs)
    ensures var s := Run(Start(vad), inputs);
            && (Abandoned(s) <==> s.past.ending.SilentSpeech?)
            && (Caught(s) <==> s.past.ending.LateTail?)
            && (s.past.closed ==> Finals(s.wire) == s.past.dones)
  {
    hide PhaseOf, Finals, FinalsHaveAudio, Step, Permitted;
    ProtocolMeansNoIntrusion(Start(vad), inputs);
    assert Sound(Start(vad)) by { StartInv(vad); }
    RunSound(Start(vad), inputs);
    SoundDecides(Run(Start(vad), inputs));
  }

  /** Audio so caught is never sent, whatever happens next. */
  lemma {:induction false} CaughtForever(s: Stream, inputs: seq<Input>)
    requires Caught(s)
    ensures Caught(Run(s, inputs)) && Run(s, inputs).wire == s.wire
    decreases |inputs|
  {
    hide Step;
    if inputs != [] {
      CaughtStep(s, inputs[0]);
      CaughtForever(Step(s, inputs[0]), inputs[1..]);
    }
  }

  lemma CaughtStep(s: Stream, input: Input)
    requires Caught(s)
    ensures Caught(Step(s, input)) && Step(s, input).wire == s.wire
  {
    hide PhaseOf, Finals;
  }

  /** A run retold state by state. */
  lemma {:induction false} RunThrough(states: seq<Stream>, inputs: seq<Input>)
    requires |states| == |inputs| + 1
    requires forall i :: 0 <= i < |inputs| ==>
               Permitted(states[i], inputs[i]) && Step(states[i], inputs[i]) == states[i + 1]
    ensures ServerKeepsProtocol(states[0], inputs) && Run(states[0], inputs) == states[|inputs|]
    decreases |inputs|
  {
    hide Step, Permitted;
    if inputs != [] {
      RunThrough(states[1..], inputs[1..]);
    }
  }

  /** Between an utterance's final commit and the reply to it. */
  predicate AwaitsReply(s: Stream) {
    && s.vad && s.sender.Listening? && s.receiver.Receiving? && !s.intake.ended && !s.past.closed
    && s.gate.finalRequested && !s.gate.ready && s.past.dones < Finals(s.wire)
  }

  /** A caller who speaks again before the reply, and hangs up, is not heard: the reply stops the
      receiver, so no generation opens for the second utterance. */
  lemma LateTailIsLost(s: Stream, audio: Bytes)
    requires AwaitsReply(s) && 0 < |audio| < CHUNK
    ensures var inputs := [SpeechStarts(audio), InputEnds, VadStreamEnds, ServerDone];
            var lost := Run(s, inputs);
            ServerKeepsProtocol(s, inputs) && Caught(lost) && lost.receiver.Stopped? && lost.wire == s.wire
  {
    hide Finals, Run, ServerKeepsProtocol;
    var inputs := [SpeechStarts(audio), InputEnds, VadStreamEnds, ServerDone];
    var s1 := Step(s, inputs[0]);
    var s2 := Step(s1, inputs[1]);
    var s3 := Step(s2, inputs[2]);
    RunThrough([s, s1, s2, s3, Step(s3, ServerDone)], inputs);
  }

  /** One finished utterance is enough to get there. */
  lemma AwaitsReplyIsReached(audio: Bytes)
    requires 0 < |audio| < CHUNK
    ensures var inputs := [SpeechStarts(audio), SpeechEnds, SenderRuns, SenderRuns, SenderRuns];
            ServerKeepsProtocol(Start(true), inputs) && AwaitsReply(Run(Start(true), inputs))
  {
    hide Finals, Run, ServerKeepsProtocol;
    var inputs := [SpeechStarts(audio), SpeechEnds, SenderRuns, SenderRuns, SenderRuns];
    var s0 := Start(true);
    var s1 := Step(s0, inputs[0]);
    var s2 := Step(s1, inputs[1]);
    var s3 := Step(s2, inputs[2]);
    var s4 := Step(s3, inputs[3]);
    PhaseStep(s3.wire, Commit(true));
    RunThrough([s0, s1, s2, s3, s4, Step(s4, SenderRuns)], inputs);
  }
}
