/** Streaming synthesized speech: how response bytes become pushed audio, over retries and the
    fallback voice. */
module SpokenAudio {
  import opened Division
  import opened Wrappers

  type Bytes = seq<bv8>

  const SAMPLE_BYTES: nat := 2

  datatype Break = Timeout | PayloadError | ConnectionError

  /** What the body of a response looks like to the reader. */
  datatype Format = Format(pcm: bool, sampleRate: int, channels: int)

  /** How the server meets one request; a refusal may say that no worker is ready, or that it does
      not know the voice. */
  datatype Response =
    | Refused(status: int, notReady: bool, noVoice: bool)
    | Unreachable(timedOut: bool)
    | Streams(format: Format, chunks: seq<Bytes>, end: Option<Break>)

  datatype Outcome = Spoken | Declined | TimedOut | Disconnected

  /** Bytes of one sample across the channels; other formats are passed on byte by byte. */
  function Unit(format: Format): (unit: positive) {
    if format.pcm && format.channels >= 1 then format.channels * SAMPLE_BYTES else 1
  }

  /** The audio to collect before the first push, cut to whole samples. */
  function InitialTarget(format: Format, bufferMs: int): (target: nat) {
    if bufferMs <= 0 then 0
    else
      var raw := Truncated(format.sampleRate * format.channels * SAMPLE_BYTES * bufferMs);
      if raw < 0 then 0 else raw - raw % SAMPLE_BYTES
  }

  function Truncated(milli: int): int {
    if milli < 0 then -(-milli / 1000) else milli / 1000
  }

  function Flat(parts: seq<Bytes>): Bytes {
    if parts == [] then [] else Flat(parts[..|parts| - 1]) + parts[|parts| - 1]
  }

  /** The received bytes up to the last whole sample. */
  function Whole(received: Bytes, unit: positive): Bytes {
    received[..WholeLength(|received|, unit)]
  }

  function Rest(received: Bytes, unit: positive): Bytes {
    received[WholeLength(|received|, unit)..]
  }

  /** Where audio goes. */
  class Emitter {
    var pushes: seq<Bytes>
    var ended: bool

    constructor ()
      ensures pushes == [] && !ended
    {
      pushes, ended := [], false;
    }

    method Push(audio: Bytes)
      modifies this
      ensures pushes == old(pushes) + [audio] && ended == old(ended)
    {
      pushes := pushes + [audio];
    }

    method EndInput()
      modifies this
      ensures pushes == old(pushes) && ended
    {
      ended := true;
    }
  }

  /** All of the audio is spoken: the response ended, or broke off after a whole sample. */
  predicate Completes(r: Response)
    requires r.Streams?
  {
    r.end.None? || (r.end == Some(PayloadError) && Whole(Flat(r.chunks), Unit(r.format)) != [])
  }

  /** What a response must become. Whole samples in order; nothing lost when it completes; the first
      push reaches the target, unless the stream ended before. */
  ghost predicate Delivers(r: Response, bufferMs: int, pushes: seq<Bytes>) {
    match r
    case Refused(_, _, _) => pushes == []
    case Unreachable(_) => pushes == []
    case Streams(format, chunks, _) =>
      var audio, target := Whole(Flat(chunks), Unit(format)), InitialTarget(format, bufferMs);
      && Flat(pushes) == (if Completes(r) || |audio| >= target then audio else [])
      && (forall i :: 0 <= i < |pushes| ==> pushes[i] != [] && |pushes[i]| % Unit(format) == 0)
      && (pushes != [] && |pushes[0]| < target ==> |pushes| == 1 && Completes(r))
  }

  function OutcomeOf(r: Response): Outcome {
    match r
    case Refused(_, _, _) => Declined
    case Unreachable(timedOut) => if timedOut then TimedOut else Disconnected
    case Streams(_, _, end) =>
      if Completes(r) then Spoken else if end == Some(Timeout) then TimedOut else Disconnected
  }

  /** What the loop has pushed and holds back. */
  ghost predicate Pushed(pushes: seq<Bytes>, buffered: Bytes, started: bool, target: nat, unit: positive) {
    && (if started then buffered == [] else pushes == [] && |buffered| < target && |buffered| % unit == 0)
    && (forall i :: 0 <= i < |pushes| ==> pushes[i] != [] && |pushes[i]| % unit == 0)
    && (pushes != [] ==> |pushes[0]| >= target)
    && (started && target > 0 ==> pushes != [])
  }

  lemma FlatAppend(parts: seq<Bytes>, last: Bytes)
    ensures Flat(parts + [last]) == Flat(parts) + last
  {
    assert (parts + [last])[..|parts|] == parts;
  }

  /** Reading on: the carried bytes and the next chunk give the next whole samples. */
  lemma WholeGrows(received: Bytes, data: Bytes, unit: positive)
    ensures var chunk := Rest(received, unit) + data;
            && Whole(received + data, unit) == Whole(received, unit) + Whole(chunk, unit)
            && Rest(received + data, unit) == Rest(chunk, unit)
  {
    hide WholeLength;
    WholeLengthGrows(|received|, |data|, unit);
  }

  /** Cuts the carried bytes and a new chunk to whole samples. */
  method Align(format: Format, carried: Bytes, data: Bytes) returns (chunk: Bytes, rest: Bytes)
    requires !format.pcm ==> carried == []
    ensures chunk == Whole(carried + data, Unit(format)) && rest == Rest(carried + data, Unit(format))
  {
    if !format.pcm {
      return data, [];
    }
    chunk := carried + data;
    var remainder := |chunk| % Unit(format);
    rest := chunk[|chunk| - remainder..];
    chunk := chunk[..|chunk| - remainder];
  }

  /** What has been pushed of a response, what is held back until the target is reached, and the
      bytes of an unfinished sample. */
  ghost predicate Received(format: Format, target: nat, received: Bytes, pushes: seq<Bytes>, buffered: Bytes,
                           carried: Bytes, started: bool) {
    && carried == Rest(received, Unit(format))
    && Flat(pushes) + buffered == Whole(received, Unit(format))
    && Pushed(pushes, buffered, started, target, Unit(format))
  }

  lemma PushedNext(pushes: seq<Bytes>, audio: Bytes, target: nat, unit: positive)
    requires pushes == [] ==> |audio| >= target
    requires Pushed(pushes, [], true, target, unit) || pushes == []
    requires audio != [] && |audio| % unit == 0
    ensures Pushed(pushes + [audio], [], true, target, unit)
    ensures Flat(pushes + [audio]) == Flat(pushes) + audio
  {
    FlatAppend(pushes, audio);
  }

  lemma Buffers(pushes: seq<Bytes>, buffered: Bytes, chunk: Bytes, target: nat, unit: positive)
    requires Pushed(pushes, buffered, false, target, unit) && |chunk| % unit == 0
    ensures pushes == [] && |buffered + chunk| % unit == 0
    ensures |buffered + chunk| < target ==> Pushed(pushes, buffered + chunk, false, target, unit)
  {
    RemainderOfSum(|buffered|, |chunk|, unit);
  }

  lemma Starts(pushes: seq<Bytes>, buffered: Bytes, target: nat, unit: positive)
    requires Pushed(pushes, buffered, true, target, unit)
    ensures buffered == [] && (pushes == [] ==> target == 0)
  {
  }

  /** Hands a chunk to the emitter, once enough has been collected. */
  method Hand(emitter: Emitter, ghost pushes: seq<Bytes>, buffered: Bytes, started: bool, chunk: Bytes,
              target: nat, ghost unit: positive)
    returns (ghost pushed: seq<Bytes>, held: Bytes, begun: bool)
    requires Pushed(pushes, buffered, started, target, unit) && chunk != [] && |chunk| % unit == 0
    modifies emitter
    ensures pushes <= pushed && emitter.pushes == old(emitter.pushes) + pushed[|pushes|..]
    ensures emitter.ended == old(emitter.ended)
    ensures Pushed(pushed, held, begun, target, unit)
    ensures Flat(pushed) + held == Flat(pushes) + buffered + chunk
  {
    hide Pushed, Flat;
    pushed, held, begun := pushes, buffered, started;
    if !started {
      Buffers(pushes, buffered, chunk, target, unit);
      held := buffered + chunk;
      if |held| < target { return; }
      emitter.Push(held);
      PushedNext(pushes, held, target, unit);
      pushed := pushes + [held];
      held, begun := [], true;
    } else {
      emitter.Push(chunk);
      Starts(pushes, buffered, target, unit);
      PushedNext(pushes, chunk, target, unit);
      pushed := pushes + [chunk];
    }
  }

  /** The receiving loop. */
  method Receive(emitter: Emitter, format: Format, chunks: seq<Bytes>, target: nat)
    returns (ghost pushes: seq<Bytes>, buffered: Bytes, carried: Bytes, pushedBytes: nat, ghost started: bool)
    modifies emitter
    ensures emitter.pushes == old(emitter.pushes) + pushes && emitter.ended == old(emitter.ended)
    ensures Received(format, target, Flat(chunks), pushes, buffered, carried, started)
    ensures pushedBytes == |Whole(Flat(chunks), Unit(format))|
  {
    hide Whole, Rest, Unit, Pushed;
    var begun := target == 0;
    pushes, buffered, carried, pushedBytes := [], [], [], 0;
    NothingReceived(format, target);
    for i := 0 to |chunks|
      invariant emitter.pushes == old(emitter.pushes) + pushes && emitter.ended == old(emitter.ended)
      invariant Received(format, target, Flat(chunks[..i]), pushes, buffered, carried, begun)
      invariant pushedBytes == |Whole(Flat(chunks[..i]), Unit(format))|
    {
      assert chunks[..i + 1] == chunks[..i] + [chunks[i]];
      FlatAppend(chunks[..i], chunks[i]);
      var data := chunks[i];
      if data == [] {
        assert Flat(chunks[..i]) + data == Flat(chunks[..i]);
        continue;
      }
      WholeGrows(Flat(chunks[..i]), data, Unit(format));
      RestOfBytes(format, Flat(chunks[..i]));
      var chunk, rest := Align(format, carried, data);
      ChunkIsWhole(carried + data, Unit(format));
      carried := rest;
      if chunk == [] { continue; }
      pushedBytes := pushedBytes + |chunk|;
      pushes, buffered, begun := Hand(emitter, pushes, buffered, begun, chunk, target, Unit(format));
      assert emitter.pushes == old(emitter.pushes) + pushes;
    }
    assert chunks[..|chunks|] == chunks;
    started := begun;
  }

  lemma ChunkIsWhole(bytes: Bytes, unit: positive)
    ensures |Whole(bytes, unit)| % unit == 0
  {
  }

  lemma NothingReceived(format: Format, target: nat)
    ensures Received(format, target, [], [], [], [], target == 0)
    ensures Whole([], Unit(format)) == []
  {
    RemainderOfSum(0, 0, Unit(format));
  }

  lemma RestOfBytes(format: Format, received: Bytes)
    ensures !format.pcm ==> Rest(received, Unit(format)) == []
  {
  }

  lemma {:induction false} FlatCovers(parts: seq<Bytes>)
    requires parts != []
    ensures |Flat(parts)| >= |parts[0]|
    decreases |parts|
  {
    if |parts| > 1 { FlatCovers(parts[..|parts| - 1]); }
  }

  lemma BrokenOff(r: Response, bufferMs: int, pushes: seq<Bytes>, buffered: Bytes, carried: Bytes, started: bool)
    requires r.Streams? && !Completes(r)
    requires Received(r.format, InitialTarget(r.format, bufferMs), Flat(r.chunks), pushes, buffered, carried, started)
    ensures Delivers(r, bufferMs, pushes)
  {
    hide Unit, InitialTarget, Whole, Rest;
    if pushes != [] { FlatCovers(pushes); }
  }

  lemma Completed(r: Response, bufferMs: int, pushes: seq<Bytes>, buffered: Bytes, carried: Bytes, started: bool)
    requires r.Streams? && Completes(r)
    requires Received(r.format, InitialTarget(r.format, bufferMs), Flat(r.chunks), pushes, buffered, carried, started)
    ensures Delivers(r, bufferMs, if buffered == [] then pushes else pushes + [buffered])
  {
    hide Unit, InitialTarget, Whole, Rest, Flat;
    FlatAppend(pushes, buffered);
  }

  /** One request. Whatever goes wrong in it is reported as a refusal, a timeout or a lost connection. */
  method StreamRequest(emitter: Emitter, r: Response, bufferMs: int)
    returns (outcome: Outcome, ghost pushes: seq<Bytes>)
    modifies emitter
    ensures emitter.pushes == old(emitter.pushes) + pushes && Delivers(r, bufferMs, pushes)
    ensures outcome == OutcomeOf(r)
    ensures outcome.Declined? <==> r.Refused?
    ensures outcome.TimedOut? <==> r == Unreachable(true) || (r.Streams? && r.end == Some(Timeout))
    ensures outcome.Spoken? <==> r.Streams? && Completes(r)
    ensures emitter.ended == (old(emitter.ended) || outcome.Spoken?)
  {
    hide Unit, InitialTarget, Whole, Rest, Pushed, Received;
    pushes := [];
    match r {
      case Refused(_, _, _) => outcome := Declined;
      case Unreachable(timedOut) => outcome := if timedOut then TimedOut else Disconnected;
      case Streams(format, chunks, end) =>
        var buffered, carried, pushedBytes;
        ghost var started;
        var target := InitialTarget(format, bufferMs);
        pushes, buffered, carried, pushedBytes, started := Receive(emitter, format, chunks, target);
        if end.Some? && (!end.value.PayloadError? || pushedBytes <= 0) {
          BrokenOff(r, bufferMs, pushes, buffered, carried, started);
          return if end.value.Timeout? then TimedOut else Disconnected, pushes;
        }
        Completed(r, bufferMs, pushes, buffered, carried, started);
        if buffered != [] {
          emitter.Push(buffered);
          pushes := pushes + [buffered];
        }
        emitter.EndInput();
        outcome := Spoken;
    }
  }

  /** What is delivered, in bytes: of PCM audio whole samples of all channels, each push aligned to
      them, and all of it but an unfinished sample when the response completes; of any other format
      every byte. Nothing is pushed before as much as the target is there, unless that is all. */
  lemma DeliversInBytes(r: Response, bufferMs: int, pushes: seq<Bytes>)
    requires Delivers(r, bufferMs, pushes) && r.Streams?
    ensures var sample := if r.format.pcm && r.format.channels > 0 then 2 * r.format.channels else 1;
            var all := Flat(r.chunks);
            && Flat(pushes) <= all
            && (forall i :: 0 <= i < |pushes| ==> pushes[i] != [] && |pushes[i]| % sample == 0)
            && (Completes(r) ==> |all| - |Flat(pushes)| < sample)
            && (!Completes(r) ==>
                  if |all| - |all| % sample >= InitialTarget(r.format, bufferMs) then |all| - |Flat(pushes)| < sample
                  else pushes == [])
  {
    hide InitialTarget;
    if pushes != [] { FlatCovers(pushes); }
  }

  /** The target is the whole number of 16-bit samples that the buffering time holds. */
  lemma TargetExactly(format: Format, bufferMs: int)
    ensures var target := InitialTarget(format, bufferMs);
            var asked := format.sampleRate * format.channels * bufferMs;
            target % 2 == 0
            && (if bufferMs <= 0 || asked <= 0 then target == 0 else 500 * target <= asked < 500 * target + 1000)
  {
    var asked := format.sampleRate * format.channels * bufferMs;
    assert format.sampleRate * format.channels * SAMPLE_BYTES * bufferMs == 2 * asked;
  }

  /** A response completes when it ends, or when it breaks off in its payload after a whole sample. */
  lemma CompletesExactly(r: Response)
    requires r.Streams?
    ensures Completes(r) <==>
              || r.end.None?
              || (r.end.value.PayloadError?
                  && |Flat(r.chunks)| >= if r.format.pcm && r.format.channels > 0 then 2 * r.format.channels else 1)
  {
    WholeOrNothing(|Flat(r.chunks)|, Unit(r.format));
  }

  lemma WholeOrNothing(length: nat, unit: positive)
    ensures WholeLength(length, unit) > 0 <==> length >= unit
  {
    if length < unit { DivisionIsUnique(length, unit, 0, length); }
  }

  // ---------- retries and the fallback voice ----------

  /** How often a request is tried, and whether the server is one whose busy statuses pass. */
  datatype Retries = Retries(attempts: int, runpod: bool)

  function MostAttempts(retries: Retries): positive {
    if retries.attempts < 1 then 1 else retries.attempts
  }

  predicate Passing(r: Response, retries: Retries) {
    r.Refused? && (r.notReady || (retries.runpod && r.status in {408, 409, 425, 429, 500, 502, 503, 504}))
  }

  predicate VoiceGone(r: Response) {
    r.Refused? && ((r.status == 404 && r.noVoice) || 500 <= r.status < 600)
  }

  /** A refusal that may pass: no worker is ready, or the server's status is one that a busy one gives. */
  ghost predicate MayPass(r: Response, runpod: bool) {
    && r.Refused?
    && (r.notReady
        || (runpod && (r.status == 408 || r.status == 409 || r.status == 425 || r.status == 429 || r.status == 500
                       || r.status == 502 || r.status == 503 || r.status == 504)))
  }

  /** Requests answered in turn: all but the last were refused, and the last one alone was heard. */
  ghost predicate HeardOnce(answers: nat -> Response, from: nat, used: positive, bufferMs: int, pushes: seq<Bytes>) {
    && (forall k :: from <= k < from + used - 1 ==> answers(k).Refused?)
    && Delivers(answers(from + used - 1), bufferMs, pushes)
  }

  method StreamOnce(emitter: Emitter, answers: nat -> Response, from: nat, retries: Retries, bufferMs: int)
    returns (outcome: Outcome, used: positive, ghost pushes: seq<Bytes>)
    modifies emitter
    ensures emitter.pushes == old(emitter.pushes) + pushes && HeardOnce(answers, from, used, bufferMs, pushes)
    ensures outcome == OutcomeOf(answers(from + used - 1))
    ensures used <= (if retries.attempts < 1 then 1 else retries.attempts)
    ensures forall k :: from <= k < from + used - 1 ==> MayPass(answers(k), retries.runpod)
    ensures used < retries.attempts ==> !MayPass(answers(from + used - 1), retries.runpod)
    ensures emitter.ended == (old(emitter.ended) || outcome.Spoken?)
  {
    hide Delivers;
    var attempt := 1;
    while true
      invariant 1 <= attempt <= MostAttempts(retries)
      invariant emitter.pushes == old(emitter.pushes) && emitter.ended == old(emitter.ended)
      invariant forall k :: from <= k < from + attempt - 1 ==> Passing(answers(k), retries)
      decreases MostAttempts(retries) - attempt
    {
      var r := answers(from + attempt - 1);
      outcome, pushes := StreamRequest(emitter, r, bufferMs);
      if !(outcome.Declined? && attempt < retries.attempts && Passing(r, retries)) {
        return outcome, attempt, pushes;
      }
      NothingHeard(r, bufferMs, pushes);
      attempt := attempt + 1;
    }
  }

  lemma NothingHeard(r: Response, bufferMs: int, pushes: seq<Bytes>)
    requires Delivers(r, bufferMs, pushes) && r.Refused?
    ensures pushes == []
  {
  }

  /** A refusal for the voice: it is not known, or the server failed. */
  ghost predicate NoSuchVoice(r: Response) {
    r.Refused? && (if r.status == 404 then r.noVoice else r.status >= 500 && r.status <= 599)
  }

  /** A session's voice: its own, or the default one for good once its own was not to be had. */
  class Synthesizer {
    var ownVoice: bool

    constructor (ownVoice: bool)
      ensures this.ownVoice == ownVoice
    {
      this.ownVoice := ownVoice;
    }

    /** Over all retries and the fallback voice, at most one request is heard, and it is the last. */
    method Speak(emitter: Emitter, answers: nat -> Response, retries: Retries, bufferMs: int)
      returns (outcome: Outcome, used: positive, ghost pushes: seq<Bytes>)
      modifies emitter, this
      ensures emitter.pushes == old(emitter.pushes) + pushes && HeardOnce(answers, 0, used, bufferMs, pushes)
      ensures outcome == OutcomeOf(answers(used - 1))
      ensures used <= (if old(ownVoice) then 2 else 1) * (if retries.attempts < 1 then 1 else retries.attempts)
      ensures ownVoice ==> old(ownVoice) && !NoSuchVoice(answers(used - 1))
      ensures old(ownVoice) && !ownVoice ==> exists k: nat :: k < used - 1 && NoSuchVoice(answers(k))
      ensures emitter.ended == (old(emitter.ended) || outcome.Spoken?)
    {
      hide Delivers;
      outcome, used, pushes := StreamOnce(emitter, answers, 0, retries, bufferMs);
      if outcome.Declined? && ownVoice && VoiceGone(answers(used - 1)) {
        NothingHeard(answers(used - 1), bufferMs, pushes);
        ownVoice := false;
        var more;
        outcome, more, pushes := StreamOnce(emitter, answers, used, retries, bufferMs);
        used := used + more;
      }
    }
  }
}
