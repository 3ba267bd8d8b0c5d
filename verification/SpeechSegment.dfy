/** Finding the last stretch of speech in a recording, frame by frame. */
module SpeechSegment {

  const FRAME: nat := 480
  const GAP: nat := 6
  const PAD: nat := 2
  /** 1.2 seconds at 16 kHz. */
  const ENOUGH: nat := 19200

  /** Frame i lies in a run of at most GAP silent frames between two speech frames. */
  ghost predicate InShortGap(speech: seq<bool>, i: int) {
    exists a, b :: Gap(speech, a, b) && a < i < b
  }

  ghost predicate Gap(speech: seq<bool>, a: int, b: int) {
    && 0 <= a < b < |speech| && b - a - 1 <= GAP
    && speech[a] && speech[b] && Silent(speech, a + 1, b)
  }

  ghost predicate Silent(speech: seq<bool>, from: int, to: int)
  {
    forall k :: 0 <= from <= k < to <= |speech| ==> !speech[k]
  }

  ghost predicate Bridged(speech: seq<bool>, i: nat)
    requires i < |speech|
  {
    speech[i] || InShortGap(speech, i)
  }

  /** The first speech frame at or after a frame, if any is near. */
  method AnyIn(closed: array<bool>, from: nat, to: nat) returns (found: bool)
    requires from <= to <= closed.Length
    ensures found <==> !Silent(closed[..], from, to)
  {
    found := false;
    for i := from to to
      invariant found <==> !Silent(closed[..], from, i)
    {
      if closed[i] { found := true; }
    }
  }

  /** Whether a gap that covers the frame before reaches over this one. */
  lemma GapGoesOn(speech: seq<bool>, i: nat)
    requires 0 < i < |speech| && !speech[i]
    ensures InShortGap(speech, i) <==>
            Bridged(speech, i - 1) && !Silent(speech, i, if i + GAP + 1 <= |speech| then i + GAP + 1 else |speech|)
  {
    var to := if i + GAP + 1 <= |speech| then i + GAP + 1 else |speech|;
    if InShortGap(speech, i) {
      var a, b :| Gap(speech, a, b) && a < i < b;
      assert b < to && speech[b];
      if a < i - 1 { assert InShortGap(speech, i - 1); }
    }
    if Bridged(speech, i - 1) && !Silent(speech, i, to) {
      if speech[i - 1] {
        var b := FirstSpeech(speech, i, to);
        assert Gap(speech, i - 1, b);
      } else {
        var a, b :| Gap(speech, a, b) && a < i - 1 < b;
        assert b != i;
      }
    }
  }

  lemma FirstSpeech(speech: seq<bool>, from: nat, to: nat) returns (b: nat)
    requires from <= to <= |speech| && !Silent(speech, from, to)
    ensures from <= b < to && speech[b] && Silent(speech, from, b)
    decreases |speech| - from
  {
    if speech[from] { b := from; } else { b := FirstSpeech(speech, from + 1, to); }
  }

  /** Between two speech frames there are only silent ones, and at most six. */
  ghost predicate ShortSilence(speech: seq<bool>, a: int, b: int) {
    && 0 <= a < b < |speech| && speech[a] && speech[b]
    && b - a <= 7 && forall k :: a < k < b ==> !speech[k]
  }

  lemma ShortSilences(speech: seq<bool>, i: nat)
    requires i < |speech|
    ensures Bridged(speech, i) <==> speech[i] || exists a, b :: ShortSilence(speech, a, b) && a < i < b
  {
    if a, b :| Gap(speech, a, b) && a < i < b { assert ShortSilence(speech, a, b); }
    if a, b :| ShortSilence(speech, a, b) && a < i < b { assert Gap(speech, a, b); }
  }

  /** The in-place loop marks exactly the speech frames and the frames of short gaps. */
  method CloseGaps(closed: array<bool>)
    modifies closed
    ensures forall i :: 0 <= i < closed.Length ==> (closed[i] <==> Bridged(old(closed[..]), i))
    ensures forall i :: 0 <= i < closed.Length ==>
              (closed[i] <==> old(closed[i]) || exists a, b :: ShortSilence(old(closed[..]), a, b) && a < i < b)
  {
    ghost var speech := closed[..];
    forall i | 0 <= i < |speech|
      ensures Bridged(speech, i) <==> speech[i] || exists a, b :: ShortSilence(speech, a, b) && a < i < b
    {
      ShortSilences(speech, i);
    }
    if closed.Length == 0 { return; }
    assert !InShortGap(speech, 0);
    for index := 1 to closed.Length
      invariant forall i :: 0 <= i < index ==> (closed[i] <==> Bridged(speech, i))
      invariant forall i :: index <= i < closed.Length ==> closed[i] == speech[i]
    {
      if !closed[index] {
        GapGoesOn(speech, index);
        if closed[index - 1] {
          var to := if index + GAP + 1 <= closed.Length then index + GAP + 1 else closed.Length;
          var near := AnyIn(closed, index, to);
          assert near <==> !Silent(speech, index, to);
          if near { closed[index] := true; }
        }
      }
    }
  }

  /** The last run of speech: it starts and ends with speech, it has no gap longer than GAP, all is
      silent after it, and the silence before it is longer than GAP or reaches the beginning. */
  ghost predicate LastRun(speech: seq<bool>, first: nat, last: nat) {
    && first <= last < |speech| && speech[first] && speech[last]
    && Silent(speech, last + 1, |speech|)
    && (forall i :: first <= i <= last ==> Bridged(speech, i))
    && Silent(speech, if first <= GAP then 0 else first - GAP - 1, first)
  }

  lemma LastRunIsUnique(speech: seq<bool>, first: nat, last: nat, first': nat, last': nat)
    requires LastRun(speech, first, last) && LastRun(speech, first', last')
    ensures first == first' && last == last'
  {
    assert last == last';
    if first < first' { EarlierIsLinked(speech, first, last, first'); }
    if first' < first { EarlierIsLinked(speech, first', last', first); }
  }

  /** A run that starts earlier has speech within reach before a later start. */
  lemma EarlierIsLinked(speech: seq<bool>, first: nat, last: nat, later: nat)
    requires LastRun(speech, first, last) && first < later <= last && speech[later]
    ensures !Silent(speech, if later <= GAP then 0 else later - GAP - 1, later)
  {
    assert Bridged(speech, later - 1);
    if !speech[later - 1] {
      var a, b :| Gap(speech, a, b) && a < later - 1 < b;
      assert b == later;
    }
  }

  /** The last run exists as soon as any frame is speech. */
  lemma LastRunExists(speech: seq<bool>) returns (first: nat, last: nat)
    requires !Silent(speech, 0, |speech|)
    ensures LastRun(speech, first, last)
  {
    last := LastSpeech(speech, |speech|);
    first := last;
    while first > 0 && Bridged(speech, first - 1)
      invariant first <= last
      invariant forall i :: first <= i <= last ==> Bridged(speech, i)
    {
      first := first - 1;
    }
    RunStartsWithSpeech(speech, first, last);
  }

  lemma LastSpeech(speech: seq<bool>, to: nat) returns (last: nat)
    requires to <= |speech| && !Silent(speech, 0, to)
    ensures last < to && speech[last] && Silent(speech, last + 1, to)
  {
    if speech[to - 1] { last := to - 1; } else { last := LastSpeech(speech, to - 1); }
  }

  lemma GapReachesBack(speech: seq<bool>, i: nat)
    requires i < |speech|
    ensures Bridged(speech, i) && !speech[i] ==> i > 0 && Bridged(speech, i - 1)
  {
    if Bridged(speech, i) && !speech[i] {
      var a, b :| Gap(speech, a, b) && a < i < b;
      assert a == i - 1 || a < i - 1 < b;
    }
  }

  /** Walking back over bridged frames stops at a speech frame with a long silence before it. */
  lemma RunStartsWithSpeech(speech: seq<bool>, first: nat, last: nat)
    requires first <= last < |speech| && speech[last]
    requires forall i :: first <= i <= last ==> Bridged(speech, i)
    requires first > 0 ==> !Bridged(speech, first - 1)
    ensures speech[first]
    ensures Silent(speech, if first <= GAP then 0 else first - GAP - 1, first)
  {
    GapReachesBack(speech, first);
    var from := if first <= GAP then 0 else first - GAP - 1;
    if !Silent(speech, from, first) {
      var near := LastSpeech(speech, first);
      assert Gap(speech, near, first);
    }
  }

  /** What is kept of the audio: the run and PAD frames around it, or all of it when that is too little. */
  function Kept<T>(audio: seq<T>, first: nat, last: nat): (segment: seq<T>)
    requires first <= last < |audio| / FRAME
    ensures segment == audio || ENOUGH <= |segment|
  {
    var frames := |audio| / FRAME;
    var from := if first < PAD then 0 else first - PAD;
    var to := if last + PAD < frames then last + PAD + 1 else frames;
    assert from * FRAME <= to * FRAME <= |audio|;
    var segment := audio[from * FRAME..to * FRAME];
    if |segment| < ENOUGH then audio else segment
  }

  /** The run is kept with as much of two frames on either side as there is, unless that is less than
      1.2 seconds at 16 kHz. */
  lemma KeptExactly<T>(audio: seq<T>, first: nat, last: nat, before: nat, after: nat)
    requires first <= last < |audio| / 480
    requires before == (if first < 2 then first else 2)
    requires last + after < |audio| / 480 && after <= 2 && (after < 2 ==> last + after + 1 == |audio| / 480)
    ensures (first - before) * 480 <= (last + after + 1) * 480 <= |audio|
    ensures Kept(audio, first, last)
            == if (last - first + 1 + before + after) * 480 < 19200 then audio
               else audio[(first - before) * 480..(last + after + 1) * 480]
  {
  }

  method LastSpeechSegment<T>(audio: seq<T>, speech: seq<bool>) returns (segment: seq<T>)
    requires |speech| == |audio| / FRAME
    ensures |audio| < FRAME * 4 ==> segment == audio
    ensures |audio| >= FRAME * 4 && Silent(speech, 0, |speech|) ==> segment == []
    ensures |audio| >= FRAME * 4 && !Silent(speech, 0, |speech|) ==>
      exists first, last :: LastRun(speech, first, last) && segment == Kept(audio, first, last)
  {
    if |audio| < FRAME * 4 {
      return audio;
    }
    var closed := new bool[|speech|](i requires 0 <= i < |speech| => speech[i]);
    assert closed[..] == speech;
    var any := AnyIn(closed, 0, closed.Length);
    if !any {
      return [];
    }
    ghost var last := LastSpeech(speech, |speech|);
    CloseGaps(closed);
    var end := closed.Length - 1;
    while !closed[end]
      invariant last <= end < closed.Length
      decreases end
    {
      end := end - 1;
    }
    var start := end;
    while start > 0 && closed[start - 1]
      invariant start <= end
      invariant forall i :: start <= i <= end ==> closed[i]
    {
      start := start - 1;
    }
    assert end == last;
    RunStartsWithSpeech(speech, start, end);
    assert LastRun(speech, start, end);
    segment := Kept(audio, start, end);
  }
}
