/** Noise suppression of incoming audio, block by block, that gives up rather than lose audio. */
module NoiseFilter {
  import opened Division
  import opened Wrappers

  type Bytes = seq<bv8>

  /** 10 ms at 16 kHz. */
  const BLOCK: positive := 320

  /** The suppressor: what it makes of the last block it was given, after all the earlier ones;
      None when it raises. */
  type Suppressor = seq<Bytes> -> Option<Bytes>

  ghost predicate KeepsBlockSize(apm: Suppressor) {
    forall blocks :: apm(blocks).Some? ==> |apm(blocks).value| == BLOCK
  }

  datatype Suppressed = Suppressed(blocks: seq<Bytes>, output: Bytes)

  /** The whole blocks of raw, given to a suppressor that has seen blocks; None once it raises. */
  function Suppress(apm: Suppressor, blocks: seq<Bytes>, raw: Bytes): Option<Suppressed>
    decreases |raw|
  {
    if |raw| < BLOCK then Some(Suppressed(blocks, []))
    else
      var seen := blocks + [raw[..BLOCK]];
      match apm(seen)
      case None => None
      case Some(first) =>
        match Suppress(apm, seen, raw[BLOCK..])
        case None => None
        case Some(rest) => Some(Suppressed(rest.blocks, first + rest.output))
  }

  /** The filter between two calls. */
  datatype Filter = Filter(enabled: bool, pending: Bytes, blocks: seq<Bytes>)

  datatype Processed = Processed(filter: Filter, output: Bytes)

  /** What a call to process makes of the filter, and what it returns. */
  function Process(apm: Suppressor, f: Filter, pcm: Bytes): Processed {
    if !f.enabled then Processed(f, pcm)
    else
      var all := f.pending + pcm;
      match Suppress(apm, f.blocks, all)
      case None => Processed(Filter(false, [], f.blocks), all)
      case Some(s) => Processed(Filter(true, all[WholeLength(|all|, BLOCK)..], s.blocks), s.output)
  }

  function Zeros(n: nat): (zeros: Bytes)
    ensures |zeros| == n
  {
    seq(n, i => 0)
  }

  /** What holds between calls. */
  predicate Ready(f: Filter) {
    |f.pending| < BLOCK && (!f.enabled ==> f.pending == [])
  }

  // ---------- the suppressor ----------

  function Prepend(output: Bytes, rest: Option<Suppressed>): Option<Suppressed> {
    match rest
    case None => None
    case Some(s) => Some(Suppressed(s.blocks, output + s.output))
  }

  /** Going on after some blocks. */
  function Continue(apm: Suppressor, done: Option<Suppressed>, rest: Bytes): Option<Suppressed> {
    if done.None? then None else Prepend(done.value.output, Suppress(apm, done.value.blocks, rest))
  }

  lemma {:induction false} SuppressConcat(apm: Suppressor, blocks: seq<Bytes>, whole: Bytes, rest: Bytes)
    requires |whole| % BLOCK == 0
    ensures Suppress(apm, blocks, whole + rest) == Continue(apm, Suppress(apm, blocks, whole), rest)
    decreases |whole|
  {
    if whole == [] {
      assert whole + rest == rest;
      PrependNothing(Suppress(apm, blocks, rest));
    } else {
      assert (whole + rest)[..BLOCK] == whole[..BLOCK] && (whole + rest)[BLOCK..] == whole[BLOCK..] + rest;
      var seen := blocks + [whole[..BLOCK]];
      SuppressConcat(apm, seen, whole[BLOCK..], rest);
      var tail := Suppress(apm, seen, whole[BLOCK..]);
      if apm(seen).Some? && tail.Some? {
        PrependTwice(apm(seen).value, tail.value.output, Suppress(apm, tail.value.blocks, rest));
      }
    }
  }

  lemma PrependNothing(rest: Option<Suppressed>)
    ensures Prepend([], rest) == rest
  {
    if rest.Some? { assert [] + rest.value.output == rest.value.output; }
  }

  lemma PrependTwice(a: Bytes, b: Bytes, rest: Option<Suppressed>)
    ensures Prepend(a, Prepend(b, rest)) == Prepend(a + b, rest)
  {
    if rest.Some? { assert a + (b + rest.value.output) == (a + b) + rest.value.output; }
  }

  /** A partial block at the end waits. */
  lemma SuppressWhole(apm: Suppressor, blocks: seq<Bytes>, raw: Bytes)
    ensures Suppress(apm, blocks, raw) == Suppress(apm, blocks, raw[..WholeLength(|raw|, BLOCK)])
  {
    var size := WholeLength(|raw|, BLOCK);
    assert raw == raw[..size] + raw[size..];
    SuppressConcat(apm, blocks, raw[..size], raw[size..]);
    var whole := Suppress(apm, blocks, raw[..size]);
    if whole.Some? { assert whole.value.output + [] == whole.value.output; }
  }

  lemma {:induction false} SuppressLength(apm: Suppressor, blocks: seq<Bytes>, raw: Bytes)
    requires KeepsBlockSize(apm) && Suppress(apm, blocks, raw).Some?
    ensures |Suppress(apm, blocks, raw).value.output| == WholeLength(|raw|, BLOCK)
    decreases |raw|
  {
    if |raw| >= BLOCK {
      SuppressLength(apm, blocks + [raw[..BLOCK]], raw[BLOCK..]);
    }
  }

  /** The first n blocks of raw. */
  ghost function Blocks(raw: Bytes, n: nat): (blocks: seq<Bytes>)
    requires n * BLOCK <= |raw|
    ensures |blocks| == n
  {
    seq(n, i requires 0 <= i < n => (BlockFits(i, n); raw[i * BLOCK..(i + 1) * BLOCK]))
  }

  lemma BlockFits(i: nat, n: nat)
    requires i < n
    ensures i * BLOCK <= (i + 1) * BLOCK <= n * BLOCK
  {
  }

  /** Each block of the output is what the suppressor makes of that block of the input after all those
      before it. */
  lemma {:induction false} SuppressedInOrder(apm: Suppressor, blocks: seq<Bytes>, raw: Bytes, k: nat)
    requires KeepsBlockSize(apm) && (k + 1) * BLOCK <= |raw| && Suppress(apm, blocks, raw).Some?
    ensures (k + 1) * BLOCK <= |Suppress(apm, blocks, raw).value.output|
    ensures apm(blocks + Blocks(raw, k + 1))
            == Some(Suppress(apm, blocks, raw).value.output[k * BLOCK..(k + 1) * BLOCK])
    decreases k
  {
    var first, rest := raw[..BLOCK], raw[BLOCK..];
    var output := Suppress(apm, blocks, raw).value.output;
    if k == 0 {
      assert Blocks(raw, 1) == [first];
    } else {
      SuppressedInOrder(apm, blocks + [first], rest, k - 1);
      assert blocks + Blocks(raw, k + 1) == (blocks + [first]) + Blocks(rest, k) by { BlocksShift(raw, k); }
      var head, tail := apm(blocks + [first]).value, Suppress(apm, blocks + [first], rest).value.output;
      assert output == head + tail;
      SliceBehind(head, tail, (k - 1) * BLOCK, k * BLOCK);
      assert (k + 1) * BLOCK == BLOCK + k * BLOCK && k * BLOCK == BLOCK + (k - 1) * BLOCK;
    }
  }

  lemma SliceBehind(head: Bytes, tail: Bytes, from: nat, to: nat)
    requires from <= to <= |tail|
    ensures (head + tail)[|head| + from..|head| + to] == tail[from..to]
  {
  }

  lemma BlocksShift(raw: Bytes, k: nat)
    requires (k + 1) * BLOCK <= |raw|
    ensures Blocks(raw, k + 1) == [raw[..BLOCK]] + Blocks(raw[BLOCK..], k)
  {
    forall i | 0 <= i < k ensures Blocks(raw, k + 1)[i + 1] == Blocks(raw[BLOCK..], k)[i] {
      BlockFits(i + 1, k + 1);
      BlockFits(i, k);
    }
  }

  // ---------- conservation ----------

  /** No call loses or invents audio: what goes in comes out or waits. */
  lemma ProcessConserves(apm: Suppressor, f: Filter, pcm: Bytes)
    requires KeepsBlockSize(apm) && Ready(f)
    ensures var p := Process(apm, f, pcm);
            Ready(p.filter) && |p.output| + |p.filter.pending| == |f.pending| + |pcm|
  {
    if f.enabled && Suppress(apm, f.blocks, f.pending + pcm).Some? {
      SuppressLength(apm, f.blocks, f.pending + pcm);
    }
  }

  /** The end of the call: the waiting block is filled up with silence and cut back. */
  function Finish(apm: Suppressor, f: Filter): Processed {
    var count := |f.pending|;
    if count == 0 || count >= BLOCK then Processed(f, [])
    else
      var last := Process(apm, f, Zeros(BLOCK - count));
      Processed(last.filter, if |last.output| < count then last.output else last.output[..count])
  }

  /** It gives back as many bytes as were waiting, suppressed or not. */
  lemma FinishConserves(apm: Suppressor, f: Filter)
    requires KeepsBlockSize(apm) && Ready(f)
    ensures Finish(apm, f).filter.pending == [] && |Finish(apm, f).output| == |f.pending|
  {
    hide Process, Zeros;
    if f.pending != [] {
      var silence := Zeros(BLOCK - |f.pending|);
      ProcessConserves(apm, f, silence);
      FillingUpEmpties(apm, f, silence);
    }
  }

  lemma FillingUpEmpties(apm: Suppressor, f: Filter, pcm: Bytes)
    requires |f.pending| + |pcm| == BLOCK && (!f.enabled ==> f.pending == [])
    ensures Process(apm, f, pcm).filter.pending == []
  {
    hide Suppress;
    DivisionIsUnique(BLOCK, BLOCK, 1, 0);
  }

  // ---------- runs ----------

  function Flat(chunks: seq<Bytes>): Bytes {
    if chunks == [] then [] else chunks[0] + Flat(chunks[1..])
  }

  function Run(apm: Suppressor, f: Filter, chunks: seq<Bytes>): Processed
    decreases |chunks|
  {
    if chunks == [] then Processed(f, [])
    else
      var first := Process(apm, f, chunks[0]);
      var rest := Run(apm, first.filter, chunks[1..]);
      Processed(rest.filter, first.output + rest.output)
  }

  lemma {:induction false} RunConserves(apm: Suppressor, f: Filter, chunks: seq<Bytes>)
    requires KeepsBlockSize(apm) && Ready(f)
    ensures var r := Run(apm, f, chunks);
            Ready(r.filter) && |r.output| + |r.filter.pending| == |f.pending| + |Flat(chunks)|
    decreases |chunks|
  {
    hide Process, Ready;
    if chunks != [] {
      ProcessConserves(apm, f, chunks[0]);
      RunConserves(apm, Process(apm, f, chunks[0]).filter, chunks[1..]);
    }
  }

  /** A new filter gives back as much audio as it was given, wherever the suppressor fails. */
  lemma CallConserves(apm: Suppressor, enabled: bool, chunks: seq<Bytes>)
    requires KeepsBlockSize(apm)
    ensures var r := Run(apm, Filter(enabled, [], []), chunks);
            |r.output + Finish(apm, r.filter).output| == |Flat(chunks)|
  {
    hide Process, Run, Finish;
    RunConserves(apm, Filter(enabled, [], []), chunks);
    FinishConserves(apm, Run(apm, Filter(enabled, [], []), chunks).filter);
  }

  /** The end of the call gives back what the suppressor makes of the waiting bytes, filled up with
      silence to a block, cut to their length; and the bytes themselves if it raises. */
  lemma FinishExactly(apm: Suppressor, f: Filter, block: Bytes)
    requires KeepsBlockSize(apm) && Ready(f) && f.pending != []
    requires |block| == BLOCK && f.pending <= block && forall i :: |f.pending| <= i < BLOCK ==> block[i] == 0
    ensures Finish(apm, f).output ==
            match apm(f.blocks + [block]) {
              case None => f.pending
              case Some(output) => output[..|f.pending|]
            }
  {
    hide Suppress;
    var count := |f.pending|;
    assert block == f.pending + Zeros(BLOCK - count);
    SuppressOne(apm, f.blocks, block);
    FillingUpEmpties(apm, f, Zeros(BLOCK - count));
    assert block[..count] == f.pending;
  }

  /** Two calls do what one call on both chunks does, unless the suppressor fails; then both fail. */
  lemma ProcessTwice(apm: Suppressor, f: Filter, a: Bytes, b: Bytes)
    requires Ready(f) && f.enabled
    ensures var one, first := Process(apm, f, a + b), Process(apm, f, a);
            var second := Process(apm, first.filter, b);
            && (one.filter.enabled <==> second.filter.enabled)
            && (one.filter.enabled ==> second.filter == one.filter && first.output + second.output == one.output)
  {
    hide Suppress;
    var before := f.pending + a;
    var all := f.pending + (a + b);
    var size := WholeLength(|before|, BLOCK);
    var whole, rest := before[..size], before[size..] + b;
    assert all == whole + rest;
    SuppressWhole(apm, f.blocks, before);
    SuppressConcat(apm, f.blocks, whole, rest);
    WholeLengthGrows(|before|, |b|, BLOCK);
    assert all[WholeLength(|all|, BLOCK)..] == rest[WholeLength(|rest|, BLOCK)..];
  }

  lemma {:induction false} StaysOff(apm: Suppressor, f: Filter, chunks: seq<Bytes>)
    requires !f.enabled
    ensures Run(apm, f, chunks) == Processed(f, Flat(chunks))
    decreases |chunks|
  {
    if chunks != [] { StaysOff(apm, f, chunks[1..]); }
  }

  /** How the audio was cut into calls shows neither in whether the suppressor fails nor, if it
      does not, in a single byte of what comes out. */
  lemma {:induction false} CutsDoNotShow(apm: Suppressor, f: Filter, chunks: seq<Bytes>)
    requires Ready(f) && f.enabled
    ensures var r, whole := Run(apm, f, chunks), Process(apm, f, Flat(chunks));
            (r.filter.enabled <==> whole.filter.enabled) && (r.filter.enabled ==> r == whole)
    decreases |chunks|
  {
    hide Process;
    if chunks == [] {
      NothingToProcess(apm, f);
    } else {
      var first := Process(apm, f, chunks[0]);
      ProcessTwice(apm, f, chunks[0], Flat(chunks[1..]));
      ReadyAfter(apm, f, chunks[0]);
      if first.filter.enabled {
        CutsDoNotShow(apm, first.filter, chunks[1..]);
      } else {
        StaysOff(apm, first.filter, chunks[1..]);
        OffIsOff(apm, first.filter, Flat(chunks[1..]));
      }
    }
  }

  /** The output and what waits are the suppressed first n bytes, a number of whole blocks, and the
      caller's own bytes from there on. */
  ghost predicate SuppressedThenRaw(apm: Suppressor, f: Filter, all: Bytes, r: Processed, n: nat) {
    && n <= |all| && n % BLOCK == 0
    && (r.filter.enabled ==> n == WholeLength(|all|, BLOCK))
    && var s := Suppress(apm, f.blocks, all[..n]);
       s.Some? && r.output + r.filter.pending == s.value.output + all[n..]
  }

  /** Whatever is passed in, and wherever the suppressor fails, what comes out is the audio suppressed
      up to some block and the caller's own audio, untouched and complete, behind it. */
  lemma {:induction false} FailsOpen(apm: Suppressor, f: Filter, chunks: seq<Bytes>) returns (n: nat)
    requires Ready(f) && f.enabled
    ensures SuppressedThenRaw(apm, f, f.pending + Flat(chunks), Run(apm, f, chunks), n)
    decreases |chunks|
  {
    hide Process, Suppress, SuppressedThenRaw;
    if chunks == [] {
      n := 0;
      NothingSuppressed(apm, f);
      assert f.pending + Flat(chunks) == f.pending;
    } else {
      var first := Process(apm, f, chunks[0]);
      ReadyAfter(apm, f, chunks[0]);
      if first.filter.enabled {
        var more := FailsOpen(apm, first.filter, chunks[1..]);
        n := WholeLength(|f.pending + chunks[0]|, BLOCK) + more;
        SuppressedFirst(apm, f, chunks[0], Flat(chunks[1..]), Run(apm, first.filter, chunks[1..]), more);
        assert f.pending + Flat(chunks) == f.pending + (chunks[0] + Flat(chunks[1..]));
      } else {
        n := 0;
        StaysOff(apm, first.filter, chunks[1..]);
        FailedAtOnce(apm, f, chunks[0], Flat(chunks[1..]));
      }
    }
  }

  lemma NothingSuppressed(apm: Suppressor, f: Filter)
    requires Ready(f) && f.enabled
    ensures SuppressedThenRaw(apm, f, f.pending, Processed(f, []), 0)
  {
    DivisionIsUnique(|f.pending|, BLOCK, 0, |f.pending|);
    assert f.pending[..0] == [] && f.pending[0..] == f.pending && [] + f.pending == f.pending;
  }

  lemma FailedAtOnce(apm: Suppressor, f: Filter, a: Bytes, rest: Bytes)
    requires Ready(f) && f.enabled && !Process(apm, f, a).filter.enabled
    ensures var first := Process(apm, f, a);
            SuppressedThenRaw(apm, f, f.pending + (a + rest), Processed(first.filter, first.output + rest), 0)
  {
    var all := f.pending + (a + rest);
    assert all[..0] == [] && all[0..] == all;
    assert (f.pending + a) + rest == all && all + [] == all && [] + all == all;
    assert Suppress(apm, f.blocks, []) == Some(Suppressed(f.blocks, []));
  }

  lemma SuppressedFirst(apm: Suppressor, f: Filter, a: Bytes, rest: Bytes, later: Processed, more: nat)
    requires Ready(f) && f.enabled && Process(apm, f, a).filter.enabled
    requires var first := Process(apm, f, a);
             SuppressedThenRaw(apm, first.filter, first.filter.pending + rest, later, more)
    ensures var first := Process(apm, f, a);
            SuppressedThenRaw(apm, f, f.pending + (a + rest), Processed(later.filter, first.output + later.output),
                              WholeLength(|f.pending + a|, BLOCK) + more)
  {
    hide Suppress, WholeLength;
    var before := f.pending + a;
    var size := WholeLength(|before|, BLOCK);
    var whole, behind := before[..size], before[size..] + rest;
    var all := f.pending + (a + rest);
    assert all == whole + behind;
    SuppressWhole(apm, f.blocks, before);
    SuppressConcat(apm, f.blocks, whole, behind[..more]);
    assert all[..size + more] == whole + behind[..more] && all[size + more..] == behind[more..];
    WholeLengthGrows(|before|, |rest|, BLOCK);
    RemainderOfSum(size, more, BLOCK);
    var output := Process(apm, f, a).output;
    assert (output + later.output) + later.filter.pending == output + (later.output + later.filter.pending);
  }

  /** One whole block, from a filter that holds nothing back. */
  lemma OneBlock(apm: Suppressor, blocks: seq<Bytes>, block: Bytes)
    requires |block| == BLOCK
    ensures Process(apm, Filter(true, [], blocks), block) ==
            match apm(blocks + [block]) {
              case None => Processed(Filter(false, [], blocks), block)
              case Some(output) => Processed(Filter(true, [], blocks + [block]), output)
            }
  {
    hide Suppress;
    assert [] + block == block;
    SuppressOne(apm, blocks, block);
    FillingUpEmpties(apm, Filter(true, [], blocks), block);
  }

  lemma SuppressOne(apm: Suppressor, blocks: seq<Bytes>, block: Bytes)
    requires |block| == BLOCK
    ensures Suppress(apm, blocks, block) ==
            match apm(blocks + [block]) {
              case None => None
              case Some(output) => Some(Suppressed(blocks + [block], output))
            }
  {
    assert block[..BLOCK] == block;
    assert Suppress(apm, blocks + [block], block[BLOCK..]) == Some(Suppressed(blocks + [block], []));
    if apm(blocks + [block]).Some? {
      assert apm(blocks + [block]).value + [] == apm(blocks + [block]).value;
    }
  }

  lemma TwoBlocksFail(apm: Suppressor, a: Bytes, b: Bytes)
    requires |a| == |b| == BLOCK && apm([a]).Some? && apm([a, b]).None?
    ensures Process(apm, Filter(true, [], []), a + b).output == a + b
  {
    assert [] + (a + b) == a + b && (a + b)[..BLOCK] == a && (a + b)[BLOCK..] == b && b[..BLOCK] == b;
    assert [] + [a] == [a] && [a] + [b] == [a, b];
    assert Suppress(apm, [a], b).None?;
  }

  /** After a failure the cuts do show: what an earlier call returned stays suppressed. */
  lemma FailureShowsTheCut(apm: Suppressor, a: Bytes, b: Bytes)
    requires |a| == |b| == BLOCK && apm([a]).Some? && apm([a, b]).None?
    requires |apm([a]).value| == BLOCK && apm([a]).value != a
    ensures Run(apm, Filter(true, [], []), [a, b]).output != Process(apm, Filter(true, [], []), a + b).output
  {
    hide Process, Suppress;
    OneBlock(apm, [], a);
    OneBlock(apm, [a], b);
    TwoBlocksFail(apm, a, b);
    assert [] + [a] == [a] && [a] + [b] == [a, b] && [a, b][1..] == [b];
    assert Run(apm, Filter(true, [], [a]), [b]).output == b + [] == b;
    assert (apm([a]).value + b)[..BLOCK] == apm([a]).value && (a + b)[..BLOCK] == a;
  }

  lemma OffIsOff(apm: Suppressor, f: Filter, pcm: Bytes)
    requires !f.enabled
    ensures Process(apm, f, pcm) == Processed(f, pcm)
  {
  }

  lemma ReadyAfter(apm: Suppressor, f: Filter, pcm: Bytes)
    requires Ready(f)
    ensures Ready(Process(apm, f, pcm).filter)
  {
  }

  lemma NothingToProcess(apm: Suppressor, f: Filter)
    requires Ready(f) && f.enabled
    ensures Process(apm, f, []) == Processed(f, [])
  {
    assert f.pending + [] == f.pending;
    DivisionIsUnique(|f.pending|, BLOCK, 0, |f.pending|);
    assert f.pending[0..] == f.pending;
  }

  // ---------- the filter ----------

  class InputNoiseFilter {
    const apm: Suppressor
    var enabled: bool
    var pending: Bytes
    /** What the suppressor has been given: it adapts to it. */
    var blocks: seq<Bytes>

    ghost function Now(): Filter
      reads this
    {
      Filter(enabled, pending, blocks)
    }

    constructor (apm: Suppressor, enabled: bool)
      ensures this.apm == apm && Now() == Filter(enabled, [], [])
    {
      this.apm, this.enabled, pending, blocks := apm, enabled, [], [];
    }

    method ProcessPcm(pcm: Bytes) returns (output: Bytes)
      modifies this
      ensures Processed(Now(), output) == Process(apm, old(Now()), pcm)
    {
      hide Suppress;
      if !enabled {
        return pcm;
      }
      pending := pending + pcm;
      ghost var all := pending;
      var size := WholeLength(|pending|, BLOCK);
      var raw := pending[..size];
      pending := pending[size..];
      SuppressWhole(apm, blocks, all);
      var s := SuppressBlocks(apm, blocks, raw);
      if s.None? {
        enabled := false;
        output := raw + pending;
        pending := [];
        assert output == all;
      } else {
        blocks, output := s.value.blocks, s.value.output;
      }
    }

    method FinishCall() returns (output: Bytes)
      requires Ready(Now())
      modifies this
      ensures Processed(Now(), output) == Finish(apm, old(Now()))
    {
      hide Process;
      var count := |pending|;
      if count == 0 {
        return [];
      }
      output := ProcessPcm(Zeros(BLOCK - count));
      output := if |output| < count then output else output[..count];
    }
  }

  method SuppressBlocks(apm: Suppressor, before: seq<Bytes>, raw: Bytes) returns (s: Option<Suppressed>)
    requires |raw| % BLOCK == 0
    ensures s == Suppress(apm, before, raw)
  {
    var position, blocks, output := 0, before, [];
    PrependNothing(Suppress(apm, before, raw));
    while position < |raw|
      invariant position % BLOCK == 0 && position <= |raw|
      invariant Suppress(apm, before, raw) == Prepend(output, Suppress(apm, blocks, raw[position..]))
    {
      BlockLeft(|raw|, position);
      var block := raw[position..position + BLOCK];
      assert raw[position..][..BLOCK] == block && raw[position..][BLOCK..] == raw[position + BLOCK..];
      var frame := apm(blocks + [block]);
      if frame.None? {
        return None;
      }
      PrependTwice(output, frame.value, Suppress(apm, blocks + [block], raw[position + BLOCK..]));
      blocks, output, position := blocks + [block], output + frame.value, position + BLOCK;
    }
    assert raw[position..] == [] && output + [] == output;
    return Some(Suppressed(blocks, output));
  }

  lemma BlockLeft(length: nat, position: nat)
    requires length % BLOCK == 0 && position % BLOCK == 0 && position < length
    ensures position + BLOCK <= length && (position + BLOCK) % BLOCK == 0
  {
  }
}
