/** How long audio must be padded so that the denoiser's layers lose none of it. */
module DemucsPadding {

  import opened Division

  /** A convolution layer: its kernel and stride. */
  datatype Layer = Layer(kernel: positive, stride: positive)

  const DEPTH: nat := 5
  const LAYER := Layer(8, 4)
  const RESAMPLE: positive := 4

  /** One step of each loop of the calculation. */
  function Down(v: int, layer: Layer): (w: positive) {
    var w := CeilDiv(v - layer.kernel, layer.stride) + 1;
    if w < 1 then 1 else w
  }

  function Up(w: int, layer: Layer): int {
    (w - 1) * layer.stride + layer.kernel
  }

  function Downs(v: int, layer: Layer, depth: nat): int
    decreases depth
  {
    if depth == 0 then v else Downs(Down(v, layer), layer, depth - 1)
  }

  function Ups(w: int, layer: Layer, depth: nat): int
    decreases depth
  {
    if depth == 0 then w else Ups(Up(w, layer), layer, depth - 1)
  }

  function ValidLengthOf(length: int, depth: nat, layer: Layer, resample: positive): int {
    CeilDiv(Ups(Downs(length * resample, layer, depth), layer, depth), resample)
  }

  method ValidLength(length: int, depth: nat, layer: Layer, resample: positive) returns (padded: int)
    ensures padded == ValidLengthOf(length, depth, layer, resample)
  {
    var value := length * resample;
    for i := 0 to depth
      invariant Downs(value, layer, depth - i) == Downs(length * resample, layer, depth)
    {
      value := Down(value, layer);
    }
    for i := 0 to depth
      invariant Ups(value, layer, depth - i) == Ups(Downs(length * resample, layer, depth), layer, depth)
    {
      value := Up(value, layer);
    }
    padded := CeilDiv(value, resample);
  }

  // ---------- shrinking and growing are adjoint ----------

  lemma Adjoint(v: int, w: positive, layer: Layer)
    ensures Down(v, layer) <= w <==> v <= Up(w, layer)
    ensures 1 <= Up(w, layer)
  {
    CeilDivBounds(v - layer.kernel, layer.stride, w - 1);
    assert layer.stride * (w - 1) == (w - 1) * layer.stride;
  }

  lemma {:induction false} UpsOutermost(w: int, layer: Layer, depth: positive)
    ensures Ups(w, layer, depth) == Up(Ups(w, layer, depth - 1), layer)
    decreases depth
  {
    hide Up;
    if depth > 1 {
      UpsOutermost(Up(w, layer), layer, depth - 1);
    }
  }

  lemma {:induction false} UpsPositive(w: positive, layer: Layer, depth: nat)
    ensures 1 <= Ups(w, layer, depth)
    decreases depth
  {
    hide Up;
    if depth > 0 {
      Adjoint(1, w, layer);
      UpsPositive(Up(w, layer), layer, depth - 1);
    }
  }

  /** At every depth: shrinking stays within w exactly when the length fits what w grows to. */
  lemma {:induction false} AdjointAtDepth(v: int, w: positive, layer: Layer, depth: nat)
    ensures Downs(v, layer, depth) <= w <==> v <= Ups(w, layer, depth)
    decreases depth
  {
    hide Up, Down;
    if depth > 0 {
      UpsPositive(w, layer, depth - 1);
      AdjointAtDepth(Down(v, layer), w, layer, depth - 1);
      Adjoint(v, Ups(w, layer, depth - 1), layer);
      UpsOutermost(w, layer, depth);
    }
  }

  lemma {:induction false} DownsPositive(v: int, layer: Layer, depth: nat)
    requires depth > 0 || v >= 1
    ensures 1 <= Downs(v, layer, depth)
    decreases depth
  {
    hide Down;
    if depth > 0 {
      DownsPositive(Down(v, layer), layer, depth - 1);
    }
  }

  // ---------- what the layers do to a length ----------

  /** The windows a layer takes from a signal it is long enough for. */
  function Windows(length: int, layer: Layer): int
    requires layer.kernel <= length
  {
    (length - layer.kernel) / layer.stride + 1
  }

  /** A whole number of strides: no sample is left over. */
  predicate Divides(length: int, layer: Layer) {
    (length - layer.kernel) % layer.stride == 0
  }

  /** Every layer's input is long enough. */
  predicate Fits(length: int, layer: Layer, depth: nat)
    decreases depth
  {
    depth > 0 ==> layer.kernel <= length && Fits(Windows(length, layer), layer, depth - 1)
  }

  /** Every layer divides its input. */
  predicate Exact(length: int, layer: Layer, depth: nat)
    decreases depth
  {
    depth > 0 ==>
      && layer.kernel <= length && Divides(length, layer)
      && Exact(Windows(length, layer), layer, depth - 1)
  }

  /** What comes out of the layers and their transposes. */
  function Network(length: int, layer: Layer, depth: nat): int
    requires Fits(length, layer, depth)
    decreases depth
  {
    if depth == 0 then length else Up(Network(Windows(length, layer), layer, depth - 1), layer)
  }

  lemma WindowsCover(length: int, layer: Layer)
    requires layer.kernel <= length
    ensures 1 <= Windows(length, layer)
    ensures Up(Windows(length, layer), layer) <= length
    ensures Up(Windows(length, layer), layer) == length <==> Divides(length, layer)
  {
    var rest := length - layer.kernel;
    assert rest == layer.stride * (rest / layer.stride) + rest % layer.stride;
    assert layer.stride * (rest / layer.stride) == (rest / layer.stride) * layer.stride;
  }

  lemma UpMonotone(a: int, b: int, layer: Layer)
    ensures a <= b <==> Up(a, layer) <= Up(b, layer)
  {
    if a <= b {
      assert (b - 1) * layer.stride == (a - 1) * layer.stride + (b - a) * layer.stride;
    } else {
      assert (a - 1) * layer.stride == (b - 1) * layer.stride + (a - b) * layer.stride;
      assert (a - b) * layer.stride >= layer.stride;
    }
  }

  /** The layers never lengthen a signal, and keep its length exactly when they divide it exactly. */
  lemma {:induction false} KeptExactly(length: int, layer: Layer, depth: nat)
    requires Fits(length, layer, depth)
    ensures Network(length, layer, depth) <= length
    ensures Network(length, layer, depth) == length <==> Exact(length, layer, depth)
    decreases depth
  {
    hide Up, Windows, Divides;
    if depth > 0 {
      var windows := Windows(length, layer);
      WindowsCover(length, layer);
      KeptExactly(windows, layer, depth - 1);
      UpMonotone(Network(windows, layer, depth - 1), windows, layer);
      UpMonotone(windows, Network(windows, layer, depth - 1), layer);
    }
  }

  lemma {:induction false} ExactFits(length: int, layer: Layer, depth: nat)
    requires Exact(length, layer, depth)
    ensures Fits(length, layer, depth)
    decreases depth
  {
    hide Windows, Divides;
    if depth > 0 {
      ExactFits(Windows(length, layer), layer, depth - 1);
    }
  }

  lemma {:induction false} GrownIsExact(w: positive, layer: Layer, depth: nat)
    ensures Exact(Ups(w, layer, depth), layer, depth)
    decreases depth
  {
    hide Up, Windows, Divides;
    if depth > 0 {
      var inner := Ups(w, layer, depth - 1);
      UpsPositive(w, layer, depth - 1);
      UpsOutermost(w, layer, depth);
      WindowsOfUp(inner, layer);
      GrownIsExact(w, layer, depth - 1);
    }
  }

  lemma WindowsOfUp(w: positive, layer: Layer)
    ensures layer.kernel <= Up(w, layer) && Divides(Up(w, layer), layer)
    ensures Windows(Up(w, layer), layer) == w
  {
    assert (w - 1) * layer.stride == layer.stride * (w - 1);
    DivisionIsUnique(layer.stride * (w - 1), layer.stride, w - 1, 0);
  }

  lemma {:induction false} ExactIsGrown(length: int, layer: Layer, depth: nat) returns (w: positive)
    requires Exact(length, layer, depth) && (depth > 0 || 1 <= length)
    ensures length == Ups(w, layer, depth)
    decreases depth
  {
    hide Up, Windows, Divides;
    if depth == 0 {
      w := length;
    } else {
      WindowsCover(length, layer);
      w := ExactIsGrown(Windows(length, layer), layer, depth - 1);
      UpsOutermost(w, layer, depth);
    }
  }

  /** Shrinking to the bottom and growing back gives the least length that the layers keep. */
  lemma GrownIsLeast(v: int, layer: Layer, depth: nat)
    requires depth > 0 || 1 <= v
    ensures var grown := Ups(Downs(v, layer, depth), layer, depth);
            && v <= grown && Exact(grown, layer, depth)
            && (forall other :: v <= other && Exact(other, layer, depth) ==> grown <= other)
  {
    DownsPositive(v, layer, depth);
    var w: positive := Downs(v, layer, depth);
    AdjointAtDepth(v, w, layer, depth);
    GrownIsExact(w, layer, depth);
    forall other | v <= other && Exact(other, layer, depth)
      ensures Ups(w, layer, depth) <= other
    {
      var wider := ExactIsGrown(other, layer, depth);
      AdjointAtDepth(v, wider, layer, depth);
      UpsMonotone(w, wider, layer, depth);
    }
  }

  lemma {:induction false} UpsMonotone(a: int, b: int, layer: Layer, depth: nat)
    requires a <= b
    ensures Ups(a, layer, depth) <= Ups(b, layer, depth)
    decreases depth
  {
    hide Up;
    if depth > 0 {
      UpMonotone(a, b, layer);
      UpsMonotone(Up(a, layer), Up(b, layer), layer, depth - 1);
    }
  }

  // ---------- the denoiser's own numbers ----------

  function PaddedLength(length: int): int {
    ValidLengthOf(length, DEPTH, LAYER, RESAMPLE)
  }

  /** A length the denoiser keeps. */
  predicate Kept(length: int) {
    Exact(length * RESAMPLE, LAYER, DEPTH)
  }

  lemma FiveUps(w: int)
    ensures Ups(w, LAYER, DEPTH) == 1024 * w + 1364
  {
    var u1 := Up(w, LAYER);
    var u2 := Up(u1, LAYER);
    var u3 := Up(u2, LAYER);
    var u4 := Up(u3, LAYER);
    assert Ups(w, LAYER, 5) == Ups(u1, LAYER, 4) == Ups(u2, LAYER, 3) == Ups(u3, LAYER, 2) == Ups(u4, LAYER, 1);
  }

  /** The padded length is the least length of at least the audio's that the denoiser keeps. */
  lemma PaddedIsLeastKept(length: int)
    ensures length <= PaddedLength(length) && Kept(PaddedLength(length))
    ensures forall other :: length <= other && Kept(other) ==> PaddedLength(length) <= other
  {
    hide Exact;
    var grown := Ups(Downs(length * RESAMPLE, LAYER, DEPTH), LAYER, DEPTH);
    GrownIsLeast(length * RESAMPLE, LAYER, DEPTH);
    FiveUps(Downs(length * RESAMPLE, LAYER, DEPTH));
    assert PaddedLength(length) * RESAMPLE == grown;
    forall other | length <= other && Kept(other)
      ensures PaddedLength(length) <= other
    {
      assert grown <= other * RESAMPLE;
    }
  }

  /** The kept lengths are 256w + 341. */
  lemma KeptLengths(length: int)
    ensures Kept(length) <==> exists w: positive :: length == 256 * w + 341
  {
    if Kept(length) {
      var w := ExactIsGrown(length * RESAMPLE, LAYER, DEPTH);
      FiveUps(w);
      assert length == 256 * w + 341;
    }
    if w: positive :| length == 256 * w + 341 {
      GrownIsExact(w, LAYER, DEPTH);
      FiveUps(w);
    }
  }

  /** Padding adds at most 255 samples once the audio has 342, never shortens, is monotone, and
      leaves padded audio alone. */
  lemma PaddingIsTight(length: int, longer: int)
    requires length <= longer
    ensures PaddedLength(length) <= PaddedLength(longer)
    ensures PaddedLength(PaddedLength(length)) == PaddedLength(length)
    ensures length >= 342 ==> PaddedLength(length) - length <= 255
    ensures length < 342 ==> PaddedLength(length) == 597
  {
    hide Kept, PaddedLength;
    PaddedIsLeastKept(length);
    PaddedIsLeastKept(longer);
    PaddedIsLeastKept(PaddedLength(length));
    var w: positive := if length <= 597 then 1 else (length - 341 + 255) / 256;
    var candidate := 256 * w + 341;
    KeptLengths(candidate);
    assert length <= candidate && Kept(candidate);
    KeptLengths(PaddedLength(length));
    var v: positive :| PaddedLength(length) == 256 * v + 341;
  }

  // ---------- denoising ----------

  /** A denoiser whose output is as long as its layers make it. */
  ghost predicate HasLayers<T(!new)>(denoiser: seq<T> -> seq<T>) {
    forall audio: seq<T> :: Fits(|audio| * RESAMPLE, LAYER, DEPTH) ==>
      |denoiser(audio)| == CeilDiv(Network(|audio| * RESAMPLE, LAYER, DEPTH), RESAMPLE)
  }

  function Zeros(n: nat): seq<real> {
    seq(n, i => 0.0)
  }

  /** Audio at the front of a zeroed buffer. */
  method Pad(wave: seq<real>, target: nat) returns (padded: seq<real>)
    requires |wave| <= target
    ensures padded == wave + Zeros(target - |wave|)
    ensures |padded| == target && wave <= padded && forall i :: |wave| <= i < target ==> padded[i] == 0.0
  {
    var buffer := new real[target](_ => 0.0);
    for i := 0 to |wave|
      invariant forall j :: 0 <= j < target ==> buffer[j] == if j < i then wave[j] else 0.0
    {
      buffer[i] := wave[i];
    }
    padded := buffer[..];
  }

  lemma KeepsLength<T(!new)>(denoiser: seq<T> -> seq<T>, audio: seq<T>)
    requires HasLayers(denoiser) && Kept(|audio|)
    ensures |denoiser(audio)| == |audio|
  {
    hide Network, Exact, Fits;
    ExactFits(|audio| * RESAMPLE, LAYER, DEPTH);
    KeptExactly(|audio| * RESAMPLE, LAYER, DEPTH);
  }

  /** Denoising gives back exactly as many samples as it was given: the denoiser sees the audio
      followed by silence, and what it makes of the audio comes back whole. */
  method Denoise(wave: seq<real>, denoiser: seq<real> -> seq<real>) returns (cleaned: seq<real>)
    requires HasLayers(denoiser)
    ensures |cleaned| == |wave|
    ensures wave != [] ==>
      PaddedLength(|wave|) >= |wave| && cleaned <= denoiser(wave + Zeros(PaddedLength(|wave|) - |wave|))
    ensures wave != [] ==> exists padded: seq<real> ::
              && |padded| == PaddedLength(|wave|) && wave <= padded && cleaned <= denoiser(padded)
              && forall i :: |wave| <= i < |padded| ==> padded[i] == 0.0
  {
    hide HasLayers, Kept, ValidLengthOf;
    if wave == [] {
      return wave;
    }
    var valid := ValidLength(|wave|, DEPTH, LAYER, RESAMPLE);
    PaddedIsLeastKept(|wave|);
    var target := if valid < |wave| then |wave| else valid;
    var padded := Pad(wave, target);
    KeepsLength(denoiser, padded);
    cleaned := denoiser(padded)[..|wave|];
  }
}
