/**
 * `ShaderGradientTyGL.cpp`: the colour-stop part of
 * `gradientSetShaderArguments` and the stop-information texture that
 * `prepareStopPointInfoTexture` uploads.
 *
 * The stops are padded so that they begin at offset 0 and end at offset 1.
 * They are then spread into a distance array and an RGBA array, and packed
 * into a two-row BGRA byte texture: row 0 holds the distances as grey
 * levels, row 1 the colours. Converting a float in [0, 255] to `GLubyte`
 * truncates it, which is `Floor` here. GL calls and the gradient transform
 * set-up are not modelled.
 */
module ShaderGradientTyGL {
  import opened GradientTyGL
  import opened Wrappers

  /** A copy of a stop's colour at another offset. */
  function StopAt(offset: real, c: ColorStop): ColorStop
  {
    ColorStop(offset, c.red, c.green, c.blue, c.alpha)
  }

  /** The stops after padding: a copy of the first colour at 0 unless the
      first stop is at 0, and a copy of the last colour at 1 unless the last
      stop is at 1. */
  function Normalized(stops: seq<ColorStop>): (r: seq<ColorStop>)
    requires |stops| >= 1
  {
    var front := if stops[0].stop != 0.0 then [StopAt(0.0, stops[0])] + stops else stops;
    if front[|front| - 1].stop != 1.0 then front + [StopAt(1.0, front[|front| - 1])] else front
  }

  /** The vector `insert`/`append` of `gradientSetShaderArguments`; the
      requires is its `ASSERT(size >= 1)`. */
  method NormalizeStops(stops: seq<ColorStop>) returns (colorStops: seq<ColorStop>)
    requires |stops| >= 1
    ensures colorStops == Normalized(stops)
  {
    colorStops := stops;
    if colorStops[0].stop != 0.0 {
      colorStops := [StopAt(0.0, colorStops[0])] + colorStops;
    }
    if colorStops[|colorStops| - 1].stop != 1.0 {
      var originalLastColorStop := colorStops[|colorStops| - 1];
      colorStops := colorStops + [StopAt(1.0, originalLastColorStop)];
    }
  }

  /** The number of stops padding puts before the original ones. */
  function LeadingPad(stops: seq<ColorStop>): nat
    requires |stops| >= 1
  {
    if stops[0].stop != 0.0 then 1 else 0
  }

  /** Padding yields at least two stops from 0 to 1. The original stops
      sit unchanged after `LeadingPad` copies, with at most one stop after
      them; an added stop copies the colour next to it. */
  lemma NormalizedSpansUnitRange(stops: seq<ColorStop>)
    requires |stops| >= 1
    ensures var r := Normalized(stops);
      |r| >= 2 && r[0].stop == 0.0 && r[|r| - 1].stop == 1.0 &&
      LeadingPad(stops) + |stops| <= |r| <= LeadingPad(stops) + |stops| + 1 &&
      r[LeadingPad(stops)..LeadingPad(stops) + |stops|] == stops &&
      (stops[0].stop != 0.0 ==> r[0] == StopAt(0.0, stops[0])) &&
      (|r| > LeadingPad(stops) + |stops| ==> r[|r| - 1] == StopAt(1.0, stops[|stops| - 1]))
  {
    var lo := LeadingPad(stops);
    var front := if stops[0].stop != 0.0 then [StopAt(0.0, stops[0])] + stops else stops;
    assert front[lo..lo + |stops|] == stops;
    assert front[|front| - 1] == stops[|stops| - 1];
    var r := Normalized(stops);
    assert r[..|front|] == front;
    assert r[lo..lo + |stops|] == front[lo..lo + |stops|];
  }

  /** Stops already at 0 and 1 are left as they are. */
  lemma NormalizedOfSpanning(stops: seq<ColorStop>)
    requires |stops| >= 2 && stops[0].stop == 0.0 && stops[|stops| - 1].stop == 1.0
    ensures Normalized(stops) == stops
  {
  }

  /** The loop that spreads the stops into `stopPointDistances` and
      `stopPointColors`: distance i is stop i's offset and colours 4i to
      4i + 3 are its red, green, blue and alpha. */
  method FillStopArrays(colorStops: seq<ColorStop>) returns (distances: array<real>, colors: array<real>)
    ensures fresh(distances) && fresh(colors)
    ensures distances.Length == |colorStops| && colors.Length == 4 * |colorStops|
    ensures forall i :: 0 <= i < |colorStops| ==> distances[i] == colorStops[i].stop
    ensures forall i :: 0 <= i < |colorStops| ==>
      colors[4 * i] == colorStops[i].red && colors[4 * i + 1] == colorStops[i].green &&
      colors[4 * i + 2] == colorStops[i].blue && colors[4 * i + 3] == colorStops[i].alpha
  {
    var numStops := |colorStops|;
    distances := new real[numStops];
    colors := new real[numStops * 4];
    for i := 0 to numStops
      invariant forall k :: 0 <= k < i ==> distances[k] == colorStops[k].stop
      invariant forall k :: 0 <= k < i ==>
        colors[4 * k] == colorStops[k].red && colors[4 * k + 1] == colorStops[k].green &&
        colors[4 * k + 2] == colorStops[k].blue && colors[4 * k + 3] == colorStops[k].alpha
    {
      var colorStop := colorStops[i];
      distances[i] := colorStop.stop;
      colors[i * 4 + 0] := colorStop.red;
      colors[i * 4 + 1] := colorStop.green;
      colors[i * 4 + 2] := colorStop.blue;
      colors[i * 4 + 3] := colorStop.alpha;
    }
  }

  /** The size of the cached `NativeImageTyGL` stop texture. */
  datatype TextureSize = TextureSize(width: int, height: int)

  const TextureHeight := 2
  const PixelDataSize := 4

  /** The cached texture is replaced when it is missing, narrower than the
      number of stops or lower than two rows. */
  predicate NeedsNewTexture(current: Option<TextureSize>, numStops: int)
  {
    current.None? || current.value.width < numStops || current.value.height < TextureHeight
  }

  /** The texture used afterwards. */
  function StopTexture(current: Option<TextureSize>, numStops: int): (r: TextureSize)
  {
    if NeedsNewTexture(current, numStops) then TextureSize(numStops, TextureHeight) else current.value
  }

  /** The texture used is always big enough, and a big-enough cached
      texture is kept. */
  lemma StopTextureLargeEnough(current: Option<TextureSize>, numStops: int)
    ensures StopTexture(current, numStops).width >= numStops
    ensures StopTexture(current, numStops).height >= TextureHeight
    ensures current.Some? && current.value.width >= numStops && current.value.height >= TextureHeight ==>
      StopTexture(current, numStops) == current.value
  {
  }

  /** `GLubyte` conversion of a float in [0, 255]: truncation. */
  function ToByte(v: real): int
  {
    v.Floor
  }

  /** A value in [0, 1] scaled by 255 fits a byte. */
  lemma ScaledFitsByte(v: real)
    requires 0.0 <= v <= 1.0
    ensures 0 <= ToByte(v * 255.0) <= 255
  {
  }

  /** All stop offsets and colour components lie in [0, 1]. */
  ghost predicate UnitComponents(distances: seq<real>, colors: seq<real>)
  {
    (forall i :: 0 <= i < |distances| ==> 0.0 <= distances[i] <= 1.0) &&
    (forall i :: 0 <= i < |colors| ==> 0.0 <= colors[i] <= 1.0)
  }

  /** Pixel i of both rows of a texture `w` pixels wide: row 0 holds the
      grey level d·255 with alpha 255, row 1 the colour of stop i with red
      and blue swapped (BGRA), times 255. */
  ghost predicate StopPixel(data: seq<int>, i: int, w: int, distances: seq<real>, colors: seq<real>)
    requires 0 <= i < w == |distances| && |colors| == PixelDataSize * w
    requires |data| == TextureHeight * PixelDataSize * w
  {
    var p, q := PixelDataSize * i, PixelDataSize * i + PixelDataSize * w;
    data[p] == ToByte(distances[i] * 255.0) &&
    data[p + 1] == ToByte(distances[i] * 255.0) &&
    data[p + 2] == ToByte(distances[i] * 255.0) &&
    data[p + 3] == 255 &&
    data[q] == ToByte(colors[p + 2] * 255.0) &&
    data[q + 1] == ToByte(colors[p + 1] * 255.0) &&
    data[q + 2] == ToByte(colors[p] * 255.0) &&
    data[q + 3] == ToByte(colors[p + 3] * 255.0)
  }

  /** The byte layout `prepareStopPointInfoTexture` uploads. */
  ghost predicate StopInfoLayout(data: seq<int>, distances: seq<real>, colors: seq<real>)
    requires |colors| == PixelDataSize * |distances| && |data| == TextureHeight * PixelDataSize * |distances|
  {
    forall i :: 0 <= i < |distances| ==> StopPixel(data, i, |distances|, distances, colors)
  }

  /** The bytes of pixel i in either row. */
  predicate InPixel(k: int, i: int, w: int)
  {
    PixelDataSize * i <= k < PixelDataSize * i + PixelDataSize ||
    PixelDataSize * (w + i) <= k < PixelDataSize * (w + i) + PixelDataSize
  }

  ghost predicate AllBytes(data: seq<int>)
  {
    forall k :: 0 <= k < |data| ==> 0 <= data[k] <= 255
  }

  /** One iteration of the texture loop: writes pixel i of both rows. */
  method WriteStopPixel(data: array<int>, i: int, w: int, distances: seq<real>, colors: seq<real>)
    requires 0 <= i < w == |distances| && |colors| == PixelDataSize * w
    requires data.Length == TextureHeight * PixelDataSize * w
    requires UnitComponents(distances, colors) && AllBytes(data[..])
    modifies data
    ensures StopPixel(data[..], i, w, distances, colors) && AllBytes(data[..])
    ensures forall k :: 0 <= k < data.Length && !InPixel(k, i, w) ==> data[k] == old(data[k])
  {
    var p := i * PixelDataSize;
    var q := p + w * PixelDataSize;
    ScaledFitsByte(distances[i]);
    ScaledFitsByte(colors[p + 2]);
    ScaledFitsByte(colors[p + 1]);
    ScaledFitsByte(colors[p]);
    ScaledFitsByte(colors[p + 3]);
    var d := ToByte(distances[i] * 255.0);
    WriteBytes(data, p, d, d, d, 255);
    WriteBytes(data, q, ToByte(colors[p + 2] * 255.0), ToByte(colors[p + 1] * 255.0),
      ToByte(colors[p] * 255.0), ToByte(colors[p + 3] * 255.0));
  }

  /** Four consecutive bytes from position p. */
  method WriteBytes(data: array<int>, p: int, b0: int, b1: int, b2: int, b3: int)
    requires 0 <= p && p + 4 <= data.Length && AllBytes(data[..])
    requires 0 <= b0 <= 255 && 0 <= b1 <= 255 && 0 <= b2 <= 255 && 0 <= b3 <= 255
    modifies data
    ensures data[p] == b0 && data[p + 1] == b1 && data[p + 2] == b2 && data[p + 3] == b3
    ensures forall k :: 0 <= k < data.Length && !(p <= k < p + 4) ==> data[k] == old(data[k])
    ensures AllBytes(data[..])
  {
    data[p] := b0;
    data[p + 1] := b1;
    data[p + 2] := b2;
    data[p + 3] := b3;
  }

  /** Writing pixel i leaves the earlier pixels as they were. */
  lemma StopPixelKept(now: seq<int>, before: seq<int>, i: int, j: int, w: int, distances: seq<real>, colors: seq<real>)
    requires 0 <= j < i < w == |distances| && |colors| == PixelDataSize * w
    requires |now| == |before| == TextureHeight * PixelDataSize * w
    requires forall k :: 0 <= k < |now| && !InPixel(k, i, w) ==> now[k] == before[k]
    requires StopPixel(before, j, w, distances, colors)
    ensures StopPixel(now, j, w, distances, colors)
  {
    var p, q := PixelDataSize * j, PixelDataSize * j + PixelDataSize * w;
    assert !InPixel(p, i, w) && !InPixel(p + 1, i, w) && !InPixel(p + 2, i, w) && !InPixel(p + 3, i, w);
    assert !InPixel(q, i, w) && !InPixel(q + 1, i, w) && !InPixel(q + 2, i, w) && !InPixel(q + 3, i, w);
  }

  /** `prepareStopPointInfoTexture`: chooses the texture and builds the
      tightly packed `numStops` x 2 BGRA upload. The requires keep every
      float-to-byte conversion in range. */
  method PrepareStopPointInfoTexture(current: Option<TextureSize>, distances: seq<real>, colors: seq<real>)
    returns (texture: TextureSize, data: array<int>)
    requires |colors| == PixelDataSize * |distances|
    requires UnitComponents(distances, colors)
    ensures texture == StopTexture(current, |distances|)
    ensures fresh(data) && data.Length == TextureHeight * PixelDataSize * |distances|
    ensures StopInfoLayout(data[..], distances, colors)
    ensures AllBytes(data[..])
  {
    var numStops := |distances|;
    var textureWidth := numStops;
    texture := if current.Some? then current.value else TextureSize(0, 0);
    if current.None? || current.value.width < textureWidth || current.value.height < TextureHeight {
      texture := TextureSize(textureWidth, TextureHeight);
    }
    data := new int[textureWidth * TextureHeight * PixelDataSize](_ => 0);
    for i := 0 to numStops
      invariant AllBytes(data[..])
      invariant forall j :: 0 <= j < i ==> StopPixel(data[..], j, textureWidth, distances, colors)
    {
      ghost var before := data[..];
      WriteStopPixel(data, i, textureWidth, distances, colors);
      forall j | 0 <= j < i
        ensures StopPixel(data[..], j, textureWidth, distances, colors)
      {
        StopPixelKept(data[..], before, i, j, textureWidth, distances, colors);
      }
    }
  }

  /** The colour-stop part of `gradientSetShaderArguments`: sorts the
      gradient's stops, pads them to span 0 to 1 and uploads them. Row 0
      of the texture then starts with grey level 0 and ends with 255, the
      two ends of the gradient. */
  method GradientStopTexture(gradient: Gradient, current: Option<TextureSize>)
    returns (texture: TextureSize, data: array<int>, colorStops: seq<ColorStop>)
    requires gradient.Valid()
    requires |gradient.stops| >= 1
    requires forall c :: c in gradient.stops ==> UnitStop(c)
    modifies gradient
    ensures !old(gradient.stopsSorted) ==> colorStops == Normalized(StableSorted(old(gradient.stops)))
    ensures old(gradient.stopsSorted) ==> colorStops == Normalized(old(gradient.stops))
    ensures texture == StopTexture(current, |colorStops|)
    ensures fresh(data) && data.Length == TextureHeight * PixelDataSize * |colorStops|
    ensures data[0] == 0 && data[PixelDataSize * (|colorStops| - 1)] == 255
  {
    var stops := gradient.GetStops();
    SortedStopsAreUnit(old(gradient.stops));
    colorStops := NormalizeStops(stops);
    NormalizedSpansUnitRange(stops);
    NormalizedStopsAreUnit(stops);
    texture, data := UploadStops(current, colorStops);
  }

  /** Spreading stops that run from offset 0 to offset 1 into the arrays and
      then the texture: row 0 starts at grey level 0 and ends at 255. */
  method UploadStops(current: Option<TextureSize>, colorStops: seq<ColorStop>)
    returns (texture: TextureSize, data: array<int>)
    requires |colorStops| >= 2 && colorStops[0].stop == 0.0 && colorStops[|colorStops| - 1].stop == 1.0
    requires forall c :: c in colorStops ==> UnitStop(c)
    ensures texture == StopTexture(current, |colorStops|)
    ensures fresh(data) && data.Length == TextureHeight * PixelDataSize * |colorStops|
    ensures data[0] == 0 && data[PixelDataSize * (|colorStops| - 1)] == 255
  {
    var distances, colors := FillStopArrays(colorStops);
    StopArraysInUnitRange(colorStops, distances[..], colors[..]);
    texture, data := PrepareStopPointInfoTexture(current, distances[..], colors[..]);
    assert StopPixel(data[..], 0, |colorStops|, distances[..], colors[..]);
    assert StopPixel(data[..], |colorStops| - 1, |colorStops|, distances[..], colors[..]);
  }

  /** The arrays filled from stops in range have components in range. */
  lemma StopArraysInUnitRange(colorStops: seq<ColorStop>, distances: seq<real>, colors: seq<real>)
    requires forall c :: c in colorStops ==> UnitStop(c)
    requires |distances| == |colorStops| && |colors| == 4 * |colorStops|
    requires forall i :: 0 <= i < |colorStops| ==> distances[i] == colorStops[i].stop
    requires forall i :: 0 <= i < |colorStops| ==>
      colors[4 * i] == colorStops[i].red && colors[4 * i + 1] == colorStops[i].green &&
      colors[4 * i + 2] == colorStops[i].blue && colors[4 * i + 3] == colorStops[i].alpha
    ensures UnitComponents(distances, colors)
  {
    forall k | 0 <= k < |colors|
      ensures 0.0 <= colors[k] <= 1.0
    {
      var i := k / 4;
      assert UnitStop(colorStops[i]);
      assert k == 4 * i || k == 4 * i + 1 || k == 4 * i + 2 || k == 4 * i + 3;
    }
    forall i | 0 <= i < |distances|
      ensures 0.0 <= distances[i] <= 1.0
    {
      assert UnitStop(colorStops[i]);
    }
  }

  /** Offsets and colour components all in [0, 1]. */
  predicate UnitStop(c: ColorStop)
  {
    0.0 <= c.stop <= 1.0 && 0.0 <= c.red <= 1.0 && 0.0 <= c.green <= 1.0 &&
    0.0 <= c.blue <= 1.0 && 0.0 <= c.alpha <= 1.0
  }

  /** Padding only copies colours and adds the offsets 0 and 1. */
  lemma NormalizedStopsAreUnit(stops: seq<ColorStop>)
    requires |stops| >= 1 && forall c :: c in stops ==> UnitStop(c)
    ensures forall c :: c in Normalized(stops) ==> UnitStop(c)
  {
    assert UnitStop(stops[0]);
    var front := if stops[0].stop != 0.0 then [StopAt(0.0, stops[0])] + stops else stops;
    assert forall c :: c in front ==> UnitStop(c);
    assert UnitStop(front[|front| - 1]);
  }

  /** Sorting keeps the stops, so it keeps them all in range. */
  lemma SortedStopsAreUnit(s: seq<ColorStop>)
    requires forall c :: c in s ==> UnitStop(c)
    ensures forall c :: c in StableSorted(s) ==> UnitStop(c)
  {
    StableSortedIsStableSort(s);
    forall c | c in StableSorted(s)
      ensures UnitStop(c)
    {
      assert c in multiset(StableSorted(s));
    }
  }
}
