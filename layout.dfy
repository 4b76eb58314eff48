/** Layout of the light set as the host builds it: a fixed-capacity array of
    8-float light records (position in floats 0..3, colour in floats 4..6,
    padding in float 7), uploaded behind a 16-byte header whose first word is
    the active light count. */
module LightLayout {

  /** Capacity of the light array, in lights. */
  const MaxNumLights: nat := 5000
  /** Floats per light record; a vec3f is aligned at 16 bytes, so position
      and colour each take four floats. */
  const NumFloatsPerLight: nat := 8
  /** Offset of the colour within a record. */
  const ColorOffset: nat := 4
  /** Floats the colour fill writes per light. */
  const ColorChannels: nat := 3
  /** Initial number of active lights. */
  const DefaultNumLights: nat := 500

  /** Length of the host light array, in floats. */
  const LightsArrayLength: nat := MaxNumLights * NumFloatsPerLight
  /** Size of a float or of a 32-bit integer, in bytes. */
  const BytesPerWord: nat := 4
  /** Bytes before the light array in the storage buffer: the light count and padding. */
  const HeaderBytes: nat := 16
  /** Size of the light-set storage buffer, in bytes. */
  const LightSetBufferBytes: nat := HeaderBytes + BytesPerWord * LightsArrayLength

  /** A light colour, taken as an opaque input. */
  datatype Rgb = Rgb(r: real, g: real, b: real)

  /** Channel `j` of a colour, in the order the fill writes them. */
  function Channel(c: Rgb, j: nat): real
    requires j < ColorChannels
  {
    if j == 0 then c.r else if j == 1 then c.g else c.b
  }

  /** Whether float `k` of the light array is a colour slot of one of the first `n` lights. */
  predicate IsColorSlot(k: nat, n: nat)
  {
    k / NumFloatsPerLight < n && ColorOffset <= k % NumFloatsPerLight < ColorOffset + ColorChannels
  }

  /** Index in the light array of channel `j` of light `i`'s colour: in bounds,
      inside light `i`'s own record, at the colour offset. */
  function ColorSlot(i: nat, j: nat): (k: nat)
    requires i < MaxNumLights && j < ColorChannels
    ensures k < LightsArrayLength
    ensures k / NumFloatsPerLight == i && k % NumFloatsPerLight == ColorOffset + j
  {
    i * NumFloatsPerLight + ColorOffset + j
  }

  /** Because the stride covers the colour offset plus the colour, colour slots
      of distinct lights, or of distinct channels, never coincide. */
  lemma ColorSlotsDisjoint(i1: nat, j1: nat, i2: nat, j2: nat)
    requires i1 < MaxNumLights && j1 < ColorChannels
    requires i2 < MaxNumLights && j2 < ColorChannels
    ensures ColorSlot(i1, j1) == ColorSlot(i2, j2) <==> i1 == i2 && j1 == j2
  {
  }

  /** Byte offset in the storage buffer of float `k` of the light array, which
      is uploaded at byte 16: past the header, inside the buffer, and `k` is
      recovered from it. */
  function FloatByteOffset(k: nat): (b: nat)
    requires k < LightsArrayLength
    ensures HeaderBytes <= b && b + BytesPerWord <= LightSetBufferBytes
    ensures (b - HeaderBytes) % BytesPerWord == 0 && (b - HeaderBytes) / BytesPerWord == k
  {
    HeaderBytes + BytesPerWord * k
  }

  /** `lightsArray.set(color, i * numFloatsPerLight + 4)`: light `i`'s colour
      written over its three colour slots, every other float kept. */
  function SetColor(s: seq<real>, i: nat, c: Rgb): (t: seq<real>)
    requires |s| == LightsArrayLength && i < MaxNumLights
    ensures |t| == |s|
    ensures forall k :: 0 <= k < |s| ==>
      t[k] == if k / NumFloatsPerLight == i && ColorOffset <= k % NumFloatsPerLight < ColorOffset + ColorChannels
              then Channel(c, k % NumFloatsPerLight - ColorOffset) else s[k]
  {
    s[ColorSlot(i, 0) := c.r][ColorSlot(i, 1) := c.g][ColorSlot(i, 2) := c.b]
  }

  /** The light array after the first `n` iterations of the colour-fill loop. */
  function FillColors(s: seq<real>, colors: seq<Rgb>, n: nat): (t: seq<real>)
    requires |s| == LightsArrayLength && n <= MaxNumLights && n <= |colors|
    ensures |t| == |s|
    decreases n
  {
    if n == 0 then s else SetColor(FillColors(s, colors, n - 1), n - 1, colors[n - 1])
  }

  /** After `n` iterations, the colour slots of lights `0 .. n-1` hold their
      colours and every other float (positions, padding, later lights) holds
      its value from before the fill. */
  lemma {:induction false} FillColorsAt(s: seq<real>, colors: seq<Rgb>, n: nat, k: nat)
    requires |s| == LightsArrayLength && n <= MaxNumLights && n <= |colors| && k < |s|
    ensures FillColors(s, colors, n)[k] ==
      if IsColorSlot(k, n) then Channel(colors[k / NumFloatsPerLight], k % NumFloatsPerLight - ColorOffset) else s[k]
  {
    if n > 0 {
      FillColorsAt(s, colors, n - 1, k);
    }
  }
}
