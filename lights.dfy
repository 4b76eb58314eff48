/** The light system's host-side state: canvas and tile grid dimensions, the
    light array it fills and uploads, the per-tile compute output it zeroes,
    the uniform record it hands to the clustering pass, and the sizes of the
    two compute dispatches it encodes. */
module Lights {
  import opened TileGrid
  import opened TypedArrays
  import opened LightLayout

  /** Tile extent in pixels, on both axes, as the fields are initialised. */
  const DefaultPixelDim: nat := 128
  /** Entries of the uniform record `[canvasWidth, canvasHeight, pixelDimX, pixelDimY]`. */
  const NumUniforms: nat := 4

  /** The uniform record as it reads back from its `Int32Array`. */
  function UniformRecord(canvasWidth: nat, canvasHeight: nat, pixelDimX: nat, pixelDimY: nat): (u: seq<int>)
    ensures |u| == NumUniforms
    ensures canvasWidth < TwoTo31 && canvasHeight < TwoTo31 && pixelDimX < TwoTo31 && pixelDimY < TwoTo31
            ==> u == [canvasWidth, canvasHeight, pixelDimX, pixelDimY]
  {
    [ToInt32(canvasWidth), ToInt32(canvasHeight), ToInt32(pixelDimX), ToInt32(pixelDimY)]
  }

  class Lights {
    var numLights: nat
    var pixelDimX: nat
    var pixelDimY: nat
    var tileGridDimX: nat
    var tileGridDimY: nat
    var canvasWidth: nat
    var canvasHeight: nat
    /** Host copy of the light records, uploaded at byte 16 of the storage buffer. */
    var lightsArray: array<real>
    /** Contents of the compute output buffer: one 32-bit entry per tile. */
    var computeOutput: array<int>
    /** Contents of the uniform buffer read by the clustering pass. */
    var additionalUniforms: array<int>

    /** The grid is the ceiling of the canvas over the tile extent on each
        axis, and every buffer has the size the layout fixes. */
    ghost predicate Valid()
      reads this
    {
      pixelDimX > 0 && pixelDimY > 0 &&
      tileGridDimX == CeilDiv(canvasWidth, pixelDimX) &&
      tileGridDimY == CeilDiv(canvasHeight, pixelDimY) &&
      lightsArray.Length == LightsArrayLength &&
      computeOutput.Length == tileGridDimX * tileGridDimY &&
      additionalUniforms.Length == NumUniforms &&
      computeOutput != additionalUniforms
    }

    /** Builds the light system for a canvas of the given pixel size; `colors`
        stands for the random colour drawn for each light record. */
    constructor (width: nat, height: nat, colors: seq<Rgb>)
      requires |colors| == MaxNumLights
      ensures Valid()
      ensures fresh(lightsArray) && fresh(computeOutput) && fresh(additionalUniforms)
      ensures numLights == DefaultNumLights
      ensures canvasWidth == width && canvasHeight == height
      ensures pixelDimX == DefaultPixelDim && pixelDimY == DefaultPixelDim
      ensures lightsArray[..] == FillColors(seq(LightsArrayLength, _ => 0.0), colors, MaxNumLights)
      ensures forall k :: 0 <= k < computeOutput.Length ==> computeOutput[k] == 0
      ensures additionalUniforms[..] == UniformRecord(width, height, DefaultPixelDim, DefaultPixelDim)
    {
      numLights := DefaultNumLights;
      pixelDimX, pixelDimY := DefaultPixelDim, DefaultPixelDim;
      canvasWidth, canvasHeight := width, height;
      tileGridDimX := CeilDiv(width, DefaultPixelDim);
      tileGridDimY := CeilDiv(height, DefaultPixelDim);
      lightsArray := new real[LightsArrayLength](_ => 0.0);
      additionalUniforms := new int[NumUniforms];
      computeOutput := new int[CeilDiv(width, DefaultPixelDim) * CeilDiv(height, DefaultPixelDim)](_ => 0);
      new;
      assert lightsArray[..] == seq(LightsArrayLength, _ => 0.0);
      var _ := PopulateLightsBuffer(colors);
      var _, _ := UpdateLightSetUniformNumLights();
      WriteAdditionalUniforms();
    }

    /** Fills the uniform record one `Int32Array` element at a time. */
    method WriteAdditionalUniforms()
      requires Valid()
      modifies additionalUniforms
      ensures Valid()
      ensures additionalUniforms[..] == UniformRecord(canvasWidth, canvasHeight, pixelDimX, pixelDimY)
    {
      additionalUniforms[0] := ToInt32(canvasWidth);
      additionalUniforms[1] := ToInt32(canvasHeight);
      additionalUniforms[2] := ToInt32(pixelDimX);
      additionalUniforms[3] := ToInt32(pixelDimY);
    }

    /** Writes every light record's colour into the light array in place and
        returns the byte offset at which the array is uploaded. Only colour
        slots change; positions and padding keep their values. */
    method PopulateLightsBuffer(colors: seq<Rgb>) returns (byteOffset: nat)
      requires Valid() && |colors| == MaxNumLights
      modifies lightsArray
      ensures Valid()
      ensures lightsArray[..] == FillColors(old(lightsArray[..]), colors, MaxNumLights)
      ensures forall i, j :: 0 <= i < MaxNumLights && 0 <= j < ColorChannels ==>
        lightsArray[ColorSlot(i, j)] == Channel(colors[i], j)
      ensures forall k :: 0 <= k < lightsArray.Length && !IsColorSlot(k, MaxNumLights) ==>
        lightsArray[k] == old(lightsArray[k])
      ensures byteOffset == HeaderBytes && byteOffset + BytesPerWord * lightsArray.Length == LightSetBufferBytes
    {
      ghost var before := lightsArray[..];
      var lightIdx := 0;
      while lightIdx < MaxNumLights
        invariant 0 <= lightIdx <= MaxNumLights
        invariant lightsArray[..] == FillColors(before, colors, lightIdx)
      {
        var c := colors[lightIdx];
        var base := lightIdx * NumFloatsPerLight + ColorOffset;
        lightsArray[base] := c.r;
        lightsArray[base + 1] := c.g;
        lightsArray[base + 2] := c.b;
        lightIdx := lightIdx + 1;
      }
      forall i, j | 0 <= i < MaxNumLights && 0 <= j < ColorChannels
        ensures lightsArray[ColorSlot(i, j)] == Channel(colors[i], j)
      {
        FillColorsAt(before, colors, MaxNumLights, ColorSlot(i, j));
      }
      forall k | 0 <= k < lightsArray.Length && !IsColorSlot(k, MaxNumLights)
        ensures lightsArray[k] == before[k]
      {
        FillColorsAt(before, colors, MaxNumLights, k);
      }
      byteOffset := HeaderBytes;
    }

    /** The upload of the active light count: one unsigned 32-bit word at byte
        0, inside the header and so clear of the light array. */
    method UpdateLightSetUniformNumLights() returns (byteOffset: nat, words: seq<nat>)
      ensures byteOffset == 0 && words == [ToUint32(numLights)]
      ensures byteOffset + BytesPerWord * |words| <= HeaderBytes
      ensures numLights < TwoTo32 ==> words[0] == numLights
    {
      byteOffset := 0;
      words := [ToUint32(numLights)];
    }

    /** Size of the clustering dispatch: one workgroup per tile, so as many
        workgroups as the compute output has entries. */
    method DoLightClustering() returns (x: nat, y: nat, z: nat)
      requires Valid()
      ensures x * y * z == computeOutput.Length
      ensures x == tileGridDimX * tileGridDimY && y == 1 && z == 1
    {
      x, y, z := tileGridDimX * tileGridDimY, 1, 1;
    }

    /** Size of the light-movement dispatch for a workgroup size of
        `workgroupSize`: enough workgroups for every active light, and not one more. */
    method OnFrame(workgroupSize: nat) returns (workgroupCount: nat)
      requires workgroupSize > 0
      ensures workgroupCount * workgroupSize >= numLights
      ensures (workgroupCount - 1) * workgroupSize < numLights
      ensures forall l :: 0 <= l < numLights ==> l / workgroupSize < workgroupCount
    {
      WorkgroupCountIsCeilDiv(numLights, workgroupSize);
      workgroupCount := WorkgroupCount(numLights, workgroupSize);
      forall l | 0 <= l < numLights
        ensures l / workgroupSize < workgroupCount
      {
        ItemInBlock(l, numLights, workgroupSize);
      }
    }
  }
}
