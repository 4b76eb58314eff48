# Light-system host bookkeeping of a Forward+ / clustered-deferred WebGPU renderer

This project models the host-side part of the renderer's `Lights` class
(`src/stage/lights.ts`) and proves properties of it. That part is:

- **The screen-space tile grid.** There are `ceil(canvas / pixelDim)` tiles per axis. The tile extent is
  128 pixels on both axes.
- **The light array.** It holds `maxNumLights = 5000` records of `numFloatsPerLight = 8` floats each. The
  position sits in floats 0..3, the colour in floats 4..6, and float 7 is padding. The colour fill writes
  every record's colour in place. The array is uploaded at byte 16 of the light-set storage buffer. The
  first word of the buffer is the active light count.
- **The compute output buffer.** It has one zeroed 32-bit entry per tile.
- **The uniform record** `[canvasWidth, canvasHeight, pixelDimX, pixelDimY]`. It is stored in an
  `Int32Array(4)`.
- **The sizes of the two compute dispatches.** The clustering pass gets one workgroup per tile. The
  light-movement pass gets `Math.ceil(numLights / workgroupSize)` workgroups.

Files:

- `grid.dfy` (module `TileGrid`) holds the integer ceiling division, the coverage lemmas for the tile grid
  and for the light dispatch, and `Math.ceil` over an exact quotient.
- `typed_arrays.dfy` (module `TypedArrays`) holds the modulo-2^32 conversions that `Int32Array` and
  `Uint32Array` stores apply.
- `layout.dfy` (module `LightLayout`) holds the constants, the record layout, the byte offsets in the
  storage buffer, and the colour fill as functions on sequences.
- `lights.dfy` (module `Lights`) holds the `Lights` class. It has the source's fields, the light array and
  the buffer contents as arrays, and methods for the constructor, `populateLightsBuffer`,
  `updateLightSetUniformNumLights`, `doLightClustering` and `onFrame`.

Notes:

- The canvas width and height are constructor parameters, as natural numbers. The source reads them from
  the DOM and multiplies by `devicePixelRatio`.
- The light colours are an input sequence with one colour per record. The source draws them from
  `Math.random` through `hueToRgb`.
- The light-movement workgroup size is defined in the shader sources, which are not part of this model. It
  is a positive parameter of `OnFrame`.
- The comment above the uniform record (lights.ts:126) calls it "grid dim". The code stores `pixelDimX` and
  `pixelDimY` there, and the model follows the code.
- The colour fill covers all `maxNumLights` records, whatever `numLights` is.
- Nothing bounds `numLights` by `maxNumLights`, and the model does not add that bound.

## Model

| member | source | states |
|---|---|---|
| `TileGrid.CeilDiv` | src/stage/lights.ts:58-59 | `floor((n + d - 1) / d)` blocks of extent `d` cover `n` (`r*d >= n`), and one block fewer does not (`(r-1)*d < n`); for the tile grid: `tileGridDim*pixelDim >= canvas` and `(tileGridDim-1)*pixelDim < canvas` |
| `TileGrid.CeilDivIsLeast` | src/stage/lights.ts:58-59 | every count `k` with `k*d >= n` is at least `CeilDiv(n, d)`: the grid has the fewest tiles that cover the canvas |
| `TileGrid.CeilDivUnique` | src/stage/lights.ts:58-59 | any `k` with `k*d >= n` and `(k-1)*d < n` equals `CeilDiv(n, d)` (the ceiling is characterised by the two covering bounds) |
| `TileGrid.BlockInRange` | src/stage/lights.ts:58-59 | tile `t` of an axis exists iff it starts inside the canvas (`t < tileGridDim <==> t*pixelDim < canvas`): no tile lies wholly outside and none is missing |
| `TileGrid.ItemInBlock` | src/stage/lights.ts:58-59 | every pixel `x < canvas` lies in tile `x / pixelDim`, which is inside the grid and whose pixel span contains `x`: the grid covers the canvas with no gap |
| `TileGrid.BlockUnique` | src/stage/lights.ts:58-59 | a pixel `x` lies in the span `[t*pixelDim, (t+1)*pixelDim)` of tile `t` only when `t == x / pixelDim`: no two tiles overlap |
| `TileGrid.MathCeil` | src/stage/lights.ts:240 | `Math.ceil(q)` is the integer `r` with `q <= r < q + 1` |
| `TileGrid.WorkgroupCountIsCeilDiv` | src/stage/lights.ts:240 | `Math.ceil(numLights / workgroupSize)` equals `CeilDiv(numLights, workgroupSize)`, the same ceiling the tile grid uses |
| `TileGrid.EveryLightInvoked` | src/stage/lights.ts:240 | every light index `l < numLights` falls in workgroup `l / workgroupSize`, which is dispatched |
| `TypedArrays.ToUint32` | src/stage/lights.ts:198 | the stored count is below 2^32, congruent to `numLights` modulo 2^32, and equal to it when it fits |
| `TypedArrays.ToInt32` | src/stage/lights.ts:132-135 | a stored uniform lies in `[-2^31, 2^31)`, is congruent to the value modulo 2^32, and equals it when it is below 2^31 |
| `LightLayout.ColorSlot` | src/stage/lights.ts:188-191 | the colour index `8i + 4 + j` of light `i < 5000`, channel `j < 3`, is below 40000, lies in record `i` (`k / 8 == i`), and sits at slot `4 + j` of that record |
| `LightLayout.ColorSlotsDisjoint` | src/stage/lights.ts:187-191 | two colour writes land on the same index iff they are for the same light and the same channel: records of distinct lights never overlap |
| `LightLayout.FloatByteOffset` | src/stage/lights.ts:194 | float `k` of the light array, uploaded at byte 16, lands past the 16-byte header, ends inside the `16 + byteLength` buffer (lights.ts:65), and `k` is recovered from its byte offset |
| `LightLayout.SetColor` | src/stage/lights.ts:191 | `lightsArray.set(color, 8i + 4)` changes exactly the three colour slots of record `i`, to the colour's channels, and keeps every other float |
| `LightLayout.FillColors` | src/stage/lights.ts:188-192 | the light array after `n` loop iterations keeps its length |
| `LightLayout.FillColorsAt` | src/stage/lights.ts:188-192 | after `n` iterations, float `k` holds channel `k % 8 - 4` of light `k / 8` when `k` is a colour slot of a light below `n`, and its previous value otherwise (positions, padding, lights not yet reached) |
| `Lights.UniformRecord` | src/stage/lights.ts:125-136 | the uniform record has 4 entries, and reads back as `[canvasWidth, canvasHeight, pixelDimX, pixelDimY]` when each is below 2^31 |
| `Lights.Lights.constructor` | src/stage/lights.ts:50-185 | the grid is `ceil(canvas/128)` per axis. The light array is 40000 floats, zero except the filled colours. The compute output has `tileGridDimX*tileGridDimY` entries, all zero. The uniform record holds the canvas size and the tile pixel extent (`pixelDimX`, `pixelDimY`). `numLights` is 500 |
| `Lights.Lights.PopulateLightsBuffer` | src/stage/lights.ts:187-195 | the array becomes `FillColors` of its old contents over all 5000 lights. Every colour slot holds its light's colour, and every other float keeps its value. The upload goes at byte 16 and ends at the buffer's end |
| `Lights.Lights.WriteAdditionalUniforms` | src/stage/lights.ts:132-135 | the uniform array holds `UniformRecord(canvasWidth, canvasHeight, pixelDimX, pixelDimY)` |
| `Lights.Lights.UpdateLightSetUniformNumLights` | src/stage/lights.ts:197-199 | the count goes as one u32 word at byte 0. It lies inside the 16-byte header, clear of the light array, and equals `numLights` when below 2^32 |
| `Lights.Lights.DoLightClustering` | src/stage/lights.ts:201-226 | the clustering dispatch is `(tileGridDimX*tileGridDimY, 1, 1)`: one workgroup per tile, with as many workgroups as the compute output has entries |
| `Lights.Lights.OnFrame` | src/stage/lights.ts:229-246 | the move-lights workgroup count satisfies `count*size >= numLights` and `(count-1)*size < numLights`. Every light index has its workgroup |

## Left out

- `hueToRgb` and the colour scaling by `lightIntensity` (lights.ts:8-11, 190) are floating-point numerics fed by `Math.random`; colours are an input sequence.
- JavaScript numbers are float64. The divisions at lights.ts:58-59 and lights.ts:240 are modelled as exact, which they are while the operands stay below 2^53. `numLights` and the canvas size are unbounded naturals in the model.
- Rounding to 32-bit floats when colours are stored into the `Float32Array` is not modelled; the light array holds reals.
- Light positions are written only by the light-movement shader, which is not part of this model; the model only shows that the host never touches them.
- The DOM canvas lookup and `devicePixelRatio` (lights.ts:51-55): the canvas size is a natural-number parameter. `floor((w + p - 1) / p)` is a ceiling only for integer `w`.
- Viewport resize: the source does not recompute the grid or the output buffer (TODO at lights.ts:56), so neither does the model.
- All GPU calls — `createBuffer`, `createBindGroup(Layout)`, `createComputePipeline`, `createShaderModule`, `writeBuffer`, command encoders, `submit` — are foreign calls; the model keeps the host-side contents and the byte offsets and dispatch sizes passed to them.
- The time uniform upload in `onFrame` (lights.ts:230) is a foreign `writeBuffer` of one float and is not modelled.
- The clustering and light-movement compute shaders (`clusteringComputeSrc`, `moveLightsComputeSrc`) are not part of this model; no intersection test or per-tile capacity is modelled.
- A `RangeError` from allocating an `Int32Array` whose length exceeds the engine's limit (a huge canvas) is not modelled.
- `src/renderers/forward_plus.ts` and `src/renderers/clustered_deferred.ts` only create GPU resources and encode passes; they are not part of this model.
