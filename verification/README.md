# ps5vk in Dafny

A Dafny model of the logic at the core of ps5vk, a Vulkan driver for the PS5, with proofs that it
holds together. The driver itself is C; every operation here is modelled branch for branch, with
its own constants. Operations on state are proved equal to step functions on values, and what the
driver promises is proved of those functions, over every input, every run or every interleaving.

`dafny verify dfyconfig.toml` checks the whole project.

## What is modelled

**Texel addresses** (`Arithmetic`, `Words`, `TileMaps`, `TileGrid`, `TilePlaces`, `CopySides`,
`TileTurns`, `Images`, `ImageSizes`, `MipChains`, `LayeredImages`, `RowImages`, `MapLimits`,
`SamplePlanes`, `FourSamples`, `FourSampleStorages`). A texel's address is a tile's place in a
row-major grid plus an XOR of shifted and masked coordinate bits inside a 64 KiB tile, sometimes
turned by the tile's place in the grid; `TileTurns` says in plain terms what that turn does to a
tile's addresses, for every map. Each of the nine maps has an explicit inverse, so each is
one-to-one onto its tile; from that, no two texels or samples of an image share a byte and none lies
outside the size the driver computes. The levels of a measured mip chain that share one tile are told
apart by bits their texels leave zero. `MapLimits`, `FourSamples` and `FourSampleStorages` state
exactly where the maps stop being one-to-one, and where their samples leave the image.

**Recording** (`Streams`, `Recordings`, `RecordingRuns`, `DrawsSeen`, `CommandBuffers`,
`Submissions`, `SimpleRecorder`, `RecordedSessions`, `RegisterTables`, `TableChunks`). A command buffer is a list of GPU packets and a list
of CPU records that name their place among the packets. `Streams` gives the GPU a state (primitive
restart, depth control, what is rendered but not yet in memory) and says when a stream runs right.
`RecordingRuns` proves it of every recording, `Submissions` of every list of command buffers,
with the exact condition under which an image rendered in one and sampled in a later one is in
memory. `SimpleRecorder` is a second recorder, on sets of images and the GPU's own state, that
records the same stream item for item; of a stream, what an application asks for by name is exactly
what its commands asked for, through the queue's replay and whole submissions too.
`RegisterTables` fills a draw's register table in place; `TableChunks` is the memory such
tables come from.

**Shader cache** (`ShaderFiles`, `ShaderCaches`, `EntryWrites`). The file format, with what a load
believes, the interleavings of stores, loads, the writer thread and flushes, and those of several
writes of one entry.

**Sync objects** (`Syncs`, `SyncMoves`). The interleavings of signals, resets, moves, waits and GPU
progress: flags tell the truth, no signal is lost or doubled, and a wait sees the last one.

**Direct memory** (`Regions`, `DirectMappings`). The region bitmap, on real 64-bit words, and the
create and destroy protocol with any kernel answers.

**Descriptors** (`DescriptorLayouts`, `DescriptorSets`, `DescriptorPools`, `PoolSets`), **SPIR-V scans**
(`Spirv`) and **the census** (`Census`).

Operations that work step by step in the C code are methods and classes here, and each is tied by its
`ensures` to a function on values; the properties are lemmas about those functions. Concurrent code is
a state machine whose steps are the code's locked sections and file operations.

## What the proofs found

Each of these is a lemma with the input that shows it, and the exact condition for the property.

- A depth image of a measured multi-level shape has texels that share bytes: the depth map never reads
  the level's origin, so the smallest levels meet. Such an image keeps its texels apart exactly when it
  has one level (`MapLimits.DepthTailsMeet`, `MapLimits.DepthChainExact`). Uploads, readbacks and
  clears work on such sides; copies and blits refuse them first (driver/ps5vk_image.c:2372-2374).
- Four-sample colour sides of eight- and sixteen-byte texels are accepted but can put samples of
  different texels in the same bytes. An image of four-byte texels never does; one of eight-byte texels
  w wide and h high keeps its samples apart exactly when w <= 16, or h <= 16 and w <= 128; one of
  sixteen-byte texels exactly when w <= 8 and h <= 64, or h <= 8 and w <= 32
  (`FourSamples.FourSampleExact`, with the samples that meet). Their last samples can also leave the
  image's tiles (`FourSampleStorages.EightByteSampleLeaves`), and its storage when the tiles fill it
  (`FourSampleStorages.EightByteSampleLeavesStorage`); `FourSampleStorages.FourSampleStorageExact` says
  exactly when. The clear on the CPU (3090-3116) works on such sides. Copies and blits refuse
  multi-sample colour images (2407-2413), the resolve on the CPU takes four-byte texels only
  (2573-2575), and Vulkan allows readbacks of single-sample images only.
- The barrier the queue puts between command buffers looks only at neighbours: with a buffer without
  targets in between, a sample can run before the image it reads is in memory
  (`Submissions.GapLosesBarrier`, `Submissions.SubmissionSamplesExact`,
  `Submissions.SubmissionSamplesUnrolled`).
- The pool's check of a layout's descriptors looks at each binding alone, so two bindings of one type
  can wrap a counter (`DescriptorPools.TwoBindingsWrap`, `DescriptorPools.AddedExactly`).
- The scan for declared bindings has 32 slots. A module whose ids carry distinct pairs of bytes has all
  of them reported exactly when it decorates at most 32 ids; with 33 a stage loses a binding it declares
  (`Spirv.OneTooMany`, `Spirv.ReportedExactly`), and a value of 256 or more is reported as another
  (`Spirv.WideValueAliases`).
- Writes of one cache entry share a temporary name. A reader never sees a partial entry exactly when
  they are made one at a time, as the writer thread makes them; two stores that find no thread can put
  an emptied file in place (`EntryWrites.TwoAtOnce`, `EntryWrites.WholeExactly`).
- A failed mapping restores everything but the test switch's next address, which stays moved exactly
  when it had been asked for already (`DirectMappings.FailedCreateMovesNext`,
  `DirectMappings.FailedCreateRestores`).

## Model

| member | source | states |
|---|---|---|
| TileMaps.WalkTable | driver/ps5vk_image.c:1981-1985 | the loop over a term table computes the XOR of its shifted, masked coordinates |
| TileMaps.WalkDepthMasks | driver/ps5vk_image.c:2053-2062 | the loop over the seven coordinate bits computes the four-byte depth map |
| TileMaps.Colour1OneToOne | driver/ps5vk_image.c:1886-1890 | the one-byte colour map is a bijection between a 256x256 tile's texels and its bytes, with its inverse |
| TileMaps.Colour2OneToOne | driver/ps5vk_image.c:1909-1913 | the two-byte colour map is a bijection onto a 256x128 tile's aligned slots |
| TileMaps.Colour4OneToOne | driver/ps5vk_image.c:1878-1881 | the four-byte colour map is a bijection onto a 128x128 tile's aligned slots |
| TileMaps.Colour8OneToOne | driver/ps5vk_image.c:1896-1899 | the eight-byte colour map is a bijection onto a 128x64 tile's aligned slots |
| TileMaps.Colour16OneToOne | driver/ps5vk_image.c:1904-1907 | the sixteen-byte colour map is a bijection onto a 64x64 tile's aligned slots |
| TileMaps.Depth4OneToOne | driver/ps5vk_image.c:2053-2062 | the four-byte depth map is a bijection onto a 128x128 tile's aligned slots |
| TileMaps.Depth2OneToOne | driver/ps5vk_image.c:1997-2002 | the two-byte depth map is a bijection onto a 256x128 tile's aligned slots |
| TileMaps.StencilOneToOne | driver/ps5vk_image.c:2010-2014 | the stencil map is a bijection between a 256x256 tile's texels and its bytes |
| TileMaps.Depth4xOneToOne | driver/ps5vk_image.c:2084-2087 | the four-sample depth map is a bijection onto a 64x64 tile's sixteen-byte slots |
| TilePlaces.WalkSwizzle | driver/ps5vk_image.c:1951-1991 | the table walk with its parity twists computes the swizzled position |
| TilePlaces.UnrolledSwizzle | driver/ps5vk_image.c:1941-1949 | the unrolled RGBA8 path computes the same position as the table walk |
| TilePlaces.TiledTexelOffset | driver/ps5vk_image.c:1933-1991 | whichever path is taken, a texel's tile and swizzled position are the grid's and the map's |
| TilePlaces.WalkDepth | driver/ps5vk_image.c:2024-2065 | the depth walk of an element size computes that size's depth map |
| TilePlaces.WalkDepth4x | driver/ps5vk_image.c:2095-2116 | the four-sample depth walk computes its map with the tile's twist |
| TilePlaces.ColourGridPlace | driver/ps5vk_image.c:1951-1991 | twisted and shifted by any origin, every one-sample colour map is still one-to-one in every tile |
| TilePlaces.Colour4xGridPlace | driver/ps5vk_image.c:2067-2075 | texels and samples of a four-sample four-byte tile have positions of their own in four planes |
| TilePlaces.Depth4xGridPlace | driver/ps5vk_image.c:2095-2116 | the four-sample depth map stays one-to-one under every tile's twist |
| TileGrid.TileFilled | driver/ps5vk_image.c:888-914 | at every element size and sample count a tile is square or twice as wide as high, and its samples fill exactly 64 KiB |
| TileGrid.TexelsApart | driver/ps5vk_image.c:1987-1991 | a one-to-one tile map over a row-major grid keeps the elements of a level of any width apart |
| TileGrid.TexelInside | driver/ps5vk_image.c:1987-1991 | and keeps them inside the grid's tiles, for a level of any height |
| CopySides.ComputeAddress | driver/ps5vk_image.c:2225-2258 | the address the table loops and the tile arithmetic arrive at is the side's, for colour, depth, four-sample depth and rows |
| CopySides.SideTexelsApart | driver/ps5vk_image.c:2225-2258 | no two texels or samples of a mapped side share a byte, whatever the level's width |
| CopySides.SideTexelInside | driver/ps5vk_image.c:2225-2258 | every texel and sample of a mapped side lies in the side's tile grid |
| TileTurns.PlainAddress | driver/ps5vk_image.c:1951-1991 | a one-sample colour texel of one, two or four bytes lies at its table's place in every tile |
| TileTurns.EightByteAddress | driver/ps5vk_image.c:1951-1991 | one of eight bytes lies at its table's place with address bit 11 flipped in odd rows of tiles, and in no other way |
| TileTurns.SixteenByteAddress | driver/ps5vk_image.c:1951-1991 | one of sixteen bytes lies where the table puts the texel half a tile across in odd rows of tiles, and half a tile down in odd columns |
| TileTurns.FourSampleAddress | driver/ps5vk_image.c:2065-2075 | a sample of a four-sample texel lies so in both directions, on its own tiles, in the 0x4000-byte plane of its number |
| TileTurns.DepthPlainAddress | driver/ps5vk_image.c:2024-2065 | a one-sample depth or stencil texel lies at its table's place in every tile, whatever the origin |
| TileTurns.FourSampleDepthAddress | driver/ps5vk_image.c:2095-2116 | a four-sample depth sample lies four bytes after the one before, at the table's place with the address bits flipped that an odd column and each of four rows of tiles say |
| Images.SumTiles | driver/ps5vk_image.c:1117-1122 | the loop over levels sums their tiles' bytes |
| Images.FindChain | driver/ps5vk_image.c:976-990 | the loop over the chain table finds the first entry of the image's shape |
| Images.ComputeStorage | driver/ps5vk_image.c:1091-1159 | the size, alignment and stencil offset are those of the layers' tiles, or rows, and the stencil plane after them |
| Images.PlanesFit | driver/ps5vk_image.c:1070-1089 | the stencil plane starts exactly where the depth tiles end, and the image's size covers both planes |
| ImageSizes.TiledWhen | driver/ps5vk_image.c:1091-1112 | an image is tiled if and only if it is an attachment, has stencil, or is a single-level colour image the diagnostic switch tiles |
| ImageSizes.LevelExtentMeans | driver/ps5vk_image.c:1118-1119 | a level's extent is the image's over 2^level, rounded down, at least one |
| ImageSizes.RowExtentMeans | driver/ps5vk_image.c:1149-1151 | in rows it is rounded up |
| ImageSizes.LevelTakesTiles | driver/ps5vk_image.c:1117-1122 | a level takes as many 64 KiB tiles as cover it |
| ImageSizes.TiledSize | driver/ps5vk_image.c:1117-1138 | a tiled image is its layers' tiles, or slices of the measured chain, rounded up to 2 MiB by less than 2 MiB |
| ImageSizes.StencilSize | driver/ps5vk_image.c:1070-1089 | with stencil, the plane follows at the next 64 KiB and the whole is rounded up to 2 MiB |
| ImageSizes.RowsTake | driver/ps5vk_image.c:1149-1153 | a row is its texels rounded up to 256 bytes, and a level as many rows as it is high |
| ImageSizes.RowSize | driver/ps5vk_image.c:1149-1158 | an image in rows is its levels' rows for each layer and sample, and no more |
| Images.ColourExtent | driver/ps5vk_image.c:888-914 | the computed tile of a single-sample colour element is the one its swizzle table is one-to-one on |
| Images.DepthExtent | driver/ps5vk_image.c:888-914 | and so are the tiles of the depth and stencil elements |
| Images.TexelInPlane | driver/ps5vk_image.c:1600-1623 | depth and colour texels lie in the layer's tiles, stencil texels in the plane after them |
| Images.ImageTexelsApart | driver/ps5vk_image.c:2225-2258 | no two texels or samples of a single-level tiled image share a byte, in one plane or across the depth and stencil planes |
| Images.ImageTexelInside | driver/ps5vk_image.c:1113-1145 | every texel and sample of a single-level tiled image lies in the size the driver computes |
| MipChains.TablePacked | driver/ps5vk_image.c:948-970 | in every entry of the chain table, the levels keep out of each other's way inside the slice |
| MipChains.TailPlace | driver/ps5vk_image.c:948-970 | a packed level's texels lie where bits 15, 14 and 11 name that level |
| MipChains.ChainTexelsApart | driver/ps5vk_image.c:1037-1053 | for every shape of the table and any layers, distinct texels of any layer and level have four bytes of their own |
| MipChains.ChainTexelInside | driver/ps5vk_image.c:1011-1034 | and all lie in the layers' slices |
| MipChains.CopySideOfChain | driver/ps5vk_image.c:2164-2186 | ps5vk_image_copy_side gives every level and layer of a table image the side those texels were placed by |
| MipChains.ChainImageSize | driver/ps5vk_image.c:1128-1138 | the image's size covers its layers' slices |
| MipChains.CopySideOfPlane | driver/ps5vk_image.c:2187-2222 | the copies of a single-level image's planes work on the sides their texels were placed by; only the two-byte depth plane has none |
| ImageSizes.NoSide | driver/ps5vk_image.c:2121-2222 | no side is given to an aspect, sample count, element size, level or layer the texel maps do not cover |
| LayeredImages.SlicesFit | driver/ps5vk_image.c:1012-1034 | a slice of a layered single-level image holds a layer's tiles and the size holds the slices, as large as that allows |
| LayeredImages.LayerBase | driver/ps5vk_image.c:994-1053 | the base of a layer's only level is its slice's start, so bases and copy sides agree; a stencil image outside the table has none past its first layer |
| LayeredImages.LayerSide | driver/ps5vk_image.c:2187-2192 | the side of a layer is that of the layer's own image, so many slices on |
| LayeredImages.LayeredTexelsApart | driver/ps5vk_image.c:1037-1053 | no two texels or samples of any layers of a single-level image share a byte, though a slice need not be whole tiles |
| LayeredImages.LayeredTexelInside | driver/ps5vk_image.c:1113-1138 | and all lie in the size the driver computes |
| MapLimits.DepthTailsMeet | driver/ps5vk_image.c:2164-2186 | in a depth image of a table shape with several levels, the first texels of the two smallest lie at one address |
| MapLimits.DepthChainExact | driver/ps5vk_image.c:2024-2065 | a depth image of a table shape keeps its texels apart if and only if it has one level |
| FourSamples.FourSampleSideOfImage | driver/ps5vk_image.c:2160-2163 | a four-sample colour image of four-, eight- or sixteen-byte texels gets a side, whose tiles are these |
| FourSamples.EightByteSamplesMeet | driver/ps5vk_image.c:2065-2075 | sample 1 of texel (16, 0) and sample 0 of texel (0, 16) of eight bytes lie at one address |
| FourSamples.SixteenByteSamplesMeet | driver/ps5vk_image.c:2065-2075 | sample 1 of texel (8, 0) and sample 0 of texel (0, 8) of sixteen bytes lie at one address |
| FourSamples.EightByteTilesMeet | driver/ps5vk_image.c:2249-2255 | sample 3 of texel (80, 0) and sample 0 of texel (128, 0), of eight bytes, lie at one byte of the third tile |
| FourSamples.SixteenByteTilesMeet | driver/ps5vk_image.c:2249-2255 | sample 2 of texel (16, 0) and sample 0 of texel (32, 0), of sixteen bytes, lie at one byte of the second tile |
| FourSamples.SixteenByteRowsMeet | driver/ps5vk_image.c:2249-2255 | in one column of tiles sample 2 of texel (0, 48) and sample 0 of texel (0, 64) lie at one byte |
| SamplePlanes.EightPlaces | driver/ps5vk_image.c:1951-1985 | which plane an eight-byte texel's position falls in, from its row and its tile's column, and what its place there tells of it |
| SamplePlanes.SixteenPlaces | driver/ps5vk_image.c:1951-1985 | the same of a sixteen-byte texel, from its row, its column and its tile's row |
| SamplePlanes.ToldApart | driver/ps5vk_image.c:2249-2255 | where the place and the tile tell the plane, no two samples share a byte, carries into the next tile included |
| FourSamples.FourSampleExact | driver/ps5vk_image.c:2249-2255 | an image of any width and height keeps its samples apart if and only if its texels have four bytes, or it is as narrow or as low as its element size allows |
| FourSampleStorages.EightByteSampleLeaves | driver/ps5vk_image.c:2249-2255 | sample 3 of texel (0, 16) of eight bytes lies past its 64 KiB tile |
| FourSampleStorages.FourSampleInsideExact | driver/ps5vk_image.c:2249-2255 | an image's samples all lie in its tiles if and only if its last tile's positions are in the first plane, or there is a tile to spare |
| FourSampleStorages.FourSampleStorageExact | driver/ps5vk_image.c:1113-1138 | they all lie in the size the driver computes if and only if they stay in the tiles or the tiles are not a multiple of 32 |
| FourSampleStorages.EightByteSampleLeavesStorage | driver/ps5vk_image.c:1113-1138 | a 2048 by 32 image of eight-byte texels has a sample past the size the driver computes |
| RowImages.LevelLayout | driver/ps5vk_image.c:920-937 | a row-layout level starts where the smaller levels end, and the next larger one where it ends |
| RowImages.LayerSlice | driver/ps5vk_image.c:1025-1033 | the loop over level layouts sums to the slice |
| RowImages.RowTexelsApart | driver/ps5vk_image.c:1674-1681 | distinct texels of any layer and level of a row image have bytes of their own |
| RowImages.RowTexelInside | driver/ps5vk_image.c:1149-1158 | and all lie in the size the driver computes |
| RowImages.RowSideOfImage | driver/ps5vk_image.c:2204-2222 | the side of a row image's copy, colour or depth, addresses the first layer's texels there, with the level's width |
| Streams.MergeRestoresOrder | driver/ps5vk_cmd_buffer.c:284-335 | records name nondecreasing places within the packets, and merging there gives back the order of recording |
| Streams.RunSteps | driver/ps5vk_queue.c:1690-1825 | the loop over steps and records does the merged stream |
| Streams.RunRecorded | driver/ps5vk_queue.c:1643-1830 | a command buffer's two arrays run in the order they were recorded |
| Streams.SeparatedBeforeSample | driver/ps5vk_draw.c:1518-1542 | in a stream that runs right, a barrier or split lies between a draw into an image and a later sample of it |
| Recordings.DirtyIsSince | driver/ps5vk_draw.c:1534-1542 | the set the model tests is the loop's: targets at or past the barrier's, or of the rendering drawn into since |
| Recordings.RegisterTracks | driver/ps5vk_query.c:90-97 | a target registered at any time keeps the index bookkeeping equal to the simple tracker |
| Recordings.BeginTracks | driver/ps5vk_draw.c:1129-1188 | so does beginning a rendering, whose targets are the tracker's pass |
| Recordings.EndTracks | driver/ps5vk_draw.c:1295-1302 | so does ending one, with the lowering of barrier_targets |
| Recordings.BarrierTracks | driver/ps5vk_draw.c:3501-3522 | so does a GPU barrier, mid-rendering or not, and the split that stands in for it |
| RecordingRuns.BarrierSuffices | driver/ps5vk_draw.c:2861-2870 | after the barrier a draw asks for, nothing it samples is unflushed |
| RecordingRuns.DrawKeeps | driver/ps5vk_draw.c:2312-2975 | a draw keeps the recorder's knowledge of the GPU's restart, depth and flush state |
| RecordingRuns.StepKeeps | driver/ps5vk_draw.c:870-1305 | every command keeps it |
| RecordingRuns.RunKeeps | driver/ps5vk_draw.c:870-1305 | and so does every recording |
| RecordingRuns.ClearedFresh | driver/ps5vk_cmd_buffer.c:72-100 | a reset of any recording, finished or abandoned, is a start these results hold from |
| RecordingRuns.RenderThenSample | driver/ps5vk_draw.c:1518-1542 | in every recording a barrier or split lies between every draw into an image and every later draw or dispatch that samples it |
| RecordingRuns.BarrierTestExact | driver/ps5vk_draw.c:1529-1542 | the barrier test says an image was rendered if and only if the simple tracker holds it dirty |
| RecordingRuns.StencilNeedsDepth | driver/ps5vk_draw.c:1174-1177 | in every recording stencil state is bound only with depth state |
| RecordingRuns.EndsAsStarted | driver/ps5vk_cmd_buffer.c:265-280 | every finished command buffer leaves primitive restart off and depth control 0 |
| DrawsSeen.PerformedAsAsked | driver/ps5vk_draw.c:2914-2969 | the GPU performs exactly the recorded draws, in order, each with restart on if and only if it is indexed through a restarting pipeline, and its rendering's depth control, 0 outside a depth rendering |
| SimpleRecorder.RecordsAsSimple | driver/ps5vk_draw.c:2861-2975 | over every recording the index bookkeeping records, item for item, the stream of a recorder that keeps sets of images and looks at the GPU's own state, and is refused when that one is |
| SimpleRecorder.RecordedAsAsked | driver/ps5vk_cmd_buffer.c:284-335 | over every recording the draws, dispatches, events and copies recorded are exactly those the commands ask for, in order, each once |
| Submissions.RecordedComplete | driver/ps5vk_draw.c:1529-1533 | a finished recording knows whether it samples before its first barrier |
| Submissions.CollectSplits | driver/ps5vk_queue.c:1966-1980 | a buffer's records fall at its start in the stream plus their own place |
| Submissions.Assemble | driver/ps5vk_queue.c:1952-2014 | the stream and its records are the buffers' own, in order, with the queue's barriers between |
| Submissions.Submit | driver/ps5vk_queue.c:1952-2032 | a submission runs its buffers' items in the order they were recorded |
| SimpleRecorder.SubmitSessions | driver/ps5vk_queue.c:1952-2032 | a submission of any recordings runs the simple recorder's stream, and in it exactly what the commands asked for, buffer by buffer |
| Submissions.SubmissionState | driver/ps5vk_draw.c:2252-2257 | in every submission of finished buffers each draw runs with its own restart and depth state |
| Submissions.SubmissionSamplesExact | driver/ps5vk_queue.c:1992-2011 | what a submission samples is in memory if and only if no image is left pending across a buffer without targets |
| Submissions.SubmissionSamplesUnrolled | driver/ps5vk_queue.c:1992-2011 | the same with the condition written out: no buffer samples early what an earlier one leaves unflushed with no barrier after it and nothing between the two that separates |
| Submissions.GapLosesBarrier | driver/ps5vk_queue.c:1992-2011 | three command buffers whose last samples an image the first rendered before it is in memory |
| CommandBuffers.CommandBuffer.constructor | driver/ps5vk_cmd_buffer.c:102-133 | a new command buffer is a fresh recording |
| CommandBuffers.CommandBuffer.Reset | driver/ps5vk_cmd_buffer.c:72-100 | a reset leaves the cleared recording |
| CommandBuffers.CommandBuffer.AddRecord | driver/ps5vk_cmd_buffer.c:284-298 | a split or copy record is the next item, after the words so far |
| CommandBuffers.CommandBuffer.CmdCopies | driver/ps5vk_image.c:1666-1829 | all records of one copy command fall at the place it was recorded |
| CommandBuffers.CommandBuffer.RenderedHere | driver/ps5vk_draw.c:1534-1542 | the loop over targets finds whether the image is dirty |
| CommandBuffers.CommandBuffer.GpuBarrier | driver/ps5vk_draw.c:3501-3522 | a barrier covers the targets so far; without a fence it is a split |
| CommandBuffers.CommandBuffer.RestartAfterSplits | driver/ps5vk_draw.c:2258-2267 | a split since the enable was written leaves restart off |
| CommandBuffers.CommandBuffer.CmdDraw | driver/ps5vk_draw.c:2312-2975 | a draw is the recorder's draw step, refused, skipped or recorded |
| CommandBuffers.CommandBuffer.CmdDispatch | driver/ps5vk_compute.c:390-460 | a dispatch is the recorder's dispatch step |
| CommandBuffers.CommandBuffer.CmdQuery | driver/ps5vk_query.c:75-98 | a query sample is an event and a target |
| CommandBuffers.CommandBuffer.CmdQueryCopy | driver/ps5vk_query.c:453-480 | a query-result copy is a target and a record |
| CommandBuffers.CommandBuffer.CmdBeginRendering | driver/ps5vk_draw.c:870-1188 | beginning a rendering registers its targets and binds its attachments |
| CommandBuffers.CommandBuffer.CmdEndRendering | driver/ps5vk_draw.c:1264-1308 | ending one disables depth state and leaves its targets to the next barrier |
| CommandBuffers.CommandBuffer.EndCommandBuffer | driver/ps5vk_cmd_buffer.c:265-280 | the end of a command buffer turns restart off |
| CommandBuffers.CommandBuffer.Replay | driver/ps5vk_queue.c:1643-1830 | the buffer's arrays run as it was recorded |
| RecordedSessions.RecordAll | driver/ps5vk_draw.c:870-1305 | commands recorded one after the other by their methods come to the recorder's run of them |
| RecordedSessions.RecordAndReplay | driver/ps5vk_queue.c:1643-1830 | commands recorded by the command buffer's methods and run by the queue do exactly the draws, dispatches, events and copies they ask for, in order |
| RegisterTables.FillTable | driver/ps5vk_draw.c:2617-2813 | the sections written in place are the table's, each in the records reserved for it |
| RegisterTables.TableMeans | driver/ps5vk_draw.c:2617-2813 | the value a table leaves in any register: the draw's own word for it, or else the pixel stage's, the vertex stage's, the context's, the viewport's or the rendering's |
| RegisterTables.TableLength | driver/ps5vk_draw.c:2617-2700 | the reserved counts add up to the sections' lengths |
| RegisterTables.TableFilledExactly | driver/ps5vk_draw.c:2723-2732 | every reserved record is written if and only if stencil records come only with depth records |
| RegisterTables.RecordedTableFilled | driver/ps5vk_draw.c:1174-1181 | in every recording they do: no draw leaves a record unwritten |
| RegisterTables.DepthControlRecorded | driver/ps5vk_draw.c:2723-2730 | what a table leaves in the depth control is its own state's word in a depth rendering and nothing otherwise: no later section sets it again |
| TableChunks.TableMemory.Allocate | driver/ps5vk_cmd_buffer.c:186-241 | the loop ends, in the first chunk from the one in use that fits, or in a new one |
| TableChunks.TableMemory.ResetKeeping | driver/ps5vk_cmd_buffer.c:81-85 | a plain reset starts over at the first chunk |
| TableChunks.TableMemory.ResetReleasing | driver/ps5vk_cmd_buffer.c:44-68 | a releasing reset has no chunks |
| TableChunks.TakePlaces | driver/ps5vk_cmd_buffer.c:186-241 | a table goes to the lowest aligned place left in the chunk in use, or the start of the next chunk, or of a new one, with its bytes rounded up to quadwords |
| TableChunks.TableInChunk | driver/ps5vk_cmd_buffer.c:193-204 | a table's bytes lie in one chunk, and start at the alignment asked for if and only if the chunk does |
| TableChunks.TableAligned | driver/ps5vk_cmd_buffer.c:193-204 | so at any power of two up to the page a chunk is mapped on |
| TableChunks.TablesApart | driver/ps5vk_cmd_buffer.c:186-241 | the bytes of every two tables of a run of requests are disjoint |
| TableChunks.SameAfterReset | driver/ps5vk_cmd_buffer.c:81-85 | the same requests after a plain reset get the same addresses and map no new chunk |
| ShaderFiles.LoadsWhatWasStored | driver/ps5vk_shader_cache.c:215-265 | a load of a stored file gives back the output exactly when its metadata passes the load's checks |
| ShaderFiles.TornIsRefused | driver/ps5vk_shader_cache.c:226-252 | a load never believes a torn entry |
| ShaderFiles.BelievesOnlyEntries | driver/ps5vk_shader_cache.c:226-265 | a load believes a file only if it is byte for byte what a store would have written |
| ShaderFiles.LoadsExactly | driver/ps5vk_shader_cache.c:226-265 | a load gives an output if and only if the file is that output's entry, its sizes are in bounds and its metadata is of this version and within every limit |
| ShaderFiles.DigestCoversAll | driver/ps5vk_shader_cache.c:251-255 | what a load believes carries the key and the digest of every byte after it |
| ShaderCaches.FindPending | driver/ps5vk_shader_cache.c:190-213 | the walk of the queue finds the first job of a key |
| ShaderCaches.AfterKeeps | driver/ps5vk_shader_cache.c:190-371 | every step of a store, load, write or flush keeps queued jobs, temporaries, files and loads those of their keys |
| ShaderCaches.RunKeeps | driver/ps5vk_shader_cache.c:190-371 | and so does every interleaving |
| ShaderCaches.StoreKept | driver/ps5vk_shader_cache.c:317-362 | at every point after a store its job is queued or being written, its file is in place, or a write of its key has failed since |
| ShaderCaches.LoadsHit | driver/ps5vk_shader_cache.c:215-265 | over every interleaving, a load begun after a store of its key answers what was stored, unless a write of the key fails between the store and the load's look into the queue with no file in place by then |
| ShaderCaches.LoadsAnswer | driver/ps5vk_shader_cache.c:215-265 | a load that has looked in the queue and then in the files has answered |
| ShaderCaches.LoadsAnswerRight | driver/ps5vk_shader_cache.c:215-265 | no load ever answers anything but its own key's output |
| ShaderCaches.FlushWaits | driver/ps5vk_shader_cache.c:364-371 | over every interleaving, once a flush has returned the file of every store before it is in place, unless a write of its key failed between the store and the flush's finding the queue empty |
| ShaderCaches.FlushReturnsWhenDrained | driver/ps5vk_shader_cache.c:364-371 | a flush has returned if and only if it found the queue empty at some point since it began |
| ShaderCaches.WriterFinishes | driver/ps5vk_shader_cache.c:295-315 | from any state the writer's own steps end the job at the head, with its file in place unless its write had failed |
| ShaderCaches.FailedWriteEnds | driver/ps5vk_shader_cache.c:281-293 | a failed write changes no file, removes its temporary and lets the job leave the queue |
| ShaderCaches.FilesAreWhole | driver/ps5vk_shader_cache.c:267-293 | over every interleaving a file a load can open is its key's whole entry, or was there at the start |
| EntryWrites.OneAtATime | driver/ps5vk_shader_cache.c:271-293 | while writes of an entry are made one at a time its file is whole after every step |
| EntryWrites.WritesEnd | driver/ps5vk_shader_cache.c:271-293 | a write that fails leaves no temporary and the entry as it was; one that nothing interferes with puts the whole entry in place |
| EntryWrites.OverlaidMeans | driver/ps5vk_shader_cache.c:281-284 | a piece written at an offset is there, what was before and after it stays, and a gap is zeros |
| EntryWrites.TwoAtOnce | driver/ps5vk_shader_cache.c:271-293 | two at once can leave an emptied file in place |
| EntryWrites.WholeExactly | driver/ps5vk_shader_cache.c:271-293 | over every run with at most so many writes of an entry under way, its file is always whole if and only if that is one |
| Syncs.AfterKeeps | driver/ps5vk_sync.c:58-167 | every step keeps flags truthful about the signals they stand for |
| Syncs.RunKeeps | driver/ps5vk_sync.c:58-167 | and so does every interleaving, in which markers only advance |
| Syncs.SignaledIsDone | driver/ps5vk_sync.c:58-67 | a sync signaled with no queue was signaled by the CPU or its marker value is reached |
| Syncs.WaitSucceedsWhenDone | driver/ps5vk_sync.c:121-167 | a wait succeeds only for a signal that is done |
| Syncs.LateClearHarmless | driver/ps5vk_sync.c:159-165 | the late clear touches no flag and no marker of a signal that is not done |
| Syncs.WaitsTakeNothing | driver/ps5vk_sync.c:121-167 | no step of a wait changes a flag |
| Syncs.PendingOnIsOrdered | driver/ps5vk_sync.c:75-85 | a submission may skip the wait on a signal pending on its own queue |
| Syncs.SignalsSingle | driver/ps5vk_sync.c:104-119 | in every interleaving a signal is in one place: moves neither copy nor keep it |
| SyncMoves.SignalsKept | driver/ps5vk_sync.c:58-167 | over every interleaving a signal held by a sync or a move is still held, where its moves took it and with its marker, until a step overwrites it |
| SyncMoves.StepConserves | driver/ps5vk_sync.c:58-167 | every step keeps it so |
| SyncMoves.MoveCarries | driver/ps5vk_sync.c:104-119 | a move brings its source's flag, queue, value and signal to its destination and empties the source, whatever runs between its two sections |
| SyncMoves.CpuSignalSeen | driver/ps5vk_sync.c:87-94 | until something else sets the sync, a wait after a CPU signal succeeds at once for it |
| SyncMoves.PendingSignalSeen | driver/ps5vk_sync.c:69-73 | one after a submission's signal waits for that queue's value, or succeeds at once if it is reached |
| SyncMoves.ResetSeen | driver/ps5vk_sync.c:96-102 | one after a reset goes on waiting |
| SyncMoves.InitSeen | driver/ps5vk_sync.c:33-47 | a new sync is signaled if and only if it was asked for so |
| SyncMoves.GpuWaitEnds | driver/ps5vk_sync.c:156-166 | a wait on the GPU ends if and only if the marker has reached its value; it succeeds, and takes the sync's queue away if it is still that one |
| SyncMoves.WaitStartsAndStops | driver/ps5vk_sync.c:130-152 | a wait starts from any free thread and may give up while it waits |
| SyncMoves.QueuesCount | driver/ps5vk_queue.c:386-420 | a queue counts its submissions one by one from none, and completes no more than those |
| Syncs.MarkerTestExact | driver/ps5vk_queue.c:386-392 | the 32-bit marker test holds if and only if the values' difference lies in an even half of the 32-bit range |
| Syncs.MarkerTestCompares | driver/ps5vk_queue.c:386-392 | so it is their comparison when they are less than 2^31 apart, and is not at the next difference on either side |
| Regions.Mark | driver/ps5vk_direct_memory.c:89-99 | exactly the run's granules change |
| Regions.Take | driver/ps5vk_direct_memory.c:102-128 | the lowest free run of the length is found and marked; none is returned only when there is none; full words are skipped safely |
| Regions.FirstFitUnique | driver/ps5vk_direct_memory.c:102-128 | there is one such run |
| DirectMappings.DirectMemory.TakeHint | driver/ps5vk_direct_memory.c:144-160 | the hint is the test switch's, the region's first fit, or none |
| DirectMappings.DirectMemory.CreateMapping | driver/ps5vk_direct_memory.c:170-215 | a create comes to what the kernel's answers make of it |
| DirectMappings.DirectMemory.DestroyMapping | driver/ps5vk_direct_memory.c:217-242 | a destroy uncounts, gives back and clears the mapping |
| DirectMappings.CreateExact | driver/ps5vk_direct_memory.c:170-215 | a create succeeds if and only if the memory is allocated and the map answer it goes by has an address in the window, or for device memory within the GPU's reach; then the mapping is there and counted outside if and only if it is; otherwise the error is the kernel's, or the driver's own for an address of no use |
| DirectMappings.HintsAdvance | driver/ps5vk_direct_memory.c:149-152 | under the test switch each create asks for a range of its own from the base |
| DirectMappings.HintIsFirstFit | driver/ps5vk_direct_memory.c:153-159 | otherwise for the lowest free run of granules that covers it |
| DirectMappings.ReachMeans | driver/ps5vk_direct_memory.c:203-206 | the window is the 4 GiB from 8 GiB on, and the GPU reaches what lies below 128 TiB |
| DirectMappings.CreateKeeps | driver/ps5vk_direct_memory.c:170-215 | a create leaves one more live mapping, or the ones there were |
| DirectMappings.DestroyKeeps | driver/ps5vk_direct_memory.c:217-242 | a destroy takes one mapping, and nothing else, out of the counters and the region |
| DirectMappings.FailedCreateRestores | driver/ps5vk_direct_memory.c:186-214 | a failed create restores everything but the test switch's next address, which moves if and only if it was asked for |
| DirectMappings.FailedCreateMovesNext | driver/ps5vk_direct_memory.c:144-214 | a device-memory create under the test switch that the kernel refuses to map does move it |
| DirectMappings.DestroyTwice | driver/ps5vk_direct_memory.c:217-242 | a second destroy changes nothing |
| DirectMappings.ZeroedConsistent | driver/ps5vk_direct_memory.c:29-87 | the zeroed counters and bitmap the driver starts with are those of no mappings |
| DirectMappings.RunKeeps | driver/ps5vk_direct_memory.c:130-242 | over every run the counters are the live mappings' sums per kind, and the region is the disjoint union of their granules, each mapping at its granules' address |
| DirectMappings.BaseStartsOver | driver/ps5vk_direct_memory.c:162-168 | setting the test switch's base zeroes the outside count and the next create asks for the base itself |
| DirectMappings.OutsideCounted | driver/ps5vk_direct_memory.c:162-209 | over every run the outside count is the number of creates that succeeded outside the window since the base was last set |
| DirectMappings.HoldersApart | driver/ps5vk_direct_memory.c:79-87 | no granule has two holders |
| DirectMappings.RegionMappingsApart | driver/ps5vk_direct_memory.c:144-160 | mappings in the region share no address |
| DescriptorLayouts.CreateLayout | driver/ps5vk_descriptor_set_layout.c:69-115 | a layout reaches to the greatest declared binding and no further, has the declared bindings and only them, and each is numbered by the sums of those before it |
| DescriptorLayouts.Strides | driver/ps5vk_descriptor_set_layout.c:23-66 | the table bytes of each descriptor type, and of no other |
| DescriptorLayouts.RecordsDistinct | driver/ps5vk_descriptor_set_layout.c:98-111 | different descriptors have different records of the set |
| DescriptorLayouts.DescriptorAt | driver/ps5vk_descriptor_set_layout.c:98-111 | and every record is a descriptor's |
| DescriptorLayouts.EntriesApart | driver/ps5vk_descriptor_set_layout.c:98-111 | different descriptors' table entries share no byte and lie in the table |
| DescriptorSets.WalkIsRange | driver/ps5vk_descriptor_set.c:376-387 | Vulkan's walk through consecutive bindings visits consecutive records, and exists if and only if the range fits |
| DescriptorSets.RangeIsWalk | driver/ps5vk_descriptor_set.c:376-387 | the driver gives a range exactly where the walk exists, from its first record |
| DescriptorSets.SplicedIsWalk | driver/ps5vk_descriptor_set.c:389-418 | a run of records written is the walk's descriptors written, and no others |
| DescriptorSets.CopiedIsWalk | driver/ps5vk_descriptor_set.c:403-418 | a copy leaves each descriptor of the destination's walk with what the one at the same place of the source's held |
| DescriptorSets.DescriptorSet.Write | driver/ps5vk_descriptor_set.c:389-401 | a write fills the run of records, or is refused when it does not fit |
| DescriptorSets.DescriptorSet.CopyFrom | driver/ps5vk_descriptor_set.c:403-418 | a copy moves the source's records as they were, within one set too |
| DescriptorSets.TakeOffsets | driver/ps5vk_descriptor_set.c:518-535 | a set's dynamic offsets are its share of the bind's, in order, or the bind is refused |
| DescriptorSets.BoundSets.Bind | driver/ps5vk_descriptor_set.c:494-541 | a bind is taken if and only if its sets, dynamic counts and offsets fit, and binds each set with its share |
| DescriptorSets.BindNeeds | driver/ps5vk_descriptor_set.c:494-541 | a bind is taken if and only if its sets fit the four slots, none has more than eight dynamic descriptors, and there is exactly one offset for each |
| DescriptorSets.DrawReadsRank | driver/ps5vk_draw.c:2186-2194 | from the sets and offsets a bind leaves, a draw reads for a dynamic descriptor the bind's offset at its rank |
| DescriptorSets.RankOrders | driver/ps5vk_draw.c:2186-2194 | ranks order the dynamic descriptors by set, then binding, then element, and are below the number of offsets |
| DescriptorSets.AtRank | driver/ps5vk_draw.c:2186-2194 | every offset is one dynamic descriptor's, so offsets and dynamic descriptors correspond one to one, in order |
| DescriptorPools.FindEntry | driver/ps5vk_descriptor_set.c:32-40 | the first entry of a type is found |
| DescriptorPools.DescriptorPool.CheckHas | driver/ps5vk_descriptor_set.c:43-57 | the check says whether each binding's count remains |
| DescriptorPools.DescriptorPool.TakeDescriptors | driver/ps5vk_descriptor_set.c:62-71 | taking subtracts each type's bindings from its counter, in 32 bits |
| DescriptorPools.DescriptorPool.GiveDescriptors | driver/ps5vk_descriptor_set.c:73-82 | giving adds them back |
| DescriptorPools.GiveRestores | driver/ps5vk_descriptor_set.c:59-82 | giving back what was taken restores the counters exactly |
| DescriptorPools.DescriptorPool.Release | driver/ps5vk_descriptor_set.c:86-109 | a set is unlinked and released if the pool holds it |
| DescriptorPools.DescriptorPool.Allocate | driver/ps5vk_descriptor_set.c:212-267 | an allocation takes every set, or leaves the pool exactly as it was |
| DescriptorPools.DescriptorPool.Free | driver/ps5vk_descriptor_set.c:280-294 | freeing releases the named sets |
| DescriptorPools.DescriptorPool.Clear | driver/ps5vk_descriptor_set.c:113-121 | a reset or destroy releases every set |
| PoolSets.AllocatedSets | driver/ps5vk_descriptor_set.c:212-267 | an allocation adds its sets, each with its layout, before the ones there were |
| PoolSets.FreedSets | driver/ps5vk_descriptor_set.c:280-294 | freeing takes out exactly the sets named and leaves the others as they were |
| PoolSets.AllocatesExactly | driver/ps5vk_descriptor_set.c:212-267 | with at most one binding of each type, an allocation succeeds if and only if the pool has room for the sets, the host for their records, and each type's entry for what all of them need together |
| DescriptorPools.RunSound | driver/ps5vk_descriptor_set.c:42-294 | over every run, what remains and what live sets hold make up the created count modulo 2^32, and the set count is the list's length and at most the maximum |
| DescriptorPools.AddedExactly | driver/ps5vk_descriptor_set.c:43-71 | no counter wraps if and only if no type's bindings together need more than remains |
| DescriptorPools.HasIsEnough | driver/ps5vk_descriptor_set.c:43-57 | with at most one binding of each type the check is enough |
| DescriptorPools.RunExact | driver/ps5vk_descriptor_set.c:212-294 | over every run of such layouts the counters are exact |
| DescriptorPools.TwoBindingsWrap | driver/ps5vk_descriptor_set.c:43-71 | two bindings of one type pass the check and wrap the counter |
| Spirv.HasEntryPoint | driver/ps5vk_pipeline.c:599-623 | an entry point is found if and only if the module splits into instructions and one of them declares it |
| Spirv.EntryPointKnown | driver/ps5vk_pipeline.c:614-619 | an entry point written with any model, name, id and interface is recognised as that model and name and no other |
| Spirv.WellFormedSplits | driver/ps5vk_pipeline.c:609-621 | a stream the check accepts is a sequence of sized instructions, and conversely |
| Spirv.SplitUnique | driver/ps5vk_pipeline.c:609-621 | and splits in one way only |
| Spirv.ScanSlots | driver/ps5vk_pipeline.c:790-820 | the slots tell the decorations of the longest run of them that decorates at most 32 ids |
| Spirv.DeclaredBindings | driver/ps5vk_pipeline.c:775-832 | the pairs returned are those of the ids that carry both decorations, in bytes, whichever came first |
| Spirv.FewAreExact | driver/ps5vk_pipeline.c:775-832 | with at most 32 decorated ids and values below 256 they are all of them, as they are |
| Spirv.Narrow | driver/ps5vk_pipeline.c:2234-2247 | the in-place filter keeps the declared bindings, in order, and touches nothing past them |
| Spirv.KeptAreDeclared | driver/ps5vk_pipeline.c:2234-2247 | exactly the declared bindings are kept |
| Spirv.NarrowStage | driver/ps5vk_pipeline.c:2234-2247 | a stage's binding is kept if and only if some id carries its set and binding: among the decorations the slots hold, and with at most 32 decorated ids and values below 256 among all of the module's |
| Spirv.ReportedExactly | driver/ps5vk_pipeline.c:775-832 | of a module whose ids carry distinct pairs of bytes, all are reported if and only if it decorates at most 32 ids |
| Spirv.OneTooMany | driver/ps5vk_pipeline.c:775-832 | a module of 33 such ids or more has a binding that is not |
| Spirv.WideValueAliases | driver/ps5vk_pipeline.c:822-831 | an id at binding 256 is reported at binding 0 |
| Census.HashLine | driver/ps5vk_census.c:83-87 | a line's hash is its FNV-1a hash, never 0 |
| Census.KnownHashes | driver/ps5vk_census.c:83-87 | the published FNV-1a hashes of three inputs |
| Census.Table.Insert | driver/ps5vk_census.c:88-104 | a hash is fresh if and only if the set does not have it and has room; the set gains exactly it; one slot stays empty |
| Census.NotThere | driver/ps5vk_census.c:91-102 | an empty slot on a hash's way says it is not in the table, around the end too |
| Census.ReportAll | driver/ps5vk_census.c:73-110 | over every sequence of reports the table is the set of hashes and the flags are the set's |
| Census.HoldsAllReported | driver/ps5vk_census.c:67-110 | the table holds every hash reported if and only if they are fewer than its slots |
| Census.ReportLines | driver/ps5vk_census.c:67-110 | lines are hashed and reported one by one, and the flags are the hashes' |
| Census.WrittenOnce | driver/ps5vk_census.c:67-110 | with fewer distinct hashes than slots a line is written out if and only if no earlier line has its hash |

## Left out

- Submission to the hardware, blit and copy execution, and marker polling (`driver/ps5vk_queue.c`): a submission is modelled as the order its packets and records run in.
- Kernel, graphics-library, compiler and Mesa runtime calls: their answers are parameters.
- Format tables, limits, entry-point wrappers and device, instance and physical-device code: data and plumbing.
- Floating-point clear values, sampler arithmetic, cache-flush instructions, profiling and logging.
- Multiview renderings: a draw records one view.
- Layers of tiled multi-level images outside the chain table, and of stencil images: the driver has no side for them (`ImageSizes.NoSide`).
- Two- and eight-sample images, for which the driver has no texel map.
- Dwords: streams count packets where the driver counts words; records fall only between packets.
- Syncs.RunKeeps: marker values are unbounded; Syncs.MarkerTestCompares ties the 32-bit test to them while less than 2^31 apart.
- ShaderCaches.LoadsHit: a store that finds no writer thread and writes its own file is not among the steps, and nor is a load that cannot allocate; EntryWrites has the file operations of several such stores.
- ShaderFiles.LoadsWhatWasStored: the digest is any function with 32-byte results, and the metadata is laid out as the six counters a load checks followed by the rest.
- DirectMappings.RunKeeps: addresses and counters are unbounded integers; a kernel that reports success with a negative start is not modelled.
- TableChunks.TableMemory.ResetReleasing: unmapping each chunk and taking it off the device's list are not modelled.
- TableChunks.TablesApart: that chunks are mapped apart from each other is taken from the kernel.
- DescriptorSets.DescriptorSet.Write: a record's content is opaque; which of the write's fields it comes from is not modelled.
- RegisterTables.FillTable: the registers' values are given; only the table's own words (masks, blend, raster, line) are computed.
- DrawsSeen.PerformedAsAsked: a draw's vertex counts, index clamping and user data are not modelled.
