# A verified model of the LeNet accelerator and its software

The repository holds a quantised LeNet-5 twice, and a small multi-hart system around it:

- `hls/Lenet.cpp` is the hardware: convolution fused with pooling, rows split over two buffers with a halo, a
  shifting line buffer, a sliding 6x6 window, fully connected layers tiled over processing elements, and layers
  that alternate between four 8-bit ping-pong buffers.
- `vp/lenet.h` is the plain reference of the virtual platform: unfused layers on `int` arrays, fed by a byte
  stream through 64 queues, answering through ten result queues and an interrupt.
- `sw/main.cpp` is the program of N harts: LR/SC semaphores, work claiming with an unlocked test, a reduction, a
  barrier, and DMA transfers to and from one accelerator per hart.
- `vp/dma.h` and `vp/flash.h` are a blocked copy engine and a one-block write-back cache.

The model proves that the rewritten forms of the network compute what the reference computes, for every image and
all weights, with the exact condition under which 8-bit storage keeps the results (the tiled FC1, which multiplies
in 64 bits, has an exact condition of its own); that the program's synchronisation is right in every interleaving
of any number of harts, and that it can always be run to its end; that the stream through an accelerator neither
mixes images nor loses completions; and that the two engines behave as their simple counterparts.

## How it is organised

| files | content |
|---|---|
| `Arith`, `Convolution`, `FullyConnected` (functions), `Network` | what the layers compute, on unbounded integers and with 8-bit and 32-bit storage |
| `Laws` | what window sums, pooling and dot products mean, without their loops |
| `Overflow`, `ExactNetwork`, `Tiles`, `Activations` | when no 32-bit sum or product overflows and both accelerators compute the network of the integers; when the tiled FC1 is FC1; which weights keep activations within eight bits |
| `FusedConv`, `LineBuffer`, `SlidingWindow`, `RowSplit`, `FullyConnected` (methods), `HlsLenet` | the loop nests of `hls/Lenet.cpp` on arrays, for any dimensions, weights, multiplier, split row and tile size, then at the sizes of the header |
| `Reference`, `VpLenet`, `EndToEnd` | the reference layers, and both accelerators on one image |
| `Halves` | the layer halves that the hardware may run in parallel, as steps, in any interleaving |
| `Harts`, `HartSums`, `HartInvariants`, `HartLocks`, `HartWork`, `HartBarrier`, `HartRuns` | `sw/main.cpp` as a step system, and its invariant over every schedule |
| `HartHistory`, `HartTheorems`, `HartTransfers`, `HartProgress`, `HartCompletion` | what each hart has done over a schedule, what the program promises, what its transfers do to memory, that it cannot deadlock, and that it can be completed from every reachable state |
| `Accelerator`, `AcceleratorProgress` | one hart, the DMA engine, the accelerator's processes and the interrupt, over every schedule |
| `Dma`, `Flash`, `FlashDevice` | the two engines |

Conventions. A tensor is a function of channel, row and column; a buffer *holds* a tensor under a *layout* (base,
channel stride, row width). `int8` and `int32` are ranges of the integers, and every store into a narrower cell is
an explicit wrap-around (`Wrap8`, `Wrap32`); `>> 16` rounds towards minus infinity. `SumsExact` says that no partial
sum of a convolution, and no such sum times the multiplier, leaves 32 bits; it is proved for every layer of the
network, so it is no condition on the caller. The hart and accelerator models interleave single memory accesses,
sequentially consistently; load-reserved and store-conditional follow section 8.2 of the RISC-V Unprivileged ISA
(version 20191213), including store-conditionals that fail for no reason. Fields after the memory words in the two
step systems (`posts`, `waits`, `owner`, `claims`, `started`, `last`, `results`, `triggered`, `observed`) record
history and never influence a step.

Widths. A sum `p_sum` is an `int`: each addition of an `sc_int<8>` product is done in 64 bits and narrowed back,
which is a wrap-around; its product with the multiplier is a 32-bit product of two `int`s, whose overflow C++ leaves
undefined and the model takes as a wrap-around. The accumulators of the tiled layers are `sc_int<32>`: the additions
wrap at 32 bits, the product is a 64-bit one.

Findings about the code:

- The hardware and the reference agree on every buffer if and only if all the reference's activations are at most
  127 (`Network.BuffersAgreeExactly`). For the first layer this is a condition on its weights alone, proved exact
  (`Activations.FirstLayerFitsExactly`); weights and pixels of 127 violate it (`Activations.StorageCanWrap`), and
  then the results themselves can differ (`Activations.ResultsCanDiffer`).
- Agreement of the two does not need the absence of overflow, because both are taken to wrap alike. That nothing
  overflows, and that both compute the network of the integers, holds when also the rows of FC1 are within limits
  (`ExactNetwork.BothAreExact`).
- The tiled FC1 can differ from the row-by-row FC1 on rows beyond those limits (`Tiles.TiledCanDiffer`), and `Tiles`
  says exactly when they store the same. The tiled one is exact on all 8-bit inputs.
- The blocked DMA copy is a plain copy for all memory contents if and only if the destination does not start inside
  the source after its first byte, or everything fits one block (`Dma.CopyIsFaithfulExactly`).
- For a block device the flash controller's size register counts bytes, for a file blocks, so that the bound it
  asserts is right only for files (`Flash.SizeIsBlocksExactly`).

## Model

| member | source | states |
|---|---|---|
| Arith.FuseCommutes | hls/Lenet.cpp:206-236 | For any window of sums and any K >= 0: requantising the maximum taken from zero equals the maximum of the requantised sums. This is why pooling may come before the shift. |
| Arith.RequantMonotone | hls/Lenet.cpp:235 | Requantisation (times K, arithmetic shift by 16, ReLU) never reorders two sums. |
| Arith.WrapAdd | hls/Lenet.cpp:891 | A 32-bit accumulator that wraps at every addition ends where a single wrap of the exact sum ends. |
| Convolution.LoopOrdersAgree | vp/lenet.h:163-169 | Accumulating taps with the channel loop innermost (Conv1) and outermost (Conv2) gives the same sum, for any number of channels. |
| Convolution.FusedIsPooled | vp/lenet.h:156-193 | Fused convolution and pooling equals convolution, then ReLU and requantisation, then 2x2 pooling, for every tensor, kernel and multiplier. |
| Convolution.PrefixFits | hls/Lenet.cpp:523-549 | Every prefix of a window sum, and the prefix times K, fits 32 bits when the number of terms, the input bound and K satisfy one product bound. |
| Convolution.NoOverflow | hls/Lenet.cpp:523-549 | The same for both loop orders and every window of a layer: no accumulation of the layer can overflow. |
| Convolution.PooledBound | vp/lenet.h:156-193 | A bound on the inputs bounds every pooled activation. |
| Laws.WindowShift | vp/lenet.h:161-169 | The window sum at any position is the sum at the origin of the image moved there. |
| Laws.WindowAdds | vp/lenet.h:161-169 | The window sum is additive in the image. |
| Laws.WindowImpulse | hls/Lenet.cpp:215-225 | At every position and for every tap: an image that is v under that tap and zero under the others sums to v times the tap's weight, whatever it is outside the window. |
| Laws.PooledIsMaximum | vp/lenet.h:180-193 | A pooled activation is at least each of the four requantised sums of the positions (2h, 2w) to (2h+1, 2w+1) and is one of them; the hardware stores its low eight bits. |
| Laws.RequantIsFloor | vp/lenet.h:170 | Requantisation rounds a non-negative product down to a multiple of 65536 and takes a negative one to zero. |
| Laws.DotImpulse | vp/lenet.h:255-257 | A single non-zero input meets the weight of its own row and column. |
| Laws.DotAdds | vp/lenet.h:255-257 | The dot product is additive in the inputs. |
| FusedConv.SumChannelsInnermost | hls/Lenet.cpp:209-229 | The accumulation loops of the first layer compute the window sum, with 32-bit arithmetic. |
| FusedConv.SumChannelsOutermost | hls/Lenet.cpp:523-543 | The accumulation loops of the second layer compute the same window sum. |
| FusedConv.FusedPoint | hls/Lenet.cpp:206-235 | One pooled output is the requantised maximum, from zero, of the four exact window sums. |
| FusedConv.LayoutInjective | hls/Lenet.cpp:236 | A layout whose rows fit its channel stride stores no two elements in one cell. |
| FusedConv.KeepsOtherChannels | hls/Lenet.cpp:550-553 | Writing one channel keeps what the other channels already hold, whatever the layout. |
| FusedConv.FusedLayer | hls/Lenet.cpp:202-240 | A whole fused layer on any row range, in any fitting layout, leaves the layer's tensor in the buffer and touches no other cell. |
| FusedConv.FusedSplitLayer | hls/Lenet.cpp:516-557 | The same when the upper half of the channels goes to a second buffer. |
| LineBuffer.Preload | hls/Lenet.cpp:416-420 | Before the first row, slots 2 and up hold rows 0 and up. |
| LineBuffer.Shift | hls/Lenet.cpp:423-427 | The in-place shift by two slots reads every slot before overwriting it: afterwards slot i holds row 2h+i. |
| LineBuffer.Refill | hls/Lenet.cpp:429-434 | The two newest rows complete the buffer: every slot i holds row 2h+i in every channel. |
| LineBuffer.LineStep | hls/Lenet.cpp:421-458 | One pooled row: shift and refill establish the slot invariant, and the row stored is the layer's. |
| LineBuffer.LineLayer | hls/Lenet.cpp:414-460 | The line-buffer form leaves exactly what the direct form leaves, for any source, weights, channels and dimensions. |
| SlidingWindow.ShiftWindow | hls/Lenet.cpp:366-372 | The in-place two-column shift: column j now holds what column j+2 held. |
| SlidingWindow.Slide | hls/Lenet.cpp:356-381 | At every pooled position window entry (c, i, j) is source element (c, 2h+i, 2w+j), at the left edge and after a shift. |
| SlidingWindow.CopyKernel | hls/Lenet.cpp:346-351 | The copied kernel equals the output channel's weights. |
| SlidingWindow.WindowLayer | hls/Lenet.cpp:343-405 | The sliding-window form leaves exactly what the direct form leaves, for any source, weights, channels and dimensions. |
| RowSplit.WholeLayers | hls/Lenet.cpp:95-96 | Two fused layers one after the other leave the second layer's tensor in its two result buffers. |
| RowSplit.SplitLayers | hls/Lenet.cpp:97-106 | For every split row t, with rows [0, 2t+K-1) and [2t, H) kept in two buffers of different strides, the four partial layers leave the same result buffers; every row read has been written. |
| RowSplit.RowsJoin | hls/Lenet.cpp:560-656 | The second part's rows leave the first part's rows in place, in every channel of the shared result buffer. |
| FullyConnected.FcRows | hls/Lenet.cpp:871-897 | Rows of a fully connected layer, inputs in two buffers, equal the requantised wrapped dot products; no other cell changes. |
| FullyConnected.FcOutputs | hls/Lenet.cpp:1068-1095 | The last layer, without requantisation. |
| FullyConnected.FlattenAt | vp/lenet.h:243 | Position c*25 + h*5 + w of the flat input is the map element (c, h, w). |
| FullyConnected.FcRowsTiled | hls/Lenet.cpp:926-951 | For every tile size dividing the rows, every row is stored as the 32-bit accumulated sum requantised with a 64-bit product, and cells past the rows are unchanged. |
| FullyConnected.FcOutputsTiled | hls/Lenet.cpp:1097-1126 | For every tile size at least 1, the guarded tiled layer equals the row-by-row layer, all accesses in bounds. |
| FullyConnected.UnguardedTilesInBounds | hls/Lenet.cpp:928-943 | The unguarded weight reads of all tiles stay inside the table if and only if the tile size divides the number of rows. |
| Overflow.OverflowCondition | hls/Lenet.cpp:874-895 | A row of a fully connected layer never overflows 32 bits, in any prefix, before or after the multiplication by K, for inputs in a range around zero, if and only if two products of its positive and negative weight sums fit. |
| Overflow.NoOverflowIsExact | hls/Lenet.cpp:874-895 | Within those limits the sum and activation are those of the exact dot product, whatever lies past the row's inputs. |
| Overflow.Fc2AndFc3NeverOverflow | hls/Lenet.cpp:986-1007 | 120 inputs with K = 318, and 84 inputs without K, cannot overflow for any weights. |
| Overflow.Fc1LightRow | hls/Lenet.cpp:874-895 | 400 inputs with K = 335 cannot overflow when the row's weights have total magnitude at most 50081. |
| Overflow.Fc1HeavyRowOverflows | hls/Lenet.cpp:874-895 | A row of maximal weights does overflow, even on non-negative inputs. |
| Network.Conv1Exact | hls/Lenet.cpp:209-235 | The first layer (25 terms, K = 130) never overflows, for any image and weights. |
| Network.Conv2Exact | hls/Lenet.cpp:523-549 | The second layer (150 terms, K = 89) never overflows on any 8-bit maps, for all weights. |
| Network.RefConv2Exact | vp/lenet.h:205-220 | Nor does the reference's second layer on its unwrapped activations. |
| Network.BuffersAgreeExactly | hls/Lenet.cpp:63-66 | The hardware's stored activations equal the reference's in every layer if and only if all of the reference's are at most 127, for every image and all weights. |
| Network.EndToEnd | hls/Lenet.cpp:95-127 | Under that condition the ten results are equal, for every image and all weights, with 32-bit overflow taken as wrap-around in both. |
| ExactNetwork.BothAreExact | hls/Lenet.cpp:95-127 | With activations that fit and FC1 rows within limits, no prefix of any sum and no product overflows 32 bits in either accelerator, and both give the ten results of the network on unbounded integers. |
| ExactNetwork.ReferenceIsExact | vp/lenet.h:250-285 | Under the same conditions every fully connected layer of the reference fits 32 bits and its results are exact. |
| ExactNetwork.ResultsWrittenOut | vp/lenet.h:250-285 | There, FC1, FC2 and the results in both accelerators are the dot products of their 400, 120 and 84 inputs with their rows, times 335 and 318 over 65536 and not below zero in the first two. |
| ExactNetwork.MapsWrittenOut | vp/lenet.h:150-248 | The reference's maps are the pooled layers with multipliers 130 and 89, the first on pixel h*32 + w at row h and column w. |
| ExactNetwork.SmallLayersWithinLimits | vp/lenet.h:262-285 | FC2 and FC3 meet their limits for all weights. |
| Activations.FirstLayerFitsExactly | hls/Lenet.cpp:206-236 | The first layer's activations fit eight bits on every image if and only if, in each channel, 127 times the positive and 128 times the negative weights add up to at most 64527. |
| Activations.LargestSums | vp/lenet.h:170-270 | The largest sums that the four layers requantise to at most 127: 64527, 94254, 25040 and 26379. Each belongs to its multiplier alone. |
| Activations.LayerFitsExactly | vp/lenet.h:199-247 | A convolution layer's activations fit eight bits on all inputs in a range if and only if each channel's best sum does. |
| Activations.SecondLayerFitsExactly | vp/lenet.h:199-247 | The second layer's fit on all activations 0 to 127 if and only if no channel's positive weights, times 127, exceed 94254. |
| Activations.Fc1FitsExactly | vp/lenet.h:250-260 | For rows within the overflow limits: FC1 activations fit on all inputs 0 to 127 if and only if the row's positive weights, times 127, are at most 25040. |
| Activations.Fc2FitsExactly | vp/lenet.h:262-272 | FC2 activations fit on all inputs 0 to 127 if and only if the row's positive weights, times 127, are at most 26379. |
| Activations.PeakReached | hls/Lenet.cpp:206-236 | An image reaches that sum, so the bound cannot be raised. |
| Activations.StorageCanWrap | hls/Lenet.cpp:235-236 | On an image and first-layer weights of 127 every pooled activation is 799 and is stored as 31. |
| Activations.ResultsCanDiffer | hls/Lenet.cpp:95-141 | There, with all other weights 1, every result differs: 16128 from the reference, 504 from the hardware. |
| HlsLenet.UnpackPack | hls/Testbench.cpp:40-45 | Packing four pixels into a word and unpacking them gives back every image. |
| HlsLenet.UnpackedBytes | hls/Lenet.cpp:78-83 | Pixel 4i + j has the bits of byte j of word i, the lowest byte first. |
| HlsLenet.Indices | hls/Lenet.cpp:221-334 | The layouts are the index expressions of the loops: strides of 14, 10 and 8 rows of 14, and of 5 rows of 5 with the offset of 200. |
| HlsLenet.SplitAtThree | hls/Lenet.cpp:243-335 | The two half buffers are the general split taken at row 3 of the second layer. |
| HlsLenet.LayoutsFit | hls/Lenet.cpp:243-335 | All layouts of the ping-pong buffers fit their 1176 cells without overlapping channels. |
| HlsLenet.FlatIn | hls/Lenet.cpp:883-888 | The two map buffers, read as FC1 reads them, are the flattened second-layer maps. |
| HlsLenet.WholeIsHalves | hls/Lenet.cpp:704-772 | The 400 cells that a one-buffer form leaves are the two 200-cell halves of the two-buffer form, one after the other. |
| HlsLenet.Lenet.FusedConv1 | hls/Lenet.cpp:196-241 | buffer_2 holds the first layer's maps. |
| HlsLenet.Lenet.FusedConv2 | hls/Lenet.cpp:511-558 | buffer_1 and buffer_3 hold the lower and upper eight maps of the second layer. |
| HlsLenet.Lenet.FusedConv1_1 | hls/Lenet.cpp:243-288 | Rows 0 to 9 of the first layer, ten rows a channel, in buffer_2. |
| HlsLenet.Lenet.FusedConv1_2 | hls/Lenet.cpp:290-335 | Rows 6 to 13 in buffer_4 at stride 8*14, at their own row offsets. |
| HlsLenet.Lenet.FusedConv2_1 | hls/Lenet.cpp:560-607 | Pooled rows 0 to 2 of the second layer from buffer_2; other cells unchanged. |
| HlsLenet.Lenet.FusedConv2_2 | hls/Lenet.cpp:609-656 | Pooled rows 3 and 4 from buffer_4; other cells unchanged. |
| HlsLenet.Lenet.SplitConvolutions | hls/Lenet.cpp:97-106 | The four partial layers leave the same maps as the two whole layers. |
| HlsLenet.Lenet.FusedLineBufConv1 | hls/Lenet.cpp:408-461 | The line-buffer first layer leaves the maps of the direct form on the same source. |
| HlsLenet.Lenet.FusedLineBufConv2 | hls/Lenet.cpp:704-772 | The line-buffer second layer leaves all sixteen maps of the direct form in one buffer. |
| HlsLenet.Lenet.FusedBufConv1 | hls/Lenet.cpp:337-406 | The sliding-window first layer leaves the maps of the direct form on the same source. |
| HlsLenet.Lenet.FusedBufConv2 | hls/Lenet.cpp:774-846 | The sliding-window second layer leaves all sixteen maps of the direct form in one buffer. |
| HlsLenet.Lenet.FC1_1 | hls/Lenet.cpp:871-897 | Rows 0 to 59 of FC1 in buffer_2, from inputs in two buffers. |
| HlsLenet.Lenet.FC1_2 | hls/Lenet.cpp:899-924 | Rows 60 to 119 in buffer_4. |
| HlsLenet.Lenet.FC2_1 | hls/Lenet.cpp:982-1009 | Rows 0 to 41 of FC2 in buffer_1. |
| HlsLenet.Lenet.FC2_2 | hls/Lenet.cpp:1011-1038 | Rows 42 to 83 in buffer_3. |
| HlsLenet.Lenet.FC3 | hls/Lenet.cpp:1068-1095 | The ten results, from inputs in two buffers. |
| HlsLenet.Lenet.FC1_PE | hls/Lenet.cpp:926-951 | For every tile size dividing 120, buffer_2 holds all 120 rows, each the accumulated sum requantised with a 64-bit product; `Tiles` compares that with FC1. |
| Tiles.TiledIsExact | hls/Lenet.cpp:926-951 | On 400 8-bit inputs the tiled FC1 stores the exact requantised dot product, for all weights. |
| Tiles.TiledAgreesExactly | hls/Lenet.cpp:948 | On one input the tiled and the row-by-row FC1 store the same value if and only if the product fits 32 bits or its upper half ends in a zero byte. |
| Tiles.RowByRowIsExactExactly | hls/Lenet.cpp:895 | Before the 8-bit store, the row-by-row FC1 gives the exact activation on all 8-bit inputs if and only if the row's weights are within the overflow limits. |
| Tiles.TiledIsFc1 | hls/Lenet.cpp:926-951 | Within the limits for a range of 8-bit inputs around zero the tiled FC1 is FC1, on every input in that range. |
| Tiles.TiledCanDiffer | hls/Lenet.cpp:895-948 | 400 activations and weights of 127: the row-by-row form stores 0, the tiled form -46. |
| Arith.Requant32ExactlyWhen | hls/Lenet.cpp:235 | A 32-bit product gives another activation than the exact one if and only if it overflows. |
| Arith.StoredRequantExactlyWhen | hls/Lenet.cpp:948 | After the 8-bit store the two agree if and only if the product fits or the byte above its low half is zero. |
| HlsLenet.Lenet.FC3_PE | hls/Lenet.cpp:1097-1126 | For every tile size, the tiled FC3 is FC3. |
| HlsLenet.Lenet.LoadImage | hls/Lenet.cpp:59-90 | The 256 words become the 1024 pixels they carry. |
| HlsLenet.Lenet.FullyConnectedLayers | hls/Lenet.cpp:113-126 | Reusing the four buffers never overwrites a live value: from the second layer's maps to the ten results. |
| HlsLenet.Lenet.DoFilter | hls/Lenet.cpp:58-141 | One round of the module is the network with 8-bit storage, for every image and all weights. |
| HlsLenet.Lenet.DoFilterSplit | hls/Lenet.cpp:97-126 | So is the round with the row-split convolution layers. |
| Reference.ConvImage | vp/lenet.h:156-175 | The unfused first convolution on the pixel array. |
| Reference.ConvMaps | vp/lenet.h:205-224 | The unfused second convolution on the channel maps. |
| Reference.PoolPoint | vp/lenet.h:180-196 | The pooling comparison, started from the window's first entry, finds the window's maximum. |
| Reference.PoolAndFlatten | vp/lenet.h:226-247 | The second pooling also lays the maps out flat for FC1. |
| Reference.FcLayer | vp/lenet.h:250-272 | FC1 and FC2 on `int` arrays. |
| VpLenet.Lenet.Conv1 | vp/lenet.h:150-197 | maxpool_out holds the pooled first layer. |
| VpLenet.Lenet.Conv2 | vp/lenet.h:199-248 | fc1_in holds the flattened pooled second layer. |
| VpLenet.Lenet.Compute | vp/lenet.h:63-67 | The five layers in order compute the reference network. |
| EndToEnd.RunBoth | hls/Lenet.cpp:58-141 | Both accelerators on one image, direct or row-split: equal results whenever the reference's activations fit eight bits, and those of the unbounded integers if also the rows of FC1 are within limits. |
| Halves.StepsCommute | hls/Lenet.cpp:113-125 | Two outputs that write different cells and do not read each other's buffers can be computed in either order. |
| Halves.InterleavingsAgree | hls/Lenet.cpp:113-125 | Every interleaving of two independent halves ends where the sequential order ends; every buffer cell and weight row read, and every cell stored, exists. |
| Halves.RunCells | hls/Lenet.cpp:871-924 | A half leaves each of its cells at the value computed from the initial buffers, and every other cell as it was. |
| Halves.Fc1AnySchedule | hls/Lenet.cpp:113-119 | FC1_1 and FC1_2 in any interleaving equal FC1_1 then FC1_2. |
| Halves.Fc2AnySchedule | hls/Lenet.cpp:120-125 | FC2_1 and FC2_2 in any interleaving equal FC2_1 then FC2_2. |
| Halves.Conv2AnySchedule | hls/Lenet.cpp:102-106 | Fused_Conv2_1 and Fused_Conv2_2 in any interleaving equal the sequential order, although they share both result buffers. |
| Halves.Fc1InOrder | hls/Lenet.cpp:871-924 | The two methods run the steps of their halves: the link from the step lists to the loops. |
| Halves.Fc2InOrder | hls/Lenet.cpp:982-1038 | The same for FC2. |
| Halves.Conv2InOrder | hls/Lenet.cpp:560-656 | The same for the second convolution layer. |
| Harts.EndReservations | sw/main.cpp:91-92 | A store to a word ends every hart's reservation of it and the storing hart's own, and no other. |
| HartTheorems.StoreConditionalIsAtomic | sw/main.cpp:83-114 | A store-conditional that succeeds takes the word one step down (wait, never below zero) or up (post), without wrapping, and touches no other word; the call then returns. |
| HartTheorems.SemaphoreCounts | sw/main.cpp:77-114 | In every reachable state a semaphore holds its initial value, once initialised, plus completed posts minus completed waits. |
| HartTheorems.MutualExclusion | sw/main.cpp:258-276 | No two harts are ever inside the same mutex. |
| HartTheorems.TransfersAreWhole | sw/main.cpp:175-198 | The four register stores of two harts never interleave; every transfer starts with its own hart's registers. |
| HartTheorems.WordsGuard | sw/main.cpp:258-286 | A hart between a load and a store of cnt or total_error finds `lock` at zero, one storing DMA registers `dma_lock`, one at the barrier counter `barrier_lock`. |
| HartTransfers.TransfersMove | sw/main.cpp:175-198 | Every transfer that any schedule starts, run by the copy engine on any memory: a send puts the image's 1024 bytes at its own accelerator, a read puts the 40 result bytes into the hart's buffer and leaves them in place; all other memory is unchanged. |
| HartHistory.ErrorsAreMismatches | sw/main.cpp:274-282 | A hart's local_error is the number of mismatches, at most ten a comparison, in all comparisons it has made. |
| HartHistory.IterationsAreWhole | sw/main.cpp:257-283 | Each image a hart claims is sent, acknowledged, read back and compared exactly once, in this order; at the loop test and past the loop the five counts are equal. |
| HartHistory.EveryClearHasItsInterrupt | sw/main.cpp:267-268 | A hart never acknowledges more completions than its accelerator has signalled. |
| HartHistory.RecordsAreCounted | sw/main.cpp:175-261 | The recorded claims and transfers of a hart are exactly those it has made. |
| HartTheorems.LateInitialisationIsSafe | sw/main.cpp:235-246 | Until hart 0 initialises a word, with all others already running, it has no post, no wait and nobody inside: sem_init overwrites nothing. |
| HartTheorems.ClaimsAreOrdered | sw/main.cpp:257-261 | Claimed ids are 0, 1, 2, ... without gap or repetition, and cnt plus the harts past the test but not yet counted never exceeds B + N - 1. |
| HartTheorems.AllImagesClaimed | sw/main.cpp:257-261 | Once a hart's loop has ended, cnt is between B and B + N - 1 and every id below B is claimed exactly once. |
| HartTheorems.BarrierWaitsForAll | sw/main.cpp:116-128 | Nobody leaves the barrier before every hart has arrived there with its errors added. |
| HartTheorems.BarrierTokens | sw/main.cpp:118-121 | The last hart posts exactly N - 1 tokens; afterwards the tokens left are as many as the harts still waiting, and the counter is back at zero. |
| HartTheorems.PrintedTotal | sw/main.cpp:285-297 | The total that hart 0 prints is the number of mismatches in all comparisons that all harts have made, counted on the schedule. |
| HartRuns.NextKeepsInv | sw/main.cpp:213-304 | Every step of every hart, and every interrupt, keeps the whole invariant. |
| HartRuns.RunKeepsInv | sw/main.cpp:213-304 | The invariant holds after every schedule, for any number of harts and images. |
| HartLocks.HandOver | sw/main.cpp:83-114 | A mutex word and its owner change together: taken at 1, released at 0. |
| HartLocks.InitKeepsSync | sw/main.cpp:77-81 | Initialising a word keeps the locks, counts and reservations. |
| HartWork.LoopTestKeepsClaims | sw/main.cpp:257 | The unlocked test admits at most one hart for each hart beyond those counted. |
| HartWork.StoringKeepsClaims | sw/main.cpp:260 | The increment stores one more than the current count: nobody changed it since the load. |
| HartWork.StoringKeepsTotal | sw/main.cpp:286 | The reduction loses no update. |
| HartWork.StoresKeepDma | sw/main.cpp:178-181 | While one hart stores its registers, those it has stored stay as stored. |
| HartBarrier.LastKeepsBarrier | sw/main.cpp:118 | The hart that reads N - 1 under the lock is the last one: all others have been counted. |
| HartBarrier.CountKeepsBarrier | sw/main.cpp:123 | The counter increment loses no arrival. |
| HartBarrier.WakeKeepsReleasing | sw/main.cpp:125 | A woken hart uses up exactly one token. |
| HartProgress.StuckOnlyThere | sw/main.cpp:83-114 | A hart can always go on, except at a zero word in a wait, at a low flag, and at the end. |
| HartProgress.NoDeadlock | sw/main.cpp:213-304 | While some hart is unfinished and none polls a low flag, some hart can go on. |
| HartCompletion.ProgramCompletes | sw/main.cpp:213-297 | From every reachable state some continuation, of bounded length, ends with every hart finished, hart 0's print equal to the mismatches of all comparisons, and every image claimed exactly once. |
| HartCompletion.Advance | sw/main.cpp:213-297 | While a hart is unfinished, one or two events (a hart's access, a whole semaphore call, or an interrupt and the poll after it) bring the program closer to its end. |
| HartCompletion.EntryCloser | sw/main.cpp:257 | Entering an iteration uses up one of the B + N - 1 entries. |
| HartCompletion.CallCloser | sw/main.cpp:83-114 | A semaphore call on a usable word, run on its own, completes. |
| Accelerator.ResultsAreNet | sw/main.cpp:263-275 | Assuming that the DMA engine serves this hart alone and that a read-back lands before the hart goes on: in every interleaving the k-th result read is the network applied to the k-th image sent. |
| Accelerator.NoCompletionLost | sw/main.cpp:30-31 | Interrupts raised equal completions observed, plus one if an interrupt is pending, plus one if the flag is up: none is merged, lost or seen twice. |
| Accelerator.InputIsStable | vp/lenet.h:77-96 | While an image is computed, input_img is that image and no step changes it. |
| Accelerator.QueuesNeverBlock | vp/lenet.h:136-138 | No queue exceeds its 16 places, and the bus write never waits for room. |
| Accelerator.LastByteFills | vp/lenet.h:84-94 | When the writer takes the last byte, input_img is the image and no lane holds anything else. |
| Accelerator.SendKeepsTransit | vp/lenet.h:136-138 | Lane j holds exactly the bytes of the image at positions j modulo 64 that were sent and not yet taken. |
| Accelerator.RunKeeps | vp/lenet.h:54-102 | Every reachable state is in one of the six stages of an image's round. |
| Accelerator.NeverStuck | vp/lenet.h:54-148 | In every reachable state some process can take a step that changes the state. |
| Accelerator.StreamIsLenet | vp/lenet.h:61-69 | Under the same two assumptions, with the reference network: every result read is the reference's for that image, and the hardware's when activations fit. |
| AcceleratorProgress.StepsRunOut | vp/lenet.h:54-102 | Every step that changes anything, except starting the next transfer, strictly reduces the steps left in the round, at most 3103. |
| AcceleratorProgress.ImageCompletes | vp/lenet.h:54-102 | From every reachable state the outstanding image can be completed within the steps left, with the right result. |
| Dma.BlockedIsEchoed | vp/dma.h:68-79 | What the blocked copy leaves, for every length and every overlap of the regions: the byte an earlier block may already have overwritten, or the original. |
| Dma.SafeCopy | vp/dma.h:63-79 | On disjoint regions, for dst <= src, and within one block it is one copy of the original bytes; all other memory is unchanged. |
| Dma.UnsafeCopy | vp/dma.h:68-79 | On any other pair of regions some memory contents are copied wrongly. |
| Dma.CopyIsFaithfulExactly | vp/dma.h:68-79 | The blocked copy is a single copy for all memory contents if and only if the regions are safe. |
| Dma.SimpleDma.CopyBlock | vp/dma.h:63-66 | One read and one write transaction through the 64-byte buffer copy the block. |
| Dma.SimpleDma.PerformMemcpy | vp/dma.h:68-79 | Terminates for every length, including 0 and multiples of 64, and leaves memory as the blocked copy; on safe regions as a single copy. |
| Dma.SimpleDma.WriteRegister | vp/dma.h:117-143 | A register write changes that register alone, and only the operation register starts the engine. |
| Dma.SimpleDma.RunOnce | vp/dma.h:81-115 | NOP leaves memory alone, MEMCPY copies, and both end with one interrupt. |
| Flash.SetPosKeepsView | vp/flash.h:29-38 | With successful transfers, moving to any block keeps what readers see and a coherent cache. |
| Flash.SetPosUnderFailures | vp/flash.h:29-71 | When transfers may stop short: what readers see is kept if and only if the block was already selected, or the missing part of the commit was already on the device and the missing part of the load already in the buffer; also at the first access after power-up or a clear. |
| Flash.AddressWrite | vp/flash.h:148-150 | A write to the address register stores each byte at its own place and changes nothing else. |
| Flash.AddressReadsBack | vp/flash.h:148-152 | A read of the address register returns what was last written, byte for byte, and changes nothing. |
| Flash.SizeRead | vp/flash.h:157-159 | A read of the size register returns bytes of the size, lowest first. |
| Flash.SelectThenRead | vp/flash.h:148-174 | Storing a block number into the address register in two parts, split anywhere, and then reading returns that block's bytes, whatever was selected or buffered before. |
| Flash.NumberWrittenOut | vp/flash.h:91-99 | The register's number has its first byte lowest. |
| Flash.DirtyAfterMove | vp/flash.h:29-71 | After a move the buffer is still to be committed if and only if it was and neither the load nor a commit of the old block was complete. |
| Flash.ClearUnderFailures | vp/flash.h:72-77 | A clear whose commit may stop short leaves the device as readers saw it if and only if the bytes not sent were already there. |
| Flash.NumberOfOctets | vp/flash.h:91-99 | A register of k bytes gives back every number below 256 to the k. |
| Flash.SizeIsBlocksExactly | vp/flash.h:117-127 | The size register counts blocks if and only if the device is a file or its blocks are one byte; otherwise it counts bytes, which are more. |
| Flash.StepRefines | vp/flash.h:148-174 | One access returns what a flat array would, and changes it as a flat array would change. |
| Flash.ClearCommits | vp/flash.h:72-77 | Clearing leaves the device equal to what readers saw. |
| Flash.CacheRefinesFlat | vp/flash.h:132-174 | For every history of register accesses, reads and writes the data read are those of a flat byte array, and after the final clear the device is that array. |
| FlashDevice.Blockbuffer.SetPos | vp/flash.h:29-38 | The in-place buffer follows the specification, for every transfer outcome. |
| FlashDevice.Blockbuffer.WriteBlock | vp/flash.h:49-59 | A full transfer clears the dirty flag, a short one leaves it and the bytes sent. |
| FlashDevice.Blockbuffer.ReadBlock | vp/flash.h:61-71 | A full transfer loads the block and clears the dirty flag, a short one leaves the flag and the rest of the buffer. |
| FlashDevice.Flashcontroller.Transport | vp/flash.h:139-178 | One access on the in-place device, to any part of the two registers or of the data region and for every transfer outcome, is one step of the specification. |
| FlashDevice.Flashcontroller.Run | vp/flash.h:132-178 | A whole history on the in-place device, ended by the destructor, reads and leaves what a flat byte array would. |

## Left out

- HlsLenet.Lenet.FusedLineBufConv1: the single-channel loop nests of the first layer's line-buffer form run the channel loop outermost here and innermost in the source; with one channel the additions are the same, and `Convolution.LoopOrdersAgree` covers any number. Its `line_buffer` has a leading dimension of 1 here.
- HlsLenet.Lenet.FusedBufConv1: the same loop order remark; it reads buffer_1, which do_filter does not load in that build, so the image is assumed there, and `SlidingWindow.WindowLayer` takes any source.
- HlsLenet.Lenet.FC1_PE: demands a tile size dividing 120, which is exactly when the unguarded weight reads stay in the table (`FullyConnected.UnguardedTilesInBounds`); it reads 400 inputs from buffer_1 and is not composed with the two-buffer second layer, which leaves them in two.
- Halves.InterleavingsAgree: one output is one step; finer interleavings of the reads inside an output are not modelled, but no half reads a buffer that the other writes.
- Harts.Next: accesses are sequentially consistent; the weak memory order of the RISC-V memory model is not modelled.
- HartTheorems.TransfersAreWhole: says that a transfer starts with its own hart's registers; that they stay fixed until the transfer ends is an assumption of the DMA model, because the software releases the lock right after the OP store.
- Accelerator.ResultsAreNet: assumes that the DMA engine serves this hart alone and that the hart looks at its buffer after the read-back has landed; the software shares one engine and does not wait for it. Pixels are modelled after their conversion to `sc_int<8>`, results before they are cut into four bytes.
- Accelerator.StreamIsLenet: the same two assumptions.
- HartCompletion.ProgramCompletes: some schedule completes the program; nothing is said about an unfair scheduler or about store-conditionals that fail for ever.
- Accelerator.QueuesNeverBlock: the bus side is one byte a step; transactions of 64 bytes are sequences of such steps.
- FlashDevice.Flashcontroller.Transport: accesses stay inside the register or the block they address, and the selected block is on the device; the source asserts less for a block device (`Flash.SizeIsBlocksExactly`). Unsupported commands, a missing file and delays are not modelled.
- Dma.SimpleDma.PerformMemcpy: assumes that src + len and dst + len do not wrap 32 bits and that the registers do not change during the run.
- Overflow of a 32-bit product of two `int`s, undefined in C++, is modelled as wrap-around; `ExactNetwork` and `Overflow` say when it cannot happen.
- hls/Lenet.cpp Conv2 (463-509): it ignores a loop variable in its store index and is not the reference layer; FC2 (953-980) is not called.
- hls/Lenet.cpp FC2_PE (1040-1066): its store guard is 10 rather than 84, so it does not compute FC2.
- The batch dimension, always 1, and the concrete weight tables, test images and expected answers: weights and images are arbitrary.
- Builds that mix the convolution and fully connected forms of different configurations, and all HLS directives.
- Reuse of the barrier for a second round: the program uses it once.
- The chain of prints after hart 0's, with `print_sem` and `print_lock`, and the error counter as a 32-bit word.
- PLIC, CLINT and the trap entry of `sw/irq.c`: an interrupt is a pending bit that the handler turns into the hart's flag.
- SystemC time, bus wiring, ethernet, terminal, sensors, random source, MRAM and the display.
