# ProSail simulator batch engine — a Dafny model

This project models the batch engine of the otb-bv `ProSailSimulator`
application (`otbProSailSimulator.cxx`). The application reads a table of
biophysical-variable samples and simulates one spectrum per sample. Each
spectrum holds `nbBands` reflectances, then fcover, then fapar. The ProSail
radiative-transfer functor does the physics. The model covers everything
around it:

- `parse_bv_sample_file`: the header line is dropped, then there is one record per further line (`SampleTable`);
- the `noisevar` list: one value is broadcast to every band, any other count must equal `nbBands` (`NoiseConfig`);
- the effective thread count (`ThreadCount`);
- the partition of N samples into T blocks, as its iterator loop computes it (`Partition`);
- the `simulator` lambda, which writes results into the pre-sized result vector, and the threads running it (`Worker`);
- `WriteSimulation` and the output loop (`Output`, `Application`);
- the angle selection and the order of the steps in `DoExecute` (`Application`).

Opaque collaborators are parameters: the functor (`prosail`), the
conversion of a word to a double, the formatting of a double,
`boost::lexical_cast`, the noise draws and the metadata helper's answers.
Doubles are `real`.

The partition, as written, never simulates the last sample. It also leaves
the vectors whenever T >= N with T >= 2, or N = 0. Both defects are proved
below (see "## Findings"), and a corrected partition is proved to cover
every sample.

## Model

| member | source | states |
|---|---|---|
| `SampleTable.SampleFile.Open` | sen2agri-processors/VegetationStatus/otb-bv/src/applications/otbProSailSimulator.cxx:239-246 | opening the sample file: read position 0, no eof, failbit set exactly when the open failed |
| `SampleTable.SampleFile.GetLine` | sen2agri-processors/VegetationStatus/otb-bv/src/applications/otbProSailSimulator.cxx:38-45 | `getline` returns the next '\n'-separated piece of the unread text; the stream stays good exactly when a '\n' followed it, and then the rest to read is the remaining pieces; on a stream that is not good it reads nothing |
| `SampleTable.SampleFile.Close` | sen2agri-processors/VegetationStatus/otb-bv/src/applications/otbProSailSimulator.cxx:57 | the stream is closed and nothing else about it changes |
| `SampleTable.JoinSplit` | sen2agri-processors/VegetationStatus/otb-bv/src/applications/otbProSailSimulator.cxx:38-45 | the lines `getline` yields, rejoined with '\n', give the whole file text back (nothing is lost or reordered) |
| `SampleTable.SplitJoin` | sen2agri-processors/VegetationStatus/otb-bv/src/applications/otbProSailSimulator.cxx:38-45 | '\n'-free lines joined with '\n' are read back as exactly those lines |
| `SampleTable.SplitAtLineEnd` | sen2agri-processors/VegetationStatus/otb-bv/src/applications/otbProSailSimulator.cxx:45 | the first line is the text before the first '\n', and the other lines are those of the text after it |
| `SampleTable.ReadRecord` | sen2agri-processors/VegetationStatus/otb-bv/src/applications/otbProSailSimulator.cxx:46-54 | a record has exactly `nVars` fields: field i is the i-th word of the line, and the fields past the last word keep the unset value |
| `SampleTable.ParseBvSampleFile` | sen2agri-processors/VegetationStatus/otb-bv/src/applications/otbProSailSimulator.cxx:34-59 | the result is the record of every line after the header, in file order, or no record when the file did not open; the stream ends closed |
| `SampleTable.SamplesShape` | sen2agri-processors/VegetationStatus/otb-bv/src/applications/otbProSailSimulator.cxx:41-56 | there is one record per '\n' of the file, so a trailing '\n' adds a record read from an empty line; each record has `nVars` fields, filled positionally from the words of its line |
| `SampleTable.HeaderIgnored` | sen2agri-processors/VegetationStatus/otb-bv/src/applications/otbProSailSimulator.cxx:36-38 | the header's content never reaches a record: any header gives the same records |
| `SampleTable.TokensWord` | sen2agri-processors/VegetationStatus/otb-bv/src/applications/otbProSailSimulator.cxx:46-52 | a word followed by a space is the first value the string stream extracts, and the rest follow |
| `ThreadCount.ToUnsigned` | sen2agri-processors/VegetationStatus/otb-bv/src/applications/otbProSailSimulator.cxx:294-297 | the `int` thread request converted to `unsigned int` is unchanged when non-negative and wraps by 2^32 when negative |
| `ThreadCount.ThreadsUsed` | sen2agri-processors/VegetationStatus/otb-bv/src/applications/otbProSailSimulator.cxx:293-300 | the thread count is the minimum of the hardware hint and the converted request: it is never above the hint, a missing request keeps the hint, and a negative request is ignored (it wraps to at least 2^31, above any hint below that) |
| `ThreadCount.EffectiveThreads` | sen2agri-processors/VegetationStatus/otb-bv/src/applications/otbProSailSimulator.cxx:293-300 | the two assignments give exactly `ThreadsUsed`: the hint, replaced by the converted request only when that is strictly smaller |
| `NoiseConfig.BuildNoiseGenerators` | sen2agri-processors/VegetationStatus/otb-bv/src/applications/otbProSailSimulator.cxx:209-234 | a count that is neither 1 nor `nbBands` is an error; otherwise it succeeds exactly when every band's value converts, and then gives `nbBands` zero-mean distributions in band order, each with that band's value (the single value for every band when only one is given) as its second argument; with an accepted count every failure is a failed conversion, naming the first band that fails |
| `Partition.LastAdvance` | sen2agri-processors/VegetationStatus/otb-bv/src/applications/otbProSailSimulator.cxx:307-318 | `remainder - 1`, wrapped in `size_t` and converted to the iterator's difference type, is exactly N % T - 1 (so -1 when the remainder is 0) |
| `Partition.PartitionBlocks` | sen2agri-processors/VegetationStatus/otb-bv/src/applications/otbProSailSimulator.cxx:306-325 | the iterator loop yields exactly the blocks of `Layout`: block i starts at i*block_size, where the previous one ended; it writes from i*block_size; the last block also advances remainder - 1 |
| `Partition.LayoutShape` | sen2agri-processors/VegetationStatus/otb-bv/src/applications/otbProSailSimulator.cxx:306-325 | on the well-defined domain: block t < T-1 is [t*b, (t+1)*b) with b = N/T >= 1; the last block is [(T-1)*b, N-1); blocks are contiguous from 0; each block writes where it reads |
| `Partition.LayoutCoverage` | sen2agri-processors/VegetationStatus/otb-bv/src/applications/otbProSailSimulator.cxx:306-325 | on the well-defined domain the blocks stay in bounds, are pairwise disjoint and in order, and together read exactly [0, N-1): every sample but the last has an owner block, and no block reads sample N-1 |
| `Partition.InBoundsIffWellDefined` | sen2agri-processors/VegetationStatus/otb-bv/src/applications/otbProSailSimulator.cxx:306-318 | the iterators stay inside the vectors if and only if T == 1 and N >= 1, or 2 <= T < N |
| `Partition.FiveSamplesTwoThreads` | sen2agri-processors/VegetationStatus/otb-bv/src/applications/otbProSailSimulator.cxx:306-318 | N = 5, T = 2 gives blocks [0,2) and [2,4): sample 4 is never read |
| `Partition.TwoSamplesTwoThreads` | sen2agri-processors/VegetationStatus/otb-bv/src/applications/otbProSailSimulator.cxx:308-318 | N = 2, T = 2 gives a second block [2,3), past the end of the vectors |
| `Partition.CorrectedLayoutCovers` | sen2agri-processors/VegetationStatus/otb-bv/src/applications/otbProSailSimulator.cxx:306-318 | for every N and T >= 1, the corrected blocks stay in bounds, write where they read, are pairwise disjoint and in order, and together read exactly [0, N) |
| `Partition.CorrectedAgreesWithLayout` | sen2agri-processors/VegetationStatus/otb-bv/src/applications/otbProSailSimulator.cxx:313-318 | on the well-defined domain the corrected blocks differ from the written ones only in where the last block ends (N instead of N-1) |
| `Worker.Cell` | sen2agri-processors/VegetationStatus/otb-bv/src/applications/otbProSailSimulator.cxx:279-287 | a stored result has the functor's length; with noise on, each of the first `nbBands` entries gets one noise value added; fcover, fapar and every entry from `nbBands` on are the functor's own |
| `Worker.Simulate` | sen2agri-processors/VegetationStatus/otb-bv/src/applications/otbProSailSimulator.cxx:271-291 | for each k in [first, last), slot offset + (k - first) gets the simulation of sample k; every other slot of the result vector is unchanged |
| `Worker.RunWorkers` | sen2agri-processors/VegetationStatus/otb-bv/src/applications/otbProSailSimulator.cxx:309-327 | after all threads have joined, the result vector is that of running one worker per block |
| `Worker.ApplyAllAt` | sen2agri-processors/VegetationStatus/otb-bv/src/applications/otbProSailSimulator.cxx:271-291 | with disjoint write ranges, a slot holds what the one block writing it stores there, or its old value if no block writes it |
| `Worker.ApplyAllReorder` | sen2agri-processors/VegetationStatus/otb-bv/src/applications/otbProSailSimulator.cxx:319-327 | running the blocks in any order gives the same result vector |
| `Worker.AlignedDisjoint` | sen2agri-processors/VegetationStatus/otb-bv/src/applications/otbProSailSimulator.cxx:311-324 | blocks that write where they read, over ordered disjoint read ranges, write disjoint slots |
| `Worker.AsWrittenSlot` | sen2agri-processors/VegetationStatus/otb-bv/src/applications/otbProSailSimulator.cxx:306-327 | on the well-defined domain slot j < N-1 holds sample j's simulation after the run, and slot N-1 keeps its default |
| `Worker.AsWrittenRun` | sen2agri-processors/VegetationStatus/otb-bv/src/applications/otbProSailSimulator.cxx:306-327 | the whole result vector after the run as written: result i belongs to sample i for every i < N-1, and the last slot is never written |
| `Worker.CorrectedRun` | sen2agri-processors/VegetationStatus/otb-bv/src/applications/otbProSailSimulator.cxx:306-327 | with the corrected partition every slot i < N holds sample i's simulation, whatever T >= 1 |
| `Output.FieldsAppend` | sen2agri-processors/VegetationStatus/otb-bv/src/applications/otbProSailSimulator.cxx:149-150 | writing one more value appends that value and one space |
| `Output.SerialiseAppend` | sen2agri-processors/VegetationStatus/otb-bv/src/applications/otbProSailSimulator.cxx:331-332 | writing one more result appends exactly its line |
| `Output.EmptyResultLine` | sen2agri-processors/VegetationStatus/otb-bv/src/applications/otbProSailSimulator.cxx:147-152 | an empty result is written as a bare "\n" |
| `Output.SerialisedLines` | sen2agri-processors/VegetationStatus/otb-bv/src/applications/otbProSailSimulator.cxx:331-332 | the output has exactly one line per result slot, in slot order, and nothing after the last end of line |
| `Output.FieldsTokens` | sen2agri-processors/VegetationStatus/otb-bv/src/applications/otbProSailSimulator.cxx:147-152 | the words of a written line are the formatted values, in order |
| `Application.AngleSelection` | sen2agri-processors/VegetationStatus/otb-bv/src/applications/otbProSailSimulator.cxx:156-197 | the metadata never changes the fAPAR solar zenith, which is `solarzenithf` or else the explicit `solarzenith`; band-0 angles win over global ones, and the global sensor zenith is used when there are no band angles; metadata without angles keeps the explicit angles |
| `Application.ProSailSimulator.ResolveAngles` | sen2agri-processors/VegetationStatus/otb-bv/src/applications/otbProSailSimulator.cxx:156-197 | the four angle members end up as the parameters and the metadata select them |
| `Application.ProSailSimulator.WriteSimulation` | sen2agri-processors/VegetationStatus/otb-bv/src/applications/otbProSailSimulator.cxx:147-152 | appends every value followed by a space, then "\n", to the simulations file |
| `Application.ProSailSimulator.WriteSimulations` | sen2agri-processors/VegetationStatus/otb-bv/src/applications/otbProSailSimulator.cxx:331-332 | appends the lines of all results in slot order |
| `Application.SimulateSamples` | sen2agri-processors/VegetationStatus/otb-bv/src/applications/otbProSailSimulator.cxx:269-327 | succeeds exactly when the thread count is positive and the partition is well defined, and then returns one result per sample: sample i's simulation in slot i for i < N-1, and an empty last slot |
| `Application.ProSailSimulator.DoExecute` | sen2agri-processors/VegetationStatus/otb-bv/src/applications/otbProSailSimulator.cxx:154-336 | the angle members end as the parameters and metadata select them; a wrong noise count fails with the given and expected counts, and any rejected noise list (a wrong count or a value that does not convert) fails with the noise error and leaves the simulations file untouched; the run completes exactly when the noise list is accepted, T >= 1 and the partition is well defined; a completed run writes one line per sample in sample order, the last one empty |

## Left out

- The ProSail functor (`SetRSR`, `SetParameters`, `SetBVs`, `operator()`): this is foreign radiative-transfer code. It is the parameter `prosail`, a function of the acquisition parameters and one sample. Every result is taken to have `cols` entries (`nbBands + 2`).
- Loading the response-function file (`countColumns`, `SatRSRType::Load`) and the log of band intervals: this is file I/O in a library not in this model. `cols > 2` is a precondition, because the source only `assert`s it.
- Random draws: the noise added to band b of slot j is the given `noise(j, b)`. The source uses one generator and one set of distributions shared by all threads, which is a data race. So the draws and their order are not modelled, and the distributions built by `BuildNoiseGenerators` are only validated, not sampled.
- Worker.Cell: weaker than the source in one respect. The noise value it adds is not tied to the band's distribution (its "variance" is passed as the standard deviation).
- NoiseConfig.BuildNoiseGenerators: the per-band log line, which always prints `var_str[0]`, is not modelled (logging).
- Worker.Simulate: the noise is added to a local copy and then stored, where the source stores first and adds in place. The slot ends with the same value either way.
- Threads: they are sequential calls, in thread order, after the whole partition is computed. Concurrency is not modelled. `Worker.ApplyAllReorder` shows that the order does not matter.
- The simulations file failing to open is not modelled. A sample file that fails to open gives zero records. The `catch` blocks around both opens never fire, because streams do not throw by default.
- Converting words to doubles and doubles to text: these are the parameters `parse` and `format`. A word that fails to convert, which would set the string stream's failbit and leave the remaining fields unset, is not distinguished from one that converts.
- SampleTable.ReadRecord: weaker than the source in one respect. A word is a whole whitespace-separated run, whereas `>>` may stop inside a run that is not entirely a number.
- Undefined behaviour: a zero thread count (`hardware_concurrency()` returning 0, or a request of 0) divides by zero, and partition iterators that leave the vectors are undefined. `DoExecute` stops there with `Failed(ZeroThreads)` or `Failed(BlocksOutOfRange)`, while the C++ program's behaviour is undefined.
- Logging, parameter declaration (`DoInit`) and the OTB application lifecycle carry no behaviour and are not modelled.
- The default value of a result slot is taken to be an empty result. `otbProSailSimulatorFunctor.h` is not part of this model.

## Findings

| source | as written | input that shows it | evidently intended | confidence | as-written member | corrected member |
|---|---|---|---|---|---|---|
| sen2agri-processors/VegetationStatus/otb-bv/src/applications/otbProSailSimulator.cxx:313-318 | the last block ends at start + block_size + remainder - 1, which is N - 1 | N = 5, T = 2: blocks [0,2) and [2,4); sample 4 is never simulated, and its output line is empty | the last block takes the remainder and ends at N | high (not executed) | `Partition.PartitionBlocks`, `Partition.FiveSamplesTwoThreads`, `Worker.AsWrittenRun` | `Partition.CorrectedLayout`, `Partition.CorrectedLayoutCovers`, `Worker.CorrectedRun` |
| sen2agri-processors/VegetationStatus/otb-bv/src/applications/otbProSailSimulator.cxx:306-318 | when T >= N (block_size = N) with T >= 2, or N = 0, the later blocks start at N and end past it | N = 2, T = 2: the second block is [2,3); N = 0, T = 1: the only block is [0,-1) | surplus threads get empty blocks; N = 0 gives no work | high (not executed) | `Partition.InBoundsIffWellDefined`, `Partition.TwoSamplesTwoThreads` | `Partition.CorrectedLayout`, `Partition.CorrectedLayoutCovers` |

The corrected partition clamps block positions to N and ends the last block
at N. `Worker.RunWorkers` accepts any partition that fits the vectors, and
`Worker.CorrectedRun` proves that running it over the corrected partition
gives every sample its own simulation. `Application.ProSailSimulator.DoExecute` keeps the
partition as written, so that it describes the program's actual output.
