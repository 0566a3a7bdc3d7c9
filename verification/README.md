# Verified model of the training framework's stateful cores

A Dafny model of the parts of the repository whose correctness rests on state kept across many
calls, and proofs of what those parts are for. `dafny verify dfyconfig.toml` checks everything.

| Part | Files |
|---|---|
| Asynchronous activation offload | `OffloadWindow`, `OffloadStreams`, `OffloadModel`, `OffloadInvariant`, `OffloadLog`, `OffloadForward`, `OffloadBackward`, `OffloadFiling`, `OffloadTheorems`, `OffloadHandler`, `OffloadTraining` |
| Packing, from lengths and from a stream | `Packing`, `PackingNextFit`, `PackingMerge`, `PackingDataset`, `PackingStream` |
| Sharded append log | `ShardedLog`, `IndexedDataset` |
| Text codecs and the token-id path | `Scan`, `Numerals`, `GridCodec`, `GridScan`, `GridRoundTrip`, `ToolCalls`, `ToolCallRoundTrip`, `TokenIds` |
| Latent marker positions | `LatentExpansion`, `LatentPositions`, `LatentPrefix`, `LatentText` |
| Data feeding, GPU scheduling, error merge | `DataFeeding`, `GpuLease`, `GpuSchedule`, `BatchErrors` |
| Shared definitions | `Options`, `Sequences`, `Sets` |

**Offload.** `OffloadModel` gives every handler operation as a function on the handler's whole
state, returning `None` where the program would fail an assertion, miss a dictionary key or `view`
a tensor of the wrong size. `OffloadHandler` is the object itself; each method is proved to take
the state where the function takes it. Work enqueued on the three streams is a ghost log, and the
only order between streams is the one `wait_stream` gives. `OffloadTheorems` then speaks about all
runs: any number of training steps, any pushes per layer, any pop order within a layer, any
1 <= groups <= layers. Nothing is assumed about the tensors: `RunRefinesFiling` says what every run
does, which is to answer each pop with what was filed first under the tensor's key in its layer,
and to fail exactly where that has a wrong size. `ActsAsMapIffKeysDetermine` says when that is what
a plain map would do: over whole steps, if and only if, in the layers whose tensors leave the
device, tensors with the same key (an address and an element type) have the same flat contents.
`OffloadTraining` is a client that drives the object through whole steps.

**Packing.** The external `binpacking` function is any function that loses, duplicates and invents
nothing and makes no bin heavier than the volume unless it is a single item; `NextFitIsPacker`
shows there is one, and with that one packing in rounds gives what packing everything at once
gives (`WorkerPacks`, `MergedIsNextFit`, `StreamPacks`). The worker processes' shared queue is any sequence that contains each worker's
messages in that worker's order.

**Sharded log.** The writer thread is a method that may run whenever a batch is queued; the object
invariant ties files and lists to the batches written so far at every moment, and `WrittenLayout`
says where the shards are cut.

**Scheduler.** `Begin` runs any sequence of queue turns and process polls and proves what holds in
every state, what each step changes, and that no experiment is lost; `StartsExactly` says in terms
of free devices and running experiments which attempts start, wait or are skipped.

**Codecs.** Regular expressions are leftmost scans, and on every text each scan is proved to find
exactly the leftmost, non-overlapping matches (`CallBodiesAre`, `ParametersAre`, `FutureBlocksAre`,
`CodesInAre`). The grid round trip holds exactly when every
code has six digits (`GridsRoundTrip`), and the tool-call round trip exactly when every call is
printable (`CallsRoundTrip`): no value holds a closing delimiter, every name is non-empty, without
`>` and not ending in `</seed:tool_call`, and the function's name does not itself hold a parameter
tag when there are arguments.

**Markers.** The loop with its `used` set returns exactly the positions that hang together with a
keyword. On a prompt that holds the latent prefix, the two position lists split it between them
exactly when it has markers of both kinds, the suffix id is not 0 and no marker sub-token touches it.

**Where the code and its own text disagree.** `parse_token_block` announces that it takes a block as
`extract_future_blocks` lists it, but the latter drops the delimiters, and no block printed by the
repository parses without them (`UnwrappedFails`); `scripts/stage05_inference_vis.py` wraps the
blocks again, as the model does, while `scripts/emu35_image_tokenize_demo.py:292-297` does not. A
visual suffix whose id is 0 is treated as missing (`if vis_suffix_id`), which the model keeps
(`UsedVisualKeywords`) and `SplitPrefix` therefore names as a condition. An experiment that asks for
no GPU is started and only then raises, because the overlap check reads an environment variable
that was never set; the model keeps this (`LaunchedThenRaised`).

## Model

| member | source | states |
|---|---|---|
| OffloadTheorems.RunRefinesMap | swift/callbacks/activation_cpu_offload.py:295-427 | for 1 <= groups <= layers and every run of any number of training steps in which, in the layers that leave the device, keys determine contents, no assertion fails, no window or group lookup misses, no `view` has a wrong size, and every push and pop is answered as by a plain map from tags to tensors |
| OffloadTheorems.ActsAsMapIffKeysDetermine | swift/callbacks/activation_cpu_offload.py:30-32 | over whole training steps the handler succeeds and answers as a plain map if and only if, in every step and every layer that leaves the device, tensors pushed under the same key have the same contents |
| OffloadTheorems.RunRefinesFiling | swift/callbacks/activation_cpu_offload.py:295-427 | for every run, whatever the keys: each pop returns what was filed first under its key in its layer, with its own shape; the run fails exactly when a group is to be brought back whose filed contents have not the size of some shape; and the invariant holds at the end |
| OffloadTheorems.StepsLeaveNothing | swift/callbacks/activation_cpu_offload.py:295-427 | after each full training step every dictionary and counter of the handler is as initially, and each group was copied out once and copied back once per step |
| OffloadTheorems.AtRest | swift/callbacks/activation_cpu_offload.py:405-427 | any state that satisfies the invariant between two steps is the initial one, up to the log |
| OffloadTheorems.RunOrdered | swift/callbacks/activation_cpu_offload.py:330-427 | in every run's log conflicting work is ordered by the waits: a copy out after the layer that wrote the group, the release of device references after the copy out, the copy back after the copy out, the first read after the copy back, and a copy back after earlier reads whose memory it may reuse |
| OffloadTheorems.RunHoldsSources | swift/callbacks/activation_cpu_offload.py:311-312 | at every point of every run, while a copy out has not been waited for, each of its source tensors still in use is referenced by the handler and is the very tensor pushed |
| OffloadTheorems.LogTells | swift/callbacks/activation_cpu_offload.py:295-427 | no work is missing from the log: a push logs what it produces, a pop what it uses, and a commit each change it makes to labels, host copies and references |
| OffloadTheorems.AtMostTwoGroups | swift/callbacks/activation_cpu_offload.py:531-574 | a model of n >= 3 FSDP layers gets layer counts, and with them every legal run of n layers per half succeeds, only the current group and its predecessor ever have a tensor the handler keeps on the device, and after the forward half only the last layer has; below 3 there are none |
| OffloadTheorems.TwoGroups | swift/callbacks/activation_cpu_offload.py:533-535 | the same residency bound from the invariant alone, when each window ends one layer after its group |
| OffloadTheorems.RunResidency | swift/callbacks/activation_cpu_offload.py:295-427 | in every run with fewer groups than layers a tensor is kept on the device exactly while it is in use and its group is either never offloaded or its window is not yet passed |
| OffloadTheorems.ResidentExactly | swift/callbacks/activation_cpu_offload.py:295-427 | the same from the invariant alone |
| OffloadTheorems.RunBuffers | swift/callbacks/activation_cpu_offload.py:311-312 | in every run the buffer dictionary holds exactly the offloadable tensors in use, each the tensor pushed while its group waits for its copy, and nothing once that is awaited |
| OffloadTheorems.ForwardOffloadsAll | swift/callbacks/activation_cpu_offload.py:351-384 | with fewer groups than layers, after every forward half no tensor of an offloaded group is left on the device |
| OffloadTheorems.RestoresIffKeysDetermine | swift/callbacks/activation_cpu_offload.py:30-32 | copying a group out and back returns every tensor's shape and contents if and only if tensors of the group with equal keys have equal contents |
| OffloadTheorems.StepSafe | swift/callbacks/activation_cpu_offload.py:295-427 | from any state satisfying the invariant a legal event fails exactly when it brings back a wrong size; otherwise it answers what was filed and keeps the invariant |
| OffloadTheorems.SafeLogOrdered | swift/callbacks/activation_cpu_offload.py:357-365 | a log in which every entry was safe when added orders all pairs of conflicting entries |
| OffloadTheorems.Reached | swift/callbacks/activation_cpu_offload.py:295-427 | the state a successful run leads to satisfies the invariant and has the configuration it started with |
| OffloadStreams.OrderedIsHappensBefore | swift/callbacks/activation_cpu_offload.py:364-365 | reading `wait_stream` as "what comes next on this stream follows all that is on that one so far" gives exactly the transitive closure of stream order and waits |
| OffloadStreams.OrderedIffReached | swift/callbacks/activation_cpu_offload.py:364-365 | for every prefix of a log, an entry is awaited by a stream if and only if some entry on that stream is, or transitively follows, it |
| OffloadForward.PushSafe | swift/callbacks/activation_cpu_offload.py:295-315 | a push within the forward half never meets a used tag, returns the tag the map model would, and keeps the invariant, whatever its key |
| OffloadBackward.PopSafe | swift/callbacks/activation_cpu_offload.py:317-328 | a pop of a tag of the current group never finds a label in place of a tensor, returns the filed contents under the pushed shape, and keeps the invariant |
| OffloadForward.CommitForwardSafe | swift/callbacks/activation_cpu_offload.py:351-384 | every forward commit finds its window entry and only tensors to copy, and keeps the invariant into the next layer |
| OffloadForward.KickstartSafe | swift/callbacks/activation_cpu_offload.py:354-358 | the first commit of a step leaves group 0, and no other group, with its contents on the host |
| OffloadForward.AdvanceOffloadSafe | swift/callbacks/activation_cpu_offload.py:360-377 | at the end of group n's window its references go only after its copy is awaited, and group n + 1 is complete when its copy starts |
| OffloadForward.BulkOffloadSafe | swift/callbacks/activation_cpu_offload.py:330-349 | a copy out moves what is filed for each tensor of the group to the host under its key |
| OffloadForward.CopiesFaithful | swift/callbacks/activation_cpu_offload.py:335-347 | the one copy per key that is made is what is filed for every tensor of the group with that key |
| OffloadForward.CopySource | swift/callbacks/activation_cpu_offload.py:335-341 | whatever is copied under a key is the contents of some tensor of the group that carries that key |
| OffloadForward.PushFiled | swift/callbacks/activation_cpu_offload.py:335-341 | filing a tensor's contents when it is pushed, unless its key is filed already, is what the later pass over the dictionary in insertion order will copy |
| OffloadForward.Settle | swift/callbacks/activation_cpu_offload.py:362-377 | when the forward half ends, whatever has not been copied out is not filed by key, so every slot stands for what will be returned |
| OffloadForward.PassedNext | swift/callbacks/activation_cpu_offload.py:362-377 | at most one window ends per layer, its entry is in the table, and all are over exactly after the last layer |
| OffloadBackward.CommitBackwardSafe | swift/callbacks/activation_cpu_offload.py:405-427 | every backward commit finds its window entry and the host copies it asks for; it fails exactly when a size is wrong, and otherwise keeps the invariant into the previous layer |
| OffloadBackward.BulkReloadSafe | swift/callbacks/activation_cpu_offload.py:386-403 | a copy back finds the group's host copies, succeeds exactly when each has the size its shape needs, restores every tensor and leaves the other groups where they are |
| OffloadBackward.FeasibleIs | swift/callbacks/activation_cpu_offload.py:412-422 | a backward commit brings back at most one group, the last whose window is over, and only at that group's window entry |
| OffloadBackward.DrainSafe | swift/callbacks/activation_cpu_offload.py:424-427 | at the first layer everything is back, every reload is awaited and the group counter is 0 again |
| OffloadBackward.EndStepSafe | swift/callbacks/activation_cpu_offload.py:405-427 | what a finished backward half leaves satisfies the invariant a new forward half starts from |
| OffloadFiling.RunHonest | swift/callbacks/activation_cpu_offload.py:330-403 | what was filed answers a run as a plain map does, with no changed contents left behind, if and only if keys determine contents |
| OffloadFiling.PushHonest | swift/callbacks/activation_cpu_offload.py:330-403 | one push leaves everything returned unchanged if and only if it did before and the push agrees with the tensors of its layer that have its key |
| OffloadFiling.StepHonest | swift/callbacks/activation_cpu_offload.py:330-403 | changed contents cannot vanish: an event keeps them or shows them in its answer |
| OffloadFiling.RunFeasible | swift/callbacks/activation_cpu_offload.py:330-403 | when keys determine contents no size is ever wrong |
| OffloadModel.NumelIs | swift/callbacks/activation_cpu_offload.py:397-403 | a shape's size is the product of its dimensions, 1 for none |
| OffloadWindow.BuildWindowMap | swift/callbacks/activation_cpu_offload.py:280-289 | the accumulating loop leaves at i the closed form (L/G)(i+1) - 1 + min(i+1, L%G), and entries for exactly 0..G-1 |
| OffloadWindow.WindowIsOk | swift/callbacks/activation_cpu_offload.py:280-289 | for every 1 <= G <= L the table is strictly increasing, ends at L - 1, has map[i] >= i, and map[i] >= i + 1 when G < L |
| OffloadWindow.WindowGap | swift/callbacks/activation_cpu_offload.py:280-289 | neighbouring entries are L/G or L/G + 1 apart: the load is balanced over the layers |
| OffloadWindow.WindowSteps | swift/callbacks/activation_cpu_offload.py:280-289 | the first entry and every step between neighbours, exactly: the first L%G steps are one longer |
| OffloadWindow.WindowMonotone | swift/callbacks/activation_cpu_offload.py:280-289 | entries grow at least as fast as their indexes |
| OffloadWindow.WindowEnds | swift/callbacks/activation_cpu_offload.py:280-289 | the last entry is the last layer; the first is layer 0 only when every layer is a group |
| OffloadHandler.AsyncDoubleBufferGroupOffloadHandler.constructor | swift/callbacks/activation_cpu_offload.py:260-293 | a new object is in the model's initial state with the closed-form window table |
| OffloadHandler.AsyncDoubleBufferGroupOffloadHandler.TensorPush | swift/callbacks/activation_cpu_offload.py:295-315 | all fields and the handle become what the model's push says, for offloadable and other tensors |
| OffloadHandler.AsyncDoubleBufferGroupOffloadHandler.TensorPop | swift/callbacks/activation_cpu_offload.py:317-328 | all fields and the tensor become what the model's pop says; the assertions hold |
| OffloadHandler.AsyncDoubleBufferGroupOffloadHandler.BulkOffloadGroup | swift/callbacks/activation_cpu_offload.py:330-349 | the dictionary pass and the copies do what the model's copy out says |
| OffloadHandler.AsyncDoubleBufferGroupOffloadHandler.LabelGroup | swift/callbacks/activation_cpu_offload.py:332-343 | updating the dictionary while walking it in insertion order labels exactly the group's tensors and keeps the first tensor of each key |
| OffloadHandler.AsyncDoubleBufferGroupOffloadHandler.CopyToHost | swift/callbacks/activation_cpu_offload.py:344-347 | every key's contents are copied, in whatever order the keys come |
| OffloadHandler.AsyncDoubleBufferGroupOffloadHandler.SynchronizeOnGroupCommitForward | swift/callbacks/activation_cpu_offload.py:351-377 | kick-start, waits, release and next copy happen in the model's order |
| OffloadHandler.AsyncDoubleBufferGroupOffloadHandler.EndWindow | swift/callbacks/activation_cpu_offload.py:360-377 | exactly at the window entry: both waits, the release, the next copy and the counter, in the model's order |
| OffloadHandler.AsyncDoubleBufferGroupOffloadHandler.ReleaseBuffers | swift/callbacks/activation_cpu_offload.py:367-370 | references of exactly the awaited group are dropped, keys kept |
| OffloadHandler.AsyncDoubleBufferGroupOffloadHandler.OnGroupCommitForward | swift/callbacks/activation_cpu_offload.py:379-384 | the object goes where the model's forward commit goes |
| OffloadHandler.AsyncDoubleBufferGroupOffloadHandler.BulkReloadGroup | swift/callbacks/activation_cpu_offload.py:386-403 | the group's host copies are consumed and its labels become tensors as in the model's copy back |
| OffloadHandler.AsyncDoubleBufferGroupOffloadHandler.RecoverTensors | swift/callbacks/activation_cpu_offload.py:397-403 | exactly the labels of the group become tensors; the assertions hold |
| OffloadHandler.AsyncDoubleBufferGroupOffloadHandler.OnGroupCommitBackward | swift/callbacks/activation_cpu_offload.py:405-427 | the object goes where the model's backward commit goes |
| OffloadTraining.ForwardLayer | swift/callbacks/activation_cpu_offload.py:295-384 | one layer's saved tensors are all pushed under different handles that lead back to them, whatever else is stored |
| OffloadTraining.BackwardLayer | swift/callbacks/activation_cpu_offload.py:317-427 | one layer's handles give back the shape and contents of each saved tensor and leave the other layers' alone |
| OffloadTraining.TrainStep | swift/callbacks/activation_cpu_offload.py:295-427 | driving the object through all layers forward and back, with keys that determine contents only where layers leave the device, returns every saved tensor and leaves it ready for the next step |
| OffloadTraining.Train | swift/callbacks/activation_cpu_offload.py:260-427 | a new object with any 1 <= groups <= layers returns every saved tensor's shape and contents over any number of steps |
| LatentExpansion.ExpandKeywordPositionsWithStop | run_script/infer/qwen3_vl_infer_onevl.py:149-172 | a position is returned if and only if it is joined to some keyword by marker tokens that are not stops, each once, and in increasing order when the keywords are |
| LatentExpansion.ExpandKeywordPositions | run_script/infer/qwen3_vl_infer_onevl.py:215-231 | the inlined loop without stops returns exactly the positions joined to a keyword by marker tokens, once each and in order |
| LatentExpansion.AppendNew | run_script/infer/qwen3_vl_infer_onevl.py:168-171 | a block's new positions are appended once each; order is kept when they lie right of the used ones |
| LatentExpansion.ExpandAround | run_script/infer/qwen3_vl_infer_onevl.py:155-167 | from one keyword the two loops stop exactly at a used, stopped, foreign or missing neighbour |
| LatentExpansion.ExpandStep | run_script/infer/qwen3_vl_infer_onevl.py:154-171 | stopping at used positions loses nothing: what lies beyond was reached from an earlier keyword |
| LatentExpansion.ExpandAscends | run_script/infer/qwen3_vl_infer_onevl.py:168-171 | with ascending keywords whatever one keyword adds lies right of all that is used |
| LatentPositions.ComputeInferenceLatentPositions | run_script/infer/qwen3_vl_infer_onevl.py:175-245 | in every mode the two lists are ascending; with separate visual tokens they are the visual positions below, and the text positions at or above, the start of the text block, each defined by connection to keywords of its kind; the mode without separation is the same expansion with no stops |
| LatentPositions.FindLatentKeywordPositions | run_script/infer/qwen3_vl_infer_onevl.py:101-110 | returns in order exactly the positions of `latent` between two `|` |
| LatentPositions.FindVisualLatentKeywordPositions | run_script/infer/qwen3_vl_infer_onevl.py:113-124 | returns in order exactly the positions of `latent` between `|` and `-vis`, none when the suffix has no id |
| LatentPositions.KeywordsBelowAre | run_script/infer/qwen3_vl_infer_onevl.py:101-124 | a position is in the keyword list if and only if the three-token pattern stands around it, and the list is strictly increasing |
| LatentPositions.FindTextLatentBlockStart | run_script/infer/qwen3_vl_infer_onevl.py:127-146 | the first place where the start marker stands without the visual suffix before it, or the length if there is none or a sub-token is missing |
| LatentPositions.FirstStartIs | run_script/infer/qwen3_vl_infer_onevl.py:138-146 | no `| start -lat ent |` without `-vis` before it stands earlier than the start found, and one stands there unless it is the length |
| LatentPositions.VisualIs | run_script/infer/qwen3_vl_infer_onevl.py:198-203 | a position is visual exactly if it lies before the text block and a visual keyword reaches it over marker tokens without passing a text keyword, the suffix id being neither missing nor 0 |
| LatentPositions.TextIs | run_script/infer/qwen3_vl_infer_onevl.py:204-206 | a position is textual exactly if it lies at or behind the block's start and a text keyword reaches it over marker tokens without passing a visual position |
| LatentPrefix.SplitPrefix | run_script/infer/qwen3_vl_infer_onevl.py:192-209 | on a prompt with no other marker pattern: if no marker sub-token touches the latent prefix, all-subtokens mode returns its visual part if it has a visual marker and the suffix id is not 0, and its text part if it has a text marker, and nothing else; and the two lists split the prefix if and only if all of this holds |
| LatentPrefix.VisualPart | run_script/infer/qwen3_vl_infer_onevl.py:201-203 | the visual positions of such a prompt are the first part of the prefix and marker sub-tokens directly before it, or none without a visual marker or with suffix id 0 |
| LatentPrefix.TextPartOf | run_script/infer/qwen3_vl_infer_onevl.py:204-206 | given visual positions before the text block, the text positions are the rest of the prefix and marker sub-tokens directly behind it, or none without a text marker |
| LatentPrefix.KeywordsFound | run_script/infer/qwen3_vl_infer_onevl.py:208-209 | keyword mode finds exactly nv visual and nt text keywords in such a prompt, at the repeated markers |
| LatentPrefix.BlockStartFound | run_script/infer/qwen3_vl_infer_onevl.py:138-145 | the text block of such a prompt is found at its own start marker, not at the visual one before it |
| LatentPrefix.FramedBlock | run_script/infer/qwen3_vl_infer_onevl.py:711-713 | between prompt parts that hold no marker pattern none arises across the ends of the prefix; single sub-tokens such as `start` may occur anywhere |
| LatentPrefix.WholePrefix | run_script/infer/qwen3_vl_infer_onevl.py:211-232 | without separation all-subtokens mode returns the whole prefix, with or without visual markers, if and only if it has a text marker and no marker sub-token touches it |
| LatentPrefix.TextOnlyPrefix | run_script/infer/qwen3_vl_infer_onevl.py:714-715 | for the prefix without visual markers separation returns no visual position, and all of the prefix but its leading `<` as text, if and only if it has a text marker and no marker sub-token follows it |
| LatentPrefix.TextOnlyBlockIs | run_script/infer/qwen3_vl_infer_onevl.py:714-715 | the prefix without visual markers is the sequence of its markers' sub-tokens |
| LatentPrefix.TextOnlyStart | run_script/infer/qwen3_vl_infer_onevl.py:138-145 | the text block of that prefix is found right behind its leading `<` |
| LatentPrefix.RunCovered | run_script/infer/qwen3_vl_infer_onevl.py:149-172 | keywords inside a run of free positions cover the run, and beyond an end exactly if the next position is free |
| LatentText.BlockSpelled | run_script/infer/qwen3_vl_infer_onevl.py:711-713 | the sub-tokens of the prefix spell the text built for it, up to the `<` of `<answer>`, with one sub-token for each `><` |
| LatentText.TextOnlySpelled | run_script/infer/qwen3_vl_infer_onevl.py:714-715 | and so do those of the prefix without visual markers |
| Scan.FieldEnds | onevl/emu35_tokenizer.py:177-177 | a closing delimiter that is border-free, found by leftmost scan, ends exactly the field printed before it |
| Scan.Find | onevl/emu35_tokenizer.py:177-177 | the scan returns the leftmost occurrence, or -1 only if there is none |
| GridScan.FutureBlocksAre | onevl/emu35_tokenizer.py:206-208 | in every text the blocks found are the insides of the leftmost, non-overlapping blocks, each up to its first closing delimiter |
| GridScan.CodesInAre | onevl/emu35_tokenizer.py:195-195 | in every text the codes found are the values of the leftmost tokens of exactly six digits |
| GridScan.SearchDimensionsIs | onevl/emu35_tokenizer.py:190-193 | the dimensions found are those of the leftmost match, and there are none exactly when there is no match |
| GridScan.BlockParsed | onevl/emu35_tokenizer.py:180-203 | any block parses exactly when it has dimensions and as many codes as they ask for, and then to the grid of these dimensions with these codes row after row |
| GridScan.AllParsed | scripts/stage05_inference_vis.py:205-208 | blocks parse one by one, each wrapped in its delimiters; one that fails fails all |
| Numerals.SixDigits | onevl/emu35_tokenizer.py:120-120 | zero-padding to six prints six digits exactly for numbers below a million, and never changes the value |
| Numerals.ValueOfDecimal | onevl/emu35_tokenizer.py:193-193 | reading a printed number gives the number |
| GridCodec.GridToFutureStr | onevl/emu35_tokenizer.py:107-124 | the appended parts join to the block text that the parsing lemmas start from |
| GridCodec.FutureImageTokens | onevl/emu35_tokenizer.py:232-238 | the record's field is the blocks of all frames joined by line breaks |
| GridCodec.PrintedForm | onevl/emu35_tokenizer.py:107-124 | the block text letter by letter |
| GridCodec.SixWideIs | onevl/emu35_tokenizer.py:120-120 | a code is printed as itself with zeros in front up to six characters, sign included, and no more |
| GridRoundTrip.GridsRoundTrip | onevl/emu35_tokenizer.py:107-238 | printing any list of grids and parsing the text returns the same grids, dimensions and order included, if every code is in 0..999999, and raises the error otherwise |
| GridRoundTrip.BlockRoundTrip | onevl/emu35_tokenizer.py:180-203 | one printed block parses to its grid, empty ones included, exactly when all its codes have six digits |
| GridRoundTrip.BlocksOfJoined | onevl/emu35_tokenizer.py:206-208 | extraction from joined blocks returns the inside of each block, in order, and nothing else |
| GridRoundTrip.UnwrappedFails | scripts/stage05_inference_vis.py:205-208 | no block extracted from printed grids parses before it is wrapped in its delimiters again |
| GridRoundTrip.InnerFree | onevl/emu35_tokenizer.py:177-177 | whatever the codes, the inside of a printed block holds neither the closing nor the opening delimiter |
| GridRoundTrip.CodesInBlock | onevl/emu35_tokenizer.py:195-195 | the codes found in a printed block are those of its cells that have six digits, row by row |
| GridRoundTrip.DimensionsFound | onevl/emu35_tokenizer.py:190-193 | the dimensions read from a printed block are the grid's height and width in this order |
| TokenIds.PathsAgree | scripts/stage05_inference_vis.py:61-86 | for printed grids of one shape, extracting codes from token ids and cutting them into frames gives the grids, and so does parsing the text of the same pieces |
| TokenIds.CodesToGrids | scripts/stage05_inference_vis.py:70-86 | any code list becomes the asked number of grids of the asked shape, whose cells in order are the codes, cut or filled with zeros |
| TokenIds.SeenAll | scripts/stage05_inference_vis.py:61-67 | the codes extracted from the ids of printed grids are their cells in order, whatever ids ordinary text has outside the visual range |
| TokenIds.ExtractOne | scripts/stage05_inference_vis.py:61-67 | an id in the range gives its distance from the start, any other nothing |
| TokenIds.FramesOfCells | scripts/stage05_inference_vis.py:82-86 | cutting the cells of same-shaped grids into frames gives back the grids |
| TokenIds.AllPiecesText | onevl/emu35_tokenizer.py:107-124 | the tokens the id path sees are the printed text, cut at registered tokens |
| TokenIds.RegisteringTwice | onevl/token_registry.py:44-62 | a second registration changes nothing, and a first one changes no id already given |
| TokenIds.RegisteredWhole | onevl/token_registry.py:44-62 | whatever was known before, just the structural and the visual tokens are added, and distinct ids below the size stay distinct ids below the size |
| TokenIds.RegisteredIsReady | onevl/token_registry.py:44-62 | on the base vocabulary of 151669 tokens, code i gets id VIS_TOKEN_START + i and the structural tokens get ids outside that range |
| TokenIds.VisualTokenIds | onevl/constants.py:14-32 | registration on a base vocabulary of 151669 tokens gives the structural tokens ids 151669 to 151672 and code i id 151673 + i, for all 131072 codes |
| TokenIds.Tokenizer.AddVisualTokens | onevl/token_registry.py:44-62 | the tokenizer's vocabulary becomes the registered one |
| ToolCalls.FormatToolCalls | swift/agent_template/seed_oss.py:136-153 | the appended parts join to the text that the parsing lemmas start from |
| ToolCalls.PrintedForm | swift/agent_template/seed_oss.py:136-153 | the text of a call letter by letter |
| ToolCalls.GetToolcall | swift/agent_template/seed_oss.py:29-45 | for every response: hands over to the general parser exactly when no opening delimiter is followed by a closing one with something between, and otherwise returns the functions of the bodies found |
| ToolCalls.CallBodiesAre | swift/agent_template/seed_oss.py:30-30 | in every response the bodies found are those of the leftmost, non-overlapping calls, each up to the first closing delimiter behind at least one character |
| ToolCalls.FunctionNameIs | swift/agent_template/seed_oss.py:36-40 | the name found is that of the leftmost function tag, and there is none exactly when there is no such tag |
| ToolCalls.ParametersAre | swift/agent_template/seed_oss.py:41-41 | the parameters found in any body are the leftmost, non-overlapping ones, with all text up to the first closing tag as value |
| ToolCalls.DictOfLast | swift/agent_template/seed_oss.py:42-42 | of several parameters with one name the last counts |
| ToolCalls.FunctionsOfAdd | swift/agent_template/seed_oss.py:35-45 | each body with a function tag gives one function, in order; one without gives none |
| ToolCallRoundTrip.CallsRoundTrip | swift/agent_template/seed_oss.py:29-153 | printing any non-empty list of calls and parsing the text returns the same calls in order, with their names, argument names and values, if and only if each is printable: values without `</parameter>` and `</seed:tool_call>`, names non-empty, without `>` and not ending in `</seed:tool_call`, and no parameter tag inside the name of a function that has arguments |
| ToolCallRoundTrip.ReplyRoundTrip | swift/agent_template/seed_oss.py:29-153 | the same for a reply with any text before and behind the calls that holds no opening delimiter |
| ToolCallRoundTrip.ParsedFits | swift/agent_template/seed_oss.py:29-45 | whatever the response, parsed names are non-empty and could stand in a tag, and no parsed value holds a closing delimiter |
| ToolCallRoundTrip.OneParsed | swift/agent_template/seed_oss.py:35-43 | a call with fitting names and values is read back as it was if and only if its function's name holds no parameter tag or it has no arguments |
| ToolCallRoundTrip.ParametersMisread | swift/agent_template/seed_oss.py:41-41 | a parameter tag inside the function's name takes the first argument's whole tag and value for its own value |
| ToolCallRoundTrip.BodiesOfJoined | swift/agent_template/seed_oss.py:30-30 | the bodies found in joined printed calls are the printed bodies, in order |
| ToolCallRoundTrip.ParametersOfBody | swift/agent_template/seed_oss.py:41-41 | the parameters found in a printed body are the call's arguments, in order |
| ToolCallRoundTrip.FunctionNameOfBody | swift/agent_template/seed_oss.py:36-40 | the function named by a printed body is the call's |
| ToolCallRoundTrip.DictOfDistinct | swift/agent_template/seed_oss.py:42-42 | with distinct names the parsed dictionary holds exactly the parsed pairs |
| IndexedDataset.ReadsBack | swift/dataset/indexed_dataset.py:122-129 | for all batches and any positive chunk size, item i reads back as the i-th item added; negative indexes wrap around; an index past the end, or any index into an empty dataset, fails |
| IndexedDataset.LengthsKept | swift/dataset/indexed_dataset.py:40-40 | the `length` entries are the items' own, one each, in order |
| IndexedDataset.WrittenLayout | swift/dataset/indexed_dataset.py:30-50 | what the writer leaves is the items cut into shards: each file holds its shard's bytes, offsets mark the cuts, a shard is closed by the batch that brings it to the chunk size and by no other, and the last is below it |
| IndexedDataset.IndexedDatasetBuilder.constructor | swift/dataset/indexed_dataset.py:16-28 | a new builder has handed in nothing and satisfies the invariant |
| IndexedDataset.IndexedDatasetBuilder.AddItems | swift/dataset/indexed_dataset.py:52-56 | the batch is handed in after all earlier ones; nothing is lost, whatever the writer is doing |
| IndexedDataset.IndexedDatasetBuilder.WriterTurn | swift/dataset/indexed_dataset.py:30-50 | a turn of the writer at any time takes the oldest queued batch and keeps files and lists those of the batches written |
| IndexedDataset.IndexedDatasetBuilder.Write | swift/dataset/indexed_dataset.py:35-50 | one batch changes files, lists and offsets as the written log says |
| IndexedDataset.IndexedDatasetBuilder.Serialize | swift/dataset/indexed_dataset.py:35-40 | the loop over a batch's items appends cumulative offsets and lengths and joins the serialized bytes |
| IndexedDataset.IndexedDatasetBuilder.Finalize | swift/dataset/indexed_dataset.py:58-70 | whatever turns the writer took, the index and the files are those of all batches in the order handed in |
| IndexedDataset.BisectRight | swift/dataset/indexed_dataset.py:126-126 | on ordered offsets bisection parts those at most x from those above x |
| ShardedLog.Located | swift/dataset/indexed_dataset.py:125-128 | the last shard whose offset is at most the item's is not empty and holds the item's bytes within one file |
| ShardedLog.OffsetsOrdered | swift/dataset/indexed_dataset.py:42-46 | offsets never decrease and grow by each shard's size |
| Packing.CreatePackedIdx | swift/dataset/packing.py:89-102 | the loop ends and puts on the queue exactly the messages the worker's recursive description says, its end sign last |
| Packing.MatchedConserves | swift/dataset/packing.py:16-26 | bins and carry-over together are the samples; no bin is overfull without need; nothing is carried over at the end |
| Packing.MatchedSplits | swift/dataset/packing.py:16-26 | the bins, with the carried one behind them unless it is the end, are those of one call of the packer with this volume |
| Packing.WorkerConserves | swift/dataset/packing.py:89-102 | over all its rounds a worker reports each of its samples exactly once |
| Packing.WorkerFits | swift/dataset/packing.py:89-102 | every bin a worker reports is within the volume or a single sample |
| Packing.WorkerEnds | swift/dataset/packing.py:101-102 | a worker's messages carry its rank and exactly one end sign, the last |
| Packing.WorkerBatches | swift/dataset/packing.py:93-100 | every round but the last takes a full batch, the last takes the rest, and the numbers told add up to all samples |
| Packing.TokensAdd | swift/dataset/packing.py:90-90 | a sample of several parts counts the sum of its parts |
| PackingNextFit.WorkerPacks | swift/dataset/packing.py:89-102 | with a packer that only ever adds to its last bin, a worker that packs in rounds of any size and carries over the last bin ends with the bins of packing all its samples at once |
| PackingNextFit.NextFitResumes | swift/dataset/packing.py:16-26 | carrying over the last bin and packing on from it is packing everything |
| PackingNextFit.NextFitIsPacker | swift/dataset/packing.py:16-26 | what is relied on from the bin packer can be met |
| Packing.SliceTakes | swift/dataset/packing.py:94-99 | slicing by batch size, also beyond the end, takes the next samples, leaves the rest, and is last exactly when the counter says finished |
| PackingMerge.MergeMessages | swift/dataset/packing.py:67-81 | for every interleaving of the workers' messages the loop never waits in vain, takes everything, and the chained result is the workers' bins by rank, each as its rows in order next to its weight |
| PackingMerge.EndedMeansAll | swift/dataset/packing.py:72-76 | once a worker's end sign has been taken all of its bins have been |
| PackingMerge.OnlySnoc | swift/dataset/packing.py:67-76 | a message put on the queue comes last among its worker's messages and changes no other worker's |
| PackingMerge.StillQueued | swift/dataset/packing.py:72-73 | while fewer workers have ended than there are, another message is still to come |
| PackingMerge.AllTaken | swift/dataset/packing.py:72-81 | when as many end signs as workers have been counted, all messages of every worker have been taken |
| PackingDataset.BuildPackingDataset | swift/dataset/packing.py:54-81 | for any number of workers and any interleaving, flattened `packed_idx` is a permutation of 0..n-1, every `packed_length` is its members' token count and within `packing_length` when every sample is, and the result does not depend on the interleaving; with next fit it is next fit on each worker's samples |
| PackingDataset.MergedIsNextFit | swift/dataset/packing.py:54-81 | with next fit the merged bins are those of packing each chunk at once, chunk after chunk, whatever the batch size |
| PackingDataset.NextFitKeepsOrder | swift/dataset/packing.py:54-81 | the packs then hold the rows 0..n-1 in this order |
| PackingDataset.TokensOfAdd | swift/dataset/packing.py:78-79 | a pack counts the tokens of each of its rows |
| PackingDataset.AllConserved | swift/dataset/packing.py:54-66 | the chunks' bins together hold every sample of the dataset once |
| PackingDataset.MergedFits | swift/dataset/packing.py:54-81 | every bin of the merged result is within the volume or a single sample |
| PackingDataset.BinsPack | swift/dataset/packing.py:78-79 | rearranged samples in fitting bins are a valid packing of rows with the right lengths |
| PackingStream.StreamPacks | swift/dataset/packing.py:182-203 | over a full pass of a finite dataset the packs hold each encodable row exactly once, for any size, also a multiple of the interval, and any order of replies; with next fit they are the packs of all encodable rows at once, whatever the interval |
| PackingStream.FetchDataOutQueue | swift/dataset/packing.py:165-174 | whatever order the workers reply in, the round's results come in input order, failures dropped, behind the carry-over |
| PackingStream.EncodedOne | swift/dataset/packing.py:145-163 | a row yields its sample with the encoder's length, or nothing when it cannot be encoded |
| PackingStream.RunWorkers | swift/dataset/packing.py:145-163 | each queued row is answered once under its own position, in arbitrary order |
| PackingStream.AllAnswered | swift/dataset/packing.py:165-171 | as many distinct replies as slots leave no slot open |
| DataFeeding.DispatchAll | swift/dataloader/dispatcher.py:35-56 | with n base batches, W ranks and s skipped rounds every rank yields floor(n/W) - s batches, the surplus is not used, and the loader fails exactly when fewer than sW batches exist |
| DataFeeding.HandedAt | swift/dataloader/dispatcher.py:40-56 | the j-th batch of rank r is base batch (s + j)W + r |
| DataFeeding.DispatchRounds | swift/dataloader/dispatcher.py:43-56 | all ranks leave in the same round, the first that cannot be filled, having been handed the same number of batches |
| DataFeeding.RoundHanded | swift/dataloader/dispatcher.py:43-56 | a full round gives rank r the base batch at its place in the round |
| DataFeeding.NextRound | swift/dataloader/dispatcher.py:44-48 | a round has a batch for every rank or the end sign for every rank |
| DataFeeding.ScatterRound | swift/dataloader/dispatcher.py:49-56 | each rank yields its own entry, and leaves exactly on the end sign |
| DataFeeding.StreamsCover | swift/dataloader/shard.py:54-57 | every position of the epoch's order is in the stream of the rank its number modulo the ranks gives |
| DataFeeding.StreamsDisjoint | swift/dataloader/shard.py:54-57 | for a permutation no index is in two streams or twice in one |
| DataFeeding.StreamsPartition | swift/dataloader/shard.py:54-57 | the ranks' streams together are the epoch's order rearranged: for a permutation of 0..W*floor(N/W)-1, each of these indices exactly once |
| DataFeeding.ShardBatches | swift/dataloader/shard.py:59-68 | a rank's batches are as many as `__len__` says, all full but perhaps the last, and concatenate to its stream, less the short tail when that is dropped |
| DataFeeding.FillBatches | swift/dataloader/shard.py:59-65 | the loop cuts the stream into full batches and a shorter rest without losing or reordering an index |
| DataFeeding.FullBatches | swift/dataloader/shard.py:73-77 | both branches of `__len__` count full batches and rest correctly |
| DataFeeding.IterateShard | swift/dataloader/shard.py:45-77 | with W ranks and N samples each rank has floor(N/W) indices and its batches are those `__len__` announces |
| GpuLease.ExpManager.constructor | scripts/benchmark/exp_utils.py:350-356 | every experiment is queued once, fewer GPUs first and in configuration order among equals, and nothing runs |
| GpuLease.SortByPriority | scripts/benchmark/exp_utils.py:353-356 | the queue's order is the stable sort by GPUs asked for: a permutation, and strictly ordered by GPUs then by configuration order |
| GpuSchedule.Begin | scripts/benchmark/exp_utils.py:315-377 | for any sequence of queue turns and polls, every state reached has disjoint leases within range of the size the experiment's kind asks for, nothing running or queued twice, no namesake or second export started beside one; each step is the one described; every experiment is at every point running, queued, or was taken off the queue by an attempt that did not have to wait; and none is re-queued more than once |
| GpuSchedule.StartsExactly | scripts/benchmark/exp_utils.py:105-146 | each of the seven outcomes of an attempt happens exactly under its condition on the saved result, the mark for evaluation, the free devices for the kind, the names and exports running, and the command line: it is skipped, waits for devices or an export, fails before the start, or starts, with an exception afterwards exactly if it asked for no device or something running has no environment entry |
| GpuSchedule.FreeAre | scripts/benchmark/exp_utils.py:226-234 | the devices that may be leased are the existing ones in no running experiment's lease |
| GpuLease.ExpManager.FindFreeGpu | scripts/benchmark/exp_utils.py:226-234 | as many devices as asked for, existing and held by no running experiment; none exactly if too few are free |
| GpuLease.ExpManager.AssertGpuNotOverlap | scripts/benchmark/exp_utils.py:97-103 | the first running experiment that has no environment entry, or a device seen before, decides between the two failures; there is none exactly on success |
| GpuLease.DisjointOverlap | scripts/benchmark/exp_utils.py:97-103 | on disjoint leases only a missing environment entry can fail |
| GpuLease.LeaseAdded | scripts/benchmark/exp_utils.py:226-234 | devices that nobody holds can be leased without breaking the other leases |
| GpuLease.SoloAdded | scripts/benchmark/exp_utils.py:134-137 | an experiment whose name does not run, and that is no second export, can be added without a clash |
| GpuLease.ExpManager.Launch | scripts/benchmark/exp_utils.py:118-146 | leases stay pairwise disjoint, within range and of the size asked for, also when the start raises afterwards |
| GpuLease.ExpManager.Run | scripts/benchmark/exp_utils.py:105-146 | every branch, with and without a saved result, ends as the decision table says and changes only this experiment |
| GpuLease.ExpManager.Start | scripts/benchmark/exp_utils.py:118-146 | evaluating and running end as the decision table says once the saved result is dealt with |
| GpuLease.ExpManager.LoadSaved | scripts/benchmark/exp_utils.py:106-116 | an unevaluated saved result replaces name, command, requirement, arguments and environment and marks the experiment for evaluation exactly if it was not marked; an experiment with nothing left to do is left as it is |
| GpuLease.OthersChanged | scripts/benchmark/exp_utils.py:97-103 | changing an experiment that is not running cannot make running leases overlap |
| GpuLease.ExpManager.TryNext | scripts/benchmark/exp_utils.py:359-375 | one turn of the queue keeps all leases, starts the head at most once and keeps it queued exactly when it must wait |
| GpuLease.ExpManager.PollOnce | scripts/benchmark/exp_utils.py:315-348 | finished experiments leave, exactly those that succeeded with a metric are re-queued in front for evaluation, and no experiment has ever been re-queued twice |
| GpuLease.ExpManager.MarkFinished | scripts/benchmark/exp_utils.py:319-344 | the pass over the running experiments re-queues and marks exactly the described ones |
| GpuLease.AfterPoll | scripts/benchmark/exp_utils.py:346-348 | what a look at the processes leaves is again a consistent schedule: running and queued experiments are disjoint, leases disjoint |
| GpuLease.MarkedCounts | scripts/benchmark/exp_utils.py:327-333 | being re-queued for evaluation marks an experiment, and marked ones are not re-queued, so the count never passes one |
| GpuLease.RequeuedAre | scripts/benchmark/exp_utils.py:326-333 | an experiment is re-queued if and only if it ran, succeeded, was not an evaluation, left a metric and has an evaluation dataset; none twice |
| GpuLease.RequeuedOrder | scripts/benchmark/exp_utils.py:319-344 | the experiments put back keep the order in which they ran |
| GpuLease.RunningOrder | scripts/benchmark/exp_utils.py:347-347 | and so do those that go on running |
| GpuLease.FewerLeases | scripts/benchmark/exp_utils.py:347-347 | the leases of the experiments that keep running are still disjoint |
| BatchErrors.MergeRestoresOrder | swift/infer_engine/infer_engine.py:290-314 | inserting the errors one by one at their request numbers gives one answer per request in request order |
| BatchErrors.ExpectedAt | swift/infer_engine/infer_engine.py:290-314 | slot i is the i-th request's own error, or the output of its own input |
| BatchErrors.InsertBefore | swift/infer_engine/infer_engine.py:310-314 | errors of earlier requests land where they would if later outputs were not there |
| BatchErrors.BatchEncode | swift/infer_engine/infer_engine.py:299-308 | strict mode fails exactly when some request does; otherwise inputs and numbered errors come in request order |
| BatchErrors.ErrorsAre | swift/infer_engine/infer_engine.py:299-308 | the errors are those of exactly the failed requests, under their own numbers, in order |
| BatchErrors.InputsAdd | swift/infer_engine/infer_engine.py:299-308 | the inputs are those of the encoded requests, in order |
| BatchErrors.AddErrorList | swift/infer_engine/infer_engine.py:311-314 | the insertion loop computes the insertions MergeRestoresOrder speaks about |

## Left out

- Streams, events, device memory and autograd are not modelled beyond the log of enqueued work; torch, CUDA, NPU and FSDP calls are not part of this model.
- Tensors are (key, shape, flat contents); the fresh address of a reloaded tensor is not modelled, its key stays the old one, which only a new copy-out could tell and none follows before the pop.
- The filter that decides which tensors are offloaded, and fake or functional tensors, are one boolean parameter of the push.
- The synchronized base handler's own push and pop, and activation checkpointing's recomputation, are not modelled.
- Configurations with no group, or more groups than layers, are not modelled: the constructor's comment rules them out.
- Some loops and branches of a method are methods of their own here (`LabelGroup`, `CopyToHost`, `RecoverTensors`, `LoadSaved`, `Start`, `MarkFinished`, `ExpandAround`, `AppendNew`, `AppendRow`, `EndWindow`, `ReleaseBuffers`, `Serialize`), called where they stand.
- `\d` and `\s` stand for their ASCII members; a general regular-expression engine is not modelled.
- Argument values of tool calls are strings; other JSON values, the parsing of the message to print and the general fallback parser are not part of this model.
- CallsRoundTrip: argument names ending in `</parameter` are not covered, because together with a parameter tag inside the function's name the outcome then depends on how the values continue; argument names are distinct, being a dictionary's; the empty list prints nothing and is left to the general parser.
- The tokenizer's splitting of text is not modelled: a marker's sub-tokens are a fixed alphabet, two adjacent markers and the `<answer>` after the last share the one sub-token `><`, and ordinary text has any ids outside the visual range.
- SplitPrefix: prompts that hold a whole keyword pattern (`| latent |`, `| latent -vis`) outside the prefix, or the text block's opening pattern before it, are not covered; such text is a marker itself and moves both lists.
- Serialization, memory mapping and files are byte strings of positive length per item; the bounded queue is an unbounded one, which allows more interleavings; a dataset read while it is written is not modelled.
- `bisect.bisect_right` is a library function and is modelled as a recursive one.
- The bin packer is any function meeting the contract; where `split_list` cuts is any ascending sequence of cut points; process start-up and the broadcast of the result are not modelled.
- RunWorkers: strict mode, in which a worker process dies on an error, and the endless cyclic iterator are not modelled.
- The sampler's `group_by_length` branch can disagree with `__len__` and is not modelled; the random permutation is a parameter; moving batches to a device is not modelled.
- PollOnce: does not model that every finished experiment is recorded, because the processes are polled twice and one that ends in between leaves without a record.
- LoadSaved: the record and creation time taken over from the file are not modelled, nor is their later use.
- The scheduler's liveness, metric and record files, command lines and environments are not modelled; its endless loop is any sequence of turns and polls.
- Network, hub, command line, argument classes, web interface, reports and the near-identical copies of the inference script are not modelled: configuration with no deep invariant.
