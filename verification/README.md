# Verified models of four Ollama components

A Dafny 4.11 project that models parts of Ollama, a server for language models, and proves what they
promise. `dafny verify dfyconfig.toml` checks everything.

**The causal key/value cache** (`Kv*.dfy`, from `kvcache/causal.go` and `kvcache/wrapper.go`). `KvCells` holds
the data and the invariant, `KvSteps` says what each operation does as a relation between two states,
`KvCausal` is the cache itself, a class over an array of cells whose loops are proved against those relations, and
`KvScan` has the reasoning of those loops on plain values. `KvInvariants` proves that every operation keeps
the invariant, `KvCapacity` that a sliding-window cache is never full, `KvAttention` that the mask over a
sub-range is the mask over the whole cache and that `CanResume` is exact, `KvRuns` puts these together for
whole runs with failures and recoveries in between, `KvSession` shows that what the class goes through under a
caller that keeps its contract is such a run, and `KvWrapper` proves that a forward pass over several
caches happens in all of them or in none. A key row is represented by the position it is rotated to, and the
shift function adds an offset to it. The invariant speaks about all sequences except those whose last
`Remove` failed and that have not been cleared since.

**The Harmony stream parser** (`Harmony*.dfy`, from `harmony/harmonyparser.go`). `HarmonyText` has the string
searches, `HarmonyHeader` the header format, `HarmonyParser` the parser as a function and as a class,
`HarmonyChunking` the proof that the result does not depend on how the stream is cut, `HarmonyRoundTrip` that
rendered conversations parse back, `HarmonyHandler` the routing to content, thinking and tool text,
`HarmonyConversation` that a rendered conversation arrives there whole, and `HarmonyNames` the renaming of tools; `HarmonyHeaderExact` and `HarmonyNamesExact` say what headers and names
become in terms of their characters. Events are compared by taking content apart into characters, and the
final statement is about events with adjacent content merged.

**The Anthropic stream converter** (`Anthropic*.dfy`, from `anthropic/anthropic.go`). `AnthropicStream` is the
converter as a function and as a class, `AnthropicWellFormed` runs its output through a client that checks
the bracketing, `AnthropicRefine` through a client that accumulates the message, and `AnthropicExact` shows for
which runs that message is the non-streaming one. Encoding of tool arguments is an arbitrary function that may
fail.

**Weight layouts** (`Convert*.dfy`, from `convert/`). `ConvertIndex` and `ConvertMatrix` have the index
arithmetic, `ConvertCopy` the nested copying loops, `ConvertRotary`, `ConvertPatch`, `ConvertHeads`, `ConvertQkv`,
`ConvertTranspose` and `ConvertQkvz` the repackers of tensors, `ConvertMxfp4` the nibble order of quantised blocks
and `ConvertJson` the rewriting of number tokens that section 6 of RFC 8259 does not allow, with `ConvertJsonExact`
saying it in terms of the bytes. Elements
are of an arbitrary type.

Some of what the code is taken to promise does not hold everywhere. Each such case is stated with the exact
condition under which it does hold, and with an input for which it does not:

- A function name that was returned can stop mapping back to its tool: a tool such as `python!` is renamed to
  `python`, and the built-in `python` added later takes the entry over. This is the only way
  (`HarmonyNames.ReversibleIffNoConflict`, `HarmonyNames.PythonConflictExample`).
- Thinking that arrives while a text block is open and no thinking block has been closed breaks the
  bracketing of the event stream, and nothing else does (`AnthropicWellFormed.StreamWellFormedIff`,
  `AnthropicWellFormed.ThinkingAfterTextBreaks`).
- The accumulated stream is not the message of the non-streaming conversion when thinking, text and tools are out of
  order, a tool identifier repeats or arguments cannot be encoded, and it is in all other runs
  (`AnthropicExact.StreamingRefinesWholeIff`, `AnthropicExact.RepeatedToolExample`).
- Repacking the attention projection commutes with transposition except for matrices that are square over the
  channels, because the row branch is tried first (`ConvertTranspose.TransposeCommutesIff`,
  `ConvertTranspose.SquareBreaks`).
- The rotary reordering writes zeros over what does not belong to a whole head, and the gemma4 patch embedding over
  what does not belong to three square planes (`ConvertRotary.NeoXLosslessIff`, `ConvertPatch.Gemma4LosslessIff`).
- `Init` can panic for an explicit memory size, in exactly the cases of `KvCapacity.InitSizes`, for example
  `KvCapacity.InitPanicExample`.
- `CopyPrefix` from a sequence to itself clears the sequence, although the interface describes a copy
  (`KvInvariants.CopyHoldsPrefixIff`, `KvInvariants.SelfCopyExample`).
- `SetCausal` without a context records the new option and leaves the old mask in place, so a later call with
  the same option and a context does not rebuild it. The mask stays right if and only if there is a context or both
  options ask for the same mask (`KvCausal.Causal.SetCausal`, `KvCausal.StaleMaskExample`).

## Model

| member | source | states |
|---|---|---|
| `KvCapacity.InitSizes` | kvcache/causal.go:130-182 | `Init` panics exactly when an explicit memory is below both the window and the capacity and is not enlarged; otherwise window and padding are those asked for, or unlimited and one; the memory is the one asked for, at least a position beyond the window for several sequences, and unlimited exactly when that reaches the capacity; and the cells are those needed, rounded up by less than the padding |
| `KvCapacity.InitPanicExample` | kvcache/causal.go:158-167 | a window of two positions and a memory of one: `Init` panics with one sequence and not with two |
| `KvCausal.Causal.constructor` | kvcache/causal.go:130-182 | a new cache has the window, memory, padding and size that were asked for, holds nothing and satisfies the cache invariant |
| `KvCausal.Causal.FindLocs` | kvcache/causal.go:258-271 | returns the lowest unreferenced cells, pairwise distinct; fails if and only if there are fewer free cells than tokens |
| `KvCapacity.FirstFitCounts` | kvcache/causal.go:258-268 | below the k-th location there are exactly k free cells |
| `KvCausal.Causal.LowestInBatch` | kvcache/causal.go:292-305 | exactly the sequences of the batch, each with its lowest position |
| `KvCausal.Causal.LastPosition` | kvcache/causal.go:312-317 | a scan of the indexed range only finds the highest position of the sequence in the whole cache |
| `KvCausal.Causal.NextPositions` | kvcache/causal.go:310-321 | for every known sequence outside the batch, the position after its last one |
| `KvCausal.Causal.EvictScan` | kvcache/causal.go:330-345 | the loop over one sequence's range: references below the bound go, the new range covers every survivor, the current range covers every cell the window can reach, and other cells are untouched |
| `KvCausal.Causal.EvictSequence` | kvcache/causal.go:325-347 | drops exactly the references of one sequence older than its memory and recomputes its range exactly |
| `KvCausal.Causal.EvictAll` | kvcache/causal.go:324-348 | in whatever order the map is iterated, every sequence loses exactly what is older than its own memory |
| `KvCausal.Causal.CollectRanges` | kvcache/causal.go:274-285 | without a sliding window, the current range contains the range of every sequence of the batch |
| `KvCausal.Causal.UpdateSlidingWindow` | kvcache/causal.go:273-349 | exactly the references within memory of a token of the batch stay, for an idle sequence those within memory of the position after its last one; the collected range contains every cell that the batch's windows reach and ends at such cells |
| `KvCausal.Causal.StoreBatch` | kvcache/causal.go:214-232 | the tokens are written to the cells found, one cell each, no other cell changes, and the range index stays correct |
| `KvCausal.Causal.StoreToken` | kvcache/causal.go:214-231 | one token: its cell is overwritten, both ranges are extended, nothing else changes |
| `KvCausal.Causal.Allocate` | kvcache/causal.go:205-232 | eviction then placement; fails if and only if the free cells left by eviction are fewer than the tokens, and then only eviction has happened |
| `KvCausal.Causal.MaskRow` | kvcache/causal.go:371-379 | one row of the mask: masked if and only if the whole-cache definition does not attend |
| `KvCausal.Causal.MaskRows` | kvcache/causal.go:366-380 | all rows, with the causal test lifted for the exempt tokens |
| `KvCausal.Causal.BuildMask` | kvcache/causal.go:362-380 | the padded range lies inside the array and the mask over it is the whole-cache mask: exact inside, and nothing outside is attended to |
| `KvCausal.Causal.StartForward` | kvcache/causal.go:198-248 | the complete outcome of a forward pass, its error and its reservation: exactly the references out of memory are evicted, the batch is placed first fit and the mask is exact; success if and only if enough cells are free after eviction; the range is padded around cells that are needed |
| `KvCausal.Causal.SetCausal` | kvcache/causal.go:400-409 | a rebuild keeps the same range and gives the exact mask for the new exemptions; a mask that was current stays so if and only if there is a context or both options ask for the same mask; repeating the recorded option mends nothing |
| `KvScan.StaleIff` | kvcache/causal.go:402-409 | the mask built for one option is right for another if and only if both attend to the same cells of the range |
| `KvCausal.LeaveStale` | kvcache/causal.go:402-409 | on any cache that has room for two tokens: a call without a context and then the same option with one leaves the wrong mask |
| `KvCausal.StaleMaskExample` | kvcache/causal.go:402-409 | a new cache of two cells that ends up with the wrong mask |
| `KvCausal.Causal.Put` | kvcache/causal.go:449-477 | the rows of the batch now hold keys for the batch's positions in that layer; other rows and layers are unchanged |
| `KvCausal.Causal.CopyScan` | kvcache/causal.go:498-515 | each cell is rewritten as the source does and the collected range covers the copied prefix |
| `KvCausal.Causal.CopyPrefix` | kvcache/causal.go:497-518 | the destination becomes exactly the source's cells below the length (nothing, if source and destination coincide); no other sequence changes |
| `KvCausal.Causal.Extent` | kvcache/causal.go:530-539 | lowest and highest stored position of the sequence, from its range alone |
| `KvCausal.Causal.CanResume` | kvcache/causal.go:520-547 | true if and only if memory is unlimited or the sequence stores a position at or before the window start and one at or after `pos - 1` |
| `KvCausal.Causal.ChunkOffsets` | kvcache/causal.go:557-573 | the offsets of a chunk are the shift of each of its rows, and the trimmed interval contains every row that moves |
| `KvCausal.Causal.RotateLayers` | kvcache/causal.go:581-609 | every layer's view is rotated or, on a backend error, nothing is committed |
| `KvCausal.Causal.ShiftChunk` | kvcache/causal.go:557-609 | one chunk: its rows are rotated in every layer, or in none |
| `KvCausal.Causal.ShiftChunks` | kvcache/causal.go:554-612 | the chunks together apply the offset exactly once to exactly the rows of the sequence from the begin index on, and zero to all others; after an error a prefix of the chunks has been rotated |
| `KvCausal.Causal.Shift` | kvcache/causal.go:549-613 | fails without a shift function; otherwise as the chunks |
| `KvCausal.Causal.RemoveScan` | kvcache/causal.go:627-649 | the scan stops at the first shared cell that would have to be renumbered, if and only if there is one; otherwise every cell is rewritten as specified and the survivors' range is exact |
| `KvCausal.Causal.RemoveCells` | kvcache/causal.go:622-656 | cells, positions and range index after the scan, on success and on failure |
| `KvCausal.Causal.Remove` | kvcache/causal.go:615-666 | success removes, renumbers and rotates as specified; failure leaves every other sequence untouched; removal to the end never fails; a shared cell to be renumbered always makes it fail; without one, and with a working backend, it succeeds |
| `KvInvariants.EvictionKeepsInv` | kvcache/causal.go:324-348 | eviction keeps positions duplicate-free and gap-free, and keys in agreement with positions |
| `KvInvariants.KeptIsRecent` | kvcache/causal.go:292-335 | a cell stays for a sequence of the batch if and only if it is within memory of one of its tokens, and for an idle one if and only if it is within memory of the position after its last one |
| `KvInvariants.EvictedIsWindowMoved` | kvcache/causal.go:287-348 | eviction by the lowest positions is eviction of exactly what is out of memory |
| `KvInvariants.ContinuesAfterEviction` | kvcache/causal.go:205-212 | a batch that continues its sequences still does after eviction |
| `KvInvariants.PlacedReferences` | kvcache/causal.go:214-232 | a forward pass disturbs no existing reference |
| `KvInvariants.PlacedStores` | kvcache/causal.go:214-232 | a sequence stores a position afterwards if and only if it did before or the batch holds it |
| `KvInvariants.PlacingKeepsUnique` | kvcache/causal.go:214-232 | no position of a sequence is stored twice |
| `KvInvariants.PlacingKeepsGapFree` | kvcache/causal.go:214-232 | no gap opens in a sequence |
| `KvInvariants.PutLayersRows` | kvcache/causal.go:449-477 | after all layers were put, exactly the batch's rows hold the batch's positions |
| `KvInvariants.ForwardKeepsInv` | kvcache/causal.go:198-248 | a whole forward pass keeps the cache invariant |
| `KvInvariants.CopyKeepsInv` | kvcache/causal.go:497-518 | a prefix copy keeps the invariant, and makes a formerly unreliable destination reliable |
| `KvInvariants.CopyHoldsPrefixIff` | kvcache/cache.go:63-64 | the destination holds the prefix, as the interface promises, if and only if it is another sequence or the prefix is empty |
| `KvInvariants.SelfCopyExample` | kvcache/causal.go:500-515 | one cell of a sequence copied onto itself: the sequence is gone |
| `KvInvariants.SameReferencesKeepInv` | kvcache/wrapper.go:48-53 | the invariant depends on references, their positions and keys only, so unwinding keeps it |
| `KvInvariants.UntouchedTwice` | kvcache/wrapper.go:100-110 | what a failed removal and its recovery each leave untouched, both together leave untouched |
| `KvInvariants.RemovalKeepsPositions` | kvcache/causal.go:622-649 | removing a middle part and renumbering leaves an interval of positions without repetition |
| `KvInvariants.RemovalSplices` | kvcache/causal.go:615-666 | below the begin index every position stays, the removed ones are gone and the later ones follow without a gap; each cell's keys are rotated by as much as its position changed |
| `KvInvariants.RemovalIsolated` | kvcache/causal.go:629-649 | a successful removal changes neither cells, positions nor keys of any other sequence |
| `KvInvariants.RemovalKeepsInv` | kvcache/causal.go:549-666 | a successful removal keeps the invariant: every renumbered cell's keys are rotated to its new position in every layer |
| `KvInvariants.FailedRemovalKeepsInv` | kvcache/causal.go:634-662 | however a removal fails, the invariant still holds for every other sequence |
| `KvInvariants.RecoveryKeepsInv` | kvcache/cache.go:71-76 | the documented recovery re-establishes the invariant from any failed state |
| `KvCapacity.EvictionBoundsSequence` | kvcache/causal.go:323-348 | after eviction a sequence references at most `swaMemorySize` cells |
| `KvCapacity.UnionBound` | kvcache/causal.go:169-174 | cells used by a set of sequences number at most memory times sequences, shared cells counted once |
| `KvCapacity.NeverFull` | kvcache/causal.go:258-271 | with at most `maxSequences` live sequences a sliding-window cache has room for every batch |
| `KvAttention.RangeIsComplete` | kvcache/causal.go:324-348 | no cell that a token of the batch attends to lies outside the collected range and the new cells |
| `KvAttention.AttendsIs` | kvcache/causal.go:371-378 | a token sees the cells of its own sequence that are not later, no further back than the window and in its own chunk; an exempt token also later ones |
| `KvAttention.PaddedIs` | kvcache/causal.go:362-364 | padding goes to the next multiples and no further, stays inside the array and is idempotent |
| `KvAttention.ResumableIsWindowStored` | kvcache/causal.go:520-547 | `CanResume` holds if and only if memory is unlimited or the whole window before `pos` is stored (for `pos` 0, if position 0 is) |
| `KvAttention.WindowSurvives` | kvcache/causal.go:332-345 | truncation at `pos` and the eviction of the next batch spare the window before `pos` |
| `KvAttention.ResumeFindsWindow` | kvcache/causal.go:520-547 | after a positive `CanResume`, truncation and a batch at `pos`, every position of the window is stored, and attended to if and only if it is in the same chunk |
| `KvRuns.StepKeepsInv` | kvcache/causal.go:198-666 | every operation, failing or not, keeps the invariant |
| `KvRuns.RunKeepsInv` | kvcache/causal.go:198-666 | in every state of every run, each sequence without an unrepaired failure stores a duplicate-free and gap-free interval, and every cell it references has keys rotated to its position in every layer |
| `KvRuns.RunNeverFull` | kvcache/causal.go:258-271 | no reachable repaired state of a sliding-window cache is too full for the next batch |
| `KvRuns.RunResumes` | kvcache/causal.go:520-547 | a positive `CanResume` is sound in every reachable state, also after middle removals |
| `KvSession.Session.Reliable` | kvcache/cache.go:57-76 | at any time in a session with the cache the invariant holds for every sequence without an unrepaired failure, and its entry in the range index is exact |
| `KvSession.Session.PutAll` | kvcache/causal.go:449-477 | the layers put one after the other come to the state that the run's forward step requires |
| `KvSession.Session.Start` | kvcache/causal.go:198-232 | a forward pass of a caller that keeps its contract; with a sliding window and no more sequences than the cache was made for, it does not fail |
| `KvSession.Session.Forward` | kvcache/cache.go:57-61 | what the class does in a forward pass is a step of a run, so the theorems about runs hold of it; every token of the batch is then stored |
| `KvSession.Session.Complete` | kvcache/causal.go:449-477 | the keys of a started pass are put into every layer, which completes a step of the run |
| `KvSession.Session.Copy` | kvcache/cache.go:63-64 | a prefix copy is a step of a run |
| `KvSession.Session.Remove` | kvcache/cache.go:71-76 | a removal followed, if it fails, by the documented recovery: no sequence becomes unreliable, and after a failure the sequence is empty |
| `KvWrapper.TruncationIs` | kvcache/causal.go:615-666 | removal to the end renumbers and rotates nothing |
| `KvWrapper.UnwindingUndoesPlacing` | kvcache/wrapper.go:48-53 | removing the batch token by token undoes the placement and nothing else |
| `KvWrapper.Unwind` | kvcache/wrapper.go:49-52 | the unwinding of one cache: its references are those after eviction |
| `KvWrapper.WrapperCache.UnwindBelow` | kvcache/wrapper.go:48-53 | all caches before the failing one are unwound, the others untouched |
| `KvWrapper.WrapperCache.ForwardAll` | kvcache/wrapper.go:44-60 | passes in order up to the first full cache |
| `KvWrapper.WrapperCache.StartForward` | kvcache/wrapper.go:44-60 | the pass happens in every cache or in none; on failure the caches up to the full one have only moved their windows and the later ones are unchanged; a reservation succeeds and changes no cache |
| `KvWrapper.AtomicForward` | kvcache/wrapper.go:44-60 | after a failed pass no token of the batch is stored, and an earlier token is stored if and only if memory is unlimited or it is within memory of its sequence's tokens in the batch or, for an idle sequence, of its last position |
| `KvWrapper.UnwoundIsStep` | kvcache/wrapper.go:48-53 | what a failed pass leaves in a wrapped cache is a step of a run, so the theorems about runs cover wrapped caches |
| `KvWrapper.WrapperCache.Remove` | kvcache/wrapper.go:100-110 | removed in every cache, or stopped at the first failure with other sequences untouched everywhere; removal to the end never fails |
| `KvWrapper.WrapperCache.RemoveOrClear` | kvcache/wrapper.go:100-110 | the retry after a failure clears the sequence in every cache; references, positions and keys of every other sequence stay |
| `KvWrapper.WrapperCache.CanResume` | kvcache/wrapper.go:90-98 | true if and only if every cache can resume |
| `HarmonyText.IndexSpec` | harmony/harmonyparser.go:117-119 | the search finds the first occurrence if and only if there is one |
| `HarmonyText.OverlapSpec` | harmony/harmonyparser.go:243-252 | the overlap is the longest suffix of the text that is a prefix of the tag |
| `HarmonyText.ComputeOverlap` | harmony/harmonyparser.go:244-252 | the loop computes the longest overlap |
| `HarmonyText.FirstTagAfter` | harmony/harmonyparser.go:145-152 | text followed by a tag is split at that tag if and only if the text does not contain it |
| `HarmonyHeaderExact.TokensAreRead` | harmony/harmonyparser.go:216-217 | the tokens of a text are read whatever white space stands before, between and after them |
| `HarmonyHeaderExact.FieldsTrim` | harmony/harmonyparser.go:193-213 | trimming changes no token |
| `HarmonyHeaderExact.ChannelledHeader` | harmony/harmonyparser.go:198-217 | any header with a channel tag: the channel is what follows the first one up to white space, and the tokens are those of the rest |
| `HarmonyHeaderExact.PlainHeader` | harmony/harmonyparser.go:216-217 | any header without one: its tokens |
| `HarmonyHeaderExact.TokensMean` | harmony/harmonyparser.go:219-240 | which token is the role and which the recipient, for a tool's header and for a header without tokens too |
| `HarmonyHeaderExact.EmptyHeader` | harmony/harmonyparser.go:220-223 | a header of white space alone has no role, channel or recipient |
| `HarmonyParser.Eat` | harmony/harmonyparser.go:113-184 | a turn that asks for another one has shortened the buffer; a turn that does not keeps the state |
| `HarmonyParser.Parser.EatOnce` | harmony/harmonyparser.go:113-184 | one turn of the parser, branch by branch, against its specification |
| `HarmonyParser.Parser.AddContent` | harmony/harmonyparser.go:93-110 | terminates with the buffer length as measure and computes the specified outcome |
| `HarmonyChunking.HeldBackIsSafe` | harmony/harmonyparser.go:159-171 | what is emitted early cannot be the beginning of an end tag, whatever follows |
| `HarmonyChunking.EatOfExtension` | harmony/harmonyparser.go:113-158 | a turn that decides something decides the same when more text follows |
| `HarmonyChunking.SplitBuffer` | harmony/harmonyparser.go:93-184 | feeding x then y leaves the same state as feeding xy and emits the same events character by character |
| `HarmonyChunking.AnyCutIsWhole` | harmony/harmonyparser.go:93-184 | the same for any list of chunks |
| `HarmonyChunking.NeverEmitsEmpty` | harmony/harmonyparser.go:154-179 | no empty content event is emitted |
| `HarmonyChunking.ChunkingInvariance` | harmony/harmonyparser.go:93-184 | two ways of cutting a stream give the same parser state and the same events after merging adjacent content |
| `HarmonyHeader.HeaderRoundTrip` | harmony/harmonyparser.go:186-241 | a header with whitespace-free role, channel and recipient reads back, with the recipient before or after the channel and with or without a constraint; a role written as a recipient makes it a header of a tool |
| `HarmonyHeader.ChannellessRoundTrip` | harmony/harmonyparser.go:198-240 | a header without a channel tag reads back with an empty channel |
| `HarmonyRoundTrip.RenderParses` | harmony/harmonyparser.go:113-184 | rendered messages parse back to the same list, text before their start tags is dropped, and the parser is ready for the next one |
| `HarmonyRoundTrip.RoundTrip` | harmony/harmonyparser.go:93-184 | the same under any chunking and any part already buffered |
| `HarmonyRoundTrip.RenderThen` | harmony/harmonyparser.go:113-158 | complete messages are read as such whatever follows them |
| `HarmonyRoundTrip.NothingStartsYet` | harmony/harmonyparser.go:131-132 | text in which no message starts waits in the buffer |
| `HarmonyRoundTrip.HeaderNotEnded` | harmony/harmonyparser.go:133-143 | a header that has not ended waits in the buffer |
| `HarmonyRoundTrip.ContentNotEnded` | harmony/harmonyparser.go:144-180 | content that has not ended is emitted as it comes, but for the longest end that may begin an end tag |
| `HarmonyRoundTrip.WrittenOut` | harmony/harmonyparser.go:274-285 | a message in the written format, tags spelled out, is read back |
| `HarmonyRoundTrip.ToolCallWrittenOut` | harmony/harmonyparser.go:274-285 | a tool call in the written format, tags spelled out, is read back with its recipient |
| `HarmonyRoundTrip.HarmonyMessageRoundTrip` | harmony/harmonyparser.go:274-285 | with the tags and header format of the handler, a message reads back to header and content |
| `HarmonyRoundTrip.ImplicitStartRoundTrip` | harmony/harmonyparser.go:75-77 | after the implicit start, what the model says is read, under any chunking, as a message of the assistant with the channel, recipient and content it gives |
| `HarmonyRoundTrip.HarmonyTagsUnbordered` | harmony/harmonyparser.go:277-281 | the tags that the handler sets up satisfy what the round trip needs |
| `HarmonyHandler.Handler.AddContent` | harmony/harmonyparser.go:289-334 | each piece of text goes to the sink that its message's header selected |
| `HarmonyHandler.RouteIsByCharacter` | harmony/harmonyparser.go:295-332 | routing does not depend on where content events are cut |
| `HarmonyHandler.HandlerChunkingInvariance` | harmony/harmonyparser.go:289-334 | content, thinking and tool text of a response, and the tool addressed, are the same for every way of cutting the stream |
| `HarmonyConversation.SelectIs` | harmony/harmonyparser.go:297-319 | outside a message, the header alone decides where content goes and which tool is addressed |
| `HarmonyConversation.ResponseIsRouted` | harmony/harmonyparser.go:289-334 | for a rendered conversation under any chunking, the content, thinking and tool text are the contents of the messages whose channel and recipient put them there, in order, and the tool is the last one addressed |
| `HarmonyNames.Sanitize` | harmony/harmonyparser.go:509-537 | the result is always an identifier: non-empty, identifier characters only, no leading digit |
| `HarmonyNames.SanitizeKeepsIdentifiers` | harmony/harmonyparser.go:509-537 | a name is left alone if and only if it is an identifier already |
| `HarmonyNamesExact.MapCharsConcat` | harmony/harmonyparser.go:510-523 | names are mapped character by character, in order |
| `HarmonyNamesExact.MapCharIs` | harmony/harmonyparser.go:510-522 | space, hyphen and dot become underscores, identifier characters stay and anything else goes |
| `HarmonyNamesExact.SanitizeIs` | harmony/harmonyparser.go:525-536 | an underscore is put in front of a digit, and "unnamed" stands for nothing |
| `HarmonyNamesExact.SeparatorsBecomeUnderscores` | harmony/harmonyparser.go:512-514 | identifiers joined by a separator are joined by an underscore |
| `HarmonyNamesExact.NameForIs` | harmony/harmonyparser.go:543-553 | a tool that is not built in gets its identifier if that is free, and otherwise the smallest free suffix from 2 on |
| `HarmonyNamesExact.BuiltinsKeepTheirNames` | harmony/harmonyparser.go:478-481 | the four built-in tools keep their names whatever is taken |
| `HarmonyNamesExact.RepeatedNames` | harmony/harmonyparser.go:543-553 | one identifier added again and again gets itself, then 2, 3 and so on behind it |
| `HarmonyNames.CandidatesDiffer` | harmony/harmonyparser.go:551-551 | the names tried by the search are pairwise distinct |
| `HarmonyNames.SearchIsBounded` | harmony/harmonyparser.go:547-553 | a search through k occupied names needs k entries |
| `HarmonyNames.FunctionNameMap.DeriveName` | harmony/harmonyparser.go:539-556 | returns the first free candidate within one more attempt than there are entries |
| `HarmonyNames.FunctionNameMap.ConvertAndAdd` | harmony/harmonyparser.go:476-485 | returns a fresh name, or the name itself for a built-in, and both maps are then those of the run with this call added, so the theorems about runs hold of the class |
| `HarmonyNames.FunctionNameMap.OriginalFromConverted` | harmony/harmonyparser.go:490-497 | gives back the user's name for every name ever returned, unless another name became python before the built-in python was added, and for every returned name but python in any case; a name that was never returned is handed back as it is |
| `HarmonyNames.ConvertKeepsInvariant` | harmony/harmonyparser.go:476-485 | after any calls: every returned name other than python leads back, and who owns python |
| `HarmonyNames.OnlyReturnedNames` | harmony/harmonyparser.go:482-483 | the reverse map has entries for exactly the names that were returned |
| `HarmonyNames.ReversibleIffNoConflict` | harmony/harmonyparser.go:476-497 | every name ever returned still maps back if and only if no other name became python before the built-in python was added |
| `HarmonyNames.PythonConflictExample` | harmony/harmonyparser.go:479-483 | two calls after which a returned name no longer maps back |
| `AnthropicStream.StreamConverter.constructor` | anthropic/anthropic.go:732-740 | the initial state |
| `AnthropicStream.StreamConverter.StartMessage` | anthropic/anthropic.go:752-777 | the start event and its token count, once |
| `AnthropicStream.StreamConverter.ProcessThinking` | anthropic/anthropic.go:779-806 | thinking events, against the specification |
| `AnthropicStream.StreamConverter.ProcessText` | anthropic/anthropic.go:808-847 | text events, against the specification |
| `AnthropicStream.StreamConverter.ProcessTool` | anthropic/anthropic.go:850-919 | events of one tool call: nothing if already sent, open blocks closed first, no block if the arguments cannot be encoded |
| `AnthropicStream.StreamConverter.ProcessTools` | anthropic/anthropic.go:849-920 | events of all tool calls of a chunk, in order |
| `AnthropicStream.StreamConverter.FinishMessage` | anthropic/anthropic.go:922-965 | closing events and final usage |
| `AnthropicStream.StreamConverter.Convert` | anthropic/anthropic.go:749-968 | the events of a chunk and the new state, against the specification |
| `AnthropicWellFormed.ProcessChecks` | anthropic/anthropic.go:749-968 | a client that checks the bracketing stays in step over a chunk if and only if thinking does not arrive while text is open |
| `AnthropicWellFormed.StreamWellFormedIff` | anthropic/anthropic.go:749-968 | a run is one start, then non-overlapping blocks numbered 0, 1, 2, ... all closed, then the summary and the stop, if and only if every chunk meets that guard |
| `AnthropicWellFormed.OrderedIsGuarded` | anthropic/anthropic.go:779-847 | runs whose thinking never follows text meet the guard |
| `AnthropicWellFormed.ThinkingAfterTextBreaks` | anthropic/anthropic.go:779-806 | a run of two chunks that is not well bracketed |
| `AnthropicWellFormed.StreamSends` | anthropic/anthropic.go:849-920 | over any run each tool identifier is sent at most once |
| `AnthropicWellFormed.LastEvents` | anthropic/anthropic.go:941-964 | a run ends with the summary, carrying the last chunk's reason and usage, and the stop |
| `AnthropicWellFormed.StopReasonFits` | anthropic/anthropic.go:699-715 | for every run, the summary's reason is tool_use if and only if a tool block was sent; otherwise end_turn if and only if the last chunk's reason is stop, max_tokens if and only if it is length, empty if and only if it is empty, and stop_sequence in all other cases; its counts are the last chunk's |
| `AnthropicWellFormed.StartCounts` | anthropic/anthropic.go:752-776 | a run starts with the start event, which carries the first chunk's count or, if that is zero, a positive estimate |
| `AnthropicWellFormed.ToolLeavesNothingOpen` | anthropic/anthropic.go:850-883 | a tool call not sent before leaves no block open, also if its arguments cannot be encoded, and is marked as sent only if they can; one sent before is skipped |
| `AnthropicRefine.ToolsInStep` | anthropic/anthropic.go:849-920 | the client's accumulated blocks stay in step over tool calls |
| `AnthropicRefine.WholeMessageIs` | anthropic/anthropic.go:656-715 | the non-streaming conversion: non-empty thinking, non-empty text and the tools in order, the reason spelled out, and the counts |
| `AnthropicRefine.StreamInStep` | anthropic/anthropic.go:749-968 | the same over a whole run from any intermediate state |
| `AnthropicRefine.StreamingRefinesWhole` | anthropic/anthropic.go:656-696 | for ordered runs with distinct identifiers and encodable arguments, accumulating the stream gives the blocks, stop reason and usage of the non-streaming conversion of the joined response |
| `AnthropicExact.ContinuesTail` | anthropic/anthropic.go:779-847 | a run that is out of order has a first chunk that is late |
| `AnthropicExact.LateMisplaces` | anthropic/anthropic.go:779-847 | late thinking or late text puts a block after one that it should precede |
| `AnthropicExact.DroppedThought` | anthropic/anthropic.go:779-779 | thinking after a finished thinking block is dropped, so the accumulated block is too short |
| `AnthropicExact.OutOfOrderDiffers` | anthropic/anthropic.go:749-968 | a run out of order never accumulates to the blocks of the whole response |
| `AnthropicExact.SameToolsMeansDistinct` | anthropic/anthropic.go:849-920 | if the accumulated tools are those of the whole response, no identifier repeats and all arguments can be encoded |
| `AnthropicExact.StreamingRefinesWholeIff` | anthropic/anthropic.go:656-696 | for every run: the accumulated stream is the non-streaming conversion of the joined response if and only if thinking, text and tools come in this order, no identifier repeats and all arguments can be encoded |
| `AnthropicExact.RepeatedToolExample` | anthropic/anthropic.go:850-852 | the same tool call twice: the stream sends it once and the whole response holds it twice |
| `ConvertJson.SanitizeNonFinite` | convert/json_compat.go:13-68 | the loop over position, string flag and escape flag computes the rewriting |
| `ConvertJson.StepCopies` | convert/json_compat.go:25-43 | inside strings, and outside where no token stands, one byte is copied |
| `ConvertJson.StepReplaces` | convert/json_compat.go:45-61 | a token that stands outside strings, the longer one first, becomes a single 0 |
| `ConvertJsonExact.StandingWordsOnly` | convert/json_compat.go:22-65 | outside strings exactly the words that stand between such neighbours become a single 0, and every other byte is copied |
| `ConvertJsonExact.UnchangedIffWithoutWords` | convert/json_compat.go:13-68 | a text is left as it is if and only if no such word stands outside its strings |
| `ConvertJsonExact.StringIsInside` | convert/json_compat.go:25-43 | from its opening quote to its closing one a string is inside, escaped quotes and backslashes included, and right after it the scan is outside again |
| `ConvertJsonExact.StringsSurvive` | convert/json_compat.go:25-43 | a text written as strings and other bytes keeps exactly its strings |
| `ConvertJsonExact.BracketsExample` | convert/json_compat.go:95-97 | `[NaN]` becomes `[0]` |
| `ConvertJsonExact.NoWordLeft` | convert/json_compat.go:70-97 | outside strings the result holds none of the three words between the beginning, white space or one of `:,[` and the end, white space or one of `,]}` |
| `ConvertJson.SanitizeIdempotent` | convert/json_compat.go:13-68 | a second pass changes nothing, nor does a first pass over clean input |
| `ConvertJson.SanitizeKeepsLiterals` | convert/json_compat.go:25-43 | the string literals of the result are exactly those of the input, in order |
| `ConvertMxfp4.ReorderInPlace` | convert/convert_gptoss.go:227-238 | the buffer is rewritten in place, block by block, to the reordering of its old contents |
| `ConvertMxfp4.ReorderBlock` | convert/convert_gptoss.go:230-237 | one block is rewritten and no other byte changes |
| `ConvertMxfp4.ReorderedNibbles` | convert/convert_gptoss.go:232-234 | output byte m holds input nibbles m and m + 16 |
| `ConvertMxfp4.ReorderedBytes` | convert/convert_gptoss.go:230-234 | each pair of output bytes takes apart the two input bytes that stand eight apart, low nibbles first |
| `ConvertMxfp4.BlockByBlock` | convert/convert_gptoss.go:229-238 | each block of the result depends on the same block of the input alone |
| `ConvertMxfp4.ReorderAllInvertible` | convert/convert_gptoss.go:227-238 | the map is a bijection on buffers |
| `ConvertRotary.NormalToNeoX` | convert/convert_glmocr.go:22-77 | whole heads are reordered and the slots that no whole head reaches stay zero |
| `ConvertRotary.Fill` | convert/convert_glmocr.go:53-73 | the nested loops: every slot of a whole head is written with its source dimension, other slots stay as allocated |
| `ConvertRotary.DimsInverse` | convert/convert_glmocr.go:55-71 | the order of dimensions is a permutation of a head |
| `ConvertRotary.NeoXIsPermutation` | convert/convert_glmocr.go:22-77 | for whole heads the result is the input permuted, so the input can be had back |
| `ConvertRotary.EvensThenOdds` | convert/convert_glmocr.go:53-71 | in each head and column, the even rotary dimensions come first, the odd ones next and the others stay, with the flat places written out |
| `ConvertIndex.PermutedBack` | convert/convert_glmocr.go:53-73 | permuting back by the inverse order gives the input again |
| `ConvertRotary.NeoXLosslessIff` | convert/convert_glmocr.go:37-73 | the repacker loses nothing if and only if the output features are whole heads |
| `ConvertPatch.RepackPatch` | convert/convert_lfm2_vl.go:380-417 | fails exactly on a wrong rank, row length or data size; otherwise returns the channel planes |
| `ConvertCopy.CopyBox` | convert/convert_lfm2_vl.go:400-414 | four nested loops copy every element of the box from its source index to its destination index and write nothing else |
| `ConvertPatch.RepackedBijective` | convert/convert_lfm2_vl.go:397-414 | every source element is found again at the inverse index |
| `ConvertPatch.PlanesFromPixels` | convert/convert_lfm2_vl.go:397-414 | channel c of pixel (y, x) goes to place (y, x) of plane c, with the flat places written out |
| `ConvertPatch.ReshapePatchEmbed` | convert/convert_gemma4.go:398-424 | a tensor that is not a matrix is returned unchanged; otherwise every plane element comes from its pixel, what follows the planes is zero and the shape is rewritten |
| `ConvertPatch.ReshapedElement` | convert/convert_gemma4.go:410-420 | the same for rows of any length |
| `ConvertPatch.Gemma4LosslessIff` | convert/convert_gemma4.go:402-423 | the repacker loses nothing if and only if there is no row or the row length is three times the square of the patch size that the code computes |
| `ConvertPatch.PatchSizeOf` | convert/convert_gemma4.go:404-405 | the patch size is recovered from a row of three square planes |
| `ConvertPatch.Gemma4IsLfm2` | convert/convert_gemma4.go:402-420 | for rows of three square planes both repackers compute the same tensor |
| `ConvertPatch.PatchEmbedSlice` | convert/convert_qwen3next.go:739-774 | fails exactly on a wrong shape, slice or size; otherwise returns that frame of every kernel |
| `ConvertPatch.SliceElement` | convert/convert_qwen3next.go:759-770 | each element of a slice and its source, with the flat places written out |
| `ConvertPatch.SlicesPartition` | convert/convert_qwen3next.go:759-770 | each source element is at exactly one place of exactly one of the two slices |
| `ConvertHeads.GroupedToTiled` | convert/convert_qwen3next.go:1346-1366 | value head v of key head g moves from place g*M+v to place v*N+g, elements within a head in order |
| `ConvertHeads.ReorderedElement` | convert/convert_qwen3next.go:1325-1376 | on the axis given, and on no other, each element of value head v of key head g moves to its tiled place |
| `ConvertHeads.ReorderInvertible` | convert/convert_qwen3next.go:1325-1376 | on any axis of any tensor, exchanging the two head counts undoes the reordering; where the axis is not made of heads nothing changes |
| `ConvertQkv.HasHeadsIff` | convert/convert_qwen3next.go:1341-1344 | the value block is reordered exactly when the value heads divide evenly over the key heads |
| `ConvertQkv.MoveRows` | convert/convert_qwen3next.go:1206-1222 | row branch: each row of the result is the source row that the channel permutation names |
| `ConvertQkv.MoveColumns` | convert/convert_qwen3next.go:1224-1238 | transposed branch, loop over rows: each column comes from the source column that the same permutation names |
| `ConvertQkv.MovesIsPermutation` | convert/convert_qwen3next.go:1205-1238 | the channel map is a permutation and fixes every query and key channel |
| `ConvertQkv.MovesHeads` | convert/convert_qwen3next.go:1216-1216 | which value channel each value channel comes from |
| `ConvertQkv.ChannelSources` | convert/convert_qwen3next.go:1194-1216 | the source of each channel, with head counts and dimensions written out: queries and keys stay, value heads move to the tiled order, and nothing moves when the heads do not divide evenly |
| `ConvertQkv.RepackAttnQKV` | convert/convert_qwen3next.go:1188-1244 | all branches of the attention repacker |
| `ConvertQkv.RepackConv1D` | convert/convert_qwen3next.go:1246-1308 | all branches of the convolution repacker, with the squeezing of unit dimensions |
| `ConvertQkv.RepackedRow` | convert/convert_qwen3next.go:1205-1222 | each element of a matrix with a row for each channel |
| `ConvertQkv.RepackedColumn` | convert/convert_qwen3next.go:1224-1238 | each element of a matrix with a column for each channel |
| `ConvertQkv.OthersAreLeft` | convert/convert_qwen3next.go:1240-1242 | any other matrix is left as it is |
| `ConvertQkv.SqueezedProduct` | convert/convert_qwen3next.go:1252-1259 | squeezing keeps the number of elements |
| `ConvertQkv.SqueezedIs` | convert/convert_qwen3next.go:1252-1259 | a leading dimension of one goes, or else a middle one, and other shapes stay |
| `ConvertQkv.RepackInvertible` | convert/convert_qwen3next.go:1188-1308 | two matrices with the same repacking are the same |
| `ConvertTranspose.RepackCommutes` | convert/convert_qwen3next.go:1205-1242 | the row branch and the transposed branch are each other's transposition |
| `ConvertTranspose.SquareBreaks` | convert/convert_qwen3next.go:1205-1224 | a square matrix over the channels on which transposing first and repacking first differ, because the row branch wins both times |
| `ConvertTranspose.TransposeCommutesIff` | convert/convert_qwen3next.go:1205-1242 | repacking commutes with transposition on all matrices if and only if the matrix is not square over the channels or no value head moves |
| `ConvertQkvz.SpecOf` | convert/convert_qwen3next.go:1389-1423 | a split is offered exactly for matrices of whole, evenly shared heads, and then the two outputs' rows add up to the source's |
| `ConvertQkvz.RepackedIs` | convert/convert_qwen3next.go:1453-1537 | the chain of transpositions, slices, reshapes and concatenation moves each element to the place the index function names |
| `ConvertQkvz.QueriesAndKeys` | convert/convert_qwen3next.go:1475-1505 | the queries of all heads and then the keys of all heads start the first output |
| `ConvertQkvz.ValuesAndGate` | convert/convert_qwen3next.go:1484-1521 | the values of all heads end the first output, and the slices behind them in each head are the second |
| `ConvertQkvz.SplitElement` | convert/convert_qwen3next.go:1453-1537 | each element of an output and its source row |
| `ConvertQkvz.SourceRowIs` | convert/convert_qwen3next.go:1475-1523 | every output row comes from a source row that goes to it and to no other row of either output |
| `ConvertQkvz.SplitPartitions` | convert/convert_qwen3next.go:1425-1537 | each source element goes to exactly one position of exactly one of `attn_qkv` and `attn_gate` |
| `ConvertQkvz.SplitIsLossless` | convert/convert_qwen3next.go:1425-1537 | the two tensors determine the source |

## Left out

- Tensors, views, strides, data types and every call into a backend; `Get`, and the value half of `Put`. A failing shift function is a set of chunks and layers given as a parameter.
- `EncoderCache`, the recurrent caches and `CheckpointCache`; `Close`, `SetConfig`, `SetLayer`, `SetLayerType`.
- `WrapperCache.CopyPrefix` and `WrapperCache.Init`: loops over the wrapped caches that add only easy members. Wrapped caches are causal caches.
- `KvCausal.Causal.StartForward`: takes batches that are non-empty and at most `maxBatch` long with positions from 0 up to, but not including, the largest 32-bit integer; outside these 32-bit positions wrap around and the cache has no contract. Sequences and positions are one list of pairs.
- `KvCausal.Causal.Remove`: takes `begin <= end`; with `begin > end` the positions of a sequence are no longer an interval.
- `KvCausal.Causal.MaskRows`: the mask is a list of rows of booleans, not one flat buffer of floats.
- `KvCausal.Causal.constructor`: covers the sizes for which `Init` does not panic, below the largest integer, with batches of at least one token; a cache made for batches of none can never hold anything.
- That a removal from the middle of a sequence keeps the memory window full: the code says that it does not check this (`kvcache/causal.go:616-620`).
- A char is one byte of a Go string. White space in headers is the six ASCII characters; letters and digits in tool names are ASCII. Wider Unicode classes are not modelled.
- `HarmonyMessageHandler.Add` and `Init`, prefilled messages, and the decoding of tool arguments as JSON.
- `HarmonyHeader.HeaderRoundTrip`: the names contain no channel or constraint tag; such headers are read differently by design.
- Message identifiers, models, roles and JSON encodings of Anthropic events; `FromMessagesRequest`, web search, tracing and logging.
- `AnthropicStream.StreamConverter.Convert`: its body is divided into one method for each part of `Process`.
- `ConvertRotary.NormalToNeoX`: takes the rotary dimension as an integer between 0 and the head dimension instead of computing it with a floating-point factor.
- `ConvertPatch.ReshapePatchEmbed`: takes the integer part of the square root exactly, where the code takes it of a double; the data has as many elements as the shape says.
- `ConvertPatch.RepackPatch`: takes channels and patch size as natural numbers.
- `ConvertHeads.ReorderedElement`: the tensor library's reshape, transposition and copy are modelled by what they do to indices; its errors do not arise for data that has as many elements as the shape says.
- `ConvertQkvz.RepackedIs`: likewise for transposition, slicing and concatenation.
- `ConvertQkv.RepackAttnQKV`: division by zero key heads, at which the code panics, is excluded where the code divides; whether value heads are to be reordered at all is a parameter instead of being read from the model's name.
- The reading and writing around the MXFP4 loop, and buffers whose length is not a multiple of 16, on which the loop would read beyond the end.
- The rest of `convert/`: tables of names and parameters, tokenizers, readers of tensor files, floating-point transformations and number formats.
- Everything else in the repository: command line, server, scheduling, discovery of devices, application interface and configuration.
