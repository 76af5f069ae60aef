# Verified model of the snapshot-core storage engine

snapshot-core keeps versioned data as content-addressed chunks. Byte streams are cut by their content; ordered maps are
trees whose shape their contents decide; chunks are sealed into packs; a manifest swapped by compare-and-swap names the
packs in use; commits are journaled before they are published; a collector drops what no root reaches; branches are
merged three ways. This project models that core in Dafny, keeping the branches, constants and refusals of the code,
and proves what the code is for.

Code that changes things step by step is modelled by classes and loops proved against specification functions; code
that computes is modelled by functions and lemmas. A content hash stands for exactly one node, pack or tree, so where
only identity matters the model holds the thing itself instead of its hash.

Main results, by module:

- **Maps.** `Flush.Apply`: the incremental, level-by-level flush of any sorted edits into any canonical tree is the tree
  a bulk build of the edited entries draws; with `Maps.Canonicity`, equal contents and equal roots are the same thing,
  whatever the edit history. `Diffs.Diff` with `Diffs.DiffIter.Next`, `Diffs.DiffReports` and `Diffs.DiffAscending`:
  jumping over shared subtrees reports exactly the keys that differ, once each, in order. `Maps.LoggedIsDiff`: a flush
  logs exactly those keys.
- **Journal.** `Journal.AcknowledgedSurvives`: over every run of commits, syncs, rotations, publishes, drops, resets and
  crashes, a completed replay is at the last acknowledged commit or a later one; `Journal.ReplayCompletes` says exactly
  which crashes are refused, and `JournalFile.CutSurvives` carries both to files cut at any byte.
- **Collection.** `GcRound.Apply`: one round keeps every live chunk in a pack in service, copies no chunk twice and
  deletes nothing named, and what expires was on record for the grace window. `Publishing.IntactExactlyWhenQuick`: writers beside a collector leave every manifest intact on
  all runs if and only if publishes and rounds are quick enough, with the exact bound.
- **Chunking and streams.** `CdcParallel.CutParallel` and `Cdc.CutSerial` cut alike for every partition into reads;
  `Cdc.Resync`: equal tails are cut alike. `StreamWriter.Write`: the tree grown a chunk at a time is a function of the
  bytes; `Streams.Reader.ReadAt`: reads through the cached path are slices of them.
- **Merging and history.** `NamespaceMerge.MergeZipped` and `ObjectMerge.MergeWith`: zipping two diffs gives the
  pointwise three-way table, conflicts and refusals included; `NamespaceMerge.FastPathsAgree`: the shortcuts agree with
  it; `ObjectMerge.MergeSymmetric`: it does not matter whose side is whose. `History.MergeBase`: the highest common
  ancestor. `WorkingSets.AbortRestores`: an abort undoes a merge through any interleaving;
  `WorkingSets.BaseFoundEarlier`: exactly when a base found earlier is still the best.
- **Formats.** `Packs.Writer.Finish` with `Packs.ReadsBack`: every finished pack reads back to its own description, its
  frames back to back and each opening to its chunk; `PackRecords.PlainExactly` and `PackRecords.FinishedAccepted`: the
  index objects' decoder accepts exactly the sorted records whose frames fit, every finished pack's among them.
  `NodeCodec.Decode`: map nodes likewise. `Tables.Lookup`: the sampled search over the externally sorted table answers
  as the map of first values. `Compaction.Compact`: merging index objects tier by tier locates the same packs, each
  once.

`dafny verify dfyconfig.toml` checks the whole project.

## Findings

Where a natural claim is false of the code, the project keeps the code, gives an input and proves the exact condition.

- Publishing. A publish shorter than the grace window plus the recheck age is not enough for every manifest to stay
  intact: a round reads its clock before it begins, and its records lapse by that clock. All runs are intact if and only
  if publish + round < grace + min(grace, recheck) (`Publishing.IntactExactlyWhenQuick`; the breaking runs are
  `Publishing.LateDeletion`, `Publishing.EarlyClock`, `Publishing.YoungLost` and `Publishing.LostBreaks`).
- Journal replay. A crash between a forced publish's swap and its reset can leave a root outside the journal's chain,
  which replay refuses (`Journal.RefusedHappens`); everywhere else replay completes (`Journal.ReplayCompletes`).
- Namespace merge. The shortcut for an unchanged ours returns theirs without asking whether its models resolve
  (`NamespaceMerge.UnresolvedAdded` is an input where the zip refuses) and reports zero counts where the zip counts every
  change (`NamespaceMerge.OursUnchanged`). The other two shortcuts count as the zip does; what they skip is reading ours'
  changes, so the zip refuses exactly where one cannot be read, or where a negative limit meets a shared path
  (`NamespaceMerge.TheirsUnchanged`, `NamespaceMerge.SameChanges`).
- Pack index decoder. It compares frames after narrowing offsets to 32 bits, so it is exact if and only if the index
  starts below 4 GiB plus the 28 bytes of a seal (`PackIndex.DecodesExactly`). Writers never come near: a pack is at most
  1 GiB, which `Packs.Writer.Finish` proves.
- Pack trailer. The index offset and length are added in 64 bits; for a trailer whose sum wraps, the slice of the index
  is out of range instead of being refused (`Packs.ReadInfo`, outcome `OutOfRange`, with the exact condition; the bytes
  of `Packs.WrappedTrailer` are such a pack). No finished pack has such a trailer (`Packs.ReadsBack`).
- Collection. A manifest with more than 100,000 records cannot be opened, and a round tests this only for the
  condemnations and orphans it adds, not for the repacked packs and replaced index objects it records. The manifest a
  round swaps in can be opened again if and only if the records it keeps, the packs it repacks and the index objects it
  replaces are together at most 100,000 (`GcRound.Update` counts them, `GcRound.Apply` states it). From a full manifest
  `GcStart.LedgerOverflows` ends at one that cannot be.
- Merge base. A merge finds its base from the head it read, and its start compares working sets only, so the head may
  have moved on. The base recorded is always a common ancestor of head and theirs (`WorkingSets.RunSound`); it is still
  the best one if and only if nothing of theirs that the branch gained meanwhile comes before it
  (`WorkingSets.BaseFoundEarlier`). Commits without a merge never overtake it
  (`WorkingSets.PlainCommitsKeepBest`); a merge in between can (`WorkingSets.BaseOvertaken`).

## Model

| member | source | states |
|---|---|---|
| Boundary.New | core/boundary/boundary.go:43-68 | Succeeds exactly on a valid geometry, and the rule it makes has a lambda whose fourth power fits 64 bits and is not zero. |
| Boundary.LambdaFits | core/boundary/boundary.go:62-68 | For every valid geometry lambda lies between 1129 and 36152, its powers fit 64 bits and its fourth power is at least 2^28, so the division never traps. |
| Boundary.QuotientFits | core/boundary/boundary.go:76-88 | The high word of the product is below the divisor, so the 128-by-64-bit division equals the exact quotient. |
| Boundary.Threshold | core/boundary/boundary.go:76-88 | For all sizes the 64-bit computation equals floor((after^4 - before^4) * 2^32 / lambda^4), saturated at certainty past the maximum. |
| Boundary.Splitter.Append | core/boundary/boundary.go:112-132 | Answers as the split rule on the entries since the last boundary, and starts over after one. |
| Boundary.RuleShrinks | core/boundary/boundary.go:123-132 | Above the leaves no node ends at one entry. |
| Drawing.FeedAppend | core/prolly/flush.go:62-68 | Feeding entries in two goes is feeding their concatenation. |
| Drawing.DrawConserves | core/prolly/flush.go:62-100 | Drawing loses, adds and reorders nothing and draws no empty node. |
| Drawing.DrawIsLocal | core/prolly/flush.go:62-100 | Every node but the last is closed by the rule on its own entries alone, whatever came before: what makes resynchronising with old nodes sound. |
| Drawing.DrawShrinks | core/boundary/boundary.go:112-132 | At levels above the leaves n entries draw at most ceil(n/2) nodes, so the growth loops end. |
| Drawing.BuildFromLevel | core/prolly/flush.go:271-282 | Growing from any level with several nodes below it ends at the bulk build's root. |
| Drawing.CollapseIsBuild | core/prolly/flush.go:250-270 | Collapsing single-child roots from a level of one node ends at the bulk build's root. |
| Canonical.DrawnRow | core/prolly/flush.go:62-119 | The names of the nodes drawn from a well-formed row are a well-formed row one level up, and expand back to it. |
| Canonical.BuildGood | core/prolly/flush.go:236-288 | The bulk build of a sorted row of leaf entries is a well-formed tree. |
| Edits.MergedSorted | core/prolly/flush.go:124-161 | Merging sorted edits into a sorted run leaves it strictly sorted. |
| Edits.MergedLookup | core/prolly/flush.go:124-161 | What the merged run holds under any key is what the run held, as the last edit of that key changes it. |
| Edits.Replace | core/prolly/flush.go:213-232 | The two-list walk computes the replacement edits: deletes, puts and overwrites in key order, nothing for a node that did not change. |
| Edits.ReplacedMerges | core/prolly/flush.go:213-232 | Applied to the names removed, the replacement edits give exactly the names added. |
| Chunkers.Chunker.constructor | core/prolly/flush.go:58-60 | A new chunker has drawn nothing. |
| Chunkers.Chunker.Add | core/prolly/flush.go:62-68 | The chunker's nodes and open entries are one drawing step on from what they were. |
| Chunkers.Chunker.End | core/prolly/flush.go:84-100 | The open entries become the last node, if there are any. |
| Chunkers.Chunker.Change | core/prolly/flush.go:77-81 | A changed key is logged at the leaves and nowhere else. |
| Chunkers.Merge | core/prolly/flush.go:124-161 | The chunker is fed exactly the run with the edits up to the limit applied, the log gains exactly the keys those edits change, and the rest of the edits come back. |
| Levels.RedrawRest | core/prolly/flush.go:168-205 | From a boundary to the level's end, redrawing unchanged entries gives the old nodes back. |
| Levels.SettledStretch | core/prolly/flush.go:168-205 | Redrawing one stretch between two resynchronisations extends the settled part: the nodes drawn so far, the edits for the level above and the log stay those of the bulk build. |
| Levels.SettledEnd | core/prolly/flush.go:168-205 | When all edits are settled, the edits a level up applied to the old names give exactly the names a bulk build of the edited row draws. |
| Flush.Stretch | core/prolly/flush.go:176-203 | A stretch starts at the node its first edit falls in and ends at an old boundary or at the end; the nodes drawn over it are those of the edited entries, and the next edits lie beyond it. |
| Flush.CloseStretch | core/prolly/flush.go:192-203 | Closing a stretch turns the old nodes consumed and the new ones drawn into edits a level up. |
| Flush.ApplyLevel | core/prolly/flush.go:168-205 | For any sorted edits of a level below the root, the edits returned rename the old nodes to those a bulk build of the edited row draws; the log gains the keys changed. |
| Flush.GrowRoot | core/prolly/flush.go:271-282 | From a level of several nodes, adding levels ends at the bulk build's root. |
| Flush.ApplyRoot | core/prolly/flush.go:236-288 | From the edited row of the root's level the result is the bulk build's root: higher, lower, a single leaf, or the empty leaf. |
| Flush.Apply | core/prolly/flush.go:25-39 | For every canonical tree and every sorted edit list the flush ends at the root that building the edited entries in bulk ends at, and logs exactly the keys whose values changed, ascending. |
| Maps.Canonicity | core/prolly/flush.go:25-288 | Two canonical trees have equal roots if and only if they hold equal contents, whatever edits led to them. |
| Maps.LoggedIsDiff | core/prolly/prolly.go:304-354 | The keys a flush logs are exactly, and in the same order, the keys a diff of the two rows reports. |
| Maps.SortKeys | core/prolly/prolly.go:304-320 | The pending keys come out strictly sorted, each once. |
| Maps.Editor.constructor | core/prolly/prolly.go:275-275 | An editor starts on the map it is given, with nothing pending. |
| Maps.Editor.Put | core/prolly/prolly.go:279-292 | Refuses a key or value over its limit and changes nothing then; else the put is pending in place of any earlier edit of the key. |
| Maps.Editor.Remove | core/prolly/prolly.go:295-301 | The same for a delete. |
| Maps.Editor.Flush | core/prolly/prolly.go:304-339 | The new tree is canonical for the edited contents, the log is what a diff of the two trees reports, and no edit stays pending. |
| Cursors.Search | core/prolly/prolly.go:197-199 | Every entry before the answer has a lower key, every one from it on does not. |
| Cursors.Cursor.Fetch | core/prolly/cursor.go:72-79 | What is left below is exactly the expansion of what is left to the parent. |
| Cursors.Cursor.NextNode | core/prolly/cursor.go:56-69 | What is left loses exactly the entries of the node left behind, at every height of the parent chain. |
| Cursors.Cursor.Advance | core/prolly/cursor.go:43-52 | What is left of the level loses exactly its first entry, across node boundaries, and stays empty at the end. |
| Cursors.Cursor.LastNode | core/prolly/cursor.go:82-89 | True exactly when no node of the level follows. |
| Cursors.Seek | core/prolly/cursor.go:19-34 | The cursor stands at the start of the node whose range holds the key, or of the last node, and what is left is the row from there. |
| Cursors.SeekFirst | core/prolly/diff.go:35-48 | A cursor at the first leaf entry has the whole row left. |
| Lookups.Get | core/prolly/prolly.go:202-225 | The descent finds the value the leaf row holds under a key, or none when it holds none. |
| Lookups.GetIsMap | core/prolly/prolly.go:202-225 | On a canonical tree of a map, that is the map's value. |
| Diffs.SameItem | core/prolly/diff.go:115-124 | True exactly when both cursors have an entry and the entries are the same key with the same value or child. |
| Diffs.SkipCommon | core/prolly/diff.go:129-149 | Both cursors lose the same prefix of what they had left, and no shared entry is in front afterwards, although whole subtrees are jumped. |
| Diffs.SkipCommonParents | core/prolly/diff.go:153-167 | Climbing loses the same non-empty prefix from both. |
| Diffs.DiffIter.Next | core/prolly/diff.go:51-111 | Each call returns the first of the changes still to report and leaves the rest. |
| Diffs.Diff | core/prolly/diff.go:35-48 | For two well-formed trees of any heights the changes to report are those between their leaf rows; equal roots have none. |
| Diffs.DiffReports | core/prolly/diff.go:51-111 | The changes report under every key exactly how its value differs, with the right kind and values, and nothing where it does not. |
| Diffs.DiffAscending | core/prolly/diff.go:51-87 | They come in strictly ascending key order, so each key once. |
| NodeCodec.VarintSound | core/wire/wire.go:105-124 | A varint read is the minimal encoding of its value. |
| NodeCodec.VarintComplete | core/wire/wire.go:43-44 | The encoding of every value reads back as that value, whatever follows. |
| NodeCodec.VarintLen | core/prolly/node.go:107-107 | Counting bits in sevens gives the encoded length. |
| NodeCodec.Reader.constructor | core/wire/wire.go:67-67 | A reader starts at the first byte with no error. |
| NodeCodec.Reader.Fixed | core/wire/wire.go:127-142 | Gives the next n bytes or fails exactly when fewer are left; a failure sticks and moves nothing. |
| NodeCodec.Reader.U8 | core/wire/wire.go:70-76 | The same for one byte. |
| NodeCodec.Reader.Uvarint | core/wire/wire.go:106-124 | Gives a varint that is minimal and fits 64 bits, or fails. |
| NodeCodec.Reader.LenBytes | core/wire/wire.go:145-157 | Gives a length-prefixed string within a limit, or fails. |
| NodeCodec.EntrySound | core/prolly/node.go:118-168 | An entry that decodes is in its one canonical form and its bytes are that form's. |
| NodeCodec.EntryComplete | core/prolly/node.go:70-93 | Every canonical entry reads back as itself, whatever follows. |
| NodeCodec.EntrySizeIs | core/prolly/node.go:95-107 | The size the split rule counts is the encoded length, for all keys, counts and values. |
| NodeCodec.Decode | core/prolly/node.go:118-168 | Accepts exactly the byte strings that are encodings of canonical nodes, and returns the one node each encodes. |
| NodeCodec.EncodingInjective | core/prolly/node.go:70-93 | No two canonical nodes are written alike. |
| NodeCodec.GoodCanonical | core/prolly/node.go:70-93 | Every storable node of a well-formed tree is written in a form the decoder accepts. |
| Refs.Decode | core/object/object.go:60-76 | A record that decodes re-encodes to itself; only wrong lengths, flags, model 0 and format 0 are refused. |
| Refs.DecodeEncode | core/object/object.go:47-76 | Every reference reads back from its record. |
| Buzhash.RollIs | core/cdc/buzhash.go:10-29 | Rolling one byte out and one in gives the hash of the moved window computed afresh. |
| Buzhash.WindowNext | core/cdc/cdc.go:149-192 | The rolled hash is the hash of the last 48 bytes after every byte of the stream, from the zero window on. |
| Buzhash.ZeroWindowHash | core/cdc/buzhash.go:21-29 | The loop computes the hash of 48 zero bytes. |
| Cdc.ChunksAreStream | core/cdc/cdc.go:122-145 | The chunks concatenate to the stream. |
| Cdc.ChunkSizes | core/cdc/cdc.go:149-192 | No chunk is empty or longer than the maximum. |
| Cdc.Resync | core/cdc/cdc.go:1-10 | Two streams with equal tails are cut alike from any common cut that lies a window past the difference. |
| Cdc.Chunker.constructor | core/cdc/cdc.go:107-119 | A chunker starts with the zero window and the whole input to read. |
| Cdc.Chunker.Scan | core/cdc/cdc.go:149-192 | The position returned is the stream's own cut, or all the bytes given hold none; the hash is carried on. |
| Cdc.Chunker.Fill | core/cdc/cdc.go:197-230 | Reading more moves bytes from the input to the buffer and changes nothing else. |
| Cdc.Chunker.Next | core/cdc/cdc.go:122-145 | Each call returns the next chunk of the stream, whatever the reads, and none at its end. |
| Cdc.CutSerial | core/cdc/cdc.go:122-192 | For every partition of a stream into reads the chunks are the function of the stream alone. |
| CdcParallel.FirstSet | core/cdc/parallel.go:156-172 | The first set bit in a range, or none, across word boundaries. |
| CdcParallel.Mark | core/cdc/parallel.go:127-152 | A bit is set exactly where the hash of the 48 bytes up to there hits the mask, computed from the block and at most 47 bytes before it. |
| CdcParallel.WindowsAgree | core/cdc/parallel.go:72-152 | The windows a block sees from its carry are the stream's. |
| CdcParallel.CarryIs | core/cdc/parallel.go:72-124 | What is carried to the next block is again the last 47 bytes of the stream so far. |
| CdcParallel.ReadBlocks | core/cdc/parallel.go:72-124 | The blocks cover the stream and each is marked as the stream is. |
| CdcParallel.Parallel.constructor | core/cdc/parallel.go:47-70 | A parallel chunker starts at the stream's first byte. |
| CdcParallel.Parallel.Place | core/cdc/parallel.go:176-238 | In a marked block the next cut is the stream's own, or the rest of the block holds none. |
| CdcParallel.Parallel.Scan | core/cdc/parallel.go:176-238 | The same, keeping the chunker's place in the stream. |
| CdcParallel.Parallel.Keep | core/cdc/parallel.go:218-223 | A consumed block's part of the unfinished chunk is kept. |
| CdcParallel.Parallel.Emit | core/cdc/parallel.go:241-254 | The chunk emitted is the stream's bytes from the last cut to this one, across blocks. |
| CdcParallel.Parallel.Next | core/cdc/parallel.go:176-238 | Each call returns the chunk the serial chunker would. |
| CdcParallel.CutParallel | core/cdc/parallel.go:72-266 | For every stream and every partition into reads the parallel chunks are the same function of the stream as the serial ones. |
| StreamTrees.Shrinks | core/stream/stream.go:254-306 | Above the data, drawing a row of n entries leaves at most half as many ended nodes. |
| StreamWriter.Halves | core/stream/stream.go:254-306 | Each level of the growing index has taken at most half of what the one below took, so depth 63 is passed only beyond 2^62 chunks. |
| StreamWriter.Builder.constructor | core/stream/stream.go:240-252 | A builder starts with no level. |
| StreamWriter.Builder.Add | core/stream/stream.go:254-271 | The level's row gains the entry, every level stands as its whole row draws, the bytes held gain the entry's; it fails only past 2^62 chunks. |
| StreamWriter.Builder.Emit | core/stream/stream.go:274-286 | Closing a node keeps the bytes held and adds the node to the row above. |
| StreamWriter.TopIs | core/stream/stream.go:290-306 | The single entry of the top level is a good tree over all the bytes, with two or more children when it is an index node. |
| StreamWriter.Builder.Finish | core/stream/stream.go:290-306 | The root is that of drawing the rows level by level; its tree is good and its bytes are the chunks' in order. |
| StreamWriter.Write | core/stream/stream.go:69-119 | What is stored names a good tree over exactly the bytes read, is a function of those bytes and opens unless they number 2^63 or more; none only past 2^62 chunks. |
| Streams.ReadNode | core/stream/stream.go:445-473 | A node is held exactly when its level, its sizes and its count of children pass every check. |
| Streams.ChildAt | core/stream/stream.go:476-483 | The entry whose bytes hold a position, and where it starts. |
| Streams.FindGood | core/stream/stream.go:408-442 | A descent into a good tree finds the chunk that holds a position, with its bytes. |
| Streams.Reader.constructor | core/stream/stream.go:384-384 | A reader starts with no path held. |
| Streams.Open | core/stream/stream.go:380-400 | A reader is given exactly when the reference keeps its limits and is the empty chunk or has a sound way down to its first byte. |
| Streams.GoodOpens | core/stream/stream.go:380-400 | A good tree opens if and only if it is no deeper than 63 and no longer than 2^63 - 1 bytes. |
| Streams.Reader.ChunkAt | core/stream/stream.go:408-442 | Through whatever path is cached, the answer is that of a descent from the root, refusals included. |
| Streams.Reader.ReadAt | core/stream/stream.go:486-503 | Whatever was read before, the bytes are the stream's; of a good tree they are exactly the slice at the offset and nothing is refused; else short only at the end or at a corrupt place. |
| Streams.GoodReads | core/stream/stream.go:486-503 | Of a good tree, bytes read are a slice of the tree's bytes. |
| Streams.GoodNeverRefused | core/stream/stream.go:408-473 | No position of a good tree is refused. |
| Listings.ParseIs | core/wire/wire.go:105-174 | For any lawfully coded items, a byte string parses to a list if and only if it is that list's encoding. |
| Listings.SortByKey | core/pack/pack.go:376-376 | Sorting by key keeps the items and orders them. |
| PackIndex.ItemsLawful | core/pack/pack.go:399-414 | Index entries read back from their encodings, and what is read is what would be written. |
| PackIndex.FramesApart | core/pack/pack.go:455-475 | Walking frames in offset order accepts exactly the lists whose frames lie after the header, end by the index and do not overlap. |
| PackIndex.EncodeIndex | core/pack/pack.go:399-414 | The loop writes the index encoding. |
| PackIndex.SealedIndexLen | core/pack/pack.go:207-213 | The sum computed without writing the index is exactly the sealed index's length. |
| PackIndex.IndexBounded | core/pack/pack.go:223-223 | No sealed index of 32-bit entries is longer than the bound. |
| PackIndex.TestItem | core/pack/pack.go:433-447 | The tests of an entry accept exactly offsets within the pack, chunks within the limit and lengths that agree with the codec. |
| PackIndex.DecodeIndex | core/pack/pack.go:419-476 | Answers exactly as specified on every byte string and index offset: the entries listed, when they are sorted, acceptable and apart. |
| PackIndex.DecodesExactly | core/pack/pack.go:419-476 | The decoder reads exactly the encodings of entry lists that fit the pack if and only if the index starts below 4 GiB and 28 bytes. |
| Packs.Compress | core/pack/pack.go:243-258 | The stored length agrees with the codec and the chunk's length. |
| Packs.OpenFrame | core/pack/pack.go:509-538 | A frame that opens is as long as its entry says and opens to a chunk of the entry's length and hash. |
| Packs.FrameOpens | core/pack/pack.go:243-283 | A chunk compressed and sealed opens to itself. |
| Packs.Writer.constructor | core/pack/pack.go:184-203 | A writer starts with the header alone. |
| Packs.Writer.AddSealed | core/pack/pack.go:286-309 | Accepts exactly when the pack is unfinished, the chunk within its limit and new, and the pack has room or is empty; the frame then follows the last one; a refusal changes nothing. |
| Packs.Writer.Add | core/pack/pack.go:229-270 | The same verdict for a chunk, and what is stored opens to it. |
| Packs.Writer.Finish | core/pack/pack.go:367-394 | The bytes are a pack described by the info returned: its entries are exactly those added, sorted; frames lie back to back; the index is as long as its entries make it; two or more chunks keep to the size limit; every frame opens. |
| Packs.ReadInfo | core/pack/pack.go:479-506 | Returns a description exactly when the bytes hash to the name and are a pack so described, refuses the rest, and says exactly when the trailer's 64-bit sum wraps. |
| Packs.WrappedTrailer | core/pack/pack.go:479-506 | A header and a trailer whose offset and length wrap: the only answer is an index slice out of range. |
| Packs.ReadsBack | core/pack/pack.go:367-506 | Read under its own name, a pack gives its own description and no other answer. |
| PackRecords.FramesFit | core/dedup/dedup.go:151-170 | True exactly when the frames lie apart below the index these entries make, computed without wrapping. |
| PackRecords.NextRecord | core/dedup/dedup.go:116-144 | A record is returned exactly when it reads, fits and follows the one before by name. |
| PackRecords.DecodePlain | core/dedup/dedup.go:107-146 | Answers exactly as specified on every byte string. |
| PackRecords.PlainExactly | core/dedup/dedup.go:71-188 | A byte string decodes to a list of records if and only if it is their encoding, they are sorted by pack and their frames fit. |
| PackRecords.EncodePlain | core/dedup/dedup.go:71-105 | What is written is the encoding of the records sorted by pack. |
| PackRecords.RecordsReadBack | core/dedup/dedup.go:71-146 | Any fitting records of different packs read back from what was written, sorted and unchanged. |
| PackRecords.FinishedAccepted | core/dedup/dedup.go:147-170 | Every finished pack's description is an accepted record, and the index offset recomputed from its entries is the real one. |
| Tables.SortStable | core/dedup/table.go:82-115 | A run comes out in key order with the first value of every key still first. |
| Tables.Merge | core/dedup/table.go:218-265 | Merging runs gives a strictly ascending run with the first value of every key over all runs, and its samples. |
| Tables.MergeGroups | core/dedup/table.go:131-152 | A pass leaves fewer runs and the same first value under every key. |
| Tables.Builder.constructor | core/dedup/table.go:57-66 | A builder starts with nothing added. |
| Tables.Builder.Add | core/dedup/table.go:68-80 | The record is added, whether or not the buffer spills. |
| Tables.Builder.Spill | core/dedup/table.go:82-115 | Spilling keeps what was added. |
| Tables.Builder.Finish | core/dedup/table.go:117-202 | For any records in any order, any run size and number of passes, the table is strictly sorted and holds under each key its first-added value, once. |
| Tables.FindBlock | core/dedup/table.go:392-426 | The two levels of samples lead to the one block that can hold a key, or show it is below them all. |
| Tables.Lookup | core/dedup/table.go:392-426 | The sampled search answers as the map of first values. |
| GcRound.CreditIs | core/chunk/packstore/gc.go:110-178 | A chunk is credited to the first listed pack that holds it, and to none only when none does. |
| GcRound.LoadObject | core/chunk/packstore/gc.go:118-172 | Each pack of an object is indexed once, packs leaving service only in the second pass. |
| GcRound.Load | core/chunk/packstore/gc.go:110-178 | Fails exactly when an index object is missing; else every listed pack is loaded once, those in service first, and the table credits as they come. |
| GcRound.Join | core/chunk/packstore/gc.go:387-423 | The merge of the table with the live set counts for every pack exactly the live chunks credited to it and their bytes. |
| GcRound.FramesOf | core/chunk/packstore/gc.go:541-554 | The frames of a pack to move are exactly its credited live chunks, each once, by offset. |
| GcRound.SortCandidates | core/chunk/packstore/gc.go:484-490 | Emptier packs first, by name on a tie, none lost. |
| GcRound.Copier.Copy | core/chunk/packstore/gc.go:575-593 | The frame is added to what was moved; it fails only when an empty pack would refuse it. |
| GcRound.CopyLive | core/chunk/packstore/gc.go:484-604 | The packs made hold exactly the live chunks credited to the candidates repacked, each once; it stops short of all candidates only past the budget. |
| GcRound.IndexWriter.Add | core/chunk/packstore/gc.go:722-731 | What was added grows by the pack, and written objects stay within their limits. |
| GcRound.IndexWriter.Flush | core/chunk/packstore/gc.go:733-756 | The batch is written; nothing added is lost. |
| GcRound.WriteIndexes | core/chunk/packstore/gc.go:673-720 | The new index objects list exactly the kept packs and the new ones; old objects are untouched. |
| GcRound.SortOut | core/chunk/packstore/gc.go:239-257 | Every record of the manifest is kept, lapsed or expired exactly as its kind and age say, kept ones in order; each condemned or repacked pack has the time of one of its records. |
| GcRound.Decide | core/chunk/packstore/gc.go:258-305 | Every pack is kept, condemned, reprieved or expired exactly as its live count, marks and age say, and is a candidate if and only if it is in use, holds something dead and its live share is under the policy's. |
| GcRound.RecordOrphans | core/chunk/packstore/gc.go:350-368 | No object named or expiring is taken; every deletion of a pack or index object is on record; and all old orphans go unless the ledger is full. |
| GcRound.Update | core/chunk/packstore/gc.go:310-331 | The new manifest is the plan's, with new index objects only when packs go or were repacked; its records are as many as those kept, the packs repacked and the index objects replaced. |
| GcRound.SwapKeepsLive | core/chunk/packstore/gc.go:258-331 | Every live chunk credited to a pack not already repacked is, after the swap, in a listed pack neither condemned nor repacked. |
| GcRound.QuietKeepsLive | core/chunk/packstore/gc.go:369-371 | The same when nothing is swapped. |
| GcRound.NamedRight | core/chunk/packstore/gc.go:332-345 | Everything the new manifest names is in the set of names the round reports. |
| GcRound.ExpiredGone | core/chunk/packstore/gc.go:262-290 | An expired pack is named by nothing after the swap. |
| GcRound.ExpiredAged | core/chunk/packstore/gc.go:239-290 | Every expired pack or index object has a record at least the grace window old. |
| GcRound.StaysTidy | core/chunk/packstore/gc.go:239-331 | No index object is both listed and condemned, and none is condemned twice, after the round as before. |
| GcRound.Apply | core/chunk/packstore/gc.go:211-383 | A round is refused exactly when the root is not live or the policy is invalid; else live chunks stay in service, no chunk is copied twice, nothing named is deleted, what expires was on record for the grace window, orphans are recorded before they go, a swapping round takes every old orphan unless the ledger is full, and its manifest can be opened again exactly when its records fit. |
| GcStart.RoundCanStart | core/chunk/packstore/gc.go:85-178 | There are a setting, a manifest and index objects with a live chunk that meet everything a round asks for. |
| GcStart.LedgerOverflows | core/chunk/packstore/gc.go:306-331 | Every round from one full but acceptable manifest swaps in a manifest with too many records to be opened. |
| Compaction.HigherTier | core/chunk/packstore/compact.go:33-50 | A full tier merged into one object lands in a strictly higher tier. |
| Compaction.MergeObjects | core/chunk/packstore/compact.go:98-115 | Merging objects writes new ones that together list what they listed. |
| Compaction.MergeOnce | core/chunk/packstore/compact.go:77-146 | After a merge each pack is still in one object. |
| Compaction.MergeLocates | core/chunk/packstore/compact.go:77-146 | After a merge the same packs are located. |
| Compaction.Compact | core/chunk/packstore/compact.go:77-146 | From objects with disjoint non-empty packs, the list returned locates exactly the same packs, each once, even when an object written in the pass is merged again; every full tier was merged, and nothing merged stays listed. |
| Publishing.SwapIsSafe | core/chunk/packstore/packstore.go:1176-1309 | When publishes and rounds are quick enough, at a successful swap everything the writer names is stored and neither doomed nor being deleted. |
| Publishing.StepKeeps | core/chunk/packstore/packstore.go:1176-1309 | Every step of writers and collector keeps the invariant. |
| Publishing.RunKeeps | core/gc/gc.go:104-124 | So does every run. |
| Publishing.LateDeletion | core/chunk/packstore/gc.go:239-257 | For all times there is a run in which an upload is deleted a whole round after the clock its deletion is recorded under. |
| Publishing.EarlyClock | core/gc/gc.go:104-124 | For all times there is a run in which an upload turns old while a round whose clock is a whole round behind still marks. |
| Publishing.YoungLost | core/chunk/packstore/packstore.go:1450-1474 | Where the recheck age exceeds the grace window, that run loses an upload too young to be looked up again. |
| Publishing.LostBreaks | core/chunk/packstore/packstore.go:1476-1501 | From a lost upload, a slow enough publish swaps in a manifest that names it. |
| Publishing.IntactExactlyWhenQuick | core/chunk/packstore/packstore.go:1176-1501 | Every manifest names only stored objects in all runs if and only if publish + round < grace + min(grace, recheck). |
| Journal.StepKeeps | core/chunk/packstore/journal.go:382-689 | Every event keeps the protocol's invariant. |
| Journal.ReachedInv | core/chunk/packstore/journal.go:382-689 | So it holds in every reachable state. |
| Journal.AcknowledgedSurvives | core/chunk/packstore/journal.go:276-357 | In every reachable state, whatever unsynced suffix a crash loses, a completed replay leaves the root of the last acknowledged commit or of a later one. |
| Journal.RefusedExactly | core/chunk/packstore/journal.go:299-316 | A chain is replayed exactly when the stored root is one it passes through. |
| Journal.ReplayCompletes | core/chunk/packstore/journal.go:276-357 | Outside a forced publish's window every crash replays; inside it the replay is refused exactly when records survive and none passes through the forced root. |
| Journal.RefusedHappens | core/chunk/packstore/journal.go:511-541 | There is a reachable state and crash whose replay is refused. |
| Journal.NeverConflicts | core/chunk/packstore/journal.go:620-689 | A store alone on its repository never finds the root moved. |
| Journal.ChooseReplay | core/chunk/packstore/journal.go:299-316 | The scan for the first record built on the stored root decides as specified. |
| Journal.Segments.constructor | core/blob/local/local.go:585-606 | An opened journal is the segments found, or one empty segment when there are none. |
| Journal.Segments.Write | core/blob/local/local.go:744-752 | The records are appended, unsynced. |
| Journal.Segments.Sync | core/blob/local/local.go:755-764 | Everything written is durable. |
| Journal.Segments.RotateSegment | core/blob/local/local.go:767-777 | Everything is durable and in earlier segments. |
| Journal.Segments.DropSegments | core/blob/local/local.go:780-811 | Exactly the records of earlier segments go. |
| Journal.Segments.Reset | core/blob/local/local.go:813-826 | All records go. |
| JournalFile.DecodeJournal | core/chunk/packstore/journal.go:123-156 | The loop decodes the longest run of whole, authentic records that chain, and refuses one that does not. |
| JournalFile.CutDecodes | core/chunk/packstore/journal.go:123-156 | Cut at any byte, a journal decodes to exactly the records whole before the cut. |
| JournalFile.CutSurvives | core/chunk/packstore/journal.go:123-357 | Losing any bytes past the synced records is a crash of the protocol, so its replay keeps every acknowledged commit. |
| NamespaceMerge.ZipReports | core/merge/merge.go:91-115 | The zip of two ascending diffs is, at every path, theirs' change there with ours' change if there is one. |
| NamespaceMerge.ZipFaithful | core/merge/merge.go:83-115 | The zip says of every path what the three namespaces hold there. |
| NamespaceMerge.Zipper.Put | core/object/object.go:173-185 | A reference is set exactly when its path is valid and its model resolves. |
| NamespaceMerge.Zipper.Take | core/merge/merge.go:135-147 | Theirs' change becomes an edit and a count, as the table says, or fails exactly when it says so. |
| NamespaceMerge.Zipper.Both | core/merge/merge.go:149-183 | A path both changed is kept, merged by its model, recorded or failed exactly as the table says. |
| NamespaceMerge.EditedIsMerged | core/merge/merge.go:71-147 | Ours with the zip's edits is the table's contents at every path. |
| NamespaceMerge.ConflictsExact | core/merge/merge.go:149-197 | The conflicts recorded are exactly the undecided paths, in path order, with what each side has there. |
| NamespaceMerge.CountsExact | core/merge/merge.go:135-183 | The counts are the sizes of the sets of paths the table adds, removes, modifies and leaves. |
| NamespaceMerge.StuckIsRefused | core/merge/merge.go:97-118 | The zip stops short exactly when a path cannot be decided or too many are left over. |
| NamespaceMerge.ZipAll | core/merge/merge.go:91-118 | The loop over both iterators performs the zip, or stops exactly when it must. |
| NamespaceMerge.MergeZipped | core/merge/merge.go:83-191 | The full zip gives the canonical tree of the pointwise three-way table, the exact conflicts and counts, and fails exactly when the table does. |
| NamespaceMerge.Merge | core/merge/merge.go:71-124 | Equal roots of base and theirs give ours, of base and ours theirs, of ours and theirs ours unless a model accumulates, each without conflicts or counts and in that order; every other merge is the full zip. |
| NamespaceMerge.TheirsUnchanged | core/merge/merge.go:75-82 | With theirs unchanged the table is ours, without conflicts or counts, and refuses exactly when a change of ours cannot be read. |
| NamespaceMerge.SameChanges | core/merge/merge.go:75-82 | With both sides alike and no accumulating model the table is ours, without conflicts or counts; it refuses exactly when a change cannot be read or a negative limit meets any change. |
| NamespaceMerge.OursUnchanged | core/merge/merge.go:75-82 | With ours unchanged the table is theirs if and only if its changes are stored as the configuration stores them, and refuses exactly when they cannot be read or their models do not resolve. |
| NamespaceMerge.UnresolvedAdded | core/merge/merge.go:75-82 | One added path whose model is not registered: the table refuses under every limit, on sides for which the merge returns theirs. |
| NamespaceMerge.FastPathsAgree | core/merge/merge.go:75-82 | Where the full zip completes and theirs' changes are stored as the configuration stores them, every shortcut returns the same namespace and no conflicts, by tree canonicity. |
| ObjectMerge.Merger.Put | model/mapobject/mapobject.go:259-264 | A record is stored exactly when the model calls it its own and it is within limits. |
| ObjectMerge.Merger.Take | model/mapobject/mapobject.go:251-256 | Theirs' change is made, or fails exactly when the table says so. |
| ObjectMerge.Merger.Both | model/mapobject/mapobject.go:218-237 | The decider's answer is stored, kept or recorded where it was located. |
| ObjectMerge.EditedIsMerged | model/mapobject/mapobject.go:182-248 | Ours with the edits made is the table's contents at every key. |
| ObjectMerge.ConflictsExact | model/mapobject/mapobject.go:208-248 | The conflicts are those of exactly the contested keys, in key order. |
| ObjectMerge.StuckIsFails | model/mapobject/mapobject.go:182-248 | The zip stops short exactly when some key cannot be read, decided or stored. |
| ObjectMerge.MergeWith | model/mapobject/mapobject.go:182-248 | A conflict anywhere leaves ours and reports them all; else the result is the canonical tree of the pointwise table; it fails exactly when a key fails. |
| ObjectMerge.StandardAt | model/mapobject/mapobject.go:266-282 | With the standard decider a key is contested exactly when both sides changed it and not alike; else it is theirs where theirs changed it and ours otherwise. |
| ObjectMerge.StandardFails | model/mapobject/mapobject.go:182-282 | With the standard decider a merge fails exactly when a change of either side cannot be read, or a key only theirs changed holds what may not be written. |
| ObjectMerge.MergeSymmetric | model/mapobject/mapobject.go:266-282 | With the standard decider, each way round fails exactly on unreadable changes or on what that way may not take; where neither fails, both are clean or neither is, and clean ones end at the same root. |
| History.Committed | core/vcs/vcs.go:606-615 | A commit's parents are the head and the merged commit, and its height is one above the highest of them. |
| History.CommitKeepsHeights | core/vcs/vcs.go:702-711 | Every new commit keeps heights above parents. |
| History.Pop | core/vcs/vcs.go:901-915 | The heap gives the highest commit, the lower hash on a tie, and keeps the rest. |
| History.PassFlags | core/vcs/vcs.go:986-995 | Every parent gains its child's flags and is queued once. |
| History.FirstCommonIsBest | core/vcs/vcs.go:963-998 | The first popped commit flagged from both sides is a common ancestor no common ancestor exceeds in height, of lowest hash at that height. |
| History.NothingLeft | core/vcs/vcs.go:963-998 | When the queue runs dry there is no common ancestor. |
| History.MergeBase | core/vcs/vcs.go:963-998 | Finds the best common ancestor; says there is none only when there is none; names a missing commit only when one reached is missing. |
| History.BestIsSymmetric | core/vcs/vcs.go:963-998 | The base of a and b is the base of b and a. |
| History.BestSame | core/vcs/vcs.go:963-998 | Commits added later change neither what two commits share nor their best base. |
| WorkingSets.StepSound | core/vcs/vcs.go:495-549 | Every working-set operation keeps heights, and keeps the recorded base a common ancestor of the head and theirs. |
| WorkingSets.MergeContinues | core/vcs/vcs.go:495-549 | Until a commit or an abort the head, base, theirs and the saved namespaces stay fixed, the base is the best one exactly when it was, and conflicts only shrink. |
| WorkingSets.SettledByResolving | core/vcs/vcs.go:1142-1206 | A conflict disappears if and only if some operation resolved it. |
| WorkingSets.CommitSettles | core/vcs/vcs.go:577-726 | A commit lands only with no conflict left, ends the merge, and has the head and the merged commit as lower parents. |
| WorkingSets.AbortRestores | core/vcs/vcs.go:1082-1110 | After any interleaving an abort is possible and restores exactly what the merge replaced. |
| WorkingSets.RunSound | core/vcs/vcs.go:495-1206 | Every run keeps the state sound: heights, and the base of a merge in progress a common ancestor. |
| WorkingSets.RunExtends | core/vcs/vcs.go:577-726 | Over every run the store only grows and the head moves on to descendants only. |
| WorkingSets.BaseFoundEarlier | core/vcs/vcs.go:1003-1074 | For every run between finding a base and recording it, the base stays a common ancestor, and stays the best one exactly when nothing of theirs gained meanwhile comes before it. |
| WorkingSets.PlainCommitsKeepBest | core/vcs/vcs.go:1003-1074 | After any run that starts no merge it is still the best. |
| WorkingSets.BaseOvertaken | core/vcs/vcs.go:520-549 | A run that merges and commits in between, after which the late merge still starts and records a base that is not the best. |

## Left out

- Encryption, key derivation, KMS and zstd: `Packs.Crypto` and `JournalFile.Codec` are parameters; sealing adds 28 bytes and opens to what was sealed.
- S3, multi-volume, split and cache backends, file locks and fsync: the blob store is a map and the journal its segments.
- SHA-256: a hash is taken to stand for one node, pack or tree, and index objects' names are taken to be new (their salts are random).
- Goroutines, channels, buffer pools, back-off, contexts and read errors of the chunkers: the parallel chunker is modelled as its block reader and its consumer in turn.
- Failing backend calls inside a publish, overlapping refreshes of one store, and the store's caches.
- A global theorem that collection never loses a reachable chunk: packs already repacked expire whatever they hold, so the per-round statement is proved.
- Names, paths and their grammars, authorization, configuration plumbing, tags, `Log` and range iteration: easy beside what is proved.
- Forged trees: cursors, diffs and lookups are proved on well-formed trees; the stream reader on any tree whose chunks are already told apart as data and index nodes.
- The heap library is modelled as a choice of the extreme element, and sort and binary search library calls as the loops they stand for.
- 64-bit overflow of commit heights, sequence numbers and counters.
- Value widths, file headers and the spill files of the dedup table: runs and tables are sequences of records.
- `encodePlain`'s refusal of malformed pack names: a record's name is the pack's hash.
- The cases of a round without a manifest, and of a store or live set that cannot be read.
- Streams.ReadNode: nodes are typed; decoding an index node's bytes, and its refusals, are not modelled.
- Cdc.Chunker.Fill: read errors and the limit on empty reads are not modelled.
- CdcParallel.ReadBlocks: read errors are not modelled.
- Journal.Segments.constructor: the lock, and opening anything but a regular file, are not modelled.
- GcRound.Apply: the limits on a manifest's index objects and encoded size are not modelled, nor a compare-and-swap that loses.
- WorkingSets.RunSound: deleting a branch and creating it anew elsewhere is not modelled.
- NamespaceMerge.Merge: the model's merge is a parameter; `ObjectMerge.MergeWith` is the one map-shaped models share.
- Publishing.IntactExactlyWhenQuick: one clock, one collector whose rounds finish, and puts that succeed.
- Compaction.Compact: estimates of sizes are exact for the objects listed, as the store records them.
