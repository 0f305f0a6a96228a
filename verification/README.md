# Masstree, modelled and proved in Dafny

Masstree is a trie of B+trees. Each layer of the trie indexes one 8-byte slice of the key; leaves keep
their entries in place and their order in a packed permutation word; readers take no locks. This project
models the parts whose correctness is hard to see and proves what they are for:

- **The tree as a map.** `Key`, `NodeStore`, `LeafNode`, `LeafChain`, `TreeSplit`, `TreeRemove`,
  `LeafRemove`, `LeafFill` and `Layer` model one layer: nodes in a store that plays the part of memory,
  splits up the tree, removal with missing first children, `redirect`, and collapsed chains. `LayerForest`,
  `LayerPaths`, `Trie` and `TrieRun` put layers together: gets, puts, removals and delayed layer
  collections refine one map from byte strings, over every run. `LeftBehind` is a run that leaves an empty
  layer behind. `LeafEpochs` and `TimedTrie` add the leaves' phantom epochs and the
  timestamps of rows. `ScanOrder`, `ReverseOrder`, `LayerScan`, `ScanStack`, `Scan` and
  `ReverseScan` are the scans in both directions. One thread runs these; callbacks are later operations.
- **The lock-free parts** as step machines, where each load, store and compare-and-exchange is one step:
  `LeafReader` (an unlocked read of a leaf), `LeafLink` (the doubly linked leaf list), `LeafWalk` (a walker
  in that list), `PhantomEpochs` and `PhantomRaces` (phantom epochs while leaves split and go),
  `NodeVersion` (the version word), `GracePeriod` (epochs and deferred frees).
- **Queues and logs.** `Limbo` (the queue of retired objects), `Replay` and `ReplayRepeats` (log records
  that arrive in any order, and more than once), `Timestamps` (clocks, row timestamps and replay markers).
- **Words and bytes.** `PermList` and `Permuter` (the packed permutation); `MsgPack` and `MsgPackParser`
  (the unparser and the streaming parser), and `MsgPackForms`, `MsgPackExact` and `MsgPackShort`, which hold
  them against the encodings of the MessagePack specification, section "Formats".

`MapOf` holds one lemma about infinite maps. Classes follow the source's mutable objects; their methods
are proved against functions on values, and the lemmas are about those functions.

## Model

| member | source | states |
|---|---|---|
| `TrieRun.Run` | masstree_insert.hh:22-152 | any sequence of gets, puts, removals and delayed layer collections, from any valid trie, returns exactly what the same sequence on a plain map from byte strings does, operation by operation, and ends with that map; a put and a removal themselves return whether the key was there |
| `KeyTrie.Trie.Get` | masstree_get.hh:22-68 | a get returns the value of the key in the map, or nothing if the key is absent, however many slices it shares with other keys |
| `KeyTrie.Trie.Put` | masstree_insert.hh:22-59 | a put says whether the key was there, changes the map at its key only, through overwriting, a free slot, a leaf split or a new layer, and leaves every key's phantom epoch as it was |
| `KeyTrie.Trie.MakeNewLayer` | masstree_insert.hh:61-126 | pushing another key's suffix down into a twig of new layers, one for each shared slice, adds the new key and loses nothing |
| `KeyTrie.Trie.Remove` | masstree_remove.hh:161-176 | a removal says whether the key was there and takes away that key alone; the key's phantom epoch ends above the removal's timestamp, and no key's goes down; a layer below the first that it leaves empty is registered for collection if the entry was in the layer's first leaf, and not otherwise |
| `KeyTrie.Trie.Collect` | masstree_remove.hh:23-148 | a layer collection that runs any time later, when the layer may be in use again or gone, changes nothing in the map and lowers no key's phantom epoch; if the layer is empty then, it goes, with the entry that leads to it, and the layer above is registered in its turn; if it is in use, or gone, every layer's contents stay |
| `LayerPaths.MissedErase` | masstree_remove.hh:161-187 | the empty layers that are not registered are those of before, and besides only the layer of the removed entry, exactly if that is empty now, below the first, not registered yet, and the entry was not in its first leaf |
| `LayerPaths.MissedCollect` | masstree_remove.hh:36-148 | the same when the removed entry is the link to a collected layer, which is itself no longer among them |
| `LeftBehind.Unnoticed` | masstree_remove.hh:178-187 | sixteen puts and sixteen removals in key order leave a layer empty, and no removal reports it |
| `LayerForest.PushKeeps` | masstree_insert.hh:61-126 | moving a suffix into a layer of its own keeps the forest well formed and every key's lookup |
| `LayerForest.CollectKeeps` | masstree_remove.hh:36-109 | dropping an empty layer keeps the forest well formed and every key's lookup |
| `LayerForest.OneLayer` | masstree_struct.hh:632-685 | two layers reached by the same slices are the same layer |
| `LayerTree.Layer.ReachLeaf` | masstree_struct.hh:632-685 | a descent from a possibly stale root pointer meets no null child and ends in the one leaf responsible for the slice |
| `NodeStore.LeafForUnique` | masstree_struct.hh:632-685 | a leaf whose interval holds a slice is the leaf that the descent for that slice ends in |
| `LayerTree.Layer.Find` | masstree_get.hh:70-118 | the search position is the number of smaller entries, and it finds an entry just when the layer holds it |
| `LayerTree.Layer.Insert` | masstree_insert.hh:40-58 | inserting adds the entry to the layer's map and keeps every surviving leaf's lower bound; nodes are added if and only if the leaf has no free slot for the entry, slot 0 of a leaf with a predecessor being free only for the slice of its lower bound |
| `LayerTree.Layer.MakeSplit` | masstree_split.hh:178-296 | a leaf split and all splits above it change nothing in the layer's map, and leave a free slot for the new entry in the leaf responsible for it, one that is not the slot of the lower bound |
| `LayerTree.Layer.SplitInner` | masstree_split.hh:123-175 | splitting a full internode is the same as listing the new pair in order first and cutting after, for every position of the pair and both split types |
| `LayerTree.Layer.CutInner` | masstree_split.hh:144-170 | the halves and the separator that goes up are those of the sorted list with the new pair; the left half has as many separators as the right one or one more, and for split type 2 all of them |
| `TreeSplit.CutKeeps` | masstree_split.hh:123-175 | cutting an over-full internode keeps every tree invariant: order, intervals, parent pointers, heights that rise towards the root |
| `TreeSplit.InsertBetween` | masstree_split.hh:210-231 | a new internode between a node and a parent more than one level up keeps every tree invariant |
| `TreeSplit.InsertInto` | masstree_split.hh:231-245 | listing the new right sibling in its parent keeps every tree invariant but the size of a full parent |
| `LeafNode.SplitPoint` | masstree_split.hh:51-84 | the search for a split point ends at the change of slice nearest to the preferred position, the later of two; the last position comes out exactly for an append with a new slice to the rightmost leaf |
| `LeafNode.SameSlice` | masstree_split.hh:62-84 | along entries with one slice the length class rises, so that at most ten of them can be together |
| `LeafNode.SplitLeaf` | masstree_split.hh:50-121 | the two halves hold exactly the old entries, cut at the new lower bound, and the half for the new entry has its slot and position ready; split type 2 comes out exactly for an append with a new slice to the rightmost leaf, and exactly when no old entry moves |
| `LeafNode.LowerBound` | ksearch.hh:69-88 | binary search through the permutation returns the number of smaller entries and says whether the key is there |
| `LeafNode.FindLowerBound` | ksearch.hh:113-130 | linear search returns the same position and answer |
| `LeafNode.FinishOk` | masstree_insert.hh:128-136 | publishing the entry through the permutation stores that entry and no other |
| `LeafChain.BoundSlotKept` | masstree_insert.hh:47-58 | across any operation on a layer, slot 0 of a surviving leaf with a predecessor keeps its slice, which is at most every slice in the leaf |
| `LayerTree.Layer.Remove` | masstree_remove.hh:161-255 | removing an entry takes that entry from the layer's map and nothing else; its leaf leaves the tree exactly if it is empty now and not the first, and no other leaf does, so that every leaf with a predecessor has an entry; no internode below the root is left without separators that had some; the layer is reported empty if and only if it is and the entry was in its first leaf |
| `LeafFill.FirstIsLast` | masstree_remove.hh:181-187 | in an empty layer in which only the first leaf may be empty, the first leaf has no successor |
| `LeafFill.NoSeparators` | masstree_remove.hh:51-70 | and every root internode above it is without separators, so that the climb down to the leaf does not stop early |
| `TreeRemove.Close` | masstree_remove.hh:217-252 | taking an emptied child out of its parent, with the separator above rewritten, gives a tree with every invariant again |
| `TreeRemove.Collapse` | masstree_remove.hh:226-250 | replacing an internode without separators by its only child keeps every tree invariant |
| `TreeRemove.RedirectUp` | masstree_remove.hh:257-276 | each turn of `redirect` stands below the root and finds its node listed in the parent at the searched position |
| `TreeRemove.RedirectEnd` | masstree_remove.hh:274-275 | when `redirect` stops, no separator higher up has the old bound: stopping there is as good as going on to the root |
| `LeafRemove.RemovedView` | masstree_remove.hh:178-255 | after an empty leaf is unlinked and its interval goes to its neighbour, every lookup in the layer is as before |
| `LayerTree.Layer.Shrink` | masstree_remove.hh:51-100 | dropping root internodes without separators keeps the layer's map and leaves none at the root; the layer is called empty if and only if its map is, and is one leaf then |
| `Key.LayerOrder` | masstree_key.hh:106-146 | comparing keys layer by layer, by slice, then by length capped at nine, then by what is left, is lexicographic byte order |
| `Key.SameEntry` | masstree_key.hh:48-56 | two keys have one entry just when they are equal or both go on after the same slice |
| `Key.CompareIsLess` | masstree_key.hh:133-143 | the sign of `key::compare` is the order of entries, a suffix and a layer under one slice being equal |
| `LayerScan.FindNext` | masstree_scan.hh:252-307 | from any cursor, the walk through slots and leaves stops at the first entry after the current key, or nothing is left in the layer |
| `LayerScan.FindPrev` | masstree_scan.hh:115-176 | backwards, with the current key replaced by each leaf's lower bound on the way, it stops at the last entry before the current key |
| `LayerScan.StablyThere` | masstree_scan.hh:158-170 | `stable` of the reverse helper does not move when no other thread has split the leaf |
| `ScanOrder.UpStep` | masstree_scan.hh:359-372 | coming back up from an exhausted layer passes no stored key |
| `ReverseOrder.DownBack` | masstree_scan.hh:171-174 | going down backwards into a layer, above its largest entry, passes no stored key |
| `TrieScan.Scan` | masstree_scan.hh:309-387 | a forward scan shows the visitor exactly the stored keys from the first on, each once, with its value, in increasing byte order, up to the visitor's stop |
| `ReverseTrieScan.RScan` | masstree_scan.hh:397-403 | a reverse scan shows exactly the stored keys up to the first key, each once, in decreasing byte order, up to the visitor's stop |
| `LeafReader.ReadIsLinearizable` | masstree_get.hh:32-56 | in every interleaving with one leaf's writers, where slice, length and payload are loads of their own, a read whose version check passes tells the truth about some moment since the reader last started: a returned value was in a slot with the key's slice and length whose suffix, if it has one, was all the rest of the key; a returned layer was in a layer slot under the slice; and if it says absent, no slot held either |
| `LeafReader.ToldIsLookup` | masstree_struct.hh:411-420 | if the leaf holds the layer's entry for the key, such an answer is the trie's own lookup: the value, no value, or what the returned layer holds for the rest of the key |
| `LeafReader.RunKeeps` | masstree_insert.hh:40-55 | the reader's and writers' invariant holds in every state of every run of insertions done or given up, value and layer stores, removals and the leaf's deletion: a slot is not reused before a marked change of phase |
| `LeafLink.EveryLeafIsVisited` | btree_leaflink.hh:38-97 | in every interleaving of splits and removals, following next pointers from the head with marks stripped visits every leaf that is linked and not yet unlinked |
| `LeafWalk.NoLeafIsMissed` | btree_leaflink.hh:38-97 | a walker that takes one load per step, between the steps of splits and removals, and may have its leaf removed under it, has been on every leaf that was linked all the while, once it is past that leaf's key |
| `LeafWalk.LoadsGoUp` | masstree_struct.hh:473-475 | each of its loads leads up in key order or to the end, in every interleaving, also from a removed leaf |
| `LeafLink.WalkStep` | btree_leaflink.hh:60-96 | from a leaf in the list, the next pointer leads on in key order and skips no leaf in the list |
| `LeafLink.Quiescent` | btree_leaflink.hh:60-96 | with no operation pending, the list is exactly the live leaves, unmarked, with `prev_` the inverse of next |
| `NodeVersion.ChangesAreSeen` | nodeversion.hh:72-82 | within 2^19 changing unlocks of a stable snapshot, the word differs from it just when there was a change, or one is under way, or a flag changed; and a split is never missed |
| `NodeVersion.TooManyChanges` | nodeversion.hh:132-143 | for every number of splits and every quiet snapshot: `has_split` misses them exactly if the number is a multiple of 2^19, and `has_changed` exactly if the insert count was 0 besides (or there were none) |
| `NodeVersion.UnlockedParse` | nodeversion.hh:132-143 | the sums and masks of `unlock` advance the counter, clear the marks and touch no other field; the carry ends in the unused bit |
| `NodeVersion.TotalGrows` | nodeversion.hh:326-345 | over any run each changing unlock raises the counter by 1 to 64 and its split part by at most 1 |
| `NodeVersion.VersionWord.Unlock` | nodeversion.hh:132-143 | the method does this to the word in place |
| `GracePeriod.GracePeriodHolds` | kvthread.hh:263-277 | in every interleaving of sections, retirements, ticks and quiesce steps, no object is freed while a section is open that was open when its epoch was recorded |
| `GracePeriod.GuardsAreSections` | kvthread.hh:340-377 | the sections that guard an object are exactly those open at its retirement |
| `GracePeriod.ScanFindsLeast` | kvthread.hh:368-377 | in every interleaving, the active epoch that a scan stores is the least of the global epoch at its beginning and the epochs of the sections it found open, and it has read every thread that there was |
| `Limbo.Queue.Record` | kvthread.hh:340-345 | recording puts the object, with the global epoch, at the back of what is queued; the next group is taken only when the last one has no room for two elements, and a new one made only when there is none |
| `Limbo.Queue.Quiesce` | kvthread.cc:106-141 | quiescing frees from the front, in order, at most 128 objects, all below the active epoch; if fewer, nothing below it is left; and no group is lost |
| `Limbo.Group.CleanUntil` | kvthread.cc:81-104 | a clean that stops in the middle leaves a marker in front, so that what is freed and what is left are together what there was, with their epochs |
| `Limbo.RotatedStream` | kvthread.cc:124-136 | hooking emptied groups behind the last leaves the queue's contents in order |
| `Replay.AnyOrder` | log.cc:526-602 | the records of a complete history, replayed once each in any order, end with the row that timestamp order gives and no delta marker |
| `Replay.OneApplied` | log.cc:526-602 | after each record, whichever it is, the chain is the run of writes from the newest full one, with exactly the later modifies waiting |
| `Replay.ReplayedTwice` | log.cc:537-539 | replaying a record again changes nothing if and only if it is not a modify that is waiting itself |
| `ReplayRepeats.AnyReplay` | log.cc:526-602 | however the records of a complete history are replayed, and however often, the entry ends as the one row that timestamp order gives if and only if no modify newer than every full write is replayed while its marker is queued; otherwise a marker is left for good |
| `Replay.Entry.Apply` | log.cc:526-602 | the loops over the chain do what the function that the replay theorems are about says |
| `Timestamps.TimestampsIncrease` | kvrow.hh:151-265 | over any run of puts, removals, replayed removals, splits and merges of sets of keys, each one step, later writes of a key get greater timestamps |
| `Timestamps.StepKeeps` | masstree_remove.hh:193-206 | each such step keeps the phantom epoch of the set responsible for a removed key above the removal, and replay markers odd |
| `Timestamps.Table.Write` | kvrow.hh:166-207 | a put or replace on the table is such a step, and its timestamp is greater than the key's last: the least even number from the thread's clock on above the row's timestamp, or not below the leaf's epoch if there is no row |
| `Timestamps.NextIsLeast` | kvthread.hh:131-136 | from an even clock, `update_timestamp` gives the least even number that is not below the clock and above the old timestamp |
| `PhantomEpochs.TimestampsIncrease` | masstree_remove.hh:183-210 | in every interleaving of writes, row removals, splits and leaf deletions, with each load and store of a phantom epoch a step of its own, the timestamps of each key's writes increase, provided no leaf's epoch is raised by its successor's deletion inside one of three windows of an operation that holds the leaf's lock |
| `PhantomEpochs.NextKeeps` | masstree_remove.hh:195-206 | each step that raises no epoch in a window keeps every removed key's last write below the epoch of the leaf responsible for the key, and gives a written key a greater timestamp |
| `PhantomRaces.OnlyOutsideWindows` | masstree_remove.hh:195-206 | timestamps increase in every run that allows a set of windows if and only if the set is empty: each of the three windows alone is enough to go wrong |
| `PhantomRaces.EraseRace` | kvrow.hh:258-260 | a run in which a row removal's store undoes an epoch that was raised since its load, and a later put gets the smaller timestamp |
| `PhantomRaces.SplitRace` | masstree_split.hh:197 | the same after a split whose new leaf copied the epoch before it was raised and entered the list afterwards |
| `PhantomRaces.DeleteRace` | masstree_remove.hh:195-210 | the same when a leaf is deleted that had handed its epoch on before it was raised |
| `LeafEpochs.SplitEpochs` | masstree_split.hh:197 | with the tree's own leaves: a split leaves the epoch responsible for each slice as it was |
| `LeafEpochs.RemovedEpochs` | masstree_remove.hh:193-206 | a leaf deletion lowers no slice's epoch, for every slice and whichever leaf is responsible before and after |
| `LayerTree.Layer.RaiseAbove` | kvrow.hh:250-262 | a row removal raises the epoch of the leaf the descent finds above its timestamp, unless it is above it already, and changes no other leaf's epoch and no entry |
| `TimedTrie.Run` | kvrow.hh:151-265 | on the trie itself, with splits, new layers, leaf deletions and layer collections: over any run the log holds a write for each put and each removal of a row, in order, and the timestamps of each key's writes increase, whichever threads' clocks they come from; all of them are even, and no clock goes back |
| `TimedTrie.Table.Put` | kvrow.hh:166-207 | a put's timestamp is greater than the key's last, which may be a removal long ago; it is the least even number from the thread's clock on that is above the row's timestamp, or not below the responsible leaf's epoch, and becomes the thread's clock |
| `TimedTrie.Table.Remove` | kvrow.hh:239-262 | a removal's timestamp is the least even number from the thread's clock on above the row's, and the key's phantom epoch is kept above it |
| `Permuter.KPermuter.InsertFromBack` | kpermuter.hh:137-146 | the shifts and masks insert the back element at position i, for every width from 1 to 15 |
| `Permuter.KPermuter.Remove` | kpermuter.hh:183-197 | they move element i behind the elements in use |
| `Permuter.KPermuter.RemoveToBack` | kpermuter.hh:214-224 | they move element i to the last position |
| `Permuter.KPermuter.Rotate` | kpermuter.hh:240-248 | they rotate the elements from i up to the width |
| `Permuter.KPermuter.Exchange` | kpermuter.hh:250-253 | they exchange two positions |
| `Permuter.KPermuter.ExchangeValues` | kpermuter.hh:255-262 | they exchange two values wherever they are |
| `Permuter.KPermuter.InsertSelected` | kpermuter.hh:152-164 | for any unallocated source and any target, the result is a permuter with the selected element at the target if and only if the target is not behind the source |
| `Permuter.SelectedExactly` | kpermuter.hh:147-164 | the same of the word, for all widths, words and positions; and when it holds, the result is the list operation's |
| `Permuter.MakeSortedDigit` | kpermuter.hh:84-101 | the constants and shifts of `make_empty` and `make_sorted` give the sorted permutation for every width and size |
| `PermList.RotateComment` | kpermuter.hh:226-248 | the elements in use are rotated among themselves, as the comment says, if and only if all are in use or nothing moves |
| `MsgPackExact.ParsesExactly` | msgpack.cc:19-207 | the parser completes a value on some bytes if and only if they are an encoding of that value: every header form of every value, arrays, and maps with members in any order, in which the last member of a name counts and a name stays where it first came; nothing else is taken for one |
| `MsgPackExact.Parse` | msgpack.cc:19-207 | the same of the parser with its buffer and stack, fed in any chunks |
| `MsgPackExact.EncodingsApart` | msgpack.cc:36-64 | no encoding is another one followed by more bytes, and none is of two values |
| `MsgPackExact.GivenUpForGood` | msgpack.cc:204-206 | once the parser has given up, no continuation of the bytes encodes a value |
| `MsgPackForms.ItemReads` | msgpack.cc:19-207 | in any context, an encoding of a key or a value delivers it, integer keys and binary forms included |
| `MsgPackForms.SpellsExactly` | msgpack.cc:175-182 | an integer key names the one text of decimal digits, without leading zeros and with a minus sign if negative, whose reading is that integer |
| `MsgPackForms.LastWinsUnique` | msgpack.cc:175-182 | members in any order with repeats make just one object |
| `MsgPackShort.UnparsesShort` | msgpack.hh:72-204 | of all encodings, the unparser writes the one with the narrowest headers, text never as binary and integers in their sign class |
| `MsgPack.RoundTrip` | msgpack.cc:19-207 | the unparsed bytes of any value parse to an equal value and are all used up, whatever follows |
| `MsgPack.RunSplit` | msgpack.cc:36-64 | outcome and bytes used do not depend on where the input is cut |
| `MsgPack.TooBigExactly` | msgpack.cc:140-160 | an input leaves the range in which the parser's `int` holds a length if and only if a 32-bit header is read in it whose first length byte is at least 0x80 |
| `MsgPack.ValueReads` | msgpack.hh:545-579 | in any context that takes a value, the unparsed bytes complete that value and nothing else |
| `MsgPackParser.StreamingParser.Consume` | msgpack.cc:19-207 | the parser with its buffer and stack does with a chunk what reading byte by byte does |
| `MsgPackParser.Drive` | msgpack.cc:19-207 | feeding any chunks, the unused rest of each again, is one run over their concatenation |
| `MsgPackParser.ParseUnparsed` | msgpack.hh:545-579 | the unparsed bytes of any value, in any chunks, end in success with an equal value |

## Findings

What the proofs say of the code itself:

- `PermList.RotateComment`: the comment of `rotate` (kpermuter.hh:237) takes the modulus `size() - i`. The
  code rotates up to the width. The comment is right just when all elements are in use or nothing moves.
- `Permuter.SelectedExactly`: `insert_selected` (kpermuter.hh:147-164) does not ask that its target be at
  or before its source, and works just when it is. With the target behind, the selected element stays in
  its old place.
- `Replay.ReplayedTwice`, `ReplayRepeats.AnyReplay`: replaying a record again (log.cc:537-539) is harmless
  unless it is a modify that waits; its predecessor may have arrived and be waiting too. Its marker is newer
  than the record, so a second marker is queued, which nothing takes in: the entry of a complete history
  keeps a delta marker for ever. That happens exactly if a modify newer than every full write is replayed
  while its own marker is queued.
- `NodeVersion.TooManyChanges`: 2^19 splits between a snapshot and its check make `has_split` miss them all,
  and a snapshot whose insert count is 0 equal to the word again; with another insert count `has_changed`
  still sees a change.
- `PhantomRaces.OnlyOutsideWindows`: a key can be written with a timestamp below that of its earlier
  removal. The loop that hands a deleted leaf's phantom epoch to its predecessor (masstree_remove.hh:195-206)
  does not hold the predecessor's lock, and what it stores is lost if the holder is just then
  - removing a row, between the load and the store of the epoch (kvrow.hh:258-260; `EraseRace`);
  - splitting the leaf, between the copy of the epoch into the new leaf (masstree_split.hh:197) and that
    leaf's entry into the list (btree_leaflink.hh:60-96), if the new leaf becomes the predecessor
    (`SplitRace`);
  - deleting the leaf, between the end of its own loop and its exit from the list (`DeleteRace`).

  If no epoch is raised in one of these windows, timestamps increase in every interleaving.
- `MsgPack.TooBigExactly`: a length of 2^31 or more makes `n` negative (msgpack.cc:140-160), and `first += n`
  (msgpack.cc:99) goes backwards. The input needs a header 0xC6, 0xDB, 0xDD or 0xDF whose first length byte
  is at least 0x80, where a value is expected.
- `LeftBehind.Unnoticed`: an empty layer may stay for ever. `remove_leaf` registers a layer for collection only
  in the branch for a leaf without predecessor (masstree_remove.hh:181-187). If the first leaf loses its
  entries before another leaf does, the removal that empties the layer is from the other leaf, which is
  unlinked, and the first leaf stays, alone and empty. A removal from a layer below the first registers it
  exactly if the layer is empty then and the entry was in its first leaf (`KeyTrie.Trie.Remove`,
  `LayerPaths.MissedErase`, `LayerPaths.MissedCollect`).
- `redirect` is also called when no separator has the old bound (the remark at masstree_remove.hh:223); it
  then changes nothing (`TreeRemove.RedirectNothing`).

## Left out

- Threads in the tree: the map theorems are for one thread; concurrency is covered leaf by leaf, for the
  leaf list, for the version word and for reclamation, not for descents across several nodes.
- Memory ordering: the step machines assume sequential consistency, and fences are no-ops.
- Wrap-around of epochs, timestamps and the reader's version counter: they are unbounded numbers;
  `NodeVersion` says when the 32-bit version word may be taken so. The 64-bit layout is not modelled.
- Node layout: key-suffix storage, slots beyond an internode's key count, prefetching and allocation. A
  deleted node leaves the store at once, since reclamation is modelled separately.
- Nodes are values in a map from addresses that a layer's methods reassign, in place of pointers to
  objects: aliasing and updates in place inside a node are not captured.
- The root bit that a new right leaf copies (masstree_split.hh:198): one thread never follows it.
- The left leaf is stripped right after the new leaf is linked; the code delays this for readers without
  locks (masstree_split.hh:247-274).
- LeafReader.ReadIsLinearizable: one leaf; a reader that finds the leaf split, deleted or a layer goes on
  elsewhere, and the rest of its descent is not followed. Key suffixes are compared in one load.
- Timestamps.TimestampsIncrease: each operation is one step and leaves are sets of keys. `TimedTrie` has the
  tree's leaves and `PhantomEpochs` the steps; replayed removals and their markers are only here.
- PhantomEpochs.TimestampsIncrease: the leaf list of one layer. A new layer's first epoch and the store of
  `gc_layer` (masstree_remove.hh:102-104) are in `TimedTrie`, where one thread works at a time.
- Replay.AnyOrder: removal records are not replayed, because their payload is not a changeset (log.cc:557), and
  a history starts with a full write.
- An insertion that is given up after its leaf was split: puts always finish here, so that only removals leave
  empty leaves. `LeafReader` has such insertions on one leaf.
- Callbacks that register again while the limbo queue is cleaned.
- Values are opaque in the trie; a put replaces the value. Row updates appear in `Replay` only.
- TrieScan.Scan: the visitor is a function of what it was shown, and changes nothing in the tree.
- MsgPack.RoundTrip: floats are opaque bytes, and the sign class of an integer is not kept.
- MsgPack.RunSplit: lengths of 2^31 and more end the model's parser (`TooBig`), because the pointer
  arithmetic that follows in the code is undefined; `MsgPack.TooBigExactly` says which inputs these are.
- MsgPackParser.StreamingParser.Consume: such lengths end it too.
- MsgPackParser.Drive: likewise.
- `parser` (the non-streaming reader) repeats the formats of the streaming one without its states; `shift`,
  `unshift` and `increment` of keys and the search for upper bounds are loops of a few lines without state.
- Network, files, log file format and recovery bounds, statistics, benchmarks and JSON text parsing.
