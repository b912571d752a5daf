# Linker passes of dex2oat and readers of dex files, in Dafny

The heart of dex2oat is a linker that works in passes: one set of passes plans offsets for everything,
later passes write or copy and must land on those offsets, often without the maps the planning passes
had. This project models those passes, with the object graph serializer and the ELF writer next to
them, and two readers of dex files, and proves that they agree with each other and with what the
runtime reads back.

| files | part of the system |
|---|---|
| `Align`, `Wrappers`, `Flatten` | rounding, bytes, words, options, nested traversals |
| `OatLayout`, `OatCode`, `OatTables`, `OatClasses`, `BssMapping`, `OatFile`, `OatLookup`, `OatSlots` | what an oat file is: plan, bytes and the runtime's lookups |
| `OatPasses`, `OatStages`, `OatWriter` | the oat writer itself: visitors, stages and the object that runs them |
| `Quickening` | the quickening section of a vdex file |
| `ImagePrune`, `DexCachePreload` | which classes an app image keeps, and its deterministic dex caches |
| `ImageClosure`, `ImageBins`, `ImageLayout`, `ImageNatives`, `ImageCopy`, `ImageWriting` | the image writer: work stack with interning, bins in lock words, native arrays, offsets, copy |
| `ElfSections`, `ElfSegments`, `ElfDynamic`, `ElfSymbols`, `ElfLoader` | the ELF builder: two cursors, program headers, predicted addresses, symbols, and what the runtime reads of them (System V gABI, chapters 4 and 5) |
| `CfgDump`, `CfgEdges`, `CfgFlow` | the control flow graphs of dexdump |
| `Leb128`, `EncodedValues`, `DebugInfo`, `CatchHandlers` | the dex_ir parser (Dalvik Executable format: LEB128, encoded_value, debug_info_item, encoded_catch_handler_list) |

`dfyconfig.toml` lists the files for `dafny verify dfyconfig.toml`.

How the model is built:

- A pass is specified by a function of the prefix handled so far (`PlanAt`, `WriteAt`, `Taken`, `Run`,
  `Loads`), and the loop or visitor that the source has is a method proved against that function.
  Objects whose fields the source updates are classes: `OatWriter.Writer`, `ImagePrune.Pruner`,
  `ImageClosure.Walker`, `ImageLayout.Layouter`, `ElfSections.Builder`.
- Output streams are byte sequences, and the write position is their length. A gap skipped by a seek
  reads as zeros.
- Data pointers stand for the arrays they point to, because the compiler driver deduplicates arrays.
- What the compiler driver, the class linker and the relative patcher decide (compiled methods, patched
  bytes, thunks needed at a call, class lookups, lock words, object sizes) are parameters.
- Offsets are unbounded where the source assumes they fit; where it computes modulo 2^32 or 2^64 the
  wrap-around is written out.

Some promises hold only under a condition, which is proved to be the exact one, with an input that shows
it is needed:

- The predicted loaded size of an ELF file is computed with the size of the symbols in place of the size
  of the hash section, so the builder's CHECK fails for some very long file names
  (`ElfDynamic.LoadedSizeHolds`, `ElfDynamic.LongNameFails`); no name that file systems allow is long
  enough (`ElfDynamic.ShortNamesAreFine`).
- The builder numbers .bss wrongly exactly when .text is empty, because the empty section is still
  written (`ElfDynamic.PredictionsHold`, `ElfDynamic.EmptyTextMisnumbers`). The addresses
  of its symbols are right in any case (`ElfLoader.ComputeFields`). Whether an oat file with .bss and
  without code ever arises is not known.
- A dex cache slot is independent of its former contents only if a surviving entry agrees with lookup
  (`DexCachePreload.OnlyIfAgrees`, `DexCachePreload.StaleEntryStays`). The runtime fills caches from
  lookups, so an entry that disagrees is not known to arise.
- A bin slot can be read back exactly when the index fits 27 bits (`ImageBins.SlotRoundTrip`), which the
  source checks in debug builds only.

## Model

| member | source | states |
|---|---|---|
| OatCode.CodeDelta | compiler/compiled_method.cc:61-78 | One exactly for Thumb2, whose code is entered at an odd address, and zero otherwise, so emitted code is never shorter than it. |
| OatCode.CodePadding | compiler/oat_writer.cc:97-102 | Padding aligns the code behind the method header, not the header, never undercuts the next aligned offset and is always shorter than the alignment. |
| OatCode.FreshCode | compiler/oat_writer.cc:1030-1039 | Code of a new key starts behind the reserved thunks and its header, aligned for the instruction set. |
| OatCode.ThunksLandWhereReserved | compiler/linker/arm/relative_patcher_arm_base.cc:140-205 | Thunks reserved at one call are exactly those written when the cursor reaches the same offset, so writing advances as reserving did; later thunks stay pending. |
| OatCode.PlanIsOk | compiler/oat_writer.cc:879-1004 | After any number of methods the dedupe map holds exactly the keys seen, every method has the offset of its key, and every planned body is aligned and lies below the cursor. |
| OatCode.CodePassRefinesPlan | compiler/oat_writer.cc:1323-1467 | The writing pass, which has no map, emits every key's header and code exactly where the planning pass put it, leaves no thunk pending and ends at the planned offset. |
| OatCode.EmittedExactlyOnce | compiler/oat_writer.cc:1337-1339 | `code_offset_ > offset_` holds for a method in the writing pass exactly when it is the first with its dedupe key. |
| OatCode.DifferentKeysDisjoint | compiler/oat_writer.cc:1010-1039 | Header-and-code ranges of methods with different keys never overlap. |
| OatCode.SameKeySameOffset | compiler/oat_writer.cc:892-911 | Methods with equal dedupe keys share one code offset. |
| OatCode.CodeInRange | compiler/oat_writer.cc:1030-1039 | Every code offset lies between the start of the code and the planned end, Thumb bit included. |
| OatPasses.ReserveSpace | compiler/linker/arm/relative_patcher_arm_base.cc:140-163 | The loop over the thunks needed at one call: each goes to the next aligned offset. |
| OatPasses.WritePendingThunks | compiler/linker/arm/relative_patcher_arm_base.cc:165-205 | The loop that writes pending thunks while the first one belongs at the aligned cursor. |
| OatPasses.PlaceCode | compiler/oat_writer.cc:892-911 | A method gets the offset of an earlier method with its key, or a fresh aligned place behind the thunks; the dedupe map and cursor change only in the second case. |
| OatPasses.VisitInitCode | compiler/oat_writer.cc:879-1005 | One visit stores the code offset and the completed header at the running index of the class and nowhere else. |
| OatPasses.InitCode | compiler/oat_writer.cc:862-877 | All classes: offsets and headers of all compiled methods, the final offset and the reserved thunks are the planned ones, with the remaining thunks reserved after the last class. |
| OatPasses.VisitWriteCode | compiler/oat_writer.cc:1323-1467 | One visit of the writing pass: thunks, padding, header and patched code are appended only if the stored offset lies beyond the cursor. |
| OatPasses.WriteCodePass | compiler/oat_writer.cc:1310-1321 | All classes of the writing pass, thunks after the last class included, from vectors and cursor alone. |
| OatTables.FieldRoundTrip | compiler/oat_writer.cc:925-958 | Stored as `0 - offset` and rebased by the code offset modulo 2^32, the field is the distance from table to code, and the write visitor recovers the offset from it. |
| OatTables.NoTableNoField | compiler/oat_writer.cc:925-958 | A method without a table keeps a zero field through all three passes. |
| OatTables.PlanIsOk | compiler/oat_writer.cc:1049-1125 | Tables are deduplicated by pointer; each distinct non-empty table has one place inside the planned range and methods without a table get offset zero. |
| OatTables.TablePassRefinesPlan | compiler/oat_writer.cc:1608-1718 | Writing a table whenever its recovered offset equals the cursor puts every method's own table at its planned offset and ends where planning ended. |
| OatTables.WrittenAtFirstOccurrence | compiler/oat_writer.cc:1638-1652 | `map_offset == offset_` holds exactly at the first method that refers to the table. |
| OatPasses.RankIsIndex | compiler/oat_writer.cc:705-730 | The running index into the vectors of a class is the rank of the current method among its compiled ones. |
| OatPasses.VisitInitTable | compiler/oat_writer.cc:1054-1087 | One visit of the vmap or method info planning visitor. |
| OatPasses.InitTables | compiler/oat_writer.cc:1816-1833 | The planning visitor over all classes: every header field holds the negated planned offset of its method's table. |
| OatPasses.WriteTablePass | compiler/oat_writer.cc:1618-1658 | The writing visitor over all classes, from header fields and code offsets alone. |
| OatFile.RecoveredIsPlanned | compiler/oat_writer.cc:1638-1640 | For files below 4 GiB the offsets that the write visitors recover are the planned ones, for every method. |
| OatClasses.BuildClass | compiler/oat_writer.cc:3418-3454 | Type, bitmap, bitmap size and the distance of every method's entry from the class record; the bitmap is set exactly at compiled methods. |
| OatClasses.DescribedOnce | compiler/oat_writer.cc:3418-3454 | That description determines the class record. |
| OatClasses.ClassBytesSize | compiler/oat_writer.cc:3456-3501 | Header size plus `SizeOf` is the number of bytes written for a class. |
| OatClasses.DistanceIsRight | compiler/oat_writer.cc:3440-3453 | The recorded distance of a compiled method leads to that method's code offset in the written bytes. |
| OatClasses.LookupReadsBack | runtime/oat_file.cc:1563-1583 | The runtime's lookup by method index, through the bitmap if there is one, finds the code offset of a compiled method and nothing for others. |
| OatClasses.StatusReadsBack | runtime/oat_file.cc:1440-1443 | The first half word of a class record is the status. |
| OatClasses.WordsReadBack | compiler/oat_writer.cc:3408-3416 | Class offset arrays and code offset tables read back word by word. |
| BssMapping.CountEntries | compiler/oat_writer.cc:1851-1863 | The counting pass: as many entries as the writing pass produces. |
| BssMapping.WriteEntries | compiler/oat_writer.cc:2518-2533 | The writing pass: an entry is stored when the next pair does not merge into it. |
| BssMapping.MergeKeepsSlots | compiler/linker/method_bss_mapping_encoder.h:40-59 | Merging a pair into an entry adds exactly its index, and no earlier index loses or changes its slot. |
| BssMapping.MappingReadsBack | runtime/entrypoints/quick/quick_trampoline_entrypoints.cc:1189-1205 | Looking an index up in the encoded entries gives the slot of every encoded method index, and no slot for any other. |
| BssMapping.LookUp | runtime/entrypoints/quick/quick_trampoline_entrypoints.cc:1193-1201 | The runtime's binary search for the partition point of sorted entries gives the answer of the first entry not below the index. |
| BssMapping.EntriesAscend | runtime/oat_file.cc:592-604 | The entries of an encoded mapping have strictly ascending indexes, as the binary search needs them. |
| OatLayout.ItemsLand | compiler/oat_writer.cc:2423-2597 | A run of items with planned sizes and alignments is written at the planned places and ends at the planned end. |
| OatLayout.ItemsDisjoint | compiler/oat_writer.cc:1780-1793 | Planned items are aligned, ordered and do not overlap. |
| OatStages.InitClassOffsets | compiler/oat_writer.cc:1780-1793 | Offsets of the class offset arrays, zero for dex files without classes. |
| OatStages.InitOatClasses | compiler/oat_writer.cc:783-856 | One record per class, built from the methods visited, placed right behind the previous one. |
| OatStages.CollectMethods | compiler/oat_writer.cc:803-825 | Which methods of a class are compiled, and how many. |
| OatStages.ShareOffsets | compiler/oat_writer.cc:1802-1811 | Class offsets are handed out to the dex files in traversal order. |
| OatStages.InitMethodBssMappings | compiler/oat_writer.cc:1835-1868 | Offsets and sizes of the bss mappings from the counted entries alone. |
| OatStages.InitOatDexFiles | compiler/oat_writer.cc:1870-1877 | Offsets of the dex file records. |
| OatStages.InitOatCode | compiler/oat_writer.cc:1879-1914 | The page-aligned start of the code, and for every trampoline its aligned place and the entry point recorded in the header, Thumb bit included. |
| OatStages.WriteClassOffsets | compiler/oat_writer.cc:2423-2442 | Class offset arrays with their alignment padding; a zero offset marks a dex file without classes. |
| OatStages.WriteClasses | compiler/oat_writer.cc:2444-2465 | Class headers, bitmaps and code offsets in order. |
| OatStages.WriteMethodBssMappings | compiler/oat_writer.cc:2490-2550 | The mappings, each preceded by its number of entries. |
| OatStages.WriteOatDexFiles | compiler/oat_writer.cc:3353-3406 | The dex file records with the recorded offsets of their arrays and mappings. |
| OatStages.WriteTrampolines | compiler/oat_writer.cc:2570-2597 | The trampolines of a boot image behind the skipped padding. |
| OatFile.PlanIsComplete | compiler/oat_writer.cc:600-657 | Every compiled method has an entry in each of the three plans. |
| OatFile.FileRefinesPlan | compiler/oat_writer.cc:2359-2360 | The writing passes, run from where the layout pass started, end exactly at `oat_size_`, and every item of every stage is at the offset recorded for it. |
| BssMapping.EntriesAreNarrow | compiler/linker/method_bss_mapping_encoder.h:40-59 | For 16-bit method indexes and 32-bit slots every entry the encoder produces fits its 16-bit index, 16-bit mask and 32-bit slot. |
| OatSlots.EntriesReadBack | runtime/method_bss_mapping.h:32-55 | The bytes of a mapping read back as its entries, field by field. |
| OatSlots.MappingsAligned | compiler/oat_writer.cc:1843-1847 | Every bss mapping is word aligned wherever the layout starts, because only classes ask for slots and class offsets are aligned. |
| OatSlots.MappingIsLoaded | runtime/oat_file.cc:560-591 | The runtime accepts the mapping of every dex file and loads from its record exactly the entries that were encoded, or none if there are none. |
| OatSlots.EverySlotIsFound | runtime/entrypoints/quick/quick_trampoline_entrypoints.cc:1189-1208 | From the bytes of the finished file the runtime finds the .bss slot of every method index that has one, and no slot for any other index; the entries are sorted, so its binary search is this lookup. |
| OatLookup.EveryMethodIsFound | runtime/oat_file.cc:1431-1472 | From a dex file's record the runtime finds a code offset for a method exactly when it was compiled to code that is not empty; there it reads, word by word in front of the code, the distances to the method's own two tables, the frame of the first method that shares the code and the code's size, and behind them the patched code. |
| OatLookup.SharedExactly | compiler/oat_writer.cc:1010-1028 | Two compiled methods end up at one code offset exactly when their code, vmap table, method info and patches are the same arrays; in debuggable files, exactly when they are the same method. |
| OatLookup.SharedCodeIsSeen | runtime/oat_quick_method_header.h:191-205 | Every method of the dedupe map sees its own code and tables through the header that was written for the first method of its key, with that first method's frame. |
| OatLookup.EveryRecordIsFound | runtime/oat_file.cc:376-570 | The runtime walks the records and reads each dex file's location, checksum, offset, lookup table and layout back, with a class array that is aligned and there exactly if the file has classes. |
| OatLookup.EveryClassIsFound | runtime/oat_file.cc:1431-1443 | The class record found through the class array starts with the class's own status. |
| OatLookup.TrampolinesAreThere | compiler/oat_writer.cc:1879-1913 | A boot image's trampolines follow the page start of the code part, aligned for the instruction set, in order, and are held by the written file; other files go straight on with code. |
| OatWriter.LayOutFront | compiler/oat_writer.cc:617-629 | The stages in front of the vmap tables record the planned offsets. |
| OatWriter.LayOutBack | compiler/oat_writer.cc:630-647 | The stages from the vmap tables on record the planned offsets, headers and thunks and end at the planned size. |
| OatWriter.Writer.constructor | compiler/oat_writer.cc:314-388 | A new writer has nothing planned and counts what has been written so far. |
| OatWriter.Writer.PrepareLayout | compiler/oat_writer.cc:600-657 | All stages in order; every recorded offset of the object is the planned one. |
| OatWriter.Writer.WriteRodata | compiler/oat_writer.cc:1986-2045 | Everything in front of the code and the padding, from the recorded offsets alone. |
| OatWriter.Writer.WriteCode | compiler/oat_writer.cc:2269-2364 | Trampolines and code; the output is the specified file and its length is `oat_size_`. |
| OatWriter.Writer.Write | compiler/oat_writer.cc:600-657 | Layout and both writing passes in sequence produce the specified file of the planned size. |
| OatWriter.WriteFrontStages | compiler/oat_writer.cc:2001-2017 | The first three stages of the read-only data. |
| OatWriter.WriteMaps | compiler/oat_writer.cc:2467-2488 | Both table passes, vmap tables first. |
| Quickening.WriteTables | compiler/oat_writer.cc:2058-2084 | The first pass over all methods: tables and offset map of exactly the quickened methods. |
| Quickening.VisitTable | compiler/oat_writer.cc:2064-2081 | One visit: a table is written when its pointer is not in the map. |
| Quickening.TablesWrittenOnce | compiler/oat_writer.cc:2064-2081 | Each distinct table is written exactly once, length first, at the offset kept for it, and no other table is. |
| Quickening.WriteIndices | compiler/oat_writer.cc:2109-2147 | One pair per quickened method, and for each dex file the offset of its first pair. |
| Quickening.WriteQuickeningInfo | compiler/oat_writer.cc:2161-2221 | `vdex_size_` grows by exactly the alignment and the bytes written. |
| Quickening.QuickeningReadsBack | runtime/vdex_file.cc:172-217 | The runtime's iteration over one dex file yields exactly its quickened methods in order, each with its own length-prefixed table. |
| Quickening.EveryQuickenedIsFound | compiler/oat_writer.cc:2058-2147 | The entries the runtime is given for a dex file are those of exactly the file's methods that were compiled to no code but with a table, each with its code item and its own table. |
| ImagePrune.LeaveForGood | compiler/image_writer.cc:810-920 | A path to a bad class that returns to its start can be cut so that it leaves for good: why the path set may be avoided. |
| ImagePrune.SearchIsRight | compiler/image_writer.cc:908-918 | A negative answer is exact when no reference was cut, and holds outside the current path otherwise. |
| ImagePrune.Pruner.constructor | compiler/image_writer.cc:810-814 | An empty memo is exact. |
| ImagePrune.Pruner.PruneAppImageClassInternal | compiler/image_writer.cc:816-920 | On any class graph, cyclic or not: a positive answer means a bad class is reachable, a negative one that none is outside the current path, and none at all without early exit; the path is restored and every memo entry stays exact. |
| ImagePrune.Pruner.Search | compiler/image_writer.cc:837-907 | The class itself, interfaces, component type, static values, superclass and dex file, with short-circuiting. |
| ImagePrune.Pruner.FollowInterfaces | compiler/image_writer.cc:851-859 | All interfaces are followed unless one is found bad. |
| ImagePrune.Pruner.FollowStatics | compiler/image_writer.cc:866-896 | All classes of static reference values are followed unless one is found bad. |
| ImagePrune.Pruner.Follow | compiler/image_writer.cc:855-857 | One short-circuited recursive query. |
| ImagePrune.Pruner.PruneAppImageClass | compiler/image_writer.cc:810-814 | The answer for a root query is true iff a bad class is reachable, whatever was asked before. |
| ImagePrune.Pruner.KeepClass | compiler/image_writer.cc:922-941 | Exactly the boot image classes and the fit image classes are kept. |
| ImagePrune.Pruner.ClassesToPrune | compiler/image_writer.cc:951-959 | Over a class table in any order, exactly the classes not kept are collected. |
| ImagePrune.KeptIsClosed | compiler/image_writer.cc:922-941 | Every class a kept class of an app image refers to is kept. |
| DexCachePreload.PruneAndPreload | compiler/image_writer.cc:1032-1078 | Each slot after the loop, as a function of what it held before: the lowest id that qualifies, or a surviving entry; a filled slot belongs to a resolved class that the image keeps. |
| DexCachePreload.OnlyKeptClasses | compiler/image_writer.cc:1050-1053 | Whatever is left in a slot is an id of that slot whose class is resolved and kept. |
| DexCachePreload.LowestMember | compiler/image_writer.cc:1055-1072 | If stored entries agree with lookup, the slot ends with the member that the first id of the slot with a resolved and kept class finds, and is empty if and only if no id of the slot finds any. |
| DexCachePreload.SlotsAreUsed | runtime/utils/dex_cache_arrays_layout-inl.h:98-105 | There are exactly the slots that ids map to. |
| DexCachePreload.LowestIsLowest | compiler/image_writer.cc:1024-1027 | The reference definition of the lowest index of a slot whose class is kept and whose lookup succeeds. |
| DexCachePreload.Deterministic | compiler/image_writer.cc:1024-1027 | If stored entries agree with lookup, the final slot is that lowest entry, whatever the cache held before. |
| DexCachePreload.OnlyIfAgrees | compiler/image_writer.cc:1057-1077 | Exactly when the final slot is the lowest entry: a stored entry that no lower id replaces and whose class is kept must be what lookup finds. |
| DexCachePreload.StaleEntryStays | compiler/image_writer.cc:1064-1077 | The condition is needed: one stored entry that lookup would not find stays in its slot. |
| ImageClosure.Walker.constructor | compiler/image_writer.cc:1708-1710 | Initially nothing has a slot, nothing is interned and all references are as they were. |
| ImageClosure.Walker.FindInternedString | compiler/image_writer.cc:1237-1260 | The intern tables of all images in order, then the boot image's. |
| ImageClosure.Walker.TryAssignBinSlot | compiler/image_writer.cc:1352-1510 | One object gets its slot, image and place on the stack if it has none; the reference returned is the interned one. |
| ImageClosure.TryAssignOk | compiler/image_writer.cc:1499-1510 | Assigning keeps the invariant of the walk and either changes nothing or uses up an object without slot. |
| ImageClosure.VisitOk | compiler/image_writer.cc:1598-1605 | Storing the interned reference keeps the invariant. |
| ImageClosure.Walker.VisitReferences | compiler/image_writer.cc:1580-1622 | All references of one object. |
| ImageClosure.Walker.ProcessWorkStack | compiler/image_writer.cc:1649-1659 | Terminates on (objects without slot, stack size) with an empty stack and the invariant intact. |
| ImageClosure.Walker.AssignAll | compiler/image_writer.cc:1712-1737 | Strings that dex files name start in the image of the first file that names them, all other roots in the default image. Afterwards every root is null, in the boot image, or has a slot, and every object with a slot is a root in its image or is referred to by an earlier object, whose image it shares unless it is a class or dex cache. |
| ImageClosure.Walker.AssignRoots | compiler/image_writer.cc:1719-1735 | One loop over references that start in one image. |
| ImageClosure.StringsOfFirstFile | compiler/image_writer.cc:1712-1725 | A string that dex files name is in the image of the first of them, whatever else refers to it. |
| ImageClosure.OthersInDefaultImage | compiler/image_writer.cc:1727-1736 | Any other root is in the default image, unless it is a class or a dex cache, which go with their dex file. |
| ImageClosure.ClosedUnderReferences | compiler/image_writer.cc:1598-1616 | Every reference of an object with a slot, before and after interning, is null, in the boot image, or leads to an object with a slot; only equal strings were exchanged, and the string left is the canonical one. |
| ImageClosure.ReachableHasSlot | compiler/image_writer.cc:1767-1776 | Whatever is reachable from an object with a slot in the original heap has a slot. |
| ImageClosure.SlotIffReachable | compiler/image_writer.cc:1649-1659 | After the walk an object has a slot if and only if references lead to it from a root without passing through the boot image. |
| ImageClosure.FoundByReference | compiler/image_writer.cc:1598-1616 | Following a reference keeps the reason why every object has its slot and image. |
| ImageClosure.OneSlotEach | compiler/image_writer.cc:1359-1371 | Slots are handed out once each; every string in an image's intern table has its slot in that image; no two images' tables hold equal strings and none holds a string of the boot image. |
| ImageClosure.StringsAreShared | compiler/image_writer.cc:1359-1371 | A reference to a string becomes the boot image's string of equal contents, or else the one interned string of these contents; every other reference stays as it was. |
| ImageClosure.ImageIsRight | compiler/image_writer.cc:1352-1395 | Classes and dex caches are in the image of their dex file, and everything else is in the image it was given as a root or in that of an earlier object that refers to it. |
| ImageBins.ForwardingRoundTrip | runtime/lock_word.h:144-147 | An aligned 32-bit address survives the lock word. |
| ImageBins.HashRoundTrip | runtime/lock_word.h:149-155 | A hash code survives the lock word. |
| ImageBins.ThinLockState | runtime/lock_word.h:134-142 | A word is thin locked exactly if it has an owner or a count, whatever the two bits of the garbage collector. |
| ImageBins.MarkKeeps | runtime/lock_word.h:221-227 | Setting the mark bit changes neither the state nor the hash code. |
| ImageBins.SlotRoundTrip | compiler/image_writer.cc:2653-2674 | Bin and index survive packing into a lock word if and only if the index is below 2^27; a longer one spills into the bin. |
| ImageBins.IndexSpills | compiler/image_writer.cc:2653-2674 | Every bit of the bin that is read back is set exactly if it was set in the bin or in the part of the index beyond its 27 bits. |
| ImageBins.BinDisjoint | compiler/image_writer.cc:625-643 | Within a bin, assignments follow each other without overlap. |
| ImageBins.ObjectsBeforeNatives | compiler/image_writer.cc:361-373 | Objects are 8-byte aligned and end by `image_end_`; native data starts at or after it. |
| ImageBins.AllDisjoint | compiler/image_writer.cc:1798-1826 | No two assignments of one image overlap, whatever their bins. |
| ImageBins.SectionsOrdered | compiler/image_writer.cc:1865-1918 | Image sections follow each other without overlap. |
| ImageBins.SectionSpans | compiler/image_writer.cc:1865-1918 | Each section reaches from the start to the end of its bins, objects from zero to `image_end_`; the two tables have their own sizes at multiples of eight. |
| ImageBins.SectionsHold | compiler/image_writer.cc:1865-1918 | For every assignment of an image and every section: it lies inside if it belongs there by its bin, and does not touch the section otherwise. |
| ImageBins.PieceInSection | compiler/image_writer.h:173-191 | By type of native data: fields, methods, interface method tables, conflict tables, runtime methods and dex cache arrays, with their arrays, lie in their own section and in no other. |
| ImageBins.CleanBeforeDirty | compiler/image_writer.h:177-181 | Methods that stay clean come before all that will be dirtied. |
| ImageBins.CachesAligned | compiler/image_writer.cc:1808-1810 | The dex cache arrays start where their layout asks for. |
| ImageBins.MethodsSectionCovers | compiler/image_writer.cc:1880-1884 | The methods section reaches exactly from the first clean to the last dirty method: no padding lies between the two bins. |
| ImageBins.PieceIsWhole | runtime/art_method.h:615-625 | Every kind of method, method array header, interface method table and conflict table has a size that is a multiple of the target's pointer size, every field and field array header one of whole words. |
| ImageBins.MethodsAligned | compiler/image_writer.cc:1803-1822 | Every method and table ends up at a multiple of the target's pointer size, runtime methods included, whose bin is not padded. |
| ImageBins.FieldsAligned | compiler/image_writer.cc:1803-1822 | Every field ends up at a whole word. |
| ImageBins.InsideImage | compiler/image_writer.cc:1828-1838 | Every assignment lies inside its page-rounded image. |
| ImageBins.ImagesAscend | compiler/image_writer.cc:1828-1838 | Images follow each other in the address space. |
| ImageBins.AddressesDisjoint | compiler/image_writer.cc:1828-1838 | Over all images no two assignments share an address. |
| ImageLayout.ChooseBin | compiler/image_writer.cc:564-622 | The scan of the static fields, with its early exit, finds a class clean exactly when all are final; every other bin follows from kind and status. |
| ImageLayout.Layouter.constructor | compiler/image_writer.h:255-272 | Bins start empty and the end at the header. |
| ImageLayout.Layouter.AssignImageBinSlot | compiler/image_writer.cc:517-643 | The object gets the next index of the bin its description calls for, `image_end_` stays header plus mirror bins, the lock word holds the slot and a hash code is saved. |
| ImageLayout.Layouter.AssignNative | compiler/image_writer.cc:1552-1565 | A native item gets the next place of the bin of its type, with the size of its type. |
| ImageLayout.Layouter.HasRoom | compiler/image_writer.cc:2663-2666 | Whether every bin slot handed out can be read back: no mirror bin has outgrown 2^27 bytes. |
| ImageNatives.TryAssignNative | compiler/image_writer.cc:1516-1550 | Shared tables are assigned by whoever comes first and only once. |
| ImageNatives.AssignArray | compiler/image_writer.cc:1396-1424 | The header of an array and then each element, all with the image and bin of the array. |
| ImageNatives.AssignMethods | compiler/image_writer.cc:1428-1464 | The scan for a dirty method, with its early exit, sends the array to the dirty bin exactly when some method is dirty. |
| ImageNatives.AssignRuntimeMethod | compiler/image_writer.cc:1552-1566 | A runtime method comes after the conflict table it holds live, which is assigned unless it already was. |
| ImageNatives.AssignImt | compiler/image_writer.cc:1465-1482 | An interface method table is gone through once, and each of its runtime methods is assigned once. |
| ImageNatives.AssignClass | compiler/image_writer.cc:1376-1482 | Static fields, instance fields, methods and interface method table of a class, in this order. |
| ImageNatives.ClassOwned | compiler/image_writer.cc:1399-1403 | Assigning a class adds arrays of that class only, so no array is ever forwarded twice. |
| ImageNatives.AssignRuntime | compiler/image_writer.cc:1689-1697 | The runtime's own methods come first, in the default image. |
| ImageNatives.AssignCaches | compiler/image_writer.cc:430-440 | The room for each dex file's cache arrays, one after the other in the file's image. |
| ImageNatives.ClassLive | compiler/image_writer.cc:1465-1482 | Assigning a class keeps the rule that whatever is held live by something assigned is assigned: runtime methods of interface method tables, conflict tables of runtime methods. |
| ImageNatives.ElementsFollow | runtime/base/length_prefixed_array.h:64-77 | Once relocated, element k of an array lies behind the header and k elements, where the runtime will index it. |
| ImageLayout.CalculateBinOffsets | compiler/image_writer.cc:1798-1826 | Bin offsets with the alignments of the method, table and dex cache bins. |
| ImageLayout.Layouter.CalculateOffsets | compiler/image_writer.cc:1797-1838 | Bin offsets and the place of every image. |
| ImageLayout.Layouter.UnbinObjects | compiler/image_writer.cc:1840-1848 | Every bin slot is replaced by the image offset it stands for; saved hash codes are untouched. |
| ImageLayout.Layouter.UpdateNatives | compiler/image_writer.cc:1856-1862 | Every native relocation holds its image offset. |
| ImageCopy.AddressesInjective | compiler/image_writer.h:98-107 | Different targets, null and boot objects included, have different addresses over all images. |
| ImageCopy.CopyAndFixupObject | compiler/image_writer.cc:2203-2231 | One copy: its references are image addresses, its lock word is the saved hash or the default, and the mark bit is set if image objects are treated as marked. |
| ImageCopy.CopyAndFixupObjects | compiler/image_writer.cc:2154-2167 | Memory holds exactly one copy per object at its address, and saved hash codes are back in the originals. |
| ImageCopy.CopyIsIsomorphic | compiler/image_writer.cc:2807-2815 | A field of a copy holds the address of a target exactly when the original field refers to that target. |
| ImageCopy.CopiedField | compiler/image_writer.cc:2807-2815 | A field of a copy is zero for null, the boot image's address of a boot object, or else the referent's own address, where the copy of the referent is. |
| ImageCopy.HashIsKept | compiler/image_writer.cc:2220-2229 | A copy has its original's identity hash, or is unlocked if it had none, with the default word unless it is marked. |
| ImageCopy.WalkIsClosed | compiler/image_writer.cc:1767-1776 | What the walk leaves behind can be copied: every reference has an address. |
| ImageWriting.LayOut | compiler/image_writer.cc:1689-1779 | The runtime's methods, every object of the walk with its native data, in the order of the walk, and the dex caches are assigned once each. |
| ImageWriting.LayOutObject | compiler/image_writer.cc:1376-1500 | One object: its native data if it is a class, then its bin slot. |
| ImageWriting.ElementsInPlace | compiler/image_writer.cc:1396-1464 | In the finished layout, for every class the walk found, each element of its field and method arrays lies in the class's image at its index behind the array's header. |
| ImageWriting.MethodsInPlace | runtime/art_method.h:711-753 | Method k of a class is behind the array's length word and k methods of twenty bytes and three pointers, each rounded to the pointer size, in the dirty bin exactly if some method of the class is dirty. |
| ImageWriting.FieldsInPlace | runtime/art_field.h:245-253 | Field k of a class is behind the length word and k fields of sixteen bytes. |
| ImageWriting.HeldInPlace | compiler/image_writer.cc:1465-1566 | Every interface method table of a class in the image, each of its runtime methods and each of their conflict tables has a place. |
| ImageWriting.CachesInPlace | compiler/image_writer.cc:430-440 | The dex cache arrays of every dex file have room of their own size in the file's image. |
| ImageWriting.WriteImages | compiler/image_writer.cc:1661-1863 | From heap to memory: exactly what the roots reach is walked; if and only if no mirror bin outgrows a bin slot, all of it is laid out by the assignments of the walk and copied, closed under references, native data is relocated, and every native piece is of a whole size, with the original lock words as reference for hash codes. |
| ElfSections.Builder.constructor | compiler/elf_builder.h:593-602 | Both cursors start behind the space for the headers. |
| ElfSections.Builder.Start | compiler/elf_builder.h:123-153 | A change of flags starts a page; file and address are aligned alike, except that a section without contents has no file offset. |
| ElfSections.Builder.End | compiler/elf_builder.h:156-171 | The size is what was written, and the address cursor moves for loaded sections only. |
| ElfSections.Builder.WriteSection | compiler/elf_builder.h:123-199 | A whole section is one step of the state machine. |
| ElfSections.CursorsInStep | compiler/elf_builder.h:825-831 | After every loaded section with contents both cursors agree modulo the page size. |
| ElfSegments.SectionsInPlace | compiler/elf_builder.h:123-153 | In any run of sections each is aligned in file and memory as it asks for and starts a page where flags change; what is not loaded has no address and what has no contents no offset. |
| ElfSegments.SectionsApart | compiler/elf_builder.h:123-171 | Sections never overlap, neither in the file nor in memory. |
| ElfSegments.MakeProgramHeaders | compiler/elf_builder.h:908-960 | Segments are merged from the sections; the alignment CHECK passes exactly when every section that starts a segment starts a page. |
| ElfSegments.SegmentsAreRight | compiler/elf_builder.h:908-960 | For sections in a sensible order: offset and address of every PT_LOAD agree modulo p_align, loads ascend without overlap, and every loaded section is mapped at its sh_addr. |
| ElfSegments.LoadsAreSections | compiler/elf_builder.h:918-951 | Every load begins where the file or a section begins, with its permissions, and ends where the headers or a section end; a section without contents is a load of its own. |
| ElfDynamic.BuildHash | compiler/elf_builder.h:743-758 | The single chain of the hash section visits every symbol once, in order, and ends. |
| ElfDynamic.PrepareDynamicSection | compiler/elf_builder.h:669-782 | The predicted addresses and section numbers. |
| ElfSymbols.BuildSymbols | compiler/elf_builder.h:696-741 | The contents of .dynstr and .dynsym have the sizes the predicted addresses rely on, every symbol's name offset reads back its own name, and the file name reads back at its offset. |
| ElfSymbols.NameReadsBack | compiler/elf_builder.h:299-304 | A name added to the string table is read back up to its terminator. |
| ElfSymbols.SymbolsAreRight | compiler/elf_builder.h:699-740 | In files with code or without .bss every symbol describes part of the section it names as that section is written, if and only if the sections whose last word is named are no shorter than a word. |
| ElfSymbols.SymbolsSayWhat | compiler/elf_builder.h:699-740 | Which symbols there are, and what each describes: oatdata and oatexec their whole sections, the last words the last four bytes, and the .bss symbols its prefix, its methods and its roots. Section numbers are right exactly for symbols of code and data and in files with code. |
| ElfLoader.LoadDynamic | runtime/elf_file.cc:1269-1312 | The loop over the bytes of a dynamic section accepts it exactly if the null entry is nowhere but at the end, and keeps the last value of each tag. |
| ElfLoader.DynamicIsRight | compiler/elf_builder.h:768-777 | The dynamic section fills the size it is given, is accepted, and leads to the hash, string and symbol sections where they are written, with their sizes. |
| ElfLoader.SymbolReadsBack | compiler/elf_builder.h:363-401 | The bytes of every symbol read back field by field, in 32-bit and in 64-bit files. |
| ElfLoader.SectionsFilled | compiler/elf_builder.h:742-760 | The bytes of symbols and hash chain have exactly the sizes of the sections written for them. |
| ElfLoader.FindDynamicSymbol | runtime/elf_file.cc:776-806 | The walk along the hash chain ends and finds a symbol with the name exactly if there is one, whatever the hash function. |
| ElfLoader.FindDynamicSymbolAddress | runtime/elf_file.cc:760-774 | The address of a symbol of the file as written, shifted by the load address, or nothing if the builder made no such symbol. |
| ElfLoader.ComputeFields | runtime/oat_file.cc:206-257 | From bytes of symbols, chain and names the runtime learns exactly where data and code begin and end and where .bss and its parts are, as they were written; it refuses only files with neither code nor data. |
| ElfDynamic.PredictionsHold | compiler/elf_builder.h:681-766 | For sections of the announced sizes, with or without .bss and .MIPS.abiflags, the predicted .text, .bss, .dynstr, .dynsym and .hash addresses are the actual ones; the .bss section number is right iff .text is not empty. |
| ElfDynamic.EmptyTextMisnumbers | compiler/elf_builder.h:715-717 | Without code and with a .bss section, the number given to .bss is that of the empty .text section. |
| ElfDynamic.LoadedSizeHolds | compiler/elf_builder.h:763-791 | The predicted loaded size equals the actual one iff hash address plus symbol size and hash address plus hash size round up to the same page. |
| ElfDynamic.ShortNamesAreFine | compiler/elf_builder.h:763-791 | It does for every file name of up to 3000 characters. |
| ElfDynamic.LongNameFails | compiler/elf_builder.h:768-790 | With a name of 3972 characters it does not, and the CHECK fires. |
| ElfDynamic.WriteDynamicSection | compiler/elf_builder.h:784-791 | .dynstr, .dynsym, .hash and .dynamic in this order. |
| ElfDynamic.WriteSections | compiler/elf_writer_quick.cc:171-233 | The writer's calls produce the sections of the specification in order. |
| ElfDynamic.WriterIsWellOrdered | compiler/elf_writer_quick.cc:225-233 | The writer's order satisfies the ordering condition. |
| ElfDynamic.WriterNeverAborts | compiler/elf_builder.h:954-957 | In the writer's order the alignment CHECK never fires. |
| ElfDynamic.OatSegmentsAreRight | compiler/elf_builder.h:908-960 | So the segments of every oat file are congruent, ascending and map each section at its address. |
| CfgDump.BranchTargets | dexdump/dexdump_cfg.cc:38-68 | Exactly the 32-bit targets of all branches and switches. |
| CfgDump.BuildNodes | dexdump/dexdump_cfg.cc:74-139 | Exactly block starts have node ids, numbered in order, and every instruction maps to the node that contains it. |
| CfgDump.SameBlockSameNode | dexdump/dexdump_cfg.cc:81-97 | All instructions of a block have the number of its first one. |
| CfgEdges.Enter | dexdump/dexdump_cfg.cc:166-195 | At each instruction `last_node_id` is the node that contains it, and a regular edge is drawn iff control falls through into a block start. |
| CfgEdges.VisitJump | dexdump/dexdump_cfg.cc:206-252 | A taken edge is drawn exactly for each branch or switch target that is an instruction. |
| CfgEdges.VisitHandlers | dexdump/dexdump_cfg.cc:168-265 | The handler set of the current block, its clearing when handlers change, and the blocks marked for the second pass. |
| CfgEdges.FirstPass | dexdump/dexdump_cfg.cc:151-287 | After the first pass every exception edge drawn belongs to an instruction of its block, and every instruction is covered or in a marked block. |
| CfgEdges.VisitBlock | dexdump/dexdump_cfg.cc:294-329 | The second pass goes through exactly the instructions of one block and draws the edges of each from that instruction. |
| CfgEdges.SecondPass | dexdump/dexdump_cfg.cc:290-331 | After all marked blocks every instruction is covered. |
| CfgEdges.NothingMissing | dexdump/dexdump_cfg.cc:160-331 | Every handler of every instruction has an edge from the whole block or from that instruction; every edge belongs to an instruction of its block with that handler, and an edge that leaves at an instruction belongs to that very one. |
| CfgEdges.DumpMethodCfg | dexdump/dexdump_cfg.cc:31-331 | The whole dump has exactly the specified nodes and edges, whichever pass drew them. |
| CfgFlow.StepsAreDrawn | dexdump/dexdump_cfg.cc:160-252 | Against an independent meaning of instructions: control can pass from one instruction to another exactly if the dump has a regular or taken edge between them or the second follows the first inside a node. |
| CfgFlow.EdgesAreSteps | dexdump/dexdump_cfg.cc:160-252 | Every regular or taken edge is such a step between two instructions. |
| CfgFlow.BlocksAreBasic | dexdump/dexdump_cfg.cc:74-139 | Jumps arrive only at the first instruction of a node and leave only behind its last. |
| Leb128.DecodeUnsigned | runtime/leb128.h:31-54 | Any form of one to five bytes is read, garbage in the top bits of a fifth byte ignored, and the cursor ends behind it. |
| Leb128.DecodeSigned | runtime/leb128.h:110-141 | The same with sign extension from the last bit present. |
| Leb128.EncodeUnsigned | runtime/leb128.h:212-222 | The encoding of every 32-bit value is one that decodes to it. |
| Leb128.EncodeSigned | runtime/leb128.h:250-262 | The same for every signed 32-bit value, whose sign decides how many bytes are needed. |
| EncodedValues.ShiftExtends | dexlayout/dex_ir.cc:35-38 | The 64-bit shifts up and down extend the sign of an n-byte number. |
| EncodedValues.ReadVarWidth | dexlayout/dex_ir.cc:30-40 | The little-endian value of up to eight bytes, sign-extended on request. |
| EncodedValues.ReadNumber | dexlayout/dex_ir.cc:224-289 | Every kind of number in every permitted width: signed integers extended, floats filled on the right. |
| EncodedValues.ReadEncodedValue | dexlayout/dex_ir.cc:207-321 | For every nested value in any permitted encoding the value is returned and the cursor advances by exactly the encoded length; a code the format does not define gives an empty value. |
| EncodedValues.ReadItems | dexlayout/dex_ir.cc:290-299 | Array elements in order. |
| EncodedValues.ReadPairs | dexlayout/dex_ir.cc:300-312 | Names and values of an annotation in order. |
| DebugInfo.GetDebugInfoStreamSize | dexlayout/dex_ir.cc:60-106 | For every header and opcode list followed by any bytes, exactly the encoded length; zero bytes inside operands are never taken for the end. |
| DebugInfo.SkipOperands | dexlayout/dex_ir.cc:71-103 | Each opcode consumes exactly its operands. |
| CatchHandlers.Next | runtime/dex_file.cc:1574-1591 | One step of the iterator over the handlers of an entry. |
| CatchHandlers.IterateEntry | runtime/dex_file.cc:1558-1591 | The iterator delivers exactly the type and address pairs of an entry, the catch-all last. |
| CatchHandlers.ReadEntry | dexlayout/dex_ir.cc:632-658 | The direct decoding of an entry gives the same pairs and stops behind the entry. |
| CatchHandlers.FindHandler | dexlayout/dex_ir.cc:596-602 | A handler is found by offset iff its entry was already decoded. |
| CatchHandlers.FromTries | dexlayout/dex_ir.cc:588-618 | The first phase decodes each entry named by a try item once. |
| CatchHandlers.AddMissing | dexlayout/dex_ir.cc:619-661 | The second phase walks the list, terminates before its end, and leaves one handler per entry. |
| CatchHandlers.CreateHandlers | dexlayout/dex_ir.cc:586-662 | Exactly one handler per encoded entry, with distinct offsets and the right pairs, and two try items share a handler iff their offsets are equal; code without try items gets none. |

## Left out

- The object reference visitor of class pruning (compiler/image_writer.cc:746-807): it cuts visited objects without reporting an early exit, so the exactness result does not extend through instance fields.
- The type and string loops of the dex cache pruning (compiler/image_writer.cc:1121-1152): they rely on side effects of lookup.
- Objects held live only by the boot image (compiler/image_writer.cc:1739-1758): a second run of the same work stack, which also rewrites boot objects.
- Frame sizes and spill masks of deduplicated methods: they are not part of the dedupe key, so the header of the first method stands for all, as `OatLookup.SharedCodeIsSeen` states.
- Bytes of patches and thunks, InitBssLayout's slot numbers and InitImageMethodVisitor: patching is a parameter that keeps the code's length.
- Several oat files with one relative patcher (compiler/oat_writer.cc:3312-3322): a single file is modelled, so offsets are not adjusted between files.
- Statistics counters, checksums, the oat header and its key-value store, dex file copying, verifier dependencies.
- Failing streams: a write always succeeds.
- Dex cache arrays inside their block: each dex file's block is one native item.
- Native roots and pointer arrays of classes, intern and class table contents, image bitmap and compression.
- UpdateOatFileLayout and the oat file addresses kept per image.
- The bytes of the string and hash sections, which are characters and words here, the build id digest and debug sections: sections behind the dynamic section are arbitrary ones that are not loaded.
- Text and record output of dexdump, and the positions and locals callbacks of dex_ir.
- GC, locks, the rest of the read barrier, class linker, option parsing, the cmdline directory, thread pools.
- ImageWriting.WriteImages: stops where a mirror bin has outgrown its slots, a case in which release builds of the source go on with damaged slots; and lays objects out after the walk, in the same order in which the source does so during the walk.
- OatPasses.VisitInitCode: method debug info and the lists of absolute patches, which do not influence offsets.
- ElfLoader.ComputeFields: takes the contents of sections as they were built (that they are mapped at their addresses is `ElfSegments.SegmentsAreRight`); a requested base address, pointer checks and dlopen are not modelled.
- CfgEdges.DumpMethodCfg: edges are sets, so an edge that the text repeats counts once.
- ImagePrune.Pruner.PruneAppImageClassInternal: objects behind static fields stand for their classes; what they refer to is not followed.
- ImageLayout.Layouter.AssignImageBinSlot: an object that is thin or fat locked aborts the source and is excluded by the precondition.
- CatchHandlers.CreateHandlers: lists of 65536 bytes or more, whose 16-bit offsets wrap, are excluded, as are try items that name no entry.
