# FlatBuffers, FlexBuffers and a line framer, modelled and proved in Dafny

The project models the serialization library that the repository carries, its
text and hash helpers, and the line framer of the Bluetooth remote.

* **FlatBuffers.** `VectorDownward` is the two-ended memory block as an object
  over an array. `BuilderSpec` says what each builder call does to the bytes,
  the vtables and the tracked fields, with positions counted from the end;
  `FlatBufferBuilder` is the builder as an object over `VectorDownward`, whose
  loops and scratch area refine it. `Layout`, `Writing`, `Tables`, `Runs`,
  `RunInvariant` and `Finishing` prove what every legal sequence of calls
  keeps. `Reader` has the accessors, bounds-checked, and `ReadBack` proves that
  they return what was built. `VerifierSpec` is the buffer verifier as a
  function and `Verifier` the object with its 32-bit counters; soundness,
  budget, completeness, exactly what is accepted (`VerifierExact`), the need for
  the even-size check and the exact limits of the budget (`VerifierLimits`) have
  a file each. `StoredTables` and `Alignments` say what vtables and the recorded
  alignment hold. `BuiltBuffers` joins
  builder, verifier and reader. In `Programs` calls name the results of earlier
  calls instead of offsets, so that one program can be played under any
  settings, and `ProgramTrees` proves that the settings cannot be seen in what
  is read. `BuilderRuns` drives the object through whole runs and shows that it
  holds the bytes these results are about. `Reflection` gives the nine tables of
  the reflection schema and their generated Create functions. `Ordering`,
  `Sorting`, `SortedTables` and `SortedBuffers` are about sorted vectors of
  tables.
* **FlexBuffers.** `FlexWidth` and `FlexTypes` choose and pack widths,
  `FlexSpec` says what each call does to the buffer and the value stack,
  `FlexBuilder` is the builder as an object, and `FlexReader`, `FlexDecode` and
  `FlexLookup` are the accessors. The central statement is that the builder is
  a stack machine on bytes that implements a stack machine on trees
  (`FlexRuns`, `FlexInvariant`, `FlexPools`, `FlexMaps`, `FlexRoundTrip`,
  `FlexReuse`, `FlexTrees`, `FlexSharing`), with a bound on the memory a run
  takes (`FlexMemory`), the exact effect of embedded NULs (`FlexNuls`), typed
  vectors of strings (`FlexStringVectors`), least widths (`FlexLeast`), forced
  ones (`FlexForce`), and updates in place (`FlexMutate`, with an example of a
  wide boolean in `FlexWideBool`).
* **Text and hashes.** `Utf8` states RFC 3629, `Utf8Codec` the conversion
  routines with their bit operations, `JsonEscape` string escaping with a JSON
  reader by RFC 8259, and `Fnv` the two hashes at two widths.
* **Line framer.** `LineFramer` has the receiving loop and the two threads as
  a state machine over reads, copies and clears.

Memory is a sequence or an array of bytes, little endian, with unbounded
positions; `size_t` wrap-around is written out where it matters (negation in
`PaddingBytes`, the verifier's vtable position, FlexBuffers offsets). An
assertion of the library is a precondition, or is proved never to fire.
Buffers are below 2^31 - 1 bytes where the library asks for that.

Where code and documentation differ, the code is followed. The 64-bit FNV
offset basis in `hash.h` ends in `22645`, not in the published `22325`; the
separation result does not depend on it. `get_data` clears the shared list
outside its lock and the receiving thread appends without it, so copy, clear
and append are separate steps. `MutateBool` copies as many bytes as the field
is wide from a boolean of one byte; what it reads behind the boolean is any
bytes here. The identifier check of a size-prefixed buffer may read behind a
buffer of fewer than twelve bytes; those are any bytes too.

## Model

| member | source | states |
|---|---|---|
| `Alignment.PaddingBytes` | flatbuffers/flatbuffers/base.h:393-395 | for every size and every power of two the two's complement bit trick gives fewer bytes than the alignment, and adding them aligns the size |
| `Alignment.PaddingIsLeast` | flatbuffers/flatbuffers/base.h:393-395 | no smaller number of bytes would align the buffer |
| `Alignment.MaskTestsDivisibility` | flatbuffers/flatbuffers/flatbuffers.h:2170-2172 | the alignment mask of the verifier is zero exactly on the multiples of the scalar size |
| `VectorDownward.Grown` | flatbuffers/flatbuffers/flatbuffers.h:1013-1019 | the new block has room for the request, is at least half as large again, or as large as the initial size if it is the first, and is the least multiple of the minimum alignment that is |
| `VectorDownward.Vector.MemcpyDownward` | flatbuffers/flatbuffers/flatbuffers.h:617-623 | copies exactly the bytes in use at both ends into the larger block |
| `VectorDownward.Vector.Reallocate` | flatbuffers/flatbuffers/flatbuffers.h:1013-1028 | moves to a larger block; the data stack and the scratch stack keep their contents and at least the requested bytes lie free between them |
| `VectorDownward.Vector.EnsureSpace` | flatbuffers/flatbuffers/flatbuffers.h:904-911 | afterwards at least the requested bytes are free and neither stack has changed; the invariant keeps the two regions apart and the bytes copied so far within twice the block |
| `VectorDownward.Vector.MakeSpace` | flatbuffers/flatbuffers/flatbuffers.h:913-917 | the data stack grows in front by the requested length, everything behind and the scratch stack stay |
| `VectorDownward.Vector.Push` | flatbuffers/flatbuffers/flatbuffers.h:949-957 | the bytes go in front of the data, nothing else changes, and pushing nothing needs no space |
| `VectorDownward.Vector.Fill` | flatbuffers/flatbuffers/flatbuffers.h:965-970 | zeros go in front of the data, nothing else changes |
| `VectorDownward.Vector.Pop` | flatbuffers/flatbuffers/flatbuffers.h:978 | removes from the front of the data only |
| `VectorDownward.Vector.ScratchPush` | flatbuffers/flatbuffers/flatbuffers.h:959-963 | appends to the scratch stack without touching the data, reallocating if needed |
| `VectorDownward.Vector.ScratchPop` | flatbuffers/flatbuffers/flatbuffers.h:979 | removes from the end of the scratch stack only |
| `VectorDownward.Vector.ReadAt` | flatbuffers/flatbuffers/flatbuffers.h:947 | an offset from the end designates the same bytes wherever the block lies |
| `VectorDownward.Vector.WriteAtOffset` | flatbuffers/flatbuffers/flatbuffers.h:947 | writing at an offset changes exactly those bytes of the data |
| `VectorDownward.CopiedAtMostTwice` | flatbuffers/flatbuffers/flatbuffers.h:1013-1028 | for every feasible history of reallocations at an alignment above one, at most twice the final block is copied |
| `VectorDownward.OddSizesCopyMore` | flatbuffers/flatbuffers/flatbuffers.h:1013-1028 | with one-byte alignment a history of nine reallocations copies 57 bytes for a block of 28 |
| `VectorDownward.AmortisedGrowth` | flatbuffers/flatbuffers/flatbuffers.h:1013-1028 | the bound of twice the block holds for all histories if and only if the alignment is more than one byte |
| `BuilderSpec.AtStable` | flatbuffers/flatbuffers/flatbuffers.h:947 | what an offset from the end designates does not change while the buffer grows |
| `Writing.PushElementWrites` | flatbuffers/flatbuffers/flatbuffers.h:1244-1274 | every scalar lands on a multiple of its size from the end, its size divides the recorded alignment, it is stored little endian, and everything before is kept |
| `Writing.PushOffsetWrites` | flatbuffers/flatbuffers/flatbuffers.h:1276-1279 | the stored forward offset leads from where it lies to the object it names |
| `Writing.CreateStringWrites` | flatbuffers/flatbuffers/flatbuffers.h:1452-1459 | the new object is a length, the characters and a terminator, aligned for its length, with the least padding, and the recorded alignment rises to four |
| `Writing.CreateScalarVectorWrites` | flatbuffers/flatbuffers/flatbuffers.h:1561-1612 | the elements follow their length directly and each is aligned to its size from the end, with the least padding, and the recorded alignment rises to what they need |
| `Writing.CreateOffsetVectorWrites` | flatbuffers/flatbuffers/flatbuffers.h:1619-1623 | element i of the vector leads to reference i, although the elements are written last to first, with the least padding |
| `Tables.AddAllKeeps` | flatbuffers/flatbuffers/flatbuffers.h:1291-1312 | after any sequence of AddElement and AddOffset that writes no field twice, in particular one that sets a field again after its value was omitted as the default, the tracked locations are exactly the fields that were written, and hold their values |
| `Tables.VTableBytesRead` | flatbuffers/flatbuffers/flatbuffers.h:1356-1386 | the vtable has its size, the table size, and for every field its distance from the table or zero |
| `Tables.FindVTableFinds` | flatbuffers/flatbuffers/flatbuffers.h:1388-1399 | the search returns a remembered vtable with equal bytes, or none has them |
| `Tables.CanEnd` | flatbuffers/flatbuffers/flatbuffers.h:1350-1386 | in any state reached by adding fields the assertions and reads of EndTable are safe |
| `Tables.EndTableWrites` | flatbuffers/flatbuffers/flatbuffers.h:1350-1412 | ending a table makes it readable with exactly the fields added, all of them within the table size its vtable stores, keeps every earlier object and vtable intact, and uses a remembered vtable only with deduplication on, a new one only if no equal one was remembered or deduplication is off |
| `StoredTables.TableSizeIsStored` | flatbuffers/flatbuffers/flatbuffers.h:1362-1369 | after a table is made, and whatever is built later, the vtable it uses, shared or its own, stores its own size and the distance from where the table was started to its offset; every stored field ends within that, and the vtable ends with the last stored field |
| `StoredTables.StoredIff` | flatbuffers/flatbuffers/flatbuffers.h:1291-1301 | a field has a place in the table if and only if some call set it to other than its default, or to a default while defaults are forced, or to a reference that is not null |
| `StoredTables.SharesIff` | flatbuffers/flatbuffers/flatbuffers.h:1387-1400 | a table shares a remembered vtable if and only if deduplication is on and one with the same bytes is remembered; otherwise it gets a new one in front of everything, which is remembered |
| `RunInvariant.SharedStringShares` | flatbuffers/flatbuffers/flatbuffers.h:1514-1531 | one call: known contents give their old offset and leave the builder exactly as it was; new contents get a new offset |
| `RunInvariant.StepKeeps` | flatbuffers/flatbuffers/flatbuffers.h:1242-1631 | each construction keeps every object readable at its offset, references closed, vtables live and pooled strings distinct |
| `RunInvariant.Run` | flatbuffers/flatbuffers/flatbuffers.h:1242-1631 | the invariant holds after every legal sequence of constructions |
| `RunInvariant.RunPreserves` | flatbuffers/flatbuffers/flatbuffers.h:1242-1631 | over a whole run no offset changes its object and no byte of an object changes |
| `RunInvariant.RunTidy` | flatbuffers/flatbuffers/flatbuffers.h:1388-1400 | between tables the remembered vtables are exactly those in use, intact, and pairwise different if deduplication was always on |
| `RunInvariant.StringsAreShared` | flatbuffers/flatbuffers/flatbuffers.h:1514-1531 | over any run after it, sharing the same contents again yields the same offset and changes nothing, and different contents never yield that offset |
| `Programs.RunsArePlays` | flatbuffers/flatbuffers/flatbuffers.h:1242-1631 | every legal run plays some program, in which references name earlier calls instead of offsets |
| `Programs.PlayedPlays` | flatbuffers/flatbuffers/flatbuffers.h:1235-1239 | a program that stays within the limits under some setting of sharing, deduplication and forced defaults has a run under that setting that plays it |
| `Finishing.FinishWrites` | flatbuffers/flatbuffers/flatbuffers.h:2002-2017 | with or without identifier and size prefix, the finished buffer is a multiple of the largest alignment in it and its header leads to the root |
| `Finishing.FinishIsTight` | flatbuffers/flatbuffers/flatbuffers.h:2002-2017 | no more is added than the header and the least padding |
| `Alignments.RunMinalign` | flatbuffers/flatbuffers/flatbuffers.h:1244-1246 | over any run the recorded alignment is exactly the largest that anything built needs, a default that is not written needing none |
| `FlatBufferBuilder.Builder.Align` | flatbuffers/flatbuffers/flatbuffers.h:1244-1251 | does what the specification of Align does to the whole builder state |
| `FlatBufferBuilder.Builder.PushElement` | flatbuffers/flatbuffers/flatbuffers.h:1268-1274 | aligns, pushes and returns the size, as specified |
| `FlatBufferBuilder.Builder.TrackField` | flatbuffers/flatbuffers/flatbuffers.h:1283-1288 | appends the encoded location to the scratch area and raises the largest field offset |
| `FlatBufferBuilder.Builder.AddElement` | flatbuffers/flatbuffers/flatbuffers.h:1291-1296 | skips a default value unless forced, otherwise pushes and tracks it |
| `FlatBufferBuilder.Builder.AddOffset` | flatbuffers/flatbuffers/flatbuffers.h:1298-1301 | skips a null offset, otherwise aligns first and stores the distance |
| `FlatBufferBuilder.Builder.CreateString` | flatbuffers/flatbuffers/flatbuffers.h:1452-1459 | refines the specified string construction |
| `FlatBufferBuilder.Builder.CreateSharedString` | flatbuffers/flatbuffers/flatbuffers.h:1514-1531 | refines the specified tentative write, lookup and rollback |
| `FlatBufferBuilder.Builder.CreateVector` | flatbuffers/flatbuffers/flatbuffers.h:1597-1617 | refines the specified scalar vector |
| `FlatBufferBuilder.Builder.CreateVectorOfOffsets` | flatbuffers/flatbuffers/flatbuffers.h:1619-1623 | the loop from the last element to the first refines the specified vector of offsets |
| `FlatBufferBuilder.Builder.WritePositions` | flatbuffers/flatbuffers/flatbuffers.h:1372-1384 | the loop over the scratch area writes every tracked position into the vtable; the assertion that a slot is unset never fires |
| `FlatBufferBuilder.Builder.ShareVTable` | flatbuffers/flatbuffers/flatbuffers.h:1387-1399 | the loop over remembered vtables finds the first equal one and drops the new one, or keeps it |
| `FlatBufferBuilder.Builder.EndTable` | flatbuffers/flatbuffers/flatbuffers.h:1350-1412 | refines the specified EndTable on the whole state, including the scratch area |
| `FlatBufferBuilder.Builder.Finish` | flatbuffers/flatbuffers/flatbuffers.h:2002-2017 | refines the specified Finish |
| `BuilderRuns.CreateTable` | flatbuffers/flatbuffers/reflection_generated.h:786-803 | starting a table, adding the fields and ending it on the object: wherever the step of a run is legal no assertion fires, and it leaves the state and returns the offset of that step |
| `BuilderRuns.CreateVectorOfSortedTables` | flatbuffers/flatbuffers/flatbuffers.h:1890-1894 | sorts the offsets of the caller in place and makes the vector of them: the step of a run on the sorted offsets |
| `BuilderRuns.Perform` | flatbuffers/flatbuffers/flatbuffers.h:1242-1631 | every construction on the object does its step of a run |
| `BuilderRuns.PerformAll` | flatbuffers/flatbuffers/flatbuffers.h:1242-1631 | the object carries out every legal run and ends in its state |
| `BuilderRuns.RunBelow` | flatbuffers/flatbuffers/flatbuffers.h:1350-1412 | a run whose last buffer leaves room for one more vtable never passes the size limit in between |
| `BuilderRuns.BuildBuffer` | flatbuffers/flatbuffers/flatbuffers.h:2002-2017 | a new object that carries out a run and finishes holds exactly the finished bytes of which verification and reading back are proved |
| `ReadBack.ReadsFieldOffset` | flatbuffers/flatbuffers/flatbuffers.h:2424-2432 | for every table the field lookup returns the vtable's entry for a set field and zero for any other |
| `ReadBack.ReadsScalarField` | flatbuffers/flatbuffers/flatbuffers.h:2434-2437 | a scalar getter returns the value that was set, and the default when it was omitted or never set |
| `ReadBack.ReadsRefField` | flatbuffers/flatbuffers/flatbuffers.h:2439-2447 | a pointer getter leads to the object that was set, or is null |
| `ReadBack.ReadsTable` | flatbuffers/flatbuffers/flatbuffers.h:2416-2482 | following every accessor of a table type from an offset gives the tree that was built there |
| `BuiltBuffers.BuiltBufferReadsBack` | flatbuffers/flatbuffers/flatbuffers.h:2002-2017 | for every run and every finish, reading from the root returns exactly the tree built, defaults included |
| `BuiltBuffers.BuiltBufferVerifies` | flatbuffers/flatbuffers/flatbuffers.h:2270-2299 | for every run the verifier accepts the finished buffer, with its size prefix and identifier checked if it has them, if and only if the tree is within its depth and table limits, the greatest table limit being none |
| `BuiltBuffers.BuiltBufferCounts` | flatbuffers/flatbuffers/flatbuffers.h:2322-2332 | of an accepted buffer exactly the tables of the tree were started, nested as deep as the tree |
| `ProgramTrees.PlayBuilds` | flatbuffers/flatbuffers/flatbuffers.h:1242-1631 | whatever a play shares, deduplicates or forces, what it builds is the tree the program describes |
| `ProgramTrees.SettingsAreInvisible` | flatbuffers/flatbuffers/flatbuffers.h:1388-1399 | any two plays of one program, with strings shared or not, and the deduplication and default switches thrown anywhere, read back as the same tree and get the same verdict from the verifier |
| `ProgramTrees.ReplaysAgree` | flatbuffers/flatbuffers/flatbuffers.h:1514-1531 | the same program under two fixed settings decodes to the same tree, in particular with shared strings and without |
| `BuiltBuffers.ScalarFieldAligned` | flatbuffers/flatbuffers/flatbuffers.h:1438-1441 | for every run and every finish, every stored scalar field is aligned from the start of the finished buffer |
| `BuiltBuffers.ScalarElementsAligned` | flatbuffers/flatbuffers/flatbuffers.h:1561-1572 | for every run and every finish, every scalar vector has its elements aligned from the start of the finished buffer |
| `BuiltBuffers.EmptyTableCanBeBuilt` | flatbuffers/flatbuffers/flatbuffers.h:1341-1412 | in every schema a table without required fields can be built and finished on its own, so the two results before hold of something |
| `VerifierSpec.VerifyOffset` | flatbuffers/flatbuffers/flatbuffers.h:2301-2312 | a non-zero result is the stored offset and leads inside the buffer |
| `VerifierSpec.VerifyVectorOrString` | flatbuffers/flatbuffers/flatbuffers.h:2220-2234 | a non-zero end is that of a vector whose length and elements lie inside the buffer |
| `VerifierSpec.VerifyTableStart` | flatbuffers/flatbuffers/flatbuffers.h:2256-2268 | a start that succeeds raises both 32-bit counters by one, modulo 2^32, and stays within both limits |
| `VerifierSpec.BehindIsIgnored` | flatbuffers/flatbuffers/flatbuffers.h:2270-2299 | the identifier check, as written, may compare bytes behind a size-prefixed buffer of fewer than twelve bytes; whatever lies there, the outcome is that of a check that stays inside, because such a buffer has no room for a root table |
| `VerifierSpec.StartMakesReadable` | flatbuffers/flatbuffers/flatbuffers.h:2256-2268 | a table start that succeeds makes the lookup of every field stay inside |
| `VerifierSoundness.TableSound` | flatbuffers/flatbuffers/reflection_generated.h:727-744 | if the generated chain of a table succeeds, every getter on every reachable table, string and vector element reads inside the buffer, the tree is within the depth limit and any table limit below the greatest, and the table starts were nested exactly as deep as the tree |
| `VerifierSoundness.BufferSound` | flatbuffers/flatbuffers/flatbuffers.h:2270-2299 | the same from the root, for arbitrary bytes, with or without a size prefix |
| `VerifierExact.BufferExact` | flatbuffers/flatbuffers/flatbuffers.h:2270-2299 | any bytes are accepted if and only if the size prefix and the identifier asked for are there, every accessor followed from the root finds aligned, terminated and complete objects inside the buffer, and the tree is within the limits; the tree read from such bytes lacks no required field |
| `VerifierExact.TableExact` | flatbuffers/flatbuffers/flatbuffers.h:2484-2517 | the same of the generated chain on any table, from any counters that cannot wrap |
| `VerifierExact.GoodTableReads` | flatbuffers/flatbuffers/reflection_generated.h:203-211 | bytes that are well formed from a table on read as a tree in which no required field is null, through all subtables and vectors of tables |
| `VerifierNecessity.EvenSizeIsNeeded` | flatbuffers/flatbuffers/flatbuffers.h:2263-2267 | a concrete buffer passes every check but the even vtable size, and a field lookup leaves it |
| `VerifierBudget.TableBudget` | flatbuffers/flatbuffers/flatbuffers.h:2322-2332 | on arbitrary bytes, from counters within the limits, every start that is let through is within the depth limit, the depth never exceeds it by more than one failing start, and neither does the table count when its limit is below the greatest |
| `VerifierBudget.BufferBudget` | flatbuffers/flatbuffers/flatbuffers.h:2322-2332 | on arbitrary bytes no table start is let through at a depth beyond the limit, at most one is tried beyond it, with any table limit below 2^32 - 1 at most that number succeed, and success restores the depth |
| `VerifierLimits.TableLimitHoldsIff` | flatbuffers/flatbuffers/flatbuffers.h:2322-2326 | the table limit bounds the table starts for all schemas and all bytes if and only if it is not 2^32 - 1 |
| `VerifierLimits.CountWraps` | flatbuffers/flatbuffers/flatbuffers.h:2322-2326 | with that limit a buffer of tables that share their children is accepted after more than 2^32 - 1 starts, the 32-bit count having wrapped |
| `VerifierCompleteness.TableVerifies` | flatbuffers/flatbuffers/flatbuffers.h:2484-2517 | on a built table the generated chain succeeds exactly when depth and count fit, counts exactly the tables of the tree, and nests exactly as deep |
| `Verifier.Verifier.VerifyTableStart` | flatbuffers/flatbuffers/flatbuffers.h:2256-2268 | the method with its counters does what the specification says |
| `Verifier.Verifier.VerifyVectorOfStrings` | flatbuffers/flatbuffers/flatbuffers.h:2237-2244 | the loop checks every string of the vector and stops at the first bad one |
| `Verifier.Verifier.VerifyVectorOfTables` | flatbuffers/flatbuffers/flatbuffers.h:2247-2254 | the loop verifies every table of the vector, carrying the counters along |
| `Verifier.Verifier.VerifyTable` | flatbuffers/flatbuffers/reflection_generated.h:1079-1097 | the recursive chain refines its specification, terminates, and ends with the specified counters |
| `Verifier.Verifier.VerifyBuffer` | flatbuffers/flatbuffers/flatbuffers.h:2289-2293 | refines the specified check of a whole buffer |
| `Verifier.Verifier.VerifySizePrefixedBuffer` | flatbuffers/flatbuffers/flatbuffers.h:2295-2299 | refines the check of a size-prefixed buffer: the prefix, then the rest from behind it |
| `Reflection.SchemaIsOk` | flatbuffers/flatbuffers/reflection_generated.h:114-1097 | the nine table types of the reflection schema are well formed: even field offsets, known kinds, required fields only among references |
| `Reflection.OrderIsPermutation` | flatbuffers/flatbuffers/reflection_generated.h:172-1148 | each generated Create function adds every field of its table once, in its own order |
| `Reflection.GeneratedCreateIsTyped` | flatbuffers/flatbuffers/reflection_generated.h:786-803 | a generated Create call with its required arguments is legal and yields a table of its type |
| `Reflection.SmallTableFits` | flatbuffers/flatbuffers/flatbuffers.h:1366-1368 | the table size assertion cannot fire for a table with at most sixteen fields |
| `Reflection.TypedStable` | flatbuffers/flatbuffers/reflection_generated.h:114-1097 | a table keeps its type whatever is built later |
| `Ordering.StringOrderIsStrictTotal` | flatbuffers/flatbuffers/flatbuffers.h:549-553 | comparing the common prefix and then the lengths is a strict total order, so the string pool tells exactly equal contents together |
| `Ordering.StrCmpSign` | flatbuffers/flatbuffers/reflection_generated.h:198-200 | strcmp on terminated strings has the sign of the lexicographic comparison |
| `Sorting.SortContents` | flatbuffers/flatbuffers/flatbuffers.h:1890-1894 | sorting keeps the elements and their multiplicities |
| `Sorting.SortSorts` | flatbuffers/flatbuffers/flatbuffers.h:1890-1894 | sorting with any strict total order on the keys puts them in that order |
| `Sorting.SortedIsUnique` | flatbuffers/flatbuffers/flatbuffers.h:1890-1894 | with distinct keys there is only one sorted order, so any correct sort gives this one |
| `Sorting.BSearchFinds` | flatbuffers/flatbuffers/flatbuffers.h:344-352 | binary search finds a match whenever one exists in an ordered vector |
| `SortedTables.SortByKeySorts` | flatbuffers/flatbuffers/flatbuffers.h:1863-1894 | the vector of sorted tables holds the given tables in the order of their keys, strings or signed 64-bit numbers |
| `SortedTables.LookupFindsExactly` | flatbuffers/flatbuffers/flatbuffers.h:344-378 | a lookup by string or number returns a table with that key exactly when the vector has one |
| `SortedBuffers.SortedVectorLookup` | flatbuffers/flatbuffers/flatbuffers.h:1890-1894 | after any run, CreateVectorOfSortedTables on keyed tables, any further run and Finish, a lookup in the finished buffer succeeds exactly for the keys of those tables and leads to one of them with that key |
| `SortedTables.SortedStep` | flatbuffers/flatbuffers/flatbuffers.h:1890-1894 | sorting the references and making their vector is the step of a run that leaves the state of CreateVectorOfSortedTables |
| `SortedTables.KeyOrder` | flatbuffers/flatbuffers/reflection_generated.h:274-279 | the comparison of keys is a strict total order, on numbers and on strings |
| `SortedTables.TypedIsKeyed` | flatbuffers/flatbuffers/reflection_generated.h:195-288 | every well-typed table of the seven keyed types of the reflection schema has its key: the value of an enum value, the name of the others |
| `FlexWidth.WidthUIsLeast` | flatbuffers/flatbuffers/flexbuffers.h:183-193 | the mask tests give the least width that holds the value |
| `FlexWidth.WidthIIsLeast` | flatbuffers/flatbuffers/flexbuffers.h:195-198 | shifting and complementing gives the least width whose two's complement range holds the value |
| `FlexWidth.OffsetWidthFits` | flatbuffers/flatbuffers/flexbuffers.h:1427-1454 | the loop over widths always returns before its assertion, with a width the offset needs exactly |
| `FlexWidth.EstimateSuffices` | flatbuffers/flatbuffers/flexbuffers.h:1427-1454 | an estimate at an element's own width and at an index past its place is enough at every width the vector may take |
| `FlexLeast.VectorWidthIsLeast` | flatbuffers/flatbuffers/flexbuffers.h:1513-1537 | a vector takes the least width that is no smaller than the forced one and serves its length, the offset to its keys and every element, an offset being served by any width at or above one at which it fits from its place |
| `FlexForce.VectorTakesLeast` | flatbuffers/flatbuffers/flexbuffers.h:1085-1091 | ending a vector takes the least width that serves, each element at the index it has on the stack |
| `FlexForce.MapTakesLeast` | flatbuffers/flatbuffers/flexbuffers.h:1128-1142 | the same for the keys and the values of a map, the values with the offset to the keys |
| `FlexLeast.RunTight` | flatbuffers/flatbuffers/flexbuffers.h:935-1039 | after any run every scalar, string and blob on the stack has the least width for it |
| `FlexLeast.ScalarsTakeLeast` | flatbuffers/flatbuffers/flexbuffers.h:1513-1537 | a vector of scalars takes the least width that is no smaller than the forced one and holds the length and every element |
| `FlexTypes.TypedVectorTypes` | flatbuffers/flatbuffers/flexbuffers.h:92-123 | the reader recovers element type and length from the vector type; for fixed lengths if and only if the elements are numbers |
| `FlexTypes.FixedNonNumbers` | flatbuffers/flatbuffers/flexbuffers.h:92-123 | fixed vectors of keys and strings read as numbers one element longer, or as a blob or boolean at length four, and fixed vectors of booleans as an unknown type |
| `FlexTypes.PackRoundTrip` | flatbuffers/flatbuffers/flexbuffers.h:802-804 | width and type survive being packed into a byte |
| `FlexVectors.ElementWidthSuffices` | flatbuffers/flatbuffers/flexbuffers.h:1508-1552 | at the width the vector takes every element fits at its place |
| `FlexVectors.HeadWidthSuffices` | flatbuffers/flatbuffers/flexbuffers.h:1508-1552 | the size and the offset to the keys fit that width too |
| `FlexReader.ObjStable` | flatbuffers/flatbuffers/flexbuffers.h:1341-1343 | appending to the buffer never changes what an object shows |
| `FlexObjects.VectorShows` | flatbuffers/flatbuffers/flexbuffers.h:1508-1563 | an untyped vector reads back as its elements, each with its type |
| `FlexObjects.TypedVectorShows` | flatbuffers/flatbuffers/flexbuffers.h:1508-1563 | a typed vector of numbers, fixed or not, of keys or of booleans reads back as its elements |
| `FlexStringVectors.StringVectorShows` | flatbuffers/flatbuffers/flexbuffers.h:616-625 | a typed vector of strings, which the builder still writes, reads back as a typed vector of keys, each string cut at its first NUL |
| `FlexObjects.MapShows` | flatbuffers/flatbuffers/flexbuffers.h:1513-1563 | a map reads back as its keys and its values |
| `FlexObjects.BlobShows` | flatbuffers/flatbuffers/flexbuffers.h:1477-1486 | strings and blobs read back whole, embedded NULs included |
| `FlexPools.SameKeyIsEqual` | flatbuffers/flatbuffers/flexbuffers.h:1578-1588 | neither key is less by strcmp exactly when the texts are equal |
| `FlexPools.SameStringIsEqual` | flatbuffers/flatbuffers/flexbuffers.h:1591-1602 | the bounded comparison of pooled NUL-free strings is equality of contents |
| `FlexPools.SharedKey` | flatbuffers/flatbuffers/flexbuffers.h:1001-1017 | a known key leaves buffer and pool as they were and reuses its offset; a new key is appended and pooled |
| `FlexPools.SharedString` | flatbuffers/flatbuffers/flexbuffers.h:1022-1039 | the same for strings |
| `FlexNuls.KeyKeptIff` | flatbuffers/flatbuffers/flexbuffers.h:1001-1017 | a key reads back whole if and only if it has no embedded NUL |
| `FlexNuls.SharedKeyIff` | flatbuffers/flatbuffers/flexbuffers.h:1001-1017 | sharing a key of any bytes: a pooled key with the same text up to the first NUL is used again and nothing is written, otherwise the key is stored and pooled; either way the value shows that text, and so the key itself if and only if it has no NUL |
| `FlexNuls.SameStringIff` | flatbuffers/flatbuffers/flexbuffers.h:1591-1602 | of any two strings the pool takes for the same exactly those that agree up to their first NUL |
| `FlexNuls.SharedStringIff` | flatbuffers/flatbuffers/flexbuffers.h:1022-1039 | a shared string of any bytes is stored unless a pooled one agrees with it up to the first NUL; otherwise its value shows exactly what the width of the new length finds in front of the pooled string: at the width of its own length that string, at a smaller one the string cut to the high part of its length, at a greater one a length that takes in the bytes in front |
| `FlexNuls.SecondReadsAsFirst` | flatbuffers/flatbuffers/flexbuffers.h:1022-1039 | of two different shared strings of one length that agree up to a NUL the second reads back as the first |
| `FlexNuls.SharedNulIsLost` | flatbuffers/flatbuffers/flexbuffers.h:1022-1039 | an instance: two strings of three bytes |
| `FlexMaps.KeyOrderIsStrCmp` | flatbuffers/flatbuffers/flexbuffers.h:1119-1132 | the comparison used to sort is the lexicographic order of the key texts |
| `FlexMaps.MapStepKeeps` | flatbuffers/flatbuffers/flexbuffers.h:1093-1144 | ending a map leaves one value that stands for the entries in key order, each value still with its key |
| `FlexInvariant.ScalarVectorShows` | flatbuffers/flatbuffers/flexbuffers.h:1488-1506 | a vector of scalars of one C++ type reads back as those scalars |
| `FlexRoundTrip.StepIsLegal` | flatbuffers/flatbuffers/flexbuffers.h:1085-1144 | no assertion of the builder fires on anything the format can represent |
| `FlexRoundTrip.StepKeeps` | flatbuffers/flatbuffers/flexbuffers.h:935-1144 | every call implements its step on trees, whatever the flags |
| `FlexRoundTrip.RunKeeps` | flatbuffers/flatbuffers/flexbuffers.h:935-1144 | after every sequence of calls the value stack stands for the stack of trees |
| `FlexRoundTrip.FinishShows` | flatbuffers/flatbuffers/flexbuffers.h:1306-1322 | the root found from the end of the buffer shows the one value left on the stack |
| `FlexRoundTrip.RunRoundTrip` | flatbuffers/flatbuffers/flexbuffers.h:864-872 | for every sequence of calls, all flags and all forced widths, decoding the finished buffer returns the tree the calls describe |
| `FlexRoundTrip.PoolingIsInvisible` | flatbuffers/flatbuffers/flexbuffers.h:888-896 | for every sequence of calls any two settings of the sharing flags decode to the same tree |
| `FlexReuse.ReuseRoundTrip` | flatbuffers/flatbuffers/flexbuffers.h:1246-1267 | the same when values are remembered and pushed again at any later time, after their own slots are long gone from the stack |
| `FlexMemory.RunFits` | flatbuffers/flatbuffers/flexbuffers.h:1306-1322 | a bound computed from the calls alone on the bytes and values they add is all the memory a run needs |
| `FlexMemory.BoundedRunRoundTrip` | flatbuffers/flatbuffers/flexbuffers.h:864-872 | the round trip of runs with that bound as its only premise about memory |
| `FlexDecode.DecodeShows` | flatbuffers/flatbuffers/flexbuffers.h:815-834 | decoding with the accessors returns exactly the tree they show |
| `FlexTrees.TreeRoundTrip` | flatbuffers/flatbuffers/flexbuffers.h:1306-1322 | every tree, empty typed vectors included, has calls that build it, and decodes to itself with its maps in key order |
| `FlexMemory.BoundedTreeRoundTrip` | flatbuffers/flatbuffers/flexbuffers.h:1306-1322 | the same for every tree whose size is below almost 2^58, a sum over its nodes |
| `FlexLookup.LookupShows` | flatbuffers/flatbuffers/flexbuffers.h:836-858 | on ordered keys the binary search gives the value at the key's place, or null |
| `FlexLookup.LookupAgrees` | flatbuffers/flatbuffers/flexbuffers.h:836-858 | looking a key up returns the value added under it, and null for a key never added |
| `FlexLookup.RunLookup` | flatbuffers/flatbuffers/flexbuffers.h:836-858 | after any run whose one value is a map, looking a key up from the root of the finished buffer returns the value added under it, and null for a key never added |
| `FlexSharing.KeysAreShared` | flatbuffers/flatbuffers/flexbuffers.h:1001-1017 | a key stored before any further calls is found again at the same offset and adds no byte; a different key never gets that offset |
| `FlexSharing.StringsAreShared` | flatbuffers/flatbuffers/flexbuffers.h:1022-1039 | the same for NUL-free strings when strings are shared |
| `FlexSharing.UnsharedKeys` | flatbuffers/flatbuffers/flexbuffers.h:1001-1017 | without key sharing every key is written at the end of the buffer, and no two calls give the same offset |
| `FlexSharing.UnsharedStrings` | flatbuffers/flatbuffers/flexbuffers.h:1022-1039 | the same for strings |
| `FlexMutate.MutateIntIsExact` | flatbuffers/flatbuffers/flexbuffers.h:661-675 | on a field of any type, in place or indirect, signed or unsigned, the call succeeds exactly when the type and width hold the 64-bit pattern, and the field then shows it, whatever lies behind the argument |
| `FlexMutate.MutateUIntIsExact` | flatbuffers/flatbuffers/flexbuffers.h:681-695 | the same for an unsigned value |
| `FlexMutate.MutateBoolIsExact` | flatbuffers/flatbuffers/flexbuffers.h:677-679 | the call succeeds exactly on boolean fields, changes only the bytes of the field, and the field then shows true if the boolean was true or one of the bytes copied from behind it is not zero |
| `FlexMutate.BoolShownIff` | flatbuffers/flatbuffers/flexbuffers.h:677-679 | a boolean field shows the boolean it was given, whatever follows the argument in memory, if and only if the boolean is true or the field is one byte wide |
| `FlexMutate.BoolIsDetermined` | flatbuffers/flatbuffers/flexbuffers.h:736-746 | what follows the boolean in memory makes no difference, that is, the copy stays inside the one-byte argument, if and only if the field is one byte wide |
| `FlexMutate.CopyIsDetermined` | flatbuffers/flatbuffers/flexbuffers.h:736-746 | the same of any argument: the copy depends on its own bytes alone if and only if it is at least as wide as the field, as the eight-byte arguments of the number branches always are |
| `FlexWideBool.BuilderWrites` | flatbuffers/flatbuffers/flexbuffers.h:1508-1563 | the calls for the vector [true, 300] write a buffer in which the boolean field is two bytes wide |
| `FlexWideBool.FalseMayShowTrue` | flatbuffers/flatbuffers/flexbuffers.h:677-679 | an input outside the condition: MutateBool(false) on the first element of that buffer succeeds, and with ones behind the argument leaves it true |
| `FlexMutate.NegativeInUnsigned` | flatbuffers/flatbuffers/flexbuffers.h:666-671 | a negative number goes into an unsigned field if and only if the field is eight bytes wide |
| `FlexForce.ForcedElements` | flatbuffers/flatbuffers/flexbuffers.h:1298-1304 | a vector or map ended while a width is forced, whatever is done afterwards: in the finished buffer each of its elements lies in an aligned field at least that wide, and a number among them can be replaced in place by any number the forced width holds |
| `FlexForce.ForcedMap` | flatbuffers/flatbuffers/flexbuffers.h:1139-1144 | the same from the root: after a map is ended under a forced width, root[key] is the value added, and a number there takes any other number of that width |
| `FlexForce.MapForced` | flatbuffers/flatbuffers/flexbuffers.h:1128-1142 | both vectors of a map, keys and values, are at least as wide as the forced width and aligned |
| `FlexForce.RunForce` | flatbuffers/flatbuffers/flexbuffers.h:1302-1304 | the forced width is the one set last |
| `FlexForce.ScalarsKeepWidth` | flatbuffers/flatbuffers/flexbuffers.h:1488-1506 | a vector of C++ scalars keeps the width of their type, aligned |
| `FlexForce.VectorIsTight` | flatbuffers/flatbuffers/flexbuffers.h:1538-1552 | a vector takes its fields, for a fixed one no size among them, its types if it is untyped, and the least padding |
| `FlexForce.TextAligned` | flatbuffers/flatbuffers/flexbuffers.h:1477-1486 | strings and blobs start at a multiple of the width of their length, behind it and the least padding |
| `FlexForce.IndirectAligned` | flatbuffers/flatbuffers/flexbuffers.h:1367-1372 | the same for numbers that are stored apart |
| `FlexForce.RootIsLeast` | flatbuffers/flatbuffers/flexbuffers.h:1306-1322 | the root field is as narrow as its value allows |
| `FlexForce.TypeByteWidth` | flatbuffers/flatbuffers/flexbuffers.h:1457-1470 | the type byte of a scalar has the width of its field, that of an object the width of the object |
| `FlexForce.BeyondIsNull` | flatbuffers/flatbuffers/flexbuffers.h:815-825 | an index past the end gives null |
| `FlexMutate.MutateInPlace` | flatbuffers/flatbuffers/flexbuffers.h:736-746 | replaces exactly the bytes of the field by as many bytes from where the argument lies, its own and those behind it, or changes nothing |
| `FlexBuilder.TryWidths` | flatbuffers/flatbuffers/flexbuffers.h:1427-1454 | the loop computes the specified width and its final assertion is unreachable |
| `FlexBuilder.Builder.Key` | flatbuffers/flatbuffers/flexbuffers.h:1001-1017 | refines the specified tentative write and rollback of a key |
| `FlexBuilder.Builder.String` | flatbuffers/flatbuffers/flexbuffers.h:1022-1039 | refines the specified tentative write and rollback of a string |
| `FlexBuilder.Builder.VectorWidth` | flatbuffers/flatbuffers/flexbuffers.h:1513-1537 | the width loop computes the specified maximum and the common type |
| `FlexBuilder.Builder.CreateVector` | flatbuffers/flatbuffers/flexbuffers.h:1508-1563 | the three loops write the specified vector; every offset written fits its width |
| `FlexBuilder.Builder.EndVector` | flatbuffers/flatbuffers/flexbuffers.h:1085-1091 | refines the specified step on buffer and stack |
| `FlexBuilder.Builder.EndMap` | flatbuffers/flatbuffers/flexbuffers.h:1093-1144 | refines the specified step: pairs sorted on the stack, then two strided vectors |
| `FlexBuilder.Builder.ScalarVector` | flatbuffers/flatbuffers/flexbuffers.h:1488-1506 | refines the specified vector of scalars |
| `FlexBuilder.Builder.Finish` | flatbuffers/flatbuffers/flexbuffers.h:1306-1322 | refines the specified finish; the root offset fits its width |
| `Utf8.EncodeDecodes` | flatbuffers/flatbuffers/util.h:497-538 | the grammar of section 4 of RFC 3629 accepts what section 3 emits for a scalar value, and finds it again |
| `Utf8.DecodeEncodes` | flatbuffers/flatbuffers/util.h:497-538 | what that grammar accepts is exactly what section 3 emits for the character |
| `Utf8.EncodeAllDecodes` | flatbuffers/flatbuffers/util.h:469-538 | for every sequence of scalar values decoding the concatenated encodings of RFC 3629 returns the sequence and consumes every byte |
| `Utf8.DecodeAllEncodes` | flatbuffers/flatbuffers/util.h:469-538 | every well-formed text is the encoding of its characters |
| `Utf8Codec.ImageIsEncode` | flatbuffers/flatbuffers/util.h:469-491 | on Unicode code points the bit layout of the encoder is section 3 of RFC 3629 |
| `Utf8Codec.LongImage` | flatbuffers/flatbuffers/util.h:469-491 | values beyond Unicode go six bits to a byte into four, five or six bytes, the first of which tells how many |
| `Utf8Codec.ToUTF8` | flatbuffers/flatbuffers/util.h:469-491 | the loops append that encoding, return its length, and never reach the final assertion |
| `Utf8Codec.ChecksAreTheGrammar` | flatbuffers/flatbuffers/util.h:517-537 | the surrogate and shortest-form checks accept exactly what the grammar does |
| `Utf8Codec.FromUTF8` | flatbuffers/flatbuffers/util.h:497-538 | fails exactly when the terminated text does not start with a character of the grammar, otherwise returns that character and the position after it |
| `Utf8Codec.RoundTripIff` | flatbuffers/flatbuffers/util.h:469-538 | of all values the encoder takes, its bytes decode to the value again if and only if it is a Unicode scalar value |
| `Utf8Codec.DecodeText` | flatbuffers/flatbuffers/util.h:497-538 | decoding a terminated text character by character succeeds exactly on well-formed text and gives its characters |
| `Utf8Codec.EncodeThenDecode` | flatbuffers/flatbuffers/util.h:469-538 | text written by repeated encoding is read back by repeated decoding |
| `Utf8Codec.DecodeThenEncode` | flatbuffers/flatbuffers/util.h:469-538 | text that repeated decoding accepts is written again byte for byte |
| `JsonEscape.EscapesExactlyUtf8` | flatbuffers/flatbuffers/util.h:569-637 | without allow_non_utf8 escaping succeeds if and only if the text is well-formed UTF-8 |
| `JsonEscape.EscapeString` | flatbuffers/flatbuffers/util.h:569-637 | the loop appends the quoted escaped text, or fails, as specified for both flags |
| `JsonEscape.ShortEscapeIff` | flatbuffers/flatbuffers/util.h:576-582 | the short escapes are exactly those a JSON reader turns back into the character, but for the solidus |
| `JsonEscape.AsciiPieces` | flatbuffers/flatbuffers/util.h:576-586 | under both flags a character with a short escape becomes a backslash and its letter, and any other printable ASCII character stays as it is |
| `JsonEscape.SpecialPieces` | flatbuffers/flatbuffers/util.h:610-632 | any other character is copied with natural_utf8, and without it becomes one or two groups of four upper-case digits that a reader turns back into it |
| `JsonEscape.BadBytePiece` | flatbuffers/flatbuffers/util.h:591-608 | a byte that starts no character becomes backslash, x and its two upper-case digits if such bytes are allowed, and is refused otherwise |
| `JsonEscape.RoundTrip` | flatbuffers/flatbuffers/util.h:569-637 | reading the output as a JSON string by section 7 of RFC 8259, with surrogate pairs, gives the characters of the input |
| `JsonEscape.Injective` | flatbuffers/flatbuffers/util.h:569-637 | different texts never have the same escaped form, escaped or copied, as long as copied ones have no bare control character |
| `JsonEscape.RoundTripIff` | flatbuffers/flatbuffers/util.h:569-637 | for all texts and both flags: escaping succeeds if and only if the text is well-formed or bad bytes are allowed, and its output is a JSON string for the text if and only if the text is well-formed and, under natural_utf8, has no control character but backspace, tab, line feed, form feed and carriage return; any other output is no JSON string |
| `JsonEscape.NaturalRoundTripIff` | flatbuffers/flatbuffers/util.h:610-612 | with natural_utf8 a well-formed text reads back if and only if it has no control character but those five |
| `JsonEscape.NaturalControlIsNotJson` | flatbuffers/flatbuffers/util.h:610-612 | an input outside that condition: with natural_utf8 a single control character is copied raw, which a JSON reader rejects |
| `Fnv.TimesInjective` | flatbuffers/flatbuffers/hash.h:43-46 | wrap-around multiplication by either prime loses nothing |
| `Fnv.StepInjective` | flatbuffers/flatbuffers/hash.h:40-58 | each byte permutes the hash states, in both variants |
| `Fnv.HashSeparates` | flatbuffers/flatbuffers/hash.h:40-58 | two strings of any equal length that differ in exactly one byte hash differently, for both variants at 32 and 64 bits |
| `Fnv.Fnv1Is` | flatbuffers/flatbuffers/hash.h:36-48 | FNV-1 by its constants: from the offset basis, each byte multiplies by the prime, wrapping around, and then goes in by exclusive or, at 32 and 64 bits |
| `Fnv.Fnv1aIs` | flatbuffers/flatbuffers/hash.h:50-58 | FNV-1a by its constants: each byte goes in by exclusive or and then the prime multiplies |
| `Fnv.HashesOfA` | flatbuffers/flatbuffers/hash.h:40-58 | the four hashes of "a", those at 64 bits with the offset basis of the file |
| `Fnv.HashFnv1` | flatbuffers/flatbuffers/hash.h:40-48 | the loop over the terminated string computes the specified FNV-1 hash |
| `Fnv.HashFnv1a` | flatbuffers/flatbuffers/hash.h:50-58 | the loop over the terminated string computes the specified FNV-1a hash |
| `LineFramer.FramingIgnoresSplits` | bt_remote.cpp:128-158 | the framed lines are those of the concatenated reads, each cut at its first NUL |
| `LineFramer.SplitsAgree` | bt_remote.cpp:128-158 | two splits of the same NUL-free stream into reads give the same lines |
| `LineFramer.LinesAreTheStream` | bt_remote.cpp:136-153 | the lines are the characters from space to tilde cut at the line feeds, and nothing else |
| `LineFramer.DeliveredInOrder` | bt_remote.cpp:156-190 | for every interleaving the delivered lines are framed lines in order, none twice, and every framed line is delivered, waiting or counted as lost |
| `LineFramer.NothingLostIff` | bt_remote.cpp:183-190 | outside a copy-to-clear window, delivered and waiting lines together are all framed lines if and only if no line arrived between a copy and its clear |
| `LineFramer.WindowLinesAreLost` | bt_remote.cpp:183-190 | for every interleaving the delivered lines, with those copied or waiting, are exactly the framed lines without those that arrive between a copy and its clear |
| `LineFramer.WindowLosesLine` | bt_remote.cpp:183-190 | an instance: one line in the window, never delivered |
| `LineFramer.FramedIsStream` | bt_remote.cpp:128-163 | for every interleaving the framed lines are those of the byte stream |
| `LineFramer.BTRemote.Receive` | bt_remote.cpp:136-157 | one round of the receiving loop frames the read and appends its lines |
| `LineFramer.BTRemote.GetData` | bt_remote.cpp:183-190 | returns all waiting lines and empties the shared list when nothing comes between |
| `LineFramer.BTRemote.GetDataAround` | bt_remote.cpp:183-190 | with rounds of the receiving thread between copy and clear it returns what was waiting before them, and their lines are gone |

## Left out

- `Sorting.Sort` stands for std::sort, `Sorting.BSearch` for std::bsearch, and a list without duplicates for std::set; `Sorting.SortedIsUnique` shows that the choice of sort cannot be seen on distinct keys.
- Floats and doubles: no FlexBuffers float values, and FlatBuffers compares a value with its default bit by bit, so `-0.0` and `0.0` differ here.
- Structs in tables and vectors, unions, and forced alignments beyond the scalar sizes up to 16.
- The generated Create functions are one method that takes the list of fields to add; `Reflection` says which list each of them passes.
- VectorDownward.Grown: does not model wrap-around of `reserved_` in `size_t`, because no allocation of that size succeeds.
- Verification with alignment checks turned off, and the upper-bound tracking build option.
- FlexObjects.TypedVectorShows: not for strings, which `FlexStringVectors.StringVectorShows` treats, nor for fixed typed vectors of keys or booleans, whose types do not survive, as `FlexTypes.FixedNonNumbers` shows.
- FlexInvariant.ScalarVectorShows: not for floats, nor for fixed vectors of booleans, whose type does not survive.
- FlexPools.SameStringIsEqual: for NUL-free strings; `FlexNuls.SameStringIff` is for all.
- FlexPools.SharedKey: for NUL-free keys; `FlexNuls.SharedKeyIff` is for all.
- FlexPools.SharedString: for NUL-free strings; `FlexNuls.SharedStringIff` is for all.
- FlexRoundTrip.RunRoundTrip: keys with embedded NULs, and shared strings with embedded NULs, are outside the runs; `FlexNuls` says what becomes of them.
- FlexMemory.RunFits: buffers beyond 2^58 bytes, which no address space holds.
- Conversion of FlexBuffers values to text or to other types, and in-place mutation of strings and floats.
- Clearing, moving and swapping builders, custom allocators, detached buffers, and finding the start of a buffer from its root pointer.
- Hashes folded to 16 bits, word wrapping, number formatting, and file helpers.
- The terminal setup, sleeping and error paths of the Bluetooth thread; each operation on the shared list is one step.
- Camera, stereo, detection, sensor and driver programs: they are calls into libraries that are not part of this model.
