# CoSimIO, verified

CoSimIO moves meshes, settings and data arrays between coupled simulation programs. This project
models the parts of it that are hard to get right and proves what they promise:

* **The serializer** (`ObjectGraph`, `SaveWalk`, `LoadWalk`, `Isomorphism`, `SaveFacts`, `ReadFacts`,
  `Readability`, `Ownership`, `RoundTrip`, `Serializer`, `Registry`): saving an aliased, possibly
  cyclic object graph and loading it into a given object. `SaveWalk` says which values are written,
  one token per `write`, and `LoadWalk` what is rebuilt from a stream of characters; `Isomorphism`
  proves by simultaneous induction over both that loading rebuilds the graph, and the class
  `Serializer` is the object itself, with its buffer and its two pointer tables, proved against the
  two walks.
* **The characters of the stream** (`StreamFormat`, `ByteCoding`, `Decimals`, `NumberCodes`): the
  binary mode and the three text modes, for any way to print and scan numbers, and for two concrete
  ways.
* **What it carries and how far** (`InfoLookup`, `InfoGraph`, `MeshGraph`, `MeshSnapshot`,
  `PartTransfer`, `Transfer`, `Broadcast`): the `save` and `load` bodies of Info, Node, Element and
  ModelPart as instances of the above, any ModelPart as such a graph and object by object at the other
  end, and the way to another process or to the other ranks. `Records` spells out what is on the
  stream, token by token.
* **ModelPart** (`Mesh`, `Elements`, `IndexedVector`, `ModelPart`): one node list and its local, ghost
  and partition views as a state machine over shared objects, and the shapes of the element types.
* **VTK files** (`Vtk`, `VtkRoundTrip`, `VtkFormat`, `VtkFiles`): the writer and the reader undo each
  other, and the file describes the mesh in the terms of the format.
* **Partner ranks** (`PartnerRanks`, `Doubles`): two separately written functions, both with
  floating point, that must agree on who talks to whom; for every rounding with three stated
  properties, and `Doubles` proves that the rounding of `double` has them.
* **Transport, memory and dispatch** (`Pipe`, `IntrusivePtr`, `RawMemory`, `Connection`).
* **Vendored algorithms** (`Utf8Automaton`, `Transcoders`, `Utf8Repair`, `Wildcards`): the table-driven
  UTF-8 automaton and the transcoders against RFC 3629 and RFC 2781, what they replace, and the
  backtracking matcher.

`dafny verify dfyconfig.toml` checks everything.

## What turned out not to hold

Each is a lemma with a concrete input; the exact condition for all inputs is named beside it.

* A graph with two pointers to an object that is first met as an entry of a map, or through a
  `unique_ptr`, is saved but cannot be loaded (`RoundTrip.SharedEntryIsLost`), and neither can an
  object that is held by pointers of two kinds (`RoundTrip.MixedPointersAreLost`); no class of the
  repository has such pointers. Exactly when loading works: `RoundTrip.SaveThenLoad`.
* Copies of an Info share their value objects, so an Info that holds one Info under two names cannot
  be loaded (`InfoGraph.InfoSetTwiceIsLost`). Exactly when it can: `InfoGraph.InfoSaveThenLoad`.
* In the text modes a string with a quote is cut off (`RoundTrip.QuotedStringIsLost`); the check for
  it is compiled only in debug builds. Exactly which streams come back: `StreamFormat.AfterWritten`.
* With 2^53 + 1 exporters the rounded block size can leave the last exporter without a valid partner
  (`Doubles.DoubleHasNoLastPartner`, exactly when: `PartnerRanks.PartnersValidExactlyWhenCovered`), and
  near 2^64 ranks the block bounds wrap around (`Doubles.DoubleBlocksDisagree`, exactly when:
  `PartnerRanks.AgreementExactlyWhenBlocksFit`).
* With a pipe buffer smaller than one element the transfer loops for ever (`Pipes.SmallBufferExample`,
  and for every such setup `Pipes.EndlessRun`); nothing in the code rejects such a buffer.
* The printed name of the element type Triangle2D3 is that of Triangle3D3 (`Elements.NameSaysShape`,
  for all types; which types are printed alike: `Elements.NamesDistinct`).
* A broadcast of 2^31 bytes or more is not delivered, because MPI counts with an `int`, and from 2^32
  bytes on the buffers of the ranks do not even have the same length (`Broadcasts.DeliveredExactly`,
  `Broadcasts.SameLengths`).

## Model

| member | source | states |
|---|---|---|
| RoundTrip.SaveThenLoad | co_sim_io/includes/serializer.hpp:187-275 | whatever was saved, into whatever empty object, default constructed or with empty pointees of its own, and whatever follows on the stream: every value is read as it was written exactly when no pointee is met through a slot that is lost or of another pointer type and every value is readable in the mode, for numbers the mode represents exactly when in the text modes no string has a quote; the reachable graph is then rebuilt up to an injective renaming of addresses, and nothing else is touched; an unsafe stream of readable values fails |
| RoundTrip.WrittenOnce | co_sim_io/includes/serializer.hpp:673-692 | apart from registered names and trace tags the stream is shared out completely: the fields of the value, and for each reachable object and no other its address once, where the body opens, followed by all its fields in order |
| RoundTrip.AliasesKept | co_sim_io/includes/serializer.hpp:225-228 | after a faithful load any two pointers of the loaded graph, wherever they are, lead to the same object exactly when the saved ones did |
| RoundTrip.OwnedSaveThenLoad | co_sim_io/includes/serializer.hpp:480-516 | a condition on the graph alone: if an object held by a `unique_ptr` or map entry has no second pointer, all others are held by pointers of one type, and all derived types are registered, saving succeeds and loading is faithful exactly when the scalars and keys are readable |
| RoundTrip.SharedEntryIsLost | co_sim_io/includes/serializer.hpp:694-707 | one object in two entries of a map is saved but makes loading fail, because the recorded slot was the moved-from pair |
| RoundTrip.WalkIsReach | co_sim_io/includes/serializer.hpp:673-692 | the objects written are exactly those reachable from the value |
| RoundTrip.MixedPointersAreLost | co_sim_io/includes/serializer.hpp:356-371 | an object held by a raw and by a shared pointer is saved but not loaded: the recorded slot would be read as one of another type |
| RoundTrip.QuotedStringIsLost | co_sim_io/includes/serializer.hpp:766-775 | a string with a quote comes back cut off at it |
| RoundTrip.NullLeavesPointee | co_sim_io/includes/serializer.hpp:187-195 | a pointer saved as null leaves the pointee of the receiver in place |
| ReadFacts.FieldsHonest | co_sim_io/includes/serializer.hpp:722-812 | whatever a loader has read is what the stream holds next: it skips and invents nothing |
| Readability.FieldsContents | co_sim_io/includes/serializer.hpp:673-720 | a stream is readable exactly when the scalars and keys of the value and of the objects it reaches are |
| Ownership.FieldsAreSaved | co_sim_io/includes/serializer.hpp:679-687 | saving fails only at a derived class that is not registered |
| Isomorphism.PtrSim | co_sim_io/includes/serializer.hpp:187-230 | one pointer: after loading, the tables of both sides still describe the same partial map of addresses, for new, known and null pointers, and for variables that are null or point to an empty object already |
| Isomorphism.NewPtrSim | co_sim_io/includes/serializer.hpp:198-224 | a pointee met for the first time is recorded before its body is loaded, so cycles through it resolve; it is created, or the object the variable points to is filled |
| Isomorphism.RefsSim | co_sim_io/includes/serializer.hpp:376-388 | the slots of a resized vector stay valid while its later elements are loaded |
| Isomorphism.EntrySim | co_sim_io/includes/serializer.hpp:702-706 | one map entry, loaded into a temporary pair and moved: its pointee's slot is gone afterwards |
| Isomorphism.EntriesSim | co_sim_io/includes/serializer.hpp:694-707 | a whole map comes back with its keys in order |
| Isomorphism.FieldsSim | co_sim_io/includes/serializer.hpp:180-185 | the same for the fields of an object, hence for every object; an unsafe walk is an error |
| Isomorphism.TraceRead | co_sim_io/includes/serializer.hpp:584-610 | the tag that was written is the tag that is expected, in the modes that write tags and in those that do not |
| SaveFacts.FieldsFacts | co_sim_io/includes/serializer.hpp:673-692 | the same for a walk from any point on: it stays in every set closed under pointers, and its tokens are those of the fields it walks and of the bodies it adds, each once |
| Ownership.FieldsClean | co_sim_io/includes/serializer.hpp:694-707 | with every owned pointee in one home and all others held by one type of pointer, no walk meets an unusable slot |
| SerializerClass.Serializer.Write | co_sim_io/includes/serializer.hpp:777-827 | appends the characters of one value to the buffer |
| SerializerClass.Serializer.Read | co_sim_io/includes/serializer.hpp:755-812 | reads one value of the type of the variable, or fails as the specification does |
| SerializerClass.Serializer.SavePtr | co_sim_io/includes/serializer.hpp:486-516 | writes exactly the tokens of the specification and updates the saved table as it says |
| SerializerClass.Serializer.SavePointer | co_sim_io/includes/serializer.hpp:673-692 | the address, and the body exactly for a pointee not in the table, which it enters before the body is saved |
| SerializerClass.Serializer.SaveBody | co_sim_io/includes/serializer.hpp:679-690 | the name of a derived class, the tag and the body, or a failure exactly for an unregistered type |
| SerializerClass.Serializer.SaveVector | co_sim_io/includes/serializer.hpp:436-446 | the loop over a vector writes what the specification says |
| SerializerClass.Serializer.SaveMap | co_sim_io/includes/serializer.hpp:709-720 | the loop over a map writes what the specification says |
| SerializerClass.Serializer.SavePair | co_sim_io/includes/serializer.hpp:530-536 | one entry of a map |
| SerializerClass.Serializer.SaveTracePoint | co_sim_io/includes/serializer.hpp:584-589 | a tag in two of the four modes |
| SerializerClass.Serializer.SaveObject | co_sim_io/sources/model_part.cpp:336-344 | a class's `save` body, its fields in order |
| SerializerClass.Serializer.LoadTracePoint | co_sim_io/includes/serializer.hpp:591-610 | consumes the tag or fails when it is another one |
| SerializerClass.Serializer.LoadPtr | co_sim_io/includes/serializer.hpp:232-275 | a pointer variable, with the pointer found through the loaded table, which is only read through a pointer of the recorded type |
| SerializerClass.Serializer.LoadPointee | co_sim_io/includes/serializer.hpp:198-224 | a pointee met for the first time: created unless the variable has one, recorded, loaded |
| SerializerClass.Serializer.LoadVector | co_sim_io/includes/serializer.hpp:376-388 | the loop over a vector loads what the specification says |
| SerializerClass.Serializer.LoadMap | co_sim_io/includes/serializer.hpp:694-707 | the loop over a map with its temporary pair |
| SerializerClass.Serializer.LoadPair | co_sim_io/includes/serializer.hpp:403-409 | one entry of a map |
| SerializerClass.Serializer.LoadObject | co_sim_io/sources/model_part.cpp:346-354 | a class's `load` body, its fields in order |
| Records.TagsExactly | co_sim_io/includes/serializer.hpp:584-589 | two of the four modes put the tag on the stream, the others nothing |
| Records.TagsReadExactly | co_sim_io/includes/serializer.hpp:591-610 | these two modes go on exactly if the next string is the expected tag; the others read nothing |
| Records.OtherTagRefused | co_sim_io/includes/serializer.hpp:591-610 | so a stream written with a tag is accepted exactly where that tag is expected |
| Records.PointerWritten | co_sim_io/includes/serializer.hpp:486-516 | null is a zero; any other pointer is 1 or 2 and the address, and the first time the registered name of a derived class, the tag and the body |
| Records.KindRead | co_sim_io/includes/serializer.hpp:200-216 | the reader creates the static type, or what is registered under the name that follows |
| Records.RefsWritten | co_sim_io/includes/serializer.hpp:436-446 | a vector is its tag, `size`, its length in 8 bytes and its pointers |
| Records.RefWritten | co_sim_io/includes/serializer.hpp:444-445 | each under the tag `E` |
| Records.EntriesWritten | co_sim_io/includes/serializer.hpp:709-720 | a map is its tag, `size`, its length in 8 bytes and its pairs |
| Records.EntryWritten | co_sim_io/includes/serializer.hpp:530-536 | each with `E`, `First`, the key and then the pointer under `Second` |
| Records.InsertKeeps | co_sim_io/includes/serializer.hpp:702-706 | a loaded pair goes into the map unless its key is there already |
| Records.ResizeKeeps | co_sim_io/includes/serializer.hpp:380-385 | a resized vector keeps its pointers and is filled up with null |
| Records.StringChars | co_sim_io/includes/serializer.hpp:777-797 | a string is its length in eight bytes and its characters, or stands between quotes on a line |
| Records.ValueChars | co_sim_io/includes/serializer.hpp:740-753 | any other value has the bytes of its type, or is a word on a line |
| Records.WhiteSpace | co_sim_io/includes/serializer.hpp:806-808 | what `operator>>` skips: blank, tabulators, line feed, form feed and carriage return |
| Transfers.Transfer | co_sim_io/includes/communication/communication.hpp:226-278 | an object sent through two serializers into a given one arrives isomorphic exactly when its stream is safe, if the mode represents its values |
| Broadcasts.SameLengths | co_sim_io/includes/data_communicator.hpp:703-719 | with any number of ranks all buffers of the second collective have the same length exactly for messages below 2^32 bytes |
| Broadcasts.DeliveredExactly | co_sim_io/mpi/sources/mpi_data_communicator.cpp:602-617 | all ranks get the message exactly if it is below 2^31 bytes, what the `int` count of MPI can hold |
| Broadcasts.AfterConsumes | co_sim_io/includes/serializer.hpp:755-827 | in binary mode values are read from exactly as many characters as they are written to |
| Broadcasts.Broadcast | co_sim_io/includes/data_communicator.hpp:694-727 | the steps of all ranks, with two collectives between saving and loading, give each rank what is specified |
| Broadcasts.BroadcastExactly | co_sim_io/includes/data_communicator.hpp:694-727 | with two or more ranks the broadcast is faithful on all of them exactly if the graph can be read back and its message is below 2^31 bytes, and then every rank has an isomorphic graph |
| StreamFormat.NextWritten | co_sim_io/includes/serializer.hpp:722-827 | the next value is read as it was written, whatever follows it, exactly when it is readable: a string in the text modes without a quote, a number if the mode's text for it stands for it |
| StreamFormat.AfterWritten | co_sim_io/includes/serializer.hpp:722-827 | a whole stream is read back by asking for the types of its values in order, exactly when each value is readable, and leaves what follows it |
| StreamFormat.ReadableExactly | co_sim_io/includes/serializer.hpp:766-795 | if the mode represents the numbers, a stream is readable in binary mode always and in the text modes exactly when no string has a quote |
| ByteCoding.DecodeEncoded | co_sim_io/includes/serializer.hpp:755-764 | a number survives its bytes, least significant first; also the size message of a pipe (pipe_communication.cpp:184-203) |
| ByteCoding.DecodeConcat | co_sim_io/includes/serializer.hpp:755-764 | bytes further behind weigh more, by a factor of 256 each |
| NumberCodes.BytesFrame | co_sim_io/includes/serializer.hpp:799-827 | as bytes, what the serializer puts around the data is readable while addresses and sizes are below 2^64 |
| NumberCodes.DecimalsFrame | co_sim_io/includes/serializer.hpp:799-827 | in decimal it always is, if no name or tag has a quote |
| Decimals.SignedBack | co_sim_io/includes/serializer.hpp:806-822 | every integer survives printing and scanning in decimal |
| Registries.Registry.Register | co_sim_io/includes/serializer.hpp:174-178 | keeps names and prototypes inverse exactly when the type is known or the name is free |
| InfoGraph.RegisterTypes | co_sim_io/sources/info.cpp:57-84 | all six value types are registered consistently, under these names |
| InfoGraph.InfoSaveThenLoad | co_sim_io/sources/info.cpp:37-55 | a nested Info is always saved, and loaded back exactly when no two entries reachable from it have the same value object and its keys and values are readable; then it has the same keys in order, every path of keys leads through the entries themselves to the same type and value, and looking it up finds the same |
| InfoGraph.SafeExactlyWhenDistinct | co_sim_io/includes/info.hpp:100-105 | the distinctness of value objects is exactly what keeps the stream of an Info readable |
| InfoGraph.PathKept | co_sim_io/includes/info.hpp:79-89 | looking up a path of keys gives the same type and value in the loaded graph |
| InfoGraph.FindKept | co_sim_io/includes/info.hpp:109-117 | looking up a key gives corresponding pointers |
| InfoLookup.FindIsEntry | co_sim_io/includes/info.hpp:174-181 | what is found under a key is the pointer of the entry with that key |
| InfoLookup.FindNone | co_sim_io/includes/info.hpp:131-134 | nothing is found exactly if no entry has the key |
| InfoLookup.PathLeads | co_sim_io/includes/info.hpp:109-117 | what is found along a path of keys is what the entries, and those of the nested Infos, lead to |
| InfoGraph.KeysAreDistinct | co_sim_io/includes/info.hpp:169-169 | no Info of a well-formed heap has a key twice |
| Records.InfoValueWritten | co_sim_io/includes/info.hpp:79-84 | a value on the stream: its registered name, three tags and the value |
| Records.InfoValueTypes | co_sim_io/includes/info.hpp:53-78 | the width of the value by its type |
| Records.NestedInfoWritten | co_sim_io/sources/info.cpp:37-46 | a nested Info: two tags and its entries under `mOptions` |
| InfoGraph.InfoSetTwiceIsLost | co_sim_io/includes/info.hpp:100-105 | copying an Info shares its value objects, so an Info under two names cannot be loaded back |
| MeshGraph.ModelPartSaveThenLoad | co_sim_io/sources/model_part.cpp:336-354 | a ModelPart is loaded into a given one exactly when its names and numbers are readable, ids being 8 bytes wide (define.hpp:32-33), and then has the same names, nodes, elements, local, ghost and partition parts, all sharing node objects exactly as before |
| MeshGraph.NewPartReceives | co_sim_io/sources/model_part.cpp:330-334 | the empty part with empty local and ghost parts that the public constructor and `Clear` make can receive every part that has them |
| MeshSnapshots.SnapshotIsMesh | co_sim_io/includes/model_part.hpp:427-441 | every valid ModelPart is a well-typed graph of nodes, elements and parts |
| MeshSnapshots.SnapshotPartsUnique | co_sim_io/includes/model_part.hpp:432-441 | each of its sub parts has one pointer to it |
| MeshSnapshots.OneAddressEach | co_sim_io/includes/model_part.hpp:432-441 | and its sub parts, at any depth, are different objects |
| PartTransfers.PartSaveThenLoad | co_sim_io/sources/model_part.cpp:336-354 | any valid ModelPart is loaded back into any empty one, made by the public constructor or by `Clear`, exactly when its names and numbers are readable; the memory then holds it object by object, at different places: each node with its id and three coordinates, each element with its id, type and nodes, the part itself with its name, lists and indexes, its local part in field 5, its ghost part in field 6, and one entry for each partition, whose part has its own local and ghost part |
| PartTransfers.ArrivedIsMirror | co_sim_io/includes/model_part.hpp:427-441 | that is, what was rebuilt for the numbered parts of the snapshot is the part with its sub parts |
| Records.NodeWritten | co_sim_io/sources/model_part.cpp:40-46 | a node on the stream, tag by tag |
| Records.ElementWritten | co_sim_io/sources/model_part.cpp:85-90 | an element on the stream, tag by tag |
| Records.PartListsWritten | co_sim_io/sources/model_part.cpp:336-340 | name, nodes and elements of a part on the stream, tag by tag |
| Records.SubPartsWritten | co_sim_io/sources/model_part.cpp:341-343 | and its local part, ghost part and partitions |
| MeshSnapshots.NodesShared | co_sim_io/sources/model_part.cpp:336-354 | over all lists that arrived, two pointers are equal exactly when they stand for the same node |
| MeshSnapshots.ElementsShared | co_sim_io/sources/model_part.cpp:336-354 | and the same for elements |
| MeshSnapshots.SubPartIndexesBack | co_sim_io/includes/model_part.hpp:163-172 | every part within the part, at any depth, is searched by the indexes it was saved with |
| MeshGraph.PartKept | co_sim_io/sources/model_part.cpp:336-354 | the same part by part, to any depth of nesting |
| MeshGraph.ElementsKept | co_sim_io/sources/model_part.cpp:85-99 | elements keep id, type and the identity of their nodes |
| MeshGraph.IndexesRebuilt | co_sim_io/includes/model_part.hpp:163-172 | the indexes recomputed while loading are those of the saved part |
| IndexedVectors.AccessMapFinds | co_sim_io/includes/model_part.hpp:109-146 | the index knows an id exactly when the vector holds it, and gives its last position |
| IndexedVectors.ComputeAccessMap | co_sim_io/includes/model_part.hpp:152-159 | rebuilds the index that single insertions had kept |
| Mesh.OffsetMonotone | co_sim_io/includes/model_part.hpp:554-565 | the nodes of each element lie inside the flat array |
| Elements.ArityCounts | co_sim_io/sources/utilities.cpp:73-130 | an element needs one node for each corner of its geometry, with edges if it is quadratic, and with faces and interior if it is full |
| Elements.NameSaysShape | co_sim_io/sources/utilities.cpp:132-189 | the printed name is geometry, dimension of the space and number of nodes, for every type but Triangle2D3 |
| Elements.NamesDistinct | co_sim_io/sources/utilities.cpp:132-189 | two types are printed alike exactly if they are equal, or Triangle2D3 and Triangle3D3 |
| Elements.OffsetCounts | co_sim_io/includes/model_part.hpp:540-552 | the prefix sums count the nodes of the elements before |
| Elements.SliceHolds | co_sim_io/includes/model_part.hpp:554-565 | each element gets that many ids behind those of the elements before it |
| ModelParts.NewModelPart | co_sim_io/sources/model_part.cpp:102-112 | rejects exactly the empty name and names with a dot; otherwise an empty valid part with sub parts named local and ghost |
| ModelParts.ModelPart.HasNodeIsSearch | co_sim_io/sources/model_part.cpp:268-271 | the index answers as a linear search, and finds an object with that id |
| ModelParts.ModelPart.HasElementIsSearch | co_sim_io/sources/model_part.cpp:273-276 | the same for elements |
| ModelParts.ModelPart.CreateNewNode | co_sim_io/sources/model_part.cpp:130-144 | appends one new object to the list and the local view, fails exactly for a used or non-positive id, and then changes nothing |
| ModelParts.ModelPart.CreateNewGhostNode | co_sim_io/sources/model_part.cpp:146-163 | appends one new object to the list, the ghost view and its partition's view and to no other, or changes nothing |
| ModelParts.ModelPart.GetPartitionModelPart | co_sim_io/sources/model_part.cpp:302-315 | the existing part of a partition or a fresh empty one, in both cases named after its index |
| ModelParts.ModelPart.PGetNodes | co_sim_io/sources/model_part.cpp:172-176 | finds all nodes of an element or fails at a missing id |
| ModelParts.ModelPart.CreateNewElement | co_sim_io/sources/model_part.cpp:165-184 | an element is created exactly for a free positive id and existing nodes, as many as its shape has places for; otherwise nothing changes |
| ModelParts.ModelPart.Clear | co_sim_io/sources/model_part.cpp:235-246 | back to an empty valid part with fresh sub parts |
| ModelParts.ModelPart.CreateNewNodes | co_sim_io/includes/model_part.hpp:471-495 | equals creating the described nodes one by one up to the first failure |
| ModelParts.ModelPart.CreateNewGhostNodes | co_sim_io/includes/model_part.hpp:497-528 | equals creating the described ghost nodes one by one in their partitions up to the first failure, in the list, the ghost view and the view of every partition |
| ModelParts.ModelPart.CreateNewElements | co_sim_io/includes/model_part.hpp:530-568 | element i gets exactly the slice between the i-th and the next prefix sum; equals creating the slices one by one |
| ModelParts.MergeAppend | co_sim_io/sources/model_part.cpp:158-160 | appending a node to the list and one view keeps the list an order-preserving merge of disjoint views |
| ModelParts.PartitionAppend | co_sim_io/sources/model_part.cpp:159-160 | the ghost list stays an order-preserving merge of the disjoint partition lists |
| VtkRoundTrip.SectionWords | co_sim_io/sources/vtk_utilities.cpp:159-216 | no section keyword of the file is taken for another one |
| VtkRoundTrip.ContainsExactly | co_sim_io/sources/vtk_utilities.cpp:159-159 | a keyword is found exactly in words in which it stands between any other characters |
| VtkRoundTrip.ContentRead | co_sim_io/sources/vtk_utilities.cpp:144-217 | the reader recovers every array from the file the writer produced |
| VtkFiles.WriteThenRead | co_sim_io/sources/vtk_utilities.cpp:56-238 | reading the written file into an empty part gives the same mesh: ids, coordinates, types and connectivities in order |
| VtkFiles.DeclaredSize | co_sim_io/sources/vtk_utilities.cpp:84-106 | the size declared for CELLS is the count of integers written |
| VtkFormat.CellTypeIsCell | co_sim_io/sources/vtk_utilities.cpp:27-54 | the number of a type is that of the cell of the format (vtk_utilities.hpp:21-37) with its geometry and its number of points, and a type has none exactly if there is no such cell |
| VtkFormat.NoCellExactly | co_sim_io/sources/vtk_utilities.cpp:29-53 | the five types without a cell |
| VtkFiles.WrittenDescribes | co_sim_io/sources/vtk_utilities.cpp:56-142 | in the file of any valid mesh, found by their first words: the points with their coordinates; for each element a line of positions of its nodes and, as the entry of the same number, a cell type of its shape with as many points as that line; the ids; and the type codes |
| VtkFormat.PointGeometry | co_sim_io/sources/vtk_utilities.cpp:69-113 | the header and the geometry of a file in words |
| VtkFormat.PointFields | co_sim_io/sources/vtk_utilities.cpp:115-140 | and its fields |
| VtkFiles.ElementReadBack | co_sim_io/sources/vtk_utilities.cpp:227-235 | positions turned back into ids give the original connectivity: the two numberings are inverse |
| VtkFiles.WriteVtk | co_sim_io/sources/vtk_utilities.cpp:56-142 | succeeds exactly when VTK has every element type, and writes the specified file, which describes the mesh in the sense of VtkFiles.WrittenDescribes |
| VtkFiles.ReadVtk | co_sim_io/sources/vtk_utilities.cpp:144-238 | the loops build the mesh of the specification and keep the part valid |
| PartnerRanks.BlockIsCeilDiv | co_sim_io/sources/utilities.cpp:224-259 | below 2^53 the rounded quotient and `ceil` give integer ceiling division, for every rounding that is exact on those integers and, between 2^-53 and 2^65, monotone and within relative error 2^-53 |
| PartnerRanks.BlockInRange | co_sim_io/sources/utilities.cpp:224-260 | for all sizes the block is at least one and smaller than the larger size |
| PartnerRanks.ComputePartnerRanksAsImporter | co_sim_io/sources/utilities.cpp:197-237 | the loops build the importer's set, with the products wrapped to 64 bits; rejected are exactly empty programs and ranks that are not below the size |
| PartnerRanks.Exporter | co_sim_io/sources/utilities.cpp:239-266 | the exporter rejects exactly the same |
| PartnerRanks.AgreementExactlyWhenBlocksFit | co_sim_io/sources/utilities.cpp:197-266 | both functions describe the same relation exactly when no importer's block leaves the range of `size_t` |
| PartnerRanks.Agreement | co_sim_io/sources/utilities.cpp:197-266 | so they always agree below 2^53 ranks |
| PartnerRanks.PartnersValidExactlyWhenCovered | co_sim_io/sources/utilities.cpp:239-266 | every exporter has exactly one valid partner exactly when the blocks cover all exporters |
| PartnerRanks.PartnersValid | co_sim_io/sources/utilities.cpp:239-266 | so always below 2^53 ranks |
| PartnerRanks.ImporterBlocks | co_sim_io/sources/utilities.cpp:222-235 | the importers share out the exporters in consecutive blocks of the ceiling of the quotient |
| PartnerRanks.LastExporterHasNoPartner | co_sim_io/sources/utilities.cpp:256-260 | under every rounding that takes 2^53 + 1 to 2^53, with that many exporters and two importers the last one is sent to a third importer |
| PartnerRanks.WrappedBlocksDisagree | co_sim_io/sources/utilities.cpp:224-228 | under every rounding that takes 2^64 - 1 to 2^64 and 2^63 + 1 to 2^63, with so many ranks the wrapped bounds make the sides disagree |
| Doubles.NearestIsRounding | co_sim_io/sources/utilities.cpp:224-259 | the rounding of `double`, to the nearest number of 53 bits and half way to the even one, is exact on the integers up to 2^53, monotone, and within relative error 2^-53 |
| Doubles.DoubleHasNoLastPartner | co_sim_io/sources/utilities.cpp:256-260 | so with the arithmetic of `double` the last of 2^53 + 1 exporters has no partner among two importers |
| Doubles.DoubleBlocksDisagree | co_sim_io/sources/utilities.cpp:224-228 | and with 2^63 + 1 importers and 2^64 - 1 exporters the sides disagree |
| Pipes.Pipe.Write | co_sim_io/includes/communication/pipe_communication.hpp:45-72 | the chunks together are the size and the data |
| Pipes.Pipe.Read | co_sim_io/includes/communication/pipe_communication.hpp:74-105 | takes exactly the partner's data off the queue, with any buffer of at least one element |
| Pipes.SizeFirst | co_sim_io/sources/communication/pipe_communication.cpp:184-203 | the message is the size in eight bytes and the data |
| Pipes.PipeHasRoom | co_sim_io/includes/communication/pipe_communication.hpp:55-99 | in every interleaving the pipe never holds more than its capacity |
| Pipes.CallsFitBuffers | co_sim_io/includes/communication/pipe_communication.hpp:53-65 | no call is for more bytes than the buffer of its side has |
| Pipes.KeepsInv | co_sim_io/includes/communication/pipe_communication.hpp:55-99 | every step of writer or reader keeps: received, then queued, then unsent bytes make up the message |
| Pipes.ReceivedIsPrefix | co_sim_io/includes/communication/pipe_communication.hpp:45-105 | at every point of every interleaving the bytes received are a prefix of those written, and all of them when the reader is done |
| Pipes.RunIsBounded | co_sim_io/includes/communication/pipe_communication.hpp:55-99 | every interleaving ends, even with different buffer sizes |
| Pipes.NeverStuck | co_sim_io/includes/communication/pipe_communication.hpp:55-99 | the two processes never wait for each other, with a pipe of any capacity |
| Pipes.TransferCompletes | co_sim_io/includes/communication/pipe_communication.hpp:45-105 | where no step is left, everything has arrived and the pipe is empty |
| Pipes.SmallBufferNeverEnds | co_sim_io/includes/communication/pipe_communication.hpp:53-59 | with a buffer smaller than one element some step is always left |
| Pipes.EndlessRun | co_sim_io/includes/communication/pipe_communication.hpp:53-59 | so such a transfer has runs of any length |
| Pipes.SmallBufferExample | co_sim_io/includes/communication/pipe_communication.hpp:53-65 | a writer with a buffer of four bytes never gets past its first element of eight |
| Pipes.NoProgress | co_sim_io/includes/communication/pipe_communication.hpp:53-65 | and the counters of that side never leave zero |
| IntrusivePointers.KeepsInv | external_libraries/intrusive_ptr/intrusive_ptr.hpp:78-209 | every atomic action of every thread keeps the counts exact |
| IntrusivePointers.CountIsOwners | co_sim_io/includes/model_part.hpp:212-225 | in every run the stored count is the number of owning handles and of raw pointers that hold a detached reference |
| IntrusivePointers.NothingDeletedIsTouched | co_sim_io/includes/model_part.hpp:212-225 | no handle, constructor or destructor ever reaches a deleted object |
| IntrusivePointers.DeletedExactlyOnce | co_sim_io/includes/model_part.hpp:217-223 | an object is deleted at most once, and has been exactly when its last reference is gone and no release is under way |
| IntrusivePointers.LastRelease | co_sim_io/includes/model_part.hpp:217-223 | an object dies at the release by its only owner and at no other action |
| IntrusivePointers.DeadForever | co_sim_io/includes/model_part.hpp:212-225 | afterwards no thread gets a reference again |
| IntrusivePointers.OthersLeaveUndisturbed | external_libraries/intrusive_ptr/intrusive_ptr.hpp:78-209 | an action on other handles leaves a thread's handles alone |
| IntrusivePointers.RunLeavesUndisturbed | external_libraries/intrusive_ptr/intrusive_ptr.hpp:78-209 | and so do any number of them in any order, which is what the class below relies on |
| IntrusivePointers.Pointers.ConstructFromNew | external_libraries/intrusive_ptr/intrusive_ptr.hpp:82-85 | from a new object, not yet counted: the handle owns it |
| IntrusivePointers.Pointers.ConstructFromPointer | external_libraries/intrusive_ptr/intrusive_ptr.hpp:82-85 | from a raw pointer to an object that is counted already, that of another handle or a detached one: the new handle owns it too, and null stays null |
| IntrusivePointers.Pointers.Adopt | external_libraries/intrusive_ptr/intrusive_ptr.hpp:82-85 | without counting, the handle takes over the reference of a raw pointer |
| IntrusivePointers.Pointers.Swap | external_libraries/intrusive_ptr/intrusive_ptr.hpp:204-209 | exchanges the pointers of two handles, also of a handle with itself |
| IntrusivePointers.Pointers.CopyConstruct | external_libraries/intrusive_ptr/intrusive_ptr.hpp:98-101 | the copy owns what the original owns |
| IntrusivePointers.Pointers.MoveConstruct | external_libraries/intrusive_ptr/intrusive_ptr.hpp:116-119 | the pointer moves and the source is null |
| IntrusivePointers.Pointers.CopyAssign | external_libraries/intrusive_ptr/intrusive_ptr.hpp:143-147 | also for self-assignment, and whatever other threads do between the atomic actions |
| IntrusivePointers.Pointers.MoveAssign | external_libraries/intrusive_ptr/intrusive_ptr.hpp:121-125 | also for a handle moved to itself, which keeps its pointer |
| IntrusivePointers.Pointers.Reset | external_libraries/intrusive_ptr/intrusive_ptr.hpp:155-158 | the handle is null |
| IntrusivePointers.Pointers.ResetToNew | external_libraries/intrusive_ptr/intrusive_ptr.hpp:149-163 | the handle owns the new object |
| IntrusivePointers.Pointers.ResetToPointer | external_libraries/intrusive_ptr/intrusive_ptr.hpp:149-163 | assigning or resetting to a raw pointer of a counted object, also to the handle's own: the handle owns that object |
| IntrusivePointers.Pointers.ResetAdopting | external_libraries/intrusive_ptr/intrusive_ptr.hpp:165-168 | without counting, the handle takes over the reference of a raw pointer |
| IntrusivePointers.Pointers.Detach | external_libraries/intrusive_ptr/intrusive_ptr.hpp:175-180 | the handle is null and its reference has passed to the caller's raw pointer, uncounted |
| IntrusivePointers.Pointers.Destroy | external_libraries/intrusive_ptr/intrusive_ptr.hpp:103-106 | the handle is gone with its reference, and its object is deleted if that was the last one, whatever the other threads do meanwhile |
| IntrusivePointers.DroppedDeletes | co_sim_io/includes/model_part.hpp:217-223 | that is, exactly if the handle was the only owner |
| RawMemories.CopyingIsAmortized | co_sim_io/includes/data_container.hpp:167-184 | over any requests the elements copied never exceed the capacity gained |
| RawMemories.CapacityIsBounded | co_sim_io/includes/data_container.hpp:171-177 | the capacity covers the largest request and is at most twice it, or the initial one |
| RawMemories.RawMemory.Resize | co_sim_io/includes/data_container.hpp:167-184 | size and capacity as promised, the contents kept |
| RawMemories.RawMemory.ResizeAll | co_sim_io/includes/data_container.hpp:167-184 | the three bounds and the kept contents over any sequence of requests |
| Connections.Connection.Register | co_sim_io/sources/connection.cpp:47-60 | accepts exactly free allowed names, so each name keeps its first callback over any history |
| Connections.Connection.Run | co_sim_io/sources/connection.cpp:62-87 | the calls made are exactly those of the messages before the first exit or error, in order, with their settings; `exit` is never dispatched |
| Utf8Automaton.AcceptsExactlyUtf8 | external_libraries/ghc/filesystem.hpp:1541-1551 | the table accepts a byte string exactly when it is a sequence of characters of the grammar in section 4 of RFC 3629 |
| Utf8Automaton.TableIsNext | external_libraries/ghc/filesystem.hpp:1543-1550 | the table of nibbles is the transition function of that grammar |
| Utf8Automaton.CharRuns | external_libraries/ghc/filesystem.hpp:1549-1550 | after each character the automaton is back at the start with the character's code point |
| Utf8Automaton.CharsRun | external_libraries/ghc/filesystem.hpp:1541-1551 | so a string of characters yields exactly its code points |
| Utf8Automaton.ValidUtf8 | external_libraries/ghc/filesystem.hpp:1553-1567 | true exactly for the strings of the grammar |
| Transcoders.AppendIsChar | external_libraries/ghc/filesystem.hpp:1509-1536 | what is appended for a code point is one character of the grammar that decodes to it, or to the replacement character |
| Transcoders.CharIsAppended | external_libraries/ghc/filesystem.hpp:1509-1528 | every character of the grammar is what is appended for its code point |
| Transcoders.WideRoundTrip | external_libraries/ghc/filesystem.hpp:1621-1707 | 4-byte strings: the output is always valid, and exactly sequences of scalar values come back unchanged |
| Transcoders.WideRoundTripBytes | external_libraries/ghc/filesystem.hpp:1621-1707 | decoding and encoding gives back exactly the valid byte strings |
| Transcoders.NarrowRoundTrip | external_libraries/ghc/filesystem.hpp:1581-1697 | 2-byte strings: the output is always valid, and exactly well-formed UTF-16 (section 2 of RFC 2781) comes back unchanged |
| Transcoders.NarrowRoundTripBytes | external_libraries/ghc/filesystem.hpp:1581-1697 | decoding and encoding gives back exactly the valid byte strings |
| Utf8Repair.BeginsExactly | external_libraries/ghc/filesystem.hpp:1541-1551 | what counts as the beginning of a character: the starts of characters of the grammar that go on |
| Utf8Repair.PiecesCover | external_libraries/ghc/filesystem.hpp:1629-1643 | every byte string is empty, such a beginning, or starts with a character or a broken piece: a beginning, possibly empty, and a byte that does not go on with it |
| Utf8Repair.CharRead | external_libraries/ghc/filesystem.hpp:1630-1633 | a character gives its code point, wherever it stands |
| Utf8Repair.BrokenRead | external_libraries/ghc/filesystem.hpp:1634-1641 | a broken piece gives one U+FFFD, and reading starts anew behind it |
| Utf8Repair.TruncatedRead | external_libraries/ghc/filesystem.hpp:1644-1650 | a string that ends inside a character gives one U+FFFD for it |
| Utf8Repair.NarrowBroken | external_libraries/ghc/filesystem.hpp:1601-1608 | the same for 2-byte strings |
| Utf8Repair.NarrowTruncated | external_libraries/ghc/filesystem.hpp:1611-1617 | and at their end |
| Utf8Repair.NoScalarWritten | external_libraries/ghc/filesystem.hpp:1529-1534 | what is no scalar value is written as the three bytes of U+FFFD |
| Utf8Repair.RoundTripRepairs | external_libraries/ghc/filesystem.hpp:1621-1707 | there and back, exactly the scalar values stay and all others become U+FFFD |
| Utf8Repair.LoneSurrogateWritten | external_libraries/ghc/filesystem.hpp:1670-1697 | a surrogate without its partner is written as U+FFFD, together with the unit behind it |
| Transcoders.ToUtf8Wide | external_libraries/ghc/filesystem.hpp:1699-1707 | the loop of `toUtf8` for 4-byte strings |
| Transcoders.FromUtf8Wide | external_libraries/ghc/filesystem.hpp:1621-1652 | the loop of `fromUtf8` for 4-byte strings |
| Transcoders.ToUtf8Narrow | external_libraries/ghc/filesystem.hpp:1670-1697 | the loop of `toUtf8` for 2-byte strings, with its handling of lone surrogates |
| Transcoders.FromUtf8Narrow | external_libraries/ghc/filesystem.hpp:1581-1619 | the loop of `fromUtf8` for 2-byte strings |
| Wildcards.WildCmp | external_libraries/doctest/doctest.h:4061-4095 | non-zero exactly when the pattern matches in the declarative sense, for every text and pattern, and it ends |
| Wildcards.SameExactly | external_libraries/doctest/doctest.h:4066-4066 | characters are the same exactly if they are equal or, where case is ignored, the two forms of one of 26 letters |
| Wildcards.CaseIgnored | external_libraries/doctest/doctest.h:4081-4082 | then texts and patterns that differ only in case match alike |
| Wildcards.NextStar | external_libraries/doctest/doctest.h:4075-4088 | remembering only the last star loses no match |
| Wildcards.MatchesAny | external_libraries/doctest/doctest.h:4098-4106 | true exactly when some filter matches, or there is none and that counts as a match |

## Left out

- Sockets, asio, MPI, files becoming visible, waiting and timing: the transport is a queue of bytes.
- Short transfers on the pipe: the loops ignore how much a call moved, so each call is taken to move its whole request, byte by byte and interleaved.
- Pipes.Pipe.Write: the method puts a chunk at once into a queue without limit; blocking and interleaving are in the two-process machine beside it.
- StreamFormat.NextWritten: how a mode prints and scans numbers is a parameter, with bytes and decimal integers as instances; printing doubles with 14 digits loses precision, and such a double is not readable.
- The serialized send and receive between two ranks of one program: the transfer above with MPI in between.
- VtkFiles.WriteThenRead: coordinates stand for their printed form, a file is its sequence of words and line ends, and ghost and partition views are not in the file.
- The bookkeeping of line numbers in trace messages, pointers into the middle of an object, and a value that some pointer inside it leads back to although it is saved by value.
- Failing reads: the end of the stream and anything the language leaves undefined count as an error of the loader.
- RoundTrip.SaveThenLoad: the receiving object is empty; loading over contents that are there already is not modelled, except that a pointer saved as null keeps its pointee.
- The order of iteration of an unordered map after loading: the model lists its entries in the order of their insertion; what PartTransfers.PartSaveThenLoad states about the partition parts is by key and does not depend on it.
- InfoGraph.InfoSaveThenLoad: values are created bottom-up, as `Set` copies them, so an Info never contains itself.
- PartTransfers.PartSaveThenLoad: coordinates and element types stand for the numbers a coding gives them, and the tag of the outermost object is not part of the stream.
- ModelParts.ModelPart.CreateNewNode: stated for a part with its sub parts; on the internal local and ghost parts the code raises an error.
- IntrusivePointers.Pointers.ConstructFromPointer: the reference that keeps the object alive meanwhile is one of the same thread, and is kept until the count is increased; pointers to objects on the stack or owned otherwise are not modelled.
- IntrusivePointers.KeepsInv: actions are sequentially consistent and counts are unbounded; weak memory orders and the overflow of a 32-bit counter are not modelled.
- Doubles.NearestIsRounding: stated between 2^-53 and 2^65, where every quotient and size of ranks lies; smaller numbers, infinities and other rounding modes are not modelled.
- RawMemories.RawMemory.Resize: sizes in bytes are taken to stay below 2^64, and `realloc` to succeed.
- Connections.Connection.Run: the messages are those received so far; waiting for the next one is the outcome `Waiting`.
- Wildcards.WildCmp: `tolower` is that of the C locale.
- The other data containers, the connection registry, the vectors' unused iterator `read` and `write`, bindings, logging and error texts: they would add only easy members.
