# Verified model of the RPC peers and their FlatBuffers and FlexBuffers codecs

This project models, in Dafny, how a call travels between two peers of the Unix-domain-socket
RPC library, and proves what its callers rely on. Four components are modelled; the first three
compose into one statement: the bytes of a call survive building, verification, transport,
dispatch and matching.

**The FlatBuffers codec of every RPC message.** `VectorDownward` is the two-ended byte buffer: data
growing downwards from one end, scratch growing upwards from the other, moved together when
storage runs out. `FlatBufferBuilder` is the 32-bit builder on top of it, with its field records and
remembered vtables kept as raw bytes in the scratch part. Each of its methods is proved equal to a function
of `BuilderModel` on the abstract state (bytes, remembered vtables, pending fields, string pool), and the
properties are then proved about those functions: everything that is built reads back
(`TableLayout`, `TableRoundTrip`, `Objects`, `BuilderRuns`), sharing vtables changes no meaning
(`VTableSharing`, `VTablePositions`). `Table` is the reader with every access checked: an access outside the
buffer is the value `Fault`, so "the result is `Ok`" says that nothing outside was read. `Verifier` and
`VerifierRun` are the verifier, with pointer differences wrapping modulo 2^64. `RpcMessage`, `RpcCodec`,
`ExactSizes`, `RpcWire` and `RpcBuilder` are the message envelope: its verification, its layout to the byte
position, and the round trip. `LeastSizes` shows that no object takes a byte of padding too many, and
`VerifierExact` exactly which buffers the verifier accepts.

**The protocol.** `Peer` is one peer: its request counter, its table of pending promises, its registered
methods, its calls in progress and (as history) its handler runs. `RpcPeer` is the class with those fields
whose methods are the critical sections of `call_remote` and `recv_cb`, down to the bytes received and
sent. `Protocol` puts two peers, with a pool of receive workers each, on a network that may lose and
reorder messages but does not copy them; every critical section, send, delivery, time-out and
wake-up is one step, and any step of either side may come next. One peer model serves dialer and
listener, whose code is the same up to names. `ProtocolSafety` proves the invariant of every run and
what follows from it, `ProtocolProgress` that every call can always end and how; `ProtocolRun` shows that
calls can succeed, and can fail although they were answered.

**FlexBuffers.** `FlexModel` is the builder as functions on a growing buffer and a stack of values,
`FlexBuilder` the class that runs it, `FlexReader` the reader, and `FlexWidths`, `FlexVectors`, `FlexOrder`,
`FlexEmit`, `FlexRoundTrip`, `FlexLayout`, `FlexLookup` and `FlexWriter` the proofs: widths suffice and are
least, whole trees read back from exactly the bytes that are needed, maps can be searched.

**Text.** `Utf8` models encoding and decoding of code points against the table of section 3 of RFC 3629 and
the syntax of its section 4; `EscapeString` models string escaping against a reader of the strings of section 7 of
RFC 8259.

`Bits` defines the bitwise operators on unbounded numbers and relates masks and shifts to arithmetic;
`Bytes` has little-endian words and alignment. A buffer under construction is always described by its bytes;
objects in it are named, as in the source, by their distance from the end.

## Findings

- Over whole runs the *positions* of a table's fields are not the same with vtable sharing on and off:
  a shared vtable is taken out again, which moves the padding of later tables.
  `VTablePositions.SharingMovesFields` gives four one-byte tables where the field lies at 7 with sharing and at 5
  without. `VTablePositions.SharingPositionsAgree` proves, for every run and every table of it, exactly when the two
  agree: when the places at which the table's first stored field ends up in the two buffers differ by a multiple of
  the size of every later stored field and of the four bytes of the table's own first word. The sizes of the two
  buffers before the table, and its fields, decide that. The *values* read always agree
  (`BuilderRuns.SharingKeepsMeaning`, `BuilderRuns.SharingKeepsReferences`), and within one `EndTable` the positions
  do too (`VTableSharing.SharingKeepsLookups`).
- That all reallocations together copy at most twice the current capacity holds for every sequence of operations
  exactly when the minimum alignment is even (`VectorDownward.CopyingBounded`), as the default of 8 is. With
  alignment 1 nine writes reach a capacity of 28 after copying 57 bytes (`VectorDownward.OddCapacitiesCopyMore`).
- A promise whose reply arrives after the wait has timed out, but before the entry is erased, is still
  found and fulfilled; the call fails all the same (`ProtocolProgress.LateReplyTakenInVain`, and
  `ProtocolRun.CallsCanFailAnswered` for a run in which it happens). Only replies to calls that have already returned
  failure are discarded (`ProtocolSafety.OnlyLateRepliesDiscarded`).
- A vector has the smallest width it can be stored with, but the two vectors of a map need not: both are estimated as if
  each element took two slots (`FlexLayout.EndedMapWidths`). Four keys behind 250 bytes can take two bytes each where one would
  do (`FlexLayout.KeysWiderThanNeeded`); the vector of keys is as narrow as possible exactly if each key would also suit
  that width at twice its index (`FlexLayout.KeyWidthLeast`).

## Model

| member | source | states |
|---|---|---|
| `Bytes.LoadStored` | include/flatbuffers/base.h:427-444 | reading back a scalar that was written gives its value modulo 2^(8w) |
| `Bytes.StoreLoaded` | include/flatbuffers/base.h:427-444 | writing what was read gives the same bytes, so different bytes read as different scalars |
| `Bytes.PaddingBytes` | include/flatbuffers/base.h:458-460 | the complement-and-mask expression on 64-bit words is the least padding to a multiple |
| `StringOrder.LessTrichotomy` | include/flatbuffers/buffer.h:79-83 | neither of two strings is less than the other exactly when they are equal, never both: the pool comparison identifies equal contents |
| `StringOrder.LessTransitive` | include/flatbuffers/buffer.h:79-83 | the string order is transitive |
| `StringOrder.LessIsLexicographic` | include/flatbuffers/buffer.h:79-83 | one string is less than another exactly if they agree up to some place and there it ends or has the lesser unsigned byte |
| `VectorDownward.RoundUpIsMask` | include/flatbuffers/vector_downward.h:269-284 | the add-and-mask rounding of capacities is rounding up to a multiple of the alignment |
| `VectorDownward.GrowsWhenNeeded` | include/flatbuffers/vector_downward.h:141-148 | while the gap has a 32-bit size the buffer grows exactly when the bytes asked for do not fit, and then to the least aligned capacity that is larger by the request and by half, or by the initial size |
| `VectorDownward.GrowthPays` | include/flatbuffers/vector_downward.h:269-284 | one growth step keeps "all copying so far is at most twice the capacity" for every even alignment, capacity, request and use |
| `VectorDownward.OddCapacitiesCopyMore` | include/flatbuffers/vector_downward.h:269-284 | a sequence of writes to a new buffer with alignment 1 after which 57 bytes have been copied for a capacity of 28 |
| `VectorDownward.PerformAllOk` | include/flatbuffers/vector_downward.h:141-157 | after every sequence of operations both stacks fit the capacity, which is aligned and, for even alignments, has cost at most twice itself in copying |
| `VectorDownward.CopyingBounded` | include/flatbuffers/vector_downward.h:269-284 | over every sequence of operations and every initial size, copying stays within twice the capacity if and only if the alignment is even |
| `VectorDownward.MemcpyDownward` | include/flatbuffers/allocator.h:57-63 | both ends of the old storage are copied to the same ends of the new |
| `VectorDownward.VectorDownward.Reallocate` | include/flatbuffers/vector_downward.h:269-284 | data and scratch are unchanged in fresh storage, the gap grows by the request, the capacity is the next one, and the bytes copied are accounted for |
| `VectorDownward.VectorDownward.EnsureSpace` | include/flatbuffers/vector_downward.h:141-148 | afterwards there is room, data and scratch unchanged |
| `VectorDownward.VectorDownward.MakeSpace` | include/flatbuffers/vector_downward.h:150-157 | opens room in front of the data, which stays behind it unchanged, as does scratch |
| `VectorDownward.VectorDownward.Push` | include/flatbuffers/vector_downward.h:195-203 | puts the bytes in front of the data; scratch unchanged; the invariant buf <= scratch <= cur, size = end - cur and the copying bound are kept |
| `VectorDownward.VectorDownward.Fill` | include/flatbuffers/vector_downward.h:213-217 | puts zeros in front of the data; scratch unchanged |
| `VectorDownward.VectorDownward.Pop` | include/flatbuffers/vector_downward.h:224-227 | takes the last pushed bytes away; scratch unchanged |
| `VectorDownward.VectorDownward.ScratchPush` | include/flatbuffers/vector_downward.h:205-209 | appends to scratch; data unchanged |
| `VectorDownward.VectorDownward.ScratchPop` | include/flatbuffers/vector_downward.h:229 | shortens scratch; data unchanged |
| `VectorDownward.VectorDownward.Reset` | include/flatbuffers/vector_downward.h:85-101 | no storage, no data, no scratch |
| `VectorDownward.VectorDownward.DataAt` | include/flatbuffers/vector_downward.h:193 | what lies at the index of an end-relative offset is the tail of the data of that length, whatever was reallocated before |
| `VectorDownward.VectorDownward.WriteAt` | include/flatbuffers/vector_downward.h:193 | writing through such an index changes exactly those bytes of the data and no scratch |
| `ScratchLists.OffsetAt` | include/flatbuffers/flatbuffer_builder.h:453-475 | the i-th scratch word is the i-th remembered vtable offset |
| `ScratchLists.RecordAt` | include/flatbuffers/flatbuffer_builder.h:325-330 | the i-th eight scratch bytes are the i-th field record |
| `FlatBufferBuilder.FlatBufferBuilder.Align` | include/flatbuffers/flatbuffer_builder.h:289-292 | pads the data to the alignment and records it |
| `FlatBufferBuilder.FlatBufferBuilder.PreAlign` | include/flatbuffers/flatbuffer_builder.h:516-520 | pads so that the coming bytes end aligned, nothing for no bytes |
| `FlatBufferBuilder.FlatBufferBuilder.PushElement` | include/flatbuffers/flatbuffer_builder.h:310-315 | an aligned little-endian scalar in front of the data |
| `FlatBufferBuilder.FlatBufferBuilder.ReferTo` | include/flatbuffers/flatbuffer_builder.h:367-391 | aligns, and returns the distance from the coming slot to the object |
| `FlatBufferBuilder.FlatBufferBuilder.TrackField` | include/flatbuffers/flatbuffer_builder.h:325-330 | one more field record in scratch, the largest field id kept |
| `FlatBufferBuilder.FlatBufferBuilder.AddElement` | include/flatbuffers/flatbuffer_builder.h:333-337 | refines adding a scalar field, elided when it is the default and defaults are not forced |
| `FlatBufferBuilder.FlatBufferBuilder.AddOffset` | include/flatbuffers/flatbuffer_builder.h:343-346 | refines adding a reference field, nothing for the null offset |
| `FlatBufferBuilder.FlatBufferBuilder.FillFields` | include/flatbuffers/flatbuffer_builder.h:433-452 | the loop over the scratch records writes each field's distance into the vtable in front of the data and nothing else |
| `FlatBufferBuilder.FlatBufferBuilder.FindVTable` | include/flatbuffers/flatbuffer_builder.h:453-475 | the loop over scratch finds the first remembered vtable that equals the new one byte for byte, and none only if there is none |
| `FlatBufferBuilder.FlatBufferBuilder.ShareVTable` | include/flatbuffers/flatbuffer_builder.h:453-475 | a found vtable is used and the new one taken out again, otherwise the new one is remembered |
| `FlatBufferBuilder.FlatBufferBuilder.EndTable` | include/flatbuffers/flatbuffer_builder.h:418-484 | refines the functional EndTable: vtable filled, shared or new, and the table's signed offset to it written |
| `FlatBufferBuilder.FlatBufferBuilder.CreateString` | include/flatbuffers/flatbuffer_builder.h:1375-1381 | refines writing length, bytes and terminator; returns the offset |
| `FlatBufferBuilder.FlatBufferBuilder.CreateSharedString` | include/flatbuffers/flatbuffer_builder.h:604-624 | refines writing the string, looking it up in the pool and taking it out again if found |
| `FlatBufferBuilder.FlatBufferBuilder.CreateVector` | include/flatbuffers/flatbuffer_builder.h:738-762 | refines writing a vector of scalars with its length in front |
| `FlatBufferBuilder.FlatBufferBuilder.CreateOffsetVector` | include/flatbuffers/flatbuffer_builder.h:786-790 | refines writing a vector of references, last element first |
| `FlatBufferBuilder.FlatBufferBuilder.CreateVectorOfStrings` | include/flatbuffers/flatbuffer_builder.h:877-898 | refines writing the strings and the vector of their offsets, parked in scratch meanwhile; the vtable list in scratch is as before |
| `FlatBufferBuilder.FlatBufferBuilder.Finish` | include/flatbuffers/flatbuffer_builder.h:1258-1283 | refines aligning the whole buffer to its largest alignment and writing the root offset |
| `Objects.CreateStringReads` | include/flatbuffers/flatbuffer_builder.h:1375-1381 | a created string reads back byte for byte with its terminator, aligned, older bytes untouched |
| `Objects.CreateVectorReads` | include/flatbuffers/flatbuffer_builder.h:677-685 | a created vector reads back byte for byte; length and elements are aligned and adjacent |
| `Objects.VectorElementReads` | include/flatbuffers/vector.h:192-195 | Get(i) on a vector of scalars is the i-th word of what was written |
| `Objects.CreateOffsetVectorReads` | include/flatbuffers/flatbuffer_builder.h:786-790 | element i of a created vector of references leads to the i-th object |
| `Objects.FinishFacts` | include/flatbuffers/flatbuffer_builder.h:1258-1283 | the finished size is a multiple of the largest alignment, GetRoot finds the root, older bytes untouched |
| `LeastSizes.StringLeast` | include/flatbuffers/flatbuffer_builder.h:1375-1381 | a string takes its bytes, a terminator, its length and the fewest zeros that align it to four, in front of an unchanged buffer |
| `LeastSizes.VectorLeast` | include/flatbuffers/flatbuffer_builder.h:677-685 | a vector of elements of at most four bytes, or an empty one, takes its bytes, its length and the fewest zeros to a multiple of four; the alignment on record is the greater of what it was and four |
| `LeastSizes.WideVectorLeast` | include/flatbuffers/flatbuffer_builder.h:677-685 | larger elements take the least padding to their own size, and the length in front of them none |
| `LeastSizes.OffsetVectorLeast` | include/flatbuffers/flatbuffer_builder.h:786-790 | a vector of references takes four bytes each, its length and the least padding to four |
| `LeastSizes.FinishLeast` | include/flatbuffers/flatbuffer_builder.h:1258-1283 | finishing adds the root's offset and the fewest zeros that bring the size to a multiple of the alignment on record, or of four if that is more |
| `TableRoundTrip.EndTableLookup` | include/flatbuffers/table.h:29-43 | through the vtable a finished table uses, shared or not, each recorded field is found at its position and every other field is absent |
| `TableRoundTrip.CreateTableReads` | include/flatbuffers/table.h:45-60 | for distinct fields added in any order every accessor returns what was added, elided defaults included; other fields are absent; stored fields are aligned; older bytes untouched |
| `LeastSizes.FieldLeast` | include/flatbuffers/flatbuffer_builder.h:310-346 | an elided field changes nothing; a stored one takes its width and the least padding to it, and its end is recorded with its id |
| `LeastSizes.VTableLeast` | include/flatbuffers/flatbuffer_builder.h:418-452 | the vtable of a finished table ends with the last stored field, whatever other fields were elided, and names the size of the table |
| `LeastSizes.TableLeast` | include/flatbuffers/flatbuffer_builder.h:418-484 | a finished table is its fields, its first word at the least padding, and its vtable only if that is new; the alignment on record is the greatest of what it was, four, and the widths of the stored fields |
| `TableRoundTrip.UsedVTableEven` | include/flatbuffers/flatbuffer_builder.h:418-483 | the vtable a finished table uses, new or shared, lies at an even distance from the end, and with it all its two-byte words |
| `VTableSharing.NotFoundMeansNew` | include/flatbuffers/flatbuffer_builder.h:453-475 | a vtable that is remembered differs from every vtable remembered before |
| `VTableSharing.EndTableKeepsVTables` | include/flatbuffers/flatbuffer_builder.h:453-483 | EndTable keeps the remembered vtables readable and, with sharing on, pairwise different |
| `VTableSharing.SharingKeepsLookups` | include/flatbuffers/flatbuffer_builder.h:453-483 | from one state, the field-to-position map of the table is the same with sharing on and off |
| `VTablePositions.ParallelIffCongruent` | include/flatbuffers/flatbuffer_builder.h:310-315 | two runs of aligned scalars from different sizes keep their distance exactly when the distance is a multiple of each later width |
| `VTablePositions.PositionsAgree` | include/flatbuffers/flatbuffer_builder.h:418-484 | exact condition, on the places of the first fields, under which two tables of one shape, built on any two buffers, have the same field-to-position map |
| `VTablePositions.SharingPositionsAgree` | include/flatbuffers/flatbuffer_builder.h:453-483 | for every run and every table of it, exact condition under which the field-to-position map reached from the table is the same with sharing on and off |
| `VTablePositions.SharingMovesFields` | include/flatbuffers/flatbuffer_builder.h:453-475 | a run whose fourth table has its field at 7 with sharing on and at 5 with sharing off |
| `BuilderRuns.SharedStringFacts` | include/flatbuffers/flatbuffer_builder.h:604-624 | the returned offset reads as the string; if an equal string was pooled, the bytes are rolled back to what they were and a pooled offset is returned |
| `BuilderRuns.CreateVectorOfStringsReads` | include/flatbuffers/flatbuffer_builder.h:877-898 | element i of the vector reads as the i-th input string |
| `BuilderRuns.StepKeepsRunOk` | include/flatbuffers/flatbuffer_builder.h:604-624 | every operation keeps, of every object built so far, that it reads back as given |
| `BuilderRuns.BuildThenRead` | include/flatbuffers/flatbuffer_builder.h:1258-1283 | for every sequence of strings, shared strings, vectors, vectors of references or strings and tables, every object of the finished buffer reads back as given and every datum is aligned from the start of the buffer: lengths, elements, fields, offsets, the strings inside a vector, and vtable words |
| `BuilderRuns.SharedStringsShared` | include/flatbuffers/flatbuffer_builder.h:604-624 | in every run, two shared strings have the same offset exactly when they are equal |
| `BuilderRuns.VTablesStayDifferent` | include/flatbuffers/flatbuffer_builder.h:453-475 | in every run with sharing on, the remembered vtables are readable and pairwise different |
| `BuilderRuns.SharingKeepsMeaning` | include/flatbuffers/flatbuffer_builder.h:453-483 | in every run, each scalar field of each table reads the same value, and is stored or absent alike, with sharing on and off |
| `BuilderRuns.SharingKeepsReferences` | include/flatbuffers/flatbuffer_builder.h:453-483 | in every run, each reference field of each table leads to the same object, which reads as given, or is null alike, with sharing on and off |
| `Verifier.TableStartSound` | include/flatbuffers/verifier.h:183-198 | for arbitrary bytes: checking never reads outside the buffer, and an accepted table start has a vtable that can be read as a whole |
| `Verifier.FieldSound` | include/flatbuffers/table.h:124-132 | an accepted scalar field can be read inside the buffer |
| `Verifier.OffsetSound` | include/flatbuffers/verifier.h:259-270 | an accepted offset is the stored one and leads into the buffer, wrapping arithmetic included |
| `Verifier.PointerSound` | include/flatbuffers/table.h:144-148 | an accepted reference field is followed inside the buffer |
| `Verifier.VectorSound` | include/flatbuffers/verifier.h:145-159 | an accepted vector lies inside the buffer with all its elements, the overflow test on its length included |
| `Verifier.StringSound` | include/flatbuffers/verifier.h:135-142 | an accepted string lies inside the buffer and is followed there by a zero byte |
| `Verifier.TableStartComplete` | include/flatbuffers/verifier.h:183-198 | an aligned table with a readable aligned vtable is accepted |
| `Verifier.PointerComplete` | include/flatbuffers/verifier.h:259-270 | an aligned reference that leads forward into the buffer is accepted |
| `Verifier.StringComplete` | include/flatbuffers/verifier.h:135-142 | an aligned readable string with its terminator is accepted |
| `VerifierExact.VerifierExact` | include/flatbuffers/verifier.h:201-223 | for arbitrary bytes and all options, VerifyBuffer accepts exactly the buffers in which table, vtable, stored fields, offsets, method and payload lie where the buffer says, inside it, within the limits on size, depth and number of tables, the method terminated, and, while the alignment check is on, at multiples of their sizes |
| `VerifierExact.VectorExact` | include/flatbuffers/verifier.h:145-159 | a vector of elements of up to eight bytes is accepted exactly if it is aligned, complete, below the size limit for its elements and shorter than the buffer |
| `VerifierExact.AcceptedAligned` | include/flatbuffers/verifier.h:89-91 | with the alignment check on, in an accepted buffer the root table, a stored id, the two stored offsets, the method and the payload lie at multiples of four and the vtable at a multiple of two |
| `VerifierRun.Verifier.VerifyComplexity` | include/flatbuffers/verifier.h:280-284 | counts one more level and table and reports whether both limits hold |
| `VerifierRun.Verifier.VerifyTableStart` | include/flatbuffers/verifier.h:183-198 | the stateful check answers as the pure one, its counters advanced when it accepts |
| `VerifierRun.Verifier.VerifyRpcMessage` | include/rpc_generated.h:71-80 | answers as the pure check and leaves the depth as it was when it accepts |
| `VerifierRun.VerifyRpcBuffer` | include/flatbuffers/verifier.h:201-223 | on arbitrary bytes never reads outside the buffer; it accepts exactly the acceptable buffers, and then every accessor of the message is safe |
| `RpcMessage.TableSound` | include/rpc_generated.h:71-80 | whatever the counters, an accepted message table can be read through all four accessors |
| `RpcMessage.VerifierSound` | include/rpc_generated.h:59-80 | soundness: if VerifyBuffer accepts arbitrary bytes, every byte read by type, id, method and payload, through vtable, offsets, lengths, contents and terminator, lies inside the buffer |
| `RpcCodec.AcceptedDecodes` | src/NngUdsRpcPeerDial.cpp:95-106 | every accepted buffer can be decoded |
| `RpcCodec.EncodedSizeExact` | include/rpc_generated.h:110-122 | the size of a message is a closed expression in the sizes of method and payload and in which scalars are defaults, whichever argument is written first |
| `RpcWire.WireLayout` | include/rpc_generated.h:52-122 | every message has, at these byte positions, the root offset 16, a vtable of twelve bytes at 4 with the generated field numbers 4, 6, 8 and 10, the table at 16 with payload, method, id and type from its end to its front, and behind it the two objects, the one written first last |
| `RpcCodec.EncodeDecodes` | include/rpc_generated.h:110-122 | round trip: type, id, method and payload come back byte for byte, for every value of the type byte, every message below the size limit and both argument orders |
| `RpcCodec.EncodeAccepted` | include/flatbuffers/verifier.h:201-223 | completeness: every such message passes VerifyBuffer, alignment and the strict size test included |
| `RpcCodec.EncodeReceived` | src/NngUdsRpcPeerDial.cpp:95-112 | what one peer encodes, the other accepts and reads as exactly that message |
| `RpcBuilder.CreateRpcMessage` | include/rpc_generated.h:110-122 | the generated sequence of calls, run on the builder class, refines building the table of the four fields |
| `RpcBuilder.EncodeMessage` | src/NngUdsRpcPeerDial.cpp:228-232 | the bytes produced by the running builder are accepted by the other side's verifier and decode to what was passed in |
| `Peer.IdsDiffer` | src/NngUdsRpcPeerDial.cpp:205-208 | among at most 2^32 calls of a peer no two have the same wrapping 32-bit id |
| `Peer.AllocateOk` | src/NngUdsRpcPeerDial.cpp:226 | a new call keeps the peer's bookkeeping right |
| `Peer.InsertOk` | src/NngUdsRpcPeerDial.cpp:242-248 | inserting a promise replaces no other pending one |
| `Peer.EraseAndFailOk` | src/NngUdsRpcPeerDial.cpp:250-262 | erasing after a failed send or a time-out changes only this call, whether or not its entry is still there, and leaves its promise broken only if it was not fulfilled |
| `Peer.FulfilOk` | src/NngUdsRpcPeerDial.cpp:169-185 | a pending id belongs to a call with that id whose promise is not yet fulfilled; matching a reply keeps the bookkeeping right, and a reply under any other id changes nothing |
| `Peer.WakeOk` | src/NngUdsRpcPeerDial.cpp:264-273 | returning from the wait keeps the bookkeeping right |
| `RpcPeer.RpcPeer.RegisterMethod` | include/NngUdsRpcPeerDial.hpp:41-61 | the handler is found under its name from now on, every other one as before |
| `RpcPeer.RpcPeer.StartCall` | src/NngUdsRpcPeerDial.cpp:226-232 | takes the next id and builds bytes that the other side accepts as a request with this id, method and payload |
| `RpcPeer.RpcPeer.InsertPromise` | src/NngUdsRpcPeerDial.cpp:242-248 | the critical section before sending |
| `RpcPeer.RpcPeer.AllocFailed` | src/NngUdsRpcPeerDial.cpp:234-239 | a call whose message cannot be allocated has returned false with nothing stored under its id |
| `RpcPeer.RpcPeer.Sent` | src/NngUdsRpcPeerDial.cpp:250-257 | the result of sending decides between the wait and the failure path |
| `RpcPeer.RpcPeer.WaitFailed` | src/NngUdsRpcPeerDial.cpp:257-259 | the wait fails exactly if the promise is unresolved at the deadline; the entry is still there until the later critical section erases it |
| `RpcPeer.RpcPeer.EraseAndFail` | src/NngUdsRpcPeerDial.cpp:250-262 | afterwards the id is not pending and the call has returned false |
| `RpcPeer.RpcPeer.WakeUp` | src/NngUdsRpcPeerDial.cpp:264-273 | the call succeeds exactly if the promise holds a non-empty payload, and returns that payload |
| `RpcPeer.RpcPeer.TakeReply` | src/NngUdsRpcPeerDial.cpp:169-185 | fulfils and removes the pending promise of that id, if there is one, and nothing else |
| `RpcPeer.RpcPeer.RecvCb` | src/NngUdsRpcPeerListener.cpp:79-194 | for every received message, the running verifier, accessors, handler and builder do to the peer what `Callback` says, and end as it says |
| `RpcPeer.CallbackEnds` | src/NngUdsRpcPeerDial.cpp:87-203 | the callback stops without re-arming exactly if the message fails verification, and re-arms exactly if it verifies and, as a request, has the pointers that are followed and a reply that fits; it replies exactly to requests with a registered method, and the other side accepts the reply as the handler's answer under the request's id |
| `RpcPeer.CallbackIsSteps` | src/NngUdsRpcPeerListener.cpp:79-194 | what the callback does to peer, worker and network is a sequence of protocol steps, the reply leaving as the very bytes it built |
| `RpcPeer.CallIsSteps` | src/NngUdsRpcPeerDial.cpp:226-255 | call_remote up to the wait is a sequence of protocol steps, the request leaving as the very bytes built |
| `RpcPeer.CallEndsBySteps` | src/NngUdsRpcPeerDial.cpp:234-274 | the rest of call_remote, failed allocation, failed send, time-out, erase and wake-up, does to the peer what single protocol steps do, in any state the call can be in by then |
| `ProtocolSafety.StepKeepsInv` | src/NngUdsRpcPeerListener.cpp:201-251 | every step of either side keeps the system invariant |
| `ProtocolSafety.ReachableInv` | src/NngUdsRpcPeerDial.cpp:87-203 | the invariant holds after every run with at most 2^32 calls per peer |
| `ProtocolSafety.CallGetsItsOwnReply` | src/NngUdsRpcPeerDial.cpp:221-274 | correlation: a call that returns data got what the other side's handler for that method made of exactly this call's request; equal ids of the two directions never cross |
| `ProtocolSafety.HandlersRunAtMostOncePerCall` | src/NngUdsRpcPeerDial.cpp:114-140 | every handler run belongs to one call of the other side with that call's id, method and request, and no call is handled twice |
| `ProtocolSafety.PromisesFulfilledOnce` | src/NngUdsRpcPeerDial.cpp:169-185 | no step changes a promise that has been resolved |
| `ProtocolSafety.OnlyLateRepliesDiscarded` | src/NngUdsRpcPeerDial.cpp:169-185 | a reply is discarded as unknown only if its call has already returned failure, the race between time-out and erase included |
| `ProtocolProgress.EveryCallCanEnd` | src/NngUdsRpcPeerDial.cpp:234-273 | in every reachable state every call can end by steps of its own alone, with its id not pending and nothing else changed; a call waiting for an unresolved promise does so by timing out, and fails |
| `ProtocolProgress.UnreturnedCallsMove` | src/NngUdsRpcPeerDial.cpp:221-274 | in every reachable state, exactly the calls that have not returned have an enabled step of their own |
| `ProtocolProgress.OwnStepsBounded` | src/NngUdsRpcPeerDial.cpp:221-274 | in every run no call takes more than four steps of its own, fewer the further it is; no other step changes its phase |
| `ProtocolProgress.ReplyResolvesItsCall` | src/NngUdsRpcPeerDial.cpp:169-185 | in every reachable state a received reply resolves the promise of its call with the handler's answer and removes its entry exactly if the call has not returned, and otherwise changes nothing at the peer |
| `ProtocolProgress.LateReplyTakenInVain` | src/NngUdsRpcPeerDial.cpp:257-262 | a reply that is matched between the failed wait and the erase resolves the promise; the call still fails, its id is not pending, and the other calls are unchanged |
| `ProtocolProgress.WakesToItsAnswer` | src/NngUdsRpcPeerDial.cpp:264-273 | a call that wakes up to a resolved promise returns what the handler answered to it, and fails exactly if that is empty |
| `ProtocolProgress.OneMessagePerCall` | src/NngUdsRpcPeerListener.cpp:79-194 | in every reachable state a call has at most one message in the whole system, request or reply, on its way or with a worker |
| `ProtocolProgress.MessagesLeaveOnce` | src/NngUdsRpcPeerDial.cpp:87-92 | any message on its way can be lost or taken, whole, by any armed worker, and is then on its way no longer |
| `ProtocolSafety.TableEmptyAtRest` | src/NngUdsRpcPeerDial.cpp:242-262 | once all calls of a peer have returned, its pending table is empty |
| `ProtocolSafety.NoWorkerIsLost` | src/NngUdsRpcPeerListener.cpp:79-194 | no receive worker stops without re-arming, and one holding a message can always go on to re-arm |
| `ProtocolSafety.PoolKeepsItsSize` | src/NngUdsRpcPeerDial.cpp:202 | armed plus running workers stay constant in every run |
| `ProtocolRun.CallsCanSucceed` | src/NngUdsRpcPeerDial.cpp:221-274 | every method, request and non-empty answer has a run in which the call returns that answer and leaves nothing pending |
| `ProtocolRun.CallsCanFailAnswered` | src/NngUdsRpcPeerDial.cpp:257-262 | every method, request and answer has a run in which the promise is fulfilled with that answer and the call has failed all the same |
| `FlexWidths.HighBitsClearMeans` | include/flatbuffers/flexbuffers.h:188-198 | the shifted mask test is "below 2^bits" |
| `FlexWidths.WidthU` | include/flatbuffers/flexbuffers.h:188-198 | the chosen width holds the value and no narrower one does |
| `FlexWidths.WidthI` | include/flatbuffers/flexbuffers.h:200-203 | the chosen width holds the signed value in two's complement and no narrower one does |
| `FlexWidths.OffsetWidthLeast` | include/flatbuffers/flexbuffers.h:1525-1552 | the loop over widths always finds one equal to the width of its own offset, and it is the least width whose offset fits |
| `FlexWidths.WiderStillFits` | include/flatbuffers/flexbuffers.h:1606-1651 | an offset that fits at one width and index still fits at every greater width and smaller index, where alignment and stride move it further away |
| `FlexBuilder.ElemWidth` | include/flatbuffers/flexbuffers.h:1525-1552 | the loop as it runs returns that width; its final assertion is never reached |
| `FlexBuilder.ElementsFit` | include/flatbuffers/flexbuffers.h:1458-1462 | at the maximum width over all elements every inline integer and relative offset, the key vector's included, fits: the assertion of WriteOffset holds for all inputs |
| `FlexVectors.IntFits` | include/flatbuffers/flexbuffers.h:1564-1572 | a signed integer stored at its own or a greater width reads back |
| `FlexVectors.SlotDenotes` | include/flatbuffers/flexbuffers.h:1564-1572 | a value written into a slot it fits reads back through that slot |
| `FlexVectors.VectorDenotes` | include/flatbuffers/flexbuffers.h:1606-1662 | a created vector of values reads back as the vector of what they stand for |
| `FlexVectors.KeyVector` | include/flatbuffers/flexbuffers.h:1606-1662 | a created typed vector of keys reads back key by key |
| `FlexVectors.MapDenotes` | include/flatbuffers/flexbuffers.h:1174-1223 | a created map reads back with its keys and values in step, key-vector offset and width included |
| `FlexReader.PackUnpack` | include/flatbuffers/flexbuffers.h:867-869 | unpacking a packed type gives back width and type, and it fits a byte |
| `FlexReader.StrcmpCompares` | include/flatbuffers/flexbuffers.h:901-906 | comparing bytes up to the first zero orders keys as the string order does |
| `FlexReader.DenotesReads` | include/flatbuffers/flexbuffers.h:880-886 | the recursive reader returns exactly the tree a reference stands for |
| `FlexReader.DenotesGrows` | include/flatbuffers/flexbuffers.h:1606-1662 | what has been written keeps its meaning whatever is appended |
| `FlexOrder.SortOrderSorts` | include/flatbuffers/flexbuffers.h:1174-1223 | the order of the entries is sorted and has every entry once |
| `FlexOrder.SortPicked` | include/flatbuffers/flexbuffers.h:1174-1223 | what is taken in that order are the same items, each as often |
| `FlexOrder.SortUnique` | include/flatbuffers/flexbuffers.h:1678-1687 | for distinct keys any two sorted arrangements are the same, so any sorting algorithm gives this one |
| `FlexEmit.CanonOrdered` | include/flatbuffers/flexbuffers.h:1174-1223 | the map a reader sees has the same entries, in strictly increasing key order |
| `FlexRoundTrip.FindKeyFinds` | include/flatbuffers/flexbuffers.h:1073-1090 | the key pool finds an equal key exactly when there is one |
| `FlexRoundTrip.FindStringFinds` | include/flatbuffers/flexbuffers.h:1094-1111 | the string pool finds an equal string exactly when there is one |
| `FlexRoundTrip.SpansCompare` | include/flatbuffers/flexbuffers.h:1689-1699 | the pool's comparison of length and bytes identifies equal strings only |
| `FlexRoundTrip.KeyPushed` | include/flatbuffers/flexbuffers.h:1073-1090 | a pushed key, new or shared, reads back; stack below and buffer before are kept |
| `FlexRoundTrip.StringPushed` | include/flatbuffers/flexbuffers.h:1094-1111 | a pushed string, new or shared with the buffer rolled back, reads back with a zero byte directly behind its characters; the rest is kept |
| `FlexRoundTrip.BlobPushed` | include/flatbuffers/flexbuffers.h:1133-1135 | a pushed blob reads back byte for byte |
| `FlexRoundTrip.EmitPushed` | include/flatbuffers/flexbuffers.h:1153-1223 | emitting any tree pushes one value that stands for it, maps in key order, and disturbs nothing |
| `FlexRoundTrip.FinishReads` | include/flatbuffers/flexbuffers.h:1403-1419 | GetRoot of the finished bytes refers to what was on the stack |
| `FlexRoundTrip.EmittedTreeReadsBack` | include/flatbuffers/flexbuffers.h:930-938 | round trip: for every tree of nulls, booleans, integers, strings, blobs, vectors and maps with distinct NUL-free keys, with or without key and string sharing and for every forced width, reading the finished bytes recursively gives the tree with its maps in key order, every string terminated |
| `FlexLayout.VectorWidthIsLeast` | include/flatbuffers/flexbuffers.h:1611-1632 | the width of a vector is the least that is not below the forced one and suits its size, each element, and its keys, where they are estimated to lie |
| `FlexLayout.EndedVectorWidth` | include/flatbuffers/flexbuffers.h:1166-1172 | a finished vector has that width for its elements one slot apart |
| `FlexLayout.EndedMapWidths` | include/flatbuffers/flexbuffers.h:1174-1223 | keys and values of a finished map have that width for elements counted two slots apart; the prefix leads to the keys and names their width |
| `FlexLayout.KeyWidthLeast` | include/flatbuffers/flexbuffers.h:1611-1632 | the vector of a map's keys is as narrow as its keys, one slot apart, allow, exactly if each key also suits that width at twice its index |
| `FlexLayout.KeysWiderThanNeeded` | include/flatbuffers/flexbuffers.h:1611-1632 | four keys behind 250 bytes are stored in two bytes each where one would do |
| `FlexLayout.IntExact` | include/flatbuffers/flexbuffers.h:1013 | a signed integer claims the least width that keeps it under sign extension |
| `FlexLayout.UIntExact` | include/flatbuffers/flexbuffers.h:1019 | an unsigned integer claims the least width it fits |
| `FlexLayout.BoolExact` | include/flatbuffers/flexbuffers.h:1037 | a boolean and null claim one byte, as the numbers they are stored as would |
| `FlexLayout.VectorExact` | include/flatbuffers/flexbuffers.h:1639-1655 | a vector begins at the first multiple of its width that leaves room for its prefix, and takes its slots and, if untyped, one type byte each |
| `FlexLayout.InlineTypeNamesSlot` | include/flatbuffers/flexbuffers.h:1554-1560 | the type stored for an inline element names the width of the slot it lies in |
| `FlexLayout.BlobExact` | include/flatbuffers/flexbuffers.h:1575-1583 | a blob is padding, its size in the fewest bytes and its data, without a terminator |
| `FlexLayout.StringExact` | include/flatbuffers/flexbuffers.h:1094-1111 | under all flags a new string is padding, size, characters and one zero byte; with sharing on, exactly a string equal to a pooled one is not written and refers to it |
| `FlexLayout.KeyExact` | include/flatbuffers/flexbuffers.h:1073-1090 | under all flags a new key is its characters and one zero byte; with sharing on, exactly a key equal to a pooled one is not written and refers to it |
| `FlexLayout.RootExact` | include/flatbuffers/flexbuffers.h:1403-1419 | the root lies aligned in the least width that suits it directly behind the buffer, followed by its type and that width |
| `FlexLookup.BSearchFinds` | include/flatbuffers/flexbuffers.h:908-924 | binary search over the keys of a sorted map finds the index of the key, and none only if it is absent |
| `FlexLookup.LookupAgrees` | include/flatbuffers/flexbuffers.h:908-924 | in any bytes that read as a map in key order, lookup returns the entry's value, and null for an absent key |
| `FlexLookup.BuiltMapLookup` | include/flatbuffers/flexbuffers.h:344-351 | after building and finishing any map, lookup returns the value inserted under the key, and null for every other key |
| `FlexBuilder.Builder.WriteOffset` | include/flatbuffers/flexbuffers.h:1458-1462 | writes the distance back to the data, under the source's assertion |
| `FlexBuilder.Builder.Key` | include/flatbuffers/flexbuffers.h:1073-1090 | refines pushing a key with its pool |
| `FlexBuilder.Builder.CreateBlob` | include/flatbuffers/flexbuffers.h:1575-1583 | refines writing size, bytes and trailing zeros; nothing earlier changes |
| `FlexBuilder.Builder.String` | include/flatbuffers/flexbuffers.h:1094-1111 | refines pushing a string with its pool and roll-back; what is written is stated by `FlexLayout.StringExact` |
| `FlexBuilder.Builder.VectorWidth` | include/flatbuffers/flexbuffers.h:1612-1632 | the loop over the elements computes the width they all need |
| `FlexBuilder.Builder.CreateVector` | include/flatbuffers/flexbuffers.h:1606-1662 | refines laying out header, elements and types, for untyped vectors, typed ones of any element type and maps; the new value has the type that follows and lies in the buffer; width, place and size are stated by `FlexLayout.VectorWidthIsLeast` and `FlexLayout.VectorExact` |
| `FlexBuilder.Builder.EndVector` | include/flatbuffers/flexbuffers.h:1166-1172 | refines replacing the elements on the stack by the vector |
| `FlexBuilder.Builder.KeyLess` | include/flatbuffers/flexbuffers.h:1174-1223 | comparing two keys in the buffer by strcmp finds whether the one's characters come before the other's |
| `FlexBuilder.Builder.SortDict` | include/flatbuffers/flexbuffers.h:1174-1223 | sorting the pairs in place by comparing keys leaves no key in front of one that comes before it, and the same pairs, each as often; the rest of the stack is as it was |
| `FlexBuilder.Builder.EndMap` | include/flatbuffers/flexbuffers.h:1174-1223 | refines sorting the pairs and writing key vector and value vector |
| `FlexBuilder.Builder.Finish` | include/flatbuffers/flexbuffers.h:1403-1419 | refines writing the root, its packed type and its width |
| `FlexWriter.EmitTree` | include/flatbuffers/flexbuffers.h:1007-1111 | driving the class over a tree refines emitting it |
| `FlexWriter.WriteTree` | include/flatbuffers/flexbuffers.h:1403-1419 | the bytes produced by the running builder read back as the tree, maps in key order |
| `Utf8.AcceptsTheSyntax` | include/flatbuffers/util.h:527-568 | decoding succeeds exactly where the UTF8-char syntax of section 4 of RFC 3629 matches, and consumes exactly its bytes: no overlong form, no surrogate, nothing above 10FFFF |
| `Utf8.AcceptedIsEncoded` | include/flatbuffers/util.h:527-568 | any prefix that is accepted is the encoding of the code point it gives |
| `Utf8.EncodedIsAccepted` | include/flatbuffers/util.h:527-568 | the encoding of every scalar value, in any surroundings, is accepted as that value |
| `Utf8.DecodesEncoded` | include/flatbuffers/util.h:499-568 | repeated decoding of concatenated encodings recovers the sequence of scalar values and ends at their end |
| `Utf8.EncodesDecoded` | include/flatbuffers/util.h:499-568 | bytes that decode to the end are the encoding of what they decode to |
| `Utf8.FormIsEncoded` | include/flatbuffers/util.h:499-521 | the general 1-to-6-byte form agrees with the table of RFC 3629 up to 10FFFF |
| `Utf8.FormReads` | include/flatbuffers/util.h:499-521 | the five- and six-byte forms announce their length in the first byte and hold every bit of the number, six to a byte |
| `Utf8.ToUTF8` | include/flatbuffers/util.h:499-521 | the loop with its shifts and masks appends exactly the encoding and returns its length |
| `Utf8.CountLeadingOnes` | include/flatbuffers/util.h:527-540 | the bit loop counts the leading one bits, six at most |
| `Utf8.FromUTF8` | include/flatbuffers/util.h:527-568 | the loop as it runs on terminated text returns code point and next position where decoding succeeds, -1 where it does not |
| `EscapeString.UnitsCover` | include/flatbuffers/util.h:599-667 | splitting any bytes into code points and stray bytes loses nothing |
| `EscapeString.WellFormedDecodes` | include/flatbuffers/util.h:599-667 | no stray byte is met exactly when the bytes are the encoding of some code points |
| `EscapeString.PointReads` | include/flatbuffers/util.h:640-655 | the escape of any code point, surrogate pairs included, is read back as that code point by the string syntax of section 7 of RFC 8259 |
| `EscapeString.EscapeUnitForm` | include/flatbuffers/util.h:599-667 | each escape has exactly one form: printable ASCII other than quote and backslash stands for itself, seven characters take their two-byte form, every other code point one or two \uXXXX and a stray byte \xXX, with upper-case digits |
| `EscapeString.PrintableUnchanged` | include/flatbuffers/util.h:614-615 | printable ASCII without quotes and backslashes comes out unchanged between two quotes |
| `EscapeString.UnescapesEscaped` | include/flatbuffers/util.h:599-667 | unescaping an escaped sequence of code points (and, with the \x form allowed, stray bytes) gives it back |
| `EscapeString.UnescapeEscaped` | include/flatbuffers/util.h:599-667 | the output for encoded text, read as an RFC 8259 string, is the text's code points |
| `EscapeString.EscapedInjective` | include/flatbuffers/util.h:599-667 | with non-UTF-8 bytes allowed, different byte strings have different outputs |
| `EscapeString.EscapeOther` | include/flatbuffers/util.h:611-661 | the branch for characters without a short escape: fails exactly on a stray byte that is not allowed, otherwise gives its escape |
| `EscapeString.EscapeString` | include/flatbuffers/util.h:599-667 | succeeds exactly on well-formed UTF-8, or always when other bytes are allowed, and appends the escaped string; when it fails, the quote and the escapes of what comes before the first stray byte have been appended |

## Left out

- Floats in both formats, structs and sorted tables, file identifiers, size prefixes and nested buffers: further cases of the same writing and reading.
- Reading FlexBuffers typed vectors other than the key vectors of maps, fixed-length vectors, indirect integers, mutation, ToString, ReuseValue and Undo, and the flag for duplicate keys.
- The FlexBuffers verifier: its key check stops at the first non-zero byte (include/flatbuffers/flexbuffers.h:1842-1847), so it does not establish the terminator a reader of keys needs, and its depth is not restored when a reuse is detected.
- The 64-bit builder, `Offset64`, `SizeVerifier`, 32-bit `size_t` and big-endian machines.
- Custom allocators, builder moves and swaps, `DetachedBuffer`, and reuse of a builder after `Clear` or `Reset`: ownership code without a further functional property. Allocation is taken to succeed, and no single allocation reaches 2^64 bytes.
- The transport library: sockets, pipes, aio objects, ownership of message memory, logging, start and stop. Sending, losing, reordering and delivering are nondeterministic steps; messages from anything but a peer are not injected, since a message that fails verification does lose its worker (src/NngUdsRpcPeerDial.cpp:96-102), as `RpcPeer.CallbackEnds` states.
- What happens after a crash: a verified request without a method, or without a payload for a registered method, makes the request branch follow a null pointer (src/NngUdsRpcPeerDial.cpp:118-123), and a reply above the size limit fails the builder's assertion. `Callback` ends as `Crashed` there, and the protocol has no step for it; `call_remote` never sends such a request.
- Real time and scheduling: the three-second wait may time out whenever its promise is unresolved, and that a thread with an enabled step takes it is not stated.
- Handlers are any function of the request bytes in `RpcPeer` and any choice of reply in `Protocol`; the typed wrapper that `register_method` puts around them is not modelled.
- More than 2^32 calls of one peer: ids wrap, and a wrapped id can meet a pending call.
- The natural-UTF-8 mode of string escaping, which copies control characters as they are.
- The algorithms behind `std::sort` and `std::set`: maps are sorted by insertion and pools searched in order; `FlexOrder.SortUnique` and the pool lemmas show that the results are determined by what the library promises of them.
- `ReadTree` takes the nesting depth as fuel; `EmittedTreeReadsBack` supplies exactly the depth of the tree.
- RpcMessage.VerifierSound: buffers of at most PTRDIFF_MAX bytes, as any C++ object is; the verifier itself asserts the smaller FLATBUFFERS_MAX_BUFFER_SIZE.
- EscapeString.EscapeString: inputs shorter than 2^32 bytes, the range of its length parameter.
- FlexRoundTrip.EmittedTreeReadsBack: buffers below 2^54 bytes only, so that no 64-bit position wraps.
- VTableSharing.SharingKeepsLookups: equal positions are claimed for one table from one state; over whole runs they hold exactly under the condition of `VTablePositions.SharingPositionsAgree`.
