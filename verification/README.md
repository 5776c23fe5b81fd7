# VFV collaboration server and CHI'20 study extraction, in Dafny

This project models the core of the SciVis collaboration server. Tablets and
headsets connect to it over TCP and send big-endian framed messages. It also
models the script that turns the server's study logs into per-tablet
annotation records.

The modules, in dependency order:

- `Common`: machine integer types, 32-bit wrap-around, and `Float`, kept as its IEEE-754 bit pattern.
- `BigEndian`: the big-endian byte codec for 32- and 16-bit values.
- `BufferValue`: `VFVBufferValue<T>`, the byte accumulator the sockets fill value by value.
- `WriteData`: `writeUint32`, `writeUint16` and `writeFloat`, writing into a byte array, with the round trip back through a `BufferValue`.
- `DataValues`: the values a message schema receives, and the widening done by the base `pushValue` overloads.
- Message schemas, each a value with `TypeAt`, `MaxCursor` and `Push` (the C++ `getTypeAt`, `getMaxCursor` and `pushValue`):
  - `SimpleInfo`: fixed layouts;
  - `ListInfo`: count-then-items layouts (Lasso, VTK dataset, mapped indices);
  - `AnnotationInfo`: strokes, texts, and the nested annotation parser.
- `DataInformation`: the union of those schemas. It also defines `Deliver`, which feeds a sequence of typed fields to a schema the way the socket does.
- `SchemaWire`, `AnnotationWire`: per-schema proofs that the field sequence a sender writes parses back to the record sent.
- `ClientMessage`: the message type enumeration, `VFVMessage::setType`, the default constructor and `operator=`.
- `FrameParser`: the resumable state machine of `VFVClientSocket::feedMessage` as a pure function `Run`. It is proved to:
  - read a well-formed frame back (`MessageRoundTrip`);
  - refuse unknown types (`TypeRefused`);
  - be insensitive to how the byte stream is cut into calls (`RunAppend`, `RunEachJoined`).
- `ClientSocket`: the `VFVClientSocket` class. Its members are the cursor, the current message, the queue, the identity and four `BufferValue` objects. Its `FeedMessage` loop is proved equal to `Run`. It also has `PullMessage` and the tablet/headset binding.
- `LocationSocket`: `LocationClientSocket`, the seven-float location frame parser, and its queue.
- `FluidDataset`: the per-dataset colour and rotation state.
- `AnchorHeadsetData`: the segment accumulator.
- `Server`: `VFVServer::onMessage`. It is a pure specification over a map of dataset states (`Handle`), plus a class holding a map of `FluidDataset` objects whose methods are proved against it. Both are parameterised by the ADD_DATASET case (`AddVariant`): `AsWritten` is the inverted check of the source, `Corrected` the evidently intended one (see Findings).
- `Tablet`: `TabletData` from the analysis script, i.e. pending and committed annotations in per-study, per-technique buckets.
- `ExtractStudy`: the per-file event loop of the analysis script and the loop over files.

The socket's payload structs for datasets and colours are not part of this
model. The socket is therefore generic in its payload type `S`. It is given a
`Protocol`: the schema functions and `blank`, the payload `setType` constructs
for each handled type. `FrameParser.SocketProtocol` instantiates it with the
modelled schemas (`VFVIdentTabletInformation` and `VFVRotationInformation`),
the dataset and colour payloads given. The server instantiates `S` with
`Server.ServerPayload`, the members `onMessage` reads.

## Model

| member | source | states |
|---|---|---|
| BigEndian.Decode32Encode32 | include/VFVBufferValue.h:59-65 | decoding the four bytes a 32-bit value encodes to gives that value back |
| BigEndian.Encode32Decode32 | include/VFVBufferValue.h:59-65 | encoding a decoded four-byte sequence gives the same four bytes, so the codec is a bijection |
| BigEndian.Decode16Encode16 | include/VFVBufferValue.h:68-71 | decoding the two bytes of a 16-bit value gives that value back |
| BigEndian.Encode16Decode16 | include/VFVBufferValue.h:68-71 | encoding a decoded two-byte sequence gives the same two bytes |
| BigEndian.Encode32Injective | include/writeData.h:8-14 | two different 32-bit values never write the same four bytes |
| BufferValue.FullMeaning | include/VFVBufferValue.h:46-49 | `isFull` (length equal to `maxSize` read as unsigned) holds exactly when `maxSize` is non-negative and equals the length; a negative size is never full |
| BufferValue.BufferValue.constructor | include/VFVBufferValue.h:13-17 | a new buffer has the given maximum size and no bytes |
| BufferValue.BufferValue.Clear | include/VFVBufferValue.h:23-26 | the buffer becomes empty and `maxSize` is unchanged |
| BufferValue.BufferValue.PushValue | include/VFVBufferValue.h:30-33 | exactly the given byte is appended at the end; earlier bytes and `maxSize` are unchanged |
| BufferValue.BufferValue.SetMaxSize | include/VFVBufferValue.h:37-42 | only `maxSize` changes; the bytes are untouched |
| BufferValue.BufferValue.GetUint32 | include/VFVBufferValue.h:59-65 | the result is the value whose big-endian encoding is the first four buffered bytes |
| BufferValue.BufferValue.GetUint16 | include/VFVBufferValue.h:68-71 | the result is the value whose big-endian encoding is the first two buffered bytes |
| BufferValue.BufferValue.GetFloat | include/VFVBufferValue.h:76-84 | the result's bit pattern is the big-endian reading of the first four buffered bytes |
| BufferValue.BufferValue.GetString | include/VFVBufferValue.h:89-94 | the result is exactly the buffered bytes (empty for an empty buffer) |
| WriteData.WriteUint32 | include/writeData.h:8-14 | the four bytes at the offset become the big-endian encoding of the value; every other byte of the array is unchanged |
| WriteData.WriteUint16 | include/writeData.h:16-20 | the two bytes at the offset become the big-endian encoding; every other byte is unchanged |
| WriteData.WriteFloat | include/writeData.h:22-33 | the four bytes at the offset encode the float's bit pattern; every other byte is unchanged |
| WriteData.Uint32RoundTrip | include/writeData.h:8-14 | pushing the four bytes `writeUint32` wrote into a 4-byte `BufferValue` fills it, and `getValue` returns the value written |
| WriteData.Uint16RoundTrip | include/writeData.h:16-20 | the same for `writeUint16` and a 2-byte buffer |
| WriteData.FloatRoundTrip | include/writeData.h:22-33 | the same for `writeFloat` and the float buffer: the same bit pattern comes back |
| DataValues.Widen | include/VFVDataInformation.h:64-72 | every integer overload (`int16_t`, `uint16_t`, `int32_t`, `uint8_t`) reaches the `uint32_t` overload, and of the modelled scalars only the float reaches the float overload |
| DataValues.WidenNonNegative | include/VFVDataInformation.h:66-71 | a non-negative narrower integer arrives unchanged in value |
| DataValues.NegativeInt16WidensTo16Bits | include/VFVDataInformation.h:67-69 | a negative `int16_t` goes through `uint16_t` and arrives as v + 2^16, while a negative `int32_t` arrives as v + 2^32 |
| SimpleInfo.ClearAnnotations.Push | include/VFVDataInformation.h:107-131 | a value is accepted iff it is a uint32 at cursor 0 or 1; a refused value changes nothing |
| SimpleInfo.AnchorAnnotation.Push | include/VFVDataInformation.h:145-182 | a value is accepted iff it is a uint32 at cursor 0-1 or a float at cursor 2-4; a refused value changes nothing; the annotation and headset ids are never set by the wire |
| SimpleInfo.StartAnnotation.Push | include/VFVDataInformation.h:199-225 | a value is accepted iff it is a uint32 at cursor 0-2; a refused value changes nothing |
| SimpleInfo.AnchoringDataStatus.Push | include/VFVDataInformation.h:310-332 | a value is accepted iff it is a uint32 at cursor 0; then `succeed` holds iff the value is non-zero |
| SimpleInfo.DefaultByteArray.Push | include/VFVDataInformation.h:346-372 | only a byte array at cursor 0 is accepted, and it becomes the data with its size |
| SimpleInfo.RotationInformation.Push | include/VFVDataInformation.h:1277-1320 | a value is accepted iff it is a uint32 at cursor 0-1 or a float at cursor 2-5; the headset id is never set by the wire |
| SimpleInfo.IdentTabletInformation.Push | include/VFVDataInformation.h:1336-1378 | a value is accepted iff it is a string at cursor 0 or a uint32 at cursor 1-2; `paired` is never set by the wire |
| ListInfo.Lasso.Push | include/VFVDataInformation.h:1701-1757 | a uint32 is accepted only at cursor 0 and a float only at cursors 1..size; an accepted float is appended to the data in order |
| ListInfo.VTKDatasetInformation.Push | include/VFVDataInformation.h:1823-1870 | a string is accepted only at cursor 0 and every uint32 is accepted; a uint32 never changes the name |
| ListInfo.Resize | include/VFVDataInformation.h:2378-2379 | `std::vector::resize`: the new length is n, the first elements are kept, and new elements are zero |
| ListInfo.SetDrawableAnnotationPositionMappedIdx.Push | include/VFVDataInformation.h:2357-2389 | only uint32 values at cursors up to 3 + size are accepted; from cursor 4 on, exactly entry cursor-4 of the index array is set |
| AnnotationInfo.AnnotationStroke.Push | include/VFVDataInformation.h:405-438 | a uint32 is accepted only at cursor 0 (colour) or 2 (point count); floats go to the corrected `PushFloat`; strings and byte arrays are refused; a refused value changes nothing |
| AnnotationInfo.AnnotationStroke.PushFloat | include/VFVDataInformation.h:421-438 | corrected float push: accepted at cursor 1 (width) or at a point cursor; a point value goes to the y list when (cursor-3) is odd and to the x list otherwise; a refused value changes nothing |
| AnnotationInfo.AnnotationStroke.PushFloatAsWritten | include/VFVDataInformation.h:421-438 | the float push as written: accepted at cursor 1 (width) or at a point cursor; every point value, x or y, is appended to the x list, and one at an odd offset to the y list as well; a refused value changes nothing |
| AnnotationInfo.StrokeAsWrittenMixesCoordinates | include/VFVDataInformation.h:431-433 | the as-written push, given one point (x, y), leaves x list [x, y] and y list [y] |
| AnnotationInfo.AnnotationText.Push | include/VFVDataInformation.h:448-506 | a value is accepted iff it is a uint32 at 0, a float at 1-2 or a string at 3; a refused value changes nothing |
| AnnotationInfo.Annotation.CheckCreate | include/VFVDataInformation.h:618-636 | starting a new sub-record never alters the strokes and texts already finished |
| AnnotationInfo.Annotation.SubPush | include/VFVDataInformation.h:538-574 | a value the current sub-record accepts records its cursor as the last cursor |
| AnnotationInfo.Annotation.Push | include/VFVDataInformation.h:576-608 | each of the seven header uint32 values is accepted, and every accepted value records its cursor |
| DataInformation.Push | include/VFVDataInformation.h:64-74 | pushing a value never changes which of the fourteen schemas a payload belongs to; a refused value changes nothing, except in an annotation |
| AnnotationInfo.RefusedPushStartsStroke | include/VFVDataInformation.h:538-574 | an annotation that refuses a value may still change: a string sent as the first value of a stroke is refused, yet the stroke is started |
| SchemaWire.ClearAnnotationsWire | include/VFVDataInformation.h:107-143 | the two ids a sender writes are parsed back into the same record, and the message is complete right after the second |
| SchemaWire.AnchorAnnotationWire | include/VFVDataInformation.h:145-196 | the two ids and the three position floats are parsed back; the annotation and headset ids keep -1; complete right after the fifth field |
| SchemaWire.StartAnnotationWire | include/VFVDataInformation.h:199-238 | the three ids are parsed back; complete right after the third |
| SchemaWire.RotationWire | include/VFVDataInformation.h:1277-1333 | the two ids and the four quaternion floats are parsed back; the headset id keeps -1; complete right after the sixth field |
| SchemaWire.IdentTabletWire | include/VFVDataInformation.h:1336-1391 | address, handedness and tablet id are parsed back; `paired` keeps false |
| SchemaWire.AnchoringDataStatusNeverReceived | include/VFVDataInformation.h:314-320 | the schema announces the code 'b', which no field the socket reads carries, so no field is ever delivered to it |
| SchemaWire.NoDataReceivesNothing | include/VFVDataInformation.h:90-105 | the no-data schema is complete before any field (max cursor -1) and refuses every field |
| SchemaWire.LassoWire | include/VFVDataInformation.h:1701-1757 | a size n followed by n floats is parsed back into the same lasso, complete right after the last float |
| SchemaWire.VTKDatasetWire | include/VFVDataInformation.h:1823-1906 | the name, the point-field count and indices, then the cell-field count and indices are parsed back, complete right after the last index |
| SchemaWire.MappedIdxWire | include/VFVDataInformation.h:2357-2411 | the three ids, the count and that many indices are parsed back (the count resizes the list, each index fills its slot), complete right after the last index |
| AnnotationWire.AnnotationRoundTrip | include/VFVDataInformation.h:509-663 | with the corrected stroke push, the header, every stroke and every text of an annotation whose counts match its records are parsed back, and the message is complete right after its last field |
| ClientMessage.SetType | include/VFVClientSocket.h:117-147 | returns true iff the type is handled or NOTHING; an out-of-range type leaves the message unchanged; an in-range type is stored even when refused (IDENT_HOLOLENS, END_MESSAGE_TYPE); a handled type gets a fresh payload |
| ClientMessage.NewMessage | include/VFVClientSocket.h:78-79 | a new message has type NOTHING, which is not a handled type |
| ClientMessage.Assign | include/VFVClientSocket.h:86-115 | self-assignment changes nothing; otherwise the type is copied (when in range) together with the payload of that type only |
| FrameParser.Fill | src/VFVClientSocket.cpp:16-41 | the bytes moved into the buffer plus the bytes left are the buffer's old bytes plus the input; the buffer ends full or the input is used up; a full buffer takes nothing |
| FrameParser.FillAppend | src/VFVClientSocket.cpp:16-41 | filling from two pieces in turn is filling from their concatenation |
| FrameParser.ReadType | src/VFVClientSocket.cpp:84-101 | the type stage consumes at least one byte of non-empty input, never touches the queue, and a successful stage leaves a consistent parser |
| FrameParser.ReadScalar | src/VFVClientSocket.cpp:146-183 | a scalar stage consumes input, never moves the cursor back, and keeps the queue and the message type |
| FrameParser.ReadString | src/VFVClientSocket.cpp:43-64 | the length-then-bytes stage consumes input, never moves the cursor back, and keeps the queue and the message type |
| FrameParser.Run | src/VFVClientSocket.cpp:72-200 | a successful feed leaves a consistent parser, and the queue only grows at its end |
| FrameParser.ScalarRead | src/VFVClientSocket.cpp:146-183 | a full 4- or 2-byte value hands its decoded value to the schema, and on acceptance the cursor advances by exactly one with the buffer cleared |
| FrameParser.LengthRead | src/VFVClientSocket.cpp:43-56 | four bytes of big-endian length set the string buffer's size to that length, with nothing buffered yet |
| FrameParser.StringRead | src/VFVClientSocket.cpp:132-144 | a length followed by that many bytes delivers exactly those bytes as one string and resets the string size to -1 |
| FrameParser.FieldsRead | src/VFVClientSocket.cpp:130-195 | the wire form of a field sequence the schema accepts in full, up to its last cursor, queues that payload and restarts at the type stage on the bytes after it |
| FrameParser.MessageRoundTrip | src/VFVClientSocket.cpp:72-200 | a type code followed by the fields of a complete payload queues exactly that message at the end of the queue, resets the current type to NOTHING, and parsing goes on with the next bytes |
| FrameParser.TypeRefused | src/VFVClientSocket.cpp:84-101 | a type code `setType` refuses makes the feed return false, after `setType` has had its effect on the current message |
| FrameParser.RunAppend | src/VFVClientSocket.cpp:72-200 | feeding x + y is feeding x and then, if that succeeded, y from where x left off; a failure on x is the failure on x + y |
| FrameParser.RunEachJoined | include/VFVClientSocket.h:184-198 | because cursor, buffers and queue are members, feeding a byte stream cut into any chunks, one call per chunk, gives the same result and the same queue as one call |
| FrameParser.SocketProtocol | include/VFVClientSocket.h:117-146 | the socket's protocol over the modelled schemas constructs a payload for every handled type |
| FrameParser.SocketProtocolNoEmptyMessage | include/VFVClientSocket.h:117-146 | no fresh tablet or rotation payload is complete before its first value, so the socket's protocol meets the hypothesis of `RunAppend` when the dataset and colour payloads do |
| ClientSocket.FillBuffer | src/VFVClientSocket.cpp:16-41 | the `PUSH_*` loop moves bytes into a `BufferValue` exactly as `Fill` describes and returns where the input stops |
| ClientSocket.VFVClientSocket.constructor | src/VFVClientSocket.cpp:5-8 | cursor -1, current type NOTHING, string buffer size -1, empty buffers and queue |
| ClientSocket.VFVClientSocket.ReadTypeStage | src/VFVClientSocket.cpp:84-101 | the type stage on the object does what `ReadType` states |
| ClientSocket.VFVClientSocket.ReadScalarStage | src/VFVClientSocket.cpp:146-183 | each scalar case on the object does what `ReadScalar` states |
| ClientSocket.VFVClientSocket.ReadLengthStage | src/VFVClientSocket.cpp:43-56 | the length part of `PUSH_STRING` does what `ReadLength` states |
| ClientSocket.VFVClientSocket.ReadStringStage | src/VFVClientSocket.cpp:132-144 | the string case does what `ReadString` states |
| ClientSocket.VFVClientSocket.ReadValueStage | src/VFVClientSocket.cpp:130-187 | the switch on the schema's type code does what `ReadValue` states, refusing unknown codes |
| ClientSocket.VFVClientSocket.ReadFieldStage | src/VFVClientSocket.cpp:130-195 | one value stage plus the completion check does what `ReadField` states |
| ClientSocket.VFVClientSocket.FeedMessage | src/VFVClientSocket.cpp:72-200 | the result and the new parser state are those of `Run` on the old state, so all of `Run`'s properties hold of the object; identity and binding are untouched |
| ClientSocket.VFVClientSocket.PullMessage | src/VFVClientSocket.cpp:228-237 | false on an empty queue with nothing changed; otherwise returns the oldest message and removes it (FIFO) |
| ClientSocket.VFVClientSocket.SetAsHololens | src/VFVClientSocket.cpp:222-226 | always succeeds and makes the client a headset; nothing else changes |
| ClientSocket.VFVClientSocket.SetAsTablet | src/VFVClientSocket.cpp:202-219 | succeeds iff the client is on the tablet port and the address is valid; on the tablet port the identity becomes tablet even when the address is refused; the address is bound only on success |
| LocationSocket.LocationMessage.With | src/LocationClientSocket.cpp:28-75 | setting field i changes field i and no other field |
| LocationSocket.Fields | src/LocationClientSocket.cpp:28-75 | the field loop never changes a field before the one it starts at, and never consumes more than its input |
| LocationSocket.Feed | src/LocationClientSocket.cpp:5-81 | a call succeeds iff it receives at least one byte; an empty call changes neither message nor buffer |
| LocationSocket.FieldsExhausted | src/LocationClientSocket.cpp:28-75 | with no bytes left, the remaining fields keep their values |
| LocationSocket.FrameRoundTrip | src/LocationClientSocket.cpp:28-78 | the seven encoded floats of a message, followed by anything, produce exactly that message, leave the float buffer empty, and do not consume the extra bytes |
| LocationSocket.FieldsPartial | src/LocationClientSocket.cpp:16-78 | a call that ends in field k sets fields 0..k-1 from the wire, keeps the previous message's values in the others, and leaves the partial bytes in the buffer for the next call |
| LocationSocket.LocationClientSocket.constructor | include/LocationClientSocket.h:25-28 | empty queue and empty 4-byte float buffer |
| LocationSocket.LocationClientSocket.FeedMessage | src/LocationClientSocket.cpp:5-81 | message and buffer become what `Feed` states, and the queue grows by the current message exactly when the call succeeds |
| LocationSocket.LocationClientSocket.PushFloat | src/LocationClientSocket.cpp:14-21 | one `PUSH_FLOAT` block on the object (fill the float buffer; once it is full, store its float as field i and clear it) does what one step of `Fields` states |
| LocationSocket.LocationClientSocket.PullMessage | src/LocationClientSocket.cpp:83-91 | false on an empty queue; otherwise the oldest message is returned and removed |
| FluidDataset.Opened | src/FluidDataset.cpp:3-6 | a new dataset has its name, RAINBOW, clamps 0 and 1 and the identity rotation (0, 0, 0, 1) |
| FluidDataset.WithColor | src/FluidDataset.cpp:8-13 | exactly the mode and the two clamps take the given values; name and rotation are kept |
| FluidDataset.WithRotation | src/FluidDataset.cpp:15-19 | the rotation becomes the first four given values in order; name and colour are kept |
| FluidDataset.FluidDataset.constructor | src/FluidDataset.cpp:3-6 | the object's state is `Opened(name)` |
| FluidDataset.FluidDataset.SetColor | src/FluidDataset.cpp:8-13 | the object's state is `WithColor` of the old state |
| FluidDataset.FluidDataset.SetRotation | src/FluidDataset.cpp:15-19 | the copy loop leaves the object in `WithRotation` of the old state |
| FluidDataset.FluidDataset.GetColorMode | include/FluidDataset.h:27 | returns the stored mode |
| FluidDataset.FluidDataset.GetMinColor | include/FluidDataset.h:31 | returns the stored minimum clamp |
| FluidDataset.FluidDataset.GetMaxColor | include/FluidDataset.h:35 | returns the stored maximum clamp |
| FluidDataset.FluidDataset.GetRotation | include/FluidDataset.h:39 | returns the four stored values (i, j, k, w) |
| FluidDataset.Apply | include/FluidDataset.h:41-45 | no sequence of setter calls changes the name |
| FluidDataset.ColorIsLastSet | include/FluidDataset.h:27-35 | after any sequence of setter calls, the colour getters report the last `setColor` arguments, or RAINBOW, 0, 1 when there was none |
| AnchorHeadsetData.AnchorHeadsetData.constructor | include/AnchorHeadsetData.h:39-41 | not completed, no segments |
| AnchorHeadsetData.AnchorHeadsetData.IsCompleted | include/AnchorHeadsetData.h:15 | returns the completion flag |
| AnchorHeadsetData.AnchorHeadsetData.GetSegmentData | include/AnchorHeadsetData.h:32 | returns the segments in arrival order |
| AnchorHeadsetData.AnchorHeadsetData.PushDataSegment | include/AnchorHeadsetData.h:36 | appends the segment at the end, keeps the earlier ones and the flag |
| AnchorHeadsetData.AnchorHeadsetData.Finalize | include/AnchorHeadsetData.h:19-28 | success sets completed and keeps the segments; failure clears the flag and the segments |
| Server.RotateDataset | src/VFVServer.cpp:39-55 | the named dataset, if open, takes the quaternion and nothing else of it changes; other datasets and the set of names are unchanged |
| Server.ChangeColor | src/VFVServer.cpp:56-67 | the named dataset, if open, takes the mode and clamps; every other entry and the set of names are unchanged |
| Server.Emplace | src/VFVServer.cpp:80-82 | `std::map::emplace`: the name is present afterwards, an existing entry is kept, a new one is a freshly opened dataset |
| Server.AddDatasetAsWrittenOpensNothing | src/VFVServer.cpp:77-82 | with the inverted check, ADD_DATASET never changes the map, so a dataset not yet open is never opened |
| Server.AddDataset | src/VFVServer.cpp:76-85 | corrected ADD_DATASET: the name is open afterwards and only that name is added |
| Server.RemoveDataset | src/VFVServer.cpp:89-95 | the name is absent afterwards and only that name is removed |
| Server.HandleOne | src/VFVServer.cpp:22-100 | one message, with ADD_DATASET as written or corrected, never touches the queue or reopens a closed client; only IDENT_TABLET changes identity, binding or the closed flag |
| Server.Handle | src/VFVServer.cpp:20-106 | the queue is handled front to back, in either ADD_DATASET variant; either it is emptied, or an ADD_DATASET from a non-tablet closes the client and leaves the rest of the queue unhandled |
| Server.HandleAppend | src/VFVServer.cpp:20 | handling a queue a + b is handling a and then, unless that stopped, b |
| Server.OnlyTabletsOpen | src/VFVServer.cpp:68-88 | in either ADD_DATASET variant, a client that is not a tablet, and is not on the tablet port, never adds a dataset and never changes identity |
| Server.HandleAsWrittenOpensNothing | src/VFVServer.cpp:20-106 | with ADD_DATASET as written, handling any client's messages never adds a dataset name |
| Server.TabletAddDataset | src/VFVServer.cpp:68-88 | a tablet's ADD_DATASET leaves the name open iff the variant is the corrected one or the name was open already |
| Server.VFVServer.constructor | src/VFVServer.cpp:3-4 | no dataset is open; the ADD_DATASET variant is the one given |
| Server.VFVServer.RotateStep | src/VFVServer.cpp:39-55 | the map's contents become `RotateDataset` of the old contents, with the same objects |
| Server.VFVServer.ColorStep | src/VFVServer.cpp:56-67 | the map's contents become `ChangeColor` of the old contents |
| Server.VFVServer.AddStep | src/VFVServer.cpp:76-85 | the map's contents become `AddCase` of the old contents: as written, the emplace runs only for a name already open; corrected, only for a new one |
| Server.VFVServer.EmplaceStep | src/VFVServer.cpp:80-82 | `std::map::emplace` on the objects: the contents become `Emplace` of the old contents, and only a fresh object is added |
| Server.VFVServer.RemoveStep | src/VFVServer.cpp:89-95 | the entry is erased and the others are kept |
| Server.VFVServer.HandleMessage | src/VFVServer.cpp:22-100 | one switch case on the objects does what `HandleOne` states for the server's ADD_DATASET variant; the socket's parser state is untouched |
| Server.VFVServer.PullStep | src/VFVServer.cpp:20-100 | one loop iteration pulls the front message and advances `Handle` by one step, or reports an empty queue |
| Server.VFVServer.HandleQueue | src/VFVServer.cpp:20-106 | the pull loop leaves the server and the client as `Handle` states |
| Server.VFVServer.OnMessage | src/VFVServer.cpp:9-107 | a failed feed closes the client with no message handled; otherwise the queued messages are handled as `Handle` states after `Run` on the received bytes |
| Tablet.EmptyBuckets | scripts/extractCHI20Data/tablet.py:41-42 | one empty bucket for each of the pointing techniques 0, 1 and 3, in that order |
| Tablet.Appended | scripts/extractCHI20Data/tablet.py:86-90 | appending never adds, removes or renames buckets |
| Tablet.AppendedFirst | scripts/extractCHI20Data/tablet.py:86-90 | the annotation goes at the end of the first bucket with its technique, and every other bucket is unchanged |
| Tablet.AppendedNone | scripts/extractCHI20Data/tablet.py:86-90 | an annotation with an unknown technique is dropped |
| Tablet.AppendedTotal | scripts/extractCHI20Data/tablet.py:86-90 | the total number of annotations grows by one if a bucket matches, otherwise by zero |
| Tablet.Fresh | scripts/extractCHI20Data/tablet.py:40-46 | empty buckets in both studies, nothing pending, study -1, the given id and address |
| Tablet.Pushed | scripts/extractCHI20Data/tablet.py:74-90 | study 1 and study 2 route to their own buckets; any other study drops the annotation; nothing else changes |
| Tablet.Initiated | scripts/extractCHI20Data/tablet.py:51-59 | the pending annotation is replaced (last start wins) by one whose anchor is its target and whose times are the start times; nothing is appended |
| Tablet.Stamped | scripts/extractCHI20Data/tablet.py:67-69 | the durations become end time minus start time and the anchor is set |
| Tablet.Committed | scripts/extractCHI20Data/tablet.py:61-71 | with nothing pending nothing changes; otherwise the pending slot is cleared |
| Tablet.CommitCount | scripts/extractCHI20Data/tablet.py:61-90 | a commit adds one annotation exactly when something is pending and its study and technique have a bucket, so at most one |
| Tablet.InitThenCommit | scripts/extractCHI20Data/tablet.py:51-90 | init then commit pushes the stamped annotation into the study's buckets and leaves nothing pending |
| Tablet.TabletData.constructor | scripts/extractCHI20Data/tablet.py:40-46 | the object's state is `Fresh` |
| Tablet.TabletData.InitAnnotation | scripts/extractCHI20Data/tablet.py:51-59 | the object's state becomes `Initiated` of the old state |
| Tablet.TabletData.CommitAnnotation | scripts/extractCHI20Data/tablet.py:61-71 | the object's state becomes `Committed` of the old state |
| Tablet.TabletData.PushAnnotation | scripts/extractCHI20Data/tablet.py:74-90 | the bucket loop leaves the object in `Pushed` of the old state |
| ExtractStudy.Split | scripts/extractCHI20Data/extractCHI20Data.py:39 | `str.split` gives at least one part and no part contains the separator |
| ExtractStudy.SplitJoin | scripts/extractCHI20Data/extractCHI20Data.py:39 | joining the parts with the separator gives the original string |
| ExtractStudy.JoinSplit | scripts/extractCHI20Data/extractCHI20Data.py:39 | splitting a join of separator-free parts gives the parts back |
| ExtractStudy.SplitHasSecond | scripts/extractCHI20Data/extractCHI20Data.py:42 | a second part (the role) exists iff the address contains ':' |
| ExtractStudy.Start | scripts/extractCHI20Data/extractCHI20Data.py:26-32 | fresh tablets 0 and 1 without address, trial -1, tablet -1, offset 0 |
| ExtractStudy.FirstMatch | scripts/extractCHI20Data/extractCHI20Data.py:48-51 | the result is the first matching tablet, or none when no tablet matches |
| ExtractStudy.OnFirst | scripts/extractCHI20Data/extractCHI20Data.py:48-76 | only the first matching tablet is acted on; all others are unchanged |
| ExtractStudy.Track | scripts/extractCHI20Data/extractCHI20Data.py:42-58 | only SendNextTrial changes the current trial and target |
| ExtractStudy.Annotate | scripts/extractCHI20Data/extractCHI20Data.py:61-76 | while the current trial is -1 nothing changes; the trial and target are never changed here |
| ExtractStudy.Step | scripts/extractCHI20Data/extractCHI20Data.py:36-76 | an event fails (IndexError) exactly when it is a HeadsetBindingInfo whose address has no ':'; start and anchor events outside a trial have no effect |
| ExtractStudy.FoldFails | scripts/extractCHI20Data/extractCHI20Data.py:35-76 | a file's pass fails iff some event is a binding without a role |
| ExtractStudy.FoldKeepsStudy2 | scripts/extractCHI20Data/extractCHI20Data.py:63-68 | when no tablet has a study-2 annotation pending, a pass keeps every tablet's id and study-2 buckets, since it only starts study-1 annotations |
| ExtractStudy.AppendedLocated | scripts/extractCHI20Data/tablet.py:86-90 | appending an annotation with a target and an anchor keeps every recorded annotation located |
| ExtractStudy.FoldSound | scripts/extractCHI20Data/extractCHI20Data.py:35-76 | every annotation a pass records has a target (after a SendNextTrial) and an anchor |
| ExtractStudy.FileResult | scripts/extractCHI20Data/extractCHI20Data.py:26-77 | a successful pass from the start state yields tablets whose recorded annotations all have a target and an anchor, with their ids and their empty study-2 buckets |
| ExtractStudy.ActOn | scripts/extractCHI20Data/tablet.py:51-71 | calling the bound method on a tablet object applies `Apply` to its state |
| ExtractStudy.ActOnFirst | scripts/extractCHI20Data/extractCHI20Data.py:48-76 | the `for tablet ... break` loop leaves the tablet objects as `OnFirst` states |
| ExtractStudy.TrackEvent | scripts/extractCHI20Data/extractCHI20Data.py:42-58 | the tracking part of one loop iteration leaves tablets and locals as `Track` states |
| ExtractStudy.AnnotateEvent | scripts/extractCHI20Data/extractCHI20Data.py:61-76 | the annotation part of one iteration leaves the tablets as `Annotate` states |
| ExtractStudy.ExtractEvent | scripts/extractCHI20Data/extractCHI20Data.py:36-76 | one iteration succeeds iff `Step` does, and then matches it |
| ExtractStudy.ExtractEvents | scripts/extractCHI20Data/extractCHI20Data.py:35-76 | the event loop succeeds iff the fold does, and leaves the tablets as the fold states |
| ExtractStudy.ExtractFile | scripts/extractCHI20Data/extractCHI20Data.py:26-77 | two fresh tablet objects, driven through the file's events, end as the fold from `Start` states |
| ExtractStudy.RunKeys | scripts/extractCHI20Data/extractCHI20Data.py:22-81 | after a run, a file name is in `pairData` iff it was already there or its file parsed and its pass succeeded; a file whose JSON does not parse adds nothing |
| ExtractStudy.RunRecorded | scripts/extractCHI20Data/extractCHI20Data.py:22-84 | every entry of `pairData` holds two tablets whose recorded annotations all have a target and an anchor |
| ExtractStudy.ExtractAll | scripts/extractCHI20Data/extractCHI20Data.py:20-84 | the loop over the files, from an empty `pairData`, ends as `RunFiles` states |

## Left out

- Float bit reinterpretation: `getValue` for floats and `writeFloat` move the 32-bit pattern unchanged. Floats are kept as their bit pattern and never computed with.
- Sockets, `closeClient`, `Server<>`, threads and the dataset mutex. `onMessage` is modelled as running alone, with closing a client as a flag.
- `inet_pton`, `htons` and the socket's port: they become the parameters `ipValid` / `validIP` and `onTabletPort`.
- The base-class `ClientSocket::feedMessage` call in the location socket. Its code is not part of this model.
- The socket payload structs for datasets and colours are not part of this model. They are modelled through the `Protocol` parameter (the `dataset` and `color` arguments of `SocketProtocol`) and the server's `ServerPayload`.
- The NULL-information branch of `feedMessage`: a type code decoded from 16 bits is never NOTHING (-1), so this branch cannot be reached.
- `m_cursor` overflow past 2^31 - 1: cursors are unbounded integers. The completion test's `(uint32_t)` cast is modelled.
- FrameParser.RunAppend: split-invariance is proved only for protocols where no handled type's fresh payload is complete at cursor 0 (`NoEmptyMessage`); `SocketProtocolNoEmptyMessage` gives this for the socket's protocol when the dataset and colour payloads expect a value. For a payload with `getMaxCursor() == -1` (such as `NoDataInformation`), a call that ends right after the type code queues the message at once: the value stage takes no byte and the completion test holds. When more bytes follow in the same call, the value stage first moves up to four of them into the uint32 buffer before that test. Four bytes fill it, the payload refuses the value and the call fails; fewer stay in the buffer after the message is queued.
- FrameParser.RunEachJoined: same hypothesis as `RunAppend`.
- DataValues.Widen: the `double` overload of `pushValue` (include/VFVDataInformation.h:66), which narrows to `float` and calls the float overload, is not modelled. Floats are kept as bit patterns, so the rounding from 64 to 32 bits cannot be stated; the socket never pushes a double.
- The other `VFVDataInformation` structs (headset updates, transfer functions, scale, move and so on) and `toJson`.
- The `MaxCursor` and `TypeAt` functions of the schemas carry no contract of their own. Their meaning is stated through the `...Wire` lemmas and `Complete`.
- AnnotationInfo.AnnotationStroke.Push: its float case is the corrected `PushFloat`, so it never puts a y value into the x list. The same holds for everything built on it: `Annotation.SubPush`, `DataInformation.Push`, `PAYLOADS`, the socket's parse and the wire lemmas. The float push as written is modelled by `PushFloatAsWritten` alone (see Findings).
- AnnotationInfo.Annotation.Push: its own contract only covers the header and the recorded cursor. What a whole annotation parses to is stated by `AnnotationWire.AnnotationRoundTrip`.
- AnnotationInfo.Annotation.CheckCreate: its contract covers only the finished strokes and texts. `checkEndInformation` (`Annotation.CheckEnd`) has no contract of its own; both are covered by `AnnotationWire.AnnotationRoundTrip`.
- The analysis script's JSON decoding, file reading, argv handling and printing. A file is given as `Unreadable` (IOError, which ends the run), `NotJson` (skipped) or its list of events.
- Python `KeyError` and `ValueError` on missing or malformed event fields: events are taken to be well-typed. Only the `IndexError` on a role-less address is modelled, as a crash of the run.
- `pairData` stores the tablets' states rather than the objects.
- The aggregation, plotting and bootstrap code after the file loop; numpy norms and `precision`.
- `LocationServer`, `main`, the test clients, `new_gen_spring.py` and the data-only headers.

## Findings

| source | as written | input that shows it | evidently intended | confidence | as-written member | corrected member |
|---|---|---|---|---|---|---|
| src/VFVServer.cpp:77 | ADD_DATASET emplaces only when the name is already in the map, so `emplace` never adds anything | an ADD_DATASET from a tablet for a dataset not yet open leaves the map unchanged | emplace when the name is absent, opening the dataset | not executed | Server.AddDatasetAsWrittenOpensNothing | Server.AddDataset |
| include/VFVDataInformation.h:431-433 | every point float is appended to `pointsX`; the y values are appended to `pointsY` as well | a stroke with one point (x, y) ends with pointsX = [x, y] and pointsY = [y] | x values to `pointsX`, y values to `pointsY` only | not executed | AnnotationInfo.StrokeAsWrittenMixesCoordinates | AnnotationInfo.AnnotationStroke.PushFloat |
