# BSON reply decoding and the DBApiLayer collection and cursor layer

This project models two classes of the early MongoDB Java driver and proves
properties about the model:

- `ByteDecoder` turns the BSON bytes of a server reply into documents. It
  covers `readObject`, `decodeNext` with its type switch, `parseBinary`,
  `readCStr`, `more` and `remaining`.
- `DBApiLayer` is the database object. It caches collections by name,
  resolves full namespaces (`db.collection`) and strips the database prefix.
  Its `MyCollection` sends insert, remove, update, query and kill-cursors
  messages. It also queues the ids of abandoned cursors and kills them in
  batches. `SingleResult` parses the 20-byte reply header and the documents
  after it. `Result` is the cursor iterator, which fetches further batches
  with get-more messages.

Modules, in dependency order:

| module | file | what it holds |
|---|---|---|
| `LittleEndian` | `le.dfy` | bytes, 32/64-bit two's-complement little-endian integers (`Bytes.ORDER` is little-endian), Java `int` wrap-around |
| `Bson` | `bson.dfy` | errors (one per exception the code throws), decoded values, documents as insertion-ordered fields, `put` |
| `DecodeSpec` | `decode_spec.dfy` | the decoder as pure functions over `(buffer, position)` with the lemmas about them |
| `ByteDecoder` | `byte_decoder.dfy` | class `Decoder` with a buffer, a moving position and the name buffer `_namebuf`; each method is proved equal to its `DecodeSpec` function |
| `Wire` | `wire.dfy` | the messages sent (opcodes 2001, 2002, 2004, 2005, 2006, 2007), the update and remove flags, the kill-cursors body, the reply header |
| `Connection` | `connector.dfy` | class `Connector`: a log of messages sent and a script of the replies the server gives |
| `Namespaces` | `namespaces.dfy` | `_rootPlusDot` prefixing, `_removeRoot`, splitting a full namespace |
| `Batching`, `BatchingFacts` | `batching.dfy` | how `insert` cuts a document array into messages that fit the encoder buffer |
| `Replies` | `replies.dfy` | `QueryHeader` and `SingleResult` |
| `Cursors`, `CursorFacts` | `cursors.dfy` | the `Result` iterator as functions over a cursor state and the reply script, with its lemmas |
| `Operations`, `OperationsFacts` | `operations.dfy` | the messages each collection operation sends, `_cleanCursors` and the `find` reply screen |
| `DBApi` | `db_api.dfy` | classes `Database`, `Collection` and `Cursor`, which hold the mutable state |

The connector, the server and the network are outside this model. A
`Connector` object logs every message it is asked to send. It answers each
`say` or `call` with the next entry of its `script`: `Fail` (the connector
threw) or `Bytes(reply)`. An exhausted script counts as `Fail`. Every
operation is therefore specified by what it appends to the log, how much of
the script it consumes and what it returns.

The `find` reply screen follows the code. The test at
DBApiLayer.java:305-307 is `err != null`. A lone reply document whose `$err`
field holds null is therefore not a server error, and a cursor is opened
(`OperationsFacts.NullErrIsNotAnError`).

## Model

Paths are relative to the repository root.

| member | source | states |
|---|---|---|
| LittleEndian.Wrap32 | mongodb/mongo-java-driver/src/main/com/mongodb/ByteDecoder.java:189 | Java `int` subtraction wraps: the result is a 32-bit value congruent to the exact one modulo 2^32, and equal to it when no overflow occurs |
| LittleEndian.Int32RoundTrip | mongodb/mongo-java-driver/src/main/com/mongodb/ByteDecoder.java:326-328 | reading back the four little-endian bytes of any 32-bit int gives that int |
| LittleEndian.Int64RoundTrip | mongodb/mongo-java-driver/src/main/com/mongodb/ByteDecoder.java:330-332 | reading back the eight little-endian bytes of any 64-bit long gives that long |
| LittleEndian.UnsignedOfBytes | mongodb/mongo-java-driver/src/main/com/mongodb/ByteDecoder.java:326-332 | the unsigned little-endian reading of `width` bytes inverts the encoding of any number below 256^width |
| Bson.Lookup | mongodb/mongo-java-driver/src/main/com/mongodb/DBApiLayer.java:305 | `o.get(name)` finds a value exactly when `name` is one of the document's keys |
| Bson.PutSemantics | mongodb/mongo-java-driver/src/main/com/mongodb/ByteDecoder.java:285 | after `o.put(name, v)`, `name` maps to `v` and every other name keeps its value; a new name joins the key order at the end and an existing one keeps its place |
| Bson.PutKeepsKeysDistinct | mongodb/mongo-java-driver/src/main/com/mongodb/ByteDecoder.java:285 | `put` never creates a second field with the same name |
| Bson.Store | mongodb/mongo-java-driver/src/main/com/mongodb/ByteDecoder.java:285 | storing into a document makes the name map to the value; storing into a list appends the value |
| DecodeSpec.ReadCStrShape | mongodb/mongo-java-driver/src/main/com/mongodb/ByteDecoder.java:310-324 | a successful `readCStr` returns exactly the non-zero bytes before the first zero, consumes that zero, and returns no more bytes than `_namebuf` holds |
| DecodeSpec.ReadCStrSucceeds | mongodb/mongo-java-driver/src/main/com/mongodb/ByteDecoder.java:310-324 | when a zero byte follows a short enough zero-free run, `readCStr` returns that run and stops just after the zero |
| DecodeSpec.ReadCStrFails | mongodb/mongo-java-driver/src/main/com/mongodb/ByteDecoder.java:310-324 | `readCStr` fails when no zero byte remains (buffer underflow) or when the name overruns `_namebuf` (index out of bounds) |
| DecodeSpec.ReadStringLayout | mongodb/mongo-java-driver/src/main/com/mongodb/ByteDecoder.java:186-200 | STRING and SYMBOL: a wrapped size above the remaining bytes throws "invalid bson?"; a negative size or one beyond `_namebuf` is an index error; a size equal to the remaining bytes leaves no terminator and underflows; otherwise the next `size` bytes are the string, and one more byte is skipped |
| DecodeSpec.ParseBinaryLayout | mongodb/mongo-java-driver/src/main/com/mongodb/ByteDecoder.java:290-308 | subtype 2 checks `len + 4 == totalLen` (with int wrap) and yields the `len` bytes after the inner length; any other subtype yields `totalLen` bytes with its subtype, and a negative `totalLen` throws NegativeArraySize |
| DecodeSpec.ReadOid | mongodb/mongo-java-driver/src/main/com/mongodb/ByteDecoder.java:202-204 | an ObjectId succeeds exactly when twelve bytes remain, and consumes twelve |
| DecodeSpec.ReadOidOrder | mongodb/mongo-java-driver/src/main/com/mongodb/ByteDecoder.java:202-204 | the three ints of an ObjectId are read in order: time, machine, increment |
| DecodeSpec.ScalarWidths | mongodb/mongo-java-driver/src/main/com/mongodb/ByteDecoder.java:166-184 | each fixed-width tag succeeds exactly when its width remains and consumes exactly that width (0 for null/undefined/MinKey/MaxKey, 1, 4, 8 or 12 bytes) |
| DecodeSpec.ScalarValues | mongodb/mongo-java-driver/src/main/com/mongodb/ByteDecoder.java:166-279 | the value each fixed-width tag stores: null, a signed `byte > 0` boolean, the double's bytes, int, long, date, timestamp with its two ints swapped, ObjectId, and the strings "MinKey"/"MaxKey" |
| DecodeSpec.TagErrors | mongodb/mongo-java-driver/src/main/com/mongodb/ByteDecoder.java:228-282 | CODE throws "can't handle CODE yet"; any tag the switch does not list (CODE_W_SCOPE among them) throws "can't handle type" |
| DecodeSpec.Embedded | mongodb/mongo-java-driver/src/main/com/mongodb/ByteDecoder.java:258-262 | an embedded object with both "$ref" and "$id" becomes a DBRef carrying those two values, except that a null "$ref" throws NullPointerException (from its `toString()`); any other object stays the object |
| DecodeSpec.EmbeddedTarget | mongodb/mongo-java-driver/src/main/com/mongodb/ByteDecoder.java:244-251 | an embedded object is decoded into a document: in a document target, the object already stored under the name; otherwise a new one |
| DecodeSpec.ContainerSizeUnchecked | mongodb/mongo-java-driver/src/main/com/mongodb/ByteDecoder.java:231-264 | ARRAY and OBJECT skip their 4-byte size without checking it and then run the element loop; the array is the list of the decoded elements and the object passes through the DBRef test, which fails only on a null "$ref" |
| DecodeSpec.DecodeValue | mongodb/mongo-java-driver/src/main/com/mongodb/ByteDecoder.java:165-283 | a decoded payload never moves the position backwards or past the end; an ARRAY gives a list and an OBJECT an object or a DBRef |
| DecodeSpec.DecodeNext | mongodb/mongo-java-driver/src/main/com/mongodb/ByteDecoder.java:149-288 | `decodeNext` returns 1 exactly at EOO, leaving the target unchanged, and otherwise a count of at least 2 bytes that stays inside the buffer |
| DecodeSpec.DecodeNextStores | mongodb/mongo-java-driver/src/main/com/mongodb/ByteDecoder.java:151-156 | a non-EOO element is tag, name, payload: the count covers all three, and the payload is put under the name (or appended, in a list) |
| DecodeSpec.DecodeFields | mongodb/mongo-java-driver/src/main/com/mongodb/ByteDecoder.java:106-108 | the element loop ends just after an EOO byte and keeps the kind of its target |
| DecodeSpec.ReadObject | mongodb/mongo-java-driver/src/main/com/mongodb/ByteDecoder.java:95-113 | at or past the limit `readObject` returns null without moving; otherwise a success is a document of at least five bytes |
| DecodeSpec.ReadObjectLength | mongodb/mongo-java-driver/src/main/com/mongodb/ByteDecoder.java:99-112 | a decoded object consumes exactly its declared length and ends with EOO; a different consumed length throws "lengths don't match" |
| ByteDecoder.Decoder.constructor | mongodb/mongo-java-driver/src/main/com/mongodb/ByteDecoder.java:62-90 | a decoder starts at position 0 of the given bytes, with a name buffer of the given size |
| ByteDecoder.Decoder.More | mongodb/mongo-java-driver/src/main/com/mongodb/ByteDecoder.java:334-336 | `more()` holds exactly when bytes remain |
| ByteDecoder.Decoder.Remaining | mongodb/mongo-java-driver/src/main/com/mongodb/ByteDecoder.java:338-340 | `remaining()` is the distance from the position to the limit |
| ByteDecoder.Decoder.GetInt | mongodb/mongo-java-driver/src/main/com/mongodb/ByteDecoder.java:326-328 | `getInt` reads a little-endian int and advances four bytes, or underflows without moving |
| ByteDecoder.Decoder.GetLong | mongodb/mongo-java-driver/src/main/com/mongodb/ByteDecoder.java:330-332 | `getLong` reads a little-endian long and advances eight bytes, or underflows without moving |
| ByteDecoder.Decoder.ReadCStr | mongodb/mongo-java-driver/src/main/com/mongodb/ByteDecoder.java:310-324 | the byte loop through `_namebuf` computes `DecodeSpec.ReadCStr` and leaves the position after the zero byte |
| ByteDecoder.Decoder.ParseBinary | mongodb/mongo-java-driver/src/main/com/mongodb/ByteDecoder.java:290-308 | computes `DecodeSpec.ParseBinary` and moves past the data |
| ByteDecoder.Decoder.ReadString | mongodb/mongo-java-driver/src/main/com/mongodb/ByteDecoder.java:186-200 | computes `DecodeSpec.ReadString` and moves past the string and its terminator |
| ByteDecoder.Decoder.ReadOid | mongodb/mongo-java-driver/src/main/com/mongodb/ByteDecoder.java:202-204 | computes `DecodeSpec.ReadOid` and moves twelve bytes |
| ByteDecoder.Decoder.ReadScalar | mongodb/mongo-java-driver/src/main/com/mongodb/ByteDecoder.java:165-283 | every non-container case of the switch computes `DecodeSpec.ReadScalar` |
| ByteDecoder.Decoder.DecodePayload | mongodb/mongo-java-driver/src/main/com/mongodb/ByteDecoder.java:165-283 | the whole switch, ARRAY and OBJECT included (with the DBRef test and its null "$ref" failure), computes `DecodeSpec.DecodeValue` |
| ByteDecoder.Decoder.DecodeNext | mongodb/mongo-java-driver/src/main/com/mongodb/ByteDecoder.java:149-288 | `decodeNext` computes `DecodeSpec.DecodeNext`, and the position moves by the count it returns |
| ByteDecoder.Decoder.DecodeFields | mongodb/mongo-java-driver/src/main/com/mongodb/ByteDecoder.java:235-237 | the loop `while (decodeNext(...) > 1)` computes `DecodeSpec.DecodeFields` |
| ByteDecoder.Decoder.ReadObject | mongodb/mongo-java-driver/src/main/com/mongodb/ByteDecoder.java:95-113 | `readObject` computes `DecodeSpec.ReadObject` and leaves the position after the object |
| Wire.UpdateFlags | mongodb/mongo-java-driver/src/main/com/mongodb/DBApiLayer.java:328-331 | bit 0 is set exactly for upsert, bit 1 exactly for multi, and no other bit is set |
| Wire.RemoveFlag | mongodb/mongo-java-driver/src/main/com/mongodb/DBApiLayer.java:208-215 | the remove flag is 1 exactly when the selector's key set is just "_id" and the value under it is an ObjectId, else 0 |
| Wire.RemoveFlagOfDistinct | mongodb/mongo-java-driver/src/main/com/mongodb/DBApiLayer.java:208-212 | for a selector without repeated names, the flag is 1 exactly when it has one field, named "_id", holding an ObjectId |
| Wire.LongsRoundTrip | mongodb/mongo-java-driver/src/main/com/mongodb/DBApiLayer.java:260-262 | the cursor ids written with `putLong` read back as the same ids in the same order |
| Wire.KillCursorsBodyRoundTrip | mongodb/mongo-java-driver/src/main/com/mongodb/DBApiLayer.java:254-262 | the kill-cursors body reads back as reserved 0, the number of ids, and the ids |
| Wire.ParseHeader | mongodb/mongo-java-driver/src/main/com/mongodb/DBApiLayer.java:359-384 | the header is read at `start` (20 bytes: reserved, cursor, startingFrom, num) and fails with an index error exactly when fewer than 20 bytes remain |
| Wire.HeaderRoundTrip | mongodb/mongo-java-driver/src/main/com/mongodb/DBApiLayer.java:365-370 | the bytes of any well-formed header, wherever they sit in a buffer, read back as that header |
| Connection.Deliver | mongodb/mongo-java-driver/src/main/com/mongodb/DBApiLayer.java:188-194 | sending a sequence of messages stops at the first failing `say`: what was sent is a prefix of the messages, and all of them when none failed |
| Connection.DeliverAppend | mongodb/mongo-java-driver/src/main/com/mongodb/DBApiLayer.java:165-194 | sending `a` then `b` is sending `a + b`; after a failure nothing more is sent |
| Connection.Connector.Say | mongodb/mongo-java-driver/src/main/com/mongodb/DBApiLayer.java:189 | `say` logs the message, consumes one scripted reply, and throws when that reply is a failure |
| Connection.Connector.Call | mongodb/mongo-java-driver/src/main/com/mongodb/DBApiLayer.java:297 | `call` logs the message, consumes one scripted reply, and returns the reply bytes or throws |
| Namespaces.RemoveRoot | mongodb/mongo-java-driver/src/main/com/mongodb/DBApiLayer.java:77-81 | a namespace starting with `root.` loses exactly that prefix; any other namespace is returned unchanged |
| Namespaces.RemoveRootOfFullName | mongodb/mongo-java-driver/src/main/com/mongodb/DBApiLayer.java:77-81 | stripping the root from `root.name` gives back `name` |
| Namespaces.IndexOf | mongodb/mongo-java-driver/src/main/com/mongodb/DBApiLayer.java:95-100 | `indexOf` is -1 exactly when the character is absent, and otherwise the position of its first occurrence |
| Namespaces.LocateNoDot | mongodb/mongo-java-driver/src/main/com/mongodb/DBApiLayer.java:95-98 | a full name without a dot is a collection of this database |
| Namespaces.LocateSplit | mongodb/mongo-java-driver/src/main/com/mongodb/DBApiLayer.java:100-109 | `db.table` splits at its first dot; the table belongs to this database when `db` is the root, else to the sister database `db` |
| Namespaces.LocateFullName | mongodb/mongo-java-driver/src/main/com/mongodb/DBApiLayer.java:92-110 | resolving a collection's own full name gives back that collection of this database |
| Batching.Fill | mongodb/mongo-java-driver/src/main/com/mongodb/DBApiLayer.java:172-186 | the inner insert loop stops at an index between its start and the end of the array |
| BatchingFacts.FillBounds | mongodb/mongo-java-driver/src/main/com/mongodb/DBApiLayer.java:172-186 | the documents taken fit the room left, and the first document not taken would overflow it |
| BatchingFacts.PlanChain | mongodb/mongo-java-driver/src/main/com/mongodb/DBApiLayer.java:164-194 | the batch ends are strictly increasing within the array, and the plan fails exactly when it stops before the last document |
| BatchingFacts.PlanFailures | mongodb/mongo-java-driver/src/main/com/mongodb/DBApiLayer.java:166-186 | the only ways `insert` can fail before sending are a document too large for an empty message and a namespace that overflows the buffer |
| BatchingFacts.BatchIsLongestFit | mongodb/mongo-java-driver/src/main/com/mongodb/DBApiLayer.java:172-186 | every message is non-empty, its header and documents fit the buffer, and it holds as many documents as fit |
| BatchingFacts.SentDocsFit | mongodb/mongo-java-driver/src/main/com/mongodb/DBApiLayer.java:176-182 | every document placed in a message fits alone in a message |
| BatchingFacts.FailsAtOversized | mongodb/mongo-java-driver/src/main/com/mongodb/DBApiLayer.java:180-182 | when the plan fails it is "too large", at a document that cannot fit in an empty message |
| BatchingFacts.AllSentIffAllFit | mongodb/mongo-java-driver/src/main/com/mongodb/DBApiLayer.java:164-194 | every document gets sent exactly when every document fits alone in a message |
| Replies.ReadDocsBounds | mongodb/mongo-java-driver/src/main/com/mongodb/DBApiLayer.java:403-418 | the reply loop reads at most `_num` documents, none when `_num <= 0`, and stops short only at the end of the buffer |
| Replies.SingleResultOfReply | mongodb/mongo-java-driver/src/main/com/mongodb/DBApiLayer.java:388-419 | a parsed reply keeps its header and namespace, counts the header in its bytes, fails only on a bad document, and has no documents when `_num <= 0` |
| Replies.ShortReply | mongodb/mongo-java-driver/src/main/com/mongodb/DBApiLayer.java:365-370 | a reply shorter than its header fails on the header, before any document |
| Replies.ReadDocuments | mongodb/mongo-java-driver/src/main/com/mongodb/DBApiLayer.java:403-418 | the loop `while (decoder.more() && num < _num)` computes `Replies.ReadDocs` |
| Replies.ReadSingleResult | mongodb/mongo-java-driver/src/main/com/mongodb/DBApiLayer.java:388-419 | the `SingleResult` constructor computes `Replies.ParseSingleResult` on the decoder's bytes |
| Cursors.Advance | mongodb/mongo-java-driver/src/main/com/mongodb/DBApiLayer.java:473-502 | a successful `_advance` consumed exactly one reply |
| CursorFacts.AdvanceEffects | mongodb/mongo-java-driver/src/main/com/mongodb/DBApiLayer.java:473-502 | a cursor id `<= 0` throws before sending; otherwise one get-more is sent and `_numGetMores` grows exactly when the call returned; success restarts the batch, records its size and adds its bytes; a Mongo exception is wrapped as "can't do getmore" |
| CursorFacts.AdvanceOnFailedCall | mongodb/mongo-java-driver/src/main/com/mongodb/DBApiLayer.java:488-497 | a failed call leaves the cursor as it was and throws "can't do getmore" wrapping the connector's exception |
| CursorFacts.ParsedKeepsNamespace | mongodb/mongo-java-driver/src/main/com/mongodb/DBApiLayer.java:391-393 | a batch fetched by get-more keeps the namespace of the cursor and records the reply's size |
| CursorFacts.GetMoreOfBatch | mongodb/mongo-java-driver/src/main/com/mongodb/DBApiLayer.java:478-484 | a get-more names the current batch's namespace, `_numToReturn` and a positive cursor id |
| CursorFacts.NextSendsGetMores | mongodb/mongo-java-driver/src/main/com/mongodb/DBApiLayer.java:451-460 | `next` sends only get-more messages for the cursor; when it sends nothing and fails, the failure is "no more" |
| CursorFacts.NextCounts | mongodb/mongo-java-driver/src/main/com/mongodb/DBApiLayer.java:451-460 | `next` only grows the byte and size records; the messages it sends are the successful get-mores plus at most one failed one; a document comes from the current batch or is the first of a new one |
| CursorFacts.HasNextSendsGetMores | mongodb/mongo-java-driver/src/main/com/mongodb/DBApiLayer.java:462-471 | `hasNext` sends only get-more messages for the cursor, and answers without error when it sends nothing |
| CursorFacts.HasNextCounts | mongodb/mongo-java-driver/src/main/com/mongodb/DBApiLayer.java:462-471 | `hasNext` only grows the records, counts its get-mores like `next`, and changes nothing when it sends nothing |
| CursorFacts.HasNextThenNext | mongodb/mongo-java-driver/src/main/com/mongodb/DBApiLayer.java:451-471 | after `hasNext` says true, `next` returns the buffered document without traffic; after it says false, `next` throws "no more" without traffic |
| CursorFacts.NextAgreesWithHasNext | mongodb/mongo-java-driver/src/main/com/mongodb/DBApiLayer.java:451-471 | `next` sends the same get-mores as `hasNext` and succeeds exactly when `hasNext` is true, throws "no more" when it is false, and throws the same error |
| CursorFacts.TakeWithinBatch | mongodb/mongo-java-driver/src/main/com/mongodb/DBApiLayer.java:451-453 | `k` calls of `next` within the current batch return its next `k` documents in order and send nothing |
| CursorFacts.LastBatchDrains | mongodb/mongo-java-driver/src/main/com/mongodb/DBApiLayer.java:421-423 | a batch without get-more yields its remaining documents and then "no more", without traffic |
| CursorFacts.GrowsTrans | mongodb/mongo-java-driver/src/main/com/mongodb/DBApiLayer.java:535-537 | the cursor's counters and size list only grow, across any number of steps |
| OperationsFacts.InsertMessagesAreBatches | mongodb/mongo-java-driver/src/main/com/mongodb/DBApiLayer.java:164-194 | `insert` sends one 2002 message per batch, each holding its slice of the array in order, and covers the whole array exactly when the plan does not fail |
| OperationsFacts.InsertSucceedsIff | mongodb/mongo-java-driver/src/main/com/mongodb/DBApiLayer.java:145-196 | `insert` succeeds exactly when the array is empty or the namespace fits, every document fits alone in a message, and every `say` succeeds |
| OperationsFacts.BatchMessagesPrefix | mongodb/mongo-java-driver/src/main/com/mongodb/DBApiLayer.java:164-194 | the messages for the first batches are a prefix of those for all batches |
| OperationsFacts.MessagesSnoc | mongodb/mongo-java-driver/src/main/com/mongodb/DBApiLayer.java:164-194 | closing one more batch appends one message with exactly its documents |
| OperationsFacts.SplitStep | mongodb/mongo-java-driver/src/main/com/mongodb/DBApiLayer.java:164-194 | one turn of the outer insert loop keeps it on the plan: batches so far plus the rest of the plan are the whole plan |
| OperationsFacts.InsertStops | mongodb/mongo-java-driver/src/main/com/mongodb/DBApiLayer.java:180-193 | when the loop stops early (failed `say`, or an oversized document), what was sent is what the full plan would send |
| OperationsFacts.DeliverSnoc | mongodb/mongo-java-driver/src/main/com/mongodb/DBApiLayer.java:188-194 | one more `say` after successful ones logs its message and consumes one reply |
| OperationsFacts.CleanLosesNoIds | mongodb/mongo-java-driver/src/main/com/mongodb/DBApiLayer.java:227-247 | `_cleanCursors` sends exactly when it should flush; a queued id is either still queued or was killed by a successful message; the queue ends empty or unchanged |
| OperationsFacts.HundredPendingFlush | mongodb/mongo-java-driver/src/main/com/mongodb/DBApiLayer.java:232-241 | with 100 or more dead cursors a kill message for all of them is sent, and the queue empties when it succeeds |
| OperationsFacts.FewPendingWait | mongodb/mongo-java-driver/src/main/com/mongodb/DBApiLayer.java:229-233 | with 1 to 99 dead cursors a kill message is sent exactly when the count is a multiple of 20 |
| OperationsFacts.KillMessageReadsBack | mongodb/mongo-java-driver/src/main/com/mongodb/DBApiLayer.java:249-270 | the 2007 message body reads back as reserved 0, the id count and the ids |
| OperationsFacts.ScreenCases | mongodb/mongo-java-driver/src/main/com/mongodb/DBApiLayer.java:301-310 | an empty reply gives no cursor; a lone document with a non-null "$err" throws "db error" with that value; otherwise a cursor over the reply |
| OperationsFacts.NullErrIsNotAnError | mongodb/mongo-java-driver/src/main/com/mongodb/DBApiLayer.java:305-307 | a "$err" field holding null does not raise |
| OperationsFacts.EmptyReplyIsNoCursor | mongodb/mongo-java-driver/src/main/com/mongodb/DBApiLayer.java:299-302 | a reply announcing no documents makes `find` return null |
| DBApi.Database.constructor | mongodb/mongo-java-driver/src/main/com/mongodb/DBApiLayer.java:39-46 | a database starts with no cached collections and no dead cursors |
| DBApi.Database.DoGetCollection | mongodb/mongo-java-driver/src/main/com/mongodb/DBApiLayer.java:60-75 | a cached name returns the same collection and changes nothing; a new name creates a collection `root.name` and caches it under the name |
| DBApi.Database.GetCollectionFromFull | mongodb/mongo-java-driver/src/main/com/mongodb/DBApiLayer.java:92-114 | a local full name gives what `doGetCollection` gives: the cached collection, or a new one that is then cached; another database prefix gives that collection of a new sister database on the same connector with the same buffer sizes, whose cache holds just it, leaving this cache alone |
| DBApi.Database.Bury | mongodb/mongo-java-driver/src/main/com/mongodb/DBApiLayer.java:512-516 | a positive cursor id joins the dead-cursor queue; others are ignored |
| DBApi.Collection.constructor | mongodb/mongo-java-driver/src/main/com/mongodb/DBApiLayer.java:116-120 | a collection's full namespace is `root.name` |
| DBApi.Collection.FillBatch | mongodb/mongo-java-driver/src/main/com/mongodb/DBApiLayer.java:172-186 | the inner loop computes `Batching.Fill` over the room the header leaves |
| DBApi.Collection.Insert | mongodb/mongo-java-driver/src/main/com/mongodb/DBApiLayer.java:145-196 | the loops send the planned insert messages until a `say` fails, and return success or the first error |
| DBApi.Collection.Remove | mongodb/mongo-java-driver/src/main/com/mongodb/DBApiLayer.java:198-225 | sends one 2006 message and throws exactly when the `say` fails |
| DBApi.Collection.Update | mongodb/mongo-java-driver/src/main/com/mongodb/DBApiLayer.java:318-343 | sends one 2001 message and throws exactly when the `say` fails |
| DBApi.Collection.KillCursors | mongodb/mongo-java-driver/src/main/com/mongodb/DBApiLayer.java:249-270 | a null or empty list sends nothing; otherwise one 2007 message with the ids |
| DBApi.Collection.CleanCursors | mongodb/mongo-java-driver/src/main/com/mongodb/DBApiLayer.java:227-247 | computes `Operations.Clean`: a failed kill puts the ids back in the queue |
| DBApi.Collection.Find | mongodb/mongo-java-driver/src/main/com/mongodb/DBApiLayer.java:272-316 | cleans dead cursors, sends one 2004 query, and returns an error, null or a fresh cursor opened on the reply, as `Operations.FindOutcome` says |
| DBApi.Cursor.constructor | mongodb/mongo-java-driver/src/main/com/mongodb/DBApiLayer.java:438-442 | a new cursor has its first batch buffered from the start, its bytes counted and its size recorded |
| DBApi.Cursor.Init | mongodb/mongo-java-driver/src/main/com/mongodb/DBApiLayer.java:444-449 | `init` computes `Cursors.Init` |
| DBApi.Cursor.Advance | mongodb/mongo-java-driver/src/main/com/mongodb/DBApiLayer.java:473-502 | `_advance` computes `Cursors.Advance`, including its traffic |
| DBApi.Cursor.Next | mongodb/mongo-java-driver/src/main/com/mongodb/DBApiLayer.java:451-460 | `next` computes `Cursors.Next`, including its traffic |
| DBApi.Cursor.HasNext | mongodb/mongo-java-driver/src/main/com/mongodb/DBApiLayer.java:462-471 | `hasNext` computes `Cursors.HasNext`, including its traffic |
| DBApi.Cursor.Abandon | mongodb/mongo-java-driver/src/main/com/mongodb/DBApiLayer.java:512-516 | an abandoned cursor with a positive id is queued for killing |

## Left out

- Pooling (`ByteDecoder.get`/`done`, `SimplePool`), `synchronized` blocks and thread safety: the model is sequential.
- `SHOW` and `D` debug printing and logging: output only.
- UTF-8 decoding of names and strings: they stay byte sequences.
- Regular expressions (`Pattern.compile`, `patternFlags`): a REGEX element keeps its pattern and flag strings.
- `Bytes.applyDecodingHooks` and `_create`'s user object classes: decoding into `BasicDBObject` only.
- REF elements whose ObjectId is `Bytes.COLLECTION_REF_ID` resolve to a collection in the source; the model always stores the pointer, because `COLLECTION_REF_ID` is defined in `Bytes`, which is not part of this model.
- `BasicDBList` internals: array elements are appended in read order, and the element names are not checked.
- DecodeSpec.EmbeddedTarget: when the value already stored under an embedded object's name is a `BasicDBList` (a repeated name whose first value was an array), or when the target is itself a list, the source decodes into that list through `BasicDBList.get`/`put`; the model starts a new document, because `BasicDBList` is not part of this model.
- DecodeSpec.Embedded: a DBRef keeps the "$ref" value itself, where the source keeps its `toString()`; the string forms of numbers, ObjectIds and other values belong to classes that are not part of this model, so the number 5 and the string "5" give different references here. The null "$ref" case, which throws, is modelled.
- Doubles are kept as their eight raw bytes; no floating point is modelled.
- `ByteEncoder` is not part of this model. Messages are structured values; only the kill-cursors body, whose layout DBApiLayer writes itself, is bytes.
- Encoder buffer overflow is modelled for `insert` only, through a document size function and a capacity. For `remove`, `update`, `find`, get-more and kill-cursors the encoder is assumed not to overflow.
- Namespace length in the insert header is counted in characters, not UTF-8 bytes.
- `apply` and the `_new` flag of ObjectIds in `insert`: they belong to `DBCollection`, which is not part of this model.
- Write concern and `getWriteConcern()`: the connector model has no acknowledgement.
- `requestStart`, `requestDone`, `requestEnsureConnection`: they only forward to the connector.
- `createIndex`, `doapply`, the single-object and `List` overloads of `insert`, and `toString`.
- `Result.remove`: it always throws "can't remove this way".
- `finalize` is run by the garbage collector; the model makes it an explicit `Cursor.Abandon` call.
- `_sisters` is declared but never used by the code.
- `DB.getCollection` is not part of this model; `GetCollectionFromFull` uses `DoGetCollection` for the sister database too.
- Exception hierarchy: `MongoInternalException` is taken to extend `MongoException`, so `_advance` wraps both.
- Cursors.Advance: `_totalBytes` (long) and `_numGetMores` (int) are unbounded integers; Java wrap-around after 2^31 get-mores is not modelled.
- CursorFacts.NextSendsGetMores: states that `next` without traffic fails only with "no more", not that "can't advance a cursor <= 0" is unreachable, because that would need every decoder error to be shown different from it.
