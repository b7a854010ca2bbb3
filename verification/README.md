# Verified models of the protocol code

This project models, in Dafny, the protocol code that the app ships with its pods, and proves
what that code is for:

- **nanopb** (`nanopb/`): the Protocol Buffers encoder and decoder that work from descriptor
  tables. Parser and printer undo each other, decoding concatenated messages joins them, whatever
  was decoded can be encoded again, the sizing run predicts the
  writing run, and neither the field iterator nor the bitmap of required fields nor the
  fixed-count counter shows in the result.
- **The DTLS handshake transport** (`dtls/`) of BoringSSL: fragmentation of flights to the
  MTU, rollback of failed writes, retransmission in two epochs, reassembly with a bitmap in a
  ring of seven messages, and the replay window. Over a network that loses, duplicates and
  reorders packets, messages are delivered in order, once each and unchanged, and all of them
  once their records have arrived.
- **The TLS 1.0 to 1.2 handshake machines** (`tls/`): client and server with all their
  optional messages, resumption and retries. Joined by a reliable channel, of messages or of
  records that cut them anywhere, they agree; against any peer each of them reaches its last
  state only with everything checked and with just the messages, in just the order, that the
  negotiated flags ask for. Beside them, message framing over records, the choice of
  a cipher and the writing of application data.
- **Reference counts** (`crypto/`): the lock-free saturating counter acts like the locked one.

## How it is built

What the C and C++ code changes in place is a class here, and its loops are loops: streams,
the field iterator and the required bitmap of nanopb, message buffers, the ring and the flight
of DTLS, both handshake machines, the write buffer. Each method is proved against a function
on values (`PbWire`, `DtlsReceiver.Absorb`, `TlsClient.Do`, `TlsExchange.StepEx`, ...) or states
its result outright. The handshake functions of `TlsClientRun` and `TlsServerRun` each do what
the function of the same name on values does; only the methods that run them have rows below.
The main results are lemmas about those functions, and whole-run methods whose outputs are
functions of the schedule they are given:

| area | main results |
|---|---|
| nanopb | `PbRoundTrip.RoundTrip`, `PbJoin.EncodingsJoin`, `PbStorage.Reencoded`, `PbMerge.DecodingMerges`, `PbMerge.OtherFieldInvisible`, `PbCodec.MessageEncodes`, `PbCodec.SizeThenEncode`, `PbRequired.CheckRequired`, `PbDecoder.DecodeNoinit` |
| DTLS | `DtlsSession.Run`, `DtlsSchedule.SendAll`, `DtlsSchedule.RunProper`, `DtlsSending.TrackTiles`, `DtlsSending.FlightGetsWritten`, `DtlsCompletion.FlightRead`, `DtlsDelivery.CompleteInAnyOrder`, `DtlsWriter.SealAll`, `DtlsReplay.ReceiveAll` |
| TLS | `TlsAgreement.Agreement`, `TlsBytes.AgreementInBytes`, `TlsProgress.AlwaysCompletable`, `TlsBytesProgress.AlwaysCompletableInBytes`, `TlsClientSafety.DoneIsChecked`, `TlsServerSafety.DoneIsChecked`, `TlsClientOrder.OrderedRun`, `TlsServerOrder.OrderedRun`, `TlsServerPolicy.RequiredCertificate`, `TlsExchange.DeliveredInOrder`, `TlsCipher.ChooseCipher`, `TlsWriter.WriteAll` |
| reference counts | `Refcount.Linearizable`, `Refcount.AbortSawZero`, `Refcount.References` |

What the code cannot decide by itself is left open: what a cipher makes of a record and whether
it fails, what a transport accepts, when a callback is ready, what a clock or an MTU query
answers. Such choices are parameters (`Env`, `Event`, `Action`, `Cipher`, `Transport`) of the
functions, or nondeterministic in methods; results hold for all of them. The functions of cryptography are arbitrary functions of the transcript.

`dafny verify dfyconfig.toml` checks the whole project.

### Where the code does not do what one would expect

- A string without a terminator in its buffer, and a length of 2^32 or more, are encoded but
  cannot be decoded. `RoundTrip` has the exact condition (`Readable`), checked on the message
  before it is encoded; `PbExamples.Unterminated` has such a message.
- Decoding two encodings, one after the other, is to join the messages. A descriptor with just one
  fixed-count field refuses that, because its count goes on from the first (`pb_decode.c:963-1008`);
  with two of them each sets the other's count back. `EncodingsJoin` has the exact condition
  (`SoleFixed`, and `JoinRoom` for the arrays), `PbExamples.TwiceFixed` such bytes.
- The 32-bit varint decoder counts bits in eight bits, so the counter wraps after 256 bits. The
  model keeps the wrap; no result depends on it.
- In a descriptor without fields the search for tag number 0 finds the terminator, and the field
  then fails to decode instead of being skipped (`FieldIter.Find`, `PbWire.Step`).
- A required field beyond the 64th is not checked. `CheckRequired` says so exactly.
- A DTLS fragment whose number is exactly seven ahead is not ignored like later ones: the next
  check refuses it and the connection ends (`d1_both.cc:380-385` against `d1_both.cc:267-270`).
  `SlicesAgree` says exactly when that happens, and `DtlsArrival.SevenAhead` has such a fragment.
- A server whose policy asks for no certificate when a Channel ID is negotiated decides that
  before the ServerHello, which can drop the Channel ID again (`handshake_server.cc:643-646`
  against `handshake_server.cc:688-702`). The connection then has neither. `RequiredCertificate`
  says exactly when, and `DoneWithout` has such a run.
- A seal that fails behind other records of its packet is not taken back, as a refused packet is
  (`d1_both.cc:802-804` against `d1_both.cc:807-813`). The pieces before it are lost, and a later
  call reports the flight as written all the same. `TrackTiles` says exactly when a pass is
  whole, `SendSound` when it must be, and `FailureLoses` has a flight that is not.
- A record number is used up when the cipher has sealed and the length then does not fit
  (`AfterSeal`); a failing cipher uses none.
- A decoder that finds a oneof with a tag its descriptor does not have refuses to change its
  member (`ReleaseUnion`).

## Model

| member | source | states |
|---|---|---|
| `PbRoundTrip.RoundTrip` | SAAMClient/Pods/nanopb/pb_encode.c:494-516 | for every well-formed descriptor and every struct C can hold: decoding what was encoded, into a struct with any old contents, succeeds **if and only if** every string written has its terminator inside its buffer and every length written is below 2^32; and then it gives the message back, up to the contents of absent fields |
| `PbRoundTrip.MessageRoundTrip` | SAAMClient/Pods/nanopb/pb_decode.c:901-1049 | the same for decoding into any struct of the right layout, at any nesting depth: it succeeds if and only if the message is readable and its arrays have room behind what is there, and then each slot is what it was merged with what was encoded (scalars replaced, submessages merged field by field, array entries appended) |
| `PbRoundTrip.MergedFresh` | SAAMClient/Pods/nanopb/pb_decode.c:884-895 | merging a message into a struct of defaults gives the message, up to the contents of absent fields |
| `PbRoundTrip.ValueRoundTrip` | SAAMClient/Pods/nanopb/pb_decode.c:1463-1485 | one value of any kind, submessages included, followed by any other bytes and decoded onto any old value: exactly the rest of the stream is left and the value is the old one merged with the encoded one, or it is refused because it is not readable or has no room |
| `PbRoundTrip.FieldRoundTrip` | SAAMClient/Pods/nanopb/pb_decode.c:401-475 | the bytes of one field, of any rule (required, optional, proto3 singular, packed and unpacked repeated, fixed-count, oneof), take the decoder from "fields before i are merged" to "fields up to i are merged", whatever the struct held before and whatever follows |
| `PbRoundTrip.NumberRoundTrip` | SAAMClient/Pods/nanopb/pb_decode.c:1289-1390 | every numeric field type and size gives its value back; values that do not fit their C type have no encoding |
| `PbRoundTrip.StringRoundTrip` | SAAMClient/Pods/nanopb/pb_encode.c:674-680 | a length-delimited string below 2^32 bytes is read back as exactly its contents and the rest |
| `PbRoundTrip.LongString` | SAAMClient/Pods/nanopb/pb_decode.c:367-380 | a length of 2^32 up to 2^63 is refused by the reader although the writer emits it |
| `PbRoundTrip.DefaultMessageSame` | SAAMClient/Pods/nanopb/pb_encode.c:215-303 | a submessage the proto3 check calls default is, for its reader, the same as one reset to defaults |
| `PbDefaults.DefaultIsZero` | SAAMClient/Pods/nanopb/pb_encode.c:215-303 | a proto3 field is left out of an encoding **if and only if** its value would be written as zero bytes only |
| `PbDefaults.DefaultIsEmpty` | SAAMClient/Pods/nanopb/pb_encode.c:215-303 | a submessage is default if and only if nothing is written for it |
| `PbRoundTrip.SetDefaultsFresh` | SAAMClient/Pods/nanopb/pb_decode.c:884-895 | resetting a struct is idempotent at every depth and leaves the layout of the descriptor |
| `PbVarint.VarintRoundTrip` | SAAMClient/Pods/nanopb/pb_decode.c:250-271 | every 64-bit value is read back from its varint, and exactly the rest of the stream is left |
| `PbVarint.EncodedLength` | SAAMClient/Pods/nanopb/pb_encode.c:574-594 | the number of bytes is the number of seven-bit groups the value needs |
| `PbVarint.EncodedAtMostTen` | SAAMClient/Pods/nanopb/pb_encode.c:574-594 | a 64-bit value takes at most the ten bytes of the buffer |
| `PbVarint.EncodingMinimal` | SAAMClient/Pods/nanopb/pb_encode.c:574-594 | no byte string that decodes to the value is shorter than what the encoder writes |
| `PbVarint.Varint32RoundTrip` | SAAMClient/Pods/nanopb/pb_decode.c:182-242 | the 32-bit decoder reads back every encoded uint32 |
| `PbVarint.SignExtended32Accepted` | SAAMClient/Pods/nanopb/pb_decode.c:182-242 | it accepts the ten-byte encoding of every negative int32 and returns it modulo 2^32 |
| `PbVarint.LongRejected32` | SAAMClient/Pods/nanopb/pb_decode.c:182-242 | it refuses the encoding of every value from 2^32 up to 2^63 |
| `PbVarint.DecodersAgree` | SAAMClient/Pods/nanopb/pb_decode.c:182-271 | when both decoders accept the same bytes they stop at the same place and the 32-bit result is the 64-bit one modulo 2^32 |
| `PbVarint.ZigZagInverse` | SAAMClient/Pods/nanopb/pb_decode.c:1240-1252 | the zigzag maps of encoder and decoder are inverse on all of int64 and uint64 |
| `PbExamples.Unterminated` | SAAMClient/Pods/nanopb/pb_encode.c:844-868 | a concrete message the encoder writes and the decoder refuses: a full string buffer without a terminator, `[10, 1, 65]` on the wire, for every old content of the destination |
| `PbExamples.TwiceFixed` | SAAMClient/Pods/nanopb/pb_decode.c:963-1008 | a concrete message whose encoding decodes, and is refused when it stands twice: `[10, 1, 5]` for an array of exactly one number |
| `PbMerge.DecodingMerges` | SAAMClient/Pods/nanopb/pb_decode.c:901-1049 | without required and fixed-count fields, decoding a ++ b is decoding a and then b into the same struct, when a is used up without meeting a zero tag |
| `PbMerge.DecodingContinues` | SAAMClient/Pods/nanopb/pb_decode.c:901-1049 | for any descriptor, decoding a ++ b continues from the whole state a left: struct, seen required fields and unfinished fixed-count field |
| `PbMerge.UnknownFieldInvisible` | SAAMClient/Pods/nanopb/pb_decode.c:933-962 | one complete field with an unknown tag, inserted at any field boundary, changes nothing; a field is described by its bytes: after wire type 0 a varint, after 1 exactly eight bytes, after 2 a length and as many bytes, after 5 exactly four |
| `PbMerge.SkipsPayload` | SAAMClient/Pods/nanopb/pb_decode.c:316-326 | a field is skipped to the end of the stream if and only if its bytes are those of its wire type, with the widths as numbers |
| `PbMerge.EncodedIsUnknown` | SAAMClient/Pods/nanopb/pb_encode.c:635-695 | what the encoder writes for a field of any type is such an unknown field for every descriptor without its tag |
| `PbMerge.OtherFieldInvisible` | SAAMClient/Pods/nanopb/pb_decode.c:933-962 | so any encoded field that a descriptor does not know, inserted at any field boundary, changes nothing |
| `PbJoin.EncodingsJoin` | SAAMClient/Pods/nanopb/pb_decode.c:901-1049 | what a merge is: decoding the encoding of a followed by that of b succeeds **if and only if** both are readable, the arrays have room for the entries of both, and no fixed-count field stands alone; then repeated fields hold the entries of a and behind them those of b, the last scalar and the last oneof member win, and submessages are joined field by field |
| `PbJoin.MergedTwice` | SAAMClient/Pods/nanopb/pb_decode.c:428-438 | merging a and then b into a struct of defaults joins them |
| `PbFormat.VarintDigits` | SAAMClient/Pods/nanopb/pb_encode.c:574-594 | the k-th byte of a varint is the k-th digit of the number to base 128, with the top bit set on all but the last |
| `PbFormat.FixedDigits` | SAAMClient/Pods/nanopb/pb_encode.c:605-633 | the k-th byte of a fixed-width number is its k-th digit to base 256 |
| `PbIterator.FieldIter.constructor` | SAAMClient/Pods/nanopb/pb_common.c:8-18 | data pointer, size pointer and required index are the functions of the position that hold from then on |
| `PbIterator.FieldIter.Begin` | SAAMClient/Pods/nanopb/pb_common.c:8-18 | starting again; false exactly for an empty descriptor |
| `PbIterator.FieldIter.Next` | SAAMClient/Pods/nanopb/pb_common.c:20-76 | the next position, around the end; pointers and required index stay functions of the position alone, across wraps |
| `PbIterator.FieldIter.Find` | SAAMClient/Pods/nanopb/pb_common.c:78-95 | from any start the search ends and finds a tag exactly when a field has it; the empty descriptor, whose cursor stays on the terminator, finds only tag 0; a failed search returns to where it began |
| `PbInputStream.IStream.ReadByte` | SAAMClient/Pods/nanopb/pb_decode.c:136-152 | the first unread byte, unless there is none; position plus bytes left stays the same |
| `PbInputStream.IStream.Read` | SAAMClient/Pods/nanopb/pb_decode.c:100-132 | exactly count bytes or a failure |
| `PbInputStream.IStream.DecodeVarint32` | SAAMClient/Pods/nanopb/pb_decode.c:182-248 | the loop computes the 32-bit varint of the unread bytes, with its 8-bit bit counter, and reports end of file only before the first byte |
| `PbInputStream.IStream.DecodeVarint` | SAAMClient/Pods/nanopb/pb_decode.c:250-270 | the loop computes the 64-bit varint of the unread bytes |
| `PbInputStream.IStream.SkipVarint` | SAAMClient/Pods/nanopb/pb_decode.c:273-282 | skips up to the first byte without its top bit |
| `PbInputStream.IStream.SkipString` | SAAMClient/Pods/nanopb/pb_decode.c:284-291 | skips exactly the declared length |
| `PbInputStream.IStream.SkipField` | SAAMClient/Pods/nanopb/pb_decode.c:316-326 | skips one field of a wire type, or refuses the type |
| `PbInputStream.IStream.MakeSubstream` | SAAMClient/Pods/nanopb/pb_decode.c:367-380 | the substream holds exactly the declared bytes; the parent has given them up and keeps what follows them |
| `PbInputStream.IStream.CloseSubstream` | SAAMClient/Pods/nanopb/pb_decode.c:382-395 | the parent continues right after the declared bytes, whatever of them was read |
| `PbInputStream.IStream.DecodeNumber` | SAAMClient/Pods/nanopb/pb_decode.c:1289-1390 | one numeric value with its range check |
| `PbInputStream.IStream.DecodeData` | SAAMClient/Pods/nanopb/pb_decode.c:1391-1500 | bytes, string or fixed-length bytes, with the size checks of each |
| `PbRequired.MarkSeen` | SAAMClient/Pods/nanopb/pb_decode.c:988-993 | setting the bit of a required field adds just that field to the set of seen fields |
| `PbRequired.BitsOfAllSeen` | SAAMClient/Pods/nanopb/pb_decode.c:1006-1046 | the first 64 required fields have been seen exactly when their bits are set, and no bit beyond the last of them is |
| `PbRequired.CheckRequired` | SAAMClient/Pods/nanopb/pb_decode.c:1006-1046 | from any iterator position the check passes exactly when each of the first 64 required fields was seen |
| `PbRequired.LowBitsSet` | SAAMClient/Pods/nanopb/pb_decode.c:1027-1045 | comparing whole words and then the remaining bits tests exactly the bits below the count |
| `PbDecoder.DecodeTag` | SAAMClient/Pods/nanopb/pb_decode.c:293-314 | tag and wire type of the next varint; end of input and a zero tag both end the message |
| `PbDecoder.DecodeSubmessage` | SAAMClient/Pods/nanopb/pb_decode.c:1463-1485 | merges into the old submessage, or into defaults for an array entry; consumes exactly the declared length; position plus bytes left is conserved |
| `PbDecoder.DecodeValue` | SAAMClient/Pods/nanopb/pb_decode.c:401-412 | the decoder of one field's data gives the value the descriptor and the bytes determine, whatever the hidden state, and conserves position plus bytes left |
| `PbDecoder.DecodePackedEntries` | SAAMClient/Pods/nanopb/pb_decode.c:431-440 | the loop over a packed array succeeds with nothing left over exactly when the bytes are whole entries that fit the array |
| `PbDecoder.DecodePackedField` | SAAMClient/Pods/nanopb/pb_decode.c:420-448 | a packed array as a whole, with its substream closed |
| `PbDecoder.DecodeRepeated` | SAAMClient/Pods/nanopb/pb_decode.c:419-459 | one occurrence of a repeated field: a packed array or one more entry, refused beyond the array |
| `PbDecoder.ReleaseUnion` | SAAMClient/Pods/nanopb/pb_decode.c:1104-1128 | a oneof can change members unless the tag it holds is unknown |
| `PbDecoder.DecodeStaticField` | SAAMClient/Pods/nanopb/pb_decode.c:401-475 | the new struct, required set and fixed-count state are those of the value-level step, for every field rule |
| `PbDecoder.MarkRequired` | SAAMClient/Pods/nanopb/pb_decode.c:988-993 | the bitmap shows the required fields seen so far |
| `PbDecoder.BeginRound` | SAAMClient/Pods/nanopb/pb_decode.c:919-962 | how a round begins: end of message, failure, an unknown field skipped, or the field the tag names |
| `PbDecoder.DecodeFound` | SAAMClient/Pods/nanopb/pb_decode.c:964-997 | the round on a known field: iterator, bitmap and fixed-count counter agree with the value-level state after it |
| `PbDecoder.Finish` | SAAMClient/Pods/nanopb/pb_decode.c:999-1046 | the two final checks: last fixed-count field complete, required fields present |
| `PbDecoder.DecodeNoinit` | SAAMClient/Pods/nanopb/pb_decode.c:901-1049 | succeeds with exactly the struct that the value-level decoder gives for the unread bytes; conserves position plus bytes left; bytes left is the termination measure of the mutual recursion |
| `PbDecoder.Decode` | SAAMClient/Pods/nanopb/pb_decode.c:1051-1063 | reset and decode, with the layout of the descriptor kept |
| `PbShape.RunShaped` | SAAMClient/Pods/nanopb/pb_decode.c:901-1049 | whatever the bytes, a successful run leaves a struct with the layout of its descriptor: no array entry beyond its array, no slot of another field touched |
| `PbStorage.DecodedStorable` | SAAMClient/Pods/nanopb/pb_decode.c:1289-1508 | whatever bytes are decoded, numbers are within their C types, contents within their buffers, strings end before theirs and counts are within their arrays, at every depth |
| `PbStorage.Reencoded` | SAAMClient/Pods/nanopb/pb_encode.c:494-516 | whatever bytes a message was decoded from, it can be encoded, and decoding that, into any struct, gives it back, if the encoding is shorter than 2^32 |
| `PbPresence.AcceptedIfPresent` | SAAMClient/Pods/nanopb/pb_decode.c:999-1049 | a message that can be decoded field by field is accepted **if and only if** each of the first 64 required fields occurs in it and the last fixed-count field has all its entries |
| `PbPresence.CountsRequired` | SAAMClient/Pods/nanopb/pb_common.c:12-60 | the index of a required field is the number of required fields before it |
| `PbOutputStream.EmitsBoth` | SAAMClient/Pods/nanopb/pb_encode.c:101-119 | emitting one piece after another emits both, with the limit, the position and the untouched parts of the buffer accounted for |
| `PbOutputStream.OStream.FromBuffer` | SAAMClient/Pods/nanopb/pb_encode.c:84-99 | a stream limited to the buffer |
| `PbOutputStream.OStream.BufWrite` | SAAMClient/Pods/nanopb/pb_encode.c:72-82 | the bytes go behind the position and nothing else changes |
| `PbOutputStream.OStream.Write` | SAAMClient/Pods/nanopb/pb_encode.c:101-119 | counts, or writes exactly the bytes if they fit; never past the limit, and nothing before the old or from the new position on changes |
| `PbOutputStream.OStream.EncodeVarint` | SAAMClient/Pods/nanopb/pb_encode.c:574-594 | emits the varint of the value |
| `PbOutputStream.FillVarint` | SAAMClient/Pods/nanopb/pb_encode.c:576-591 | the loop fills the buffer with the varint of a value above 127, top bit of the last byte cleared |
| `PbOutputStream.OStream.EncodeString` | SAAMClient/Pods/nanopb/pb_encode.c:674-680 | emits length and bytes |
| `PbOutputStream.OStream.EncodeNumber` | SAAMClient/Pods/nanopb/pb_encode.c:734-808 | emits the bytes of a number that its C type holds |
| `PbEncoder.EncodeValue` | SAAMClient/Pods/nanopb/pb_encode.c:734-868 | each field encoder emits the bytes of its value, or fails exactly when there are none |
| `PbEncoder.StringContents` | SAAMClient/Pods/nanopb/pb_encode.c:844-852 | the bytes before the terminator, at most the buffer |
| `PbEncoder.EncodeSubmessage` | SAAMClient/Pods/nanopb/pb_encode.c:682-730 | emits length and contents; the size found by the sizing run is the size written, so "submsg size changed" is unreachable at any depth |
| `PbEncoder.WriteContents` | SAAMClient/Pods/nanopb/pb_encode.c:705-729 | through a substream limited to just that size the contents always fit |
| `PbEncoder.EncodeArray` | SAAMClient/Pods/nanopb/pb_encode.c:126-211 | emits a packed or unpacked array, or fails for a count beyond the array |
| `PbEncoder.EncodePacked` | SAAMClient/Pods/nanopb/pb_encode.c:139-181 | the length computed for a packed array is the length its entries have |
| `PbEncoder.CheckDefaultValue` | SAAMClient/Pods/nanopb/pb_encode.c:215-303 | the recursive proto3 check decides whether a value is the default one |
| `PbEncoder.CheckDefaultSlot` | SAAMClient/Pods/nanopb/pb_encode.c:215-270 | the same for a field of a submessage, found with a copied iterator |
| `PbEncoder.EncodeField` | SAAMClient/Pods/nanopb/pb_encode.c:307-392 | emits the bytes of one field of any rule, nothing for an absent one |
| `PbEncoder.Encode` | SAAMClient/Pods/nanopb/pb_encode.c:494-516 | the loop over the fields emits the encoding of the struct: it reports success exactly when there is one and it fits |
| `PbCodec.MessageEncodes` | SAAMClient/Pods/nanopb/pb_encode.c:494-516 | an encoding exists **if and only if**, at every depth of what is written, bytes fields and counts stay within their declared sizes |
| `PbCodec.GetEncodedSize` | SAAMClient/Pods/nanopb/pb_encode.c:533-542 | the sizing run gives the length of the encoding |
| `PbCodec.SizeThenEncode` | SAAMClient/Pods/nanopb/pb_encode.c:533-542 | if the sizing run gives n, writing to a buffer succeeds exactly when n bytes fit, writes exactly n, and changes no byte beyond those written |
| `PbCodec.EncodeThenDecode` | SAAMClient/Pods/nanopb/pb_decode.c:1051-1063 | encoding into a buffer and decoding the written bytes: both succeed exactly under the stated conditions, and the message comes back |
| `DtlsReplay.ReplayWindow.ShouldDiscard` | SAAMClient/Pods/BoringSSL-GRPC/ssl/dtls_record.cc:140-150 | discards exactly the numbers recorded before and those 64 or more behind the maximum |
| `DtlsReplay.ReplayWindow.Record` | SAAMClient/Pods/BoringSSL-GRPC/ssl/dtls_record.cc:155-175 | adds the number to the recorded set; the 64-bit map still shows the last 64 |
| `DtlsReplay.ReplayWindow.Clear` | SAAMClient/Pods/BoringSSL-GRPC/ssl/dtls_method.cc:81-95 | nothing is recorded |
| `DtlsReplay.WordShiftBit` | SAAMClient/Pods/BoringSSL-GRPC/ssl/dtls_record.cc:155-175 | a 64-bit word shifted by any amount, 64 and more included, has exactly its low bits moved up |
| `DtlsReplay.RecordReader.OpenRecord` | SAAMClient/Pods/BoringSSL-GRPC/ssl/dtls_record.cc:177-272 | what becomes of a record, for every record: it gets through **if and only if** it is authentic, not taken before under this cipher, not behind the window and not too long; only such records are remembered; an alert is processed and anything else handed out |
| `DtlsReplay.RecordReader.ProcessAlert` | SAAMClient/Pods/BoringSSL-GRPC/ssl/tls_record.cc:551-600 | the peer closes, a fifth warning in a row or anything else ends the connection, and other warnings are counted in eight bits |
| `DtlsReplay.RecordReader.SetReadState` | SAAMClient/Pods/BoringSSL-GRPC/ssl/dtls_method.cc:81-95 | the next epoch, modulo 2^16, with an empty window |
| `DtlsReplay.AcceptedOnce` | SAAMClient/Pods/BoringSSL-GRPC/ssl/dtls_record.cc:177-272 | over any run with any cipher changes no (epoch, sequence) is accepted twice, until the 16-bit epoch comes round (section 4.1.2.6 of RFC 6347) |
| `DtlsReplay.TakenByHistory` | SAAMClient/Pods/BoringSSL-GRPC/ssl/dtls_record.cc:177-272 | over any run a record is taken **if and only if** the peer has not closed, its epoch counts the cipher changes so far, its version is that of the last change (or a DTLS one before any), its body opens to at most 2^14 bytes, and its number has not been taken since the last change and is less than 64 behind all that have |
| `DtlsReplay.OutcomeByHistory` | SAAMClient/Pods/BoringSSL-GRPC/ssl/dtls_record.cc:177-272 | the same for what becomes of it: exactly when it is handed out, closes the connection, ends it (too long, an alert that is no warning, a fifth warning in a row) or is dropped |
| `DtlsReplay.ReceiveAll` | SAAMClient/Pods/BoringSSL-GRPC/ssl/dtls_record.cc:177-272 | the reader as it runs: for every event whether its record was taken, which it is if and only if it is authentic, new under its cipher and not behind the window; the log is exactly the numbers of those, and none is there twice; which those are its history says (`IsTaken`) |
| `DtlsFragment.FragmentRoundTrip` | SAAMClient/Pods/BoringSSL-GRPC/ssl/d1_both.cc:459-473 | the parser gives back header and body of a fragment and stops at its end |
| `DtlsFragment.ParsedHeader` | SAAMClient/Pods/BoringSSL-GRPC/ssl/d1_both.cc:459-473 | every parsed header fits its wire fields |
| `DtlsBitmap.OrRangeBit` | SAAMClient/Pods/BoringSSL-GRPC/ssl/d1_both.cc:203-205 | OR-ing bit_range(a, b) into a byte sets exactly bits a to b-1 |
| `DtlsBitmap.SetRange` | SAAMClient/Pods/BoringSSL-GRPC/ssl/d1_both.cc:221-236 | after marking a range the bitmap shows the old marks and the range, and nothing else |
| `DtlsBitmap.IsComplete` | SAAMClient/Pods/BoringSSL-GRPC/ssl/d1_both.cc:238-250 | the test passes exactly when every byte of the message is marked |
| `DtlsReassembly.HmFragment.constructor` | SAAMClient/Pods/BoringSSL-GRPC/ssl/d1_both.cc:152-199 | an empty message with the fields of the fragment's header |
| `DtlsReassembly.HmFragment.Mark` | SAAMClient/Pods/BoringSSL-GRPC/ssl/d1_both.cc:211-251 | the marked set grows by the range, stays within the message, and the bitmap is freed exactly when nothing is missing |
| `DtlsReassembly.HmFragment.Receive` | SAAMClient/Pods/BoringSSL-GRPC/ssl/d1_both.cc:387-402 | the body is copied to its place and marked; an already complete message is left alone |
| `DtlsReceiver.AbsorbKeepsRing` | SAAMClient/Pods/BoringSSL-GRPC/ssl/d1_both.cc:265-295 | the ring invariant: a filled slot i holds a message number n with n % 7 == i in the current window, so the assertion on the number found there cannot fail |
| `DtlsReceiver.Receiver.GetIncomingMessage` | SAAMClient/Pods/BoringSSL-GRPC/ssl/d1_both.cc:265-295 | the slot of the number, begun if empty; no message exactly when the number is outside the window (InternalError) or type or length contradict it (IllegalParameter) |
| `DtlsReceiver.Receiver.OpenFragment` | SAAMClient/Pods/BoringSSL-GRPC/ssl/d1_both.cc:340-402 | the verdict and the new ring of one fragment, number exactly seven ahead refused, stale and later ones ignored |
| `DtlsReceiver.Receiver.OpenFragments` | SAAMClient/Pods/BoringSSL-GRPC/ssl/d1_both.cc:335-404 | the fragments of a record in order, up to the first refused |
| `DtlsReceiver.Receiver.OpenHandshake` | SAAMClient/Pods/BoringSSL-GRPC/ssl/d1_both.cc:297-406 | for a record of every type the verdict and the whole state after it: fragments, a ChangeCipherSpec that is kept for later, application data, anything else |
| `DtlsReceiver.OpensByType` | SAAMClient/Pods/BoringSSL-GRPC/ssl/d1_both.cc:297-406 | what comes of a record of each content type, by number, before and after anything is encrypted; only handshake records reach the ring, only a record of just the byte 1 is a ChangeCipherSpec |
| `DtlsReceiver.Receiver.GetMessage` | SAAMClient/Pods/BoringSSL-GRPC/ssl/d1_both.cc:408-424 | hands out the current message exactly when it is complete, with its type, body and single-fragment form |
| `DtlsReceiver.Receiver.NextMessage` | SAAMClient/Pods/BoringSSL-GRPC/ssl/d1_both.cc:426-432 | frees the slot, moves the window by one, and changes nothing else of the receiver; what it does to the outgoing flight is `MessageRead` |
| `DtlsReceiver.Receiver.OpenChangeCipherSpec` | SAAMClient/Pods/BoringSSL-GRPC/ssl/d1_both.cc:486-490 | a ChangeCipherSpec that waits is taken, exactly once |
| `DtlsReceiver.Receiver.HasUnprocessed` | SAAMClient/Pods/BoringSSL-GRPC/ssl/d1_both.cc:440-457 | true exactly when a ChangeCipherSpec or any message but the current one is held |
| `DtlsReceiver.UnprocessedNumbers` | SAAMClient/Pods/BoringSSL-GRPC/ssl/d1_both.cc:440-457 | by the numbers of the messages: one of the next seven is held, other than the current one when that has been seen |
| `DtlsReceiver.Receiver.SetReadState` | SAAMClient/Pods/BoringSSL-GRPC/ssl/dtls_method.cc:81-95 | refused exactly when a ChangeCipherSpec or any message but the current one is held; otherwise the next epoch |
| `DtlsDelivery.AbsorbFollows` | SAAMClient/Pods/BoringSSL-GRPC/ssl/d1_both.cc:297-406 | a slice of a sent message, however cut, keeps every buffer in agreement with the message sent |
| `DtlsDelivery.SlicesAgree` | SAAMClient/Pods/BoringSSL-GRPC/ssl/d1_both.cc:340-402 | for slices of honest messages, exactly when each error can occur: too long, exactly seven ahead, or out of turn in epoch 1 |
| `DtlsDelivery.NextDelivered` | SAAMClient/Pods/BoringSSL-GRPC/ssl/d1_both.cc:408-438 | the message handed out is the next one sent, exact type and body |
| `DtlsDelivery.CompleteInAnyOrder` | SAAMClient/Pods/BoringSSL-GRPC/ssl/d1_both.cc:387-402 | once every byte of a message has arrived, in any order and with any overlaps, it is complete with the body that was sent |
| `DtlsArrival.WholePassCompletes` | SAAMClient/Pods/BoringSSL-GRPC/ssl/d1_both.cc:335-402 | once every record of a finished pass over a flight has arrived, in any order and among any other fragments of what was sent, every message of the flight that the window admits is complete with the body that was sent |
| `DtlsArrival.CcsArrives` | SAAMClient/Pods/BoringSSL-GRPC/ssl/d1_both.cc:297-406 | the record that carries a ChangeCipherSpec of a flight is read as one |
| `DtlsArrival.SevenAhead` | SAAMClient/Pods/BoringSSL-GRPC/ssl/d1_both.cc:267-270 | a concrete honest fragment that ends the connection: number readSeq + 7 is refused while readSeq + 8 would be ignored |
| `DtlsFlight.Tiling` | SAAMClient/Pods/BoringSSL-GRPC/ssl/d1_both.cc:644-780 | the pieces sealed so far carry every byte of the flight before the position reached, and nothing else |
| `DtlsFlight.BeforeOnce` | SAAMClient/Pods/BoringSSL-GRPC/ssl/d1_both.cc:644-780 | no byte is among them twice |
| `DtlsFlight.BeforeCells` | SAAMClient/Pods/BoringSSL-GRPC/ssl/d1_both.cc:644-780 | exactly which bytes come before a position |
| `DtlsFlight.WalkForward` | SAAMClient/Pods/BoringSSL-GRPC/ssl/d1_both.cc:739-780 | (outgoing_written, outgoing_offset) grows lexicographically with every piece |
| `DtlsWriter.RecordWriter.SealRecord` | SAAMClient/Pods/BoringSSL-GRPC/ssl/dtls_record.cc:294-351 | a record is made if and only if the cipher seals into the space, the 48-bit sequence goes on and the length has 16 bits; it gets the number of its epoch's counter, which no other record has. The counter moves once the cipher has sealed, so also when the sequence or the length then fails, and stays when the cipher fails |
| `DtlsWriter.RecordWriter.SetWriteState` | SAAMClient/Pods/BoringSSL-GRPC/ssl/dtls_method.cc:97-107 | the counter of the old epoch is kept for retransmission, the new one begins at 0 |
| `DtlsWriter.NewNumber` | SAAMClient/Pods/BoringSSL-GRPC/ssl/dtls_record.cc:294-351 | both counters stay ahead of every number used in their epochs |
| `DtlsWriter.MakesExact` | SAAMClient/Pods/BoringSSL-GRPC/ssl/dtls_record.cc:294-351 | exactly when a record is made, in numbers: space, the last sequence number, and 16 bits of length |
| `DtlsWriter.NumbersOnce` | SAAMClient/Pods/BoringSSL-GRPC/ssl/dtls_record.cc:294-351 | over any interleaving of seals in both epochs and cipher changes, no two records share (epoch, sequence), until a 48-bit counter or the 16-bit epoch runs out |
| `DtlsWriter.NotExhausted` | SAAMClient/Pods/BoringSSL-GRPC/ssl/dtls_record.cc:294-351 | a counter does not run out in fewer than 2^48 operations |
| `DtlsWriter.SealAll` | SAAMClient/Pods/BoringSSL-GRPC/ssl/dtls_record.cc:294-351 | the writer as it runs: the log is exactly the numbers of the records the operations make, none of them twice in fewer than 2^48 operations and 2^16 cipher changes |
| `DtlsSender.Sender.constructor` | SAAMClient/Pods/BoringSSL-GRPC/ssl/d1_lib.cc:81-84 | an empty flight and an empty wire |
| `DtlsSender.Sender.AddMessage` | SAAMClient/Pods/BoringSSL-GRPC/ssl/d1_both.cc:511-537 | numbers the message and queues it as one fragment; refused exactly beyond 2^24 bytes or seven messages; nothing else of the flight changes |
| `DtlsSender.Sender.AddChangeCipherSpec` | SAAMClient/Pods/BoringSSL-GRPC/ssl/d1_both.cc:600-602 | the same for a ChangeCipherSpec, in the current epoch |
| `DtlsSender.Sender.AddOutgoing` | SAAMClient/Pods/BoringSSL-GRPC/ssl/d1_both.cc:555-594 | refused exactly when seven messages are queued and the flight is not finished; the first message after a finished flight starts a new flight and a new pass, any other leaves the pass as it is |
| `DtlsSender.Sender.ClearOutgoing` | SAAMClient/Pods/BoringSSL-GRPC/ssl/d1_both.cc:500-509 | an empty flight, and a pass that has not begun |
| `DtlsSender.Sender.MessageRead` | SAAMClient/Pods/BoringSSL-GRPC/ssl/d1_both.cc:433-437 | a finished flight has a reply once a message is read |
| `DtlsSender.Sender.OnHandshakeComplete` | SAAMClient/Pods/BoringSSL-GRPC/ssl/dtls_method.cc:71-79 | the last flight is dropped if and only if it has a reply, and kept to be sent again otherwise |
| `DtlsSender.Sender.SealNextMessage` | SAAMClient/Pods/BoringSSL-GRPC/ssl/d1_both.cc:644-734 | what one call does is what `SealNext` gives for the flight, the counters and the cipher's answer, the epoch of the record and the place the flight goes on included |
| `DtlsSender.Sender.SealNextPacket` | SAAMClient/Pods/BoringSSL-GRPC/ssl/d1_both.cc:739-780 | the packet, the position and the counters after it are those of `Fill`; it fails if and only if a seal fails or the MTU has no room for the first piece |
| `DtlsSender.Sender.UpdateMtu` | SAAMClient/Pods/BoringSSL-GRPC/ssl/d1_both.cc:615-632 | an MTU at or above the minimum is kept; a smaller one becomes what the transport answers if that is from the minimum to 2^30, and the default otherwise, but only if the transport may be asked |
| `DtlsSending.MtuExact` | SAAMClient/Pods/BoringSSL-GRPC/ssl/d1_both.cc:615-632 | exactly what the MTU becomes, in numbers |
| `DtlsSender.Sender.SendPacket` | SAAMClient/Pods/BoringSSL-GRPC/ssl/d1_both.cc:790-815 | one packet for every answer of ciphers and transport: taken, it is on the wire and the position has moved; refused, the position is back where it was; after a failing seal, not |
| `DtlsSender.Sender.SendFlight` | SAAMClient/Pods/BoringSSL-GRPC/ssl/d1_both.cc:782-827 | the whole state after a call that writes as many packets as the transport takes, and 1 only when the whole flight is written |
| `DtlsSender.Sender.FlushFlight` | SAAMClient/Pods/BoringSSL-GRPC/ssl/d1_both.cc:829-834 | the same on a flight that is then finished, from wherever an earlier call stopped |
| `DtlsSender.Sender.Retransmit` | SAAMClient/Pods/BoringSSL-GRPC/ssl/d1_both.cc:836-845 | the same as a new pass from the beginning of the flight |
| `DtlsSealing.SealNextExact` | SAAMClient/Pods/BoringSSL-GRPC/ssl/d1_both.cc:644-734 | exactly when a seal fails (its epoch is gone, the prefix of the record leaves no room, or the record is not made), exactly when there is no progress, and otherwise the longest piece that fits goes into a record of the epoch of its message; which cipher that is `DtlsCiphers.CipherOfEpoch` says |
| `DtlsSealing.PieceIsLongest` | SAAMClient/Pods/BoringSSL-GRPC/ssl/d1_both.cc:644-734 | with 12 bytes of header, 13 of the record and what the cipher may add the piece is within the space, and reaches the end of the message or fills it; no progress only where not one byte would fit |
| `DtlsCiphers.CipherOfEpoch` | SAAMClient/Pods/BoringSSL-GRPC/ssl/dtls_record.cc:273-282 | of the ciphers installed so far, the one a message is sealed with is the one at the place of its own epoch |
| `DtlsSealing.FillPacked` | SAAMClient/Pods/BoringSSL-GRPC/ssl/d1_both.cc:739-780 | a packet keeps to its limit and carries the next pieces of the flight, each where the one before ended |
| `DtlsSealing.SoundFill` | SAAMClient/Pods/BoringSSL-GRPC/ssl/d1_both.cc:739-780 | with good ciphers of the right epochs and sequences that cannot run out no seal of a packet fails, and it gets a record if there is room for one |
| `DtlsSending.PacketKeeps` | SAAMClient/Pods/BoringSSL-GRPC/ssl/d1_both.cc:790-815 | a packet that is not written leaves the wire as it is, and the position too unless a failing seal has cost pieces; one that is written keeps to the MTU |
| `DtlsSending.SendKeeps` | SAAMClient/Pods/BoringSSL-GRPC/ssl/d1_both.cc:782-827 | however a flight is written: packets of at most the MTU come onto the wire in order, the position never goes back, every record comes from a message added, and success means that the whole flight is written |
| `DtlsSending.SendReturns` | SAAMClient/Pods/BoringSSL-GRPC/ssl/d1_both.cc:782-827 | a call returns 1 **if and only if** it gets to the end of the flight and the flush that follows is taken, otherwise no positive number; shut down it does nothing |
| `DtlsSending.TrackTiles` | SAAMClient/Pods/BoringSSL-GRPC/ssl/d1_both.cc:782-827 | the packets of a pass carry every byte of the flight up to the position exactly once and in order **if and only if** no piece was sealed into a packet that a failing seal then ruined |
| `DtlsSending.SendSound` | SAAMClient/Pods/BoringSSL-GRPC/ssl/d1_both.cc:782-827 | a condition on ciphers, counters, epochs and MTU, checked before the call, under which nothing is lost whatever the transport does; and if the transport takes what it is given, the call succeeds |
| `DtlsSending.FlightGetsWritten` | SAAMClient/Pods/BoringSSL-GRPC/ssl/d1_both.cc:829-834 | the whole flight is then on the wire, every byte of it exactly once and in order |
| `DtlsSending.WritableGetsWritten` | SAAMClient/Pods/BoringSSL-GRPC/ssl/d1_both.cc:829-834 | the same from a condition on numbers alone: MTU, overheads of the two ciphers, epochs of the messages and what the sequences have left |
| `DtlsSending.QueuedSteady` | SAAMClient/Pods/BoringSSL-GRPC/ssl/d1_both.cc:555-594 | a message added leaves the pass over the flight on track, or begins a new one |
| `DtlsSchedule.PlanKept` | SAAMClient/Pods/BoringSSL-GRPC/ssl/d1_both.cc:426-594 | after any operation the queue with the epochs of its messages, whether the flight is finished and answered, and all messages accepted so far are those the schedule asks for |
| `DtlsSchedule.OpKeeps` | SAAMClient/Pods/BoringSSL-GRPC/ssl/d1_both.cc:511-845 | every operation keeps the pass on track, and the messages and packets there have been; success means that the whole flight is written |
| `DtlsSchedule.Leads` | SAAMClient/Pods/BoringSSL-GRPC/ssl/d1_both.cc:511-845 | over a whole run the same, and a pass begins where the schedule says, with what was on the wire at that moment |
| `DtlsSchedule.NothingLost` | SAAMClient/Pods/BoringSSL-GRPC/ssl/d1_both.cc:782-827 | nothing is lost in a pass of which every write meets the condition of `SendSound` |
| `DtlsSchedule.FailureLoses` | SAAMClient/Pods/BoringSSL-GRPC/ssl/d1_both.cc:749-753 | a concrete flight whose ChangeCipherSpec is lost: the seal of the message behind it fails once, the next call reports success, and only the message is on the wire |
| `DtlsSchedule.SendAll` | SAAMClient/Pods/BoringSSL-GRPC/ssl/d1_both.cc:511-845 | over any schedule of added messages, flushes, failed writes, retransmissions, MTU and cipher changes, replies and the end of the handshake, and for all answers of ciphers and transport: the sender is exactly where its operations lead on values, and the queue is what the schedule asks for; the packets that came onto the wire **since the operation that began the pass** carry every byte of the flight up to the position reached exactly once and in order if and only if no failing seal has cost a piece, which cannot be where every write of the pass meets the condition of `SendSound`; success means that the position is the end of the flight and the pass has put packets on the wire; every record was sealed by the cipher of its own epoch (`RunProper`) |
| `DtlsSchedule.RunProper` | SAAMClient/Pods/BoringSSL-GRPC/ssl/d1_both.cc:644-734 | over any schedule every record on the wire was sealed by the cipher that its own epoch was installed with (the first one, or that of the cipher change that began the epoch), however often it is sent again after later changes; its length is that of header, plaintext and one answer of that cipher; and no two records the transport has taken share epoch and sequence number until the 16-bit epoch comes round or ciphers have been used 2^48 times |
| `DtlsSession.Session.Receive` | SAAMClient/Pods/BoringSSL-GRPC/ssl/d1_both.cc:297-406 | what any record that arrives does to the session, replay window, ring, kept ChangeCipherSpec and end of the session included |
| `DtlsSession.Session.OpenChangeCipherSpec` | SAAMClient/Pods/BoringSSL-GRPC/ssl/d1_both.cc:475-491 | a wait for a ChangeCipherSpec: one that was kept is taken without reading; otherwise the next record is read, and one that it brings is taken |
| `DtlsSession.Session.ChangeCipher` | SAAMClient/Pods/BoringSSL-GRPC/ssl/dtls_method.cc:81-95 | reader and receiver change together, or the session ends, exactly when something is left over |
| `DtlsSession.ChangeAfterCcs` | SAAMClient/Pods/BoringSSL-GRPC/ssl/d1_both.cc:475-491 | a kept ChangeCipherSpec ends the session if the cipher changes at once; after the wait for it the cipher changes and the session goes on, if nothing else is left over |
| `DtlsSession.ReceivedExact` | SAAMClient/Pods/BoringSSL-GRPC/ssl/d1_both.cc:297-406 | what any record of the network does: a late one, a copy or one of another epoch leaves the session as it is; one that is expected gets to the receiver and ends the session only if it is refused there or too long |
| `DtlsSession.ChangeAfterLook` | SAAMClient/Pods/BoringSSL-GRPC/ssl/dtls_method.cc:81-95 | the current message is in the way of a cipher change until it has been looked at or taken, the one behind it always |
| `DtlsSession.CcsCounted` | SAAMClient/Pods/BoringSSL-GRPC/ssl/d1_both.cc:475-491 | over any run the ChangeCipherSpecs that have been waited for, and the one that is kept, are no more than the records of that type that have come |
| `DtlsSession.Session.Read` | SAAMClient/Pods/BoringSSL-GRPC/ssl/d1_both.cc:408-438 | hands out the next message exactly when it is complete, and changes nothing else |
| `DtlsSession.Session.Send` | SAAMClient/Pods/BoringSSL-GRPC/ssl/d1_both.cc:511-845 | an operation of the sender does what it does on values, and nothing to the receiver |
| `DtlsSession.Session.Act` | SAAMClient/Pods/BoringSSL-GRPC/ssl/d1_both.cc:265-438 | every action does what the step relation says, and the messages handed out stay the first of those sent |
| `DtlsSession.SenderRuns` | SAAMClient/Pods/BoringSSL-GRPC/ssl/d1_both.cc:511-845 | the sender in a session is where its own operations lead, whatever the receiver does |
| `DtlsSession.Run` | SAAMClient/Pods/BoringSSL-GRPC/ssl/d1_both.cc:265-845 | whatever the network loses, duplicates and reorders, however retransmissions re-fragment and across any cipher changes: every action of the schedule is a step of the session, which has one outcome; the messages sent are exactly those the schedule adds while there is room, and at every moment those handed out are a prefix of those sent so far, exact types and bodies, for fewer than 2^16 messages |
| `DtlsCompletion.MessageDone` | SAAMClient/Pods/BoringSSL-GRPC/ssl/d1_both.cc:265-438 | in any run, once every record of a finished pass without loss has arrived, at whatever moments and with whatever reads and cipher changes between, each message of the flight has been handed out or waits complete in its slot |
| `DtlsCompletion.ReadOut` | SAAMClient/Pods/BoringSSL-GRPC/ssl/d1_both.cc:408-438 | complete messages are handed out one after the other, each with its exact type and body |
| `DtlsCompletion.PassFromSchedule` | SAAMClient/Pods/BoringSSL-GRPC/ssl/d1_both.cc:511-845 | the flight of a session is the one its schedule asks for, has been written to its end once its last operation says so, and has lost nothing where every write of the pass meets the condition of `SendSound` |
| `DtlsCompletion.FlightRead` | SAAMClient/Pods/BoringSSL-GRPC/ssl/d1_both.cc:265-845 | from any moment at which the session lasts: if each of the next n messages to be read is in some flight of which a finished pass without loss has arrived, reading hands out all n, and so everything sent up to there |
| `DtlsCompletion.RunIsGood` | SAAMClient/Pods/BoringSSL-GRPC/ssl/d1_both.cc:265-845 | these results hold of every run of the session, while message numbers have not come round |
| `TlsAgreement.Agreement` | SAAMClient/Pods/BoringSSL-GRPC/ssl/handshake.cc:491-628 | client and server over a reliable channel, each at its own pace with any retries: no run hits an unexpected message; where both know the master secret it is the same; when both are done their transcripts are equal and hold exactly the messages the parameters call for |
| `TlsAgreement.StepInv` | SAAMClient/Pods/BoringSSL-GRPC/ssl/handshake_client.cc:1707-1789 | the invariant of the composition, kept by every action of either end: whoever is ahead has sent exactly what the other has yet to take, transcripts differ by just that |
| `TlsAgreement.SameSecret` | SAAMClient/Pods/BoringSSL-GRPC/ssl/handshake_client.cc:1220-1371 | both ends compute the master secret from equal transcripts up to the ClientKeyExchange |
| `TlsAgreement.FinishedOverSame` | SAAMClient/Pods/BoringSSL-GRPC/ssl/handshake.cc:380-429 | a Finished that has arrived was computed over exactly the transcript it is checked against |
| `TlsAgreement.HashedOnce` | SAAMClient/Pods/BoringSSL-GRPC/ssl/handshake.cc:215-222 | neither end ever hashes a message twice, whatever it re-enters |
| `TlsAgreement.OneAhead` | SAAMClient/Pods/BoringSSL-GRPC/ssl/handshake.cc:215-222 | one transcript always extends the other |
| `TlsAgreement.DoneAgrees` | SAAMClient/Pods/BoringSSL-GRPC/ssl/handshake_server.cc:1511-1537 | when both are done nothing is on its way and the transcripts are the whole script |
| `TlsProgress.NoDeadlock` | SAAMClient/Pods/BoringSSL-GRPC/ssl/handshake.cc:491-628 | neither end can be left waiting for the other |
| `TlsProgress.AlwaysCompletable` | SAAMClient/Pods/BoringSSL-GRPC/ssl/handshake.cc:491-628 | however a run has gone, both ends can still reach done, with equal transcripts |
| `TlsScript.RestDistinct` | SAAMClient/Pods/BoringSSL-GRPC/ssl/handshake_client.cc:1707-1789 | no message is on the script twice |
| `TlsClientSteps.Step` | SAAMClient/Pods/BoringSSL-GRPC/ssl/handshake_client.cc:1707-1789 | from every state on the script the client's next step does not fail and sends or takes exactly the messages that come next |
| `TlsServerSteps.Step` | SAAMClient/Pods/BoringSSL-GRPC/ssl/handshake_server.cc:1539-1621 | the same for the server |
| `TlsClientSafety.DoneIsChecked` | SAAMClient/Pods/BoringSSL-GRPC/ssl/handshake_client.cc:1707-1789 | against any peer: done only after a processed ChangeCipherSpec and a Finished with the right verify data, in a full certificate handshake only with the server's certificate verified, and resumed only if it was offered |
| `TlsClientOrder.OrderedRun` | SAAMClient/Pods/BoringSSL-GRPC/ssl/handshake_client.cc:1707-1789 | against any peer that sends anything in any order: what the client has hashed, read or sent, is in order just what the negotiated flags ask for up to the state it is in; no message is left out, read twice or accepted out of place |
| `TlsClientOrder.WholeCourse` | SAAMClient/Pods/BoringSSL-GRPC/ssl/handshake_client.cc:1707-1789 | what that is at the end of a full handshake and of a resumption, message by message |
| `TlsClientOrder.StepFails` | SAAMClient/Pods/BoringSSL-GRPC/ssl/handshake_client.cc:1707-1789 | a step fails **if and only if** the next message is not one its state accepts, is an empty server certificate or a wrong Finished, comes before the key change, does not parse, or what the step does fails |
| `TlsClientOrder.StepAwaits` | SAAMClient/Pods/BoringSSL-GRPC/ssl/handshake_client.cc:1707-1789 | exactly when a step waits for a message, for a ChangeCipherSpec or for its flight to be written |
| `TlsClientOrder.CcsRead` | SAAMClient/Pods/BoringSSL-GRPC/ssl/handshake.cc:491-628 | the ChangeCipherSpec counts as read if and only if a record with one came while it was waited for |
| `TlsClientOrder.RecordFails` | SAAMClient/Pods/BoringSSL-GRPC/ssl/handshake.cc:491-605 | a record is refused exactly when it is a ChangeCipherSpec and none is waited for, or the other way round; otherwise its messages wait behind those there are |
| `TlsClientSafety.StepWaits` | SAAMClient/Pods/BoringSSL-GRPC/ssl/handshake_client.cc:1172-1572 | exactly when a step waits for the caller: certificate, private key, Channel ID, verification, and an early return |
| `TlsClientSafety.EarlyRun` | SAAMClient/Pods/BoringSSL-GRPC/ssl/handshake_client.cc:1554-1563 | a run waits to return early **if and only if** its last step was a False Start allowed in a full handshake, and the caller has not had its turn since |
| `TlsClientSafety.EarlyOnlyByFalseStart` | SAAMClient/Pods/BoringSSL-GRPC/ssl/handshake_client.cc:1554-1563 | without such a step no run returns early |
| `TlsClientSafety.StepAdvances` | SAAMClient/Pods/BoringSSL-GRPC/ssl/handshake_client.cc:1707-1789 | every step that does not fail advances the rank or leaves everything as it is and waits; the rank orders full and resumed flows differently |
| `TlsServerSafety.DoneIsChecked` | SAAMClient/Pods/BoringSSL-GRPC/ssl/handshake_server.cc:1539-1621 | against any peer: done only after ChangeCipherSpec and Finished, with any client certificate verified and proved by a CertificateVerify; a certificate was requested only if the policy says so for what has been negotiated, and whenever it says so, unless it makes an exception for a Channel ID; one that is requested and required is there |
| `TlsServerOrder.OrderedRun` | SAAMClient/Pods/BoringSSL-GRPC/ssl/handshake_server.cc:1539-1621 | the same for the server: against any peer its transcript is in order just what the flags it settled on ask for up to its state |
| `TlsServerOrder.StepFails` | SAAMClient/Pods/BoringSSL-GRPC/ssl/handshake_server.cc:1539-1621 | a step fails **if and only if** the next message is not the one its state reads, is an empty certificate where one is required or a wrong Finished, comes before the key change, does not parse, or what the step does fails |
| `TlsServerOrder.StepWaits` | SAAMClient/Pods/BoringSSL-GRPC/ssl/handshake_server.cc:1539-1621 | exactly when a step waits for a message, for a ChangeCipherSpec, for its flight to be written, and for each of the callbacks |
| `TlsServerOrder.CcsRead` | SAAMClient/Pods/BoringSSL-GRPC/ssl/handshake.cc:491-628 | the ChangeCipherSpec counts as read if and only if a record with one came while it was waited for |
| `TlsServerOrder.RecordFails` | SAAMClient/Pods/BoringSSL-GRPC/ssl/handshake.cc:491-605 | the same for the server |
| `TlsServerPolicy.RequiredCertificate` | SAAMClient/Pods/BoringSSL-GRPC/ssl/handshake_server.cc:638-650 | a server that is done, with a policy that requires a certificate for this connection, has one **if and only if** the policy makes no exception for a Channel ID or the ServerHello dropped no Channel ID |
| `TlsServerPolicy.ExactRun` | SAAMClient/Pods/BoringSSL-GRPC/ssl/handshake_server.cc:638-702 | the request was made exactly if the policy says so for the Channel ID as it was before the ServerHello |
| `TlsServerPolicy.DoneWithout` | SAAMClient/Pods/BoringSSL-GRPC/ssl/handshake_server.cc:688-694 | a concrete run to the last state without the required certificate: a Channel ID is offered with a cipher without ECDHE, so no certificate is requested, and the ServerHello then drops the Channel ID |
| `TlsServerSafety.StepAdvances` | SAAMClient/Pods/BoringSSL-GRPC/ssl/handshake_server.cc:1539-1621 | every step that does not fail advances the rank or waits |
| `TlsIo.MessageIo.ReadMessage` | SAAMClient/Pods/BoringSSL-GRPC/ssl/handshake.cc:165-174 | type check, hash, further checks, and only then the message leaves the buffer |
| `TlsIo.MessageIo.OpenRecord` | SAAMClient/Pods/BoringSSL-GRPC/ssl/handshake.cc:508-544 | what a wait for a message or for a ChangeCipherSpec makes of the next record |
| `TlsIo.MessageIo.GetFinished` | SAAMClient/Pods/BoringSSL-GRPC/ssl/handshake.cc:380-429 | accepts exactly the Finished whose body is the verify data of the transcript before it |
| `TlsIo.MessageIo.SendFinished` | SAAMClient/Pods/BoringSSL-GRPC/ssl/handshake.cc:431-476 | sends the verify data of the transcript so far |
| `TlsClientRun.ClientConnection.Step` | SAAMClient/Pods/BoringSSL-GRPC/ssl/handshake_client.cc:1707-1789 | whichever state it is in, the method of that state sends, takes, hashes and checks just what the value-level machine does, or leaves everything and waits |
| `TlsClientRun.ClientConnection.Resolve` | SAAMClient/Pods/BoringSSL-GRPC/ssl/handshake.cc:491-605 | the transport or the caller has its turn: what happens is the event that stands for it, or nothing; it stops exactly on an error, when the transport does not do what is waited for, or for the caller; an early return is reported once |
| `TlsClientRun.ClientConnection.Handshake` | SAAMClient/Pods/BoringSSL-GRPC/ssl/handshake_client.cc:1707-1789 | the loop ends, is a run of the value-level machine, and everything due has been checked where it stops |
| `TlsClientRun.ClientConnection.Run` | SAAMClient/Pods/BoringSSL-GRPC/ssl/handshake.cc:491-628 | what happens is a run of the value-level machine in which the transport does just what it is given; 1 without an early return means the last state with everything checked, 1 early means that a step of the run was a False Start allowed in a full handshake and the caller has its turn, and -1 means an error, the caller's turn, or a wait for something that is not what the transport does next; terminates on any transport |
| `TlsServerRun.ServerConnection.Step` | SAAMClient/Pods/BoringSSL-GRPC/ssl/handshake_server.cc:1539-1621 | the same for the server |
| `TlsServerRun.ServerConnection.Resolve` | SAAMClient/Pods/BoringSSL-GRPC/ssl/handshake.cc:491-605 | the same for the server |
| `TlsServerRun.ServerConnection.Handshake` | SAAMClient/Pods/BoringSSL-GRPC/ssl/handshake_server.cc:1539-1621 | the loop ends, is a run of the value-level machine, and everything due has been checked where it stops |
| `TlsServerRun.ServerConnection.Run` | SAAMClient/Pods/BoringSSL-GRPC/ssl/handshake.cc:491-628 | the same for the server, which never returns early |
| `TlsCipher.ChooseCipher` | SAAMClient/Pods/BoringSSL-GRPC/ssl/handshake_server.cc:357-424 | returns the usable shared cipher that comes first by (group of the preferred list, place in the other list), and none exactly when no usable cipher is shared; without groups, the first usable shared one |
| `TlsFraming.MessageRoundTrip` | SAAMClient/Pods/BoringSSL-GRPC/ssl/s3_both.cc:399-425 | the parser gives back a message and stops at its end |
| `TlsFraming.FirstOfStream` | SAAMClient/Pods/BoringSSL-GRPC/ssl/s3_both.cc:399-425 | any part of a stream of messages parses as its first message, or as too short with a bound on what is missing |
| `TlsFraming.HandshakeReader.GetMessage` | SAAMClient/Pods/BoringSSL-GRPC/ssl/s3_both.cc:427-439 | the message at the front of the buffer, if it is whole |
| `TlsFraming.HandshakeReader.CanAccept` | SAAMClient/Pods/BoringSSL-GRPC/ssl/s3_both.cc:441-459 | accepts exactly when no whole message waits and the next is not too long |
| `TlsFraming.HandshakeReader.HasUnprocessed` | SAAMClient/Pods/BoringSSL-GRPC/ssl/s3_both.cc:461-472 | true exactly when the buffer holds more than the message seen |
| `TlsFraming.HandshakeReader.OpenHandshake` | SAAMClient/Pods/BoringSSL-GRPC/ssl/s3_both.cc:474-560 | appends the whole record, or refuses it and leaves the buffer |
| `TlsFraming.HandshakeReader.NextMessage` | SAAMClient/Pods/BoringSSL-GRPC/ssl/s3_both.cc:562-583 | removes exactly the current message |
| `TlsFlightWriter.MessageSealed` | SAAMClient/Pods/BoringSSL-GRPC/ssl/s3_both.cc:184-205 | the records of a message join to the message, behind those made before; the message is made if and only if the cipher fails on none of them |
| `TlsFlightWriter.FlightWriter.AddRecord` | SAAMClient/Pods/BoringSSL-GRPC/ssl/s3_both.cc:135-165 | one record at the end of the flight, or none if the cipher fails |
| `TlsFlightWriter.FlightWriter.AddMessage` | SAAMClient/Pods/BoringSSL-GRPC/ssl/s3_both.cc:184-205 | the message in records within the fragment limit, at least one, and in the transcript once if all were made |
| `TlsFlightWriter.FlightWriter.Flush` | SAAMClient/Pods/BoringSSL-GRPC/ssl/s3_both.cc:231-279 | the transport receives what the write buffer held and then the sealed records, in order, across any short writes; it is 1 **if and only if** there was nothing to send or the connection is open, the transport has taken something each time it was asked until all was gone, and was flushed; shut down, nothing is written |
| `TlsExchange.GoKeeps` | SAAMClient/Pods/BoringSSL-GRPC/ssl/s3_both.cc:184-583 | from any state in which the records carry what was sent and the reader holds part of it, the same holds after any schedule |
| `TlsExchange.DeliveredInOrder` | SAAMClient/Pods/BoringSSL-GRPC/ssl/s3_both.cc:184-583 | however messages are cut into records and whenever the receiver reads: those sent are the schedule's, all of them unless the cipher has failed; those handed out are a prefix of them, all of them once everything is read; only a message over the limit is refused |
| `TlsExchange.CanDrain` | SAAMClient/Pods/BoringSSL-GRPC/ssl/s3_both.cc:427-583 | from any such state, if no message is over the limit, reading alone gets the receiver everything that was sent |
| `TlsExchange.Exchange.SendMessage` | SAAMClient/Pods/BoringSSL-GRPC/ssl/s3_both.cc:184-205 | sends what the value-level step sends, and nothing after a failure |
| `TlsExchange.Exchange.DeliverRecord` | SAAMClient/Pods/BoringSSL-GRPC/ssl/s3_both.cc:474-560 | the next record is read, skipped if it is no handshake record, or refused for its length |
| `TlsExchange.Exchange.ReadMessage` | SAAMClient/Pods/BoringSSL-GRPC/ssl/s3_both.cc:427-583 | the next whole message is handed out and leaves the buffer |
| `TlsExchange.Run` | SAAMClient/Pods/BoringSSL-GRPC/ssl/s3_both.cc:184-583 | writer and reader as they run end in the state the schedule determines, so all of this holds of them |
| `TlsSends.ClientAdds` | SAAMClient/Pods/BoringSSL-GRPC/ssl/handshake_client.cc:1707-1789 | whatever the client does, a step only adds messages to the flight, each with the contents its sender gives it |
| `TlsSends.ServerAdds` | SAAMClient/Pods/BoringSSL-GRPC/ssl/handshake_server.cc:1539-1621 | the same for the server |
| `TlsWay.AllDecode` | SAAMClient/Pods/BoringSSL-GRPC/ssl/s3_both.cc:184-205 | the records that a flight of messages and ChangeCipherSpecs is cut into, with any fragment limit, are read as just those messages, with nothing left over |
| `TlsWay.MovedOk` | SAAMClient/Pods/BoringSSL-GRPC/ssl/s3_both.cc:231-279 | writing any number of records brings just the messages they complete onto the wire, and all of the flight exactly with the last record |
| `TlsWay.OpenedOk` | SAAMClient/Pods/BoringSSL-GRPC/ssl/s3_both.cc:474-560 | reading a record takes just the messages it completes from the channel; a ChangeCipherSpec comes between messages |
| `TlsWay.CodecExists` | SAAMClient/Pods/BoringSSL-GRPC/ssl/s3_both.cc:399-425 | there is a codec as these results assume it, whenever the contents of messages are bounded |
| `TlsBytes.OneEvent` | SAAMClient/Pods/BoringSSL-GRPC/ssl/handshake.cc:491-628 | whatever either end does over records is one step over a channel of messages, or none |
| `TlsBytes.RunOfMessages` | SAAMClient/Pods/BoringSSL-GRPC/ssl/handshake.cc:491-628 | every run over records is a run over messages |
| `TlsBytes.AgreementInBytes` | SAAMClient/Pods/BoringSSL-GRPC/ssl/handshake.cc:491-628 | `Agreement` for the two ends joined by records: however flights are cut, written and read, part of a message held at any time, nothing fails, known master secrets are equal, and when both are done the transcripts are equal and hold the script |
| `TlsBytesProgress.Closer` | SAAMClient/Pods/BoringSSL-GRPC/ssl/handshake.cc:491-628 | from every state over records until both are done some event brings both ends closer, be it a record that completes no message |
| `TlsBytesProgress.AlwaysCompletableInBytes` | SAAMClient/Pods/BoringSSL-GRPC/ssl/handshake.cc:491-628 | however a run over records has gone, both ends can still reach done, with equal transcripts |
| `TlsBuffer.SslBuffer.EnsureCap` | SAAMClient/Pods/BoringSSL-GRPC/ssl/ssl_buffer.cc:47-81 | room for the bytes asked for, contents kept; refused exactly beyond 16 bits |
| `TlsBuffer.SslBuffer.Append` | SAAMClient/Pods/BoringSSL-GRPC/ssl/ssl_buffer.cc:83-88 | the bytes go behind the contents |
| `TlsBuffer.SslBuffer.Consume` | SAAMClient/Pods/BoringSSL-GRPC/ssl/ssl_buffer.cc:90-97 | drops exactly that many bytes from the front, while the 16-bit offset does not come round |
| `TlsBuffer.SslBuffer.DiscardConsumed` | SAAMClient/Pods/BoringSSL-GRPC/ssl/ssl_buffer.cc:99-103 | frees the block exactly when nothing is left |
| `TlsWriter.AppWriter.FlushBuffer` | SAAMClient/Pods/BoringSSL-GRPC/ssl/ssl_buffer.cc:239-252 | what the transport has and what is buffered stay the same bytes in order |
| `TlsWriter.AppWriter.WritePending` | SAAMClient/Pods/BoringSSL-GRPC/ssl/s3_pkt.cc:202-218 | the record left over is finished, only for a retry with the same buffer |
| `TlsWriter.AppWriter.DoWrite` | SAAMClient/Pods/BoringSSL-GRPC/ssl/s3_pkt.cc:221-289 | seals the data exactly once, behind the leftover flight, or finishes the record of the earlier call; exactly when each reason to do neither applies |
| `TlsWriter.AppWriter.WriteRecord` | SAAMClient/Pods/BoringSSL-GRPC/ssl/s3_pkt.cc:160-196 | one round: a chunk is sealed or finished and the place to go on from stays right |
| `TlsWriter.AppWriter.WriteAppData` | SAAMClient/Pods/BoringSSL-GRPC/ssl/s3_pkt.cc:129-200 | success: the records sealed since the write began join to the data; otherwise the place to continue from is remembered, and the reason is exactly one of: shut down (then nothing is sealed or sent), bad length, other bytes than before, something else in the buffer, nothing to write, the cipher failed, the transport refused |
| `TlsWriter.WriteAll` | SAAMClient/Pods/BoringSSL-GRPC/ssl/s3_pkt.cc:129-289 | a caller that retries the same bytes until success has them sealed exactly once, and the transport has the leftover flight and then all records, in order; until then a first part of them has been sealed, exactly once, and the write goes on from there. With a cipher that seals and a connection that is open it is done **if and only if** the transport has refused fewer times than there were tries; after a shutdown nothing changes |
| `Refcount.LockedCount.Increment` | SAAMClient/Pods/BoringSSL-GRPC/crypto/refcount_lock.c:29-35 | one more, unless saturated |
| `Refcount.LockedCount.DecrementAndTestZero` | SAAMClient/Pods/BoringSSL-GRPC/crypto/refcount_lock.c:37-51 | one less, unless saturated; aborts at zero; 1 exactly when it reaches zero |
| `Refcount.Linearizable` | SAAMClient/Pods/BoringSSL-GRPC/crypto/refcount_c11.c:37-65 | under every interleaving of loads and weak compare-and-swaps, spurious failures included, the finished calls in the order they finish are a run of the locked count |
| `Refcount.RoundFinishes` | SAAMClient/Pods/BoringSSL-GRPC/crypto/refcount_c11.c:37-65 | a thread that has read the count as it is finishes its call in one round, with just what a call under the lock would do |
| `Refcount.TwoRoundsFinish` | SAAMClient/Pods/BoringSSL-GRPC/crypto/refcount_c11.c:37-65 | two rounds are enough when no other thread comes between |
| `Refcount.AbortSawZero` | SAAMClient/Pods/BoringSSL-GRPC/crypto/refcount_c11.c:49-57 | a decrement that aborts saw the count at zero at some point after it began and before it aborted |
| `Refcount.LastRead` | SAAMClient/Pods/BoringSSL-GRPC/crypto/refcount_c11.c:37-65 | under every interleaving, what a thread goes by is what the count was at some point within its call |
| `Refcount.References` | SAAMClient/Pods/BoringSSL-GRPC/crypto/refcount_c11.c:49-65 | with one decrement for each reference held no call aborts, and while the count has not saturated a decrement has returned 1 exactly if no reference is left, and only one has |
| `Refcount.StaysSaturated` | SAAMClient/Pods/BoringSSL-GRPC/crypto/refcount_c11.c:37-65 | a count that has reached 2^32 - 1 stays there and no decrement returns 1 |

## Left out

Results stated for less than every input, or with part of the state not described:

- PbRoundTrip.RoundTrip: is for encodings shorter than 2^63 bytes, which every object in memory is; a fixed-count field inside a proto3 singular submessage is excluded, because the default check reads a count such a field does not have.
- PbDecoder.Decode: does not describe the struct after a failed decode, nor `pb_release` on it.
- PbDecoder.DecodeStaticField: the destination struct is a value that goes in and comes out; the offsets at which its fields lie are modelled in the iterator only, and the reset of a fixed-count field through a missing count, which writes over its first bytes, is not modelled.
- PbEncoder.CheckDefaultSlot: excludes a fixed-count field; the code reads, as its count, whatever the first bytes of its array are.
- PbJoin.EncodingsJoin: is for encodings shorter than 2^63 bytes, like the round trip.
- PbStorage.DecodedStorable: is for descriptors whose default values and buffers have the sizes they declare, and for structs whose fixed-count arrays, which resetting leaves alone, hold such entries to begin with.
- PbCodec.GetEncodedSize: reports failure where `size_t` would wrap instead of wrapping.
- DtlsSession.Run: is for fewer than 2^16 messages on a connection, after which 16-bit message numbers repeat; packets come from the sender, and whether a record is authentic is decided by the cipher.
- DtlsReplay.AcceptedOnce: ends when the 16-bit epoch comes round.
- DtlsWriter.NumbersOnce: ends when a 48-bit sequence number or the 16-bit epoch runs out; what the cipher puts into a record is left open.
- DtlsSchedule.SendAll: what a cipher answers depends on how often ciphers have been used, and what a transport answers on how often it has been asked; both are arbitrary otherwise.
- DtlsSending.SendSound: one way only; whether a pass is whole is settled exactly by `lost` (`TrackTiles`).
- DtlsReassembly.HmFragment.constructor: the message buffer starts out as zeros, which the code leaves uninitialized; no result depends on them.
- TlsBytes.AgreementInBytes: records reach the other end whole, in order and decrypted, and the cipher does not fail; how the transport's bytes become records again is the record layer's and not modelled.
- TlsFraming.HandshakeReader.OpenHandshake: starts after the record is decrypted; V2ClientHello and the texts of other protocols are not recognized.
- TlsClientRun.ClientConnection.Step: parsing of the hellos is the environment's choice of negotiated flags; the shared flags of `TlsAgreement` say that both ends negotiate the same.
- TlsCipher.ChooseCipher: ciphers are numbers, the usable ones a set, and the last group flag is 0, as the rule parser leaves it.
- TlsBuffer.SslBuffer.Consume: keeps the contents only while the 16-bit offset does not come round, which capacities up to 2^16 minus the alignment guarantee; the alignment is a parameter because its value is defined in a file that is not part of this model.
- TlsWriter.AppWriter.WriteAppData: without early data and without partial-write mode, and with records and leftover flight within the 16 bits of the buffer.
- Refcount.References: the count starts at one and each decrement gives up a reference someone holds; what `abort` does is an aborted call.

Not modelled:

- nanopb: callback fields, extensions, pointer-allocated fields, delimited and null-terminated variants, error texts, missing submessage descriptors.
- DTLS: the header bytes of records, sending alerts, timers, version negotiation, application data and retransmission once the handshake is over, allocation failures.
- TLS: TLS 1.3, SSL 3.0, renegotiation, early data, handoff, PSK callbacks, False Start beyond its early return, and the contents of messages other than Finished, Certificate and what the flags settle. HelloVerifyRequest is on the client's side only.
- Cryptography, X.509, session parsing, key derivation and extension parsing.
- The Swift files: views, Firebase and PDF drawing.
