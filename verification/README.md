# Verified models of the hard parts of NewsDay

NewsDay is a news reader for iOS and watchOS. Its own code is thin; what is hard in it comes from the
libraries it ships with, and from one small concurrent class. These Dafny modules model five such
parts and prove what they are for.

**DTLS handshake transport** (BoringSSL; RFC 6347). `DtlsWindow` is the anti-replay window as two
words and as the set it stands for. `DtlsWire` is the fragment format. `DtlsFragment` is one message
under reassembly, with its bit mask updated in place; `DtlsReceiver` is the array of seven of them,
proved against `DtlsRing`, which is proved to be a map from sequence number to partial message.
`DtlsSeal` and `DtlsNumbers` are the record numbers; `DtlsSend` and `DtlsFlight` cut a flight into
datagrams, roll back after a refused write and rewind to retransmit. `DtlsEndToEnd` puts a sender, a
receiver and a network that loses, repeats, delays and reorders together; `DtlsDelivery` says when
reassembly completes; `DtlsEpoch` says that no message is put together across a change of keys, and what
the epoch decides.

**nanopb** (Protocol Buffers encoding). `PbValue` is what a message's memory holds, `PbField` the cyclic field iterator with its offsets,
`PbRequired` the required-field bitmap. `PbMessage`, `PbEncode` and `PbDecode` are the abstract view: a
message as one slot for each descriptor, and what encoder and decoder make of it. `PbOStream` and
`PbIStream` are the streams that do it in place, with sizing passes, substreams and limits, proved equal
to the abstract view on every input. `PbWire` is the wire format as the protocol describes it, records with
a number, a kind and a payload, defined apart from encoder and decoder. `PbVarint`, `PbRoundTrip`, `PbMerge`,
`PbMergeLaw` and `PbMemory` hold the laws: round trip, merge, forward compatibility, and that what is decoded
is within its memory and can be encoded again.

**TLS write and read path** (BoringSSL). `TlsBuffer` is `SSLBuffer` with its 16-bit fields,
`TlsWrite` the two queues and the application-data retry over a transport that takes what it likes,
`TlsRead` the framing of incoming handshake messages.

**TLS 1.2 handshake** (BoringSSL; RFC 5246). `TlsClientMachine` and `TlsServerMachine` are the handshake
objects as they run, over the transcript object of `TlsConnection`: state functions that update them in
place, and the loops that call these again and again. `TlsClientSteps` and `TlsServerSteps` say, state by
state, what a call does to the messages and the transcript. The machines are proved to do that, and to be
the functions of `TlsClient`, `TlsServer`, `TlsTranscript` and `TlsDriver`, which is one driver for both
sides, with `TlsClientDriver` and `TlsServerDriver` for what is particular to each. `TlsPair`,
`TlsClientTurns`, `TlsServerTurns` and `TlsHandshake` put both sides together over in-order channels, and
`TlsCalls` shows that the loops as they are called stay inside that system. `TlsFlow` is the message flows of
the protocol; `TlsClientFlow`, `TlsServerFlow`, `TlsProgress` and `TlsCompletion` show that both sides keep to
them, fail only where something around them does, and always complete; `TlsVerified` that neither gets past
the other's certificate without verifying it. `CipherChoice` is the choice of a cipher with equal-preference groups.

**Two concurrent cores.** `Refcount` is the compare-and-swap reference counter against the locked one,
`AsyncRequests` the app's one-shot result on the main queue.

`Bits` holds facts about powers of two and bits, `Wrappers` the `Option` type.

Conventions. An object that the source updates in place is a class. Each of its methods is proved against
a function of the old state, and the properties are lemmas about those functions or invariants of runs.
What comes from outside is a parameter: the transport's answers, the network's choices, what the AEAD
produces, the application's schedule, the allocator's address. A message's hash is modelled by the
sequence of messages hashed, so equal hashes mean equal transcripts. `ghost` log fields record what a
property speaks of and are never read by the code.

Where the code falls short of what is expected of it:

- `SSLBuffer::Consume` adds to a 16-bit offset. A capacity that `EnsureCap` accepts can make it wrap, and
  then the wrong bytes go out. `TlsBuffer.ConsumeWraps` does it on a buffer, `TlsBuffer.OffsetExact` gives the exact
  condition under which no partial write goes wrong; the conservation results of `TlsWrite` hold as
  long as every capacity asked for, with seven bytes for alignment, stays within 2^16.
- `pb_field_iter_find` finds tag 0 on a message type without fields, its own terminator.
  `PbField.FieldIter.Find` states it; for tags other than 0 the search is exact.
- The cipher choice returns nothing for eligible ciphers of a last group that no flag ends;
  `CipherChoice.ChooseCipher` states exactly when, and `CipherChoice.GroupsEnd` that well-formed
  preference lists are free of it.
- A fragment exactly 7 past the read sequence number is an error rather than skipped, although the comment
  above that test says that fragments too far in the future are ignored (`DtlsRing.RingRefinesMap`).

## Model

| member | source | states |
|---|---|---|
| DtlsWindow.ToU64Be | NewsDay/Pods/BoringSSL-GRPC/ssl/dtls_record.cc:128-136 | The loop reads eight bytes as the big-endian number they spell, and the number fits 64 bits. |
| DtlsWindow.Bitmap.ShouldDiscard | NewsDay/Pods/BoringSSL-GRPC/ssl/dtls_record.cc:140-150 | The method answers what `Discards` says of the two words; `DiscardsExactly` says what that means for the numbers recorded. |
| DtlsWindow.Bitmap.Record | NewsDay/Pods/BoringSSL-GRPC/ssl/dtls_record.cc:155-175 | The new words are `Recorded` of the old ones, shifts by 64 or more included; `RecordRefines` says what that means. |
| DtlsWindow.RecordRefines | NewsDay/Pods/BoringSSL-GRPC/ssl/dtls_record.cc:155-175 | Recording a number in words that stand for a set (maximum, and one bit for each of the 64 numbers from it down) gives words that stand for the set with that number added. |
| DtlsWindow.DiscardsExactly | NewsDay/Pods/BoringSSL-GRPC/ssl/dtls_record.cc:140-150 | A number is discarded if and only if it is in the recorded set or lies 64 or more below the maximum (RFC 6347, section 4.1.2.6). |
| DtlsWindow.RunRefines | NewsDay/Pods/BoringSSL-GRPC/ssl/dtls_record.cc:225-259 | After any run of arriving records and read-state changes the words stand for exactly the numbers accepted since the last change. |
| DtlsWindow.AcceptanceExact | NewsDay/Pods/BoringSSL-GRPC/ssl/dtls_record.cc:225-259 | After any run, a record is accepted if and only if its epoch is the current one, it opens, it was not accepted before in this epoch and it is less than 64 behind the maximum. |
| DtlsWindow.AcceptedOnce | NewsDay/Pods/BoringSSL-GRPC/ssl/dtls_method.cc:81-95 | Over any run with fewer than 65536 read-state changes no (epoch, number) pair is accepted twice, although every change clears the window. |
| DtlsWire.ParseAfterWrite | NewsDay/Pods/BoringSSL-GRPC/ssl/d1_both.cc:459-473 | A written fragment header and body, followed by anything, parse back to that fragment and that rest (RFC 6347, section 4.2.2). |
| DtlsWire.WriteAfterParse | NewsDay/Pods/BoringSSL-GRPC/ssl/d1_both.cc:459-473 | Whatever parses is the written form of the parsed fragment followed by the rest, so parsing accepts nothing else. |
| DtlsWire.Layout | NewsDay/Pods/BoringSSL-GRPC/ssl/d1_both.cc:459-473 | Type, length, message number, fragment offset and fragment length are big-endian numbers at bytes 0, 1 to 3, 4 and 5, 6 to 8 and 9 to 11, and the body follows (RFC 6347, section 4.2.2). |
| DtlsFragment.RangeBits | NewsDay/Pods/BoringSSL-GRPC/ssl/d1_both.cc:203-205 | The byte mask from `start` to `end` has exactly those bits. |
| DtlsFragment.HmFragment.constructor | NewsDay/Pods/BoringSSL-GRPC/ssl/d1_both.cc:152-199 | A new entry has the message's own header with fragment offset 0 and full fragment length, holds no position, and is complete at once exactly when the message is empty. |
| DtlsFragment.HmFragment.SetBits | NewsDay/Pods/BoringSSL-GRPC/ssl/d1_both.cc:226-236 | First byte, whole bytes and last byte together mark exactly the positions from `start` to `end` beside those already marked. |
| DtlsFragment.HmFragment.AllMarked | NewsDay/Pods/BoringSSL-GRPC/ssl/d1_both.cc:238-246 | The test of the whole bytes and of the last byte's mask holds if and only if every position of the message is marked, given that bits past its length are zero. |
| DtlsFragment.HmFragment.Mark | NewsDay/Pods/BoringSSL-GRPC/ssl/d1_both.cc:211-251 | The positions held are the old ones and the new range, bits past the length stay zero, and the mask is released exactly when every position is covered. |
| DtlsFragment.HmFragment.CopyBody | NewsDay/Pods/BoringSSL-GRPC/ssl/d1_both.cc:399-401 | The body lands on its own positions of the message, and every other byte is as before. |
| DtlsFragment.HmFragment.Absorb | NewsDay/Pods/BoringSSL-GRPC/ssl/d1_both.cc:380-402 | The partial map from positions to bytes is the old one overridden by the fragment's bytes, and the mask is gone if and only if that map is total. |
| DtlsRing.TakeFragmentConsistent | NewsDay/Pods/BoringSSL-GRPC/ssl/d1_both.cc:362-402 | Any fragment, accepted or not, keeps every occupied place holding a number of the 7-wide window congruent to the place, and leaves the read sequence number, the epoch and the handed-out flag alone. |
| DtlsRing.SameNumber | NewsDay/Pods/BoringSSL-GRPC/ssl/d1_both.cc:265-295 | The assertion in `dtls1_get_incoming_message` cannot fail: an occupied place for an in-window number holds that number. |
| DtlsRing.RingRefinesMap | NewsDay/Pods/BoringSSL-GRPC/ssl/d1_both.cc:362-402 | The ring refines a map from sequence number to partial message: an in-window fragment that agrees changes exactly its own message, an ill-bounded or disagreeing one is an error that changes nothing, and one outside the window changes nothing and is skipped, except at `handshake_read_seq` + 7 exactly, which is an error. |
| DtlsRing.NextMessageConsistent | NewsDay/Pods/BoringSSL-GRPC/ssl/d1_both.cc:426-438 | Releasing a message keeps the window invariant, also where the 16-bit sequence number wraps to 0. |
| DtlsRing.NextRemovesCurrent | NewsDay/Pods/BoringSSL-GRPC/ssl/d1_both.cc:426-438 | Releasing removes exactly the current message from the map and nothing else, also at the wrap. |
| DtlsReceiver.MessageReceiver.GetIncoming | NewsDay/Pods/BoringSSL-GRPC/ssl/d1_both.cc:265-295 | It returns the entry of the fragment's number, made new where the place is empty, or null exactly when type or length disagree, in which case nothing changed; the assertion on the number holds. |
| DtlsReceiver.MessageReceiver.TakeOne | NewsDay/Pods/BoringSSL-GRPC/ssl/d1_both.cc:362-402 | One round of the loop does to the array of entries what `TakeFragment` says, with the same verdict. |
| DtlsReceiver.MessageReceiver.TakeAll | NewsDay/Pods/BoringSSL-GRPC/ssl/d1_both.cc:350-406 | The loop over a record's fragments ends, and does to the array of entries what taking them one after the other does, up to the first error. |
| DtlsReceiver.MessageReceiver.Open | NewsDay/Pods/BoringSSL-GRPC/ssl/d1_both.cc:297-406 | Application data, ChangeCipherSpec, handshake and other records each have the effect and verdict of `OpenHandshake`. |
| DtlsReceiver.MessageReceiver.GetMessage | NewsDay/Pods/BoringSSL-GRPC/ssl/d1_both.cc:408-424 | The raw bytes are given exactly when the current message is complete, and are its header and body in full. |
| DtlsReceiver.MessageReceiver.Next | NewsDay/Pods/BoringSSL-GRPC/ssl/d1_both.cc:426-438 | The current entry is dropped and the number goes up by one in 16 bits. |
| DtlsReceiver.MessageReceiver.Unprocessed | NewsDay/Pods/BoringSSL-GRPC/ssl/d1_both.cc:440-457 | The loop finds something if and only if a ChangeCipherSpec or an entry other than the one handed out is left. |
| DtlsReceiver.MessageReceiver.ChangeCipher | NewsDay/Pods/BoringSSL-GRPC/ssl/dtls_method.cc:81-95 | The read state changes exactly when no ChangeCipherSpec waits and no entry but the one handed out is left, and then the 16-bit epoch is one more; otherwise it stays. |
| DtlsSeal.SequenceUpdate | NewsDay/Pods/BoringSSL-GRPC/ssl/tls_record.cc:154-163 | The byte loop adds one to the big-endian number in place, modulo its width, and returns false exactly at the wrap to zero. |
| DtlsSeal.Counters.Advance | NewsDay/Pods/BoringSSL-GRPC/ssl/dtls_record.cc:294-351 | The six counting bytes of the epoch asked for go up by one and those of the other are untouched; it fails exactly where they wrap to zero. |
| DtlsSeal.Counters.SetWriteState | NewsDay/Pods/BoringSSL-GRPC/ssl/dtls_method.cc:97-107 | The current counter becomes the previous one, the new one starts at zero and the write epoch goes up in 16 bits; the two arrays stay two. |
| DtlsSeal.EmittedBelow | NewsDay/Pods/BoringSSL-GRPC/ssl/dtls_record.cc:294-351 | Over any run without a wrap every emitted (epoch, number) is below the counter of its epoch, current or previous. |
| DtlsSeal.StampsUnique | NewsDay/Pods/BoringSSL-GRPC/ssl/dtls_record.cc:294-351 | Until a counter wraps, no two records emitted share (epoch, number), whatever the order of sealing under the current and previous epoch and of write-state changes. |
| DtlsSeal.NumbersRunOn | NewsDay/Pods/BoringSSL-GRPC/ssl/dtls_record.cc:294-351 | The records of each epoch are numbered 0, 1, 2, ... in the order they are sealed, also where the epochs take turns. |
| DtlsSend.FinishedIsMessage | NewsDay/Pods/BoringSSL-GRPC/ssl/d1_both.cc:511-537 | What `dtls1_init_message` and `dtls1_finish_message` leave is one whole unfragmented message: offset 0, and the fragment length copied into the total length. |
| DtlsSend.SealRecord | NewsDay/Pods/BoringSSL-GRPC/ssl/dtls_record.cc:294-351 | A sealed record carries the plaintext given, fits the space given, and takes exactly one number; the write epoch never changes. |
| DtlsSend.TilesConcat | NewsDay/Pods/BoringSSL-GRPC/ssl/d1_both.cc:644-734 | Records that tile a flight from one cursor to a second and others from there to a third tile it together. |
| DtlsSend.TilingMeans | NewsDay/Pods/BoringSSL-GRPC/ssl/d1_both.cc:644-734 | In any tiling the body bytes carried of each message, put together in the order sent, are exactly the bytes of its body between the two cursors: no gap and no overlap. |
| DtlsSend.WholeFlight | NewsDay/Pods/BoringSSL-GRPC/ssl/d1_both.cc:644-734 | The records from the rewound cursor to the end of the flight carry each message's body exactly once and in order. |
| DtlsFlight.SealedCarries | NewsDay/Pods/BoringSSL-GRPC/ssl/d1_both.cc:644-734 | A record produced for the message under the cursor carries the bytes from the cursor on with a header naming exactly that range, ends at the new cursor, and fits the room; without progress the cursor stays. |
| DtlsFlight.SealedFills | NewsDay/Pods/BoringSSL-GRPC/ssl/d1_both.cc:678-734 | A fragment that is not the last of its message takes all the room that the datagram, the record header, the nonce and the longest tag leave, and the rest of a message goes in one piece if and only if it fits. |
| DtlsFlight.FillTiles | NewsDay/Pods/BoringSSL-GRPC/ssl/d1_both.cc:739-780 | What one datagram holds tiles the flight from the cursor before to the cursor after and is at most the space given. |
| DtlsFlight.PacketTiles | NewsDay/Pods/BoringSSL-GRPC/ssl/d1_both.cc:739-780 | A datagram is at most the MTU, tiles the flight and moves the cursor strictly on; where the MTU is too small the cursor stays. |
| DtlsFlight.TooSmallExactly | NewsDay/Pods/BoringSSL-GRPC/ssl/d1_both.cc:686-689 | The MTU is reported as too small if and only if it leaves no room for header, nonce, longest tag and one byte of the message under the cursor. |
| DtlsFlight.FailsExactly | NewsDay/Pods/BoringSSL-GRPC/ssl/d1_both.cc:644-734 | With tags within their bound and a room below 2^16 plus the record header, a message of the current or previous epoch fails to seal if and only if there is room and its record number wraps. |
| DtlsFlight.FillForCause | NewsDay/Pods/BoringSSL-GRPC/ssl/d1_both.cc:739-780 | A seal error leaves the cursor at a message with a cause: a foreign epoch, a cipher that exceeds its announced tag, a room beyond what a record can hold, or a record number that wrapped. |
| DtlsFlight.AheadLeavesLess | NewsDay/Pods/BoringSSL-GRPC/ssl/d1_both.cc:782-827 | A cursor further on leaves fewer messages, or as many and fewer bytes of the current one, which is why sending terminates. |
| DtlsFlight.FlightSender.AddOutgoing | NewsDay/Pods/BoringSSL-GRPC/ssl/d1_both.cc:555-602 | A complete flight is cleared first, cursor included, so that the new message is its only one; otherwise the message comes after the others, and past 7 the call fails; the handshake number goes up for messages only; what was accepted before still tiles the flight. |
| DtlsFlight.FlightSender.SealNextPacket | NewsDay/Pods/BoringSSL-GRPC/ssl/d1_both.cc:739-780 | The loop with the shrinking room gives exactly the datagram and state of `NextPacket`. |
| DtlsFlight.FlightSender.SendPacket | NewsDay/Pods/BoringSSL-GRPC/ssl/d1_both.cc:797-815 | A datagram the transport takes is appended to what was accepted and moves the cursor on; one it refuses leaves the cursor where it was and is not counted. |
| DtlsFlight.FlightSender.SendFlight | NewsDay/Pods/BoringSSL-GRPC/ssl/d1_both.cc:782-827 | It terminates; every datagram taken is non-empty and at most the MTU; what was accepted since the last rewind tiles the flight up to the cursor; success means the whole flight and a flush, and anything else has its cause: a shutdown, the refusal of the very next datagram or of the flush after the last, an MTU without room, or a cause for sealing to fail at the message under the cursor. |
| DtlsFlight.FlightSender.FlushFlight | NewsDay/Pods/BoringSSL-GRPC/ssl/d1_both.cc:829-834 | The flight is marked complete and sent as above, with the same causes for anything but success. |
| DtlsFlight.FlightSender.Retransmit | NewsDay/Pods/BoringSSL-GRPC/ssl/d1_both.cc:836-845 | Whatever was sent before and whatever the MTU is now, a successful retransmission consists of datagrams that together tile the whole flight from its start. |
| DtlsEndToEnd.StepKeepsInv | NewsDay/Pods/BoringSSL-GRPC/ssl/d1_both.cc:297-438 | Each step of sender, network and receiver keeps: the sender's log numbered from 0, every record on the network a piece of a logged message, every partial message a part of the logged one of its number, and the messages released the first of the log. |
| DtlsEndToEnd.DeliveredInOrder | NewsDay/Pods/BoringSSL-GRPC/ssl/d1_both.cc:152-438 | For any loss, repetition, delay, reordering, roll-back and retransmission with any MTUs, the k-th message released is, header included, the sender's k-th message, each released once and in order, and so is the one about to be released (RFC 6347, sections 4.2.3 and 4.2.6). |
| DtlsEndToEnd.EpochsAgree | NewsDay/Pods/BoringSSL-GRPC/ssl/dtls_method.cc:81-95 | Over any run, the epoch the record layer opens records by and the one record types are judged by are the same: in 16 bits, the number of requests to change the read state that found no ChangeCipherSpec waiting and nothing in the ring but the message handed out. |
| DtlsDelivery.StepKeeps | NewsDay/Pods/BoringSSL-GRPC/ssl/d1_both.cc:362-438 | Whatever happens in the system, a piece that is in the ring stays there until its message is released. |
| DtlsDelivery.TakenIsKept | NewsDay/Pods/BoringSSL-GRPC/ssl/d1_both.cc:297-438 | A piece whose record was accepted and welcome at some point of a run is in the ring at its end, or its message has been released. |
| DtlsDelivery.TileCovers | NewsDay/Pods/BoringSSL-GRPC/ssl/d1_both.cc:644-734 | Every position of every message lies in some record of a tiling of the flight. |
| DtlsDelivery.TransmissionCompletes | NewsDay/Pods/BoringSSL-GRPC/ssl/d1_both.cc:152-438 | Over any run of sender, network and receiver, once the records of one full transmission of a flight have been accepted, past the epoch and replay filter, in any order, repeated, and with messages handed out and released in between, each message of the flight has been released or is complete in the ring, with the sender's raw bytes. |
| DtlsEpoch.StepKeepsSeparate | NewsDay/Pods/BoringSSL-GRPC/ssl/dtls_method.cc:81-95 | Each event keeps every message not yet handed out built from records of the current read state alone. |
| DtlsEpoch.MessagesDoNotCrossEpochs | NewsDay/Pods/BoringSSL-GRPC/ssl/d1_both.cc:440-457 | Over any run, a message handed out for the first time was built from records opened under the current read state alone, and a successful read-state change finds nothing in the ring but the message handed out before it. |
| DtlsEpoch.EpochsCountChanges | NewsDay/Pods/BoringSSL-GRPC/ssl/dtls_method.cc:81-95 | Over any run with arbitrary records both epochs are the number of changes of read state, in 16 bits, and a change is made exactly where nothing is left over. |
| DtlsEpoch.TypesByEpoch | NewsDay/Pods/BoringSSL-GRPC/ssl/d1_both.cc:307-345 | After any run, application data is an error before the first change of read state and discarded after it, and a ChangeCipherSpec is taken only before it and only with the byte 1. |
| DtlsEpoch.CcsBlocksChanges | NewsDay/Pods/BoringSSL-GRPC/ssl/d1_both.cc:440-457 | A ChangeCipherSpec that was taken refuses every change of read state, whatever else happens, until it is consumed. |
| DtlsNumbers.FillNumbers | NewsDay/Pods/BoringSSL-GRPC/ssl/dtls_record.cc:294-351 | The records of one datagram take numbers that were never used in their epochs and differ from each other. |
| DtlsNumbers.RecordsDiffer | NewsDay/Pods/BoringSSL-GRPC/ssl/d1_both.cc:797-815 | In every reachable state of the sender and network, until a counter wraps, two records with one epoch and number are the same record, through failed writes, retransmission and write-state changes. |
| PbField.PointsAtMember | NewsDay/Pods/nanopb/pb_common.c:20-76 | On descriptors made from a structure's layout, the sum of offsets and sizes the iterator adds up is the address of the member. |
| PbField.PointsAtSize | NewsDay/Pods/nanopb/pb_common.c:40-76 | The iterator's size pointer is the address of the member's count, has-flag or union tag in the structure the descriptors were made from. |
| PbField.UnionShares | NewsDay/Pods/nanopb/pb_common.c:44-50 | All members of one union get the same data address and the same tag address. |
| PbField.FieldIter.Begin | NewsDay/Pods/nanopb/pb_common.c:8-18 | The iterator stands on the first field with every pointer as the closed form says, and returns false exactly for a message type without fields. |
| PbField.FieldIter.Next | NewsDay/Pods/nanopb/pb_common.c:20-76 | Position, data pointer, size pointer and required index equal the closed form over the descriptors; false exactly when it goes back to the first field. |
| PbField.FieldIter.Find | NewsDay/Pods/nanopb/pb_common.c:78-95 | From any position it terminates, finds a field if and only if a non-extension field has the number, and then stands on such a field; otherwise it is where it was. |
| PbRequired.MarkSeen | NewsDay/Pods/nanopb/pb_decode.c:988-993 | Setting a bit of the two words adds the required number to the set they stand for, when it is below 64. |
| PbRequired.CheckWords | NewsDay/Pods/nanopb/pb_decode.c:1027-1045 | The comparison of the whole words and of the masked last one holds if and only if every number below the count is in the set. |
| PbRequired.CheckRequired | NewsDay/Pods/nanopb/pb_decode.c:1006-1046 | The check at the end, with the count taken by running the iterator on, passes if and only if each of the first 64 required fields was seen. |
| PbRequired.AllSeenMeans | NewsDay/Pods/nanopb/pb_decode.c:1006-1046 | The same in terms of descriptors: passing is equivalent to every required field whose number is below 64 having appeared, and each number checked is that of exactly one field. |
| PbVarint.Varint64RoundTrip | NewsDay/Pods/nanopb/pb_encode.c:574-594 | A 64-bit number encoded in groups of seven bits decodes to itself, whatever follows, and the rest is untouched. |
| PbVarint.Base128Means | NewsDay/Pods/nanopb/pb_encode.c:574-594 | The encoding of a number is a varint whose groups of seven bits spell it, the lowest first, with no empty group at its end. |
| PbVarint.Varint64Exactly | NewsDay/Pods/nanopb/pb_decode.c:250-270 | On every input: a varint of up to ten bytes, canonical or not, gives the number its groups spell in 64 bits; a longer one, and bytes without an end, are refused. |
| PbVarint.Varint32RoundTrip | NewsDay/Pods/nanopb/pb_decode.c:182-242 | The 32-bit decoder reads the canonical encoding of every number below 2^32 and leaves the rest. |
| PbVarint.Varint32Padded | NewsDay/Pods/nanopb/pb_decode.c:182-242 | It reads every varint of up to ten bytes that spells a number below 2^32, also with empty groups behind. |
| PbVarint.Varint32Refuses | NewsDay/Pods/nanopb/pb_decode.c:182-242 | It refuses the canonical encoding of every number from 2^32 to 2^63. |
| PbVarint.Varint32SignExtended | NewsDay/Pods/nanopb/pb_decode.c:182-242 | It also reads the ten-byte encoding of every negative int32 sign-extended to 64 bits, as its low 32 bits. |
| PbVarint.ZigZagRoundTrip | NewsDay/Pods/nanopb/pb_encode.c:596-605 | Zigzag maps v to 2v or -2v-1, is undone by the decoder for every int64, and every 64-bit word is the image of one. |
| PbVarint.LittleEndianRoundTrip | NewsDay/Pods/nanopb/pb_encode.c:607-632 | The fixed-width bytes of a number that fits decode to it. |
| PbVarint.LittleEndianDigits | NewsDay/Pods/nanopb/pb_encode.c:607-632 | Byte i of a fixed-width number is its i-th digit to base 256, the lowest first. |
| PbMessage.AllDefaultIsInit | NewsDay/Pods/nanopb/pb_encode.c:215-303 | A message the encoder regards as all default is, up to the contents of absent optionals, the one the decoder starts from. |
| PbMessage.DefaultsTyped | NewsDay/Pods/nanopb/pb_decode.c:812-895 | The initial values are values the message's memory can hold, submessages included. |
| PbEncode.FixedSizes | NewsDay/Pods/nanopb/pb_encode.c:126-211 | The size the encoder computes for a packed array of fixed-width items without a sizing pass is the length of what the items encode to. |
| PbWire.ItemWritten | NewsDay/Pods/nanopb/pb_encode.c:641-673 | One item is the record of its field number and kind: 0 and a varint for the integers (two's complement in 64 bits, plain, or zigzag), 5 and four bytes, 1 and eight bytes, or 2 and a length; it fails exactly for integers of no known size and bytes larger than their memory. |
| PbWire.ArrayWritten | NewsDay/Pods/nanopb/pb_encode.c:126-213 | An array of numbers is one length-delimited record of all payloads, any other array one record for each item, an empty one nothing; it fails exactly with more items than slots or an item that fails. |
| PbWire.EmptyIsDefault | NewsDay/Pods/nanopb/pb_encode.c:215-303 | A singular field without a has-flag is left out exactly where it is zero, has no bytes, or is a message of which nothing would be written. |
| PbWire.MessageWritten | NewsDay/Pods/nanopb/pb_encode.c:494-516 | What is encoded is the bytes of the message's records, a definition apart from the encoder with the field number, kind, number form, packing and omission rules of the protocol, and encoding fails exactly where a record cannot be made. |
| PbWire.RecordsUnique | NewsDay/Pods/nanopb/pb_decode.c:293-314 | No bytes are two different rows of records. |
| PbWire.SkipsPayload | NewsDay/Pods/nanopb/pb_decode.c:273-326 | Kind 0 announces a varint, 1 exactly eight bytes, 2 a length and that many bytes, 5 exactly four bytes: skipping takes just these, whatever follows, and fails on any proper part of them. |
| PbWire.NoOtherKind | NewsDay/Pods/nanopb/pb_decode.c:316-326 | A field of any other kind cannot be skipped. |
| PbWire.EncodedIsSkipped | NewsDay/Pods/nanopb/pb_decode.c:316-326 | Whatever is encoded can be stepped over by its wire type alone, and is an unknown field to every message type without its number. |
| PbWire.UnknownRecordIgnored | NewsDay/Pods/nanopb/pb_decode.c:933-963 | A record with a number no field has, given as its bytes (any varint, any eight or four bytes, any length-prefixed piece), put between any two fields leaves the result unchanged. |
| PbWire.ZeroKeyEnds | NewsDay/Pods/nanopb/pb_decode.c:305-309 | A key of zero ends the message wherever it comes. |
| PbWire.NumberTaken | NewsDay/Pods/nanopb/pb_decode.c:1289-1372 | A varint of up to ten bytes is taken by an integer field if and only if the number it stands for, in two's complement of 32 or 64 bits, plain or in zigzag, is in the range of the field's one, two, four or eight bytes; the field gets that number. |
| PbWire.BlobTaken | NewsDay/Pods/nanopb/pb_decode.c:1391-1513 | Bytes are taken if and only if they have room behind their size, strings if and only if they have room before a terminator, ending at their first zero, and a fixed length if and only if it matches or is zero. |
| PbOStream.BufWrite | NewsDay/Pods/nanopb/pb_encode.c:72-82 | The bytes go to their place in the buffer and nothing else changes. |
| PbOStream.Groups | NewsDay/Pods/nanopb/pb_encode.c:574-594 | The loop that fills the buffer from the low group on, clearing the top bit of the last byte, produces the base-128 form within ten bytes. |
| PbOStream.OStream.Write | NewsDay/Pods/nanopb/pb_encode.c:101-119 | A write succeeds exactly when the bytes fit the limit, then counts and stores exactly them; a sizing stream only counts. |
| PbOStream.OStream.EncodeVarint | NewsDay/Pods/nanopb/pb_encode.c:574-594 | Either the stream took exactly the base-128 form or it did not fit. |
| PbOStream.OStream.EncodeTag | NewsDay/Pods/nanopb/pb_encode.c:635-639 | The same for the key made of wire type and field number. |
| PbOStream.OStream.EncodeString | NewsDay/Pods/nanopb/pb_encode.c:674-680 | The same for a length and that many bytes. |
| PbOStream.OStream.EncodeSubmessage | NewsDay/Pods/nanopb/pb_encode.c:682-730 | The writing pass emits exactly the number of bytes the sizing pass counted, so the "submsg size changed" branch is unreachable, and the stream takes the length and the message or refuses them as a whole result. |
| PbOStream.OStream.EncodeItem | NewsDay/Pods/nanopb/pb_encode.c:734-868 | Each field encoder writes the item's encoding, or fails exactly where the item does not encode or does not fit. |
| PbOStream.OStream.EncodeArray | NewsDay/Pods/nanopb/pb_encode.c:126-211 | Packed wherever the type allows, with a length equal to what the second pass then writes; otherwise one key for each item; too many items are refused. |
| PbOStream.OStream.EncodeField | NewsDay/Pods/nanopb/pb_encode.c:307-392 | Required, optional, repeated and oneof fields are written or left out as the abstract encoding of the field says; `PbWire.MessageWritten` says which records of the wire format that is. |
| PbOStream.OStream.Encode | NewsDay/Pods/nanopb/pb_encode.c:494-516 | The stream takes exactly the bytes of the message, fields in iterator order, or refuses where the message does not encode or does not fit. |
| PbOStream.GetEncodedSize | NewsDay/Pods/nanopb/pb_encode.c:533-542 | The sizing pass returns exactly the number of bytes encoding produces, or fails exactly where encoding does. |
| PbOStream.EncodeToBuffer | NewsDay/Pods/nanopb/pb_encode.c:494-516 | Encoding into an n-byte buffer succeeds if and only if sizing succeeds with at most n; then the front of the buffer is the message and the rest is untouched. |
| PbDecode.DecField | NewsDay/Pods/nanopb/pb_decode.c:401-475 | A decoded field leaves a message that the memory can hold, a oneof with at most one member, and consumes at least one byte. |
| PbDecode.DecLoop | NewsDay/Pods/nanopb/pb_decode.c:901-997 | The loop over any input keeps every slot within its type and its array bound, and ends. |
| PbDecode.DecMessage | NewsDay/Pods/nanopb/pb_decode.c:901-1049 | A decoded message is one the memory can hold. |
| PbMerge.LoopSplits | NewsDay/Pods/nanopb/pb_decode.c:919-997 | Decoding `a ++ b` is decoding `b` from the state, message and required set, reached by `a`, for any `a` that decodes without a zero tag. |
| PbMerge.SeenAdds | NewsDay/Pods/nanopb/pb_decode.c:919-997 | Required fields seen earlier change nothing but the set of those seen later. |
| PbMerge.ConcatenationMerges | NewsDay/Pods/nanopb/pb_decode.c:901-1049 | Decoding `a ++ b` without init equals decoding `a`, then `b` into the same destination, with the required check over the union of both. |
| PbMerge.UnknownIgnored | NewsDay/Pods/nanopb/pb_decode.c:273-326 | A well-formed field with an unlisted number put between any two fields leaves the result unchanged. |
| PbMergeLaw.MergeAllTyped | NewsDay/Pods/nanopb/pb_decode.c:401-475 | The merge of two messages (last scalar wins, arrays joined, submessages merged, a new union member starting afresh) is a message the memory can hold. |
| PbMergeLaw.MergeIntoDefaults | NewsDay/Pods/nanopb/pb_decode.c:884-895 | Merging into initialized memory gives the message itself up to the contents of absent optionals. |
| PbMergeLaw.FreshRoom | NewsDay/Pods/nanopb/pb_decode.c:401-475 | A message that encodes has no array longer than initialized memory has room for. |
| PbRoundTrip.ItemBack | NewsDay/Pods/nanopb/pb_decode.c:1289-1508 | Each item decoded into what is there gives the merge of the two and leaves the bytes after it. |
| PbRoundTrip.EachBack | NewsDay/Pods/nanopb/pb_decode.c:401-468 | An array sent as one record for each item, numbers included, is read back after the items that are there. |
| PbRoundTrip.PackedOverflows | NewsDay/Pods/nanopb/pb_decode.c:401-468 | A packed array with more items than there is room for is an error. |
| PbRoundTrip.MessageBack | NewsDay/Pods/nanopb/pb_decode.c:901-1049 | Decoding an encoded message into any existing message consumes all bytes and gives their merge, with every required field seen. |
| PbRoundTrip.RoundTrip | NewsDay/Pods/nanopb/pb_encode.c:494-516 | `pb_decode` of the bytes of `pb_encode` succeeds, consumes all of them and yields the same message up to the contents of absent optionals, through submessages, packed arrays and oneofs. |
| PbRoundTrip.ConcatenatedEncodings | NewsDay/Pods/nanopb/pb_decode.c:1051-1063 | Two encoded messages one after the other decode as the second merged into the first. |
| PbMemory.MessageHeld | NewsDay/Pods/nanopb/pb_decode.c:901-1049 | Whatever the bytes are, no array gets more items than it has slots, and bytes and strings end inside their buffers, at every depth. |
| PbMemory.DecodedEncodes | NewsDay/Pods/nanopb/pb_decode.c:1051-1063 | Whatever bytes decode, the message they give can be encoded, and decoding that gives the message again. |
| PbMemory.NothingDecoded | NewsDay/Pods/nanopb/pb_decode.c:1051-1063 | No bytes are a message if and only if no field is required, and leave every field as initialization does. |
| PbIStream.IStream.ReadByte | NewsDay/Pods/nanopb/pb_decode.c:136-152 | The first byte left is read, or nothing is left. |
| PbIStream.IStream.Read | NewsDay/Pods/nanopb/pb_decode.c:100-132 | The first `count` bytes are read, or it fails exactly when fewer are left. |
| PbIStream.IStream.DecodeVarint32 | NewsDay/Pods/nanopb/pb_decode.c:182-242 | The loop with its 8-bit `bitpos` and the checks on the upper bytes computes `Dec32`, and end of file is reported exactly on an empty stream. |
| PbIStream.IStream.DecodeVarint | NewsDay/Pods/nanopb/pb_decode.c:250-270 | The loop computes `Dec64` and leaves the stream after it. |
| PbIStream.IStream.SkipField | NewsDay/Pods/nanopb/pb_decode.c:273-326 | Each wire type is skipped as `Skip` says, or the call fails where that does; `PbWire.SkipsPayload` says that this is exactly the payload each kind announces. |
| PbIStream.IStream.DecodeTag | NewsDay/Pods/nanopb/pb_decode.c:293-314 | Field number and wire type are those of the key; end of input and a zero key both report the end. |
| PbIStream.IStream.MakeSubstream | NewsDay/Pods/nanopb/pb_decode.c:367-380 | The substream has exactly the bytes the length announces, and the parent is left with exactly those after them; a length past the parent's end fails. |
| PbIStream.IStream.CloseSubstream | NewsDay/Pods/nanopb/pb_decode.c:382-395 | Whatever the substream left unread is skipped, and the parent stands after it. |
| PbIStream.IStream.DecodeNumber | NewsDay/Pods/nanopb/pb_decode.c:1289-1372 | The three varint decoders with their range checks give the value the field can hold, or an overflow error. |
| PbIStream.IStream.DecodeBlob | NewsDay/Pods/nanopb/pb_decode.c:1391-1461 | Bytes, strings and fixed-length bytes are read with their size checks, a string up to its first zero byte. |
| PbIStream.IStream.DecodeItem | NewsDay/Pods/nanopb/pb_decode.c:1289-1508 | Each field decoder, submessages included, reads its item and leaves the stream after it. |
| PbIStream.IStream.DecodePacked | NewsDay/Pods/nanopb/pb_decode.c:401-455 | The loop over the substream appends items while there are bytes and room, and bytes left over are an error. |
| PbIStream.IStream.DecodeArray | NewsDay/Pods/nanopb/pb_decode.c:426-466 | A packed field or one more item, as wire type and item type say, or an error when the array is full. |
| PbIStream.IStream.DecodeField | NewsDay/Pods/nanopb/pb_decode.c:401-475 | Required, optional, repeated and oneof fields take their item as the abstract decoding says; a new oneof member clears the others. |
| PbIStream.IStream.DecodeOne | NewsDay/Pods/nanopb/pb_decode.c:919-986 | One round of the loop, with the cyclic iterator starting from wherever it is, does what the abstract loop does with the same key, required bit included. |
| PbIStream.IStream.DecodeNoinit | NewsDay/Pods/nanopb/pb_decode.c:901-1049 | Loop and final check together equal the abstract decoder on every input, failures included. |
| PbIStream.DecodeBuffer | NewsDay/Pods/nanopb/pb_decode.c:1051-1063 | Initialization and decoding equal the abstract decoder on every buffer. |
| TlsBuffer.OffsetExact | NewsDay/Pods/BoringSSL-GRPC/ssl/ssl_buffer.cc:90-97 | After every partial write the 16-bit offset names the byte after the last one taken if and only if offset plus contents is at most 2^16, which a caller can see beforehand. |
| TlsBuffer.ConsumeWraps | NewsDay/Pods/BoringSSL-GRPC/ssl/ssl_buffer.cc:47-97 | On a buffer that `EnsureCap` gave 65535 bytes at offset 7, filled and then consumed up to 65530, what is next to go out differs from what is left of the bytes put in. |
| TlsBuffer.SslBuffer.EnsureCap | NewsDay/Pods/BoringSSL-GRPC/ssl/ssl_buffer.cc:47-81 | It succeeds if and only if the capacity is at most 0xffff, keeps the contents, and aligns what follows the header; a buffer that is large enough is kept. |
| TlsBuffer.SslBuffer.Append | NewsDay/Pods/BoringSSL-GRPC/ssl/ssl_buffer.cc:83-88 | The bytes come after the contents, and nothing moves; the room is there, so the abort is not reached. |
| TlsBuffer.SslBuffer.Consume | NewsDay/Pods/BoringSSL-GRPC/ssl/ssl_buffer.cc:90-97 | The fields are those of the 16-bit addition, and the contents lose exactly their front where the offset does not wrap. |
| TlsWrite.TlsWriter.AddRecordToFlight | NewsDay/Pods/BoringSSL-GRPC/ssl/s3_both.cc:135-165 | It succeeds if and only if the AEAD seals this record within its overhead; then exactly that record is appended to everything sealed. |
| TlsWrite.TlsWriter.AddMessage | NewsDay/Pods/BoringSSL-GRPC/ssl/s3_both.cc:184-205 | The message goes out in at least one record, all but the last full fragments, whose plaintexts together are the message; it fails only where a record does not seal, and then they are its front (RFC 5246, section 6.2.1). |
| TlsWrite.TlsWriter.FlushBuffer | NewsDay/Pods/BoringSSL-GRPC/ssl/ssl_buffer.cc:239-252 | The bytes taken, the answers used and the value returned are those of offering the contents again and again until all are taken or one offer is refused; what is taken leaves the front, so wire and buffer together stay the same. |
| TlsWrite.TlsWriter.FlushFlight | NewsDay/Pods/BoringSSL-GRPC/ssl/s3_both.cc:231-279 | First the write buffer, then the flight from where the last attempt ended, then the flush: bytes left and value returned are exactly those of that order under the transport's answers, and conservation holds throughout. |
| TlsWrite.TlsWriter.WritePending | NewsDay/Pods/BoringSSL-GRPC/ssl/s3_pkt.cc:202-218 | A retry with another buffer (unless it may move), another type or a shorter length is refused and nothing moves; otherwise the buffer is flushed, and success clears the pending mark and returns the stored length. |
| TlsWrite.TlsWriter.MoveFlight | NewsDay/Pods/BoringSSL-GRPC/ssl/s3_pkt.cc:237-266 | It succeeds if and only if flight and record fit 0xffff; then the unsent part of the flight is in the write buffer, with room for the record behind it. |
| TlsWrite.TlsWriter.StartWrite | NewsDay/Pods/BoringSSL-GRPC/ssl/s3_pkt.cc:227-285 | A record is sealed if and only if there is something to write, nothing else in the buffer, room behind the flight and an AEAD that seals it; then exactly that record is added, and pending. |
| TlsWrite.TlsWriter.DoWrite | NewsDay/Pods/BoringSSL-GRPC/ssl/s3_pkt.cc:221-289 | A pending record is gone on with and nothing is sealed; or, where one can be started, exactly one record with this plaintext is sealed; or nothing is sealed and it fails. Wire, buffer and flight together stay everything sealed, in order, and only the transport can stop a legal call. |
| TlsWrite.TlsWriter.WriteChunk | NewsDay/Pods/BoringSSL-GRPC/ssl/s3_pkt.cc:165-198 | One round seals or finishes exactly the next chunk of the buffer, and is stopped only by the transport where nothing else is in the way. |
| TlsWrite.TlsWriter.WriteAppData | NewsDay/Pods/BoringSSL-GRPC/ssl/s3_pkt.cc:129-200 | Over any sequence of blocked and retried calls with one buffer and length, the plaintext sealed is exactly a prefix of the buffer, each byte once, and a full return means all of it; a call that fails with nothing in the way was refused by the transport, and after a shutdown every call fails and nothing is sealed or sent. |
| TlsWrite.MidwayRetries | NewsDay/Pods/BoringSSL-GRPC/ssl/s3_pkt.cc:202-210 | A retry with the same buffer and length is never taken for a bad one. |
| TlsWrite.AllOnTheWire | NewsDay/Pods/BoringSSL-GRPC/ssl/s3_pkt.cc:221-289 | When both queues are empty, what the transport has taken is the concatenation of all sealed records in sealing order. |
| TlsRead.HandshakeReader.CanAccept | NewsDay/Pods/BoringSSL-GRPC/ssl/s3_both.cc:441-459 | More data is acceptable if and only if no message as it is written stands whole at the front of the buffer and the big-endian length of the one to come is within the limit. |
| TlsRead.HandshakeReader.OpenRecord | NewsDay/Pods/BoringSSL-GRPC/ssl/s3_both.cc:474-560 | A handshake record's bytes are appended to the buffer. |
| TlsRead.HandshakeReader.GetMessage | NewsDay/Pods/BoringSSL-GRPC/ssl/s3_both.cc:427-439 | A message is given if and only if the buffer begins with a written one (type, 24-bit big-endian length, body), and then it is that one. |
| TlsRead.HandshakeReader.NextMessage | NewsDay/Pods/BoringSSL-GRPC/ssl/s3_both.cc:562-583 | Exactly that message leaves the front of the buffer. |
| TlsRead.HandshakeReader.HasUnprocessed | NewsDay/Pods/BoringSSL-GRPC/ssl/s3_both.cc:461-472 | Nothing is left if and only if all that has been received consists of the messages taken and the one handed out. |
| TlsRead.WrittenParses | NewsDay/Pods/BoringSSL-GRPC/ssl/s3_both.cc:399-425 | A message written as a type, a big-endian 24-bit length and a body parses back to itself whatever follows, and of a proper part of it the parser asks for the header first and then for exactly the rest. |
| TlsRead.WholeExactly | NewsDay/Pods/BoringSSL-GRPC/ssl/s3_both.cc:399-425 | A whole message is found if and only if the buffer begins with a written one. |
| TlsRead.FramingUnique | NewsDay/Pods/BoringSSL-GRPC/ssl/s3_both.cc:399-425 | Messages read off the front of a stream of messages are its first messages: there is one way to frame it. |
| TlsRead.TakenAreSent | NewsDay/Pods/BoringSSL-GRPC/ssl/s3_both.cc:399-583 | However the messages a peer has written (type, 24-bit big-endian length, body) are split over records, those taken are the peer's in order, and when none is complete in the buffer all that arrived have been taken. |
| TlsClient.StepDisciplined | NewsDay/Pods/BoringSSL-GRPC/ssl/handshake_client.cc:385-1705 | Whatever arrives, whatever blocks and however often a state is entered again, one call of a client state function that does not fail leaves the transcript exactly the messages sent and consumed, each once and in handshake order (RFC 5246, section 7.4.9). |
| TlsClient.VerifySignsTranscript | NewsDay/Pods/BoringSSL-GRPC/ssl/handshake_client.cc:1373-1455 | A CertificateVerify, when due, is over exactly the transcript so far; the buffer it needs has not been released on any path. |
| TlsServer.StepDisciplined | NewsDay/Pods/BoringSSL-GRPC/ssl/handshake_server.cc:426-1537 | The same for the server's state functions, whose ClientHello is looked at in three states and hashed once. |
| TlsServer.VerifyChecksTranscript | NewsDay/Pods/BoringSSL-GRPC/ssl/handshake_server.cc:1269-1363 | The server accepts a CertificateVerify if and only if nothing else fails and it is over exactly the transcript before it. |
| TlsPair.ClientSends | NewsDay/Pods/BoringSSL-GRPC/ssl/handshake.cc:176-184 | A message sent in turn keeps the two logs equal up to what is on its way. |
| TlsPair.ClientReads | NewsDay/Pods/BoringSSL-GRPC/ssl/handshake.cc:215-222 | A message read is the next of the sender's log, after exactly the messages the reader has. |
| TlsClientTurns.ClientStepGood | NewsDay/Pods/BoringSSL-GRPC/ssl/handshake_client.cc:385-1705 | Each client state function sends only in the client's turn, and keeps the two sides' logs aligned. |
| TlsServerTurns.ServerStepGood | NewsDay/Pods/BoringSSL-GRPC/ssl/handshake_server.cc:426-1537 | The same for the server's state functions. |
| TlsHandshake.NextKeepsInv | NewsDay/Pods/BoringSSL-GRPC/ssl/handshake.cc:491-628 | Any call of either side and any arrival keep both sides disciplined, in turn and aligned. |
| TlsHandshake.TranscriptsAgree | NewsDay/Pods/BoringSSL-GRPC/ssl/handshake.cc:380-476 | In every reachable state of client and server over in-order channels each hash is over exactly its side's messages in handshake order, and one side's are the first of the other's. |
| TlsHandshake.ServerFinishedAgrees | NewsDay/Pods/BoringSSL-GRPC/ssl/handshake.cc:380-429 | The transcript the client checks the server's Finished against is the one the server computed it from, so the check passes. |
| TlsHandshake.ClientFinishedAgrees | NewsDay/Pods/BoringSSL-GRPC/ssl/handshake.cc:431-476 | The same for the client's Finished. |
| TlsHandshake.CertificateVerifyAgrees | NewsDay/Pods/BoringSSL-GRPC/ssl/handshake_server.cc:1269-1363 | A CertificateVerify that arrives was signed over the transcript it is checked against. |
| TlsHandshake.DoneAgrees | NewsDay/Pods/BoringSSL-GRPC/ssl/handshake.cc:491-628 | When both sides are done, both have hashed the same messages and nothing is on its way. |
| TlsClientDriver.OkGoesOn | NewsDay/Pods/BoringSSL-GRPC/ssl/handshake_client.cc:1707-1789 | A client state function that returns without waiting goes on to a strictly later state. |
| TlsDriver.DriveKeeps | NewsDay/Pods/BoringSSL-GRPC/ssl/handshake_client.cc:1707-1789 | For either side: driving keeps what each state function keeps, unless one fails, and ends with `ssl_hs_ok` only when the handshake is over. |
| TlsDriver.RunKeeps | NewsDay/Pods/BoringSSL-GRPC/ssl/handshake.cc:491-628 | For either side and any schedule of blocking and arrivals, a call keeps what each state function keeps unless it fails; a failure is remembered and told again without touching the handshake. |
| TlsClientDriver.ClientRunDisciplined | NewsDay/Pods/BoringSSL-GRPC/ssl/handshake.cc:491-628 | Over any schedule a call on the client side leaves the transcript exactly the messages sent and consumed, in handshake order, unless it fails. |
| TlsServerDriver.ServerRunDisciplined | NewsDay/Pods/BoringSSL-GRPC/ssl/handshake.cc:491-628 | The same on the server side. |
| TlsDriver.ReentryContinues | NewsDay/Pods/BoringSSL-GRPC/ssl/handshake.cc:491-628 | A call that had to stop because something was not there yet, followed by another call, does what one call would have done had nothing blocked it. |
| TlsDriver.CallLeaves | NewsDay/Pods/BoringSSL-GRPC/ssl/handshake.cc:491-628 | A call ends with 1 or -1 and leaves a failure, one of four operations to go on with, or nothing; after an operation the application has to finish, nothing, so that the same state function is called again. |
| TlsClientSteps.StepDid | NewsDay/Pods/BoringSSL-GRPC/ssl/handshake_client.cc:385-1705 | State by state, what one call does to the messages: which one it consumes and when, what it sends and over what, when the buffer goes, and that a call that has to wait did nothing. |
| TlsClientSteps.DidAccounts | NewsDay/Pods/BoringSSL-GRPC/ssl/handshake_client.cc:385-1705 | So no call loses a message or repeats one: it consumed the first, or sent some, or started over after a HelloVerifyRequest. |
| TlsServerSteps.StepDid | NewsDay/Pods/BoringSSL-GRPC/ssl/handshake_server.cc:426-1537 | The same table for the server. |
| TlsServerSteps.DidAccounts | NewsDay/Pods/BoringSSL-GRPC/ssl/handshake_server.cc:426-1537 | So no call of the server loses a message or repeats one. |
| TlsCalls.ClientCallReaches | NewsDay/Pods/BoringSSL-GRPC/ssl/handshake.cc:491-628 | A call of the wait-and-resume loop on the client side is a run of the system of two endpoints: calls of state functions and arrivals of what the server had sent. |
| TlsCalls.ServerCallReaches | NewsDay/Pods/BoringSSL-GRPC/ssl/handshake.cc:491-628 | The same on the server side. |
| TlsCalls.ClientCallAgrees | NewsDay/Pods/BoringSSL-GRPC/ssl/handshake.cc:491-628 | After a call from any reachable state that has not failed, the client's transcript is exact and in order, and it and the server's are one the front of the other. |
| TlsCalls.ServerCallAgrees | NewsDay/Pods/BoringSSL-GRPC/ssl/handshake.cc:491-628 | The same for the server. |
| TlsVerified.ServerCertificateVerified | NewsDay/Pods/BoringSSL-GRPC/ssl/handshake_client.cc:821-889 | Over any run of the two endpoints, whatever fails or blocks in it, a client beyond the state that verifies the server's certificate, in a full handshake with one, has made the call that verifies it, and the call succeeded. |
| TlsVerified.ClientCallVerified | NewsDay/Pods/BoringSSL-GRPC/ssl/handshake_client.cc:1707-1789 | So it is after every call of the client's loop that has not failed, over the state functions called in it. |
| TlsVerified.ClientCertificateVerified | NewsDay/Pods/BoringSSL-GRPC/ssl/handshake_server.cc:949-1056 | Over any run, a server that has got a certificate and is beyond the state that verifies it has made the call that verifies it, and the call succeeded. |
| TlsVerified.ServerCallVerified | NewsDay/Pods/BoringSSL-GRPC/ssl/handshake_server.cc:949-1056 | So it is after every call of the server's loop that has not failed. |
| TlsFlow.UptoEnd | NewsDay/Pods/BoringSSL-GRPC/ssl/handshake_client.cc:1707-1789 | The messages by places are the message flows of RFC 5246, section 7.3, full and abbreviated, with every optional message. |
| TlsClientFlow.ClientStepOn | NewsDay/Pods/BoringSSL-GRPC/ssl/handshake_client.cc:1707-1789 | Where what arrives is what comes next in the flow and nothing around the client fails, no call of a client state function fails, and what it sends, consumes and settles is what the flow says. |
| TlsServerFlow.ServerStepOn | NewsDay/Pods/BoringSSL-GRPC/ssl/handshake_server.cc:1539-1621 | The same for the server. |
| TlsProgress.ClientMoves | NewsDay/Pods/BoringSSL-GRPC/ssl/handshake_client.cc:1707-1789 | A client state function that does not fail either brings the handshake nearer to its end or changes nothing, and that only where an operation is not ready or the server's next message has not arrived. |
| TlsProgress.ServerMoves | NewsDay/Pods/BoringSSL-GRPC/ssl/handshake_server.cc:1539-1621 | The same for the server. |
| TlsCompletion.NeverFails | NewsDay/Pods/BoringSSL-GRPC/ssl/handshake.cc:491-628 | Over any run in which no call is told to fail, in whatever order the sides are called, operations block and messages arrive, and whatever the sides settle on, no state function returns an error. |
| TlsCompletion.DoneAlongFlow | NewsDay/Pods/BoringSSL-GRPC/ssl/handshake.cc:491-628 | Where both are done at the end of such a run, they have the same parameters, and the messages sent are exactly those of one of the flows, in its order. |
| TlsCompletion.RunsEnd | NewsDay/Pods/BoringSSL-GRPC/ssl/handshake.cc:491-628 | Such a run has no more events that change anything than there was to do at its start. |
| TlsCompletion.StuckIsDone | NewsDay/Pods/BoringSSL-GRPC/ssl/handshake.cc:491-628 | Where no call and no arrival changes anything any more, both sides are done: a handshake cannot get stuck. |
| TlsCompletion.EveryPlanCompletes | NewsDay/Pods/BoringSSL-GRPC/ssl/handshake.cc:491-628 | For every set of parameters, full or resumed, with or without a certificate request and an own key exchange, there is a run from the start to where both are done with these parameters, over exactly the flow of that handshake. |
| TlsConnection.Connection.HashMessage | NewsDay/Pods/BoringSSL-GRPC/ssl/ssl_transcript.cc:236-252 | A transcript over exactly what was sent and consumed becomes one over that and this message. |
| TlsConnection.Connection.StartHash | NewsDay/Pods/BoringSSL-GRPC/ssl/ssl_transcript.cc:181-195 | From here on the hash is over exactly what was sent and consumed so far, and the transcript stays exact. |
| TlsConnection.Connection.AddMessage | NewsDay/Pods/BoringSSL-GRPC/ssl/handshake.cc:176-184 | The message is queued once, nothing else moves, and the transcript stays over exactly what was sent and consumed. |
| TlsConnection.Connection.TakeMessage | NewsDay/Pods/BoringSSL-GRPC/ssl/handshake.cc:215-222 | The first message is consumed, once, nothing else moves, and the transcript stays over exactly what was sent and consumed. |
| TlsConnection.Connection.GetFinished | NewsDay/Pods/BoringSSL-GRPC/ssl/handshake.cc:380-429 | The message is accepted if and only if it is a Finished whose value is over everything sent and consumed before it; only then is it consumed, and otherwise nothing moved. |
| TlsConnection.Connection.AddFinished | NewsDay/Pods/BoringSSL-GRPC/ssl/handshake.cc:431-476 | The message sent has its value over everything sent and consumed before it. |
| TlsClientMachine.ClientHandshake.ReadHelloVerify | NewsDay/Pods/BoringSSL-GRPC/ssl/handshake_client.cc:491-533 | A HelloVerifyRequest is dropped unhashed and the transcript starts over with just the second ClientHello; any other message stays where it is. The transcript stays exact and in order, and a call that has to wait did nothing. |
| TlsClientMachine.ClientHandshake.ReadServersHello | NewsDay/Pods/BoringSSL-GRPC/ssl/handshake_client.cc:535-759 | The ServerHello is consumed, the hash is over everything before it and it, and the buffer is gone exactly for a resumed session or a cipher without certificates. The transcript stays exact and in order, and a call that has to wait did nothing. |
| TlsClientMachine.ClientHandshake.ReadCertificate | NewsDay/Pods/BoringSSL-GRPC/ssl/handshake_client.cc:771-819 | A Certificate is consumed exactly where the cipher authenticates by certificate. The transcript stays exact and in order, and a call that has to wait did nothing. |
| TlsClientMachine.ClientHandshake.ReadStatus | NewsDay/Pods/BoringSSL-GRPC/ssl/handshake_client.cc:821-869 | A CertificateStatus is consumed exactly where it was negotiated and is there, and either way the server's certificate is verified next. The transcript stays exact and in order, and a call that has to wait did nothing. |
| TlsClientMachine.ClientHandshake.VerifyCertificate | NewsDay/Pods/BoringSSL-GRPC/ssl/handshake_client.cc:871-889 | No message moves; it goes on if and only if there is no certificate or verifying it neither failed nor has to wait, and unless it goes on nothing changed. The transcript stays exact and in order, and a call that has to wait did nothing. |
| TlsClientMachine.ClientHandshake.ReadKeyExchange | NewsDay/Pods/BoringSSL-GRPC/ssl/handshake_client.cc:891-1071 | A ServerKeyExchange is consumed exactly where one is there, and it goes on without one only where the cipher needs none. The transcript stays exact and in order, and a call that has to wait did nothing. |
| TlsClientMachine.ClientHandshake.ReadRequest | NewsDay/Pods/BoringSSL-GRPC/ssl/handshake_client.cc:1073-1143 | A CertificateRequest is consumed and the buffer, over everything so far, is kept; where there is none, because ServerHelloDone is there, the buffer is gone. The transcript stays exact and in order, and a call that has to wait did nothing. |
| TlsClientMachine.ClientHandshake.SendCertificate | NewsDay/Pods/BoringSSL-GRPC/ssl/handshake_client.cc:1169-1215 | A requested certificate is sent once; the buffer is kept, over everything so far, exactly where it is not empty. The transcript stays exact and in order, and a call that has to wait did nothing. |
| TlsClientMachine.ClientHandshake.SendKeyExchange | NewsDay/Pods/BoringSSL-GRPC/ssl/handshake_client.cc:1220-1371 | Exactly one ClientKeyExchange is sent. The transcript stays exact and in order, and a call that has to wait did nothing. |
| TlsClientMachine.ClientHandshake.SendVerify | NewsDay/Pods/BoringSSL-GRPC/ssl/handshake_client.cc:1373-1455 | The signature sent is over everything sent and consumed before it, and then the buffer is gone; where none is due nothing moves. The transcript stays exact and in order, and a call that has to wait did nothing. |
| TlsClientMachine.ClientHandshake.SendClientsFinished | NewsDay/Pods/BoringSSL-GRPC/ssl/handshake_client.cc:1457-1512 | NextProto and Channel ID where negotiated, then a Finished whose value is over everything before it, these included. The transcript stays exact and in order, and a call that has to wait did nothing. |
| TlsClientMachine.ClientHandshake.FinishClientFlight | NewsDay/Pods/BoringSSL-GRPC/ssl/handshake_client.cc:1538-1564 | No message moves; a resumed handshake is over, a full one reads on, possibly after an early return. The transcript stays exact and in order, and a call that has to wait did nothing. |
| TlsClientMachine.ClientHandshake.ReadTicket | NewsDay/Pods/BoringSSL-GRPC/ssl/handshake_client.cc:1566-1647 | A promised ticket is consumed before the ChangeCipherSpec, an empty one takes the promise back; where none is promised nothing moves. The transcript stays exact and in order, and a call that has to wait did nothing. |
| TlsClientMachine.ClientHandshake.ReadServersFinished | NewsDay/Pods/BoringSSL-GRPC/ssl/handshake_client.cc:1658-1672 | The Finished is consumed if and only if its value is over everything sent and consumed before it; otherwise nothing changed. The transcript stays exact and in order, and a call that has to wait did nothing. |
| TlsClientMachine.ClientHandshake.RunState | NewsDay/Pods/BoringSSL-GRPC/ssl/handshake_client.cc:1707-1789 | Whatever the state: messages are neither lost nor repeated, the transcript stays exact and in order, nothing happens where there is something to wait for, and `ssl_hs_ok` brings the handshake nearer to its end. |
| TlsClientMachine.ClientHandshake.DoHandshake | NewsDay/Pods/BoringSSL-GRPC/ssl/handshake_client.cc:1707-1789 | The loop ends, with something to wait for, an error, or the handshake over; it computes what driving the state functions one after the other does, and the transcript stays disciplined. |
| TlsClientMachine.ClientHandshake.RunHandshake | NewsDay/Pods/BoringSSL-GRPC/ssl/handshake.cc:491-628 | The wait-and-resume loop ends under every schedule and computes `ClientRun`: errors are told again with nothing touched, asynchronous waits return once, a read goes on with what arrived, and success leaves nothing to wait for. |
| TlsServerDriver.OkGoesOn | NewsDay/Pods/BoringSSL-GRPC/ssl/handshake_server.cc:1539-1621 | A server state function that returns without waiting goes on to a strictly later state. |
| TlsServerMachine.ServerHandshake.ReadHello | NewsDay/Pods/BoringSSL-GRPC/ssl/handshake_server.cc:432-510 | The ClientHello is looked at and stays where it is, unhashed. The transcript stays exact and in order, and a call that has to wait did nothing. |
| TlsServerMachine.ServerHandshake.ChooseCertificate | NewsDay/Pods/BoringSSL-GRPC/ssl/handshake_server.cc:512-560 | It is looked at again and stays where it is, unhashed. The transcript stays exact and in order, and a call that has to wait did nothing. |
| TlsServerMachine.ServerHandshake.ChooseParameters | NewsDay/Pods/BoringSSL-GRPC/ssl/handshake_server.cc:572-684 | The ClientHello is consumed, once, the hash is over it, and the buffer is kept exactly where a certificate will be requested. The transcript stays exact and in order, and a call that has to wait did nothing. |
| TlsServerMachine.ServerHandshake.SendHello | NewsDay/Pods/BoringSSL-GRPC/ssl/handshake_server.cc:686-752 | Exactly one ServerHello with the parameters settled is sent. The transcript stays exact and in order, and a call that has to wait did nothing. |
| TlsServerMachine.ServerHandshake.SendCertificates | NewsDay/Pods/BoringSSL-GRPC/ssl/handshake_server.cc:754-840 | Exactly the Certificate and the CertificateStatus that the cipher and the extension call for are sent, in that order. The transcript stays exact and in order, and a call that has to wait did nothing. |
| TlsServerMachine.ServerHandshake.SendKeyExchange | NewsDay/Pods/BoringSSL-GRPC/ssl/handshake_server.cc:842-912 | A ServerKeyExchange is sent once, also where its signature is not ready and the call is made again. The transcript stays exact and in order, and a call that has to wait did nothing. |
| TlsServerMachine.ServerHandshake.SendHelloDone | NewsDay/Pods/BoringSSL-GRPC/ssl/handshake_server.cc:914-947 | Exactly a CertificateRequest, where one is due, and ServerHelloDone are sent. The transcript stays exact and in order, and a call that has to wait did nothing. |
| TlsServerMachine.ServerHandshake.ReadCertificate | NewsDay/Pods/BoringSSL-GRPC/ssl/handshake_server.cc:949-1040 | A requested certificate is consumed; one that is not empty sets the peer key and keeps the buffer, over everything so far, and an empty one drops it; verifying comes next. The transcript stays exact and in order, and a call that has to wait did nothing. |
| TlsServerMachine.ServerHandshake.VerifyCertificate | NewsDay/Pods/BoringSSL-GRPC/ssl/handshake_server.cc:1042-1056 | No message moves; it goes on if and only if there is no peer key or verifying the certificate neither failed nor has to wait, and unless it goes on nothing changed. The transcript stays exact and in order, and a call that has to wait did nothing. |
| TlsServerMachine.ServerHandshake.ReadVerify | NewsDay/Pods/BoringSSL-GRPC/ssl/handshake_server.cc:1269-1363 | With a peer key, the signature is accepted if and only if it is over everything sent and consumed before it; afterwards the buffer is gone. The transcript stays exact and in order, and a call that has to wait did nothing. |
| TlsServerMachine.ServerHandshake.ReadNegotiated | NewsDay/Pods/BoringSSL-GRPC/ssl/handshake_server.cc:1379-1437 | NextProto or Channel ID is consumed exactly where it was negotiated; a call that has to wait did nothing. |
| TlsServerMachine.ServerHandshake.ReadFinished | NewsDay/Pods/BoringSSL-GRPC/ssl/handshake_server.cc:1439-1461 | The Finished is accepted if and only if its value is over everything sent and consumed before it, and resumption decides what comes next. The transcript stays exact and in order, and a call that has to wait did nothing. |
| TlsServerMachine.ServerHandshake.SendFinish | NewsDay/Pods/BoringSSL-GRPC/ssl/handshake_server.cc:1463-1509 | A ticket where one is due, then a Finished whose value is over everything before it, the ticket included. The transcript stays exact and in order, and a call that has to wait did nothing. |
| TlsServerMachine.ServerHandshake.RunState | NewsDay/Pods/BoringSSL-GRPC/ssl/handshake_server.cc:1539-1621 | Whatever the state: messages are neither lost nor repeated, the transcript stays exact and in order, nothing happens where there is something to wait for, and `ssl_hs_ok` brings the handshake nearer to its end. |
| TlsServerMachine.ServerHandshake.DoHandshake | NewsDay/Pods/BoringSSL-GRPC/ssl/handshake_server.cc:1539-1621 | The loop ends, with something to wait for, an error, or the handshake over; it computes what driving the state functions one after the other does, and the transcript stays disciplined. |
| TlsServerMachine.ServerHandshake.RunHandshake | NewsDay/Pods/BoringSSL-GRPC/ssl/handshake.cc:491-628 | The wait-and-resume loop ends under every schedule and computes `ServerRun`: errors are told again with nothing touched, asynchronous waits return once, a read goes on with what arrived, and success leaves nothing to wait for. |
| CipherChoice.IndexOf | NewsDay/Pods/BoringSSL-GRPC/ssl/handshake_server.cc:394-401 | The place found is the first one of the cipher, and none is found exactly when it is not in the list. |
| CipherChoice.ChooseCipher | NewsDay/Pods/BoringSSL-GRPC/ssl/handshake_server.cc:357-424 | It returns the cipher the other side prefers most among the eligible ones of the first group that has any; it returns none if and only if every eligible cipher lies in a last group that no flag ends. |
| CipherChoice.Closed | NewsDay/Pods/BoringSSL-GRPC/ssl/handshake_server.cc:412-420 | Where a group ends, the smallest index collected is the best of that whole group. |
| CipherChoice.GroupsEnd | NewsDay/Pods/BoringSSL-GRPC/ssl/handshake_server.cc:357-424 | Where the last flag is 0, and where there are no groups, every group ends, so none is chosen exactly when none is eligible. |
| CipherChoice.ChosenMeans | NewsDay/Pods/BoringSSL-GRPC/ssl/handshake_server.cc:357-424 | A cipher chosen is in both lists and has its version, key exchange and authentication in common with the configuration; where every group ends, none is chosen if and only if there is no such cipher. |
| CipherChoice.WithoutGroups | NewsDay/Pods/BoringSSL-GRPC/ssl/handshake_server.cc:357-424 | Without groups the choice is the first eligible cipher in priority order. |
| Refcount.LockedCount.Increment | NewsDay/Pods/BoringSSL-GRPC/crypto/refcount_lock.c:29-35 | A call adds one increment to the operations done; the count stays the one that these operations leave, by the rules that `Linearizes` speaks of. |
| Refcount.LockedCount.DecrementAndTestZero | NewsDay/Pods/BoringSSL-GRPC/crypto/refcount_lock.c:37-51 | A call adds one decrement with its result, or an abort, to the operations done, as the same rules demand. |
| Refcount.StepRefines | NewsDay/Pods/BoringSSL-GRPC/crypto/refcount_c11.c:37-65 | Each access of a thread, a spurious failure included, either leaves the count or is one operation of the locked counter with the same result. |
| Refcount.Linearizes | NewsDay/Pods/BoringSSL-GRPC/crypto/refcount_c11.c:37-65 | Every interleaving of any number of threads is a run of the locked counter, each operation taking effect at one of its own accesses. |
| Refcount.AgreesWithLocked | NewsDay/Pods/BoringSSL-GRPC/crypto/refcount_c11.c:37-65 | A locked counter that has done the operations of an interleaved run, in their order and with their results, holds the count that run ends with. |
| Refcount.SaturatedStays | NewsDay/Pods/BoringSSL-GRPC/crypto/refcount_c11.c:37-65 | Once saturated, the count never moves, whatever runs. |
| Refcount.OneLastDecrement | NewsDay/Pods/BoringSSL-GRPC/crypto/refcount_c11.c:49-65 | With one decrement for each reference held nothing aborts, at most one decrement returns 1, and unless the count saturated exactly one has when the last reference is given up. |
| AsyncRequests.AsyncRequest.SetResult | NewsDay/NewsDay/Network/AsyncRequest.swift:23-32 | Only a block is put at the end of the main queue. |
| AsyncRequests.AsyncRequest.WithResult | NewsDay/NewsDay/Network/AsyncRequest.swift:61-78 | The callback is registered and a block put at the end of the main queue. |
| AsyncRequests.AsyncRequest.SetResultMain | NewsDay/NewsDay/Network/AsyncRequest.swift:34-59 | The first result is given to all waiting callbacks in order, each once, even where callbacks call back in, and their calls are queued in that order; a later result is only remembered. |
| AsyncRequests.AsyncRequest.WithResultMain | NewsDay/NewsDay/Network/AsyncRequest.swift:61-78 | Before a result the callback waits behind the others; after one it is queued to run in its turn. |
| AsyncRequests.AsyncRequest.Invoke | NewsDay/NewsDay/Network/AsyncRequest.swift:72-75 | The callback gets the result as it is when it runs, and its own calls are queued in order. |
| AsyncRequests.AsyncRequest.RunNext | NewsDay/NewsDay/Network/AsyncRequest.swift:23-78 | The first block of the queue runs, as its kind demands, and every registered callback stays in exactly one place, in order of registration, with each delivery on the result set last before it. |
| AsyncRequests.DeliveredInOrder | NewsDay/NewsDay/Network/AsyncRequest.swift:11-78 | At any time the callbacks that have run are the first so many registered, each once and never before a result, on the result set last before it ran. |
| AsyncRequests.AllDelivered | NewsDay/NewsDay/Network/AsyncRequest.swift:11-78 | Once the queue is empty after a first result, each registered callback has run exactly once. |

## Left out

- DtlsFlight.FlightSender.SendFlight: tiling is claimed for runs without a seal error; a failed seal may leave the cursor past records of the datagram that is then thrown away.
- DtlsFlight.FlightSender.AddOutgoing: asks that the data is one whole message, as `dtls1_finish_message` leaves it; the check for more than 2^32 bytes and the update of the transcript are not part of the model.
- DtlsSend.SealRecord: the ciphertext is its plaintext and its length; the AEAD itself, the record version and the message callback are left out.
- DtlsEndToEnd.DeliveredInOrder: for fewer than 65536 messages in each direction; the wrap of the read sequence number itself is covered by `DtlsRing`.
- DtlsDelivery.TransmissionCompletes: its premise is that each record of the transmission was at some point accepted while its message was in the window or already released, within the size limit, and in epoch 1 the current one; that the network comes to deliver it is not claimed.
- DtlsNumbers.RecordsDiffer: until a counter wraps; the call that wraps fails but leaves its counter at zero, so a further one would start the numbers of that epoch again.
- DtlsWindow.AcceptedOnce: until the 16-bit read epoch wraps.
- DtlsReceiver.MessageReceiver.Open: alert codes, the message callback and allocation failures are left out.
- PbRoundTrip.RoundTrip: for encodings shorter than 2^32 bytes, strings without zero bytes that leave room for their terminator, distinct nonzero tags, and singular proto3 fields whose default is zero; absent optionals come back without their contents.
- PbIStream.IStream.DecodeNoinit: the destination is a value built up slot by slot, so writes through offsets and aliasing of union members in memory are not captured; what it holds after a failure is not described.
- PbIStream.IStream.DecodeVarint32: the general statement is equality with `Dec32`; what that does is claimed for varints of up to ten bytes below 2^32, for sign-extended negative int32 values, and for canonical encodings up to 2^63; longer ones, and upper bytes that are neither, are not described further.
- PbOStream.OStream.Encode: lengths are unbounded, so the overflow checks on `size_t` are not modelled.
- PbField.FieldIter.Next: offsets are unbounded integers; the address of the structure itself is 0.
- TlsWrite.TlsWriter.DoWrite: conservation is claimed while the capacity asked for plus seven bytes for alignment has stayed within 2^16, recorded in the ghost field `fits`; beyond that it is false (`TlsBuffer.ConsumeWraps`).
- TlsWrite.TlsWriter.WriteAppData: early data, the handshake-before-write check and pending alerts are left out.
- TlsClientMachine.ClientHandshake.RunHandshake: every blocking return is -1, and asynchronous waits that only TLS 1.3 or handoff use are left out; the server's method is the same code around its own state machine.
- TlsClient.StepDisciplined: ChangeCipherSpec, which is not hashed, is not on the channels; parsing and cryptography are one choice of whether they fail; after a failure nothing is claimed of the transcript.
- TlsServer.StepDisciplined: likewise; the server modelled sends no HelloVerifyRequest, as the source's does not.
- TlsHandshake.TranscriptsAgree: channels deliver every message in order and unaltered.
- TlsCompletion.NeverFails: a HelloVerifyRequest, which the server does not send, is not part of the flows, nor are alerts.
- TlsVerified.ServerCertificateVerified: verifying is one choice of the surroundings; what makes a certificate good is not part of the model.
- Refcount.Linearizes: threads start idle; memory order weaker than sequential consistency is not modelled.
- AsyncRequests.AsyncRequest.RunNext: calls from other threads are their blocks at the end of the queue; object lifetime and logging are left out.
- The AEAD, hashes, signatures, RSA and elliptic-curve key exchange and key derivation are opaque.
- SSLv3, V2ClientHello, TLS 1.3, early data, handoff, renegotiation and certificate parsing are not modelled.
- DTLS timers, what `dtls1_on_handshake_complete` clears, the path-MTU query and the read side of alerts are not modelled beyond "a retransmission may happen at any time with any MTU".
- nanopb pointer fields, callbacks, extensions, fixed-count arrays, delimited and null-terminated framing and the build without 64-bit integers are not modelled.
- The outgoing DTLS flight is a sequence in a field rather than a fixed array of seven entries.
- User interface, watch connectivity, Firebase authentication, the news service client and the archived model objects would only add easy members.
- `ssl_asn1.cc`, `custom_extensions.cc`, `ex_data.c`, CPU feature detection, thread-local storage, `mem.c` and error tables are platform plumbing.
