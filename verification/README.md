# Models and proofs for cuttle

This project models four parts of the cuttle library in Dafny and proves what they are for.

* **The corpc stream protocol.** `CorpcChannel` has the message handlers of one endpoint as
  functions, `CorpcSystem` puts two endpoints and two FIFO wires together as a step system in
  which openers, writers, readers, closers and the two channel threads interleave freely, and in
  which a send and its debit are two steps. `CorpcInvariant` states what holds in every reachable
  state, `CorpcKit`, `CorpcEdits`, `CorpcFlow`, `CorpcArrival`, `CorpcPairing`, `CorpcIds` and
  `CorpcSteps` show that every step keeps it, `CorpcTheorems`, `CorpcLosses` and `CorpcHandling`
  draw the conclusions, `CorpcRuns` says for which runs of the code they hold, `CorpcWrap` has the
  runs in which ids collide, and `CorpcEndpoint` is the channel object whose methods do what the
  functions say. `CorpcFrames`, `CorpcWriters` and `CorpcCrc` are the byte level: frames, their
  checksums (`Crc32c`), and several writers sharing the write lock; `CorpcDamage` has the bytes of
  a frame and what damage does to them, and `CorpcBytes` writes the wires of the step system out
  as bytes.
* **The protobuf codec.** `PbWire` and `PbCodec` have the encoding and the decoder as functions.
  `PbRoundTrip`, `PbMeaning`, `PbTheorems` and `PbExact` prove the round trip and compatibility
  between schemas, `PbLayout` says type by type what goes out and what is taken, and `PbPacked`
  which packed arrays are accepted. `PbOutput` and `PbInput` are the streams and loops of the
  code, proved to compute those functions.
* **The DNS library.** Query ids (`Bits`, `CycleSteps`, `DnsPermutor`, `DnsQueryIds`,
  `DnsKnownAnswers`); walking, building and studying packets (`DnsPacket`, `DnsBuild`, `DnsMemo`,
  `DnsPushed`, `DnsPacketObject`); name compression (`DnsNames`, `DnsCompress`, `DnsNameWriter`,
  `DnsReuse`, `DnsStaleLabel`); the record and hint iterators (`ByteBits`, `DnsShuffle`,
  `NextInOrder`, `DnsRecords`, `DnsIteration`, `DnsOrder`, `DnsHints`); the resolver's stack
  machine (`DnsResolver`).
* **Cothreads.** The lock, wait and broadcast monitor (`CothreadMonitor`, `CothreadWakeups`) with
  its linked queue of waiters (`CothreadQueue`), the scan for ready coroutines
  (`CothreadReadyScan`), and the pooled list underneath (`PooledList`).

What the proofs show about the code beyond its comments:

* The ring-full branch of corpc, marked as a bug, is unreachable as long as no stream id drawn
  equals, in 16 bits, one still in use at either end or on the wire. gensid does not check this.
  It is so whenever fewer than 2^16 ids are drawn in the lifetime of a stream
  (`CorpcRuns.LifetimeBound`), in particular in a process that draws at most 65536 in all
  (`CorpcRuns.FewDrawsSuffice`). With 65537 draws data can be delivered to the wrong stream and
  the branch can be reached (`CorpcWrap.WrapMisdelivers`, `CorpcWrap.WrapFillsRing`). All results
  about runs in `CorpcTheorems`, `CorpcLosses` and `CorpcHandling` are for runs with that
  condition.
* A send that fails after some bytes of its frame went out leaves the channel usable for other
  writers. From then on the wire is no longer the frames of the sends that reported success
  (`CorpcWriters.FramesStayWhole`), and a message can be lost whose send reported success
  (`CorpcWriters.SentButLost`).
* A corpc payload of 65525 bytes or more is sent but never received as it was sent
  (`CorpcFrames.RecvSentOnlyIf`).
* Elements of repeated message fields are decoded into memory that was never cleared. The exact
  condition under which a message survives this, whatever the memory holds, is `PbTheorems.Sound`
  (`PbExact.ComesThroughIffSound`).
* dns_d_comp goes on comparing with a label that an earlier partial match has left behind, so that
  "a.b" is written as a pointer to "b.b" when "a.x" stands before it
  (`DnsStaleLabel.WritesWrong`). Exactly when a written name spells its labels is
  `DnsCompress.SpelledIffRight`. A condition that can be told before the push is
  `DnsCompress.CleanIsSpelled`. Pointers lead backwards all the same.
* The section memo of a packet is blank until the first push succeeds, and exact from then on.
* A packed array whose last varint is cut off, or out of range, is accepted without it
  (`PbPacked.AcceptedIff`, `PbPacked.LastElementsLost`).

Two abstractions are used throughout: the transport is a reliable FIFO (sends of whole messages in
the step system, of pieces that may fail half way in `CorpcWriters`), and allocation succeeds.
Positions in DNS packets are at most 65535. Integers are unbounded unless a width matters, and
then the wrap is written out. `Basics` holds the shared types.

## Model

| member | source | states |
|---|---|---|
| `CorpcTheorems.RunKeeps` | src/corpc/corpc-channel.c:319-1261 | every step of either peer (opening, accepting, refusing, sending, debiting, delivering, popping, acknowledging, closing, failing sends, ids drawn for other channels) keeps the whole invariant of the two endpoints and the two wires, in every run in which no id drawn equals, in 16 bits, one still alive |
| `CorpcTheorems.CreditIsConserved` | src/corpc/corpc-channel.c:379-410 | in every run in which no id drawn equals, in 16 bits, one still alive, in every state and for every pair of registered streams: credit net of undebited sends + data in flight + queued + popped but unacknowledged + acknowledgements in flight + acknowledgements never sent = 8 |
| `CorpcLosses.BlockedSenderIsOwed` | src/corpc/corpc-channel.c:115-151 | in every run in which no id drawn equals, in 16 bits, one still alive: a sender at rwnd = 0 has 8 messages or acknowledgements outstanding, less those the run has cost its reader |
| `CorpcLosses.LostIsCounted` | src/corpc/corpc-channel.c:1230-1261 | in every run in which no id drawn equals, in 16 bits, one still alive: what a stream has lost is exactly counted: one for each acknowledgement that could not be sent, and one for each message read while channel or stream was not established; every other read is acknowledged |
| `CorpcLosses.NothingIsLost` | src/corpc/corpc-channel.c:1230-1261 | so nothing is lost in a run in which no acknowledgement fails, both channels stay up and no close is delivered |
| `CorpcTheorems.RingNeverFull` | src/corpc/corpc-channel.c:789-816 | in every run in which no id drawn equals, in 16 bits, one still alive: the branch for a full receive ring is not reached; `CorpcWrap.WrapFillsRing` reaches it in another |
| `CorpcTheorems.DebitNeverWraps` | src/corpc/corpc-channel.c:394-410 | in every run in which no id drawn equals, in 16 bits, one still alive: the 16-bit decrement after a send does not underflow |
| `CorpcTheorems.AckNeverWraps` | src/corpc/corpc-channel.c:818-832 | in every run in which no id drawn equals, in 16 bits, one still alive: the 16-bit increment on an acknowledgement does not overflow |
| `CorpcTheorems.DeliveredInOrder` | src/corpc/corpc-channel.c:1230-1261 | in every run in which no id drawn equals, in 16 bits, one still alive: what was read on a stream is a prefix of what its one peer wrote; the rest is exactly the queue and the data in flight; nobody reads what nobody wrote to him |
| `CorpcTheorems.DemuxIsExact` | src/corpc/corpc-channel.c:502-511 | in every run in which no id drawn equals, in 16 bits, one still alive: comparing 16-bit ids finds the addressed stream or none |
| `CorpcHandling.FrameIsHandled` | src/corpc/corpc-channel.c:715-832 | in every run in which no id drawn equals, in 16 bits, one still alive: a frame for a registered stream changes that stream alone, as the frame says: established with peer and credit, refused, closed by its peer, one message or one credit more |
| `CorpcHandling.FrameForNobody` | src/corpc/corpc-channel.c:715-832 | in every run in which no id drawn equals, in 16 bits, one still alive: data or a response for a stream that is gone end the channel, other frames for it change nothing |
| `CorpcHandling.RequestIsHandled` | src/corpc/corpc-channel.c:613-712 | a request leads to an answer prepared with the new stream, with the new stream but an error, or with no stream |
| `CorpcHandling.AnswerIsSent` | src/corpc/corpc-channel.c:613-712 | the requester is told the new stream's id and credit, or the reason why there is none |
| `CorpcHandling.AnswerIsFinished` | src/corpc/corpc-channel.c:613-712 | behind the answer the stream is established, or leaves the table again, and no other is touched |
| `CorpcHandling.RequestIsSent` | src/corpc/corpc-channel.c:337-349 | an opener's request carries its id and the free space of its ring |
| `CorpcHandling.ServedIsConnected` | src/corpc/corpc-channel.c:613-773 | a request that is served: its three steps and the delivery of the answer establish the two streams with each other, each with credit 8 |
| `CorpcHandling.ClosingIsTold` | src/corpc/corpc-channel.c:1352-1372 | closing a stream sends a close behind all that was sent before, and then takes exactly that stream out of the table |
| `CorpcIds.RoomIsExact` | src/corpc/corpc-channel.c:319-329 | that condition on a draw is exact: the ids alive stay different in 16 bits after it if and only if it holds |
| `CorpcIds.RoomIsRouting` | src/corpc/corpc-channel.c:502-511 | and it is exact for delivery: after the draw every frame addressed to an id alive reaches its stream or none, if and only if the condition holds |
| `CorpcRuns.LifetimeBound` | src/corpc/corpc-channel.c:319-329 | every run of the code in which, at each draw, fewer than 2^16 ids were drawn since any id still alive is a run without collisions, with the same states |
| `CorpcRuns.FewDrawsSuffice` | src/corpc/corpc-channel.c:319-329 | so is every run from the start in which either process draws at most 65536 ids, for all its channels together; the theorems then apply, and with one draw more `CorpcWrap.WrapMisdelivers` is possible |
| `CorpcWrap.WrapMisdelivers` | src/corpc/corpc-channel.c:319-329 | gensid does not check it: a run of the code (a stream is opened, 65535 ids are drawn elsewhere, a second stream is opened, 65537 draws in all) after which a payload written on one stream is read on the other |
| `CorpcWrap.WrapFillsRing` | src/corpc/corpc-channel.c:802-807 | and a run after which a message arrives at a full ring, although no sender exceeded its credit |
| `CorpcSteps.ActKeeps` | src/corpc/corpc-channel.c:613-832 | one step of one endpoint keeps the invariant, if an id it draws equals in 16 bits none still alive |
| `CorpcFrames.RecvSent` | src/corpc/corpc-proto.c:95-220 | receiving what was sent returns the same message, consumes exactly its bytes and accepts its checksum, for every message with at most 65524 payload bytes |
| `CorpcFrames.RecvSentOnlyIf` | src/corpc/corpc-proto.c:225-354 | a longer payload is never received as it was sent |
| `CorpcFrames.SentCrcIs` | src/corpc/corpc-proto.c:326-354 | the checksum of a data frame computed in two pieces is the one computed over the whole frame |
| `CorpcFrames.CorruptDataRejected` | src/corpc/corpc-proto.c:205-214 | a changed payload byte is always rejected |
| `CorpcDamage.FrameBytes` | src/corpc/corpc-proto.c:20-76 | a frame byte by byte: the checksum of code, sid, did, size and payload as they lie in memory, and then the same in network order, for every message |
| `CorpcDamage.DamagedHeaderRejected` | src/corpc/corpc-proto.c:205-214 | a changed byte of the checksum, the sid or the did on the wire is always rejected |
| `CorpcFrames.RecvAllSent` | src/corpc/corpc-channel.c:837-945 | repeated receiving recovers exactly the sent messages, whatever follows on the wire |
| `CorpcWriters.FramesStayWhole` | src/corpc/corpc-channel.c:115-162 | for every interleaving of writers and every pattern of failed or partial sends: one writer is inside at a time, and the wire is exactly the frames of the sends that reported success plus at most the header of the frame whose writer holds the lock, if and only if no failed send left bytes of its frame |
| `CorpcWriters.ReceiverGetsDone` | src/corpc/corpc-channel.c:337-410 | then the receiver obtains exactly the messages that went out, in that order |
| `CorpcWriters.ReceivedBefore` | src/corpc/corpc-channel.c:337-410 | in any case it first obtains all that went out before the first such byte, in order |
| `CorpcWriters.SentButLost` | src/corpc/corpc-proto.c:329-354 | stray bytes do harm: one writer's data frame fails between header and payload, the next writer's frame is reported as sent, and the receiver gets nothing |
| `CorpcCrc.CrcFits` | src/corpc/corpc-proto.c:28-48 | CRC-32C has the two properties the frame results ask of a checksum |
| `CorpcCrc.FrameComesThrough` | src/corpc/corpc-proto.c:95-354 | with CRC-32C: a message is received as it was sent if and only if its payload has at most 65524 bytes |
| `CorpcCrc.DamageIsNoticed` | src/corpc/corpc-proto.c:205-214 | with CRC-32C: a changed payload byte is rejected |
| `CorpcDamage.DamagedHeaderNoticed` | src/corpc/corpc-proto.c:205-214 | with CRC-32C: so is a changed byte of checksum, sid or did |
| `CorpcCrc.WritersAreReceived` | src/corpc/corpc-channel.c:837-945 | with CRC-32C: what several writers send is received whole and in order |
| `CorpcBytes.WireIsReceived` | src/corpc/corpc-channel.c:837-945 | in every run of the step system, with each wire written out as bytes with CRC-32C: receiving gives the messages of its frames in order, and receiving once gives the message of the first frame and leaves the bytes of the rest |
| `CorpcBytes.MessageTells` | src/corpc/corpc-proto.c:225-354 | the message of a frame carries its 16-bit ids, its credit, its payload and its status by number |
| `CorpcBytes.SameMessageSameEffect` | src/corpc/corpc-channel.c:613-832 | handling a frame depends on its message alone: frames with the same message have the same effect on every endpoint, as far as the code can see |
| `Crc32c.TableIs` | src/hash/crc32.c:43-108 | each of the 256 table entries is the remainder of the polynomial of Appendix B of RFC 4960 |
| `Crc32c.StepIs` | src/hash/crc32.c:18-20 | one byte through the table is eight shifts by the polynomial of the register with the byte added |
| `Crc32c.CheckValue` | src/hash/crc32.c:111-124 | the checksum of the bytes 123456789 is 0xE3069283 |
| `Crc32c.ComputeUpdate` | src/hash/crc32.c:116-124 | the loop computes the register after all bytes |
| `Crc32c.StepInjective` | src/hash/crc32.c:18-20 | for a fixed byte the register step loses nothing |
| `Crc32c.ByteInjective` | src/hash/crc32.c:18-20 | for a fixed register different bytes give different registers |
| `Crc32c.UpdateConcat` | src/hash/crc32.c:116-124 | two updates are one update with both pieces |
| `Crc32c.OneByteDetected` | src/hash/crc32.c:111-124 | buffers of equal length that differ in one byte have different checksums |
| `PbRoundTrip.DecodeBack` | src/pb/cuttle-pb.c:769-819 | decoding an encoding succeeds, consumes every byte and lays the message over the target, for every message, every target and every two schemas that agree on shared tags |
| `PbRoundTrip.ValueSkipped` | src/nanopb/pb_decode.c:230-286 | pb_skip_field consumes exactly one value of any type the encoder emits |
| `PbRoundTrip.PackedBack` | src/pb/cuttle-pb.c:609-640 | the packed body of an array decodes to the array |
| `PbMeaning.ShowsIffReady` | src/pb/cuttle-pb.c:534-668 | the target afterwards shows the message if and only if it was ready for it: unset flags, empty arrays, also in the memory of array elements |
| `PbTheorems.DecodeShowsIffReady` | src/pb/cuttle-pb.c:785-819 | decoding with another schema shows exactly the shared fields, if and only if the storage was ready |
| `PbTheorems.Compatible` | src/pb/cuttle-pb.c:785-819 | forward and backward compatibility into blank storage, whatever malloc returns at each place, when messages inside arrays set all their optional fields and unions |
| `PbTheorems.RoundTrip` | src/pb/cuttle-pb.c:769-819 | decode(encode(m)) shows m, and encodes to the same bytes again |
| `PbTheorems.EncodeSame` | src/pb/cuttle-pb.c:769-782 | storage that shows a message encodes to the bytes of that message |
| `PbTheorems.SoundReady` | src/pb/cuttle-pb.c:647-661 | the condition on messages that makes any memory of array elements ready |
| `PbExact.ComesThroughIffSound` | src/pb/cuttle-pb.c:609-668 | a message comes through into blank storage for all contents of malloc's memory, which may differ from array to array and element to element, if and only if every message inside its arrays sets its optional fields and unions and has no empty or unpacked array |
| `PbExact.CulpritSpoils` | src/pb/cuttle-pb.c:647-661 | a message that does not meet this names a field, and memory that has it set is not ready |
| `PbWire.VarintIs` | src/nanopb/pb_encode.c:416-435 | varints are base 128, with a top bit on every byte but the last, and no longer than needed |
| `PbWire.ZigZagBack` | src/nanopb/pb_encode.c:438-447 | zigzag coding of signed numbers is undone exactly |
| `PbCodec.NumBack` | src/pb/cuttle-pb.c:91-238 | every number in the range of its C type is read back, and exactly its bytes are consumed |
| `PbLayout.MessageIs` | src/pb/cuttle-pb.c:36-605 | what the encoder puts out for every schema and message, type by type and without its own tables: the key of each field with its wire type, zigzag varints for signed integers, four or eight bytes lowest first, lengths, one field for arrays of the eight packed types and one per element for the others |
| `PbLayout.FieldIs` | src/pb/cuttle-pb.c:529-706 | the same for one field and its storage |
| `PbLayout.VarintTaken` | src/pb/cuttle-pb.c:97-208 | which varints each type takes, and as which number |
| `PbLayout.FixedTaken` | src/pb/cuttle-pb.c:157-238 | types of fixed width take exactly their bytes, and nothing cut off |
| `PbLayout.OtherKindRefused` | src/pb/cuttle-pb.c:709-755 | a field that is not an array is refused behind a key of another wire type |
| `PbLayout.ZeroEnds` | src/nanopb/pb_decode.c:250-274 | a zero in place of a key ends a message and must be its last byte |
| `PbLayout.BytesTaken` | src/pb/cuttle-pb.c:251-338 | strings are taken up to their first zero, byte buffers of up to 65536 bytes as they are |
| `PbTheorems.UnsetElementFieldSpoils` | src/pb/cuttle-pb.c:647-661 | otherwise it fails: an array element that leaves an optional field unset comes back with it set if its memory had it set |
| `PbPacked.AcceptedIff` | src/pb/cuttle-pb.c:609-640 | a packed body is accepted if and only if it consists of whole elements in range, followed by nothing, by at most ten continuation bytes cut off by the end, or by one last varint that is out of range |
| `PbPacked.ArrayAcceptedIff` | src/pb/cuttle-pb.c:609-640 | so is a packed array field, and the array then holds the whole elements alone |
| `PbPacked.FixedIsWhole` | src/pb/cuttle-pb.c:609-640 | a partial element of fixed width is never accepted |
| `PbPacked.LastElementsLost` | src/pb/cuttle-pb.c:627-640 | the uint32 bodies 05 80 and 05 80 80 80 80 10 both decode to the one element 5 |
| `PbOutput.VarintBytes` | src/nanopb/pb_encode.c:416-435 | the loop produces the groups of the number, lowest first |
| `PbOutput.OStream.Write` | src/nanopb/pb_encode.c:89-107 | counts, and writes if there is room; fails exactly when there is none |
| `PbOutput.OStream.EncodeVarint` | src/nanopb/pb_encode.c:416-435 | puts out the varint, or fails exactly when it does not fit |
| `PbOutput.EncodeSubmessage` | src/pb/cuttle-pb.c:344-400 | sizing pass, size and writing pass together put out the delimited message; the size never differs between the passes |
| `PbOutput.EncodeArray` | src/pb/cuttle-pb.c:534-605 | packed and unpacked arrays, with the announced size always the written one |
| `PbOutput.EncodeMessage` | src/pb/cuttle-pb.c:769-782 | puts out the encoding on a sizing or a writing stream, and fails exactly when it does not fit |
| `PbOutput.EncodedSize` | src/pb/cuttle-pb.c:758-766 | the size is that of the encoding |
| `PbOutput.Pack` | src/pb/cuttle-pb.c:826-855 | the writing pass fills the buffer of the computed size exactly and reports no error; an empty message yields no buffer |
| `PbInput.IStream.DecodeGroups` | src/nanopb/pb_decode.c:172-228 | the varint loops read at most ten, or five, groups into a register of 64, or 32, bits |
| `PbInput.IStream.DecodeTag` | src/nanopb/pb_decode.c:250-274 | reads a tag, and says where the stream stands if there is none |
| `PbInput.IStream.Skip` | src/nanopb/pb_decode.c:276-286 | skips one value by wire type |
| `PbInput.IStream.MakeSubstream` | src/nanopb/pb_decode.c:321-334 | splits off a length-delimited substream |
| `PbInput.DecodeNum` | src/pb/cuttle-pb.c:97-238 | decoders of numeric types with their range checks |
| `PbInput.DecodePacked` | src/pb/cuttle-pb.c:609-640 | reads a packed array, which ends with the first element that does not decode |
| `PbInput.DecodeMessage` | src/pb/cuttle-pb.c:785-819 | the decode loop computes the specification function and on success leaves nothing unread |
| `PbInput.Unpack` | src/pb/cuttle-pb.c:857-865 | decodes a whole buffer |
| `DnsPermutor.Inverse` | src/dns/dns.c:582-617 | E and D are inverse to each other on all blocks |
| `DnsPermutor.CipherEnumerates` | src/dns/dns.c:582-597 | as a function of the counter, the cipher runs through its whole domain, over and over |
| `DnsPermutor.CipherPeriod` | src/dns/dns.c:620-628 | the wrap of the 32-bit counter does not disturb this |
| `DnsQueryIds.PowOf` | src/dns/dns.c:534-541 | the least exponent whose power of two reaches n |
| `DnsQueryIds.Permutor.Encrypt` | src/dns/dns.c:582-597 | the rounds over two alternating cells compute E |
| `DnsQueryIds.Permutor.Decrypt` | src/dns/dns.c:602-617 | the rounds backwards compute D |
| `DnsQueryIds.Permutor.Step` | src/dns/dns.c:620-628 | the retry loop ends, at the next counter value whose cipher text lies in the range |
| `DnsQueryIds.StepTakesNext` | src/dns/dns.c:620-628 | each call yields the next element of the result sequence, across the wrap of the counter |
| `DnsQueryIds.ResultsArePermutation` | src/dns/dns.c:543-628 | from any counter value on, as many consecutive results as the range is long are, counted from its lower end, pairwise different and cover the range |
| `DnsQueryIds.DrawAll` | src/dns/dns.c:620-628 | length calls of dns_k_permutor_step, from any counter value, return exactly the numbers low..high, each once |
| `DnsKnownAnswers.CipherIsFeistel` | src/dns/dns.c:582-597 | the cipher is a Feistel network: each new half is the one before last with the round function of round number and last half added |
| `DnsKnownAnswers.RoundAnswer` | src/dns/dns.c:566-579 | the round function on a block of round number and half |
| `DnsKnownAnswers.TeaAnswer` | src/dns/dns.c:484-505 | TEA with 32 cycles gives its published answer 0x41EA3A0A to a zero block under a zero key |
| `DnsPacket.MemoIsRecount` | src/dns/dns.c:2613-2641 | on any studied packet the memo branch of dns_rr_section and the recount give the same section at every record start |
| `DnsPacket.RangesAreRuns` | src/dns/dns.c:1912-1958 | the four memorised ranges are consecutive runs of records of the counted lengths |
| `DnsMemo.MemoIsStudy` | src/dns/dns.c:1743-1859 | after any pushes, refused ones included, the memo equals what dns_p_study computes from the bytes, once a push has succeeded, and is blank before |
| `DnsMemo.FreshMemoIsStudy` | src/dns/dns.c:1743-1859 | the same for every packet made by pushes from an initialised one |
| `DnsPushed.PushIsRead` | src/dns/dns.c:1743-1859 | parsing the packet where it ended before a successful push gives the name, type, class, ttl and data of the pushed record, the ttl cut to 2^31 - 1 except for OPT |
| `DnsPushed.PacketIsRead` | src/dns/dns.c:2518-2610 | after any pushes, refused ones included, the packet has exactly the records of those that succeeded, and record k is read as the k-th of them |
| `DnsPushed.PushAdds` | src/dns/dns.c:1743-1859 | a push leaves the bytes before as they are and adds one to exactly the count of its section |
| `DnsPushed.PushedIff` | src/dns/dns.c:1743-1859 | a push succeeds if and only if name and data can be written, no section behind has records, and the record fits |
| `DnsPushed.RefusedWhy` | src/dns/dns.c:1743-1859 | otherwise the error names the first obstacle, the order of sections last |
| `DnsMemo.PushKeeps` | src/dns/dns.c:1743-1859 | a successful push adds exactly one record behind the others and keeps memo, counts and bytes in agreement |
| `DnsBuild.StudyIs` | src/dns/dns.c:1925-1962 | studying a packet made of records finds their bounds and the first OPT record of the additional section |
| `DnsOrder.OptIsFirst` | src/dns/dns.c:1925-1962 | on any packet the study remembers the first OPT record of the additional section with its class and ttl |
| `DnsOrder.SkippedIsName` | src/dns/dns.c:2325-2359 | what is stepped over as a name is one; reserved label types and cut-off labels lead to the end |
| `DnsOrder.UnparsedIsLast` | src/dns/dns.c:2518-2610 | a record that cannot be parsed ends the walk |
| `DnsOrder.ParsedEnds` | src/dns/dns.c:2518-2610 | one that can ends where its data end |
| `DnsBuild.RecScanned` | src/dns/dns.c:2518-2610 | a record in its place is parsed as what it is and stepped over exactly |
| `DnsPacketObject.PacketObject.SkipName` | src/dns/dns.c:2325-2359 | the loop computes the position behind a name |
| `DnsPacketObject.PacketObject.QuestionEnd` | src/dns/dns.c:1550-1572 | the end of the question section |
| `DnsPacketObject.PacketObject.SkipRecord` | src/dns/dns.c:2578-2610 | the position behind a record |
| `DnsPacketObject.PacketObject.FindSection` | src/dns/dns.c:2613-2641 | memo lookup, then recount |
| `DnsPacketObject.PacketObject.Study` | src/dns/dns.c:1912-1962 | the loops compute the four ranges and the OPT memo |
| `DnsPacketObject.PacketObject.Push` | src/dns/dns.c:1743-1859 | the packet becomes what the model's push makes of it, or stays as it was |
| `DnsShuffle.ShuffleInjective` | src/dns/dns.c:643-691 | different 16-bit numbers are shuffled to different ones, for every seed |
| `DnsShuffle.UnboxSbox` | src/dns/dns.c:644-676 | the substitution box is one-to-one |
| `DnsShuffle.Shuffle16` | src/dns/dns.c:677-691 | the loop computes the rounds |
| `DnsKnownAnswers.BoxInverts` | src/dns/dns.c:644-676 | the substitution box is that of AES (FIPS 197): the affine map of inverses in the field |
| `DnsKnownAnswers.ShuffleAnswer` | src/dns/dns.c:677-691 | 0x1234 with seed 0xDEADBEEF is shuffled to 0x1ED3 |
| `NextInOrder.WalkIsExact` | src/dns/dns.c:2806-2858 | picking the next larger key again and again visits every element exactly once, in order |
| `DnsRecords.RecordIterator.Start` | src/dns/dns.c:2754-2803 | finds the first match in the order asked for |
| `DnsRecords.RecordIterator.SkipFrom` | src/dns/dns.c:2806-2858 | finds the match with the next larger key, or the end |
| `DnsRecords.RecordIterator.Grep` | src/dns/dns.c:2912-2947 | returns the next lim of the remaining matches and leaves the rest |
| `DnsIteration.StartLosesNothing` | src/dns/dns.c:2754-2770 | starting at a section remembered by the memo skips no match |
| `DnsIteration.HitsAreRecords` | src/dns/dns.c:2754-2790 | the matches are exactly the record starts that match |
| `DnsIteration.PacketOrderIsExact` | src/dns/dns.c:2861-2866 | in packet order each matching record comes exactly once, by position, on any packet with blank or studied memo |
| `DnsIteration.ShuffledOrderIsExact` | src/dns/dns.c:2884-2897 | in shuffled order likewise, section by section, by dns_k_shuffle16 with any seed |
| `DnsIteration.Iterate` | src/dns/dns.c:2912-2947 | iterating in portions of any size delivers exactly that |
| `DnsOrder.DeliveredAsked` | src/dns/dns.c:2716-2803 | record k is delivered if and only if it can be parsed, its number lies in a section asked for, and it passes the other checks, with a blank memo or a studied one |
| `DnsOrder.ShuffledOrder` | src/dns/dns.c:2884-2897 | in shuffled order records of different sections come in the order of the packet, those of one section in the order of dns_k_shuffle16 |
| `DnsHints.Start` | src/dns/dns.c:5812-5823 | the index with the least key |
| `DnsHints.Skip` | src/dns/dns.c:5826-5850 | the index with the next larger key, or the count |
| `DnsHints.VisitAll` | src/dns/dns.c:5802-5890 | iterating until there is no more visits every address exactly once, by priority, for any seed |
| `DnsNames.LabelSound` | src/dns/dns.c:2043-2087 | following pointers from a sound position leads to a position that is sound for a bound no larger, and later unless the bound went down |
| `DnsNameWriter.NameWriter.SearchEntry` | src/dns/dns.c:2285-2307 | the search along an earlier name ends, and finds what the specification of the search finds, stale labels included |
| `DnsNameWriter.NameWriter.PushName` | src/dns/dns.c:2234-2322 | the name is written as the search over data, dictionary and labels decides: whole, or some labels and a pointer to a sound position strictly below it; it is refused exactly if it does not fit, and the dictionary becomes what dns_p_dictadd makes of it; a name whose labels are clean spells them |
| `DnsNameWriter.NameWriter.Compare` | src/dns/dns.c:2293-2296 | the loop over two names stops at the labels the specification says |
| `DnsCompress.CompareSpells` | src/dns/dns.c:2293-2299 | a comparison that begins with the right labels and runs to the end of both names proves them the same |
| `DnsCompress.SpelledIffRight` | src/dns/dns.c:2285-2313 | what was written, if it can be expanded, spells the labels pushed if and only if it holds no pointer or the label at its target is like the label the pointer stands for |
| `DnsCompress.CleanIsRight` | src/dns/dns.c:2285-2307 | for one label: the match is right whenever no position looked at before it begins with a label like the one looked for |
| `DnsCompress.CleanIsSpelled` | src/dns/dns.c:2234-2322 | what a caller can tell before the push: if no label of the name is like the label at a position looked at in vain before its match, the written name, if it can be expanded, spells the labels |
| `DnsReuse.EndIsReused` | src/dns/dns.c:2278-2313 | a name whose end already stands in the packet at a position along an entry is not written again from there on, if the scan is clean |
| `DnsReuse.MatchIff` | src/dns/dns.c:2293-2299 | a position matches if and only if what it spells is the same as what is looked for, and a pointer can reach it |
| `DnsReuse.PointedIsEntered` | src/dns/dns.c:1711-1740 | a name that keeps labels in front of a pointer to an entry takes its place in the dictionary; one that is a pointer only, or points elsewhere, takes the next free place |
| `DnsReuse.WholeIsEntered` | src/dns/dns.c:1711-1740 | a name written whole takes the next free place of 16 |
| `DnsStaleLabel.ThirdIsWrong` | src/dns/dns.c:2289-2310 | otherwise it can fail: with a.x and b.b in the dictionary the search for a.b chooses the position of b.b |
| `DnsStaleLabel.WritesWrong` | src/dns/dns.c:2234-2322 | pushing questions for a.x, b.b and a.b behind a header writes the third name as a pointer to 21, which spells b.b |
| `DnsNameWriter.NameWriter.DictAdd` | src/dns/dns.c:1711-1740 | the name takes the place of the entry its pointer leads to, or else the first free place, if there is one; entries stay starts of names |
| `DnsNameWriter.NameWriter.Expand` | src/dns/dns.c:2364-2440 | expanding any name of the packet ends, with the labels it spells, and fails exactly on too many pointers in a row |
| `DnsReuse.ChainLimit` | src/dns/dns.c:2364-2440 | pointers that follow each other directly are followed up to the limit and not beyond |
| `DnsNames.SpellFlat` | src/dns/dns.c:2234-2277 | an uncompressed name spells its labels |
| `DnsCompress.WrittenIsName` | src/dns/dns.c:2443-2460 | what is written is a name in the sense that pushed records need |
| `DnsResolver.StackDiscipline` | src/dns/dns.c:7252-7759 | in every run, through failures and re-entries: sp stays in 0..7, frames below the top wait in RESOLV1_NS, CNAME1_A or SMART1_A, the last only in frame 0, and frames that merge or extend an answer, finish or are done have one |
| `DnsResolver.ResumesAsLeft` | src/dns/dns.c:7734-7741 | a waiting frame resumes exactly as it was left, and then its child has an answer |
| `DnsResolver.MovesAlong` | src/dns/dns.c:7252-7759 | a frame moves along the edges of the state graph only |
| `DnsResolver.CanMove` | src/dns/dns.c:7252-7759 | and along each of them in some surroundings |
| `DnsResolver.ChildReturns` | src/dns/dns.c:7734-7741 | a frame that starts another gets its turn again, in the state in which it waits and with the answer of the other at hand |
| `DnsResolver.StackMoves` | src/dns/dns.c:7252-7759 | a step changes sp by at most one, up only into a waiting state, down only from a frame that is done with an answer |
| `DnsResolver.DoneIsFinal` | src/dns/dns.c:7734-7741 | the frame at the bottom is never popped |
| `CothreadMonitor.MutualExclusion` | src/cothread/co-scheduler.c:1142-1182 | never two participants hold the lock |
| `CothreadMonitor.WaitReturnsSignalled` | src/cothread/co-scheduler.c:1282-1360 | a wait returns only to the owner, and an untimed one only after a signal sent since it was queued |
| `CothreadMonitor.BroadcastReachesAll` | src/cothread/co-scheduler.c:1222-1265 | whoever waits since before a broadcast is marked and leaves its wait loop when it runs next |
| `CothreadWakeups.SignalWakesFirst` | src/cothread/co-scheduler.c:1222-1265 | in every run a signal marks the first entry that waits and changes nothing else, and that participant leaves its wait loop when it runs next |
| `CothreadWakeups.FirstIsOldest` | src/cothread/co-scheduler.c:1282-1360 | and that entry is the one that has waited longest |
| `CothreadWakeups.ReleaseLetsIn` | src/cothread/co-scheduler.c:1142-1222 | unlocking or waiting lets in whoever asks next, and then none of its entries is left and those of the others are untouched |
| `CothreadWakeups.HeldKeepsOut` | src/cothread/co-scheduler.c:1142-1182 | while the lock is held, whoever asks goes on waiting for it |
| `CothreadWakeups.WaitStays` | src/cothread/co-scheduler.c:1282-1360 | a wait is queued behind all others and stays until it is marked or its time is up |
| `CothreadWakeups.TimeIsUp` | src/cothread/co-scheduler.c:1282-1360 | a timed wait ends when its time is up, and says that it was not signalled |
| `CothreadMonitor.SignalInternal` | src/cothread/co-scheduler.c:1240-1254 | the loop marks all waiters or the first, and counts them |
| `CothreadReadyScan.Core.WalkWaitersList` | src/cothread/co-scheduler.c:615-684 | returns each ready coroutine once, all of them if fewer than ccmax, never more than ccmax, clears all marks, and says how long to sleep; gives up exactly at the first waiter with neither an event nor a time to wait for |
| `CothreadReadyScan.SleepIsLeast` | src/cothread/co-scheduler.c:626-668 | that time is 0 exactly after a yield and otherwise the least remaining time |
| `CothreadReadyScan.PassedIs` | src/cothread/co-scheduler.c:588-684 | what passing a waiter does to it: the yield is over, or it is told all its events and keeps those it did not ask for, or nothing |
| `CothreadReadyScan.ReportedOnce` | src/cothread/co-scheduler.c:588-684 | an event is reported once, and a yield only puts off what is ready |
| `CothreadQueue.WaiterQueue.Queue` | src/cothread/co-scheduler.c:149-185 | the linked queue of waiters grows by one at its end |
| `CothreadQueue.WaiterQueue.Dequeue` | src/cothread/co-scheduler.c:187-223 | exactly that waiter leaves the queue, from any place |
| `PooledList.Ring.Push` | include/cuttle/ccfifo.h:58-77 | appends unless full |
| `PooledList.Ring.Pop` | include/cuttle/ccfifo.h:79-95 | removes the oldest element unless empty |
| `PooledList.List.PushBack` | include/cuttle/cclist.h:81-130 | appends the item, or fails exactly when all blocks are used; list and free blocks stay a partition of the pool |
| `PooledList.List.Erase` | include/cuttle/cclist.h:173-198 | removes exactly that node and frees its block |
| `PooledList.List.Walks` | include/cuttle/cclist.h:81-198 | walking forward gives the items in order, walking backward in reverse |
| `PooledList.List.constructor` | include/cuttle/ccheap.h:26-50 | all blocks start free |
| `CorpcEndpoint.Decide` | src/corpc/corpc-channel.c:613-712 | support for the step system: a request is served exactly if lookup, stream table and thread start all succeed, and a refusal never carries the status ok |
| `CorpcEndpoint.Channel.FindStreamBySid` | src/corpc/corpc-channel.c:502-511 | support for the step system: the loop finds the first stream with that 16-bit id |
| `CorpcEndpoint.Channel.CreateNewStream` | src/corpc/corpc-channel.c:1158-1185 | support for the step system: registers a fresh stream, or fails exactly when the table is full |
| `CorpcEndpoint.Channel.AcceptStream` | src/corpc/corpc-channel.c:513-553 | support for the step system: registers the peer's stream with its id and credit, or fails exactly when the table is full |
| `CorpcEndpoint.Channel.OnCreateStreamRequest` | src/corpc/corpc-channel.c:613-712 | support for the step system: does to the channel what the step of the protocol model does |
| `CorpcEndpoint.Channel.OnCreateStreamResponse` | src/corpc/corpc-channel.c:715-773 | support for the step system: establishes or refuses the opening stream; an unknown stream or a protocol error takes the channel down |
| `CorpcEndpoint.Channel.OnCloseStreamNotify` | src/corpc/corpc-channel.c:775-787 | support for the step system: marks the stream closed by its peer |
| `CorpcEndpoint.Channel.OnDataMessage` | src/corpc/corpc-channel.c:789-816 | support for the step system: queues the payload on the addressed stream; a full ring or an unknown stream takes the channel down |
| `CorpcEndpoint.Channel.OnDataAck` | src/corpc/corpc-channel.c:818-832 | support for the step system: gives one credit back |
| `CorpcEndpoint.Channel.TryAcquire` | src/corpc/corpc-channel.c:115-151 | support for the step system: one pass of the wait loop takes the lock exactly if channel and stream are established, the lock is free and there is credit |
| `CorpcEndpoint.Channel.FinishSend` | src/corpc/corpc-channel.c:394-410 | support for the step system: sends, then debits, then unlocks |
| `CorpcEndpoint.Channel.PopMessage` | src/corpc/corpc-channel.c:1230-1261 | support for the step system: pops the head of the queue and says whether an acknowledgement is due |
| `CorpcEndpoint.Channel.EraseStream` | src/corpc/corpc-channel.c:1356-1366 | support for the step system: exactly that stream leaves the table |
| `PbTheorems.GuideScalars` | src/pb/cuttle-pb.c:529-532 | support for the encoding: the scalar examples of the Protocol Buffers encoding guide come out byte for byte |
| `PbTheorems.GuideNested` | src/pb/cuttle-pb.c:344-400 | support for the encoding: so does the example of a nested message |
| `CothreadMonitor.SignalsByOwner` | src/cothread/co-scheduler.c:1042-1070 | support for WaitReturnsSignalled: signals are sent by the owner of the lock |

## Left out

- Sockets, epoll, SSL, coroutine switching, memory allocation failures, logging and time sources.
- Channel reference counting and the stream's own life cycle functions in `src/corpc/corpc-channel.c`.
- CorpcEndpoint.Channel.OnDataMessage: for data to a stream that is not registered the channel goes down; the null pointer the code passes on there is not modelled.
- A service thread that closes its stream before on_create_stream_request has finished.
- Create requests shorter than their fixed part, or with names that overrun the payload, are refused when received in the frame model; the code leaves this to its handler.
- A user who closes a stream that one of its own reads or writes is still using.
- Payloads of more than 65524 bytes in the two-endpoint step system; that they do not arrive as sent is `CorpcFrames.RecvSentOnlyIf`.
- Partial sends in the two-endpoint step system; they are covered for the byte stream in `CorpcWriters`.
- Big-endian hosts in the checksum and frame model.
- The memory layout of messages: a message is a value with one slot per field, the union of a oneof group has one flag per member of which at most one is set, and reused union memory is arbitrary.
- `src/nanopb` callbacks, extensions and its own pb_encode and pb_decode.
- Field tables whose arrays carry a has-flag; the generator does not produce them.
- The text form of names in dns_d_comp: names enter as lists of labels of 1..63 bytes.
- Pushes refused after a name was written leave dictionary entries behind that point past the end; name compression is covered for packets built by successful pushes.
- The two length bytes of resource data are taken to hold their final value from the start; no name reads them.
- The order dns_rr_i_order and the resolver's name server order, which are not total orders.
- Contents of packets in the resolver model, and its query packets.
- Counting guarantees of co_thread_signal: two signals may mark the same waiter.
- The waiter queue in the step system of the monitor and the waiter list of the scan are sequences; that the linked forms behave like sequences is stated separately, in `CothreadQueue` and `PooledList`.
- cclist_insert, cclist_push in the middle of a list, ccfifo_peek by index, ccarray_push_front.
- resolv.conf, nsswitch and hosts files, DNS text printing, the protoc plugin, pg, ssl, x509 and android code, hexbits, djb2 and sdbm.
