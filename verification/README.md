# Verified model of the BACnet/IP stack

A Dafny model of the parts of this BACnet/IP stack (ASHRAE 135) whose correctness is hardest to see
from one function: the wire codec, the server's change-of-value (COV) engine, the command priority
array, and the client's device session. `dafny verify dfyconfig.toml` checks all of it.

Each part has a specification in pure functions, what the standard or the documentation promises
proved as lemmas about it, and the working code - buffers, tables, rings, jobs - as methods and
classes proved to do what those functions say.

| files | part |
|---|---|
| `BacnetTypes`, `ByteOrder`, `WrappingClock` | machine integers and values, bytes and bits, the 32-bit millisecond clock |
| `ApplicationValue`, `ContextTag`, `Framing` | value, context-tag and packet grammars (clause 20 and Annex J), and their round trips |
| `ValueCodec`, `PropertyCodec`, `CovCodec`, `DiscoveryMessages` | builders and parsers working in place on buffers |
| `PropertyMessages`, `CovMessages`, `IdentifierLists`, `WireFormat` | message formats and round trips; lists that are kept as text; the messages byte for byte |
| `CovEngine`, `CovServer` | the COV engine as pure steps, and as a class over arrays that refines them |
| `CovRegistry`, `CovHistory`, `CovGuarantees`, `CovTiming` | the table as a bounded map; whole runs against an observer; when a sweep sends, retry bounds, and how early and how late it sends |
| `CovExchange`, `CovInvokeIds`, `CovIdClash` | client and server COV sides joined through their packets; invoke ids over whole runs, and when they clash |
| `CommandPriority`, `CommandableOutput`, `PriorityArrayView` | the 16 slots, the object with its callbacks, and both as seen over the wire |
| `ReadStatus`, `ScanMachine`, `ScanRuns` | grading of replies; the object-list scan as a machine, and what its runs compute |
| `PropertyCache`, `SessionWire`, `DeviceSession`, `RoundRobin` | the cache ring; what passes between session and network; session, jobs and subscriptions over one transaction at a time, and whose turn it is |
| `CovInbox`, `CovTraffic` | the session's queue of notifications; where every notification of a run ends up |
| `SubscriptionEvents`, `SessionLifecycle` | what a subscription's callback hears; client programs as arbitrary sequences of calls |

## How to read it

* A parser method returns what the corresponding `Parse...` function returns (`Agrees`), on every
  buffer; a builder method leaves exactly the bytes of the corresponding format function in front of
  its offset. Round trips are lemmas about the functions and so hold for the methods.
* The network is nondeterministic. In the server, whether a send succeeds and what objects read are
  inputs of a step. In the session, replies, notifications and send failures are chosen arbitrarily
  (`:= *`) by the few methods that stand for the network, which write down in the ghost fields
  `wire` and `arrivals` what they chose; every other contract says what becomes of what stands there.
* Time is a natural number seen modulo 2^32. REAL values are 32-bit patterns on the wire and numbers
  in the COV engine, where rounding and NaN are not the point; `CovExchange` takes the
  correspondence as a parameter. The priority array is generic in its value type.
* Table sizes are symbolic, so nothing is settled by enumeration.
* In the source the scan's steps are private methods of the session that take the job as a
  parameter, and so they are here.

## What the code does differently from what one might expect

Each of these is proved, and nearly all as an exact condition.

* A lifetime above 2147483 s can be judged expired before its time: its milliseconds no longer fit
  half the clock (`WrappingClock.LifetimeJudgedIff`).
* `numberOfApduRetries` above 255 is no bound: the 8-bit counter wraps before it meets the limit, so an
  unanswered notification can be retransmitted more often than configured (`CovGuarantees.RetriesBoundedIff`).
* Without a clock, a slot whose send has failed once is never tried again, because its back-off never
  ends (`CovTiming.NoClockNoRetry`).
* A retransmission loses signed numbers, texts, object ids and lists, which the snapshot does not
  keep; it repeats every other value (`CovHistory.RetransmissionKeepsValueIff`). For the same reason a
  subscription to such a value notifies on every sweep (`CovGuarantees.ChangeDetectedIff`).
* An object type above 1023 is silently truncated by requests that do not check it
  (`PropertyMessages.ReadPropertyRequestRoundTripIff`).
* A bit string with bits set beyond its count, and an unindexed Object_List or Property_List, are not
  read back as written (`ApplicationValue.FaithfulIff`).
* The text of a list holds 511 characters. A longer Property_List is refused; a longer Object_List
  is taken with its last object cut off if the others fit, and refused otherwise
  (`IdentifierLists.PropertyListAcceptedIff`, `IdentifierLists.ObjectListAcceptedIff`).
* Some buffer lengths pass a builder's first check although the longest requests need a few bytes more
  (`PropertyCodec.OverrunWindows`, `CovCodec.OverrunIff`). The stack's own buffers are far larger.
* Of a confirmed notification whose header ends after three bytes, one byte behind the packet is read;
  the packet is refused whatever it is (`CovMessages.ByteBeyondIsHarmless`).
* A property subscription with large numbers does not fit the client's 40-byte buffer and cannot be
  sent (`CovCodec.SubscribeFitsClientBufferIff`).
* A scan whose count is acknowledged with something that is no number fails, yet reports the count as
  acknowledged (`ScanRuns.FailedCountStatusIff`, `DeviceSession.FailedJobCountIff`).
* Change-of-value service is renewed exactly at its end, not before, when `covRenewBeforeSeconds` is 0 or
  not below the lifetime (`DeviceSession.RenewalIsBeforeEndIff`).
* A fallback interval above 2^31 ms is over at once, and a retry time above 2147483 s can be judged over early
  (`DeviceSession.ReadsInTimeIff`, `DeviceSession.RetryIsAheadIff`).
* A notification that two subscriptions of a session want goes to the one polled first; that can happen
  if and only if they watch the same object (`CovInbox.NotificationSharedIff`, `CovTraffic.RunConserves`).
* A confirmed notification that cannot be acknowledged is queued again behind newer ones, so an older
  value can replace a newer one (`CovTraffic.RefusalReorders`); it happens exactly when something else
  waits behind it for the same subscription (`CovTraffic.AlwaysInOrderIff`).
* A NaN is never equal to itself, so a subscription tells its callback of it again at every read
  (`SubscriptionEvents.RepeatedValueIsToldIff`).
* An acknowledgement can settle the wrong slot of the server: an earlier slot of the same peer that has
  waited while the 255 invoke ids went round takes it. This can happen in every configuration except
  one with a clock, an APDU timeout of 0 and no retries (`CovIdClash.AcksAlwaysFindSlotsIff`).
* Polling an array of subscriptions during an object-list scan moves the round-robin position although
  nothing is started (`DeviceSession.Session.StartInTurn`).
* A refresh requested while change-of-value service is active is not due before the renewal time, and
  is not read as long as the service lasts (`DeviceSession.Subscription.RequestRefresh`,
  `DeviceSession.Session.StartNext`).

## Model

| member | source | states |
|---|---|---|
| `ByteOrder.BytesRoundTrip` | src/core/protocol/BacnetProtocol.cpp:44-65 | big-endian bytes of any number that fits read back as that number |
| `ByteOrder.BitsRoundTripIff` | src/core/protocol/BacnetProtocol.cpp:364-415 | a bit string reads back as the same word if and only if no bit is set beyond its count |
| `ByteOrder.PackedBitsRoundTrip` | src/core/protocol/BacnetProtocol.cpp:1754-1773 | bits packed most significant first into bytes unpack to the same bits, whatever the padding |
| `ByteOrder.ReadBigEndian` | src/core/protocol/BacnetProtocol.cpp:44-65 | the accumulate loop computes the big-endian value of exactly the bytes it is given |
| `ByteOrder.WriteBigEndian` | src/core/protocol/BacnetProtocol.cpp:672-689 | the shift loop appends exactly the big-endian bytes and leaves what is before them |
| `ApplicationValue.ObjectIdRoundTripIff` | src/core/protocol/BacnetProtocol.cpp:667-670 | an object id survives its 10+22-bit word if and only if type and instance fit |
| `ApplicationValue.SignedRoundTrip` | src/core/protocol/BacnetProtocol.cpp:303-336 | every 32-bit signed value survives its minimal-length, sign-extended form, whatever follows |
| `ApplicationValue.BitStringRoundTrip` | src/core/protocol/BacnetProtocol.cpp:364-415 | bit strings of 1 to 24 bits survive, whatever follows |
| `ApplicationValue.TextRoundTrip` | src/core/protocol/BacnetProtocol.cpp:520-540 | texts of up to 253 bytes survive both header forms, whatever follows |
| `ApplicationValue.SelfDelimiting` | src/core/protocol/BacnetProtocol.cpp:1702-1822 | decoding an encoded value followed by any bytes consumes exactly the encoding and yields the value received |
| `ApplicationValue.FaithfulIff` | src/core/protocol/BacnetProtocol.cpp:579-638 | the value read equals the value written if and only if no stray high bit is set and the property is not read as a list |
| `ApplicationValue.ReceivedIff` | src/core/protocol/BacnetProtocol.cpp:1754-1773 | a bit string with bits beyond its count is the only encodable value that changes on the way |
| `ValueCodec.EncodeApplicationValue` | src/core/protocol/BacnetProtocol.cpp:1702-1822 | the in-place encoder appends exactly the encoding, or returns 0 and leaves the buffer unchanged when the value or the room is not enough |
| `ValueCodec.ReadApplicationValue` | src/core/protocol/BacnetProtocol.cpp:579-638 | the offset-advancing parser agrees with the value grammar on every buffer, malformed ones and overlong lists included |
| `ValueCodec.ReadTagged` | src/core/protocol/BacnetProtocol.cpp:579-638 | dispatch on the application tag, each type as its grammar says |
| `ValueCodec.ReadSigned` | src/core/protocol/BacnetProtocol.cpp:303-336 | the sign-extending loop agrees with the signed grammar |
| `ValueCodec.ReadReal` | src/core/protocol/BacnetProtocol.cpp:338-362 | a REAL is accepted only with length four and yields its bit pattern |
| `ValueCodec.ReadBitString` | src/core/protocol/BacnetProtocol.cpp:364-415 | length, padding and bit loop agree with the bit-string grammar |
| `ValueCodec.ReadText` | src/core/protocol/BacnetProtocol.cpp:520-540 | character strings agree with the text grammar |
| `ValueCodec.ReadUnsupported` | src/core/protocol/BacnetProtocol.cpp:542-577 | an unknown value is skipped whole |
| `ValueCodec.AppendPieces` | src/core/protocol/BacnetProtocol.cpp:440-460 | text is appended piece by piece, up to the first piece that would exceed 511 characters |
| `ValueCodec.ReadObjectIdList` | src/core/protocol/BacnetProtocol.cpp:462-488 | the object-list loop agrees with its grammar on every buffer: it stops at the bracket or when the text is full |
| `ValueCodec.ReadPropertyIdList` | src/core/protocol/BacnetProtocol.cpp:490-518 | the property-list loop agrees with its grammar on every buffer: a text that does not fit fails |
| `IdentifierLists.ObjectListAcceptedIff` | src/core/protocol/BacnetProtocol.cpp:462-488 | a whole Object_List is taken if and only if the text of all objects but the last has at most 511 characters, and in full if and only if the whole text has |
| `IdentifierLists.PropertyListAcceptedIff` | src/core/protocol/BacnetProtocol.cpp:490-518 | a whole Property_List is taken, and then in full, if and only if its text has at most 511 characters |
| `ValueCodec.WriteBits` | src/core/protocol/BacnetProtocol.cpp:1754-1773 | clearing bytes and setting bits one at a time yields the packed bits |
| `ContextTag.ContextUnsignedRoundTrip` | src/core/protocol/BacnetProtocol.cpp:672-689 | an unsigned under a context tag reads back under that tag, whatever follows |
| `ContextTag.ContextShowsOnlyItsTag` | src/core/protocol/BacnetProtocol.cpp:67-88 | a context value shows its own tag number and no other, and its length bits are never those of an opening or closing tag |
| `ContextTag.ContextIndexRoundTrip` | src/core/protocol/BacnetProtocol.cpp:1033-1082 | an optional index reads back as written, present or absent, when the next bytes do not show its tag |
| `ContextTag.BracketedIff` | src/core/protocol/BacnetProtocol.cpp:1033-1082 | a value between its brackets reads back if and only if it is faithful |
| `ContextTag.ReadContextValue` | src/core/protocol/BacnetProtocol.cpp:67-88 | the context parser agrees with the grammar on every buffer and offset |
| `ContextTag.ReadContextReal` | src/core/protocol/BacnetProtocol.cpp:90-112 | a context REAL is accepted only with length four |
| `ContextTag.WriteContextUnsigned` | src/core/protocol/BacnetProtocol.cpp:672-689 | the writer appends exactly the context encoding |
| `Framing.ConfirmedRequestRoundTrip` | src/core/protocol/BacnetProtocol.cpp:959-987 | the header of a built confirmed request gives back invoke id, service and parameters |
| `Framing.AcknowledgementIsRecognised` | src/core/protocol/BacnetProtocol.cpp:2095-2129 | a simple acknowledgement settles exactly the notification with its invoke id and service |
| `Framing.RefusalIsRecognised` | src/core/protocol/BacnetProtocol.cpp:2095-2129 | an error ends the wait for its invoke id only when it is about a confirmed notification, a reject or abort always |
| `Framing.ReadNpduHeader` | src/core/protocol/BacnetProtocol.cpp:642-665 | skipping optional network addresses agrees with the NPDU grammar |
| `Framing.RoutedNpduOpens` | src/core/protocol/BacnetProtocol.cpp:642-665 | a message routed from and to any networks opens to its APDU |
| `Framing.ReadConfirmedHeader` | src/core/protocol/BacnetProtocol.cpp:959-987 | classifies every packet as the grammar does: malformed, unrelated or a request |
| `PropertyMessages.ReadPropertyRequestRoundTripIff` | src/core/protocol/BacnetProtocol.cpp:2304-2334 | a ReadProperty request comes back as sent if and only if the object type fits its field |
| `PropertyMessages.ReadPropertyAckAcceptedIff` | src/core/protocol/BacnetProtocol.cpp:2402-2449 | the requester takes the value if and only if invoke id, object, property and any asked index match and the value is faithful; a mismatch is rejected |
| `PropertyMessages.ReadPropertyExchange` | src/core/protocol/BacnetProtocol.cpp:989-1031 | request, parsed header, acknowledgement and value: the whole exchange yields the server's value |
| `PropertyMessages.WritePropertyRoundTripIff` | src/core/protocol/BacnetProtocol.cpp:2336-2383 | object, property, index, value and priority come back if and only if the value is faithful; priority 0 is never put on the wire |
| `PropertyMessages.PriorityArrayRoundTrip` | src/core/protocol/BacnetProtocol.cpp:2493-2537 | sixteen slots come back in order to the requester of this array, and to nobody else |
| `PropertyCodec.BuildReadPropertyRequest` | src/core/protocol/BacnetProtocol.cpp:2304-2334 | builds exactly the request, or nothing |
| `PropertyCodec.ReadReadPropertyRequest` | src/core/protocol/BacnetProtocol.cpp:989-1031 | agrees with the request grammar on every packet |
| `PropertyCodec.BuildReadPropertyAck` | src/core/protocol/BacnetProtocol.cpp:1163-1203 | builds exactly the acknowledgement, or nothing, in every buffer whose checks keep the builder inside it |
| `PropertyCodec.ReadReadPropertyAck` | src/core/protocol/BacnetProtocol.cpp:2402-2449 | agrees with the acknowledgement grammar on every packet |
| `PropertyCodec.BuildWritePropertyRequest` | src/core/protocol/BacnetProtocol.cpp:2336-2383 | builds exactly the write request, or nothing, in every such buffer |
| `PropertyCodec.ReadWritePropertyRequest` | src/core/protocol/BacnetProtocol.cpp:1033-1082 | agrees with the write grammar on every packet |
| `PropertyCodec.BuildPriorityArrayAck` | src/core/protocol/BacnetProtocol.cpp:1364-1408 | the whole array, its length or one slot, as the index asks, in every such buffer; nothing past the end |
| `PropertyCodec.OverrunWindows` | src/core/protocol/BacnetProtocol.cpp:1168-1190 | which buffer lengths pass a builder's first check although some request needs more: 20 to 23 bytes, 24, and 16 to 20 |
| `PropertyCodec.ReadPriorityArrayAck` | src/core/protocol/BacnetProtocol.cpp:2493-2537 | agrees with the array grammar: exactly sixteen values and the closing bracket |
| `CovMessages.NotificationRoundTripIff` | src/core/protocol/BacnetProtocol.cpp:1917-1986 | process id, object, every property, index and value in order, flag and invoke id come back if and only if the object type fits and every value is faithful |
| `CovMessages.LongNotificationRoundTrip` | src/core/protocol/BacnetProtocol.cpp:2158-2245 | of more values than are kept the first four are kept and the primary one is still found |
| `CovMessages.PrimaryPrefersPresentValue` | src/core/protocol/BacnetProtocol.cpp:2158-2245 | the primary value is a Present_Value whenever there is one, else the first |
| `CovMessages.SubscribeRoundTripIff` | src/core/protocol/BacnetProtocol.cpp:1084-1161 | either subscription request comes back field for field if and only if the object type fits and no negative increment is carried |
| `CovCodec.BuildCovNotification` | src/core/protocol/BacnetProtocol.cpp:1917-1986 | builds exactly the notification, or nothing, as the room checks item by item decide; required only that these keep it inside the buffer |
| `CovCodec.OverrunIff` | src/core/protocol/BacnetProtocol.cpp:1957-1978 | which item, in how much room, passes the checks without fitting: only one with an array index, within its last bytes |
| `CovCodec.RoomyBufferSuffices` | src/core/protocol/BacnetProtocol.cpp:1957-1982 | eight bytes more than the items take are always enough |
| `CovCodec.LargeBufferSuffices` | src/core/protocol/BacnetProtocol.cpp:1928-1982 | 40 bytes and 268 for each value are always enough |
| `CovCodec.ReadCovNotification` | src/core/protocol/BacnetProtocol.cpp:2158-2245 | agrees with the notification grammar on every packet, and tells whether the byte behind the packet was read, which never changes the outcome |
| `CovMessages.ByteBeyondIsHarmless` | src/core/protocol/BacnetProtocol.cpp:2176-2185 | the byte behind the packet has no influence: packets whose header is read past their end are refused whatever it is, all others do not touch it |
| `CovMessages.ReadsBeyondNeedsAddress` | src/core/protocol/BacnetProtocol.cpp:2176-2185 | only a packet of at least 20 bytes that names a remote network can be read past its end |
| `CovMessages.SourceAddressExample` | src/core/protocol/BacnetProtocol.cpp:2176-2185 | such a packet: an eight-byte source address and three bytes of a confirmed header |
| `CovCodec.ReadItems` | src/core/protocol/BacnetProtocol.cpp:2158-2245 | the property loop keeps the first four values and finds the primary one as it goes |
| `CovCodec.BuildSubscribe` | src/core/protocol/BacnetProtocol.cpp:1824-1915 | builds exactly the subscription request with invoke id 0, or nothing when the room asked for is missing |
| `CovCodec.ReadSubscribe` | src/core/protocol/BacnetProtocol.cpp:1084-1161 | agrees with the subscription grammar on every packet |
| `CovCodec.SubscribePacket` | src/core/client/BacnetClient.cpp:108-126 | what the client sends: the message with its invoke id patched in, or nothing when its buffer is too small |
| `CovCodec.SubscribeFitsClientBufferIff` | src/core/protocol/BacnetProtocol.cpp:1869-1915 | which property subscriptions fit the client's 40-byte buffer, exactly |
| `DiscoveryMessages.IAmRoundTrip` | src/core/protocol/BacnetProtocol.cpp:2247-2302 | an I-Am gives back instance, sizes, segmentation and vendor |
| `DiscoveryMessages.BuildIAm` | src/core/protocol/BacnetProtocol.cpp:1621-1680 | builds exactly the I-Am, or nothing |
| `DiscoveryMessages.ReadIAm` | src/core/protocol/BacnetProtocol.cpp:2247-2302 | agrees with the I-Am grammar on every packet |
| `WireFormat.ObjectBytes` | src/core/protocol/BacnetProtocol.cpp:667-670 | ten bits of type and 22 of instance, most significant byte first |
| `WireFormat.ValueBytes` | src/core/protocol/BacnetProtocol.cpp:1702-1822 | the application values byte for byte |
| `WireFormat.StatusFlagsBytes` | src/core/protocol/BacnetProtocol.cpp:1754-1773 | four flags from the top of one byte, after the count of four padding bits |
| `WireFormat.ReadPropertyBytes` | src/core/protocol/BacnetProtocol.cpp:2304-2334 | a ReadProperty request byte for byte |
| `WireFormat.ReadPropertyAckBytes` | src/core/protocol/BacnetProtocol.cpp:1163-1203 | its acknowledgement with a REAL, byte for byte |
| `WireFormat.WritePropertyBytes` | src/core/protocol/BacnetProtocol.cpp:2336-2383 | a WriteProperty request with a REAL, with a priority and without, byte for byte, as tests/native/client/write_property_tests.cpp:118-124 has it |
| `WireFormat.SubscribeBytes` | src/core/protocol/BacnetProtocol.cpp:1824-1867 | a SubscribeCOV request byte for byte, as tests/native/protocol/subscribe_cov_protocol_tests.cpp:36-41 has it |
| `WireFormat.SubscribePropertyBytes` | src/core/protocol/BacnetProtocol.cpp:1869-1915 | a SubscribeCOVProperty request with an increment, byte for byte |
| `WireFormat.NotificationBytes` | src/core/protocol/BacnetProtocol.cpp:1917-1986 | a notification of Present_Value and Status_Flags, confirmed or not, byte for byte, as tests/native/protocol/subscribe_cov_protocol_tests.cpp:88 has it |
| `WireFormat.IAmBytes` | src/core/protocol/BacnetProtocol.cpp:1621-1680 | an I-Am byte for byte |
| `WrappingClock.ReachedIsExact` | src/core/server/BacnetServer.cpp:2353-2356 | the signed-difference test is exact up to 2^31 ms either side |
| `WrappingClock.LifetimeJudgedIff` | src/core/server/BacnetServer.cpp:2342-2352 | expiry is judged exactly at every instant up to 2^31 ms past the end if and only if the lifetime is at most 2147483 s |
| `WrappingClock.SecondsLeftIsCeiling` | src/core/server/BacnetServer.cpp:2287-2291 | the remaining time sent is the ceiling of the time left, between 1 and the lifetime |
| `WrappingClock.RetryDeadlineIsAhead` | src/core/server/BacnetServer.cpp:2299-2318 | the back-off deadline is never the none marker, lies ahead, and is due exactly after the clamped delay, one tick later if it wrapped to zero |
| `CovEngine.FindIsInRange` | src/core/server/BacnetServer.cpp:2442-2461 | the table scan finds the slot of the key if there is one, and a free slot if there is one |
| `CovServer.Server.constructor` | src/core/server/BacnetServer.h:834-845 | an empty table, invoke ids from 1 |
| `CovServer.Server.CollectCovValues` | src/core/server/BacnetServer.cpp:2179-2212 | succeeds exactly when every watched property can be read, and then yields exactly Present_Value and Status_Flags, or exactly the subscribed property, each with what the object reads under it |
| `CovServer.Server.CovValuesChanged` | src/core/server/BacnetServer.cpp:2214-2262 | the loop over the snapshot computes the change test |
| `CovServer.Server.StoreCovValues` | src/core/server/BacnetServer.cpp:2264-2281 | exactly the slot's cells take the values over |
| `CovServer.Server.RetryValues` | src/core/server/BacnetServer.cpp:2364-2385 | rebuilds the values of a retransmission from the snapshot alone |
| `CovServer.Server.SendCovNotification` | src/core/server/BacnetServer.cpp:2283-2333 | new subscription, snapshot, back-off and next invoke id for both outcomes of the send; other slots untouched |
| `CovServer.Server.SweepOverdue` | src/core/server/BacnetServer.cpp:2357-2388 | a waiting slot waits on, retransmits or gives up |
| `CovServer.Server.SweepOne` | src/core/server/BacnetServer.cpp:2337-2401 | one slot of the sweep, as the pure step says |
| `CovServer.Server.ProcessCovSubscriptions` | src/core/server/BacnetServer.cpp:2335-2404 | the whole sweep refines the pure sweep - result, every array and everything sent - and every fresh notification carries exactly what the objects read under its slot's properties |
| `CovServer.Server.HandleAnswer` | src/core/server/BacnetServer.cpp:1719-1740 | the acknowledgement loop settles the first matching slot and nothing else |
| `CovServer.Server.HandleSubscribeCov` | src/core/server/BacnetServer.cpp:2406-2510 | the table as a map and the answer are what the request, the readings and the map alone decide, and every array is as the pure step says |
| `CovRegistry.SubscribeRefinesRegistry` | src/core/server/BacnetServer.cpp:2406-2510 | a request is answered with unknown property, out of range, no space or an acknowledgement as the readings and the map decide; acknowledged, it inserts or replaces exactly its key with the terms it asks for, or with lifetime 0 removes exactly its key; otherwise the map is as before, and no key is ever held twice |
| `CovRegistry.AcknowledgedIff` | src/core/server/BacnetServer.cpp:2406-2502 | acknowledged if and only if the property (for an object also its Status_Flags) can be read without an index, an increment is for a real Present_Value of a property subscription, and lifetime is 0, the key is held or there is room |
| `CovRegistry.SweepRefinesRegistry` | src/core/server/BacnetServer.cpp:2337-2352 | a sweep drops only expired keys, changes no contract, and drops every expired one when it reaches the end |
| `CovRegistry.SweepDropsOnlyExpired` | src/core/server/BacnetServer.cpp:2337-2352 | the same for a sweep from slot 0 |
| `CovRegistry.AnswerKeepsRegistry` | src/core/server/BacnetServer.cpp:1719-1740 | an answer leaves the map of contracts alone |
| `CovRegistry.RegistrySize` | src/core/server/BacnetServer.cpp:2442-2478 | the map never outgrows the table, and is full exactly when no slot is free |
| `CovHistory.RunIsGood` | src/core/server/BacnetServer.cpp:2335-2404 | in every run every output fits the history an observer keeps: exact remaining times and expiry, in every fresh notification exactly what the objects read under the contract's properties, opening values in retransmissions, nonzero invoke ids, no key twice, Active with a zero retry count |
| `CovHistory.StepAgrees` | src/core/server/BacnetServer.cpp:1704-1740 | one request, answer or sweep keeps the table in agreement with that history |
| `CovHistory.RetransmissionKeepsValueIff` | src/core/server/BacnetServer.cpp:2264-2281 | a retransmission repeats a value if and only if the snapshot keeps its type (or it is that type's empty value) |
| `CovHistory.RetransmissionRepeatsIff` | src/core/server/BacnetServer.cpp:2364-2385 | a retransmission equals the opening notification if and only if that holds for all its values |
| `CovGuarantees.ChangeDetectedIff` | src/core/server/BacnetServer.cpp:2214-2262 | the change test fires exactly when the value differs from the one last sent, beyond the increment for a first REAL; drift adds up |
| `CovGuarantees.SweepSendsIff` | src/core/server/BacnetServer.cpp:2335-2404 | after any run, a sweep that comes to a due and readable slot sends for it if and only if its subscriber was not last sent, property by property, what the object reads now (a first value under an increment may differ by less) |
| `CovGuarantees.SweepReports` | src/core/server/BacnetServer.cpp:2384-2404 | a sweep sends at most one notification, as the last thing it does, and reports sent, send failed or nothing exactly as that went |
| `CovGuarantees.QuietSweepMeansUpToDate` | src/core/server/BacnetServer.cpp:2335-2404 | in particular after a sweep that sends nothing every due and readable slot was last sent what its properties read now |
| `CovGuarantees.RetriesBoundedIff` | src/core/server/BacnetServer.cpp:2357-2388 | the configured retry number bounds every wait in every run if and only if it is at most 255 |
| `CovTiming.RunIsTimely` | src/core/server/BacnetServer.cpp:2299-2364 | over any run, however long the clock has run, no retransmission comes within the APDU timeout of the last delivery and nothing is sent within the back-off of a failed send |
| `CovTiming.WaitEndsIff` | src/core/server/BacnetServer.cpp:2353-2388 | after any run, a sweep that comes to a waiting slot ends its wait - retransmits below the configured number, gives up at it - if and only if the APDU timeout since the last delivery and any back-off are over |
| `CovTiming.BackOffIff` | src/core/server/BacnetServer.cpp:2299-2356 | within 2^31 ms of a failed send the slot keeps quiet exactly until the observer's deadline: the timeout, or one second, times the failures up to the limit |
| `CovTiming.OverdueIff` | src/core/server/BacnetServer.cpp:2357-2358 | within 2^32 ms of a delivery the wait is judged over exactly when the timeout has passed |
| `CovTiming.NoClockNoRetry` | src/core/server/BacnetServer.cpp:1673-1675 | without a clock a slot whose send has failed stays quiet until it is subscribed anew |
| `CovExchange.SubscriptionArrives` | src/core/server/BacnetServer.cpp:2406-2510 | from the client's packet to the map: acknowledged exactly when what it asks to observe reads, an increment is for a real Present_Value and there is room, else refused with the error that says why; then exactly the named key holds exactly the asked terms, or goes, or nothing changes |
| `CovExchange.NotificationArrives` | src/core/protocol/BacnetProtocol.cpp:2158-2245 | the client reads every value of the server's notification, in order, and its primary value |
| `CovExchange.NotifiedValueArrives` | src/core/client/BacnetDeviceSession.cpp:1626-1637 | a notification for the object and process id a subscription asked with is taken by that subscription, which gets the server's value of its property |
| `CovExchange.AcknowledgementSettles` | src/core/server/BacnetServer.cpp:1719-1740 | an acknowledgement settles the first slot that waits for it, and is ignored when none does |
| `CovExchange.AnswerSettlesFirst` | src/core/server/BacnetServer.cpp:1719-1750 | any packet ends the wait of the first slot it answers, dated if it is an acknowledgement, and changes nothing else or nothing at all |
| `CovExchange.ConfirmedExchangeIff` | src/core/server/BacnetServer.cpp:1719-1740 | notification, acknowledgement and answer loop leave the sending slot active with no retries counted and all others unchanged if and only if no earlier slot waits for the same peer and id |
| `CovInvokeIds.RunIsCounted` | src/core/server/BacnetServer.cpp:2292-2295 | in every run the waiting slots wait for the ids of different notifications, counted from the start |
| `CovInvokeIds.SharedIdsAreRare` | src/core/server/BacnetServer.cpp:2292-2295 | two slots wait for one id only if the 255 ids went all the way round between their notifications (that it happens is a result of CovIdClash) |
| `CovInvokeIds.ConfirmedExchangeInRunIff` | src/core/server/BacnetServer.cpp:1719-1740 | in every reachable state a confirmed exchange settles exactly its slot if and only if no earlier slot of the same peer waits for a notification that had the same id |
| `CovIdClash.AcksAlwaysFindSlotsIff` | src/core/server/BacnetServer.cpp:1719-1740 | in every run the acknowledgement of a notification just sent settles its slot if and only if the configuration gives an unanswered notification up at the next sweep (a clock, no timeout, no retries) |
| `CovIdClash.RunIsPrompt` | src/core/server/BacnetServer.cpp:2357-2388 | with such a configuration nothing that waits is ever backing off |
| `CovIdClash.IdsComeRound` | src/core/server/BacnetServer.cpp:2292-2295 | with any other, a run reaches a state in which the next id is the one an earlier slot of the same peer still waits for |
| `CovIdClash.ExchangeFails` | src/core/server/BacnetServer.cpp:1719-1740 | in that state no confirmed exchange of the later slot settles it |
| `CovIdClash.WrongSlotIsSettled` | src/core/server/BacnetServer.cpp:1719-1740 | and the acknowledgement of what it sends next makes the earlier slot active while it goes on waiting |
| `CommandPriority.EffectivePriority` | src/core/objects/BacnetCommandPriority.h:29-35 | the first occupied slot counted from 1, and 0 exactly when none is occupied |
| `CommandPriority.EffectiveTogether` | src/core/objects/BacnetCommandPriority.h:19-35 | value and priority in effect belong together |
| `CommandPriority.WriteTakesEffect` | src/core/objects/BacnetCommandPriority.h:37-45 | a write at or above the priority in effect becomes the value and priority in effect |
| `CommandPriority.MaskedWrite` | src/core/objects/BacnetCommandPriority.h:37-45 | a write or relinquish below it changes neither |
| `CommandPriority.RelinquishUndoesWrite` | src/core/objects/BacnetCommandPriority.h:37-45 | relinquishing a slot that was free before the write restores value and priority in effect |
| `CommandPriority.PriorityArray.Effective` | src/core/objects/BacnetCommandPriority.h:19-35 | the loop finds value and priority in effect |
| `CommandPriority.PriorityArray.Write` | src/core/objects/BacnetCommandPriority.h:37-45 | refuses priorities outside 1 to 16 and otherwise changes exactly that slot |
| `CommandableOutput.RunIsFollowed` | src/core/server/BacnetServer.cpp:303-406 | over any run the last value handed to the hook is the value in effect, and present-value events form an unbroken chain from first to last |
| `CommandableOutput.ValueEventIff` | src/core/server/BacnetServer.cpp:867-941 | a present-value event fires exactly when someone listens and the value in effect changes, with the old and new value |
| `CommandableOutput.MaskedWriteIsSilent` | src/core/server/BacnetServer.cpp:867-941 | a masked write is stored but neither hook nor value listener hears of it |
| `CommandableOutput.CallbacksIff` | src/core/server/BacnetServer.cpp:303-406 | an accepted command fires each callback at most once, in order, exactly for those who listen and only for what has changed, and all it says of the state before and after is so; a refused one changes and fires nothing |
| `CommandableOutput.DefaultTakesEffectIff` | src/core/server/BacnetServer.cpp:380-406 | a new default becomes the value in effect exactly when no slot is occupied; the slots are as before |
| `CommandableOutput.CommandableObject.Notify` | src/core/server/BacnetServer.cpp:326-377 | the five callbacks fire in order, each under its own condition |
| `CommandableOutput.CommandableObject.ApplyPriorityValue` | src/core/server/BacnetServer.cpp:303-378 | new array state and callbacks of a priority write; refused in a callback |
| `CommandableOutput.CommandableObject.SetRelinquishDefaultValue` | src/core/server/BacnetServer.cpp:380-406 | new default and callbacks; refused in a callback |
| `CommandableOutput.CommandableObject.HandleWriteProperty` | src/core/server/BacnetServer.cpp:2027-2138 | each request is answered with the error for its index, priority, type, property or a callback in progress; otherwise exactly the named slot - slot 16 when none is named - is written or relinquished, or Out_Of_Service takes the Boolean, with the callbacks |
| `PriorityArrayView.PriorityArrayEndToEnd` | src/core/server/BacnetServer.cpp:274-301 | encoded and parsed, the slots are Null exactly where unoccupied, the first other slot or the default is the value in effect, and all are Null iff the priority in effect is 0 |
| `PriorityArrayView.BinaryPriorityArray` | src/core/server/BacnetServer.cpp:274-285 | the same for binary objects |
| `PriorityArrayView.AnalogPriorityArray` | src/core/server/BacnetServer.cpp:287-301 | the same for analog objects, as REAL patterns |
| `PriorityArrayView.SlotReadAgrees` | src/core/protocol/BacnetProtocol.cpp:1364-1408 | reading one slot by index agrees with reading the array |
| `PriorityArrayView.WriteArrives` | src/core/server/BacnetServer.cpp:2027-2138 | a client's write packet, with a priority or without, asks the server for the very command the client means |
| `PriorityArrayView.WriteThenReadBack` | src/core/server/BacnetServer.cpp:2027-2138 | write or relinquish over the wire, then read the array: the named slot, or slot 16 when none was named, as written, all others as before, and the value now in effect |
| `PriorityArrayView.BinaryWriteThenReadBack` | src/core/server/BacnetServer.cpp:2062-2101 | the same round for binary objects, which take the enumerations 0 and 1 |
| `PriorityArrayView.AnalogWriteThenReadBack` | src/core/server/BacnetServer.cpp:2062-2101 | the same round for analog objects, which take REAL patterns |
| `PriorityArrayView.DecodedIff` | src/core/server/BacnetServer.cpp:2062-2070 | a present value is taken if and only if it is an enumeration 0 or 1 for a binary object, a REAL for an analog one |
| `ReadStatus.GradesIff` | src/core/client/BacnetDeviceSession.cpp:68-107 | a reply counts as acknowledged exactly when it is an acknowledgement, and as a value exactly when it holds one |
| `ReadStatus.CausesIff` | src/core/client/BacnetDeviceSession.cpp:68-107 | each other grade has its own cause in the reply and its error codes |
| `ReadStatus.DeviceStatus` | src/core/client/BacnetDeviceSession.cpp:42-58 | the mapping never yields Skipped |
| `ScanMachine.NextDecreases` | src/core/client/BacnetDeviceSession.cpp:1263-1507 | every reply keeps the scan well formed and leaves strictly less to do |
| `ScanRuns.RunStands` | src/core/client/BacnetDeviceSession.cpp:1329-1507 | after any replies the summary is that of the replies so far, and entries are asked for in order from 1 |
| `ScanRuns.CompleteScanMeetsSpecification` | src/core/client/BacnetDeviceSession.cpp:1329-1507 | a completed scan reports the specified summary and stores the first wanted objects of the inspected prefix, in list order, for every list, filter, capacity and reply pattern |
| `ScanRuns.StoredAreRecords` | src/core/client/BacnetDeviceSession.cpp:1436-1463 | each stored record holds exactly the replies to its own property reads |
| `ScanRuns.RunReads` | src/core/client/BacnetDeviceSession.cpp:1465-1507 | a scan that completes has read of every stored object exactly the properties it was asked to |
| `ScanRuns.RequestBound` | src/core/client/BacnetDeviceSession.cpp:1465-1507 | never more requests than 1 + min(count, limit) + enabled reads x stored |
| `ScanRuns.RunsEnd` | src/core/client/BacnetDeviceSession.cpp:1263-1285 | no run is longer than the work a scan starts with |
| `ScanRuns.SkippedReplyRepeats` | src/core/client/BacnetDeviceSession.cpp:1471-1493 | a reply reported as Skipped would make the scan ask the same again |
| `ScanRuns.FailedCountStatusIff` | src/core/client/BacnetDeviceSession.cpp:1337-1350 | a run fails exactly when its first reply brings no count, then after one exchange, and reports the count as acknowledged exactly when what was acknowledged is no number |
| `PropertyCache.ResidentsAreNewest` | src/core/client/BacnetDeviceSession.cpp:1756-1782 | the resident keys are exactly the N most recently created, in order |
| `PropertyCache.KeysDistinct` | src/core/client/BacnetDeviceSession.cpp:1756-1782 | no key is resident twice |
| `PropertyCache.EntriesRemember` | src/core/client/BacnetDeviceSession.cpp:1784-1806 | an entry holds its key's latest status and the value and time of its latest success since creation, which later failures never touch; until then the value that came last |
| `PropertyCache.Cache.FindOrCreate` | src/core/client/BacnetDeviceSession.cpp:1756-1782 | the entry of the key, or a new one in place of the oldest when the ring is full |
| `PropertyCache.Cache.Update` | src/core/client/BacnetDeviceSession.cpp:1784-1806 | the ring after an attempt is the fold of the log with that attempt added |
| `PropertyCache.Cache.Lookup` | src/core/client/BacnetDeviceSession.cpp:1745-1754 | finds a key exactly when it is among the N most recently created, with what it remembers |
| `DeviceSession.Session.AllocateInvokeId` | src/core/client/BacnetDeviceSession.cpp:2205-2212 | invoke ids run from 1 to 255 and start again |
| `DeviceSession.Session.TryStartScanRead` | src/core/client/BacnetDeviceSession.cpp:1263-1285 | sends the next request and waits for it, or finishes it on the spot when the send fails and goes on; every failed send is one exchange and one cache record |
| `DeviceSession.Session.FinishScanRead` | src/core/client/BacnetDeviceSession.cpp:1329-1463 | one reply moves the job to where the machine goes, through any number of failed sends, each on the wire, in the log and in the cache, to the one request then waited for, or to the end |
| `DeviceSession.Session.CountArrived` | src/core/client/BacnetDeviceSession.cpp:1337-1363 | the count is taken over or the scan fails |
| `DeviceSession.Session.EntryArrived` | src/core/client/BacnetDeviceSession.cpp:1365-1391 | an entry is skipped, accepted, or ends the scan |
| `DeviceSession.Session.ObjectFound` | src/core/client/BacnetDeviceSession.cpp:1393-1428 | an accepted object is counted, and truncation noted when there is no room |
| `DeviceSession.Session.StoreObject` | src/core/client/BacnetDeviceSession.cpp:1421-1427 | the next free place of the buffer takes the object |
| `DeviceSession.Session.PropertyArrived` | src/core/client/BacnetDeviceSession.cpp:1436-1463 | a property reply fills the record of the current object |
| `DeviceSession.Session.AdvanceScan` | src/core/client/BacnetDeviceSession.cpp:1465-1507 | asks for the next property or entry, or completes, the index wrap included |
| `DeviceSession.Session.BeginObjectListScan` | src/core/client/BacnetDeviceSession.cpp:1139-1186 | refused when busy and then nothing changes; otherwise the job waits for the request it has just sent, or has already failed, with every failed send on record |
| `DeviceSession.Session.PollObjectListScan` | src/core/client/BacnetDeviceSession.cpp:1188-1200 | the reply that really arrived, acknowledged or not and with its value, is the next exchange and the next cache record; a timeout ends the request without a value; until then nothing changes; the job stays where its replies lead |
| `DeviceSession.Session.PollInFlightScan` | src/core/client/BacnetDeviceSession.cpp:1287-1327 | the same for whatever scan is outstanding |
| `DeviceSession.Session.CancelObjectListScan` | src/core/client/BacnetDeviceSession.cpp:1202-1210 | an unfinished scan is cancelled, keeps its results and frees its session; anything else is left alone |
| `DeviceSession.Session.BeginPropertyRead` | src/core/client/BacnetDeviceSession.cpp:1212-1241 | refused when busy and then nothing changes; otherwise the request goes out once under a fresh invoke id and is waited for exactly if it was taken, else it has failed with one cache record |
| `DeviceSession.Session.PollPropertyRead` | src/core/client/BacnetDeviceSession.cpp:1243-1252 | result, value and error codes are those of the reply that really arrived, complete exactly when the device acknowledged a value of a known type or none; a timeout fails the read; until then nothing changes |
| `DeviceSession.Session.ReadReply` | src/core/client/BacnetDeviceSession.cpp:1554-1575 | the reply that arrived becomes the result and exactly one cache record; a timeout a failed read without a value; a waiting one changes nothing and has not timed out |
| `DeviceSession.Session.FinishPropertyRead` | src/core/client/BacnetDeviceSession.cpp:1577-1593 | result, status and exactly one cache record; the session is free |
| `DeviceSession.Session.CancelPropertyRead` | src/core/client/BacnetDeviceSession.cpp:1254-1261 | an active read is cancelled and its session freed |
| `DeviceSession.Session.PollInFlight` | src/core/client/BacnetDeviceSession.cpp:930-941 | the one outstanding transaction takes over exactly what arrived for it; the session stays sound, the scan where its replies lead, the subscription valid |
| `DeviceSession.Session.PollSubscription` | src/core/client/BacnetDeviceSession.cpp:1603-1653 | asks the network for what is outstanding; on a free session it looks for one notification when served, and otherwise starts a due subscription; session sound, inbox as its polls leave it, callback informed; nothing waits past its timeout |
| `DeviceSession.Session.HearNews` | src/core/client/BacnetDeviceSession.cpp:1618-1648 | the oldest waiting or just arrived match is handed over with its own value for the property, cached with all its properties and told; a confirmed one whose acknowledgement did not go out goes back and changes nothing else |
| `DeviceSession.Session.PollSubscriptions` | src/core/client/BacnetDeviceSession.cpp:1655-1685 | asks the network for what is outstanding; on a free session the first due subscription in turn is started or its failed send is on record, and the turn moves on |
| `DeviceSession.Session.StartInTurn` | src/core/client/BacnetDeviceSession.cpp:1664-1684 | the first due subscription in round-robin order is chosen, and with no scan or read in flight it is started or its failed send is on record; during a scan only the position moves; no other is touched |
| `DeviceSession.Session.ChooseInTurn` | src/core/client/BacnetDeviceSession.cpp:1664-1684 | the loop finds the first due subscription from the position on and moves the position past it |
| `RoundRobin.StaysDueIsChosen` | src/core/client/BacnetDeviceSession.cpp:1664-1684 | a subscription that is due at every choice is chosen before the turn has come round once |
| `DeviceSession.Session.StartNext` | src/core/client/BacnetDeviceSession.cpp:1650-1652 | on a free session a due subscription waits for the request just sent, or its failed send is on record; while change-of-value service is active no read is started |
| `DeviceSession.Session.PollInFlightSubscription` | src/core/client/BacnetDeviceSession.cpp:1808-1903 | a read's reply is what the subscription knows and the cache records; an accepted SubscribeCOV is served until the renewal, a refused or overdue one falls back to reading until the retry; until then nothing changes |
| `DeviceSession.Session.CovReply` | src/core/client/BacnetDeviceSession.cpp:1818-1863 | accepted: served, not in flight, renewal as planned; refused or timed out: polling with a read pending until the retry; neither: unchanged |
| `DeviceSession.RenewalIsBeforeEndIff` | src/core/client/BacnetDeviceSession.cpp:1831-1838 | the renewal time is judged exactly, and comes before the lifetime ends if and only if 0 < renewBefore < lifetime |
| `DeviceSession.RetryIsAheadIff` | src/core/client/BacnetDeviceSession.cpp:1905-1916 | the retry is planned covRenewBeforeSeconds ahead, or one second, and judged exactly if and only if that is at most 2147483 s |
| `DeviceSession.RenewalDueIff` | src/core/client/BacnetDeviceSession.cpp:369-383 | while it is served a subscription is due exactly from the renewal time on |
| `DeviceSession.ServicePlannedIff` | src/core/client/BacnetDeviceSession.cpp:1959-1971 | service is asked for when it is wanted, after an answer exactly from the planned time on |
| `DeviceSession.ReadsInTimeIff` | src/core/client/BacnetDeviceSession.cpp:369-391 | an unserved subscription reads at once if a read is pending and otherwise exactly the fallback interval after it was made or last read, if and only if that interval is at most 2^31 ms |
| `DeviceSession.FirstReadIff` | src/core/client/BacnetDeviceSession.cpp:243-265 | a new one reads at once if it was asked to, else after the interval, under the same condition |
| `DeviceSession.Session.ScheduleCovRetry` | src/core/client/BacnetDeviceSession.cpp:1905-1916 | falls back to polling, starting now, until the retry time |
| `DeviceSession.Session.TryStartCovSubscription` | src/core/client/BacnetDeviceSession.cpp:1959-2014 | nothing unless due on a free session; then exactly the service its options ask for goes out under a fresh invoke id and its object's process id, and it is in flight if that was taken and fallen back if not |
| `DeviceSession.Session.TryStartSubscriptionPoll` | src/core/client/BacnetDeviceSession.cpp:1918-1957 | nothing unless due on a free session; then its request goes out under a fresh invoke id, and it is in flight if that was taken and finished with a failed send on record if not |
| `DeviceSession.Session.FinishSubscriptionPoll` | src/core/client/BacnetDeviceSession.cpp:2016-2136 | the cache records, the value and status known from now on, the exact callback with its reasons, and the next poll; the callback stays informed |
| `DeviceSession.Subscription.Compare` | src/core/client/BacnetDeviceSession.cpp:2043-2106 | the event a finished read or notification amounts to |
| `DeviceSession.Session.RecordNotification` | src/core/client/BacnetDeviceSession.cpp:2029-2041 | every property of a notification is recorded as a success, in order |
| `DeviceSession.Subscription.Stop` | src/core/client/BacnetDeviceSession.cpp:342-360 | a stopped subscription has let go of its transaction |
| `DeviceSession.Subscription.RequestRefresh` | src/core/client/BacnetDeviceSession.cpp:362-383 | an active subscription is marked for a read, a stopped one is left alone; the read is due at once if and only if no change-of-value service is active, and otherwise at the renewal time |
| `DeviceSession.Subscription.Release` | src/core/client/BacnetDeviceSession.cpp:2197-2203 | only this subscription's session pointer is cleared |
| `DeviceSession.Subscription.MoveFrom` | src/core/client/BacnetDeviceSession.cpp:272-281 | everything, the transaction in flight included, follows the subscription, across sessions, and the source is left empty |
| `DeviceSession.Subscription.Moved` | src/core/client/BacnetDeviceSession.cpp:267-270 | the same for a subscription constructed by the move, which joins the registry soundly |
| `DeviceSession.Subscription.Adopt` | src/core/client/BacnetDeviceSession.cpp:401-456 | the field-by-field move with the session's pointer |
| `DeviceSession.CompletedJobMeetsSpecification` | src/core/client/BacnetDeviceSession.cpp:1329-1507 | what the caller finds in the buffer of a completed job is what the specification says, each object with exactly the properties asked for read |
| `DeviceSession.FailedJobCountIff` | src/core/client/BacnetDeviceSession.cpp:1337-1350 | a failed job got one reply, and reports its count as acknowledged exactly when that reply acknowledged something that is no number |
| `DeviceSession.JobRequestBound` | src/core/client/BacnetDeviceSession.cpp:1263-1507 | no job, whatever its state, has sent more than 1 + min(count, limit) + enabled reads x stored requests |
| `SubscriptionEvents.SameValueIff` | src/core/client/BacnetDeviceSession.cpp:1702-1735 | two values count as the same if and only if they are equal up to the sign of zero and a text's zero byte, and are no NaN |
| `SubscriptionEvents.InformedAfter` | src/core/client/BacnetDeviceSession.cpp:2043-2128 | whatever a read or notification ends with, the callback hears exactly the difference and so knows the value held |
| `SubscriptionEvents.ToldIff` | src/core/client/BacnetDeviceSession.cpp:2043-2128 | the callback hears of an outcome if and only if it brings a first or different value or, where asked for, a different status, and is told exactly which |
| `SubscriptionEvents.ListenerIsInformed` | src/core/client/BacnetDeviceSession.cpp:2043-2128 | after any reads and notifications the callback knows the value held, each event continues the one before, and with status notifications it knows the status |
| `SubscriptionEvents.KnownIsLatest` | src/core/client/BacnetDeviceSession.cpp:2047-2057 | the value held is the one acknowledged last, or one that counts as the same; failures never touch it |
| `SubscriptionEvents.FirstComesOnce` | src/core/client/BacnetDeviceSession.cpp:2050-2051 | once an event carried a value, no later event is the first |
| `SubscriptionEvents.RepeatedValueIsToldIff` | src/core/client/BacnetDeviceSession.cpp:2050-2057 | a value read again is told again if and only if it is a NaN |
| `CovInbox.FindAbout` | src/core/client/BacnetDeviceSession.cpp:1627-1634 | the property loop finds the first property with this id and index |
| `CovInbox.Concerns` | src/core/client/BacnetDeviceSession.cpp:2141-2160 | a notification is for a subscription if and only if peer, process id and object match and some property of it, the primary one included, has its id and index |
| `CovInbox.TakeValue` | src/core/client/BacnetDeviceSession.cpp:1626-1637 | the first property with this id and index, else the primary value |
| `CovInbox.ProcessIdIsWord` | src/core/client/BacnetDeviceSession.cpp:1972-1979 | for an instance within 22 bits the process id is the object id as it goes on the wire |
| `CovInbox.ProcessIdSharedIff` | src/core/client/BacnetDeviceSession.cpp:1972-1979 | two objects share a process id if and only if they differ by nothing but cut-off type bits |
| `CovInbox.NotificationSharedIff` | src/core/client/BacnetDeviceSession.cpp:2141-2160 | two subscriptions of a session can want the same notification if and only if they watch the same object |
| `CovInbox.Inbox.Push` | src/core/client/BacnetDeviceSession.cpp:2186-2195 | a full queue drops its oldest notification to take a new one |
| `CovInbox.Inbox.Take` | src/core/client/BacnetDeviceSession.cpp:2162-2172 | takes the oldest match out and keeps the rest in order |
| `CovInbox.Inbox.Fetch` | src/core/client/BacnetDeviceSession.cpp:2138-2184 | a waiting match, and only without one what the network then yields, which is queued when it is for someone else |
| `CovTraffic.RunConserves` | src/core/client/BacnetDeviceSession.cpp:2138-2195 | over any run of polls every notification that arrived waits, was handed over once, or was pushed out of the full queue |
| `CovTraffic.DeliveredInOrder` | src/core/client/BacnetDeviceSession.cpp:2138-2195 | in every run, refusals included, in which no failed acknowledgement puts a notification back behind another for the same subscription, that subscription is handed its notifications in the order of arrival |
| `CovTraffic.AlwaysInOrderIff` | src/core/client/BacnetDeviceSession.cpp:2138-2195 | for distinct notifications they stay in order all through a run if and only if that never happens |
| `CovTraffic.RefusalReorders` | src/core/client/BacnetDeviceSession.cpp:1618-1648 | a run of five polls in which the older of two notifications is handed over last |
| `CovTraffic.RequeueKeepsOrderIff` | src/core/client/BacnetDeviceSession.cpp:1621-1625 | after a failed acknowledgement what waits for any subscription keeps its order if and only if nothing different waits for it behind |
| `CovTraffic.RunStep` | src/core/client/BacnetDeviceSession.cpp:1618-1648 | a poll of the inbox is one step of such a run |
| `SessionLifecycle.Drive` | src/core/client/BacnetDeviceSession.cpp:1139-2203 | from the constructors through any sequence of calls at any times: at most one transaction in every session, every job where its replies lead, every callback informed |

## Left out

- Transports, logging, display text, unit tables, demo programs and blocking wrappers: input, output and string plumbing.
- The per-type property reads of server objects: they are one map from (object, property) to an optional value, different at every step.
- Acknowledgements of Object_List, Property_List, state text and empty lists, Who-Is, error and reject packets, and the classification of ReadProperty and SubscribeCOV responses on the client: more formats of the kind proved here; in the session their outcome is arbitrary.
- The dispatch in the server's `poll` from a packet to its service: the handlers and parsers it joins are modelled, the chain of attempts is not.
- Display texts of values other than lists: they are derived from the value. The text of a received REAL comes from a cast to a 32-bit number (src/core/protocol/BacnetProtocol.cpp:216) that C++ leaves undefined for NaN, infinities and magnitudes from about 4294967.296; the REAL results here concern the pattern alone.
- Fairness of the sweep: it restarts at slot 0 and stops at the first send, so none is claimed.
- Callbacks that call back into the stack, callers that change registered objects behind it, and clock gaps beyond 2^31 ms: assumed away.
- What a builder writes into a buffer that its checks let it overrun: `PropertyCodec` and `CovCodec` require a buffer outside exactly those cases.
- A failed build and a failed send of a notification: one flag stands for both, as the code treats them alike.
- `begin` and `end` of the server, which clear the table, and the diagnostic listener.
- ApplicationValue.Encodable: display-only values (errors, lists, unsupported tags) are not encoded, as in the code.
- CovServer.Server: the parallel snapshot arrays of the source are one two-dimensional array of records.
- CommandableOutput.CommandableObject: values compare by equality, so NaN and negative zero of analog objects are not modelled; a Binary Value is an object without listeners; the change origin passed to callbacks is left out.
- DeviceSession.Subscription: the reason a poll was started, which is only logged, COV status codes, counters and user data are left out.
- DeviceSession.Session.PollSubscription: the client's own queue of notifications in front of the session's is left out; what arrives next, if anything, is arbitrary.
- DeviceSession.Session.PollObjectListScan: the branch for an active job with nothing in flight is left out, because no reachable job is in that state.
- DeviceSession.Session.CompleteScan: the session's pointer is cleared and the status set in one step.
- PropertyCache.Cache: typed error texts are values like any other.
- DeviceSession.Session.PollInFlightSubscription: the branch for an inactive subscription with a request in flight is left out, because no reachable subscription is in that state.
- SessionLifecycle.Drive: every scan gets a result buffer of its own, as two scans into one buffer would overwrite each other.
