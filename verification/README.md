# Verified kernels of the Tango WebSocket gateway

The gateway lets WebSocket clients read and write Tango devices and subscribe to Tango events. This project models
its algorithmic kernels in Dafny and proves what they are for, on all inputs, all runs and all interleavings. Code
that changes things step by step is a class or a method with loops, proved against functions on values; the main
results are lemmas about those functions.

Run `dafny verify dfyconfig.toml`.

## What is modelled

**The event registry of client mode** (`SubscriptionModel`, `TangoWorld`, `NestedMaps`, `Coupling`, `RegistrySteps`,
`EventProcCli`, `SubscriptionRuns`, `SubscriptionAnswers`, `RegistryResults`). Tango subscriptions are shared by
connections and torn down when the last listener leaves. The class `EventProcCli` has the four cross-linked maps of
the source and changes them request by request. Its ghost field `reg` carries the abstract state (shared subscriptions
and the reverse index) and a log of every call to the outside. Each method is proved to compute the request's function
on the abstract state and to extend the log only by calls that a judge allows, who keeps the registry's own books: in
them a subscription ends when it is asked to be closed. No proxy or callback is released twice or while it is needed,
there is one live subscription per device, attribute and event type, and only live ids are closed on live proxies.
Lemmas over whole runs follow: the invariant of every reachable state, also between two lists of one add, where the
lock is released; conservation of openings and closings; failed adds that leave every map as it was; agreement of
check and remove; and what a disconnect leaves behind. What every request is answered, and what state it leaves, is
also said without the functions that compute it, by the request, the state before and Tango's answers alone
(`RequestAnswered`, `CheckAnswered`, `RemoveAnswered`, `OffAnswered`): whatever fails before them, all devices and
attributes that a request names get their responses, in order.

Two promises hold under a condition only, which is given exactly, with a run that breaks it.

- *Closing may fail.* An exception of `unsubscribe_event` is swallowed, and the id and the callback go all the same.
  By Tango's books, in which the subscription then lingers, every callback that may still be called is alive exactly
  if no attempt to close has failed (`CallbacksAliveExactly`, `StrictExactly`), and a key never had two subscriptions
  exactly if none was subscribed to again after an attempt to close it failed (`OneSubscriptionExactly`).
  `FailedCloseRun` breaks both.
- *The reverse index has room for one event type* per connection, device and attribute. So a disconnect takes a
  connection off everything exactly if the index was complete (`DisconnectExact`); each step keeps it so under an
  exact condition, and a connection that asks for no second event type of an attribute and removes only its own ids
  keeps it so for good (`CarefulCleans`). `TwoTypesLeak` is a request for two types after which a listener stays
  behind.

**MD5 over a stream** (`Md5Block`, `Md5`, `Md5Standard`). The unrolled 64 steps with rotated registers are the indexed
rounds of section 3.4 of RFC 1321; the stream with its accumulate buffer and two-word counter computes the digest of
everything appended, however it was cut, including the padding that goes through the same entry point. The operations
on words are what the standard says bit by bit, and the digest of a message of its test suite (section A.5) is derived
operation by operation.

**WebSocket masking and frame headers** (`Masking`, `FrameHeader`; sections 5.2 and 5.3 of RFC 6455), for words of 4
and 8 bytes on hosts of either byte order. Any chunking of a message, masked with any mixture of the word and byte
routines, gives the simple mask of the whole message. Headers round trip over the wire, with the minimal length
encoding, and length codes, bits and bytes are those of section 5.2 in numbers. Two things differ from what comments
and the standard say: the comment on the word routine says that trailing bytes up to the word size are rewritten, but
the code writes exactly the bytes it is asked to; and nothing enforces that the highest bit of a 64-bit length is
zero, so the round trip is proved for all 64-bit sizes.

**UTF-8** (`Utf8`; RFC 3629). The table-driven automaton is the grammar of section 4: it accepts exactly the
well-formed strings, which are exactly the encodings of sequences of scalar values, and the codepoint it holds at each
return to accept is the scalar value just read.

**Base64** (`Base64`; section 4 of RFC 4648). Decoding inverts encoding on all byte strings, although the decoder's
tail looks up NUL and keeps the last byte of `npos`; encoding inverts decoding exactly on canonical strings.

**URIs** (`Uri`). Printing and parsing again gives a URI back exactly if its host needs no brackets. `atoi` is
modelled as the C library of 64-bit Linux does it (a `strtol` that stays within a long, cut to an `int`); the C
standard leaves numbers out of range undefined.

**The scheduler of asynchronous requests** (`Scheduler`, `SchedulerRuns`, `SchedulerFate`). Critical sections under
the connection lock are the steps of a state machine; replies and sends are an oracle. Active connections are always
known, no connection with tasks is forgotten, replies are conserved, and polling ends: among any polls, idle ones
included, no more find a reply than there were tasks under way. That a reply is taken at most once is false when sends
fail. Along a run no poll can take a reply twice exactly if no request is added to an inactive connection with a task
whose reply was taken (`TakenOnceExactly`), and `TakenTwice` is a run that does it. A guard that reads only the
scheduler's own fields, that the connection is active or has no tasks, is enough, and none on these fields is weaker
(`GuardExact`).

**The request front end** (`StringProc`, `RequestInput`, `RequestSpec`, `RequestFrontEnd`), client mode. A JSON tree
is taken apart into values, arrays and objects, checked for the keys its type needs, and dispatched. Lookups with
`at()` are map lookups, which Dafny accepts only where the key is present. `RequestSpec` says of the tree itself, by
the literal text of its type, which requests are acceptable and what is to be set about for them; `OnMessage` does
exactly that, and rejects all others.

## Model

| member | source | states |
|---|---|---|
| EventRegistry.EventProcCli.AddCallback | src/wstangoproc_cli/EventProcCli.cpp:402-480 | the registry after `_addCallback` stands for the function `AddOne` of the state before, response included; only a first subscription adds a leaf, the log only grows by allowed calls |
| EventRegistry.EventProcCli.CheckEventReqList | src/wstangoproc_cli/EventProcCli.cpp:482-539 | one list of devices and attributes does `AddList` to the abstract state, response by response, and leaves no dangling leaf and no spare proxy |
| EventRegistry.EventProcCli.AddDevReq | src/wstangoproc_cli/EventProcCli.cpp:94-174 | the four lists in the order periodic, change, archive, user; proxies of used devices and callbacks of subscriptions stay as they were, and nothing is closed |
| EventRegistry.EventProcCli.CheckDeviceExist | src/wstangoproc_cli/EventProcCli.cpp:392-400 | an unknown device gets one new proxy, or none and nothing recorded if it cannot be made |
| EventRegistry.EventProcCli.GetIdOfEventSubscription | src/wstangoproc_cli/EventProcCli.cpp:301-313 | the nested look-up answers the id exactly for a listener of the subscription, and fails at whichever level is missing otherwise |
| EventRegistry.EventProcCli.CheckEventReq | src/wstangoproc_cli/EventProcCli.cpp:176-247 | a request to check changes nothing; event types outside the four are refused |
| EventRegistry.EventProcCli.DelSubHdl | src/wstangoproc_cli/EventProcCli.cpp:315-333 | one listener leaves; exactly when it was the last, the device's own proxy is asked to close the subscription, once, and whether or not that fails the callback is released |
| EventRegistry.EventProcCli.ClearSubscrInfoMaps | src/wstangoproc_cli/EventProcCli.cpp:335-351 | erasing a closed subscription's leaf leaves every other leaf, and releases the proxy with the device's last one |
| EventRegistry.EventProcCli.RemoveById | src/wstangoproc_cli/EventProcCli.cpp:266-286 | removal by id does `Remove` to the abstract state, whoever's subscription it is |
| EventRegistry.EventProcCli.RemDevReq | src/wstangoproc_cli/EventProcCli.cpp:249-299 | removal, or an answer that the id is unknown or no number, which changes nothing |
| EventRegistry.EventProcCli.UnsubscribeAllDev | src/wstangoproc_cli/EventProcCli.cpp:353-390 | a disconnect does `Disconnect` to the abstract state and leaves a valid registry |
| EventRegistry.EventProcCli.HandleRequest | src/wstangoproc_cli/EventProcCli.cpp:25-52 | every request keeps the registry valid and does `Step` to the abstract state |
| EventRegistry.EventProcCli.SendMessage | src/wstangoproc_cli/EventProcCli.cpp:54-92 | a busy registry drops the event and changes nothing; else it goes to exactly the listeners of its subscription, and for anything but a live subscription the look-up itself breaks the registry |
| RegistrySteps.RegistryInvariant | src/wstangoproc_cli/EventProcCli.h:28-46 | between requests: every leaf has listeners, a live callback and its id; ids and leaves are in bijection; used devices are those with a leaf; every reverse-index entry names a leaf its connection listens to |
| RegistrySteps.Conservation | src/wstangoproc_cli/EventProcCli.cpp:315-480 | over the whole log, with failures to close in it: an id was asked to be closed as often as it was opened, but for one opening while it is a subscription's; a proxy or callback released as often as made, but for one making while it is in use |
| RegistrySteps.NullLeafNotGood | src/wstangoproc_cli/EventProcCli.cpp:54-60 | a leaf without a callback fits no valid state |
| RegistrySteps.FirstSubscriptionStep | src/wstangoproc_cli/EventProcCli.cpp:412-464 | both outcomes of a first subscription keep maps, abstract state and log in step |
| RegistrySteps.DelSubStep | src/wstangoproc_cli/EventProcCli.cpp:315-333 | a listener's leaving keeps maps, abstract state and log in step, whether closing succeeds or fails, with a dangling leaf if it was the last |
| RegistrySteps.ClearStep | src/wstangoproc_cli/EventProcCli.cpp:335-351 | erasing the dangling leaf restores the state between requests |
| RegistrySteps.RecordedInList | src/wstangoproc_cli/EventProcCli.cpp:356-380 | what a disconnect walks over is exactly the recorded keys, and the connection listens to all of them |
| TangoWorld.OpenedMinusClosed | src/wstangoproc_cli/EventProcCli.cpp:320-327 | in every allowed log openings of an id and attempts to close it balance, but for a live one |
| TangoWorld.MadeMinusReleased | src/wstangoproc_cli/EventProcCli.cpp:329-349 | in every allowed log allocations and releases balance, but for what is live |
| TangoWorld.ReplaySound | src/wstangoproc_cli/EventProcCli.cpp:402-480 | in every allowed log, by the registry's books, at most one live subscription per device, attribute and type, on a live proxy with a live callback; none that lingers is live |
| TangoWorld.LingeringExactly | src/wstangoproc_cli/EventProcCli.cpp:320-325 | in every allowed log something lingers exactly if an attempt to close has failed |
| TangoWorld.StrictIsAlive | src/wstangoproc_cli/EventProcCli.cpp:320-330 | a log that is allowed by Tango's books too leaves every callback alive that may be called |
| TangoWorld.OnePerKeyExactly | src/wstangoproc_cli/EventProcCli.cpp:320-330 | Tango never held two subscriptions of one key exactly if no key was subscribed to again after an attempt to close it failed |
| RegistryResults.CallbacksAliveExactly | src/wstangoproc_cli/EventProcCli.cpp:320-330 | in every state between or within requests, each callback that Tango may still call is alive exactly if every attempt to close so far has succeeded |
| RegistryResults.StrictExactly | src/wstangoproc_cli/EventProcCli.cpp:320-330 | the whole log is within the rules by Tango's books under exactly that condition |
| RegistryResults.OneSubscriptionExactly | src/wstangoproc_cli/EventProcCli.cpp:315-480 | the same for one subscription per key, which is lost exactly on subscribing again to a key whose closing failed |
| RegistryResults.LostOnReturn | src/wstangoproc_cli/EventProcCli.cpp:315-333 | a key that was subscribed to and no longer is, while attempts to close failed: whatever follows, Tango may call a released callback, and when the key is subscribed to again it holds two subscriptions of it |
| RegistryResults.FailedCloseRun | src/wstangoproc_cli/EventProcCli.cpp:320-330 | three requests that do it: a connection subscribes, leaves while closing fails, and subscribes again |
| RegistryResults.FailedAddLeavesMaps | src/wstangoproc_cli/EventProcCli.cpp:456-463 | an add that fails everywhere leaves `listOfId` and `usedDevices` as they were, and every look-up in `eventSubs`, callback included, and in `eventTypes` |
| SubscriptionModel.AddRequestInv | src/wstangoproc_cli/EventProcCli.cpp:94-174 | an add, with failures anywhere, keeps the invariant |
| SubscriptionModel.RemoveInv | src/wstangoproc_cli/EventProcCli.cpp:249-299 | a removal by any id keeps the invariant |
| SubscriptionModel.DisconnectInv | src/wstangoproc_cli/EventProcCli.cpp:353-390 | a disconnect keeps the invariant |
| SubscriptionRuns.StepInv | src/wstangoproc_cli/EventProcCli.cpp:25-52 | every request keeps the invariant, whatever fails |
| SubscriptionRuns.RunInv | src/wstangoproc_cli/EventProcCli.cpp:25-52 | every reachable state of every run of sections under the lock satisfies the invariant, also between two lists of one add |
| SubscriptionRuns.RunRequest | src/wstangoproc_cli/EventProcCli.cpp:94-174 | a request that is not interrupted between its sections is one step |
| SubscriptionRuns.AddRequestAdded | src/wstangoproc_cli/EventProcCli.cpp:482-539 | an add adds the requester at exactly the granted keys, and changes no other listener, id, option or index entry |
| SubscriptionRuns.FailedAddInvisible | src/wstangoproc_cli/EventProcCli.cpp:456-463 | an add that fails everywhere leaves the abstract subscriptions and index as they were |
| SubscriptionRuns.StepFrame | src/wstangoproc_cli/EventProcCli.cpp:301-390 | no request changes an answer another connection gets |
| SubscriptionRuns.SectionFrame | src/wstangoproc_cli/EventProcCli.cpp:482-484 | nor does one list of an add, or any other section under the lock |
| SubscriptionRuns.CheckRemoveAgree | src/wstangoproc_cli/EventProcCli.cpp:249-333 | an id got by checking is that key's only; removing it takes the connection off that key and changes no other look-up |
| SubscriptionRuns.DisconnectExact | src/wstangoproc_cli/EventProcCli.cpp:353-390 | a disconnect leaves the connection on exactly the keys the index does not name; so on none exactly if the index was complete |
| SubscriptionRuns.AddKeepsCompleteIff | src/wstangoproc_cli/EventProcCli.cpp:475-479 | the index stays complete exactly if the connection already listens to the key, or it is new and subscribing fails, or it listens to no other event type of the attribute |
| SubscriptionRuns.RemoveKeepsCompleteIff | src/wstangoproc_cli/EventProcCli.cpp:277-285 | it stays complete exactly unless the connection listens to another type of the removed id's attribute |
| SubscriptionRuns.DisconnectCleans | src/wstangoproc_cli/EventProcCli.cpp:353-390 | after any run in which a connection kept to one type per attribute and removed only its own ids, whatever came between its sections, its disconnect takes it off everything |
| SubscriptionRuns.CarefulIsDisciplined | src/wstangoproc_cli/EventProcCli.cpp:475-479 | asking only for attributes that one does not listen to for another type, and removing only ids one listens to, keeps to one type per attribute |
| SubscriptionRuns.CarefulCleans | src/wstangoproc_cli/EventProcCli.cpp:353-390 | so after any run in which a connection did that, its disconnect takes it off everything |
| SubscriptionRuns.TwoTypesLeak | src/wstangoproc_cli/EventProcCli.cpp:477-477 | the run of a request for two event types of one attribute and a disconnect: the connection still listens |
| SubscriptionAnswers.RequestAnswered | src/wstangoproc_cli/EventProcCli.cpp:94-174 | the responses to an add, list by list with its event type: for each device one per attribute, in order, or a single failure exactly if it has no proxy and none can be made; an attribute is granted exactly if it was subscribed to or Tango grants its call, each counted by what came before; ids, listeners, precisions, index entries and calls are what the responses say |
| SubscriptionAnswers.EachDevice | src/wstangoproc_cli/EventProcCli.cpp:482-539 | each device of a list has its answer, whatever failed before it |
| SubscriptionAnswers.CheckAnswered | src/wstangoproc_cli/EventProcCli.cpp:176-247 | the four event types are known, and the id is that of a subscription listened to |
| SubscriptionAnswers.RemoveAnswered | src/wstangoproc_cli/EventProcCli.cpp:266-286 | by the id of a subscription the connection leaves it and nothing else, and one index entry goes |
| SubscriptionAnswers.RemoveUnknown | src/wstangoproc_cli/EventProcCli.cpp:249-299 | an id that no subscription has, or none, changes nothing and is answered so |
| SubscriptionAnswers.OffAnswered | src/wstangoproc_cli/EventProcCli.cpp:353-390 | a disconnect takes the connection off what its index entries name, by the names of event types, and erases them |
| Md5Block.SourceConstants | src/websocketpp/common/md5.hpp:98-166 | the additive constants of the four rounds are those of RFC 1321 |
| Md5Standard.RotatesLeft | src/websocketpp/common/md5.hpp:234-234 | the highest n bits become the lowest, and the others move up by n places |
| Md5Standard.SumOfWords | src/websocketpp/common/md5.hpp:240-242 | the sum is that of 64-bit numbers, cut to 32 bits |
| Md5Standard.BitsOfF | src/websocketpp/common/md5.hpp:239-239 | bit by bit, if x then y else z |
| Md5Standard.BitsOfG | src/websocketpp/common/md5.hpp:265-265 | bit by bit, if z then x else y |
| Md5Standard.BitsOfH | src/websocketpp/common/md5.hpp:291-291 | the parity of the three |
| Md5Standard.BitsOfI | src/websocketpp/common/md5.hpp:317-317 | where x or not z the opposite of y, and else y |
| Md5Standard.AuxiliaryOf | src/websocketpp/common/md5.hpp:236-337 | which of them each operation uses |
| Md5Standard.WordsTaken | src/websocketpp/common/md5.hpp:236-337 | which word each of the 64 operations takes, as listed in the standard |
| Md5Standard.AmountsRotated | src/websocketpp/common/md5.hpp:236-337 | how far each rotates |
| Md5Block.ProcessWords | src/websocketpp/common/md5.hpp:236-346 | the unrolled 64 register-rotated steps are the indexed rounds of section 3.4 of RFC 1321, for every operation on words |
| Md5Block.Process | src/websocketpp/common/md5.hpp:170-347 | one block, from its bytes on, is the compression function of section 3.4 |
| Md5.AddWithCarry | src/websocketpp/common/md5.hpp:361-370 | the two-word counter with carry counts bits modulo 2^64 |
| Md5.OffsetOf | src/websocketpp/common/md5.hpp:360-360 | the offset read off the low word is the length of the unprocessed tail |
| Md5.PadSize | src/websocketpp/common/md5.hpp:407-407 | the padding size, subtracted modulo 2^32, is the standard's |
| Md5.TwoWords | src/websocketpp/common/md5.hpp:404-405 | the saved length is the counter's eight bytes, low-order first |
| Md5.PaddedLength | src/websocketpp/common/md5.hpp:406-409 | padding fills up to whole blocks with none to spare and keeps the message as a prefix |
| Md5.PaddedInjective | src/websocketpp/common/md5.hpp:393-409 | different messages are padded differently |
| Md5.AbsorbConcat | src/websocketpp/common/md5.hpp:384-386 | folding over blocks can be cut at any block boundary |
| Md5.Md5State.Init | src/websocketpp/common/md5.hpp:349-355 | a fresh state holds the empty message and the standard's registers |
| Md5.Md5State.Append | src/websocketpp/common/md5.hpp:357-391 | any piece appended to any state: registers hold the whole blocks, the buffer the tail, the counter the length of everything so far |
| Md5.Md5State.Finish | src/websocketpp/common/md5.hpp:393-412 | the digest of everything appended, however it was cut into pieces |
| Md5.HashPieces | src/websocketpp/common/md5.hpp:349-412 | for every way of cutting a message into appends, empty ones included, finishing gives the digest of the whole message |
| Md5.HashString | src/websocketpp/common/md5.hpp:415-429 | the digest of a string |
| Md5Standard.LengthInBits | src/websocketpp/common/md5.hpp:404-409 | the last eight bytes of the padding make the number of bits, low-order byte first |
| Md5Standard.DigestOfAbc | src/websocketpp/common/md5.hpp:415-429 | the digest of abc is 900150983cd24fb0d6963f7d28e17f72, as in section A.5 of RFC 1321 |
| Masking.PreparedRepeats | src/websocketpp/frame.hpp:595-604 | on every host the prepared key's bytes in memory are the key, once or twice |
| Masking.CircshiftRotates | src/websocketpp/frame.hpp:612-623 | on every host the shift rotates those bytes |
| Masking.ByteMask | src/websocketpp/frame.hpp:644-655 | masking byte by byte, in place or not, is the mask of section 5.3 of RFC 6455 and touches nothing after it |
| Masking.WordMaskExact | src/websocketpp/frame.hpp:702-717 | masking by words gives the same, for exactly the given length |
| Masking.WordMaskCirc | src/websocketpp/frame.hpp:768-789 | the same with a prepared key, which comes back rotated by the length |
| Masking.ByteMaskCirc | src/websocketpp/frame.hpp:830-841 | byte by byte with the low half of a prepared key |
| Masking.MaskedTwice | src/websocketpp/frame.hpp:644-655 | unmasking is masking |
| Masking.ChunkMasked | src/websocketpp/frame.hpp:768-841 | one chunk by either routine is the simple mask from where the key stands, and the returned key stands after the chunk |
| Masking.StreamingMask | src/websocketpp/frame.hpp:595-841 | however a message is cut and whichever routine masks each chunk, the result is the simple mask of the whole message |
| Masking.MaskMessage | src/websocketpp/frame.hpp:768-841 | the chunks of a message masked one after the other by these routines, each with the key the one before returned, are the simple mask of the message |
| Masking.MaskedOctet | src/websocketpp/frame.hpp:644-655 | octet i of the simple mask is octet i of the data exclusive or octet i modulo 4 of the key |
| Masking.MaskedHello | src/websocketpp/frame.hpp:644-655 | the masked example of section 5.7 of RFC 6455 |
| FrameHeader.NetworkOrder | src/websocketpp/common/network.hpp:66-100 | on every host conversion gives the highest weight first, and is its own inverse |
| FrameHeader.SetFinExact | src/websocketpp/frame.hpp:330-332 | setting the flag changes that flag and nothing else a header says |
| FrameHeader.SetRsv1Exact | src/websocketpp/frame.hpp:348-350 | likewise for the first reserved bit |
| FrameHeader.SetRsv2Exact | src/websocketpp/frame.hpp:366-368 | likewise for the second |
| FrameHeader.SetRsv3Exact | src/websocketpp/frame.hpp:384-386 | likewise for the third |
| FrameHeader.SetMaskedExact | src/websocketpp/frame.hpp:411-413 | likewise for the mask flag in the second byte |
| FrameHeader.MakeBasicHeader | src/websocketpp/frame.hpp:194-228 | every flag, opcode and length code put in can be read out; the seven bits are a size up to 125 itself, 126 for 126 to 65535, and 127 above |
| FrameHeader.GettersDetermine | src/websocketpp/frame.hpp:321-433 | the getters leave nothing of a header unsaid |
| FrameHeader.BitLayout | src/websocketpp/frame.hpp:321-433 | the getters read the bits of weights 128, 64, 32 and 16 and the lower four of the first byte, and 128 and the lower seven of the second |
| FrameHeader.ExtendedHeader.constructor | src/websocketpp/frame.hpp:235-275 | the variable part is the length in network order, the key, and zeros |
| FrameHeader.KeyOffset | src/websocketpp/frame.hpp:469-477 | the key is read where it was written |
| FrameHeader.ReadBack | src/websocketpp/frame.hpp:516-585 | every 64-bit size and every key is read back, on every host |
| FrameHeader.WireRoundTrip | src/websocketpp/frame.hpp:445-502 | what is sent is as long as its first two bytes say, and the receiver reads all of it back |
| FrameHeader.WireBytes | src/websocketpp/frame.hpp:235-275 | what is sent: the fixed bytes, the size in no byte, two or eight, highest weight first, and the key |
| FrameHeader.EightByPosition | src/websocketpp/common/network.hpp:66-100 | eight bytes weigh as their positions say |
| FrameHeader.HeaderLengths | src/websocketpp/frame.hpp:445-458 | two length bytes for 126 and eight for 127, and four for a key |
| FrameHeader.SizeRead | src/websocketpp/frame.hpp:516-585 | what is read: the seven bits, or the next two bytes for 126, or the next eight for 127 |
| FrameHeader.GetHeaderLen | src/websocketpp/frame.hpp:445-458 | a header has 2 to 14 bytes |
| FrameHeader.MinimalEncoding | src/websocketpp/frame.hpp:262-272 | no header that is read as the same size has fewer length bytes |
| Utf8.TableIsGrammar | src/websocketpp/utf8_validator.hpp:45-60 | the table is the automaton of the grammar in section 4 of RFC 3629 |
| Utf8.CharIsEncoding | src/websocketpp/utf8_validator.hpp:62-78 | every character of the grammar encodes a scalar value |
| Utf8.EncodingIsChar | src/websocketpp/utf8_validator.hpp:62-78 | every scalar value's encoding is a character of the grammar, with that value |
| Utf8.MaskIsFirstBits | src/websocketpp/utf8_validator.hpp:72-74 | the shift by the byte's class leaves the bits of the scalar value |
| Utf8.Decode | src/websocketpp/utf8_validator.hpp:69-78 | one byte is one step of the automaton, codepoint included |
| Utf8.Validator.DecodeRange | src/websocketpp/utf8_validator.hpp:104-118 | a range is all its steps; the call fails exactly if it ends rejected |
| Utf8.Validator.Consume | src/websocketpp/utf8_validator.hpp:91-96 | one byte, with its verdict |
| Utf8.Validate | src/websocketpp/utf8_validator.hpp:143-149 | true exactly for well-formed strings |
| Utf8.RejectAbsorbs | src/websocketpp/utf8_validator.hpp:56-56 | after a rejection every string is rejected |
| Utf8.AcceptsExactly | src/websocketpp/utf8_validator.hpp:69-78 | the automaton accepts exactly the language of the grammar |
| Utf8.EncodedIsAccepted | src/websocketpp/utf8_validator.hpp:69-78 | every sequence of scalar values is accepted in its encoding, and read back from the codepoints |
| Utf8.AcceptedIsEncoded | src/websocketpp/utf8_validator.hpp:69-78 | every accepted string is the encoding of the codepoints read, which are scalar values |
| Utf8.CodepointAtAccept | src/websocketpp/utf8_validator.hpp:72-77 | at every return to accept the codepoint is the scalar value of the sequence just read |
| Utf8.ChunksDoNotMatter | src/websocketpp/utf8_validator.hpp:81-126 | the verdict on a message does not depend on how it is cut |
| Utf8.Examples | src/websocketpp/utf8_validator.hpp:62-78 | sequences of section 7 of RFC 3629, and the ends of the ranges of section 3 |
| Utf8.NotCharacters | src/websocketpp/utf8_validator.hpp:45-60 | overlong forms, surrogates and values above the range are no characters |
| Base64.Alphabet | src/websocketpp/base64/base64.hpp:43-58 | `is_base64` tells exactly the 64 characters, each of one digit |
| Base64.Table | src/websocketpp/base64/base64.hpp:43-46 | the letters, numerals and signs of table 1 of RFC 4648, digit by digit |
| Base64.Encode | src/websocketpp/base64/base64.hpp:66-112 | the loop computes section 4 of RFC 4648 |
| Base64.Decode | src/websocketpp/base64/base64.hpp:131-174 | the loop and its tail compute the whole bytes in the bits of the characters before the first that is no digit |
| Base64.SameNumber | src/websocketpp/base64/base64.hpp:76-81 | the four digits of a group are the same 24-bit number as its three bytes |
| Base64.SameDigits | src/websocketpp/base64/base64.hpp:146-148 | the shifts keep the 24 bits of a group |
| Base64.RoundTrip | src/websocketpp/base64/base64.hpp:66-174 | decoding inverts encoding on every byte string |
| Base64.EncodedLength | src/websocketpp/base64/base64.hpp:66-112 | four characters for every three bytes or part of three |
| Base64.EncodedShape | src/websocketpp/base64/base64.hpp:90-109 | padding only where it belongs, with zero bits before it |
| Base64.EncodeDecode | src/websocketpp/base64/base64.hpp:66-174 | encoding inverts decoding exactly on canonical strings |
| Base64.VectorFoobar | src/websocketpp/base64/base64.hpp:66-112 | a test vector of section 10 of RFC 4648 |
| Base64.VectorF | src/websocketpp/base64/base64.hpp:66-112 | another, with two characters of padding, and the empty one |
| Base64.VectorFo | src/websocketpp/base64/base64.hpp:66-112 | another, with one |
| Base64.LastBits | src/websocketpp/base64/base64.hpp:155-171 | what two or three characters at the end decode to, whatever their last bits |
| Uri.UriObject.constructor | src/websocketpp/uri.hpp:51-168 | valid exactly if the string parses, and then with those parts |
| Uri.UriObject.ReadName | src/websocketpp/uri.hpp:120-137 | the state loop reads up to the first colon or slash |
| Uri.UriObject.ReadBracketed | src/websocketpp/uri.hpp:84-119 | brackets around the host, and what may follow them |
| Uri.UriObject.ReadPort | src/websocketpp/uri.hpp:139-154 | the port's text ends at the first slash |
| Uri.DigitsPort | src/websocketpp/uri.hpp:321-341 | digits are taken as the number they make exactly if it is 1 to 65535 |
| Uri.DigitsOtherPort | src/websocketpp/uri.hpp:330-340 | exactly which other numbers are accepted, for the port their last 32 bits make |
| Uri.DefaultPorts | src/websocketpp/uri.hpp:45-47 | 443 for the secure schemes and 80 for the others |
| Uri.SchemesKnown | src/websocketpp/uri.hpp:55-82 | exactly four schemes, two of them secure, each with something after it |
| Uri.DigitByDigit | src/websocketpp/uri.hpp:330-330 | digits are decimal |
| Uri.DigitsRead | src/websocketpp/uri.hpp:330-330 | digits up to anything else are read as their number, at most the largest long |
| Uri.PlusRead | src/websocketpp/uri.hpp:330-330 | likewise after a plus sign |
| Uri.MinusRead | src/websocketpp/uri.hpp:330-330 | and after a minus sign, down to the smallest long |
| Uri.PlainAddress | src/websocketpp/uri.hpp:51-168 | scheme, host and path are taken apart, with the scheme's own port |
| Uri.AddressAlone | src/websocketpp/uri.hpp:51-168 | with nothing after the host the resource is the root |
| Uri.AfterBrackets | src/websocketpp/uri.hpp:84-119 | a bracket has to be closed, and nothing, a slash or a colon has to follow |
| Uri.AddressWithPort | src/websocketpp/uri.hpp:51-168 | likewise with a port in digits, whatever its number |
| Uri.ParseIsSound | src/websocketpp/uri.hpp:51-168 | what parses has a known scheme that fits its flag, a port from 1 to 65535 and a resource that begins with a slash |
| Uri.PrintParse | src/websocketpp/uri.hpp:274-285 | printing and parsing gives parts back exactly if they are sound and the host is plain |
| Uri.ReparseExact | src/websocketpp/uri.hpp:51-285 | whatever parses is stable under printing exactly if its host is plain, and always without brackets |
| Uri.BracketsAreLost | src/websocketpp/uri.hpp:277-277 | an IPv6 address in brackets that is not given back |
| Uri.Printed | src/websocketpp/uri.hpp:274-285 | the port is printed where it is not the scheme's own, in digits without a zero at the front |
| Uri.QueryExact | src/websocketpp/uri.hpp:294-301 | the query is what follows the first question mark |
| Scheduler.WSThread.OnOpen | src/wstangoproc_common/WSThread.cpp:179-208 | a new connection has no tasks; a failed greeting makes it inactive |
| Scheduler.WSThread.OnClose | src/wstangoproc_common/WSThread.cpp:210-224 | the connection and its tasks are gone |
| Scheduler.WSThread.AddActive | src/wstangoproc_common/WSThread.cpp:230-244 | tasks of a known connection are added and it becomes active; for an unknown one nothing is kept |
| Scheduler.WSThread.CheckRequests | src/wstangoproc_common/WSThread.cpp:280-317 | in whatever order tasks come: it ends early exactly if a send fails, and then erases nothing; else exactly the tasks that wait remain |
| Scheduler.WSThread.ForCheckActions | src/wstangoproc_common/WSThread.cpp:253-278 | one poll: a connection stays active exactly if it still waits and no send to it failed |
| Scheduler.CheckedMore | src/wstangoproc_common/WSThread.cpp:258-271 | one connection's turn does not touch another's |
| SchedulerRuns.RunSafe | src/wstangoproc_common/WSThread.cpp:179-317 | in every interleaving active connections are known, and a connection with tasks is active or was dropped |
| SchedulerRuns.LedgerStep | src/wstangoproc_common/WSThread.cpp:280-317 | every step keeps the accounts: each reply taken at most once, each task taken, pending or lost |
| SchedulerRuns.ReplyConservation | src/wstangoproc_common/WSThread.cpp:230-317 | without failing sends every registered task is answered once, pending, or lost, and never two of these; lost only because its connection was closed, or not known when it was added |
| SchedulerFate.EveryTaskEnds | src/wstangoproc_common/WSThread.cpp:179-317 | the same by the steps of the run: every task asked for is answered once, pending, or lost by the very step that closed its connection while it was pending or found it unknown |
| SchedulerFate.LostByStep | src/wstangoproc_common/WSThread.cpp:210-244 | a step loses a task exactly if it closes its connection while it is pending, or adds it to a connection that is not there |
| SchedulerFate.OpenEffect | src/wstangoproc_common/WSThread.cpp:179-208 | a new connection has no tasks |
| SchedulerFate.CloseEffect | src/wstangoproc_common/WSThread.cpp:210-224 | a closed one is gone, and its tasks are lost |
| SchedulerFate.SendFailureEffect | src/wstangoproc_common/WSThread.cpp:246-251 | a send that fails makes its connection inactive and leaves its tasks |
| SchedulerFate.AddEffect | src/wstangoproc_common/WSThread.cpp:230-244 | every task of a list is pending on a known connection, which is active; the first of an id counts, and one that was there stays |
| SchedulerFate.AddKeeps | src/wstangoproc_common/WSThread.cpp:230-244 | and no other task appears or goes |
| SchedulerFate.AddUnknownEffect | src/wstangoproc_common/WSThread.cpp:237-239 | of an unknown connection nothing is kept |
| SchedulerFate.OthersStay | src/wstangoproc_common/WSThread.cpp:179-244 | these steps touch no other connection |
| SchedulerFate.PollEffect | src/wstangoproc_common/WSThread.cpp:280-317 | a poll takes and sends a reply exactly if the connection is active, the reply has arrived and no send to it fails, and the task is done then |
| SchedulerFate.PollKeepsOut | src/wstangoproc_common/WSThread.cpp:253-317 | and nothing appears, no other reply is taken, and a connection stays active exactly if no send fails and it has one to wait for |
| SchedulerRuns.TakenOnce | src/wstangoproc_common/WSThread.cpp:280-317 | with failing sends, replies are taken at most once and no task is forgotten, as long as no inactive connection with a task whose reply was taken gets another request |
| SchedulerRuns.TakenTwiceExactly | src/wstangoproc_common/WSThread.cpp:230-244 | with good accounts before, adding a request makes it possible that a poll takes a reply twice exactly if the connection is inactive and has such a task |
| SchedulerRuns.TakenOnceExactly | src/wstangoproc_common/WSThread.cpp:230-317 | along every run, no state lets a poll take a reply twice exactly if no request was added like that |
| SchedulerRuns.GuardExact | src/wstangoproc_common/WSThread.cpp:230-244 | testing that the connection is active or has no tasks rules that out; where the test fails, the scheduler's fields do not, as some history with the same fields lets a poll take a reply twice |
| SchedulerRuns.ReactivatedExactly | src/wstangoproc_common/WSThread.cpp:230-244 | a request added to a connection makes an active one with such a task exactly if it was inactive and had one |
| SchedulerRuns.TakenTwice | src/wstangoproc_common/WSThread.cpp:280-317 | a run in which it fails and a reply is taken twice |
| SchedulerRuns.PollEmpties | src/wstangoproc_common/WSThread.cpp:383-388 | exactly when a poll leaves no connection active |
| SchedulerRuns.PollShrinks | src/wstangoproc_common/WSThread.cpp:253-317 | every poll that finds a reply makes the tasks under way strictly fewer |
| SchedulerRuns.PollsBounded | src/wstangoproc_common/WSThread.cpp:373-390 | among any polls with no request added between them, idle ones included, those that find a reply and the tasks still under way are together no more than the tasks at first |
| SchedulerRuns.PollsEnd | src/wstangoproc_common/WSThread.cpp:383-388 | after a poll by which every awaited reply has arrived no connection is active, and none becomes so by polling: the inner loop ends |
| SchedulerRuns.PollsDone | src/wstangoproc_common/WSThread.cpp:383-388 | when as many polls have found a reply as there were tasks under way, nothing is under way, and one more poll leaves no connection active |
| StringProc.ParseInputString | src/wstangoproc_common/StringProc.cpp:158-199 | the loop that finds and erases leaves the first part in its argument and returns all, or all but the first |
| StringProc.JoinParts | src/wstangoproc_common/StringProc.cpp:172-184 | joining the parts restores the input, and no part contains the delimiter |
| StringProc.PartsJoin | src/wstangoproc_common/StringProc.cpp:172-184 | splitting gives joined parts back exactly if the delimiter separates them |
| StringProc.SplitDeviceName | src/wstangoproc_common/StringProc.cpp:259-273 | three parts are a device without a host; of six the device is the last three and the host the first and the third; the two together are the name exactly if the second part is empty; anything else gives neither |
| StringProc.Split | src/wstangoproc_common/StringProc.cpp:322-337 | the lines of a string |
| StringProc.LinesAreParts | src/wstangoproc_common/StringProc.cpp:322-330 | getline drops exactly an empty last part |
| StringProc.ParseOfGetQuery | src/wstangoproc_common/StringProc.cpp:275-300 | exactly the keys that items set, each with the value it was set to first |
| StringProc.RenderedQuery | src/wstangoproc_common/StringProc.cpp:275-300 | a rendered query gives each key its first value that is not empty, and no other key |
| RequestInput.FindSays | src/wstangoproc_common/ParsingInputJson.cpp:232-297 | looking for an event type's name in the text of a known type finds it in that type only |
| RequestInput.FilledKeys | src/wstangoproc_common/ParsingInputJson.cpp:67-97 | a key is a value, an array or an object exactly if some child of the tree makes it one |
| RequestInput.FilledType | src/wstangoproc_common/ParsingInputJson.cpp:52-65 | an empty type stops everything, and the type is that of the text |
| RequestInput.FilledText | src/wstangoproc_common/ParsingInputJson.cpp:52-65 | the text is that of the last type given |
| RequestInput.FilledContent | src/wstangoproc_common/ParsingInputJson.cpp:67-97 | the value, the array and the object of a key are those of the last child that puts it there |
| RequestInput.ShapeIs | src/wstangoproc_common/ParsingInputJson.cpp:74-97 | children without names and with data make an array; the first other makes it an object if it has a name, and else nothing |
| RequestInput.FilledId | src/wstangoproc_common/ParsingInputJson.cpp:42-50 | the id is the last that is not empty |
| RequestFrontEnd.TextTypes | src/wstangoproc_common/EnumConverter.h:15-54 | which type each text stands for |
| RequestInput.ListNotEmpty | src/wstangoproc_common/ParsingInputJson.cpp:178-203 | a list of devices is empty exactly if no named child has children or a value |
| RequestInput.DeviceContent | src/wstangoproc_common/ParsingInputJson.cpp:153-203 | a device named once, without a bar in its name, gets its value or its children's values |
| RequestInput.DeviceListed | src/wstangoproc_common/ParsingInputJson.cpp:178-203 | exactly the named children with children or a value are devices |
| RequestInput.LastDeviceContent | src/wstangoproc_common/ParsingInputJson.cpp:178-203 | of a device named more than once the last child counts |
| RequestInput.FoundUnder | src/wstangoproc_common/ParsingInputJson.cpp:153-176 | under a name without a bar is found the value of its first child, or its children's values |
| RequestInput.ValuesInOrder | src/wstangoproc_common/ParsingInputJson.cpp:166-170 | the values are the data of the children that have some, in order |
| RequestFrontEnd.ParsedInputJson.CheckKeys | src/wstangoproc_common/ParsingInputJson.h:34-50 | a kind is answered exactly if all the keys have it |
| RequestFrontEnd.ParsedInputJson.GetEventSubList | src/wstangoproc_common/ParsingInputJson.cpp:178-203 | the loop computes the list of devices and attributes |
| RequestFrontEnd.ParsedInputJson.CheckValidity | src/wstangoproc_common/ParsingInputJson.cpp:209-464 | accepted exactly with the keys the type needs, and then under the type it is handled as |
| RequestFrontEnd.ReadShape | src/wstangoproc_common/ParsingInputJson.cpp:74-97 | the loop that tells arrays from objects |
| RequestFrontEnd.FillInput | src/wstangoproc_common/ParsingInputJson.cpp:40-98 | the loop over the children of a request |
| RequestFrontEnd.ParseInputJson | src/wstangoproc_common/ParsingInputJson.cpp:14-151 | every tree, or none, is turned into what `Parsed` says |
| RequestFrontEnd.AcceptedExactly | src/wstangoproc_common/ParsingInputJson.cpp:14-464 | a JSON tree is accepted exactly if no type in it is empty and, by the text of the last one, each needed key is a value, an array or a list with a device by what the children say; any other gets an error |
| RequestFrontEnd.AcceptedId | src/wstangoproc_common/ParsingInputJson.cpp:42-50 | an accepted request has the last id given, or none |
| RequestFrontEnd.MeaningIsMeant | src/wstangoproc_cli/WSTangoConnCli.cpp:39-148 | what an accepted request means is what its tree says, by the text of its type, with every name, list, group and permission |
| RequestFrontEnd.AcceptedIsReady | src/wstangoproc_common/ParsingInputJson.cpp:209-464 | an accepted request has the keys of the type it is handled as, and no empty values |
| RequestFrontEnd.PermissionFor | src/wstangoproc_common/UserControl.cpp:235-291 | what permission is asked for, with every key found |
| RequestFrontEnd.SendRequestForAuth | src/wstangoproc_common/WSTangoConn.cpp:275-290 | both keys are found, and the branch for empty credentials is never taken |
| RequestFrontEnd.SendRequestAsync | src/wstangoproc_cli/WSTangoConnCli.cpp:109-148 | commands, reads and writes are recognised, with every key found |
| RequestFrontEnd.SendRequest | src/wstangoproc_cli/WSTangoConnCli.cpp:39-57 | pipe reads are recognised, with every key found |
| RequestFrontEnd.SendRequestEvent | src/wstangoproc_cli/WSTangoConnCli.cpp:59-86 | event requests are recognised, and an event processor is there when it is used |
| RequestFrontEnd.OnMessage | src/wstangoproc_common/WSThread.cpp:38-177 | exactly the messages with an acceptable tree are not rejected, and what is set about for them is what the tree says by the text of its type; so none is answered as unsupported or for empty credentials |

## Left out

- Tango itself: the outcome of `subscribe_event`, of making a proxy, and of asynchronous calls is an oracle; ids are assumed never to be handed out twice, which is what Tango promises.
- Locks: each section under a lock is one atomic step, for the registry one list of an add, a removal, a look-up or a disconnect. Weak handles are identities.
- Lingering subscriptions: whether Tango ends those of a proxy when the proxy is deleted is not modelled; it may hold them from then on.
- Memory: callbacks, proxies and connection data are identities in the registry's maps, so their contents and lifetime outside the log of calls are not modelled.
- Iteration order: hash maps are walked in the order of a given sequence, or in any order.
- EventRegistry.EventProcCli.AddCallback: says nothing of the id in the response of a later listener, which the source leaves unset.
- EventRegistry.EventProcCli.RemDevReq: the id arrives as a number or as none; parsing it with `stoi` is not modelled. Options cut off attribute names arrive cut off.
- EventRegistry.EventProcCli.SendMessage: the text sent, and the connections closed when sending fails, are not modelled.
- Md5.Md5State.Append: lengths are unbounded, so the wrap-around of a size of 2^61 bytes or more in one call is not modelled; alignment of the data in memory is not either.
- Masking: words are sequences of bytes by weight, and reading one from memory is an operation of the host; the cast of a buffer to words of the source is that operation.
- Utf8: bits of bytes and codepoints are arithmetic on integers; the codepoint after a rejection is not modelled, as nothing reads it.
- Uri.UriObject.constructor: the fields of a URI that does not parse are not described; the other constructors are left out.
- Scheduler: `on_message`, which looks up its connection without the lock, is the steps that register tasks and that handle a failed send; that a handle is new when it is opened and a task's id new for its connection is assumed. Texts of replies, the condition variable and the sleep are left out.
- RequestFrontEnd: client mode only. What handlers do after their required keys are found (building proxies and groups, options, `argin`, precision, image dimensions) and all response texts are left out; so are server mode and the connection limit.
- RequestInput: JSON text is given as a property tree, or as none if it does not parse; `get_child` follows a path whose parts the separator `|` ends.
- Authentication and permission policy, logging, sockets, TLS and the device classes: decided elsewhere or boilerplate.
