# Media framework: proofs about its tone generator, focus service, messaging and sessions

A Dafny model of the parts of the media framework in which the most can go wrong, with proofs over every
input, every run and every interleaving.  `dafny verify dfyconfig.toml` checks all of it.

## What is modelled

**DTMF tones** (`Words`, `DtmfStability`, `Dtmf`, `DtmfPitch`).  The oscillator is a second-order recurrence in Q15
arithmetic, written in wrapping unsigned words.  `DtmfStability` proves the integer recurrence stable by a
quadratic form: each rounded step adds at most one half to the radius.  `Dtmf` has the words of the code,
proves that they carry the integer recurrence as long as a doubled state fits in 32 bits, and that every sample
of every key is the mean of two tones that never leave 16-bit range.  `DtmfPitch` says which pitch each key has, how
strong its tones are, and how far they are from the ideal oscillator.

**Audio focus** (`FocusSpec`, `FocusStack`, `FocusPolicy`, `MediaFocus`, `FocusRuns`, `FocusOrder`, `FocusStale`,
`FocusAnswers`).
`FocusStack.Stack` is the list threaded through a node array, changed in place by the operations of
`server/focus_stack.c`; its invariant is the representation invariant.  `MediaFocus.Focus` is request and
abandonment.  `FocusRuns` follows what each client has last been told over whole runs, with any threads
alive at each step, `FocusOrder` the order of levels and what handles do, and `FocusStale` has runs after which a
suggestion is about a focus that is gone; `FocusAnswers` says what every request is answered and who hears of it.

**Messages** (`Bytes`, `Framing`, `Parcel`, `Receivers`, `Marshal`, `Scan`, `Messages`, `Wire`).  `Parcels.Parcel` is
the growing chunk.  `Framing` is one decoder that takes a stream byte by byte; the three receivers of the
framework, which can all stop anywhere, are proved to make the same of what they read.  `Marshal` and `Scan`
are the printf-like formats, and `Messages` follows a call from client to handler and back into the caller's buffer.
`Wire` spells out the bytes.

**Remote calls** (`UvSpec`, `MediaUv`, `UvGate`, `UvOrder`, `UvOnce`, `UvLog`, `UvLate`, `UvEarly`, `UvWait`,
`Rpc`, `RpcMisuse`, `UvUse`, `Calls`, `Transmit`).
`UvSpec` is the asynchronous client on plain values, with a log of its writes, and `MediaUv.Proxy` the client that
changes its fields in place, refines it and keeps as its invariant what is proved of runs.  A user's callback is given
by the calls it makes.  `Rpc` puts the client, the server and two byte streams together and proves that replies reach
their own requests, `Calls` that each callback reads what the handler answered to its call; `UvLate`, `UvEarly` and
`RpcMisuse` say what goes wrong outside the documented use, and exactly when; `UvWait` what the first reply settles and
when a message waits for ever.  `Transmit` is the sending loop and the server's receive loop.

**Sessions** (`Metadata`, `MetadataText`, `SessionSpec`, `MediaSession`, `SessionOrder`, `SessionFields`,
`SessionCache`).  The server's move-to-front list of controllees, a clock on histories that it refines, what each
history says of each field, and the controller's cache, which is made stale by events on one channel and refreshed by
replies on another, in which the metadata travels as text.  A text that overruns the buffers of its reader, or leaves
one unwritten that is read, is an outcome of its own, from which on nothing is promised; the cache theorem says
exactly when it comes to that.

**Connection slots** (`SlotSpec`, `MediaServer`).  Which connection a slot belongs to, and when its mutex is
initialised.

Properties that fail outside a condition are stated with the exact condition, and a counterexample where it does
not hold: `Dtmf.ProductExact`, `FocusRuns.ClearCoherentExactly`, `FocusOrder.SortedExactly`,
`Parcels.AppendedEconomical`, `Marshal.SeenExactly`, `Messages.BufferAfterCall`, `UvLate.LateReconnectExactly`,
`UvEarly.EarlyListenExactly`, `UvWait.WaitingExactly`, `Rpc.ReconnectExactly`, `Rpc.FirstReplyExactly`,
`MetadataTexts.ReadsExactly`, `MetadataTexts.RecordBackExactly`, `SessionCache.CacheCoherent`,
`SlotSpec.ZeroDescriptor`.

Where the code and its comments disagree the model follows the code: the comment above the split multiply
(`client/media_dtmf.c:58`) doubles the sum of both parts, the code only the high part; and
`media_uv_controller_receive_metadata_cb` tells the user of an error and then of success
(`client/media_uv_session.c:165-171`).

## Model

| member | source | states |
|---|---|---|
| DtmfStability.AdvanceEnergy | client/media_dtmf.c:116-119 | for every coefficient 0 < C < 32768 and any state, one rounded step takes a state of energy at most R² to one of energy at most (R + 1/2)² |
| DtmfStability.IterateEnergy | client/media_dtmf.c:115-130 | so after n steps the energy is at most (R + n/2)², for every n and every start |
| DtmfStability.AmplitudeBound | client/media_dtmf.c:103-135 | the newest value y after n steps satisfies y²·(1 − (C/32768)²) ≤ (R + n/2)² |
| DtmfStability.WithinLimit | client/media_dtmf.c:103-135 | a limit the radius stays under at step n holds every value up to step n |
| Dtmf.ProductExact | client/media_dtmf.c:69-78 | for every 16-bit a and 32-bit b the split multiply is floor((a·b + 2^14)/2^15) exactly when the low half does not go negative and not both factors are the least of their type; in particular for every a ≥ 0 |
| Dtmf.AdvanceRefines | client/media_dtmf.c:116-121 | while the doubled state fits in 32 bits, a step of the wrapping code is a step of the integer recurrence |
| Dtmf.IterateRefines | client/media_dtmf.c:115-121 | the same for any number of steps, for every coefficient that is not negative |
| Dtmf.WrappingIsStable | client/media_dtmf.c:103-135 | from any start whose radius stays clear of 2^30 the wrapping code computes the integer recurrence, and its signed values keep the amplitude bound |
| Dtmf.MixIsMean | client/media_dtmf.c:123-127 | with both tones in 16-bit signed range the unsigned shift stores floor((low + high)/2) |
| Dtmf.Oscillator | client/media_dtmf.c:103-135 | the loop writes count samples, each the mix of the two tones after as many steps, returns the states reached, and leaves the rest of the buffer alone |
| Dtmf.LoopEndsExactly | client/media_dtmf.c:117 | the 16-bit counter of that loop reaches the count exactly if the count has 16 bits, so for more samples the loop never ends |
| Dtmf.KeypadLayout | client/media_dtmf.c:154-325 | a key sounds the row tone and the column tone of its place on the Q.23 keypad, and a character that is no key is silent, both ways round; which frequencies these are is in `DtmfPitch.KeyPitch` |
| Dtmf.ToneInRange | client/media_dtmf.c:154-325 | every tone of every key stays strictly between −32768 and 32768 for all 1200 steps |
| Dtmf.KeySampleStored | client/media_dtmf.c:103-135 | the word the code stores for sample i of a key is the mean of the two integer tones, in 16-bit range, or zero for silence |
| Dtmf.Generating | client/media_dtmf.c:154-325 | one frame holds the 1200 samples of its key; the rest of the buffer is unchanged |
| Dtmf.Generate | client/media_dtmf.c:348-363 | sample j of the buffer is sample j mod 1200 of key j / 1200; a missing or empty string or a null buffer is refused with nothing written |
| Dtmf.BufferSizeFits | client/media_dtmf.c:376-382 | the size returned is the number of bytes that generating fills, exactly while an int can hold it |
| DtmfPitch.KeyPitch | client/media_dtmf.c:154-325 | the key in each row and column of the keypad sounds the two frequencies of Q.23 that belong there: each coefficient is within one unit in 32768 of the cosine of 2π times the frequency over 8000, by enclosures of π and the cosine |
| DtmfPitch.KeyStrength | client/media_dtmf.c:38-43 | the samples of a key are the means of two tones that start with a second state of 31000, and the energy of each start lies between the squares of two neighbouring integers |
| DtmfPitch.FirstSample | client/media_dtmf.c:115-128 | key 1 begins with the sample 3993 |
| DtmfPitch.NearIdeal | client/media_dtmf.c:116-119 | from any start, n samples of the rounded recurrence miss the exact one by an amount whose square, weighed with 1 − (C/32768)², is at most (n/2)² |
| FocusStack.Stack.Listed | server/focus_stack.c:84-97 | no client is listed twice, and a listed node is in the slot its client id names |
| FocusStack.Stack.Contents | server/focus_stack.c:472-510 | the representation invariant every method keeps: distinct ids in range, at most max_size of them, the first alone TOP and the others UNDER |
| FocusStack.Stack.constructor | server/focus_stack.c:472-510 | a new stack is empty and has all its slots free |
| FocusStack.Stack.NodeListRemove | server/focus_stack.c:84-97 | resets a used slot, refuses a free one |
| FocusStack.Stack.Top | server/focus_stack.c:114-125 | the first focus, or an error for an empty stack |
| FocusStack.Stack.Pop | server/focus_stack.c:127-161 | takes the first off, raises the next to TOP and makes the one callback about it |
| FocusStack.Stack.Push | server/focus_stack.c:163-206 | puts a focus first as TOP and lowers the old top, which is the one told; it fails only when full or without an id, changing nothing |
| FocusStack.Stack.Insert | server/focus_stack.c:208-248 | puts a focus UNDER at the index; index 0 of a non-empty stack is refused and leaves the list and every slot as they were |
| FocusStack.Stack.Delete | server/focus_stack.c:250-286 | removes exactly the focus with that id and keeps the order of the rest; the callback is handed back |
| FocusStack.Stack.UselessClear | server/focus_stack.c:288-329 | exactly the foci of living threads are left, in order, and the only callback is to the survivor that becomes TOP next to the last dead top |
| FocusStack.Stack.TopChangeBroadcast | server/focus_stack.c:331-356 | every focus but the top is told about the top, once, in order; refused for fewer than two |
| FocusStack.Stack.Clean | server/focus_stack.c:358-380 | empties the stack and tells every focus that it has quit |
| FocusStack.Stack.SearchClientId | server/focus_stack.c:382-402 | the position of the id, or an error exactly when it is not listed |
| FocusStack.Stack.GetIndex | server/focus_stack.c:426-444 | the focus at the position, or an error exactly when there is none |
| FocusStack.Stack.FreeClientId | server/focus_stack.c:521-535 | the least free slot unless the stack is full; by counting, the search never comes back empty |
| FocusPolicy.HandleRoundTrip | server/media_focus.c:55-56 | decoding an encoded id gives the id back, in a 32-bit int exactly if the id has 16 bits, and the handle passes the check for validity |
| FocusPolicy.IndexInRange | server/media_focus.c:306-314 | a matrix index made of two levels is below num², so the "no matched data" branches cannot be reached |
| FocusPolicy.ArbitrateUnder | server/media_focus.c:288-320 | the suggestion to a focus under the top is the passive entry of the matrix in the row of the top and the column of the focus |
| FocusPolicy.StreamIndex | server/media_focus.c:387-397 | the number of a stream is that of the first name equal to it |
| FocusPolicy.InsertIndex | server/media_focus.c:339-350 | an insertion goes before the first focus of at least its level |
| FocusPolicy.LeastFree | server/focus_stack.c:521-535 | the least slot that no listed focus has |
| MediaFocus.Focus.FocusIdInsert | server/media_focus.c:339-358 | the search and the insertion put the focus at the place of its level, or refuse it at place 0 |
| MediaFocus.Focus.TakeOver | server/media_focus.c:427-430 | a focus answered PLAY becomes the top and every other is told |
| MediaFocus.Focus.Compete | server/media_focus.c:419-448 | the active entry of the matrix decides between taking over, being inserted and being refused |
| MediaFocus.Focus.Admit | server/media_focus.c:401-465 | slot, placement, handle and suggestion of a request after dead threads are gone; a push after a successful allocation cannot fail |
| MediaFocus.Focus.Request | server/media_focus.c:360-466 | the whole request, with its null and unknown-stream cases, keeps the invariant and has the specified effect on stack, callbacks, handle and suggestion |
| MediaFocus.Focus.Leave | server/media_focus.c:483-501 | leaving: the top is popped and the others told, anyone else is deleted silently |
| MediaFocus.Focus.Abandon | server/media_focus.c:468-502 | the whole abandonment, with an empty stack; a handle below 15 is refused and changes nothing |
| FocusRuns.NewFocusFree | server/media_focus.c:401-412 | below the depth there is always a free slot, by pigeonhole, and the handle made of it decodes to it |
| FocusAnswers.RequestAnswered | server/media_focus.c:360-466 | after every run, with any threads alive, and spelled out by the entries of the matrix: when a request is not answered, refused with a null handle, granted or told to stop; the suggestion; a handle of at least 15 that names no slot for STOP, and otherwise one that names a free slot whose new focus stands on top, or under all lower levels and above the others |
| FocusAnswers.RequestHeard | server/media_focus.c:398-430 | who is told of a request: the first survivor of a dead top, and, of a take-over, everyone who was listed, once and in order |
| FocusAnswers.LeavingTells | server/media_focus.c:468-502 | who is told of an abandonment: besides that survivor, all who remain if the top left, and nobody if another did |
| FocusAnswers.ClearedExactly | server/focus_stack.c:288-329 | a client is left by clearing exactly if it was listed and its thread lives |
| FocusAnswers.ClearEach | server/focus_stack.c:302-326 | the one callback of clearing is about the first survivor and the dead focus right above it |
| FocusAnswers.BroadcastEach | server/focus_stack.c:331-356 | a broadcast tells each focus under the top, in order, about the top |
| FocusAnswers.CleanEach | server/focus_stack.c:358-380 | cleaning tells each focus, in order, that it has quit |
| FocusRuns.TopAlwaysPlays | server/media_focus.c:360-502 | in every run, under any pattern of thread deaths, the stack is sound and the last suggestion delivered to the top is PLAY |
| FocusRuns.RunCoherent | server/media_focus.c:360-502 | in every run whose deaths are harmless, every other client was last told the passive entry against the current top, or still has the active entry it was admitted with under that same top |
| FocusRuns.CoherentWithoutDeaths | server/media_focus.c:323-337 | the same in every run in which no holder's thread dies |
| FocusRuns.ClearCoherentExactly | server/focus_stack.c:302-326 | clearing dead threads keeps everyone's suggestion right, for every matrix and history, exactly when the stack is empty, its top lives or at most one focus survives |
| FocusStale.StaleRun | server/focus_stack.c:302-326 | for every number of streams and every pattern of deaths that spares at least two of those below a dead top, a run from the start ends with a client whose last suggestion is about a focus that is gone |
| FocusOrder.RunSorted | server/media_focus.c:339-358 | if PLAY is only answered to levels not above the top's, levels never decrease from top to bottom, in every run |
| FocusOrder.SortedExactly | server/media_focus.c:416-456 | that condition on the matrix is necessary as well |
| FocusOrder.AbandonEffect | server/media_focus.c:468-502 | with all holders alive, abandoning a live handle removes exactly its client and keeps the others in order; any other handle changes nothing |
| FocusOrder.RefusedHandleIsInert | server/media_focus.c:458-465 | the handle of a refused request never changes any later stack |
| FocusOrder.GrantedHandleLeaves | server/media_focus.c:360-502 | requesting and abandoning at once gives the old clients back in their order |
| Bytes.LeRoundTrip | utils/media_parcel.c:139-187 | a number written in k bytes reads back modulo 256^k |
| Bytes.SignedRoundTrip | utils/media_parcel.c:159-177 | a number in the signed range of k bytes reads back as itself |
| Bytes.FromLeInverse | utils/media_parcel.c:338-341 | writing what was read gives the same bytes |
| Parcels.AppendedEconomical | utils/media_parcel.c:52-79 | one append keeps the economy of the parcel exactly as long as doubling does not wrap in 32 bits or so much is wanted at once that the moves stay cheap; and exactly when the room is at least doubled |
| Parcels.AppendsEconomical | utils/media_parcel.c:123-137 | over every sequence of appends of up to 2 GiB in all: length within room, room 256 or less than twice the length, and all reallocations together copy at most room − 256 payload bytes |
| Parcels.TwoGigabytesAtMost | utils/media_parcel.c:60-61 | for every greater total below 4 GiB there are appends whose reallocations copy more than that, as doubling wraps |
| Parcels.Parcel.constructor | utils/media_parcel.c:81-88 | a new parcel is empty, with room for 256 bytes and a zero header |
| Parcels.Parcel.Reinit | utils/media_parcel.c:96-100 | back to the state of a new parcel |
| Parcels.Parcel.Grow | utils/media_parcel.c:52-79 | keeps the header and the payload, and gets exactly the specified room or, when it cannot be had, changes nothing |
| Parcels.Parcel.Append | utils/media_parcel.c:123-137 | the payload is the old one and the data, with code and cursor kept; on failure nothing is changed; it fails exactly when the room cannot be had |
| Framing.FeedSplit | utils/media_parcel.c:282-311 | decoding a stream in two parts is decoding it in one, wherever it is cut, also within a header |
| Framing.DecodeEncoded | utils/media_parcel.c:264-311 | the decoder yields exactly the parcels that were encoded |
| Framing.AnySplit | utils/media_parcel.c:264-336 | for every sequence of parcels and every cutting of the stream into pieces, exactly their codes and payloads come out |
| Framing.PrefixDecodes | utils/media_parcel.c:282-311 | at any moment a prefix of the parcels has come out |
| Framing.HeadFrame | utils/media_parcel.c:282-311 | what a resumed reader completes is the next parcel that was sent, and the rest of the stream is the others |
| Wire.FrameBytes | utils/media_parcel.h:41-46 | a frame is its code and the length of its payload, each in four bytes with the least significant first, and then the payload |
| Wire.AnswersAcked | server/media_server.c:145-160 | of what a server handles exactly the requests with code 2 are answered, each by one frame with code 3 |
| Receivers.Arrive | utils/media_parcel.c:293-304 | storing bytes and making room when the header is complete leaves the bytes of the frame so far, and fails only for a length whose room does not fit in 32 bits |
| Receivers.Recv | utils/media_parcel.c:282-311 | the socket reader takes bytes off the stream in order and stops with one decoded frame, with the decoder's state when there is no more or the peer hung up, or for want of room |
| Receivers.RecvFrom | utils/media_parcel.c:313-336 | the buffer reader takes what the frame still wants or all there is, and makes the same of it as the decoder |
| Receivers.RoomIsWanted | client/media_uv.c:415-425 | the buffer offered to the event loop is what the frame still wants and lies within the chunk |
| Receivers.ReadCb | client/media_uv.c:427-461 | the event-loop reader makes the same of each read as the decoder, and starts afresh after a frame |
| Receivers.Socket.Recv | utils/media_parcel.c:291-301 | the environment: a read takes at least one and at most n bytes off the front of the stream, or none when it is empty |
| Receivers.Socket.Send | utils/media_parcel.c:271-277 | the environment: a write takes a beginning of the bytes and at least one, or fails exactly when the socket takes no more writes |
| Transmit.SendAll | utils/media_parcel.c:271-280 | however short the single writes are, all of the bytes are put on the stream, or a proper beginning of them and an error, which only happens when the socket takes no more; each write it took moved at least one byte |
| Transmit.SetCode | utils/media_parcel.c:264-269 | setting the code makes the chunk the encoding of code and payload |
| Transmit.Send | utils/media_parcel.c:264-280 | so all of the encoding of code and payload is put on the stream, or a proper beginning of it and an error once the socket takes no more |
| Transmit.RepliesInTurn | server/media_server.c:145-173 | answering request by request makes the same replies as the whole history |
| Transmit.ServerStepAnswers | server/media_server.c:145-173 | a server step of the whole system puts exactly those replies on the stream |
| Transmit.Dispatch | server/media_server.c:151-168 | an acknowledged request gets one reply with the handler's payload and any other frame none, unless the socket takes too few writes for it |
| Transmit.Receive | server/media_server.c:132-173 | the receive loop handles exactly the frames in the bytes it read, after those handled before, and writes exactly their replies in order, unless the socket takes fewer writes than there are bytes to write |
| Marshal.SeenExactly | utils/media_parcel.c:139-195 | a value comes back unchanged exactly when it fits its conversion and is not the empty string |
| Marshal.ReadArgs | utils/media_parcel.c:423-480 | whatever the format and the bytes, the cursor stays between where it was and the length |
| Marshal.ReadOne | utils/media_parcel.c:36-46 | whatever the bytes, one conversion leaves the cursor within the length |
| Marshal.ZeroFrom | utils/media_parcel.c:405-421 | the search for the end of a string finds the first zero byte |
| Marshal.RoundTrip | utils/media_parcel.c:197-250 | for every format and matching arguments, wherever they stand, reading gives the values written and leaves the cursor right behind them |
| Wire.ConversionSizes | utils/media_parcel.c:197-250 | the seven conversions of a format and the number of bytes each takes |
| Scan.AppendVprintf | utils/media_parcel.c:197-250 | appends the encoding of all arguments, or a beginning of it when room runs out; a parcel that was filled by appends has the room whenever the total is below 2 GiB |
| Scan.Copy | utils/media_parcel.c:36-46 | a fixed-width read takes the bytes at the cursor, or nothing when they are not all there |
| Scan.ReadString | utils/media_parcel.c:405-421 | reads up to the next zero byte; an empty or unterminated string is null |
| Scan.ReadVscanf | utils/media_parcel.c:423-480 | the loop over the format reads what the specification says, up to the first number that does not fit |
| Messages.RequestArrives | server/media_stub.c:55-121 | for each module the handler is given target, command, argument, flag and length as the client passed them, with empty text as null |
| Wire.RequestOnWire | client/media_proxy.c:378-411 | the bytes of the request of each module: its number, target, command and what else it takes, in this order, texts with a zero at the end |
| Wire.ReplyOnWire | server/media_stub.c:44-53 | the bytes of a reply and of a notice |
| Messages.CallRoundTrip | client/media_proxy.c:363-435 | for each module and every handler, the client reads the handler's result and text for exactly the call it made |
| Messages.ReplyArrives | server/media_stub.c:129-130 | a reply reads back as its result and text |
| Messages.EventArrives | server/media_stub.c:44-53 | a notification reads back as its event, result and text |
| Messages.BuildRequest | client/media_proxy.c:378-411 | the request of each module id, always when it is below 2 GiB; any other id is refused |
| Messages.ReadCall | server/media_stub.c:55-121 | on any bytes at all the stub makes the specified call, with fields it could not read left null or zero |
| Messages.OnReceive | server/media_stub.c:55-133 | the reply is the handler's answer, or the error for an unknown module, always when it is below 2 GiB, and otherwise a beginning of it |
| Messages.ReadReply | client/media_proxy.c:420-434 | the result of the call; the text is copied only if the result is no error and there is room, cut to the room |
| Messages.BufferAfterCall | client/media_proxy.c:420-434 | what the caller finds in its buffer after a whole call: nothing exactly after an error or without room, the handler's text, cut to one character less than the room if it is longer, and a copy from null exactly when the handler left its text empty |
| Calls.EachReadsItsOwn | client/media_uv.c:466-484 | over the wire: each callback reads the result and the text with which the handler answered that callback's own call, after all requests handled before it |
| Calls.CallsAnswered | server/media_stub.c:55-133 | so it is in every run of client and server that leaves no connection with a request outstanding |
| MediaUv.Proxy.constructor | client/media_uv.c:723-762 | the first server is tried at once, and the invariant of all runs holds |
| MediaUv.Proxy.DeliverWritings | client/media_uv.c:582-592 | the loop writes all of the pending queue, in order |
| MediaUv.Proxy.Send | client/media_uv.c:827-864 | an accepted message stands behind everything written or waiting so far, and a refused one nowhere; nothing written is taken back and the invariant is kept |
| MediaUv.Proxy.ClearQueue | client/media_uv.c:217-227 | the loops empty both queues and run no callback |
| MediaUv.Proxy.Disconnect | client/media_uv.c:764-779 | refused the second time; the invariant is kept and nothing written is taken back |
| MediaUv.Proxy.Reconnect | client/media_uv.c:781-795 | refused once there is a listener; the invariant is kept, whatever it does to the queues, and nothing written is taken back |
| MediaUv.Proxy.Listen | client/media_uv.c:797-825 | refused for a second listener; the invariant is kept and nothing written is taken back |
| MediaUv.Proxy.Callback | client/media_uv.c:332-362 | the loop over the calls of a callback has their effect one after the other |
| MediaUv.Proxy.ConnectOneCb | client/media_uv.c:332-362 | a connection made or failed keeps the invariant, whatever a documented on_connect does |
| MediaUv.Proxy.HandleParcel | client/media_uv.c:466-511 | a reply keeps the invariant, also the first one, which settles the connection as the rows of `UvWait` say, whatever a documented on_receive does |
| MediaUv.Proxy.ListenOneCb | client/media_uv.c:627-668 | an accepted listener keeps the invariant, whatever on_listen does |
| MediaUv.StepKept | client/media_uv.c:332-668 | the invariant of the object: guarded writes, their order, known connections and the number of names are kept by every documented event, and nothing written is taken back |
| MediaUv.SendAppends | client/media_uv.c:538-608 | whether it is written at once or queued, a message that is accepted comes last |
| UvGate.StepKeepsGate | client/media_uv.c:466-668 | every event keeps: connecting exactly while there is no reply, nothing pending when idle, and every queued write so far allowed; provided on_connect binds no listener and no on_receive of an idle client reconnects |
| UvGate.QueuedWritesAllowed | client/media_uv.c:582-608 | in every documented run a queued message is written only to a server that replied and was not followed by a reconnect request, or for a disconnecting handle; an idle client has nothing queued |
| UvGate.EarlyListenLeaks | client/media_uv.c:332-362 | a run in which on_connect binds a listener, and a queued message goes to a server that has not replied |
| UvEarly.EarlyListenExactly | client/media_uv.c:332-362 | whatever on_connect has called before it listens, every documented continuation keeps queued messages from servers that have not replied, exactly when one of those calls has raised a flag, so that the listener is not bound at once |
| UvOrder.WritesInOrder | client/media_uv.c:582-608 | in every run, documented or not, no message is written twice, those submitted outside on_connect and on_listen are written in the order of submission, and nothing waits while the client is idle or has no server left |
| UvOrder.DeliveredTrace | client/media_uv.c:582-592 | delivering moves messages from the queue to the pipe and keeps their order |
| UvOrder.TriesBounded | client/media_uv.c:308-327 | in every run, documented or not, no more servers are tried than there are names |
| UvWait.GreetingGoesOut | client/media_uv.c:353-361 | whatever flags are up, what on_connect sends is written at once to the connection just made, and the flags are back afterwards |
| UvWait.SettledListens | client/media_uv.c:486-491 | at the first reply with the listening flag alone, exactly one message is written, with code 4, the listener is bound and the others go on waiting |
| UvWait.SettledDelivers | client/media_uv.c:493-496 | at the first reply without a flag, all that waited is written in order and the client is idle |
| UvWait.SettledReconnects | client/media_uv.c:503-507 | at the first reply with the reconnecting flag the next name in order is tried with the queues kept; with none left both are dropped |
| UvWait.SettledLeaves | client/media_uv.c:498-501 | at the first reply with the disconnecting flag all that waited is written in order and the pipe closed |
| UvWait.ListenerBound | client/media_uv.c:466-668 | in every run, documented or not, a listening flag that no other flag holds back means a bound listener while there is a server, and messages only wait for a first reply, for the listener to be connected to, or on a handle that is leaving |
| UvWait.ListenerForgotten | client/media_uv.c:503-507 | a documented run in which no server is left and the listening flag stays up without a listener |
| UvWait.WaitingExactly | client/media_uv.c:466-668 | when a message waits in a documented run, something can still be written exactly while a connection or a first reply can still come or the listener be connected to, for which on_connect must have sent a message that wants a reply; otherwise nothing ever is |
| UvWait.FailedConnection | client/media_uv.c:345-351 | after a connection that fails nothing is ever written again, whatever its on_connect and the user call, as the flag that asks for another server is only looked at after a reply |
| UvLate.LateReconnectExactly | client/media_uv.c:484-508 | after a reconnect asked for by an on_receive of an idle client, every documented continuation keeps queued messages from servers that have not replied, exactly when a listener forbids it or no name is left |
| UvLate.LateReconnectLeaks | client/media_uv.c:484-508 | a run from the start with that one call, in which a queued message goes to a server that has not replied |
| UvLog.StepAdvances | client/media_uv.c:538-561 | every event only adds to what was written, and only writes to the current connection or a later one |
| UvOnce.CallbacksOnce | client/media_uv.c:566-577 | in every run, also with failed connections and dropped queues, each message's callback runs at most once |
| UvOnce.StepOnce | client/media_uv.c:466-484 | every event keeps answered, waiting and pending messages apart |
| Rpc.ReconnectExactly | client/media_uv.c:308-327 | when an idle client asks for another server, replies stay matched exactly when no request is outstanding, with or without a name left |
| Rpc.FirstReplyExactly | client/media_uv.c:484-508 | whatever the first on_receive calls, replies stay matched exactly when no other server is to be tried, for these calls or an earlier one, or the reply was to the only request outstanding; a disconnecting handle tries none |
| RpcMisuse.NoNameLeft | client/media_uv.c:308-327 | a run from the start in which an idle client reconnects with a request outstanding and no name left, and the reply then finds the queue empty, where the assertion fails |
| RpcMisuse.NameLeft | client/media_uv.c:308-327 | the same with a name left: the reply to the first message of the new connection goes to the callback of the old request |
| RpcMisuse.AsksTwice | client/media_uv.h:55-113 | a run in which on_connect sends two acknowledged messages and the first on_receive reconnects as the header shows, with the same outcome |
| Rpc.EventFollows | client/media_uv.c:332-668 | every client event extends the queue of those waiting for a reply by exactly the acknowledged messages it writes |
| Rpc.ServerKeeps | server/media_server.c:132-184 | a server read of any size keeps the matching |
| Rpc.ClientKeeps | client/media_uv.c:466-484 | a client read of any size keeps the matching: a completed reply goes to the head of the queue |
| Rpc.ReplyHasOwner | client/media_uv.c:476-477 | when a reply has come in the queue is not empty, so the assertion holds |
| Rpc.RepliesMatch | client/media_uv.c:466-484 | for every handler and every interleaving of sends, fragmentation, handling and replies, client and server stay matched as long as no connection is left with a request outstanding |
| Rpc.QueueShape | client/media_uv.c:538-577 | the queue is the requests whose replies are on their way, then the acknowledged requests on their way |
| Rpc.OwnReply | client/media_uv.c:466-484 | each callback that ran was given the handler's answer to its own request |
| UvUse.AdvisedIsClean | client/media_uv.h:55-113 | the use the header shows, with at most one acknowledged message in on_connect and no reconnect of an idle client while a request is outstanding, never leaves a connection with a request outstanding; both conditions are needed (the rows of Rpc.FirstReplyExactly and Rpc.ReconnectExactly) |
| UvUse.AdvisedUseMatches | client/media_uv.h:55-113 | used that way, with both conditions, whole runs of client and server keep every reply with its request and never fail the assertion |
| Metadatas.MergeTwice | utils/media_metadata.c:56-82 | updates compose, and a later update of the same fields replaces the earlier one |
| SessionFields.MergeKeeps | utils/media_metadata.c:56-82 | each field is that of the news where they flag it, and kept where they do not |
| Metadatas.Metadata.constructor | utils/media_metadata.c:35-38 | a new record is blank |
| Metadatas.Metadata.Reinit | utils/media_metadata.c:50-54 | a record is blank again |
| Metadatas.Metadata.Update | utils/media_metadata.c:56-82 | the flagged fields are taken over, the others kept, and the strings move from the news to the record |
| MetadataTexts.ReadsExactly | utils/media_metadata.c:84-110 | a record printed into a buffer of any size that takes the numbers reads back exactly when the first two words of the text after them, as far as it fits, are shorter than 128 characters and those that the flags call for are there; then it is the numbers and flags with these words, and otherwise a buffer is run over exactly when one of the words is too long |
| MetadataTexts.NumbersSurvive | utils/media_metadata.c:84-110 | flags and numbers read back as they were printed, also from a text cut to any buffer of 61 characters or more, whenever title and artist can be read without running over a buffer or reading one that was never written |
| MetadataTexts.RecordBackExactly | utils/media_metadata.c:84-110 | the whole record reads back exactly when title and artist are single words of at most 127 characters where they are known and missing where they are not |
| Wire.MetadataAsText | utils/media_metadata.c:84-89 | the text is flags, state, volume, position and duration with colons, and then title and artist; the flags are the sum of 1 for the state up to 64 for the album |
| Wire.Decimals | utils/media_metadata.c:84-89 | numbers are printed in decimal |
| MetadataTexts.ServedReads | server/media_session.c:141-164 | a record that could be read from a text once can be printed into 256 characters and read again, whatever the lengths of title and artist, with at worst the artist cut |
| MetadataTexts.LongTitleOverruns | utils/media_metadata.c:93-100 | any title of 128 characters or more in one word runs over its buffer, also from a text that was cut to 256 characters |
| MetadataTexts.EmptyArtistUnread | utils/media_metadata.c:102-106 | an artist that is flagged but empty is read although nothing was written to its buffer |
| MediaSession.MediaSession.Notify | server/media_session.c:190-203 | goes to every controller that wants events, in order, exactly if the sender is the head |
| MediaSession.MediaSession.Open | server/media_session.c:128-139 | a new controller comes first and wants no events |
| MediaSession.MediaSession.SetEvent | server/media_session.c:332-335 | exactly that controller now wants events |
| MediaSession.MediaSession.Close | server/media_session.c:166-171 | exactly that controller is gone |
| MediaSession.MediaSession.Register | server/media_session.c:173-188 | a new controllee comes last, announced only if it is alone |
| MediaSession.MediaSession.Update | server/media_session.c:205-227 | the news are read from their text, and fail exactly when it cannot be read; else they are merged in place, the head announces an update, another that plays becomes the head |
| MediaSession.MediaSession.Unregister | server/media_session.c:229-248 | exactly that controllee is gone; a lost head is announced |
| MediaSession.MediaSession.Transfer | server/media_session.c:141-164 | a query is answered with the head's data as text, cut to the room, and its full length; the seven commands in their order are forwarded to the head as the events 103 to 109; the rest is refused |
| SessionOrder.RunIsTimely | server/media_session.c:173-248 | every operation keeps the list and each controllee's data in step with the history |
| SessionOrder.ListIsTimestampOrder | server/media_session.c:173-248 | in every history the list is exactly the registered controllees, those that have been active by their latest activity and then the others by registration, and no other list is |
| SessionOrder.OnlyOrder | server/media_session.c:205-227 | there is at most one list in that order |
| SessionOrder.HeadNews | server/media_session.c:190-248 | CHANGED is broadcast exactly when the identity of the head changes, with the flags of the news or of the next head, UPDATED exactly when the head itself is updated, an event of a controllee's own exactly when it is the head, and nothing else goes out |
| SessionFields.FieldsAreLatest | server/media_session.c:205-227 | in every history a controllee knows exactly the fields that one of its updates flagged, each with the value of the last update that did, and nothing else |
| SessionFields.ElectedExactly | server/media_session.c:205-227 | an update makes its controllee the head exactly if it was, or its state is known and above zero then |
| SessionFields.SentExactly | server/media_session.c:190-203 | exactly the controllers that want events are sent a notice, each once, in list order |
| SessionCache.Controller.EventCb | client/media_uv_session.c:97-115 | event 101 empties the cache and marks it stale, 102 marks it stale, others change nothing |
| SessionCache.ChangedForgets | client/media_uv_session.c:97-115 | once another head was announced the cache knows no field, and in every run afterwards none that the replies merged since have not flagged |
| SessionCache.Controller.ReceiveMetadataCb | client/media_uv_session.c:152-172 | the metadata in the text of a reply is merged, unless it cannot be read; after an error the user is told twice, the second time with success |
| SessionCache.Controller.Query | client/media_uv_session.c:296-319 | answers from the cache exactly when it is not stale; a query that was sent makes it not stale only while events are listened for |
| SessionCache.HeadOrNews | server/media_session.c:173-248 | the head's metadata never changes without a CHANGED or UPDATED broadcast |
| SessionCache.HistoryIsSane | server/media_session.c:205-227 | in every history whose updates were read from texts, all that the server knows of titles and artists are words of at most 127 characters |
| SessionCache.AnswersRead | server/media_session.c:141-164 | so every answer of such a server to a query can be read by the client |
| SessionCache.LinkStepKeeps | client/media_uv_session.c:97-172 | every step of client, server and either channel keeps the coherence invariant, or is the server reading a text that cannot be read |
| SessionCache.CacheCoherent | client/media_uv_session.c:296-319 | from an established listener on: client and server read every text without running over a buffer or reading an unwritten one exactly as long as no controllee publishes a text that the server cannot read; then, whenever no query is needed or outstanding and no news is on its way, the cache agrees with the head on every number the head knows, on its title, and on as much of its artist as a reply has room for, though events and replies are ordered independently |
| SlotSpec.AcceptPlace | server/media_server.c:221-242 | accepting takes the first free slot and changes no other |
| SlotSpec.StepSound | server/media_server.c:124-242 | every accept, receive, close, notify and finalize keeps the slots sound and leaves a slot with an open socket to its connection |
| SlotSpec.SlotsSound | server/media_server.c:195-442 | in every run each mutex is initialised once and before any lock, no descriptor is in two slots, and no slot with an open socket is given away |
| SlotSpec.ZeroDescriptor | server/media_server.c:202-205 | a mutex stays initialised once exactly because no descriptor is zero |
| MediaServer.Server.Accept | server/media_server.c:221-242 | the loop gives the connection to the first free slot, and refuses it exactly when there is none; sound slots stay sound and keep their connections |
| MediaServer.Server.CreateNotify | server/media_server.c:163-165 | the notify channel of a slot, or a failure to make it; sound slots stay sound, every open slot keeps its connection, and the other slots are untouched |
| MediaServer.Server.Close | server/media_server.c:124-130 | a closed slot is marked as used before and its notify channel kept; sound slots stay sound, every open slot keeps its connection, and the other slots are untouched |
| MediaServer.Server.Notify | server/media_server.c:404-422 | a notice is refused exactly without a notify channel; sound slots stay sound, every open slot keeps its connection, and the other slots are untouched |
| MediaServer.Server.Finalize | server/media_server.c:424-442 | an open notify channel is closed and the socket for requests kept; sound slots stay sound, every open slot keeps its connection, and the other slots are untouched |

## Left out

- Memory: allocation succeeds below 4 GiB and fails from there on; `malloc` failures below that are not modelled.
- Compilers: a right shift of a negative int is arithmetic, narrowing conversions wrap, bytes are little-endian; a missing string is printed as `(null)`.
- Lists: `nuttx/list.h` and `sys/queue.h` are sequences; link fields and a list corrupted from outside are not modelled.
- Callbacks: a focus callback is a record of the change it is told; a user's callback in the asynchronous client is the
  sequence of calls it makes, so a callback run from within such a call is one more call at the same place.
- Callbacks of `media_uv_reconnect_one`: the on_connect it runs when no name is left or no pipe can be made is a call like any other afterwards.
- UvWait.WaitingExactly: says that something can be written, not that the environment lets it be.
- Failures of writes and listeners, peers that hang up, and pipes that cannot be made in `client/media_uv.c`: the environment
  does not produce them; so `nb_sentq` after a failed write (lines 524-529) and the pending queue after a failed listen
  (lines 660-667) are outside the theorems.  Connections that fail are in.
- The counters `nb_pendq`, `nb_sentq`, `nb_sent` and `nb_recv`, the reference counting of handles and their release.
- Splitting of the list of server names: it is given as a sequence.
- Rpc.RepliesMatch: for runs that leave no connection with a request outstanding; `Rpc.ReconnectExactly` and `Rpc.FirstReplyExactly` say when that is needed, and `RpcMisuse` what happens otherwise.
- UvUse.AdvisedIsClean: `client/media_uv.h` states neither of its two conditions, one acknowledged message in on_connect and no reconnect of an idle client with a request outstanding; without them replies are mixed up (`RpcMisuse.AsksTwice`, `RpcMisuse.NameLeft`, `RpcMisuse.NoNameLeft`).
- UvUse.AdvisedUseMatches: with the same two conditions.
- UvGate.StepKeepsGate: for an on_connect that binds no listener and reconnects asked for before the first on_receive has returned; `UvEarly.EarlyListenExactly` and `UvLate.LateReconnectExactly` say when the others do no harm.
- UvSpec.ListenOne: the address in the request for a notify channel (`client/media_uv.c:610-625`) is left empty.
- FocusRuns.RunCoherent: a death of the top with several survivors needs a broadcast in the same step, or suggestions may be stale (`FocusRuns.ClearCoherentExactly`).
- SessionCache.CacheCoherent: for a server all of whose updates so far could be read (`SessionCache.HistoryIsSane`), and replies already on their way that can be; the cache may know fields that the head does not, left over from a reply that was overtaken by an event.
- MetadataTexts.NumbersSurvive: for texts that can be read; what the original does after running over a buffer or reading an unwritten one, and with
  a number that leaves 32 bits, which no printed text holds, is undefined and not modelled further.
- Dtmf.Oscillator: for at most 65535 samples, as the loop never ends for more (`Dtmf.LoopEndsExactly`); the caller passes 1200.
- Dtmf.Generate: for strings whose sample count an int can index.
- Transmit.Receive: once the socket takes no more writes only the frames handled are stated, as the code goes on without resending.
- Receivers.Recv: payloads of 2 GiB and more are refused for want of room; up to there nothing wraps.
- Marshal.RoundTrip: floats and doubles are opaque bytes of fixed width.
- Messages.OnReceive: a handler keeps within the response buffer it is given; which modules are built in is not modelled.
- FocusOrder.AbandonEffect: handles are unbounded integers in runs; `FocusPolicy.HandleRoundTrip` says for which ids an int suffices.
- The focus configuration file and its parser: a complete matrix and distinct stream names are given.
- `media_focus_handler`, `media_session_handler` and their parsing of commands; the dump, display and return functions.
- The threaded clients, `client/media_proxy.c` but for the messages, and locking between threads, but for the order of initialisation and locking.
- `server/media_graph.c`, `server/media_policy.c`, the thin command wrappers, the command line tools and everything under `feature/`.
