# Verified model of the Iroh mobile bridge

The bridge carries framed messages between a React Native application and its peers over QUIC
streams. This project models its stateful core in Dafny and proves what that core promises.

* **One framed stream** (`StreamEngine`, `StreamInvariants`, `StreamSafety`, `StreamShutdown`,
  `StreamArrivals`, `StreamCalls`, `StreamDrain`, `StreamConsumers`, `StreamEarlyReturn`). A
  writer task, a reader task, any number of concurrent `send` and `next_message` calls and the
  closers interleave one atomic action at a time. They share a bounded channel, a byte semaphore,
  an inbox bounded in frames and bytes, two notification cells with one stored permit each, a
  versioned close signal and a closed flag. `Framing` and `FrameStarts` hold the wire format,
  `Inbox` the inbox, `Totals` the sums behind every account (`Sequences`, `Saturating` and
  `Wrappers` hold what all share).
* **Two bridges and the network** (`StreamPair`, `StreamDelivery`). Two such streams joined by an
  ordered byte stream in each direction (section 2.2 of RFC 9000) that may cut its bytes anywhere,
  end or fail. What is delivered is what was accepted, in order, and all of it can be delivered
  from every reachable state in which both sides are at work.
* **The endpoint and its session cache** (`EndpointLife`, `SessionKey`, `SessionCache`,
  `SessionHistory`, `SessionEvictions`, `DialTarget`, `NodeIdText`, `AddressText`). The stamped map
  with eviction is proved to be a list in order of recency cut off at 32, and every entry to belong
  to the node and protocol asked for; a stop is set against the connects it falls between. Every
  hint and every typed target is proved to dial exactly what its text names.
* **The TCP forwarder** (`SingleFlight`, `SharedDials`, `TcpPump`, `ForwarderStats`). Shared
  dialing, alone and on the session cache, the two-way copy with its one-sided end, the counters
  and the burst time.
* **The JavaScript wrapper** (`JsSend`, `JsRetry`, `JsHandlers`, `JsPump`, `JsRegistrations`,
  `JsEnding`, `JsNetwork`, `JsClose`, `JsSession`). The chained, retrying sends and the restartable
  pump run on top of the native stream model. Both halves on both ends and the network make one
  system, in which the ordering result reaches from one application's `send` to the other's
  handlers, and a closed wrapper has closed its native stream. A logical session owns the streams
  opened through it.

The transition systems say what can happen; the main theorems speak of every reachable state or
every run. Where the source updates an object or a buffer in place, a class or a method with a
loop does the same and is proved against the function the theorems are about: `ByteSink`,
`WriteFrame`, `ByteSource`, `ReadFrame`, `SharedInbox`, `ManagedStream`, `Cache`, `StatsState`,
`LogicalSession`, `CollectDirect`, `ToArrayBuffer`.

## Where the code and its documentation part

The model follows the code. Where a promise fails, the failing state is shown to be reached, and
the condition under which the promise holds is exact.

* `next_message` is documented to return nothing only on a timeout or close
  (`rust/iroh_mobile_bridge/src/lib.rs:976`). A notification left over from a frame already
  taken ends the wait early (`StreamEarlyReturn.StaleNoticeIsReachable`). With one call at a time
  that needs an empty inbox and an outstanding notification
  (`StreamEarlyReturn.ReturnsEarlyExactlyOnStaleNotice`); with calls side by side any
  notification that is outstanding or can still come is enough, because another call can take the
  frame first, and so is another call that has been woken, because it hands its wake-up on if its
  own time runs out (`StreamEarlyReturn.ReturnsEarlyExactlyWhenNoticed`,
  `StreamEarlyReturn.HandedOnWakeupIsReachable`).
* A waiting call is woken when a frame arrives only if callers keep to one `next_message` at a
  time. With two, the one-permit notification can be spent on one of them and the other sleeps
  on: `StreamConsumers.WakeupsAreSafeExactlyWhenSolo`. The JavaScript wrapper keeps to one:
  `JsPump.NativeCallsTakeTurns`.
* The survivors of the session cache are the 32 most recently used exactly while the cache is full
  or nothing is missing from it (`SessionHistory.SurvivorsAreExactWhenFullOrWhole`);
  removing a closed entry after an eviction breaks that, and nothing else does
  (`SessionHistory.ARemovalCanBreakExactness`, `SessionEvictions.InexactExactlySinceARemoval`).
* Stopping the endpoint leaves both maps empty exactly if no connect was past its dial, or still
  dialing where a dial can outlive the endpoint (`EndpointLife.StopEmptiesExactlyWhenNoneUnderWay`,
  `EndpointLife.StopCanLeaveAStream`).
* Closing a logical session closes its streams in order, and an error from one native close ends
  the round with the later streams open and no longer owned
  (`JsSession.AThrowLeavesTheNextOpen`, `JsSession.CloseEndsAllExactlyWhenNoneThrows`). Natively a
  close errs only on a poisoned state lock, which the native model leaves out; to the wrapper the
  call itself may fail (`react-native/src/index.js:69-75`), so here it may throw.
* The pump looks at the inbox and at the open flag in two native calls, and the last frames of a
  stream that ends cleanly can come in between and never be handed over
  (`JsEnding.LastFrameCanBeLost`). Nothing is lost exactly if, when the pump gets its answer, the
  inbox is empty and the reader can push nothing more (`JsEnding.EndLosesNothingExactlyWhen`).
  While nobody but the pump acts and no call fails it takes everything
  (`JsEnding.UndisturbedPumpTakesAll`). Without a message handler no race is needed: nothing is
  ever taken (`JsEnding.NothingIsTakenUnheard`), so a stream that only has the close handler of
  its session loses what it received (`JsEnding.UnheardFrameIsLost`).
* A node id means the same by hint and in a typed target unless it is good and has a blank before
  its scheme (`NodeIdText.RoutesAgreeExactly`); then a typed target dials it and a request by hint
  refuses it (`NodeIdText.PaddedIdsDependOnTheRoute`).
* The pump's `finally` block can start the pump again, but never has to:
  `JsPump.RestartIsNeverNeeded`.

## Model

| member | source | states |
|---|---|---|
| Framing.BigEndianRoundTrip | rust/iroh_mobile_bridge/src/lib.rs:428-447 | the length header reads back as the length it was written for |
| Framing.HeadersOrderAsLengths | rust/iroh_mobile_bridge/src/lib.rs:428-447 | headers compare byte by byte as the lengths they announce, so the most significant byte comes first and there is only this one layout |
| Framing.DecodeEncoded | rust/iroh_mobile_bridge/src/lib.rs:421-454 | an encoded frame followed by anything decodes to that frame |
| Framing.DecodedWasEncoded | rust/iroh_mobile_bridge/src/lib.rs:437-454 | whatever decodes to a frame starts with that frame's encoding |
| Framing.EndsCleanlyExactly | rust/iroh_mobile_bridge/src/lib.rs:437-454 | a read finds the clean end if and only if the transport ends before the header is whole, and fails if and only if it neither does that nor holds a frame |
| Framing.ParseOfEncoding | rust/iroh_mobile_bridge/src/lib.rs:421-454 | the encodings of a list of frames, followed by bytes that hold no whole frame, parse to exactly that list |
| Framing.ParseReencodes | rust/iroh_mobile_bridge/src/lib.rs:437-454 | on any bytes at all, the frames read, encoded again, are a prefix of the bytes |
| Framing.TruncatedParse | rust/iroh_mobile_bridge/src/lib.rs:437-454 | cutting the encodings of a list anywhere leaves exactly the frames that are whole before the cut |
| Framing.PrefixOfEncodings | rust/iroh_mobile_bridge/src/lib.rs:421-454 | frames whose encodings make a prefix of other frames' encodings are a prefix of those frames: the code is uniquely decodable |
| Framing.WriteFrame | rust/iroh_mobile_bridge/src/lib.rs:421-435 | an illegal payload writes nothing; a broken transport has received a prefix of the one encoding |
| Framing.ReadFrame | rust/iroh_mobile_bridge/src/lib.rs:437-454 | reading piece by piece gives what decoding the bytes gives, with a clean end told apart from an error, and takes exactly the frame's bytes |
| Inbox.PushKeepsAccounts | rust/iroh_mobile_bridge/src/lib.rs:498-504 | admission keeps the byte account and both limits, and its saturating sum never saturates |
| Inbox.PopKeepsAccounts | rust/iroh_mobile_bridge/src/lib.rs:991-996 | a pop gives back exactly the bytes of its frame, and the saturating difference never saturates |
| Inbox.EmptyInboxAdmits | rust/iroh_mobile_bridge/src/lib.rs:498-500 | any legal frame fits an empty inbox |
| Inbox.FitsExactly | rust/iroh_mobile_bridge/src/lib.rs:498-500 | the admission test refuses exactly what would break a limit |
| Inbox.SharedInbox.TryPush | rust/iroh_mobile_bridge/src/lib.rs:493-506 | the critical section of the enqueue: pushes exactly when the frame fits, and else changes nothing |
| Inbox.SharedInbox.PopFront | rust/iroh_mobile_bridge/src/lib.rs:991-996 | the critical section of the pop: the oldest frame leaves, nothing else changes, and the waiting reader is woken or the permit stored before the lock is released |
| StreamInvariants.ReaderKeepsIn | rust/iroh_mobile_bridge/src/lib.rs:437-516 | no reader action, at any chunking, loses, repeats or reorders a byte between transport and inbox |
| StreamInvariants.WriterKeepsOut | rust/iroh_mobile_bridge/src/lib.rs:834-863 | every writer action keeps accepted payloads equal to written, in flight and queued ones, and the wire equal to the encodings so far |
| StreamInvariants.SendKeepsPermits | rust/iroh_mobile_bridge/src/lib.rs:948-960 | permits free, queued, in flight and held by calls under way always add up to 16 MiB |
| StreamInvariants.ClosingKeepsSignal | rust/iroh_mobile_bridge/src/lib.rs:864-912 | a closing actor is never past a step of its closing sequence whose effect is missing |
| StreamInvariants.InvStep | rust/iroh_mobile_bridge/src/lib.rs:834-1033 | every action of every actor keeps all accounts and the absence of lost wake-ups |
| StreamInvariants.InvReachable | rust/iroh_mobile_bridge/src/lib.rs:820-1033 | they hold in every reachable state |
| StreamSafety.WireIsPrefixOfAccepted | rust/iroh_mobile_bridge/src/lib.rs:834-863 | the wire never carries anything but the accepted payloads, framed, in acceptance order |
| StreamSafety.CleanFinishLosesNothing | rust/iroh_mobile_bridge/src/lib.rs:859-863 | a clean end without a write error means every payload ever accepted is on the wire and none is accepted later |
| StreamSafety.ResetOnlyWhenClosing | rust/iroh_mobile_bridge/src/lib.rs:838-863 | a reset is sent only once the close signal is up |
| StreamSafety.StopOnlyWhenClosing | rust/iroh_mobile_bridge/src/lib.rs:876-908 | the peer is asked to stop sending only once the close signal is up |
| StreamSafety.ReaderStopsExactlyWhenCancelled | rust/iroh_mobile_bridge/src/lib.rs:906-908 | in every run a reader that has left its loop asks the peer to stop if and only if it left because of the close signal |
| StreamSafety.ReaderHeedsTheSignal | rust/iroh_mobile_bridge/src/lib.rs:878-900 | wherever the reader looks at a raised signal, waiting for bytes or for room, it leaves its loop because of it |
| StreamSafety.PushedIsPrefixOfParse | rust/iroh_mobile_bridge/src/lib.rs:877-905 | frames pushed are the front of the parse of the bytes received, and popped then queued frames are all of them |
| StreamSafety.DrainedReaderDeliversAll | rust/iroh_mobile_bridge/src/lib.rs:888-904 | a reader that met the end of its input pushed every whole frame in it |
| StreamSafety.ReadNeverResumesMidFrame | rust/iroh_mobile_bridge/src/lib.rs:878-887 | a frame read is dropped only when the stream is closing, so the branch that would resume mid-frame is never taken |
| StreamSafety.AccountsBalance | rust/iroh_mobile_bridge/src/lib.rs:481-516 | permits are conserved, the channel stays within 64 frames, the inbox within 256 frames and 16 MiB, its byte count exact |
| StreamSafety.IdleStreamHasAllPermits | rust/iroh_mobile_bridge/src/lib.rs:844-960 | once everything sent has been written out, all permits are back |
| StreamSafety.RefusedSendRestoresAll | rust/iroh_mobile_bridge/src/lib.rs:948-960 | whatever other actors do between taking the permits and trying the channel, a refused send gives back exactly what it took and an accepted one appends the payload it came with |
| StreamSafety.NoLostCapacityWakeup | rust/iroh_mobile_bridge/src/lib.rs:488-514 | a parked reader with no wake-up coming holds a frame that does not fit, and the inbox is not empty |
| StreamSafety.NoLostDataWakeup | rust/iroh_mobile_bridge/src/lib.rs:990-1009 | with one call at a time, a call never sleeps on a queued frame or a closed stream unless the notification is still coming |
| StreamShutdown.StepUsesMeasure | rust/iroh_mobile_bridge/src/lib.rs:834-913 | once the signal is up, every action of either task uses up a measure that no other action refills |
| StreamShutdown.ShutdownIsBounded | rust/iroh_mobile_bridge/src/lib.rs:834-913 | from any state with the signal up, every continuation has a bounded number of task actions, and at most one more frame is pushed |
| StreamShutdown.ShutdownBound | rust/iroh_mobile_bridge/src/lib.rs:834-961 | the bound in numbers: about two frames for the reader and one per frame queued or send already past the closed check for the writer |
| StreamShutdown.ReaderCanAct | rust/iroh_mobile_bridge/src/lib.rs:489-513 | an unfinished reader is never stuck once the signal is up, at worst waiting for a call to release the inbox lock |
| StreamShutdown.WriterCanAct | rust/iroh_mobile_bridge/src/lib.rs:836-867 | an unfinished writer is never stuck once the signal is up |
| StreamShutdown.ShutdownCompletes | rust/iroh_mobile_bridge/src/lib.rs:834-913 | after the signal only boundedly many task actions remain in any continuation, and when none is left both tasks have finished |
| StreamShutdown.AnyEndingRaisesTheSignal | rust/iroh_mobile_bridge/src/lib.rs:864-912 | whichever actor ends first, the signal is up for both tasks and neither has swallowed it |
| StreamShutdown.BroadcastReachesTheReader | rust/iroh_mobile_bridge/src/lib.rs:866-867 | the capacity broadcast of an ending reaches the reader whether it is parked, about to park or about to try, and leaves no permit behind |
| StreamShutdown.AbandonedWakeupIsKept | rust/iroh_mobile_bridge/src/lib.rs:507-514 | a reader that leaves its wait for room because of the close signal passes on a wake-up meant for it alone, and no other |
| StreamArrivals.DeliveredFrameArrives | rust/iroh_mobile_bridge/src/lib.rs:877-905 | from an idle reader with a whole frame before it, a run of the reader alone brings the frame into the inbox and stores a notification |
| StreamArrivals.HeldFrameIsPushed | rust/iroh_mobile_bridge/src/lib.rs:488-514 | a frame the reader holds and that fits gets into the inbox by the reader's own actions, even if it was waiting for room |
| StreamArrivals.PushIsReached | rust/iroh_mobile_bridge/src/lib.rs:437-516 | a reader that has a frame, whole or still to be completed, ahead of it has a run that pushes one into an empty inbox |
| StreamArrivals.FrameAheadExactly | rust/iroh_mobile_bridge/src/lib.rs:437-454 | a frame is ahead if and only if one decodes from the unread bytes, or input flows and they can still become one |
| FrameStarts.StartsAFrameExactly | rust/iroh_mobile_bridge/src/lib.rs:441-451 | bytes can still become a frame if and only if their header, padded with zeros while unfinished, is within the limit and not overrun |
| StreamArrivals.SpentStays | rust/iroh_mobile_bridge/src/lib.rs:437-516 | a reader that has none, or is past its last look at a raised signal, never pushes again whatever any actor does |
| StreamConsumers.TwoCallsCanLoseAWakeup | rust/iroh_mobile_bridge/src/lib.rs:978-1019 | a reachable state in which one of two calls sleeps although a frame is queued and no notification is coming |
| StreamConsumers.WakeupsAreSafeExactlyWhenSolo | rust/iroh_mobile_bridge/src/lib.rs:978-1019 | wake-ups are never lost if and only if callers keep to one call at a time |
| StreamEarlyReturn.ReturnsEarlyExactlyOnStaleNotice | rust/iroh_mobile_bridge/src/lib.rs:990-1018 | with one call at a time, a call with time to wait can return nothing on an open stream before its timeout if and only if the inbox is empty and a notification is outstanding, judged at its start or at any moment until it waits |
| StreamEarlyReturn.StaleNoticeIsReachable | rust/iroh_mobile_bridge/src/lib.rs:990-1018 | that happens: a reachable state of one-at-a-time calls in which the second call returns nothing early |
| StreamEarlyReturn.ReturnsEarlyExactlyWhenNoticed | rust/iroh_mobile_bridge/src/lib.rs:990-1018 | with calls side by side, a call with time to wait can return nothing before its own timeout, whatever the timeouts of others do, if and only if a notification is outstanding, another frame can still come, or another call has been woken and is not back yet |
| StreamEarlyReturn.HandedOnWakeupIsReachable | rust/iroh_mobile_bridge/src/lib.rs:1005-1009 | a reachable state in which only the last of these holds, and the woken call's timeout hands its wake-up to a third call that then returns nothing |
| StreamCalls.CapacityCellNotifies | rust/iroh_mobile_bridge/src/lib.rs:994-994 | the notification of the pop, on the cell, is the one of the transition system |
| StreamCalls.SendIsARun | rust/iroh_mobile_bridge/src/lib.rs:934-961 | a send nothing interferes with is a run of that one call alone, with the outcome the branches give |
| StreamCalls.PollIsARun | rust/iroh_mobile_bridge/src/lib.rs:978-1003 | so is a `next_message` with no time to wait |
| StreamCalls.CloseIsARun | rust/iroh_mobile_bridge/src/lib.rs:1023-1033 | so is a close, with the flag, the signal and both notifications in order |
| StreamCalls.ManagedStream.Send | rust/iroh_mobile_bridge/src/lib.rs:934-961 | the call updates queue and permits in place, its outcome is that of the run, and a refusal restores them |
| StreamCalls.ManagedStream.NextMessageNow | rust/iroh_mobile_bridge/src/lib.rs:978-1003 | the call takes the oldest frame if there is one, and tells a missing stream from an empty inbox |
| StreamCalls.ManagedStream.Close | rust/iroh_mobile_bridge/src/lib.rs:1023-1033 | the stream is gone from the map and closed, the signal reaches a live writer, and an unknown id changes nothing |
| StreamCalls.SendSucceedsExactly | rust/iroh_mobile_bridge/src/lib.rs:934-961 | an uninterrupted send succeeds if and only if the payload is legal, the stream open, and there is room in bytes and frames; each of the three refusals has exactly its own cause |
| StreamCalls.IdleStreamAcceptsAnyFrame | rust/iroh_mobile_bridge/src/lib.rs:934-961 | from a drained open stream the run of one more send accepts any legal payload |
| StreamDrain.WriterDrainsQueue | rust/iroh_mobile_bridge/src/lib.rs:844-856 | from anywhere in its loop the writer alone has a run that empties the queue and, with no call holding permits, brings all of them back |
| StreamDrain.CallsSettle | rust/iroh_mobile_bridge/src/lib.rs:953-960 | the calls between their permits and the channel come to their end by their own actions, losing nothing accepted |
| StreamDrain.BackpressureIsTemporary | rust/iroh_mobile_bridge/src/lib.rs:834-961 | however full an open stream is and whatever its calls hold, a run of those calls and the writer, or of the writer alone when none holds permits, makes room for any legal payload |
| StreamDrain.WriterCanFinish | rust/iroh_mobile_bridge/src/lib.rs:844-863 | once every handle to the channel is gone, the writer alone has a run that ends the stream cleanly with every accepted payload on the wire |
| StreamPair.DeliveryIsInOrder | rust/iroh_mobile_bridge/src/lib.rs:834-1019 | in every reachable state of the pair, what one side's `next_message` returned is a prefix of what the other side's `send` accepted |
| StreamPair.CleanEndDeliversEverything | rust/iroh_mobile_bridge/src/lib.rs:859-905 | after a clean end without a write error, popped then queued frames are all that was ever accepted |
| StreamPair.NothingIsDuplicated | rust/iroh_mobile_bridge/src/lib.rs:834-1019 | no payload is delivered more often than it was accepted |
| StreamDelivery.ReceivedIsTaken | rust/iroh_mobile_bridge/src/lib.rs:877-1003 | from any reachable state of a ready receiver, a run of its reader and of one call after the other hands over every frame received, whatever is half read, held back or queued |
| StreamDelivery.AcceptedCanBeDelivered | rust/iroh_mobile_bridge/src/lib.rs:834-1019 | from every reachable state of the pair with the writer at work or cleanly ended and a ready receiver, a run of the tasks, the network and the receiving caller delivers every payload accepted so far |
| StreamDelivery.EndCanBeReached | rust/iroh_mobile_bridge/src/lib.rs:859-905 | when the sender has ended cleanly, such a run delivers everything ever accepted and then finds the end |
| SessionKey.HexIsInjective | rust/iroh_mobile_bridge/src/lib.rs:456-458 | the protocol part of a key determines the protocol |
| SessionKey.HexPlaces | rust/iroh_mobile_bridge/src/lib.rs:456-458 | every byte of the protocol stands in the key as its two hex digits, the high one first |
| SessionKey.KeyReads | rust/iroh_mobile_bridge/src/lib.rs:456-458 | the key is the id up to the first colon and the hex of the protocol behind it |
| SessionKey.KeyIsInjective | rust/iroh_mobile_bridge/src/lib.rs:456-458 | two sessions share a key only if they go to the same node for the same protocol |
| SessionCache.RepresentationIsUnique | rust/iroh_mobile_bridge/src/lib.rs:460-479 | the stamped map determines its recency list |
| SessionCache.StampRepresents | rust/iroh_mobile_bridge/src/lib.rs:461-467 | stamping an entry is moving it to the front of the list |
| SessionCache.EvictRepresents | rust/iroh_mobile_bridge/src/lib.rs:468-478 | removing the smallest stamp is dropping the last of the list |
| SessionCache.LookupIsExact | rust/iroh_mobile_bridge/src/lib.rs:781-795 | a lookup finds an open connection if and only if one dialed for exactly this node and protocol is cached |
| SessionCache.Cache.LookupForConnect | rust/iroh_mobile_bridge/src/lib.rs:781-795 | a hit moves the entry to the front, a miss removes a closed one, and only a session for the node and protocol asked for is handed out |
| SessionCache.Cache.LookupForForwarder | rust/iroh_mobile_bridge/src/tcp_forward.rs:138-151 | the same lookup, except that a miss removes nothing |
| SessionCache.Cache.Oldest | rust/iroh_mobile_bridge/src/lib.rs:469-474 | the scan finds a key with the smallest stamp |
| SessionCache.Cache.EvictOne | rust/iroh_mobile_bridge/src/lib.rs:468-478 | one eviction takes one entry, the least recently used |
| SessionCache.Cache.CacheSession | rust/iroh_mobile_bridge/src/lib.rs:460-479 | the map becomes the recency list with the new entry in front, cut off at 32, so the new entry stays |
| SessionCache.Cache.Clear | rust/iroh_mobile_bridge/src/lib.rs:711-711 | stopping empties it |
| EndpointLife.StopEmptiesExactlyWhenNoneUnderWay | rust/iroh_mobile_bridge/src/lib.rs:702-722 | after a stop the maps stay empty until the next start if and only if no connect was past its dial, nor dialing if dials outlive the endpoint |
| EndpointLife.StopCanLeaveAStream | rust/iroh_mobile_bridge/src/lib.rs:815-929 | a run in which the stop falls between the sections of a connect and the session and stream are entered afterwards |
| EndpointLife.OnlyConnectsFillTheMaps | rust/iroh_mobile_bridge/src/lib.rs:815-929 | in every run a cached session was entered by a connect that is past its dial, and a stream by one that was to open a stream and is through |
| SessionHistory.SurvivorsAreTheMostRecent | rust/iroh_mobile_bridge/src/lib.rs:460-479 | after any history of hits, entries, removals and resets the cache is the front of the full recency list, at most 32 long |
| SessionHistory.SurvivorsAreExactWhenFullOrWhole | rust/iroh_mobile_bridge/src/lib.rs:460-479 | after any history, removals included, the survivors are exactly the 32 most recently used if and only if the cache is full or nothing is missing from it |
| SessionHistory.CacheHoldsTheMostRecent | rust/iroh_mobile_bridge/src/lib.rs:460-479 | both hold of the map itself after whatever sequence of its operations, each of which is one step of the history |
| SessionEvictions.MissingIsEvicted | rust/iroh_mobile_bridge/src/lib.rs:468-478 | what the full recency list has beyond the cache is exactly what was evicted and not entered again since |
| SessionEvictions.InexactExactlySinceARemoval | rust/iroh_mobile_bridge/src/lib.rs:460-479 | after any history the survivors are not the most recent if and only if a cached entry was removed while something evicted was out, and ever since the slot has stayed open |
| SessionHistory.DropKeepsExactnessExactlyWhen | rust/iroh_mobile_bridge/src/lib.rs:791-793 | one removal from an exact cache keeps it exact if and only if nothing was evicted before or the key was not cached |
| SessionHistory.ARemovalCanBreakExactness | rust/iroh_mobile_bridge/src/lib.rs:460-479 | a history of 33 sessions and one removal after which a more recent session is missing from a cache of 31 |
| SessionHistory.PutEvictsAtMostOne | rust/iroh_mobile_bridge/src/lib.rs:460-479 | entering a session evicts at most one, the least recent of a full cache, and never the one entered |
| DialTarget.AllOrNothing | rust/iroh_mobile_bridge/src/lib.rs:393-398 | one bad address refuses the whole list; otherwise every address is kept and none is added |
| DialTarget.CollectDirect | rust/iroh_mobile_bridge/src/lib.rs:324-327 | the address loop gives what parsing the list gives |
| DialTarget.HintDialsTheNodeAskedFor | rust/iroh_mobile_bridge/src/lib.rs:363-419 | whatever the decoders make of it, an accepted hint names the node asked for and has an address |
| AddressText.HintTextExactly | rust/iroh_mobile_bridge/src/lib.rs:214-221 | a hint is read as what follows a ticket scheme, if it has one, without the blanks around it |
| AddressText.IdIsRead | rust/iroh_mobile_bridge/src/lib.rs:190-206 | a text is read as a node id if and only if what follows either scheme, without blanks, decodes to it |
| AddressText.AddressIsRead | rust/iroh_mobile_bridge/src/lib.rs:240-275 | a text that starts with `http://`, `https://` or `relay:` is read as the relay URL the relay decoder makes of it, any other as the socket address the other decoder makes of it, and it is refused if and only if that decoder makes nothing of it |
| AddressText.EmptyHintIsRefused | rust/iroh_mobile_bridge/src/lib.rs:367-378 | a request is refused for want of an address if and only if its hint is missing, blank or the relay text that is only shown |
| AddressText.PlainHintIsRead | rust/iroh_mobile_bridge/src/lib.rs:417-418 | a hint that is neither JSON nor a ticket dials the node asked for at exactly the one address its text names, and is refused if it names none |
| AddressText.JsonTicketIsRead | rust/iroh_mobile_bridge/src/lib.rs:381-407 | a JSON ticket dials exactly the addresses its list names if its id agrees and each text names one; the kind of every refusal is exact |
| AddressText.TicketHintIsRead | rust/iroh_mobile_bridge/src/lib.rs:409-415 | a ticket hint dials exactly what the ticket says if that is the node asked for and has an address, and is refused otherwise |
| DialTarget.TypedTargetIsUnambiguous | rust/iroh_mobile_bridge/src/lib.rs:293-342 | an accepted target is a ticket alone or a node with addresses, dials the node that its trimmed node id names, and carries exactly the addresses given |
| AddressText.ListIsRead | rust/iroh_mobile_bridge/src/lib.rs:324-327 | a list is read as the set of the addresses its texts name if and only if each names one |
| AddressText.TypedTargetIsRead | rust/iroh_mobile_bridge/src/lib.rs:293-342 | a typed target is accepted if and only if it is a ticket alone or a node with addresses, all readable, and then dials exactly what it says |
| AddressText.MisshapenTargetIsRefused | rust/iroh_mobile_bridge/src/lib.rs:300-342 | a target is refused as such if and only if its fields do not fit its kind, a needed one is blank, or it lists no address at all |
| NodeIdText.TrimmingMattersExactlyWhenPadded | rust/iroh_mobile_bridge/src/lib.rs:190-196 | trimming a text first changes what is parsed from it if and only if a blank stands before a scheme |
| NodeIdText.RoutesAgreeExactly | rust/iroh_mobile_bridge/src/lib.rs:198-206 | a node id means the same by hint and in a typed target unless it is good when trimmed and has a blank before its scheme; then it is refused by hint |
| NodeIdText.PaddedIdsDependOnTheRoute | rust/iroh_mobile_bridge/src/lib.rs:198-206 | with any text a node id can be read from, a scheme and a blank before it give an id that a typed target dials and a hint refuses |
| NodeIdText.PublishedIdReadsBack | rust/iroh_mobile_bridge/src/lib.rs:198-206 | an id as the bridge publishes it, with either scheme or none, is read as its own node whatever the other decoders make of it |
| DialTarget.TicketMeansTheSameEitherWay | rust/iroh_mobile_bridge/src/lib.rs:277-291 | a ticket resolves the same as a typed target and as a hint for the node it names, although the hint is normalized twice |
| DialTarget.RequestIsFiledUnderItsNode | rust/iroh_mobile_bridge/src/lib.rs:771-818 | the key a request by hint uses belongs to no other node or protocol |
| SingleFlight.OneDialInFlight | rust/iroh_mobile_bridge/src/tcp_forward.rs:130-161 | at most one dial of a forwarder is ever in flight |
| SingleFlight.NoRedialWithoutDisturbance | rust/iroh_mobile_bridge/src/tcp_forward.rs:130-161 | after any successful dial a forwarder does not dial again until that entry was closed, evicted, replaced or cleared |
| SingleFlight.DialsAreShared | rust/iroh_mobile_bridge/src/tcp_forward.rs:130-161 | over a whole life successful dials never outnumber those disturbances by more than one |
| SingleFlight.ServedForCause | rust/iroh_mobile_bridge/src/tcp_forward.rs:138-161 | in every run a task gets a session only from a lookup that found an open one cached, or from its own dial |
| SharedDials.RunProjects | rust/iroh_mobile_bridge/src/tcp_forward.rs:130-161 | every run of a forwarder's tasks on the cache itself, beside all its other users, is a run of the single-flight system with the entry under the forwarder's key |
| SharedDials.NoRedialWhileCached | rust/iroh_mobile_bridge/src/tcp_forward.rs:130-161 | after a successful dial there is no other while an open session stays cached under the key, whatever the other users of the cache do |
| SharedDials.ServedForCause | rust/iroh_mobile_bridge/src/tcp_forward.rs:138-161 | on the cache itself, a task gets only a session it found open under its key or has dialed, and that is then the most recently used of all |
| SharedDials.LookupFindsEntry | rust/iroh_mobile_bridge/src/tcp_forward.rs:138-151 | the map's lookup serves if and only if that entry is there and open |
| TcpPump.BytesAreConserved | rust/iroh_mobile_bridge/src/tcp_forward.rs:189-227 | at every step both outputs are prefixes of their inputs, the download lag is at most one buffer, the download count exact and the upload count never ahead of the bytes written |
| TcpPump.RequestEndsAfterItsBytes | rust/iroh_mobile_bridge/src/tcp_forward.rs:197-244 | the request half ends only with all its bytes sent or with the response over |
| TcpPump.RequestEndsExactly | rust/iroh_mobile_bridge/src/tcp_forward.rs:197-244 | in every reachable state the request half is ended if and only if its loop has come to its end or the response is over |
| TcpPump.RequestCanEnd | rust/iroh_mobile_bridge/src/tcp_forward.rs:197-208 | once the client has ended its request, a run of the greeting and the request loop alone ends the peer's stream with the preamble and the whole request on it while the response goes on |
| TcpPump.SuccessDeliversTheResponse | rust/iroh_mobile_bridge/src/tcp_forward.rs:212-245 | a good end means the client has every byte the peer sent |
| TcpPump.ResponseCanEnd | rust/iroh_mobile_bridge/src/tcp_forward.rs:210-245 | once the peer has ended its response, a run of the response loop alone hands all of it to the client, counts it and ends well |
| ForwarderStats.StatsState.RecordDown | rust/iroh_mobile_bridge/src/tcp_forward.rs:87-96 | the in-place update is one step of the history function the burst theorems are about |
| ForwarderStats.StatsState.ConnectionEnded | rust/iroh_mobile_bridge/src/tcp_forward.rs:312-318 | the epilogue of a connection, with its saturating decrement |
| ForwarderStats.BurstTimeIsTight | rust/iroh_mobile_bridge/src/tcp_forward.rs:86-97 | for any monotone arrivals the reported time never exceeds the true burst time and falls short by less than a millisecond per counted gap; bytes are exact |
| ForwarderStats.BurstTimeBounded | rust/iroh_mobile_bridge/src/tcp_forward.rs:86-97 | the reported time never exceeds last minus first arrival |
| ForwarderStats.LateStampAddsNothing | rust/iroh_mobile_bridge/src/tcp_forward.rs:87-93 | a stamp that is not after the last one adds no time |
| ForwarderStats.CountersBalance | rust/iroh_mobile_bridge/src/tcp_forward.rs:293-329 | until the stop total is active plus finished and no decrement saturates; after it active stays zero whatever late epilogues run; failures never exceed finished |
| ForwarderStats.StatsAreOfTheWholeLife | rust/iroh_mobile_bridge/src/tcp_forward.rs:202-225 | over every life of a forwarder total, failures and bytes either way are exactly the counts of what happened |
| JsSend.ToArrayBuffer | react-native/src/index.js:44-47 | the payload is a fresh copy of exactly the bytes of the view |
| JsSend.NativeStepAccepts | rust/iroh_mobile_bridge/src/lib.rs:934-961 | while one native call is under way, no native step accepts anything but that call's payload, once |
| JsSend.ResolvedExactlyWhenAccepted | react-native/src/index.js:335-356 | the payloads accepted natively are exactly those of the resolved promises, each once and in call order, whatever the retries |
| JsSend.PeerSeesResolvedSendsInOrder | react-native/src/index.js:335-356 | the peer's consumer sees the resolved sends in call order |
| JsRetry.PromiseSettlesForCause | react-native/src/index.js:335-356 | in every run a promise resolves in the step in which its native call has succeeded, and is rejected only if the wrapper was closed, 30 seconds had passed, or the native call failed for another reason than a full queue |
| JsRetry.FullQueueIsRetried | react-native/src/index.js:340-351 | from a reachable state with the stream open and the writer at work, a call that has just found the queue full has a run without a give-up that resolves its promise and puts its payload last |
| JsRetry.OutstandingCallsSettle | react-native/src/index.js:335-356 | from such a state every waiting call, however many, settles in a run without a give-up, and exactly those with a legal payload resolve |
| JsRetry.ClosedRejectsTheRest | react-native/src/index.js:338-338 | once the wrapper is closed every call whose turn has not come is rejected without a native call, and at most the one waiting to retry makes one more |
| JsSend.NothingAcceptedAfterClose | react-native/src/index.js:388-397 | once the native stream is closed no payload is accepted any more |
| JsClose.ClosedForCause | react-native/src/index.js:312-327 | in every run the wrapper closes in one step, and only because the caller closed it, a native call of the pump threw, or the native stream was found closed |
| JsClose.FailedCallCloses | react-native/src/index.js:322-327 | a native call of the pump that throws ends the stream in the pump's next move, natively too |
| JsClose.ClosingTheWrapperClosesTheStream | react-native/src/index.js:312-327 | over every run from an open wrapper on an open stream, once the wrapper is closed the native stream is being closed |
| JsClose.NothingIsSentAfterTheEnd | react-native/src/index.js:388-397 | over every run of both ends and the network, once an end's wrapper is closed, whatever closed it, its native stream is being closed and accepts no payload any more |
| JsClose.NothingIsSentAfterClose | react-native/src/index.js:388-397 | in particular nothing is accepted from the moment `close` is called |
| JsHandlers.DropKeeps | react-native/src/index.js:364-376 | removing a handler removes that handler and keeps the order of the others |
| JsHandlers.VisitKeepsEars | react-native/src/index.js:308-310 | handing a frame to the next handler keeps every registered handler's record gapless |
| JsHandlers.PayloadsOfRange | react-native/src/index.js:305-310 | a gapless record of frame numbers is a slice of the frames taken |
| JsPump.OnePumpWhenObserved | react-native/src/index.js:296-332 | at most one pump is live, and one is live whenever the stream is open and observed |
| JsPump.RestartIsNeverNeeded | react-native/src/index.js:328-331 | leaving the pump never starts another |
| JsPump.EveryFrameIsHeard | react-native/src/index.js:301-310 | a frame is taken only while a message handler is registered, each frame taken is handed to at least one, and calls come in frame and registration order |
| JsPump.HandlerHearsEveryFrame | react-native/src/index.js:305-310 | at every moment a registered handler was called with exactly the frames due to it since it was registered, and these are, gapless, what the peer's `send` accepted |
| JsPump.WhatTheEndLeavesBehind | react-native/src/index.js:302-316 | once closed no frame is taken: what was not handed over by then, or comes later, stays in the inbox |
| JsPump.ObservedIsPumped | react-native/src/index.js:296-332 | an open stream with a handler of either kind has a live pump |
| JsPump.CloseHandlersFireOnce | react-native/src/index.js:281-287 | no registration of a close handler is called twice, and none before the end |
| JsPump.EveryCloseHandlerFires | react-native/src/index.js:281-287 | when the round is over every close handler still registered has been called |
| JsPump.NativeCallsTakeTurns | react-native/src/index.js:302-304 | the wrapper never has two native `next_message` calls under way, so no wake-up is lost |
| JsRegistrations.RegisteredHandlerStays | react-native/src/index.js:357-364 | a message handler registered on an open stream stays until it is removed, and in every state of every such run was called with exactly the frames due to it |
| JsRegistrations.RemovedHandlerHearsNothing | react-native/src/index.js:364-364 | a removed message handler is never called again, not even in the pass under way |
| JsRegistrations.HandlersAreRegisteredOnce | react-native/src/index.js:362-374 | however often a handler is registered, it is on its list once |
| JsRegistrations.RegisteredCloseHandlerIsCalled | react-native/src/index.js:366-376 | a close handler registered on an open stream and not removed has been called when the round of calls is over |
| JsRegistrations.RemovedCloseHandlerIsNotCalled | react-native/src/index.js:376-376 | a close handler removed before its call is never called |
| JsRegistrations.LateCloseHandlerIsCalled | react-native/src/index.js:370-373 | a close handler that comes after the end is called all the same |
| JsRegistrations.CloseHandlersFireInOrder | react-native/src/index.js:281-287 | no close handler is called before an earlier one that is still registered |
| JsRegistrations.LateHandlersFireInOrder | react-native/src/index.js:370-373 | late ones are called in the order they came |
| JsNetwork.WholeProjectsOntoParts | react-native/src/index.js:273-400 | every run of two ends, each with both wrapper halves on one thread, and the network projects onto runs of each half and of the native pair |
| JsNetwork.NativeCallsNeverOverlap | react-native/src/index.js:302-343 | sending and receiving share one thread: at no end are both ever inside a native call |
| JsNetwork.HandlerHearsResolvedSends | react-native/src/index.js:305-356 | in every state of that whole, a message handler was called with a gapless run of the payloads whose send promise resolved at the other end, in call order |
| JsEnding.EndLosesNothingExactlyWhen | react-native/src/index.js:302-316 | when the pump decides that the stream is over, every frame the native side has received or will receive is handed over if and only if the inbox is empty and the reader can push nothing more |
| JsEnding.LastFrameCanBeLost | react-native/src/index.js:302-316 | a reachable loss: with a handler registered throughout, a clean stream's last frame and its end come between the empty poll and the question, and the frame is never handed over |
| JsEnding.UndisturbedPumpTakesAll | react-native/src/index.js:301-317 | however a pump with a message handler goes on while nobody else acts, it has taken the whole inbox by the time it closes the wrapper |
| JsEnding.PumpDrainsThenCloses | react-native/src/index.js:301-317 | on an ended native stream it has such a run, of its own moves and native calls alone |
| JsEnding.NothingIsTakenUnheard | react-native/src/index.js:301-304 | from any reachable state without a message handler, no run that registers none takes a frame, whatever else happens |
| JsEnding.UnheardFrameIsLost | react-native/src/index.js:302-317 | a reachable loss without any race: with only a close handler, as a session registers it, the end is noticed and a received frame is never handed over |
| JsSession.OwnsExactlyItsOpenStreams | react-native/src/index.js:439-453 | an open session owns exactly the streams it returned that are not closed |
| JsSession.ClosedSessionLeavesNothingOpen | react-native/src/index.js:439-465 | if no native close throws, a closed session with no pending open has closed every stream ever opened through it |
| JsSession.LateStreamsAreRefused | react-native/src/index.js:443-450 | a stream still opening when its session closed is never returned |
| JsSession.LogicalSession.Arrived | react-native/src/index.js:445-453 | a stream that arrives is owned and returned, or closed and refused if the session has closed, in one step of the transition system |
| JsSession.LogicalSession.Close | react-native/src/index.js:457-463 | the session forgets its streams and closes them in order until one throws, which is a run of the transition system; a second call does nothing |
| JsSession.SweepIsCloseEach | react-native/src/index.js:457-463 | the steps of the round, with nothing in between, come to the same |
| JsSession.CloseEachReaches | react-native/src/index.js:388-397 | exactly the streams up to and including the first that throws are closed |
| JsSession.CloseThrowsExactly | react-native/src/index.js:388-397 | the round fails if and only if some owned stream's native close throws |
| JsSession.CloseEndsAllExactlyWhenNoneThrows | react-native/src/index.js:457-463 | one close ends every owned stream natively if and only if no native close throws |
| JsSession.AThrowLeavesTheNextOpen | react-native/src/index.js:457-463 | a run that ends with the session closed and a stream it had handed out open and no longer owned |
| JsSession.CloseMarksAllExactlyWhenOnlyTheLastThrows | react-native/src/index.js:457-463 | the wrapper marks all of them closed if and only if no stream but the last throws |

## Left out

- The tasks of `connect_endpoint_addr`, the waiting part of `next_message`, the copy loops of the forwarder's `pump` and the JavaScript `createStream` are transition systems on values, because their point is interleaving: heap aliasing and the layout of shared handles are not captured there.
- InvStep: the inbox lock, the map lock and the dial lock are assumed usable; natively poisoning is not modelled.
- ShutdownIsBounded: counts actions; that an enabled task is eventually scheduled is left to the runtime, and timers are steps that may happen at any moment.
- NoLostDataWakeup: any sleeping call may be the one woken, so nothing depends on the order in which waiters queue.
- TypedTargetIsRead: the decoders of node ids, socket addresses, relay URLs, tickets and JSON are parameters; error texts are reduced to the kind of error.
- KeyIsInjective: z-base-32 enters as an injective encoding without a colon.
- DialsAreShared: a dial is a step that succeeds or fails; the network below it is not modelled.
- CountersBalance: counters are unbounded; the wrap-around of 64-bit counters is not modelled.
- ManagedStream.NextMessageNow: a timeout of zero only; the waiting call is covered by the transition system.
- EveryFrameIsHeard: an exception from a handler goes to the error handlers, whose calls are not recorded.
- AcceptedCanBeDelivered: says that a run delivers everything, not that the runtime schedules it; so do `RequestCanEnd`, `ResponseCanEnd`, `FullQueueIsRetried`, `OutstandingCallsSettle` and `WriterCanFinish`.
- PromiseSettlesForCause: the 30 seconds are a choice made when the native call returns; the clock and the 5 ms timer are steps that may happen at any moment.
- ResolvedExactlyWhenAccepted: a failure of the foreign call itself is modelled for `close` and for the question whether a stream is open, not for `send` and `nextMessage`; a `send` that fails on its way back, after the native side accepted the payload, would reject a promise whose payload was accepted.
- A runtime whose `nextMessage` is called for the same stream from outside the wrapper.
- ReturnsEarlyExactlyWhenNoticed: of a registered stream; the moment between a close taking the stream out of the map and storing its flag is left aside, because no further call can begin then.
- StopEmptiesExactlyWhenNoneUnderWay: whether a dial in progress may succeed after the endpoint was closed belongs to the QUIC library and is left open.
- Opening and reopening the endpoint, `dial_diagnostics`, relay and DNS behaviour, and the QUIC library.
- Generated bindings, platform glue, build and release scripts, and the unavailable-runtime stub of the wrapper.
- Copying of options, ALPN normalisation and number conversion of statistics: each is settled by reading one body.
