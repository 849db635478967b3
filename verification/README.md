# Verified model of the PC dashboard daemon

The daemon watches a Linux host (session lock, display power, power profile, media players,
notifications, USB devices) and pushes what it sees to companion apps over WebSocket and ConnectRPC.
This project models its concurrent core as state machines joined by bounded channels, its codecs and
image transforms as functions and array algorithms, and proves what they promise for every input and
every interleaving. `dafny verify dfyconfig.toml` checks everything.

How the models are built:

* A concurrent part is a state, a partial function `Next(state, action)` with one action for each
  lock region and each channel operation, and `Run`, which plays a list of actions. A theorem about
  `Run(actions)` therefore holds in every interleaving and every reachable state. Each is proved by an
  invariant that every action keeps.
* What the steps do is also said without them: lemmas named `...FromSchedule` and `...Meaning` read the
  state off the actions, and results off the bytes, with names, texts and limits spelled out; lemmas
  named `Can...` show that the states the theorems speak of can always be reached.
* Code that updates an object or an array in place is a class or a method with loops, proved
  against the functions the theorems are about.
* Where the code meets a property only sometimes, the property is stated with its exact condition, and
  a concrete run or value on the failing side.

| file | what it models |
|---|---|
| `Mailbox.dfy` | the reset channel between interval producers and the telemetry loop |
| `Transitions.dfy` | deduplication in the lock and DPMS managers, with drop-when-full |
| `Throttle.dfy` | D-Bus lock signals of two buses, through manager, engine and mailbox, to the ticker |
| `StreamHub.dfy` | ConnectRPC subscriptions: channels of ten, broadcasts under the read lock |
| `StateFanout.dfy` | cached states, writers and late-joining ConnectRPC streams on top of `StreamHub` |
| `SocketPool.dfy` | the WebSocket pool: lifecycle, failing writes, state push on connect |
| `AdbWire.dfy` | ADB framing and replies on a byte stream |
| `AdbDevices.dfy` | parsing device lists and turning snapshots into events |
| `AdbTracking.dfy` | the engine's mirror across streams, bootstrapping and retry backoff |
| `Base64.dfy`, `ImageUrls.dfy` | data URLs from the extractors' files to the client's bytes |
| `IconCache.dfy` | the icon extractor's cache, shared by overlapping path and themed requests |
| `IconPixels.dfy` | raw notification pixels into an image, and the downscale |
| `ArtworkCache.dfy` | the MPRIS player registry and its artwork cache |
| `TagStripping.dfy` | capping and sanitising notification text |
| `Prelude.dfy`, `SystemState.dfy`, `MediaPlayers.dfy` | shared vocabulary |

Results that are not what the names or documents suggest:

* The documents promise that a WebSocket client is synchronised at once on connecting
  (`docs/protocol_specification.md:577`, `docs/design_document.md:645`). The code reads the cache and
  writes it later, so a client can be sent the newest value and then an older one.
  `SocketPool.JoinCanEndStale` is such a run for any two values; the current value is always sent at
  least once, whatever overlaps (`SocketPool.JoinMissesNothing`).
* Two interval changes that overlap and differ can leave the ticker at the older one
  (`Mailbox.OverlapSafeIffEqual`).
* A dropped lock event leaves the poll interval wrong exactly when an odd number was dropped after
  the last one delivered (`Throttle.TickerFollowsLockIff`); `Throttle.DroppedEventSticks` reaches it.
* A ConnectRPC stream that was ten messages behind when a state changed can stay outdated
  (`StateFanout.DroppedNewestSticks`); `StateFanout.UpToDateIffDropsHarmless` says exactly when. And
  messages of different writers can arrive in another order than they were broadcast in
  (`StreamHub.InOrderIffAlone`).
* A second writer of a cached state, such as the trigger socket, leaves ConnectRPC streams with an
  outdated value in some interleaving exactly when it stores a different value
  (`StateFanout.ConvergesIffEqual`).
* The icon cache serves paths and themed names from one map, so the entry of a path with a colon can
  show another file (`IconCache.KeepsOwnIffNoColon`), and overlapping requests for a file that changes
  can leave its later contents (`IconCache.KeepsFirstIff`).
* The key called unique at `pkg/mpris/dbus_manager.go:695` is unique only for texts without a bar and a
  single artist without a comma (`ArtworkCache.KeyUniqueIff`); the cache lemmas tell tracks apart by
  their joined artists. Tracks that share a key are shown each other's artwork
  (`ArtworkCache.RefinesIffKeysDistinct`, `ArtworkCache.SharedKeyShowsOthersArt`).
* A notification image with a negative row stride can make the program index outside its data
  (`IconPixels.ReadsInRangeIff`, `IconPixels.ExtractImage`).
* The downscale keeps every image inside the box only for square boxes and those one column wider than
  high (`IconPixels.BoxFitsEveryImageIff`); the daemon uses 96 by 96.

## Model

| member | source | states |
|---|---|---|
| `Mailbox.LatestValue` | pkg/daemon/engine.go:421-445 | over every interleaving of non-overlapping interval changes with the telemetry loop: at most five values are queued, a second send always finds room and makes its value the newest, and between calls the last queued value, or the ticker's period if none is queued, is the stored interval |
| `Mailbox.AgreeingCallsSettle` | pkg/daemon/engine.go:632-659 | calls may overlap as long as those in flight together carry one value: the mailbox still ends on the stored interval |
| `Mailbox.CrossedCallsLoseTheNewest` | pkg/daemon/engine.go:641-658 | from any settled mailbox and for any two different values, a schedule of two overlapping calls that ends with the ticker bound for a value that is not the stored interval |
| `Mailbox.OverlapSafeIffEqual` | pkg/daemon/engine.go:421-445 | two calls that may overlap are safe in all interleavings if and only if their values are equal |
| `Mailbox.TickerStaysPositive` | pkg/daemon/engine.go:357-370 | whatever overlaps, the ticker is never reset with a non-positive period if the start interval and every posted one are positive |
| `Mailbox.ClampMs` | pkg/websocket/connection_pool.go:171-181 | a WebSocket request is brought into 100 to 10000 ms and left alone inside that range |
| `Mailbox.RequestsKeepTickerPositive` | pkg/websocket/connection_pool.go:171-181 | with positive configured intervals, no WebSocket request of any value and no overlap brings the ticker to a non-positive period |
| `Mailbox.IntervalControl.constructor` | pkg/daemon/engine.go:357-362 | the ticker starts at the stored interval with an empty channel |
| `Mailbox.IntervalControl.TakeResets` | pkg/daemon/engine.go:365-370 | the telemetry loop taking any number of resets is a run of consume steps |
| `Mailbox.IntervalControl.TrySend` | pkg/daemon/engine.go:431-433 | a non-blocking send is the offer, or second offer, step of the model |
| `Mailbox.IntervalControl.DropOldest` | pkg/daemon/engine.go:434-438 | the non-blocking receive is the drain step of the model |
| `Mailbox.IntervalControl.HandleConfigChange` | pkg/daemon/engine.go:421-445 | the code of one call, with the telemetry loop running between any two of its channel operations, is a run of the model and leaves the mailbox settled on the new interval |
| `Transitions.TransitionManager.UpdateState` | pkg/lock/dbus_manager.go:164-179 | the object's update refines the model's update |
| `Transitions.CollapseMeaning` | pkg/dpms/dbus_manager.go:121-136 | collapsing repeats: neighbours differ, the last element stays, an in-order part of the input, and the identity where nothing repeats |
| `Transitions.Deduplicates` | pkg/lock/dbus_manager.go:164-179 | for every merge of signals and every pace of the receiver: the transitions are the signals with repeats collapsed, the delivered events are an in-order part of them, all of them exactly when none was dropped, and the last state is the latest signal |
| `Transitions.PromptEngineLosesNothing` | pkg/dpms/dbus_manager.go:121-136 | if the channel of fifty is never full, what is delivered and queued is exactly the collapsed signals |
| `Transitions.DropParity` | pkg/dpms/dbus_manager.go:125-135 | in every run whose signals take two values (locked or not, "on" or "off"), the last event sent tells the current state exactly when an even number of transitions was dropped after it |
| `Throttle.TickerFollowsLock` | pkg/daemon/engine.go:546-565 | for every sequence of signals on both buses and every interleaving, without drops, the drained ticker runs at the configured locked interval in milliseconds if the last signal that reports a state reports locked, and at the normal one otherwise |
| `Throttle.TickerFollowsLockIff` | pkg/lock/dbus_manager.go:138-179 | with drops, and two different intervals, the drained ticker is right if and only if an even number of transitions was dropped after the last one sent |
| `Throttle.DroppedEventSticks` | pkg/lock/dbus_manager.go:173-177 | for any two different intervals, a run of fifty-one alternating signals after which everything is drained and the ticker runs at the other interval |
| `Throttle.ReadingMeaning` | pkg/lock/dbus_manager.go:138-161 | what each of the four signals reports, name by name and bus by bus, and that nothing else reports a state |
| `Throttle.CanDrain` | pkg/daemon/engine.go:542-565 | after any run, whatever is under way, the queues can be drained without another signal |
| `Throttle.SomeoneMoves` | pkg/daemon/engine.go:647-658 | in every reachable state that is not drained some party can move, and gets nearer to that |
| `Throttle.DrainedTicker` | pkg/daemon/engine.go:632-659 | the same for any state that satisfies the invariant |
| `StreamHub.SubscriberSafety` | pkg/connectrpc/server.go:106-145 | over every interleaving: no send on and no second close of a closed channel, a channel is closed once and exactly after its stream left, received messages are a first part of the accepted ones, those an in-order part of the offered ones, and each writer's broadcasts made while subscribed were all offered, once and in order; `InOrderIffAlone` settles the order across writers |
| `StreamHub.InOrderWhenAlone` | pkg/connectrpc/server.go:406-423 | if broadcasts do not overlap, what a channel accepted is an in-order part of all broadcasts made while its stream was subscribed, whoever made them |
| `StreamHub.OverlapReorders` | pkg/connectrpc/server.go:425-442 | two broadcasts under the read lock together: a run in which a stream gets them in the opposite order |
| `StreamHub.InOrderIffAlone` | pkg/connectrpc/server.go:406-469 | deliveries follow the order of all broadcasts in every run if and only if broadcasts do not overlap |
| `StreamHub.DropsOnlyWhenTenWait` | pkg/connectrpc/server.go:406-469 | in every reachable state, the only step that loses a message is an offer to a channel with ten waiting |
| `StreamHub.InvStep` | pkg/connectrpc/server.go:156-182 | every step keeps the subscription invariant |
| `StreamHub.SubscriberMap.Add` | pkg/connectrpc/server.go:341-344 | joining is the model's step: the stream has an open, empty channel and is offered exactly what is broadcast from then on |
| `StreamHub.SubscriberMap.Remove` | pkg/connectrpc/server.go:346-351 | leaving is the model's step: the channel has left the map, so nothing is sent on it any more, and it has been closed once |
| `StreamHub.SubscriberMap.Take` | pkg/connectrpc/server.go:365-374 | the drain loop takes the oldest waiting message, and the rest stays in order |
| `StreamHub.SubscriberMap.Send` | pkg/connectrpc/server.go:138-144 | one non-blocking send is the model's delivery, and the subscriber it reached is done |
| `StreamHub.SubscriberMap.SendAll` | pkg/connectrpc/server.go:417-422 | the loop over the map, in any order, is a run of deliveries that offers the message to each subscriber once and touches no other channel |
| `StreamHub.SubscriberMap.Publish` | pkg/connectrpc/server.go:237-247 | a whole broadcast under the read lock is a run of the model with that effect, logged once |
| `StateFanout.LateJoinerConverges` | pkg/connectrpc/server.go:341-375 | in every interleaving of writers (cache, then broadcast), late joiners (register, read three caches, send, drain) and leavers, in which overlapping writers of the kind agree on the value: a stream that has sent its initial states and emptied its channel was last sent the cached value, if no writer of the kind is under way and its newest message of the kind was not dropped |
| `StateFanout.UpToDateIffDropsHarmless` | pkg/connectrpc/server.go:355-374 | with drops, such a stream is up to date if and only if the last item of the kind it read or its channel accepted has the value of the last one it read or was offered |
| `StateFanout.DroppedNewestSticks` | pkg/connectrpc/server.go:417-422 | for any two different values, a run with one writer at a time in which the newer value is dropped at a full channel and the stream settles on the older one |
| `StateFanout.StreamMissesNothing` | pkg/daemon/engine.go:551-562 | whatever writers overlap, a settled stream whose channel dropped nothing has been sent the cached value at least once |
| `StateFanout.ConvergesIffEqual` | pkg/daemon/command_listener.go:114-117 | two writers of one kind that may overlap, as a monitor and the trigger socket may, leave every settled stream that kept its newest message up to date in all interleavings if and only if they store the same value |
| `StateFanout.OverlappingWritersDiverge` | pkg/daemon/command_listener.go:115-117 | for any two values, a run in which a second, overlapping writer leaves a stream that dropped nothing with a value that is not the cached one |
| `StateFanout.OfferRead` | pkg/daemon/engine.go:770-817 | reading the next cache keeps the last item read or offered equal to the cached one |
| `StateFanout.OfferStep` | pkg/connectrpc/server.go:341-375 | every step keeps, for each stream and kind, the last item read or offered equal to the cached one unless a message is under way |
| `StateFanout.SentStep` | pkg/connectrpc/server.go:355-374 | a stream always sends what it read and then what its channel gave it, in order |
| `StateFanout.WriterStep` | pkg/daemon/engine.go:551-562 | the broadcasts under way are exactly those of the writers that have stored and begun to publish, each carrying its stored item |
| `StateFanout.CacheStep` | pkg/daemon/engine.go:745-756 | while overlapping writers agree, every writer under way holds the cached value of its kind |
| `StateFanout.InvStep` | pkg/daemon/engine.go:586-597 | every step of writers and streams keeps the subscription and writer invariants, whether or not writers agree |
| `StateFanout.RefinesHub` | pkg/connectrpc/server.go:341-375 | every run of the fan-out is, for its subscriptions, a run of the stream hub, so subscriber safety holds of it |
| `StateFanout.CacheFromSchedule` | pkg/daemon/engine.go:551-554 | the cached value of a kind is the one stored last |
| `StateFanout.PresentFromJoinToLeave` | pkg/connectrpc/server.go:341-351 | a stream is subscribed exactly from its join to its leave, and neither happens twice |
| `StateFanout.LeftForGood` | pkg/connectrpc/server.go:346-351 | after its leave a stream's channel is out of the map and closed once, and no later step offers it anything or makes the stream send anything |
| `StateFanout.ProgressFromSchedule` | pkg/connectrpc/server.go:356-374 | each read of a stream reads one cache, each flush and forward sends one item |
| `StateFanout.JoinerSettles` | pkg/daemon/engine.go:770-817 | after any run, a new stream that is not disturbed is sent the cached lock, power and DPMS states, in this order, and settles |
| `SocketPool.ClosedOnceAndOnlyWhenRemoved` | pkg/websocket/connection_pool.go:61-106 | over every interleaving of joins, failing writes and read-loop exits, each socket is closed at most once, and exactly when it was added and is no longer registered |
| `SocketPool.RegisteredIff` | pkg/websocket/connection_pool.go:73-104 | a client is registered exactly if it was added and the schedule has neither its exit nor an eviction after a failed broadcast write to it; no other write and no failure of the connect handler removes it |
| `SocketPool.CacheFromSchedule` | pkg/daemon/engine.go:586-589 | the cached value of a kind is the one stored last |
| `SocketPool.SenderFromSchedule` | pkg/daemon/engine.go:556-561 | what a broadcaster is sending is what it announced last and has not finished |
| `SocketPool.PendingFromSchedule` | pkg/websocket/connection_pool.go:91-105 | a broadcast still has to reach exactly the clients registered when it copied the registry and not written to since |
| `SocketPool.ClientFromSchedule` | pkg/daemon/engine.go:662-719 | the states written to a client, in order, what its connect handler holds, and whether a write failed or its read loop ended are what the schedule says |
| `SocketPool.PlainBegins` | pkg/daemon/engine.go:407-414 | a broadcast that is no cached state copies the registry like any other |
| `SocketPool.PlainWritten` | pkg/websocket/connection_pool.go:100-104 | and a successful write of it leaves the client and the registry as they are |
| `SocketPool.JoinMissesNothing` | pkg/daemon/engine.go:662-719 | whatever overlaps: once no broadcast of a kind is under way and the connect handler has finished without a failed write, a registered client has been sent the cached value |
| `SocketPool.InformedStep` | pkg/websocket/connection_pool.go:91-106 | every step keeps that a client which has read the cache of a kind has the cached item or will be brought it |
| `SocketPool.LastIsCurrentIffNotOvertaken` | pkg/daemon/engine.go:662-719 | the last value it was sent is the cached one if and only if the schedule does not overtake its connect handler: no change of the cache between the handler's read and its write with no broadcast of the kind written to the client after that |
| `SocketPool.OvertakenStep` | pkg/daemon/engine.go:663-673 | how each action of a schedule decides whether the handler is overtaken |
| `SocketPool.JoinCanEndStale` | pkg/daemon/engine.go:663-673 | for any two values, a run that overtakes the handler: the client is sent the newer one and then the older one |
| `SocketPool.ConnectionPool.Add` | pkg/websocket/connection_pool.go:61-65 | registering a fresh client is the model's step: it is open and nothing has been written to it |
| `SocketPool.ConnectionPool.Remove` | pkg/websocket/connection_pool.go:73-81 | unregisters and closes a registered client, does nothing for any other, so a second call does not close twice |
| `SocketPool.ConnectionPool.HandleExit` | pkg/websocket/connection_pool.go:146-155 | the end of a read loop is the model's step: whoever removed the client before, its socket ends up closed exactly once |
| `SocketPool.ConnectionPool.Size` | pkg/websocket/connection_pool.go:84-88 | the number of clients that were added and whose socket is still open |
| `SocketPool.ConnectionPool.Deliver` | pkg/websocket/connection_pool.go:101-104 | one write, with removal on failure, is the model's write or its write and eviction |
| `SocketPool.ConnectionPool.Broadcast` | pkg/websocket/connection_pool.go:91-106 | a lone broadcast leaves just the clients whose write succeeded, each sent the message once; the others are closed once |
| `SocketPool.ConnectionPool.Publish` | pkg/daemon/engine.go:551-561 | a monitor's cache store and broadcast are a run of the model; the remaining clients have the item last, the others are closed once |
| `AdbWire.ParseHexLength` | pkg/adb/socket_client.go:356-365 | a parsed length is at most 65535 |
| `AdbWire.HeaderParses` | pkg/adb/socket_client.go:317-318 | the printed header of any length up to 65535 has four digits and parses back |
| `AdbWire.HeaderMeaning` | pkg/adb/socket_client.go:356-365 | any four bytes parse to a length exactly if they are hexadecimal digits of either case standing for that number |
| `AdbWire.HeaderSpelled` | pkg/adb/socket_client.go:318-318 | the printed header is four digits with lower-case letters |
| `AdbWire.FrameRoundTrip` | pkg/adb/socket_client.go:316-321 | a frame reads back as its payload, with whatever follows untouched |
| `AdbWire.FrameRoundTripIff` | docs/protocol_specification.md:30-35 | it does so if and only if the payload has at most 65535 bytes |
| `AdbWire.StreamRoundTrip` | pkg/adb/socket_client.go:100-126 | concatenated frames read back as exactly the payloads |
| `AdbWire.FrameMeaning` | pkg/adb/socket_client.go:100-124 | for every byte string, a frame is read exactly if the stream starts with a header, a payload of that length and the rest |
| `AdbWire.ReadAllMeaning` | pkg/adb/socket_client.go:93-124 | for every byte string, the payloads read are those framed at its start, up to where no frame follows |
| `AdbWire.CutStream` | pkg/adb/socket_client.go:100-126 | a stream cut off anywhere reads back as the payloads of exactly the frames that arrived whole |
| `AdbWire.ReplyRoundTrip` | pkg/adb/socket_client.go:324-353 | an OKAY or FAIL reply is understood and consumed to its last byte |
| `AdbWire.AcceptedMeaning` | pkg/adb/socket_client.go:330-332 | for every byte string, the reply is accepted exactly if it starts with the bytes of "OKAY", which are consumed |
| `AdbWire.RejectedMeaning` | pkg/adb/socket_client.go:334-350 | and rejected with a message exactly if it starts with the bytes of "FAIL" and a frame of that message, which are consumed |
| `AdbWire.HandshakeThenFrames` | pkg/adb/socket_client.go:71-126 | after the handshake the reader is aligned on the first frame and reads all payloads |
| `AdbWire.Connection.ReadFull` | pkg/adb/socket_client.go:101-102 | fills the buffer and advances, or uses up the stream and fails |
| `AdbWire.Connection.Check` | pkg/adb/socket_client.go:324-353 | the code agrees with the reply function on every input; it accepts exactly what starts with the bytes of "OKAY", and a rejection carries the framed message after "FAIL" |
| `AdbWire.Connection.ReadNext` | pkg/adb/socket_client.go:100-124 | the code agrees with the frame reader on every input |
| `AdbWire.Connection.TakeNext` | pkg/adb/socket_client.go:93-124 | one turn of the read loop moves exactly one payload from the stream to what was read, or finds that everything was read |
| `AdbWire.Connection.ReadPayloads` | pkg/adb/socket_client.go:93-126 | the read loop yields exactly the payloads of the whole, well-formed frames |
| `AdbDevices.PrintParses` | pkg/adb/socket_client.go:129-142 | a printed device list parses back as the list |
| `AdbDevices.LinesMeaning` | pkg/adb/socket_client.go:129-130 | for every payload, the lines are exactly the stretches between newlines and ends, the last one included whether or not a newline ends it |
| `AdbDevices.SpaceMeaning` | pkg/adb/socket_client.go:131-136 | white space is exactly the Unicode white space characters in UTF-8 |
| `AdbDevices.FieldsMeaning` | pkg/adb/socket_client.go:136-139 | for every line, the fields are exactly the stretches between white space and ends |
| `AdbDevices.SaysMeaning` | pkg/adb/socket_client.go:136-142 | a line counts exactly if it has at least two fields, and then says its second of its first |
| `AdbDevices.OnlineMeaning` | pkg/adb/socket_client.go:129-157 | for every payload, whatever its bytes, a serial is online exactly if the last line about it with at least two fields has "device" as its second |
| `AdbDevices.OnlineSetMeaning` | pkg/adb/socket_client.go:144-157 | a serial is in the online set exactly when its last well-formed line says "device" |
| `AdbDevices.LinesThenSweep` | pkg/adb/socket_client.go:130-165 | the lines followed by the sweep leave exactly the serials whose last line says "device", whatever was active before |
| `AdbDevices.GenuineAlternates` | pkg/adb/socket_client.go:145-156 | events that each change the set alternate per serial, starting with online, and their parity tells membership |
| `AdbDevices.SnapshotDiff` | pkg/adb/socket_client.go:90-165 | for every run of payloads, malformed and repeated lines included: the events together turn the empty set into the serials the newest payload last reports as "device", and each serial's events alternate starting with online; `TrackStream` shows that what the code emits is such a run |
| `AdbDevices.WireToDevices` | pkg/adb/socket_client.go:86-165 | device lists printed and framed after an OKAY are read back exactly, and the last one decides the active set |
| `AdbDevices.DeviceTracker.HandleLine` | pkg/adb/socket_client.go:141-156 | one line emits an event exactly when it changes the set |
| `AdbDevices.DeviceTracker.HandleLines` | pkg/adb/socket_client.go:127-157 | the lines in order, with the serials listed as "device" collected |
| `AdbDevices.DeviceTracker.Sweep` | pkg/adb/socket_client.go:160-165 | unlisted devices go offline, in any map order, one event each |
| `AdbDevices.DeviceTracker.HandleEntries` | pkg/adb/socket_client.go:127-165 | lines and sweep together: the active set is the online set of the entries |
| `AdbDevices.DeviceTracker.HandlePayload` | pkg/adb/socket_client.go:126-165 | from the bytes of a payload: the active set is that of `OnlineMeaning`, said of lines and fields, and the events lead from the old set to it by real changes |
| `AdbDevices.DeviceTracker.TrackNext` | pkg/adb/socket_client.go:100-165 | one turn of the tracking loop extends the run by one payload and its events |
| `AdbDevices.DeviceTracker.TrackStream` | pkg/adb/socket_client.go:86-167 | the tracking goroutine on any byte stream: what it emits is a run over exactly the payloads of the whole, well-formed frames, and the active set is the one the last of them reports |
| `AdbTracking.MirrorRefinesTracker` | pkg/daemon/engine.go:297-326 | in every run of connects, payloads and stream losses, the engine's set with the unread events applied is the tracker's set, and it is empty between streams |
| `AdbTracking.BootstrappedOncePerOnline` | docs/specifications.md:173 | on each stream the bootstraps are the online events handled, once each and in order; when all are handled every device of the stream has been bootstrapped again |
| `AdbTracking.InvStep` | pkg/daemon/engine.go:263-326 | every step keeps the mirror invariant |
| `AdbTracking.StreamFromSchedule` | pkg/adb/socket_client.go:90-165 | on each stream the tracker's set is that of the newest snapshot, it has emitted the events of all snapshots, it is closed once lost, and sends and receives are counted by the schedule |
| `AdbTracking.BootsGrow` | pkg/daemon/engine.go:312-317 | bootstraps are never taken back, across streams |
| `AdbTracking.CanHandleAll` | pkg/daemon/engine.go:303-325 | from any state on a stream the engine can handle all that was emitted, and then mirrors the tracker |
| `AdbTracking.BootstrapsAgain` | pkg/daemon/engine.go:271-278 | after any run that ended between streams the engine can connect again, bootstrap again every device the new stream reports, and return with none when that is lost |
| `AdbTracking.DoubleThenCap` | pkg/daemon/engine.go:277-291 | the closed form min(min * 2^j, max) lies in [min, max], and doubling then capping it is the closed form for j + 1 |
| `AdbTracking.Engine.TrackDevices` | pkg/daemon/engine.go:303-325 | the event loop applies the events to the set and bootstraps each online device once |
| `AdbTracking.Engine.Track` | pkg/daemon/engine.go:263-293 | in every run each wait is min(min * 2^j, max), with j the failed attempts since the start or the last established stream; devices are forgotten after every attempt |
| `Base64.DecodeEncode` | pkg/connectrpc/server.go:625-629 | standard Base64 (section 4 of RFC 4648) decodes what it encodes, for every byte string |
| `Base64.EncodeDecodeIff` | pkg/connectrpc/server.go:625-628 | a text the decoder accepts is the encoding of its bytes if and only if it has no line breaks and no stray bits are set in its last symbol |
| `Base64.SymbolMeaning` | pkg/notifications/icon_extractor.go:198-198 | the symbols are the alphabet A to Z, a to z, 0 to 9, plus and slash, in this order |
| `Base64.GroupMeaning` | pkg/mpris/artwork_extractor.go:128-128 | a group is one number of 24 bits written as four sextets, padded where it has no byte |
| `Base64.EncodeAt` | pkg/mpris/artwork_extractor.go:128-128 | the encoding is that of each three bytes in turn |
| `Base64.DecodeAcceptsIff` | pkg/connectrpc/server.go:625-628 | the decoder accepts exactly the texts that, line breaks aside, are groups of four symbols with at most two padding characters at the end |
| `ImageUrls.MediaType` | pkg/mpris/artwork_extractor.go:110-125 | the media type has no comma, so the first comma of the URL ends its header |
| `ImageUrls.MediaTypeMeaning` | pkg/mpris/artwork_extractor.go:112-125 | the table of both extractors, with PNG for any other extension |
| `ImageUrls.InlineDecodes` | pkg/connectrpc/server.go:609-630 | a Base64 data URL (section 3 of RFC 2397) of any media type without a comma decodes to its bytes with an empty URL |
| `ImageUrls.TransportRoundTrip` | pkg/notifications/icon_extractor.go:198-212 | for every byte string and extension, the URL built by either extractor decodes to those bytes with an empty URL |
| `ImageUrls.BytesOrUrl` | pkg/connectrpc/server.go:609-630 | every string keeps its URL without bytes or yields bytes without a URL, and it yields bytes exactly when it is a decodable Base64 data URL |
| `ImageUrls.InlineMeaning` | pkg/connectrpc/server.go:613-629 | for every string with a comma, bytes come out exactly if what precedes the first comma starts with "data:" and holds the marker and what follows decodes, and they are what it decodes to |
| `ImageUrls.NoCommaKept` | pkg/connectrpc/server.go:616-619 | a string without a comma keeps its URL |
| `ImageUrls.ContainsMeaning` | pkg/connectrpc/server.go:622-622 | containment means an occurrence |
| `ImageUrls.ArtworkExtractor.Extract` | pkg/mpris/artwork_extractor.go:30-136 | a remote URL passes through; a cached path is answered from the cache; any other gets the bytes of a readable file of at most 2 MiB, which is remembered, or nothing, which is not |
| `ImageUrls.CacheHoldsFirstRead` | pkg/mpris/artwork_extractor.go:61-132 | after every run of artwork requests a path is cached exactly when some read of it was usable, and its entry decodes to the first such read |
| `ImageUrls.ExtractThenDecode` | pkg/mpris/artwork_extractor.go:61-136 | from file to client over every run of artwork requests: a local path yields the bytes of its first usable read, or nothing |
| `ImageUrls.MapMediaEvent` | pkg/connectrpc/server.go:583-607 | the payload holds each player at its index, all fields unchanged except the artwork, which is bytes without a URL or the URL it was |
| `IconCache.AnswersOwnBytes` | pkg/notifications/icon_extractor.go:162-215 | in every interleaving of path and themed requests, a request for a path without a colon is answered with nothing or with bytes read from that very path, and so is its entry |
| `IconCache.KeepsOwnIffNoColon` | pkg/notifications/icon_extractor.go:223-249 | the entry of an absolute path shows bytes read from that path in every run if and only if the path has no colon |
| `IconCache.ThemeTakesPath` | pkg/notifications/icon_extractor.go:247-249 | for every absolute path with a colon, a run in which a themed request fills its entry from another file |
| `IconCache.AnswersFirstBytes` | pkg/notifications/icon_extractor.go:177-214 | while requests for one path do not overlap, each is answered with nothing or with the first bytes ever read from the path |
| `IconCache.KeepsFirstIff` | pkg/notifications/dbus_manager.go:105-108 | the entry shows the first read in every run in which the file holds one of two contents, if and only if requests for the path do not overlap or the contents are equal |
| `IconCache.OverlapKeepsLater` | pkg/notifications/icon_extractor.go:178-213 | for any path and any two contents, two overlapping requests after which the entry shows the later read |
| `IconCache.NothingOnlyForAReason` | pkg/notifications/icon_extractor.go:162-255 | in every interleaving a request is answered with nothing only for a reason of its own: no absolute path, no readable file of at most 150 KiB, no icon found, no name |
| `IconCache.CanAnswer` | pkg/notifications/icon_extractor.go:193-252 | a request that has begun can always be answered, whatever the others are doing |
| `IconCache.IconExtractor.ExtractFromPath` | pkg/notifications/icon_extractor.go:162-215 | the code of an uninterrupted path request, for any path, file and cache, is a run of the model, with the answer and the new cache spelled out |
| `IconPixels.ReadsInRangeIff` | pkg/notifications/icon_extractor.go:115-120 | every index the pixel loop reads is in range if and only if the row stride is not negative, or there is one row, or the data is too short for any pixel |
| `IconPixels.PixelsDisjoint` | pkg/notifications/icon_extractor.go:121-127 | destination pixels lie inside the array and do not overlap, so none is written twice |
| `IconPixels.NothingSkipped` | pkg/notifications/icon_extractor.go:117-119 | no pixel is skipped when a row of pixels fits in the row stride |
| `IconPixels.NothingSkippedIff` | pkg/notifications/icon_extractor.go:115-119 | for a non-negative row stride, no pixel is skipped if and only if the data reaches to the end of the last row's pixels |
| `IconPixels.ConvertPixels` | pkg/notifications/icon_extractor.go:115-137 | the nested loops write every byte of the image as the source asks, or fail exactly when some index is out of range |
| `IconPixels.ShowsPixel` | pkg/notifications/icon_extractor.go:117-132 | pixel (x, y) holds the bytes at y * rowstride + x * channels, alpha 255 for three channels, or stays transparent black where the data ends |
| `IconPixels.ExtractImage` | pkg/notifications/icon_extractor.go:98-137 | for every hint, exactly whether it is rejected, makes the program panic on an index, or becomes an image of its size showing the source |
| `IconPixels.ScaledFits` | pkg/notifications/icon_extractor.go:391-411 | an image larger than the box is scaled to a size inside it, at least 1 by 1 and no larger than the image |
| `IconPixels.ScaledMeaning` | pkg/notifications/icon_extractor.go:399-411 | the longer side takes its maximum and the other the whole part of its share of the aspect ratio, or 1 |
| `IconPixels.BoxFitsEveryImageIff` | pkg/notifications/icon_extractor.go:399-411 | the boxes that contain the scaled form of every image are exactly those with maxH <= maxW <= maxH + 1 |
| `IconPixels.SamplesInRange` | pkg/notifications/icon_extractor.go:414-418 | sampled indices are inside the source and strictly increasing when scaling down |
| `IconPixels.SampleMeaning` | pkg/notifications/icon_extractor.go:416-417 | the sampled index is the one that lies under the scaled one: j * to <= i * from < (j + 1) * to |
| `IconPixels.SamplesShrunk` | pkg/notifications/icon_extractor.go:414-418 | so every pixel of the result is the source pixel that lies under it |
| `IconPixels.SamplesPixel` | pkg/notifications/icon_extractor.go:414-418 | each pixel of the result is the source pixel in the sampled column and row |
| `IconPixels.Resize` | pkg/notifications/icon_extractor.go:391-422 | an image that fits is returned itself; any other becomes a new image of the scaled size, every pixel the source pixel under it, transparent if the source has no pixels |
| `IconPixels.ExtractIcon` | pkg/notifications/icon_extractor.go:98-143 | from any hint to the same outcome with an icon of at most 96 by 96, no larger than the source, every pixel the source pixel under it |
| `ArtworkCache.KeyInjective` | pkg/mpris/dbus_manager.go:696-699 | for tracks whose id, title and album have no bar, equal keys mean equal id, title, album and joined artists |
| `ArtworkCache.KeyUniqueIff` | pkg/mpris/dbus_manager.go:695-699 | no metadata of another track has the key of this one if and only if id, title, album and artists have no bar and there is exactly one artist, with a non-empty name without a comma |
| `ArtworkCache.Mistaken` | pkg/mpris/dbus_manager.go:696-699 | for all other metadata, some metadata of a different track or artist list with the same key |
| `ArtworkCache.TrackKeyUniqueIff` | pkg/mpris/dbus_manager.go:698-698 | among tracks told apart by their joined artists, the key is unique if and only if none of the four texts has a bar |
| `ArtworkCache.Collision` | pkg/mpris/dbus_manager.go:696-699 | for every track with a bar, a different track with the same key |
| `ArtworkCache.CacheRefines` | pkg/mpris/dbus_manager.go:370-379 | over every run, for a track whose key no other track of the run shares, the text-keyed cache holds what a cache keyed by the track itself would |
| `ArtworkCache.ShowsOwnOrLastArt` | pkg/mpris/dbus_manager.go:557-573 | over every run, each registration or metadata change of such a track shows its own artwork, or else the last non-empty artwork recorded for that track, and the rest of its metadata as it came |
| `ArtworkCache.RefinesIffKeysDistinct` | pkg/mpris/dbus_manager.go:557-573 | the cache keeps the artwork of a set of tracks apart in every run if and only if their keys are distinct |
| `ArtworkCache.SeparableKeysDistinct` | pkg/mpris/dbus_manager.go:696-699 | tracks whose id, title and album have no bar have distinct keys |
| `ArtworkCache.CollisionShowsOthersArt` | pkg/mpris/dbus_manager.go:373-378 | for any two tracks with one key, a run in which the artwork of one is shown for the other |
| `ArtworkCache.SharedKeyShowsOthersArt` | pkg/mpris/dbus_manager.go:563-569 | for any two metadata with one key, such as artists "A", "B" and artist "A,B", a run in which the artwork of one is shown for the other |
| `ArtworkCache.ArtworkSurvives` | pkg/mpris/dbus_manager.go:505-514 | an exit takes only its player and a poll none; neither touches the artwork of any track |
| `ArtworkCache.MediaManager.ResolveArt` | pkg/mpris/dbus_manager.go:371-379 | stores artwork or completes metadata without it, never both |
| `ArtworkCache.MediaManager.Register` | pkg/mpris/dbus_manager.go:370-391 | registration records the service and the player with every field as given, its artwork resolved under the joined key, and leaves the other players as they were |
| `ArtworkCache.MediaManager.PropertiesChanged` | pkg/mpris/dbus_manager.go:535-579 | a known player takes the status, volume and metadata that were brought and keeps everything else, the other players and services are as they were, and an unknown owner changes nothing |
| `ArtworkCache.MediaManager.Unregister` | pkg/mpris/dbus_manager.go:505-514 | an exit removes the player and its service and leaves the other players and all artwork as they were |
| `ArtworkCache.MediaManager.SetPosition` | pkg/mpris/dbus_manager.go:608-613 | a polled position changes only the position of a player that still exists |
| `TagStripping.FirstClose` | pkg/notifications/dbus_manager.go:13-13 | the first position of the closing bracket, where the pattern's match ends |
| `TagStripping.SanitizeKeepsOutside` | pkg/notifications/dbus_manager.go:13-18 | the one-pass remover keeps exactly the bytes that lie in no tag, stated without the remover |
| `TagStripping.StripsTags` | pkg/notifications/dbus_manager.go:15-18 | for every text: no '<' is followed by a '>' in the result, it is a subsequence, a second pass changes nothing, and it is the text exactly when that had no tag |
| `TagStripping.Prepare` | pkg/notifications/dbus_manager.go:144-151 | the summary and body sent are what lies outside tags in the first 512 and 2048 bytes of those given, or in all of them if shorter; no tag is left |

## Left out

- IconPixels.ScaledFits: sizes are exact rationals; the parameter `low` lets a whole quotient come out one lower, which covers the two roundings of the floating-point computation. The sampled indices need one rounding of small integers and are exact.
- StateFanout.LateJoinerConverges: assumes that overlapping writers of the kind agree and that the newest message of the kind was not dropped; ConvergesIffEqual and UpToDateIffDropsHarmless show that neither can be left out.
- SocketPool.LastIsCurrentIffNotOvertaken: assumes that overlapping broadcasts of the kind agree.
- SocketPool.ConnectionPool.Publish: the code in place is that of a lone broadcast; what overlapping ones do is in the step model.
- Throttle.TickerFollowsLock: leaves out interval requests of clients and lock events from the trigger socket; the latter do not touch the interval.
- AdbTracking.Engine.Track: the outcome of each attempt is an input, and cancellation of the context, which only ends the loop, is left out.
- AdbTracking.MirrorRefinesTracker: the events of a payload are any that satisfy the specification `Emits`, which DeviceTracker.HandlePayload is proved to meet; cancellation is left out.
- AdbDevices.PrintParses: trimming a line before splitting it into fields is not modelled separately, because splitting ignores surrounding white space.
- ImageUrls.ArtworkExtractor.Extract: one step, because only the goroutine that handles media signals calls it; path unescaping and cleaning, lower-cased extensions, the retry loop and the file system are inputs, and a file is taken to have the size that was checked.
- IconCache.IconExtractor.ExtractFromPath: the code in place is that of an uninterrupted path request; overlapping and themed requests are in the step model, where the file a themed search finds is an input; a file is taken to have the size that was checked.
- TagStripping.Prepare: the hint filter and the D-Bus call that follow are not modelled.
- ArtworkCache.MediaManager.Register: friendly names and D-Bus property reads are inputs, and one owner per service is not claimed.
- D-Bus, TCP, HTTP, WebSocket upgrades, deadlines and logging: represented as arbitrary inputs and as success or failure.
- PNG and JSON encoding, icon theme and desktop-file search: library and file-system behaviour.
- Host metrics (`pkg/metrics`), generated API code, command line, configuration and packaging: short formulas or schema that would add only easy members.
- Command dispatch of the trigger socket and of WebSocket messages: branch-by-branch routing; it appears only as a second writer and as the interval clamp.
- Mock managers, Bluetooth, OSD, peripherals and notification actions: timers and stubs.
