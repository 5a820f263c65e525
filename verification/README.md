# Verified model of the push bridge

This project models the store-and-forward bridge between Google's push service (FCM over MCS), web push
senders and devices, and proves what its parts promise. It has five groups of modules.

- **Delivery.** `Tables` gives the meaning of the SQL statements on table values, `Database` runs them as
  methods; those of its methods that have no row below are one statement or transaction each and have the
  effect of a function of `Tables` or `Installations`, which is what the theorems below speak of.
  `DeliveryProtocol` is a transition system with one step per database call, hub call or piece of
  task-local work: WebSocket connections with program counters, HTTP handlers, ingest tasks and the
  UnifiedPush deliverer interleave freely, the bridge may be restarted at any time, and histories record
  what was read, received, inserted and removed. `DeliveryInvariant` holds the inductive invariant,
  `DeliveryTheorems`, `Ownership`, `DedupWindow` and `Endpoints` what follows from it on every run.
  `DeliveryProgress` says what a connection can do next, `UnifiedPushLoop` puts the deliverer's own loop
  around the protocol. `SocketHub`, `SocketConnection` and `Delivery` are the classes of the source; each
  method is shown to do what the protocol's steps do when nothing else runs in between.
- **MCS stream.** `Protobuf` and `ProtobufProofs` are the message codec, driven by the schemas of
  `McsMessages`; `McsStream` is the frame decoder next to a one-shot parser; `McsDecoder` and `McsCodec`
  are the mutating loops of the source; `McsStreamProofs`, `AckFrames` and `DataFrames` relate them to each
  other and to the bytes.
- **Ingest.** `FcmListener`, `FcmListenerProofs` and `LongIds`: the task that logs in, persists and
  acknowledges.
- **Handlers.** `Installations` (binding an install id to a secret), `Reconcile` and `Handlers` (the request
  handlers as methods), `ReconcileRuns` (reconcile while everything else runs).
- **Device and web push.** `NativeStop` (stop handshake), `NativeRun` (callback before acknowledgement),
  `WebPush` (decryption framing), `Vapid` with `Base64`, `Hex` and `Utf8`.

Six findings, each with the exact condition or a concrete input:

- The connection that attached last need not stay the owner: it loses the install to a stale notice
  (`Ownership.LatestAttacherLosesToStaleNotice`), exactly if that notice was in its queue when it attached
  (`Ownership.StaleNoticeWasQueuedAtAttach`).
- A socket that fails behind a Close tag is reported exactly if that tag arrived alone and the failure is the
  very next read (`McsStreamProofs.DecoderRefinesParser`). So the way the bytes are cut shows exactly for
  byte strings that end with such a tag (`McsStreamProofs.ChunkingShowsExactlyAtClose`).
- A persistent id of more than 4096 bytes makes the next MCS login of its task fail, and then all later ones,
  exactly if fewer than 500 new ids were accepted behind it before its connection ended
  (`FcmListenerProofs.LongIdStopsTheTask`); a data frame can carry such an id (`LongIds.LongIdArrives`). A task
  started while the table's history holds the id never logs in (`FcmListenerProofs.LongIdStopsLaterTasks`).
  The count part of the same check never fails.
- With two stop requests at once, one can return before the run is signalled
  (`NativeStop.ConcurrentStopReturnsEarly`, `NativeStop.UnsignalledExactlyWhileHeld`).
- Saturating arithmetic never shows in the VAPID time check (`Vapid.TimeWindowIsExact`).
- The branch of `register` that reports a lost claim race is never taken
  (`Installations.ClaimRaceIsNeverLost`).

## Model

| member | source | states |
|---|---|---|
| Types.Clamp | crates/bridge/src/types.rs:343-346 | A presented cursor is pulled into 0..maximum, and unchanged inside it |
| Tables.NextSocketMessage | crates/bridge/src/db.rs:547-584 | The least id after the cursor among the install's socket rows, or none if there is no such row |
| Tables.MaxId | crates/bridge/src/db.rs:686-697 | An upper bound of all ids that is itself a row, or 0 for an empty outbox |
| Tables.AckedForAppend | crates/bridge/src/db.rs:485-491 | A new history entry comes last in its pair's order and in no other pair's |
| Tables.KeepNewestKeepsLast | crates/bridge/src/db.rs:492-501 | Trimming leaves exactly the pair's newest entries, in order |
| Tables.KeepNewestSparesOthers | crates/bridge/src/db.rs:492-501 | Trimming one pair leaves every other pair's history as it was |
| Tables.ForgetIsExact | crates/bridge/src/db.rs:778-801 | Deleting a registration empties that pair's history and no other |
| Tables.IngestIdIsExact | crates/bridge/src/db.rs:433-509 | The id is that of the row added, with exactly the message's contents, or of the newest live row with the same persistent id; without an id nothing is added |
| Tables.UnregisterIsExact | crates/bridge/src/db.rs:320-352 | The connector goes exactly if the app owns it, with exactly its messages of that app; all else stays |
| Database.Database.EnqueueFcmMessage | crates/bridge/src/db.rs:433-509 | The ingest transaction's statements have the effect and the result of its specification; an id comes back exactly for a payload that is not empty and a persistent id that the history does not hold |
| Database.Database.NextSocketMessage | crates/bridge/src/db.rs:547-584 | The query returns the least waiting id after the cursor |
| Database.Database.MaxOutboxId | crates/bridge/src/db.rs:686-697 | The largest id in the outbox, or 0 |
| Database.Database.DeleteStaleUnifiedPushRegistrations | crates/bridge/src/db.rs:354-398 | The loop removes exactly the stored connectors that are not retained, with their messages, and counts them |
| Database.Database.VerifyInstallation | crates/bridge/src/db.rs:174-216 | Accepts exactly the secrets that hash to the stored text, and only then refreshes the stored secret |
| Database.Database.PruneStale | crates/bridge/src/db.rs:839-872 | The loop over the selected pairs deletes all of them, one after the other |
| Database.Database.RecentAcks | crates/bridge/src/db.rs:874-903 | The newest ids of the pair, newest first, at most the limit |
| Database.PruneIsExact | crates/bridge/src/db.rs:839-872 | A prune removes exactly the FCM rows and histories of the pruned pairs, whatever their order |
| DeliveryInvariant.StepKeepsInv | crates/bridge/src/socket_v2.rs:172-254 | Every step of every task keeps the whole invariant: low water, read log, hub, wakeups, accounts, held rows |
| DeliveryInvariant.ReachableInv | crates/bridge/src/socket_v2.rs:263-428 | The invariant holds in every state of every run from an empty bridge |
| DeliveryInvariant.ReadIsOldest | crates/bridge/src/db.rs:547-584 | A row read for sending is the oldest one waiting, and not older than any id read for that install before |
| DeliveryInvariant.HonestResumeRemovesOne | crates/bridge/src/socket_v2.rs:180-182 | A row that a resume with a received id removes is that very id, and was received |
| DeliveryTheorems.DeliveryNeverGoesBackwards | crates/bridge/src/socket_v2.rs:228-254 | On every run the ids read for an install never go down, over all connections, and go up strictly within an attachment |
| DeliveryTheorems.AttachmentsSitAtLowWater | crates/bridge/src/socket_v2.rs:187-190 | Ready(c) means no row up to c is left, AwaitingAck(m) that none before m is |
| DeliveryTheorems.RunsExtendHistory | crates/bridge/sql/schema.sql:56-68 | A run only adds to the read log and to the received frames, and the id counter never falls |
| DeliveryTheorems.IdsAreNeverReused | crates/bridge/sql/schema.sql:56-68 | Through any run, restarts of the bridge included, an id keeps naming the message it was first given to, and a message that went never comes back |
| DeliveryTheorems.HonestCursorIsNeverReplayed | crates/bridge/src/socket_v2.rs:180-190 | After a resume with a received id c, only ids above c are sent, even when the clamp lowered the cursor |
| DeliveryTheorems.HonestResumeRemovesAtMostOneRow | crates/bridge/src/db.rs:638-654 | A resume with a received id deletes at most one row |
| DeliveryTheorems.HubOwnership | crates/bridge/src/socket.rs:75-102 | The owner has the install attached, and every attached non-owner has a Replaced event waiting |
| DeliveryTheorems.DropNeverEvictsAnotherOwner | crates/bridge/src/socket.rs:94-102 | Detaching takes nothing from the hub that another connection owns |
| DeliveryTheorems.NoLostWakeup | crates/bridge/src/delivery.rs:81-123 | A connection parked over an unread row has a Wake or a Replaced in its queue, or an enqueuer is still to wake it |
| DeliveryTheorems.QuietMeansDelivered | crates/bridge/src/socket_v2.rs:285-300 | With no event and no enqueuer left, a parked connection owns the install, and has nothing unsent unless it waits for an ack |
| DeliveryTheorems.WakesAreOwedExactly | crates/bridge/src/delivery.rs:81-123 | A step leaves a wake to be given exactly for a stored or waiting socket message, and takes one away exactly by giving it or by a restart |
| DeliveryTheorems.UnregisterStepIsExact | crates/bridge/src/db.rs:778-801 | Deleting a registration takes exactly the pair's FCM messages and its history |
| DeliveryProgress.ActionsFollowTheLoop | crates/bridge/src/socket_v2.rs:263-428 | A connection can take each kind of step exactly where its event loop stands for it |
| DeliveryProgress.WakeDelivers | crates/bridge/src/socket_v2.rs:228-428 | A parked connection with a wake in front can on its own write the oldest message of every install it may read for, and park again |
| DeliveryProgress.AckIsARun | crates/bridge/src/socket_v2.rs:367-396 | The turn for an ack frame is the ack step, with the detach step behind it exactly after a refusal |
| DeliveryProgress.DetachStep | crates/bridge/src/socket_v2.rs:198-208 | A detach frame drops the attachment and starts a new scan |
| DeliveryTheorems.NoSilentLoss | crates/bridge/src/db.rs:620-654 | Every row ever inserted is still there, or went for a recorded reason that was allowed to remove it |
| DeliveryTheorems.HonestClientsLoseNothing | crates/bridge/src/socket_v2.rs:210-226 | If clients present only received ids, a socket row goes only after its client received it or its registration went |
| Ownership.OwnershipIsLostExactly | crates/bridge/src/socket_v2.rs:198-208 | An owner loses an install exactly by giving it up, reading a Replaced for it, another connection's attach, or a restart of the bridge |
| Ownership.LatestAttacherLosesToStaleNotice | crates/bridge/src/socket_v2.rs:404-418 | A run in which the connection that attached last reads a stale Replaced and loses the install |
| Ownership.StaleNoticeWasQueuedAtAttach | crates/bridge/src/socket_v2.rs:404-418 | A connection that has owned the install since it attached loses it with its (n+1)-th read exactly if the (n+1)-th event queued when it attached was a Replaced for it, the first such |
| DedupWindow.HistoryStep | crates/bridge/src/db.rs:485-502 | What any step of any task does to the history of any pair |
| DedupWindow.HistoriesAreSmallAndDistinct | crates/bridge/src/db.rs:492-501 | On every run a pair's history has at most 500 entries, all different |
| DedupWindow.RepeatsAreFarApart | crates/bridge/src/db.rs:449-505 | Two calls that create a row for one persistent id have at least 500 distinct other ids accepted between them, unless the pair was deleted |
| DedupWindow.WindowIsExact | crates/bridge/src/db.rs:449-505 | A newly ingested id, with or without a row, that is not accepted again is a duplicate until 500 new ids were accepted, and not after |
| DedupWindow.OneLiveRowPerPersistentId | crates/bridge/sql/schema.sql:70-72 | On every run at most one live row carries a persistent id of a pair |
| Endpoints.EndpointNamesOneConnector | crates/bridge/sql/schema.sql:45-54 | On every run two connectors never share an endpoint |
| Endpoints.EndpointNeverChanges | crates/bridge/src/db.rs:283-311 | While a connector is registered, no interleaving changes its endpoint or its app |
| Endpoints.UnregisteredEndpointIsGone | crates/bridge/src/db.rs:320-352 | On every run, once its app has unregistered a connector, no connector has its endpoint |
| SocketHub.SocketHub.constructor | crates/bridge/src/socket.rs:55-61 | A new hub matches the protocol's start, and its state after any restart |
| SocketHub.SocketHub.NewConnection | crates/bridge/src/socket.rs:63-73 | Hands out a new id and an empty queue, as the protocol's Open step does |
| SocketHub.SocketHub.Attach | crates/bridge/src/socket.rs:75-92 | Moves the install to the connection and sends Replaced to a different previous owner, and to nobody else |
| SocketHub.SocketHub.Detach | crates/bridge/src/socket.rs:94-102 | Removes the install exactly if this connection owns it |
| SocketHub.SocketHub.Wake | crates/bridge/src/socket.rs:104-109 | Sends one Wake to the owner, if there is one, and nothing to anybody else |
| SocketConnection.V2Connection.constructor | crates/bridge/src/socket_v2.rs:141-164 | A new connection matches the protocol after its Open step |
| SocketConnection.V2Connection.Attach | crates/bridge/src/socket_v2.rs:172-196 | Refuses without a change, exactly unless the stored secret accepts the proof; otherwise does what the four attach steps do |
| SocketConnection.V2Connection.Resume | crates/bridge/src/socket_v2.rs:180-182 | Clamps the cursor by the largest id and deletes the socket rows up to it |
| SocketConnection.V2Connection.Detach | crates/bridge/src/socket_v2.rs:198-208 | Forgets the attachment, and does to the hub what the protocol's Drop does |
| SocketConnection.V2Connection.Acknowledge | crates/bridge/src/socket_v2.rs:210-226 | Succeeds exactly for the awaited id of a row still there, which it deletes, moving to Ready; otherwise changes nothing |
| SocketConnection.V2Connection.PendingMessages | crates/bridge/src/socket_v2.rs:228-254 | The loop is a run of one Visit step per attachment, in some order, and returns the frames those steps read |
| SocketConnection.V2Connection.Shutdown | crates/bridge/src/socket_v2.rs:256-260 | The loop is a run of Release steps that leaves no attachment |
| SocketConnection.V2Connection.HandleAck | crates/bridge/src/socket_v2.rs:367-396 | The event loop's turn for an ack, with the detach after a refusal, does what the protocol's steps do |
| SocketConnection.V2Connection.HandleEvent | crates/bridge/src/socket_v2.rs:404-421 | The event loop's turn for a hub event is the TakeEvent step |
| SocketConnection.AttachIsARun | crates/bridge/src/socket_v2.rs:172-196 | An uninterrupted attach is the run of its four steps |
| Delivery.TargetKeepsParts | crates/bridge/src/delivery.rs:31-50 | A target exists exactly unless a UnifiedPush endpoint is missing, and keeps transport and endpoint |
| Delivery.DeliveryManager.EnqueueFcm | crates/bridge/src/delivery.rs:81-108 | Is the insert step and then the wake step. Exactly for news (a payload, and no id that the history holds) one side is woken: the owner's queue gets one Wake, or the UnifiedPush deliverer a permit |
| Delivery.DeliveryManager.EnqueueUnifiedPush | crates/bridge/src/delivery.rs:110-123 | Stores one socket row with the body for the connector, and sends the owner one Wake |
| Delivery.DeliveryManager.DeliverToUnifiedPush | crates/bridge/src/delivery.rs:147-184 | A due row, and no other, goes exactly if it was forwarded or has no endpoint; after a failure it stays |
| UnifiedPushLoop.NoLostPermit | crates/bridge/src/delivery.rs:125-145 | On every run with any other steps, while the deliverer sleeps, a UnifiedPush row that never failed, of a pair registered all along, is covered by the permit or by an enqueuer still to leave it |
| UnifiedPushLoop.QuietMeansForwarded | crates/bridge/src/delivery.rs:125-184 | With no permit and no enqueuer left, whatever the sleeping deliverer has not forwarded failed once or waited while its pair was not registered |
| UnifiedPushLoop.NeverStuck | crates/bridge/src/delivery.rs:125-145 | In every phase the deliverer, and whoever is to notify it, can go on |
| UnifiedPushLoop.PermitForwards | crates/bridge/src/delivery.rs:125-184 | With a permit the sleeping deliverer can wake, find a due row and forward it, after which exactly that row is gone |
| Varint.DecodeInvertsEncode | crates/listener/src/push.rs:215-257 | A written varint reads back, whatever follows it |
| Varint.EncodeIsMinimal | crates/listener/src/push.rs:401-419 | No other spelling of a number is shorter than the written one |
| Varint.EncodeSpells | crates/listener/src/push.rs:401-419 | A varint is the number's groups of seven bits, the lowest first, with the top bit set on all but the last |
| Varint.DecodeIsExact | crates/listener/src/push.rs:215-257 | Reading finds the bytes up to the first without a top bit and the number they spell, asks for more only while there is none, and gives up exactly at the limit |
| ProtobufProofs.SizeIsExact | crates/listener/src/proto/mcs.rs:409-451 | get_size is the number of bytes write_message writes, for every message of every schema |
| ProtobufProofs.NegativeTakesTenBytes | crates/listener/src/proto/mcs.rs:674-706 | A negative number is written in ten bytes |
| ProtobufProofs.DecodeInvertsEncode | crates/listener/src/proto/mcs.rs:379-451 | from_reader returns every in-range message that write_message wrote, with repeated and nested fields |
| ProtobufProofs.UnknownFieldsAreIgnored | crates/listener/src/proto/mcs.rs:810-839 | An unrecognised field at a field boundary changes nothing, not even an error |
| ProtobufProofs.ConcatenationMerges | crates/listener/src/proto/mcs.rs:810-839 | Reading goes on into a message already read: single fields are overridden, repeated ones extended |
| ProtobufProofs.LaterFieldsWin | crates/listener/src/proto/mcs.rs:810-839 | Two messages one after the other read as one: single fields take the later value, repeated ones both messages' |
| ProtobufProofs.AbsentFieldsTakeDefaults | crates/listener/src/proto/mcs.rs:380-406 | A field that is not there is empty; a required one is zero, empty, or the enumeration's default |
| ProtobufProofs.InterpretIsExact | crates/listener/src/proto/mcs.rs:380-406 | A varint becomes the number of the field's type that agrees with it in its low bits; unknown enumeration values become the default |
| ProtobufProofs.DelimitedReadsExactly | crates/listener/src/proto/mcs.rs:380-406 | A string or bytes field is its length and that many bytes; ill-formed UTF-8 and a length beyond the input are refused |
| ProtobufProofs.PayloadIsUnknownField | crates/listener/src/proto/mcs.rs:810-839 | A tag that is not listed, followed by a payload of wire type 0, 1, 2 or 5, is an unrecognised field |
| Utf8.ValidExactly | crates/listener/src/proto/mcs.rs:380-406 | A text is accepted exactly if it is the encoding of Unicode scalar values as in section 3 of RFC 3629 |
| McsMessages.LoginRequestOk | crates/listener/src/proto/mcs.rs:359-451 | The schema of LoginRequest is one the codec theorems apply to |
| McsMessages.LoginResponseOk | crates/listener/src/proto/mcs.rs:489-546 | The same for LoginResponse |
| McsMessages.IqStanzaOk | crates/listener/src/proto/mcs.rs:634-706 | The same for IqStanza |
| McsMessages.DataMessageStanzaOk | crates/listener/src/proto/mcs.rs:789-885 | The same for DataMessageStanza |
| McsMessages.TagsAreExact | crates/listener/src/proto/mcs.rs:66-96 | The small messages are read and written with the source's tags |
| McsMessages.LoginTagsAreExact | crates/listener/src/proto/mcs.rs:359-546 | The login messages likewise |
| McsMessages.StanzaTagsAreExact | crates/listener/src/proto/mcs.rs:634-885 | The stanzas likewise |
| McsMessages.DataMessageRoundTrips | crates/listener/src/push.rs:126-156 | A data message that is sent arrives with the same ids, pairs, payload, sender and category |
| DataFrames.DataMessageOnTheWire | crates/listener/src/push.rs:126-156 | From the bytes with id in field 2, sender in 3, category in 5, collapse key in 6, pairs in 7, persistent id in 9 and payload in 21, the listener takes exactly these |
| DataFrames.EmptyDataMessage | crates/listener/src/push.rs:126-156 | A body without fields is a message without contents |
| McsCodec.Writer.WriteMessage | crates/listener/src/proto/mcs.rs:431-450 | The writing loops append exactly the specified bytes |
| McsCodec.FromReader | crates/listener/src/proto/mcs.rs:380-406 | The reading loop returns what the recursive reader does, errors included |
| AckFrames.EncodeFrame | crates/listener/src/push.rs:401-419 | Writes tag, length and message, and the length is that of the message |
| AckFrames.WholeFrame | crates/listener/src/push.rs:401-419 | A frame printed under its computed size reads back as one frame with the same message |
| AckFrames.StreamAckRoundTrips | crates/listener/src/push.rs:429-441 | A stream ack is one whole IqStanza frame that reads back with the acknowledged id |
| AckFrames.HeartbeatAckRoundTrips | crates/listener/src/push.rs:421-427 | A heartbeat ack likewise |
| AckFrames.StreamAckBytes | crates/listener/src/push.rs:429-441 | The stream ack's body, byte by byte: type SET, an empty id, extension 13, and the acknowledged id in field 10 |
| AckFrames.HeartbeatAckBytes | crates/listener/src/push.rs:421-427 | The heartbeat ack's body: the acknowledged id in field 2 and nothing else |
| McsDecoder.TryReadVarint | crates/listener/src/push.rs:215-257 | The accumulating loop returns the length and offset of the recursive reader, or that more is needed, or the error |
| McsDecoder.MessageStream.FillBuffer | crates/listener/src/push.rs:356-382 | The inner loop reads until enough bytes are there, and on end or failure clears the buffer |
| McsDecoder.MessageStream.TakeFront | crates/listener/src/push.rs:273-354 | What the buffered bytes decide, with the fields left as the specification says |
| McsDecoder.MessageStream.PollNext | crates/listener/src/push.rs:266-384 | Every poll ends, with the item, the fields and the unread input of the specification |
| McsStreamProofs.PollIsSound | crates/listener/src/push.rs:266-384 | No poll loses or repeats a byte, and none waits or ends while a complete frame is buffered |
| McsStreamProofs.DecoderRefinesParser | crates/listener/src/push.rs:266-384 | All polls together yield the items of the one-shot parser, then the socket's failure if the stream was still open, exactly unless the bytes end with a Close tag that arrived alone right before a failure |
| McsStreamProofs.ChunkingIsIrrelevant | crates/listener/src/push.rs:356-382 | Two ways of cutting the same bytes, with any stalls, give the same items exactly if both or neither have the failure right behind a lone closing tag |
| McsStreamProofs.DecoderOutput | crates/listener/src/push.rs:266-384 | What the decoder yields for every script: the parser's items and ending, and one failure more exactly in that case |
| McsStreamProofs.ChunkingShowsExactlyAtClose | crates/listener/src/push.rs:274-281 | A byte string has two cuttings with different output, for a socket that fails after it, exactly if its parse ends at a Close tag as its last byte |
| McsStreamProofs.FailureHidesCloseOnlyAfterLoneTag | crates/listener/src/push.rs:274-281 | A failure is reported instead of a close exactly if the tag and the failure are the first two reads on an empty buffer |
| McsStreamProofs.FailureMakesChunkingVisible | crates/listener/src/push.rs:361-368 | The same bytes and failure, read differently, give different items |
| McsStreamProofs.DrainIsNumbered | crates/listener/src/push.rs:207-211 | The n-th frame delivered has stream id n, whatever the socket does |
| McsStreamProofs.FramesSurviveAnyChunking | crates/listener/src/push.rs:293-318 | Printed frames, cut up in any way, come out with the same tags and bodies and ids from 1 |
| McsStreamProofs.StreamIsExact | crates/listener/src/push.rs:266-384 | Any cutting of frames and a tail delivers the frames numbered from 1: tag 0 is a heartbeat, tag 8 what the body decodes to or its error, any other tag is handed on. A malformed tail is then refused, a close tag ends, an unfinished tail waits until the socket fails |
| McsStreamProofs.IdsNeverOverflow | crates/listener/src/push.rs:302-309 | The frame behind number 2^31 - 1 is refused and ends the stream |
| McsStreamProofs.FrontIsExact | crates/listener/src/push.rs:215-264 | A buffer is refused exactly for a length of more than five bytes or of more than 4 MiB, and ends exactly at tag 4 |
| McsStreamProofs.FrameAtFrontIsExact | crates/listener/src/push.rs:282-300 | A buffer holds a frame exactly if a tag, a spelled length and a body of that length stand at its front |
| FcmListener.FcmListener.constructor | crates/bridge/src/fcm.rs:323-331 | The queue is the table's newest entries in rowid order, or empty if they cannot be read |
| FcmListener.FcmListener.Remember | crates/bridge/src/fcm.rs:415-422 | Pushes a new id and evicts the oldest beyond 500 |
| FcmListener.FcmListener.TakeTurn | crates/bridge/src/fcm.rs:362-475 | One turn: a committed message is logged and then acknowledged, a heartbeat is acknowledged, both with their stream id, and nothing else is; exactly for news one side is woken; the connection goes on exactly if nothing failed |
| FcmListener.FcmListener.RunSession | crates/bridge/src/fcm.rs:344-476 | Logs in if the history is accepted, and takes turns until the connection or the task ends |
| FcmListener.FcmListener.Run | crates/bridge/src/fcm.rs:337-485 | The whole loop, with stop requests between and during connections, leaves queue, tables and log as the specification does |
| FcmListenerProofs.QueueMirrorsTable | crates/bridge/src/fcm.rs:415-422 | Over any connections the queue equals the table's entries in rowid order and has at most 500 |
| FcmListenerProofs.EveryTurnIsAnswered | crates/bridge/src/fcm.rs:337-485 | Over all connections the task's log is exactly: a login with its queue where that is accepted, and for each turn up to the one that ends the connection its commit and acknowledgement; it goes on until it is stopped |
| FcmListenerProofs.SeededTaskMirrors | crates/bridge/src/fcm.rs:323-331 | In every database a run of the bridge can reach, a seeded task starts with its queue equal to the table's history |
| FcmListenerProofs.SeededTaskFollowsTable | crates/bridge/src/fcm.rs:323-485 | For every reachable database and all connections, a seeded task's queue equals the table's history, has at most 500 ids, and every login it tries is refused exactly for an id of more than 4096 bytes |
| FcmListenerProofs.RedeliveryTestIsExact | crates/bridge/src/fcm.rs:381-384 | The in-memory test answers what the ingest transaction asks the table |
| FcmListenerProofs.LoginRefusedOnlyForLongIds | crates/listener/src/gcm.rs:876-885 | The count part of the check never fails: a login is refused exactly if some id is longer than 4096 bytes |
| FcmListenerProofs.RefusedHistoryIsFinal | crates/bridge/src/fcm.rs:349-356 | A refused history never changes again, so no later login succeeds |
| FcmListenerProofs.ListenLearns | crates/bridge/src/fcm.rs:415-422 | A connection leaves the newest 500 of the ids the queue held and those newly accepted on it |
| FcmListenerProofs.LongIdStopsTheTask | crates/bridge/src/fcm.rs:349-356 | After a connection the next login is refused exactly if an over-long id was accepted on it with fewer than 500 new ids behind it; then no later login succeeds and nothing changes, and otherwise the task logs in again |
| LongIds.LongIdArrives | crates/listener/src/push.rs:126-156 | For every well-formed id of up to 200000 bytes, the frame of a data message that carries it comes out of the decoder with that id |
| LongIds.OneFrameStopsTheTask | crates/bridge/src/fcm.rs:349-356 | One frame with an id of 4097 bytes, read by the decoder on a connection that ends behind it, ends all later logins of the task |
| FcmListenerProofs.LongIdStopsLaterTasks | crates/bridge/src/fcm.rs:323-356 | A task seeded from a history that holds such an id never logs in, and changes nothing |
| FcmListenerProofs.AckedMessageIsStored | crates/bridge/src/fcm.rs:396-440 | When a stream ack is logged, the message's id is in the pair's history, and its row is in the outbox with a new id unless the message was empty, its id known, or its row still waiting |
| FcmListenerProofs.TurnKeepsCover | crates/bridge/src/fcm.rs:396-440 | A turn acknowledges only what is committed up to its stream id |
| FcmListenerProofs.AcksAndLoginsAreSafe | crates/bridge/src/fcm.rs:337-485 | Over all connections and all chunkings, an acknowledged id covers only well-formed frames with committed messages, and logins carry only committed ids |
| Hex.DecodeIsExact | crates/bridge/src/auth.rs:23-36 | A stored text decodes to some bytes exactly if it is their lower-case encoding |
| Hex.DigitsAreExact | crates/bridge/src/auth.rs:23-25 | Each byte is two lower-case digits, the high one first |
| Installations.VerifyIsExact | crates/bridge/src/auth.rs:27-36 | Verification accepts exactly the text that hashing the secret would store, and never an empty one |
| Installations.ClaimIsExact | crates/bridge/src/db.rs:146-172 | A claim succeeds exactly on a free install or with its hash, and then stores hash and secret and nothing else |
| Installations.RefreshIsExact | crates/bridge/src/db.rs:198-214 | A verified secret is stored for its install, under the same hash, and nothing else changes |
| Installations.SaveIsExact | crates/bridge/src/db.rs:699-747 | A save succeeds exactly for a free pair or under its hash, and then stores that registration and nothing else |
| Installations.RemoveIsExact | crates/bridge/src/db.rs:778-801 | Afterwards exactly that pair is unregistered, and can be registered anew by anybody |
| Installations.StepKeepsInv | crates/bridge/src/auth.rs:64-118 | Every step of every handler keeps all bindings and the agreement of secrets, hashes and registrations |
| Installations.FirstClaimBindsForEver | crates/bridge/src/db.rs:158-166 | Once claimed, no interleaving of handlers changes an install's hash |
| Installations.StoredSecretsAndRegistrationsAgree | crates/bridge/src/db.rs:198-214 | The stored secret verifies against the stored hash, and all registrations carry it |
| Installations.ClaimRaceIsNeverLost | crates/bridge/src/main.rs:526-533 | The lost-race branch is unreachable |
| Installations.OnlyTheBoundHashIsLetIn | crates/bridge/src/auth.rs:79-86 | On a bound install exactly the secrets with the bound hash are let in |
| Installations.UnboundCanOnlyBeClaimed | crates/bridge/src/auth.rs:94-118 | An unbound install can be claimed by anyone and unregistered by nobody |
| Installations.OnlyHoldersChangeRegistrations | crates/bridge/src/db.rs:699-801 | A registration changes only through a task that showed a secret with the bound hash, or a prune |
| Installations.OnlyHoldersChangeConnectors | crates/bridge/src/main.rs:617-831 | A connector changes only through a call for its own install, by a task that showed a secret with the bound hash |
| ReconcileRuns.ReconcileIsExactAmongOthers | crates/bridge/src/main.rs:726-779 | While connections, ingest tasks and other installs' handlers interleave with its calls: the install ends with exactly the requested connectors, known ones with app and endpoint, each with the last requested key; the answers are their endpoints; the last step removes exactly the stale connectors' messages |
| ReconcileRuns.ReconcileIsIdempotentAmongOthers | crates/bridge/src/main.rs:726-779 | A second run after and among any such steps, with any candidates, never fails, leaves the install's connectors as they are and answers the same |
| ReconcileRuns.OnlyOwnStepsChangeConnectors | crates/bridge/src/db.rs:259-398 | On every run, an install's connectors change only by its own handlers' calls |
| ReconcileRuns.FailsExactlyUnlessServed | crates/bridge/src/db.rs:283-311 | A call fails exactly if its connector is unknown and its candidate endpoint is taken |
| ReconcileRuns.UndisturbedIsARun | crates/bridge/src/main.rs:726-779 | Unless it fails, the handler on its own is such a run, with the tables and answers of its method |
| Reconcile.ReconcileIsExact | crates/bridge/src/main.rs:726-772 | The undisturbed case with fresh endpoints: it succeeds, and other installs and the history stay as they were |
| Reconcile.ReconcileIsIdempotent | crates/bridge/src/main.rs:726-779 | The undisturbed case: a second run changes no table at all and answers the same |
| Reconcile.FailureLosesNothing | crates/bridge/src/main.rs:730-750 | A run that meets a taken endpoint deletes nothing: every connector keeps app and endpoint, and every message stays |
| Reconcile.DistributorReconcile | crates/bridge/src/main.rs:683-791 | The handler: rejections in order, none of which changes a table, then claim, registrations and deletion of stale connectors |
| Reconcile.Validate | crates/bridge/src/main.rs:705-720 | The loop returns the problem of the first entry that has one |
| Reconcile.ProblemIsExact | crates/bridge/src/types.rs:130-150 | A token must take 1 to 100 bytes, and a key be the 87-character spelling of an uncompressed point |
| Reconcile.LengthIsInBytes | crates/bridge/src/types.rs:138-139 | The length of a token counts the bytes of its UTF-8 encoding |
| Reconcile.InstallIdIsHex | crates/bridge/src/types.rs:36-52 | An install id is 16 to 64 lower-case hexadecimal digits |
| Reconcile.FirstProblemIsExact | crates/bridge/src/main.rs:705-720 | A request is refused exactly if an entry has a problem, for the first that has one |
| Reconcile.RegisterEntries | crates/bridge/src/main.rs:730-762 | The loop registers the entries in order and collects the endpoints, and stops at a taken one |
| Handlers.Register | crates/bridge/src/main.rs:425-541 | Each reply with its exact condition; on success exactly the pair's registration is stored, with hash, endpoint, transport and the given or else the earlier credentials, and the install's hash and secret; it does what the concurrent handler's steps do |
| Handlers.Unregister | crates/bridge/src/main.rs:584-615 | For whoever shows the bound secret exactly the pair's registration, history, FCM messages and saved session go; for anybody else nothing changes |
| Handlers.DistributorRegister | crates/bridge/src/main.rs:617-681 | Each reply with its exact condition; on success the connector has the app, the key and its old endpoint, or the candidate if it is new, and no other connector changed |
| Handlers.DistributorUnregister | crates/bridge/src/main.rs:793-831 | Checks the secret first and ignores an impossible token; otherwise exactly the app's connector and its messages of that app are gone afterwards |
| Handlers.UnifiedPushMessage | crates/bridge/src/main.rs:833-935 | Refuses other sizes than 1 to 4096 bytes and unknown endpoints; where a key is pinned and an origin enforced, succeeds exactly for an aes128gcm body whose sender proves the key. A success stores the body in one row for the connector and wakes its owner; refusals change nothing |
| Handlers.AloneIsARun | crates/bridge/src/auth.rs:64-118 | A handler that nothing interrupts is a run of the concurrent handlers, from its arrival to its end |
| Handlers.OtherStepsAreExact | crates/bridge/src/db.rs:839-872 | A failing task changes no table, an authorised one makes its calls for its own install, and a prune step deletes one registration |
| Handlers.CallsAreTheBridges | crates/bridge/src/main.rs:617-831 | The calls of an authorised task do to the tables what the delivery protocol's steps for them do |
| NativeStop.StepKeepsInv | crates/jni/src/lib.rs:76-117 | Every step of stop requests, run starts and guard drops keeps the handshake's invariant |
| NativeStop.UnsignalledExactlyWhileHeld | crates/jni/src/lib.rs:77-88 | Once a stop request has returned, a started run is unsignalled exactly while another request holds its sender |
| NativeStop.StopIsNeverLost | crates/jni/src/lib.rs:77-106 | With no other request under way, every run installed before or after is signalled or closed |
| NativeStop.HolderSignals | crates/jni/src/lib.rs:84-86 | The request that holds a sender signals it with its next step |
| NativeStop.ConcurrentStopReturnsEarly | crates/jni/src/lib.rs:77-88 | A run with two requests in which one returns before the receiver is signalled |
| NativeStop.OneRunAtATime | crates/jni/src/lib.rs:90-106 | Before any stop request at most one run has a live receiver |
| NativeStop.EndedRunFreesSlot | crates/jni/src/lib.rs:90-117 | A run that ends frees the slot and closes its channel, and the next run can be installed |
| NativeStop.NativeHandle.RequestStop | crates/jni/src/lib.rs:77-88 | Sets the flag, empties the slot and signals the channel that waited in it; uninterrupted, it is the run of the handshake's three steps |
| NativeStop.NativeHandle.InstallStopper | crates/jni/src/lib.rs:90-106 | Refuses exactly if a run is active and passes an earlier stop on at once; it is the run of the handshake's two steps |
| NativeStop.NativeHandle.DropGuard | crates/jni/src/lib.rs:109-117 | Empties the slot and closes the channel that waited in it, as the handshake's step does |
| NativeRun.RunMcs | crates/jni/src/lib.rs:426-483 | Up to the event that ends the loop, every accepted message is handed to the callback and then acknowledged, every heartbeat acknowledged, and nothing else done; the loop ends well exactly if the stop signal ends it |
| NativeRun.LoopIsExact | crates/jni/src/lib.rs:426-483 | The same for the loop's specification, from any point on |
| NativeRun.CallbackComesFirst | crates/jni/src/lib.rs:447-467 | Over any streams, an id is acknowledged only after the callbacks of all messages up to it returned, and never past a malformed frame |
| NativeRun.CallbackComesFirstOnTheWire | crates/jni/src/lib.rs:426-483 | The same for the bytes of the sockets, however they are cut |
| WebPush.UnpadIsExact | crates/listener/src/gcm.rs:182-196 | Unpadding accepts exactly p, a 2 and zeros, and returns p |
| WebPush.PaddingIsUnambiguous | crates/listener/src/gcm.rs:182-196 | That decomposition is unique |
| WebPush.ParseIsExact | crates/listener/src/gcm.rs:81-136 | The header checks accept exactly what section 2.1 of RFC 8188 prints with a 65-byte key and a record below its size |
| WebPush.BigEndianIsExact | crates/listener/src/gcm.rs:88-98 | The record size has its highest byte first |
| WebPush.DecryptInvertsEncrypt | crates/listener/src/gcm.rs:60-197 | Any plaintext and padding that fit the record size, sealed as in section 4 of RFC 8291, come back |
| WebPush.FullRecordIsRefused | crates/listener/src/gcm.rs:131-136 | A record that reaches the record size is refused |
| WebPush.AcceptanceIsExact | crates/listener/src/gcm.rs:138-196 | A body with a good header decrypts to p exactly if keys match and the ciphertext opens to p and its padding |
| Base64.DecodeIsExact | crates/bridge/src/vapid.rs:43-50 | A text decodes exactly if it is the encoding, so bytes have one spelling |
| Base64.AlphabetIsExact | crates/bridge/src/vapid.rs:43-50 | The alphabet of table 2 of RFC 4648 |
| Base64.GroupKeepsBits | crates/bridge/src/vapid.rs:43-50 | Four symbols are the bits of three bytes, the high ones first; a shorter last group is filled up with zero bits |
| Vapid.ParameterMatchesExactly | crates/bridge/src/vapid.rs:55-70 | A key parameter means the stored key exactly if it normalises to the stored text |
| Vapid.RespellingsAndNothingElse | crates/bridge/src/vapid.rs:52-70 | Exactly the padded and standard-alphabet respellings of a stored key are taken for it |
| Vapid.KeysAreSpelledOnce | crates/bridge/src/vapid.rs:43-50 | Different stored texts are different keys |
| Vapid.TimeWindowIsExact | crates/bridge/src/vapid.rs:131-144 | For all 64-bit times the check is now - 300 <= exp <= now + 86700 in unbounded integers |
| Vapid.SplitIsExact | crates/bridge/src/vapid.rs:87-94 | The parts are the only list of texts without the separator that joins to the parameters |
| Vapid.TrimIsExact | crates/bridge/src/vapid.rs:88 | Trimming gives the one core without blanks at its ends |
| Vapid.LastValueIsExact | crates/bridge/src/vapid.rs:87-94 | The value kept is that of the last part that starts with the prefix, blanks aside |
| Vapid.KeyTextIsExact | crates/bridge/src/vapid.rs:43-50 | A stored text is a key exactly if it is the 87-character spelling of an uncompressed point |
| Vapid.TokenSplitsExactly | crates/bridge/src/vapid.rs:104-109 | A token splits at its first two dots |
| Vapid.Validate | crates/bridge/src/vapid.rs:72-155 | The loop keeps the last token and key, and accepts exactly if the header proves the stored key |
| Vapid.AcceptanceIsExact | crates/bridge/src/vapid.rs:72-155 | A request is accepted exactly if its header is vapid, in any case, and a comma-separated list whose last k respells the stored key and whose last t is an ES256 token signed with that key, in the window and for this origin |
| Vapid.HeaderRefusedInOrder | crates/bridge/src/vapid.rs:78-102 | The rejections in front of the token, each with its condition, in the source's order |
| Vapid.MalformedTokenIsBad | crates/bridge/src/vapid.rs:104-123 | A token that is not three base64url parts with an ES256 header, claims and a signature is refused as bad |
| Vapid.TokenRefusedInOrder | crates/bridge/src/vapid.rs:124-154 | The rejections behind it, each with its condition, in the source's order |

## Left out

- Cryptographic primitives (SHA-256, HKDF, AES-GCM, P-256, ECDSA, HMAC) are functions about which only the stated hypotheses are known; JSON is one too.
- quick_protobuf and data_encoding are not part of this model: their readers and writers follow the Protocol Buffers encoding and section 5 of RFC 4648; a nested message that overruns its length is an error.
- The other protobuf messages of mcs.rs and those of the check-in follow the same pattern and add nothing.
- HTTP, TLS, TCP, WebSocket framing, tokio scheduling, logging and counters; of these only the points where tasks can interleave are kept.
- Encryption of socket frames and derivation of the payload key; an attach whose derivation fails after the hub call is taken as not happening.
- Timestamps: `touch_installation`, retry times of the UnifiedPush deliverer.
- Which due rows the UnifiedPush deliverer selects first, how long it waits, and whether an attempt succeeds: each is an arbitrary choice.
- Cancelled tasks: an enqueuer is assumed to reach its wake after its insert unless the whole bridge stops, and one ingest task at a time is assumed for a pair.
- The end of the i64 range of message ids and of the u64 range of connection ids.
- Memory ordering: the native stop flag and the lock are sequentially consistent; panics and poisoned locks do not happen.
- Allocation failures in the frame writer, which the source answers with an empty frame.
- Migration from older database schemas: runs start from an empty database.
- Saving FCM sessions and starting listeners from them (`start_listener`); only the deletion of saved sessions is kept.
- Check-in, Firebase Installations and GCM registration requests, the APK patcher, the Kotlin shim, endpoint URL validation (a parameter here) and sender id extraction.
- SocketConnection.V2Connection.Attach: states what an uninterrupted attach does; interleavings between its database calls are in the transition system.
- Database.Database.PruneStale: the pairs past the age cutoff are a parameter, because clocks are.
- FcmListener.FcmListener.Run: other tasks change the tables only while the task waits for its ingest transaction, and leave this pair's history alone.
