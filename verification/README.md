# The MQTT client core, modelled and proved

The game talks to its broker through the Eclipse Paho MQTT C client that is kept under
`Plugins/MqttClient/Source/DTMqtt/MqttC`. This project models the core of that client in Dafny 4.11 and proves what
it promises. `dafny verify dfyconfig.toml` checks all of it.

A C structure whose fields change is a class, a loop is a loop, and the state of a global list is a field that its
methods reassign. Each method is proved against a function on values, and the theorems are about those functions and
about all runs of them.

| files | what they model |
|---|---|
| `TreeShapes`, `TreeRules`, `TreeContents`, `TreeAdd`, `TreeRemove` | red-black trees as values: shapes, rules, contents, and what the two repairs do |
| `MqttTree` | the tree of nodes with parent links on the heap |
| `Delivery`, `ProtocolClient` | the QoS 1 and QoS 2 handlers with their persistent store, as functions and as a class |
| `Composition`, `ChannelLines`, `CarefulSteps`, `ExactlyOnce` | a sender and a receiver over ordered channels that lose their content at a disconnect |
| `LevelZero` | messages of QoS 0 in all runs |
| `FreshIds` | runs in which no id is used twice, and the first round of the id search |
| `RealRuns`, `SmallWorlds`, `RingLaps`, `EarlyReuse` | runs that the code can take, and that show that each part of the condition on the reuse of ids is needed |
| `SessionRestore` | the session rebuilt from keyed records, and the order of its messages |
| `Framing`, `PacketReader`, `PacketWriter`, `Stream` | packets over sockets that never block, and the two ends of a connection together |
| `MessageIds`, `Commands`, `CommandRuns`, `CommandSends`, `CommandQueue` | the id search, and the queue of API calls |
| `LinkedList` | the doubly linked list with a cached cursor |
| `PacketData`, `Properties`, `PublishPacket`, `PacketOut` | data types, MQTT 5 property lists, and the packets built from them |
| `PeerReads` | the packets as a peer reads them by the standard |
| `Persisted`, `QueueEntries` | commands and received messages in the store |
| `Sha1`, `Sha1Example`, `Utf8`, `Base64` | the portable branches of the three helpers |

## What the code does that its documentation does not say

- Adding a key that is present rebalances at a node that may be black. In exactly one situation, which
  `TreeAdd.BlackInner` describes, that breaks equal black height (`MQTTTree.c:212-222`, `MQTTTree.c:248`).
- The search for a message id in use (`MQTTAsyncUtils.c:2694-2735`; `MQTTProtocol_assignMsgId` does the same over one
  list and has no caller) looks at queued commands, messages in flight and open requests. Of an earlier message of the
  same id six things can be left that are in none of these lists: a packet on the way to the receiver, a PUBREL that
  the sender has put off (`MQTTProtocolClient.c:1041` alone empties that queue, not the end of a connection), an answer
  that the receiver has put off, a PUBREC or a PUBACK on the way back, and a PUBREL record. `EarlyReuse.CareIsExact`
  says that delivery keeps its promise if an id is used again only when all six are gone, and that none of the six can
  be left out: for each there is a run, careful about the other five, that loses a message or delivers one twice.
- Those runs are ones that the code can take, as `RealRuns.Real` says. No write fails in them. A packet written in part
  is not read before the rest of it has been written, and what its writer had put off is then sent or dropped at once
  (`Socket.c:1372-1386`, `MQTTProtocolClient.c:1006-1041`). After a disconnect, and after a restart of either end, all
  messages in flight are sent again before anything else happens (`MQTTAsyncUtils.c:1957-1967`,
  `MQTTProtocolClient.c:764-836`). A restart gives what `SessionRestore.RestoreSession` makes of the store. Ids come
  from the search, so the ring of 65535 goes round; the lists of commands and of requests add nothing to the ids of the
  messages in flight, as the application only publishes, and waits until its queue is empty.
- Until a process has issued 65535 ids none of this can happen to it: `FreshIds.ExactlyOnceFor65535` and
  `FreshIds.ExactlyOnceInFirstRound` ask nothing of the system. A restart begins with the first id again.
- A PUBREL is stored and sent for a PUBREC whose id is unknown or no longer waits for one (`MQTTPacket.c:188-197`), and
  for a PUBREL put off whose message is gone. `ExactlyOnce.ExactStoreInRuns` says that this is exactly what puts the
  store out of step; a restart removes such a record (`MQTTPersistence.c:279-308`), but while it is there
  `EarlyReuse.RestoredAhead` shows that it can restore another message ahead of its phase.
- The search for a duplicate CONNECT goes backwards from the first element, so it sees only that one
  (`MQTTAsyncUtils.c:787-804`); with two clients a CONNECT can be queued twice.
- The id search does not end if no id has been issued yet and all are in use (`MQTTAsyncUtils.c:2716-2727`).
- `writeInt4` is wrong for most numbers from 2^31 on (`MQTTPacket.c:921-933`).
- `Base64_decodeLength` wraps below zero for fewer than four characters that end in an equals sign (`Base64.c:226-235`).
- The total of SHA-1 is 32 bits wide, and so is eight times it (`MQTTSHA1.c:134`).
- A missing terminator is looked for with a test that also meets a topic at the very end of a record
  (`MQTTAsyncUtils.c:524-526`), so an UNSUBSCRIBE stored below version 5 is not restored.
- `List.size` is not reduced on removal (`LinkedList.c:178-213`), and `MQTTProperties_write` counts the length prefix
  as one byte in its result (`MQTTProperties.c:209`); `Write` here states the advance of the pointer instead.

## Model

| member | source | states |
|---|---|---|
| MqttTree.Tree.TreeRotate | Plugins/MqttClient/Source/DTMqtt/MqttC/MQTTTree.c:127-143 | rotating in place turns the shape as the textbook rotation does, with every parent link right and the root field updated |
| MqttTree.Tree.TreeBAASub | Plugins/MqttClient/Source/DTMqtt/MqttC/MQTTTree.c:146-168 | one round of the repair after an addition, on the heap, is AddStep on the shape |
| MqttTree.Tree.TreeBalanceAfterAdd | Plugins/MqttClient/Source/DTMqtt/MqttC/MQTTTree.c:171-181 | the whole repair loop is AfterAdd on the shape, and ends |
| MqttTree.Tree.TreeAddByIndex | Plugins/MqttClient/Source/DTMqtt/MqttC/MQTTTree.c:190-251 | in any ordered tree the contents gain or replace exactly the given key; if the red-black rules held, they still do for a new key, and for a key already there if and only if the node replaced is not a black inner grandchild under a red parent with a black uncle |
| TreeAdd.AfterAddSound | Plugins/MqttClient/Source/DTMqtt/MqttC/MQTTTree.c:171-181 | with only a red-red conflict at the focus the repair gives a tree that keeps every rule |
| TreeAdd.AfterAddCells | Plugins/MqttClient/Source/DTMqtt/MqttC/MQTTTree.c:171-181 | the repair keeps all cells in their order |
| TreeAdd.RepairInPlace | Plugins/MqttClient/Source/DTMqtt/MqttC/MQTTTree.c:212-222 | a repair begun at a node already in a sound tree keeps the rules if and only if that node is not BlackInner |
| TreeAdd.ReplacingCanBreakTheRules | Plugins/MqttClient/Source/DTMqtt/MqttC/MQTTTree.c:212-248 | a sound tree of five nodes in which adding a present key again breaks the rules |
| TreeAdd.AddedFacts | Plugins/MqttClient/Source/DTMqtt/MqttC/MQTTTree.c:190-251 | order, contents, number of cells and total size after an addition to any ordered tree, and exactly when the rules survive it |
| MqttTree.Tree.TreeMinimum | Plugins/MqttClient/Source/DTMqtt/MqttC/MQTTTree.c:301-307 | the loop down the left links finds the first node in order |
| MqttTree.Tree.TreeSuccessor | Plugins/MqttClient/Source/DTMqtt/MqttC/MQTTTree.c:310-325 | the next node in order, or null at the end |
| MqttTree.Tree.TreeNextElementIndex | Plugins/MqttClient/Source/DTMqtt/MqttC/MQTTTree.c:328-335 | from null the first node, from a node the one after it in order |
| MqttTree.Tree.WalkCovers | Plugins/MqttClient/Source/DTMqtt/MqttC/MQTTTree.c:310-335 | the walk meets every node once, by strictly increasing key |
| MqttTree.Tree.TreeFindIndex1 | Plugins/MqttClient/Source/DTMqtt/MqttC/MQTTTree.c:266-280 | a node is found if and only if its key is in the tree, and it holds that key's item |
| MqttTree.Tree.TreeBARSub | Plugins/MqttClient/Source/DTMqtt/MqttC/MQTTTree.c:344-378 | one round of the repair after a removal, on the heap, is RemoveStep on the shape |
| MqttTree.Tree.TreeBalanceAfterRemove | Plugins/MqttClient/Source/DTMqtt/MqttC/MQTTTree.c:381-392 | the loop, with a temporary node in the place of a removed leaf if need be, is AfterRemove on the shape, and ends |
| TreeRemove.RemoveStepSound | Plugins/MqttClient/Source/DTMqtt/MqttC/MQTTTree.c:344-378 | a round either ends the missing black or moves it up, and keeps every other rule |
| TreeRemove.AfterRemoveSound | Plugins/MqttClient/Source/DTMqtt/MqttC/MQTTTree.c:381-392 | after the repair the tree keeps every rule |
| TreeRemove.AfterRemoveCells | Plugins/MqttClient/Source/DTMqtt/MqttC/MQTTTree.c:381-392 | the repair keeps all cells in their order |
| TreeRemove.RemovedFacts | Plugins/MqttClient/Source/DTMqtt/MqttC/MQTTTree.c:400-459 | removing any node of an ordered tree leaves an ordered tree whose contents are the old ones without exactly that item, and keeps the red-black rules if they held |
| MqttTree.Tree.MQTTTreeRemoveNodeIndex | Plugins/MqttClient/Source/DTMqtt/MqttC/MQTTTree.c:400-459 | the same on the heap, for any node of any ordered tree, with the item returned and parent links, count and size right |
| MqttTree.Tree.TreeRemoveIndex | Plugins/MqttClient/Source/DTMqtt/MqttC/MQTTTree.c:467-475 | removal by key, and nothing removed when the key is not there |
| TreeRules.HeightIsLogarithmic | Plugins/MqttClient/Source/DTMqtt/MqttC/MQTTTree.c:115-124 | two to the height is at most the square of one more than the number of items |
| MqttTree.Tree.HeightBound | Plugins/MqttClient/Source/DTMqtt/MqttC/MQTTTree.c:115-124 | the same bound for any valid tree on the heap |
| TreeContents.SeekFinds | Plugins/MqttClient/Source/DTMqtt/MqttC/MQTTTree.c:266-280 | the search by comparison ends at a node exactly when the key is among the cells in order |
| ProtocolClient.Client.StartPublish | Plugins/MqttClient/Source/DTMqtt/MqttC/MQTTProtocolClient.c:144-167 | records the message, stores it and sends it, as the specification function says |
| ProtocolClient.Client.HandlePublishes | Plugins/MqttClient/Source/DTMqtt/MqttC/MQTTProtocolClient.c:296-401 | lists, store, deliveries and acknowledgement after a PUBLISH, first or repeated, for both protocol variants; the store stays in step; a QoS 0 message goes to the application and changes nothing else |
| ProtocolClient.Client.HandlePubacks | Plugins/MqttClient/Source/DTMqtt/MqttC/MQTTProtocolClient.c:409-449 | only a QoS 1 message of that id is forgotten |
| ProtocolClient.Client.HandlePubrecs | Plugins/MqttClient/Source/DTMqtt/MqttC/MQTTProtocolClient.c:458-529 | phase change, refusal from version 5 on, and the PUBREL that is sent or put off even for an unknown id |
| ProtocolClient.Client.HandlePubrels | Plugins/MqttClient/Source/DTMqtt/MqttC/MQTTProtocolClient.c:538-606 | delivery on release before version 5, and the PUBCOMP that is sent in any case |
| ProtocolClient.Client.HandlePubcomps | Plugins/MqttClient/Source/DTMqtt/MqttC/MQTTProtocolClient.c:615-666 | only a message waiting for PUBCOMP is forgotten |
| ProtocolClient.Client.Retries | Plugins/MqttClient/Source/DTMqtt/MqttC/MQTTProtocolClient.c:764-836 | one pass over the outbound list, up to a pending write or the closing of the session |
| ProtocolClient.Client.RetryMessage | Plugins/MqttClient/Source/DTMqtt/MqttC/MQTTProtocolClient.c:785-830 | a message is sent again in the form its phase calls for; a PUBLISH that fails closes the session, and so does a PUBREL that is not written whole |
| ProtocolClient.Client.WriteAvailable | Plugins/MqttClient/Source/DTMqtt/MqttC/MQTTProtocolClient.c:1006-1043 | acknowledgements put off are sent up to the first that does not complete, and the queue is emptied |
| ProtocolClient.RetryIsRun | Plugins/MqttClient/Source/DTMqtt/MqttC/MQTTProtocolClient.c:764-836 | a pass of retries is a run of single retries, with the end of the connection if the session was closed, so that the theorems on runs cover it |
| ProtocolClient.PassSends | Plugins/MqttClient/Source/DTMqtt/MqttC/MQTTProtocolClient.c:764-836 | a pass sends the messages of the list again, in its order, up to the first write that is not completed; that closes the session if nothing went out or a PUBREL was cut short, and otherwise leaves the write pending |
| Delivery.StoreAfterPublish | Plugins/MqttClient/Source/DTMqtt/MqttC/MQTTProtocolClient.c:296-401 | the store holds exactly the records of the lists after an incoming PUBLISH |
| Delivery.StoreAfterPubrec | Plugins/MqttClient/Source/DTMqtt/MqttC/MQTTProtocolClient.c:458-529 | after a PUBREC the store is in step if and only if the answer was put off or the id belongs to an outstanding QoS 2 message; the weaker agreement also bears an id without a message |
| Delivery.StoreAfterPubrel | Plugins/MqttClient/Source/DTMqtt/MqttC/MQTTProtocolClient.c:538-606 | after a PUBREL the store is in step |
| Delivery.StoreAfterFlush | Plugins/MqttClient/Source/DTMqtt/MqttC/MQTTProtocolClient.c:1006-1043 | flushing keeps the store in step if and only if every PUBREL among the entries handed to the socket is still called for |
| Delivery.StrayRelStays | Plugins/MqttClient/Source/DTMqtt/MqttC/MQTTProtocolClient.c:1006-1043 | a PUBREL record that no message calls for stays through a flush |
| Delivery.FlushSendsInOrder | Plugins/MqttClient/Source/DTMqtt/MqttC/MQTTProtocolClient.c:1006-1043 | a flush sends the queue in its order up to the first write that is not completed, and leaves a write pending exactly if that one was begun |
| Delivery.RefusalEnds | Plugins/MqttClient/Source/DTMqtt/MqttC/MQTTProtocolClient.c:488-508 | a refusing PUBREC of version 5 removes its message with both records, sends nothing and leaves all else; at any other time the refusal makes no difference |
| Delivery.HoldKeepsPlaces | Plugins/MqttClient/Source/DTMqtt/MqttC/MQTTProtocolClient.c:350-362 | a message that is received again is replaced where it stands, and a new one goes to the end |
| LevelZero.DeliveredAsRead | Plugins/MqttClient/Source/DTMqtt/MqttC/MQTTProtocolClient.c:310-314 | in every run, without any care, a QoS 0 message is delivered exactly as often as its PUBLISH is read, so at most once, and is in no list, queue or store |
| LevelZero.OnTheWayOrDelivered | Plugins/MqttClient/Source/DTMqtt/MqttC/MQTTProtocolClient.c:144-167 | while the connection lasts an accepted QoS 0 message is either on the way or delivered, once; neither if its write failed |
| LevelZero.StepPasses | Plugins/MqttClient/Source/DTMqtt/MqttC/MQTTProtocolClient.c:296-666 | no step brings such a message into a list, a queue or a store, and only reading its PUBLISH delivers it |
| ExactlyOnce.ExactlyOnceDelivery | Plugins/MqttClient/Source/DTMqtt/MqttC/MQTTProtocolClient.c:296-401 | in every run of sender, receiver and lossy ordered channels, for both variants and with disconnects, restarts and flushes at any time, in which no id is used again while something of it is left: a QoS 2 message is delivered at most once, and exactly once by the time it is dropped; a QoS 1 message at least once by then, a QoS 0 message at most once; nothing comes from nowhere; recovery is never ahead |
| EarlyReuse.CareIsExact | Plugins/MqttClient/Source/DTMqtt/MqttC/MQTTAsyncUtils.c:2694-2735 | for each variant, every run that is careful about a set of the six kinds of leftovers keeps that promise if and only if the set is all six; the same for the runs that the code can take, which no smaller set protects either |
| EarlyReuse.BadRun | Plugins/MqttClient/Source/DTMqtt/MqttC/MQTTAsyncUtils.c:2694-2735 | for each variant and each set that lacks one of the six kinds: a run that the code can take, careful about the set, with ids as the search gives them, which ends with the promise broken |
| FreshIds.ExactlyOnceWithFreshIds | Plugins/MqttClient/Source/DTMqtt/MqttC/MQTTProtocolClient.c:296-401 | the same promise, with no condition on channels, queues or stores, for every run in which the ids of the messages are all different |
| FreshIds.FirstRound | Plugins/MqttClient/Source/DTMqtt/MqttC/MQTTAsyncUtils.c:2694-2735 | the first 65535 searches of a process give 1, 2, 3 and so on, whichever of the ids issued before are in use |
| FreshIds.ExactlyOnceInFirstRound | Plugins/MqttClient/Source/DTMqtt/MqttC/MQTTAsyncUtils.c:2694-2735 | so messages that have, each its own, some of those ids are delivered as promised, in whatever order they are sent and whatever the other ids are for |
| FreshIds.ExactlyOnceFor65535 | Plugins/MqttClient/Source/DTMqtt/MqttC/MQTTAsyncUtils.c:2694-2735 | a run without a restart of the sender that accepts at most 65535 messages, each with the id that the search finds, is careful by itself and keeps the promise |
| FreshIds.StepIn | Plugins/MqttClient/Source/DTMqtt/MqttC/MQTTProtocolClient.c:296-666 | no step brings up an id that is in neither end, channel nor queue, but that of a new message |
| CarefulSteps.StepInv | Plugins/MqttClient/Source/DTMqtt/MqttC/MQTTProtocolClient.c:458-666 | every step keeps the invariant over both ends, both channels, both queues and both stores, provided an id is used again only when it is clear |
| RingLaps.Laps | Plugins/MqttClient/Source/DTMqtt/MqttC/MQTTAsyncUtils.c:2694-2735 | while something is left of one id and nothing is on the way, a run that the code can take completes any number of further messages, each under the next id of the ring, up to that id |
| RingLaps.Round | Plugins/MqttClient/Source/DTMqtt/MqttC/MQTTAsyncUtils.c:2694-2735 | in particular until the search will give a chosen id next, with all that was left still there |
| SmallWorlds.RestartsAhead | Plugins/MqttClient/Source/DTMqtt/MqttC/MQTTPersistence.c:163-333 | a sender that restarts with one message in flight, and a PUBREL record under its id, takes it for one that waits for PUBCOMP and sends PUBREL |
| ExactlyOnce.StoresAgreeInRuns | Plugins/MqttClient/Source/DTMqtt/MqttC/MQTTPersistence.c:412-575 | in every such run both stores hold s-N exactly for outbound ids and r-N exactly for inbound ids, and sc-N at most for messages waiting for PUBCOMP and for ids without a message |
| ExactlyOnce.ExactStoreInRuns | Plugins/MqttClient/Source/DTMqtt/MqttC/MQTTPersistence.c:412-575 | sc-N is stored only for messages waiting for PUBCOMP, at every point of such a run, if and only if no PUBREL is sent in it for an id whose message is gone |
| ExactlyOnce.StepStore | Plugins/MqttClient/Source/DTMqtt/MqttC/MQTTPacket.c:188-197 | the same for each single step |
| Composition.RecoveryNeverAhead | Plugins/MqttClient/Source/DTMqtt/MqttC/MQTTPersistence.c:163-333 | a store that covers its lists gives the same ids back, each message at its old phase or one earlier |
| Composition.RecoveryTidies | Plugins/MqttClient/Source/DTMqtt/MqttC/MQTTPersistence.c:279-308 | after a restart the store agrees exactly, whatever PUBREL records without a message it held |
| EarlyReuse.DeliveredTwice | Plugins/MqttClient/Source/DTMqtt/MqttC/MQTTProtocolClient.c:1006-1043 | a state, reached by a run that the code can take, in which a QoS 2 message has been delivered twice |
| EarlyReuse.RestoredAhead | Plugins/MqttClient/Source/DTMqtt/MqttC/MQTTPacket.c:188-197 | a state, reached by a run that the code can take, whose store would restore a message ahead of its phase |
| SessionRestore.RestoreRecovers | Plugins/MqttClient/Source/DTMqtt/MqttC/MQTTPersistence.c:163-333 | restoring from the keys in any order gives what the store says, for every id, and removes exactly the PUBREL records without a PUBLISH |
| SessionRestore.WrapRestoresOrder | Plugins/MqttClient/Source/DTMqtt/MqttC/MQTTPersistence.c:583-620 | the list of one round of the ring, turned so that its ids ascend, is turned back to the order of issue if and only if the number of ring steps from the newest id round to the oldest is no smaller than any between neighbours, and larger than those that lead to an id below the oldest |
| SessionRestore.LargestGapRestoresOrder | Plugins/MqttClient/Source/DTMqtt/MqttC/MQTTPersistence.c:583-620 | in particular when it is strictly the largest |
| SessionRestore.RecoveryOrder | Plugins/MqttClient/Source/DTMqtt/MqttC/MQTTPersistence.c:163-333 | the same condition, counted in ring steps, for a whole recovery: keys in any order, sorted insertion, then the turn |
| SessionRestore.RecoveryKeepsOrder | Plugins/MqttClient/Source/DTMqtt/MqttC/MQTTPersistence.c:163-333 | so a recovery keeps the order of issue whenever the newest id is at most 32767 ring steps after the oldest |
| SessionRestore.IssuedInOneRound | Plugins/MqttClient/Source/DTMqtt/MqttC/MQTTAsyncUtils.c:2694-2735 | ids that the search issues before it comes round to the oldest, whichever it passes over, are such a round |
| SessionRestore.RestoreTidies | Plugins/MqttClient/Source/DTMqtt/MqttC/MQTTPersistence.c:204-308 | from any store: a restore fails if and only if a client below version 5 finds a version 5 key; otherwise all records that cannot be read are removed, with at most PUBRELs without a PUBLISH, and the rest stays |
| SessionRestore.InsertKeepsOrder | Plugins/MqttClient/Source/DTMqtt/MqttC/MQTTPersistence.c:379-393 | inserting keeps the list sorted and changes the lookup of that id alone |
| ProtocolClient.Client.InsertOutbound | Plugins/MqttClient/Source/DTMqtt/MqttC/MQTTPersistence.c:379-393 | the insertion loop places the message as InsertInOrder says |
| ProtocolClient.Client.WrapMsgId | Plugins/MqttClient/Source/DTMqtt/MqttC/MQTTPersistence.c:583-620 | the loop finds the first largest gap and turns the list there |
| ProtocolClient.Client.RestorePackets | Plugins/MqttClient/Source/DTMqtt/MqttC/MQTTPersistence.c:163-333 | the loop over the keys computes RestoreSession |
| PacketReader.Reader.Factory | Plugins/MqttClient/Source/DTMqtt/MqttC/MQTTPacket.c:79-157 | a call delivers one packet of its socket, or keeps what has come in; an error means that recv failed or the length is malformed; other sockets are untouched |
| PacketReader.Reader.OneUninterruptedStream | Plugins/MqttClient/Source/DTMqtt/MqttC/SocketBuffer.c:155-319 | between calls the packets delivered from a socket are those of parsing all its bytes at once, the rest is what is kept for it, and index is at most headerlen, which is at most 5 |
| PacketReader.Reader.NoPacketIsLost | Plugins/MqttClient/Source/DTMqtt/MqttC/Socket.c:566-644 | the same for a socket that has failed |
| PacketReader.Reader.Getch | Plugins/MqttClient/Source/DTMqtt/MqttC/Socket.c:566-593 | a header byte, replayed from the queue if one is left and read otherwise |
| PacketReader.Reader.GetQueuedChar | Plugins/MqttClient/Source/DTMqtt/MqttC/SocketBuffer.c:204-229 | the next replayed byte, if any; the header is never full |
| PacketReader.Reader.QueueChar | Plugins/MqttClient/Source/DTMqtt/MqttC/SocketBuffer.c:288-319 | the byte is added at index to the queue of its socket |
| PacketReader.Reader.Interrupt | Plugins/MqttClient/Source/DTMqtt/MqttC/SocketBuffer.c:237-258 | what was read is kept for its socket, and the default queue is free again |
| PacketReader.Reader.DecodeLength | Plugins/MqttClient/Source/DTMqtt/MqttC/MQTTPacket.c:304-330 | the digit loop gives the length the header announces; a fifth digit is refused before it is read |
| PacketReader.Reader.GetData | Plugins/MqttClient/Source/DTMqtt/MqttC/Socket.c:604-644 | the body when its last byte is in, or what has come of it is kept |
| PacketReader.Reader.Cleanup | Plugins/MqttClient/Source/DTMqtt/MqttC/SocketBuffer.c:130-145 | nothing is kept of a closed socket, and the others are as before |
| PacketReader.DeliveredIsParsed | Plugins/MqttClient/Source/DTMqtt/MqttC/SocketBuffer.c:155-319 | bytes of whole packets followed by part of one parse to exactly those packets |
| Framing.DecodeEncode | Plugins/MqttClient/Source/DTMqtt/MqttC/MQTTPacket.c:276-330 | decoding a variable byte integer undoes encoding it, whatever follows |
| Framing.PacketsJoin | Plugins/MqttClient/Source/DTMqtt/MqttC/MQTTPacket.c:79-157 | a stream cut after a whole packet parses to the packets of its two parts |
| PacketWriter.Writer.Putdatas | Plugins/MqttClient/Source/DTMqtt/MqttC/Socket.c:739-804 | a packet is refused before writev if and only if another one is pending on the socket; otherwise all of it is given to writev in one call, and the answer, the wire and the pending write are what that call did |
| PacketWriter.Writer.Rest | Plugins/MqttClient/Source/DTMqtt/MqttC/Socket.c:1235-1251 | the buffers rebuilt for a continuation are exactly the unsent suffix, and not more of them than before |
| PacketWriter.Writer.ContinueWrite | Plugins/MqttClient/Source/DTMqtt/MqttC/Socket.c:1215-1291 | one call of writev with exactly the unsent rest; 1 if and only if it took all of it, -1 if and only if it failed, and the wire grows by what it took |
| PacketWriter.Writer.ContinueWrites | Plugins/MqttClient/Source/DTMqtt/MqttC/Socket.c:1346-1405 | the walk ends; only ready sockets with a pending write are tried, the first of them always, and all of them once each, in order, if nothing leaves the list; each wire grows by just what its calls took; an error is reported if and only if a call failed, with a socket on which one did |
| PacketWriter.MovedOk | Plugins/MqttClient/Source/DTMqtt/MqttC/Socket.c:1253-1270 | more bytes of the pending packet keep the wire in step, and the last one ends the pending write |
| PacketWriter.WireParses | Plugins/MqttClient/Source/DTMqtt/MqttC/Socket.c:739-804 | the bytes on a socket parse to the packets written, but for one cut off |
| PacketWriter.PeerReads | Plugins/MqttClient/Source/DTMqtt/MqttC/Socket.c:1215-1291 | a peer that has received any prefix sees a prefix of the packets written |
| Stream.PacketsArriveInOrder | Plugins/MqttClient/Source/DTMqtt/MqttC/Socket.c:566-804 | writer and reader together: packets delivered are a prefix of those written, and all of them once all bytes have arrived |
| PacketWriter.Writer.Close | Plugins/MqttClient/Source/DTMqtt/MqttC/Socket.c:912-920 | nothing is pending or failed on a closed socket, and the others are as before |
| MessageIds.AssignMsgId | Plugins/MqttClient/Source/DTMqtt/MqttC/MQTTProtocolClient.c:59-79 | among the outbound messages: the first free id after the last one issued, in the ring 1..65535; 0 only if every other id is in use; it ends |
| MessageIds.NeverEnds | Plugins/MqttClient/Source/DTMqtt/MqttC/MQTTAsyncUtils.c:2716-2727 | with no id issued yet and none free, no candidate ever stops the search |
| MessageIds.StopsInTime | Plugins/MqttClient/Source/DTMqtt/MqttC/MQTTAsyncUtils.c:2716-2727 | in every other case the search stops within one round |
| CommandQueue.AsyncClients.AssignMsgId | Plugins/MqttClient/Source/DTMqtt/MqttC/MQTTAsyncUtils.c:2694-2735 | the same search against queued commands, messages in flight and open requests |
| CommandQueue.AsyncClients.AddCommand | Plugins/MqttClient/Source/DTMqtt/MqttC/MQTTAsyncUtils.c:772-901 | the scan, the insertion at either end, the eviction and the count compute Add |
| CommandQueue.AsyncClients.Send | Plugins/MqttClient/Source/DTMqtt/MqttC/MQTTAsync.c:1160-1252 | id search, refusal of a new message when the buffer is full, and queueing compute Request |
| CommandQueue.AsyncClients.Select | Plugins/MqttClient/Source/DTMqtt/MqttC/MQTTAsyncUtils.c:1187-1222 | the command chosen is the first of its client, and its client's fields let it go; every earlier one is not the first of its client or held back; if none is chosen, every first one is held back |
| CommandQueue.AsyncClients.ProcessCommand | Plugins/MqttClient/Source/DTMqtt/MqttC/MQTTAsyncUtils.c:1176-1240 | the chosen command leaves the queue and the count follows; its id goes in flight |
| Commands.SelectedIsUnique | Plugins/MqttClient/Source/DTMqtt/MqttC/MQTTAsyncUtils.c:1187-1222 | there is only one command the choice can fall on |
| CommandRuns.EveryRun | Plugins/MqttClient/Source/DTMqtt/MqttC/MQTTAsyncUtils.c:772-901 | in every run: the count of buffered messages is that of queued publishes, it stays within the options or what was restored, urgent commands come first, live requests of a client have different ids, and the order is kept |
| CommandRuns.FirstInFirstOut | Plugins/MqttClient/Source/DTMqtt/MqttC/MQTTAsyncUtils.c:815-816 | where nothing of a client was evicted, its commands leave in exactly the order they came |
| CommandRuns.StartInOrder | Plugins/MqttClient/Source/DTMqtt/MqttC/MQTTAsyncUtils.c:603-669 | a queue restored from persistence starts in order |
| CommandRuns.InOrderNext | Plugins/MqttClient/Source/DTMqtt/MqttC/MQTTAsyncUtils.c:853-889 | taken and queued commands are those accepted, in order, but for evicted publishes, and their number adds up |
| CommandRuns.CountedNext | Plugins/MqttClient/Source/DTMqtt/MqttC/MQTTAsyncUtils.c:853-889 | each step keeps the count equal to the number of queued publishes of each client |
| CommandRuns.BoundedNext | Plugins/MqttClient/Source/DTMqtt/MqttC/MQTTAsyncUtils.c:856-887 | each step keeps the count within the larger of maxBufferedMessages and the restored count |
| CommandRuns.OwnIdsNext | Plugins/MqttClient/Source/DTMqtt/MqttC/MQTTAsyncUtils.c:2694-2735 | each step keeps the non-zero ids of a client's live requests distinct: a queued request shares its id with no other, and a message in flight and an open request with the same id are the same request |
| CommandRuns.FlowControl | Plugins/MqttClient/Source/DTMqtt/MqttC/MQTTAsyncUtils.c:1203-1214 | sending a command never takes messages in flight above maxInflightMessages or the number of ids |
| CommandRuns.OneConnectAtHead | Plugins/MqttClient/Source/DTMqtt/MqttC/MQTTAsyncUtils.c:782-813 | with one client a CONNECT or internal DISCONNECT is only ever at the head |
| CommandRuns.DuplicateConnect | Plugins/MqttClient/Source/DTMqtt/MqttC/MQTTAsyncUtils.c:787-804 | with two clients the same CONNECT can be queued twice |
| CommandRuns.UrgentNext | Plugins/MqttClient/Source/DTMqtt/MqttC/MQTTAsyncUtils.c:782-813 | with any number of clients these commands stay in front of all others |
| CommandSends.EverySendGoesNow | Plugins/MqttClient/Source/DTMqtt/MqttC/MQTTAsyncUtils.c:1187-1222 | in every run a command taken to be sent is the first of its client; unless it is a CONNECT or DISCONNECT the client is connected, not connecting and without a pending write, and within both limits |
| CommandSends.NoneGoesNow | Plugins/MqttClient/Source/DTMqtt/MqttC/MQTTAsyncUtils.c:1187-1222 | if nothing is taken, the first command of every client with commands queued is held back by one of these |
| CommandSends.InFlightConserved | Plugins/MqttClient/Source/DTMqtt/MqttC/MQTTProtocolClient.c:144-167 | in every run, messages in flight and those done with are those that were in flight and the QoS 1 and 2 messages sent |
| CommandSends.WaitingConserved | Plugins/MqttClient/Source/DTMqtt/MqttC/MQTTAsyncUtils.c:1498-1575 | the same for requests that wait for a response: all with an id whose write has not failed, and QoS 0 messages whose write is not done |
| CommandSends.TurnedAway | Plugins/MqttClient/Source/DTMqtt/MqttC/MQTTAsync.c:1160-1252 | a message is turned away if and only if its client limits its buffer, does not drop old ones, and has as many publishes queued as the limit |
| CommandSends.RemembersId | Plugins/MqttClient/Source/DTMqtt/MqttC/MQTTAsyncUtils.c:2729-2730 | the id issued last to a client is the one it remembers; a request without an id leaves it |
| LinkedList.List.ListAppendNoMalloc | Plugins/MqttClient/Source/DTMqtt/MqttC/LinkedList.c:46-58 | the sequence gains an element at its end; links, ends and count agree |
| LinkedList.List.ListAppend | Plugins/MqttClient/Source/DTMqtt/MqttC/LinkedList.c:67-73 | the same with a new element |
| LinkedList.List.ListInsert | Plugins/MqttClient/Source/DTMqtt/MqttC/LinkedList.c:84-108 | the sequence gains an element before the index, or at the end for none; the cursor stays |
| LinkedList.List.ListFindItem | Plugins/MqttClient/Source/DTMqtt/MqttC/LinkedList.c:131-166 | nothing is found if and only if nothing matches; a matching cursor wins, otherwise it is the first match; the cursor moves to what is found |
| LinkedList.List.ListUnlink | Plugins/MqttClient/Source/DTMqtt/MqttC/LinkedList.c:178-213 | exactly one matching element goes, the one the search finds; the cursor moves on only if it was on it; size is not reduced |
| LinkedList.List.ListDetachHead | Plugins/MqttClient/Source/DTMqtt/MqttC/LinkedList.c:245-263 | the first element goes, with the cursor as above |
| LinkedList.List.ListPopTail | Plugins/MqttClient/Source/DTMqtt/MqttC/LinkedList.c:283-301 | the last element goes, with the cursor moved back if it was on it |
| LinkedList.List.ListEmpty | Plugins/MqttClient/Source/DTMqtt/MqttC/LinkedList.c:336-352 | nothing is left |
| LinkedList.List.ListNextElement | Plugins/MqttClient/Source/DTMqtt/MqttC/LinkedList.c:388-391 | the element after the given one, or the first |
| LinkedList.List.StartWith | Plugins/MqttClient/Source/DTMqtt/MqttC/MQTTPersistence.c:609-618 | joining the ends and cutting the ring turns the list; it stays well formed |
| LinkedList.LinkedInserted | Plugins/MqttClient/Source/DTMqtt/MqttC/LinkedList.c:93-107 | the two links changed by an insertion are the right ones |
| LinkedList.LinkedRemoved | Plugins/MqttClient/Source/DTMqtt/MqttC/LinkedList.c:187-196 | the two links changed by a removal are the right ones |
| LinkedList.LinkedRotated | Plugins/MqttClient/Source/DTMqtt/MqttC/MQTTPersistence.c:609-618 | the four links changed by the turn are the right ones |
| PacketData.WriteVbi | Plugins/MqttClient/Source/DTMqtt/MqttC/MQTTPacket.c:276-295 | the loop writes Encode(length) and nothing else |
| PacketData.ReadVbi | Plugins/MqttClient/Source/DTMqtt/MqttC/MQTTPacket.c:1008-1052 | value and number of bytes of the integer at the place |
| PacketData.VbiLenIsExact | Plugins/MqttClient/Source/DTMqtt/MqttC/MQTTPacket.c:986-999 | VBIlen is the number of bytes written if and only if the number is at most 268435455 |
| PacketData.WriteInt4 | Plugins/MqttClient/Source/DTMqtt/MqttC/MQTTPacket.c:921-933 | stores the truncated digits of the int |
| PacketData.Int4IsStored | Plugins/MqttClient/Source/DTMqtt/MqttC/MQTTPacket.c:921-933 | those are the four bytes of the number if and only if it is below 2^31 or its low three bytes are zero |
| PacketData.ReadInt4 | Plugins/MqttClient/Source/DTMqtt/MqttC/MQTTPacket.c:941-947 | reads back any number whose four bytes lie there |
| PacketData.ReadUtf | Plugins/MqttClient/Source/DTMqtt/MqttC/MQTTPacket.c:359-379 | the string behind its length, or nothing exactly when the length leads beyond the end |
| PacketData.WriteUtf | Plugins/MqttClient/Source/DTMqtt/MqttC/MQTTPacket.c:443-463 | length and bytes, and the pointer moves behind them |
| Properties.GetType | Plugins/MqttClient/Source/DTMqtt/MqttC/MQTTProperties.c:60-73 | the search of the table agrees with table 2-4 of MQTT 5.0 for every number |
| Properties.PropertyList.Add | Plugins/MqttClient/Source/DTMqtt/MqttC/MQTTProperties.c:89-149 | the length kept stays the exact number of bytes of the encodings |
| Properties.PropertyList.LenIsExact | Plugins/MqttClient/Source/DTMqtt/MqttC/MQTTProperties.c:76-80 | MQTTProperties_len is the number of bytes on the wire |
| Properties.PropertyList.Write | Plugins/MqttClient/Source/DTMqtt/MqttC/MQTTProperties.c:195-222 | writes the list and moves on by exactly MQTTProperties_len |
| Properties.PropertyList.Copy | Plugins/MqttClient/Source/DTMqtt/MqttC/MQTTProperties.c:415-431 | the copy has the same items and length |
| Properties.WriteProperty | Plugins/MqttClient/Source/DTMqtt/MqttC/MQTTProperties.c:152-192 | identifier and value by type |
| Properties.ReadProperty | Plugins/MqttClient/Source/DTMqtt/MqttC/MQTTProperties.c:225-284 | where a property has been written, the same property, and the pointer behind it |
| Properties.Read | Plugins/MqttClient/Source/DTMqtt/MqttC/MQTTProperties.c:287-331 | where a list has been written, the same list, and the pointer stops at its end |
| PublishPacket.BuildMiddle | Plugins/MqttClient/Source/DTMqtt/MqttC/MQTTPacket.c:846-860 | the buffer for id and properties is exactly filled |
| PublishPacket.SendPublish | Plugins/MqttClient/Source/DTMqtt/MqttC/MQTTPacket.c:229-267 | the buffers make up the packet, there are few enough of them for a gathered write, and the id read back for the store is that of the message |
| PublishPacket.ParseBuilt | Plugins/MqttClient/Source/DTMqtt/MqttC/MQTTPacket.c:532-581 | parsing a built body returns the same flags, topic, id, properties and payload, for every version |
| PublishPacket.ReadHead | Plugins/MqttClient/Source/DTMqtt/MqttC/MQTTPacket.c:543-562 | topic and id, or nothing exactly when one of them runs beyond the end |
| PublishPacket.RestorePacket | Plugins/MqttClient/Source/DTMqtt/MqttC/MQTTPersistence.c:341-370 | the same packet from a stored record |
| PublishPacket.BuiltIsFramed | Plugins/MqttClient/Source/DTMqtt/MqttC/MQTTPacket.c:229-267 | a reader of the stream finds exactly this packet in the bytes sent |
| PacketOut.BuildConnect | Plugins/MqttClient/Source/DTMqtt/MqttC/MQTTPacketOut.c:22-105 | for versions 3 to 5 the computed length is the length written and the fields are in order, for any will, user name, password and properties; other versions are refused |
| PacketOut.ConnectLength | Plugins/MqttClient/Source/DTMqtt/MqttC/MQTTPacketOut.c:33-45 | for the three versions, the length computed beforehand is the number of bytes of all fields of the packet |
| PacketOut.BuildSubscribe | Plugins/MqttClient/Source/DTMqtt/MqttC/MQTTPacketOut.c:200-253 | the same for SUBSCRIBE, for any list of topics, with the option bits from version 5 on |
| PacketOut.BuildUnsubscribe | Plugins/MqttClient/Source/DTMqtt/MqttC/MQTTPacketOut.c:336-374 | the same for UNSUBSCRIBE |
| PacketOut.TopicsSize | Plugins/MqttClient/Source/DTMqtt/MqttC/MQTTPacketOut.c:350-354 | the size of any number of topics with their lengths |
| PacketOut.SendConnect | Plugins/MqttClient/Source/DTMqtt/MqttC/MQTTPacketOut.c:22-105 | the whole packet with its header byte and remaining length; none for other versions |
| PacketOut.SendSubscribe | Plugins/MqttClient/Source/DTMqtt/MqttC/MQTTPacketOut.c:200-253 | the whole packet with its header byte and remaining length |
| PacketOut.SendUnsubscribe | Plugins/MqttClient/Source/DTMqtt/MqttC/MQTTPacketOut.c:336-374 | the whole packet with its header byte and remaining length |
| PeerReads.ConnectIsRead | Plugins/MqttClient/Source/DTMqtt/MqttC/MQTTPacketOut.c:22-105 | a peer that reads a CONNECT by sections 3.1.2 and 3.1.3 of the standard, flags bit by bit, finds the client, will, user name, password and properties that were meant, at each of the three versions |
| PeerReads.SubscribeIsRead | Plugins/MqttClient/Source/DTMqtt/MqttC/MQTTPacketOut.c:200-253 | a peer that reads a SUBSCRIBE by section 3.8 finds the id, the properties and every topic with its QoS and options |
| PeerReads.UnsubscribeIsRead | Plugins/MqttClient/Source/DTMqtt/MqttC/MQTTPacketOut.c:336-374 | the same for UNSUBSCRIBE and its topics |
| PeerReads.PublishIsRead | Plugins/MqttClient/Source/DTMqtt/MqttC/MQTTPacket.c:229-267 | a peer that reads a PUBLISH by section 3.3 finds the same message, id and flags |
| PeerReads.HeadsAgree | Plugins/MqttClient/Source/DTMqtt/MqttC/MQTTPacket.c:543-562 | any body, well formed or not, has a topic and an id for the client exactly when it has them for a peer |
| PeerReads.LengthsAgree | Plugins/MqttClient/Source/DTMqtt/MqttC/MQTTPacket.c:304-330 | for every stretch of bytes the digit loop gives the number that section 1.5.5 gives, and refuses what it refuses |
| PeerReads.PacketsAgree | Plugins/MqttClient/Source/DTMqtt/MqttC/MQTTPacket.c:79-157 | for all bytes, what is framed as one packet is what section 2.1 calls one |
| PeerReads.IdsAreShorts | Plugins/MqttClient/Source/DTMqtt/MqttC/MQTTPacket.c:229-267 | the ids given out are all that fit into the two bytes of a packet, but for zero |
| PeerReads.PropertiesRead | Plugins/MqttClient/Source/DTMqtt/MqttC/MQTTProperties.c:195-222 | a peer that reads a property list by section 2.2.2 finds the same properties |
| Persisted.Persist | Plugins/MqttClient/Source/DTMqtt/MqttC/MQTTAsyncUtils.c:234-407 | the buffers make up the record, and there are as many as were allocated for |
| Persisted.QueuedCommand.Restore | Plugins/MqttClient/Source/DTMqtt/MqttC/MQTTAsyncUtils.c:410-591 | the first pass gives what is needed to queue the command; the second gives every field, and fails if and only if the command is an UNSUBSCRIBE of some topic below version 5 |
| Persisted.QueuedCommand.RestoreTopics | Plugins/MqttClient/Source/DTMqtt/MqttC/MQTTAsyncUtils.c:506-533 | topics are restored if and only if something follows the last of them |
| Persisted.QueuedCommand.RestoreSubs | Plugins/MqttClient/Source/DTMqtt/MqttC/MQTTAsyncUtils.c:446-504 | every topic with its QoS and options |
| Persisted.QueuedCommand.RestorePublish | Plugins/MqttClient/Source/DTMqtt/MqttC/MQTTAsyncUtils.c:535-571 | every field, topic and payload only in the second pass |
| QueueEntries.PersistEntry | Plugins/MqttClient/Source/DTMqtt/MqttC/MQTTPersistence.c:653-738 | the buffers make up the record, and there are at most nine |
| QueueEntries.RestoreEntry | Plugins/MqttClient/Source/DTMqtt/MqttC/MQTTPersistence.c:741-810 | the same entry, field for field |
| QueueEntries.InsertInSeqOrder | Plugins/MqttClient/Source/DTMqtt/MqttC/MQTTPersistence.c:813-826 | the entry goes in and the list stays in order of sequence number |
| Sha1.ProcessBlock | Plugins/MqttClient/Source/DTMqtt/MqttC/MQTTSHA1.c:82-124 | eighty rounds over a ring of sixteen words are the standard's rounds over the eighty-word schedule |
| Sha1.RingStep | Plugins/MqttClient/Source/DTMqtt/MqttC/MQTTSHA1.c:101-102 | the word overwritten becomes the next one of the schedule, and the ring again holds the last sixteen |
| Sha1.SameF | Plugins/MqttClient/Source/DTMqtt/MqttC/MQTTSHA1.c:104-111 | the round functions written with "or" are those of the standard |
| Sha1.Context.Update | Plugins/MqttClient/Source/DTMqtt/MqttC/MQTTSHA1.c:160-183 | the message grows by the piece, of whatever size |
| Sha1.Context.Final | Plugins/MqttClient/Source/DTMqtt/MqttC/MQTTSHA1.c:126-158 | the twenty bytes of the digest of everything given to Update, with the size in bits modulo 2^32 |
| Sha1.WordRoundTrip | Plugins/MqttClient/Source/DTMqtt/MqttC/MQTTSHA1.c:148-155 | the bytes written of a word are read as that word |
| Sha1.DigestIsStandard | Plugins/MqttClient/Source/DTMqtt/MqttC/MQTTSHA1.c:126-158 | below 2^29 bytes that is the digest of FIPS 180-4 |
| Sha1.PaddingIsStandard | Plugins/MqttClient/Source/DTMqtt/MqttC/MQTTSHA1.c:133-144 | the padded message is the standard one if and only if the message is below 2^29 bytes |
| Sha1.ConstantsAreRoots | Plugins/MqttClient/Source/DTMqtt/MqttC/MQTTSHA1.c:104-111 | the four round constants are the whole parts of 2^30 times the roots of 2, 3, 5 and 10 |
| Sha1.StartCounts | Plugins/MqttClient/Source/DTMqtt/MqttC/MQTTSHA1.c:64-78 | the five start values, low byte first, count the hexadecimal digits up, down, and both at once |
| Sha1.WordsAreRead | Plugins/MqttClient/Source/DTMqtt/MqttC/MQTTSHA1.c:82-100 | where the bytes of a word lie in a block, that word is read |
| Sha1Example.DigestOfEmpty | Plugins/MqttClient/Source/DTMqtt/MqttC/MQTTSHA1.c:185-235 | the digest of the empty message is the one that the test in the source expects, da39a3ee 5e6b4b0d 3255bfef 95601890 afd80709 |
| Utf8.Validate | Plugins/MqttClient/Source/DTMqtt/MqttC/utf-8.c:107-126 | accepts a byte string if and only if it encodes a sequence of Unicode scalar values |
| Utf8.CharValidate | Plugins/MqttClient/Source/DTMqtt/MqttC/utf-8.c:54-98 | where the next character starts, or -1 if there is no good one; within the bounds |
| Utf8.ScanIsExact | Plugins/MqttClient/Source/DTMqtt/MqttC/utf-8.c:107-126 | a scan of good characters succeeds exactly on the encodings |
| Utf8.GoodIsEncoded | Plugins/MqttClient/Source/DTMqtt/MqttC/utf-8.c:31-42 | whatever fits a row of the table encodes a scalar value |
| Utf8.EncodedIsGood | Plugins/MqttClient/Source/DTMqtt/MqttC/utf-8.c:31-42 | the encoding of every scalar value fits a row of the table |
| Utf8.Unambiguous | Plugins/MqttClient/Source/DTMqtt/MqttC/utf-8.c:107-126 | no two sequences have the same encoding |
| Utf8.SignDoesNotMatter | Plugins/MqttClient/Source/DTMqtt/MqttC/utf-8.c:80-86 | comparing as signed characters gives the same answer |
| Base64.Encode | Plugins/MqttClient/Source/DTMqtt/MqttC/Base64.c:166-222 | the whole encoding if there is room for it, including a buffer of exactly that size; else as many groups as fit exactly, or nothing |
| Base64.Decode | Plugins/MqttClient/Source/DTMqtt/MqttC/Base64.c:87-164 | the bytes of the whole groups as far as there is room, and a terminator behind them if there is room for one |
| Base64.RoundTrip | Plugins/MqttClient/Source/DTMqtt/MqttC/Base64.c:87-222 | decoding the encoding gives every byte string back |
| Base64.EncodeLengthIsExact | Plugins/MqttClient/Source/DTMqtt/MqttC/Base64.c:237-240 | the length computed is the length produced if and only if four times the size does not wrap |
| Base64.DecodeLengthIsExact | Plugins/MqttClient/Source/DTMqtt/MqttC/Base64.c:226-235 | the length computed for an encoding is the size of what it encodes |
| Base64.SextetBits | Plugins/MqttClient/Source/DTMqtt/MqttC/Base64.c:180-206 | the shifts and masks give the six-bit groups of RFC 4648 |
| Base64.AlphabetIsStandard | Plugins/MqttClient/Source/DTMqtt/MqttC/Base64.c:87-222 | the letters are those of table 1 of RFC 4648 in its order, and each is looked up as its place |
| Base64.OnlyLettersAreFound | Plugins/MqttClient/Source/DTMqtt/MqttC/Base64.c:90-108 | nothing but those letters is looked up as one |
| Base64.FirstByBits | Plugins/MqttClient/Source/DTMqtt/MqttC/Base64.c:110-160 | the first byte of a group is what the shifts and the or of the source give, even where a character is no letter |
| Base64.SecondByBits | Plugins/MqttClient/Source/DTMqtt/MqttC/Base64.c:110-160 | the same for the second |
| Base64.ThirdByBits | Plugins/MqttClient/Source/DTMqtt/MqttC/Base64.c:110-160 | and for the third |
| Base64.DecodedFits | Plugins/MqttClient/Source/DTMqtt/MqttC/Base64.c:226-235 | a text of whole groups, well formed or not, decodes to no more bytes than the computed length |
| Base64.DecodeLengthWraps | Plugins/MqttClient/Source/DTMqtt/MqttC/Base64.c:226-235 | in 32-bit arithmetic that length wraps if and only if fewer than four characters have an equals sign at one of the last two places |

## Left out

- ExactlyOnce.ExactlyOnceDelivery: the condition on the reuse of an id is one on the whole system, which a sender cannot look up; FreshIds has the conditions that it can. What is exact about it is the choice of its six parts: in a particular state a leftover may happen to do no harm. Refusals by reason code are left out of the runs, as this receiver sends none, and so are sessions that a broker does not resume, in which the client drops its own.
- EarlyReuse.CareIsExact: RealRuns.Real asks for more than the code does where that is simpler: no write fails, a retry on a live connection does not happen, and a pass of retries is not spread over several writes.
- PacketReader.Reader.Factory: the WebSocket frame position, the choice of parser by packet type and the timestamp of the last packet are not modelled; a packet is its first byte and its body. Socket number 0 marks the default queue as free, so it is not a socket here, as in the source.
- PacketReader.Reader.Cleanup: is stated for states between two calls and for the socket that has just failed.
- PacketWriter.Writer.ContinueWrites: after a removal the walk goes on at the cursor of the list, as in the source, so what one call reaches then is not said. The callbacks are left out.
- CommandRuns.EveryRun: the rules that only refuse a call (not connected, a malformed topic, bad options) are left out; a command that could not be sent and the reconnect that follows are separate steps.
- Properties.Read: says what is read where a list has been written; the reads of the source beyond the end of malformed properties are not modelled. The same goes for ReadProperty, ParseBuilt, RestorePacket, Restore and RestoreEntry.
- PacketData.ReadVbi: is stated where an integer of at most four bytes lies in the buffer.
- Persisted.QueuedCommand.Restore: numbers are four bytes in an order of their own, and subscribe options are the bytes of their structure; keys, sequence numbers and their wrap-around are not modelled.
- QueueEntries.InsertInSeqOrder: the order is that of the numbers, which differs from the order of arrival after a wrap-around.
- Sha1.Context.Final: the union of buffer and words is two variables.
- Base64.Decode: characters from 128 on index the table as unsigned numbers; where char is signed the source reads outside of it.
- LinkedList.List.ListUnlink: freeing is not modelled.
- MqttTree.Tree.TreeAddByIndex: one index with the integer or address comparison; the second index, the string comparison and heap tracking are left out.
- SessionRestore.RestoreRecovers: records read at another protocol version than they were stored at, session expiry and clean sessions are left out, apart from the refusal of version 5 keys below version 5.
- Failing allocation, ownership and freeing of payloads and topics, logging and stack tracing.
- Threads and mutexes: a section under a mutex is one step.
- System calls: recv, writev, poll and the store are parameters or free choices; store operations succeed.
- WebSocket, TLS, proxies, and the CryptoAPI and OpenSSL branches of Base64 and SHA-1.
- Parsing of CONNACK, SUBACK, UNSUBACK and the acknowledgements, keepalive, reconnect timing and the callbacks of the API.
- The heap ledger of Heap.c, which would only add easy members to the tree.
- Everything of the game itself: user interface, HTTP, JSON and the engine's wrappers.
