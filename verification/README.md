# PSRT: a verified model of the broker and its protocols

PSRT is a publish/subscribe server with a client library. A client holds two streams: a control
stream, on which it subscribes, unsubscribes and publishes, and a data stream, on which it receives
messages. Single messages can also be published in one UDP packet. This project models the logic of
both sides and proves what the system is for: messages reach whoever subscribed to
them, in order and without duplicates whatever the interleaving, the two control loops never lose step, bytes written are read
back as what was meant, access masks mean what they say, and no task outlives its client.

Check everything with `dafny verify dfyconfig.toml`.

| file | subject |
|---|---|
| `Bytes.dfy` | bytes, UTF-8 validity, little-endian numbers, splitting at a separator |
| `Topic.dfy` | `prepare_topic` |
| `PathMask.dfy` | the wildcard masks of access lists |
| `Wire.dfy` | the control protocol: encoder, exact reads, the server's reader |
| `DataStream.dfy` | the data stream: frame builder, writer loop, reader loop |
| `ClientDb.dfy` | `ServerClientDB`, its two maps, channel slots and task lists |
| `Server.dfy` | what the control handler does with a request |
| `Lockstep.dfy` | client loop and server loop over two byte channels |
| `Broker.dfy` | the broker as a state machine, one step for each critical section |
| `Clearing.dfy` | which channel a dropped queue or a failing writer clears |
| `Delivery.dfy` | order and exactness of delivery over every run of the broker |
| `History.dfy` | the broker's state written back as what has happened; who a publish reaches |
| `Service.dfy` | what can be done from every reachable state: join, subscribe, launch a session, drain a queue, leave |
| `Vetting.dfy`, `Readable.dfy` | what every queued message has been checked for |
| `Exchange.dfy` | one control connection together with the broker: from a client's commands to a subscriber's reader |
| `TaskLife.dfy` | task lists, and clients left behind, over every run of the broker |
| `Udp.dfy` | UDP packets, decryption, acknowledgements |
| `Timing.dfy` | deadlines and beacons on an ideal clock |

## Assumptions

- `submap` is a contract (`ClientDb.SubMap`): a client is known by its digest; registering answers
  false exactly when an equal digest is present; unregistering removes the client with all its
  filters; lookup returns the clients holding a filter that matches. How filters match is a
  parameter; only `Readable` assumes anything about it (`FollowsMasks`).
- The digest of a token is any function: colliding digests are allowed for.
- `async_channel` is a bounded queue that the receiver closes by going away. Aborting a task is a
  request; the step in which the task ends comes at any later time.
- AES-GCM is an encrypt/decrypt pair with an inverse law, ciphertexts as long as the text, and
  16-byte tags; decryption keeps the length. Passwords and access lists are given values.
- Access lists by name are one fixed map; a connection is served under the list of its client, a
  datagram under that of its login.
- A stream delivers a prefix of the bytes written, in order; either side may stop at any point. The
  streams are not used after an error, so a failed exact read leaves them where they were.
- A token may be drawn again once its holder is unregistered, so the broker tells client objects
  apart by identity and not by token. The random source runs dry instead of failing.
- Whole milliseconds on a clock that never jumps.

## Findings

- `+` in a mask accepts the filter `#`, which reaches topics the mask does not match. Acceptance is
  inclusion of topic sets exactly where no `#` of the filter stands under a `+` of the mask
  (`PathMask.AcceptanceIsInclusion`; a concrete pair in `PathMask.HashUnderPlusCounterexample`). For
  a whole list of masks inclusion comes down to finitely many paths
  (`PathMask.ListAcceptanceIsInclusion`).
- A subscribe checks the topic as spelled and stores its prepared form. The two checks agree under
  every access list exactly for spellings that are prepared already (`Server.CheckedIsStored`).
- `data/#` does not match `data` (`PathMask.DataHash`): unlike section 4.7.1 of MQTT 3.1.1, `#` needs
  at least one level (`PathMask.HashNeedsLevel`). The two readings part exactly on paths that end
  where the `#` stands (`PathMask.PartsFromMqtt`).
- The mask `Some(["#"])`, parsed from `#/`, prints as `#` and reparses to `None`, which matches the
  same paths (`PathMask.PrintParse`).
- A UDP publish with an empty topic is never acknowledged, whatever it asks for (`Udp.AckIffAsked`);
  nor is one under an unknown key (`Udp.UnknownKeyIsSilent`). Whatever key the server holds for the
  login, a sealed packet is acknowledged exactly when that key opens it to a block that asks for it
  (`Udp.SealedAckIff`).
- Dropping a full channel and the clean-up of a failing writer both go by token and empty whatever
  slot is found under it by then, so either may clear a healthy channel: `Clearing.StaleVerdictRun`
  and `Clearing.StaleWriterRun` are runs in which it happens. A slot is emptied exactly when its
  client is registered under that token (`Clearing.ClearedIff`); no channel but the failed one is
  cleared exactly when that slot is empty or still holds the failed one (`Clearing.OnlyFailedIff`).
  Delivery holds regardless: a cleared channel is merely out of reach from then on.
- A client whose token could not be written to its peer stays in the database for good, since the
  error leaves the handler before the client would be unregistered (`TaskLife.OutlivesHandler`; a
  run in `TaskLife.StrandingRun`).
- A server command may outlast its timeout: every status write takes the stream's whole timeout
  afresh, and the push of a publish, which waits for room in queues, comes between its last read and
  its status. A command ends by op_start plus one timeout, one more for each status write, and the
  local delay between its operations (`Timing.CommandBound`); a wanted replication meets that bound
  for any delay (`Timing.BoundIsReached`).

## Model

| member | source | states |
|---|---|---|
| Topic.PrepareTopic | src/pubsub.rs:164-177 | the rewriting loop ends, with the one-pass collapse of slash runs less a leading slash, or the depth error exactly above the limit, after exactly ceil(log2 of the longest run) passes |
| Topic.CollapseAfterReplace | src/pubsub.rs:166-168 | one `//` replacement never changes the collapsed form |
| Topic.MaxRunHalves | src/pubsub.rs:167 | one replacement halves the longest slash run, rounding up |
| Topic.HasPairIffRun | src/pubsub.rs:166 | the loop goes on exactly while some run has two slashes or more |
| Topic.PreparedIsPrepared | src/pubsub.rs:164-177 | a prepared topic has no empty level in front or inside and is never longer than the spelling |
| Topic.PreparedFixedPoint | src/pubsub.rs:164-177 | the fixed points are exactly the topics without leading or doubled slash; preparing is idempotent |
| Topic.PreparedCounts | src/pubsub.rs:164-177 | preparation removes slashes only, and none exactly from fixed points |
| Topic.PreparedForm | src/pubsub.rs:164-177 | the prepared form is the non-empty levels joined by single slashes, with a trailing slash kept behind a level |
| Topic.SegmentsOfPrepared | src/pubsub.rs:164-177 | the non-empty levels survive preparation |
| Topic.SameTopic | src/pubsub.rs:164-177 | two spellings have one prepared form iff they have the same levels and agree on a trailing slash |
| Topic.PreparedSubset | src/pubsub.rs:164-177 | no byte appears that was not there, so NUL-freedom is kept |
| Topic.PreparedUtf8 | src/pubsub.rs:164-177 | well-formed UTF-8 stays well-formed |
| PathMask.MatchesSplit | src/acl.rs:114-136 | the two-iterator matcher agrees with the declarative meaning: equal length and chunkwise match, or a first `#` with more chunks of path behind a matching prefix |
| PathMask.ListMatchesSplit | src/acl.rs:222-229 | a list accepts iff one of its masks does, in whatever order they are tried |
| PathMask.Parse | src/acl.rs:290-311 | the parser's result: error for the empty string, the any-mask for `#`, else the chunks up to the first `#` |
| PathMask.CutKeepsMeaning | src/acl.rs:299-305 | cutting behind the first `#` never changes the matched set |
| PathMask.ParseMeaning | src/acl.rs:290-311 | exactly the non-empty strings parse, and the mask matches what the uncut chunks stand for |
| PathMask.PrintParse | src/acl.rs:280-311 | printing and reparsing a parsed mask succeeds, gives the same mask except for `Some(["#"])`, and the same matched set always |
| PathMask.ParsedIsReachable | src/acl.rs:290-311 | every mask the invariant admits, but that one, is produced by the parser |
| PathMask.ParsedAnyChunk | src/acl.rs:299-305 | the exceptional mask is produced too |
| PathMask.InclusionHolds | src/acl.rs:114-136 | a mask accepting a printed filter, no `#` under a `+`, matches every topic the filter matches |
| PathMask.WitnessEscapes | src/acl.rs:114-136 | otherwise a concrete topic, built with fresh chunks, is matched by the filter and not by the mask |
| PathMask.AcceptanceIsInclusion | src/acl.rs:114-136 | acceptance without `#` under `+` is language inclusion, both directions |
| PathMask.AcceptanceIsPublishableInclusion | src/acl.rs:79-86 | the same over the topics that can really be published, for filters whose levels can occur in one |
| PathMask.OccurringIsPublishable | src/server.rs:344-348 | levels without wildcard symbols, none empty but perhaps the last, make a publishable topic |
| PathMask.HashUnderPlusCounterexample | src/acl.rs:120-125 | mask `+` accepts filter `#` without including it |
| PathMask.ListAcceptanceIsInclusion | src/acl.rs:218-229 | a list of masks matches every topic of a filter iff one of them accepts it or, for a filter with `#`, every instance with one to longest mask + 1 fresh chunks in its place is matched by one of them |
| PathMask.ListAcceptanceIsPublishableInclusion | src/acl.rs:79-86 | the same over the topics that can really be published |
| PathMask.BeyondExists | src/acl.rs:218-229 | for every list there are such a fresh chunk and length |
| PathMask.OneMaskSuffices | src/acl.rs:222-229 | one accepting mask, no `+` above the `#`, includes the filter for the whole list |
| PathMask.TogetherTheyInclude | src/acl.rs:222-229 | `+` and `+/#` include `#` together and neither alone |
| PathMask.HashNeedsLevel | src/acl.rs:120-130 | `t/#` never matches `t` and matches every `t/x` |
| PathMask.DataHash | src/acl.rs:130 | `data/#` does not match `data` |
| PathMask.PartsFromMqtt | src/acl.rs:114-136 | the matcher and section 4.7.1 of MQTT 3.1.1 differ exactly where a matching path ends at the `#` |
| Wire.AsBytes | src/client.rs:79-136 | the encoder, in `u32` arithmetic, produces operation, true length modulo 2^32, and body |
| Wire.BulkBytes | src/client.rs:89-100 | the length-summing and copying loops agree: the length sent is that of the bytes sent, modulo 2^32 |
| Wire.PublishLen | src/client.rs:122 | the wrapped sum of casts is the cast of the sum |
| Wire.Source.ReadExact | src/comm.rs:78-81 | an exact read takes all the bytes or fails |
| Wire.Source.ReadFrame | src/comm.rs:92-110 | a frame read takes length and body together, or fails on a length above the limit or on missing bytes |
| Wire.FrameIff | src/comm.rs:92-110 | a frame is read iff its four length bytes give the body's length within the limit and the body is there; it is refused iff they give more than the limit |
| Wire.ParseTopics | src/server.rs:237-248 | the splitting loop keeps the non-empty pieces and fails iff one is not UTF-8 |
| Wire.ParsePublish | src/server.rs:334-344 | cutting the buffer in place gives a non-empty UTF-8 topic before the first NUL and everything behind it |
| Wire.PublishBodyIff | src/server.rs:334-344 | a publish frame reads as topic and message iff it is a non-empty NUL-free UTF-8 topic, a NUL and the message |
| Wire.ReadTopics | src/server.rs:256-262 | the reads of a subscribe are a run of the reader machine and leave the rest of the stream alone |
| Wire.ReadPublish | src/server.rs:320-344 | the same for priority and frame of a publish |
| Wire.ReadReplTopic | src/server.rs:387-394 | the same for the first half of a replicated publish |
| Wire.ReadRequest | src/server.rs:234-249 | one turn of the control loop reads exactly what the reader machine reads |
| Wire.OpIff | src/server.rs:249-449 | the operation bytes by value: nothing, bye, subscribe, unsubscribe, publish and, with the cluster feature, replicated publish; any other byte ends the connection |
| Wire.TopicsIff | src/server.rs:237-248 | a topics frame is accepted iff its pieces between NULs are all UTF-8, and yields the non-empty ones |
| Wire.FailsIff | src/server.rs:233-449 | for each read, exactly when it ends the connection: unknown operation, length above the limit, topics not UTF-8, no publish frame |
| Wire.RunAppend | src/server.rs:233-249 | bytes behind a finished request are never touched |
| Wire.RunWaits | src/comm.rs:78-110 | on any proper prefix of a request the server waits: it neither acts nor fails early |
| Wire.BulkTopics | src/server.rs:237-248 | a bulk body decodes to its topic list with the empty ones removed |
| Wire.SingleTopic | src/client.rs:83-88 | a single subscribe decodes like a bulk of one |
| Wire.CommandRoundTrip | src/client.rs:79-136 | the server reads back operation, priority, topics and message, NULs in the message included, and not one byte more, whatever follows |
| Wire.PublishRoundTrip | src/server.rs:316-344 | the same for a publish, whose body the client writes separately |
| Wire.ReplRoundTrip | src/client.rs:738-748 | the second half of a replicated publish reads back priority, timestamp and message |
| DataStream.BuildFrame | src/server.rs:195-205 | the frame pushed to subscribers, in `u32` arithmetic |
| DataStream.WriteLoop | src/server.rs:717-763 | the writer emits each dequeued frame with its body, and a beacon unless the last write is younger than the interval, on its clock |
| DataStream.WriteItem | src/server.rs:716-763 | one turn of the loop and whether it counts as a write: a message always, a beacon unless it comes too soon |
| DataStream.ItemBytesIs | src/server.rs:195-205 | the bytes of an item by value: status, priority, length of topic, NUL and data, topic, NUL, data; a beacon is one zero byte or nothing |
| DataStream.BeaconIff | src/server.rs:717-722 | a beacon adds its byte iff the last write is an interval or more ago |
| DataStream.SameRule | src/server.rs:717-722 | the writer loop and the clock of `Timing` keep the same time of last write |
| DataStream.FromBuf | src/lib.rs:90-103 | the buffer is cut in place into topic and data, or refused |
| DataStream.MessageIff | src/lib.rs:90-103 | a buffer decodes to a message iff it is its NUL-free UTF-8 topic, a NUL and its data |
| DataStream.ReadNote | src/client.rs:797-817 | what follows a message byte is read and decoded as one frame |
| DataStream.ReadItem | src/client.rs:790-829 | one turn of the reader consumes at least a byte or ends the loop, and accounts for what it took |
| DataStream.ReadLoop | src/client.rs:783-830 | the reader's messages and its ending are those of the stream function |
| DataStream.ReceivedNote | src/server.rs:195-205 | a written message in front of any bytes is received as itself |
| DataStream.ReceivedCutNote | src/comm.rs:92-110 | of a message cut anywhere nothing is handed on |
| DataStream.PrefixDecodes | src/client.rs:790-829 | any byte prefix of the stream, beacons elided or not, decodes to exactly the messages complete in it, in order, never misframed |
| DataStream.StreamDecodes | src/client.rs:790-829 | the whole stream decodes to exactly the dequeued messages |
| ClientDb.ServerClientData.AbortTasks | src/pubsub.rs:84-90 | every listed task is aborted and the list emptied |
| ClientDb.ServerClientData.RegisterTask | src/pubsub.rs:94-96 | a task is appended to the list |
| ClientDb.FirstFree | src/pubsub.rs:223-240 | the token taken is the first drawn whose digest nobody holds |
| ClientDb.ServerClientDB.RegisterClient | src/pubsub.rs:221-241 | a new client under a token that was in nobody's hands; no entry of either map is overwritten, colliding digests included; the bijection is kept |
| ClientDb.ServerClientDB.UnregisterClient | src/pubsub.rs:242-247 | whoever holds the client's digest leaves the index with all filters, whoever holds its token the token map; the bijection is kept iff the token was held or the digest free, and in the latter case nothing changes |
| ClientDb.LeaveUnknown | src/pubsub.rs:242-247 | removing a token nobody holds changes nothing, or breaks the bijection where its digest is taken |
| ClientDb.ServerClientDB.RegisterDataChannel | src/pubsub.rs:187-205 | succeeds iff the token is known and its slot empty; otherwise access denied and no slot changes |
| ClientDb.ServerClientDB.UnregisterDataChannel | src/pubsub.rs:209-214 | empties the slot of that token only; nothing for an unknown token |
| ClientDb.ServerClientDB.Subscribe | src/pubsub.rs:251-256 | the prepared form is added, or nothing above the depth limit |
| ClientDb.ServerClientDB.Unsubscribe | src/pubsub.rs:260-265 | the prepared form is removed, or nothing above the depth limit |
| ClientDb.ServerClientDB.GetSubscribers | src/pubsub.rs:267-270 | exactly the registered clients with a matching filter |
| ClientDb.EnterKeepsBijection | src/pubsub.rs:234-236 | a free digest implies a free token, and entering keeps the bijection |
| ClientDb.LeaveKeepsBijection | src/pubsub.rs:242-247 | leaving keeps the bijection |
| ClientDb.ApplyKeepsBijection | src/pubsub.rs:221-265 | so does every operation, and entering keeps all other entries |
| ClientDb.RunKeepsBijection | src/pubsub.rs:145-149 | over any run of operations the token map is a bijection onto the indexed clients |
| ClientDb.GoneForGood | src/pubsub.rs:242-247 | an unregistered client is in no later subscriber set, whatever happens next |
| Server.AcceptedPrefix | src/server.rs:266-284 | the longest prefix of topics that are readable and within depth |
| Server.HandleSubscribe | src/server.rs:254-287 | exactly the prepared forms of that prefix are added; by value, the status is OK iff every topic has a read mask and is within depth, access denied iff the first failing topic has no read mask, error iff it has one and is too deep |
| Server.SubscribeLoop | src/server.rs:263-285 | the loop stops at the first refused topic, access before depth |
| Server.SubscribeStatusIff | src/server.rs:266-280 | the statuses of a subscribe by value, from read masks and depth of the topics alone |
| Server.HandleUnsubscribe | src/server.rs:288-315 | the same for removal, by depth alone: OK iff all topics are within depth, else error |
| Server.DepthPrefix | src/server.rs:300-304 | the longest prefix of topics within depth |
| Server.DecidePublish | src/server.rs:344-377 | a publish is forwarded iff its prepared topic is within depth, free of `#` and `+`, and matched by a mask of the write list; too deep, fatal and denied each iff that is what fails first |
| Server.VerdictIff | src/server.rs:344-377 | the same of the verdict function; the message forwarded is the prepared topic with priority and data as sent |
| Server.AnswerIff | src/server.rs:249-449 | every status byte by value: what each request is answered with and when the connection closes without one |
| Server.LengthField | src/server.rs:198 | the length field is the body length modulo 2^32 |
| Server.ForwardedFits | src/server.rs:325-353 | for what is forwarded the length field is the true body length, without wrap, and at most the inbound frame length; the topic is NUL-free UTF-8, prepared, within depth and matched by a write mask |
| Server.SpellingsAreInterchangeable | src/pubsub.rs:251-265 | spellings with one prepared form are one topic for publish, subscribe and unsubscribe |
| Server.CheckedButNotStored | src/server.rs:267-277 | for every unprepared spelling an access list that lets it in but refuses what is stored |
| Server.CheckedIsStored | src/server.rs:267-277 | checking the spelling is checking the stored form, under all access lists, iff the spelling is prepared |
| Lockstep.CommandIsClean | src/client.rs:690-693 | the bytes of one command take the server to a request or an error, never to the middle of a frame |
| Lockstep.ReplIsClean | src/client.rs:738-748 | the same for the message of a replication command |
| Lockstep.ActingMeansRead | src/server.rs:249-449 | when the server acts, both channels are empty and it has read the whole command |
| Lockstep.OutcomeIsRight | src/client.rs:694-778 | the outcome read off the status on its way is the one meant, in both phases and by value: success for 0x01 and 0xE0, access refused for 0xFE, else a server error; the loop goes on unless it is a server error |
| Lockstep.ReceiveIff | src/client.rs:694-778 | what the client makes of every byte it may read, by value and phase: what it hands on, when it sends the replicated message, and exactly when its loop ends |
| Lockstep.ActIff | src/server.rs:249-449 | acting sends the one status byte, if any, and the server goes on iff it answered and was not told bye |
| Lockstep.StepKeepsInv | src/client.rs:686-779 | every step of either side keeps the lockstep invariant |
| Lockstep.ReachableInv | src/server.rs:233-451 | it holds in every reachable state |
| Lockstep.InLockstep | src/client.rs:686-779 | between commands nothing is in flight; the k-th outcome is that of the status computed for the k-th command written: by value, refused iff 0xFE, success iff 0x01 or 0xE0; outcomes go out in queue order, at most one each; only beacons are passed over; nothing follows a server error |
| Lockstep.NeverStuck | src/server.rs:233-451 | while both run, a command in progress can always move |
| Lockstep.ServedAsAsked | src/server.rs:249-438 | within limits, the request acted on is the command submitted |
| Delivery.StepGrows | src/server.rs:206-221 | a closed channel stays closed, a channel out of its slot stays out, an unregistered client stays unregistered |
| Delivery.StepKeepsBijection | src/pubsub.rs:221-247 | the bijection survives every interleaving |
| Delivery.ClearedIsDead | src/server.rs:209-216 | a full channel, once dropped, is out of reach, also when its client was unregistered meanwhile |
| Delivery.KeepsPublish | src/server.rs:350-361 | a new snapshot holds registered clients only, so no dead channel comes back |
| Delivery.KeepsVisit | src/server.rs:207 | what a slot read returns may be a channel that had failed, but then a closed one |
| Delivery.KeepsCheck | src/server.rs:209 | a full verdict is a failed push on that channel |
| Delivery.KeepsDropChannel | src/server.rs:215 | clearing by token ends every later success on the dropped channel |
| Delivery.KeepsSend | src/server.rs:217-219 | a send enters the queue of the channel read before, or fails on a closed one |
| Delivery.StepKeepsInv | src/server.rs:206-221 | every step keeps the delivery invariant of all publishers |
| Delivery.ReachableInv | src/server.rs:344-364 | it holds in every reachable state |
| Delivery.SentIsPrefix | src/server.rs:206-221 | pushes that enter a channel are the first of those that found it |
| Delivery.TriedIncreases | src/server.rs:206-221 | a push tries one channel at most once, later pushes later |
| Delivery.FoundIsTried | src/server.rs:206-221 | the attempts on record are the visits in which `data_channel()` returned the channel, but for the one not yet decided |
| Delivery.ContiguousRun | src/server.rs:206-221 | what a publisher gets into a session is the contiguous, ordered, duplicate-free first part of the pushes whose visit found that channel; after one fails none enters |
| Delivery.EveryoneVisited | src/server.rs:206-221 | each subscriber of a snapshot is visited once, and all have been when the push returns |
| History.FiltersAreHistory | src/server.rs:254-315 | in every reachable state the filters the index holds for a registered client are the prepared forms it has subscribed to and not given up since |
| History.SnapshotIff | src/server.rs:344-361 | a publish logs one push more, of the prepared topic and the data sent, and its snapshot holds exactly the registered clients with a matching filter in the index |
| History.SnapshotIsSubscribed | src/pubsub.rs:267-270 | and so exactly the registered clients that have subscribed to a matching filter and not given it up since |
| History.QueueIsHistory | src/server.rs:217-219 | a queue holds the beacons and the sends of its run, in their order, and nothing else |
| History.SessionIsHistory | src/server.rs:629-695 | a channel is closed iff its launcher failed to answer or its writer ended or failed; what was taken from it is what its writer dequeued |
| History.OpensChannel | src/pubsub.rs:187-205 | registering a data channel puts a new, open and empty one into the slot of the token's client |
| History.SlotStep | src/pubsub.rs:187-214 | what any step does to any slot: an opened channel fills it, a clearing under its client's token empties it, nothing else touches it |
| History.FoundReachesQueue | src/server.rs:206-221 | a push found a channel iff it is in its queue, or was refused there as full or closed, or is still being decided; never both queued and refused |
| History.SubscriberReached | src/server.rs:206-221 | in every interleaving, once a push has returned: each client of its snapshot had no data channel when visited, or has the message queued in the channel it had, or that channel was full when looked at or closed when sent to |
| History.PushMovesIff | src/server.rs:206-221 | a push in progress can go on, except exactly while it sends into an open queue that has become full |
| History.VisitArrives | src/server.rs:207-219 | a client whose channel is open and has room when visited gets the push at the end of that channel's queue |
| History.PublishArrives | src/server.rs:334-364 | from any reachable state whoever may publish a topic can, and every subscriber of it whose channel is open and has room gets the message at the end of its queue |
| History.TasksAreHistory | src/server.rs:667-686 | pinger and writer are registered on their client iff the launcher has registered them |
| Service.ClientJoins | src/server.rs:254-287 | from any reachable state a new client under a free token can register, subscribe to a topic its read masks match within depth, and open a data channel: it then is a subscriber of every topic the prepared filter matches, its channel open and with room |
| Service.SessionLaunches | src/server.rs:646-686 | from any reachable state a launcher that has not answered yet can finish; both tasks then run and are on their client's list, and the queue is as it was |
| Service.QueueDrains | src/server.rs:714-763 | from any reachable state a running writer can take all that is queued, in as many steps |
| Service.PingerMovesIff | src/server.rs:659-666 | a running pinger waits in exactly one case: its channel is open and full and it has not been aborted; a beat adds one beacon and changes nothing else of any session |
| Service.WriterGivesUp | src/server.rs:670-685 | from any reachable state a running writer can fail and clean up: its channel is closed and the slot under its token empty |
| Service.AnswerMayFail | src/server.rs:645-647 | an answer that cannot be written closes the channel, spawns no task and leaves the slot as it is |
| Service.ClientLeaves | src/server.rs:620-624 | from any reachable state a served client with no push in progress can leave: it is then unregistered, and all tasks on its list have been aborted |
| Vetting.NewPush | src/server.rs:334-361 | a push carries a message vetted under its publisher's own write masks, to all registered clients with a matching filter and to nobody else, each filter admitted by its client's read masks |
| Vetting.FilterOrigin | src/server.rs:266-280 | every stored filter was there before, under the same client, or is the prepared form just admitted |
| Vetting.UdpIsPublish | src/server.rs:1111-1132 | an accepted UDP packet is a publish step of the broker's listener, under the access list of the packet's login, that pushes the accepted message |
| Vetting.UdpIsVetted | src/server.rs:1111-1127 | what is accepted over UDP is vetted against the access list of its login, which exists |
| Vetting.EntryOrigin | src/server.rs:217 | a queue grows by beacons and sends only |
| Vetting.StepKeepsVet | src/server.rs:334-361 | every step keeps all queues vetted |
| Vetting.ReachableVet | src/server.rs:334-361 | they are in every reachable state |
| Vetting.QueuedIsVetted | src/server.rs:334-359 | every queued topic is NUL-free, prepared, free of `#` and `+`, within the depth limit in force when published, and allowed by the write masks of the client, or the datagram's login, that published it; its receiver was in the snapshot |
| Vetting.EndToEnd | src/server.rs:697-763 | from publishers to the reader: after any number of bytes the client has decoded exactly the first entries dequeued, of each publisher a first part of the pushes that found the session |
| Readable.CarefulIff | src/acl.rs:79-82 | the finite check is exact: an access list lets its client read all topics of a filter iff it covers the filter |
| Readable.OneMaskIsCareful | src/acl.rs:79-82 | one accepting mask, no `+` above the `#`, is enough, whatever the other masks are |
| Readable.AdmittedIsReadable | src/acl.rs:79-82 | a stored filter that the access list covers brings only readable topics |
| Readable.UncoveredIsReached | src/server.rs:266-280 | one that it does not cover, of levels that can occur in a topic, brings some publishable topic its client may not read, if lookup follows the wildcard language exactly |
| Readable.StepKeepsReadable | src/server.rs:266-280 | every step, of whatever client, keeps one client's filters covered and its pushes readable, if its own subscriptions are covered |
| Readable.QueuedIsReadable | src/server.rs:344-361 | over every run in which a client's own access list covers what is stored for it, whatever waits in its queue it may read, whatever other clients subscribe to |
| TaskLife.HeldShrinks | src/server.rs:350-361 | references to a client come from references: once the last is gone none comes back |
| TaskLife.StepKeepsTracked | src/pubsub.rs:84-103 | every step keeps each registered task listed or aborted |
| TaskLife.ReachableTracked | src/pubsub.rs:84-103 | they are in every reachable state |
| TaskLife.NoTaskLeak | src/server.rs:620-624 | a task ever registered is listed or aborted; with the last reference gone the destructor is due, and after it all are aborted, those registered after the handler's own abort included |
| TaskLife.AbortReachesAll | src/pubsub.rs:84-90 | an abort reaches every task registered so far |
| TaskLife.OutlivesHandler | src/server.rs:618-625 | a client outlives its handler iff writing its token failed; it then stays registered for good and is never released |
| TaskLife.StrandingRun | src/server.rs:618-619 | a run in which that happens |
| Clearing.SlotAfter | src/pubsub.rs:209-214 | dropping a full channel or ending a failed writer empties the slot found under the token and no other |
| Clearing.ClearedIff | src/server.rs:209-216 | an occupied slot is emptied iff its client is registered under that token |
| Clearing.OnlyFailedIff | src/server.rs:680-684 | no channel but the failed one is cleared iff the slot under the token is empty or still holds it |
| Clearing.StaleVerdictRun | src/server.rs:209-216 | a reachable run in which a stale full verdict clears an open channel with room |
| Clearing.StaleWriterRun | src/server.rs:680-684 | a reachable run in which the failing writer of an old session clears the new one |
| Udp.BuildPacket | src/client.rs:893-938 | the packet as the server's layout has it, plain or sealed |
| Udp.Opens | src/keys.rs:35-46 | nonce, ciphertext and tag are cut where they were joined |
| Udp.OpensEither | src/keys.rs:20-46 | what the key of the login sealed, with 128 or 256 bits, opens to the same bytes, unless empty |
| Udp.BlockParses | src/server.rs:1074-1132 | a block reads back as its topic, priority, message and acknowledgement wish, and is accepted iff its topic is not empty, its sender is vouched for, an access list exists for the login, and the prepared topic is within depth, free of `#` and `+`, and matched by a write mask of that list |
| Udp.BlockIsFrame | src/server.rs:1080-1127 | an accepted block is a publish frame behind two bytes, with the verdict that frame would get |
| Udp.PacketHasBlock | src/server.rs:1150-1188 | an accepted packet, sealed or plain, carries an accepted block no longer than itself, under its login |
| Udp.AcceptedIsAuthorized | src/server.rs:1102-1110 | an accepted plain packet was authenticated, or anonymous with leave; an accepted sealed one was opened by the key held for its login |
| Udp.AcceptedIff | src/server.rs:1102-1132 | every packet the client builds is accepted iff its topic is not empty, a plain one is authenticated or anonymous with leave, an access list exists for the login, and the prepared topic is within depth, free of `#` and `+`, and matched by a write mask of that list; the three statuses and silence likewise, by value |
| Udp.AdmitIff | src/server.rs:1102-1132 | the same of the decision alone, for any login, password, topic and data |
| Udp.HeaderIsRequired | src/server.rs:1139-1150 | a packet with any other header, version or encryption byte is refused in silence |
| Udp.PacketRoundTrip | src/server.rs:1139-1189 | every packet built reads back as login, topic, priority and message, whatever NULs nonce, ciphertext or message hold |
| Udp.ExpectedAck | src/server.rs:1041-1056 | a publish behind its parse is acknowledged iff asked, with OK iff it was forwarded |
| Udp.AckIffAsked | src/server.rs:1034-1070 | the same of packets: on all success and later-failure exits an acknowledgement is sent iff asked for and the topic is not empty |
| Udp.SealedAckIff | src/server.rs:1150-1169 | a sealed packet is acknowledged iff the login is UTF-8 and the server's key for it, if any, opens the packet to a block that asks for it |
| Udp.UnknownKeyIsSilent | src/keys.rs:101-129 | under an unknown key nothing is ever acknowledged |
| Udp.AckRoundTrip | src/client.rs:940-959 | the client takes an acknowledgement for success iff its status is OK |
| Udp.AckReadIff | src/client.rs:940-959 | the client reads success from exactly the packets that begin with header, version and OK |
| Udp.ConfirmedIffForwarded | src/client.rs:886-962 | a confirmed publish reports success iff the server forwarded the message |
| Timing.OpDeadline | src/comm.rs:92-110 | a frame read with its nested start ends by the deadline of its command |
| Timing.BudgetIsExact | src/lib.rs:55-62 | the reduced timeout reaches op_start plus timeout exactly, and is nothing behind it |
| Timing.NestedBudget | src/comm.rs:92-110 | so does the one reduced twice by a frame read with its own start |
| Timing.GivenUpIff | src/lib.rs:55-62 | in every chain of operations a read or write is given up iff it needs longer than to op_start plus timeout; a status write iff it needs longer than the whole timeout |
| Timing.NothingCutOff | src/lib.rs:55-62 | a command whose reads and writes could all be done by op_start plus timeout has none of them cut off |
| Timing.ChainDeadline | src/lib.rs:55-62 | so does every read or write bounded by `reduce_timeout`, or in no time if begun past it; and each is given all the time there is up to the deadline |
| Timing.CommandDeadline | src/client.rs:690-762 | without local delay every operation before the first status write, so every read of a server command's first phase and every whole client command, has ended by op_start plus timeout |
| Timing.CommandBound | src/server.rs:234-427 | a whole server command, status writes and pushes included, ends by op_start plus one timeout, one more per status write, and the local delay between its operations |
| Timing.BoundIsReached | src/server.rs:387-426 | a wanted replication, whatever its push waits, meets that bound |
| Timing.BehindStatus | src/server.rs:401-417 | the reads behind a status write end by op_start plus timeout iff that write did |
| Timing.SilenceIsShort | src/server.rs:717-722 | whatever is written when, the stream is never silent for two beacon intervals |
| Timing.WrittenIff | src/server.rs:717-722 | a beacon is written iff the last write is an interval or more ago, a message always |
| Timing.BeaconsInTime | src/client.rs:437-440 | nor for the client's timeout, after truncation to seconds and the clamp at 255; two intervals are that timeout to within a second, or the clamp |
| Exchange.Projects | src/server.rs:233-453 | a run of a connection and the broker together is a run of each |
| Exchange.ReachableMatched | src/server.rs:344-364 | the pushes of a connection are the forwarded ones of the requests answered, in order, and the one in progress |
| Exchange.PushedAsCommanded | src/client.rs:686-779 | a client's pushes are, in queue order, the messages of its publish commands answered; those are the ones whose callers were told they succeeded, and the one in progress |
| Exchange.CommandToReader | src/client.rs:783-830 | from one client's publish commands to another's reader: what the reader has decoded of them after any number of bytes is, in order and without gaps, the first of those that found its session; those that found it are the ones queued, the ones refused there as full or closed, and the one in progress |
| Exchange.CommandArrives | src/server.rs:334-364 | from any reachable state: a publish the server has read and may forward is pushed, and every subscriber of its topic whose channel is open and has room gets the message at the end of its queue |

## Left out

- Sockets, TLS, the tokio runtime, signals, logging, counters, the HTTP statistics server, the EVA ICS service and the command line tool: input and output only.
- Loading and reloading of configuration, passwords, keys and access lists, and the parsing of YAML: given values here.
- The bytes of the greeting and login exchange that precedes the control loop, and of the token exchange of the data stream: straight sequences of fixed-size reads. That the token may fail to reach its client is a step of `Broker`.
- The replication module of src/lib.rs:269-271, whose source is not part of this model: only the two sides of the exchange on the wire are modelled. What a server built with the cluster feature pushes for its neighbours is no step of `Broker`, so `Delivery`, `Vetting`, `Readable`, `TaskLife` and `Exchange` speak of servers without it.
- Fairness: that the writer of a session takes items at all is not assumed, so `dc.send` may wait without bound; `History.PushMovesIff` says that a push waits nowhere else.
- The UDP priority 0, which a client never sends: the server would cut the packet at it.
- Which request a UDP acknowledgement answers: it carries no identifier.
- The timestamp of a message frame: analytics only.
- Interleaved code as methods on the heap: `push_to_subscribers`, the launcher, the control handler's bracket and the session tasks are steps of `Broker`, since a method would run to its end undisturbed; aliasing of client objects is by identity there.
- The verdicts on UDP packets as methods: they are nested early returns without loops or updates and stand as functions.
- The client's own queue of received messages: a client that stops taking messages ends its reader.
- Wire.CommandRoundTrip: asks for NUL-free topics and sizes within the server's limits, as a topic with a NUL in it is cut there by the receiver; `Lockstep.CommandIsClean` holds without these conditions.
- Timing.CommandDeadline: assumes that no time passes between the network operations of a command; `Timing.CommandBound` says what such delays add.
- Exchange.CommandToReader: asks for commands within the server's limits, as the wire round trip does; subscriptions of the client are free steps of the broker there.
