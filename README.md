# rest-mafia: the game engine and the voice-chat wire layer in Dafny

This project models the core of rest-mafia, a multiplayer Mafia game with a voice-chat lobby. It covers two halves.

The **game** half has four parts:

- the engine (`mafia/game.py`, `mafia/voting.py`, `mafia/common.py`): role dealing, the ordered legality check of a command, the event each command produces, and the end of a phase (elimination by majority vote, phase switch, win check);
- the session bus (`mafia/servicer.py`, `mafia/subscriber_queue.py`): it checks and applies submitted commands, then fans the events out to per-subscriber FIFO queues;
- the text command parser of the player client (`mafia/client.py`);
- the pick of a random other player.

The **voice-chat** half has three parts:

- the wire codec (`voice_chat/converter.py`, `voice_chat/protocol.py`): big-endian fixed-width integers, UTF-8 strings, length-prefixed fields and a 1-byte type tag, read back from a byte cursor;
- the connection registry (`voice_chat/client_manager.py`);
- the room router (`voice_chat/room_server.py`): who hears a sender by day and by night, relaying and list replies, and the four-member trigger that launches a game.

One module per source file:

| module | file | source |
|---|---|---|
| `Wrappers` | wrappers.dfy | Option/Result |
| `Common` | common.dfy | mafia/common.py |
| `Votes` | voting.dfy | mafia/voting.py |
| `Engine` | game.dfy | mafia/game.py |
| `Queues` | subscriber_queue.dfy | mafia/subscriber_queue.py |
| `Session` | servicer.dfy | mafia/servicer.py |
| `Client` | client.dfy | mafia/client.py |
| `Converter` | converter.dfy | voice_chat/converter.py |
| `Protocol` | protocol.dfy | voice_chat/protocol.py |
| `Registry` | client_manager.dfy | voice_chat/client_manager.py |
| `Router` | room_server.dfy | voice_chat/room_server.py |

Objects whose fields the source updates in place are classes: `MafiaGame`, `Voting`, `SubscriberQueue`, `Servicer`, `ClientManager`, `RoomServer`, and the byte-cursor `Socket`. Each method states its new state in terms of specification functions, and the rules are proved about those functions:

- `Step` and `EndPhase` for the game;
- `MajorityOf` for the vote;
- `Appended` for the queues;
- `Parse` for `get_message`;
- `Recipients` and `Broadcasted` for the router.

Randomness is passed in as a sequence of draws:

- `random.shuffle` is a Fisher–Yates shuffle driven by the draws;
- `random.randint` ids are a draw reduced modulo 2^32;
- `random.choice` is a draw reduced modulo the number of players.

Each retry loop requires that some draw succeeds.

Sockets are abstracted: bytes sent to a client id are appended to a ghost log of deliveries, and closing a socket is recorded in a ghost log of closed ids.

## Model

| member | source | states |
|---|---|---|
| Common.Toggle | mafia/common.py:4-6 | the two phases are distinct: switching always yields the other phase |
| Common.RoleCode | mafia/common.py:9-12 | the role codes are 0, 1 and 2 |
| Common.RoleName | mafia/common.py:21-29 | a role code in 0..2 (any other is an assertion failure) is named "civilian", "mafia" or "commissar", each exactly for its own code |
| Converter.DecodeUInt | voice_chat/converter.py:6-8 | L bytes decode to a value below 256^L |
| Converter.EncodeUInt | voice_chat/converter.py:2-4 | defined only for n < 256^L (`to_bytes` raises otherwise); yields exactly L bytes that decode back to n |
| Converter.DecodeUIntAppend | voice_chat/converter.py:6-8 | decoding is big-endian: no bytes are 0, and one more byte x gives 256·value + x |
| Converter.EncodeDecodeUInt | voice_chat/converter.py:2-8 | re-encoding a decoded L-byte string at width L gives back the same bytes |
| Converter.EncodeChar | voice_chat/converter.py:12-14 | UTF-8 takes 1 to 4 bytes per character |
| Converter.EncodeStr | voice_chat/converter.py:12-14 | a string of k characters encodes to between k and 4k bytes |
| Converter.DecodeChar | voice_chat/converter.py:16-18 | a decoded character consumes at least 1 byte and no more than are there |
| Converter.DecodeEncodeChar | voice_chat/converter.py:11-18 | an encoded character followed by any bytes decodes to that character and consumes exactly its encoding |
| Converter.DecodeEncodeStr | voice_chat/converter.py:11-18 | strict UTF-8 decoding of an encoded string gives the string back |
| Converter.DecodeEncodeNames | voice_chat/converter.py:21-28 | the name-list payload that stands in for ArrayConverter decodes to the encoded list |
| Votes.Threshold | mafia/voting.py:12 | `n // 2 + 1` is more than half of n and at most one ballot over half |
| Votes.UniqueMajority | mafia/voting.py:12-16 | two ballots that both reach the threshold are the same ballot |
| Votes.MajorityOf | mafia/voting.py:10-17 | the outcome is a candidate exactly when some candidate reaches the threshold, and then that candidate does |
| Votes.MajorityReached | mafia/voting.py:13-16 | any ballot that reaches the threshold, "no vote" included, is the outcome |
| Votes.NoVotes | mafia/voting.py:4-5 | exactly the listed voters hold a ballot, and every ballot is "no vote" |
| Votes.Voting.constructor | mafia/voting.py:4-5 | a fresh vote maps every voter to "no vote" |
| Votes.Voting.Vote | mafia/voting.py:7-8 | the voter's ballot is replaced and every other ballot is unchanged |
| Votes.Voting.GetWinner | mafia/voting.py:10-17 | counting the voters in any order, stopping at the first ballot to reach the threshold, returns the unique majority outcome (None when there is none); the ballots are not modified |
| Engine.Remove | mafia/game.py:153-155 | `list.remove` drops exactly one occurrence: one element fewer, the same multiset minus x |
| Engine.RemoveDistinct | mafia/game.py:153-155 | removing from a list without repeats keeps it without repeats and removes x alone |
| Engine.Repeat | mafia/game.py:8-10 | `[r] * k` holds k copies of r and nothing else |
| Engine.RoleDeckCounts | mafia/game.py:7-10 | for n ≥ 1 the deck has n roles: 1 commissar, n//3 mafia and n-1-n//3 civilians |
| Engine.GetRoles | mafia/game.py:7-12 | the shuffled deck has the deck's length and is a permutation of it |
| Engine.RoleMap | mafia/game.py:32 | player i is dealt role i, and only the players have a role |
| Engine.PlayersWithRole | mafia/game.py:163-164 | a name is listed exactly when it is a living player with that role |
| Engine.RoleGroupsPartition | mafia/game.py:163-164 | the three role groups of the living players add up to all of them |
| Engine.GroupSizeFromDeck | mafia/game.py:29-32 | each role group of a dealt game is as large as that role's count in the deck |
| Engine.GetRole | mafia/game.py:157-158 | a role is found exactly for a name in the role map, and it is that name's role (KeyError otherwise) |
| Engine.NewGameDealsDeck | mafia/game.py:29-39 | a game dealt a permutation of the deck satisfies the invariant, and for n ≥ 1 players has 1 commissar, n//3 mafia and n-1-n//3 civilians |
| Engine.IsRole | mafia/game.py:160-161 | an answer exists exactly for a name with a role, and it is true exactly when that role is the one asked |
| Engine.InvestigateVerdict | mafia/game.py:51-61 | INVESTIGATE passes exactly for the commissar, at night, on a living player, once per night |
| Engine.PublishVerdict | mafia/game.py:62-72 | PUBLISH passes exactly for the commissar, by day, on an investigated player who is mafia |
| Engine.ExecuteVerdict | mafia/game.py:73-81 | EXECUTE passes exactly by day, after the first night, on a suspect who is not dead |
| Engine.MurderVerdict | mafia/game.py:82-90 | MURDER passes exactly for a mafia member, at night, on a suspect who is not dead |
| Engine.IsAllowedAsWritten | mafia/game.py:41-90 | checks in this order: the wrong phase, then a dead actor, then a finished actor are refused with their reasons, and only then the command's own rules apply |
| Engine.IsAllowed | mafia/game.py:41-90 | the corrected check allows exactly what `Permits` states; it refuses wrong phase, dead and finished first; it differs from the as-written check only by refusing an EXECUTE or MURDER ballot for a name that is neither empty nor a living player |
| Engine.AsWrittenAdmitsNonPlayer | mafia/game.py:73-81 | the as-written check allows a vote to execute "zed", who is not playing; the corrected one refuses it |
| Engine.NonPlayerCanWin | mafia/game.py:118-123 | a unanimous vote for a non-player is the majority outcome, so the as-written `kill` would remove a name that is not in the list |
| Engine.BallotOf | mafia/game.py:104-111 | an empty suspect is "no vote"; any other suspect is a vote for that name |
| Engine.Step | mafia/game.py:92-113 | applying a command never changes the living, the dead, the roles, the phase or whether execution is allowed |
| Engine.AllowedIsApplicable | mafia/game.py:92-103 | an allowed command can be applied: its role lookups succeed |
| Engine.StepKeepsInv | mafia/game.py:92-111 | an allowed command keeps the invariant: the living and the dead split the roster, and every ballot names a living player |
| Engine.FinishedPlayerRefused | mafia/game.py:46-47 | after FINISH, every further command of the same phase from that player is refused as already finished |
| Engine.OneInvestigationPerNight | mafia/game.py:58-59 | after an investigation, a second one that night is refused |
| Engine.ExecuteNeedsLaterDay | mafia/game.py:76-79 | EXECUTE is refused at night and before the first night is over |
| Engine.PhaseFinishedMeansAllFinished | mafia/game.py:115-116 | when only living players can have finished, the size comparison holds exactly when every living player has finished |
| Engine.WinnerByMafiaShare | mafia/game.py:144-151 | civilians win exactly when no mafia is alive; mafia wins exactly when it is alive and at least half of the living |
| Engine.AfterVote | mafia/game.py:119-131 | the vote's winner, if any, is killed, and roles stay known |
| Engine.NextPhase | mafia/game.py:124-136 | the phase toggles; into the night exactly the living civilians count as finished and exactly the living mafia vote; into the day nobody has finished, executions are allowed, the commissar may investigate again and every living player votes; every new ballot is "no vote"; the living, the dead, the roles and the investigated names are unchanged |
| Engine.Outcome | mafia/game.py:138-142 | the last event is END with the winner exactly when the win check names one, otherwise PHASE_FINISH |
| Engine.KilledKeepsRoster | mafia/game.py:153-155 | killing a living player keeps the living without repeats, disjoint from the dead, and the two together equal to the roster |
| Engine.FinishKeepsInv | mafia/game.py:118-142 | the end of a phase can always run on a valid game, and it keeps the invariant |
| Engine.FinishEffect | mafia/game.py:118-142 | at the end of a phase the phase flips and exactly the majority's choice dies; the death is announced with the role (EXECUTED by day, MURDERED by night); the last event is END exactly when someone has won; the new phase starts with the finished set, the voters, `can_execute` and `done_investigation` that the phase switch sets |
| Engine.NightEndOpensExecution | mafia/game.py:132-136 | after a night, every living player may vote to execute any living player |
| Engine.DayEndAllowsInvestigation | mafia/game.py:124-126 | a day that ends with the commissar alive and no investigation done opens a night in which the commissar may investigate any living player |
| Engine.MafiaGame.constructor | mafia/game.py:29-39 | a new game: day, no executions yet, nobody finished, dead or investigated, everyone with "no vote", and role groups of the dealt sizes |
| Engine.MafiaGame.ProcessCommand | mafia/game.py:92-113 | the new fields and the returned event are those of `Step` |
| Engine.MafiaGame.Kill | mafia/game.py:153-155 | the player joins the dead and is removed from the living |
| Engine.MafiaGame.VoteOut | mafia/game.py:119-131 | the state after the vote's victim is killed, and the event that announces it |
| Engine.MafiaGame.SwitchPhase | mafia/game.py:124-136 | the fields become `NextPhase` of the old ones, with a fresh vote object |
| Engine.MafiaGame.FinishPhase | mafia/game.py:118-142 | the new fields and the events yielded, in order, are those of `EndPhase` |
| Queues.Appended | mafia/subscriber_queue.py:15-17 | the subscribers stay the same, and each queue gains the messages at its end |
| Queues.AppendedTwice | mafia/subscriber_queue.py:13-17 | two puts append in put order: the messages are delivered in the order they were put |
| Queues.SubscriberQueue.constructor | mafia/subscriber_queue.py:7-8 | exactly the listed subscribers get a queue, and every queue is empty |
| Queues.SubscriberQueue.Get | mafia/subscriber_queue.py:10-13 | an unknown subscriber gets None with nothing changed; an empty queue blocks; otherwise the oldest message is returned and removed from that queue only |
| Queues.SubscriberQueue.Put | mafia/subscriber_queue.py:15-17 | the message is appended to every subscriber's queue |
| Session.Refusal | mafia/servicer.py:38-40 | a refused command is answered with the reason `is_allowed` gives; a missing verdict or a failed role lookup raises |
| Session.Played | mafia/servicer.py:42-47 | an allowed command keeps the invariant; phase-end events come exactly when the phase flipped, and the last of them is END exactly when someone has won |
| Session.AllowedOnlyInCurrentPhase | mafia/servicer.py:38 | a command is allowed only in the game's phase, from a living player who has not finished |
| Session.PhaseEndsWhenAllFinished | mafia/servicer.py:45-47 | the phase ends on a command exactly when, after it, as many players have finished as are alive; its last event is then PHASE_FINISH or END with the winner |
| Session.NightFeed | mafia/servicer.py:69-81 | a night queue gets the command's event first exactly when the actor has its role, then all phase-end events |
| Session.OneNightQueueGetsTheEvent | mafia/servicer.py:70-75 | exactly one night queue, the one of the actor's role, receives the command's event ahead of the phase-end events; the other two receive the phase-end events alone |
| Session.StartSession | mafia/servicer.py:20-29 | a new game of the names, its three role groups, and the room told who the mafia is |
| Session.Servicer.constructor | mafia/servicer.py:19-29 | the day queue subscribes every name; each night queue subscribes the players of one role, all queues empty; the room's mafia list is the mafia group |
| Session.Servicer.StartGame | mafia/servicer.py:31-35 | the living players and the caller's role, exactly when the caller has a role (KeyError otherwise) |
| Session.Servicer.SubmitDayCommand | mafia/servicer.py:37-48 | a refused command changes neither the game nor the queue and returns its reason; an allowed one plays out and appends its event and then the phase-end events to the day queue |
| Session.Servicer.EndPhaseIfOver | mafia/servicer.py:45-47 | the phase ends exactly when it is finished, with the events of `EndPhase`; otherwise nothing changes |
| Session.Servicer.SubmitNightCommand | mafia/servicer.py:64-82 | a refused command changes nothing and returns its reason; an allowed one plays out; each night queue gets its `NightFeed`; an actor without a role raises with no queue touched |
| Session.Servicer.DeliverNight | mafia/servicer.py:70-81 | the event goes to the actor's group, then the phase-end events go to all three night queues |
| Session.Servicer.DeliverToGroup | mafia/servicer.py:70-75 | the event goes to the night queue of the actor's role only, and the game is unchanged |
| Session.Servicer.PutAllNight | mafia/servicer.py:77-81 | every phase-end event is appended, in order, to all three night queues |
| Session.PutAll | mafia/servicer.py:46-47 | the events are appended to the queue in the order `finish_phase` yields them |
| Session.PlayedUnfolds | mafia/servicer.py:42-47 | `Played` is `process_command` followed by `finish_phase` exactly when the phase is then finished |
| Session.FeedThenEnd | mafia/servicer.py:69-81 | putting the command's event and then the phase-end events yields the queue's night feed |
| Client.LStrip | mafia/client.py:91 | the result is a suffix of the line that does not start with white space |
| Client.RStrip | mafia/client.py:91 | the result is a prefix of the line that does not end with white space |
| Client.LStripRemovesSpace | mafia/client.py:91 | everything stripped from the front is white space |
| Client.RStripRemovesSpace | mafia/client.py:91 | everything stripped from the end is white space |
| Client.RemovePrefix | mafia/client.py:91 | `removeprefix` drops the prefix when the line starts with it and otherwise leaves the line alone |
| Client.DayCommand | mafia/client.py:91-107 | the day branch submits FINISH, PUBLISH or EXECUTE to the day endpoint under the caller's name, or reports the day command unrecognized |
| Client.NightCommand | mafia/client.py:110-131 | the night branch submits FINISH, INVESTIGATE or MURDER to the night endpoint, reports the command unrecognized, or does nothing exactly for "random" from a civilian |
| Client.ParseCommand | mafia/client.py:86-133 | a submitted command carries the caller's name; day submissions come from lines starting with "day", night submissions from lines starting with "night" and not "day"; the help text exactly for "help" |
| Client.PickOnlyForRandom | mafia/client.py:102-124 | the random pick affects only "random" lines |
| Client.DayFinish | mafia/client.py:92-93 | "day finish" submits FINISH to the day endpoint |
| Client.NightFinish | mafia/client.py:111-112 | "night finish" submits FINISH to the night endpoint |
| Client.DayExecute | mafia/client.py:97-99 | "day execute X" submits EXECUTE with the stripped X as suspect |
| Client.DayPublish | mafia/client.py:94-96 | "day publish X" submits PUBLISH with the stripped X as suspect |
| Client.NightInvestigate | mafia/client.py:113-115 | "night investigate X" submits INVESTIGATE with the stripped X as suspect |
| Client.NightMurder | mafia/client.py:125-127 | "night murder X" submits MURDER with the stripped X as suspect |
| Client.Skip | mafia/client.py:100-129 | "day skip" submits EXECUTE and "night skip" submits MURDER, both with no suspect |
| Client.NightRandom | mafia/client.py:116-124 | "night random" needs a pick; it submits MURDER of the pick for mafia and INVESTIGATE of the pick for the commissar, and nothing for a civilian |
| Client.UnrecognizedLine | mafia/client.py:132-133 | a line that is not "help" and starts with neither phase word is unrecognized as a whole |
| Client.Choice | mafia/client.py:81 | `random.choice` returns a member of the list |
| Client.GetRandomPlayer | mafia/client.py:80-84 | the first drawn player who is not the caller: a player other than the caller |
| Client.ProcessCmd | mafia/client.py:86-133 | a "random" line is parsed with a pick that is another player; any other line parses the same whatever the pick; a random suspect is never the caller |
| Client.RandomSuspectIsPick | mafia/client.py:102-124 | on a "random" line that submits, the suspect is the pick |
| Protocol.TypeCode | voice_chat/protocol.py:15-24 | every message type has a code from 0 to 8 |
| Protocol.NameField | voice_chat/protocol.py:45-48 | a name field is a 2-byte length followed by the name's UTF-8 bytes |
| Protocol.Encode | voice_chat/protocol.py:30-133 | every encoding starts with its 1-byte type code; a voice frame is 1+2+name+1024 bytes; SHUTDOWN and LIST_REQUEST are 1 byte |
| Protocol.ConnectedDisconnectedDiffer | voice_chat/protocol.py:52-67 | CONNECTED and DISCONNECTED of the same name differ only in the type byte |
| Protocol.Take | voice_chat/tests.py:31-34 | `recv` returns the first `length` bytes, or all of them if fewer remain |
| Protocol.Drop | voice_chat/tests.py:31-34 | what `recv` leaves is the rest of the stream after what it returned |
| Protocol.ParseText | voice_chat/protocol.py:140-141 | reading a length-prefixed string leaves a suffix of the stream |
| Protocol.ParseVoice | voice_chat/protocol.py:139-142 | reading a voice payload leaves a suffix of the stream |
| Protocol.ParseListResponse | voice_chat/protocol.py:155-158 | reading a name-list payload leaves a suffix of the stream |
| Protocol.ParseBody | voice_chat/protocol.py:139-176 | reading a payload leaves a suffix of the stream |
| Protocol.Parse | voice_chat/protocol.py:136-176 | `get_message` leaves a suffix of the stream, and an unknown type code fails after consuming only that byte |
| Protocol.ParseTextEncoded | voice_chat/protocol.py:140-141 | a string written with a length prefix that fits is read back, with exactly its bytes consumed |
| Protocol.ParseVoiceEncoded | voice_chat/protocol.py:139-142 | an encoded voice payload is read back, with exactly its bytes consumed |
| Protocol.ParseListResponseEncoded | voice_chat/protocol.py:155-158 | an encoded name-list payload is read back, with exactly its bytes consumed |
| Protocol.ParseNamedEncoded | voice_chat/protocol.py:144-150 | an encoded CONNECTED or DISCONNECTED payload is read back, with exactly its bytes consumed |
| Protocol.ParseErrorEncoded | voice_chat/protocol.py:171-174 | an encoded CONNECTED_RESPONSE payload whose error fits 1 length byte is read back |
| Protocol.ParseRoomEncoded | voice_chat/protocol.py:160-162 | a one-byte room id is read back |
| Protocol.ParsePortEncoded | voice_chat/protocol.py:167-169 | a two-byte port is read back |
| Protocol.ParseBodyEncoded | voice_chat/protocol.py:136-174 | every well-formed payload is read back as its message, with exactly its bytes consumed |
| Protocol.ParseEncoded | voice_chat/protocol.py:136-174 | `get_message` on an encoded message followed by anything returns the message and consumes exactly its encoding |
| Protocol.Socket.constructor | voice_chat/tests.py:25-29 | the socket holds the given bytes |
| Protocol.Socket.Recv | voice_chat/tests.py:31-34 | `recv` returns the first `length` pending bytes and consumes exactly them |
| Protocol.RecvText | voice_chat/protocol.py:140-141 | the two reads of a length-prefixed string are `ParseText` on the pending bytes |
| Protocol.GetMessage | voice_chat/protocol.py:136-176 | the message or failure returned, and the bytes left unread, are those of `Parse` |
| Registry.NewProfile | voice_chat/client_manager.py:12-16 | a new profile keeps its name and address and starts in room 0 |
| Registry.GenClientId | voice_chat/client_manager.py:31-33 | ids lie in 0..2^32-1, and a draw in range is the id itself |
| Registry.ClientManager.constructor | voice_chat/client_manager.py:23-26 | no clients and no names |
| Registry.ClientManager.Get | voice_chat/client_manager.py:28-29 | the profile registered under the id (KeyError otherwise) |
| Registry.ClientManager.AddClient | voice_chat/client_manager.py:35-41 | the id is the first draw not already taken and lies in 0..2^32-1; the profile is added under it with no other entry changed; the name now points to it, replacing any earlier id |
| Registry.ClientManager.DisconnectClient | voice_chat/client_manager.py:43-45 | a registered id is removed and its socket closed, and the name map is left as it was; for an unregistered id KeyError (removed is false) with nothing changed |
| Registry.ClientManager.Send | voice_chat/room_server.py:62 | one `sendall` of the bytes to the id's socket is logged |
| Router.RecipientsAsWritten | voice_chat/room_server.py:76-85 | a dead sender reaches nobody; by day, the room members still registered; by night, for a mafia sender, the `name_id` entry of every mafia name, registered or not; by night a sender outside the mafia reaches nobody |
| Router.Recipients | voice_chat/room_server.py:76-85 | only registered ids; nobody for a dead sender; by day the room members still registered; by night, for a mafia sender, the registered ids of the mafia names |
| Router.CorrectionDropsOnlyStaleIds | voice_chat/room_server.py:81-85 | the corrected selection is the as-written one minus the ids no longer registered |
| Router.StaleMafiaIdSelected | voice_chat/room_server.py:81-85 | as written, the night selection contains the old id of a mafia member who disconnected |
| Router.StrLeTotal | voice_chat/room_server.py:71 | string order is total |
| Router.Insert | voice_chat/room_server.py:71 | inserting into a sorted list keeps it sorted and adds exactly that name |
| Router.SortNames | voice_chat/room_server.py:71 | `sorted` yields a sorted permutation of the names |
| Router.Renamed | voice_chat/room_server.py:67-68 | the frame keeps its type and voice data, and its name becomes the sender's registered name |
| Router.SendEach | voice_chat/room_server.py:57-64 | when every id is registered, the bytes are sent once to each of them and to nobody else; otherwise the lookup raises KeyError, after sends to a proper subset of the ids, all registered |
| Router.RoomServer.constructor | voice_chat/room_server.py:25-34 | an empty room by day with no dead and no mafia, no game, on port 10000 + room id |
| Router.RoomServer.RecipientsOf | voice_chat/room_server.py:76-85 | the current recipients are registered clients |
| Router.RoomServer.Broadcast | voice_chat/room_server.py:57-64 | the bytes go once to every recipient except the sender |
| Router.RoomServer.ListMembers | voice_chat/room_server.py:70-71 | the members' names, sorted, each as often as members carry it; KeyError (None) exactly when some member is no longer registered |
| Router.RoomServer.HandleMessage | voice_chat/room_server.py:66-74 | voice and presence frames are relayed under the sender's registered name; a list request is answered to the sender alone with the sorted names, or raises KeyError with nothing sent when some member is no longer registered; other frames are discarded with nothing sent; a frame that cannot be encoded sends nothing |
| Router.RoomServer.AddClient | voice_chat/room_server.py:36-42 | the id joins the room; if its name fits the 2-byte length, its arrival is relayed, it is sent the game port while a game is starting, and a launch is due exactly when the room has just reached four members and no game runs; otherwise encoding the arrival raises and nothing is sent or launched |
| Router.RoomServer.LaunchGame | voice_chat/room_server.py:44-51 | when every member is registered, each is sent the game port once and then a game is running; otherwise KeyError, with the port sent to some registered members only, the room left "starting" and no game started |
| Router.RoomServer.Finish | voice_chat/room_server.py:99-101 | afterwards no game is running |
| Router.RoomServer.RemoveClient | voice_chat/room_server.py:53-55 | the id leaves the room and its departure is relayed to those who still hear it |
| Router.RoomServer.NotifyPhase | voice_chat/room_server.py:87-88 | sets the phase and nothing else |
| Router.RoomServer.NotifyMafia | voice_chat/room_server.py:90-91 | replaces the mafia list and nothing else |
| Router.RoomServer.NotifyDead | voice_chat/room_server.py:93-94 | adds the name to the dead and nothing else |

## Left out

- Sockets, threads, gRPC and console I/O are not part of this model:
  - voice_chat/client_tcp.py, server_tcp.py, client_console.py and server_console.py;
  - the rest/ service (sqlite, Flask, PDF reports, RabbitMQ).
- `Servicer.listen_day`, `listen_night` and `build_server` are not modelled. They are blocking gRPC streams served by a thread pool. The room notifications they trigger are modelled as the `Notify*` methods.
- `RoomServer.notify_finish` is not modelled. It builds a thread that it never starts, so it has no effect.
- Router.RoomServer.AddClient: returns whether a launch is due instead of calling `launch_game`. The sleep, the server start and the window during which newcomers are told the port belong to threads and timing.
- Router.RoomServer.LaunchGame: does not model the one-second sleep or the game server it builds and starts. It records only that a game now runs.
- Router.RoomServer.Finish: does not model `wait_for_termination`.
- Router.RoomServer.Broadcast: a `sendall` that fails is caught and printed in the source. Here every send succeeds.
- The client's printing is not modelled: `print_help_text`, `start`, `play_game` and the `listen_*` loops. Client.ParseCommand returns the help text and the "Unrecognized command" messages as values.
- Converter.DecodeEncodeNames: ArrayConverter is `str()` of a Python list read back with `eval`, which has no model. The LIST_RESPONSE payload is a list of 2-byte-length-prefixed UTF-8 names instead. Only the 4-byte outer length is the source's.
- Converter.DecodeStr: decodes strict UTF-8 (no overlong forms, no surrogates). Python's error messages for bad input are not modelled; bad input becomes a failure value.
- Randomness becomes sequences of draws. Each retry loop requires that some draw succeeds, which is the condition the source needs to terminate.
- Engine.MafiaGame.constructor: requires distinct player names. With a repeated name the role map keeps one role for two seats, so the role groups no longer match the dealt deck. Since `finished` is a set, the two seats count once, and the phase can end only after a name outside the game sends FINISH, which `is_allowed` does not prevent.
- Requires exclude inputs on which the source raises KeyError or ValueError from a dictionary or list operation the model does not cover:
  - `process_command` on a command is_allowed refused;
  - `finish_phase` when the vote's winner is not a living player, which the corrected legality check rules out;
  - `remove_client` of an id that is not in the room.
- Engine.MafiaGame: the players list the servicer passes in is shared with the game in the source, so `kill` also shortens the servicer's `names`. The model copies the sequence, and `Servicer.names` keeps the original roster.
- Session.Servicer: the `day_finished` and `night_finished` fields are never read, so they are not modelled.
- Session.StartSession: tells the room who the mafia is before the queues are built; the source does it after. Neither step reads the other's state.
- SubmitDayCommand (Session.Servicer.SubmitDayCommand) uses the corrected legality check. On a later day the source accepts EXECUTE of a name that is not a player, such as "zed": it records the ballot, puts EXECUTE_VOTE on the day queue and returns no error. The model refuses it with the reason "You cannot vote for player that does not exist!", a text the source does not have. If such a name wins, the source's `finish_phase` adds it to `dead` and then raises ValueError in `players.remove`.
- SubmitNightCommand (Session.Servicer.SubmitNightCommand) uses the corrected legality check in the same way. By night the source accepts a mafia player's MURDER of a name that is not a player. The model refuses it, and so the source's ValueError in `finish_phase` is not reached.
- Broadcast (Router.RoomServer.Broadcast) sends to the corrected selection. By night, with the stale id of a mafia member who disconnected, the source sends to the recipients it visits first and then raises KeyError at `client_manager[client_id]`. The model sends to the registered ids only.
- HandleMessage (Router.RoomServer.HandleMessage) relays voice and presence frames through Broadcast, so the same stale-id KeyError of the source is not reproduced there.
- AddClient (Router.RoomServer.AddClient) relays the arrival through HandleMessage and the corrected selection. By night, with a stale mafia id, the source raises KeyError while relaying.
- RemoveClient (Router.RoomServer.RemoveClient) relays the departure through HandleMessage and the corrected selection, with the same difference at night.
- Router.Recipients: the night branch returns a list in the source and a set here. `broadcast` sends once per list entry, so a name repeated in the mafia roster would be sent to twice; the model sends once.
- Registry.Profile: the socket and the `room` update made by the console server are not modelled.

## Findings

| source | as written | input that shows it | evidently intended | confidence | as-written member | corrected member |
|---|---|---|---|---|---|---|
| mafia/game.py:73-90 | EXECUTE and MURDER never check that the suspect is a player, so a ballot for any non-dead name is allowed | on a later day with players ann, bob and cat, ann votes to execute "zed"; if all three do so, "zed" wins, `kill` adds it to `dead`, and `players.remove("zed")` raises ValueError, so the phase never ends | a ballot names nobody or a living player | not executed | Engine.IsAllowedAsWritten (shown by Engine.AsWrittenAdmitsNonPlayer and Engine.NonPlayerCanWin) | Engine.IsAllowed |
| voice_chat/room_server.py:81-85 | by night the recipients are `name_id` of every mafia name, and `name_id` keeps the id of a client that disconnected | mafia ann (id 1) and bob (id 2); bob disconnects; ann speaks at night; id 2 is selected and `client_manager[2]` raises KeyError in `broadcast` | only ids still registered, as the day branch filters | not executed | Router.RecipientsAsWritten (shown by Router.StaleMafiaIdSelected) | Router.Recipients |
