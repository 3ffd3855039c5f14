# Robots: a verified model of the game, its server threads and its wire protocol

The repository is a multiplayer Bomberman: a server that plays one game after the other, and clients
that keep a replica of the game and rebuild it from the events the server sends. This project models
the parts that have to fit together for a client to show the right game, and proves that they do, or
exactly when they do.

**The game and its replica** (`Types`, `Blast`, `Engine`, `Game`, `Replica`, `Fuse`, `History`, `Rules`).
`GameServer` computes a turn and reports it as events; `GameClient` replays the events. The two do
different work: the server clears its explosions for every bomb and removes blocks itself, the client
accumulates explosions, recomputes the rays and buffers destroyed blocks. The classes in `Game` are
written as the source writes them, with loops over maps whose order is arbitrary, and are proved
against functions on values in `Engine`; the theorems are about those functions. Timers and radius
counters are 16 bits wide, bomb ids and scores 32; every wrap is written out. The random generator is
an arbitrary stream of naturals. `Rules` says what those functions amount to, cell by cell and event by
event, in terms of the state before a turn and without them.

**The wire** (`Wire`, `Codec`, `Layout`, `Streams`, `Handler`, `Messages`). Serialisers and parsers on bytes with
their round trips, then whole streams, then the handler: a receive deque filled by chunks of any size,
in-place byte-order conversion, partial sends, and the reading and writing loops on top of it. Integers
travel in network byte order (RFC 791, Appendix B). `Layout` determines the bytes of every message and
GUI packet from the list of its fields, apart from the parsers.

**The threads** (`Containers`, `Protocol`, `ProtocolProof`, `Growth`, `Origin`, `OutStream`, `Order`,
`Server`). The three shared containers are classes; the main thread, one in-thread and one
out-thread per client form a transition system in which every critical section is one step and a wait
is a step that is enabled only when its condition holds. The containers are replaced for every game
while threads may still hold old ones. History fields of the model (the states the game went through,
who owns which id, every write) state what the code promises about them.

**The client** (`ClientFsm`, `Gui`). The lobby and game loops, the packets they send to the GUI with
their layout and sizes, and the send buffer of 65536 bytes (`src/config/config.h:17`) that a packet has
to fit into.

`EndToEnd` and `Watch` put the parts together. `Witness`, `Exact` and `Overflow` build runs: they show
that the conditions below are not only sufficient but exact, and that a client can be stopped by its
own GUI.

## What the theorems assume

- Both board sizes are positive (`Settings.Playable`): `src/game_logic/game.cpp:197-198` reduces random
  numbers modulo the sizes.
- No theorem about the clients excludes a `game_length`. What the code promises depends on it, because
  the turn counter of `src/server.cpp:145` is 16 bits wide and is compared with `game_length + 1`: the
  loop has an end if and only if `game_length` is not 65535. `Exactness.StreamShapeExactly` proves that
  every stream has its shape in every reachable state if and only if `game_length` is at most 65534,
  `Ordering.GreetingKeepsItsWord` says the same of the messages in terms of the greeting alone, and
  `Exactness.ClientShowsServerExactly` that every client shows the server's game if and only if
  `game_length` is at most 65534 or there are no players. These settings are called steady
  (`EndToEnd.Steady`); with any others a run exists in which a client that has shown the last turn is sent
  turn 0 of the same game again.
- A client ends when the packet for a shown state does not fit into its buffer
  (`src/network/network_handler.h:250-253`) or is refused by the network because of its size.
  `ClientFsm.ServerClientGuiStream` proves exactly when; `Watching.GuiBound` is a bound computed from the
  settings under which it never happens, and `Overflow.GuiOverflows` gives boards on which it does.
- `bomb_timer` may be 0: the first decrement wraps, the fuse is then 65536 turns, longer than any game.
  Replica agreement is not affected.
- Strings may be longer than 255 bytes; what arrives is their first 255 bytes, and messages survive
  unchanged if and only if no string is longer.

## Model

| member | source | states |
|---|---|---|
| `EndToEnd.ClientShowsServer` | src/client.cpp:47-95 | main theorem: in every run of the server, for every session and whatever part of its byte stream has arrived, the client has decoded exactly the messages that arrived whole, rejects none of them, and after the last one its state reflects the server: its players, its lobby, the turn it got and the scores of GameEnded are those of the game they came from and, if the settings are steady, after turn i of game v its replica is the server state after turn i of game v |
| `Exactness.ClientShowsServerExactly` | src/server.cpp:145-149 | for all settings: every client, after every part of its stream, in every reachable state, shows the server's world of the last turn it got, if and only if game_length is at most 65534 or there are no players |
| `Exactness.StreamShapeExactly` | src/server.cpp:117-163 | for all settings: in every reachable state every client's stream is Hello, then whole blocks of finished games with strictly increasing versions, each block taken from one version (players none or all in order, GameStarted, turns 0..game_length, GameEnded), then the part already sent of one later game, if and only if game_length is at most 65534 |
| `Exactness.CounterWraps` | src/server.cpp:145-149 | with game_length 65535, whatever the other settings and the random numbers, a run leads to a client that was sent turns 0..65535 of a game and then turn 0 of the same game |
| `Watching.Watch` | src/client.cpp:47-101 | the client's own loops, run on whatever part of a stream of any reachable server has arrived, end in two ways only: because the stream stops, or because a packet for the GUI is too big, which happens if and only if some state shown after a decoded message exceeds the limit, and never if the settings are steady and satisfy the bound; if the last message read is a turn and the settings are steady, the game object shows the server's world after it |
| `Watching.NothingTooBig` | src/network/network_handler.h:249-253 | for steady settings: if the bound computed from them (players, name, board, players times fuse) is within the limit, no state shown after any message of a reachable stream is too big |
| `Watching.FrameBound` | src/network/messages.cpp:359-444 | for steady settings no lobby or game packet shown for a reachable stream is larger than that bound |
| `Watching.GameBound` | src/network/messages.cpp:390-444 | the same for the packet of a game after any of its turns: at most a full board of blocks and of explosions, and as many bombs as can be live |
| `Overflow.GuiOverflows` | src/network/network_handler.h:250-253 | on every board with at least 16384 cells and at least as many initial blocks a run exists in which a client that has read Hello, GameStarted and turn 0 of a well-formed stream ends because of its GUI |
| `Overflow.BlocksEverywhere` | src/network/network_handler.h:250-253 | for instance 60000 initial blocks on a board of 200 by 200 |
| `Ordering.GreetingKeepsItsWord` | src/network/messages.cpp:127-135 | for all settings: in every reachable state every stream that has begun greets with the configured name, players, board, game length, radius and timer; every message after that follows one it may follow; every game that ends holds exactly the turns 0..gameLength of the greeting and a start message with its number of players, and no turn names a position off the greeting's board; all this if and only if game_length is at most 65534 |
| `Ordering.AnnouncedWhenLooked` | src/server.cpp:133-139 | in every run the players of a game are listed to a client before its start message exactly if the game had not started when the client's thread looked |
| `Origins.PlayersAreWhoTheySay` | src/server.cpp:86-97 | in every run every player of every registry carries the address of the session that owns his id and the name of the Join this session had read and was working on when it was admitted, the version having been the shared one in between |
| `Origins.MovesAreWhatTheySay` | src/server.cpp:101-107 | in every run every accepted write is the message its session had read and was working on, and since it was read the version was the shared one and a game was on at some moment |
| `Origins.OneMoveEach` | src/server.cpp:69-108 | no message is written twice, and the messages of a session are written in the order in which they were read |
| `Origins.CurrentMessage` | src/server.cpp:70-84 | the message an in-thread works on is the last one it read, and what it relies on it has looked up since |
| `Witness.ReportExists` | src/game_logic/game.cpp:369-425 | whatever the state and the moves, there is a message that reports the turn, so the main thread is never stuck |
| `Witness.PlayAll` | src/server.cpp:198-227 | for all settings with at least one turn there is a run in which all players join and all turns are played, with a bomb on the board after the last one if there is a player |
| `EndToEnd.ClientsFollow` | src/server.cpp:117-163 | the same message by message, as an invariant of every interleaving and for every game length, including clients that connect in the middle of a game or skip games; the players a lobby has listed when a game starts are none or exactly those of the start message |
| `EndToEnd.ArrivedIsShown` | src/network/message_manager.cpp:6-28 | for one stream: any part of its bytes shows the client the state that belongs to the last whole message |
| `EndToEnd.TurnEffect` | src/game_logic/game.cpp:114-136 | the next turn of a game brings a client that mirrors the previous one to mirror this one; without players this holds for the turn 0 that is sent again too; the turn carries its own number and can be sent |
| `EndToEnd.TurnFits` | src/network/messages.cpp:82-97 | no turn of any game exceeds the 32-bit length fields: serialising a turn never throws |
| `EndToEnd.ExplosionFits` | src/game_logic/game.cpp:243-278 | one explosion event lists at most 256 players and at most 4 blocks |
| `ClientFsm.ServerClientGuiStream` | src/client.cpp:47-101 | for any byte stream in any chunks: the client ends because of its GUI if and only if some state shown after a decoded message exceeds the limit, at the first one, and otherwise as the messages say (forbidden message, unknown tag, end of stream); the GUI was sent exactly one packet for each shown state, in order; the last lobby or game object holds the state those messages produce |
| `ClientFsm.ClientMeaning` | src/client.cpp:47-95 | for any messages: the client has failed exactly if it was sent one it does not take (no greeting first, or anything but players and a start between games); otherwise it is in a game exactly if the last start or end message is a start, lists the players accepted since the last end, first entry of an id kept, and holds the replay of the turns since the start |
| `ClientFsm.EndedMeans` | src/client.cpp:97-100 | each way the loops can stop determines the ending: too big a state excludes a refused message before it, and without one the ending is that of the whole stream |
| `ClientFsm.WaitInLobby` | src/client.cpp:59-76 | the lobby is shown when it opens and after every accepted player, collects players until a game starts, refuses everything else, and stops at the first packet that is too big |
| `ClientFsm.FollowGame` | src/client.cpp:82-94 | turns are replayed and shown, other messages ignored, until the game ends or a packet is too big |
| `ClientFsm.SendState` | src/network/message_manager.cpp:89-95 | the packet shows the game's positions, blocks, bombs, explosions and scores and goes out exactly if it fits |
| `ClientFsm.ShowLobby` | src/network/message_manager.cpp:81-87 | after the call the GUI is up to date with the lobby, or the client ends because of it |
| `Gui.SendLobby` | src/network/message_manager.cpp:81-87 | one datagram with exactly the layout of the lobby message goes out if and only if its size is within the limit; otherwise nothing goes out |
| `Gui.SendGame` | src/network/message_manager.cpp:89-95 | the same for the game message |
| `Gui.LobbyIs` | src/network/messages.cpp:359-388 | the size of a lobby packet: the fixed fields, and 3 bytes and both strings for each player |
| `Gui.GameIs` | src/network/messages.cpp:390-444 | the size of a game packet: the fixed fields, the players, 5 bytes for each position and score, 4 for each block and explosion, 6 for each bomb |
| `Gui.UDPHandler.AppendToOutcomingPacket` | src/network/network_handler.h:248-260 | the big-endian bytes of an element are appended if and only if they fit into the 65536 bytes of the buffer, whatever the host's byte order |
| `Gui.UDPHandler.FlushOutcomingPacket` | src/network/network_handler.cpp:257-267 | the packet goes out as one datagram and the buffer is empty, unless the network refuses the size |
| `Gui.AppendString` | src/network/messages.cpp:49-62 | a string's bytes, cut at 255, are appended if and only if they fit |
| `Gui.AppendPlayers` | src/network/messages.cpp:64-80 | the players' bytes are appended in ascending order of ids if and only if they fit |
| `Gui.AppendPlaces` | src/network/messages.cpp:64-80 | the same for the positions |
| `Gui.AppendScores` | src/network/messages.cpp:64-80 | the same for the scores |
| `Gui.AppendPositions` | src/network/messages.cpp:82-97 | the bytes of a vector of positions are appended if and only if they fit, however long the vector is |
| `Gui.AppendBombs` | src/network/messages.cpp:82-97 | the same for bombs |
| `Game.GameClient.GetGameState` | src/game_logic/game.cpp:138-168 | the message lists every block, bomb and explosion once, in any order, with the positions, scores and turn number of the game |
| `OutStream.OutStable` | src/concurrency/turn_container.cpp:3-39 | what other threads do meanwhile never changes the meaning of what was sent |
| `OutStream.CurrentIsFresh` | src/server.cpp:232-236 | all finished games are older than the shared one, because the reset comes before the finish mark: a thread that has sent a game never picks it up again |
| `OutStream.Completed` | src/server.cpp:151-155 | the end message completes a block and the visit it adds is newer than all earlier ones |
| `OutStream.TurnLoopIsEndless` | src/server.cpp:145 | the 16-bit turn counter satisfies the loop condition for every value exactly when game_length is 65535 |
| `OutStream.EndlessGame` | src/server.cpp:145-155 | with game_length 65535 no client is ever sent GameEnded, in any run |
| `Growth.StaleJoinsAreHarmless` | src/server.cpp:73-97 | a Join the registry accepts always reaches the current game before its start, from a session without an id in it, however stale the session's pointers are |
| `Growth.SupersededIsComplete` | src/server.cpp:210-236 | every superseded game has all its players, all its turns and, once marked, the scores of its last turn |
| `Growth.SupersededNeverWaits` | src/server.cpp:117-156 | in every reachable state an out-thread at a superseded game can take its next step, if and only if it does not wait for the scores the main thread is about to publish |
| `Growth.IdsBelongToOneSession` | src/concurrency/accepted_player_container.cpp:17-31 | the ids of a game are 0..k-1, each issued to a different session, and a session that believes it has joined holds exactly the id it believes it has |
| `Growth.MovesComeFromOwners` | src/server.cpp:101-106 | in every run every accepted write of a slot came from the session that was issued the slot's id and is no Join, and each snapshot the game used shows in each slot the last write since the snapshot before it |
| `Growth.SnapshotDelivers` | src/concurrency/move_container.cpp:10-33 | a slot of the t-th snapshot is flagged if and only if it was written between snapshots t-1 and t, and then shows the last of these writes, which came from the owner of the slot |
| `Growth.NoThreadThrows` | src/concurrency/move_container.cpp:23-33 | update_slot never throws, in any run: no in-thread ends for lack of a slot |
| `Growth.RunGrows` | src/server.cpp:31-38 | over any stretch of a run registries, turn logs, snapshots and ownership only grow, full registries and finished games never change |
| `Growth.StepGrows` | src/server.cpp:31-38 | the same for one step |
| `ProtocolProof.RunKeeps` | src/server.cpp:191-243 | the invariant of the threads (what each program point knows about current and superseded games) holds in every state of every run |
| `ProtocolProof.StepKeeps` | src/server.cpp:51-163 | every step of every thread keeps that invariant |
| `ProtocolProof.OpenIsCurrent` | src/server.cpp:210-216 | a registry that still accepts players is the shared one and its game has not started |
| `ProtocolProof.UpdateNeverThrows` | src/server.cpp:101-106 | a session about to write holds an id that is a slot of the container it writes to |
| `ProtocolProof.LongerTrace` | src/server.cpp:222-226 | a game extended by a turn computed from its last state is again a game |
| `ProtocolProof.ResetKeeps` | src/server.cpp:31-38 | replacing the containers leaves a complete game behind and opens an empty one |
| `ProtocolProof.FinishKeeps` | src/server.cpp:235-236 | marking the game as finished publishes the scores of its last turn |
| `Server.PlayGame` | src/server.cpp:218-236 | the main loop over one game logs exactly the turns of a valid game whatever moves are written meanwhile, and marks it finished with the last state's scores |
| `Server.HandleMessage` | src/server.cpp:80-107 | one message of an in-thread: a Join from a session not known in this version registers it under the next id unless the game is full, any other message from a known session of a started game goes into its slot, everything else changes nothing; it throws only for a slot that does not exist |
| `Server.SendPlayersJoined` | src/server.cpp:135-138 | the announcements of the players 0..n-1 go out, n being the first that has not joined |
| `Server.SendTurnsPlayed` | src/server.cpp:145-149 | the turns before the first one not available yet go out, each once and in order |
| `Server.SendGame` | src/server.cpp:126-155 | one pass of the out-thread sends exactly the part of the game its counter stands for in the transition system, up to the first wait that is not satisfied, or the whole game with its scores |
| `Rules.TurnByTheRules` | src/game_logic/game.cpp:369-425 | every turn of every game: explosions first, then each player's part in ascending order of ids; the new blocks, bombs, cursor and bomb counter, all in terms of the state before the turn, the snapshot and the random numbers |
| `Rules.MoveRule` | src/game_logic/game.cpp:319-361 | a player who asks for a direction goes to the cell above, right, below or left exactly if it lies on the board and is neither a block of the state before nor placed earlier in the turn by a player before him; otherwise he stays; his PlayerMoved is in the message exactly if he moved |
| `Rules.StayRule` | src/game_logic/game.cpp:409-417 | a player without a fresh message, or with a Join, PlaceBomb or PlaceBlock, stays and no PlayerMoved names him |
| `Rules.RespawnRule` | src/game_logic/game.cpp:396-407 | a player some explosion lists comes back at draws(c + 2j) mod size_x, draws(c + 2j + 1) mod size_y, j being the number of listed players before him; exactly one PlayerMoved names him, with that cell; two numbers are drawn for each listed player |
| `Rules.BlockRule` | src/game_logic/game.cpp:302-317 | a BlockPlaced names a cell exactly if it was free and a player there asked for a block; a cell is a block after the turn exactly if it was one or was named, and was not destroyed |
| `Rules.BombRule` | src/game_logic/game.cpp:284-300 | a player who asks for a bomb leaves one with timer bomb_timer on his cell, under the next id after those of the bombers before him, and a BombPlaced says so |
| `Rules.ExplosionRule` | src/game_logic/game.cpp:243-278 | exactly the bombs with timer 1 explode; each event lists exactly the players and the blocks of the state before the turn that are in line with the bomb, within explosion_radius and with no block in between, players ascending, blocks once |
| `Rules.ExplosionsShown` | src/game_logic/game.cpp:73-90 | a client that mirrors the turn shows an explosion on exactly the cells some bomb with timer 1 strikes |
| `Rules.FirstTurnRule` | src/game_logic/game.cpp:189-219 | turn 0 puts and reports player i at random numbers 2i and 2i + 1 and initial block b at 2n + 2b and 2n + 2b + 1, in this order, and nothing else |
| `Rules.PhaseActs` | src/game_logic/game.cpp:394-418 | the players acting one after the other on a changing state is the same as every player's rule applied to the state they all started from |
| `Rules.MessagesStayOnBoard` | src/game_logic/game.cpp:189-425 | no event of any turn names a position off the board |
| `History.ReplayMeaning` | src/game_logic/game.cpp:64-136 | what a client makes of any turn message, from its own server or not: blocks, scores, the last move of each player it knows, and which bombs are live |
| `ReplicaProof.ReplicaAgreement` | src/game_logic/game.cpp:114-136 | for all settings, random streams, move snapshots and explosion orders a client that applied turns 0..k has the server's positions, blocks, bombs with timers, scores and turn number |
| `ReplicaProof.TurnAgrees` | src/game_logic/game.cpp:369-425 | one turn keeps client and server together; the client's explosion set is the union of the server's blasts, its destroyed players those on a struck cell at the start of the turn, its destroyed blocks the struck blocks |
| `ReplicaProof.BombOrderIsIrrelevant` | src/game_logic/game.cpp:383-392 | two reports of the same turn with bombs walked in different orders differ only in the order of their explosions and drive a client to the same state, explosions included |
| `ReplicaProof.ExplosionsAgree` | src/game_logic/game.cpp:73-90 | any order of explosion events has the effect of the set of exploded bombs |
| `ReplicaProof.PhaseAgrees` | src/game_logic/game.cpp:394-418 | replaying the players' events reproduces their moves, respawns, bombs and blocks |
| `ReplicaProof.InitAgrees` | src/game_logic/game.cpp:189-219 | turn 0 brings a new client, whatever its uninitialised turn field holds, to the server's first state |
| `ReplicaProof.InitState` | src/game_logic/game.cpp:170-219 | the first state has the players 0..n-1 with score 0, no bombs, turn 0 |
| `ReplicaProof.IdleGame` | src/game_logic/game.cpp:369-425 | in a game without players nothing but the turn number ever changes |
| `ReplicaProof.RestartAgrees` | src/game_logic/game.cpp:114-136 | so a client that is sent turn 0 again after such a game is back at the first state |
| `Blasts.BlastMembership` | src/game_logic/game.cpp:29-35 | a cell is struck exactly if it is the bomb's, or on the board in one line with it within the radius with no block on the cells before it |
| `Blasts.BlastDestroysAtMostFour` | src/game_logic/game.cpp:254-262 | a bomb destroys at most 4 blocks, and strikes only its own cell if that cell is blocked |
| `Blasts.RayHitsOneBlock` | src/game_logic/game.cpp:10-26 | a ray destroys at most one block |
| `Blasts.BlastOnBoard` | src/game_logic/game.cpp:10-17 | every struck cell lies on the board |
| `Blasts.CenterIsHit` | src/game_logic/game.cpp:29-35 | a bomb on the board strikes its own cell |
| `Game.Game.ExplodeOneDirection` | src/game_logic/game.cpp:5-27 | the loop adds exactly the cells of the ray and terminates |
| `Game.CounterFits` | src/game_logic/game.cpp:25 | the board ends before the 16-bit radius counter can wrap, at any radius |
| `Game.RayStep` | src/game_logic/game.cpp:17-22 | one step adds the k-th cell of the ray, and a blocked cell completes it |
| `Game.Game.FindExplosions` | src/game_logic/game.cpp:29-35 | the four rays together add the blast of the bomb |
| `Game.Game.DecreaseBombTimers` | src/game_logic/game.cpp:37-41 | every timer goes down by one in 16 bits, whatever the order of the map |
| `Game.Game.UpdateScores` | src/game_logic/game.cpp:105-112 | every destroyed player's score goes up by one in 32 bits, nobody else's |
| `Game.Game.EraseDestroyedBlocks` | src/game_logic/game.cpp:363-367 | exactly the destroyed blocks disappear |
| `Game.GameClient.constructor` | src/game_logic/game.cpp:43-62 | a new client game has every announced player in the corner with score 0, and an arbitrary turn number |
| `Game.GameClient.ApplyOneEvent` | src/game_logic/game.cpp:64-103 | the four event handlers: a known bomb id keeps its bomb, unknown bombs and players are ignored |
| `Game.GameClient.ApplyTurnMessage` | src/game_logic/game.cpp:114-136 | the whole turn is the replay of its events with block removal and scoring at the end |
| `Game.GameServer.constructor` | src/game_logic/game.cpp:170-187 | a new server game has no players on the board and score 0 for each id |
| `Game.GameServer.Init` | src/game_logic/game.cpp:189-219 | the game starts in the first state and reports it completely |
| `Game.GameServer.IsPositionLegal` | src/game_logic/game.cpp:221-241 | true exactly if the move stays on the board and its target is no block |
| `Game.GameServer.HandleExplodingBomb` | src/game_logic/game.cpp:243-278 | the event lists exactly the players and blocks the bomb strikes, without changing the world; the turn's sets grow by them |
| `Game.GameServer.ExplodeDueBombs` | src/game_logic/game.cpp:383-392 | one event for each due bomb in some order, exactly the due bombs disappear, the turn's sets are what their blasts strike |
| `Game.GameServer.ApplyPlayerMove` | src/game_logic/game.cpp:280-361 | each kind of move has the state and events of the engine's function, whose meaning `Rules.MoveRule`, `Rules.BlockRule` and `Rules.BombRule` state |
| `Game.GameServer.ActPlayer` | src/game_logic/game.cpp:394-418 | a destroyed player respawns, any other gets its fresh move, as `Rules.RespawnRule` and `Rules.StayRule` describe |
| `Game.GameServer.ActPlayers` | src/game_logic/game.cpp:394-418 | all players act in ascending order |
| `Game.GameServer.ApplyMoves` | src/game_logic/game.cpp:369-425 | the new state is a function of the old one and the snapshot, independent of the order of the bombs, and the message is a report of exactly this turn |
| `Game.GameServer.GetScoreMap` | src/server.cpp:229 | the scores of the current state |
| `Fuses.ExactFuse` | src/game_logic/game.cpp:381-392 | the bomb placed in turn p explodes in turn p plus its fuse and in no other; the fuse is bomb_timer, or 65536 if that is 0 |
| `Fuses.LiveSpan` | src/game_logic/game.cpp:37-41 | it is live after exactly the turns from p until its fuse has burnt, with the timer of its age |
| `Fuses.ExplosionWasPlaced` | src/game_logic/game.cpp:383-392 | every explosion was placed one fuse earlier |
| `Fuses.PlacedOnce` | src/game_logic/game.cpp:292-298 | bomb ids never repeat in a game |
| `Fuses.LiveBombBounds` | src/game_logic/game.cpp:37-41 | with bomb_timer at least 1 live timers are in 1..bomb_timer; at most one bomb per player shows the same timer; live bombs are at most players times fuse; the id counter is at most players times turn |
| `Fuses.ReportSizes` | src/game_logic/game.cpp:369-425 | turn 0 has players plus initial blocks events, a later turn at most two per player and at most one explosion per player |
| `Fuses.ReportedBombs` | src/game_logic/game.cpp:284-300 | a turn reports as placed exactly the ids issued in it and as exploded exactly those issued one fuse earlier |
| `Fuses.ZeroTimerNeverExplodes` | src/game_logic/game.cpp:39 | a bomb_timer of 0 wraps and no bomb explodes within any game |
| `History.ScoreMeaning` | src/game_logic/game.cpp:105-112 | a score is the number of turns with an explosion that lists the player, so at most the turn number; each such turn holds exactly one PlayerMoved for that player |
| `History.BlockConservation` | src/game_logic/game.cpp:302-317 | the number of blocks is the distinct initial ones plus BlockPlaced events minus distinct destroyed positions, turn by turn; destroyed cells were blocks when the turn began and are not placed in it |
| `History.TurnReads` | src/game_logic/game.cpp:394-422 | one turn read from its report: who was hit, what was destroyed, what was placed, the new blocks, scores and turn number |
| `History.BoardInvariant` | src/game_logic/game.cpp:189-219 | after every turn all players, blocks and bombs lie on the board |
| `History.LegalMoveMeaning` | src/game_logic/game.cpp:221-241 | the guard of a move holds exactly if there is a free cell on the board one step away in that direction |
| `History.TurnNumbers` | src/game_logic/game.cpp:422 | state and message number k of a game carry turn number k |
| `Containers.SnapshotShowsPending` | src/concurrency/move_container.cpp:10-33 | after any interleaving of updates and snapshots a slot is flagged exactly if an update of it is pending, and then shows the last one |
| `Containers.DeliveredOnce` | src/concurrency/move_container.cpp:10-21 | no update is delivered by two snapshots and no snapshot delivers two updates of a slot |
| `Containers.MoveContainer.constructor` | src/concurrency/move_container.cpp:3-8 | n slots without a move |
| `Containers.MoveContainer.AtomicSnapshotAndClear` | src/concurrency/move_container.cpp:10-21 | returns the slots as they were and clears every flag, keeping the moves |
| `Containers.MoveContainer.UpdateSlot` | src/concurrency/move_container.cpp:23-33 | sets and flags one slot, or reports an invalid slot and changes nothing |
| `Containers.TurnContainer.AppendNewTurn` | src/concurrency/turn_container.cpp:3-10 | the log grows by the turn |
| `Containers.TurnContainer.GetTurn` | src/concurrency/turn_container.cpp:12-20 | the turn once it is available |
| `Containers.TurnContainer.ReturnWhenGameFinished` | src/concurrency/turn_container.cpp:22-29 | the scores once the game is marked |
| `Containers.TurnContainer.MarkTheGameAsFinished` | src/concurrency/turn_container.cpp:31-39 | publishes the scores |
| `Containers.AcceptedPlayerContainer.AddNewPlayer` | src/concurrency/accepted_player_container.cpp:17-31 | rejects exactly when full, otherwise adds exactly the given player under the next id, which was free, and returns it |
| `Containers.AcceptedPlayerContainer.ReturnWhenTargetPlayersJoined` | src/concurrency/accepted_player_container.cpp:6-15 | the players once the registry is full, with exactly the ids 0..n-1 |
| `Containers.AcceptedPlayerContainer.GetAcceptedPlayer` | src/concurrency/accepted_player_container.cpp:33-49 | refuses ids that can never exist, otherwise the player once registered |
| `Containers.JoinKeepsRegistered` | src/concurrency/accepted_player_container.cpp:24-30 | joining keeps the ids 0..k-1 without gaps and never exceeds the target |
| `Layout.ServerLayout` | src/network/message_manager.cpp:120-143 | bytes are the serialisation of a message from the server if and only if they are its fields one after the other: code, numbers of the given widths in network byte order, strings with their length, vectors and maps with their size, maps in ascending order of keys |
| `Layout.ClientLayout` | src/network/message_manager.cpp:59-75 | the same for messages from a client |
| `Layout.LobbyLayout` | src/network/messages.cpp:359-388 | the same for the lobby packet of the GUI |
| `Layout.GameLayout` | src/network/messages.cpp:390-444 | the same for the game packet of the GUI |
| `Layout.ServerOffsets` | src/network/messages.h:256-263 | where everything stands in a message from the server: codes 0 to 4 in byte 0, every fixed field of Hello, AcceptedPlayer and Turn at its offset, the sizes of maps and vectors, every event at its offset |
| `Layout.EventIsAt` | src/network/messages.cpp:240-296 | an event begins with its code 0 to 3; id, player and position follow at fixed offsets, x before y; robots and blocks follow their numbers, one and four bytes apart |
| `Layout.PositionOffsets` | src/network/messages.cpp:235-238 | a position is 4 bytes, x in bytes 0 and 1, y in bytes 2 and 3 |
| `Layout.VectorOffsets` | src/network/messages.cpp:82-97 | a vector spells its length in 4 bytes and then its elements, those of k bytes each k apart |
| `Layout.MapOffsets` | src/network/messages.cpp:64-80 | a map spells its size in 4 bytes and then its entries in ascending order, each key in a byte before its value |
| `Layout.PlayerEntryOffsets` | src/network/messages.cpp:208-219 | an entry of the player map: a byte for the id, the name, the address |
| `Layout.ScoreEntryOffsets` | src/network/messages.cpp:341-352 | entry j of the score map at 5j: a byte for the id, four for the score |
| `Layout.LaidIsRead` | src/network/message_manager.cpp:6-28 | whoever reads bytes laid out as the fields of a message, whatever follows, gets that message, strings cut at 255 bytes, and leaves what follows |
| `Layout.LaidClientIsRead` | src/network/message_manager.cpp:99-118 | the same for messages from a client |
| `Codec.FirstWins` | src/network/messages.cpp:8-21 | a map read from entries has a key exactly if some entry has it, with the value of the first such entry |
| `Codec.ServerRoundTrip` | src/network/message_manager.cpp:120-143 | parsing a serialised server message followed by anything returns the message, strings cut at 255 bytes, and leaves exactly what followed |
| `Codec.ClientRoundTrip` | src/network/message_manager.cpp:59-75 | the same for client messages |
| `Codec.NormIsExact` | src/network/messages.cpp:49-62 | a message survives unchanged exactly if all its strings have at most 255 bytes |
| `Codec.EventRoundTrip` | src/network/messages.cpp:240-315 | events with their nested vectors survive the wire |
| `Codec.TurnRoundTrip` | src/network/messages.cpp:317-333 | turns survive the wire |
| `Codec.PlayersRoundTrip` | src/network/messages.cpp:200-219 | the player map is rebuilt from its entries |
| `Codec.ScoresRoundTrip` | src/network/messages.cpp:335-352 | the score map is rebuilt from its entries |
| `Codec.HelloRoundTrip` | src/network/messages.cpp:137-161 | the greeting survives the wire, its name cut |
| `Codec.PlayerRoundTrip` | src/network/messages.cpp:163-188 | players survive the wire, their strings cut |
| `Codec.ClientParseIsExact` | src/network/message_manager.cpp:99-118 | bytes that parse as a client message are exactly that message's serialisation and the rest |
| `Codec.StringParseIsExact` | src/network/messages.cpp:37-47 | bytes that parse as a string are exactly its serialisation and the rest |
| `Wire.StringRoundTrip` | src/network/messages.cpp:37-62 | a string comes back cut at 255 bytes |
| `Wire.VectorRoundTrip` | src/network/messages.cpp:24-35 | a vector of elements that come back comes back |
| `Wire.IntRoundTrip` | src/network/network_handler.cpp:52-78 | big-endian integers of any width come back |
| `Streams.PrefixDecodes` | src/network/network_handler.cpp:155-170 | any part of a stream decodes to exactly the messages that arrived whole, less than one message is left over and nothing is rejected |
| `Streams.StreamRoundTrip` | src/network/message_manager.cpp:120-143 | a whole stream decodes to its messages and leaves nothing |
| `Streams.ClientStreamRoundTrip` | src/network/message_manager.cpp:59-75 | the same for the client's stream |
| `Streams.UniqueDecoding` | src/network/message_manager.cpp:6-28 | equal byte streams carry equal messages |
| `Streams.ServerStable` | src/network/message_manager.cpp:6-28 | a verdict on a server message is final: later bytes do not change it |
| `Streams.ClientStable` | src/network/message_manager.cpp:99-118 | the same for client messages |
| `Handler.TCPHandler.ReadElement` | src/network/network_handler.h:203-218 | the next n bytes as a big-endian number, whatever the chunks and the host's byte order; consumed exactly, or nothing if the peer left too early |
| `Handler.TCPHandler.SendElement` | src/network/network_handler.h:220-229 | exactly the big-endian bytes go out, whatever the host's byte order and however sends are split |
| `Handler.TCPHandler.ReturnWhenNBytesInDeque` | src/network/network_handler.cpp:155-170 | receiving loses, adds and reorders nothing, and fails exactly if the peer sent too few bytes |
| `Handler.TCPHandler.SendNBytes` | src/network/network_handler.cpp:172-183 | partial sends add up to exactly the bytes |
| `Handler.ConvertByteOrder` | src/network/network_handler.cpp:18-78 | in place, the first n bytes are reversed on a little-endian host and nothing else changes; other widths are refused |
| `Handler.SwappedValue` | src/network/network_handler.cpp:18-44 | reading reversed network bytes in host order gives the big-endian number |
| `Handler.SwappedBytes` | src/network/network_handler.cpp:52-78 | reversing host bytes gives the big-endian bytes |
| `Messages.ReadServerMessage` | src/network/message_manager.cpp:6-28 | reading from the handler gives the parser's verdict on the pending bytes and leaves the parser's rest; on bytes laid out as a message that is the message (`Layout.LaidIsRead`) |
| `Messages.ReadClientMessage` | src/network/message_manager.cpp:99-118 | the same for client messages |
| `Messages.ReadString` | src/network/messages.cpp:37-47 | the string loop agrees with the parser |
| `Messages.ReadEvent` | src/network/messages.cpp:300-315 | the event dispatch agrees with the parser |
| `Messages.ReadManyEvents` | src/network/messages.cpp:24-35 | the vector loop agrees with the parser |
| `Messages.ReadManyPlayers` | src/network/messages.cpp:8-21 | the map loop agrees with the parser; a repeated key keeps its first value |
| `Messages.ReadManyScores` | src/network/messages.cpp:8-21 | the same for scores |
| `Messages.ReadTurn` | src/network/messages.cpp:317-320 | reading a turn agrees with the parser |
| `Messages.ReadHello` | src/network/messages.cpp:137-145 | reading a greeting agrees with the parser |
| `Messages.SendServerMessage` | src/network/message_manager.cpp:120-143 | exactly the serialisation goes out, whose bytes `Layout.ServerLayout` determines, and sending fails exactly if a vector is too long for its length field |
| `Messages.SendClientMessage` | src/network/message_manager.cpp:59-75 | exactly the serialisation goes out |
| `Messages.SendString` | src/network/messages.cpp:49-62 | at most 255 bytes go out, after their number |
| `Messages.SendEvents` | src/network/messages.cpp:82-97 | the vector loop sends exactly the vector's serialisation, or refuses it if it is too long |
| `Messages.SendTurn` | src/network/messages.cpp:322-333 | exactly the turn's serialisation goes out, or the turn is refused |
| `Messages.SendPlayers` | src/network/messages.cpp:64-80 | the map loop sends exactly the map's serialisation, in ascending order of keys |
| `Messages.SendScores` | src/network/messages.cpp:64-80 | the same for scores |

## Left out

- Sockets, address resolution, Nagle settings, the connection acceptor and peer names: system calls. The network is a sequence of bytes delivered in chunks of any size; a session's address is an arbitrary string.
- Command-line parsing (`src/config/parser.cpp`): the settings are an input.
- Condition variables, mutexes and sleeping: steps are atomic and a wait is a step that is not enabled yet. The theorems are about safety; that a thread eventually moves on, or how fast, is not stated.
- Connection failures and messages on stderr: a failed thread takes no more steps, which the theorems about arbitrary moments and arbitrary parts of a stream cover.
- The generator's formula and its seed: every game of a server sees the same arbitrary stream of numbers.
- Hashing and the layout of unordered containers: sets and maps walked in arbitrary order.
- What the GUI sends to the client: `guiClientServerStream`, `read_gui_message`, receiving UDP packets and `join_sent`. This thread shares only the lobby/game flag with the loops modelled here, and decides only which messages the server receives; the server's theorems hold for any.
- Inheritance of `GameServer` and `GameClient` from `Game`: both hold a `Game` object instead, which has the same fields and methods.
- The number of games is unbounded; the source counts versions in a `size_t`, which wraps after 2^64 games.
- Handler.TCPHandler.Send: does not model a send call that accepts no byte or fails; the source repeats the former and throws on the latter.
- Handler.TCPHandler.Recv: does not model a receive call that fails; the source throws, and the thread ends.
- Containers.TurnContainer.GetTurn: does not model the wait itself but reports an unavailable turn; the waiting is a disabled step of the transition system. The same holds for the other waiting methods of the containers.
- Messages.SendServerMessage: does not model the check of map sizes against 32 bits, because a map with 8-bit keys cannot exceed it.
- Server.PlayGame: models the main loop over one game; waiting for players and replacing the containers are steps of the main thread in `Protocol`.
- Server.HandleMessage: models the body of the loop between the snapshot of the shared pointers and the next message; whether the game has started is an argument, because it is read in a critical section of its own, which is a step in `Protocol`.
- Server.SendGame: requires game_length at most 65534, because the loop it contains has no end otherwise (`OutStream.TurnLoopIsEndless`); the transition system covers 65535.
- Server.SendTurnsPlayed: requires the same for the same reason, and turns that can be sent, which `EndToEnd.TurnFits` proves of every turn of a game.
- Gui.UDPHandler.FlushOutcomingPacket: models only the failure that depends on the packet, a datagram larger than an arbitrary limit of the network; other errors of the send call end the client at arbitrary moments and are not stated.
- Growth.NoThreadThrows: covers update_slot; an in-thread also ends when its connection fails or its client sends an unknown tag (`src/network/message_manager.cpp:115-116`), after which it takes no more steps.
- Watching.NothingTooBig: the bound is sufficient, not necessary, and covers steady settings only: how many bombs a client keeps that is sent a game twice is not stated; the exact condition for one stream is that of `ClientFsm.ServerClientGuiStream`.
