# Symbiosis server core in Dafny

Symbiosis is a two-player co-op puzzle game. One player is the **fish**: it lights
mushrooms and cannot push anything. The other is the **crab**: it pushes boxes. The
server owns the world, and every client only draws the snapshots it is sent. This
project models the server's authoritative logic (`ServerGameLogic`) and the wire codec
(`ProtocolEncoder` / `ProtocolDecoder`). It also models the two value classes the
logic rests on, `CaveMap` and `Position`. Everything is written as pure functions
over immutable data, and the properties the code promises are proved about them.

Each handler of `ServerGameLogic` is a `synchronized` method. It is modelled as one
atomic step `(state) -> Step(state', outgoing messages)`. A message goes either to one
connection, written `Client(h)`, or to every connected client, written `Everyone`.
Connections are identified by a `Handle`. Each role slot remembers the handle that
holds it and the client id that handle carries now.

Modules, by file:

- `wrappers.dfy`: `Option` and `Result`.
- `java_int.dfy`: Java's `int` range, `Integer.toString` and `Integer.parseInt` on
  decimal text, and 32-bit wrap-around.
- `text.dfy`: splitting and joining on one character, including Java's
  `String.split`, which drops trailing empty strings.
- `line_syntax.dfy`: `escape`, `splitPreserveEscapes` (a method with the Java loop,
  proved equal to a recursive definition) and `unescape`.
- `codec.dfy`: `encode` and `decode` of the seven message kinds, with their round
  trips. Also a corrected codec with a full round trip.
- `position.dfy`, `cave_map.dfy`: `Position.toString`/`fromString` and `CaveMap`.
- `world.dfy`: the game state, level loading, spawns, map and object queries,
  mushrooms, completion, and movement with box pushing.
- `snapshot.dfy`: the `STATE_UPDATE` payload that `broadcastState` writes, and a
  strict reader of that payload grammar, defined apart from the writer. The reader
  is proved to recover the world from the payload.
- `server.dfy`: the server state and every handler: join, input, post-win action,
  vote, restart request/response and disconnect.
- `server_props.dfy`: the invariant of reachable server states, its preservation by
  every handler, and latched completion.
- `levels.dfy`: the six levels the server ships with.

## Model

| member | source | states |
|---|---|---|
| CaveMaps.New | src/main/java/symbiosis/common/model/CaveMap.java:8-18 | a new map has the given width and height and every in-bounds cell is EMPTY |
| CaveMaps.GetTile | src/main/java/symbiosis/common/model/CaveMap.java:28-33 | any cell with x<0, x>=width, y<0 or y>=height reads as WALL; in-bounds cells read their stored tile |
| CaveMaps.SetTile | src/main/java/symbiosis/common/model/CaveMap.java:35-37 | after setTile(x,y,t), getTile(x,y) is t, every other cell reads as before, and width and height are unchanged |
| Positions.ToString | src/main/java/symbiosis/common/model/Position.java:31-34 | the text is the decimal x, one comma, the decimal y, and it holds no protocol separator |
| Positions.FromString | src/main/java/symbiosis/common/model/Position.java:36-42 | fails unless the comma split gives exactly two parts and both parse as Java ints; otherwise gives those two ints |
| Positions.FromStringToString | src/main/java/symbiosis/common/model/Position.java:31-42 | fromString(p.toString()) == p for every pair of Java ints, negatives included |
| JavaInt.ParseIntToString | src/main/java/symbiosis/common/net/ProtocolDecoder.java:54-55 | parseInt recovers every Java int from its decimal text |
| JavaInt.ParseInt | src/main/java/symbiosis/common/net/ProtocolDecoder.java:54-55 | succeeds iff the text is an optional `+` or `-` followed by at least one digit and its signed value (SignedValue) fits an int, and then gives that signed value |
| JavaInt.Wrap32 | src/main/java/symbiosis/common/net/ProtocolDecoder.java:56 | the result is the Java int congruent to the argument modulo 2^32, and the argument itself when it is in range |
| Text.JavaSplitJoin | src/main/java/symbiosis/common/model/Position.java:37 | String.split recovers the parts of a joined text when no part holds the separator and the last part is not empty |
| LineSyntax.Escape | src/main/java/symbiosis/common/net/ProtocolEncoder.java:47-50 | escaped text always splits into exactly one field, unescapes back to the original, and is unchanged when it holds neither `\` nor `|` |
| LineSyntax.EscapeNullable | src/main/java/symbiosis/common/net/ProtocolEncoder.java:48 | null escapes to the empty string; any other value to one field holding it |
| LineSyntax.EscapeIsPerCharacter | src/main/java/symbiosis/common/net/ProtocolEncoder.java:49 | doubling the backslashes and then prefixing each `|` is the same as escaping each character on its own |
| LineSyntax.SplitPreserveEscapes | src/main/java/symbiosis/common/net/ProtocolDecoder.java:69-89 | the loop computes the recursive field split |
| LineSyntax.Split | src/main/java/symbiosis/common/net/ProtocolDecoder.java:69-89 | there is one field per unescaped `|`, plus one |
| LineSyntax.FieldCount | src/main/java/symbiosis/common/net/ProtocolDecoder.java:73-87 | the field count is the number of `|` not preceded by an odd run of backslashes, plus one |
| LineSyntax.TrailingBackslashDropped | src/main/java/symbiosis/common/net/ProtocolDecoder.java:78-79 | a lone trailing backslash leaves the split unchanged |
| LineSyntax.SplitThenJoinIsUnescape | src/main/java/symbiosis/common/net/ProtocolDecoder.java:69-106 | rejoining the fields with `|` gives exactly the unescaped line: each escaped character is copied and its backslash dropped |
| LineSyntax.Unescape | src/main/java/symbiosis/common/net/ProtocolDecoder.java:91-106 | unescape never lengthens a string and is the identity on strings with no backslash |
| LineSyntax.UnescapeEscaped | src/main/java/symbiosis/common/net/ProtocolDecoder.java:91-106 | unescape undoes escape, also in front of any further text |
| LineSyntax.SplitEscapedJoin | src/main/java/symbiosis/common/net/ProtocolEncoder.java:47-50 | joining escaped fields with `|` and splitting gives back the fields |
| Codec.InputTypeOf | src/main/java/symbiosis/common/net/ProtocolDecoder.java:43 | succeeds exactly on the six enum names and gives the named constant |
| Codec.Decode | src/main/java/symbiosis/common/net/ProtocolDecoder.java:5-67 | empty line and unknown tag fail; CHAT/ROLE_ASSIGNED/ERROR/INPUT with fewer than 3 fields and STATE_UPDATE with fewer than 2 fail; otherwise the text kinds carry their fields unescaped; JOIN never fails (name "Player", role null, level -1 by default; a non-empty role field is kept as written, a parsable level field gives the level); INPUT succeeds iff the type is an enum name; INPUT with an unknown type name is rejected as malformed; LEVEL_DATA is malformed on non-integers or on too few rows while `3 + height` fits an int, crashes on a negative height or when that sum overflows past the row count, and otherwise takes fields 3..3+height-1 |
| Codec.EncodeIsEscapedFields | src/main/java/symbiosis/common/net/ProtocolEncoder.java:5-45 | every encoded line is the message's fields, each escaped, joined with `|` (rows are unescaped, which is why they must be plain) |
| Codec.SplitEncoded | src/main/java/symbiosis/common/net/ProtocolEncoder.java:5-45 | splitting an encoded line gives back exactly the field values encode wrote |
| Codec.DecodeEncode | src/main/java/symbiosis/common/net/ProtocolEncoder.java:5-45 | decode(encode(m)) is m with its text fields unescaped once more and JOIN's preferences dropped |
| Codec.RoundTripWithoutBackslash | src/main/java/symbiosis/common/net/ProtocolEncoder.java:11-30 | CHAT, ROLE_ASSIGNED, ERROR, INPUT and STATE_UPDATE survive a round trip when no field holds a backslash, even with `|` inside; LEVEL_DATA survives when rows are plain and count the height |
| Codec.InputRoundTrip | src/main/java/symbiosis/common/net/ProtocolEncoder.java:23-26 | the input type always survives; the client id survives when it has no backslash |
| Codec.JoinDropsPreferences | src/main/java/symbiosis/common/net/ProtocolEncoder.java:7-10 | a decoded JOIN always has a null role and level -1, whatever was sent |
| Codec.BackslashNeverSurvives | src/main/java/symbiosis/common/net/ProtocolDecoder.java:28-31 | a CHAT whose sender holds a backslash never comes back unchanged |
| Codec.PipeInRowSplitsIt | src/main/java/symbiosis/common/net/ProtocolEncoder.java:38-40 | a LEVEL_DATA row "\|" comes back as the empty row: the unescaped row is split in two |
| Codec.FixedRoundTrip | src/main/java/symbiosis/common/net/ProtocolEncoder.java:5-45 | with every field escaped, JOIN's preferences written, and one unescape on decoding, every message survives the round trip |
| World.CharToTile | src/main/java/symbiosis/server/ServerGameLogic.java:104-112 | `#` is WALL, `E` EXIT, `D` DARK_TILE, `L` LIGHT_TILE, and only those characters give those tiles; anything else is EMPTY |
| World.MapOf | src/main/java/symbiosis/server/ServerGameLogic.java:114-128 | the map has the first row's width and the row count as height, and each cell is the tile of its character |
| World.BuildMap | src/main/java/symbiosis/server/ServerGameLogic.java:119-128 | the nested setTile loops over a new map build exactly that map |
| World.LevelObjects | src/main/java/symbiosis/server/ServerGameLogic.java:132-142 | the objects are exactly the M and B cells from the given row on, as mushrooms and boxes, in row-major order |
| World.LoadLevel | src/main/java/symbiosis/server/ServerGameLogic.java:114-145 | the loaded world has the level's map, no players, completion false, and one inactive object per M/B cell, in row-major order |
| World.LoadLevelSound | src/main/java/symbiosis/server/ServerGameLogic.java:114-145 | a loaded level's objects stand on non-wall cells, no two on the same cell |
| World.PlacePlayers | src/main/java/symbiosis/server/ServerGameLogic.java:147-174 | each present player moves to its spawn, fish (1,1) and crab per level index, and nothing else changes |
| World.WithPlayer | src/main/java/symbiosis/server/ServerGameLogic.java:218-224 | setFish/setCrab put the player in its role's slot and leave the partner and the world alone |
| World.IsObjectBlocking | src/main/java/symbiosis/server/ServerGameLogic.java:390-399 | true iff some BOX or ROCK stands on the cell |
| World.FindObjectAt | src/main/java/symbiosis/server/ServerGameLogic.java:401-410 | gives the first object of that kind on the cell, and none iff there is no such object |
| World.ActivateMushroomAt | src/main/java/symbiosis/server/ServerGameLogic.java:412-420 | kinds and positions are kept; an object becomes active iff it was active or is a mushroom on exactly that cell |
| World.ActivateIdempotent | src/main/java/symbiosis/server/ServerGameLogic.java:412-420 | activating twice at a cell is the same as activating once |
| World.ActivateOnlyThere | src/main/java/symbiosis/server/ServerGameLogic.java:412-420 | activation never deactivates, and leaves every object that is not a mushroom on that cell untouched |
| World.CheckLevelCompleted | src/main/java/symbiosis/server/ServerGameLogic.java:422-442 | completion becomes true iff it was already true or both players exist and stand on EXIT; nothing else changes |
| World.Move | src/main/java/symbiosis/server/ServerGameLogic.java:268-297 | a crab stepping into a box moves both one step along the delta when the cell beyond is free, otherwise nothing moves; any other step succeeds only onto a non-wall cell without box or rock, and a fish stepping in activates the mushrooms there |
| World.FishNeverEntersBlocker | src/main/java/symbiosis/server/ServerGameLogic.java:289-296 | a fish step towards a box or rock changes nothing |
| World.MoveSound | src/main/java/symbiosis/server/ServerGameLogic.java:276-297 | a step keeps players and objects off walls and keeps boxes and rocks on distinct cells |
| World.MoverNeverOnBlocker | src/main/java/symbiosis/server/ServerGameLogic.java:276-297 | whoever moves never ends the step on a box or rock |
| World.PushOntoPartner | src/main/java/symbiosis/server/ServerGameLogic.java:280-288 | players do not block a push: a crab can shove a box onto the fish's cell, and the world stays sound |
| Snapshot.ObjectRecord | src/main/java/symbiosis/server/ServerGameLogic.java:508-519 | an object record splits on `,` into type letter, x, y and the 0/1 active flag |
| Snapshot.ObjectsText | src/main/java/symbiosis/server/ServerGameLogic.java:497-520 | the object section is `O:` followed by the records separated by `/`, one per object in order |
| Snapshot.SlotText | src/main/java/symbiosis/server/ServerGameLogic.java:488-496 | a slot's text is empty iff the player is absent |
| Snapshot.Payload | src/main/java/symbiosis/server/ServerGameLogic.java:485-524 | the payload splits on `;` into the fish slot, the crab slot, the object section if any objects exist, and `D:1` iff completed; it holds no `\|` or `\` |
| Snapshot.ReadPayloadOf | src/main/java/symbiosis/server/ServerGameLogic.java:485-524 | a strict reader of the payload grammar gives back from any payload both positions (or their absence), every object in order with its kind, cell and state, and the completion flag |
| Snapshot.PayloadSurvivesCodec | src/main/java/symbiosis/server/ServerGameLogic.java:526-527 | the STATE_UPDATE carrying any payload survives encode then decode unchanged |
| Server.Init | src/main/java/symbiosis/server/ServerGameLogic.java:101 | the server starts on level 0, freshly loaded, with no role bound and nothing pending |
| Server.Recreate | src/main/java/symbiosis/server/ServerGameLogic.java:454-467 | each bound role gets a fresh player carrying its handler's id, named "Fish"/"Crab"; unbound roles are left as they were |
| Server.Reload | src/main/java/symbiosis/server/ServerGameLogic.java:343-348 | loading a level gives its map and objects, one player per bound role at its spawn, completion false and no votes; the restart state is kept |
| Server.RequestedRole | src/main/java/symbiosis/server/ServerGameLogic.java:187-196 | the request is FISH iff the string equals "FISH" ignoring case, CRAB iff it equals "CRAB" ignoring case |
| Server.Rebind | src/main/java/symbiosis/server/ClientHandler.java:55-58 | a slot held by the joining handler carries the fresh client id from then on; other slots are untouched |
| Server.AssignRole | src/main/java/symbiosis/server/ServerGameLogic.java:199-216 | a free requested role is honoured, otherwise FISH if free, then CRAB, else none; the role given is always free |
| Server.Arrive | src/main/java/symbiosis/server/ServerGameLogic.java:179-185 | the first joiner's preferred level is loaded when it is in range; otherwise the level and world are kept |
| Server.Admit | src/main/java/symbiosis/server/ServerGameLogic.java:218-236 | the handler is bound, the new player stands on its spawn, the partner is moved back to its spawn, and the joiner gets ROLE_ASSIGNED then LEVEL_DATA before STATE_UPDATE goes to everyone |
| Server.Join | src/main/java/symbiosis/server/ServerGameLogic.java:176-237 | a full server answers FULL to the joiner alone and changes no slot or player; otherwise the assigned role is bound to the joiner, its player is on its spawn, and the three messages go out |
| Server.FindPlayerById | src/main/java/symbiosis/server/ServerGameLogic.java:444-452 | finds the role whose player has the id, the fish first, and none iff no player has it |
| Server.Delta | src/main/java/symbiosis/server/ServerGameLogic.java:252-259 | MOVE_UP is (0, -1), MOVE_DOWN (0, 1), MOVE_LEFT (-1, 0) and MOVE_RIGHT (1, 0); every other input is no step |
| Server.Settle | src/main/java/symbiosis/server/ServerGameLogic.java:422-442 | completion latches once both stand on exits, the votes are cleared exactly when it is newly set, and nothing else changes |
| Server.PostWin | src/main/java/symbiosis/server/ServerGameLogic.java:364-383 | the fish's action loads (level+1) mod n, the crab's reloads the same level; LEVEL_DATA then STATE_UPDATE go to everyone |
| Server.Input | src/main/java/symbiosis/server/ServerGameLogic.java:239-300 | an unknown id and STOP do nothing; ACTION after a win is the post-win action; the crab's ACTION before a win does nothing; the fish's ACTION activates under it; a move is one step; the last two re-check completion and broadcast |
| Server.InputMoveDirection | src/main/java/symbiosis/server/ServerGameLogic.java:255-297 | a move input with no box to push takes its sender to the row above (up), the row below (down), the column before (left) or the column after (right) when that cell is free, and leaves it in place otherwise |
| Server.VoteTarget | src/main/java/symbiosis/server/ServerGameLogic.java:331-338 | -1 chooses (level+1) mod n, any other vote chooses that index, and the target is always in range |
| Server.Tally | src/main/java/symbiosis/server/ServerGameLogic.java:329-356 | equal votes load the chosen level and announce it; different votes send VOTE_FAIL to everyone and clear both votes; with one vote nothing happens |
| Server.Vote | src/main/java/symbiosis/server/ServerGameLogic.java:306-357 | before a win VOTE_DENIED, an index below -1 or at least n BAD_VOTE, both to the voter alone; otherwise the vote is recorded for the voter's role, the fish's handler first, and a voter with no role is ignored |
| Server.RestartNoVote | src/main/java/symbiosis/server/ServerGameLogic.java:538-550 | the current level is reloaded for the bound players, votes and the pending restart are cleared, and LEVEL_DATA then STATE_UPDATE go to everyone |
| Server.RestartRequest | src/main/java/symbiosis/server/ServerGameLogic.java:552-580 | ignored with nobody bound; with one player bound the level restarts at once; ignored while one is pending; otherwise it becomes pending and only the other party gets the offer |
| Server.RestartResponse | src/main/java/symbiosis/server/ServerGameLogic.java:582-603 | with nothing pending nothing happens; a decline notifies the requester alone and clears the pending request; an accept restarts the level |
| Server.Disconnect | src/main/java/symbiosis/server/ServerGameLogic.java:605-636 | a handler with no role changes nothing; otherwise both slots, the votes and the pending restart are cleared, the level is reloaded with no players, and PLAYER_LEFT goes to everyone |
| Server.Apply | src/main/java/symbiosis/server/ServerGameLogic.java:176-636 | every handler keeps the level index inside the table |
| ServerProps.SpawnWalkable | src/main/java/symbiosis/server/ServerGameLogic.java:147-174 | with open spawn cells in the table, every spawn is walkable on its level's map |
| ServerProps.InitInv | src/main/java/symbiosis/server/ServerGameLogic.java:101 | the constructed server satisfies the invariant |
| ServerProps.ReloadInv | src/main/java/symbiosis/server/ServerGameLogic.java:343-348 | loading any level of the table yields a state satisfying the invariant |
| ServerProps.ArriveInv | src/main/java/symbiosis/server/ServerGameLogic.java:179-185 | the level choice of the first joiner keeps the invariant |
| ServerProps.AdmitInv | src/main/java/symbiosis/server/ServerGameLogic.java:218-236 | admitting a player into a free role keeps the invariant |
| ServerProps.JoinInv | src/main/java/symbiosis/server/ServerGameLogic.java:176-237 | a join keeps the invariant |
| ServerProps.ActivateSound | src/main/java/symbiosis/server/ServerGameLogic.java:412-420 | activating mushrooms keeps the world sound |
| ServerProps.SettleInv | src/main/java/symbiosis/server/ServerGameLogic.java:422-442 | checking for the win keeps the invariant, votes included |
| ServerProps.InputInv | src/main/java/symbiosis/server/ServerGameLogic.java:239-300 | an input keeps the invariant: nobody stands on a wall and boxes stay apart |
| ServerProps.VoteInv | src/main/java/symbiosis/server/ServerGameLogic.java:306-357 | a vote keeps the invariant: at most one vote is held, only after a win, and only valid choices |
| ServerProps.RestartNoVoteInv | src/main/java/symbiosis/server/ServerGameLogic.java:538-550 | a direct restart keeps the invariant |
| ServerProps.RestartRequestInv | src/main/java/symbiosis/server/ServerGameLogic.java:552-580 | a restart request keeps the invariant: a request is pending only with two players and a known requester |
| ServerProps.RestartResponseInv | src/main/java/symbiosis/server/ServerGameLogic.java:582-603 | a restart response keeps the invariant |
| ServerProps.DisconnectInv | src/main/java/symbiosis/server/ServerGameLogic.java:605-636 | a disconnect keeps the invariant |
| ServerProps.ApplyInv | src/main/java/symbiosis/server/ServerGameLogic.java:176-636 | every handler keeps the invariant: level index in range, nobody on a wall, a player exactly for each bound role, votes only after a win |
| ServerProps.Run | src/main/java/symbiosis/server/ServerGameLogic.java:176-636 | every state reachable from the constructed server by handler calls satisfies the invariant |
| ServerProps.CompletionLatched | src/main/java/symbiosis/server/ServerGameLogic.java:422-442 | once a level is won, a handler call either keeps the flag or leaves a freshly loaded level with everyone on their spawns |
| ServerProps.CompletionNeedsBothOnExit | src/main/java/symbiosis/server/ServerGameLogic.java:422-442 | a handler call that sets completion leaves both players on EXIT tiles |
| ServerProps.JoinKeepsUnwon | src/main/java/symbiosis/server/ServerGameLogic.java:176-237 | a join never sets completion |
| Levels.ShippedTableGood | src/main/java/symbiosis/server/ServerGameLogic.java:29-102 | the six shipped levels are rectangular enough to load and every fish and crab spawn is an open cell |

## Left out

- Sockets, threads, the client registry and the `synchronized` monitor are not modelled. Each handler is one atomic step, and "everyone" means every connection registered at that moment.
- `handleChat` only re-broadcasts the message, so it is not modelled.
- `System.out.println` logging and the human-readable error texts are not modelled. Errors carry their code only.
- The JavaFX client, `GameServer`, `ClientHandler` and `GameClient` are not modelled. This includes the client's payload parser (`SymbiosisApp.parseAndApplyState`); the snapshot reader here is an independent strict reader of the server's grammar, not a model of that parser. `ClientHandler` dispatches only JOIN, INPUT and CHAT, and its `close` never calls `handleDisconnect`. The vote, restart and disconnect handlers are therefore modelled directly as transitions of the logic, not as codec messages.
- The client id `"C" + System.nanoTime()` comes from a clock, so it is a parameter of `Join`.
- `Player.connected` is never read by the logic, so it is not modelled.
- JavaInt.ParseInt: accepts ASCII digits only. Java's `Integer.parseInt` also accepts other Unicode decimal digits.
- Codec.Decode: a null line cannot occur, because strings are values, so only the empty line is modelled as the failing input. A null field is modelled only where the encoder maps it to "" (`EscapeNullable`).
- Positions.FromStringToString: needs both coordinates within the Java int range. Coordinates are unbounded integers, and the server never moves beyond its maps.
- Snapshot.ReadPayloadOf: needs all coordinates within the Java int range, for the same reason. It promises nothing about the client's own parser, which differs from the strict reader. The client skips an empty `F:`/`C:` section and so keeps the previous position of an absent player, for instance with a lone fish. It also trims sections, ignores key case, accepts `FISH`/`CRAB`, takes sections in any order, skips malformed records instead of rejecting the payload, and loses trailing empty sections to Java's `split`.
- CaveMaps.New: requires a non-negative width and height. `new TileType[height][width]` would throw NegativeArraySizeException, and the only caller, `loadLevel`, passes a row count and a row length.
- World.Move and Server.Input: `x + dx` does not wrap at 2^31. Players stay inside a map bounded by walls, so this never matters.
- CaveMaps.SetTile: requires an in-bounds cell. The Java array store would throw outside the grid, and `loadLevel` writes only in-bounds cells.
- World.LoadLevel: requires every row to be at least as long as the first (`ValidLevel`), because `charAt` would otherwise throw. The shipped levels meet this.
- ServerProps.Inv: has no clause "no player stands on a box". A join re-places both players at their spawns, which may hold a pushed box, so the code does not keep that promise. MoverNeverOnBlocker states the part it does keep.

## Behaviour notes

Where the game's documented design and its code differ, the model follows the code:

- Moves are still processed after a win. Only ACTION changes meaning; completion stays latched.
- The post-win action and an agreed vote clear the votes but keep a pending restart request.
- A box may be pushed onto the partner's cell, because players do not block pushes (World.PushOntoPartner).
- `handleRestartResponse` does not check which connection answers, and `handleRestartRequest` checks the bound slots before the pending flag.
- A join always moves both players back to their spawns.
- A handler that has already joined can join again and take the other free role.
- A LEVEL_DATA line with a negative height makes `new String[height]` throw `NegativeArraySizeException`. That exception is not an `IllegalArgumentException`, so no BAD_MESSAGE is sent. `Codec.Decode` reports it as `Crash`.

## Findings

| source | as written | input that shows it | evidently intended | confidence | as-written member | corrected member |
|---|---|---|---|---|---|---|
| src/main/java/symbiosis/common/net/ProtocolDecoder.java:30 | fields are unescaped by `splitPreserveEscapes` and then again by `unescape` | CHAT from `a\b`: encoded `CHAT\|a\\b\|t`, decoded sender `ab` | one level of unescaping, so any text survives | high (not executed) | Codec.BackslashNeverSurvives | Codec.FixedRoundTrip |
| src/main/java/symbiosis/common/net/ProtocolEncoder.java:7-10 | JOIN writes only the name | JOIN(name "p", role "CRAB", level 2) decodes with no role and level -1 | the preferred role and level reach the server | high (not executed) | Codec.JoinDropsPreferences | Codec.FixedRoundTrip |
| src/main/java/symbiosis/common/net/ProtocolEncoder.java:38-40 | LEVEL_DATA rows are written without escaping | LEVEL_DATA(1, 1, ["\|"]) decodes with rows [""] | rows escaped like every other field | medium (not executed) | Codec.PipeInRowSplitsIt | Codec.FixedRoundTrip |
