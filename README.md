# Blobby Volley 2 core, modelled in Dafny

This project models the integer, boolean and container bookkeeping at the heart of Blobby
Volley 2: the replay codec, mirroring of a match snapshot, the per-tick orchestration of a
duel, the structural parts of the physics world, the server's per-match bookkeeping, the
lobby match maker, and the client's small string and state helpers. It also proves
properties of that model. Each source file keeps its own form. An object whose methods
update fields becomes a Dafny `class` whose methods are proved against a specification
function of the old state. A pure query becomes a function with lemmas about it.

Modules, one per source file:

- `Common` (common.dfy): player slots and their pairing, the 3-bit `PlayerInput` and its
  packed form (`getAll`), `Vec2` over reals, match events and their wire codes, and the
  typed token streams that stand for `GenericIO`/`BitStream` writes.
- `PhysicStates`, `GameLogicStates`, `DuelMatchStates` (physic_state.dfy,
  game_logic_state.dfy, duel_match_state.dfy): the three snapshot classes over arrays.
  Each has an in-place `swapSides` proved equal to a mirror function, an involution lemma
  for that function, and a serializer whose token layout is proved to read back losslessly.
- `DuelMatches` (duel_match.dfy): `DuelMatch::step` and its helpers. The rules engine
  (`Rules`) and the physics integrator (`Physics`) are uninterpreted function-valued
  collaborators. The input sources are given as values.
- `PhysicWorlds` (physic_world.dfy): blob movement and jumping, the animation step, the
  pair-collision loop, the net and border clamps, ball rotation wrapping, and the state
  copies of `getState`/`setState`, all over reals.
- `ReplayRecorders` (replay_recorder.dfy): input packing, save points, `finalize`,
  `send`/`receive` field order, and the attributes `save` writes.
- `Numerals` (numerals.dfy): decimal text as written by `<<` and read back by `std::stoi`,
  which the replay attributes need.
- `ReplayLoaders` (replay_loader.dfy): `initLoading` from an already-parsed document,
  save-point seeking, input unpacking, and the recorder-to-loader round trip.
- `NetworkGames` (network_game.dfy): the server's started/unpaused predicates, pause
  flags, disconnect invalidation, event wire encoding, the game name and `step` order.
  Each broadcast is a pair of messages: one for plain slots and one for switched slots.
- `MatchMakers` (match_maker.dfy): the lobby. It keeps a map of open games, each with
  its connected list and two teams, and a 32-bit ID counter. Lookups that the source does
  by iterating a `std::map` take the first match in key order.
- `NetworkStates` (network_state.dfy): the client's chat-line splitting, decoding of the
  game-event stream, and the `mNetworkState` transitions per received packet.
- `GameStates` (game_state.dfy): the default replay name, `saveReplay`'s retry flag and
  message, and the two-line error box with its `size_t` wrap-around.

Constants from headers that are not part of this model (Global.h, GameConstants.h,
ReplayDefs.h, MatchEvents.h) take the upstream game's values: `MAX_PLAYERS = 4`,
`NO_PLAYER = NO_SIDE = -1`, `REPLAY_SAVEPOINT_PERIOD = 750`, `MAX_MESSAGE_SIZE = 31`,
event codes 1 to 7, and `getAll() = left*4 + right*2 + jump`.

The model follows the code on these points:

- A save point's `step` is a byte offset into the input buffer
  (src/replays/ReplayRecorder.cpp:200).
- The periodic save point is taken when the buffer size is a multiple of
  `REPLAY_SAVEPOINT_PERIOD * bytesPerStep` (src/replays/ReplayRecorder.cpp:194-196).
- `finalize` pads with `75 * bytesPerStep` zero bytes (src/replays/ReplayRecorder.cpp:279-290).
- `getSwappedPlayerIndex(NO_SIDE)` is -2. The switched event stream therefore carries
  side byte 254 for an event without a side (`NetworkGames.SwappedNoSide`).

## Model

| member | source | states |
|---|---|---|
| Common.CppRem2 | src/server/NetworkGame.cpp:567 | `index % 2` with C++ truncating remainder: equal to Dafny's `%` for non-negative operands, in [-1, 0] for negative ones, and zero exactly when the index is even |
| Common.PlayerInput.GetAll | src/replays/ReplayRecorder.cpp:216 | the packed input is below 8 and bit 4, 2, 1 is set exactly when left, right, jump is pressed |
| Common.PlayerInput.SwapLeftRight | src/DuelMatchState.cpp:39-40 | left and right are exchanged, jump is kept |
| Common.EventFromCode | src/state/NetworkState.cpp:185-193 | a code decodes to an event kind exactly when it is one of 1..7, and the kind's code is that code |
| Common.EventCodeRoundTrip | src/server/NetworkGame.cpp:578 | decoding the code the server writes for an event kind gives back that kind |
| Common.SignedChar | src/state/NetworkState.cpp:185-191 | a stream byte read as `char` lies in [-128, 128) and bytes below 128 keep their value |
| Common.ToUChar | src/server/NetworkGame.cpp:578-582 | `(unsigned char)` of any value in the `char` range is read back as that value |
| PhysicStates.SwapPairs | src/PhysicState.cpp:60-62 | keeps the length and gives each slot its partner slot's entry |
| PhysicStates.SwapPairsInvolution | src/PhysicState.cpp:53-63 | exchanging the slot pairs twice gives back the sequence |
| PhysicStates.MirrorInvolution | src/PhysicState.cpp:51-69 | swapping sides twice gives back the whole physics snapshot |
| PhysicStates.MirrorKeepsVertical | src/PhysicState.cpp:51-69 | after a swap each slot holds its partner's height, vertical speed and animation state, its x position reflected about the field and its x velocity negated; enabled flags and the ball's vertical motion are unchanged, and the rotation is complemented to 2π |
| PhysicStates.Mirror | src/PhysicState.cpp:51-69 | the side-swapped snapshot is well formed; its field effects are stated by `MirrorKeepsVertical` |
| PhysicStates.WritePhysics | src/PhysicState.cpp:28-49 | the serializer writes 5 numbers per slot and 6 for the ball |
| PhysicStates.ReadBlobs | src/PhysicState.cpp:30-39 | reading n slots gives n positions, velocities and states and consumes exactly 5n tokens |
| PhysicStates.ReadPhysics | src/PhysicState.cpp:28-49 | a successful read gives a well-formed snapshot and keeps the reader's enabled flags, consuming exactly the serialized tokens |
| PhysicStates.BlobsRoundTrip | src/PhysicState.cpp:30-39 | the blob numbers written are read back unchanged, leaving the rest of the stream |
| PhysicStates.PhysicsRoundTrip | src/PhysicState.cpp:28-49 | reading back what was written restores every serialized field; the enabled flags, never serialized, are the reader's |
| PhysicStates.PhysicState.SwapPair | src/PhysicState.cpp:55-62 | one round of the loop: slots i and i+1 get each other's mirrored position and velocity and each other's state; other slots are unchanged |
| PhysicStates.PhysicState.SwapBlobs | src/PhysicState.cpp:53-63 | the loop leaves every blob array equal to the pair-swapped, mirrored old array |
| PhysicStates.PhysicState.SwapSides | src/PhysicState.cpp:51-69 | the new state is the mirror of the old one |
| GameLogicStates.OtherSide | src/GameLogicState.cpp:58-65 | LEFT and RIGHT are exchanged and any other side value is kept |
| GameLogicStates.MirrorFields | src/GameLogicState.cpp:47-66 | scores and hit counts are exchanged, the squish counters of each pair are exchanged, and the winner, wall and ground squish and both flags are unchanged |
| GameLogicStates.Mirror | src/GameLogicState.cpp:47-66 | the swapped rules state is well formed; its field effects are stated by `MirrorFields` |
| GameLogicStates.WriteLogic | src/GameLogicState.cpp:27-45 | the serializer writes a fixed number of tokens, of the shapes `ReadLogic` accepts |
| GameLogicStates.MirrorInvolution | src/GameLogicState.cpp:47-66 | swapping sides twice gives back the rules state |
| GameLogicStates.ReadLogic | src/GameLogicState.cpp:27-45 | reading succeeds exactly when the stream starts with the serializer's token shapes, and consumes exactly those tokens |
| GameLogicStates.LogicRoundTrip | src/GameLogicState.cpp:27-45 | every field written is read back unchanged, in the same order |
| GameLogicStates.GameLogicState.SwapSides | src/GameLogicState.cpp:47-66 | the new state is the mirror of the old one |
| GameLogicStates.GameLogicState.SwapSquish | src/GameLogicState.cpp:51-54 | each squish counter takes its partner slot's old value |
| DuelMatchStates.MirrorInputAt | src/DuelMatchState.cpp:37-42 | after the swap slot i holds its partner's input with left and right exchanged and the jump bit kept |
| DuelMatchStates.MirrorInputsInvolution | src/DuelMatchState.cpp:37-42 | the input swap undone by a second swap |
| DuelMatchStates.MirrorInvolution | src/DuelMatchState.cpp:32-43 | swapping sides twice restores physics, rules and inputs |
| DuelMatchStates.Mirror | src/DuelMatchState.cpp:32-43 | the swapped snapshot is well formed |
| DuelMatchStates.WriteMatch | src/DuelMatchState.cpp:45-56 | the snapshot takes 5 tokens per slot, 6 for the ball, the rules' tokens and one input token per slot, the inputs last |
| DuelMatchStates.ReadInputs | src/DuelMatchState.cpp:52-55 | a successful read yields one input per slot |
| DuelMatchStates.ReadMatch | src/DuelMatchState.cpp:45-56 | reading keeps the reader's enabled flags |
| DuelMatchStates.MatchRoundTrip | src/DuelMatchState.cpp:45-56 | the snapshot written is read back whole (except the unserialized enabled flags, which are the reader's) and the rest of the stream is left |
| DuelMatchStates.GetScore | src/DuelMatchState.cpp:116-125 | the left side's score for LEFT_SIDE, the right side's for RIGHT_SIDE; other sides are excluded as the assert does |
| DuelMatchStates.GetBallDown | src/DuelMatchState.cpp:101-104 | the ball is down exactly when the rules no longer consider it valid |
| DuelMatchStates.MirrorGetScore | src/DuelMatchState.cpp:32-43 | after a swap `getScore` reports each side's old score for the other side and the ball-down flag is kept |
| DuelMatchStates.DuelMatchState.SwapInputs | src/DuelMatchState.cpp:37-42 | the input array becomes the mirrored old inputs |
| DuelMatchStates.DuelMatchState.SwapSides | src/DuelMatchState.cpp:32-43 | the new snapshot is the mirror of the old one |
| DuelMatches.ServeBall | src/DuelMatch.cpp:346-357 | the ball is placed at (200, 300.5) for the left side, (600, 300.5) for the right side and (400, 450) otherwise, at rest, with spin −0.1 exactly for the right player and +0.1 otherwise; nothing else changes |
| DuelMatches.ServeBallMirror | src/DuelMatch.cpp:346-357 | serving for one side and then swapping the field equals swapping first and serving for the other side |
| DuelMatches.BlobHitGround | src/PhysicWorld.cpp:89-97 | a blob can be on the ground only for a value in the slot range |
| DuelMatches.CanStartRound | src/DuelMatch.cpp:359-364 | a round can start only for a server in the slot range and with the ball below the height y = 430 |
| DuelMatches.CanStartRoundMirror | src/DuelMatch.cpp:359-364 | a round can start for a server exactly when it can start for the server's partner slot in the side-swapped world |
| DuelMatches.ServedBallWaits | src/DuelMatch.cpp:346-364 | after serving for the left or right side no round can start; after placing the ball for no side a round can start exactly when the server is on the ground |
| DuelMatches.CountFromIsTeamSize | src/DuelMatch.cpp:222-231 | counting every second slot from i equals the size of the set of enabled slots i, i+2, … |
| DuelMatches.NewInputs | src/DuelMatch.cpp:109-118 | the input loop yields one input per slot |
| DuelMatches.StateOf | src/DuelMatch.cpp:304-317 | the snapshot has one entry per slot |
| DuelMatches.Restore | src/DuelMatch.cpp:284-297 | the restored match is well formed: world and rules from the snapshot, enabled slots' inputs from the snapshot and the others kept (`RestoredInputs`); `StateRoundTrip` and `RestoreTellsSources` state what it restores |
| DuelMatches.StateRoundTrip | src/DuelMatch.cpp:284-317 | restoring the state just taken gives back the same match |
| DuelMatches.InputsSent | src/DuelMatch.cpp:289-296 | the input loop makes at most one `setInput` call per slot |
| DuelMatches.InputsSentEntries | src/DuelMatch.cpp:289-296 | every call is for an enabled slot with the snapshot's input for it, in increasing slot order |
| DuelMatches.InputsSentComplete | src/DuelMatch.cpp:289-296 | every enabled slot gets its call with the snapshot's input |
| DuelMatches.RestoredInputs | src/DuelMatch.cpp:289-296 | after the input loop an enabled slot holds the snapshot's input and a disabled one its old input |
| DuelMatches.RestoreTellsSources | src/DuelMatch.cpp:284-297 | after `setState` every called input source was handed the input its slot now holds, and every enabled slot's source was called |
| DuelMatches.BlobPosition | src/DuelMatch.cpp:253-259 | a slot's blob position, the origin outside the slot range |
| DuelMatches.BlobVelocity | src/DuelMatch.cpp:261-267 | a slot's blob velocity, zero outside the slot range |
| DuelMatches.BlobJump | src/DuelMatch.cpp:248-251 | jumping exactly when the value is not a slot or the blob is above the ground plane |
| DuelMatches.HitCount | src/DuelMatch.cpp:202-210 | the rules' touches for LEFT or RIGHT, and 0 for any other side |
| DuelMatches.Dispatch | src/DuelMatch.cpp:130-152 | only a ground hit may change the world, and only by scaling the ball's velocity by 0.6, which it does when the rules then call the ball dead; errors and resets leave the rules untouched |
| DuelMatches.DispatchAll | src/DuelMatch.cpp:128-153 | relaying any event list changes nothing of the world but the ball's velocity |
| DuelMatches.InputStage | src/DuelMatch.cpp:109-118 | keeps one input per slot |
| DuelMatches.PhysicsStage | src/DuelMatch.cpp:121-122 | keeps one entry per slot |
| DuelMatches.DispatchStage | src/DuelMatch.cpp:128-153 | keeps one entry per slot |
| DuelMatches.ErrorStage | src/DuelMatch.cpp:155-160 | when the rules name an error side, a player error for that side with intensity 0 is appended and the ball's velocity is scaled by 0.6; otherwise the match is unchanged; nothing else ever changes |
| DuelMatches.ServeStage | src/DuelMatch.cpp:166-171 | keeps one entry per slot |
| DuelMatches.Tick | src/DuelMatch.cpp:103-176 | a tick keeps one entry per slot |
| DuelMatches.TickPaused | src/DuelMatch.cpp:105-107 | a paused match does not change |
| DuelMatches.TickEvents | src/DuelMatch.cpp:103-176 | after a tick the buffer is empty and the reported list is: the events triggered before the tick; then exactly the integrator's events (none on a remote match); then a player error for the rules' error side exactly when there is one, which also scales the ball's velocity by 0.6 (otherwise that stage changes nothing); and last a ball reset exactly when the round could restart, which leaves the ball at rest and the rules served |
| DuelMatches.TickInputs | src/DuelMatch.cpp:109-118 | disabled slots keep their input; enabled slots take their source's input, passed through the rules exactly on the authoritative side |
| DuelMatches.DuelMatch.constructor | src/DuelMatch.cpp:36-54 | starts unpaused with no events and empty inputs |
| DuelMatches.DuelMatch.Trigger | src/DuelMatch.cpp:299-302 | appends the event and changes nothing else |
| DuelMatches.DuelMatch.UpdateEvents | src/DuelMatch.cpp:376-381 | the buffered events become the last events and the buffer is emptied |
| DuelMatches.DuelMatch.Pause | src/DuelMatch.cpp:184-188 | tells the rules and pauses |
| DuelMatches.DuelMatch.Unpause | src/DuelMatch.cpp:190-194 | tells the rules and unpauses |
| DuelMatches.DuelMatch.PlayersCountInTeam | src/DuelMatch.cpp:222-231 | the number of enabled slots whose parity is the player's |
| DuelMatches.DuelMatch.GetState | src/DuelMatch.cpp:304-317 | returns the snapshot `StateOf` describes |
| DuelMatches.DuelMatch.SetState | src/DuelMatch.cpp:284-297 | the new match is `Restore` of the old one, and the returned list is the `setInput` calls the input loop makes: one per slot enabled after the restore, in slot order, with the snapshot's input |
| DuelMatches.DuelMatch.RestoreInputs | src/DuelMatch.cpp:289-296 | the input array becomes `RestoredInputs` of the old one and the returned calls are `InputsSent` |
| DuelMatches.DuelMatch.SetServingPlayer | src/DuelMatch.cpp:324-329 | the rules take the server and are told of the serve, and the ball is placed by `ServeBall` |
| DuelMatches.DuelMatch.ReadInputs | src/DuelMatch.cpp:109-118 | the new match is the input stage of the old one |
| DuelMatches.DuelMatch.StepWorld | src/DuelMatch.cpp:121-122 | the new match is the physics stage of the old one |
| DuelMatches.DuelMatch.DispatchEvents | src/DuelMatch.cpp:128-153 | the new match is the dispatch stage of the old one |
| DuelMatches.DuelMatch.DispatchEvent | src/DuelMatch.cpp:130-152 | one event: rules and world become `Dispatch` of the old ones; pause flag and event buffers are unchanged |
| DuelMatches.DuelMatch.ReportError | src/DuelMatch.cpp:155-160 | the new match is the error stage of the old one: with an error side, a player error for it and the ball's velocity scaled by 0.6, otherwise no change |
| DuelMatches.DuelMatch.Serve | src/DuelMatch.cpp:166-171 | the new match is the serve stage of the old one |
| DuelMatches.DuelMatch.Step | src/DuelMatch.cpp:103-176 | the new match is `Tick` of the old one |
| PhysicWorlds.StartAnimation | src/PhysicWorld.cpp:196-200 | a resting animation starts at speed 0.5; a running one keeps its speed |
| PhysicWorlds.AnimationStep | src/PhysicWorld.cpp:175-194 | the state stays below 5; a negative state restarts from rest, a state in [4.5, 5.5) turns back by 0.5, and a lower state advances by its speed while that stays below 5 |
| PhysicWorlds.BlobStep | src/PhysicWorld.cpp:202-244 | one move: the horizontal speed is the input's, x advances by it, the blob never ends below the ground plane and its state stays below 5; a blob that would fall through the ground lands on it at rest, otherwise it falls by half the gravity plus its launch speed |
| PhysicWorlds.JumpOnlyWhenGrounded | src/PhysicWorld.cpp:204-215 | the jump sets the vertical speed only on the ground; without jump gravity is full, with jump it is softened by the jump buffer |
| PhysicWorlds.GroundedJumpLeavesGround | src/PhysicWorld.cpp:202-244 | a grounded blob that jumps leaves the ground moving upwards with speed jump acceleration plus softened gravity |
| PhysicWorlds.RestingBlobStays | src/PhysicWorld.cpp:202-244 | a grounded blob at rest that does not jump stays on the ground at rest |
| PhysicWorlds.ClampBounds | src/PhysicWorld.cpp:384-421 | after the net and border clamps a left-team blob lies between the left border and the net, a right-team blob between the net and the right border, and a blob already there is not moved |
| PhysicWorlds.NetClamp | src/PhysicWorld.cpp:384-403 | a right-team x ends right of the net and a left-team x left of it; an x already there is kept, any other is moved exactly to the net's edge |
| PhysicWorlds.BorderClamp | src/PhysicWorld.cpp:405-421 | a right-team x ends at most at the right border and a left-team x at least at the left border; an x already inside is kept, any other is set to the border |
| PhysicWorlds.WrapRotation | src/PhysicWorld.cpp:431-435 | the wrap adds or removes at most one period of 6.25, keeps a rotation inside (0, 6.25), and brings any rotation within one period of that range into [0, 6.25] |
| PhysicWorlds.RotationStaysInRange | src/PhysicWorld.cpp:423-435 | a rotation in [0, 6.25] stays there after a tick whose turn is less than one period |
| PhysicWorlds.IntegrateRotation | src/PhysicWorld.cpp:423-429 | when the game is not running the rotation drops by the angular velocity; while it runs the rotation turns by angular velocity·speed/6, forwards when the ball moves right and backwards otherwise |
| PhysicWorlds.PairCallsFrom | src/PhysicWorld.cpp:372-378 | the inner loop visits pairs (i, j) of one team with i < j < 4, only when slot i is enabled, and with the intended test only when slot j is too |
| PhysicWorlds.PairCallsFromStep | src/PhysicWorld.cpp:372-378 | one more inner turn adds pair (i, j) exactly when the test lets it through |
| PhysicWorlds.PairCallsFromEnd | src/PhysicWorld.cpp:372 | the inner loop visits the same pairs whether it ends at 4 or 5 |
| PhysicWorlds.PairCalls | src/PhysicWorld.cpp:370-379 | the pair loop visits only same-team pairs i < j below 4 whose slot i is enabled, and with the intended test slot j too |
| PhysicWorlds.PairCallsAsWrittenReachDisabledSlot | src/PhysicWorld.cpp:374 | with slots 0 and 1 enabled, the test as written runs the collision between slot 0 and the disabled slot 2 |
| PhysicWorlds.PairCallsFixedComplete | src/PhysicWorld.cpp:370-379 | with the intended test every pair of two enabled same-team blobs is visited |
| PhysicWorlds.FixedPairsEnabled | src/PhysicWorld.cpp:370-379 | with the intended `&&` test every slot handed to the collision routine is enabled |
| PhysicWorlds.CollidePairEffect | src/PhysicWorld.cpp:276-336 | on impact both blobs take their new velocity and move by it; without impact nothing changes; no other blob is touched |
| PhysicWorlds.CollidePairKeepsOthers | src/PhysicWorld.cpp:324-333 | a collision never touches a blob outside the pair |
| PhysicWorlds.CollidedKeepsOthers | src/PhysicWorld.cpp:370-379 | a slot that no visited pair names keeps its position and velocity through the pair loop |
| PhysicWorlds.CollidedAppend | src/PhysicWorld.cpp:370-379 | running the pairs of two rows is running the first row, then the second on what it left |
| PhysicWorlds.AsWrittenMovesDisabledBlob | src/PhysicWorld.cpp:370-379 | as written, with slots 0 and 1 enabled and a collision routine that reports an impact, the pair loop moves the disabled blob 2 |
| PhysicWorlds.BallHitsBelowShape | src/PhysicWorld.cpp:361-368 | the ball-blob loop reports hits only of enabled slots, in increasing slot order, each with intensity at most 1 |
| PhysicWorlds.WorldCollisionEvents | src/PhysicWorld.cpp:441-510 | the world collisions report a ground hit first exactly when the ball went below the floor, then at most one wall, net or net-top hit; after a ground hit the ball rests on the floor and a falling ball now rises |
| PhysicWorlds.SideBounceTurnsBall | src/PhysicWorld.cpp:452-476 | a wall hit puts the ball just inside that border moving back into the field; a net hit leaves it touching the net on the side its centre was on; without a hit the ball is unchanged |
| PhysicWorlds.Flight | src/PhysicWorld.cpp:350-358 | while the game runs x advances by the horizontal speed and gravity is added to the vertical speed; otherwise the ball stays |
| PhysicWorlds.HandledBlobs | src/PhysicWorld.cpp:343-348 | after the first loop every enabled blob is on or above the ground and every disabled blob is unchanged |
| PhysicWorlds.StepBallEvents | src/PhysicWorld.cpp:338-439 | a step reports ball-blob hits of enabled slots in slot order, none while the ball is not valid, then at most a ground hit followed by at most one wall, net or net-top hit |
| PhysicWorlds.Touched | src/PhysicWorld.cpp:370-379 | with the intended test the pair loop can move only enabled blobs |
| PhysicWorlds.StepBlobsBounds | src/PhysicWorld.cpp:338-421 | after a step an enabled blob has state below 5 and lies on its team's half; a blob no pair touches is on or above the ground if enabled and unchanged if disabled; with the intended test every disabled blob is unchanged |
| PhysicWorlds.StartX | src/PhysicWorld.cpp:80 | each of the four start positions lies on its team's half |
| PhysicWorlds.StartXDistinct | src/PhysicWorld.cpp:71-82 | no two slots start at the same place |
| PhysicWorlds.CopyOut | src/PhysicWorld.cpp:538-558 | the state taken has one entry per slot |
| PhysicWorlds.CopyIn | src/PhysicWorld.cpp:560-577 | the state restored has one entry per slot |
| PhysicWorlds.CopyInOut | src/PhysicWorld.cpp:538-577 | restoring the state just taken gives back the world exactly, whatever the fresh snapshot held in disabled slots |
| PhysicWorlds.CopyInKeepsDisabled | src/PhysicWorld.cpp:560-571 | restoring never touches a disabled slot and never enables one |
| PhysicWorlds.PhysicWorld.constructor | src/PhysicWorld.cpp:61-83 | keeps the enabled flags; enabled blobs start on the ground at x = 200 + 400·(i % 2) + 80·(i / 2)·(−1)^(i / 2) with state and animation speed 0; every blob velocity and the ball's velocity are zero; the ball starts at (200, 300.5), or at x = 600 when the random draw says so, with rotation 0 and angular velocity 0.1 |
| PhysicWorlds.PhysicWorld.BlobbyStartAnimation | src/PhysicWorld.cpp:196-200 | the player's animation speed becomes `StartAnimation` of the old one; other slots are unchanged |
| PhysicWorlds.PhysicWorld.BlobbyAnimationStep | src/PhysicWorld.cpp:175-194 | the player's state and speed become `AnimationStep` of the old ones, the state below 5; other slots are unchanged |
| PhysicWorlds.PhysicWorld.HandleBlob | src/PhysicWorld.cpp:202-244 | the player's blob becomes `BlobStep` of the old blob; the other blobs are unchanged |
| PhysicWorlds.PhysicWorld.JumpAndWalk | src/PhysicWorld.cpp:204-220 | applies the jump and walk stages with the ground contact from before the move and returns this tick's gravity |
| PhysicWorlds.PhysicWorld.MoveAndLand | src/PhysicWorld.cpp:222-241 | applies the move and the landing stages to the player's blob only |
| PhysicWorlds.PhysicWorld.HandleBlobs | src/PhysicWorld.cpp:343-348 | every enabled blob takes its `BlobStep`, every disabled one is unchanged |
| PhysicWorlds.PhysicWorld.PairLoop | src/PhysicWorld.cpp:370-379 | runs the blob-blob collision for exactly the pairs of the test `fixed` selects (the `&` as written or the intended `&&`), in loop order, each on the positions and velocities the previous ones left, and returns those pairs |
| PhysicWorlds.PhysicWorld.PairRow | src/PhysicWorld.cpp:372-378 | the inner loop for one i runs exactly the pairs `PairCallsFrom` names, one after another |
| PhysicWorlds.PhysicWorld.PairStep | src/PhysicWorld.cpp:374 | one inner turn collides pair (i, j) exactly when the selected test lets it through |
| PhysicWorlds.PhysicWorld.CollideBlobs | src/PhysicWorld.cpp:276-336 | `handleBlobbiesCollision(i, j)`: the blob arrays become `CollidePair` of the old ones |
| PhysicWorlds.PhysicWorld.BallHits | src/PhysicWorld.cpp:361-368 | the ball and the reported hits become those of the ball-blob loop over all slots; rotation and angular velocity are unchanged |
| PhysicWorlds.PhysicWorld.GroundCollision | src/PhysicWorld.cpp:443-450 | the ball and the events become `GroundBounce` of the old ball |
| PhysicWorlds.PhysicWorld.SideCollisions | src/PhysicWorld.cpp:452-509 | the ball and the events become `SideBounce` of the old ball |
| PhysicWorlds.PhysicWorld.WorldCollisions | src/PhysicWorld.cpp:441-510 | the ball and the events become `WorldCollision` of the old ball: the ground test, then the side tests |
| PhysicWorlds.PhysicWorld.Advance | src/PhysicWorld.cpp:343-358 | the blobs become `HandledBlobs` of the old ones and the ball takes its `Flight` |
| PhysicWorlds.PhysicWorld.Collide | src/PhysicWorld.cpp:360-382 | while the ball is valid the ball-blob hits, then the pair collisions of the selected test; then the world collisions; the events are the hits followed by the world events; an invalid ball leaves the blobs alone |
| PhysicWorlds.PhysicWorld.ClampBlobs | src/PhysicWorld.cpp:384-421 | each enabled blob's x becomes its net clamp then border clamp, which puts it on its team's half; disabled blobs are unchanged |
| PhysicWorlds.PhysicWorld.NetClampBlobs | src/PhysicWorld.cpp:384-403 | every enabled blob's x becomes its `NetClamp`; disabled blobs are unchanged |
| PhysicWorlds.PhysicWorld.BorderClampBlobs | src/PhysicWorld.cpp:405-421 | every enabled blob's x becomes its `BorderClamp`; disabled blobs are unchanged |
| PhysicWorlds.PhysicWorld.MoveBall | src/PhysicWorld.cpp:350-358 | while the game runs the ball moves by its velocity plus half the ball gravity and gravity is added to its vertical speed; otherwise it stays |
| PhysicWorlds.PhysicWorld.UpdateRotation | src/PhysicWorld.cpp:423-435 | the rotation becomes the wrapped integrated rotation; nothing else of the ball changes |
| PhysicWorlds.PhysicWorld.Step | src/PhysicWorld.cpp:338-439 | the enabled flags are kept; the blobs become `StepBlobs` and the ball and reported events `StepBall` of the old world (blob moves, ball flight, ball-blob hits and the pair collisions of the `fixed` test while the ball is valid, world collisions, net and border clamps); the events are ball-blob hits of enabled slots in slot order (none while the ball is not valid), then at most a ground hit and at most one wall, net or net-top hit; the rotation is integrated and wrapped and the angular velocity kept |
| PhysicWorlds.PhysicWorld.GetState | src/PhysicWorld.cpp:538-558 | returns `CopyOut` of the world |
| PhysicWorlds.PhysicWorld.CopySlot | src/PhysicWorld.cpp:564-570 | a slot enabled before the call takes the snapshot's fields and flag, otherwise it is unchanged; other slots are unchanged |
| PhysicWorlds.PhysicWorld.SetState | src/PhysicWorld.cpp:560-577 | the new world is `CopyIn` of the old one |
| PhysicWorlds.PhysicWorld.CopySlots | src/PhysicWorld.cpp:562-571 | every slot array becomes its `CopyIn` counterpart |
| ReplayRecorders.Count | src/replays/ReplayRecorder.cpp:240-246 | the number of enabled slots is at most the number of slots |
| ReplayRecorders.CountNone | src/replays/ReplayRecorder.cpp:71-74 | with no slot enabled the count is zero |
| ReplayRecorders.Enabled | src/replays/ReplayRecorder.cpp:209-226 | the inputs the packing loop takes: one per enabled slot |
| ReplayRecorders.EnabledSnoc | src/replays/ReplayRecorder.cpp:209-226 | one more slot adds its input exactly when it is enabled |
| ReplayRecorders.Bits | src/replays/ReplayRecorder.cpp:216 | the three input bits are below 8 |
| ReplayRecorders.Pack | src/replays/ReplayRecorder.cpp:204-231 | a tick takes one byte per two inputs, rounded up |
| ReplayRecorders.FirstByteHolds | src/replays/ReplayRecorder.cpp:215-216 | a started byte has bit 7 set, bit 6 clear, the input in bits 5..3 and bits 2..0 clear |
| ReplayRecorders.PairByteHolds | src/replays/ReplayRecorder.cpp:215-222 | a completed byte also holds the second input in bits 2..0 |
| ReplayRecorders.PackLayout | src/replays/ReplayRecorder.cpp:204-231 | byte k holds input 2k in bits 5..3 and input 2k+1, if any, in bits 2..0, with bit 7 set and bit 6 clear |
| ReplayRecorders.PackSnocEven | src/replays/ReplayRecorder.cpp:213-218 | after an even number of inputs the next input starts a new byte |
| ReplayRecorders.PackSnocOdd | src/replays/ReplayRecorder.cpp:219-224 | after an odd number of inputs the next input completes the last byte |
| ReplayRecorders.PackedTickSize | src/replays/ReplayRecorder.cpp:247 | a tick of n enabled players takes (n + 1) / 2 bytes, the bytes per step `setPlayerEnabled` computes |
| ReplayRecorders.RecordedShape | src/replays/ReplayRecorder.cpp:190-236 | a recorded tick appends exactly bytes-per-step bytes, keeps the old data, adds a save point at the old end exactly when it is due, and takes the state's scores |
| ReplayRecorders.RecordedOrdered | src/replays/ReplayRecorder.cpp:194-202 | recording keeps save points strictly increasing and inside the data |
| ReplayRecorders.TickArithmetic | src/replays/ReplayRecorder.cpp:194 | for one or two bytes per tick, a tick keeps the data whole ticks and within the periodic save points' reach |
| ReplayRecorders.BytesPerStepRange | src/replays/ReplayRecorder.cpp:247 | with four slots and at least one player a tick takes one or two bytes |
| ReplayRecorders.RecordedSeekable | src/replays/ReplayRecorder.cpp:190-236 | recording keeps save point k at or before k periods, so the loader's coarse index never lands after the position sought |
| ReplayRecorders.Recorded | src/replays/ReplayRecorder.cpp:190-236 | recording a tick keeps the enabled flags and bytes per step, only appends to the data and the save points, and keeps the recording well formed when both scores fit in 32 bits |
| ReplayRecorders.Finalized | src/replays/ReplayRecorder.cpp:279-290 | finalizing grows the data by 75 ticks' worth of bytes, sets the end scores and keeps the save points, flags and bytes per step |
| ReplayRecorders.FinalizedShape | src/replays/ReplayRecorder.cpp:279-290 | finalize appends 75 ticks of zero bytes after the kept data, keeps every save point, keeps them ordered and keeps the seek bound |
| ReplayRecorders.ToU32 | src/replays/ReplayRecorder.cpp:159 | `uint32` stores a value that fits 32 bits |
| ReplayRecorders.U32RoundTrip | src/replays/ReplayRecorder.cpp:159-180 | an `int` game speed written as `uint32` is read back unchanged |
| ReplayRecorders.NameFieldsSplit | src/replays/ReplayRecorder.cpp:150-157 | the fields of the slots below i followed by those from i on are the fields of all slots |
| ReplayRecorders.NameFields | src/replays/ReplayRecorder.cpp:150-157 | an even number of fields, at most a name and a color per slot from i on |
| ReplayRecorders.Sent | src/replays/ReplayRecorder.cpp:148-167 | `send` writes an even number of fields: six fixed ones and at most a name and a color per slot |
| ReplayRecorders.ReadNames | src/replays/ReplayRecorder.cpp:171-178 | a successful read gives one name and one color per slot |
| ReplayRecorders.Received | src/replays/ReplayRecorder.cpp:169-188 | a successful receive leaves a well-formed recording |
| ReplayRecorders.Merge | src/replays/ReplayRecorder.cpp:171-178 | slot k takes the sender's value when it is enabled and not below i, and keeps the receiver's otherwise |
| ReplayRecorders.MergeEnd | src/replays/ReplayRecorder.cpp:171-178 | past the last slot nothing is taken from the sender |
| ReplayRecorders.MergeKeep | src/replays/ReplayRecorder.cpp:173 | a disabled slot takes nothing |
| ReplayRecorders.MergeTake | src/replays/ReplayRecorder.cpp:173-177 | an enabled slot takes the sender's value |
| ReplayRecorders.ReadNamesRoundTrip | src/replays/ReplayRecorder.cpp:150-178 | the names and colors sent from slot i on are read back into the enabled slots, the rest of the stream left |
| ReplayRecorders.TransferRoundTrip | src/replays/ReplayRecorder.cpp:148-188 | for a receiver with the sender's enabled flags, receive reads back all that send wrote; the disabled slots' names and colors stay the receiver's |
| ReplayRecorders.CountFrom | src/replays/ReplayRecorder.cpp:171-178 | the enabled slots from slot i on are at most the slots left |
| ReplayRecorders.CountSplit | src/replays/ReplayRecorder.cpp:171-178 | the enabled slots below i and from i on add up to all the enabled slots |
| ReplayRecorders.NameFieldsStart | src/replays/ReplayRecorder.cpp:150-157 | `send` writes no name fields from slot i on exactly when no slot from i on is enabled, and otherwise starts with a name |
| ReplayRecorders.ReadNamesCount | src/replays/ReplayRecorder.cpp:150-178 | reading a sender's name fields by the receiver's own flags reaches the speed field only when both have equally many enabled slots left |
| ReplayRecorders.ReceiveNeedsSenderCount | src/replays/ReplayRecorder.cpp:148-188 | `receive` fails on `send`'s stream whenever the receiver has a different number of enabled slots from the sender, because the flags are not in the stream |
| ReplayRecorders.FreshRecording | src/replays/ReplayRecorder.cpp:71-74 | a fresh recorder has speed −1, nothing recorded and no slot enabled |
| ReplayRecorders.FreshReceiverMisreads | src/state/NetworkState.cpp:412-415 | as written, the client's fresh recorder fails to receive the replay of every game with an enabled slot |
| ReplayRecorders.Told | src/replays/ReplayRecorder.cpp:238-248 | the receiver after `setPlayerEnabled` holds the given flags and one byte per two enabled players, rounded up, and stays well formed |
| ReplayRecorders.ToldReceiverRoundTrip | src/replays/ReplayRecorder.cpp:148-188 | corrected: any receiver, a fresh one included, that is told the sender's flags first reads back all that `send` wrote |
| ReplayRecorders.TransferRoundTripExact | src/replays/ReplayRecorder.cpp:148-188 | a receiver that agrees with the sender on the disabled slots gets the whole recording back |
| ReplayRecorders.PlayerVars | src/replays/ReplayRecorder.cpp:108-118 | at most a name and a color attribute per slot from i on |
| ReplayRecorders.SavedDoc | src/replays/ReplayRecorder.cpp:87-147 | the saved document parses, holds a replay with a version, and has six fixed attributes plus at most two per slot; the parse is promised only for names free of `"`, `&` and `<` (see "## Left out") |
| ReplayRecorders.ReplayRecorder.constructor | src/replays/ReplayRecorder.cpp:71-74 | the recorder holds `FreshRecording`: speed −1 and nothing recorded, with the fields the source leaves unset taken as false or zero |
| ReplayRecorders.ReplayRecorder.SetPlayerEnabled | src/replays/ReplayRecorder.cpp:238-248 | the recording becomes `Told` of the old one: the flags copied and the bytes per step set to (enabled + 1) / 2 |
| ReplayRecorders.ReplayRecorder.ReceiveFor | src/replays/ReplayRecorder.cpp:169-188 | corrected download: after the flags are set, succeeds exactly when `receive` on the told recorder succeeds, and then holds what was read |
| ReplayRecorders.ReplayRecorder.SetPlayerNames | src/replays/ReplayRecorder.cpp:250-256 | copies the names, nothing else changes |
| ReplayRecorders.ReplayRecorder.SetPlayerColors | src/replays/ReplayRecorder.cpp:258-264 | copies the colors, nothing else changes |
| ReplayRecorders.ReplayRecorder.SetGameSpeed | src/replays/ReplayRecorder.cpp:266-269 | sets the speed, nothing else changes |
| ReplayRecorders.ReplayRecorder.SetGameRules | src/replays/ReplayRecorder.cpp:271-277 | sets the rules text, nothing else changes |
| ReplayRecorders.ReplayRecorder.PackedTick | src/replays/ReplayRecorder.cpp:204-231 | returns `Pack` of the enabled slots' inputs |
| ReplayRecorders.ReplayRecorder.Record | src/replays/ReplayRecorder.cpp:190-236 | the new recording is `Recorded` of the old one, and save points stay ordered |
| ReplayRecorders.ReplayRecorder.Finalize | src/replays/ReplayRecorder.cpp:279-290 | the new recording is `Finalized` of the old one |
| ReplayRecorders.ReplayRecorder.Send | src/replays/ReplayRecorder.cpp:148-167 | writes exactly `Sent` of the recording |
| ReplayRecorders.ReplayRecorder.SendNames | src/replays/ReplayRecorder.cpp:150-157 | writes the name and color of every enabled slot, in slot order |
| ReplayRecorders.ReplayRecorder.Receive | src/replays/ReplayRecorder.cpp:169-188 | succeeds exactly when the stream holds `send`'s fields, and then the recording becomes the one read |
| Numerals.DigitChar | src/replays/ReplayRecorder.cpp:83 | the character written for a digit is a decimal digit |
| Numerals.DigitValue | src/replays/ReplayLoader.cpp:255 | a digit character stands for a value below ten |
| Numerals.NatDecimal | src/replays/ReplayRecorder.cpp:83 | a number is written as at least one character, all of them digits |
| Numerals.Decimal | src/replays/ReplayRecorder.cpp:83 | an integer is written as a non-empty text |
| Numerals.NatDecimalValue | src/replays/ReplayRecorder.cpp:83 | the digits written for n denote n |
| Numerals.LeadingDigits | src/replays/ReplayLoader.cpp:255 | `stoi` reads the longest run of digits: all before the end are digits and the next character is not |
| Numerals.LeadingDigitsAll | src/replays/ReplayLoader.cpp:255 | in a string of digits the run covers the whole string |
| Numerals.LeadingSpace | src/replays/ReplayLoader.cpp:255 | the white space `stoi` skips ends at a character that is not white space |
| Numerals.Stoi | src/replays/ReplayLoader.cpp:255-279 | a value that parses fits `int`; otherwise `stoi` throws |
| Numerals.StoiNeedsDigits | src/replays/ReplayLoader.cpp:255-279 | a value without digits, the empty value of a missing attribute among them, throws |
| Numerals.StoiDecimal | src/replays/ReplayRecorder.cpp:80-85 | every `int` the recorder writes, `stoi` reads back as the same `int` |
| ReplayLoaders.Fresh | src/replays/ReplayLoader.cpp:69 | a new loader has a name, color and flag for every slot |
| ReplayLoaders.SetPlayerVar | src/replays/ReplayLoader.cpp:266-283 | the slot loop keeps one name, color and flag per slot, and a color that does not parse throws |
| ReplayLoaders.SetFixedFields | src/replays/ReplayLoader.cpp:254-265 | each of the six fixed names stores into its own field and no other |
| ReplayLoaders.ApplyVar | src/replays/ReplayLoader.cpp:244-283 | one attribute keeps one value per slot |
| ReplayLoaders.ApplyVars | src/replays/ReplayLoader.cpp:242-284 | the attribute loop keeps one value per slot |
| ReplayLoaders.NamedSlots | src/replays/ReplayLoader.cpp:287-292 | a slot is enabled exactly when its name is not empty |
| ReplayLoaders.Derived | src/replays/ReplayLoader.cpp:286-293 | the derived players keep one value per slot |
| ReplayLoaders.VersionOf | src/replays/ReplayLoader.cpp:213-239 | the version is read only from a parsed document with a `replay` node and a `version` element that has both its attributes, and the loop starts at that element |
| ReplayLoaders.Contents | src/replays/ReplayLoader.cpp:295-326 | rules, input and save points are read exactly when all three elements and their contents exist, and are their contents |
| ReplayLoaders.LoadHeader | src/replays/ReplayLoader.cpp:213-293 | a read header keeps one value per slot |
| ReplayLoaders.Load | src/replays/ReplayLoader.cpp:211-327 | a loaded replay keeps one value per slot |
| ReplayLoaders.LoadRequires | src/replays/ReplayLoader.cpp:211-327 | loading throws whenever a node, element or attribute it needs is missing; a loaded replay has the document's rules, input and save points, slots enabled by their names, their count and (count + 1) / 2 bytes per tick |
| ReplayLoaders.ApplyVarsAppend | src/replays/ReplayLoader.cpp:242-284 | the attribute loop over two lists is the loop over the first, then over the second |
| ReplayLoaders.ApplyFixed | src/replays/ReplayLoader.cpp:254-265 | a fixed attribute holding a written `int` stores that value into its field |
| ReplayLoaders.ApplyVarsCons | src/replays/ReplayLoader.cpp:242 | the loop takes the elements one at a time |
| ReplayLoaders.PlayerNameNotFixed | src/replays/ReplayLoader.cpp:254-272 | a `name_` or `color_` attribute is never taken for one of the six fixed names |
| ReplayLoaders.SetPlayerName | src/replays/ReplayLoader.cpp:268-276 | with distinct slot prefixes, the `name_` attribute of slot i sets slot i's name and nothing else |
| ReplayLoaders.SetPlayerColor | src/replays/ReplayLoader.cpp:268-281 | with distinct slot prefixes, a written `color_` attribute of slot i sets slot i's color and nothing else |
| ReplayLoaders.PlayerVarsLoad | src/replays/ReplayLoader.cpp:266-283 | the player attributes written for the enabled slots from i on restore exactly those slots' names and colors |
| ReplayLoaders.PlayerVarsStep | src/replays/ReplayRecorder.cpp:108-118 | the two attributes of one enabled slot set that slot's name and color |
| ReplayLoaders.DurationBound | src/replays/ReplayRecorder.cpp:102 | the duration written is at most the length |
| ReplayLoaders.DivAtMost | src/replays/ReplayRecorder.cpp:102 | a division by a positive number does not grow the value |
| ReplayLoaders.HeaderVarsLoad | src/replays/ReplayLoader.cpp:254-265 | the six fixed attributes `save` writes restore speed, length, duration, date and both scores |
| ReplayLoaders.SmallU32 | src/replays/ReplayLoader.cpp:337-342 | a value below 2^32 is stored unchanged in an `unsigned int` |
| ReplayLoaders.SaveLoadRoundTrip | src/replays/ReplayRecorder.cpp:87-147 | what `save` writes, `initLoading` reads back into a fresh loader: data, save points, rules, scores, speed, length, duration, date, the enabled slots with their names and colors, their count and bytes per tick, and the format version; for the actual file this holds only when the enabled names contain no `"`, `&` or `<` (see "## Left out") |
| ReplayLoaders.SavedDerived | src/replays/ReplayLoader.cpp:286-293 | the slots the loader enables from the saved names are the slots recorded, when every enabled slot has a name |
| ReplayLoaders.LoadParts | src/replays/ReplayLoader.cpp:211-327 | a load is a header read followed by the three contents |
| ReplayLoaders.SavedHeaderLoad | src/replays/ReplayLoader.cpp:213-284 | the version element and attributes `save` writes are read back |
| ReplayLoaders.SavedVarsLoad | src/replays/ReplayLoader.cpp:242-284 | the attribute loop over what `save` wrote, starting at the version element, sets the six values and the enabled slots' names and colors |
| ReplayLoaders.NoAttributesNoSlot | src/replays/ReplayLoader.cpp:266-283 | an element without name and value, such as `version`, changes no slot |
| ReplayLoaders.CoarseIndex | src/replays/ReplayLoader.cpp:174 | for a non-negative target the coarse index's save-point period lies at or before the target |
| ReplayLoaders.Scan | src/replays/ReplayLoader.cpp:186-200 | the scan ends at or after its start, on a save point past which the next one lies beyond the target, and every save point it passes lies at or before the target |
| ReplayLoaders.ScanFindsLatest | src/replays/ReplayLoader.cpp:170-203 | with increasing steps, the scan ends on the latest save point at or before the target |
| ReplayLoaders.SeekRecorded | src/replays/ReplayLoader.cpp:170-203 | for any offset inside a recording, the coarse index names an existing save point and seeking ends on the latest one at or before the offset |
| ReplayLoaders.UnpackByte | src/replays/ReplayLoader.cpp:150-156 | unpacking a byte gives back the inputs packed into it |
| ReplayLoaders.Unpack | src/replays/ReplayLoader.cpp:150-156 | the packed input is bits 5 to 3 of the byte for the first of a pair and bits 2 to 0 for the second |
| ReplayLoaders.RecordedInputsReadBack | src/replays/ReplayLoader.cpp:141-157 | byte k of a recorded tick reads back as enabled inputs 2k and 2k+1, in slot order |
| ReplayLoaders.ReplayLoader.constructor | src/replays/ReplayLoader.cpp:69 | the loader starts as `Fresh` |
| ReplayLoaders.ReplayLoader.ApplyPlayerVar | src/replays/ReplayLoader.cpp:266-283 | succeeds exactly when `SetPlayerVar` does, and then stores its names and colors |
| ReplayLoaders.ReplayLoader.ApplyVarMethod | src/replays/ReplayLoader.cpp:244-283 | succeeds exactly when `ApplyVar` does, and then takes its state |
| ReplayLoaders.ReplayLoader.LoadVars | src/replays/ReplayLoader.cpp:242-284 | succeeds exactly when `ApplyVars` does, and then takes its state |
| ReplayLoaders.ReplayLoader.DerivePlayers | src/replays/ReplayLoader.cpp:286-293 | the new state is `Derived` of the old |
| ReplayLoaders.ReplayLoader.MarkNamedSlots | src/replays/ReplayLoader.cpp:287-292 | the flags are `NamedSlots` of the names, and the count is their count |
| ReplayLoaders.ReplayLoader.ReadHeader | src/replays/ReplayLoader.cpp:213-293 | succeeds exactly when `LoadHeader` does, and then takes its state |
| ReplayLoaders.ReplayLoader.InitLoading | src/replays/ReplayLoader.cpp:211-327 | succeeds exactly when `Load` does, and then takes its state |
| ReplayLoaders.ReplayLoader.GetSavePoint | src/replays/ReplayLoader.cpp:170-203 | a coarse index past the save points gives −1 and leaves the out-parameter; otherwise the index the scan ends on and its step |
| ReplayLoaders.ReplayLoader.IsSavePoint | src/replays/ReplayLoader.cpp:159-164 | true exactly when seeking finds a save point lying at the position itself |
| ReplayLoaders.ReplayLoader.GetInputAt | src/replays/ReplayLoader.cpp:141-157 | the input read at a step is bits 5 to 3 or 2 to 0 of the byte at `offset + step`, taken as a 32-bit unsigned index |
| ReplayLoaders.ReplayLoader.GetFinalScore | src/replays/ReplayLoader.cpp:105-113 | each side's score, read back into `int` |
| NetworkGames.SwappedPlayerIndex | src/server/NetworkGame.cpp:564-573 | on a slot it is the other slot of the same pair, and a negative index stays negative |
| NetworkGames.SwappedInvolution | src/server/NetworkGame.cpp:564-573 | on the slots the swap stays in range, changes team and undoes itself |
| NetworkGames.SwappedNoSide | src/server/NetworkGame.cpp:567-581 | `NO_SIDE` swaps to −2, sent as the byte 254 |
| NetworkGames.SideOf | src/server/NetworkGame.cpp:218-231 | the slot found is enabled and carries the ID, and no slot before it does |
| NetworkGames.Started | src/server/NetworkGame.cpp:479-487 | a game whose every slot has answered, or that has no enabled slot, counts as started |
| NetworkGames.Unpaused | src/server/NetworkGame.cpp:489-497 | a game with no pause flag set, or with no enabled slot, counts as unpaused |
| NetworkGames.Created | src/server/NetworkGame.cpp:49-93 | after construction the game is valid and the match not paused; enabled slots hold their ID, switch flag and name and have not answered the rules; the pause flags are whatever they held (`unset`); the game counts as started exactly when no slot is enabled |
| NetworkGames.AsWrittenUnpauseBeforePause | src/server/NetworkGame.cpp:317-340 | as written, with slots 0 and 1 enabled and slot 1's never-set pause flag holding true, an unpause from slot 0 before any pause is answered "still paused" |
| NetworkGames.FreshUnpauseResumes | src/server/NetworkGame.cpp:317-340 | with the pause flags cleared at construction a fresh game is unpaused and answers any unpause by resuming |
| NetworkGames.Disconnected | src/server/NetworkGame.cpp:239-273 | a disconnect keeps one flag per slot |
| NetworkGames.PausedBy | src/server/NetworkGame.cpp:295-314 | a pause keeps one flag per slot |
| NetworkGames.UnpausedBy | src/server/NetworkGame.cpp:317-340 | an unpause keeps one flag per slot |
| NetworkGames.DisconnectValidity | src/server/NetworkGame.cpp:253-270 | the player is disabled and the match paused; a valid game stays valid exactly when another enabled slot of the player's parity remains, and an invalid one stays invalid |
| NetworkGames.PauseBlocksUnpaused | src/server/NetworkGame.cpp:310-313 | after a pause from an enabled slot every flag is set, so the game is not unpaused |
| NetworkGames.UnpauseResumes | src/server/NetworkGame.cpp:329-338 | the sender's flag is cleared; the game becomes unpaused exactly when every other enabled slot is unpaused, and only then does the match resume |
| NetworkGames.RulesStart | src/server/NetworkGame.cpp:399-412 | once the last enabled slot has answered, the game is started |
| NetworkGames.SwapSlots | src/server/NetworkGame.cpp:425-445 | a switched client's view holds at each slot its partner's value |
| NetworkGames.MapPartner | src/server/NetworkGame.cpp:425-445 | each slot listed is replaced by its partner, in place |
| NetworkGames.MapPartnerAppend | src/server/NetworkGame.cpp:425-445 | replacing by partners distributes over concatenation |
| NetworkGames.SwitchedOrderMirrors | src/server/NetworkGame.cpp:425-445 | the switched order the server writes is the partners of the plain order over the swapped flags from the swapped slot, so a switched client gets each name at the slot it shows |
| NetworkGames.MapPartnerSlot | src/server/NetworkGame.cpp:427-440 | one slot of the swapped view maps to its partner's slot in the real one |
| NetworkGames.SwitchedOrderUnrolled | src/server/NetworkGame.cpp:427-443 | the switched order is slots 1, 0, 3, 2, each when listed |
| NetworkGames.PlainOrderUnrolled | src/server/NetworkGame.cpp:447-454 | the plain order is slots 0, 1, 2, 3, each when listed |
| NetworkGames.Slot | src/server/NetworkGame.cpp:449 | a slot is listed alone or not at all |
| NetworkGames.PlainOrderContents | src/server/NetworkGame.cpp:447-454 | the plain order lists exactly the other enabled slots, each once, in increasing order |
| NetworkGames.EventTokens | src/server/NetworkGame.cpp:576-585 | an event is three items for a ball–blob hit and two otherwise |
| NetworkGames.EventsBody | src/server/NetworkGame.cpp:600-602 | each event takes two or three tokens |
| NetworkGames.EventsStream | src/server/NetworkGame.cpp:600-603 | the event stream is the events followed by a final 0 byte |
| NetworkGames.EventsBodyCons | src/server/NetworkGame.cpp:600-603 | the stream begins with the first event's items, followed by the rest's |
| NetworkGames.TeamTextJoins | src/server/NetworkGame.cpp:617-639 | with non-empty names, each team's text is its enabled names in slot order joined by ", ", and it is empty exactly when the team has no one |
| NetworkGames.TeamText | src/server/NetworkGame.cpp:622-639 | a team with no enabled slot gets empty text |
| NetworkGames.GameName | src/server/NetworkGame.cpp:617-642 | with no enabled slot the game name is " vs " |
| NetworkGames.GameNameTeams | src/server/NetworkGame.cpp:617-642 | the game's name is the even-slot names joined by ", ", " vs ", and the odd-slot names joined by ", " |
| NetworkGames.StepCalls | src/server/NetworkGame.cpp:499-534 | a tick does nothing exactly when the game is not started or is paused |
| NetworkGames.StepOrder | src/server/NetworkGame.cpp:499-534 | a running tick records, steps the match and broadcasts the events, and broadcasts the state last; a win pauses, records again, finalizes, and announces the winner, to switched clients as the other side |
| NetworkGames.Construct | src/server/NetworkGame.cpp:49-93 | the constructor throws exactly when an enabled slot's player is already in a game, and otherwise gives `Created` |
| NetworkGames.NetworkGame.constructor | src/server/NetworkGame.cpp:49-93 | built only when no enabled slot's player is in a game, where `Construct` gives this state; the new server state is `Created` with every pause flag cleared: enabled slots take their ID, switch flag and name, disabled slots get ID 0, no switch and an empty name; no rules are sent; the game is valid, not paused and unpaused |
| NetworkGames.NetworkGame.GetPlayerSide | src/server/NetworkGame.cpp:218-231 | the first enabled slot with the sender's ID |
| NetworkGames.NetworkGame.IsGameStarted | src/server/NetworkGame.cpp:479-487 | true exactly when every enabled slot has answered the rules |
| NetworkGames.NetworkGame.IsGameUnpaused | src/server/NetworkGame.cpp:489-497 | true exactly when no enabled slot is paused |
| NetworkGames.NetworkGame.OnDisconnect | src/server/NetworkGame.cpp:239-273 | the new state and the broadcast are `Disconnected` at the sender's slot |
| NetworkGames.NetworkGame.OnPause | src/server/NetworkGame.cpp:295-314 | the new state and the broadcast are `PausedBy` at the sender's slot |
| NetworkGames.NetworkGame.OnUnpause | src/server/NetworkGame.cpp:317-340 | the new state and the broadcast are `UnpausedBy` at the sender's slot |
| NetworkGames.NetworkGame.OnRules | src/server/NetworkGame.cpp:391-465 | marks the sender's rules as sent and changes nothing else; the rules go back when asked for, and once started every enabled client gets its slot order |
| NetworkGames.NetworkGame.ReadyAll | src/server/NetworkGame.cpp:418-460 | one game-ready message per enabled slot, in slot order |
| NetworkGames.NetworkGame.ReadyOrder | src/server/NetworkGame.cpp:425-455 | the switched order for a switched client, the plain order otherwise |
| NetworkGames.NetworkGame.SwitchedReadyOrder | src/server/NetworkGame.cpp:425-444 | the loop for a switched client lists the slots of `SwitchedOrder`: each pair's right-hand slot first |
| NetworkGames.NetworkGame.PlainReadyOrder | src/server/NetworkGame.cpp:445-455 | the loop for a plain client lists the slots of `PlainOrder`: the other enabled slots in order |
| NetworkGames.NetworkGame.BroadcastGameEvents | src/server/NetworkGame.cpp:587-609 | nothing for no events; otherwise one stream per enabled slot, side-switched for switched clients |
| NetworkGames.NetworkGame.GetGameName | src/server/NetworkGame.cpp:617-642 | the game's name as `GameName` defines it |
| NetworkGames.NetworkGame.Step | src/server/NetworkGame.cpp:499-534 | the calls are `StepCalls`; the match becomes paused exactly on a win; validity is kept |
| NetworkGames.WriteEvents | src/server/NetworkGame.cpp:600-603 | the events' items in order, then the 0 byte |
| MatchMakers.Erase | src/server/MatchMaker.cpp:146-157 | erasing the found player takes exactly one copy of it off the list, and nothing when it is absent |
| MatchMakers.NewGame | src/server/MatchMaker.cpp:38-63 | a new game is tidy, has its creator as its only connected player and in the first team, an empty second team, and the requested speed, rules and points |
| MatchMakers.RemovedFrom | src/server/MatchMaker.cpp:136-162 | removing a player from a game takes one copy of it out of the connected list and of each team, and keeps the game's settings |
| MatchMakers.Joined | src/server/MatchMaker.cpp:204-208 | a joining player is appended to the connected list and the teams together grow by one; the settings are kept |
| MatchMakers.TeamChanged | src/server/MatchMaker.cpp:219-231 | a first-team player ends in the second team and any other in the first; connected players and settings are kept |
| MatchMakers.TidyTeams | src/server/MatchMaker.cpp:54-56 | in a tidy game a connected player is in exactly one team, once |
| MatchMakers.TeamChangedTidy | src/server/MatchMaker.cpp:219-231 | changing team keeps the game tidy, moves the player to the other team and leaves `connected` alone |
| MatchMakers.TeamChangedTwice | src/server/MatchMaker.cpp:219-231 | changing team twice puts the player back in its team |
| MatchMakers.EraseNoDup | src/server/MatchMaker.cpp:146-149 | erasing from a list without duplicates removes the player entirely and keeps everyone else |
| MatchMakers.EraseTeams | src/server/MatchMaker.cpp:146-157 | erasing a player from `connected` and from its team keeps the teams together equal to `connected` |
| MatchMakers.RemovedFromTidy | src/server/MatchMaker.cpp:136-162 | removing a connected player who is not the creator keeps the game tidy and leaves the player in neither list |
| MatchMakers.JoinedTidy | src/server/MatchMaker.cpp:204-208 | a player in no team joins and the game stays tidy |
| MatchMakers.JoinedBalance | src/server/MatchMaker.cpp:205-208 | joining adds one player and keeps the first team equal to or one larger than the second |
| MatchMakers.JoinOrderTeams | src/server/MatchMaker.cpp:204-208 | in a game built by joins only, the first team is the players at even positions of the join order and the second those at odd positions |
| MatchMakers.MinOf | src/server/MatchMaker.cpp:113 | the least key of a non-empty set |
| MatchMakers.FirstKey | src/server/MatchMaker.cpp:113 | the least key, in map order, or none for no keys |
| MatchMakers.FirstKeyIs | src/server/MatchMaker.cpp:113 | a member no larger than any other is the first key |
| MatchMakers.CreatedBy | src/server/MatchMaker.cpp:113 | the first game in key order whose creator is the player, or none when there is no such game |
| MatchMakers.GameWith | src/server/MatchMaker.cpp:215-217 | the first game in key order the player is connected to, or none |
| MatchMakers.WithoutPlayer | src/server/MatchMaker.cpp:110-134 | only the game the player created is deleted |
| MatchMakers.LeftAll | src/server/MatchMaker.cpp:110-134 | leaving all games keeps the players, the counter and the flag, and only ever closes games |
| MatchMakers.RemovedPlayer | src/server/MatchMaker.cpp:173-180 | removing a player drops exactly that player from the player map, keeps the counter and the flag, and only ever closes games |
| MatchMakers.JoinedGame | src/server/MatchMaker.cpp:182-211 | joining keeps the players, the counter and the flag, and only ever closes games |
| MatchMakers.ChangedTeam | src/server/MatchMaker.cpp:213-240 | a team change keeps the players, the counter, the open games and every game's connected list |
| MatchMakers.CreatorUnique | src/server/MatchMaker.cpp:113-119 | in tidy games a game's creator created no other, so `find_if` finds that game |
| MatchMakers.WithoutPlayerTidy | src/server/MatchMaker.cpp:110-134 | afterwards the games are tidy, the player is in none and created none, and every other player's memberships are unchanged |
| MatchMakers.RemovedPlayerTidy | src/server/MatchMaker.cpp:173-180 | after `removePlayer` the lobby is tidy and the player is unknown and connected nowhere |
| MatchMakers.JoinedGameTidy | src/server/MatchMaker.cpp:182-211 | joining keeps the lobby tidy, and a known player joining an existing game is connected to that game and no other |
| MatchMakers.WithoutPlayerKnown | src/server/MatchMaker.cpp:173-180 | after leaving all games, every connected player is still known, even once the leaving player is forgotten |
| MatchMakers.JoinAtKnown | src/server/MatchMaker.cpp:188-208 | a known player joining keeps everyone connected known |
| MatchMakers.JoinAtTidy | src/server/MatchMaker.cpp:204-208 | a player connected nowhere joining one game keeps the games tidy |
| MatchMakers.ChangedTeamTidy | src/server/MatchMaker.cpp:213-240 | changing team keeps the lobby tidy and moves the player to the other team of its first game |
| MatchMakers.ReplacedTidy | src/server/MatchMaker.cpp:219-231 | replacing a game by a tidy one with the same connected players keeps the lobby tidy and its players known |
| MatchMakers.OpenedTidy | src/server/MatchMaker.cpp:54-62 | opening a game after leaving all games, under a free ID, keeps the lobby tidy |
| MatchMakers.AddedTidy | src/server/MatchMaker.cpp:74 | a tidy game of known players who are in no other game, added under a free key, keeps the lobby tidy |
| MatchMakers.RemovedPlayersTidy | src/server/MatchMaker.cpp:296-298 | removing the host game's players keeps the lobby tidy, drops no new games, and leaves none of those players known, connected, or a creator |
| MatchMakers.Dist | src/server/MatchMaker.cpp:69-72 | the number of increments is below 2^32 and zero exactly at the start |
| MatchMakers.NextId | src/server/MatchMaker.cpp:71 | `++` on an `unsigned` wraps at 2^32 |
| MatchMakers.Range | src/server/MatchMaker.cpp:69-72 | the set of the first n IDs has n elements |
| MatchMakers.SubsetCard | src/server/MatchMaker.cpp:69-72 | a subset is no larger than the set it is taken from |
| MatchMakers.FreeBelow | src/server/MatchMaker.cpp:69-72 | fewer than n keys leave a key below n free |
| MatchMakers.FreeIdExists | src/server/MatchMaker.cpp:69-72 | with fewer than 2^32 games some 32-bit ID is free, so the search ends |
| MatchMakers.DistStep | src/server/MatchMaker.cpp:69-72 | each step over a taken ID comes one step nearer to a free one |
| MatchMakers.FirstFreeUnique | src/server/MatchMaker.cpp:69-74 | the first free ID the counter reaches is unique |
| MatchMakers.FirstFreeNoWrap | src/server/MatchMaker.cpp:69-74 | when an ID at or above the counter is free, the ID found is the least free one at or above the counter |
| MatchMakers.FindFirst | src/server/MatchMaker.cpp:113 | returns the first key in map order |
| MatchMakers.TidyMembersKnown | src/server/MatchMaker.cpp:268-269 | in a tidy lobby every team member is a known player, so `startGame`'s lookups succeed |
| MatchMakers.JoinOrderSlots | src/server/MatchMaker.cpp:264-288 | in a game built by joins only, slot i goes to the i-th player to connect |
| MatchMakers.MatchMaker.constructor | src/server/MatchMaker.cpp:38-85 | an empty lobby, which is tidy |
| MatchMakers.MatchMaker.SetAllowNewGames | src/server/MatchMaker.cpp:40 | sets the flag `openGame` tests, nothing else changes |
| MatchMakers.MatchMaker.AddGame | src/server/MatchMaker.cpp:65-85 | stores the game under the first free ID the wrapping counter reaches, leaves the counter there, and returns that ID |
| MatchMakers.MatchMaker.RemoveGame | src/server/MatchMaker.cpp:87-108 | deletes exactly that game |
| MatchMakers.MatchMaker.RemovePlayerFromGame | src/server/MatchMaker.cpp:136-162 | that game becomes `RemovedFrom`, nothing else changes |
| MatchMakers.MatchMaker.RemovePlayerFromAllGames | src/server/MatchMaker.cpp:110-134 | the new lobby is `LeftAll` of the old |
| MatchMakers.MatchMaker.LeaveGames | src/server/MatchMaker.cpp:122-133 | the player leaves every game it is connected to; nothing else changes |
| MatchMakers.MatchMaker.AddPlayer | src/server/MatchMaker.cpp:164-171 | adds the player to the map, nothing else changes |
| MatchMakers.MatchMaker.RemovePlayer | src/server/MatchMaker.cpp:173-180 | the new lobby is `RemovedPlayer` of the old |
| MatchMakers.MatchMaker.OpenGame | src/server/MatchMaker.cpp:38-63 | refused with `(unsigned)-1` and no change when new games are off or the creator unknown; otherwise the creator leaves all games and its new game, with only the creator connected and in the first team, is added under the first free ID |
| MatchMakers.MatchMaker.JoinGame | src/server/MatchMaker.cpp:182-211 | the new lobby is `JoinedGame` of the old |
| MatchMakers.MatchMaker.ChangePlayerTeam | src/server/MatchMaker.cpp:213-240 | the new lobby is `ChangedTeam` of the old |
| MatchMakers.MatchMaker.AssignSlots | src/server/MatchMaker.cpp:254-288 | the first team fills slots 0, 2, … and the second team slots 1, 3, … in list order; exactly those slots are enabled, and a slot is switched exactly when its player wants the other side |
| MatchMakers.MatchMaker.StartGame | src/server/MatchMaker.cpp:243-299 | without a game created by the host nothing changes; when the game's rules or speed index is outside its list the lookup fails before any change; otherwise the request assigns the game's slots and every connected player is then removed from the lobby |
| MatchMakers.MatchMaker.RemovePlayers | src/server/MatchMaker.cpp:296-298 | the lobby after `removePlayer` for each player in turn |
| NetworkStates.SpaceAtOrBelow | src/state/NetworkState.cpp:668-672 | the loop stops at index 0 or at a space, and passes no space on the way down |
| NetworkStates.ChatLines | src/state/NetworkState.cpp:665-690 | a chat text becomes one or two entries |
| NetworkStates.ChatLinesCount | src/state/NetworkState.cpp:665-690 | two entries exactly when the text is longer than 31 characters and has a space at an index in 1..31; one otherwise |
| NetworkStates.ChatLinesJoin | src/state/NetworkState.cpp:673-684 | a single entry is the whole text; two entries are the text split at its last space in 1..31, with only that space dropped and a first entry of at most 31 characters |
| NetworkStates.CText | src/state/NetworkState.cpp:393-398 | the received buffer's text is its longest prefix free of NUL characters |
| NetworkStates.ReadEvent | src/state/NetworkState.cpp:186-193 | an event read takes two tokens, or three for a ball–blob hit, and never more than the stream holds |
| NetworkStates.ThenAppend | src/state/NetworkState.cpp:186-195 | collecting events one by one is collecting them all at once |
| NetworkStates.ArrivedAll | src/state/NetworkState.cpp:186-195 | each event the server sent arrives as one event, in order |
| NetworkStates.ArrivedAllCons | src/state/NetworkState.cpp:186-195 | the first event arrives first |
| NetworkStates.ReadEventTokens | src/state/NetworkState.cpp:185-193 | an event the server writes reads back, whatever follows it, as its kind, the side written, and the intensity only for a ball–blob hit (−1 otherwise) |
| NetworkStates.DecodeStep | src/state/NetworkState.cpp:186-195 | a stream whose first byte is not 0 decodes to its first event, then the rest |
| NetworkStates.DecodeEvents | src/state/NetworkState.cpp:179-196 | a stream that decodes holds more than two tokens per decoded event |
| NetworkStates.StreamCons | src/server/NetworkGame.cpp:600-603 | the server writes the first event's items, then the stream of the rest |
| NetworkStates.DecodeStreamStep | src/state/NetworkState.cpp:186-195 | decoding a server stream yields the first event as it arrives, then the rest |
| NetworkStates.DecodeEventsStream | src/state/NetworkState.cpp:179-196 | decoding inverts the server's stream: every event comes back, in order, with the side written and the intensity only where it was sent |
| NetworkStates.ReadEvents | src/state/NetworkState.cpp:179-196 | the events read are `DecodeEvents` of the stream |
| NetworkStates.Chatted | src/state/NetworkState.cpp:662-692 | the log and the origins grow by the same count, and the last entry is selected |
| NetworkStates.PauseOnlyWhenActive | src/state/NetworkState.cpp:239-252 | `ID_PAUSE` pauses a playing or waiting client and changes nothing otherwise |
| NetworkStates.WonSurvivesDisconnects | src/state/NetworkState.cpp:213-238 | once a player has won, neither a leaving opponent nor a lost connection changes anything |
| NetworkStates.WonLeftOnlyBy | src/state/NetworkState.cpp:198-400 | only an unpause that continues the game, the game-ready packet or a full server moves a client out of `PLAYER_WON` |
| NetworkStates.ContinueResumes | src/state/NetworkState.cpp:276-280 | an unpause that continues the game, like the game-ready packet, ends in `PLAYING` with the match running |
| NetworkStates.Received | src/state/NetworkState.cpp:198-400 | a packet never enables a slot, only appends to the chat log, and leaves a won game won unless it is a no-free-connections, unpause or game-ready packet |
| NetworkStates.OpponentLeftEffect | src/state/NetworkState.cpp:225-235 | an opponent who leaves with `continueGame` is disabled and the match pauses; otherwise the client reports the disconnect |
| NetworkStates.ReceivedKeepsChat | src/state/NetworkState.cpp:662-692 | every packet keeps the log and the origins in step with the last entry selected, and adds at most two entries |
| NetworkStates.NetworkGameState.constructor | src/state/NetworkState.cpp:62-83 | waiting for the opponent with the match paused, no winner and an empty chat |
| NetworkStates.NetworkGameState.AppendChat | src/state/NetworkState.cpp:662-692 | the new state is `Chatted` of the old |
| NetworkStates.NetworkGameState.ProcessPacket | src/state/NetworkState.cpp:198-400 | the new state is `Received` of the old |
| GameStates.Shortened | src/state/GameState.cpp:223-231 | `resize` keeps the first min(7, length) characters |
| GameStates.DefaultReplayName | src/state/GameState.cpp:218-231 | the default name holds the 4 characters of " vs " and at most one shortened name on either side |
| GameStates.DefaultReplayNameShape | src/state/GameState.cpp:218-231 | the name is the left name's first min(7, length) characters, " vs ", and the right name's first min(7, length); at most 18 characters; short names are kept whole |
| GameStates.DefaultReplayNameFrontSlots | src/state/GameState.cpp:220-231 | only the `LEFT_PLAYER` and `RIGHT_PLAYER` names influence the name |
| GameStates.FindColon | src/state/GameState.cpp:191 | the index of the first colon, or `npos` exactly when there is none |
| GameStates.Substr | src/state/GameState.cpp:192-193 | `substr` takes no more than what lies after the position |
| GameStates.ErrorParts | src/state/GameState.cpp:184-202 | neither line of the error box is longer than the message |
| GameStates.ErrorPartsColon | src/state/GameState.cpp:191-193 | with a colon, the first line is the text before the first colon and the second the text after it, so nothing else is lost |
| GameStates.ErrorPartsNoColon | src/state/GameState.cpp:191-193 | without a colon, `npos + 1` wraps to 0 and both lines show the whole message |
| GameStates.ReplayPath | src/state/GameState.cpp:256 | the path is "replays/", the name and ".bvr" |
| GameStates.ErrorPartsOf | src/state/GameState.cpp:191-193 | a colon-free kind, a colon and a rest shows the kind, then the rest |
| GameStates.SaveErrorShown | src/state/GameState.cpp:265-279 | each failure leaves a non-empty message whose box shows the failure's kind, then the file name |
| GameStates.SaveError | src/state/GameState.cpp:265-279 | the message for a failed write is more than 20 characters long, so the prompt always has something to show |
| GameStates.Saved | src/state/GameState.cpp:250-280 | `saveReplay` never changes the file name, and when a name was given and the prompt is to stay open an error message is set |
| GameStates.SavedEffect | src/state/GameState.cpp:250-280 | with no name nothing happens; otherwise only the write to "replays/<name>.bvr" decides: success clears the retry flag, a failure sets it with a non-empty message; the name never changes |
| GameStates.GameState.constructor | src/state/GameState.cpp:38-40 | no replay pending and no error |
| GameStates.GameState.SetDefaultReplayName | src/state/GameState.cpp:218-231 | the name becomes `DefaultReplayName` of the players' names, nothing else changes |
| GameStates.GameState.SaveReplay | src/state/GameState.cpp:250-280 | the new state is `Saved` of the old |
| GameStates.GameState.SaveReplayPrompt | src/state/GameState.cpp:164-182 | saves exactly when OK is pressed, Cancel is not, and there is a name; Cancel drops the pending save |
| GameStates.GameState.DisplayErrorMessageBox | src/state/GameState.cpp:184-202 | the two lines are `ErrorParts` of the message, and OK clears it |

## Left out

- Floating point: coordinates, velocities, rotation and event intensity are `real`s, so
  single-precision rounding is not modelled and no bitwise equality is claimed. The FPU
  control code (src/PhysicWorld.cpp:584-618) is I/O against the processor.
- Collision geometry: the impact tests and the vector arithmetic of
  `handleBlobbyBallCollision`, `handleBlobbiesCollision` and the net-top branch of
  `handleBallWorldCollisions` (src/PhysicWorld.cpp:246-336, 477-509) use `sqrt`,
  normalisation and reflection, and Vector.h is not part of this model. They enter as
  the uninterpreted `PhysicWorlds.Geometry` parameter, which also gives the ball's speed.
  What does not depend on them is modelled: which slots are handed to each routine and
  in which order, which blobs a routine may move, the hit-intensity clamp, the ground,
  border and net branches, and the events with their order.
- The rules engine (`createGameLogic`, `transformInput`, the Lua scripts) and the physics
  integrator enter `DuelMatches` as uninterpreted functions. The input sources' reads are
  given as values. `getClock`, `setPlayers`, `setInputSource`, `setRules` and the plain
  field getters of `DuelMatch` are simple forwarding and are not modelled.
- Network transport: RakNet sends and receives, `BitStream` bit packing and
  `SocketLayer.h` are I/O. Streams are sequences of typed tokens, and the bytes of the
  event stream are `Token` bytes.
- `NetworkGames`: the constructor's rules checksum send (src/server/NetworkGame.cpp:103-137),
  the game thread and the packet queue (141-216), `ID_INPUT_UPDATE` (275-292), the chat
  relay and `ID_REPLAY` (343-375), `broadcastPhysicState` (536-562) and the speed
  controller are concurrency or transport. They are not modelled. The constructor
  leaves `mSwitchedSide` and `mRulesSent` of disabled slots unset, and sets `mPaused`
  for no slot at all. `NetworkGames.Created` keeps those flags as its parameter
  `unset`; `NetworkGames.NetworkGame.constructor` clears them, which for `mPaused` is
  the corrected behaviour of the Findings row.
- NetworkGames.NetworkGame.constructor requires that no enabled slot's player is already
  in a game (`inGame`). The source throws `runtime_error` there
  (src/server/NetworkGame.cpp:73-74); a Dafny constructor cannot fail, so that case is
  the `None` of `NetworkGames.Construct`. The model takes player IDs and an `inGame`
  flag per slot, not `NetworkPlayer` objects.
  `NetworkGames.NetworkGame.Step` takes the rules' winning side as a parameter.
- `MatchMakers`: MatchMaker.h is not part of this model, so `mIDCounter` is taken as a
  32-bit unsigned integer and the constructor takes the counter and `allowNewGames` as
  parameters. The open-game list and status broadcasts (`sendOpenGameList`,
  `broadcastOpenGameStatus`, `mSendPacket`) are transport. The contents of the rules-file
  and speed lists and the `mCreateGame` call are foreign: `startGame` takes the two list
  lengths, fails without any change when an index is outside its list (the throw of
  `at`), and otherwise passes the indices through in the game request.
- MatchMakers.MatchMaker.StartGame: after `removePlayer` erased the game, the source keeps
  iterating that game's `connected` list, which is undefined behaviour
  (src/server/MatchMaker.cpp:297-298). The model iterates a copy taken before the erase.
- MatchMakers.MatchMaker.StartGame requires `Startable` of the host's game: at most two
  players per team, each of them a known player. These are what the source's `assert`s
  in `startGame` check. `joinGame` does no capacity check, so no invariant guarantees
  the team sizes.
- MatchMakers.MatchMaker.AddGame requires fewer than 2^32 open games. With every ID
  taken, the source's search for a free ID would never end.
- Persistence: TinyXML parsing, base64 encoding, the `FileRead`/`FileWrite` calls and
  rules-file reading are libraries not shown. `ReplayLoaders` reads an already-parsed
  `ReplayDoc` of named variables and byte blobs. `ReplayRecorders.SavedDoc` models the
  attributes `save` writes, not its XML text. The rules text is given already trimmed.
- ReplayRecorders.SavedDoc: `writeAttribute` (src/replays/ReplayRecorder.cpp:79-85)
  writes every value unescaped, player names included (line 114); only the rules go
  through `EncodeString` (line 123). A name holding `"` ends its attribute early, so the
  file does not parse and `initLoading` throws (src/replays/ReplayLoader.cpp:215-218);
  a name holding entity text such as `&amp;` is read back decoded. The model works on
  the parsed document, not on characters, so `SavedDoc` always ensures `!parseError`.
  That promise holds of the real file only for names free of `"`, `&` and `<`.
- ReplayLoaders.SaveLoadRoundTrip: for the same reason, it holds of the real file only
  when every enabled slot's name is free of `"`, `&` and `<`.
- ReplayRecorders.Duration and ReplayRecorders.SavedDoc require a positive game speed
  and a positive bytes per step. `save` divides the data length by their product
  (src/replays/ReplayRecorder.cpp:102). A zero speed, or no enabled slot, divides by
  zero there. With a negative speed, such as the −1 of a fresh recorder, the divisor
  becomes a very large unsigned size, since the data length is unsigned; the exact
  value depends on the field types in ReplayRecorder.h, which is not part of this model.
  Neither case is modelled.
- `ReplayLoaders`: `assert(stoi(major) == 2)` is not modelled because the version
  dispatch happens outside the loader class. Fields the source leaves uninitialised are
  taken as zero. `mReplayOffset` is the `offset` parameter of `GetInputAt`. The save-point
  blob is decoded as given, by the snapshot deserializers. `getPlayerPrefix` is a
  parameter `prefix`; the round trip requires the prefixes to be distinct.
- ReplayLoaders.CoarseIndex, ReplayLoaders.ReplayLoader.GetSavePoint and
  ReplayLoaders.ReplayLoader.IsSavePoint require a positive bytes per step. For a
  replay with no named slot the bytes per step is 0, and the source divides by zero
  (src/replays/ReplayLoader.cpp:174).
- `ReplayRecorders`: `std::time(0)` is the parameter `date` and colors are integers.
- ReplayRecorders.ReplayRecorder.Receive: on a stream that is too short or carries a
  token of the wrong kind, the new state is not specified. The source reads garbage there.
- ReplayRecorders.TransferRoundTrip requires the receiver to have the sender's enabled
  flags. `receive` reads names and colors for the receiver's own enabled slots, and the
  stream does not carry the flags. The only caller, the client's `ID_REPLAY` branch
  (src/state/NetworkState.cpp:412-415), receives into a fresh recorder without setting
  any flag; `FreshReceiverMisreads` and the Findings row state what that does.
- ReplayRecorders.ReplayRecorder.constructor: the source constructor sets only the speed.
  ReplayRecorder.h is not part of this model, so the enabled flags, names, colors, end
  scores and bytes per step it leaves unset are taken as false, empty and zero
  (`FreshRecording`). `ReceiveNeedsSenderCount` holds for whatever flags a fresh
  recorder holds.
- `NetworkStates`: drawing, sounds, SDL and the IMGUI flow are left out. TextManager
  strings are parameters (`ClientEnv`). `GAME_READY`'s name and color reads and
  `setDefaultReplayName`, the `ID_RULES` file write and `ID_REPLAY` are not modelled
  because they talk to files and the UI. The local chat send
  (src/state/NetworkState.cpp:644-655) is
  `NetworkStates.NetworkGameState.AppendChat` with `local` set.
- NetworkStates.DecodeEvents: an unknown event code or a short stream gives `None`.
  The source would produce an out-of-range enum value for an unknown code. What a
  failed `BitStream` read does is not part of this model: if it leaves the event code
  at its last non-zero value, the source's read loop would not end.
- `GameStates`: drawing and the IMGUI calls are left out. Writing the replay file is a
  parameter `write` that says how the write ends; no file is written.
- Header-only files (NetworkGame.h, LobbyStates.h, PhysicState.h, LocalGameState.h) give
  field names only. LocalGameState.cpp and MouseInput.cpp are UI and input devices.

## Findings

| source | as written | input that shows it | evidently intended | confidence | as-written member | corrected member |
|---|---|---|---|---|---|---|
| src/PhysicWorld.cpp:374 | `mPlayerEnabled[i] && mPlayerEnabled[j] & handleBlobbiesCollision(...)` evaluates `handleBlobbiesCollision` whenever slot i is enabled, because `&` does not short-circuit | enabled = [true, true, false, false]: pair (0, 2) is handed to the collision routine although slot 2 is disabled, and an impact moves the disabled blob 2 | `&&`, so only pairs of two enabled slots collide | not executed | `PhysicWorlds.PairCallsAsWrittenReachDisabledSlot`, `PhysicWorlds.AsWrittenMovesDisabledBlob` | `PhysicWorlds.PairCallsFixedComplete`, `PhysicWorlds.StepBlobsBounds` with `fixed` |
| src/server/NetworkGame.cpp:49-93 | the constructor never sets `mPaused`, and `isGameUnpaused` (line 493) reads it for every enabled slot | two enabled slots, slot 1's flag holding `true`: an unpause from slot 0 before anybody paused is answered "still paused" | every pause flag cleared in the constructor | not executed | `NetworkGames.AsWrittenUnpauseBeforePause` | `NetworkGames.FreshUnpauseResumes` |
| src/state/NetworkState.cpp:412-415 | the client receives the server's replay into a fresh `ReplayRecorder` without setting its enabled flags, and `receive` (src/replays/ReplayRecorder.cpp:171-178) reads names and colors only for the receiver's own enabled slots, which the stream does not carry | any game with an enabled slot, received by a recorder whose flags are all false: the speed read meets a name and the download fails; with any other fixed flags, a game with a different number of players fails in the same way | the receiver set to the sender's enabled flags before `receive` | not executed; medium, because ReplayRecorder.h with any initialisers is not part of this model | `ReplayRecorders.FreshReceiverMisreads`, `ReplayRecorders.ReceiveNeedsSenderCount` | `ReplayRecorders.ToldReceiverRoundTrip`, `ReplayRecorders.ReplayRecorder.ReceiveFor` |
