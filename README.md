# Roguelike dungeon, doors, health, coins and weapons — a Dafny model

This project models the gameplay core of a Unity roguelike. That core is
the dungeon generator, the rooms and their doors, the health and coin
components, the weapon inventory, the weapon shop and the projectile pool.
Everything is stated and proved in Dafny.

- **Dungeon generator.** `DungeonGenerator` builds a square grid of side
  `2*maxRooms-1` and places the Start room at its centre. Rooms grow from
  Start by random draws over a candidate list of neighbouring cells. When too
  few rooms were placed, a force-fill tops them up. Then a Shop and a
  SpecialEvent room are chosen among rooms far enough from Start, and each
  door is opened exactly where a neighbouring room exists.
  - The imperative generator (module `MapGeneration`) keeps the source's
    class, its `array2` grid and its loops.
  - Each of its methods is proved to compute the pure functions of module
    `DungeonLayout`.
  - The properties of a generated dungeon are lemmas about those functions:
    - every cell is inside the grid, and no cell is filled twice;
    - every room is reachable from Start;
    - the room count stays within its bounds;
    - the special rooms are placed as required;
    - the doors are symmetric.
- **Rooms.** A `Room` is marked visited on first entry. Its spawn blocks the
  doors and tracks freshly instantiated enemies. Defeating the last enemy
  clears the room, unblocks it, and may ask for the next floor.
- **Doors.** `DoorController` refuses to move the player out of a blocked
  room. Otherwise it looks up the neighbouring room and moves the player next
  to that room's opposite door. Module `DoorControl` models it.
- **Health and coins.** `Health` tracks damage, healing, death and
  invulnerability. `PlayerInventory` adds and spends coins.
- **Weapons.** `WeaponInventory` keeps the unlock flags and the equipped
  index, with -1 meaning melee. `WeaponShop` checks a purchase and then unlocks
  and equips the weapon.
- **Projectiles.** `SimpleProjectilePool` keeps a queue of idle projectiles
  and a list of active ones.

The following are parameters in the model:

- **System.Random.** It becomes a *tape*, a function from the draw number to
  a natural number. Draw number k with bound n is `tape(k) % n`. Each seed
  selects a tape through `prng`.
- **Clock.** The clock's tick count is a parameter.
- **UnityEngine.Random.** The draws that rooms make from it are a separate
  tape.
- **Unity objects.** Rooms, enemies and projectiles are objects or opaque
  ids.
- **Coroutines.** Each coroutine is split at its wait into two methods:
  `SpawnEnemiesWithDelay` is preceded by the `spawnPending` flag, and
  `TransitionToNextRoom` becomes `BeginTransition` and `FinishTransition`.
- **Events.** `UnityEvent` invocations are recorded in event sequences.
- **Next floor.** The request for the next floor is a counter.

Three behaviours of the code that the model keeps as they are:

- Initialising a room never marks it as cleared, not even a Start or Shop
  room. ConfigureRoomByType (Assets/Scripts/MapGeneration/Room.cs:83-111)
  only sets the Start room's enemy range to 0..0.
- A door has no guard against a transition that is already running.
  OnTriggerEnter2D (Assets/Scripts/MapGeneration/DoorController.cs:48-64)
  starts the coroutine on every player contact while the doors are not
  blocked.
- When there is no room behind the door, the transition simply ends after
  logging an error (Assets/Scripts/MapGeneration/DoorController.cs:82-88).

## Model

| member | source | states |
|---|---|---|
| Grid.Opposite | Assets/Scripts/MapGeneration/DoorController.cs:34 | the opposite of direction d is (d + 2) mod 4 |
| Grid.OppositeInvolution | Assets/Scripts/MapGeneration/DoorController.cs:34 | taking the opposite direction twice gives the direction back |
| Grid.StepBack | Assets/Scripts/MapGeneration/DungeonGenerator.cs:59-65 | a step along a direction vector followed by a step along its opposite returns to the start cell |
| Grid.AdjacentIsNeighbour | Assets/Scripts/MapGeneration/DungeonGenerator.cs:59-65 | two cells are at Manhattan distance one exactly when one is the other plus one of the four direction vectors |
| Lists.RemoveAt | Assets/Scripts/MapGeneration/DungeonGenerator.cs:172 | List.RemoveAt shortens the list by one |
| Lists.RemoveFirst | Assets/Scripts/MapGeneration/Room.cs:233 | List.Remove drops one entry when present, leaves the list as it is otherwise, and keeps every other entry |
| Lists.FirstIndex | Assets/Scripts/MapGeneration/Room.cs:233 | the position of the first occurrence of a present element: it holds the element, and no earlier position does |
| Lists.RemoveFirstSplit | Assets/Scripts/MapGeneration/Room.cs:233 | List.Remove drops exactly the first occurrence: the result is the entries before it followed by the entries after it, in order |
| Lists.RemoveAtEntries | Assets/Scripts/MapGeneration/DungeonGenerator.cs:172 | after RemoveAt(i) the entries before i keep their places and the later ones move up by one |
| Lists.RemoveAtDistinct | Assets/Scripts/MapGeneration/DungeonGenerator.cs:225-227 | removing an entry from a list without repeats leaves one without repeats that lacks the removed entry |
| Lists.RemoveFirstGone | Assets/Scripts/Weapons/SimpleProjectilePool.cs:125 | in a list without repeats, Remove takes the element out completely and leaves no repeats |
| DungeonLayout.StartPos | Assets/Scripts/MapGeneration/DungeonGenerator.cs:92-99 | the Start cell lies inside the square grid of side 2*maxRooms-1, at its centre (maxRooms-1, maxRooms-1) |
| DungeonLayout.Draw | Assets/Scripts/MapGeneration/DungeonGenerator.cs:170 | random.Next(n) yields an index in [0, n) |
| DungeonLayout.RoomsToGenerate | Assets/Scripts/MapGeneration/DungeonGenerator.cs:164 | the target room count lies between minRooms and maxRooms |
| DungeonLayout.GrowStep | Assets/Scripts/MapGeneration/DungeonGenerator.cs:167-193 | each iteration of the growth loop takes one draw, and either drops a candidate without placing a room or places exactly one room |
| DungeonLayout.Candidates | Assets/Scripts/MapGeneration/DungeonGenerator.cs:239-259 | a cell is a special-room candidate exactly when it holds a room other than Start at Manhattan distance at least the minimum from Start |
| DungeonLayout.PlaceKeepsWellFormed | Assets/Scripts/MapGeneration/DungeonGenerator.cs:175-181 | placing a room on an empty in-grid cell next to an existing room keeps the layout well formed: Start first, every cell in the grid, no cell twice, every later room next to an earlier one |
| DungeonLayout.GrowStepWellFormed | Assets/Scripts/MapGeneration/DungeonGenerator.cs:167-193 | one growth iteration keeps the layout well formed and only appends to it |
| DungeonLayout.GrowProperties | Assets/Scripts/MapGeneration/DungeonGenerator.cs:164-194 | the growth loop keeps the layout well formed, only appends, stops at the target or with no candidates left, and never passes the target |
| DungeonLayout.FrontierFree | Assets/Scripts/MapGeneration/DungeonGenerator.cs:184-191 | the candidate-extension loop appends only in-grid, empty, not yet listed cells, so a list of free cells stays free and without repeats |
| DungeonLayout.CollectFree | Assets/Scripts/MapGeneration/DungeonGenerator.cs:205-219 | the force-fill candidate list holds in-grid empty cells, each once |
| DungeonLayout.FillStepFree | Assets/Scripts/MapGeneration/DungeonGenerator.cs:225-229 | placing a room on a drawn candidate and removing it leaves the other candidates free |
| DungeonLayout.FrontierReady | Assets/Scripts/MapGeneration/DungeonGenerator.cs:211-218 | the neighbours collected around a room are next to a room, and the list only grows |
| DungeonLayout.CollectReady | Assets/Scripts/MapGeneration/DungeonGenerator.cs:205-219 | every force-fill candidate is in the grid, empty, listed once and next to an existing room |
| DungeonLayout.FillStepReady | Assets/Scripts/MapGeneration/DungeonGenerator.cs:225-229 | a force-fill placement keeps the layout well formed and the remaining candidates ready |
| DungeonLayout.FillProperties | Assets/Scripts/MapGeneration/DungeonGenerator.cs:222-231 | the force-fill loop keeps the layout well formed, places count rooms unless the candidates run out, and never more than count |
| DungeonLayout.TopUpProperties | Assets/Scripts/MapGeneration/DungeonGenerator.cs:196-200 | topping up yields at least minRooms rooms unless the candidates run out, never more than minRooms, and nothing when there are enough already |
| DungeonLayout.GeneratedRoomsProperties | Assets/Scripts/MapGeneration/DungeonGenerator.cs:149-201 | GenerateRooms yields a well-formed layout. It has at most roomsToGenerate rooms, the drawn target (when minRooms >= 1; otherwise that bound holds except for a lone Start room). It has at most maxRooms rooms, and at least minRooms unless the force-fill candidates run out |
| DungeonLayout.ReachableFromStart | Assets/Scripts/MapGeneration/DungeonGenerator.cs:178-181 | in a well-formed layout every room is reached from Start by a walk through adjacent rooms |
| DungeonLayout.AdjacentRoomsConnected | Assets/Scripts/MapGeneration/DungeonGenerator.cs:289-310 | two adjacent rooms are joined by an open door on each side |
| DungeonLayout.ConnectionSymmetric | Assets/Scripts/MapGeneration/DungeonGenerator.cs:289-310 | a room's door in direction d is open exactly when a room stands behind it whose door in the opposite direction is open |
| DungeonLayout.CandidatesDistinct | Assets/Scripts/MapGeneration/DungeonGenerator.cs:239-259 | the candidate lists have no repeats when the rooms have none |
| DungeonLayout.SpecialsPlacement | Assets/Scripts/MapGeneration/DungeonGenerator.cs:242-287 | Shop and SpecialEvent are rooms other than Start, each at least its own minimum distance from Start, never the same room; each is absent exactly when it has no candidate; at most two draws are taken |
| DungeonLayout.GeneratedDungeon | Assets/Scripts/MapGeneration/DungeonGenerator.cs:107-133 | a generated dungeon is well formed, its first room is Start and no other is, and every room is reached from Start through open doors |
| DungeonLayout.GeneratedTypes | Assets/Scripts/MapGeneration/DungeonGenerator.cs:263-283 | each room's final type: SpecialEvent or Shop where chosen, Start for the first room, Normal otherwise |
| DungeonLayout.WalkUsesDoors | Assets/Scripts/MapGeneration/DungeonGenerator.cs:289-310 | every walk through adjacent rooms passes through open doors |
| MapGeneration.UnityRange | Assets/Scripts/MapGeneration/Room.cs:179 | Random.Range(lo, hi) over integers lies in [lo, hi) |
| MapGeneration.Doors.Set | Assets/Scripts/MapGeneration/Room.cs:116 | setting one door flag changes that flag and no other |
| MapGeneration.Enemy.constructor | Assets/Scripts/MapGeneration/Room.cs:193-199 | an enemy records the prefab and spawn point it was instantiated from |
| MapGeneration.Room.constructor | Assets/Scripts/MapGeneration/Room.cs:70-111 | a new room has the given cell and type, closed doors, nothing visited, defeated, blocked or spawned, and no enemies if it is Start |
| MapGeneration.Room.SetRoomType | Assets/Scripts/MapGeneration/Room.cs:304-308 | the room takes the new type; a Start room gets the enemy range 0..0, and other types keep their range |
| MapGeneration.Room.SetConnection | Assets/Scripts/MapGeneration/Room.cs:112-121 | a direction in 0..3 sets that door flag only; any other direction changes nothing |
| MapGeneration.Room.HasConnection | Assets/Scripts/MapGeneration/Room.cs:309-316 | true exactly for a direction in 0..3 whose door is open |
| MapGeneration.Room.AreDoorsBlocked | Assets/Scripts/MapGeneration/Room.cs:317-320 | true exactly while the doors are blocked: from a spawn or BlockDoors until the last enemy falls or UnblockDoors runs |
| MapGeneration.Room.OnPlayerEnter | Assets/Scripts/MapGeneration/Room.cs:144-161 | the room is visited afterwards; a spawn is scheduled only on the first entry of a room that is not Shop or Start and whose enemies are not defeated; later entries change nothing |
| MapGeneration.Room.SpawnEnemiesWithDelay | Assets/Scripts/MapGeneration/Room.cs:162-172 | after the wait the doors are blocked and stay blocked even when no enemy spawns, and the enemies are those SpawnEnemies draws |
| MapGeneration.Room.EnemyCount | Assets/Scripts/MapGeneration/Room.cs:179 | the drawn enemy count lies in [minEnemies, maxEnemies] |
| MapGeneration.Room.SpawnEnemies | Assets/Scripts/MapGeneration/Room.cs:173-217 | the old enemies are discarded; with prefabs and spawn points exactly the drawn number of fresh, distinct enemies is tracked, each from its own prefab and spawn-point draws, and none otherwise |
| MapGeneration.Room.ClearEnemies | Assets/Scripts/MapGeneration/Room.cs:218-229 | no enemy remains tracked |
| MapGeneration.Room.BlockDoors | Assets/Scripts/MapGeneration/Room.cs:259-275 | the doors are blocked |
| MapGeneration.Room.UnblockDoors | Assets/Scripts/MapGeneration/Room.cs:277-293 | the doors are unblocked |
| MapGeneration.Room.OnEnemyDefeated | Assets/Scripts/MapGeneration/Room.cs:230-258 | the enemy leaves the list. When the list is empty, the room is defeated and unblocked, and a SpecialEvent room asks for the next floor once per call if every room was visited. Otherwise the door and defeat state are unchanged |
| MapGeneration.DungeonGenerator.constructor | Assets/Scripts/MapGeneration/DungeonGenerator.cs:70-100 | Awake: seed 0 is replaced by the tick count, the Random follows the seed, and the grid is square, empty and fresh |
| MapGeneration.DungeonGenerator.GenerateNextFloor | Assets/Scripts/MapGeneration/Room.cs:254 | one more next-floor request is recorded |
| MapGeneration.DungeonGenerator.Next | Assets/Scripts/MapGeneration/DungeonGenerator.cs:170 | random.Next(n) is the next draw of the tape and takes exactly one draw |
| MapGeneration.DungeonGenerator.NextInRange | Assets/Scripts/MapGeneration/DungeonGenerator.cs:164 | random.Next(min, max) is min plus the next draw below max - min |
| MapGeneration.DungeonGenerator.IsPositionValid | Assets/Scripts/MapGeneration/DungeonGenerator.cs:340-343 | true exactly for cells inside the grid |
| MapGeneration.DungeonGenerator.GetRoom | Assets/Scripts/MapGeneration/DungeonGenerator.cs:356-363 | null outside the grid and on empty cells; otherwise the room of the dungeon whose cell it is |
| MapGeneration.DungeonGenerator.GetStartRoom | Assets/Scripts/MapGeneration/DungeonGenerator.cs:364-367 | the room at the centre cell, if one was placed |
| MapGeneration.DungeonGenerator.GetShopRoom | Assets/Scripts/MapGeneration/DungeonGenerator.cs:368-371 | the room at the recorded shop cell, if any |
| MapGeneration.DungeonGenerator.GetSpecialEventRoom | Assets/Scripts/MapGeneration/DungeonGenerator.cs:372-375 | the room at the recorded special-event cell, if any |
| MapGeneration.DungeonGenerator.HasAdjacentRoom | Assets/Scripts/MapGeneration/DungeonGenerator.cs:344-355 | true exactly when some neighbouring cell holds a room |
| MapGeneration.DungeonGenerator.AreAllRoomsVisited | Assets/Scripts/MapGeneration/DungeonGenerator.cs:380-390 | true exactly when every room has been visited, so true with no rooms |
| MapGeneration.DungeonGenerator.EmptyCell | Assets/Scripts/MapGeneration/DungeonGenerator.cs:335 | a grid cell that no room was placed on holds null |
| MapGeneration.DungeonGenerator.AppendFreeNeighbours | Assets/Scripts/MapGeneration/DungeonGenerator.cs:184-191 | the candidate-extension loop computes the frontier function, whose free-cell properties FrontierFree and FrontierReady state |
| MapGeneration.DungeonGenerator.ClearDungeon | Assets/Scripts/MapGeneration/DungeonGenerator.cs:134-148 | no rooms remain, and the grid is new and empty |
| MapGeneration.DungeonGenerator.CreateRoom | Assets/Scripts/MapGeneration/DungeonGenerator.cs:311-339 | a fresh initialised room of the given type is stored in its grid cell and appended to the room list |
| MapGeneration.DungeonGenerator.GenerateRooms | Assets/Scripts/MapGeneration/DungeonGenerator.cs:149-201 | the rooms placed and draws taken are those of the GenerateRooms function; the first room is Start and all others Normal; every room is new, unvisited, not cleared, unblocked, without enemies or a pending spawn, and has range 0..0 if it is Start and the prefab's range otherwise |
| MapGeneration.DungeonGenerator.GrowFromStart | Assets/Scripts/MapGeneration/DungeonGenerator.cs:151-194 | Start, the target draw and the growth loop place exactly the rooms of the growth phase |
| MapGeneration.DungeonGenerator.TopUpRooms | Assets/Scripts/MapGeneration/DungeonGenerator.cs:196-200 | force-fills exactly the rooms that the top-up function computes, when fewer than minRooms exist |
| MapGeneration.DungeonGenerator.PlaceStartRoom | Assets/Scripts/MapGeneration/DungeonGenerator.cs:151-164 | Start is placed at the centre, its four neighbours become the candidates, and the target count is drawn |
| MapGeneration.DungeonGenerator.GrowRooms | Assets/Scripts/MapGeneration/DungeonGenerator.cs:167-194 | the growth loop computes the Grow function and appends Normal rooms only |
| MapGeneration.DungeonGenerator.GrowOnce | Assets/Scripts/MapGeneration/DungeonGenerator.cs:169-193 | one iteration of the growth loop computes GrowStep |
| MapGeneration.DungeonGenerator.ForceGenerateMoreRooms | Assets/Scripts/MapGeneration/DungeonGenerator.cs:202-232 | collects the free neighbours of all rooms, then places count of them by draws, as the Fill function computes |
| MapGeneration.DungeonGenerator.CollectFreeNeighbours | Assets/Scripts/MapGeneration/DungeonGenerator.cs:205-219 | the nested loops build exactly the candidate list Collect computes, which CollectFree and CollectReady describe |
| MapGeneration.DungeonGenerator.PlaceCandidates | Assets/Scripts/MapGeneration/DungeonGenerator.cs:222-231 | the force-fill loop computes Fill, and every room it adds is a new Normal room as CreateRoom builds it (unvisited, enemy-free, with a drawable range) |
| MapGeneration.DungeonGenerator.PlaceOnce | Assets/Scripts/MapGeneration/DungeonGenerator.cs:225-230 | one force-fill iteration places the drawn candidate as a new Normal room as CreateRoom builds it, removes it from the list, keeps the others free, and is one step of Fill |
| MapGeneration.DungeonGenerator.SameCellSameRoom | Assets/Scripts/MapGeneration/DungeonGenerator.cs:335-336 | two rooms of the dungeon on the same cell are the same room |
| MapGeneration.DungeonGenerator.RoomAtCell | Assets/Scripts/MapGeneration/DungeonGenerator.cs:335-336 | a room of the dungeon is the only room listed at its cell |
| MapGeneration.DungeonGenerator.RemoveRoom | Assets/Scripts/MapGeneration/DungeonGenerator.cs:270 | removing the shop room from the event candidates removes its cell from their cell list |
| MapGeneration.DungeonGenerator.CollectSpecialCandidates | Assets/Scripts/MapGeneration/DungeonGenerator.cs:236-260 | the two candidate room lists have exactly the cells Candidates computes for the shop and event distances |
| MapGeneration.DungeonGenerator.SelectSpecialRooms | Assets/Scripts/MapGeneration/DungeonGenerator.cs:233-288 | the chosen rooms get the Shop and SpecialEvent types, the recorded cells are updated only when a room was chosen, and the draws are those of SelectSpecials; every room stays unentered with its initial enemy range |
| MapGeneration.DungeonGenerator.PlaceSpecials | Assets/Scripts/MapGeneration/DungeonGenerator.cs:262-287 | the shop and special-event choice from the two candidate lists: the draws, recorded cells and types are those SelectFrom computes; every room stays unentered with its initial enemy range |
| MapGeneration.DungeonGenerator.TakeShop | Assets/Scripts/MapGeneration/DungeonGenerator.cs:267-271 | the drawn shop room becomes Shop, its cell is recorded, and its cell is removed once from the event candidates; no other room changes type |
| MapGeneration.DungeonGenerator.Retype | Assets/Scripts/MapGeneration/DungeonGenerator.cs:268 | a non-Start retype changes the type of the room at that cell only, and keeps every room unentered with its initial enemy range |
| MapGeneration.DungeonGenerator.PlaceShop | Assets/Scripts/MapGeneration/DungeonGenerator.cs:263-271 | the shop draw, its type change and recorded cell, and removal of the shop room from the event candidates; every room stays unentered with its initial enemy range |
| MapGeneration.DungeonGenerator.PlaceSpecialEvent | Assets/Scripts/MapGeneration/DungeonGenerator.cs:278-283 | the special-event draw, its type change and recorded cell; every room stays unentered with its initial enemy range |
| MapGeneration.DungeonGenerator.ConnectRoom | Assets/Scripts/MapGeneration/DungeonGenerator.cs:294-308 | each door of the room is open exactly when GetRoom finds a room behind it |
| MapGeneration.DungeonGenerator.SetupRoomConnections | Assets/Scripts/MapGeneration/DungeonGenerator.cs:289-310 | every door of every room is open exactly when a room stands behind it |
| MapGeneration.DungeonGenerator.GenerateDungeon | Assets/Scripts/MapGeneration/DungeonGenerator.cs:107-133 | the state holds the dungeon Generate computes from the draws not yet taken, with stale special cells kept where none was chosen; every room is new and as CreateRoom built it (unvisited, enemy-free, no spawn pending, Start with range 0..0), so there is a room and AreAllRoomsVisited is false |
| MapGeneration.DungeonGenerator.PlaceRooms | Assets/Scripts/MapGeneration/DungeonGenerator.cs:118-121 | GenerateRooms followed by SelectSpecialRooms gives the rooms and types of Generate, with every room new, unentered and with its initial enemy range |
| MapGeneration.DungeonGenerator.TypeSpecialRooms | Assets/Scripts/MapGeneration/DungeonGenerator.cs:120-121 | after GenerateRooms, SelectSpecialRooms gives the types, draws and recorded cells of Generate, keeping every room unentered with its initial enemy range |
| MapGeneration.DungeonGenerator.RegenerateDungeon | Assets/Scripts/MapGeneration/DungeonGenerator.cs:391-396 | the tick count becomes the seed, and the dungeon is the one generated from that seed's first draw; every room is new and unvisited as CreateRoom built it, so AreAllRoomsVisited is false |
| MapGeneration.DungeonGenerator.RegenerateDungeonWithSeed | Assets/Scripts/MapGeneration/DungeonGenerator.cs:397-402 | the given seed is stored, and the dungeon is the one generated from that seed's first draw; every room is new and unvisited as CreateRoom built it, so AreAllRoomsVisited is false |
| MapGeneration.DungeonGenerator.DoorsMatch | Assets/Scripts/MapGeneration/DungeonGenerator.cs:289-310 | in a generated dungeon a door is open exactly when GetRoom finds a neighbour whose opposite door is open |
| MapGeneration.Cells | Assets/Scripts/MapGeneration/DungeonGenerator.cs:209 | the cells of a room list, position by position |
| MapGeneration.CellsRemoveFirst | Assets/Scripts/MapGeneration/DungeonGenerator.cs:270 | removing a room that shares its cell with no other listed room removes its cell |
| DoorControl.OppositeTable | Assets/Scripts/MapGeneration/DoorController.cs:34 | the table {2, 3, 0, 1} maps d to (d + 2) mod 4, and applying it twice gives d back |
| DoorControl.NextRoomPosition | Assets/Scripts/MapGeneration/DoorController.cs:128-150 | for directions 0..3 the next room's cell is the current one plus the generator's direction vector, so it is adjacent; any other direction leaves the cell unchanged |
| DoorControl.ArrivalOffset | Assets/Scripts/MapGeneration/DoorController.cs:157-173 | the offset's component along the door's outward direction is minus the matching offset component (y at Up and Down, x at Right and Left), and the component along the wall is kept |
| DoorControl.TargetPosition | Assets/Scripts/MapGeneration/DoorController.cs:151-176 | the arrival point is the door anchor moved against the door's outward direction by the offset, at the anchor's depth |
| DoorControl.ArrivalInsideRoom | Assets/Scripts/MapGeneration/DoorController.cs:151-176 | with a positive offset the arrival point lies strictly on the room side of the door anchor, against the door's outward direction |
| DoorControl.Player.constructor | Assets/Scripts/MapGeneration/DoorController.cs:104-108 | a player whose controller, if any, is enabled |
| DoorControl.DoorController.constructor | Assets/Scripts/MapGeneration/DoorController.cs:36-46 | Awake: the opposite direction comes from the table |
| DoorControl.DoorController.OnTriggerEnter2D | Assets/Scripts/MapGeneration/DoorController.cs:48-64 | a player contact starts a transition exactly when the parent room's doors are not blocked; a blocked door only runs the blocked effect; every contact is handled anew |
| DoorControl.DoorController.BeginTransition | Assets/Scripts/MapGeneration/DoorController.cs:65-108 | missing references or a missing neighbouring room stop the transition before the player is touched; otherwise the target is GetRoom of the next cell and the player's control is disabled |
| DoorControl.DoorController.FinishTransition | Assets/Scripts/MapGeneration/DoorController.cs:113-126 | after the wait the player is moved to the arrival point, control is re-enabled, and the target room is entered |
| DoorControl.OpenDoorLeadsBack | Assets/Scripts/MapGeneration/DoorController.cs:75-88 | in a generated dungeon an open door always finds a room, and that room's door back is open |
| General.Health.constructor | Assets/Scripts/General/Health.cs:29-36 | Start: full health, announced once; in range for a non-negative maximum |
| General.Health.SetMaxHealth | Assets/Scripts/General/Health.cs:37-42 | the maximum becomes max(1, value), health is full, and the change is announced |
| General.Health.TakeDamage | Assets/Scripts/General/Health.cs:43-58 | no effect while invulnerable. Otherwise health becomes max(current - damage, 0), and the damage and health events fire, followed by death whenever health ends at zero or below. Non-negative damage keeps health in range, and negative damage raises it |
| General.Health.Heal | Assets/Scripts/General/Health.cs:59-74 | no effect at zero health or below; otherwise min(current + amount, max), with events only for a real gain; a non-negative amount keeps health in range and never lowers it |
| General.Health.Kill | Assets/Scripts/General/Health.cs:75-86 | unless invulnerable, health drops to zero and death handling runs |
| General.Health.Die | Assets/Scripts/General/Health.cs:87-101 | death fires exactly when health is zero or below |
| General.Health.SetInvulnerable | Assets/Scripts/General/Health.cs:102-105 | the flag takes the given value |
| Player.PlayerInventory.constructor | Assets/Scripts/Player/PlayerInventory.cs:22-29 | Start: the balance is the initial coins, announced once |
| Player.PlayerInventory.AddCoins | Assets/Scripts/Player/PlayerInventory.cs:30-39 | a positive amount is added and announced; any other amount changes nothing; a non-negative balance never decreases |
| Player.PlayerInventory.SpendCoins | Assets/Scripts/Player/PlayerInventory.cs:40-56 | true exactly for an amount of zero or less or a balance that covers it; only a positive covered amount is taken; a failure changes nothing; a non-negative balance stays non-negative |
| Weapons.SlotWeaponInjective | Assets/Scripts/Weapons/WeaponInventory.cs:152-163 | two equipped indices (melee as -1) hand the manager the same weapon exactly when they are equal, so the equipped weapon determines the recorded index |
| Weapons.CheckIndex | Assets/Scripts/Weapons/WeaponInventory.cs:131 | the examined index (nextIndex + i) mod (n + 1) - 1 lies in -1..n-1 and wraps round past the last slot to melee |
| Weapons.FirstStop | Assets/Scripts/Weapons/WeaponInventory.cs:129-143 | the first step of the search at which it stops, with every earlier step passing over a locked slot |
| Weapons.SearchStops | Assets/Scripts/Weapons/WeaponInventory.cs:129-146 | within n + 1 steps the search reaches melee, so the "no more weapons" line after the loop is never reached |
| Weapons.SwitchTarget | Assets/Scripts/Weapons/WeaponInventory.cs:124-147 | the search always ends on melee or an unlocked slot |
| Weapons.SwitchStaysOnCurrent | Assets/Scripts/Weapons/WeaponInventory.cs:126-143 | as written, the first index examined is the current one, so the switch re-equips the current weapon |
| Weapons.SwitchStaysOnSniper | Assets/Scripts/Weapons/WeaponInventory.cs:126-143 | with slot 0 equipped and two unlocked slots, the as-written switch picks slot 0 again |
| Weapons.NextSwitchMoves | Assets/Scripts/Weapons/WeaponInventory.cs:126-143 | when the search starts one further, it leaves the current weapon whenever another weapon can be selected |
| Weapons.SwitchLeavesRanged | Assets/Scripts/Weapons/WeaponInventory.cs:126-143 | with the corrected start a ranged weapon is always left, because melee can be selected |
| Weapons.WeaponInventory.constructor | Assets/Scripts/Weapons/WeaponInventory.cs:25-52 | Awake and Start: melee is equipped when a default melee weapon and a manager exist; each slot flag is its initial value or the weapon's available-from-start mark |
| Weapons.WeaponInventory.CheckInitialUnlockedWeapons | Assets/Scripts/Weapons/WeaponInventory.cs:57-67 | each flag becomes set when its weapon is available from start; no flag is cleared |
| Weapons.WeaponInventory.EquipMeleeWeapon | Assets/Scripts/Weapons/WeaponInventory.cs:72-82 | melee is handed to the manager and the index becomes -1 when both exist; otherwise nothing changes |
| Weapons.WeaponInventory.EquipRangedWeapon | Assets/Scripts/Weapons/WeaponInventory.cs:87-119 | succeeds exactly for an in-range, unlocked, non-empty slot with a manager, which is equipped and becomes the index; a failure changes nothing |
| Weapons.WeaponInventory.SwitchToNextWeapon | Assets/Scripts/Weapons/WeaponInventory.cs:124-147 | the corrected search equips the first selectable weapon after the current one in cyclic order |
| Weapons.WeaponInventory.SwitchToWeaponSlot | Assets/Scripts/Weapons/WeaponInventory.cs:152-168 | slot 0 equips melee, slots 1..n equip ranged slot - 1, and any other slot changes nothing |
| Weapons.WeaponInventory.SpendCoins | Assets/Scripts/Weapons/WeaponInventory.cs:256-289 | a positive amount the balance covers is taken and announced; anything else leaves the player inventory unchanged |
| Weapons.WeaponInventory.UnlockWeapon | Assets/Scripts/Weapons/WeaponInventory.cs:173-212 | false for an invalid index, an empty slot or an unaffordable price, changing nothing. True without charge for an already unlocked slot. Otherwise the price is spent and only that flag is set, and flags only go from false to true |
| Weapons.WeaponInventory.HasEnoughCoins | Assets/Scripts/Weapons/WeaponInventory.cs:217-251 | false without a player inventory; otherwise true exactly when its balance covers the amount |
| Weapons.WeaponInventory.IsWeaponUnlocked | Assets/Scripts/Weapons/WeaponInventory.cs:310-316 | false outside the slot range, the slot's flag inside it |
| Weapons.WeaponInventory.GetWeaponByIndex | Assets/Scripts/Weapons/WeaponInventory.cs:321-327 | the slot's weapon inside the range, none outside it |
| Weapons.WeaponInventory.GetUnlockStatus | Assets/Scripts/Weapons/WeaponInventory.cs:340-343 | a fresh array with the same flags, not the live one |
| Shop.FoldCase | Assets/Scripts/Weapons/WeaponShop.cs:226 | the folded character is never an upper-case letter: a capital becomes its own lower-case letter, and anything else is kept |
| Shop.FoldCaseProperties | Assets/Scripts/Weapons/WeaponShop.cs:226 | folding is idempotent, and a lower-case letter and its capital fold to the same character |
| Shop.SameNameEquivalence | Assets/Scripts/Weapons/WeaponShop.cs:226 | comparing names ignoring case is reflexive, symmetric and transitive, so the name lookup does not depend on how either name is capitalised |
| Shop.FindByName | Assets/Scripts/Weapons/WeaponShop.cs:219-235 | the first slot whose weapon's name matches ignoring case, or none when no slot matches |
| Shop.WeaponShop.constructor | Assets/Scripts/Weapons/WeaponShop.cs:20-41 | the shop starts closed with its panel hidden |
| Shop.WeaponShop.ToggleShop | Assets/Scripts/Weapons/WeaponShop.cs:69-87 | the open flag flips and the panel, if any, follows it |
| Shop.WeaponShop.OpenShop | Assets/Scripts/Weapons/WeaponShop.cs:273-279 | the shop is open afterwards; opening a closed shop shows the shop panel when there is one, and opening an open shop changes nothing |
| Shop.WeaponShop.CloseShop | Assets/Scripts/Weapons/WeaponShop.cs:284-290 | the shop is closed afterwards; closing an open shop hides the shop panel when there is one, and closing a closed shop changes nothing |
| Shop.WeaponShop.OnTriggerExit2D | Assets/Scripts/Weapons/WeaponShop.cs:309-319 | the player leaving closes the shop and hides the shop panel if it was open and has one; anything else leaves both unchanged |
| Shop.WeaponShop.GetCurrentCoins | Assets/Scripts/Weapons/WeaponShop.cs:184-214 | 0 without a player inventory, its balance otherwise |
| Shop.WeaponShop.TryPurchaseWeapon | Assets/Scripts/Weapons/WeaponShop.cs:124-179 | succeeds exactly for a locked, non-empty slot whose price both balances cover. On success only that slot is unlocked, the positive price is charged and the weapon is equipped when there is a weapon manager. Every refusal changes nothing |
| Shop.WeaponShop.PurchaseWeaponByName | Assets/Scripts/Weapons/WeaponShop.cs:219-235 | false with no change when no slot's weapon has the name ignoring case. Otherwise it purchases the first such slot: it succeeds exactly when that slot is purchasable. Success unlocks, charges and equips as TryPurchaseWeapon does, and a refusal changes nothing |
| Shop.WeaponShop.GetShopInfo | Assets/Scripts/Weapons/WeaponShop.cs:240-260 | one entry per slot, with its index, weapon and unlock flag, and affordability that is false for empty slots |
| Projectiles.FirstIds | Assets/Scripts/Weapons/SimpleProjectilePool.cs:68-71 | the ids of the first n projectiles created, in order; as an idle queue with none in use they satisfy the pool invariant for any capacity of at least n |
| Projectiles.TakeIdleKeeps | Assets/Scripts/Weapons/SimpleProjectilePool.cs:95-98 | taking the front of the idle queue into use keeps the pool invariant |
| Projectiles.CreateKeeps | Assets/Scripts/Weapons/SimpleProjectilePool.cs:99-103 | creating a projectile when fewer than the capacity are in use keeps the pool invariant |
| Projectiles.RecycleKeeps | Assets/Scripts/Weapons/SimpleProjectilePool.cs:104-113 | recycling the oldest active projectile keeps the pool invariant |
| Projectiles.ReturnKeeps | Assets/Scripts/Weapons/SimpleProjectilePool.cs:118-127 | returning an active projectile keeps the pool invariant |
| Projectiles.SimpleProjectilePool.Capacity | Assets/Scripts/Weapons/SimpleProjectilePool.cs:68-71 | the pool's bound is at least initialPoolSize and at least maxPoolSize |
| Projectiles.SimpleProjectilePool.constructor | Assets/Scripts/Weapons/SimpleProjectilePool.cs:39-51 | Awake: with a prefab initialPoolSize idle projectiles, none in use, and the pool invariant holds |
| Projectiles.SimpleProjectilePool.InitializePool | Assets/Scripts/Weapons/SimpleProjectilePool.cs:52-74 | without a prefab nothing happens; otherwise initialPoolSize new projectiles are queued in creation order |
| Projectiles.SimpleProjectilePool.CreateNewProjectile | Assets/Scripts/Weapons/SimpleProjectilePool.cs:75-90 | a new projectile joins the back of the idle queue |
| Projectiles.SimpleProjectilePool.GetProjectile | Assets/Scripts/Weapons/SimpleProjectilePool.cs:91-116 | the idle front when there is one, else a new projectile below maxPoolSize in use, else the oldest active one recycled. The result is appended to the active list, and only creation grows the total. It fails only with nothing idle or active and a cap of zero or less, and the invariant is kept |
| Projectiles.SimpleProjectilePool.ReturnProjectile | Assets/Scripts/Weapons/SimpleProjectilePool.cs:118-127 | null is ignored. Otherwise the first occurrence leaves the active list and the projectile joins the idle queue. A projectile that was not active adds one to the total, and returning an active one keeps the invariant |

## Findings

| source | as written | input that shows it | evidently intended | confidence | as-written member | corrected member |
|---|---|---|---|---|---|---|
| Assets/Scripts/Weapons/WeaponInventory.cs:126-143 | the search starts at `nextIndex = currentWeaponIndex + 1`, so step 0 examines `(current + 1) % (n + 1) - 1 == current` and stops there, re-equipping the current weapon | Sniper in slot 0 equipped, slots 0 and 1 unlocked: the switch equips slot 0 again | move to the next selectable weapon in cyclic order, which a start at `currentWeaponIndex + 2` does | high, not executed | Weapons.SwitchStaysOnCurrent | Weapons.WeaponInventory.SwitchToNextWeapon |

The corrected switch is proved to leave the current weapon whenever another
one can be selected (Weapons.NextSwitchMoves). The as-written search is the
function Weapons.SwitchTarget applied to `current + 1`; Weapons.SwitchStaysOnSniper
is the concrete case.

## Left out

- Instantiate/Destroy of prefabs, `SetActive` visuals (walls, doors, blockers, shop items and panels), audio, effects and `Debug.Log`: they have no effect on the modelled state.
- World-space geometry: room size, `CreateRoom`'s world position and `GetDoorPosition`. The door anchor is a parameter of FinishTransition, and positions are exact reals rather than floats.
- The waits of the coroutines: each coroutine is split at its wait into two methods, and no time passes between them.
- The singletons (`DungeonGenerator.Instance`, the pool's `instance`) and the pool's parent object: the generator and the pool are ordinary objects passed where they are used.
- `System.Random`'s own sequence and the tick-count clock: the sequence is the `prng` parameter and the clock is a parameter of RegenerateDungeon.
- `UnityEngine.Random` in SpawnEnemies: it is a tape parameter of its own.
- The body of `GenerateNextFloor` (scene loading elsewhere): only the requests are counted.
- MapGeneration.DungeonGenerator.constructor: requires `1 <= maxRooms` and `minRooms <= maxRooms`. Awake and `Random.Next(minRooms, maxRooms + 1)` would throw for other settings, except `minRooms == maxRooms + 1`, which the model also excludes.
- MapGeneration.Room.constructor: requires a room prefab with `minEnemies <= maxEnemies`. That is the range `Random.Range` draws from.
- DoorControl.DoorController.constructor: requires `doorDirection` in 0..3, because the table lookup throws for any other value.
- The reflection in `WeaponInventory.HasEnoughCoins` and `SpendCoins` and in `WeaponShop.GetCurrentCoins`: it is replaced by direct PlayerInventory calls. The 999 fallback for an unreadable balance, and the exception paths, never arise.
- Weapons.WeaponInventory.constructor: requires one initial unlock flag per slot, the array length the inventory relies on.
- `SetWeapon`, `SetDefaultMeleeWeapon`, `GetAllWeapons`, `GetCurrentWeapon` and `GetCurrentWeaponIndex`: the slots are fixed at construction, and the getters only return fields.
- Player.PlayerInventory.GetCoins: a getter of the balance field. It is modelled, and it carries no row because its contract only returns that field.
- Weapon firing, the weapon manager's own behaviour and `WeaponBase` beyond its name, price and start flag: the manager is reduced to the record of equip requests.
- Shop.FoldCase: folds ASCII letters only; culture-dependent case rules are not modelled.
- `ShowAvailableWeapons`, `Update` key handling, `OnTriggerEnter2D` of the shop and `OnPurchaseButtonClicked`: these are UI and input.
- Projectiles.SimpleProjectilePool.CreateNewProjectile: does not model the exception that `Instantiate` throws without a prefab. A projectile is created in that case too.
- Projectiles.SimpleProjectilePool.GetProjectile: with nothing idle or active and `maxPoolSize <= 0`, the source throws on `activeProjectiles[0]`. The model returns None and changes nothing.
- `SetProjectilePrefab` and `PrintPoolStats`: a setter and a log.
- The as-written `SwitchToNextWeapon` loop is modelled by the functions Weapons.FirstStop and Weapons.SwitchTarget, not by a method. The method carries the corrected start.
- 32-bit integer overflow (coins, health, counters): integers are unbounded.
