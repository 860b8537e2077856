/**
 * The dungeon's runtime objects: the generator that owns the room grid, the
 * rooms with their connections, visit state, door locks and live enemies, and
 * the enemies a room spawns.
 *
 * The generator's System.Random is the tape `prng(seed)`; `calls` counts the
 * draws taken from it so far.  Each of the generator's loops is proved to
 * compute the corresponding function of DungeonLayout, so every lemma proved
 * there about layouts holds of the rooms built here.
 */
module MapGeneration {
  import opened Grid
  import opened Lists
  import opened DungeonLayout
  import opened Optional

  /** The settings a room prefab carries (its serialized fields). */
  datatype RoomTemplate = RoomTemplate(
    minEnemies: int,
    maxEnemies: int,
    enemyPrefabs: nat,   // length of the enemy prefab array, 0 when unset
    spawnPoints: nat)    // length of the spawn point array, 0 when unset

  /** Random.Range(min, max + 1) needs min <= max + 1; the model asks min <= max. */
  predicate ValidTemplate(t: RoomTemplate)
  {
    t.minEnemies <= t.maxEnemies
  }

  /** Random.Range(lo, hi) of UnityEngine.Random over integers, as draw k of a tape. */
  function UnityRange(tape: Tape, k: nat, lo: int, hi: int): (r: int)
    requires lo < hi
    ensures lo <= r < hi
  {
    lo + Draw(tape, k, hi - lo)
  }

  /** An enemy instantiated by a room: which prefab and which spawn point it came from. */
  class Enemy {
    const prefab: nat
    const spawnPoint: nat

    constructor (prefab: nat, spawnPoint: nat)
      ensures this.prefab == prefab && this.spawnPoint == spawnPoint
    {
      this.prefab := prefab;
      this.spawnPoint := spawnPoint;
    }
  }

  /** A room's four door flags, Up, Right, Down, Left (the source's bool[4]). */
  datatype Doors = Doors(up: bool, right: bool, down: bool, left: bool)
  {
    /** The flag of direction d. */
    function Get(d: Dir): bool
    {
      if d == 0 then up else if d == 1 then right else if d == 2 then down else left
    }

    /** The flags with direction d set to `open` and the other three kept. */
    function Set(d: Dir, open: bool): (r: Doors)
      ensures r.Get(d) == open
      ensures forall e: Dir :: e != d ==> r.Get(e) == Get(e)
    {
      if d == 0 then this.(up := open)
      else if d == 1 then this.(right := open)
      else if d == 2 then this.(down := open)
      else this.(left := open)
    }
  }

  /** A new room's flags: every door closed. */
  const Closed := Doors(false, false, false, false)

  class Room {
    const gridPosition: Pos
    const enemyPrefabs: nat
    const spawnPoints: nat
    var roomType: RoomType
    var minEnemies: int
    var maxEnemies: int
    var hasBeenVisited: bool
    var enemiesDefeated: bool
    var doorsBlocked: bool
    var connections: Doors
    var activeEnemies: seq<Enemy>
    /** SpawnEnemiesWithDelay has been started and waits for its half second. */
    var spawnPending: bool

    /** The enemy range Random.Range can draw from. */
    ghost predicate EnemyRangeValid()
      reads this
    {
      minEnemies <= maxEnemies
    }

    /**
     * A room as Initialize leaves it, built from template `t`: nothing visited,
     * defeated, blocked, spawned or scheduled, and the template's enemy range
     * except in the Start room, which spawns none.
     */
    ghost predicate Pristine(t: RoomTemplate)
      reads this
    {
      && !hasBeenVisited && !enemiesDefeated && !doorsBlocked
      && activeEnemies == [] && !spawnPending
      && enemyPrefabs == t.enemyPrefabs && spawnPoints == t.spawnPoints
      && (if roomType == Start then minEnemies == 0 && maxEnemies == 0
          else minEnemies == t.minEnemies && maxEnemies == t.maxEnemies)
    }

    /** Instantiate of the room prefab followed by Initialize(position, type). */
    constructor (t: RoomTemplate, position: Pos, kind: RoomType)
      requires ValidTemplate(t)
      ensures EnemyRangeValid() && Pristine(t)
      ensures gridPosition == position && roomType == kind && connections == Closed
    {
      gridPosition := position;
      enemyPrefabs := t.enemyPrefabs;
      spawnPoints := t.spawnPoints;
      roomType := kind;
      minEnemies := if kind == Start then 0 else t.minEnemies;
      maxEnemies := if kind == Start then 0 else t.maxEnemies;
      hasBeenVisited := false;
      enemiesDefeated := false;
      doorsBlocked := false;
      connections := Closed;
      activeEnemies := [];
      spawnPending := false;
    }

    /** SetRoomType: the new type, and no enemies for a Start room. */
    method SetRoomType(kind: RoomType)
      modifies this`roomType, this`minEnemies, this`maxEnemies
      ensures roomType == kind
      ensures if kind == Start then minEnemies == 0 && maxEnemies == 0
              else minEnemies == old(minEnemies) && maxEnemies == old(maxEnemies)
    {
      roomType := kind;
      if kind == Start {
        minEnemies := 0;
        maxEnemies := 0;
      }
    }

    /** SetConnection: directions outside 0..3 are ignored. */
    method SetConnection(direction: int, connected: bool)
      modifies this`connections
      ensures connections == if 0 <= direction < 4 then old(connections).Set(direction, connected)
                             else old(connections)
    {
      if 0 <= direction < 4 {
        connections := connections.Set(direction, connected);
      }
    }

    /** HasConnection: whether the door in `direction` is open; false outside 0..3. */
    function HasConnection(direction: int): (open: bool)
      reads this`connections
      ensures open <==> 0 <= direction < 4 && connections.Get(direction)
    {
      if 0 <= direction < 4 then connections.Get(direction) else false
    }

    /** AreDoorsBlocked: whether the doors are blocked, from a spawn until the room is cleared or unblocked. */
    function AreDoorsBlocked(): (blocked: bool)
      reads this
      ensures blocked <==> doorsBlocked
    {
      doorsBlocked
    }

    /**
     * OnPlayerEnter: the first entry marks the room visited and, unless it is a
     * Shop or the Start room or its enemies were already defeated, starts the
     * delayed spawn; later entries change nothing.
     */
    method OnPlayerEnter()
      modifies this`hasBeenVisited, this`spawnPending
      ensures hasBeenVisited
      ensures spawnPending == (old(spawnPending) || (!old(hasBeenVisited) && roomType != Shop
                                                      && roomType != Start && !enemiesDefeated))
    {
      if !hasBeenVisited {
        hasBeenVisited := true;
        if roomType != Shop && roomType != Start && !enemiesDefeated {
          spawnPending := true;
        }
      }
    }

    /**
     * The SpawnEnemiesWithDelay coroutine resuming after its wait: the doors are
     * blocked, then the enemies spawned.  The doors stay blocked even when no
     * enemy appears.
     */
    method SpawnEnemiesWithDelay(unityRandom: Tape)
      requires spawnPending && EnemyRangeValid()
      modifies this`spawnPending, this`doorsBlocked, this`activeEnemies
      ensures !spawnPending && doorsBlocked
      ensures SpawnedFrom(unityRandom)
      ensures forall e :: e in activeEnemies ==> fresh(e)
    {
      spawnPending := false;
      BlockDoors();
      SpawnEnemies(unityRandom);
    }

    /** The number of enemies drawn by SpawnEnemies: Random.Range(min, max + 1). */
    function EnemyCount(unityRandom: Tape): (n: int)
      requires EnemyRangeValid()
      reads this
      ensures minEnemies <= n <= maxEnemies
    {
      UnityRange(unityRandom, 0, minEnemies, maxEnemies + 1)
    }

    /**
     * The enemies SpawnEnemies leaves: none without prefabs or spawn points,
     * otherwise EnemyCount of them (none when it is negative), distinct, enemy i
     * using draw 1 + 2i for its prefab and draw 2 + 2i for its spawn point.
     */
    ghost predicate SpawnedFrom(unityRandom: Tape)
      requires EnemyRangeValid()
      reads this
    {
      && |activeEnemies| == (if enemyPrefabs == 0 || spawnPoints == 0 || EnemyCount(unityRandom) < 0 then 0
                             else EnemyCount(unityRandom))
      && Distinct(activeEnemies)
      && forall i :: 0 <= i < |activeEnemies| ==>
           && activeEnemies[i].prefab == UnityRange(unityRandom, 1 + 2 * i, 0, enemyPrefabs)
           && activeEnemies[i].spawnPoint == UnityRange(unityRandom, 2 + 2 * i, 0, spawnPoints)
    }

    /** SpawnEnemies: clear the room, draw a count, instantiate that many enemies. */
    method SpawnEnemies(unityRandom: Tape)
      requires EnemyRangeValid()
      modifies this`activeEnemies
      ensures SpawnedFrom(unityRandom)
      ensures forall e :: e in activeEnemies ==> fresh(e)
    {
      ClearEnemies();
      var enemyCount := EnemyCount(unityRandom);
      if enemyPrefabs == 0 || spawnPoints == 0 {
        return;
      }
      var i := 0;
      while i < enemyCount
        invariant 0 <= i <= (if enemyCount < 0 then 0 else enemyCount)
        invariant |activeEnemies| == i && Distinct(activeEnemies)
        invariant forall j :: 0 <= j < i ==>
                    && fresh(activeEnemies[j])
                    && activeEnemies[j].prefab == UnityRange(unityRandom, 1 + 2 * j, 0, enemyPrefabs)
                    && activeEnemies[j].spawnPoint == UnityRange(unityRandom, 2 + 2 * j, 0, spawnPoints)
      {
        var prefab := UnityRange(unityRandom, 1 + 2 * i, 0, enemyPrefabs);
        var point := UnityRange(unityRandom, 2 + 2 * i, 0, spawnPoints);
        var enemy := new Enemy(prefab, point);
        activeEnemies := activeEnemies + [enemy];
        i := i + 1;
      }
    }

    /** ClearEnemies: every live enemy leaves the room's list. */
    method ClearEnemies()
      modifies this`activeEnemies
      ensures activeEnemies == []
    {
      activeEnemies := [];
    }

    method BlockDoors()
      modifies this`doorsBlocked
      ensures doorsBlocked
    {
      doorsBlocked := true;
    }

    method UnblockDoors()
      modifies this`doorsBlocked
      ensures !doorsBlocked
    {
      doorsBlocked := false;
    }

    /**
     * OnEnemyDefeated: the enemy leaves the list; when none remain the room is
     * cleared and unlocked, and a SpecialEvent room with every room of the
     * dungeon visited asks the generator for the next floor.
     */
    method OnEnemyDefeated(enemy: Enemy, dungeon: DungeonGenerator)
      modifies this`activeEnemies, this`enemiesDefeated, this`doorsBlocked, dungeon`nextFloorRequests
      ensures activeEnemies == RemoveFirst(old(activeEnemies), enemy)
      ensures if activeEnemies == [] then enemiesDefeated && !doorsBlocked
              else enemiesDefeated == old(enemiesDefeated) && doorsBlocked == old(doorsBlocked)
      ensures dungeon.nextFloorRequests ==
                old(dungeon.nextFloorRequests)
                + (if activeEnemies == [] && roomType == SpecialEvent && dungeon.AllVisited() then 1 else 0)
    {
      activeEnemies := RemoveFirst(activeEnemies, enemy);
      if |activeEnemies| == 0 {
        enemiesDefeated := true;
        UnblockDoors();
        if roomType == SpecialEvent {
          var allVisited := dungeon.AreAllRoomsVisited();
          if allVisited {
            dungeon.GenerateNextFloor();
          }
        }
      }
    }
  }

  class DungeonGenerator {
    const config: Config
    const roomPrefab: RoomTemplate
    /** System.Random's sequence of draws for each seed. */
    const prng: int -> Tape
    var seed: int
    var tape: Tape
    var calls: nat
    const gridWidth: int
    const gridHeight: int
    var dungeonGrid: array2<Room?>
    const startRoomPos: Pos
    var shopRoomPos: Pos
    var specialEventRoomPos: Pos
    var allRooms: seq<Room>
    /** The cells of the rooms, in creation order. */
    ghost var layout: seq<Pos>
    /** How often GenerateNextFloor was requested (its body is not part of this model). */
    var nextFloorRequests: nat

    /**
     * The grid holds every room at its own cell and nothing else: each room of
     * the list is stored at its position, and a non-empty cell is the cell of
     * some room.
     */
    ghost predicate Valid()
      reads this`allRooms, this`layout, this`dungeonGrid, dungeonGrid
    {
      && ValidConfig(config) && ValidTemplate(roomPrefab)
      && gridWidth == Side(config) && gridHeight == Side(config)
      && startRoomPos == StartPos(config)
      && dungeonGrid.Length0 == gridWidth && dungeonGrid.Length1 == gridHeight
      && (forall i :: 0 <= i < |allRooms| ==> Stored(allRooms[i]))
      && (forall p: Pos {:trigger Cell(p)} :: InGrid(gridWidth, p) && Cell(p) != null ==> p in layout)
      && |layout| == |allRooms| && (forall i :: 0 <= i < |allRooms| ==> layout[i] == allRooms[i].gridPosition)
    }

    /**
     * A room as CreateRoom leaves it: Pristine for the room prefab (unvisited,
     * not cleared, unblocked, no enemies, no spawn pending, no enemies in the
     * Start room) with a range Random.Range can draw from.
     */
    ghost predicate AsBuilt(r: Room)
      reads r
    {
      r.Pristine(roomPrefab) && r.EnemyRangeValid()
    }

    /**
     * The part of AsBuilt that SelectSpecialRooms leaves alone: nothing
     * visited, cleared, blocked, spawned or scheduled, and the prefab's
     * enemies and spawn points.
     */
    ghost predicate Unentered(r: Room)
      reads r`hasBeenVisited, r`enemiesDefeated, r`doorsBlocked, r`activeEnemies, r`spawnPending
    {
      && !r.hasBeenVisited && !r.enemiesDefeated && !r.doorsBlocked
      && r.activeEnemies == [] && !r.spawnPending
      && r.enemyPrefabs == roomPrefab.enemyPrefabs && r.spawnPoints == roomPrefab.spawnPoints
    }

    /**
     * The enemy range CreateRoom gives room i of a new dungeon: none in the
     * Start room, which comes first, and the prefab's range in every other.
     */
    ghost predicate InitialRange(i: int, r: Room)
      reads r`minEnemies, r`maxEnemies
    {
      if i == 0 then r.minEnemies == 0 && r.maxEnemies == 0
      else r.minEnemies == roomPrefab.minEnemies && r.maxEnemies == roomPrefab.maxEnemies
    }

    /** Every room of the list is Unentered. */
    ghost predicate AllUnentered()
      reads this`allRooms, allRooms`hasBeenVisited, allRooms`enemiesDefeated, allRooms`doorsBlocked
      reads allRooms`activeEnemies, allRooms`spawnPending
    {
      forall i :: 0 <= i < |allRooms| ==> Unentered(allRooms[i])
    }

    /** Every room of the list has the enemy range CreateRoom gave it. */
    ghost predicate AllInitialRange()
      reads this`allRooms, allRooms`minEnemies, allRooms`maxEnemies
    {
      forall i :: 0 <= i < |allRooms| ==> InitialRange(i, allRooms[i])
    }

    /** The rooms from index n0 on are Normal rooms as CreateRoom built them. */
    ghost predicate BuiltSince(n0: nat)
      reads this`allRooms, allRooms
    {
      forall i :: n0 <= i < |allRooms| ==> AsBuilt(allRooms[i]) && allRooms[i].roomType == Normal
    }

    /** dungeonGrid[p.x, p.y]. */
    function Cell(p: Pos): Room?
      requires InGrid(gridWidth, p) && dungeonGrid.Length0 == gridWidth && dungeonGrid.Length1 == gridWidth
      reads this`dungeonGrid, dungeonGrid
    {
      dungeonGrid[p.x, p.y]
    }

    /** The room sits in the grid cell of its own position. */
    ghost predicate Stored(r: Room)
      reads this`dungeonGrid, dungeonGrid
    {
      && InGrid(gridWidth, r.gridPosition)
      && dungeonGrid.Length0 == gridWidth && dungeonGrid.Length1 == gridWidth
      && dungeonGrid[r.gridPosition.x, r.gridPosition.y] == r
    }

    /** Awake: a fresh empty grid, the seed (0 means the clock's tick count) and its Random. */
    constructor (config: Config, roomPrefab: RoomTemplate, prng: int -> Tape, seed: int, tickCount: int)
      requires ValidConfig(config) && ValidTemplate(roomPrefab)
      ensures Valid() && fresh(dungeonGrid)
      ensures allRooms == [] && nextFloorRequests == 0
      ensures this.config == config && this.roomPrefab == roomPrefab && this.prng == prng
      ensures this.seed == (if seed == 0 then tickCount else seed)
      ensures tape == prng(this.seed) && calls == 0
      ensures shopRoomPos == Pos(0, 0) && specialEventRoomPos == Pos(0, 0)
    {
      this.config := config;
      this.roomPrefab := roomPrefab;
      this.prng := prng;
      var s := if seed == 0 then tickCount else seed;
      this.seed := s;
      tape := prng(s);
      calls := 0;
      gridWidth := config.maxRooms * 2 - 1;
      gridHeight := config.maxRooms * 2 - 1;
      dungeonGrid := new Room?[config.maxRooms * 2 - 1, config.maxRooms * 2 - 1]((x, y) => null);
      startRoomPos := Pos((config.maxRooms * 2 - 1) / 2, (config.maxRooms * 2 - 1) / 2);
      shopRoomPos := Pos(0, 0);
      specialEventRoomPos := Pos(0, 0);
      allRooms := [];
      layout := [];
      nextFloorRequests := 0;
    }

    /** The next-floor request Room raises; the source calls a method it never defines. */
    method GenerateNextFloor()
      modifies this`nextFloorRequests
      ensures nextFloorRequests == old(nextFloorRequests) + 1
    {
      nextFloorRequests := nextFloorRequests + 1;
    }

    /** random.Next(n): the next draw of the tape, in [0, n). */
    method Next(n: nat) returns (i: nat)
      requires n > 0
      modifies this`calls
      ensures i == Draw(tape, old(calls), n) && calls == old(calls) + 1
    {
      i := Draw(tape, calls, n);
      calls := calls + 1;
    }

    /** random.Next(minValue, maxValue): a draw in [minValue, maxValue). */
    method NextInRange(minValue: int, maxValue: int) returns (r: int)
      requires minValue < maxValue
      modifies this`calls
      ensures r == minValue + Draw(tape, old(calls), maxValue - minValue) && calls == old(calls) + 1
    {
      r := minValue + Draw(tape, calls, maxValue - minValue);
      calls := calls + 1;
    }

    /** IsPositionValid: the cell lies inside the grid. */
    function IsPositionValid(pos: Pos): (valid: bool)
      requires Valid()
      reads this`allRooms, this`layout, this`dungeonGrid, dungeonGrid
      ensures valid <==> InGrid(Side(config), pos)
    {
      pos.x >= 0 && pos.x < gridWidth && pos.y >= 0 && pos.y < gridHeight
    }

    /** GetRoom: the room at a cell, null outside the grid or on an empty cell. */
    function GetRoom(pos: Pos): (r: Room?)
      requires Valid()
      reads this`allRooms, this`layout, this`dungeonGrid, dungeonGrid
      ensures r != null <==> Occupied(Side(config), layout, pos)
      ensures r != null ==> r.gridPosition == pos && r in allRooms
    {
      if IsPositionValid(pos) then
        var r := Cell(pos);
        if r != null then
          assert r.gridPosition == pos && r in allRooms by {
            var i :| 0 <= i < |layout| && layout[i] == pos;
            assert Stored(allRooms[i]);
          }
          r
        else
          assert pos !in layout by {
            forall i | 0 <= i < |allRooms| ensures layout[i] != pos {
              assert Stored(allRooms[i]);
            }
          }
          r
      else null
    }

    /** GetStartRoom: the room at the grid centre. */
    function GetStartRoom(): (r: Room?)
      requires Valid()
      reads this`allRooms, this`layout, this`dungeonGrid, dungeonGrid
      ensures r != null <==> StartPos(config) in layout
      ensures r != null ==> r.gridPosition == StartPos(config)
    {
      GetRoom(startRoomPos)
    }

    /** GetShopRoom: the room at the last recorded shop cell, if any. */
    function GetShopRoom(): (r: Room?)
      requires Valid()
      reads this`allRooms, this`layout, this`dungeonGrid, this`shopRoomPos, dungeonGrid
      ensures r != null <==> Occupied(Side(config), layout, shopRoomPos)
      ensures r != null ==> r.gridPosition == shopRoomPos && r in allRooms
    {
      GetRoom(shopRoomPos)
    }

    /** GetSpecialEventRoom: the room at the last recorded special-event cell, if any. */
    function GetSpecialEventRoom(): (r: Room?)
      requires Valid()
      reads this`allRooms, this`layout, this`dungeonGrid, this`specialEventRoomPos, dungeonGrid
      ensures r != null <==> Occupied(Side(config), layout, specialEventRoomPos)
      ensures r != null ==> r.gridPosition == specialEventRoomPos && r in allRooms
    {
      GetRoom(specialEventRoomPos)
    }

    /** HasAdjacentRoom: some neighbour cell of `pos` holds a room. */
    method HasAdjacentRoom(pos: Pos) returns (found: bool)
      requires Valid()
      ensures Valid()
      ensures found == HasAdjacent(Side(config), layout, pos)
    {
      for d := 0 to 4
        invariant forall e: Dir :: e < d ==> !Occupied(Side(config), layout, Neighbour(pos, e))
      {
        var neighborPos := Neighbour(pos, d);
        if IsPositionValid(neighborPos) && GetRoom(neighborPos) != null {
          return true;
        }
      }
      return false;
    }

    /** Every room of the dungeon has been entered. */
    ghost predicate AllVisited()
      reads this`allRooms, allRooms
    {
      forall i :: 0 <= i < |allRooms| ==> allRooms[i].hasBeenVisited
    }

    /** AreAllRoomsVisited: true exactly when no room is still unvisited. */
    method AreAllRoomsVisited() returns (all: bool)
      ensures all == AllVisited()
    {
      for j := 0 to |allRooms|
        invariant forall i :: 0 <= i < j ==> allRooms[i].hasBeenVisited
      {
        if !allRooms[j].hasBeenVisited {
          return false;
        }
      }
      return true;
    }

    /** A cell inside the grid that no room occupies holds null. */
    lemma EmptyCell(pos: Pos)
      requires Valid() && InGrid(Side(config), pos) && pos !in layout
      ensures dungeonGrid[pos.x, pos.y] == null
    {
      assert Cell(pos) == null;
    }

    /**
     * The candidate-extension loop shared by GenerateRooms and
     * ForceGenerateMoreRooms: each neighbour of `pos` inside the grid, without
     * a room and not yet listed is appended.
     */
    method AppendFreeNeighbours(pos: Pos, candidates: seq<Pos>) returns (extended: seq<Pos>)
      requires Valid()
      ensures Valid()
      ensures extended == Frontier(Side(config), layout, candidates, pos, 4)
    {
      ghost var side, rooms := Side(config), layout;
      extended := candidates;
      for d := 0 to 4
        invariant extended == Frontier(side, rooms, candidates, pos, d)
      {
        var newPos := Neighbour(pos, d);
        if IsPositionValid(newPos) && GetRoom(newPos) == null && newPos !in extended {
          extended := extended + [newPos];
        }
      }
    }

    /** ClearDungeon: no rooms and a new, empty grid. */
    method ClearDungeon()
      requires Valid()
      modifies this`allRooms, this`layout, this`dungeonGrid
      ensures Valid() && allRooms == [] && fresh(dungeonGrid)
    {
      allRooms := [];
      layout := [];
      dungeonGrid := new Room?[gridWidth, gridHeight]((x, y) => null);
    }

    /**
     * CreateRoom: a new room of the given type, stored in its grid cell and
     * appended to the room list.  Every caller passes an empty cell inside the
     * grid.
     */
    method CreateRoom(gridPos: Pos, kind: RoomType) returns (room: Room)
      requires Valid() && InGrid(Side(config), gridPos) && gridPos !in layout
      modifies this`allRooms, this`layout, dungeonGrid
      ensures Valid()
      ensures allRooms == old(allRooms) + [room] && layout == old(layout) + [gridPos]
      ensures fresh(room)
      ensures room.gridPosition == gridPos && room.roomType == kind && room.connections == Closed
      ensures room.EnemyRangeValid() && room.Pristine(roomPrefab)
    {
      EmptyCell(gridPos);
      room := new Room(roomPrefab, gridPos, kind);
      ghost var before := allRooms;
      dungeonGrid[gridPos.x, gridPos.y] := room;
      allRooms := allRooms + [room];
      layout := layout + [gridPos];
      forall i | 0 <= i < |before| ensures Stored(allRooms[i]) {
        assert Stored(before[i]);
        assert old(layout)[i] != gridPos;
      }
      forall p: Pos | InGrid(gridWidth, p) && Cell(p) != null ensures p in layout {
        if p != gridPos {
          assert Cell(p) == old(Cell(p));
        }
      }
    }

    /**
     * GenerateRooms: the Start room at the centre, its four neighbours as
     * candidates, then random growth up to random.Next(minRooms, maxRooms + 1)
     * rooms, then ForceGenerateMoreRooms when fewer than minRooms exist.
     */
    method GenerateRooms()
      requires Valid() && allRooms == []
      modifies this`allRooms, this`layout, this`calls, dungeonGrid
      ensures Valid()
      ensures layout == DungeonLayout.GenerateRooms(config, tape, old(calls)).rooms
      ensures calls == DungeonLayout.GenerateRooms(config, tape, old(calls)).draws
      ensures (forall i :: 0 <= i < |allRooms| ==> fresh(allRooms[i])) && AllUnentered() && AllInitialRange()
      ensures |allRooms| > 0 && allRooms[0].roomType == Start && allRooms[0].gridPosition == startRoomPos
      ensures forall i :: 1 <= i < |allRooms| ==> allRooms[i].roomType == Normal
    {
      GrowFromStart();
      TopUpRooms();
    }

    /** The Start room and the growth loop of GenerateRooms. */
    method GrowFromStart()
      requires Valid() && allRooms == []
      modifies this`allRooms, this`layout, this`calls, dungeonGrid
      ensures Valid()
      ensures layout == GrowthPhase(config, tape, old(calls)).rooms
      ensures calls == GrowthPhase(config, tape, old(calls)).draws
      ensures forall i :: 0 <= i < |allRooms| ==> fresh(allRooms[i]) && AsBuilt(allRooms[i])
      ensures |allRooms| > 0 && allRooms[0].roomType == Start && allRooms[0].gridPosition == startRoomPos
      ensures forall i :: 1 <= i < |allRooms| ==> allRooms[i].roomType == Normal
    {
      var candidates, roomsToGenerate := PlaceStartRoom();
      GrowRooms(roomsToGenerate, candidates);
    }

    /** The end of GenerateRooms: ForceGenerateMoreRooms when fewer than minRooms rooms exist. */
    method TopUpRooms()
      requires Valid()
      modifies this`allRooms, this`layout, this`calls, dungeonGrid
      ensures Valid()
      ensures var g := TopUp(config, old(layout), old(calls), tape);
              layout == g.rooms && calls == g.draws
      ensures old(allRooms) <= allRooms
      ensures forall i :: |old(allRooms)| <= i < |allRooms| ==> fresh(allRooms[i]) && AsBuilt(allRooms[i]) && allRooms[i].roomType == Normal
    {
      ghost var rooms, k := layout, calls;
      if |allRooms| < config.minRooms {
        var count := config.minRooms - |allRooms|;
        assert TopUp(config, rooms, k, tape) == Fill(count, Growth(rooms, Collect(Side(config), rooms, |rooms|), k), tape);
        ForceGenerateMoreRooms(count);
      }
    }

    /**
     * The first steps of GenerateRooms: the Start room, the list of its four
     * neighbours and the number of rooms to aim for.
     */
    method PlaceStartRoom() returns (candidates: seq<Pos>, roomsToGenerate: int)
      requires Valid() && allRooms == []
      modifies this`allRooms, this`layout, this`calls, dungeonGrid
      ensures Valid() && layout == [startRoomPos] && calls == old(calls) + 1
      ensures candidates == Neighbours(startRoomPos)
      ensures roomsToGenerate == RoomsToGenerate(config, tape, old(calls))
      ensures |allRooms| == 1 && fresh(allRooms[0]) && AsBuilt(allRooms[0]) && allRooms[0].roomType == Start
      ensures allRooms[0].gridPosition == startRoomPos
    {
      var startRoom := CreateRoom(startRoomPos, Start);
      candidates := NeighboursOf(startRoomPos);
      roomsToGenerate := NextInRange(config.minRooms, config.maxRooms + 1);
    }

    /** The candidate list GenerateRooms starts from: the four neighbours of `pos`, in direction order. */
    static method NeighboursOf(pos: Pos) returns (candidates: seq<Pos>)
      ensures candidates == Neighbours(pos)
    {
      candidates := [];
      for d := 0 to 4
        invariant candidates == Neighbours(pos)[..d]
      {
        candidates := candidates + [Neighbour(pos, d)];
      }
    }

    /**
     * The growth loop of GenerateRooms: draw a candidate and remove it; when
     * its cell is inside the grid, empty and next to a room, place a Normal
     * room there and add its free neighbours as candidates.
     */
    method GrowRooms(roomsToGenerate: int, candidates0: seq<Pos>)
      requires Valid()
      modifies this`allRooms, this`layout, this`calls, dungeonGrid
      ensures Valid()
      ensures var g := Grow(Side(config), roomsToGenerate, Growth(old(layout), candidates0, old(calls)), tape);
              layout == g.rooms && calls == g.draws
      ensures old(allRooms) <= allRooms
      ensures forall i :: |old(allRooms)| <= i < |allRooms| ==> fresh(allRooms[i]) && AsBuilt(allRooms[i]) && allRooms[i].roomType == Normal
    {
      ghost var side, t, n0 := Side(config), tape, |allRooms|;
      ghost var rooms, k := layout, calls;
      var candidates := candidates0;
      ghost var goal := Grow(side, roomsToGenerate, Growth(rooms, candidates0, k), t);
      while |allRooms| < roomsToGenerate && |candidates| > 0
        invariant Valid() && dungeonGrid == old(dungeonGrid)
        invariant rooms == layout && k == calls
        invariant Grow(side, roomsToGenerate, Growth(rooms, candidates, k), t) == goal
        invariant old(allRooms) <= allRooms
        invariant forall i :: n0 <= i < |allRooms| ==> fresh(allRooms[i]) && AsBuilt(allRooms[i]) && allRooms[i].roomType == Normal
        decreases roomsToGenerate - |allRooms|, |candidates|
      {
        candidates := GrowOnce(candidates);
        rooms, k := layout, calls;
      }
    }

    /**
     * One pass of the growth loop: draw a candidate and remove it; when its
     * cell is inside the grid, empty and next to a room, place a Normal room
     * there and add its free neighbours as candidates.
     */
    method GrowOnce(candidates0: seq<Pos>) returns (candidates: seq<Pos>)
      requires Valid() && |candidates0| > 0
      modifies this`allRooms, this`layout, this`calls, dungeonGrid
      ensures Valid()
      ensures Growth(layout, candidates, calls)
              == GrowStep(Side(config), Growth(old(layout), candidates0, old(calls)), tape)
      ensures old(allRooms) <= allRooms
      ensures forall i :: |old(allRooms)| <= i < |allRooms| ==> fresh(allRooms[i]) && AsBuilt(allRooms[i]) && allRooms[i].roomType == Normal
    {
      var index := Next(|candidates0|);
      var pos := candidates0[index];
      candidates := RemoveAt(candidates0, index);
      if IsPositionValid(pos) && GetRoom(pos) == null {
        var adjacent := HasAdjacentRoom(pos);
        if adjacent {
          var room := CreateRoom(pos, Normal);
          candidates := AppendFreeNeighbours(pos, candidates);
        }
      }
    }

    /**
     * ForceGenerateMoreRooms: collect the free cells next to existing rooms,
     * then place up to `count` of them, drawing one at a time.
     */
    method ForceGenerateMoreRooms(count: int)
      requires Valid()
      modifies this`allRooms, this`layout, this`calls, dungeonGrid
      ensures Valid()
      ensures var g := Fill(count,
                            Growth(old(layout), Collect(Side(config), old(layout), |old(layout)|), old(calls)), tape);
              layout == g.rooms && calls == g.draws
      ensures old(allRooms) <= allRooms
      ensures forall i :: |old(allRooms)| <= i < |allRooms| ==> fresh(allRooms[i]) && AsBuilt(allRooms[i]) && allRooms[i].roomType == Normal
    {
      var possiblePositions := CollectFreeNeighbours();
      CollectFree(Side(config), layout, |allRooms|);
      PlaceCandidates(count, possiblePositions);
    }

    /** The first loop of ForceGenerateMoreRooms: the free neighbours of every room, listed once. */
    method CollectFreeNeighbours() returns (possiblePositions: seq<Pos>)
      requires Valid()
      ensures possiblePositions == Collect(Side(config), layout, |allRooms|)
    {
      ghost var side, rooms := Side(config), layout;
      possiblePositions := [];
      for j := 0 to |allRooms|
        invariant Valid() && rooms == layout
        invariant possiblePositions == Collect(side, rooms, j)
      {
        ghost var acc := possiblePositions;
        var pos := allRooms[j].gridPosition;
        assert pos == rooms[j];
        for d := 0 to 4
          invariant possiblePositions == Frontier(side, rooms, acc, pos, d)
        {
          var newPos := Neighbour(pos, d);
          if IsPositionValid(newPos) && GetRoom(newPos) == null && newPos !in possiblePositions {
            possiblePositions := possiblePositions + [newPos];
          }
        }
      }
    }

    /** The second loop of ForceGenerateMoreRooms: place drawn free cells until `count` rooms were added. */
    method PlaceCandidates(count: int, candidates: seq<Pos>)
      requires Valid() && FreeCells(Side(config), layout, candidates)
      modifies this`allRooms, this`layout, this`calls, dungeonGrid
      ensures Valid()
      ensures var g := Fill(count, Growth(old(layout), candidates, old(calls)), tape);
              layout == g.rooms && calls == g.draws
      ensures old(allRooms) <= allRooms
      ensures forall i :: |old(allRooms)| <= i < |allRooms| ==> fresh(allRooms[i]) && AsBuilt(allRooms[i]) && allRooms[i].roomType == Normal
    {
      ghost var side, t, n0 := Side(config), tape, |allRooms|;
      ghost var rooms, k := layout, calls;
      ghost var goal := Fill(count, Growth(rooms, candidates, k), t);
      var possiblePositions := candidates;
      var roomsCreated := 0;
      ghost var remaining := count;
      while roomsCreated < count && |possiblePositions| > 0
        invariant Valid() && dungeonGrid == old(dungeonGrid)
        invariant rooms == layout && k == calls
        invariant old(allRooms) <= allRooms && roomsCreated == |allRooms| - n0 && remaining == count - roomsCreated
        invariant FreeCells(side, rooms, possiblePositions)
        invariant Fill(remaining, Growth(rooms, possiblePositions, k), t) == goal
        invariant (forall i :: n0 <= i < |allRooms| ==> fresh(allRooms[i])) && BuiltSince(n0)
        decreases |possiblePositions|
      {
        possiblePositions := PlaceOnce(possiblePositions, n0, remaining);
        roomsCreated, remaining := roomsCreated + 1, remaining - 1;
        rooms, k := layout, calls;
      }
    }

    /** One pass of the force-fill loop: draw a free cell, remove it from the list and place a Normal room on it. */
    method PlaceOnce(candidates0: seq<Pos>, ghost n0: nat, ghost remaining: int) returns (candidates: seq<Pos>)
      requires Valid() && |candidates0| > 0 && FreeCells(Side(config), layout, candidates0)
      requires n0 <= |allRooms| && BuiltSince(n0)
      modifies this`allRooms, this`layout, this`calls, dungeonGrid
      ensures Valid() && FreeCells(Side(config), layout, candidates)
      ensures var i := Draw(tape, old(calls), |candidates0|);
              && layout == old(layout) + [candidates0[i]] && candidates == RemoveAt(candidates0, i)
              && calls == old(calls) + 1
      ensures allRooms == old(allRooms) + [allRooms[|allRooms| - 1]]
      ensures fresh(allRooms[|allRooms| - 1]) && BuiltSince(n0)
      ensures remaining > 0 ==> Fill(remaining, Growth(old(layout), candidates0, old(calls)), tape)
                                 == Fill(remaining - 1, Growth(layout, candidates, calls), tape)
    {
      ghost var rooms := layout;
      var index := Next(|candidates0|);
      var pos := candidates0[index];
      FillStepFree(Side(config), rooms, candidates0, index);
      candidates := RemoveAt(candidates0, index);
      var room := CreateRoom(pos, Normal);
    }

    /** Rooms stored in the grid at the same cell are the same room. */
    lemma SameCellSameRoom(r: Room, q: Room)
      requires Valid() && r in allRooms && q in allRooms && r.gridPosition == q.gridPosition
      ensures r == q
    {
      var i :| 0 <= i < |allRooms| && allRooms[i] == r;
      var j :| 0 <= j < |allRooms| && allRooms[j] == q;
      assert Stored(allRooms[i]) && Stored(allRooms[j]);
    }

    /** A room of the list is the only one whose cell is its own. */
    lemma RoomAtCell(r: Room)
      requires Valid() && r in allRooms
      ensures forall i :: 0 <= i < |allRooms| ==> (layout[i] == r.gridPosition <==> allRooms[i] == r)
    {
      forall i | 0 <= i < |allRooms| && layout[i] == r.gridPosition ensures allRooms[i] == r {
        SameCellSameRoom(allRooms[i], r);
      }
    }

    /** List.Remove(room) on a list of the dungeon's rooms: its cell leaves the list's cells. */
    method RemoveRoom(rooms: seq<Room>, room: Room) returns (rest: seq<Room>)
      requires Valid() && room in allRooms && forall r :: r in rooms ==> r in allRooms
      ensures forall r :: r in rest ==> r in allRooms
      ensures Cells(rest) == RemoveFirst(Cells(rooms), room.gridPosition)
    {
      forall r | r in rooms && r.gridPosition == room.gridPosition ensures r == room {
        SameCellSameRoom(r, room);
      }
      CellsRemoveFirst(rooms, room);
      rest := RemoveFirst(rooms, room);
    }

    /**
     * The candidate loop of SelectSpecialRooms: every room other than Start,
     * in list order, whose Manhattan distance from Start reaches the shop's
     * (respectively the special event's) minimum.
     */
    method CollectSpecialCandidates() returns (shopCandidates: seq<Room>, specialEventCandidates: seq<Room>)
      requires Valid()
      ensures Cells(shopCandidates) == Candidates(layout, StartPos(config), config.minDistanceForShop)
      ensures Cells(specialEventCandidates) == Candidates(layout, StartPos(config), config.minDistanceForSpecialEvent)
      ensures forall r :: r in shopCandidates ==> r in allRooms
      ensures forall r :: r in specialEventCandidates ==> r in allRooms
    {
      shopCandidates, specialEventCandidates := [], [];
      for j := 0 to |allRooms|
        invariant Cells(shopCandidates) == Candidates(layout[..j], startRoomPos, config.minDistanceForShop)
        invariant Cells(specialEventCandidates) == Candidates(layout[..j], startRoomPos, config.minDistanceForSpecialEvent)
        invariant forall r :: r in shopCandidates ==> r in allRooms
        invariant forall r :: r in specialEventCandidates ==> r in allRooms
      {
        var room := allRooms[j];
        assert layout[..j + 1][..j] == layout[..j];
        if room.gridPosition != startRoomPos {
          var distance := Abs(room.gridPosition.x - startRoomPos.x) + Abs(room.gridPosition.y - startRoomPos.y);
          if distance >= config.minDistanceForShop {
            CellsAppend(shopCandidates, room);
            shopCandidates := shopCandidates + [room];
          }
          if distance >= config.minDistanceForSpecialEvent {
            CellsAppend(specialEventCandidates, room);
            specialEventCandidates := specialEventCandidates + [room];
          }
        }
      }
      assert layout[..|allRooms|] == layout;
    }

    /**
     * SelectSpecialRooms: one shop candidate, drawn at random, becomes the Shop
     * and leaves the event candidates; then one remaining event candidate,
     * drawn at random, becomes the SpecialEvent room.  A special room without
     * a candidate is not placed and its recorded cell keeps its old value.
     */
    method SelectSpecialRooms()
      requires Valid() && AllInitialRange() && AllUnentered()
      modifies this`calls, this`shopRoomPos, this`specialEventRoomPos
      modifies allRooms`roomType, allRooms`minEnemies, allRooms`maxEnemies
      ensures var sp := SelectSpecials(config, layout, tape, old(calls));
        && calls == sp.draws
        && shopRoomPos == (if sp.shop.Some? then sp.shop.value else old(shopRoomPos))
        && specialEventRoomPos == (if sp.event.Some? then sp.event.value else old(specialEventRoomPos))
        && forall i :: 0 <= i < |allRooms| ==>
             allRooms[i].roomType == (if sp.event == Some(layout[i]) then SpecialEvent
                                      else if sp.shop == Some(layout[i]) then Shop
                                      else old(allRooms[i].roomType))
      ensures AllInitialRange() && AllUnentered()
    {
      var shopCandidates, specialEventCandidates := CollectSpecialCandidates();
      PlaceSpecials(shopCandidates, specialEventCandidates);
    }

    /** The two draws of SelectSpecialRooms once its candidate lists are built. */
    method PlaceSpecials(shopCandidates: seq<Room>, specialEventCandidates: seq<Room>)
      requires Valid() && AllInitialRange() && AllUnentered()
      requires forall r :: r in shopCandidates ==> r in allRooms
      requires forall r :: r in specialEventCandidates ==> r in allRooms
      modifies this`calls, this`shopRoomPos, this`specialEventRoomPos
      modifies allRooms`roomType, allRooms`minEnemies, allRooms`maxEnemies
      ensures var sp := SelectFrom(Cells(shopCandidates), Cells(specialEventCandidates), tape, old(calls));
        && calls == sp.draws
        && shopRoomPos == (if sp.shop.Some? then sp.shop.value else old(shopRoomPos))
        && specialEventRoomPos == (if sp.event.Some? then sp.event.value else old(specialEventRoomPos))
        && forall i :: 0 <= i < |allRooms| ==>
             allRooms[i].roomType == (if sp.event == Some(layout[i]) then SpecialEvent
                                      else if sp.shop == Some(layout[i]) then Shop
                                      else old(allRooms[i].roomType))
      ensures AllInitialRange() && AllUnentered()
    {
      var rest;
      ghost var shop;
      rest, shop := PlaceShop(shopCandidates, specialEventCandidates);
      ghost var event := PlaceSpecialEvent(rest);
    }

    /**
     * SetRoomType(kind) on a room of the dungeon, seen from the room list: the
     * room at its cell takes the new type, and every enemy range is kept.
     */
    method Retype(room: Room, kind: RoomType)
      requires Valid() && AllInitialRange() && AllUnentered() && room in allRooms && kind != Start
      modifies room`roomType, room`minEnemies, room`maxEnemies
      ensures forall i :: 0 <= i < |allRooms| ==>
                allRooms[i].roomType == (if layout[i] == room.gridPosition then kind else old(allRooms[i].roomType))
      ensures AllInitialRange() && AllUnentered()
    {
      RoomAtCell(room);
      room.SetRoomType(kind);
    }

    /**
     * The shop half of SelectSpecialRooms: a drawn shop candidate becomes the
     * Shop, its cell is recorded and it leaves the event candidates.
     */
    method PlaceShop(shopCandidates: seq<Room>, specialEventCandidates: seq<Room>)
      returns (rest: seq<Room>, ghost shop: Option<Pos>)
      requires Valid() && AllInitialRange() && AllUnentered()
      requires forall r :: r in shopCandidates ==> r in allRooms
      requires forall r :: r in specialEventCandidates ==> r in allRooms
      modifies this`calls, this`shopRoomPos, allRooms`roomType, allRooms`minEnemies, allRooms`maxEnemies
      ensures Valid()
      ensures forall r :: r in rest ==> r in allRooms
      ensures SelectFrom(Cells(shopCandidates), Cells(specialEventCandidates), tape, old(calls))
              == PickEvent(shop, Cells(rest), tape, calls)
      ensures shopRoomPos == if shop.Some? then shop.value else old(shopRoomPos)
      ensures forall i :: 0 <= i < |allRooms| ==>
                allRooms[i].roomType == if shop == Some(layout[i]) then Shop else old(allRooms[i].roomType)
      ensures AllInitialRange() && AllUnentered()
    {
      rest, shop := specialEventCandidates, None;
      if |shopCandidates| > 0 {
        var index := Next(|shopCandidates|);
        var shopRoom := shopCandidates[index];
        assert shopRoom in allRooms;
        rest := TakeShop(shopRoom, specialEventCandidates);
        shop := Some(shopRoom.gridPosition);
        ShopDrawn(shopCandidates, specialEventCandidates, rest, tape, old(calls));
      }
    }

    /** The drawn shop room: SetRoomType(Shop), its cell recorded, and its removal from the event candidates. */
    method TakeShop(shopRoom: Room, specialEventCandidates: seq<Room>) returns (rest: seq<Room>)
      requires Valid() && AllInitialRange() && AllUnentered() && shopRoom in allRooms
      requires forall r :: r in specialEventCandidates ==> r in allRooms
      modifies this`shopRoomPos, shopRoom`roomType, shopRoom`minEnemies, shopRoom`maxEnemies
      ensures Valid() && AllInitialRange() && AllUnentered()
      ensures forall r :: r in rest ==> r in allRooms
      ensures Cells(rest) == RemoveFirst(Cells(specialEventCandidates), shopRoom.gridPosition)
      ensures shopRoomPos == shopRoom.gridPosition
      ensures forall i :: 0 <= i < |allRooms| ==>
                allRooms[i].roomType == if shopRoom.gridPosition == layout[i] then Shop else old(allRooms[i].roomType)
    {
      Retype(shopRoom, Shop);
      shopRoomPos := shopRoom.gridPosition;
      rest := RemoveRoom(specialEventCandidates, shopRoom);
    }

    /** The event half of SelectSpecialRooms: a drawn candidate becomes the SpecialEvent room. */
    method PlaceSpecialEvent(specialEventCandidates: seq<Room>) returns (ghost event: Option<Pos>)
      requires Valid() && AllInitialRange() && AllUnentered()
      requires forall r :: r in specialEventCandidates ==> r in allRooms
      modifies this`calls, this`specialEventRoomPos, allRooms`roomType, allRooms`minEnemies, allRooms`maxEnemies
      ensures forall shop :: PickEvent(shop, Cells(specialEventCandidates), tape, old(calls)) == Specials(shop, event, calls)
      ensures specialEventRoomPos == if event.Some? then event.value else old(specialEventRoomPos)
      ensures forall i :: 0 <= i < |allRooms| ==>
                allRooms[i].roomType == if event == Some(layout[i]) then SpecialEvent else old(allRooms[i].roomType)
      ensures AllInitialRange() && AllUnentered()
    {
      event := None;
      if |specialEventCandidates| > 0 {
        var index := Next(|specialEventCandidates|);
        var specialEventRoom := specialEventCandidates[index];
        assert specialEventRoom in allRooms;
        Retype(specialEventRoom, SpecialEvent);
        specialEventRoomPos := specialEventRoom.gridPosition;
        event := Some(specialEventRoomPos);
      }
    }

    /**
     * The connection loop of SetupRoomConnections for one room: each door is
     * open exactly when GetRoom finds a room on the other side.
     */
    method ConnectRoom(room: Room)
      requires Valid()
      modifies room`connections
      ensures Valid()
      ensures forall d: Dir :: room.connections.Get(d) == Connection(Side(config), layout, room.gridPosition, d)
    {
      ghost var side, rooms := Side(config), layout;
      for i := 0 to 4
        invariant forall e: Dir :: e < i ==> room.connections.Get(e) == Connection(side, rooms, room.gridPosition, e)
      {
        var neighborPos := Neighbour(room.gridPosition, i);
        var neighborRoom := GetRoom(neighborPos);
        if neighborRoom != null {
          room.SetConnection(i, true);
        } else {
          room.SetConnection(i, false);
        }
      }
    }

    /** SetupRoomConnections: every door of every room opens exactly onto a neighbouring room. */
    method SetupRoomConnections()
      requires Valid()
      modifies allRooms`connections
      ensures Valid()
      ensures forall i, d: Dir :: 0 <= i < |allRooms| ==>
                allRooms[i].connections.Get(d) == Connection(Side(config), layout, layout[i], d)
    {
      ghost var side, rooms := Side(config), layout;
      for j := 0 to |allRooms|
        invariant Valid() && rooms == layout
        invariant forall i, d: Dir :: 0 <= i < j ==>
                    allRooms[i].connections.Get(d) == Connection(side, rooms, rooms[i], d)
      {
        ConnectRoom(allRooms[j]);
      }
    }

    /**
     * The generator's state holds dungeon `dg`: its rooms at dg's cells in
     * creation order, each typed by TypeAt, each door open exactly onto a
     * neighbouring room, and the recorded special cells those of dg, or the
     * earlier ones `shop0` and `event0` where dg places no such room.
     */
    ghost predicate Holds(dg: Dungeon, shop0: Pos, event0: Pos)
      reads this, allRooms
    {
      && layout == dg.rooms && |allRooms| == |layout|
      && shopRoomPos == (if dg.specials.shop.Some? then dg.specials.shop.value else shop0)
      && specialEventRoomPos == (if dg.specials.event.Some? then dg.specials.event.value else event0)
      && (forall i :: 0 <= i < |allRooms| ==> allRooms[i].roomType == TypeAt(config, dg.specials, layout[i]))
      && (forall i, d: Dir :: 0 <= i < |allRooms| ==>
            allRooms[i].connections.Get(d) == Connection(Side(config), layout, layout[i], d))
    }

    /**
     * GenerateDungeon: clear, grow the rooms, pick the special rooms, connect
     * the doors.  The result is the dungeon Generate computes from the draws
     * not yet taken.
     */
    method GenerateDungeon()
      requires Valid()
      modifies this`allRooms, this`layout, this`dungeonGrid, this`calls, this`shopRoomPos, this`specialEventRoomPos
      ensures Valid()
      ensures Holds(Generate(config, tape, old(calls)), old(shopRoomPos), old(specialEventRoomPos))
      ensures calls == Generate(config, tape, old(calls)).specials.draws
      ensures forall i :: 0 <= i < |allRooms| ==> fresh(allRooms[i]) && AsBuilt(allRooms[i])
      ensures |allRooms| > 0 && !AllVisited()
    {
      ClearDungeon();
      PlaceRooms();
      SetupRoomConnections();
      forall i | 0 <= i < |allRooms| ensures AsBuilt(allRooms[i]) {
        // The first room is the only Start room, so InitialRange is the range Pristine asks for.
        assert Unentered(allRooms[i]) && InitialRange(i, allRooms[i]);
        GeneratedDungeon(config, tape, old(calls), i);
      }
    }

    /** The first two steps of GenerateDungeon on a cleared grid: GenerateRooms, then SelectSpecialRooms. */
    method PlaceRooms()
      requires Valid() && allRooms == []
      modifies this`allRooms, this`layout, this`calls, this`shopRoomPos, this`specialEventRoomPos, dungeonGrid
      ensures Valid()
      ensures |allRooms| > 0
      ensures AllUnentered() && AllInitialRange()
      ensures var dg := Generate(config, tape, old(calls));
        && layout == dg.rooms && calls == dg.specials.draws
        && shopRoomPos == (if dg.specials.shop.Some? then dg.specials.shop.value else old(shopRoomPos))
        && specialEventRoomPos == (if dg.specials.event.Some? then dg.specials.event.value else old(specialEventRoomPos))
        && forall i :: 0 <= i < |allRooms| ==> fresh(allRooms[i]) && allRooms[i].roomType == TypeAt(config, dg.specials, layout[i])
    {
      ghost var k := calls;
      GenerateRooms();
      TypeSpecialRooms(k);
    }

    /** SelectSpecialRooms on the rooms GenerateRooms built from draw `k` on. */
    method TypeSpecialRooms(ghost k: nat)
      requires Valid() && AllUnentered() && AllInitialRange()
      requires layout == DungeonLayout.GenerateRooms(config, tape, k).rooms
      requires calls == DungeonLayout.GenerateRooms(config, tape, k).draws
      requires |allRooms| > 0 && allRooms[0].roomType == Start
      requires forall i :: 1 <= i < |allRooms| ==> allRooms[i].roomType == Normal
      modifies this`calls, this`shopRoomPos, this`specialEventRoomPos
      modifies allRooms`roomType, allRooms`minEnemies, allRooms`maxEnemies
      ensures AllUnentered() && AllInitialRange()
      ensures var dg := Generate(config, tape, k);
        && calls == dg.specials.draws
        && shopRoomPos == (if dg.specials.shop.Some? then dg.specials.shop.value else old(shopRoomPos))
        && specialEventRoomPos == (if dg.specials.event.Some? then dg.specials.event.value else old(specialEventRoomPos))
        && forall i :: 0 <= i < |allRooms| ==> allRooms[i].roomType == TypeAt(config, dg.specials, layout[i])
    {
      ghost var dg := Generate(config, tape, k);
      assert dg == Dungeon(layout, SelectSpecials(config, layout, tape, calls));
      SelectSpecialRooms();
      GeneratedTypes(config, tape, k);
    }

    /** RegenerateDungeon(): a new seed from the clock, a new Random, a new dungeon. */
    method RegenerateDungeon(tickCount: int)
      requires Valid()
      modifies this`seed, this`tape, this`allRooms, this`layout, this`dungeonGrid, this`calls
      modifies this`shopRoomPos, this`specialEventRoomPos
      ensures Valid() && seed == tickCount && tape == prng(tickCount)
      ensures Holds(Generate(config, prng(tickCount), 0), old(shopRoomPos), old(specialEventRoomPos))
      ensures forall i :: 0 <= i < |allRooms| ==> fresh(allRooms[i]) && AsBuilt(allRooms[i])
      ensures |allRooms| > 0 && !AllVisited()
    {
      RegenerateDungeonWithSeed(tickCount);
    }

    /** RegenerateDungeon(newSeed): the given seed, a new Random, a new dungeon. */
    method RegenerateDungeonWithSeed(newSeed: int)
      requires Valid()
      modifies this`seed, this`tape, this`allRooms, this`layout, this`dungeonGrid, this`calls
      modifies this`shopRoomPos, this`specialEventRoomPos
      ensures Valid() && seed == newSeed && tape == prng(newSeed)
      ensures Holds(Generate(config, prng(newSeed), 0), old(shopRoomPos), old(specialEventRoomPos))
      ensures forall i :: 0 <= i < |allRooms| ==> fresh(allRooms[i]) && AsBuilt(allRooms[i])
      ensures |allRooms| > 0 && !AllVisited()
    {
      seed := newSeed;
      tape := prng(seed);
      calls := 0;
      GenerateDungeon();
    }

    /**
     * In a generated dungeon the doors match up: a room's door in direction d
     * is open exactly when GetRoom finds a room behind it whose door in the
     * opposite direction is open.
     */
    lemma DoorsMatch(dg: Dungeon, shop0: Pos, event0: Pos, i: nat, d: Dir)
      requires Valid() && Holds(dg, shop0, event0) && i < |allRooms|
      ensures var next := GetRoom(Neighbour(allRooms[i].gridPosition, d));
              allRooms[i].HasConnection(d) <==> next != null && next.HasConnection(Opposite(d))
    {
      var p := layout[i];
      var q := Neighbour(p, d);
      ConnectionSymmetric(Side(config), layout, p, d);
      var next := GetRoom(q);
      if next != null {
        var j :| 0 <= j < |allRooms| && allRooms[j] == next;
        assert layout[j] == q;
      }
    }
  }

  /** The grid cells of a list of rooms, in order. */
  function Cells(rooms: seq<Room>): (cells: seq<Pos>)
    ensures |cells| == |rooms|
    ensures forall i :: 0 <= i < |rooms| ==> cells[i] == rooms[i].gridPosition
  {
    if rooms == [] then [] else Cells(rooms[..|rooms| - 1]) + [rooms[|rooms| - 1].gridPosition]
  }

  /** SelectFrom's shop draw, read on the candidate rooms rather than their cells. */
  lemma ShopDrawn(shopCandidates: seq<Room>, eventCandidates: seq<Room>, rest: seq<Room>, tape: Tape, k: nat)
    requires |shopCandidates| > 0
    requires Cells(rest) == RemoveFirst(Cells(eventCandidates), shopCandidates[Draw(tape, k, |shopCandidates|)].gridPosition)
    ensures SelectFrom(Cells(shopCandidates), Cells(eventCandidates), tape, k)
            == PickEvent(Some(shopCandidates[Draw(tape, k, |shopCandidates|)].gridPosition), Cells(rest), tape, k + 1)
  {
  }

  /** Appending a room appends its cell. */
  lemma CellsAppend(rooms: seq<Room>, r: Room)
    ensures Cells(rooms + [r]) == Cells(rooms) + [r.gridPosition]
  {
    assert (rooms + [r])[..|rooms|] == rooms;
  }

  /** The cells of a list that starts with room `a`. */
  lemma CellsCons(a: Room, rooms: seq<Room>)
    ensures Cells([a] + rooms) == [a.gridPosition] + Cells(rooms)
  {
    assert forall i :: 0 <= i < |rooms| + 1 ==> Cells([a] + rooms)[i] == ([a.gridPosition] + Cells(rooms))[i];
  }

  /** Removing a room removes its cell, when no other listed room shares that cell. */
  lemma {:induction false} CellsRemoveFirst(rooms: seq<Room>, r: Room)
    requires forall q :: q in rooms && q.gridPosition == r.gridPosition ==> q == r
    ensures Cells(RemoveFirst(rooms, r)) == RemoveFirst(Cells(rooms), r.gridPosition)
    decreases |rooms|
  {
    if rooms != [] {
      var a, rest := rooms[0], rooms[1..];
      assert rooms == [a] + rest;
      CellsCons(a, rest);
      if a != r {
        CellsRemoveFirst(rest, r);
        CellsCons(a, RemoveFirst(rest, r));
      }
    }
  }
}
