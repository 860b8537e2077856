/**
 * A door of a room: when the player touches it and the room's doors are not
 * blocked, the player is moved to the neighbouring room, next to that room's
 * opposite door.
 *
 * World-space geometry is reduced to what the door decides: the door anchor
 * of the target room is a parameter (its computation from the room size is
 * not part of this model), and positions are exact reals.  The transition
 * coroutine is split at its wait into BeginTransition and FinishTransition.
 */
module DoorControl {
  import opened Grid
  import opened MapGeneration
  import opened DungeonLayout

  /** Unity's Vector2 and Vector3, with exact arithmetic. */
  datatype Vec2 = Vec2(x: real, y: real)
  datatype Vec3 = Vec3(x: real, y: real, z: real)

  /** The static table oppositeDirections = {2, 3, 0, 1}. */
  const OppositeDirections: seq<Dir> := [2, 3, 0, 1]

  /** The table maps each direction to the opposite one, and applying it twice gives the direction back. */
  lemma OppositeTable(d: Dir)
    ensures OppositeDirections[d] == Opposite(d) == (d + 2) % 4
    ensures OppositeDirections[OppositeDirections[d]] == d
  {
    OppositeInvolution(d);
  }

  /**
   * CalculateNextRoomPosition: the switch on doorDirection picks the offset
   * (0, 1), (1, 0), (0, -1) or (-1, 0); any other direction leaves the
   * offset zero.
   */
  function NextRoomPosition(doorDirection: int, currentPos: Pos): (next: Pos)
    ensures 0 <= doorDirection < 4 ==> next == Neighbour(currentPos, doorDirection)
    ensures 0 <= doorDirection < 4 ==> Adjacent(currentPos, next)
    ensures !(0 <= doorDirection < 4) ==> next == currentPos
  {
    var offset :=
      match doorDirection
      case 0 => Pos(0, 1)
      case 1 => Pos(1, 0)
      case 2 => Pos(0, -1)
      case 3 => Pos(-1, 0)
      case _ => Pos(0, 0);
    Pos(currentPos.x + offset.x, currentPos.y + offset.y)
  }

  /** The component of `v` along the outward unit vector of a door in direction d. */
  function Along(v: Vec2, d: Dir): real
  {
    if d == 0 then v.y else if d == 1 then v.x else if d == 2 then -v.y else -v.x
  }

  /** The component of `v` along the wall of a door in direction d. */
  function Across(v: Vec2, d: Dir): real
  {
    if d == 0 || d == 2 then v.x else v.y
  }

  /** The component of `v` on the axis a door in direction d faces. */
  function Axis(v: Vec2, d: Dir): real
  {
    if d == 0 || d == 2 then v.y else v.x
  }

  /**
   * The offset switch of CalculatePlayerTargetPosition.  Its sign rules
   * (y negated at an Up door, x negated at a Right door, Down and Left
   * unchanged) always point the offset's axis component into the room: it
   * lies against the door's outward direction, and the component along the
   * wall is kept.  Any other direction gives the zero offset.
   */
  function ArrivalOffset(oppositeDirection: int, playerOffset: Vec2): (o: Vec2)
    ensures 0 <= oppositeDirection < 4 ==>
              && Along(o, oppositeDirection) == -Axis(playerOffset, oppositeDirection)
              && Across(o, oppositeDirection) == Across(playerOffset, oppositeDirection)
    ensures !(0 <= oppositeDirection < 4) ==> o == Vec2(0.0, 0.0)
  {
    match oppositeDirection
    case 0 => Vec2(playerOffset.x, -playerOffset.y)
    case 1 => Vec2(-playerOffset.x, playerOffset.y)
    case 2 => Vec2(playerOffset.x, playerOffset.y)
    case 3 => Vec2(playerOffset.x, playerOffset.y)
    case _ => Vec2(0.0, 0.0)
  }

  /** CalculatePlayerTargetPosition: the target room's door anchor plus the arrival offset. */
  function TargetPosition(oppositeDirection: int, doorAnchor: Vec3, playerOffset: Vec2): (r: Vec3)
    ensures r.z == doorAnchor.z
    ensures 0 <= oppositeDirection < 4 ==>
              Along(Vec2(r.x - doorAnchor.x, r.y - doorAnchor.y), oppositeDirection)
              == -Axis(playerOffset, oppositeDirection)
  {
    var o := ArrivalOffset(oppositeDirection, playerOffset);
    Vec3(doorAnchor.x + o.x, doorAnchor.y + o.y, doorAnchor.z)
  }

  /**
   * With a positive offset the player arrives strictly inside the target
   * room's wall: behind the door, against its outward direction.
   */
  lemma ArrivalInsideRoom(oppositeDirection: Dir, doorAnchor: Vec3, playerOffset: Vec2)
    requires playerOffset.x > 0.0 && playerOffset.y > 0.0
    ensures var r := TargetPosition(oppositeDirection, doorAnchor, playerOffset);
            Along(Vec2(r.x - doorAnchor.x, r.y - doorAnchor.y), oppositeDirection) < 0.0
  {
  }

  /** The player object: its position and the optional PlayerController's enabled flag. */
  class Player {
    var position: Vec3
    const hasController: bool
    var controlEnabled: bool

    constructor (position: Vec3, hasController: bool)
      ensures this.position == position && this.hasController == hasController && controlEnabled
    {
      this.position := position;
      this.hasController := hasController;
      controlEnabled := true;
    }
  }

  class DoorController {
    const doorDirection: Dir
    const playerOffset: Vec2
    const parentRoom: Room?
    const dungeonGenerator: DungeonGenerator?
    const oppositeDirection: Dir
    /** How often ShowBlockedDoorEffect ran (it only logs). */
    var blockedEffects: nat

    /**
     * Awake: the parent room, the generator and the opposite direction looked
     * up in the table.  The table lookup needs doorDirection in 0..3.
     */
    constructor (doorDirection: int, playerOffset: Vec2, parentRoom: Room?, dungeonGenerator: DungeonGenerator?)
      requires 0 <= doorDirection < 4
      ensures this.doorDirection == doorDirection && this.playerOffset == playerOffset
      ensures this.parentRoom == parentRoom && this.dungeonGenerator == dungeonGenerator
      ensures oppositeDirection == Opposite(doorDirection) && blockedEffects == 0
    {
      this.doorDirection := doorDirection;
      this.playerOffset := playerOffset;
      this.parentRoom := parentRoom;
      this.dungeonGenerator := dungeonGenerator;
      oppositeDirection := OppositeDirections[doorDirection];
      blockedEffects := 0;
      OppositeTable(doorDirection);
    }

    /**
     * OnTriggerEnter2D: a contact by the player starts a transition unless
     * the parent room's doors are blocked, in which case only the blocked
     * effect runs.  Nothing records a transition already under way, so every
     * contact starts a new one.
     */
    method OnTriggerEnter2D(isPlayer: bool) returns (startTransition: bool)
      modifies this`blockedEffects
      ensures startTransition <==> isPlayer && !(parentRoom != null && parentRoom.doorsBlocked)
      ensures blockedEffects
              == old(blockedEffects) + (if isPlayer && parentRoom != null && parentRoom.doorsBlocked then 1 else 0)
    {
      startTransition := false;
      if isPlayer {
        if parentRoom != null && parentRoom.AreDoorsBlocked() {
          blockedEffects := blockedEffects + 1;
          return;
        }
        startTransition := true;
      }
    }

    /**
     * TransitionToNextRoom up to its wait: without a parent room or a
     * generator, or without a room behind the door, it stops before touching
     * the player; otherwise it returns the target room and disables the
     * player's control.
     */
    method BeginTransition(player: Player) returns (nextRoom: Room?)
      requires dungeonGenerator != null ==> dungeonGenerator.Valid()
      modifies player`controlEnabled
      ensures parentRoom == null || dungeonGenerator == null ==> nextRoom == null
      ensures parentRoom != null && dungeonGenerator != null ==>
                nextRoom == dungeonGenerator.GetRoom(NextRoomPosition(doorDirection, parentRoom.gridPosition))
      ensures player.controlEnabled == (old(player.controlEnabled) && (nextRoom == null || !player.hasController))
    {
      if parentRoom == null || dungeonGenerator == null {
        return null;
      }
      var currentRoomPos := parentRoom.gridPosition;
      var nextRoomPos := NextRoomPosition(doorDirection, currentRoomPos);
      nextRoom := dungeonGenerator.GetRoom(nextRoomPos);
      if nextRoom == null {
        return;
      }
      if player.hasController {
        player.controlEnabled := false;
      }
    }

    /**
     * TransitionToNextRoom after its wait: the player moves next to the
     * target room's opposite door, control comes back, and the target room
     * is entered once.  `doorAnchor` is that door's world position.
     */
    method FinishTransition(player: Player, nextRoom: Room, doorAnchor: Vec3)
      modifies player`position, player`controlEnabled, nextRoom`hasBeenVisited, nextRoom`spawnPending
      ensures player.position == TargetPosition(oppositeDirection, doorAnchor, playerOffset)
      ensures player.controlEnabled == (old(player.controlEnabled) || player.hasController)
      ensures nextRoom.hasBeenVisited
      ensures nextRoom.spawnPending == (old(nextRoom.spawnPending)
                                       || (!old(nextRoom.hasBeenVisited) && nextRoom.roomType != Shop
                                           && nextRoom.roomType != Start && !nextRoom.enemiesDefeated))
    {
      var targetPosition := TargetPosition(oppositeDirection, doorAnchor, playerOffset);
      player.position := targetPosition;
      if player.hasController {
        player.controlEnabled := true;
      }
      nextRoom.OnPlayerEnter();
    }
  }

  /**
   * In a generated dungeon an open door always leads somewhere: the room the
   * door controller looks up exists, and its door back, in the direction the
   * table gives as opposite, is open too.
   */
  lemma OpenDoorLeadsBack(g: DungeonGenerator, dg: Dungeon, shop0: Pos, event0: Pos, i: nat, d: Dir)
    requires g.Valid() && g.Holds(dg, shop0, event0) && i < |g.allRooms|
    requires g.allRooms[i].HasConnection(d)
    ensures var next := g.GetRoom(NextRoomPosition(d, g.allRooms[i].gridPosition));
            next != null && next.HasConnection(OppositeDirections[d])
  {
    g.DoorsMatch(dg, shop0, event0, i, d);
    OppositeTable(d);
  }
}
