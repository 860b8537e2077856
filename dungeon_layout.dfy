/**
 * The dungeon generator's algorithm as pure functions over cell positions.
 *
 * Every random draw of the generator's System.Random is read from a `Tape`:
 * draw number k with bound n yields tape(k) % n, an index in [0, n).  The
 * imperative generator in MapGeneration is proved to compute exactly these
 * functions, so a dungeon is determined by the configuration, the tape and the
 * number of draws already taken from it.  The lemmas here state what the
 * generated layout guarantees: cells inside the grid, no cell filled twice,
 * every room adjacent to an earlier one (hence reachable from Start), count
 * bounds, special-room placement and door/adjacency consistency.
 */
module DungeonLayout {
  import opened Grid
  import opened Optional
  import opened Lists

  /** The generator's room kinds (RoomType in the source). */
  datatype RoomType = Start | Normal | Shop | SpecialEvent

  /** The generator's serialized settings. */
  datatype Config = Config(
    minRooms: int,
    maxRooms: int,
    minDistanceForShop: int,
    minDistanceForSpecialEvent: int)

  /**
   * Settings under which Awake and GenerateRooms do not throw: a grid of side
   * 2*maxRooms-1 must be non-empty, and Random.Next(minRooms, maxRooms + 1)
   * needs minRooms <= maxRooms + 1 (the model asks for minRooms <= maxRooms).
   */
  predicate ValidConfig(c: Config)
  {
    1 <= c.maxRooms && c.minRooms <= c.maxRooms
  }

  /** Width and height of the square working grid. */
  function Side(c: Config): int
  {
    2 * c.maxRooms - 1
  }

  /** The Start room's cell: the centre of the grid. */
  function StartPos(c: Config): (p: Pos)
    ensures ValidConfig(c) ==> InGrid(Side(c), p)
    ensures ValidConfig(c) ==> p.x == p.y == c.maxRooms - 1
  {
    Pos(Side(c) / 2, Side(c) / 2)
  }

  /** IsPositionValid: the cell lies inside a grid of the given side. */
  predicate InGrid(side: int, p: Pos)
  {
    0 <= p.x < side && 0 <= p.y < side
  }

  /** GetRoom(p) != null for a dungeon whose rooms sit at `rooms`. */
  predicate Occupied(side: int, rooms: seq<Pos>, p: Pos)
  {
    InGrid(side, p) && p in rooms
  }

  /** HasAdjacentRoom: some neighbour of `p` holds a room. */
  predicate HasAdjacent(side: int, rooms: seq<Pos>, p: Pos)
  {
    exists d: Dir :: Occupied(side, rooms, Neighbour(p, d))
  }

  /** The connection flag of the room at `p` in direction `d`. */
  predicate Connection(side: int, rooms: seq<Pos>, p: Pos, d: Dir)
  {
    Occupied(side, rooms, Neighbour(p, d))
  }

  /** A sequence of random draws: draw k is tape(k). */
  type Tape = nat -> nat

  /** Draw number k with bound n, System.Random.Next(n). */
  function Draw(tape: Tape, k: nat, n: nat): (i: nat)
    requires n > 0
    ensures i < n
  {
    tape(k) % n
  }

  /**
   * The candidate-extension loop over the first n directions: each neighbour of
   * `p` that is inside the grid, holds no room and is not yet listed is
   * appended to `acc`.
   */
  function Frontier(side: int, rooms: seq<Pos>, acc: seq<Pos>, p: Pos, n: nat): (r: seq<Pos>)
    requires n <= 4
    decreases n
  {
    if n == 0 then acc
    else
      var c := Frontier(side, rooms, acc, p, n - 1);
      var q := Neighbour(p, n - 1);
      if InGrid(side, q) && !Occupied(side, rooms, q) && q !in c then c + [q] else c
  }

  /** State of a growth or force-fill loop: placed rooms, the candidate list and draws taken. */
  datatype Growth = Growth(rooms: seq<Pos>, pending: seq<Pos>, draws: nat)

  /** One iteration of the growth loop of GenerateRooms. */
  function GrowStep(side: int, g: Growth, tape: Tape): (r: Growth)
    requires |g.pending| > 0
    ensures r.draws == g.draws + 1
    ensures (r.rooms == g.rooms && |r.pending| < |g.pending|) || |r.rooms| == |g.rooms| + 1
  {
    var i := Draw(tape, g.draws, |g.pending|);
    var p := g.pending[i];
    var rest := RemoveAt(g.pending, i);
    if InGrid(side, p) && !Occupied(side, g.rooms, p) && HasAdjacent(side, g.rooms, p) then
      var rooms := g.rooms + [p];
      Growth(rooms, Frontier(side, rooms, rest, p, 4), g.draws + 1)
    else
      Growth(g.rooms, rest, g.draws + 1)
  }

  /** The growth loop: iterate while fewer than `target` rooms exist and candidates remain. */
  function Grow(side: int, target: int, g: Growth, tape: Tape): Growth
    decreases target - |g.rooms|, |g.pending|
  {
    if |g.rooms| < target && |g.pending| > 0 then Grow(side, target, GrowStep(side, g, tape), tape)
    else g
  }

  /** The loop of ForceGenerateMoreRooms: place drawn candidates until `count` more rooms exist. */
  function Fill(count: int, g: Growth, tape: Tape): Growth
    decreases |g.pending|
  {
    if count > 0 && |g.pending| > 0 then
      var i := Draw(tape, g.draws, |g.pending|);
      Fill(count - 1, Growth(g.rooms + [g.pending[i]], RemoveAt(g.pending, i), g.draws + 1), tape)
    else g
  }

  /** The candidate collection of ForceGenerateMoreRooms over the first n rooms. */
  function Collect(side: int, rooms: seq<Pos>, n: nat): seq<Pos>
    requires n <= |rooms|
  {
    if n == 0 then [] else Frontier(side, rooms, Collect(side, rooms, n - 1), rooms[n - 1], 4)
  }

  /** The neighbours of `p` in direction order, listed without any check. */
  function Neighbours(p: Pos): seq<Pos>
  {
    [Neighbour(p, 0), Neighbour(p, 1), Neighbour(p, 2), Neighbour(p, 3)]
  }

  /** random.Next(minRooms, maxRooms + 1), as draw k. */
  function RoomsToGenerate(c: Config, tape: Tape, k: nat): (n: int)
    requires ValidConfig(c)
    ensures c.minRooms <= n <= c.maxRooms
  {
    c.minRooms + Draw(tape, k, (c.maxRooms + 1) - c.minRooms)
  }

  /** GenerateRooms before the force-fill pass, starting at draw k. */
  function GrowthPhase(c: Config, tape: Tape, k: nat): Growth
    requires ValidConfig(c)
  {
    var start := StartPos(c);
    Grow(Side(c), RoomsToGenerate(c, tape, k), Growth([start], Neighbours(start), k + 1), tape)
  }

  /** The last step of GenerateRooms: force-fill when fewer than minRooms rooms exist. */
  function TopUp(c: Config, rooms: seq<Pos>, k: nat, tape: Tape): Growth
  {
    if |rooms| < c.minRooms then
      Fill(c.minRooms - |rooms|, Growth(rooms, Collect(Side(c), rooms, |rooms|), k), tape)
    else Growth(rooms, [], k)
  }

  /** GenerateRooms: growth, then force-fill when fewer than minRooms rooms exist. */
  function GenerateRooms(c: Config, tape: Tape, k: nat): Growth
    requires ValidConfig(c)
  {
    var g := GrowthPhase(c, tape, k);
    TopUp(c, g.rooms, g.draws, tape)
  }

  /** A room qualifies as a special-room candidate. */
  predicate FarEnough(p: Pos, start: Pos, minDistance: int)
  {
    p != start && Manhattan(p, start) >= minDistance
  }

  /** The candidate list built by SelectSpecialRooms, in room order. */
  function Candidates(rooms: seq<Pos>, start: Pos, minDistance: int): (r: seq<Pos>)
    ensures forall q :: q in r <==> q in rooms && FarEnough(q, start, minDistance)
  {
    if rooms == [] then []
    else
      var last := rooms[|rooms| - 1];
      assert rooms == rooms[..|rooms| - 1] + [last];
      Candidates(rooms[..|rooms| - 1], start, minDistance)
      + (if FarEnough(last, start, minDistance) then [last] else [])
  }

  /** The outcome of SelectSpecialRooms: the chosen cells and the draws taken. */
  datatype Specials = Specials(shop: Option<Pos>, event: Option<Pos>, draws: nat)

  /** SelectSpecialRooms, starting at draw k. */
  function SelectSpecials(c: Config, rooms: seq<Pos>, tape: Tape, k: nat): Specials
  {
    var start := StartPos(c);
    SelectFrom(Candidates(rooms, start, c.minDistanceForShop),
               Candidates(rooms, start, c.minDistanceForSpecialEvent), tape, k)
  }

  /** The draws of SelectSpecialRooms once its two candidate lists are built. */
  function SelectFrom(shopCandidates: seq<Pos>, eventCandidates: seq<Pos>, tape: Tape, k: nat): Specials
  {
    if |shopCandidates| > 0 then
      var shop := shopCandidates[Draw(tape, k, |shopCandidates|)];
      PickEvent(Some(shop), RemoveFirst(eventCandidates, shop), tape, k + 1)
    else PickEvent(None, eventCandidates, tape, k)
  }

  /** The special-event draw of SelectSpecialRooms, after the shop choice. */
  function PickEvent(shop: Option<Pos>, eventCandidates: seq<Pos>, tape: Tape, k: nat): Specials
  {
    if |eventCandidates| > 0 then Specials(shop, Some(eventCandidates[Draw(tape, k, |eventCandidates|)]), k + 1)
    else Specials(shop, None, k)
  }

  /** The type a room at `p` ends up with after generation. */
  function TypeAt(c: Config, sp: Specials, p: Pos): RoomType
  {
    if p == StartPos(c) then Start
    else if sp.shop == Some(p) then Shop
    else if sp.event == Some(p) then SpecialEvent
    else Normal
  }

  // ---------------------------------------------------------------------------
  // What a generated layout guarantees
  // ---------------------------------------------------------------------------

  /**
   * The shape of every layout the generator builds: Start first, every cell in
   * the grid, no cell twice, and every later room adjacent to an earlier one.
   */
  ghost predicate WellFormed(side: int, start: Pos, rooms: seq<Pos>)
  {
    && |rooms| >= 1 && rooms[0] == start
    && AllInGrid(side, rooms)
    && Distinct(rooms)
    && (forall i :: 0 < i < |rooms| ==> HasEarlierNeighbour(rooms, i))
  }

  ghost predicate AllInGrid(side: int, rooms: seq<Pos>)
  {
    forall i :: 0 <= i < |rooms| ==> InGrid(side, rooms[i])
  }

  /** The room at index i is adjacent to a room placed before it. */
  ghost predicate HasEarlierNeighbour(rooms: seq<Pos>, i: nat)
    requires i < |rooms|
  {
    exists j :: 0 <= j < i && Adjacent(rooms[i], rooms[j])
  }

  /** Placing a cell that is in the grid, empty and next to a room keeps a layout well formed. */
  lemma {:induction false} PlaceKeepsWellFormed(side: int, start: Pos, rooms: seq<Pos>, p: Pos)
    requires WellFormed(side, start, rooms)
    requires InGrid(side, p) && p !in rooms && HasAdjacent(side, rooms, p)
    ensures WellFormed(side, start, rooms + [p])
  {
    var r := rooms + [p];
    var d: Dir :| Occupied(side, rooms, Neighbour(p, d));
    var j :| 0 <= j < |rooms| && rooms[j] == Neighbour(p, d);
    assert r[|rooms|] == p && r[j] == rooms[j];
    assert HasEarlierNeighbour(r, |rooms|);
    forall i | 0 < i < |rooms| ensures HasEarlierNeighbour(r, i)
    {
      assert HasEarlierNeighbour(rooms, i);
      var j' :| 0 <= j' < i && Adjacent(rooms[i], rooms[j']);
      assert r[i] == rooms[i] && r[j'] == rooms[j'];
    }
    assert AllInGrid(side, r) by {
      forall i | 0 <= i < |r| ensures InGrid(side, r[i]) {
        if i < |rooms| { assert r[i] == rooms[i]; }
      }
    }
    assert Distinct(r) by {
      forall a, b | 0 <= a < b < |r| ensures r[a] != r[b] {
        assert r[a] == rooms[a];
        if b < |rooms| { assert r[b] == rooms[b]; }
      }
    }
  }

  /** One growth step keeps the layout well formed and only appends rooms. */
  lemma {:induction false} GrowStepWellFormed(side: int, start: Pos, g: Growth, tape: Tape)
    requires |g.pending| > 0 && WellFormed(side, start, g.rooms)
    ensures WellFormed(side, start, GrowStep(side, g, tape).rooms)
    ensures g.rooms <= GrowStep(side, g, tape).rooms
  {
    var i := Draw(tape, g.draws, |g.pending|);
    var p := g.pending[i];
    if InGrid(side, p) && !Occupied(side, g.rooms, p) && HasAdjacent(side, g.rooms, p) {
      PlaceKeepsWellFormed(side, start, g.rooms, p);
    }
  }

  /**
   * The growth loop keeps the layout well formed, only appends, stops at the
   * target count or when candidates run out, and never exceeds the larger of
   * the target and the starting count.
   */
  lemma {:induction false} GrowProperties(side: int, start: Pos, target: int, g: Growth, tape: Tape)
    requires WellFormed(side, start, g.rooms)
    ensures var r := Grow(side, target, g, tape);
      && WellFormed(side, start, r.rooms)
      && g.rooms <= r.rooms
      && (|r.rooms| >= target || r.pending == [])
      && (|g.rooms| <= target ==> |r.rooms| <= target)
    decreases target - |g.rooms|, |g.pending|
  {
    if |g.rooms| < target && |g.pending| > 0 {
      var g' := GrowStep(side, g, tape);
      GrowStepWellFormed(side, start, g, tape);
      GrowProperties(side, start, target, g', tape);
    }
  }

  /** Candidate cells that a room can be placed on: in the grid, empty, each listed once. */
  ghost predicate FreeCells(side: int, rooms: seq<Pos>, pending: seq<Pos>)
  {
    && (forall i :: 0 <= i < |pending| ==> InGrid(side, pending[i]) && pending[i] !in rooms)
    && Distinct(pending)
  }

  /**
   * The force-fill candidate list: each entry in the grid, empty, next to a
   * room, and listed once.
   */
  ghost predicate FillReady(side: int, rooms: seq<Pos>, pending: seq<Pos>)
  {
    && (forall i :: 0 <= i < |pending| ==>
          InGrid(side, pending[i]) && pending[i] !in rooms && HasAdjacent(side, rooms, pending[i]))
    && Distinct(pending)
  }

  /** Extending a list of free cells with the free neighbours of any cell keeps it free. */
  lemma {:induction false} FrontierFree(side: int, rooms: seq<Pos>, acc: seq<Pos>, p: Pos, n: nat)
    requires n <= 4 && FreeCells(side, rooms, acc)
    ensures FreeCells(side, rooms, Frontier(side, rooms, acc, p, n))
  {
    if n > 0 {
      FrontierFree(side, rooms, acc, p, n - 1);
      var c := Frontier(side, rooms, acc, p, n - 1);
      var q := Neighbour(p, n - 1);
      if InGrid(side, q) && !Occupied(side, rooms, q) && q !in c {
        var c' := c + [q];
        forall i | 0 <= i < |c'| ensures InGrid(side, c'[i]) && c'[i] !in rooms {
          if i < |c| { assert c'[i] == c[i]; }
        }
      }
    }
  }

  /** The collected force-fill candidates are free cells, for any list of rooms. */
  lemma {:induction false} CollectFree(side: int, rooms: seq<Pos>, n: nat)
    requires n <= |rooms|
    ensures FreeCells(side, rooms, Collect(side, rooms, n))
  {
    if n > 0 {
      CollectFree(side, rooms, n - 1);
      FrontierFree(side, rooms, Collect(side, rooms, n - 1), rooms[n - 1], 4);
    }
  }

  /** Placing the drawn free cell leaves the remaining candidates free. */
  lemma FillStepFree(side: int, rooms: seq<Pos>, pending: seq<Pos>, i: nat)
    requires i < |pending| && FreeCells(side, rooms, pending)
    ensures FreeCells(side, rooms + [pending[i]], RemoveAt(pending, i))
  {
    RemoveAtDistinct(pending, i);
    RemoveAtEntries(pending, i);
  }

  /** Extending a candidate list with the free neighbours of a placed room keeps it ready. */
  lemma {:induction false} FrontierReady(side: int, rooms: seq<Pos>, acc: seq<Pos>, p: Pos, n: nat)
    requires n <= 4
    requires FillReady(side, rooms, acc) && Occupied(side, rooms, p)
    ensures FillReady(side, rooms, Frontier(side, rooms, acc, p, n))
    ensures acc <= Frontier(side, rooms, acc, p, n)
  {
    if n > 0 {
      FrontierReady(side, rooms, acc, p, n - 1);
      var c := Frontier(side, rooms, acc, p, n - 1);
      var q := Neighbour(p, n - 1);
      if InGrid(side, q) && !Occupied(side, rooms, q) && q !in c {
        StepBack(p, n - 1);
        assert Occupied(side, rooms, Neighbour(q, Opposite(n - 1)));
        assert HasAdjacent(side, rooms, q);
        var c' := c + [q];
        forall i | 0 <= i < |c'|
          ensures InGrid(side, c'[i]) && c'[i] !in rooms && HasAdjacent(side, rooms, c'[i])
        {
          if i < |c| { assert c'[i] == c[i]; }
        }
      }
    }
  }

  /** The collected force-fill candidates are ready. */
  lemma {:induction false} CollectReady(side: int, start: Pos, rooms: seq<Pos>, n: nat)
    requires n <= |rooms| && WellFormed(side, start, rooms)
    ensures FillReady(side, rooms, Collect(side, rooms, n))
  {
    if n > 0 {
      CollectReady(side, start, rooms, n - 1);
      FrontierReady(side, rooms, Collect(side, rooms, n - 1), rooms[n - 1], 4);
    }
  }

  /** A cell next to a room stays next to a room when rooms are added. */
  lemma HasAdjacentGrows(side: int, rooms: seq<Pos>, p: Pos, q: Pos)
    requires HasAdjacent(side, rooms, q)
    ensures HasAdjacent(side, rooms + [p], q)
  {
    var d: Dir :| Occupied(side, rooms, Neighbour(q, d));
    assert Occupied(side, rooms + [p], Neighbour(q, d));
  }

  /** Placing the drawn candidate keeps both the layout and the remaining candidates valid. */
  lemma {:induction false} FillStepReady(side: int, start: Pos, rooms: seq<Pos>, pending: seq<Pos>, i: nat)
    requires i < |pending|
    requires WellFormed(side, start, rooms) && FillReady(side, rooms, pending)
    ensures WellFormed(side, start, rooms + [pending[i]])
    ensures FillReady(side, rooms + [pending[i]], RemoveAt(pending, i))
  {
    var p := pending[i];
    PlaceKeepsWellFormed(side, start, rooms, p);
    var rest := RemoveAt(pending, i);
    var rooms' := rooms + [p];
    RemoveAtDistinct(pending, i);
    RemoveAtEntries(pending, i);
    forall j | 0 <= j < |rest|
      ensures InGrid(side, rest[j]) && rest[j] !in rooms' && HasAdjacent(side, rooms', rest[j])
    {
      assert rest[j] in pending;
      HasAdjacentGrows(side, rooms, p, rest[j]);
    }
  }

  /**
   * The force-fill loop keeps the layout well formed, only appends, adds at
   * most `count` rooms, and adds all `count` unless the candidates run out.
   */
  lemma {:induction false} FillProperties(side: int, start: Pos, count: int, g: Growth, tape: Tape)
    requires WellFormed(side, start, g.rooms) && FillReady(side, g.rooms, g.pending)
    ensures var r := Fill(count, g, tape);
      && WellFormed(side, start, r.rooms)
      && g.rooms <= r.rooms
      && (|r.rooms| >= |g.rooms| + count || r.pending == [])
      && (count >= 0 ==> |r.rooms| <= |g.rooms| + count)
    decreases |g.pending|
  {
    if count > 0 && |g.pending| > 0 {
      var i := Draw(tape, g.draws, |g.pending|);
      FillStepReady(side, start, g.rooms, g.pending, i);
      FillProperties(side, start, count - 1,
        Growth(g.rooms + [g.pending[i]], RemoveAt(g.pending, i), g.draws + 1), tape);
    }
  }

  /**
   * The force-fill pass keeps the layout well formed, only appends, reaches
   * minRooms unless the candidates run out, and never goes past minRooms.
   */
  lemma TopUpProperties(c: Config, rooms: seq<Pos>, k: nat, tape: Tape)
    requires WellFormed(Side(c), StartPos(c), rooms)
    ensures var r := TopUp(c, rooms, k, tape);
      && WellFormed(Side(c), StartPos(c), r.rooms)
      && rooms <= r.rooms
      && (|r.rooms| >= c.minRooms || r.pending == [])
      && (|rooms| < c.minRooms ==> |r.rooms| <= c.minRooms)
      && (|rooms| >= c.minRooms ==> r.rooms == rooms)
  {
    if |rooms| < c.minRooms {
      var side := Side(c);
      var pending := Collect(side, rooms, |rooms|);
      CollectReady(side, StartPos(c), rooms, |rooms|);
      FillProperties(side, StartPos(c), c.minRooms - |rooms|, Growth(rooms, pending, k), tape);
    }
  }

  /**
   * GenerateRooms builds a well-formed layout with at most roomsToGenerate
   * rooms (hence at most maxRooms; with minRooms below 1 a target of 0 still
   * leaves the Start room) and at least minRooms unless the force-fill
   * candidates ran out.
   */
  lemma GeneratedRoomsProperties(c: Config, tape: Tape, k: nat)
    requires ValidConfig(c)
    ensures var r := GenerateRooms(c, tape, k);
      && WellFormed(Side(c), StartPos(c), r.rooms)
      && (1 <= c.minRooms ==> |r.rooms| <= RoomsToGenerate(c, tape, k))
      && (|r.rooms| <= RoomsToGenerate(c, tape, k) || |r.rooms| == 1)
      && |r.rooms| <= c.maxRooms
      && (|r.rooms| >= c.minRooms || r.pending == [])
  {
    var start := StartPos(c);
    var target := RoomsToGenerate(c, tape, k);
    assert WellFormed(Side(c), start, [start]);
    GrowProperties(Side(c), start, target, Growth([start], Neighbours(start), k + 1), tape);
    var g := GrowthPhase(c, tape, k);
    TopUpProperties(c, g.rooms, g.draws, tape);
  }

  /** A walk through the layout: every step moves to an adjacent room. */
  ghost predicate IsWalk(rooms: seq<Pos>, path: seq<Pos>)
  {
    && |path| >= 1
    && (forall i :: 0 <= i < |path| ==> path[i] in rooms)
    && (forall i :: 0 <= i < |path| - 1 ==> Adjacent(path[i], path[i + 1]))
  }

  /** Every room of a well-formed layout is reached from Start by a walk through rooms. */
  lemma {:induction false} ReachableFromStart(side: int, start: Pos, rooms: seq<Pos>, i: nat)
    requires WellFormed(side, start, rooms) && i < |rooms|
    ensures exists path :: IsWalk(rooms, path) && path[0] == start && path[|path| - 1] == rooms[i]
  {
    if i == 0 {
      assert IsWalk(rooms, [start]);
    } else {
      assert HasEarlierNeighbour(rooms, i);
      var j :| 0 <= j < i && Adjacent(rooms[i], rooms[j]);
      ReachableFromStart(side, start, rooms, j);
      var path :| IsWalk(rooms, path) && path[0] == start && path[|path| - 1] == rooms[j];
      var path' := path + [rooms[i]];
      assert Manhattan(rooms[j], rooms[i]) == Manhattan(rooms[i], rooms[j]);
      assert IsWalk(rooms, path');
    }
  }

  /** Between two adjacent rooms there is an open connection, in both directions. */
  lemma {:induction false} AdjacentRoomsConnected(side: int, rooms: seq<Pos>, p: Pos, q: Pos)
    requires Occupied(side, rooms, p) && Occupied(side, rooms, q) && Adjacent(p, q)
    ensures exists d: Dir :: Neighbour(p, d) == q && Connection(side, rooms, p, d)
                             && Connection(side, rooms, q, Opposite(d))
  {
    AdjacentIsNeighbour(p, q);
    var d: Dir :| Neighbour(p, d) == q;
    StepBack(p, d);
  }

  /**
   * Connection flags are symmetric: the room at `p` is connected in direction d
   * exactly when there is a room next to it that is connected back in the
   * opposite direction.
   */
  lemma ConnectionSymmetric(side: int, rooms: seq<Pos>, p: Pos, d: Dir)
    requires Occupied(side, rooms, p)
    ensures Connection(side, rooms, p, d) <==>
            Occupied(side, rooms, Neighbour(p, d)) && Connection(side, rooms, Neighbour(p, d), Opposite(d))
  {
    StepBack(p, d);
  }

  /** Candidates drawn from a list without repeats have no repeats. */
  lemma {:induction false} CandidatesDistinct(rooms: seq<Pos>, start: Pos, minDistance: int)
    requires Distinct(rooms)
    ensures Distinct(Candidates(rooms, start, minDistance))
    decreases |rooms|
  {
    if rooms != [] {
      var init := rooms[..|rooms| - 1];
      var last := rooms[|rooms| - 1];
      assert Distinct(init);
      CandidatesDistinct(init, start, minDistance);
      assert last !in init;
    }
  }

  /**
   * Special-room placement: each special room is a room other than Start that
   * meets its own minimum distance, the two are different rooms, the shop is
   * placed exactly when it has a candidate, and the event room is placed exactly
   * when some candidate other than the shop exists.
   */
  lemma SpecialsPlacement(c: Config, rooms: seq<Pos>, tape: Tape, k: nat)
    requires Distinct(rooms)
    ensures var sp := SelectSpecials(c, rooms, tape, k);
      && (sp.shop.Some? ==> sp.shop.value in rooms && FarEnough(sp.shop.value, StartPos(c), c.minDistanceForShop))
      && (sp.event.Some? ==> sp.event.value in rooms
                             && FarEnough(sp.event.value, StartPos(c), c.minDistanceForSpecialEvent))
      && (sp.shop.Some? && sp.event.Some? ==> sp.shop.value != sp.event.value)
      && (sp.shop.None? <==> forall q :: q in rooms ==> !FarEnough(q, StartPos(c), c.minDistanceForShop))
      && (sp.event.None? <==>
            forall q :: q in rooms && FarEnough(q, StartPos(c), c.minDistanceForSpecialEvent) ==> sp.shop == Some(q))
      && k <= sp.draws <= k + 2
  {
    var start := StartPos(c);
    var shopCandidates := Candidates(rooms, start, c.minDistanceForShop);
    var eventCandidates := Candidates(rooms, start, c.minDistanceForSpecialEvent);
    CandidatesDistinct(rooms, start, c.minDistanceForSpecialEvent);
    if |shopCandidates| > 0 {
      var shop := shopCandidates[Draw(tape, k, |shopCandidates|)];
      RemoveFirstGone(eventCandidates, shop);
    } else {
      forall q | q in rooms ensures !FarEnough(q, start, c.minDistanceForShop) {
        assert q !in shopCandidates;
      }
      if |eventCandidates| == 0 {
        forall q | q in rooms ensures !FarEnough(q, start, c.minDistanceForSpecialEvent) {
          assert q !in eventCandidates;
        }
      }
    }
  }

  /** The whole layout of one GenerateDungeon call, from draw k on. */
  datatype Dungeon = Dungeon(rooms: seq<Pos>, specials: Specials)

  function Generate(c: Config, tape: Tape, k: nat): Dungeon
    requires ValidConfig(c)
  {
    var g := GenerateRooms(c, tape, k);
    Dungeon(g.rooms, SelectSpecials(c, g.rooms, tape, g.draws))
  }

  /**
   * The whole generated dungeon: Start at the grid centre holds type Start,
   * every room is reachable from Start by walking through open connections,
   * room types other than Start are given to rooms other than Start, and the
   * count and distance bounds hold.
   */
  lemma GeneratedDungeon(c: Config, tape: Tape, k: nat, i: nat)
    requires ValidConfig(c)
    requires i < |Generate(c, tape, k).rooms|
    ensures var dg := Generate(c, tape, k);
      && WellFormed(Side(c), StartPos(c), dg.rooms)
      && TypeAt(c, dg.specials, dg.rooms[0]) == Start
      && (i > 0 ==> TypeAt(c, dg.specials, dg.rooms[i]) != Start)
      && exists path :: IsDoorWalk(Side(c), dg.rooms, path) && path[0] == StartPos(c)
                        && path[|path| - 1] == dg.rooms[i]
  {
    var g := GenerateRooms(c, tape, k);
    var rooms := g.rooms;
    var side, start := Side(c), StartPos(c);
    assert Generate(c, tape, k).rooms == rooms;
    GeneratedRoomsProperties(c, tape, k);
    assert WellFormed(side, start, rooms);
    if i > 0 {
      assert rooms[i] != rooms[0];
    }
    ReachableFromStart(side, start, rooms, i);
    var path :| IsWalk(rooms, path) && path[0] == start && path[|path| - 1] == rooms[i];
    WalkUsesDoors(side, start, rooms, path);
  }

  /**
   * The types GenerateDungeon assigns in place (Start first, Normal for the
   * rest, then Shop and SpecialEvent over them) are the types TypeAt gives.
   */
  lemma GeneratedTypes(c: Config, tape: Tape, k: nat)
    requires ValidConfig(c)
    ensures var dg := Generate(c, tape, k);
      forall i :: 0 <= i < |dg.rooms| ==>
        TypeAt(c, dg.specials, dg.rooms[i])
        == if dg.specials.event == Some(dg.rooms[i]) then SpecialEvent
           else if dg.specials.shop == Some(dg.rooms[i]) then Shop
           else if i == 0 then Start
           else Normal
  {
    var g := GenerateRooms(c, tape, k);
    GeneratedRoomsProperties(c, tape, k);
    SpecialsPlacement(c, g.rooms, tape, g.draws);
    forall i | 0 < i < |g.rooms| ensures g.rooms[i] != StartPos(c) {
      assert g.rooms[i] != g.rooms[0];
    }
  }

  /** Moving from `p` to `q` goes through an open connection of the room at `p`. */
  ghost predicate DoorStep(side: int, rooms: seq<Pos>, p: Pos, q: Pos)
  {
    exists d: Dir :: Neighbour(p, d) == q && Connection(side, rooms, p, d)
  }

  /** A walk whose every step goes through an open connection of the room it leaves. */
  ghost predicate IsDoorWalk(side: int, rooms: seq<Pos>, path: seq<Pos>)
  {
    && |path| >= 1
    && (forall i :: 0 <= i < |path| ==> Occupied(side, rooms, path[i]))
    && (forall i :: 0 <= i < |path| - 1 ==> DoorStep(side, rooms, path[i], path[i + 1]))
  }

  /** In a layout inside the grid, every walk through rooms goes through open connections. */
  lemma WalkUsesDoors(side: int, start: Pos, rooms: seq<Pos>, path: seq<Pos>)
    requires WellFormed(side, start, rooms) && IsWalk(rooms, path)
    ensures IsDoorWalk(side, rooms, path)
  {
    forall i | 0 <= i < |path| ensures Occupied(side, rooms, path[i]) {
      var j :| 0 <= j < |rooms| && rooms[j] == path[i];
      assert InGrid(side, rooms[j]);
    }
    forall i | 0 <= i < |path| - 1
      ensures DoorStep(side, rooms, path[i], path[i + 1])
    {
      assert Occupied(side, rooms, path[i]) && Occupied(side, rooms, path[i + 1]);
      AdjacentRoomsConnected(side, rooms, path[i], path[i + 1]);
      var d: Dir :| Neighbour(path[i], d) == path[i + 1] && Connection(side, rooms, path[i], d)
                    && Connection(side, rooms, path[i + 1], Opposite(d));
      assert Neighbour(path[i], d) == path[i + 1] && Connection(side, rooms, path[i], d);
    }
  }
}
