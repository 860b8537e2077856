/**
 * Integer grid coordinates and the four cardinal directions shared by the
 * dungeon generator, the rooms and the doors.
 * Directions are indexed 0 = Up, 1 = Right, 2 = Down, 3 = Left.
 */
module Grid {

  /** A cell of the dungeon grid (Unity's Vector2Int). */
  datatype Pos = Pos(x: int, y: int)

  /** A direction index: 0 = Up, 1 = Right, 2 = Down, 3 = Left. */
  type Dir = d: nat | d < 4

  function Abs(n: int): nat { if n < 0 then -n else n }

  /** Manhattan distance |dx| + |dy|. */
  function Manhattan(p: Pos, q: Pos): nat
  {
    Abs(p.x - q.x) + Abs(p.y - q.y)
  }

  /**
   * The cell next to `p` in direction `d`: `p` plus the generator's unit
   * vector (0, 1), (1, 0), (0, -1) or (-1, 0).
   */
  function Neighbour(p: Pos, d: Dir): Pos
  {
    if d == 0 then Pos(p.x, p.y + 1)
    else if d == 1 then Pos(p.x + 1, p.y)
    else if d == 2 then Pos(p.x, p.y - 1)
    else Pos(p.x - 1, p.y)
  }

  /** The door controller's table of opposite directions {2, 3, 0, 1}. */
  function Opposite(d: Dir): (r: Dir)
    ensures r == (d + 2) % 4
  {
    if d == 0 then 2 else if d == 1 then 3 else if d == 2 then 0 else 1
  }

  /** Two cells are adjacent when they differ by one step along one axis. */
  predicate Adjacent(p: Pos, q: Pos)
  {
    Manhattan(p, q) == 1
  }

  /** Taking the opposite direction twice gives the direction back. */
  lemma OppositeInvolution(d: Dir)
    ensures Opposite(Opposite(d)) == d
  {
  }

  /** Stepping in a direction and then in its opposite returns to the start cell. */
  lemma StepBack(p: Pos, d: Dir)
    ensures Neighbour(Neighbour(p, d), Opposite(d)) == p
  {
  }

  /** Adjacency is exactly "neighbour in one of the four directions". */
  lemma {:induction false} AdjacentIsNeighbour(p: Pos, q: Pos)
    ensures Adjacent(p, q) <==> exists d: Dir :: Neighbour(p, d) == q
  {
    if Adjacent(p, q) {
      var dx, dy := q.x - p.x, q.y - p.y;
      var d: Dir :=
        if dx == 0 && dy == 1 then 0
        else if dx == 1 && dy == 0 then 1
        else if dx == 0 && dy == -1 then 2
        else 3;
      assert Neighbour(p, d) == q;
    }
  }
}
