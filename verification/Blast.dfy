/** Where a bomb's blast reaches, in closed form (`game.cpp`, `explode_one_direction`
    and `find_explosions`). */
module Blasts {
  import opened Types

  datatype Board = Board(sizeX: U16, sizeY: U16, radius: U16)

  predicate UnitStep(dx: int, dy: int) {
    (dx == 0 && (dy == 1 || dy == -1)) || (dy == 0 && (dx == 1 || dx == -1))
  }

  function Along(start: int, d: int, k: int): int {
    if d == 0 then start else if d > 0 then start + k else start - k
  }

  predicate OnBoard(b: Board, p: Position) {
    p.x < b.sizeX && p.y < b.sizeY
  }

  /** The k-th cell of the ray lies on the board. */
  predicate CellOnBoard(b: Board, pos: Position, dx: int, dy: int, k: int) {
    0 <= Along(pos.x, dx, k) < b.sizeX && 0 <= Along(pos.y, dy, k) < b.sizeY
  }

  function Cell(b: Board, pos: Position, dx: int, dy: int, k: int): Position
    requires CellOnBoard(b, pos, dx, dy, k)
  {
    Position(Along(pos.x, dx, k), Along(pos.y, dy, k))
  }

  /** The ray arrives at its k-th cell: it never left the board and met no block on the way. */
  ghost predicate Reaches(b: Board, blocks: set<Position>, pos: Position, dx: int, dy: int, k: int) {
    && (forall j {:trigger CellOnBoard(b, pos, dx, dy, j)} :: 0 <= j <= k ==> CellOnBoard(b, pos, dx, dy, j))
    && (forall j {:trigger Cell(b, pos, dx, dy, j)} :: 0 <= j < k ==> Cell(b, pos, dx, dy, j) !in blocks)
  }

  ghost function Ray(b: Board, blocks: set<Position>, pos: Position, dx: int, dy: int): set<Position> {
    set k | 0 <= k <= b.radius && Reaches(b, blocks, pos, dx, dy, k) :: Cell(b, pos, dx, dy, k)
  }

  ghost function Blast(b: Board, blocks: set<Position>, pos: Position): set<Position> {
    Ray(b, blocks, pos, 0, 1) + Ray(b, blocks, pos, 1, 0) + Ray(b, blocks, pos, 0, -1) + Ray(b, blocks, pos, -1, 0)
  }

  /** A ray holds at most one block: the one that stopped it. */
  lemma RayHitsOneBlock(b: Board, blocks: set<Position>, pos: Position, dx: int, dy: int)
    ensures |Ray(b, blocks, pos, dx, dy) * blocks| <= 1
    ensures pos in blocks ==> Ray(b, blocks, pos, dx, dy) <= {pos}
  {
    var hit := Ray(b, blocks, pos, dx, dy) * blocks;
    forall p, q | p in hit && q in hit ensures p == q {
      var k :| 0 <= k <= b.radius && Reaches(b, blocks, pos, dx, dy, k) && p == Cell(b, pos, dx, dy, k);
      var j :| 0 <= j <= b.radius && Reaches(b, blocks, pos, dx, dy, j) && q == Cell(b, pos, dx, dy, j);
      assert !(k < j) && !(j < k);
    }
    if hit != {} {
      var p :| p in hit;
      assert hit == {p};
    }
    if pos in blocks {
      forall p | p in Ray(b, blocks, pos, dx, dy) ensures p == pos {
        var k :| 0 <= k <= b.radius && Reaches(b, blocks, pos, dx, dy, k) && p == Cell(b, pos, dx, dy, k);
        assert CellOnBoard(b, pos, dx, dy, 0);
        assert Cell(b, pos, dx, dy, 0) == pos;
      }
    }
  }

  /** A bomb destroys at most four blocks; buried under a block it destroys that block and nothing else. */
  lemma BlastDestroysAtMostFour(b: Board, blocks: set<Position>, pos: Position)
    ensures |Blast(b, blocks, pos) * blocks| <= 4
    ensures OnBoard(b, pos) && pos in blocks ==> Blast(b, blocks, pos) == {pos}
  {
    var up, right := Ray(b, blocks, pos, 0, 1), Ray(b, blocks, pos, 1, 0);
    var down, left := Ray(b, blocks, pos, 0, -1), Ray(b, blocks, pos, -1, 0);
    RayHitsOneBlock(b, blocks, pos, 0, 1);
    RayHitsOneBlock(b, blocks, pos, 1, 0);
    RayHitsOneBlock(b, blocks, pos, 0, -1);
    RayHitsOneBlock(b, blocks, pos, -1, 0);
    FourUnionSize(up, right, down, left, blocks);
    if OnBoard(b, pos) {
      CenterIsHit(b, blocks, pos);
    }
  }

  lemma FourUnionSize<T>(a: set<T>, b: set<T>, c: set<T>, d: set<T>, blocks: set<T>)
    requires |a * blocks| <= 1 && |b * blocks| <= 1 && |c * blocks| <= 1 && |d * blocks| <= 1
    ensures |(a + b + c + d) * blocks| <= 4
  {
    UnionSize(a * blocks, b * blocks);
    UnionSize(c * blocks, d * blocks);
    UnionSize(a * blocks + b * blocks, c * blocks + d * blocks);
    assert (a + b + c + d) * blocks == a * blocks + b * blocks + (c * blocks + d * blocks);
  }

  lemma UnionSize<T>(a: set<T>, b: set<T>)
    ensures |a + b| <= |a| + |b|
  {
    assert a + b == a + (b - a);
    SubsetSize(b - a, b);
  }

  lemma {:induction false} SubsetSize<T>(a: set<T>, b: set<T>)
    requires a <= b
    ensures |a| <= |b|
  {
    assert b == a + (b - a);
  }

  /** The bomb's own cell always explodes. */
  lemma CenterIsHit(b: Board, blocks: set<Position>, pos: Position)
    requires OnBoard(b, pos)
    ensures pos in Blast(b, blocks, pos)
  {
    assert Reaches(b, blocks, pos, 0, 1, 0);
    assert Cell(b, pos, 0, 1, 0) == pos;
  }

  lemma BlastOnBoard(b: Board, blocks: set<Position>, pos: Position)
    ensures forall p :: p in Blast(b, blocks, pos) ==> OnBoard(b, p)
  {
    forall p | p in Blast(b, blocks, pos) ensures OnBoard(b, p) {
      var dx, dy, k := RayOf(b, blocks, pos, p);
    }
  }

  /** An independent description of a hit: p shares a row or a column with the bomb, is within the
      radius, and no block lies strictly between them. */
  ghost predicate Struck(b: Board, blocks: set<Position>, pos: Position, p: Position) {
    && OnBoard(b, p)
    && (p.x == pos.x || p.y == pos.y)
    && Distance(p, pos) <= b.radius
    && (forall q :: q in blocks && Between(pos, q, p) ==> q == p)
  }

  lemma BlastMembership(b: Board, blocks: set<Position>, pos: Position, p: Position)
    requires OnBoard(b, pos)
    ensures p in Blast(b, blocks, pos) <==> Struck(b, blocks, pos, p)
  {
    if p in Blast(b, blocks, pos) {
      var dx, dy, k := RayOf(b, blocks, pos, p);
      RayStrikes(b, blocks, pos, p, dx, dy, k);
    }
    if Struck(b, blocks, pos, p) {
      StruckIsOnRay(b, blocks, pos, p);
    }
  }

  lemma RayStrikes(b: Board, blocks: set<Position>, pos: Position, p: Position, dx: int, dy: int, k: int)
    requires UnitStep(dx, dy) && 0 <= k <= b.radius
    requires CellOnBoard(b, pos, dx, dy, k) && Reaches(b, blocks, pos, dx, dy, k) && p == Cell(b, pos, dx, dy, k)
    ensures Struck(b, blocks, pos, p)
  {
    forall q | q in blocks && Between(pos, q, p) ensures q == p {
      var j := Distance(q, pos);
      assert CellOnBoard(b, pos, dx, dy, j);
      assert Cell(b, pos, dx, dy, j) == q;
    }
  }

  lemma StruckIsOnRay(b: Board, blocks: set<Position>, pos: Position, p: Position)
    requires OnBoard(b, pos) && Struck(b, blocks, pos, p)
    ensures p in Blast(b, blocks, pos)
  {
    if p == pos {
      CenterIsHit(b, blocks, pos);
    } else if p.x == pos.x {
      StruckAlong(b, blocks, pos, p, 0, Sign(p.y - pos.y));
    } else {
      StruckAlong(b, blocks, pos, p, Sign(p.x - pos.x), 0);
    }
  }

  lemma StruckAlong(b: Board, blocks: set<Position>, pos: Position, p: Position, dx: int, dy: int)
    requires OnBoard(b, pos) && Struck(b, blocks, pos, p) && p != pos
    requires dx == Sign(p.x - pos.x) && dy == Sign(p.y - pos.y)
    ensures p in Ray(b, blocks, pos, dx, dy)
  {
    var d := Distance(p, pos);
    forall j | 0 <= j <= d ensures CellOnBoard(b, pos, dx, dy, j) {
    }
    forall j | 0 <= j < d ensures Cell(b, pos, dx, dy, j) !in blocks {
      assert CellOnBoard(b, pos, dx, dy, j);
      assert Between(pos, Cell(b, pos, dx, dy, j), p);
    }
    assert Reaches(b, blocks, pos, dx, dy, d);
    assert CellOnBoard(b, pos, dx, dy, d);
    assert Cell(b, pos, dx, dy, d) == p;
  }

  function Sign(n: int): int {
    if n > 0 then 1 else if n < 0 then -1 else 0
  }

  function Abs(n: int): nat {
    if n < 0 then -n else n
  }

  function Distance(p: Position, q: Position): nat {
    Abs(p.x - q.x) + Abs(p.y - q.y)
  }

  /** q lies on the axis-parallel segment from p to r. */
  predicate Between(p: Position, q: Position, r: Position) {
    Distance(p, q) + Distance(q, r) == Distance(p, r)
  }

  lemma RayOf(b: Board, blocks: set<Position>, pos: Position, p: Position) returns (dx: int, dy: int, k: int)
    requires p in Blast(b, blocks, pos)
    ensures UnitStep(dx, dy) && 0 <= k <= b.radius
    ensures CellOnBoard(b, pos, dx, dy, k) && Reaches(b, blocks, pos, dx, dy, k) && p == Cell(b, pos, dx, dy, k)
  {
    if p in Ray(b, blocks, pos, 0, 1) {
      dx, dy := 0, 1;
    } else if p in Ray(b, blocks, pos, 1, 0) {
      dx, dy := 1, 0;
    } else if p in Ray(b, blocks, pos, 0, -1) {
      dx, dy := 0, -1;
    } else {
      dx, dy := -1, 0;
    }
    k :| 0 <= k <= b.radius && Reaches(b, blocks, pos, dx, dy, k) && p == Cell(b, pos, dx, dy, k);
    assert CellOnBoard(b, pos, dx, dy, k);
  }
}
