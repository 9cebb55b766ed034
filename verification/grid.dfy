/** The playing field: a fixed square board of integer cells, the four
    headings the snake can take, and the row-major numbering of cells that
    the renderer walks through. */
module Grid {

  /** Number of cells along each side of the board. */
  const GridSize: int := 20

  /** Number of cells on the board. */
  const CellCount: int := GridSize * GridSize

  /** A cell of the board; x grows to the right, y grows downwards. */
  datatype Pos = Pos(x: int, y: int)

  datatype Dir = Up | Down | Left | Right

  predicate InBounds(p: Pos) {
    0 <= p.x < GridSize && 0 <= p.y < GridSize
  }

  predicate Horizontal(d: Dir) {
    d == Left || d == Right
  }

  function Abs(n: int): nat {
    if n < 0 then -n else n
  }

  /** The heading that would turn the snake straight back onto itself. */
  function Opposite(d: Dir): (r: Dir)
    ensures r != d
    ensures Horizontal(r) == Horizontal(d)
  {
    match d
    case Up => Down
    case Down => Up
    case Left => Right
    case Right => Left
  }

  /** The cell one step away from `p` along `d`. */
  function Move(p: Pos, d: Dir): (r: Pos)
    ensures Horizontal(d) ==> r.y == p.y && Abs(r.x - p.x) == 1
    ensures !Horizontal(d) ==> r.x == p.x && Abs(r.y - p.y) == 1
    ensures d == Right ==> r.x > p.x
    ensures d == Left ==> r.x < p.x
    ensures d == Down ==> r.y > p.y
    ensures d == Up ==> r.y < p.y
  {
    match d
    case Up => Pos(p.x, p.y - 1)
    case Down => Pos(p.x, p.y + 1)
    case Left => Pos(p.x - 1, p.y)
    case Right => Pos(p.x + 1, p.y)
  }

  lemma OppositeInvolutive(d: Dir)
    ensures Opposite(Opposite(d)) == d
  {
  }

  /** Stepping along `d` and then along its opposite comes back. */
  lemma MoveThenBack(p: Pos, d: Dir)
    ensures Move(Move(p, d), Opposite(d)) == p
  {
  }

  /** Different headings lead to different cells. */
  lemma MoveInjective(p: Pos, d1: Dir, d2: Dir)
    requires Move(p, d1) == Move(p, d2)
    ensures d1 == d2
  {
  }

  /** The cell the renderer draws at position `index` of the flat grid:
      column `index % GridSize`, row `index / GridSize`. */
  function CellPos(index: int): (p: Pos)
    requires 0 <= index < CellCount
    ensures InBounds(p)
    ensures p.y * GridSize + p.x == index
  {
    Pos(index % GridSize, index / GridSize)
  }

  /** Row-major position of an in-bounds cell in the flat grid. */
  function CellIndex(p: Pos): (index: int)
    requires InBounds(p)
    ensures 0 <= index < CellCount
    ensures CellPos(index) == p
  {
    p.y * GridSize + p.x
  }

  /** Every flat index names exactly one cell, and back. */
  lemma CellIndexOfCellPos(index: int)
    requires 0 <= index < CellCount
    ensures CellIndex(CellPos(index)) == index
  {
  }
}
