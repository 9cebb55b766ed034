/** The renderer's view of the state: the board drawn as a flat list of
    GridSize * GridSize cells in row-major order, each marked as snake
    head, snake body and/or food. */
module Board {
  import opened Grid

  /** The marks a drawn cell carries. A head cell is also a body cell. */
  datatype Cell = Cell(head: bool, body: bool, food: bool)

  /** The renderer's segment scan (`some`). It reports a hit exactly when
      the cell is in the snake, which is the test the tick's self-collision
      check makes. */
  method Occupied(snake: seq<Pos>, p: Pos) returns (hit: bool)
    ensures hit <==> p in snake
  {
    hit := false;
    var i := 0;
    while i < |snake| && !hit
      invariant 0 <= i <= |snake|
      invariant hit <==> p in snake[..i]
    {
      hit := snake[i] == p;
      i := i + 1;
    }
    assert !hit ==> snake[..i] == snake;
  }

  /** How the renderer marks the cell at flat position `index`. The head
      test only looks at the first segment once the cell is known to hold
      a segment, so an empty snake is never indexed. */
  function ClassifyCell(snake: seq<Pos>, food: Pos, index: int): (c: Cell)
    requires 0 <= index < CellCount
    ensures c.head ==> c.body
    ensures c.body <==> exists i :: 0 <= i < |snake| && snake[i] == CellPos(index)
    ensures c.head <==> |snake| > 0 && InBounds(snake[0]) && index == CellIndex(snake[0])
    ensures c.food <==> InBounds(food) && index == CellIndex(food)
  {
    var p := CellPos(index);
    var isSnake := p in snake;
    Cell(isSnake && p == snake[0], isSnake, p == food)
  }

  /** Draws the whole board. */
  method Render(snake: seq<Pos>, food: Pos) returns (cells: seq<Cell>)
    ensures |cells| == CellCount
    ensures forall i :: 0 <= i < CellCount ==> (cells[i].body <==> CellPos(i) in snake)
    ensures forall i :: 0 <= i < CellCount ==> (cells[i].food <==> CellPos(i) == food)
    ensures forall i :: 0 <= i < CellCount ==>
              (cells[i].head <==> |snake| > 0 && CellPos(i) == snake[0])
    ensures forall i :: 0 <= i < CellCount ==> cells[i] == ClassifyCell(snake, food, i)
  {
    cells := [];
    var index := 0;
    while index < CellCount
      invariant 0 <= index <= CellCount
      invariant |cells| == index
      invariant forall i :: 0 <= i < index ==> (cells[i].body <==> CellPos(i) in snake)
      invariant forall i :: 0 <= i < index ==> (cells[i].food <==> CellPos(i) == food)
      invariant forall i :: 0 <= i < index ==>
                  (cells[i].head <==> |snake| > 0 && CellPos(i) == snake[0])
    {
      var p := CellPos(index);
      var isSnake := Occupied(snake, p);
      var isHead := isSnake && p == snake[0];
      cells := cells + [Cell(isHead, isSnake, p == food)];
      index := index + 1;
    }
  }

  /** The drawn body cells are exactly the cells of the on-board
      segments. */
  lemma BodyCellsAreSegments(snake: seq<Pos>, food: Pos)
    ensures (set index | 0 <= index < CellCount && ClassifyCell(snake, food, index).body)
         == (set p | p in snake && InBounds(p) :: CellIndex(p))
  {
  }
}
