/** The mutable game state of src/game.rs: `Cell`, `Board` and `Game`, each
    updated in place through `&mut self` in the source. A Rust array of
    values becomes here an array of distinct objects. `Board` and `Game`
    each keep a ghost abstract value (their `Contents`) that their `Valid()`
    ties to the real fields; `Cell`'s one field, `slot`, is its own abstract
    value. */
module Engine {
  import opened Grid
  import opened Moves

  /** One square: empty, or marked by a player for good. */
  class Cell {
    /** The source's tuple field `self.0`. */
    var slot: Option<Player>

    /** `Cell::default()`: an empty cell. */
    constructor ()
      ensures slot == None
    {
      slot := None;
    }

    /** `Cell::player`. */
    function Occupant(): Option<Player>
      reads this
    {
      slot
    }

    /** `Cell::is_empty`. */
    predicate IsEmpty()
      reads this
      ensures IsEmpty() <==> Occupant() == None
    {
      slot.None?
    }

    /** `Cell::place_move`: marks an empty cell; an occupied one is left alone. */
    method PlaceMove(player: Player) returns (ok: bool)
      modifies this
      ensures ok <==> old(IsEmpty())
      ensures ok ==> Occupant() == Some(player)
      ensures !ok ==> Occupant() == old(Occupant())
    {
      if IsEmpty() {
        slot := Some(player);
        ok := true;
      } else {
        ok := false;
      }
    }

    /** `Cell::label`: the character that shows the cell. */
    function Label(): (c: char)
      reads this
      ensures c == ' ' <==> IsEmpty()
      ensures c == 'X' <==> Occupant() == Some(X)
      ensures c == 'O' <==> Occupant() == Some(O)
    {
      match slot
      case None => ' '
      case Some(X) => 'X'
      case Some(O) => 'O'
    }
  }

  /** Two cells show the same label exactly when they hold the same mark. */
  lemma LabelDistinguishes(a: Cell, b: Cell)
    ensures a.Label() == b.Label() <==> a.Occupant() == b.Occupant()
  {
  }

  /** A 3x3 board of cells with its cached winner. */
  class Board {
    const cells: array<Cell>
    var winner: Option<Player>

    /** The marks of `cells`, indexed by `Index`. */
    ghost var Contents: Marks
    ghost const Repr: set<object>

    /** The layout: nine distinct cells whose marks are `Contents`. */
    ghost predicate Shape()
      reads this, Repr
    {
      this in Repr && cells in Repr && cells.Length == 9 &&
      (forall i :: 0 <= i < 9 ==> cells[i] in Repr && cells[i].slot == Contents[i]) &&
      (forall i, j :: 0 <= i < j < 9 ==> cells[i] != cells[j])
    }

    /** The layout, and the cached winner equals a recomputation from the cells. */
    ghost predicate Valid()
      reads this, Repr
    {
      Shape() && winner == Winner(Contents)
    }

    ghost function View(): BoardView
      reads this
    {
      BoardView(Contents, winner)
    }

    /** `Board::new`: nine empty cells and no winner. */
    constructor ()
      ensures Valid() && fresh(Repr)
      ensures View() == EmptyBoard
    {
      var made: seq<Cell> := [];
      while |made| < 9
        invariant |made| <= 9
        invariant forall i :: 0 <= i < |made| ==> fresh(made[i]) && made[i].slot == None
        invariant forall i, j :: 0 <= i < j < |made| ==> made[i] != made[j]
      {
        var c := new Cell();
        made := made + [c];
      }
      cells := new Cell[9](i requires 0 <= i < 9 => made[i]);
      winner := None;
      Contents := EmptyMarks;
      Repr := {this, cells} + set i | 0 <= i < 9 :: made[i];
      EmptyHasNoWinner();
    }

    /** `Board::is_empty`. */
    predicate IsEmpty(cell: Location)
      reads this, Repr
      requires Shape()
      ensures IsEmpty(cell) <==> At(Contents, cell) == None
    {
      cells[Index(cell)].IsEmpty()
    }

    /** `Board::find_winner`: the eight lines in order, the first one whose
        three cells hold the same player decides. Cells are compared by
        their marks, as the source's derived `Cell` equality does. */
    method FindWinner() returns (w: Option<Player>)
      requires Shape()
      ensures w == Winner(Contents)
    {
      for k := 0 to |WinningLines|
        invariant FirstOwner(Contents, WinningLines[k..]) == Winner(Contents)
      {
        var line := WinningLines[k];
        var c0, c1, c2 := cells[Index(line.first)], cells[Index(line.second)], cells[Index(line.third)];
        assert WinningLines[k..][1..] == WinningLines[k + 1..];
        if !c0.IsEmpty() && c0.Occupant() == c1.Occupant() && c1.Occupant() == c2.Occupant() {
          return c0.Occupant();
        }
      }
      return None;
    }

    /** `Board::place_move`: refused, with nothing changed, when the board is
        already won or the cell is taken; otherwise the cell is marked and the
        winner recomputed. */
    method PlaceMove(player: Player, cell: Location) returns (ok: bool)
      requires Valid()
      modifies Repr
      ensures Valid()
      ensures ok == Accepts(old(View()), cell)
      ensures View() == AfterMove(old(View()), player, cell)
      ensures old(winner) != None ==> winner == old(winner) && Contents == old(Contents)
    {
      var i := Index(cell);
      AfterMoveCases(View(), player, cell);
      ok := false;
      if winner == None {
        ok := cells[i].PlaceMove(player);
      }
      if ok {
        Contents := Contents[i := Some(player)];
        assert Shape();
        winner := FindWinner();
      } else {
        assert View() == old(View());
      }
    }
  }

  /** Nine boards; a move goes to the board it names. */
  class Game {
    const boards: array<Board>

    /** The views of `boards`, indexed by `Index`. */
    ghost var Contents: seq<BoardView>
    ghost const Repr: set<object>

    ghost predicate Valid()
      reads this, Repr
    {
      this in Repr && boards in Repr && boards.Length == 9 && |Contents| == 9 &&
      (forall i :: 0 <= i < 9 ==>
         boards[i] in Repr && boards[i].Repr <= Repr && this !in boards[i].Repr && boards !in boards[i].Repr) &&
      (forall i, j :: 0 <= i < j < 9 ==> boards[i].Repr !! boards[j].Repr) &&
      (forall i :: 0 <= i < 9 ==> boards[i].Valid()) &&
      (forall i :: 0 <= i < 9 ==> boards[i].View() == Contents[i])
    }

    /** `Game::new`: nine new boards. */
    constructor ()
      ensures Valid() && fresh(Repr)
      ensures forall i :: 0 <= i < 9 ==> Contents[i] == EmptyBoard
    {
      var made: seq<Board> := [];
      ghost var parts: set<object> := {};
      while |made| < 9
        invariant |made| <= 9
        invariant fresh(parts)
        invariant forall i :: 0 <= i < |made| ==>
                    made[i] in made[i].Repr && made[i].Repr <= parts &&
                    made[i].Valid() && made[i].View() == EmptyBoard
        invariant forall i, j :: 0 <= i < j < |made| ==> made[i].Repr !! made[j].Repr
      {
        var b := new Board();
        made := made + [b];
        parts := parts + b.Repr;
      }
      boards := new Board[9](i requires 0 <= i < 9 => made[i]);
      Contents := seq(9, _ => EmptyBoard);
      Repr := {this, boards} + parts;
    }

    /** `Game::place_move`: the move goes to `boards[board]`, exactly as
        `Board::place_move` makes it, and the other eight boards are left as
        they were. The inner result is discarded, as in the source. */
    method PlaceMove(player: Player, board: Location, cell: Location)
      requires Valid()
      modifies Repr
      ensures Valid()
      ensures Contents == old(Contents)[Index(board) := AfterMove(old(Contents)[Index(board)], player, cell)]
      ensures forall j :: 0 <= j < 9 && j != Index(board) ==> Contents[j] == old(Contents)[j]
    {
      var b := Index(board);
      var target := boards[b];
      var _ := target.PlaceMove(player, cell);
      Contents := Contents[b := target.View()];
    }
  }

  /** A caller's view of the contracts: on a new game X plays the top row of
      the top-left board, which wins that board; O's later move into its empty
      centre is refused, and board Bottom, which no move named, is still empty. */
  method TopRowScenario() returns (won: Option<Player>, centre: Option<Player>, other: Board)
    ensures won == Some(X) && centre == None
    ensures other.Valid() && other.View() == EmptyBoard
  {
    Moves.TopRowScenario();
    var g := new Game();
    ghost var v := EmptyBoard;
    g.PlaceMove(X, TopLeft, TopLeft);
    v := AfterMove(v, X, TopLeft);
    g.PlaceMove(X, TopLeft, Top);
    v := AfterMove(v, X, Top);
    g.PlaceMove(X, TopLeft, TopRight);
    v := AfterMove(v, X, TopRight);
    g.PlaceMove(O, TopLeft, Middle);
    assert g.Contents[Index(TopLeft)] == v;
    var board := g.boards[Index(TopLeft)];
    won := board.winner;
    centre := board.cells[Index(Middle)].Occupant();
    other := g.boards[Index(Bottom)];
  }
}
