/** The observable state of one `Board` of src/game.rs as a value, and the
    effect of `Board::place_move` on it. The classes in module Engine are
    proved to behave as `AfterMove` says; the lemmas here then carry the
    properties of a single move over any sequence of moves. */
module Moves {
  import opened Grid

  /** The nine cells of a board and its cached winner. */
  datatype BoardView = BoardView(marks: Marks, winner: Option<Player>)

  /** `Board::new()`: nine empty cells and no winner. */
  const EmptyBoard: BoardView := BoardView(EmptyMarks, None)

  /** The cached winner agrees with a fresh scan of the cells. */
  predicate Consistent(v: BoardView) {
    v.winner == Winner(v.marks)
  }

  lemma EmptyBoardConsistent()
    ensures Consistent(EmptyBoard) && EmptyBoard.winner == None
    ensures forall l :: At(EmptyBoard.marks, l) == None
  {
    EmptyHasNoWinner();
  }

  /** `Board::place_move` accepts a move exactly when the board has no winner
      yet and the target cell is empty. */
  predicate Accepts(v: BoardView, cell: Location) {
    v.winner == None && At(v.marks, cell) == None
  }

  /** The board after `Board::place_move(player, cell)`: on acceptance the
      target cell takes `player` and the winner is recomputed; otherwise
      nothing changes. */
  function AfterMove(v: BoardView, player: Player, cell: Location): (r: BoardView)
    ensures r != v <==> Accepts(v, cell)
    ensures Accepts(v, cell) ==> At(r.marks, cell) == Some(player)
    ensures forall l :: l != cell ==> At(r.marks, l) == At(v.marks, l)
    ensures forall l :: At(v.marks, l) != None ==> At(r.marks, l) == At(v.marks, l)
    ensures v.winner != None ==> r == v
    ensures Consistent(v) ==> Consistent(r)
  {
    if Accepts(v, cell) then
      var marks := v.marks[Index(cell) := Some(player)];
      assert forall l :: l != cell ==> Index(l) != Index(cell) by { IndexBijective(); }
      BoardView(marks, Winner(marks))
    else
      v
  }

  /** The two cases of `AfterMove`, spelled out for the proofs in module Engine. */
  lemma AfterMoveCases(v: BoardView, player: Player, cell: Location)
    ensures Accepts(v, cell) ==> AfterMove(v, player, cell) == BoardView(v.marks[Index(cell) := Some(player)], Winner(v.marks[Index(cell) := Some(player)]))
    ensures !Accepts(v, cell) ==> AfterMove(v, player, cell) == v
  {
  }

  /** A move can only win a board for the player who made it. */
  lemma OnlyMoverWins(v: BoardView, player: Player, cell: Location)
    requires Consistent(v)
    ensures AfterMove(v, player, cell).winner != v.winner ==>
              AfterMove(v, player, cell).winner == Some(player)
  {
    var r := AfterMove(v, player, cell);
    if r.winner != v.winner {
      assert Accepts(v, cell);
      var q := r.winner.value;
      WinnerOwnsALine(r.marks, q);
      var k :| 0 <= k < 8 && Completes(r.marks, WinningLines[k], q);
      if q != player {
        assert Completes(v.marks, WinningLines[k], q);
        WinnerOwnsALine(v.marks, q);
        assert false;
      }
    }
  }

  datatype Move = Move(player: Player, cell: Location)

  /** The board after the moves, one `Board::place_move` call each, in order. */
  function Play(v: BoardView, moves: seq<Move>): BoardView
    decreases |moves|
  {
    if moves == [] then v
    else Play(AfterMove(v, moves[0].player, moves[0].cell), moves[1..])
  }

  /** The cached winner stays equal to a recomputation over any sequence of moves. */
  lemma {:induction false} PlayConsistent(v: BoardView, moves: seq<Move>)
    requires Consistent(v)
    ensures Consistent(Play(v, moves))
    decreases |moves|
  {
    if moves != [] {
      PlayConsistent(AfterMove(v, moves[0].player, moves[0].cell), moves[1..]);
    }
  }

  /** Every board reachable from `Board::new()` has a consistent winner. */
  lemma ReachableConsistent(moves: seq<Move>)
    ensures Consistent(Play(EmptyBoard, moves))
  {
    EmptyBoardConsistent();
    PlayConsistent(EmptyBoard, moves);
  }

  /** Cells are write-once: an occupied cell keeps its mark whatever moves follow. */
  lemma {:induction false} PlayWriteOnce(v: BoardView, moves: seq<Move>, l: Location)
    requires At(v.marks, l) != None
    ensures At(Play(v, moves).marks, l) == At(v.marks, l)
    decreases |moves|
  {
    if moves != [] {
      PlayWriteOnce(AfterMove(v, moves[0].player, moves[0].cell), moves[1..], l);
    }
  }

  /** A won board is frozen: no sequence of moves changes its cells or its winner. */
  lemma {:induction false} PlayFrozen(v: BoardView, moves: seq<Move>)
    requires v.winner != None
    ensures Play(v, moves) == v
    decreases |moves|
  {
    if moves != [] {
      PlayFrozen(AfterMove(v, moves[0].player, moves[0].cell), moves[1..]);
    }
  }

  /** The winner only ever goes from `None` to `Some`, and never back or to
      another player: once won, always won by the same player. */
  lemma PlayWinnerMonotone(v: BoardView, moves: seq<Move>, more: seq<Move>)
    requires Play(v, moves).winner != None
    ensures Play(v, moves + more).winner == Play(v, moves).winner
  {
    PlayAppend(v, moves, more);
    PlayFrozen(Play(v, moves), more);
  }

  lemma {:induction false} PlayAppend(v: BoardView, moves: seq<Move>, more: seq<Move>)
    ensures Play(v, moves + more) == Play(Play(v, moves), more)
    decreases |moves|
  {
    if moves != [] {
      assert (moves + more)[0] == moves[0];
      assert (moves + more)[1..] == moves[1..] + more;
      PlayAppend(AfterMove(v, moves[0].player, moves[0].cell), moves[1..], more);
    } else {
      assert moves + more == more;
    }
  }

  /** X takes the top row of a new board: the first two moves leave it open,
      the third wins it, and a later O move into the empty centre is refused. */
  lemma TopRowScenario()
    ensures var v2 := AfterMove(AfterMove(EmptyBoard, X, TopLeft), X, Top);
            var v3 := AfterMove(v2, X, TopRight);
            v2.winner == None && v3.winner == Some(X) &&
            At(v3.marks, Middle) == None && AfterMove(v3, O, Middle) == v3
  {
    EmptyBoardConsistent();
    var m1 := EmptyMarks[0 := Some(X)];
    assert Occupied(m1) == {0};
    FewMarksNoWinner(m1);
    var v1 := AfterMove(EmptyBoard, X, TopLeft);
    assert v1 == BoardView(m1, None);
    var m2 := m1[1 := Some(X)];
    assert Occupied(m2) == {0, 1};
    FewMarksNoWinner(m2);
    var v2 := AfterMove(v1, X, Top);
    assert v2 == BoardView(m2, None);
    var m3 := m2[2 := Some(X)];
    assert LineOwner(m3, WinningLines[0]) == Some(X);
    var v3 := AfterMove(v2, X, TopRight);
    assert v3 == BoardView(m3, Some(X));
  }

  /** The same game as a sequence of moves: the winner is X, and it stays X. */
  lemma TopRowPlay()
    ensures Play(EmptyBoard, [Move(X, TopLeft), Move(X, Top), Move(X, TopRight), Move(O, Middle)]).winner == Some(X)
  {
    TopRowScenario();
  }
}
