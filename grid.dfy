/** The vocabulary of src/game.rs: the two players, the nine locations of a
    3x3 grid (used both for a cell inside a board and for a board inside the
    game), and the eight winning lines that `Board::find_winner` scans. */
module Grid {

  datatype Option<T> = None | Some(value: T)

  datatype Player = X | O

  /** The nine locations, in declaration order: row by row, left to right. */
  datatype Location =
    | TopLeft | Top | TopRight
    | Left | Middle | Right
    | BottomLeft | Bottom | BottomRight

  /** `location as usize`: the discriminant of the variant, which the source
      uses to index both the cells of a board and the boards of a game. */
  function Index(l: Location): (i: nat)
    ensures i < 9
  {
    match l
    case TopLeft => 0
    case Top => 1
    case TopRight => 2
    case Left => 3
    case Middle => 4
    case Right => 5
    case BottomLeft => 6
    case Bottom => 7
    case BottomRight => 8
  }

  /** The location whose index is `i`: the inverse of `Index`. */
  function FromIndex(i: nat): (l: Location)
    requires i < 9
    ensures Index(l) == i
  {
    [TopLeft, Top, TopRight, Left, Middle, Right, BottomLeft, Bottom, BottomRight][i]
  }

  /** `Index` is a bijection between the nine locations and 0..8. */
  lemma IndexBijective()
    ensures forall l1, l2 :: Index(l1) == Index(l2) ==> l1 == l2
    ensures forall l :: FromIndex(Index(l)) == l
    ensures forall i :: 0 <= i < 9 ==> Index(FromIndex(i)) == i
  {
  }

  /** The marks of the nine cells of a board, indexed by `Index`. */
  type Marks = m: seq<Option<Player>> | |m| == 9
    witness [None, None, None, None, None, None, None, None, None]

  function At(m: Marks, l: Location): Option<Player> {
    m[Index(l)]
  }

  /** Three locations that win when one player holds all of them. */
  datatype Line = Line(first: Location, second: Location, third: Location)

  /** The eight lines in the order `find_winner` tries them: the rows top to
      bottom, the columns left to right, then the two diagonals. */
  const WinningLines: seq<Line> := [
    Line(TopLeft, Top, TopRight),
    Line(Left, Middle, Right),
    Line(BottomLeft, Bottom, BottomRight),
    Line(TopLeft, Left, BottomLeft),
    Line(Top, Middle, Bottom),
    Line(TopRight, Right, BottomRight),
    Line(TopLeft, Middle, BottomRight),
    Line(TopRight, Middle, BottomLeft)
  ]

  /** All three cells of `line` hold `p`. */
  predicate Completes(m: Marks, line: Line, p: Player) {
    At(m, line.first) == Some(p) && At(m, line.second) == Some(p) && At(m, line.third) == Some(p)
  }

  /** The test `find_winner` applies to one line: the first cell is occupied,
      equal to the second, and the second equal to the third; the line then
      belongs to the first cell's player. */
  function LineOwner(m: Marks, line: Line): (r: Option<Player>)
    ensures r != None ==> Completes(m, line, r.value)
    ensures forall p :: Completes(m, line, p) ==> r == Some(p)
  {
    var c0, c1, c2 := At(m, line.first), At(m, line.second), At(m, line.third);
    if c0 != None && c0 == c1 && c1 == c2 then c0 else None
  }

  /** The owner of the first line of `lines` that has one. (The measure
      mentions `m`, whose length never changes, so that the verifier does not
      unfold the scan of the eight fixed lines wherever a winner appears.) */
  function FirstOwner(m: Marks, lines: seq<Line>): Option<Player>
    decreases |m| + |lines|
  {
    if lines == [] then None
    else if LineOwner(m, lines[0]) != None then LineOwner(m, lines[0])
    else FirstOwner(m, lines[1..])
  }

  /** What `Board::find_winner` computes from the cells of a board. */
  function Winner(m: Marks): Option<Player> {
    FirstOwner(m, WinningLines)
  }

  /** Line `k` of `lines` is completed by `p`, and no line before it has an owner. */
  predicate FirstCompleted(m: Marks, lines: seq<Line>, k: nat, p: Player) {
    k < |lines| && Completes(m, lines[k], p) &&
    forall j :: 0 <= j < k ==> LineOwner(m, lines[j]) == None
  }

  lemma {:induction false} FirstOwnerSome(m: Marks, lines: seq<Line>, p: Player)
    ensures FirstOwner(m, lines) == Some(p) <==> exists k: nat :: FirstCompleted(m, lines, k, p)
    decreases |lines|
  {
    if lines == [] {
    } else if LineOwner(m, lines[0]) != None {
      if FirstOwner(m, lines) == Some(p) {
        assert FirstCompleted(m, lines, 0, p);
      }
      if k: nat :| FirstCompleted(m, lines, k, p) {
        assert k == 0;
      }
    } else {
      var rest := lines[1..];
      FirstOwnerSome(m, rest, p);
      if FirstOwner(m, lines) == Some(p) {
        var k: nat :| FirstCompleted(m, rest, k, p);
        assert forall j :: 0 < j <= k ==> lines[j] == rest[j - 1];
        assert FirstCompleted(m, lines, k + 1, p);
      }
      if k: nat :| FirstCompleted(m, lines, k, p) {
        assert k != 0;
        assert forall j :: 0 <= j < k - 1 ==> rest[j] == lines[j + 1];
        assert FirstCompleted(m, rest, k - 1, p);
      }
    }
  }

  lemma {:induction false} FirstOwnerNone(m: Marks, lines: seq<Line>)
    ensures FirstOwner(m, lines) == None <==> forall k :: 0 <= k < |lines| ==> LineOwner(m, lines[k]) == None
    decreases |lines|
  {
    if lines != [] && LineOwner(m, lines[0]) == None {
      var rest := lines[1..];
      FirstOwnerNone(m, rest);
      assert forall k :: 0 < k < |lines| ==> lines[k] == rest[k - 1];
    }
  }

  /** `find_winner` returns `Some(p)` exactly when some winning line is all
      `p` and no earlier line in declaration order is won by anyone; it
      returns `None` exactly when no winning line is all one player's. */
  lemma WinnerCharacterization(m: Marks)
    ensures forall p :: Winner(m) == Some(p) <==> exists k: nat :: FirstCompleted(m, WinningLines, k, p)
    ensures Winner(m) == None <==> forall k, p :: 0 <= k < 8 ==> !Completes(m, WinningLines[k], p)
  {
    forall p ensures Winner(m) == Some(p) <==> exists k: nat :: FirstCompleted(m, WinningLines, k, p) {
      FirstOwnerSome(m, WinningLines, p);
    }
    FirstOwnerNone(m, WinningLines);
  }

  /** A winner always owns a full winning line; and a full winning line for
      `p` always produces a winner, which is `p` unless an earlier line
      belongs to the other player. */
  lemma WinnerOwnsALine(m: Marks, p: Player)
    ensures Winner(m) == Some(p) ==> exists k :: 0 <= k < 8 && Completes(m, WinningLines[k], p)
    ensures (exists k :: 0 <= k < 8 && Completes(m, WinningLines[k], p)) ==> Winner(m) != None
  {
    WinnerCharacterization(m);
  }

  /** The nine cells with no mark: a new board. */
  const EmptyMarks: Marks := seq(9, _ => None)

  lemma EmptyHasNoWinner()
    ensures Winner(EmptyMarks) == None
  {
    FirstOwnerNone(EmptyMarks, WinningLines);
  }

  /** The indices of the occupied cells. */
  function Occupied(m: Marks): set<nat> {
    set i | 0 <= i < 9 && m[i] != None
  }

  /** Each winning line names three different locations. */
  lemma LinesHaveThreeCells(k: nat)
    requires k < 8
    ensures |{Index(WinningLines[k].first), Index(WinningLines[k].second), Index(WinningLines[k].third)}| == 3
  {
  }

  /** A board with fewer than three marks has no winner. */
  lemma FewMarksNoWinner(m: Marks)
    requires |Occupied(m)| < 3
    ensures Winner(m) == None
  {
    if Winner(m) != None {
      var p := Winner(m).value;
      WinnerOwnsALine(m, p);
      var k :| 0 <= k < 8 && Completes(m, WinningLines[k], p);
      var line := WinningLines[k];
      var cells := {Index(line.first), Index(line.second), Index(line.third)};
      LinesHaveThreeCells(k);
      assert cells <= Occupied(m);
      SubsetCard(cells, Occupied(m));
    }
  }

  lemma {:induction false} SubsetCard(a: set<nat>, b: set<nat>)
    requires a <= b
    ensures |a| <= |b|
    decreases |b|
  {
    if b != {} {
      var x :| x in b;
      SubsetCard(a - {x}, b - {x});
    }
  }

  /** The board on which `p` holds exactly the locations in `s`. */
  function Placed(s: set<Location>, p: Player): (m: Marks)
    ensures forall l :: At(m, l) == if l in s then Some(p) else None
  {
    var m := seq(9, i requires 0 <= i < 9 => if FromIndex(i) in s then Some(p) else None);
    assert forall l :: FromIndex(Index(l)) == l by { IndexBijective(); }
    m
  }

  function LineSet(line: Line): set<Location> {
    {line.first, line.second, line.third}
  }

  /** Win detection is exact over lines: when only `p` has played, on the
      locations `s`, `p` has won if and only if `s` contains one of the eight
      winning lines. */
  lemma WinExactlyOnLines(s: set<Location>, p: Player)
    ensures Winner(Placed(s, p)) == Some(p) <==> exists k :: 0 <= k < 8 && LineSet(WinningLines[k]) <= s
  {
    var m := Placed(s, p);
    if k :| 0 <= k < 8 && LineSet(WinningLines[k]) <= s {
      OnlyPlayerWins(m, p, k);
    }
    if Winner(m) == Some(p) {
      FirstOwnerSome(m, WinningLines, p);
      var k: nat :| FirstCompleted(m, WinningLines, k, p);
      assert LineSet(WinningLines[k]) <= s;
    }
  }

  /** On a board where every mark is `p`, a full winning line makes `p` the winner. */
  lemma OnlyPlayerWins(m: Marks, p: Player, k: nat)
    requires forall l :: At(m, l) == None || At(m, l) == Some(p)
    requires k < 8 && Completes(m, WinningLines[k], p)
    ensures Winner(m) == Some(p)
  {
    FirstOwnerNone(m, WinningLines);
    var q := Winner(m).value;
    FirstOwnerSome(m, WinningLines, q);
    var j: nat :| FirstCompleted(m, WinningLines, j, q);
    assert At(m, WinningLines[j].first) == Some(q);
  }

  function OtherPlayer(p: Player): Player {
    if p == X then O else X
  }

  function SwapMark(c: Option<Player>): Option<Player> {
    if c == None then None else Some(OtherPlayer(c.value))
  }

  /** The board with every X turned into O and every O into X. */
  function Mirror(m: Marks): (r: Marks)
    ensures forall l :: At(r, l) == SwapMark(At(m, l))
  {
    seq(9, i requires 0 <= i < 9 => SwapMark(m[i]))
  }

  lemma {:induction false} MirrorFirstOwner(m: Marks, lines: seq<Line>)
    ensures FirstOwner(Mirror(m), lines) == SwapMark(FirstOwner(m, lines))
    decreases |lines|
  {
    if lines != [] {
      MirrorFirstOwner(m, lines[1..]);
    }
  }

  /** Swapping every mark swaps the winner. */
  lemma MirrorWinner(m: Marks)
    ensures Winner(Mirror(m)) == SwapMark(Winner(m))
  {
    MirrorFirstOwner(m, WinningLines);
  }
}
