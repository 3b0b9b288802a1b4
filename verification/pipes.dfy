/**
 * Pipe symbols and compass directions shared by the pipe maze (10.py,
 * 10p2.py) and the lagoon outline (18.py): a pipe symbol joins two sides of
 * its cell, and a probe moving through it turns from the side it entered by
 * to the other side.
 */
module Pipes {
  import opened Outcomes

  /** `north`, `south`, `east` and `west` (10.py:25-28); y grows southwards. */
  datatype Direction = North | South | East | West {
    function Dx(): int
    {
      match this
      case East => 1
      case West => -1
      case _ => 0
    }

    function Dy(): int
    {
      match this
      case North => -1
      case South => 1
      case _ => 0
    }

    /** `set_opposite` pairing (10p2.py:40-41). */
    function Opposite(): Direction
    {
      match this
      case North => South
      case South => North
      case East => West
      case West => East
    }

    /** `straight_repr` (10p2.py:30-33). */
    function StraightRepr(): char
    {
      if this == North || this == South then '|' else '-'
    }

    /** `turn_mapping` (10.py:30-33): the heading after entering a cell
        holding `cell` while moving this way, if the pipe accepts it. */
    function Turn(cell: char): Option<Direction>
    {
      match this
      case North => if cell == '|' then Some(North) else if cell == 'F' then Some(East) else if cell == '7' then Some(West) else None
      case South => if cell == '|' then Some(South) else if cell == 'L' then Some(East) else if cell == 'J' then Some(West) else None
      case East => if cell == '-' then Some(East) else if cell == '7' then Some(South) else if cell == 'J' then Some(North) else None
      case West => if cell == '-' then Some(West) else if cell == 'F' then Some(South) else if cell == 'L' then Some(North) else None
    }
  }

  /** The sides each pipe symbol joins, as the maze legend describes them
      (10.py:38-40); any other symbol joins nothing. */
  function Ends(cell: char): set<Direction>
  {
    match cell
    case '|' => {North, South}
    case '-' => {East, West}
    case 'L' => {North, East}
    case 'J' => {North, West}
    case '7' => {South, West}
    case 'F' => {South, East}
    case _ => {}
  }

  predicate IsPipe(cell: char)
  {
    cell in "|-LJ7F"
  }

  /** Opposite directions have opposite displacements, and `opposite` is an
      involution without fixed points (10p2.py:19-21, 40-41). */
  lemma OppositeReverses(d: Direction)
    ensures d.Opposite() != d && d.Opposite().Opposite() == d
    ensures d.Opposite().Dx() == -d.Dx() && d.Opposite().Dy() == -d.Dy()
    ensures d.Opposite().StraightRepr() == d.StraightRepr()
  {
  }

  /** Every direction is a unit step along one axis. */
  lemma UnitSteps(d: Direction)
    ensures (d.Dx() == 0) != (d.Dy() == 0)
    ensures -1 <= d.Dx() <= 1 && -1 <= d.Dy() <= 1
  {
  }

  /** The turn table follows the pipes: moving `d` into a cell succeeds
      exactly when the pipe there has an end on the side the probe enters
      by, and the probe leaves by the pipe's other end. */
  lemma TurnFollowsPipe(d: Direction, cell: char, e: Direction)
    ensures d.Turn(cell) == Some(e) <==>
      (IsPipe(cell) && Ends(cell) == {d.Opposite(), e} && e != d.Opposite())
  {
  }

  /** A symbol that is not a pipe stops every probe. */
  lemma NonPipeBlocks(d: Direction, cell: char)
    ensures !IsPipe(cell) ==> d.Turn(cell) == None
    ensures IsPipe(cell) <==> |Ends(cell)| == 2
  {
  }

  /** `cell_from_direcctions(d1, d2)` (10p2.py:43-59, also 18.py:56-72):
      equal directions give the straight symbol along them, a perpendicular
      pair gives the bend joining them, and an opposite pair raises. */
  function CellFromDirections(d1: Direction, d2: Direction): Result<char>
  {
    if d1 == d2 then Ok(d1.StraightRepr())
    else if {d1, d2} == {North, East} then Ok('L')
    else if {d1, d2} == {North, West} then Ok('J')
    else if {d1, d2} == {South, East} then Ok('F')
    else if {d1, d2} == {South, West} then Ok('7')
    else Err(ValueError)
  }

  /** The two conventions `cell_from_direcctions` mixes: two different
      directions are read as the two ends to join, but two equal ones as a
      heading to continue along. */
  lemma CellFromDirectionsCases(d1: Direction, d2: Direction)
    ensures d1 == d2 ==>
      && CellFromDirections(d1, d2) == Ok(d1.StraightRepr())
      && Ends(d1.StraightRepr()) == {d1, d1.Opposite()}
    ensures d1 != d2 && d2 != d1.Opposite() ==>
      CellFromDirections(d1, d2).Ok? && Ends(CellFromDirections(d1, d2).value) == {d1, d2}
    ensures d2 == d1.Opposite() <==> CellFromDirections(d1, d2) == Err(ValueError)
  {
  }

  /** The pipe joining two different sides of a cell: the reading of
      `cell_from_direcctions` that its callers in the maze rely on. */
  function PipeJoining(d1: Direction, d2: Direction): (r: Result<char>)
    ensures r.Ok? <==> d1 != d2
    ensures r.Ok? ==> IsPipe(r.value) && Ends(r.value) == {d1, d2}
    ensures r.Err? ==> r.error == ValueError
  {
    if d1 == d2 then Err(ValueError)
    else if d2 == d1.Opposite() then Ok(d1.StraightRepr())
    else CellFromDirections(d1, d2)
  }

  /** The start cell of a loop left heading `out` and re-entered heading
      `back` joins the sides `out` and `back.Opposite()` (10p2.py:110-112).
      As written, a straight start, re-entered heading the way it was left,
      raises instead of yielding its straight symbol. */
  lemma AsWrittenStraightStartRaises(out: Direction)
    ensures CellFromDirections(out, out.Opposite()) == Err(ValueError)
    ensures PipeJoining(out, out.Opposite()) == Ok(out.StraightRepr())
  {
  }

  /** With a bent start the two readings agree. */
  lemma BentStartAgrees(out: Direction, back: Direction)
    requires back != out && back != out.Opposite()
    ensures CellFromDirections(out, back.Opposite()) == PipeJoining(out, back.Opposite())
    ensures Ends(CellFromDirections(out, back.Opposite()).value) == {out, back.Opposite()}
  {
  }
}
