/**
 * Reading a board description (helpers.py). The first line holds four counts
 * `n m s t`; then come n chute records and m ladder records of four integers
 * (row1 col1 row2 col2), then s loss records and t win records of two integers (row col).
 * Rows and columns are 0-based, row 0 at the top, on a 10 x 10 board; every point is
 * turned into Cartesian coordinates and then into a serpentine cell number.
 * The file is modelled as its lines, already split into integers.
 */
module BoardFile {
  import opened Wrappers
  import opened BoardModel

  /** The board side the reader assumes (the defaults of `cambio_coord`). */
  const Side: int := 10

  /**
   * `cambio_coord((row, col), nCols, nRows)`: from a 0-based (row, col) with row 0 at the
   * top to a 1-based (x, y) with y = 1 at the bottom. The input can be read back from
   * the result, so distinct points stay distinct.
   */
  function ChangeCoord(row: int, col: int, nCols: int, nRows: int): (r: (int, int))
    ensures 0 <= row < nRows && 0 <= col < nCols ==> 1 <= r.0 <= nCols && 1 <= r.1 <= nRows
    ensures row == nRows - r.1 && col == r.0 - 1
  {
    (col + 1, nRows - row)
  }

  /** The cell of a (row, col) point: `coord_a_celda(*cambio_coord((row, col)))` with 10 columns. */
  function FileCell(row: int, col: int): int {
    var (x, y) := ChangeCoord(row, col, Side, Side);
    CoordToCell(Side, x, y)
  }

  /** A point of the 10 x 10 grid names a cell in [1, 100], and that cell's coordinates are the point's. */
  lemma FileCellInBoard(row: int, col: int)
    requires 0 <= row < Side && 0 <= col < Side
    ensures 1 <= FileCell(row, col) <= 100
    ensures CellToCoord(Side, FileCell(row, col)) == ChangeCoord(row, col, Side, Side)
  {
    var (x, y) := ChangeCoord(row, col, Side, Side);
    CoordToCellInBoard(Side, Side, x, y);
    CoordCellRoundTrip(Side, x, y);
  }

  /** The four lists, in the order the reader returns them. */
  datatype Layout = Layout(
    ladders: seq<(int, int)>,   // escaleras
    chutes: seq<(int, int)>,    // rodaderos
    losses: seq<int>,           // perdida
    wins: seq<int>              // victoria
  )

  /** The reader fails (ValueError) on a line with the wrong number of integers, or a missing line. */
  datatype ReadError = BadHeader | BadRecord(line: nat)

  /** `range(c)` runs `Count(c)` times; a negative count reads nothing. */
  function Count(c: int): nat {
    if c < 0 then 0 else c
  }

  predicate HeaderOk(lines: seq<seq<int>>) {
    |lines| > 0 && |lines[0]| == 4
  }

  function Chutes(lines: seq<seq<int>>): nat requires HeaderOk(lines) { Count(lines[0][0]) }
  function Ladders(lines: seq<seq<int>>): nat requires HeaderOk(lines) { Count(lines[0][1]) }
  function Losses(lines: seq<seq<int>>): nat requires HeaderOk(lines) { Count(lines[0][2]) }
  function Wins(lines: seq<seq<int>>): nat requires HeaderOk(lines) { Count(lines[0][3]) }

  /** Records after the header: chutes, then ladders (four integers), then losses, then wins (two). */
  function RecordCount(lines: seq<seq<int>>): nat requires HeaderOk(lines) {
    Chutes(lines) + Ladders(lines) + Losses(lines) + Wins(lines)
  }

  /** The width line `line` must have: four integers for chutes and ladders, two after them. */
  function WidthAt(lines: seq<seq<int>>, line: nat): nat requires HeaderOk(lines) {
    if line <= Chutes(lines) + Ladders(lines) then 4 else 2
  }

  /** Line `line` exists and holds `width` integers. */
  predicate LineOk(lines: seq<seq<int>>, line: nat, width: nat) {
    line < |lines| && |lines[line]| == width
  }

  /** The record on line `line` is present and has the width its position calls for. */
  predicate RecordOk(lines: seq<seq<int>>, line: nat) requires HeaderOk(lines) {
    LineOk(lines, line, WidthAt(lines, line))
  }

  function PairOf(rec: seq<int>): (int, int) requires |rec| == 4 {
    (FileCell(rec[0], rec[1]), FileCell(rec[2], rec[3]))
  }

  function CellOf(rec: seq<int>): int requires |rec| == 2 {
    FileCell(rec[0], rec[1])
  }

  /** From line `start` on, the lines hold four-integer records whose point pairs are `ps`, in order. */
  predicate PairsAt(lines: seq<seq<int>>, start: nat, ps: seq<(int, int)>) {
    forall line :: start <= line < start + |ps| ==>
      line < |lines| && |lines[line]| == 4 && ps[line - start] == PairOf(lines[line])
  }

  /** From line `start` on, the lines hold two-integer records whose cells are `cs`, in order. */
  predicate CellsAt(lines: seq<seq<int>>, start: nat, cs: seq<int>) {
    forall line :: start <= line < start + |cs| ==>
      line < |lines| && |lines[line]| == 2 && cs[line - start] == CellOf(lines[line])
  }

  /** Every integer of a record is a 0-based grid index. */
  predicate InGrid(rec: seq<int>) {
    forall j :: 0 <= j < |rec| ==> 0 <= rec[j] < Side
  }

  /** Every record on the lines from `first` up to, not including, `last` is grid-valued. */
  predicate RecordsInGrid(lines: seq<seq<int>>, first: nat, last: nat) {
    forall k :: first <= k < last && k < |lines| ==> InGrid(lines[k])
  }

  /** Every record line before line `last` is present and has its width. */
  predicate RecordsOkBefore(lines: seq<seq<int>>, last: nat) requires HeaderOk(lines) {
    forall line :: 1 <= line < last ==> RecordOk(lines, line)
  }

  /**
   * A segment of `count` record lines from `start` on that all have the width the header
   * gives them: the first four-integer segments end by line Chutes + Ladders, and the
   * two-integer ones start after it.
   */
  predicate Segment(lines: seq<seq<int>>, start: nat, count: nat, width: nat) requires HeaderOk(lines) {
    && 1 <= start && start + count <= 1 + RecordCount(lines)
    && ((width == 4 && start + count <= 1 + Chutes(lines) + Ladders(lines))
        || (width == 2 && start > Chutes(lines) + Ladders(lines)))
  }

  /** A bad line inside a segment whose earlier records are fine is the first bad record. */
  lemma SegmentFails(lines: seq<seq<int>>, start: nat, count: nat, width: nat, bad: nat)
    requires HeaderOk(lines) && Segment(lines, start, count, width) && RecordsOkBefore(lines, start)
    requires start <= bad < start + count && !LineOk(lines, bad, width)
    requires forall line :: start <= line < bad ==> LineOk(lines, line, width)
    ensures 1 <= bad <= RecordCount(lines) && !RecordOk(lines, bad) && RecordsOkBefore(lines, bad)
  {
    assert WidthAt(lines, bad) == width;
    forall line | 1 <= line < bad ensures RecordOk(lines, line) {
      if line >= start {
        assert WidthAt(lines, line) == width;
      }
    }
  }

  /** A segment whose lines all have their width extends the run of good records. */
  lemma SegmentPasses(lines: seq<seq<int>>, start: nat, count: nat, width: nat)
    requires HeaderOk(lines) && Segment(lines, start, count, width) && RecordsOkBefore(lines, start)
    requires forall line :: start <= line < start + count ==> LineOk(lines, line, width)
    ensures RecordsOkBefore(lines, start + count)
  {
    forall line | 1 <= line < start + count ensures RecordOk(lines, line) {
      if line >= start {
        assert WidthAt(lines, line) == width;
      }
    }
  }

  /** Both cells of every pair are board cells. */
  predicate PairsInBoard(ps: seq<(int, int)>) {
    forall p :: p in ps ==> 1 <= p.0 <= 100 && 1 <= p.1 <= 100
  }

  /** Every cell is a board cell. */
  predicate CellsInBoard(cs: seq<int>) {
    forall c :: c in cs ==> 1 <= c <= 100
  }

  /** Grid-valued lines stay grid-valued on any sub-range. */
  lemma RecordsInGridWithin(lines: seq<seq<int>>, first: nat, last: nat, first': nat, last': nat)
    requires RecordsInGrid(lines, first, last) && first <= first' && last' <= last
    ensures RecordsInGrid(lines, first', last')
  {
  }

  /** Grid-valued records on two consecutive ranges give board cells on both. */
  lemma PairsInBoardConcat(a: seq<(int, int)>, b: seq<(int, int)>)
    requires PairsInBoard(a) && PairsInBoard(b)
    ensures PairsInBoard(a + b)
  {
    assert forall p :: p in a + b ==> p in a || p in b;
  }

  lemma CellsInBoardConcat(a: seq<int>, b: seq<int>)
    requires CellsInBoard(a) && CellsInBoard(b)
    ensures CellsInBoard(a + b)
  {
    assert forall c :: c in a + b ==> c in a || c in b;
  }

  /** One counted loop over four-integer records: `count` point pairs from line `start` on. */
  method ReadPairs(lines: seq<seq<int>>, start: nat, count: nat) returns (r: Result<seq<(int, int)>, ReadError>)
    ensures r.Success? <==> forall line :: start <= line < start + count ==> LineOk(lines, line, 4)
    ensures r.Failure? ==>
      && r.error.BadRecord? && start <= r.error.line < start + count && !LineOk(lines, r.error.line, 4)
      && forall line :: start <= line < r.error.line ==> LineOk(lines, line, 4)
    ensures r.Success? ==>
      && |r.value| == count
      && PairsAt(lines, start, r.value)
    ensures r.Success? && RecordsInGrid(lines, start, start + count) ==> PairsInBoard(r.value)
  {
    var pairs := [];
    for i := 0 to count
      invariant |pairs| == i
      invariant forall line :: start <= line < start + i ==> LineOk(lines, line, 4)
      invariant forall line :: start <= line < start + i ==>
        line < |lines| && |lines[line]| == 4 && pairs[line - start] == PairOf(lines[line])
      invariant RecordsInGrid(lines, start, start + count) ==> PairsInBoard(pairs)
    {
      if start + i >= |lines| || |lines[start + i]| != 4 {
        assert !LineOk(lines, start + i, 4);
        return Failure(BadRecord(start + i));
      }
      var rec := lines[start + i];
      if RecordsInGrid(lines, start, start + count) {
        assert 0 <= rec[0] < Side && 0 <= rec[1] < Side && 0 <= rec[2] < Side && 0 <= rec[3] < Side;
        FileCellInBoard(rec[0], rec[1]);
        FileCellInBoard(rec[2], rec[3]);
      }
      pairs := pairs + [PairOf(rec)];
    }
    r := Success(pairs);
  }

  /** One counted loop over two-integer records: `count` cells from line `start` on. */
  method ReadCells(lines: seq<seq<int>>, start: nat, count: nat) returns (r: Result<seq<int>, ReadError>)
    ensures r.Success? <==> forall line :: start <= line < start + count ==> LineOk(lines, line, 2)
    ensures r.Failure? ==>
      && r.error.BadRecord? && start <= r.error.line < start + count && !LineOk(lines, r.error.line, 2)
      && forall line :: start <= line < r.error.line ==> LineOk(lines, line, 2)
    ensures r.Success? ==>
      && |r.value| == count
      && CellsAt(lines, start, r.value)
    ensures r.Success? && RecordsInGrid(lines, start, start + count) ==> CellsInBoard(r.value)
  {
    var cells := [];
    for i := 0 to count
      invariant |cells| == i
      invariant forall line :: start <= line < start + i ==> LineOk(lines, line, 2)
      invariant forall line :: start <= line < start + i ==>
        line < |lines| && |lines[line]| == 2 && cells[line - start] == CellOf(lines[line])
      invariant RecordsInGrid(lines, start, start + count) ==> CellsInBoard(cells)
    {
      if start + i >= |lines| || |lines[start + i]| != 2 {
        assert !LineOk(lines, start + i, 2);
        return Failure(BadRecord(start + i));
      }
      var rec := lines[start + i];
      if RecordsInGrid(lines, start, start + count) {
        assert 0 <= rec[0] < Side && 0 <= rec[1] < Side;
        FileCellInBoard(rec[0], rec[1]);
      }
      cells := cells + [CellOf(rec)];
    }
    r := Success(cells);
  }

  /** The chute records, then the ladder records, right after the header. */
  method ReadShortcuts(lines: seq<seq<int>>) returns (r: Result<(seq<(int, int)>, seq<(int, int)>), ReadError>)
    requires HeaderOk(lines)
    ensures r.Success? <==> RecordsOkBefore(lines, 1 + Chutes(lines) + Ladders(lines))
    ensures r.Failure? ==>
      && r.error.BadRecord? && 1 <= r.error.line <= Chutes(lines) + Ladders(lines)
      && !RecordOk(lines, r.error.line) && RecordsOkBefore(lines, r.error.line)
    ensures r.Success? ==>
      var (nc, nl) := (Chutes(lines), Ladders(lines));
      && |r.value.0| == nc && |r.value.1| == nl
      && PairsAt(lines, 1, r.value.0) && PairsAt(lines, 1 + nc, r.value.1)
    ensures r.Success? && RecordsInGrid(lines, 1, 1 + Chutes(lines) + Ladders(lines)) ==>
      PairsInBoard(r.value.0 + r.value.1)
  {
    var nc, nl := Chutes(lines), Ladders(lines);
    var chutes := ReadPairs(lines, 1, nc);
    if chutes.Failure? {
      SegmentFails(lines, 1, nc, 4, chutes.error.line);
      return Failure(chutes.error);
    }
    SegmentPasses(lines, 1, nc, 4);
    var ladders := ReadPairs(lines, 1 + nc, nl);
    if ladders.Failure? {
      SegmentFails(lines, 1 + nc, nl, 4, ladders.error.line);
      return Failure(ladders.error);
    }
    SegmentPasses(lines, 1 + nc, nl, 4);
    if RecordsInGrid(lines, 1, 1 + nc + nl) {
      RecordsInGridWithin(lines, 1, 1 + nc + nl, 1, 1 + nc);
      RecordsInGridWithin(lines, 1, 1 + nc + nl, 1 + nc, 1 + nc + nl);
      PairsInBoardConcat(chutes.value, ladders.value);
    }
    r := Success((chutes.value, ladders.value));
  }

  /** The loss records, then the win records, once the chute and ladder records are fine. */
  method ReadTerminals(lines: seq<seq<int>>) returns (r: Result<(seq<int>, seq<int>), ReadError>)
    requires HeaderOk(lines) && RecordsOkBefore(lines, 1 + Chutes(lines) + Ladders(lines))
    ensures r.Success? <==> RecordsOkBefore(lines, 1 + RecordCount(lines))
    ensures r.Failure? ==>
      && r.error.BadRecord? && Chutes(lines) + Ladders(lines) < r.error.line <= RecordCount(lines)
      && !RecordOk(lines, r.error.line) && RecordsOkBefore(lines, r.error.line)
    ensures r.Success? ==>
      var (nc, nl, ns) := (Chutes(lines), Ladders(lines), Losses(lines));
      && |r.value.0| == ns && |r.value.1| == Wins(lines)
      && CellsAt(lines, 1 + nc + nl, r.value.0) && CellsAt(lines, 1 + nc + nl + ns, r.value.1)
    ensures r.Success? && RecordsInGrid(lines, 1 + Chutes(lines) + Ladders(lines), 1 + RecordCount(lines)) ==>
      CellsInBoard(r.value.0 + r.value.1)
  {
    var start, ns, nw := 1 + Chutes(lines) + Ladders(lines), Losses(lines), Wins(lines);
    var losses := ReadCells(lines, start, ns);
    if losses.Failure? {
      SegmentFails(lines, start, ns, 2, losses.error.line);
      return Failure(losses.error);
    }
    SegmentPasses(lines, start, ns, 2);
    var wins := ReadCells(lines, start + ns, nw);
    if wins.Failure? {
      SegmentFails(lines, start + ns, nw, 2, wins.error.line);
      return Failure(wins.error);
    }
    SegmentPasses(lines, start + ns, nw, 2);
    if RecordsInGrid(lines, start, start + ns + nw) {
      RecordsInGridWithin(lines, start, start + ns + nw, start, start + ns);
      RecordsInGridWithin(lines, start, start + ns + nw, start + ns, start + ns + nw);
      CellsInBoardConcat(losses.value, wins.value);
    }
    r := Success((losses.value, wins.value));
  }

  /**
   * `leer_tablero`: reads the header and the records in order and stops at the first bad
   * line; on success the lists have the header's lengths and keep the records' order, and
   * on a grid-valued input every cell lies in [1, 100].
   */
  method ReadLayout(lines: seq<seq<int>>) returns (r: Result<Layout, ReadError>)
    ensures r == Failure(BadHeader) <==> !HeaderOk(lines)
    ensures r.Success? <==> HeaderOk(lines) && RecordsOkBefore(lines, 1 + RecordCount(lines))
    ensures r.Failure? && r.error.BadRecord? ==>
      && HeaderOk(lines) && 1 <= r.error.line <= RecordCount(lines) && !RecordOk(lines, r.error.line)
      && RecordsOkBefore(lines, r.error.line)
    ensures r.Success? ==>
      var (nc, nl, ns) := (Chutes(lines), Ladders(lines), Losses(lines));
      && |r.value.chutes| == nc && |r.value.ladders| == nl
      && |r.value.losses| == ns && |r.value.wins| == Wins(lines)
      && PairsAt(lines, 1, r.value.chutes)
      && PairsAt(lines, 1 + nc, r.value.ladders)
      && CellsAt(lines, 1 + nc + nl, r.value.losses)
      && CellsAt(lines, 1 + nc + nl + ns, r.value.wins)
    ensures r.Success? && HeaderOk(lines) && RecordsInGrid(lines, 1, 1 + RecordCount(lines)) ==>
      PairsInBoard(r.value.chutes + r.value.ladders) && CellsInBoard(r.value.losses + r.value.wins)
  {
    if |lines| == 0 || |lines[0]| != 4 {
      return Failure(BadHeader);
    }
    var shortcuts := ReadShortcuts(lines);
    if shortcuts.Failure? {
      return Failure(shortcuts.error);
    }
    var terminals := ReadTerminals(lines);
    if terminals.Failure? {
      return Failure(terminals.error);
    }
    var mid := 1 + Chutes(lines) + Ladders(lines);
    if RecordsInGrid(lines, 1, 1 + RecordCount(lines)) {
      RecordsInGridWithin(lines, 1, 1 + RecordCount(lines), 1, mid);
      RecordsInGridWithin(lines, 1, 1 + RecordCount(lines), mid, 1 + RecordCount(lines));
    }
    r := Success(Layout(shortcuts.value.1, shortcuts.value.0, terminals.value.0, terminals.value.1));
  }
}
