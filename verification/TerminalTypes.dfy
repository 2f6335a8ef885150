/** The values a terminal exchanges between the daemon and a client. */
module TerminalTypes {
  import opened Options

  datatype Cell = Cell(text: string, fg: nat, bg: nat, flags: nat)

  datatype Row = Row(cells: seq<Cell>, wrapped: bool)

  datatype Cursor = Cursor(line: nat, column: nat, shape: nat, visible: bool)

  datatype TermModes = TermModes(altScreen: bool, mouse: nat, bracketedPaste: bool)

  datatype PtySize = PtySize(cols: nat, rows: nat)

  /** The cells of one line from column `first` on, with the line's wrap flag. */
  datatype CellPatch = CellPatch(line: nat, first: nat, row: Row)

  datatype TerminalDelta = TerminalDelta(
    seqNo: nat,
    rows: seq<(nat, Row)>,
    patches: seq<CellPatch>,
    scrollbackLen: nat,
    generation: nat,
    cursor: Cursor,
    modes: TermModes)

  datatype TerminalSnapshot = TerminalSnapshot(
    seqNo: nat,
    size: PtySize,
    visible: seq<Row>,
    scrollbackTail: seq<Row>,
    scrollbackLen: nat,
    generation: nat,
    cursor: Cursor,
    modes: TermModes,
    title: Option<string>)

  /** The answer to `FetchScrollback`: rows from absolute index `fromLine` on. */
  datatype ScrollbackRows = ScrollbackRows(
    generation: nat,
    snapshot: Option<TerminalSnapshot>,
    fromLine: int,
    rows: seq<Row>)
}
