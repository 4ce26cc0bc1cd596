/** The tape: a chain of cells, each holding one symbol, that grows by one
    blank cell whenever the cursor steps past either end. The chain is kept
    as the sequence of its cells from first to last; the cursor (the
    executor's current cell) is an index into it. */
module TapeModel {

  /** The blank symbol written into every cell the tape grows by. */
  const Blank := "_"

  /** The materialised cells, first to last, and the cursor's index. */
  datatype Head = Head(cells: seq<string>, cursor: nat)

  /** The cursor sits on a materialised cell. */
  predicate OnTape(h: Head)
  {
    h.cursor < |h.cells|
  }

  /** The symbol `offset` cells right of the cursor (left for a negative
      offset) on the unbounded tape: a cell not yet materialised reads as
      blank. */
  function CellAt(h: Head, offset: int): string
  {
    var p := h.cursor + offset;
    if 0 <= p < |h.cells| then h.cells[p] else Blank
  }

  /** How far a direction moves the cursor: `l` one left, `r` one right, and
      anything else not at all. */
  function Delta(direction: string): int
  {
    if direction == "l" then -1 else if direction == "r" then 1 else 0
  }

  /** The move steps past the materialised cells. */
  predicate AtEdge(h: Head, direction: string)
  {
    (direction == "l" && h.cursor == 0) || (direction == "r" && h.cursor + 1 == |h.cells|)
  }

  /** Moving the cursor. Seen from the cursor the unbounded tape shifts by
      exactly `Delta(direction)`; a cell is materialised only when the move
      leaves the chain, and then exactly one. */
  function Move(h: Head, direction: string): (r: Head)
    requires OnTape(h)
    ensures OnTape(r)
    ensures forall d :: CellAt(r, d) == CellAt(h, d + Delta(direction))
    ensures |r.cells| == |h.cells| + (if AtEdge(h, direction) then 1 else 0)
    ensures forall s :: s in r.cells ==> s in h.cells || s == Blank
    ensures !AtEdge(h, direction) ==> r.cells == h.cells
    ensures AtEdge(h, direction) ==> r.cells == if direction == "l" then [Blank] + h.cells else h.cells + [Blank]
    ensures r.cursor == if direction == "l" && h.cursor == 0 then 0 else h.cursor + Delta(direction)
  {
    if direction == "l" then
      if h.cursor == 0 then Head([Blank] + h.cells, 0) else Head(h.cells, h.cursor - 1)
    else if direction == "r" then
      if h.cursor + 1 == |h.cells| then Head(h.cells + [Blank], h.cursor + 1) else Head(h.cells, h.cursor + 1)
    else h
  }

  /** The cells the input string is loaded into: one per character. */
  function InputCells(input: string): (r: seq<string>)
    ensures |r| == |input|
    ensures forall i :: 0 <= i < |r| ==> r[i] == [input[i]]
  {
    seq(|input|, i requires 0 <= i < |input| => [input[i]])
  }

  /** How many leading characters of `input` are known symbols. */
  function KnownPrefix(input: string, symbols: set<string>): (k: nat)
    ensures k <= |input|
    ensures forall i :: 0 <= i < k ==> [input[i]] in symbols
    ensures k < |input| ==> [input[k]] !in symbols
  {
    if input == [] || [input[0]] !in symbols then 0
    else 1 + KnownPrefix(input[1..], symbols)
  }

  /** The chain of cells, changed in place by the executor. */
  class Tape {
    var cells: seq<string>

    constructor ()
      ensures cells == []
    {
      cells := [];
    }

    /** Appends a cell after the last one. */
    method AddBox(symbol: string)
      modifies this
      ensures cells == old(cells) + [symbol]
    {
      cells := cells + [symbol];
    }

    /** Moves from the cell at `current` to its neighbour in `direction`,
        first adding a blank cell on that side if there is none. Any other
        direction stays on `current`. Adding on the left shifts every index
        by one. */
    method MoveBox(current: nat, direction: string) returns (next: nat)
      requires current < |cells|
      modifies this
      ensures Head(cells, next) == Move(Head(old(cells), current), direction)
    {
      if direction == "l" {
        if current == 0 {
          cells := [Blank] + cells;
          return 0;
        } else {
          return current - 1;
        }
      }
      if direction == "r" {
        if current + 1 == |cells| {
          cells := cells + [Blank];
          return current + 1;
        } else {
          return current + 1;
        }
      }
      return current;
    }
  }

  /** Loads the input string into the tape, one cell per character, checking
      each character against the known symbols first. It stops at the first
      unknown character, leaving the cells loaded before it. */
  method InitializeTape(input: string, allowedSymbols: set<string>, tape: Tape) returns (ok: bool)
    modifies tape
    ensures ok <==> forall i :: 0 <= i < |input| ==> [input[i]] in allowedSymbols
    ensures tape.cells == old(tape.cells) + InputCells(input[..KnownPrefix(input, allowedSymbols)])
  {
    var i := 0;
    while i < |input|
      invariant 0 <= i <= |input|
      invariant forall j :: 0 <= j < i ==> [input[j]] in allowedSymbols
      invariant tape.cells == old(tape.cells) + InputCells(input[..i])
    {
      if [input[i]] !in allowedSymbols {
        assert KnownPrefix(input, allowedSymbols) == i;
        return false;
      }
      tape.AddBox([input[i]]);
      assert InputCells(input[..i + 1]) == InputCells(input[..i]) + [[input[i]]];
      i := i + 1;
    }
    assert input[..i] == input;
    return true;
  }
}
