/** A single cell of the pairs board: a symbol and its reveal status. */
module Cells {

  datatype CellStatus = Open | Closed | Done | Failed

  datatype Cell = Cell(symbol: string, status: CellStatus)

  predicate IsOpen(c: Cell) { c.status == Open }

  predicate IsClosed(c: Cell) { c.status == Closed }

  predicate IsDone(c: Cell) { c.status == Done }

  predicate IsFailed(c: Cell) { c.status == Failed }

  /** An Open or Failed cell counts against the two-cell reveal cap. */
  predicate IsBlocking(c: Cell) { IsOpen(c) || IsFailed(c) }

  /** Each cell satisfies exactly one of the four status predicates, the one naming its status. */
  lemma ExactlyOneStatus(c: Cell)
    ensures IsOpen(c) <==> c.status == Open
    ensures IsClosed(c) <==> c.status == Closed
    ensures IsDone(c) <==> c.status == Done
    ensures IsFailed(c) <==> c.status == Failed
    ensures (if IsOpen(c) then 1 else 0) + (if IsClosed(c) then 1 else 0)
          + (if IsDone(c) then 1 else 0) + (if IsFailed(c) then 1 else 0) == 1
  {
  }

  /** Blocking means Open or Failed; Closed and Done cells never block. */
  lemma BlockingMeans(c: Cell)
    ensures IsBlocking(c) <==> c.status == Open || c.status == Failed
    ensures c.status == Closed || c.status == Done ==> !IsBlocking(c)
  {
  }

  /** The predicates look at the status only, never at the symbol. */
  lemma PredicatesIgnoreSymbol(c: Cell, d: Cell)
    requires c.status == d.status
    ensures IsOpen(c) == IsOpen(d) && IsClosed(c) == IsClosed(d)
    ensures IsDone(c) == IsDone(d) && IsFailed(c) == IsFailed(d)
    ensures IsBlocking(c) == IsBlocking(d)
  {
  }
}
