/** The board engine: pure queries and updates over a sequence of cells, and the
    generator of a fresh shuffled board of letter pairs. The curried TypeScript
    module and the uncurried JavaScript module define the same operations; both
    are modelled by the functions below. */
module Boards {
  import opened Wrappers
  import opened Cells

  type Board = seq<Cell>

  // ---------------------------------------------------------------------------
  // Counting and positions: the reference definitions the operations are
  // specified against.

  /** The number of cells of `b` that satisfy `p`. */
  function Count(p: Cell -> bool, b: Board): (n: nat)
    ensures n <= |b|
  {
    if b == [] then 0 else Count(p, b[..|b| - 1]) + (if p(b[|b| - 1]) then 1 else 0)
  }

  /** The indices of the cells satisfying `p`, in increasing (board) order,
      each exactly once (see PositionsMeans). */
  function Positions(p: Cell -> bool, b: Board): (ps: seq<nat>)
    ensures |ps| == Count(p, b)
    ensures forall k :: 0 <= k < |ps| ==> ps[k] < |b|
  {
    if b == [] then []
    else Positions(p, b[..|b| - 1]) + (if p(b[|b| - 1]) then [|b| - 1] else [])
  }

  /** Every listed index satisfies `p`, the list is strictly increasing, and every
      index satisfying `p` is listed. */
  lemma PositionsMeans(p: Cell -> bool, b: Board)
    ensures forall k :: 0 <= k < |Positions(p, b)| ==> p(b[Positions(p, b)[k]])
    ensures forall k, l :: 0 <= k < l < |Positions(p, b)| ==> Positions(p, b)[k] < Positions(p, b)[l]
    ensures forall j :: 0 <= j < |b| && p(b[j]) ==> j in Positions(p, b)
  {
    PositionsSound(p, b);
    PositionsIncreasing(p, b);
    PositionsComplete(p, b);
  }

  lemma {:induction false} PositionsSound(p: Cell -> bool, b: Board)
    ensures forall k :: 0 <= k < |Positions(p, b)| ==> p(b[Positions(p, b)[k]])
  {
    if b != [] {
      var init := b[..|b| - 1];
      var rest := Positions(p, init);
      PositionsSound(p, init);
      var ps := Positions(p, b);
      assert ps == rest + (if p(b[|b| - 1]) then [|b| - 1] else []);
      assert forall k :: 0 <= k < |rest| ==> ps[k] == rest[k] && b[rest[k]] == init[rest[k]];
    }
  }

  lemma {:induction false} PositionsIncreasing(p: Cell -> bool, b: Board)
    ensures forall k, l :: 0 <= k < l < |Positions(p, b)| ==> Positions(p, b)[k] < Positions(p, b)[l]
  {
    if b != [] {
      var init := b[..|b| - 1];
      var rest := Positions(p, init);
      PositionsIncreasing(p, init);
      var ps := Positions(p, b);
      assert ps == rest + (if p(b[|b| - 1]) then [|b| - 1] else []);
    }
  }

  lemma {:induction false} PositionsComplete(p: Cell -> bool, b: Board)
    ensures forall j :: 0 <= j < |b| && p(b[j]) ==> j in Positions(p, b)
  {
    if b != [] {
      var init := b[..|b| - 1];
      var rest := Positions(p, init);
      PositionsComplete(p, init);
      var ps := Positions(p, b);
      assert ps == rest + (if p(b[|b| - 1]) then [|b| - 1] else []);
      forall j | 0 <= j < |b| && p(b[j]) ensures j in ps {
        if j < |b| - 1 {
          assert init[j] == b[j];
        }
      }
    }
  }

  /** `R.chain(cell => p(cell) ? [f(cell)] : [], board)`: the projection `f` of
      every cell satisfying `p`, in board order. */
  function Project<T>(p: Cell -> bool, b: Board, f: Cell -> T): (r: seq<T>)
    ensures |r| == Count(p, b)
    ensures forall k :: 0 <= k < |r| ==> r[k] == f(b[Positions(p, b)[k]])
  {
    if b == [] then []
    else
      var init := b[..|b| - 1];
      var rest := Project(p, init, f);
      assert forall k :: 0 <= k < |rest| ==> b[Positions(p, init)[k]] == init[Positions(p, init)[k]];
      rest + (if p(b[|b| - 1]) then [f(b[|b| - 1])] else [])
  }

  // ---------------------------------------------------------------------------
  // Lookup and update

  /** The status stored at index `i`. */
  function StatusAt(i: nat, b: Board): (s: CellStatus)
    requires i < |b|
  {
    b[i].status
  }

  /** Lens update of `i.status`: only the status at `i` changes. */
  function SetStatusAt(i: nat, s: CellStatus, b: Board): (r: Board)
    requires i < |b|
    ensures |r| == |b|
    ensures r[i].symbol == b[i].symbol && StatusAt(i, r) == s
    ensures forall j :: 0 <= j < |b| && j != i ==> r[j] == b[j]
  {
    b[i := b[i].(status := s)]
  }

  /** `R.map(cell => p(cell) ? {...cell, status} : cell, board)`. */
  function SetStatusesBy(p: Cell -> bool, s: CellStatus, b: Board): (r: Board)
    ensures |r| == |b|
    ensures forall j :: 0 <= j < |b| && p(b[j]) ==> r[j] == Cell(b[j].symbol, s)
    ensures forall j :: 0 <= j < |b| && !p(b[j]) ==> r[j] == b[j]
  {
    if b == [] then []
    else
      var last := b[|b| - 1];
      SetStatusesBy(p, s, b[..|b| - 1]) + [if p(last) then last.(status := s) else last]
  }

  /** The statuses of the cells satisfying `p`, in board order. */
  function StatusesBy(p: Cell -> bool, b: Board): (r: seq<CellStatus>)
    ensures |r| == Count(p, b)
    ensures forall k :: 0 <= k < |r| ==> r[k] == b[Positions(p, b)[k]].status
  {
    Project(p, b, (c: Cell) => c.status)
  }

  /** The symbols of the cells satisfying `p`, in board order. */
  function SymbolsBy(p: Cell -> bool, b: Board): (r: seq<string>)
    ensures |r| == Count(p, b)
    ensures forall k :: 0 <= k < |r| ==> r[k] == b[Positions(p, b)[k]].symbol
  {
    Project(p, b, (c: Cell) => c.symbol)
  }

  /** `R.filter(p, board)`. */
  function Filter(p: Cell -> bool, b: Board): (r: Board)
    ensures |r| == Count(p, b)
    ensures forall k :: 0 <= k < |r| ==> r[k] == b[Positions(p, b)[k]]
    ensures forall k :: 0 <= k < |r| ==> p(r[k])
  {
    PositionsMeans(p, b);
    Project(p, b, (c: Cell) => c)
  }

  // ---------------------------------------------------------------------------
  // Legality and the comparison of the open pair

  /** A cell may be opened when it exists, is Closed, and fewer than two cells
      block. A negative index is outside the model (the source dereferences an
      undefined cell there). */
  function CanOpenAt(i: nat, b: Board): (r: bool)
    ensures r <==> i < |b| && b[i].status == Closed && Count(IsBlocking, b) < 2
  {
    i < |b| && IsClosed(b[i]) && |StatusesBy(IsBlocking, b)| < 2
  }

  /** `allEquals`: every element equals the first. */
  predicate AllEqual(xs: seq<string>)
  {
    forall k :: 0 <= k < |xs| ==> xs[k] == xs[0]
  }

  /** At least two cells are open and all open cells show the same symbol. */
  predicate AreOpensEqual(b: Board)
  {
    var openSymbols := SymbolsBy(IsOpen, b);
    |openSymbols| >= 2 && AllEqual(openSymbols)
  }

  /** At least two cells are open and not all open cells show the same symbol. */
  predicate AreOpensDifferent(b: Board)
  {
    var openSymbols := SymbolsBy(IsOpen, b);
    |openSymbols| >= 2 && !AllEqual(openSymbols)
  }

  // ---------------------------------------------------------------------------
  // Generation

  datatype BoardError = TooBig | MustBeEven

  /** The letter table holds 26 symbols, 'A' to 'Z'. */
  const AlphabetSize: nat := 26

  /** `(m * n) / 2 > 26`, where `/` is JavaScript's real division. */
  predicate ExceedsAlphabet(m: nat, n: nat)
  {
    (m * n) as real / 2.0 > AlphabetSize as real
  }

  /** The two checks ahead of generation, "too big" first. (JavaScript's `%`
      truncates, Dafny's is Euclidean; for the natural sizes here they agree.) */
  function CheckSize(m: nat, n: nat): (e: Option<BoardError>)
    ensures e == Some(TooBig) <==> m * n > 2 * AlphabetSize
    ensures e == Some(MustBeEven) <==> m * n <= 2 * AlphabetSize && m * n % 2 == 1
    ensures e == None <==> m * n <= 2 * AlphabetSize && m * n % 2 == 0
  {
    if ExceedsAlphabet(m, n) then Some(TooBig)
    else if (m * n) % 2 != 0 then Some(MustBeEven)
    else None
  }

  function PairCount(m: nat, n: nat): (pairs: nat)
  {
    m * n / 2
  }

  /** `String.fromCharCode(i + 'A'.charCodeAt(0))` for `i` in `[0, k)`. */
  function Letters(k: nat): (r: seq<string>)
    requires k <= AlphabetSize
    ensures |r| == k
  {
    seq(k, i requires 0 <= i < k => [(('A' as int) + i) as char])
  }

  /** `R.chain(x => [x, x], xs)`: every symbol twice, side by side. */
  function Duplicate(xs: seq<string>): (r: seq<string>)
    ensures |r| == 2 * |xs|
    ensures multiset(r) == multiset(xs) + multiset(xs)
  {
    if xs == [] then []
    else
      assert xs == [xs[0]] + xs[1..];
      [xs[0], xs[0]] + Duplicate(xs[1..])
  }

  /** `R.map(symbol => ({symbol, status: Closed}))`. */
  function ClosedCells(symbols: seq<string>): (r: Board)
  {
    seq(|symbols|, j requires 0 <= j < |symbols| => Cell(symbols[j], Closed))
  }

  function SymbolsOf(b: Board): (r: seq<string>)
  {
    seq(|b|, j requires 0 <= j < |b| => b[j].symbol)
  }

  /** Every one of `symbols` shows on exactly two cells of `b`, and no other
      symbol shows on `b`. */
  predicate InPairs(b: Board, symbols: seq<string>)
  {
    && (forall i :: 0 <= i < |symbols| ==> multiset(SymbolsOf(b))[symbols[i]] == 2)
    && (forall x :: x in multiset(SymbolsOf(b)) ==> x in symbols)
  }

  /** The generation pipeline after the table lookup: duplicate, shuffle, and
      turn every symbol into a Closed cell. */
  function PairedBoard(symbols: seq<string>, shuffle: seq<string> -> seq<string>): (r: Board)
    ensures forall j :: 0 <= j < |r| ==> r[j].status == Closed
  {
    ClosedCells(shuffle(Duplicate(symbols)))
  }

  /** `makeRandom(m, n)`: a Closed board of letter pairs, or the error it throws. */
  function MakeRandom(m: nat, n: nat, shuffle: seq<string> -> seq<string>): (r: Result<Board, BoardError>)
    ensures r.Failure? <==> CheckSize(m, n).Some?
    ensures r.Failure? ==> Some(r.error) == CheckSize(m, n)
    ensures r.Success? ==> PairCount(m, n) <= AlphabetSize
    ensures r.Success? ==> forall j :: 0 <= j < |r.value| ==> r.value[j].status == Closed
  {
    match CheckSize(m, n)
    case Some(e) => Failure(e)
    case None => Success(PairedBoard(Letters(PairCount(m, n)), shuffle))
  }

  // ---------------------------------------------------------------------------
  // Lemmas about counting

  lemma {:induction false} CountZero(p: Cell -> bool, b: Board)
    ensures Count(p, b) == 0 <==> forall j :: 0 <= j < |b| ==> !p(b[j])
  {
    if b != [] {
      CountZero(p, b[..|b| - 1]);
    }
  }

  lemma {:induction false} CountAll(p: Cell -> bool, b: Board)
    ensures Count(p, b) == |b| <==> forall j :: 0 <= j < |b| ==> p(b[j])
  {
    if b != [] {
      CountAll(p, b[..|b| - 1]);
    }
  }

  /** Replacing one cell changes the count by what the old and new cell add. */
  lemma {:induction false} CountUpdate(p: Cell -> bool, b: Board, i: nat, c: Cell)
    requires i < |b|
    ensures Count(p, b[i := c]) == Count(p, b) - (if p(b[i]) then 1 else 0) + (if p(c) then 1 else 0)
  {
    var n := |b| - 1;
    if i < n {
      assert b[i := c][..n] == b[..n][i := c];
      CountUpdate(p, b[..n], i, c);
    } else {
      assert b[i := c][..n] == b[..n];
    }
  }

  /** A board whose cells satisfy `p` only where the first one does has no larger count. */
  lemma {:induction false} CountMono(p: Cell -> bool, b: Board, b': Board)
    requires |b'| == |b|
    requires forall j :: 0 <= j < |b| && p(b'[j]) ==> p(b[j])
    ensures Count(p, b') <= Count(p, b)
  {
    if b != [] {
      CountMono(p, b[..|b| - 1], b'[..|b| - 1]);
    }
  }

  // ---------------------------------------------------------------------------
  // Lemmas about the operations

  /** Reading back a status just written gives it; other indices read as before. */
  lemma StatusAtAfterSet(i: nat, j: nat, s: CellStatus, b: Board)
    requires i < |b| && j < |b|
    ensures StatusAt(j, SetStatusAt(i, s, b)) == if i == j then s else StatusAt(j, b)
  {
  }

  /** Opening a legal cell adds exactly one open and one blocking cell, and
      leaves at most two blocking cells. */
  lemma OpenLegalCell(i: nat, b: Board)
    requires CanOpenAt(i, b)
    ensures Count(IsOpen, SetStatusAt(i, Open, b)) == Count(IsOpen, b) + 1
    ensures Count(IsBlocking, SetStatusAt(i, Open, b)) == Count(IsBlocking, b) + 1 <= 2
  {
    CountUpdate(IsOpen, b, i, b[i].(status := Open));
    CountUpdate(IsBlocking, b, i, b[i].(status := Open));
  }

  /** `canOpenAt` never admits a cell that is already revealed or resolved. */
  lemma CanOpenOnlyClosed(i: nat, b: Board)
    requires i < |b| && b[i].status != Closed
    ensures !CanOpenAt(i, b)
  {
  }

  /** With fewer than two open cells neither comparison fires, and the two never
      fire together. */
  lemma OpensExclusive(b: Board)
    ensures !(AreOpensEqual(b) && AreOpensDifferent(b))
    ensures Count(IsOpen, b) < 2 ==> !AreOpensEqual(b) && !AreOpensDifferent(b)
    ensures Count(IsOpen, b) >= 2 ==> AreOpensEqual(b) || AreOpensDifferent(b)
  {
  }

  /** `areOpensEqual` in terms of the cells: at least two open, and any two open
      cells show the same symbol. */
  lemma AreOpensEqualMeans(b: Board)
    ensures AreOpensEqual(b) <==> Count(IsOpen, b) >= 2 && OpensShareSymbol(b)
  {
    var syms := SymbolsBy(IsOpen, b);
    var ps := Positions(IsOpen, b);
    PositionsMeans(IsOpen, b);
    if AreOpensEqual(b) {
      forall i, j | 0 <= i < |b| && 0 <= j < |b| && IsOpen(b[i]) && IsOpen(b[j])
        ensures b[i].symbol == b[j].symbol
      {
        assert i in ps && j in ps;
        var k :| 0 <= k < |ps| && ps[k] == i;
        var l :| 0 <= l < |ps| && ps[l] == j;
        assert syms[k] == b[i].symbol && syms[l] == b[j].symbol;
      }
    }
    if Count(IsOpen, b) >= 2 && OpensShareSymbol(b) {
      forall k | 0 <= k < |syms| ensures syms[k] == syms[0] {
        assert IsOpen(b[ps[k]]) && IsOpen(b[ps[0]]);
      }
    }
  }

  /** Any two open cells show the same symbol. */
  predicate OpensShareSymbol(b: Board)
  {
    forall i, j :: 0 <= i < |b| && 0 <= j < |b| && IsOpen(b[i]) && IsOpen(b[j]) ==> b[i].symbol == b[j].symbol
  }

  /** `areOpensDifferent` in terms of the cells: two open cells with different symbols. */
  lemma AreOpensDifferentMeans(b: Board)
    ensures AreOpensDifferent(b) <==> Count(IsOpen, b) >= 2 && !OpensShareSymbol(b)
    ensures AreOpensDifferent(b) <==>
      exists i, j :: 0 <= i < |b| && 0 <= j < |b| && IsOpen(b[i]) && IsOpen(b[j]) && b[i].symbol != b[j].symbol
  {
    AreOpensEqualMeans(b);
    OpensExclusive(b);
    if exists i, j :: 0 <= i < |b| && 0 <= j < |b| && IsOpen(b[i]) && IsOpen(b[j]) && b[i].symbol != b[j].symbol {
      var i, j :| 0 <= i < |b| && 0 <= j < |b| && IsOpen(b[i]) && IsOpen(b[j]) && b[i].symbol != b[j].symbol;
      if i == j {
      } else {
        CountTwo(IsOpen, b, i, j);
      }
    }
  }

  /** Two distinct matching cells make the count at least two. */
  lemma {:induction false} CountTwo(p: Cell -> bool, b: Board, i: nat, j: nat)
    requires i < |b| && j < |b| && i != j && p(b[i]) && p(b[j])
    ensures Count(p, b) >= 2
  {
    var ps := Positions(p, b);
    PositionsMeans(p, b);
    assert i in ps && j in ps;
    var k :| 0 <= k < |ps| && ps[k] == i;
    var l :| 0 <= l < |ps| && ps[l] == j;
    assert k != l;
  }

  // ---------------------------------------------------------------------------
  // Lemmas about generation

  lemma ExceedsAlphabetMeans(m: nat, n: nat)
    ensures ExceedsAlphabet(m, n) <==> m * n > 2 * AlphabetSize
  {
  }

  /** The letter symbols are pairwise distinct single capitals. */
  lemma LettersDistinct(k: nat)
    requires k <= AlphabetSize
    ensures forall i, j :: 0 <= i < j < k ==> Letters(k)[i] != Letters(k)[j]
    ensures forall i :: 0 <= i < k ==> |Letters(k)[i]| == 1 && 'A' <= Letters(k)[i][0] <= 'Z'
  {
    forall i, j | 0 <= i < j < k ensures Letters(k)[i] != Letters(k)[j] {
      assert Letters(k)[i][0] != Letters(k)[j][0];
    }
  }

  lemma {:induction false} DistinctCount(xs: seq<string>, i: nat)
    requires forall a, b :: 0 <= a < b < |xs| ==> xs[a] != xs[b]
    requires i < |xs|
    ensures multiset(xs)[xs[i]] == 1
  {
    if i == 0 {
      assert xs == [xs[0]] + xs[1..];
      assert xs[0] !in xs[1..];
    } else {
      assert xs == [xs[0]] + xs[1..];
      assert xs[1..][i - 1] == xs[i];
      DistinctCount(xs[1..], i - 1);
    }
  }

  /** A paired board, shuffled by a permutation, has two Closed cells of each
      requested symbol and no other symbol. */
  lemma PairedBoardPairs(symbols: seq<string>, shuffle: seq<string> -> seq<string>)
    requires forall a, b :: 0 <= a < b < |symbols| ==> symbols[a] != symbols[b]
    requires multiset(shuffle(Duplicate(symbols))) == multiset(Duplicate(symbols))
    ensures |PairedBoard(symbols, shuffle)| == 2 * |symbols|
    ensures forall j :: 0 <= j < |PairedBoard(symbols, shuffle)| ==> PairedBoard(symbols, shuffle)[j].status == Closed
    ensures InPairs(PairedBoard(symbols, shuffle), symbols)
  {
    var shuffled := shuffle(Duplicate(symbols));
    SymbolsOfClosedCells(shuffled);
    ShuffledPairs(symbols, shuffled);
  }

  lemma SymbolsOfClosedCells(xs: seq<string>)
    ensures SymbolsOf(ClosedCells(xs)) == xs
  {
  }

  lemma ShuffledPairs(symbols: seq<string>, shuffled: seq<string>)
    requires forall a, b :: 0 <= a < b < |symbols| ==> symbols[a] != symbols[b]
    requires multiset(shuffled) == multiset(symbols) + multiset(symbols)
    ensures |shuffled| == 2 * |symbols|
    ensures forall i :: 0 <= i < |symbols| ==> multiset(shuffled)[symbols[i]] == 2
    ensures forall x :: x in multiset(shuffled) ==> x in symbols
  {
    assert |shuffled| == |multiset(shuffled)| == 2 * |multiset(symbols)| == 2 * |symbols|;
    forall i | 0 <= i < |symbols| ensures multiset(shuffled)[symbols[i]] == 2 {
      DistinctCount(symbols, i);
    }
    forall x | x in multiset(shuffled) ensures x in symbols {
      assert x in multiset(symbols);
    }
  }

  /** A successful `makeRandom(m, n)` with a permuting shuffle holds `m * n` Closed
      cells in which each of the first `(m * n) / 2` letters appears exactly twice. */
  lemma MakeRandomPairs(m: nat, n: nat, shuffle: seq<string> -> seq<string>)
    requires CheckSize(m, n) == None
    requires multiset(shuffle(Duplicate(Letters(PairCount(m, n))))) == multiset(Duplicate(Letters(PairCount(m, n))))
    ensures MakeRandom(m, n, shuffle).Success?
    ensures |MakeRandom(m, n, shuffle).value| == m * n
    ensures forall j :: 0 <= j < m * n ==> MakeRandom(m, n, shuffle).value[j].status == Closed
    ensures InPairs(MakeRandom(m, n, shuffle).value, Letters(PairCount(m, n)))
  {
    var k := PairCount(m, n);
    LettersDistinct(k);
    PairedBoardPairs(Letters(k), shuffle);
  }
}
