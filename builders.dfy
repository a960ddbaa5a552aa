/** The builder pattern around board generation: two builders that fill a
    `GameBoard` (a board and its size) step by step, and a director that drives
    whichever builder it holds through the three preset sizes. */
module Builders {
  import opened Wrappers
  import opened Cells
  import opened Boards

  datatype Size = Size(width: nat, height: nat)

  datatype GameBoard = GameBoard(board: Board, size: Size)

  /** What a builder holds after `reset`: no cells and a 0×0 size. */
  const EmptyGameBoard: GameBoard := GameBoard([], Size(0, 0))

  /** The emoji symbols a board is drawn from; generation reads at most the
      first 26 of them. */
  type EmojiTable = t: seq<string> | |t| >= AlphabetSize
    witness seq(AlphabetSize, i => "")

  /** The emoji builder's `setCells` pipeline: the first `(m * n) / 2` entries of
      the table, each twice, shuffled, as Closed cells; or the error it throws. */
  function MakeEmojiBoard(table: EmojiTable, m: nat, n: nat, shuffle: seq<string> -> seq<string>): (r: Result<Board, BoardError>)
    ensures r.Failure? <==> CheckSize(m, n).Some?
    ensures r.Failure? ==> Some(r.error) == CheckSize(m, n)
    ensures r.Success? ==> forall j :: 0 <= j < |r.value| ==> r.value[j].status == Closed
  {
    match CheckSize(m, n)
    case Some(e) => Failure(e)
    case None => Success(PairedBoard(table[..PairCount(m, n)], shuffle))
  }

  /** With distinct table entries and a permuting shuffle, a successful emoji
      board holds `m * n` Closed cells showing each of the first `(m * n) / 2`
      emojis exactly twice. */
  lemma MakeEmojiBoardPairs(table: EmojiTable, m: nat, n: nat, shuffle: seq<string> -> seq<string>)
    requires forall a, b :: 0 <= a < b < AlphabetSize ==> table[a] != table[b]
    requires CheckSize(m, n) == None
    requires multiset(shuffle(Duplicate(table[..PairCount(m, n)]))) == multiset(Duplicate(table[..PairCount(m, n)]))
    ensures MakeEmojiBoard(table, m, n, shuffle).Success?
    ensures |MakeEmojiBoard(table, m, n, shuffle).value| == m * n
    ensures InPairs(MakeEmojiBoard(table, m, n, shuffle).value, table[..PairCount(m, n)])
  {
    PairedBoardPairs(table[..PairCount(m, n)], shuffle);
  }

  /** The word builder's pipeline is `makeRandom`: letters `A`, `B`, … */
  class WordBuilder {
    var gameBoard: GameBoard

    constructor()
      ensures gameBoard == EmptyGameBoard
    {
      gameBoard := EmptyGameBoard;
    }

    method Reset()
      modifies this
      ensures gameBoard == EmptyGameBoard
    {
      gameBoard := EmptyGameBoard;
    }

    /** Only the size changes; cells already built stay. */
    method SetSize(width: nat, height: nat)
      modifies this
      ensures gameBoard == old(gameBoard).(size := Size(width, height))
    {
      gameBoard := gameBoard.(size := Size(width, height));
    }

    /** Fills the board for the current size, or reports the error `setCells`
        throws, in which case nothing changes. */
    method SetCells(shuffle: seq<string> -> seq<string>) returns (err: Option<BoardError>)
      modifies this
      ensures err == CheckSize(old(gameBoard.size.width), old(gameBoard.size.height))
      ensures err.Some? ==> gameBoard == old(gameBoard)
      ensures err.None? ==>
        gameBoard == old(gameBoard).(board := MakeRandom(old(gameBoard.size.width), old(gameBoard.size.height), shuffle).value)
    {
      var generated := MakeRandom(gameBoard.size.width, gameBoard.size.height, shuffle);
      match generated
      case Failure(e) =>
        err := Some(e);
      case Success(b) =>
        gameBoard := gameBoard.(board := b);
        err := None;
    }

    /** Hands out the board built so far and starts over. */
    method GetBoard() returns (result: GameBoard)
      modifies this
      ensures result == old(gameBoard)
      ensures gameBoard == EmptyGameBoard
    {
      result := gameBoard;
      Reset();
    }
  }

  class EmojiBuilder {
    const table: EmojiTable
    var gameBoard: GameBoard

    constructor(table: EmojiTable)
      ensures this.table == table && gameBoard == EmptyGameBoard
    {
      this.table := table;
      gameBoard := EmptyGameBoard;
    }

    method Reset()
      modifies this
      ensures gameBoard == EmptyGameBoard
    {
      gameBoard := EmptyGameBoard;
    }

    /** Only the size changes; cells already built stay. */
    method SetSize(width: nat, height: nat)
      modifies this
      ensures gameBoard == old(gameBoard).(size := Size(width, height))
    {
      gameBoard := gameBoard.(size := Size(width, height));
    }

    /** Fills the board for the current size from the emoji table, or reports the
        error `setCells` throws, in which case nothing changes. */
    method SetCells(shuffle: seq<string> -> seq<string>) returns (err: Option<BoardError>)
      modifies this
      ensures err == CheckSize(old(gameBoard.size.width), old(gameBoard.size.height))
      ensures err.Some? ==> gameBoard == old(gameBoard)
      ensures err.None? ==>
        gameBoard == old(gameBoard).(board := MakeEmojiBoard(table, old(gameBoard.size.width), old(gameBoard.size.height), shuffle).value)
    {
      var generated := MakeEmojiBoard(table, gameBoard.size.width, gameBoard.size.height, shuffle);
      match generated
      case Failure(e) =>
        err := Some(e);
      case Success(b) =>
        gameBoard := gameBoard.(board := b);
        err := None;
    }

    /** Hands out the board built so far and starts over. */
    method GetBoard() returns (result: GameBoard)
      modifies this
      ensures result == old(gameBoard)
      ensures gameBoard == EmptyGameBoard
    {
      result := gameBoard;
      Reset();
    }
  }

  /** Either kind of builder, as the director holds it behind the `Builder`
      interface. */
  datatype AnyBuilder = Words(words: WordBuilder) | Emojis(emojis: EmojiBuilder)

  function Target(b: AnyBuilder): (objs: set<object>)
  {
    match b
    case Words(w) => {w}
    case Emojis(e) => {e}
  }

  /** The `GameBoard` the builder holds. */
  function Held(b: AnyBuilder): (gb: GameBoard)
    reads Target(b)
  {
    match b
    case Words(w) => w.gameBoard
    case Emojis(e) => e.gameBoard
  }

  /** The board the builder generates for an `m`×`n` size. */
  function Generate(b: AnyBuilder, m: nat, n: nat, shuffle: seq<string> -> seq<string>): (r: Result<Board, BoardError>)
  {
    match b
    case Words(_) => MakeRandom(m, n, shuffle)
    case Emojis(e) => MakeEmojiBoard(e.table, m, n, shuffle)
  }

  /** The outcome of `setSize(m, n); setCells(); getBoard()` on a builder: the
      built board with its size, or the error `setCells` throws. */
  function Build(b: AnyBuilder, m: nat, n: nat, shuffle: seq<string> -> seq<string>): (r: Result<GameBoard, BoardError>)
    ensures r.Failure? <==> CheckSize(m, n).Some?
    ensures r.Failure? ==> Some(r.error) == CheckSize(m, n)
    ensures r.Success? ==> r.value.size == Size(m, n)
    ensures r.Success? ==> forall j :: 0 <= j < |r.value.board| ==> r.value.board[j].status == Closed
  {
    match Generate(b, m, n, shuffle)
    case Failure(e) => Failure(e)
    case Success(board) => Success(GameBoard(board, Size(m, n)))
  }

  const LowSize: Size := Size(4, 5)
  const MedSize: Size := Size(5, 6)
  const HighSize: Size := Size(6, 7)

  /** The three presets pass both checks: 10, 15 and 21 pairs. */
  lemma PresetsFit()
    ensures CheckSize(LowSize.width, LowSize.height) == None
    ensures CheckSize(MedSize.width, MedSize.height) == None
    ensures CheckSize(HighSize.width, HighSize.height) == None
    ensures PairCount(LowSize.width, LowSize.height) == 10
    ensures PairCount(MedSize.width, MedSize.height) == 15
    ensures PairCount(HighSize.width, HighSize.height) == 21
  {
  }

  class Director {
    var builder: AnyBuilder

    constructor(builder: AnyBuilder)
      ensures this.builder == builder
    {
      this.builder := builder;
    }

    method SetBuilder(builder: AnyBuilder)
      modifies this
      ensures this.builder == builder
    {
      this.builder := builder;
    }

    /** Drives the current builder through `setSize`, `setCells` and `getBoard`.
        When `setCells` throws, `getBoard` is never reached, so the builder keeps
        its new size. */
    method Create(size: Size, shuffle: seq<string> -> seq<string>) returns (r: Result<GameBoard, BoardError>)
      modifies Target(builder)
      ensures r == Build(builder, size.width, size.height, shuffle)
      ensures r.Success? ==> Held(builder) == EmptyGameBoard
      ensures r.Failure? ==> Held(builder) == old(Held(builder)).(size := size)
    {
      match builder
      case Words(w) =>
        w.SetSize(size.width, size.height);
        var err := w.SetCells(shuffle);
        if err.Some? {
          r := Failure(err.value);
        } else {
          var gb := w.GetBoard();
          r := Success(gb);
        }
      case Emojis(e) =>
        e.SetSize(size.width, size.height);
        var err := e.SetCells(shuffle);
        if err.Some? {
          r := Failure(err.value);
        } else {
          var gb := e.GetBoard();
          r := Success(gb);
        }
    }

    /** A 4×5 board; it always succeeds and leaves the builder reset. */
    method CreateLow(shuffle: seq<string> -> seq<string>) returns (gb: GameBoard)
      modifies Target(builder)
      ensures Build(builder, LowSize.width, LowSize.height, shuffle) == Success(gb)
      ensures gb.size == LowSize && Held(builder) == EmptyGameBoard
    {
      PresetsFit();
      var r := Create(LowSize, shuffle);
      gb := r.value;
    }

    /** A 5×6 board; it always succeeds and leaves the builder reset. */
    method CreateMed(shuffle: seq<string> -> seq<string>) returns (gb: GameBoard)
      modifies Target(builder)
      ensures Build(builder, MedSize.width, MedSize.height, shuffle) == Success(gb)
      ensures gb.size == MedSize && Held(builder) == EmptyGameBoard
    {
      PresetsFit();
      var r := Create(MedSize, shuffle);
      gb := r.value;
    }

    /** A 6×7 board; it always succeeds and leaves the builder reset. */
    method CreateHigh(shuffle: seq<string> -> seq<string>) returns (gb: GameBoard)
      modifies Target(builder)
      ensures Build(builder, HighSize.width, HighSize.height, shuffle) == Success(gb)
      ensures gb.size == HighSize && Held(builder) == EmptyGameBoard
    {
      PresetsFit();
      var r := Create(HighSize, shuffle);
      gb := r.value;
    }
  }

  /** With a permuting shuffle (and, for emojis, distinct table entries), a
      built board holds `m * n` Closed cells, two of each of its first
      `(m * n) / 2` symbols. */
  lemma BuildPairs(b: AnyBuilder, m: nat, n: nat, shuffle: seq<string> -> seq<string>)
    requires CheckSize(m, n) == None
    requires b.Words? ==>
      multiset(shuffle(Duplicate(Letters(PairCount(m, n))))) == multiset(Duplicate(Letters(PairCount(m, n))))
    requires b.Emojis? ==>
      (forall a, c :: 0 <= a < c < AlphabetSize ==> b.emojis.table[a] != b.emojis.table[c]) &&
      multiset(shuffle(Duplicate(b.emojis.table[..PairCount(m, n)]))) == multiset(Duplicate(b.emojis.table[..PairCount(m, n)]))
    ensures Build(b, m, n, shuffle).Success?
    ensures |Build(b, m, n, shuffle).value.board| == m * n
    ensures b.Words? ==> InPairs(Build(b, m, n, shuffle).value.board, Letters(PairCount(m, n)))
    ensures b.Emojis? ==> InPairs(Build(b, m, n, shuffle).value.board, b.emojis.table[..PairCount(m, n)])
  {
    match b
    case Words(_) => MakeRandomPairs(m, n, shuffle);
    case Emojis(e) => MakeEmojiBoardPairs(e.table, m, n, shuffle);
  }
}
