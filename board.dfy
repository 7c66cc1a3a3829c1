/**
 * Bitboards, the 67-character board text and the board primitives that the
 * backend takes from its helper library.
 *
 * The backend keeps a side's discs, and a set of legal moves, as an integer
 * in which bit i stands for square i (a1 = 0, b1 = 1, ..., h8 = 63).  Here
 * such a bitboard is the set of its squares: `b & (1 << i) != 0` is
 * `i in b`, `1 << i` is `{i}`, `|` is union and `^` is symmetric difference.
 * The helper library's move generator, flipper, record replayer, text codecs,
 * table reader and the external solver are not part of this model: an
 * `Engine` value carries them as functions, and `EngineFacts` lists the only
 * facts about them that the backend relies on.
 */
module Board {

  /** A bitboard: the squares whose bits are set. */
  type Bitboard = set<nat>

  /** `a ^ b`: the squares set in exactly one of the two. */
  function Xor(a: Bitboard, b: Bitboard): (c: Bitboard)
    ensures forall i :: i in c <==> (i in a) != (i in b)
  {
    (a - b) + (b - a)
  }

  /** Every square of the set is on the board. */
  predicate OnBoard(b: Bitboard)
  {
    forall i :: i in b ==> i < 64
  }

  /** The number of squares below n that are in the set. */
  function CountBelow(b: Bitboard, n: nat): (c: nat)
    ensures c <= n
  {
    if n == 0 then 0 else CountBelow(b, n - 1) + (if n - 1 in b then 1 else 0)
  }

  /** `bin(b).count("1")`: the number of squares of the board in the set. */
  function Popcount(b: Bitboard): nat
  {
    CountBelow(b, 64)
  }

  /** A square of the set below n has fewer of the set's squares below it than n has. */
  lemma {:induction false} CountBelowStrict(b: Bitboard, s: nat, n: nat)
    requires s in b && s < n
    ensures CountBelow(b, s) < CountBelow(b, n)
  {
    if s < n - 1 {
      CountBelowStrict(b, s, n - 1);
    }
  }

  /** A non-empty set of squares on the board has a positive count. */
  lemma PopcountPositive(b: Bitboard)
    requires OnBoard(b) && b != {}
    ensures Popcount(b) > 0
  {
    var i :| i in b;
    CountBelowStrict(b, i, 64);
  }

  datatype Side = Black | White

  /**
   * The board text `obf67`: 64 cells in {X, O, -} (black, white, empty), a
   * space, the side to move in {X, O} and a closing `;`.
   */
  predicate WellFormedObf(s: string)
  {
    && |s| == 67
    && (forall i :: 0 <= i < 64 ==> s[i] == 'X' || s[i] == 'O' || s[i] == '-')
    && s[64] == ' '
    && (s[65] == 'X' || s[65] == 'O')
    && s[66] == ';'
  }

  /** The backend's `XO2BW[obf67[65]]`: 'X' is black, 'O' is white. */
  function SideOf(obf: string): Side
    requires WellFormedObf(obf)
  {
    if obf[65] == 'X' then Black else White
  }

  /** A table entry: one of the category digits '0' to '4'. */
  type Category = c: char | '0' <= c <= '4' witness '0'

  /** `int(c)` for a category digit. */
  function CategoryValue(c: Category): (v: int)
    ensures 0 <= v <= 4
  {
    c as int - '0' as int
  }

  /** The helper library's primitives and the external solver, as functions. */
  datatype Engine = Engine(
    moves: (Bitboard, Bitboard) -> Bitboard,     // get_moves(player, opponent)
    flip: (nat, Bitboard, Bitboard) -> Bitboard, // flip(square, player, opponent)
    finalScore: (Bitboard, Bitboard) -> int,     // ComputeFinalScore(player, opponent)
    replay: string -> string,                    // gamerecord_to_obf(record)
    toBitboards: string -> (Bitboard, Bitboard), // obf_to_bitboards(obf): (player, opponent)
    toObf: (Bitboard, Bitboard) -> string,       // bitboards_to_obf(player, opponent)
    unique: string -> string,                    // obf_unique(obf): symmetry-reduced text
    base81: string -> string,                    // obf_to_base81encoding(obf)
    table: map<string, Category>,                // read_table(query, filename) on the one table file
    edax: (Bitboard, Bitboard) -> string,        // the external exhaustive solver's principal move
    initialObf: string)                          // get_initial_obf()

  /**
   * What the backend relies on: legal moves are squares of the board; a
   * replayed record is a well-formed board text; playing a legal square
   * flips at least one disc; a final score is a disc differential, so never
   * the search's "unknown" score; the initial board is the replay of the
   * empty record, and its side to move has a legal move.
   */
  ghost predicate EngineFacts(e: Engine)
  {
    && (forall p, o :: OnBoard(e.moves(p, o)))
    && (forall r :: WellFormedObf(e.replay(r)))
    && (forall p, o, i :: i in e.moves(p, o) ==> e.flip(i, p, o) != {})
    && (forall p, o :: -64 <= e.finalScore(p, o) <= 64)
    && e.initialObf == e.replay("")
    && HasMoves(e, e.initialObf)
  }

  /** The side to move in the board text has a legal move. */
  predicate HasMoves(e: Engine, obf: string)
  {
    var (player, opponent) := e.toBitboards(obf);
    e.moves(player, opponent) != {}
  }

  /** Square i is a legal move for `player`. */
  predicate IsLegal(e: Engine, player: Bitboard, opponent: Bitboard, i: nat)
  {
    i < 64 && i in e.moves(player, opponent)
  }

  /** Neither side has a legal move: the game is over. */
  predicate IsTerminal(e: Engine, player: Bitboard, opponent: Bitboard)
  {
    e.moves(player, opponent) == {} && e.moves(opponent, player) == {}
  }

  /** The table query for a position: encode, reduce by symmetry, base-81 encode. */
  function TableKey(e: Engine, player: Bitboard, opponent: Bitboard): string
  {
    e.base81(e.unique(e.toObf(player, opponent)))
  }

  /** The number of discs on the board. */
  function Discs(player: Bitboard, opponent: Bitboard): nat
  {
    Popcount(player + opponent)
  }
}
