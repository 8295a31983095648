/**
 Material and captures of a single-player game. Boards are the 64 squares in the order the code scans them, file by
 file and rank by rank, so square s is on file s / 8 and rank s % 8. Of the rules of chess only what a move does to the
 board is modelled.
 */
module Material {
  import opened Options
  import opened ChessRules

  datatype Kind = Pawn | Knight | Bishop | Rook | Queen | King
  datatype Piece = Piece(color: Color, kind: Kind)
  type Cells = seq<Option<Piece>>

  /** A move with the tags the library gives it; `castle` is the rook's journey. */
  datatype Ply = Ply(from: nat, to: nat, promotion: Option<Kind>, capture: bool, enPassant: bool,
      castle: Option<(nat, nat)>)

  datatype Position = Position(board: Cells, turn: Color)

  function Value(k: Kind): nat {
    match k
    case Pawn => 1
    case Knight => 3
    case Bishop => 3
    case Rook => 5
    case Queen => 9
    case King => 0
  }

  function InitialCount(k: Kind): nat {
    match k
    case Pawn => 8
    case Queen => 1
    case King => 1
    case _ => 2
  }

  const BASE := 39

  function Column(back: Kind): Cells {
    [Some(Piece(White, back)), Some(Piece(White, Pawn)), None, None, None, None, Some(Piece(Black, Pawn)),
        Some(Piece(Black, back))]
  }

  const INITIAL_BOARD: Cells :=
    Column(Rook) + Column(Knight) + Column(Bishop) + Column(Queen) + Column(King) + Column(Bishop) + Column(Knight) +
        Column(Rook)

  /** The number of pieces of one colour and kind. */
  function Count(b: Cells, c: Color, k: Kind): nat {
    if b == [] then 0 else Count(b[..|b| - 1], c, k) + (if b[|b| - 1] == Some(Piece(c, k)) then 1 else 0)
  }

  function Worth(x: Option<Piece>, c: Color): nat {
    if x.Some? && x.value.color == c then Value(x.value.kind) else 0
  }

  /** The summed values of one colour's pieces. */
  function Total(b: Cells, c: Color): nat {
    if b == [] then 0 else Total(b[..|b| - 1], c) + Worth(b[|b| - 1], c)
  }

  // ---------------------------------------------------------------- moves

  function CaptureSquare(pos: Position, mv: Ply): int {
    if !mv.enPassant then mv.to else if pos.turn == White then mv.to - 1 else mv.to + 1
  }

  /** What a move may do to the board. */
  predicate Playable(pos: Position, mv: Ply) {
    && |pos.board| == 64 && mv.from < 64 && mv.to < 64 && mv.from != mv.to
    && pos.board[mv.from].Some? && pos.board[mv.from].value.color == pos.turn
    && var mover := pos.board[mv.from].value.kind;
    && (pos.board[mv.to].Some? ==> pos.board[mv.to].value.color != pos.turn && pos.board[mv.to].value.kind != King)
    && (mv.enPassant ==>
          && mover == Pawn && pos.board[mv.to].None? && mv.promotion.None? && mv.castle.None?
          && mv.to % 8 in {2, 5}
          && var passed := if pos.turn == White then mv.to - 1 else mv.to + 1;
             passed != mv.from && pos.board[passed] == Some(Piece(Other(pos.turn), Pawn)))
    && (!mv.enPassant ==> (mv.capture <==> pos.board[mv.to].Some?))
    && (mv.promotion.Some? ==> mover == Pawn && mv.promotion.value in {Knight, Bishop, Rook, Queen} && mv.castle.None?)
    && (mv.castle.Some? ==>
          && var (rookFrom, rookTo) := mv.castle.value;
          && mover == King && pos.board[mv.to].None? && !mv.capture
          && rookFrom < 64 && rookTo < 64 && rookFrom != mv.from && rookFrom != mv.to && rookTo != mv.to
              && rookTo != mv.from
          && rookFrom != rookTo && pos.board[rookFrom] == Some(Piece(pos.turn, Rook)) && pos.board[rookTo].None?)
  }

  /** The piece that stands on the target square after the move. */
  function Placed(pos: Position, mv: Ply): Piece
    requires Playable(pos, mv)
  {
    var p := pos.board[mv.from].value;
    if mv.promotion.Some? then p.(kind := mv.promotion.value) else p
  }

  /** The board before the rook of a castling move is moved. */
  function Moved(pos: Position, mv: Ply): Cells
    requires Playable(pos, mv)
  {
    pos.board[mv.from := None][CaptureSquare(pos, mv) := None][mv.to := Some(Placed(pos, mv))]
  }

  function PlayMove(pos: Position, mv: Ply): Position
    requires Playable(pos, mv)
  {
    var b := Moved(pos, mv);
    var c := match mv.castle
      case None => b
      case Some((rookFrom, rookTo)) => b[rookFrom := None][rookTo := Some(Piece(pos.turn, Rook))];
    Position(c, Other(pos.turn))
  }

  const START := Position(INITIAL_BOARD, White)

  /** Every move of the list can be played, from the initial position on. */
  predicate PlayableLine(line: seq<Ply>)
    decreases |line|, 1
  {
    line != [] ==> PlayableLine(line[..|line| - 1]) && Playable(After(line[..|line| - 1]), line[|line| - 1])
  }

  function After(line: seq<Ply>): Position
    requires PlayableLine(line)
    decreases |line|, 2
  {
    if line == [] then START else PlayMove(After(line[..|line| - 1]), line[|line| - 1])
  }

  // ---------------------------------------------------------------- captures and promotions

  /** What the code records for one move: the kind on the capture square, unless it is empty or a king. */
  function Captured(pos: Position, mv: Ply): Option<Kind> {
    var sq := CaptureSquare(pos, mv);
    if (!mv.capture && !mv.enPassant) || !(0 <= sq < |pos.board|) then None
    else
      match pos.board[sq]
      case Some(p) => if p.kind == King then None else Some(p.kind)
      case None => None
  }

  /** The kinds captured by one colour, in order. */
  function CaptureOrder(line: seq<Ply>, capturer: Color): seq<Kind>
    requires PlayableLine(line)
  {
    if line == [] then []
    else
      var init := line[..|line| - 1];
      var rest := CaptureOrder(init, capturer);
      var k := Captured(After(init), line[|line| - 1]);
      if After(init).turn == capturer && k.Some? then rest + [k.value] else rest
  }

  /** An en passant capture takes the pawn that has just passed over the target square by its double step. */
  lemma EnPassantTakesPasser(pos: Position, last: Ply, mv: Ply)
    requires Playable(pos, last) && mv.enPassant
    requires pos.board[last.from] == Some(Piece(pos.turn, Pawn)) && last.promotion.None?
    requires pos.turn == White ==> last.from % 8 == 1 && last.to == last.from + 2 && mv.to == last.from + 1
    requires pos.turn == Black ==> last.from % 8 == 6 && last.to == last.from - 2 && mv.to == last.from - 1
    ensures CaptureSquare(PlayMove(pos, last), mv) == last.to
    ensures Captured(PlayMove(pos, last), mv) == Some(Pawn)
  {
  }

  /** Later captures stand behind earlier ones: a shorter game's order is the beginning of a longer one's. */
  lemma {:induction false} OrderIsChronological(line: seq<Ply>, n: nat, capturer: Color)
    requires PlayableLine(line) && n <= |line| && PlayableLine(line[..n])
    ensures CaptureOrder(line[..n], capturer) <= CaptureOrder(line, capturer)
  {
    if n == |line| {
      assert line[..n] == line;
    } else {
      var init := line[..|line| - 1];
      assert init[..n] == line[..n];
      OrderIsChronological(init, n, capturer);
    }
  }

  /** The kinds one colour's pawns were promoted to, in order. */
  function Promotions(line: seq<Ply>, c: Color): seq<Kind>
    requires PlayableLine(line)
  {
    if line == [] then []
    else
      var init := line[..|line| - 1];
      var rest := Promotions(init, c);
      var mv := line[|line| - 1];
      if After(init).turn == c && mv.promotion.Some? then rest + [mv.promotion.value] else rest
  }

  function Times(ks: seq<Kind>, k: Kind): nat {
    if ks == [] then 0 else Times(ks[..|ks| - 1], k) + (if ks[|ks| - 1] == k then 1 else 0)
  }

  function Values(ks: seq<Kind>): nat {
    if ks == [] then 0 else Values(ks[..|ks| - 1]) + Value(ks[|ks| - 1])
  }

  // ---------------------------------------------------------------- counting

  lemma {:induction false} CountUpdate(b: Cells, i: nat, x: Option<Piece>, c: Color, k: Kind)
    requires i < |b|
    ensures Count(b[i := x], c, k) ==
            Count(b, c, k) - (if b[i] == Some(Piece(c, k)) then 1 else 0) + (if x == Some(Piece(c, k)) then 1 else 0)
  {
    var b' := b[i := x];
    if i == |b| - 1 {
      assert b'[..|b| - 1] == b[..|b| - 1];
    } else {
      assert b'[..|b| - 1] == b[..|b| - 1][i := x];
      CountUpdate(b[..|b| - 1], i, x, c, k);
    }
  }

  lemma {:induction false} CountConcat(a: Cells, b: Cells, c: Color, k: Kind)
    ensures Count(a + b, c, k) == Count(a, c, k) + Count(b, c, k)
  {
    if b == [] {
      assert a + b == a;
    } else {
      assert (a + b)[..|a + b| - 1] == a + b[..|b| - 1];
      CountConcat(a, b[..|b| - 1], c, k);
    }
  }

  lemma CountNext(b: Cells, i: nat, c: Color, k: Kind)
    requires i < |b|
    ensures Count(b[..i + 1], c, k) == Count(b[..i], c, k) + if b[i] == Some(Piece(c, k)) then 1 else 0
  {
    assert b[..i + 1][..|b[..i + 1]| - 1] == b[..i];
  }

  lemma ColumnCount(back: Kind, c: Color, k: Kind)
    requires back != Pawn
    ensures Count(Column(back), c, k) == if k == Pawn || k == back then 1 else 0
  {
    var col := Column(back);
    CountNext(col, 0, c, k);
    CountNext(col, 1, c, k);
    CountNext(col, 2, c, k);
    CountNext(col, 3, c, k);
    CountNext(col, 4, c, k);
    CountNext(col, 5, c, k);
    CountNext(col, 6, c, k);
    CountNext(col, 7, c, k);
    assert col[..8] == col;
  }

  lemma InitialCounts(c: Color, k: Kind)
    ensures |INITIAL_BOARD| == 64 && Count(INITIAL_BOARD, c, k) == InitialCount(k)
  {
    ColumnCount(Rook, c, k);
    ColumnCount(Knight, c, k);
    ColumnCount(Bishop, c, k);
    ColumnCount(Queen, c, k);
    ColumnCount(King, c, k);
    var q1 := Column(Rook) + Column(Knight);
    var q2 := q1 + Column(Bishop);
    var q3 := q2 + Column(Queen);
    var q4 := q3 + Column(King);
    var q5 := q4 + Column(Bishop);
    var q6 := q5 + Column(Knight);
    CountConcat(Column(Rook), Column(Knight), c, k);
    CountConcat(q1, Column(Bishop), c, k);
    CountConcat(q2, Column(Queen), c, k);
    CountConcat(q3, Column(King), c, k);
    CountConcat(q4, Column(Bishop), c, k);
    CountConcat(q5, Column(Knight), c, k);
    CountConcat(q6, Column(Rook), c, k);
  }

  /** The summed value is the weighted sum of the counts. */
  lemma {:induction false} TotalByCounts(b: Cells, c: Color)
    ensures Total(b, c) == Count(b, c, Pawn) + 3 * Count(b, c, Knight) + 3 * Count(b, c, Bishop) +
        5 * Count(b, c, Rook) + 9 * Count(b, c, Queen)
  {
    if b != [] {
      TotalByCounts(b[..|b| - 1], c);
    }
  }

  lemma {:induction false} ValuesByTimes(ks: seq<Kind>)
    ensures Values(ks) == Times(ks, Pawn) + 3 * Times(ks, Knight) + 3 * Times(ks, Bishop) + 5 * Times(ks, Rook) +
        9 * Times(ks, Queen)
  {
    if ks != [] {
      ValuesByTimes(ks[..|ks| - 1]);
    }
  }

  // ---------------------------------------------------------------- one move

  lemma MovedCounts(pos: Position, mv: Ply, c: Color, k: Kind)
    requires Playable(pos, mv) && k != King
    ensures var taken := if c != pos.turn && Captured(pos, mv) == Some(k) then 1 else 0;
            var made := if c == pos.turn && mv.promotion == Some(k) then 1 else 0;
            var spent := if c == pos.turn && mv.promotion.Some? && k == Pawn then 1 else 0;
            Count(Moved(pos, mv), c, k) == Count(pos.board, c, k) - taken + made - spent
  {
    var sq := CaptureSquare(pos, mv);
    var left := pos.board[mv.from := None];
    CountUpdate(pos.board, mv.from, None, c, k);
    CountUpdate(left, sq, None, c, k);
    CountUpdate(left[sq := None], mv.to, Some(Placed(pos, mv)), c, k);
  }

  lemma RookKeepsCounts(b: Cells, rookFrom: nat, rookTo: nat, turn: Color, c: Color, k: Kind)
    requires rookFrom < |b| && rookTo < |b| && rookFrom != rookTo
    requires b[rookFrom] == Some(Piece(turn, Rook)) && b[rookTo].None?
    ensures Count(b[rookFrom := None][rookTo := Some(Piece(turn, Rook))], c, k) == Count(b, c, k)
  {
    CountUpdate(b, rookFrom, None, c, k);
    CountUpdate(b[rookFrom := None], rookTo, Some(Piece(turn, Rook)), c, k);
  }

  /** One move changes the count of each piece by its capture and its promotion only. */
  lemma MoveCounts(pos: Position, mv: Ply, c: Color, k: Kind)
    requires Playable(pos, mv) && k != King
    ensures var taken := if c != pos.turn && Captured(pos, mv) == Some(k) then 1 else 0;
            var made := if c == pos.turn && mv.promotion == Some(k) then 1 else 0;
            var spent := if c == pos.turn && mv.promotion.Some? && k == Pawn then 1 else 0;
            Count(PlayMove(pos, mv).board, c, k) == Count(pos.board, c, k) - taken + made - spent
    ensures |PlayMove(pos, mv).board| == 64
  {
    MovedCounts(pos, mv, c, k);
    if mv.castle.Some? {
      RookKeepsCounts(Moved(pos, mv), mv.castle.value.0, mv.castle.value.1, pos.turn, c, k);
    }
  }

  // ---------------------------------------------------------------- conservation over whole games

  lemma TimesNext(ks: seq<Kind>, last: Kind, k: Kind)
    ensures Times(ks + [last], k) == Times(ks, k) + if last == k then 1 else 0
  {
    assert (ks + [last])[..|ks|] == ks;
  }

  lemma OrderGrows(line: seq<Ply>, capturer: Color, k: Kind)
    requires PlayableLine(line) && line != []
    ensures var init := line[..|line| - 1];
            var taken := if After(init).turn == capturer
                && Captured(After(init), line[|line| - 1]) == Some(k) then 1 else 0;
            Times(CaptureOrder(line, capturer), k) == Times(CaptureOrder(init, capturer), k) + taken
  {
    var init := line[..|line| - 1];
    var x := Captured(After(init), line[|line| - 1]);
    if x.Some? {
      TimesNext(CaptureOrder(init, capturer), x.value, k);
    }
  }

  lemma PromotionsGrow(line: seq<Ply>, c: Color, k: Kind)
    requires PlayableLine(line) && line != []
    ensures var init := line[..|line| - 1];
            var promoted := After(init).turn == c && line[|line| - 1].promotion.Some?;
            && |Promotions(line, c)| == |Promotions(init, c)| + (if promoted then 1 else 0)
            && Times(Promotions(line, c), k) == Times(Promotions(init, c), k) +
                (if promoted && line[|line| - 1].promotion == Some(k) then 1 else 0)
  {
    var init, mv := line[..|line| - 1], line[|line| - 1];
    if mv.promotion.Some? {
      TimesNext(Promotions(init, c), mv.promotion.value, k);
    }
  }

  /** What is left of a kind, with what was captured and what promoted away, is the initial number and what promoted
      to it. */
  predicate Balanced(line: seq<Ply>, c: Color, k: Kind)
    requires PlayableLine(line)
  {
    Count(After(line).board, c, k) + Times(CaptureOrder(line, Other(c)), k) +
        (if k == Pawn then |Promotions(line, c)| else 0)
            == InitialCount(k) + Times(Promotions(line, c), k)
  }

  lemma MoveKeepsBalance(line: seq<Ply>, c: Color, k: Kind)
    requires PlayableLine(line) && line != [] && k != King && Balanced(line[..|line| - 1], c, k)
    ensures Balanced(line, c, k)
  {
    var init := line[..|line| - 1];
    MoveCounts(After(init), line[|line| - 1], c, k);
    OrderGrows(line, Other(c), k);
    PromotionsGrow(line, c, k);
  }

  lemma StartBalanced(c: Color, k: Kind)
    ensures Balanced([], c, k)
  {
    InitialCounts(c, k);
  }

  /** Every piece of the initial position is still there, was captured, or was a pawn that promoted. */
  lemma {:induction false} CountsConserved(line: seq<Ply>, c: Color, k: Kind)
    requires PlayableLine(line) && k != King
    ensures Balanced(line, c, k)
  {
    if line == [] {
      StartBalanced(c, k);
    } else {
      CountsConserved(line[..|line| - 1], c, k);
      MoveKeepsBalance(line, c, k);
    }
  }

  lemma {:induction false} BoardHas64(line: seq<Ply>)
    requires PlayableLine(line)
    ensures |After(line).board| == 64
  {
    if line == [] {
      InitialCounts(White, Pawn);
    }
  }

  /** No pawn is promoted to a pawn or a king, and no king is captured. */
  lemma {:induction false} NoneOfKind(line: seq<Ply>, c: Color)
    requires PlayableLine(line)
    ensures Times(Promotions(line, c), Pawn) == 0 && Times(Promotions(line, c), King) == 0
    ensures Times(CaptureOrder(line, Other(c)), King) == 0
  {
    if line != [] {
      NoneOfKind(line[..|line| - 1], c);
      PromotionsGrow(line, c, Pawn);
      PromotionsGrow(line, c, King);
      OrderGrows(line, Other(c), King);
    }
  }

  /** Conservation of material: 39, less what the opponent captured, plus what promotions added. */
  lemma MaterialConserved(line: seq<Ply>, c: Color)
    requires PlayableLine(line)
    ensures Total(After(line).board, c) + Values(CaptureOrder(line, Other(c))) ==
            BASE + Values(Promotions(line, c)) - |Promotions(line, c)|
  {
    CountsConserved(line, c, Pawn);
    CountsConserved(line, c, Knight);
    CountsConserved(line, c, Bishop);
    CountsConserved(line, c, Rook);
    CountsConserved(line, c, Queen);
    NoneOfKind(line, c);
    TotalByCounts(After(line).board, c);
    ValuesByTimes(CaptureOrder(line, Other(c)));
    ValuesByTimes(Promotions(line, c));
  }

  // ---------------------------------------------------------------- the reported captures

  type Tally = map<Kind, nat>

  function Get(t: Tally, k: Kind): nat {
    if k in t then t[k] else 0
  }

  /** A recorded number, replaced by the loss the board shows if there is one. */
  function Corrected(board: Cells, recorded: nat, c: Color, k: Kind): nat {
    if InitialCount(k) > Count(board, c, k) then InitialCount(k) - Count(board, c, k) else recorded
  }

  /** The number of captured pieces the code reports for one kind lost by colour `c`. */
  function Reported(board: Cells, order: seq<Kind>, c: Color, k: Kind): nat {
    Corrected(board, Times(order, k), c, k)
  }

  /** How many pieces of a kind the board lacks. */
  function Lost(line: seq<Ply>, c: Color, k: Kind): int
    requires PlayableLine(line)
  {
    Times(CaptureOrder(line, Other(c)), k) + (if k == Pawn then |Promotions(line, c)| else 0)
        - Times(Promotions(line, c), k)
  }

  lemma ReportedIsLost(line: seq<Ply>, c: Color, k: Kind)
    requires PlayableLine(line) && k != King
    ensures var order := CaptureOrder(line, Other(c));
            Reported(After(line).board, order, c, k) ==
            if Lost(line, c, k) > 0 then Lost(line, c, k) else Times(order, k)
  {
    CountsConserved(line, c, k);
  }

  /** The reported captures of a colour's pieces are the captures that happened exactly when that colour never
      promoted. */
  lemma ReportedIffNoPromotion(line: seq<Ply>, c: Color)
    requires PlayableLine(line)
    ensures (forall k :: k != King ==>
        Reported(After(line).board, CaptureOrder(line, Other(c)), c, k) == Times(CaptureOrder(line, Other(c)), k))
            <==> Promotions(line, c) == []
  {
    if Promotions(line, c) == [] {
      forall k | k != King
        ensures Reported(After(line).board, CaptureOrder(line, Other(c)), c, k) ==
            Times(CaptureOrder(line, Other(c)), k)
      {
        ReportedIsLost(line, c, k);
      }
    } else {
      ReportedIsLost(line, c, Pawn);
      NoneOfKind(line, c);
    }
  }

  // ---------------------------------------------------------------- the computation itself

  datatype Score = Score(white: nat, black: nat)
  datatype Captures = Captures(white: Tally, black: Tally, whiteOrder: seq<Kind>, blackOrder: seq<Kind>)

  lemma {:induction false} PrefixPlayable(line: seq<Ply>, n: nat)
    requires PlayableLine(line) && n <= |line|
    ensures PlayableLine(line[..n])
  {
    if n < |line| {
      PrefixPlayable(line[..|line| - 1], n);
      assert line[..|line| - 1][..n] == line[..n];
    } else {
      assert line[..n] == line;
    }
  }

  function Counted(counts: map<(Color, Kind), nat>, c: Color, k: Kind): nat {
    if (c, k) in counts then counts[(c, k)] else 0
  }

  /** Scans the board square by square, adding up values and counting kinds. */
  method ScanBoard(board: Cells) returns (score: Score, counts: map<(Color, Kind), nat>)
    requires |board| == 64
    ensures score == Score(Total(board, White), Total(board, Black))
    ensures forall c, k :: k != King ==> Counted(counts, c, k) == Count(board, c, k)
  {
    var white, black := 0, 0;
    counts := map[];
    for file := 0 to 8
      invariant white == Total(board[..file * 8], White) && black == Total(board[..file * 8], Black)
      invariant forall c, k :: k != King ==>
          Counted(counts, c, k) == Count(board[..file * 8], c, k)
    {
      for rank := 0 to 8
        invariant white == Total(board[..file * 8 + rank], White) && black == Total(board[..file * 8 + rank], Black)
        invariant forall c, k :: k != King ==>
            Counted(counts, c, k) == Count(board[..file * 8 + rank], c, k)
      {
        var sq := file * 8 + rank;
        assert board[..sq + 1][..|board[..sq + 1]| - 1] == board[..sq];
        ghost var before := counts;
        if board[sq].Some? && Value(board[sq].value.kind) != 0 {
          var p := board[sq].value;
          if p.color == White {
            white := white + Value(p.kind);
          } else {
            black := black + Value(p.kind);
          }
          var key := (p.color, p.kind);
          counts := counts[key := (if key in counts then counts[key] else 0) + 1];
        }
        forall c, k | k != King ensures Counted(counts, c, k) == Count(board[..sq + 1], c, k) {
          assert Counted(before, c, k) == Count(board[..sq], c, k);
        }
      }
    }
    assert board[..64] == board;
    score := Score(white, black);
  }

  /** Looks up the captured piece of one move, behind the target square for an en passant capture. */
  method FindCaptured(pos: Position, mv: Ply) returns (k: Option<Kind>)
    ensures k == Captured(pos, mv)
  {
    if !mv.capture && !mv.enPassant {
      return None;
    }
    var square: int := mv.to;
    if mv.enPassant {
      square := if pos.turn == White then mv.to - 1 else mv.to + 1;
    }
    if 0 <= square < |pos.board| && pos.board[square].Some? && pos.board[square].value.kind != King {
      return Some(pos.board[square].value.kind);
    }
    return None;
  }

  predicate TalliesMatch(r: Captures) {
    forall k :: Get(r.white, k) == Times(r.whiteOrder, k) && Get(r.black, k) == Times(r.blackOrder, k)
  }

  /** Enters one captured kind under the side that captured it. */
  method Record(r: Captures, turn: Color, k: Kind) returns (r': Captures)
    requires TalliesMatch(r)
    ensures TalliesMatch(r')
    ensures r'.whiteOrder == (if turn == White then r.whiteOrder + [k] else r.whiteOrder)
    ensures r'.blackOrder == (if turn == Black then r.blackOrder + [k] else r.blackOrder)
  {
    if turn == White {
      r' := r.(white := r.white[k := Get(r.white, k) + 1], whiteOrder := r.whiteOrder + [k]);
      assert r'.whiteOrder[..|r'.whiteOrder| - 1] == r.whiteOrder;
    } else {
      r' := r.(black := r.black[k := Get(r.black, k) + 1], blackOrder := r.blackOrder + [k]);
      assert r'.blackOrder[..|r'.blackOrder| - 1] == r.blackOrder;
    }
  }

  /** Walks the moves with the positions before them, recording captures by the side to move. */
  method WalkMoves(line: seq<Ply>) returns (r: Captures)
    requires PlayableLine(line)
    ensures r.whiteOrder == CaptureOrder(line, White) && r.blackOrder == CaptureOrder(line, Black)
    ensures TalliesMatch(r)
  {
    r := Captures(map[], map[], [], []);
    for i := 0 to |line|
      invariant PlayableLine(line[..i])
      invariant r.whiteOrder == CaptureOrder(line[..i], White) && r.blackOrder == CaptureOrder(line[..i], Black)
      invariant TalliesMatch(r)
    {
      PrefixPlayable(line, i + 1);
      assert line[..i + 1][..|line[..i + 1]| - 1] == line[..i];
      var pos := After(line[..i]);
      var k := FindCaptured(pos, line[i]);
      if k.Some? {
        r := Record(r, pos.turn, k.value);
      }
    }
    assert line[..|line|] == line;
  }

  /** The recorded captures of one colour's pieces, where the kinds still to be visited are not corrected yet. */
  ghost predicate PartlyCorrected(board: Cells, c: Color, todo: set<(Color, Kind)>, recorded: Tally, t: Tally) {
    forall k :: k != King ==>
      Get(t, k) == if (c, k) in todo then Get(recorded, k) else Corrected(board, Get(recorded, k), c, k)
  }

  /** Overwrites one recorded number if the board shows a loss. */
  method CorrectOne(lost: int, k: Kind, t: Tally) returns (t': Tally)
    ensures Get(t', k) == if lost > 0 then lost else Get(t, k)
    ensures forall other :: other != k ==> Get(t', other) == Get(t, other)
  {
    t' := if lost > 0 then t[k := lost] else t;
  }

  /** Replaces recorded captures by the losses the board shows, in whatever order the kinds are visited. */
  method CorrectByLosses(board: Cells, counts: map<(Color, Kind), nat>, recorded: Captures) returns (r: Captures)
    requires forall c, k :: k != King ==> Counted(counts, c, k) == Count(board, c, k)
    ensures r.whiteOrder == recorded.whiteOrder && r.blackOrder == recorded.blackOrder
    ensures forall k :: k != King ==> Get(r.white, k) == Corrected(board, Get(recorded.white, k), Black, k)
    ensures forall k :: k != King ==> Get(r.black, k) == Corrected(board, Get(recorded.black, k), White, k)
  {
    var todo := set c, k | c in {White, Black} && k in {Pawn, Knight, Bishop, Rook, Queen} :: (c, k);
    forall c, k: Kind | k != King ensures (c, k) in todo {
      assert c == White || c == Black;
      assert k in {Pawn, Knight, Bishop, Rook, Queen};
    }
    var white, black := recorded.white, recorded.black;
    while todo != {}
      invariant forall key :: key in todo ==> key.1 != King
      invariant PartlyCorrected(board, Black, todo, recorded.white, white)
      invariant PartlyCorrected(board, White, todo, recorded.black, black)
      decreases todo
    {
      var key :| key in todo;
      todo := todo - {key};
      var lost: int := InitialCount(key.1) - Counted(counts, key.0, key.1);
      if key.0 == White {
        black := CorrectOne(lost, key.1, black);
      } else {
        white := CorrectOne(lost, key.1, white);
      }
    }
    r := recorded.(white := white, black := black);
  }

  /** computeMaterial: the score of the final board, the capture orders, and the captures it reports. */
  method ComputeMaterial(line: seq<Ply>) returns (score: Score, r: Captures)
    requires PlayableLine(line)
    ensures var board := After(line).board;
            && score == Score(Total(board, White), Total(board, Black))
            && r.whiteOrder == CaptureOrder(line, White) && r.blackOrder == CaptureOrder(line, Black)
            && forall k :: k != King ==>
                 Get(r.white, k) == Reported(board, r.whiteOrder, Black, k)
                     && Get(r.black, k) == Reported(board, r.blackOrder, White, k)
  {
    BoardHas64(line);
    var board := After(line).board;
    var counts;
    score, counts := ScanBoard(board);
    r := WalkMoves(line);
    r := CorrectByLosses(board, counts, r);
  }
}
