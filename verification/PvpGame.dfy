/** One PvP game and the body of the transaction that changes it. */
module PvpGame {
  import opened Options
  import opened Text
  import opened ChessRules

  datatype Status = Active | Finished | Resigned | Draw

  datatype Game = Game(
    id: string,
    fen: string,
    movesUci: seq<string>,
    movesSan: seq<string>,
    turn: Color,
    status: Status,
    whiteId: string, whiteName: string,
    blackId: string, blackName: string,
    originRoom: string, resolveRoom: string,
    createdAt: int, updatedAt: int,
    winner: string, outcome: string)

  datatype ColorChoice = ChooseWhite | ChooseBlack | ChooseRandom

  datatype Request =
    | MoveReq(user: string, room: Option<string>, text: string)
    | ResignReq(user: string, room: Option<string>)

  datatype Reason = GameGone | NotActive | StaleLength | WrongRoom | NotInGame | NotYourTurn | BrokenLog | IllegalMove

  datatype Verdict = Commit(game: Game) | Abort(reason: Reason)

  /** A fresh game between a challenger and a target; `coin` is the random bit used when no colour was chosen. */
  function NewGame(id: string, origin: string, resolve: string, challenger: string, challengerName: string,
                   target: string, targetName: string, choice: ColorChoice, coin: bool, now: int): Game {
    var swapped := choice == ChooseBlack || (choice == ChooseRandom && coin);
    var (w, wn) := if swapped then (target, targetName) else (challenger, challengerName);
    var (b, bn) := if swapped then (challenger, challengerName) else (target, targetName);
    Game(id, "startpos", [], [], White, Active, Trim(w), Trim(wn), Trim(b), Trim(bn), Trim(origin), Trim(resolve),
         now, now, "", "")
  }

  function PlayerColor(g: Game, user: string): Option<Color> {
    if g.whiteId == user then Some(White) else if g.blackId == user then Some(Black) else None
  }

  function OpponentId(g: Game, user: string): string {
    if g.whiteId == user then g.blackId else if g.blackId == user then g.whiteId else ""
  }

  predicate Plays(g: Game, user: string) {
    user == g.whiteId || user == g.blackId
  }

  predicate InRoom(g: Game, room: string) {
    g.originRoom == room || g.resolveRoom == room
  }

  /** Whether the search by user (and room) keeps this game. */
  predicate Selectable(g: Game, room: Option<string>) {
    g.status == Active && (room.Some? ==> InRoom(g, Trim(room.value)))
  }

  /** Position, turn, time and result fields after the library game `after`. */
  function Settle(r: Rules, g: Game, after: Line, now: int): Game {
    var h := g.(fen := r.fen(after), turn := Turn(after), updatedAt := now);
    match r.outcome(after)
    case WhiteWon => h.(status := Finished, winner := g.whiteId, outcome := "white")
    case BlackWon => h.(status := Finished, winner := g.blackId, outcome := "black")
    case Drawn => h.(status := Draw, outcome := "draw")
    case NoOutcome => h
  }

  /** A game with one more entry in each of its logs. */
  function Appended(g: Game, token: string, san: string): Game {
    g.(movesUci := g.movesUci + [token], movesSan := g.movesSan + [san])
  }

  /** Appends a move text; a text that decodes as UCI is stored even when the library then rejects the move. */
  function AppendMove(r: Rules, cur: Game, text: string, now: int): Verdict {
    match Replay(r, cur.movesUci)
    case None => Abort(BrokenLog)
    case Some(line) =>
      var raw := Trim(text);
      var token := Lower(raw);
      if token == "" then Abort(IllegalMove)
      else
        match r.decodeUci(line, token)
        case Some(m) =>
          var after := if r.legal(line, m) then line + [m] else line;
          Commit(Settle(r, Appended(cur, token, r.san(line, m)), after, now))
        case None =>
          match r.decodeSan(line, raw)
          case None => Abort(IllegalMove)
          case Some(m) =>
            if !r.legal(line, m) then Abort(IllegalMove)
            else Commit(Settle(r, Appended(cur, r.uci(m), r.san(line, m)), line + [m], now))
  }

  /** The transaction body: what a client decides to write after reading `cur` under WATCH. */
  function Decide(r: Rules, req: Request, oldLen: nat, cur: Game, now: int): Verdict {
    if cur.status != Active then Abort(NotActive)
    else
      match req
      case MoveReq(user, room, text) =>
        if |cur.movesUci| != oldLen then Abort(StaleLength)
        else if room.Some? && !(Trim(cur.originRoom) == Trim(room.value) || Trim(cur.resolveRoom) ==
            Trim(room.value)) then Abort(WrongRoom)
        else if PlayerColor(cur, user).None? then Abort(NotInGame)
        else if PlayerColor(cur, user).value != cur.turn then Abort(NotYourTurn)
        else AppendMove(r, cur, text, now)
      case ResignReq(user, room) =>
        if room.Some? && !InRoom(cur, room.value) then Abort(WrongRoom)
        else Commit(cur.(status := Resigned, winner := OpponentId(cur, user), outcome := "resign", updatedAt := now))
  }

  /** Everything that identifies a game and never changes. */
  predicate SameMatch(g: Game, h: Game) {
    && g.id == h.id && g.whiteId == h.whiteId && g.blackId == h.blackId && g.whiteName == h.whiteName
    && g.blackName == h.blackName && g.originRoom == h.originRoom && g.resolveRoom == h.resolveRoom
    && g.createdAt == h.createdAt
  }

  /** The move texts of `later` start with those of `earlier`. */
  predicate Extends(earlier: Game, later: Game) {
    earlier.movesUci <= later.movesUci && earlier.movesSan <= later.movesSan
  }

  /** The status and result fields agree with the outcome the replayed game has. */
  predicate ResultMatches(r: Rules, g: Game, line: Line) {
    match g.status
    case Active => r.outcome(line) == NoOutcome && g.winner == "" && g.outcome == ""
    case Finished =>
      || (r.outcome(line) == WhiteWon && g.winner == g.whiteId && g.outcome == "white")
      || (r.outcome(line) == BlackWon && g.winner == g.blackId && g.outcome == "black")
    case Draw => r.outcome(line) == Drawn && g.winner == "" && g.outcome == "draw"
    case Resigned => r.outcome(line) == NoOutcome && g.outcome == "resign"
  }

  /** The result fields of a game agree with its status, whatever its log holds. */
  predicate ResultHonest(g: Game) {
    match g.status
    case Active => g.winner == "" && g.outcome == ""
    case Finished => (g.winner == g.whiteId && g.outcome == "white") || (g.winner == g.blackId && g.outcome == "black")
    case Draw => g.winner == "" && g.outcome == "draw"
    case Resigned => g.outcome == "resign"
  }

  /** A stored game is consistent: it replays, and every derived field is the one its move log determines. */
  predicate Consistent(r: Rules, g: Game) {
    && |g.movesUci| == |g.movesSan|
    && Replay(r, g.movesUci).Some?
    && var line := Replay(r, g.movesUci).value;
    && g.turn == Turn(line)
    && g.fen == (if line == [] then "startpos" else r.fen(line))
    && ResultMatches(r, g, line)
  }

  /** The one input the transaction mishandles: a text that decodes as UCI to a move the rules reject. */
  predicate DecodesToIllegal(r: Rules, cur: Game, text: string) {
    && Replay(r, cur.movesUci).Some?
    && var line := Replay(r, cur.movesUci).value;
    && r.decodeUci(line, Lower(Trim(text))).Some?
    && !r.legal(line, r.decodeUci(line, Lower(Trim(text))).value)
  }

  /** `next` adds exactly one legal move of the side to move. */
  ghost predicate AppendsLegalMove(r: Rules, cur: Game, next: Game, user: string) {
    && Replay(r, cur.movesUci).Some? && Replay(r, next.movesUci).Some?
    && var before, after := Replay(r, cur.movesUci).value, Replay(r, next.movesUci).value;
    && PlayerColor(cur, user) == Some(Turn(before))
    && |after| == |before| + 1 && after[..|before|] == before && r.legal(before, after[|before|])
    && next.movesUci == cur.movesUci + [next.movesUci[|cur.movesUci|]]
    && next.movesSan == cur.movesSan + [r.san(before, after[|before|])]
  }

  // ---------------------------------------------------------------- what a commit means

  /** Settling changes position, turn, time and result only, and never makes a resignation. */
  lemma SettleKeeps(r: Rules, g: Game, after: Line, now: int)
    ensures var h := Settle(r, g, after, now);
            && SameMatch(g, h) && h.movesUci == g.movesUci && h.movesSan == g.movesSan
            && h.fen == r.fen(after) && h.turn == Turn(after)
            && (g.status != Resigned ==> h.status != Resigned)
            && (g.status == Active && g.winner == "" && g.outcome == "" ==>
                  ResultMatches(r, h, after) && ResultHonest(h))
  {
  }

  /** What an appended move is made of: its token, the decoded move, and the library's game after it. */
  lemma AppendShape(r: Rules, cur: Game, text: string, now: int)
      returns (line: Line, token: string, m: Move, after: Line)
    requires AppendMove(r, cur, text, now).Commit?
    ensures Replay(r, cur.movesUci) == Some(line)
    ensures AppendMove(r, cur, text, now) ==
            Commit(Settle(r, Appended(cur, token, r.san(line, m)), after, now))
    ensures if r.decodeUci(line, Lower(Trim(text))).Some? then
              && token == Lower(Trim(text)) && r.decodeUci(line, token) == Some(m)
              && after == (if r.legal(line, m) then line + [m] else line)
            else
              token == r.uci(m) && r.legal(line, m) && after == line + [m]
  {
    line := Replay(r, cur.movesUci).value;
    token := Lower(Trim(text));
    if r.decodeUci(line, token).Some? {
      m := r.decodeUci(line, token).value;
      after := if r.legal(line, m) then line + [m] else line;
    } else {
      m := r.decodeSan(line, Trim(text)).value;
      token := r.uci(m);
      after := line + [m];
    }
  }

  /** A committed move comes from an active game, from the player on turn, and adds one entry to each log. */
  lemma MoveCommit(r: Rules, req: Request, oldLen: nat, cur: Game, now: int)
    requires req.MoveReq? && Decide(r, req, oldLen, cur, now).Commit?
    ensures var next := Decide(r, req, oldLen, cur, now).game;
            && cur.status == Active && |cur.movesUci| == oldLen
            && PlayerColor(cur, req.user) == Some(cur.turn)
            && SameMatch(cur, next) && Extends(cur, next)
            && |next.movesUci| == |cur.movesUci| + 1 && |next.movesSan| == |cur.movesSan| + 1
            && Replay(r, cur.movesUci).Some? && next.status != Resigned
  {
    assert Decide(r, req, oldLen, cur, now) == AppendMove(r, cur, req.text, now);
    var line, token, m, after := AppendShape(r, cur, req.text, now);
    SettleKeeps(r, Appended(cur, token, r.san(line, m)), after, now);
  }

  /** A committed resignation ends an active game, leaves the moves alone and names the opponent of a player. */
  lemma ResignCommit(r: Rules, req: Request, oldLen: nat, cur: Game, now: int)
    requires req.ResignReq? && Decide(r, req, oldLen, cur, now).Commit?
    ensures var next := Decide(r, req, oldLen, cur, now).game;
            && cur.status == Active && next.status == Resigned
            && SameMatch(cur, next) && cur.movesUci == next.movesUci && cur.movesSan == next.movesSan
            && cur.fen == next.fen && cur.turn == next.turn && next.outcome == "resign"
            && (cur.whiteId != cur.blackId && cur.whiteId != "" && cur.blackId != "" ==>
                  (Plays(cur, req.user) <==> {req.user, next.winner} == {cur.whiteId, cur.blackId}))
            && (!Plays(cur, req.user) ==> next.winner == "")
  {
    var next := Decide(r, req, oldLen, cur, now).game;
    if {req.user, next.winner} == {cur.whiteId, cur.blackId} {
      assert req.user in {cur.whiteId, cur.blackId};
    }
  }

  /** A commit keeps the result fields honest, also on a game whose log does not replay. */
  lemma CommitKeepsHonest(r: Rules, req: Request, oldLen: nat, cur: Game, now: int)
    requires ResultHonest(cur) && Decide(r, req, oldLen, cur, now).Commit?
    ensures ResultHonest(Decide(r, req, oldLen, cur, now).game)
  {
    if req.MoveReq? {
      assert Decide(r, req, oldLen, cur, now) == AppendMove(r, cur, req.text, now);
      var line, token, m, after := AppendShape(r, cur, req.text, now);
      SettleKeeps(r, Appended(cur, token, r.san(line, m)), after, now);
    }
  }

  /** A fresh game is consistent. */
  lemma FreshConsistent(r: Rules, g: Game)
    requires r.outcome([]) == NoOutcome
    requires g.movesUci == [] && g.movesSan == [] && g.fen == "startpos" && g.turn == White
    requires g.status == Active && g.winner == "" && g.outcome == ""
    ensures Consistent(r, g)
  {
  }

  lemma ReplayOneMore(r: Rules, log: seq<string>, line: Line, token: string)
    requires Replay(r, log) == Some(line)
    ensures Replay(r, log + [token]) == Push(r, line, token)
  {
    assert (log + [token])[..|log + [token]| - 1] == log;
  }

  /** A committed move whose text is not a UCI text for an illegal move. */
  lemma LegalMoveKeepsConsistent(r: Rules, req: Request, oldLen: nat, cur: Game, now: int)
    requires Lawful(r) && Consistent(r, cur)
    requires req.MoveReq? && Decide(r, req, oldLen, cur, now).Commit? && !DecodesToIllegal(r, cur, req.text)
    ensures var next := Decide(r, req, oldLen, cur, now).game;
            Consistent(r, next) && AppendsLegalMove(r, cur, next, req.user)
  {
    assert Decide(r, req, oldLen, cur, now) == AppendMove(r, cur, req.text, now);
    var line, token, m, after := AppendShape(r, cur, req.text, now);
    var g := Appended(cur, token, r.san(line, m));
    SettleKeeps(r, g, after, now);
    ReplayOneMore(r, cur.movesUci, line, token);
    assert after == line + [m] && Push(r, line, token) == Some(after);
    assert after[..|line|] == line;
  }

  /**
   A move committed on a consistent game keeps it consistent, and adds exactly one legal move of the player on turn,
   exactly when its text is not a UCI text for an illegal move.
   */
  lemma MoveKeepsConsistent(r: Rules, req: Request, oldLen: nat, cur: Game, now: int)
    requires Lawful(r) && Consistent(r, cur)
    requires req.MoveReq? && Decide(r, req, oldLen, cur, now).Commit?
    ensures var next := Decide(r, req, oldLen, cur, now).game;
            && (Consistent(r, next) <==> !DecodesToIllegal(r, cur, req.text))
            && (Replay(r, next.movesUci).Some? <==> !DecodesToIllegal(r, cur, req.text))
            && (AppendsLegalMove(r, cur, next, req.user) <==> !DecodesToIllegal(r, cur, req.text))
  {
    if DecodesToIllegal(r, cur, req.text) {
    } else {
      LegalMoveKeepsConsistent(r, req, oldLen, cur, now);
    }
  }

  /** A resignation keeps a consistent game consistent. */
  lemma ResignKeepsConsistent(r: Rules, req: Request, oldLen: nat, cur: Game, now: int)
    requires Consistent(r, cur) && req.ResignReq? && Decide(r, req, oldLen, cur, now).Commit?
    ensures Consistent(r, Decide(r, req, oldLen, cur, now).game)
  {
  }

  // ---------------------------------------------------------------- when a request commits, and what it stores

  /** The transaction can look at the move: an active game, read at its present length, in the room if one is given. */
  predicate OpenToMove(g: Game, oldLen: nat, room: Option<string>) {
    && g.status == Active && |g.movesUci| == oldLen
    && (room.Some? ==> Trim(room.value) in {Trim(g.originRoom), Trim(g.resolveRoom)})
  }

  /** White's id with White on turn, or Black's with Black on turn; a user who is both counts as White. */
  predicate OnTurn(g: Game, user: string) {
    (user == g.whiteId && g.turn == White) || (user == g.blackId && user != g.whiteId && g.turn == Black)
  }

  /** The text is a UCI text here, or else one for a legal move in algebraic notation. */
  predicate NamesMove(r: Rules, line: Line, text: string) {
    && Trim(text) != ""
    && (r.decodeUci(line, Lower(Trim(text))).Some?
        || (r.decodeSan(line, Trim(text)).Some? && r.legal(line, r.decodeSan(line, Trim(text)).value)))
  }

  /** When a move request commits. */
  ghost predicate MoveAllowed(r: Rules, user: string, room: Option<string>, text: string, oldLen: nat, g: Game) {
    && OpenToMove(g, oldLen, room) && OnTurn(g, user)
    && exists line :: ReplaysTo(r, g.movesUci, line) && NamesMove(r, line, text)
  }

  /** The guard that refuses a move request: the first that fails. */
  ghost predicate MoveRefusedFor(
      r: Rules, user: string, room: Option<string>, text: string, oldLen: nat, g: Game, reason: Reason)
  {
    match reason
    case GameGone => false
    case NotActive => g.status != Active
    case StaleLength => g.status == Active && |g.movesUci| != oldLen
    case WrongRoom => g.status == Active && |g.movesUci| == oldLen && !OpenToMove(g, oldLen, room)
    case NotInGame => OpenToMove(g, oldLen, room) && user != g.whiteId && user != g.blackId
    case NotYourTurn => OpenToMove(g, oldLen, room) && user in {g.whiteId, g.blackId} && !OnTurn(g, user)
    case BrokenLog =>
      OpenToMove(g, oldLen, room) && OnTurn(g, user) && forall line :: !ReplaysTo(r, g.movesUci, line)
    case IllegalMove =>
      && OpenToMove(g, oldLen, room) && OnTurn(g, user)
      && exists line :: ReplaysTo(r, g.movesUci, line) && !NamesMove(r, line, text)
  }

  /** The result fields the library's verdict on the game calls for. */
  predicate Concluded(r: Rules, cur: Game, after: Line, next: Game) {
    match r.outcome(after)
    case WhiteWon => next.status == Finished && next.winner == cur.whiteId && next.outcome == "white"
    case BlackWon => next.status == Finished && next.winner == cur.blackId && next.outcome == "black"
    case Drawn => next.status == Draw && next.winner == cur.winner && next.outcome == "draw"
    case NoOutcome => next.status == cur.status && next.winner == cur.winner && next.outcome == cur.outcome
  }

  /** The record stored for move m, entered in the log as `token`; `after` is the library's game. */
  predicate Records(r: Rules, cur: Game, line: Line, m: Move, token: string, after: Line, now: int, next: Game) {
    && SameMatch(cur, next) && Concluded(r, cur, after, next)
    && next.movesUci == cur.movesUci + [token] && next.movesSan == cur.movesSan + [r.san(line, m)]
    && next.fen == r.fen(after) && next.updatedAt == now
    && next.turn == if |after| % 2 == 0 then White else Black
  }

  /** What a committed move stores: the UCI reading of the text if it has one, otherwise the algebraic one. */
  predicate StoresMove(r: Rules, cur: Game, text: string, now: int, line: Line, next: Game) {
    match r.decodeUci(line, Lower(Trim(text)))
    case Some(m) =>
      Records(r, cur, line, m, Lower(Trim(text)), if r.legal(line, m) then line + [m] else line, now, next)
    case None =>
      match r.decodeSan(line, Trim(text))
      case Some(m) => r.legal(line, m) && Records(r, cur, line, m, r.uci(m), line + [m], now, next)
      case None => false
  }

  lemma SettleRecords(r: Rules, cur: Game, line: Line, m: Move, token: string, after: Line, now: int)
    ensures Records(r, cur, line, m, token, after, now, Settle(r, Appended(cur, token, r.san(line, m)), after, now))
  {
  }

  /** Appending on a log that replays to `line`. */
  lemma AppendsIff(r: Rules, cur: Game, text: string, now: int, line: Line)
    requires Replay(r, cur.movesUci) == Some(line)
    ensures AppendMove(r, cur, text, now) ==
            if NamesMove(r, line, text) then Commit(AppendMove(r, cur, text, now).game) else Abort(IllegalMove)
    ensures NamesMove(r, line, text) ==> StoresMove(r, cur, text, now, line, AppendMove(r, cur, text, now).game)
  {
    if r.decodeUci(line, Lower(Trim(text))).Some? {
      var m := r.decodeUci(line, Lower(Trim(text))).value;
      SettleRecords(r, cur, line, m, Lower(Trim(text)), if r.legal(line, m) then line + [m] else line, now);
    } else if r.decodeSan(line, Trim(text)).Some? {
      var m := r.decodeSan(line, Trim(text)).value;
      SettleRecords(r, cur, line, m, r.uci(m), line + [m], now);
    }
  }

  lemma ReplayOnly(r: Rules, log: seq<string>)
    ensures match Replay(r, log)
            case Some(line) => forall other :: ReplaysTo(r, log, other) <==> other == line
            case None => forall other :: !ReplaysTo(r, log, other)
  {
    forall other ensures ReplaysTo(r, log, other) <==> Replay(r, log) == Some(other) {
      ReplayMeans(r, log, other);
    }
  }

  /** Before the log is replayed. */
  lemma MoveGuards(r: Rules, user: string, room: Option<string>, text: string, oldLen: nat, g: Game, now: int)
    ensures var v := Decide(r, MoveReq(user, room, text), oldLen, g, now);
            if OpenToMove(g, oldLen, room) && OnTurn(g, user) then v == AppendMove(r, g, text, now)
            else v.Abort? && MoveRefusedFor(r, user, room, text, oldLen, g, v.reason)
  {
  }

  /** A move request commits exactly when it is allowed, and is refused for the first guard that fails. */
  lemma MoveCommitsIff(r: Rules, user: string, room: Option<string>, text: string, oldLen: nat, g: Game, now: int)
    ensures var v := Decide(r, MoveReq(user, room, text), oldLen, g, now);
            && (v.Commit? <==> MoveAllowed(r, user, room, text, oldLen, g))
            && (v.Abort? ==> MoveRefusedFor(r, user, room, text, oldLen, g, v.reason))
  {
    MoveGuards(r, user, room, text, oldLen, g, now);
    ReplayOnly(r, g.movesUci);
    if Replay(r, g.movesUci).Some? {
      AppendsIff(r, g, text, now, Replay(r, g.movesUci).value);
    }
  }

  /** Each reason excludes the others and the commit. */
  lemma OneVerdict(
      r: Rules, user: string, room: Option<string>, text: string, oldLen: nat, g: Game, a: Reason, b: Reason)
    requires MoveRefusedFor(r, user, room, text, oldLen, g, a)
    ensures MoveRefusedFor(r, user, room, text, oldLen, g, b) ==> a == b
    ensures !MoveAllowed(r, user, room, text, oldLen, g)
  {
    ReplayOnly(r, g.movesUci);
  }

  /** What it stores, whatever game the log replays to. */
  lemma MoveStores(
      r: Rules, user: string, room: Option<string>, text: string, oldLen: nat, g: Game, now: int, line: Line)
    requires MoveAllowed(r, user, room, text, oldLen, g) && ReplaysTo(r, g.movesUci, line)
    ensures var v := Decide(r, MoveReq(user, room, text), oldLen, g, now);
            v.Commit? && StoresMove(r, g, text, now, line, v.game)
  {
    MoveGuards(r, user, room, text, oldLen, g, now);
    ReplayMeans(r, g.movesUci, line);
    ReplayOnly(r, g.movesUci);
    AppendsIff(r, g, text, now, line);
  }

  lemma TurnFlips(line: Line, after: Line)
    requires |after| == |line| + 1
    ensures Turn(after) != Turn(line)
  {
  }

  /** The library's game after a stored move that was legal. */
  lemma StoredIsPlayed(r: Rules, cur: Game, text: string, now: int, line: Line, next: Game) returns (after: Line)
    requires Replay(r, cur.movesUci) == Some(line) && StoresMove(r, cur, text, now, line, next)
    requires !DecodesToIllegal(r, cur, text)
    ensures |after| == |line| + 1 && next.turn == Turn(after)
  {
    match r.decodeUci(line, Lower(Trim(text)))
    case Some(m) => after := line + [m];
    case None => after := line + [r.decodeSan(line, Trim(text)).value];
  }

  /** After a legal move of a consistent game the other player is on turn. */
  lemma TurnPasses(r: Rules, cur: Game, text: string, now: int, line: Line, next: Game)
    requires Consistent(r, cur) && ReplaysTo(r, cur.movesUci, line) && StoresMove(r, cur, text, now, line, next)
    requires !DecodesToIllegal(r, cur, text)
    ensures next.turn != cur.turn
  {
    ReplayMeans(r, cur.movesUci, line);
    var after := StoredIsPlayed(r, cur, text, now, line, next);
    TurnFlips(line, after);
  }

  /** When a resignation commits, and what it stores: everything but the result and the time stays. */
  lemma ResignCommitsIff(r: Rules, user: string, room: Option<string>, oldLen: nat, g: Game, now: int)
    ensures var v := Decide(r, ResignReq(user, room), oldLen, g, now);
            && (v.Commit? <==> g.status == Active && (room.Some? ==> room.value in {g.originRoom, g.resolveRoom}))
            && (v == Abort(NotActive) <==> g.status != Active)
            && (v == Abort(WrongRoom) <==>
                  g.status == Active && room.Some? && room.value != g.originRoom && room.value != g.resolveRoom)
            && (v.Commit? ==> ResignedBy(g, user, now, v.game))
  {
  }

  predicate ResignedBy(g: Game, user: string, now: int, next: Game) {
    && SameMatch(g, next) && next.movesUci == g.movesUci && next.movesSan == g.movesSan
    && next.fen == g.fen && next.turn == g.turn
    && next.status == Resigned && next.outcome == "resign" && next.updatedAt == now
    && (user == g.whiteId ==> next.winner == g.blackId)
    && (user == g.blackId && user != g.whiteId ==> next.winner == g.whiteId)
    && (user != g.whiteId && user != g.blackId ==> next.winner == "")
  }
}
