/** The PvP manager as one client runs it, without interference: the game store and the per-user index of game ids. */
module PvpManager {
  import opened Options
  import opened Text
  import opened ChessRules
  import opened PvpGame
  import opened PvpSequential

  type Index = map<string, set<string>>

  function IdsOf(index: Index, user: string): set<string> {
    if user in index then index[user] else {}
  }

  /** SADD of one id under a user; blank users are not indexed. */
  function Indexed(index: Index, user: string, id: string): Index {
    if Trim(user) == "" then index else index[Trim(user) := IdsOf(index, Trim(user)) + {id}]
  }

  /** The index lists, for every user, exactly the games that user plays. */
  ghost predicate IndexExact(games: Games, index: Index) {
    forall u, id :: u != "" ==> (id in IdsOf(index, u) <==> id in games && Plays(games[id], u))
  }

  predicate TrimmedPlayers(games: Games) {
    forall id :: id in games ==> Trimmed(games[id].whiteId) && Trimmed(games[id].blackId)
  }

  /** A game the search for this user and room may return. */
  predicate Qualifies(g: Game, user: string, room: Option<string>) {
    Plays(g, Trim(user)) && Selectable(g, room)
  }

  /** Arguments that are blank after trimming find nothing. */
  predicate BlankSearch(user: string, room: Option<string>) {
    Trim(user) == "" || (room.Some? && Trim(room.value) == "")
  }

  /** Full scan: some stored game qualifies. */
  predicate Busy(games: Games, user: string, room: Option<string>) {
    !BlankSearch(user, room) && exists id :: id in games && Qualifies(games[id], user, room)
  }

  /** The result of a search is a most recently updated qualifying game, or nothing exactly when none qualifies. */
  predicate SearchResult(games: Games, user: string, room: Option<string>, found: Option<Game>) {
    && (found.None? <==> !Busy(games, user, room))
    && (found.Some? ==>
          && found.value.id in games && games[found.value.id] == found.value && Qualifies(found.value, user, room)
          && forall id :: id in games && Qualifies(games[id], user, room) ==>
              games[id].updatedAt <= found.value.updatedAt)
  }

  /** What a search looks for: an active game of this user, in this room if one is given, neither of them blank. */
  predicate Sought(g: Game, user: string, room: Option<string>) {
    && g.status == Active && Trim(user) != "" && (Trim(user) == g.whiteId || Trim(user) == g.blackId)
    && (room.Some? ==>
          Trim(room.value) != "" && (Trim(room.value) == g.originRoom || Trim(room.value) == g.resolveRoom))
  }

  /** A search result in those terms. */
  lemma SearchFinds(games: Games, user: string, room: Option<string>, found: Option<Game>)
    requires SearchResult(games, user, room, found)
    ensures found.None? <==> forall id :: id in games ==> !Sought(games[id], user, room)
    ensures found.Some? ==>
              && found.value.id in games && games[found.value.id] == found.value && Sought(found.value, user, room)
              && forall id :: id in games && Sought(games[id], user, room) ==>
                   games[id].updatedAt <= found.value.updatedAt
  {
    forall id | id in games
      ensures Sought(games[id], user, room) <==> !BlankSearch(user, room) && Qualifies(games[id], user, room)
    {
    }
  }

  /** Storing a later value of the same match changes neither the players nor the index. */
  lemma RewriteKeepsIndex(games: Games, index: Index, g: Game)
    requires IndexExact(games, index) && TrimmedPlayers(games) && Keyed(games)
    requires g.id in games && SameMatch(games[g.id], g)
    ensures IndexExact(games[g.id := g], index) && TrimmedPlayers(games[g.id := g]) && Keyed(games[g.id := g])
  {
  }

  /** Storing a new game and indexing both players keeps the index exact. */
  lemma CreateKeepsIndex(games: Games, index: Index, g: Game)
    requires IndexExact(games, index) && TrimmedPlayers(games) && Keyed(games)
    requires g.id !in games && Trimmed(g.whiteId) && Trimmed(g.blackId)
    ensures IndexExact(games[g.id := g], Indexed(Indexed(index, g.whiteId, g.id), g.blackId, g.id))
    ensures TrimmedPlayers(games[g.id := g]) && Keyed(games[g.id := g])
  {
    var games', index' := games[g.id := g], Indexed(Indexed(index, g.whiteId, g.id), g.blackId, g.id);
    forall u, id | u != ""
      ensures id in IdsOf(index', u) <==> id in games' && Plays(games'[id], u)
    {
      assert id in IdsOf(index, u) <==> id in games && Plays(games[id], u);
    }
  }

  /** NewGame has the shape of a new game whatever its arguments. */
  lemma NewGameIsNew(id: string, origin: string, resolve: string, challenger: string, challengerName: string,
                     target: string, targetName: string, choice: ColorChoice, coin: bool, now: int)
    ensures var g := NewGame(id, origin, resolve, challenger, challengerName, target, targetName, choice, coin, now);
            && IsNew(g) && g.id == id && {g.whiteId, g.blackId} == {Trim(challenger), Trim(target)}
            && g.originRoom == Trim(origin) && g.resolveRoom == Trim(resolve)
            && (choice == ChooseWhite ==> g.whiteId == Trim(challenger))
            && (choice == ChooseBlack ==> g.blackId == Trim(challenger))
  {
    TrimTwice(challenger);
    TrimTwice(target);
    TrimTwice(origin);
    TrimTwice(resolve);
  }

  /** Challenger and target sit as chosen, each with their own name; a random choice follows the coin. */
  lemma NewGameSeats(id: string, origin: string, resolve: string, challenger: string, challengerName: string,
                     target: string, targetName: string, choice: ColorChoice, coin: bool, now: int)
    ensures var g := NewGame(id, origin, resolve, challenger, challengerName, target, targetName, choice, coin, now);
            && g.createdAt == now && g.updatedAt == now
            && (choice == ChooseWhite || (choice == ChooseRandom && !coin) ==>
                  && g.whiteId == Trim(challenger) && g.whiteName == Trim(challengerName)
                  && g.blackId == Trim(target) && g.blackName == Trim(targetName))
            && (choice == ChooseBlack || (choice == ChooseRandom && coin) ==>
                  && g.whiteId == Trim(target) && g.whiteName == Trim(targetName)
                  && g.blackId == Trim(challenger) && g.blackName == Trim(challengerName))
  {
  }

  /** What one command answered; `NoGame` stands for the nil game the source returns with no message. */
  datatype Answer = NoGame | Rejected(reason: Reason) | Applied(game: Game)

  class Manager {
    const rules: Rules
    var games: Games
    var index: Index

    ghost predicate Valid()
      reads this
    {
      Keyed(games) && TrimmedPlayers(games) && IndexExact(games, index)
    }

    constructor (rules: Rules)
      ensures Valid() && this.rules == rules && games == map[] && index == map[]
    {
      this.rules := rules;
      games := map[];
      index := map[];
    }

    /** Saves the new game, then indexes both players. */
    method CreateGameFromChallenge(
        id: string, origin: string, resolve: string, challenger: string, challengerName: string,
        target: string, targetName: string, choice: ColorChoice, coin: bool, now: int)
      returns (g: Option<Game>)
      requires Valid() && id !in games
      modifies this
      ensures Valid()
      ensures g.None? <==> challenger == "" || target == ""
      ensures g.None? ==> games == old(games) && index == old(index)
      ensures g.Some? ==>
                && g.value == NewGame(id, origin, resolve, challenger, challengerName, target, targetName, choice,
                    coin, now)
                && IsNew(g.value) && games == old(games)[id := g.value]
                && g.value.originRoom == Trim(origin) && g.value.resolveRoom == Trim(resolve)
                && g.value.createdAt == now && g.value.updatedAt == now
                && index == Indexed(Indexed(old(index), g.value.whiteId, id), g.value.blackId, id)
      ensures g.Some? && (choice == ChooseWhite || (choice == ChooseRandom && !coin)) ==>
                && g.value.whiteId == Trim(challenger) && g.value.whiteName == Trim(challengerName)
                && g.value.blackId == Trim(target) && g.value.blackName == Trim(targetName)
      ensures g.Some? && (choice == ChooseBlack || (choice == ChooseRandom && coin)) ==>
                && g.value.whiteId == Trim(target) && g.value.whiteName == Trim(targetName)
                && g.value.blackId == Trim(challenger) && g.value.blackName == Trim(challengerName)
    {
      if challenger == "" || target == "" {
        return None;
      }
      var white, whiteName := challenger, challengerName;
      var black, blackName := target, targetName;
      match choice {
        case ChooseWhite =>
        case ChooseBlack => white, whiteName, black, blackName := target, targetName, challenger, challengerName;
        case ChooseRandom =>
          if coin {
            white, whiteName, black, blackName := target, targetName, challenger, challengerName;
          }
      }
      var game := Game(id, "startpos", [], [], White, Active, Trim(white), Trim(whiteName), Trim(black),
          Trim(blackName),
                       Trim(origin), Trim(resolve), now, now, "", "");
      NewGameIsNew(id, origin, resolve, challenger, challengerName, target, targetName, choice, coin, now);
      NewGameSeats(id, origin, resolve, challenger, challengerName, target, targetName, choice, coin, now);
      CreateKeepsIndex(games, index, game);
      games := games[id := game];
      index := Indexed(index, game.whiteId, id);
      index := Indexed(index, game.blackId, id);
      g := Some(game);
    }

    /** GetActiveGameByUser (no room) and GetActiveGameByUserInRoom: collects through the index, keeps the latest. */
    method GetActiveGame(user: string, room: Option<string>) returns (found: Option<Game>)
      requires Valid()
      ensures SearchResult(games, user, room, found)
      ensures found.None? <==> forall id :: id in games ==> !Sought(games[id], user, room)
      ensures found.Some? ==> Sought(found.value, user, room) && found.value.id in games
      ensures found.Some? ==>
                forall id :: id in games && Sought(games[id], user, room) ==>
                  games[id].updatedAt <= found.value.updatedAt
    {
      found := Search(user, room);
      SearchFinds(games, user, room, found);
    }

    method Search(user: string, room: Option<string>) returns (found: Option<Game>)
      requires Valid()
      ensures SearchResult(games, user, room, found)
    {
      found := None;
      if Trim(user) == "" || (room.Some? && Trim(room.value) == "") {
        return;
      }
      var todo := IdsOf(index, Trim(user));
      while todo != {}
        invariant todo <= IdsOf(index, Trim(user))
        invariant found.Some? ==>
                    found.value.id in games && games[found.value.id] == found.value
                        && Qualifies(found.value, user, room)
        invariant forall id :: id in IdsOf(index, Trim(user)) - todo && Qualifies(games[id], user, room) ==>
                    found.Some? && games[id].updatedAt <= found.value.updatedAt
        decreases todo
      {
        var id :| id in todo;
        todo := todo - {id};
        var g := games[id];
        if Selectable(g, room) && (found.None? || found.value.updatedAt < g.updatedAt) {
          found := Some(g);
        }
      }
    }

    /** Rebuilds a game from its log, one token at a time. */
    method Reconstruct(log: seq<string>) returns (game: Option<Line>)
      ensures game == Replay(rules, log)
    {
      var line: Line := [];
      for i := 0 to |log|
        invariant Replay(rules, log[..i]) == Some(line)
      {
        assert log[..i + 1][..i] == log[..i];
        var m := rules.decodeUci(line, log[i]);
        if m.None? || !rules.legal(line, m.value) {
          ReplayPrefix(rules, log[..i + 1], log[i + 1..]);
          assert log == log[..i + 1] + log[i + 1..];
          return None;
        }
        line := line + [m.value];
      }
      assert log[..|log|] == log;
      return Some(line);
    }

    /** The body of the move transaction: reads a copy of the game and changes its fields one by one. */
    method MoveTransaction(user: string, room: Option<string>, text: string, oldLen: nat, stored: Game, now: int)
      returns (v: Verdict)
      ensures v == Decide(rules, MoveReq(user, room, text), oldLen, stored, now)
      ensures v.Commit? <==> MoveAllowed(rules, user, room, text, oldLen, stored)
      ensures v.Abort? ==> MoveRefusedFor(rules, user, room, text, oldLen, stored, v.reason)
      ensures v.Commit? ==>
                forall line :: ReplaysTo(rules, stored.movesUci, line) ==>
                  StoresMove(rules, stored, text, now, line, v.game)
    {
      v := RunMove(user, room, text, oldLen, stored, now);
      MoveCommitsIff(rules, user, room, text, oldLen, stored, now);
      forall line | v.Commit? && ReplaysTo(rules, stored.movesUci, line)
        ensures StoresMove(rules, stored, text, now, line, v.game)
      {
        MoveStores(rules, user, room, text, oldLen, stored, now, line);
      }
    }

    method RunMove(user: string, room: Option<string>, text: string, oldLen: nat, stored: Game, now: int)
      returns (v: Verdict)
      ensures v == Decide(rules, MoveReq(user, room, text), oldLen, stored, now)
    {
      var cur := stored;
      if cur.status != Active {
        return Abort(NotActive);
      }
      if |cur.movesUci| != oldLen {
        return Abort(StaleLength);
      }
      if room.Some? && !(Trim(cur.originRoom) == Trim(room.value) || Trim(cur.resolveRoom) == Trim(room.value)) {
        return Abort(WrongRoom);
      }
      var color := PlayerColor(cur, user);
      if color == None {
        return Abort(NotInGame);
      }
      if (cur.turn == White && color != Some(White)) || (cur.turn == Black && color != Some(Black)) {
        return Abort(NotYourTurn);
      }
      var rebuilt := Reconstruct(cur.movesUci);
      if rebuilt == None {
        return Abort(BrokenLog);
      }
      var pos := rebuilt.value;
      var game := pos;
      var raw := Trim(text);
      var uci := Lower(raw);
      if uci == "" {
        return Abort(IllegalMove);
      }
      var mv := rules.decodeUci(pos, uci);
      if mv.Some? {
        if rules.legal(game, mv.value) {
          game := game + [mv.value];
        }
        cur := cur.(movesUci := cur.movesUci + [uci]);
        cur := cur.(movesSan := cur.movesSan + [rules.san(pos, mv.value)]);
      } else {
        mv := rules.decodeSan(pos, raw);
        if mv.None? || !rules.legal(game, mv.value) {
          return Abort(IllegalMove);
        }
        game := game + [mv.value];
        cur := cur.(movesSan := cur.movesSan + [rules.san(pos, mv.value)]);
        cur := cur.(movesUci := cur.movesUci + [rules.uci(mv.value)]);
      }
      cur := cur.(fen := rules.fen(game));
      cur := cur.(turn := Turn(game));
      cur := cur.(updatedAt := now);
      match rules.outcome(game) {
        case WhiteWon => cur := cur.(status := Finished, winner := cur.whiteId, outcome := "white");
        case BlackWon => cur := cur.(status := Finished, winner := cur.blackId, outcome := "black");
        case Drawn => cur := cur.(status := Draw, outcome := "draw");
        case NoOutcome =>
      }
      return Commit(cur);
    }

    /** PlayMove and PlayMoveByRoom. The store changes exactly as the sequential machine says for the game that was
        found. */
    method PlayMove(user: string, room: Option<string>, text: string, now: int) returns (a: Answer, id: string)
      requires Valid()
      modifies this
      ensures Valid() && index == old(index)
      ensures a.NoGame? <==> !Busy(old(games), user, room)
      ensures !a.NoGame? ==> id in old(games) && SearchResult(old(games), user, room, Some(old(games)[id]))
      ensures games == if a.NoGame? then
          old(games) else SeqStep(rules, old(games), Apply(id, MoveReq(user, room, text), now))
      ensures a.Applied? ==> games == old(games)[id := a.game] && |a.game.movesUci| == |old(games)[id].movesUci| + 1
      ensures a.Rejected? ==> games == old(games)
      ensures a.NoGame? <==> forall k :: k in old(games) ==> !Sought(old(games)[k], user, room)
      ensures !a.NoGame? ==> Sought(old(games)[id], user, room)
      ensures a.Applied? <==>
              && !a.NoGame?
              && MoveAllowed(rules, user, room, text, |old(games)[id].movesUci|, old(games)[id])
      ensures a.Rejected? ==>
                MoveRefusedFor(rules, user, room, text, |old(games)[id].movesUci|, old(games)[id], a.reason)
      ensures a.Applied? ==>
                forall line :: ReplaysTo(rules, old(games)[id].movesUci, line) ==>
                  StoresMove(rules, old(games)[id], text, now, line, a.game)
    {
      a, id := NoGame, "";
      var g := GetActiveGame(user, room);
      if g == None {
        return;
      }
      id := g.value.id;
      var v := MoveTransaction(user, room, text, |g.value.movesUci|, games[id], now);
      match v {
        case Abort(reason) => a := Rejected(reason);
        case Commit(next) =>
          MoveCommit(rules, MoveReq(user, room, text), |g.value.movesUci|, games[id], now);
          RewriteKeepsIndex(games, index, next);
          games := games[id := next];
          a := Applied(next);
      }
    }

    /** Resign and ResignByRoom. */
    method Resign(user: string, room: Option<string>, now: int) returns (a: Answer, id: string)
      requires Valid()
      modifies this
      ensures Valid() && index == old(index)
      ensures a.NoGame? <==> !Busy(old(games), user, room)
      ensures !a.NoGame? ==> id in old(games) && SearchResult(old(games), user, room, Some(old(games)[id]))
      ensures games == if a.NoGame? then
          old(games) else SeqStep(rules, old(games), Apply(id, ResignReq(user, room), now))
      ensures a.Applied? ==> games == old(games)[id := a.game] && a.game.movesUci == old(games)[id].movesUci
      ensures a.Rejected? <==> !a.NoGame? && room.Some? && !InRoom(old(games)[id], room.value)
      ensures a.NoGame? <==> forall k :: k in old(games) ==> !Sought(old(games)[k], user, room)
      ensures a.Applied? <==>
              && !a.NoGame?
              && (room.Some? ==> room.value in {old(games)[id].originRoom, old(games)[id].resolveRoom})
      ensures a.Rejected? ==> a.reason == WrongRoom
      ensures a.Applied? ==> Sought(old(games)[id], user, room) && ResignedBy(old(games)[id], user, now, a.game)
    {
      a, id := NoGame, "";
      var g := GetActiveGame(user, room);
      if g == None {
        return;
      }
      id := g.value.id;
      var cur := games[id];
      ResignCommitsIff(rules, user, room, 0, cur, now);
      if cur.status != Active {
        return Rejected(NotActive), id;
      }
      if room.Some? && !(cur.originRoom == room.value || cur.resolveRoom == room.value) {
        return Rejected(WrongRoom), id;
      }
      cur := cur.(status := Resigned);
      cur := cur.(winner := OpponentId(cur, user));
      cur := cur.(outcome := "resign");
      cur := cur.(updatedAt := now);
      ResignCommit(rules, ResignReq(user, room), 0, games[id], now);
      RewriteKeepsIndex(games, index, cur);
      games := games[id := cur];
      a := Applied(cur);
    }
  }
}
