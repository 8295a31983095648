/** What Make and Join answer and write, field by field, and what a channel's sets hold after any run of commands. */
module ChannelContents {
  import opened ChannelState
  import opened ChessRules
  import opened Options
  import opened PvpGame
  import opened PvpManager
  import opened PvpSequential
  import opened Text

  // ---------------------------------------------------------------- the searches, spelt out

  /** The user has an active game in the room; a blank user or room has none. */
  ghost predicate PlaysIn(games: Games, user: string, room: string) {
    exists id :: id in games && Sought(games[id], user, Some(room))
  }

  lemma BusyMeans(games: Games, user: string, room: string)
    ensures Busy(games, user, Some(room)) <==> PlaysIn(games, user, room)
  {
    forall id | id in games
      ensures Sought(games[id], user, Some(room)) <==>
              !BlankSearch(user, Some(room)) && Qualifies(games[id], user, Some(room))
    {
    }
  }

  /** The user has a waiting lobby. */
  ghost predicate Waits(s: State, user: string) {
    exists c :: c in s.metas && s.metas[c].status == Lobby && Trim(s.metas[c].creatorId) == Trim(user)
  }

  lemma HasLobbyMeans(s: State, user: string)
    requires Inv(s)
    ensures HasLobby(s, user) <==> Waits(s, user)
  {
    forall c | c in s.metas ensures c in Members(s.userIdx, Trim(s.metas[c].creatorId)) {
      assert ChannelOk(s, c);
    }
  }

  /** The first code of the list that is not taken. */
  predicate FreeAt(metas: map<string, Meta>, codes: seq<string>, i: nat) {
    i < |codes| && codes[i] !in metas && forall j :: 0 <= j < i ==> codes[j] in metas
  }

  ghost predicate FreeCode(metas: map<string, Meta>, codes: seq<string>, code: string) {
    exists i: nat :: FreeAt(metas, codes, i) && codes[i] == code
  }

  lemma {:induction false} FirstFreeMeans(metas: map<string, Meta>, codes: seq<string>)
    ensures match FirstFree(metas, codes)
            case None => forall code :: code in codes ==> code in metas
            case Some(c) => FreeCode(metas, codes, c)
  {
    if codes != [] {
      if codes[0] !in metas {
        assert FreeAt(metas, codes, 0);
      } else {
        FirstFreeMeans(metas, codes[1..]);
        assert codes == [codes[0]] + codes[1..];
        if FirstFree(metas, codes[1..]).Some? {
          var i: nat :| FreeAt(metas, codes[1..], i) && codes[1..][i] == FirstFree(metas, codes).value;
          forall j | 0 <= j < i + 1 ensures codes[j] in metas {
            assert j > 0 ==> codes[1..][j - 1] == codes[j];
          }
          assert FreeAt(metas, codes, i + 1) && codes[i + 1] == codes[1..][i];
        }
      }
    }
  }

  // ---------------------------------------------------------------- one command

  /** The user and the room are added to the channel's sets and the channel to the user's; no other set changes. */
  ghost predicate Admits(s: State, t: State, code: string, room: string, user: string) {
    && (forall c :: Members(t.rooms, c) == Members(s.rooms, c) + if c == code then {room} else {})
    && (forall c :: Members(t.parts, c) == Members(s.parts, c) + if c == code then {user} else {})
    && (forall u :: Members(t.userIdx, u) == Members(s.userIdx, u) + if u == Trim(user) then {code} else {})
  }

  /** Nothing but those sets has changed. */
  predicate RecordsStay(s: State, t: State) {
    t.games == s.games && t.index == s.index && t.metas == s.metas && t.lobby == s.lobby
  }

  predicate CreatorNamed(room: string, user: string) {
    Trim(room) != "" && Trim(user) != ""
  }

  ghost predicate MakeAnswered(
      s: State, t: State, room: string, user: string, name: string, codes: seq<string>, reply: MakeReply)
  {
    match reply
    case Made(c) =>
      && CreatorNamed(room, user) && !PlaysIn(s.games, user, room) && !Waits(s, user)
      && FreeCode(s.metas, codes, c)
      && Admits(s, t, c, room, user) && t.games == s.games && t.index == s.index && t.lobby == s.lobby + {c}
      && t.metas == s.metas[c := Meta(c, Lobby, user, name, room, "", "", "", "", "")]
    case MakeFailed(e) =>
      && t == s
      && match e
         case InvalidArgs => !CreatorNamed(room, user)
         case PlayerBusyInRoom => CreatorNamed(room, user) && PlaysIn(s.games, user, room)
         case CreatorHasLobby => CreatorNamed(room, user) && !PlaysIn(s.games, user, room) && Waits(s, user)
         case NoFreeCode =>
           && CreatorNamed(room, user) && !PlaysIn(s.games, user, room) && !Waits(s, user)
           && forall code :: code in codes ==> code in s.metas
         case _ => false
  }

  lemma OpenAdmits(s: State, code: string, room: string, user: string, name: string)
    ensures Admits(s, Open(s, code, room, user, name), code, room, user)
  {
  }

  lemma EnterAdmits(s: State, code: string, room: string, user: string)
    ensures Admits(s, Enter(s, code, room, user), code, room, user)
  {
  }

  /** Make, with every refusal. */
  lemma MakeMeans(s: State, room: string, user: string, name: string, codes: seq<string>)
    requires Inv(s)
    ensures var (t, reply) := MakeSpec(s, room, user, name, codes);
            MakeAnswered(s, t, room, user, name, codes, reply)
  {
    BusyMeans(s.games, user, room);
    HasLobbyMeans(s, user);
    FirstFreeMeans(s.metas, codes);
    match FirstFree(s.metas, codes)
    case None =>
    case Some(c) => OpenAdmits(s, c, room, user, name);
  }

  predicate JoinerNamed(room: string, code: string, user: string) {
    room != "" && code != "" && user != ""
  }

  /** A waiting channel with fewer than two participants. */
  predicate HasRoom(s: State, code: string) {
    code in s.metas && s.metas[code].status == Lobby && |Members(s.parts, code)| < 2
  }

  /** The joiner or the creator has an active game in the room they come from. */
  ghost predicate SomeoneBusy(s: State, code: string, room: string, user: string)
    requires code in s.metas
  {
    PlaysIn(s.games, user, room) || PlaysIn(s.games, s.metas[code].creatorId, s.metas[code].creatorRoom)
  }

  /** The two players, each with their own name, in the colours the coin gave them. */
  predicate Seated(g: Game, m: Meta, user: string, name: string, coin: bool) {
    if coin then
      && g.whiteId == Trim(user) && g.whiteName == Trim(name)
      && g.blackId == Trim(m.creatorId) && g.blackName == Trim(m.creatorName)
    else
      && g.whiteId == Trim(m.creatorId) && g.whiteName == Trim(m.creatorName)
      && g.blackId == Trim(user) && g.blackName == Trim(name)
  }

  /** A new game of the channel is stored and entered in its record, and the channel no longer waits. */
  predicate GameStarted(
      s: State, t: State, code: string, room: string, user: string, name: string, gameId: string, coin: bool, now: int)
    requires code in s.metas
  {
    var m := s.metas[code];
    && gameId in t.games
    && var g := t.games[gameId];
    && t.games == s.games[gameId := g] && g.id == gameId && IsNew(g) && Seated(g, m, user, name, coin)
    && g.originRoom == Trim(m.creatorRoom) && g.resolveRoom == Trim(room) && g.createdAt == now && g.updatedAt == now
    && t.index == Indexed(Indexed(s.index, g.whiteId, gameId), g.blackId, gameId)
    && t.lobby == s.lobby - {code}
    && t.metas == s.metas[code := Meta(m.code, Running, m.creatorId, m.creatorName, m.creatorRoom, g.whiteId,
                                       g.whiteName, g.blackId, g.blackName, gameId)]
  }

  ghost predicate JoinAnswered(
      s: State, t: State, room: string, rawCode: string, user: string, name: string, gameId: string, coin: bool,
      now: int, reply: JoinReply)
  {
    var code := Trim(rawCode);
    match reply
    case Started(id) =>
      && id == gameId && JoinerNamed(room, code, user) && HasRoom(s, code) && Admits(s, t, code, room, user)
      && |Members(s.parts, code) + {user}| >= 2 && !SomeoneBusy(s, code, room, user)
      && GameStarted(s, t, code, room, user, name, gameId, coin, now)
    case Queued =>
      && JoinerNamed(room, code, user) && HasRoom(s, code) && Admits(s, t, code, room, user) && RecordsStay(s, t)
      && |Members(s.parts, code) + {user}| < 2
    case JoinFailed(e) =>
      match e
      case InvalidArgs => t == s && !JoinerNamed(room, code, user)
      case ChannelGone => t == s && JoinerNamed(room, code, user) && code !in s.metas
      case ChannelActive =>
        t == s && JoinerNamed(room, code, user) && code in s.metas && s.metas[code].status != Lobby
      case Full =>
        && t == s && JoinerNamed(room, code, user) && code in s.metas && s.metas[code].status == Lobby
        && |Members(s.parts, code)| >= 2
      case PlayerBusyInRoom =>
        && JoinerNamed(room, code, user) && HasRoom(s, code) && Admits(s, t, code, room, user) && RecordsStay(s, t)
        && |Members(s.parts, code) + {user}| >= 2 && SomeoneBusy(s, code, room, user)
      case _ => false
  }

  lemma LaunchStarts(
      s: State, code: string, room: string, user: string, name: string, gameId: string, coin: bool, now: int)
    requires code in s.metas
    ensures var g := ChannelGame(s.metas[code], room, user, name, gameId, coin, now);
            var t := Launch(Enter(s, code, room, user), code, g);
            GameStarted(s, t, code, room, user, name, gameId, coin, now) && Admits(s, t, code, room, user)
  {
    var m := s.metas[code];
    NewGameIsNew(gameId, m.creatorRoom, room, m.creatorId, m.creatorName, user, name, ChooseRandom, coin, now);
    NewGameSeats(gameId, m.creatorRoom, room, m.creatorId, m.creatorName, user, name, ChooseRandom, coin, now);
    EnterAdmits(s, code, room, user);
  }

  /** Past the check that the channel is not full. */
  lemma EnterMeans(
      s: State, code: string, room: string, user: string, name: string, gameId: string, coin: bool, now: int)
    requires code in s.metas && s.metas[code].gameId == ""
    ensures var g := ChannelGame(s.metas[code], room, user, name, gameId, coin, now);
            var (t, reply) := EnterSpec(s, code, room, user, g);
            && Admits(s, t, code, room, user)
            && (if |Members(s.parts, code) + {user}| < 2 then RecordsStay(s, t) && reply == Queued
                else if SomeoneBusy(s, code, room, user) then
                  RecordsStay(s, t) && reply == JoinFailed(PlayerBusyInRoom)
                else GameStarted(s, t, code, room, user, name, gameId, coin, now) && reply == Started(gameId))
  {
    BusyMeans(s.games, user, room);
    BusyMeans(s.games, s.metas[code].creatorId, s.metas[code].creatorRoom);
    EnterAdmits(s, code, room, user);
    LaunchStarts(s, code, room, user, name, gameId, coin, now);
  }

  /** Join, with every refusal. */
  lemma JoinMeans(
      s: State, room: string, rawCode: string, user: string, name: string, gameId: string, coin: bool, now: int)
    requires Inv(s)
    ensures var (t, reply) := JoinSpec(s, room, rawCode, user, name, gameId, coin, now);
            JoinAnswered(s, t, room, rawCode, user, name, gameId, coin, now, reply)
  {
    var code := Trim(rawCode);
    if code in s.metas && s.metas[code].status == Lobby {
      assert ChannelOk(s, code);
      EnterMeans(s, code, room, user, name, gameId, coin, now);
    }
  }

  /** What every answer says about the sets. */
  lemma AnswerAdmits(
      s: State, t: State, room: string, rawCode: string, user: string, name: string, gameId: string, coin: bool,
      now: int, reply: JoinReply)
    requires JoinAnswered(s, t, room, rawCode, user, name, gameId, coin, now, reply)
    ensures if JoinerNamed(room, Trim(rawCode), user) && HasRoom(s, Trim(rawCode)) then
              Admits(s, t, Trim(rawCode), room, user)
            else SetsStay(s, t)
  {
  }

  // ---------------------------------------------------------------- whole runs

  /** The command makes this channel, or joins it and passes the check that it is not full. */
  ghost predicate Enters(s: State, cmd: Command, code: string, user: string, room: string) {
    match cmd
    case Make(r, u, _, codes) =>
      && u == user && r == room && CreatorNamed(r, u) && !PlaysIn(s.games, u, r) && !Waits(s, u)
      && FreeCode(s.metas, codes, code)
    case Join(r, raw, u, _, gameId, _, _) =>
      && u == user && r == room && Trim(raw) == code && JoinerNamed(r, code, u) && HasRoom(s, code)
      && IsGameId(gameId) && gameId !in s.games
    case Play(_, _, _) => false
  }

  ghost predicate EntersAt(r: Rules, cmds: seq<Command>, i: nat, code: string, user: string, room: string) {
    i < |cmds| && Enters(RunAll(r, cmds[..i]), cmds[i], code, user, room)
  }

  lemma OneFree(metas: map<string, Meta>, codes: seq<string>, a: string, b: string)
    requires FreeCode(metas, codes, a) && FreeCode(metas, codes, b)
    ensures a == b
  {
    var i: nat :| FreeAt(metas, codes, i) && codes[i] == a;
    var j: nat :| FreeAt(metas, codes, j) && codes[j] == b;
    assert i == j;
  }

  /** This command enters the channel so, and none other. */
  ghost predicate OnlyEntry(s: State, cmd: Command, code: string, user: string, room: string) {
    forall c, u, x :: Enters(s, cmd, c, u, x) <==> c == code && u == user && x == room
  }

  ghost predicate NoEntry(s: State, cmd: Command) {
    forall c, u, x :: !Enters(s, cmd, c, u, x)
  }

  predicate SetsStay(s: State, t: State) {
    t.rooms == s.rooms && t.parts == s.parts && t.userIdx == s.userIdx
  }

  /** A command adds to the sets what it enters, and nothing else. */
  ghost predicate AddsEntries(s: State, t: State, cmd: Command) {
    || (SetsStay(s, t) && NoEntry(s, cmd))
    || exists code, user, room :: Admits(s, t, code, room, user) && OnlyEntry(s, cmd, code, user, room)
  }

  lemma MakeAdds(r: Rules, s: State, room: string, user: string, name: string, codes: seq<string>)
    requires Inv(s)
    ensures AddsEntries(s, Do(r, s, Make(room, user, name, codes)), Make(room, user, name, codes))
  {
    MakeMeans(s, room, user, name, codes);
    var (t, reply) := MakeSpec(s, room, user, name, codes);
    var cmd := Make(room, user, name, codes);
    if reply.Made? {
      forall c | FreeCode(s.metas, codes, c) ensures c == reply.code {
        OneFree(s.metas, codes, c, reply.code);
      }
      assert OnlyEntry(s, cmd, reply.code, user, room);
    } else {
      forall c ensures reply.error.NoFreeCode? ==> !FreeCode(s.metas, codes, c) {
      }
      assert NoEntry(s, cmd);
    }
  }

  lemma JoinEnters(s: State, cmd: Command)
    requires cmd.Join?
    ensures if JoinerNamed(cmd.room, Trim(cmd.code), cmd.user) && HasRoom(s, Trim(cmd.code))
               && IsGameId(cmd.gameId) && cmd.gameId !in s.games
            then OnlyEntry(s, cmd, Trim(cmd.code), cmd.user, cmd.room)
            else NoEntry(s, cmd)
  {
  }

  lemma JoinAdds(r: Rules, s: State, cmd: Command)
    requires Inv(s) && cmd.Join?
    ensures AddsEntries(s, Do(r, s, cmd), cmd)
  {
    JoinEnters(s, cmd);
    if IsGameId(cmd.gameId) && cmd.gameId !in s.games {
      var (t, reply) := JoinSpec(s, cmd.room, cmd.code, cmd.user, cmd.name, cmd.gameId, cmd.coin, cmd.now);
      JoinMeans(s, cmd.room, cmd.code, cmd.user, cmd.name, cmd.gameId, cmd.coin, cmd.now);
      AnswerAdmits(s, t, cmd.room, cmd.code, cmd.user, cmd.name, cmd.gameId, cmd.coin, cmd.now, reply);
      EitherAdds(s, t, cmd);
    }
  }

  lemma EitherAdds(s: State, t: State, cmd: Command)
    requires cmd.Join? && IsGameId(cmd.gameId) && cmd.gameId !in s.games
    requires if JoinerNamed(cmd.room, Trim(cmd.code), cmd.user) && HasRoom(s, Trim(cmd.code)) then
               Admits(s, t, Trim(cmd.code), cmd.room, cmd.user)
             else SetsStay(s, t)
    ensures AddsEntries(s, t, cmd)
  {
    JoinEnters(s, cmd);
  }

  lemma DoAdds(r: Rules, s: State, cmd: Command)
    requires Inv(s)
    ensures AddsEntries(s, Do(r, s, cmd), cmd)
  {
    match cmd
    case Make(room, user, name, codes) => MakeAdds(r, s, room, user, name, codes);
    case Join(_, _, _, _, _, _, _) => JoinAdds(r, s, cmd);
    case Play(_, _, _) => assert NoEntry(s, cmd);
  }

  /** Some command before the n-th entered the channel like this. */
  ghost predicate Entered(r: Rules, cmds: seq<Command>, code: string, user: string, room: string) {
    exists i: nat :: EntersAt(r, cmds, i, code, user, room)
  }

  lemma EnteredNext(r: Rules, cmds: seq<Command>, code: string, user: string, room: string)
    requires cmds != []
    ensures var n := |cmds| - 1;
            Entered(r, cmds, code, user, room) <==>
            Entered(r, cmds[..n], code, user, room) || Enters(RunAll(r, cmds[..n]), cmds[n], code, user, room)
  {
    var n := |cmds| - 1;
    forall i | 0 <= i < n
      ensures EntersAt(r, cmds, i, code, user, room) <==> EntersAt(r, cmds[..n], i, code, user, room)
    {
      assert cmds[..n][..i] == cmds[..i];
    }
    assert EntersAt(r, cmds, n, code, user, room) <==> Enters(RunAll(r, cmds[..n]), cmds[n], code, user, room);
  }

  ghost predicate UserEntered(r: Rules, cmds: seq<Command>, code: string, user: string) {
    exists room :: Entered(r, cmds, code, user, room)
  }

  ghost predicate RoomEntered(r: Rules, cmds: seq<Command>, code: string, room: string) {
    exists user :: Entered(r, cmds, code, user, room)
  }

  /** The sets hold exactly what the commands entered. */
  ghost predicate HoldsEntries(r: Rules, cmds: seq<Command>, s: State) {
    && (forall c, x :: x in Members(s.rooms, c) <==> RoomEntered(r, cmds, c, x))
    && (forall c, u :: u in Members(s.parts, c) <==> UserEntered(r, cmds, c, u))
    && (forall v, c :: c in Members(s.userIdx, v) <==> exists u :: UserEntered(r, cmds, c, u) && Trim(u) == v)
  }

  /** The entries of all commands are those of the earlier ones and what the last command entered. */
  ghost predicate OneMore(r: Rules, cmds: seq<Command>, cmd: Command, s: State) {
    forall c, u, x :: Entered(r, cmds + [cmd], c, u, x) <==> Entered(r, cmds, c, u, x) || Enters(s, cmd, c, u, x)
  }

  lemma NothingEntered(r: Rules, cmds: seq<Command>, cmd: Command, s: State)
    requires OneMore(r, cmds, cmd, s) && NoEntry(s, cmd)
    ensures forall c, u :: UserEntered(r, cmds + [cmd], c, u) <==> UserEntered(r, cmds, c, u)
    ensures forall c, x :: RoomEntered(r, cmds + [cmd], c, x) <==> RoomEntered(r, cmds, c, x)
  {
  }

  lemma OneEntered(r: Rules, cmds: seq<Command>, cmd: Command, s: State, code: string, user: string, room: string)
    requires OneMore(r, cmds, cmd, s) && OnlyEntry(s, cmd, code, user, room)
    ensures forall c, u ::
              UserEntered(r, cmds + [cmd], c, u) <==> UserEntered(r, cmds, c, u) || (c == code && u == user)
    ensures forall c, x ::
              RoomEntered(r, cmds + [cmd], c, x) <==> RoomEntered(r, cmds, c, x) || (c == code && x == room)
  {
    assert Entered(r, cmds + [cmd], code, user, room);
    forall c, u ensures UserEntered(r, cmds + [cmd], c, u) <== UserEntered(r, cmds, c, u) {
      if UserEntered(r, cmds, c, u) {
        var x :| Entered(r, cmds, c, u, x);
        assert Entered(r, cmds + [cmd], c, u, x);
      }
    }
    forall c, x ensures RoomEntered(r, cmds + [cmd], c, x) <== RoomEntered(r, cmds, c, x) {
      if RoomEntered(r, cmds, c, x) {
        var u :| Entered(r, cmds, c, u, x);
        assert Entered(r, cmds + [cmd], c, u, x);
      }
    }
  }

  lemma AdmittedHolds(
      r: Rules, cmds: seq<Command>, cmd: Command, s: State, t: State, code: string, user: string, room: string)
    requires HoldsEntries(r, cmds, s) && OneMore(r, cmds, cmd, s)
    requires Admits(s, t, code, room, user) && OnlyEntry(s, cmd, code, user, room)
    ensures HoldsEntries(r, cmds + [cmd], t)
  {
    OneEntered(r, cmds, cmd, s, code, user, room);
    forall v, c
      ensures c in Members(t.userIdx, v) <==> exists u :: UserEntered(r, cmds + [cmd], c, u) && Trim(u) == v
    {
      assert c in Members(s.userIdx, v) <==> exists u :: UserEntered(r, cmds, c, u) && Trim(u) == v;
      if v == Trim(user) && c == code {
        assert UserEntered(r, cmds + [cmd], c, user) && Trim(user) == v;
      }
    }
  }

  lemma UnchangedHolds(r: Rules, cmds: seq<Command>, cmd: Command, s: State, t: State)
    requires HoldsEntries(r, cmds, s) && OneMore(r, cmds, cmd, s) && SetsStay(s, t) && NoEntry(s, cmd)
    ensures HoldsEntries(r, cmds + [cmd], t)
  {
    NothingEntered(r, cmds, cmd, s);
    forall v, c
      ensures c in Members(t.userIdx, v) <==> exists u :: UserEntered(r, cmds + [cmd], c, u) && Trim(u) == v
    {
      assert c in Members(s.userIdx, v) <==> exists u :: UserEntered(r, cmds, c, u) && Trim(u) == v;
    }
  }

  lemma OneMoreIsOne(r: Rules, cmds: seq<Command>, cmd: Command)
    ensures OneMore(r, cmds, cmd, RunAll(r, cmds))
  {
    forall c, u, x
      ensures Entered(r, cmds + [cmd], c, u, x) <==>
              Entered(r, cmds, c, u, x) || Enters(RunAll(r, cmds), cmd, c, u, x)
    {
      EnteredNext(r, cmds + [cmd], c, u, x);
      assert (cmds + [cmd])[..|cmds|] == cmds;
    }
  }

  lemma EntriesNext(r: Rules, cmds: seq<Command>, cmd: Command, s: State, t: State)
    requires HoldsEntries(r, cmds, s) && s == RunAll(r, cmds) && AddsEntries(s, t, cmd)
    ensures HoldsEntries(r, cmds + [cmd], t)
  {
    OneMoreIsOne(r, cmds, cmd);
    if SetsStay(s, t) && NoEntry(s, cmd) {
      UnchangedHolds(r, cmds, cmd, s, t);
    } else {
      var code, user, room :| Admits(s, t, code, room, user) && OnlyEntry(s, cmd, code, user, room);
      AdmittedHolds(r, cmds, cmd, s, t, code, user, room);
    }
  }

  /**
   After any commands the rooms of a channel are the room of its Make and those of the joins that passed the check that
   it is not full, its participants the users of the same commands, and each user is listed for the channels so entered.
   */
  lemma {:induction false} SetsHoldEntries(r: Rules, cmds: seq<Command>)
    ensures HoldsEntries(r, cmds, RunAll(r, cmds))
  {
    if cmds == [] {
      forall c, u, x ensures !Entered(r, cmds, c, u, x) {
      }
    } else {
      var n := |cmds| - 1;
      var s := RunAll(r, cmds[..n]);
      SetsHoldEntries(r, cmds[..n]);
      RunsKeepInv(r, cmds[..n]);
      DoAdds(r, s, cmds[n]);
      EntriesNext(r, cmds[..n], cmds[n], s, RunAll(r, cmds));
      assert cmds == cmds[..n] + [cmds[n]];
    }
  }

  // ---------------------------------------------------------------- the rooms of a channel with a game

  /** The room of the creator, and one that reads like the joiner's room of the game once it is started. */
  ghost predicate RoomsOf(s: State, code: string)
    requires code in s.metas
  {
    && s.metas[code].creatorRoom in Members(s.rooms, code)
    && (s.metas[code].gameId != "" ==>
          && s.metas[code].gameId in s.games
          && exists x :: x in Members(s.rooms, code) && Trim(x) == s.games[s.metas[code].gameId].resolveRoom)
  }

  ghost predicate RoomsOk(s: State) {
    forall c :: c in s.metas ==> RoomsOf(s, c)
  }

  /** A channel whose record is left alone keeps its rooms while sets and games only grow. */
  lemma RoomsFrame(s: State, t: State, code: string)
    requires code in s.metas && RoomsOf(s, code) && code in t.metas && t.metas[code] == s.metas[code]
    requires Members(s.rooms, code) <= Members(t.rooms, code) && GamesGrow(s, t)
    ensures RoomsOf(t, code)
  {
    if s.metas[code].gameId != "" {
      var x :| x in Members(s.rooms, code) && Trim(x) == s.games[s.metas[code].gameId].resolveRoom;
      assert x in Members(t.rooms, code);
    }
  }

  lemma AdmitsGrows(s: State, t: State, code: string, room: string, user: string)
    requires Admits(s, t, code, room, user)
    ensures room in Members(t.rooms, code) && forall c :: Members(s.rooms, c) <= Members(t.rooms, c)
  {
  }

  lemma MakeKeepsRooms(s: State, room: string, user: string, name: string, codes: seq<string>)
    requires Inv(s) && RoomsOk(s)
    ensures RoomsOk(MakeSpec(s, room, user, name, codes).0)
  {
    MakeMeans(s, room, user, name, codes);
    var (t, reply) := MakeSpec(s, room, user, name, codes);
    if reply.Made? {
      AdmitsGrows(s, t, reply.code, room, user);
      forall c | c in t.metas ensures RoomsOf(t, c) {
        if c != reply.code {
          RoomsFrame(s, t, c);
        }
      }
    }
  }

  lemma StartedRooms(
      s: State, t: State, code: string, room: string, user: string, name: string, gameId: string, coin: bool, now: int)
    requires code in s.metas && GameStarted(s, t, code, room, user, name, gameId, coin, now)
    requires s.metas[code].creatorRoom in Members(t.rooms, code) && room in Members(t.rooms, code)
    ensures RoomsOf(t, code)
  {
  }

  /** Games only grow when a channel starts a new one, and other records stay. */
  lemma StartFrame(
      s: State, t: State, code: string, room: string, user: string, name: string, gameId: string, coin: bool, now: int)
    requires code in s.metas && GameStarted(s, t, code, room, user, name, gameId, coin, now) && gameId !in s.games
    ensures GamesGrow(s, t) && t.metas.Keys == s.metas.Keys
    ensures forall c :: c in s.metas && c != code ==> t.metas[c] == s.metas[c]
  {
  }

  lemma StartKeepsRooms(
      s: State, t: State, code: string, room: string, user: string, name: string, gameId: string, coin: bool, now: int)
    requires RoomsOk(s) && code in s.metas && gameId !in s.games && Admits(s, t, code, room, user)
    requires GameStarted(s, t, code, room, user, name, gameId, coin, now)
    ensures RoomsOk(t)
  {
    AdmitsGrows(s, t, code, room, user);
    StartFrame(s, t, code, room, user, name, gameId, coin, now);
    assert RoomsOf(s, code);
    StartedRooms(s, t, code, room, user, name, gameId, coin, now);
    forall c | c in t.metas && c != code ensures RoomsOf(t, c) {
      RoomsFrame(s, t, c);
    }
  }

  lemma AdmitKeepsRooms(s: State, t: State, code: string, room: string, user: string)
    requires RoomsOk(s) && Admits(s, t, code, room, user) && RecordsStay(s, t)
    ensures RoomsOk(t)
  {
    AdmitsGrows(s, t, code, room, user);
    forall c | c in t.metas ensures RoomsOf(t, c) {
      RoomsFrame(s, t, c);
    }
  }

  lemma AnsweredKeepsRooms(
      s: State, t: State, room: string, rawCode: string, user: string, name: string, gameId: string, coin: bool,
      now: int, reply: JoinReply)
    requires JoinAnswered(s, t, room, rawCode, user, name, gameId, coin, now, reply)
    requires RoomsOk(s) && gameId !in s.games
    ensures RoomsOk(t)
  {
    if reply.Started? {
      StartKeepsRooms(s, t, Trim(rawCode), room, user, name, gameId, coin, now);
    } else if t != s {
      AdmitKeepsRooms(s, t, Trim(rawCode), room, user);
    }
  }

  lemma JoinKeepsRooms(
      s: State, room: string, rawCode: string, user: string, name: string, gameId: string, coin: bool, now: int)
    requires Inv(s) && RoomsOk(s) && gameId !in s.games
    ensures RoomsOk(JoinSpec(s, room, rawCode, user, name, gameId, coin, now).0)
  {
    var (t, reply) := JoinSpec(s, room, rawCode, user, name, gameId, coin, now);
    JoinMeans(s, room, rawCode, user, name, gameId, coin, now);
    AnsweredKeepsRooms(s, t, room, rawCode, user, name, gameId, coin, now, reply);
  }

  lemma PlayKeepsRooms(r: Rules, s: State, id: string, req: Request, now: int)
    requires RoomsOk(s) && Effective(r, s.games, Apply(id, req, now))
    ensures RoomsOk(s.(games := SeqStep(r, s.games, Apply(id, req, now))))
  {
    var t := s.(games := SeqStep(r, s.games, Apply(id, req, now)));
    StepFollows(r, s.games, Apply(id, req, now));
    forall c | c in s.metas ensures RoomsOf(t, c) {
      RoomsFrame(s, t, c);
    }
  }

  /** In every run the rooms of a channel hold its creator's, and with a game its joiner's too. */
  lemma {:induction false} RunsKeepRooms(r: Rules, cmds: seq<Command>)
    ensures RoomsOk(RunAll(r, cmds))
  {
    if cmds == [] {
    } else {
      var s := RunAll(r, cmds[..|cmds| - 1]);
      RunsKeepRooms(r, cmds[..|cmds| - 1]);
      RunsKeepInv(r, cmds[..|cmds| - 1]);
      match cmds[|cmds| - 1]
      case Make(room, user, name, codes) => MakeKeepsRooms(s, room, user, name, codes);
      case Join(room, code, user, name, gameId, coin, now) =>
        if IsGameId(gameId) && gameId !in s.games {
          JoinKeepsRooms(s, room, code, user, name, gameId, coin, now);
        }
      case Play(id, req, now) =>
        if Effective(r, s.games, Apply(id, req, now)) {
          PlayKeepsRooms(r, s, id, req, now);
        }
    }
  }
}
