/** The channel manager's commands, changing its keys and sets step by step. */
module Channels {
  import opened Options
  import opened Text
  import opened PvpGame
  import opened PvpManager
  import opened ChannelContents
  import opened ChannelState

  class ChannelManager {
    const pvp: Manager
    var metas: map<string, Meta>
    var parts: map<string, set<string>>
    var rooms: map<string, set<string>>
    var userIdx: map<string, set<string>>
    var lobby: set<string>

    /** All stored keys as one value. */
    function Abs(): State
      reads this, pvp
    {
      State(pvp.games, pvp.index, metas, parts, rooms, userIdx, lobby)
    }

    ghost predicate Valid()
      reads this, pvp
    {
      pvp.Valid() && Inv(Abs()) && RoomsOk(Abs())
    }

    constructor (pvp: Manager)
      requires pvp.Valid() && pvp.games == map[] && pvp.index == map[]
      ensures Valid() && this.pvp == pvp && Abs() == START
    {
      this.pvp := pvp;
      metas, parts, rooms, userIdx, lobby := map[], map[], map[], map[], {};
    }

    /** The scan of the user's codes for a waiting lobby of the same creator. */
    method OwnsLobby(user: string) returns (b: bool)
      ensures b == HasLobby(Abs(), user)
    {
      var codes := Members(userIdx, Trim(user));
      var todo := codes;
      while todo != {}
        invariant todo <= codes
        invariant forall c :: c in codes - todo && c in metas && metas[c].status == Lobby ==>
            Trim(metas[c].creatorId) != Trim(user)
        decreases todo
      {
        var c :| c in todo;
        if c in metas && metas[c].status == Lobby && Trim(metas[c].creatorId) == Trim(user) {
          return true;
        }
        todo := todo - {c};
      }
      return false;
    }

    /** SETNX of the record and the writes that follow it. */
    method SetUp(code: string, room: string, user: string, name: string)
      modifies this
      ensures Abs() == Open(old(Abs()), code, room, user, name)
    {
      metas := metas[code := NewMeta(code, user, name, room)];
      rooms := Add(rooms, code, room);
      parts := Add(parts, code, user);
      userIdx := Add(userIdx, Trim(user), code);
      lobby := lobby + {code};
    }

    /** Tries the generated codes in turn. */
    method Allocate(room: string, user: string, name: string, codes: seq<string>) returns (reply: MakeReply)
      modifies this
      ensures match FirstFree(old(metas), codes)
              case None => Abs() == old(Abs()) && reply == MakeFailed(NoFreeCode)
              case Some(c) => Abs() == Open(old(Abs()), c, room, user, name) && reply == Made(c)
    {
      for i := 0 to |codes|
        invariant Abs() == old(Abs()) && FirstFree(metas, codes) == FirstFree(metas, codes[i..])
      {
        if codes[i] !in metas {
          SetUp(codes[i], room, user, name);
          return Made(codes[i]);
        }
      }
      return MakeFailed(NoFreeCode);
    }

    /** Refuses busy creators and second lobbies, then allocates a channel. */
    method Make(room: string, user: string, name: string, codes: seq<string>) returns (reply: MakeReply)
      requires Valid()
      modifies this
      ensures Valid()
      ensures (Abs(), reply) == MakeSpec(old(Abs()), room, user, name, codes)
      ensures MakeAnswered(old(Abs()), Abs(), room, user, name, codes, reply)
    {
      reply := CheckAndAllocate(room, user, name, codes);
      MakeMeans(old(Abs()), room, user, name, codes);
      MakeKeepsRooms(old(Abs()), room, user, name, codes);
      MakeKeepsInv(old(Abs()), room, user, name, codes);
    }

    method CheckAndAllocate(room: string, user: string, name: string, codes: seq<string>) returns (reply: MakeReply)
      requires pvp.Valid()
      modifies this
      ensures (Abs(), reply) == MakeSpec(old(Abs()), room, user, name, codes)
    {
      if Trim(room) == "" || Trim(user) == "" {
        return MakeFailed(InvalidArgs);
      }
      var busy := pvp.GetActiveGame(user, Some(room));
      if busy.Some? {
        return MakeFailed(PlayerBusyInRoom);
      }
      var waiting := OwnsLobby(user);
      if waiting {
        return MakeFailed(CreatorHasLobby);
      }
      reply := Allocate(room, user, name, codes);
    }

    /** The guarded transaction: three set additions. */
    method Register(code: string, room: string, user: string)
      modifies this
      ensures Abs() == Enter(old(Abs()), code, room, user)
    {
      parts := Add(parts, code, user);
      rooms := Add(rooms, code, room);
      userIdx := Add(userIdx, Trim(user), code);
    }

    /** Creates the game and writes it into the channel record. */
    method StartGame(code: string, room: string, user: string, name: string, gameId: string, coin: bool, now: int)
      requires pvp.Valid() && gameId !in pvp.games && code in metas && metas[code].creatorId != "" && user != ""
      modifies this, pvp
      ensures pvp.Valid()
      ensures Abs() == Launch(old(Abs()), code, ChannelGame(old(metas)[code], room, user, name, gameId, coin, now))
    {
      var meta := metas[code];
      var g := pvp.CreateGameFromChallenge(gameId, meta.creatorRoom, room, meta.creatorId, meta.creatorName, user,
          name, ChooseRandom, coin, now);
      meta := meta.(whiteId := g.value.whiteId, whiteName := g.value.whiteName);
      meta := meta.(blackId := g.value.blackId, blackName := g.value.blackName);
      meta := meta.(status := Running);
      meta := meta.(gameId := g.value.id);
      metas := metas[code := meta];
      lobby := lobby - {code};
    }

    /** Enters the channel if it has room and, as its second participant, starts the game. */
    method Join(room: string, rawCode: string, user: string, name: string, gameId: string, coin: bool, now: int)
      returns (reply: JoinReply)
      requires Valid() && IsGameId(gameId) && gameId !in pvp.games
      modifies this, pvp
      ensures Valid()
      ensures (Abs(), reply) == JoinSpec(old(Abs()), room, rawCode, user, name, gameId, coin, now)
      ensures JoinAnswered(old(Abs()), Abs(), room, rawCode, user, name, gameId, coin, now, reply)
    {
      CreatorsNamed(Abs());
      reply := EnterAndStart(room, rawCode, user, name, gameId, coin, now);
      JoinMeans(old(Abs()), room, rawCode, user, name, gameId, coin, now);
      JoinKeepsRooms(old(Abs()), room, rawCode, user, name, gameId, coin, now);
      JoinKeepsInv(old(Abs()), room, rawCode, user, name, gameId, coin, now);
    }

    method EnterAndStart(room: string, rawCode: string, user: string, name: string, gameId: string, coin: bool,
        now: int)
      returns (reply: JoinReply)
      requires pvp.Valid() && gameId !in pvp.games
      requires forall c :: c in metas ==> metas[c].creatorId != ""
      modifies this, pvp
      ensures pvp.Valid()
      ensures (Abs(), reply) == JoinSpec(old(Abs()), room, rawCode, user, name, gameId, coin, now)
    {
      var code := Trim(rawCode);
      if room == "" || code == "" || user == "" {
        return JoinFailed(InvalidArgs);
      }
      if code !in metas {
        return JoinFailed(ChannelGone);
      }
      if metas[code].status != Lobby {
        return JoinFailed(ChannelActive);
      }
      if |Members(parts, code)| >= 2 {
        return JoinFailed(Full);
      }
      Register(code, room, user);
      if |Members(parts, code)| < 2 || metas[code].gameId != "" {
        return Queued;
      }
      var busy := pvp.GetActiveGame(user, Some(room));
      if busy.Some? {
        return JoinFailed(PlayerBusyInRoom);
      }
      busy := pvp.GetActiveGame(metas[code].creatorId, Some(metas[code].creatorRoom));
      if busy.Some? {
        return JoinFailed(PlayerBusyInRoom);
      }
      StartGame(code, room, user, name, gameId, coin, now);
      return Started(gameId);
    }

    /** The channel is listed under the user and bound to the id, both read without surrounding white space. */
    ghost predicate Lists(uid: string, id: string, c: string)
      reads this
    {
      uid != "" && c in Members(userIdx, uid) && c in metas && Trim(metas[c].gameId) == Trim(id)
    }

    /** Searches the channels of both players for one bound to the game. */
    method MetaByGame(g: Game) returns (found: Option<string>)
      ensures found.Some? ==> Lists(Trim(g.whiteId), g.id, found.value) || Lists(Trim(g.blackId), g.id, found.value)
      ensures found.None? ==> forall c :: !Lists(Trim(g.whiteId), g.id, c) && !Lists(Trim(g.blackId), g.id, c)
      ensures Valid() && g.id in pvp.games && SameMatch(pvp.games[g.id], g) ==>
                && (found.Some? ==> found.value in metas && metas[found.value].gameId == g.id)
                && (forall c :: c in metas && metas[c].gameId == g.id ==> found == Some(c))
    {
      found := SearchCodes(Trim(g.whiteId), g.id);
      if found.None? {
        found := SearchCodes(Trim(g.blackId), g.id);
      }
      if Valid() && g.id in pvp.games && SameMatch(pvp.games[g.id], g) {
        BoundIsListed(g, found);
      }
    }

    /** In a valid store what such a search finds is the one channel bound to the game. */
    lemma BoundIsListed(g: Game, found: Option<string>)
      requires Valid() && g.id in pvp.games && SameMatch(pvp.games[g.id], g)
      requires found.Some? ==> Lists(Trim(g.whiteId), g.id, found.value) || Lists(Trim(g.blackId), g.id, found.value)
      requires found.None? ==> forall c :: !Lists(Trim(g.whiteId), g.id, c) && !Lists(Trim(g.blackId), g.id, c)
      ensures found.Some? ==> found.value in metas && metas[found.value].gameId == g.id
      ensures forall c :: c in metas && metas[c].gameId == g.id ==> found == Some(c)
    {
      BoundIsIndexed(Abs(), g.id);
      GameIdsTrimmed(Abs());
      assert StoredWell(g.id, pvp.games[g.id]);
      forall c | c in metas && metas[c].gameId == g.id ensures found == Some(c) {
        assert Lists(Trim(g.whiteId), g.id, c) || Lists(Trim(g.blackId), g.id, c);
      }
    }

    /** Linear scan of one user's channels for one bound to a game. */
    method SearchCodes(uid: string, gameId: string) returns (found: Option<string>)
      ensures found.Some? ==> Lists(uid, gameId, found.value)
      ensures found.None? ==> forall c :: !Lists(uid, gameId, c)
    {
      if uid == "" {
        return None;
      }
      var codes := Members(userIdx, uid);
      var todo := codes;
      while todo != {}
        invariant todo <= codes
        invariant forall c :: c in codes - todo ==> !Lists(uid, gameId, c)
        decreases todo
      {
        var c :| c in todo;
        if c in metas && Trim(metas[c].gameId) == Trim(gameId) {
          return Some(c);
        }
        todo := todo - {c};
      }
      return None;
    }

    /** The channel is listed under the user and bound to exactly this id. */
    ghost predicate Binds(user: string, gameId: string, c: string)
      reads this
    {
      c in Members(userIdx, Trim(user)) && c in metas && metas[c].gameId == gameId
    }

    /** The rooms of a channel of the user that is bound to the id; None exactly when there is no such channel. */
    method RoomsByUserAndGame(user: string, gameId: string) returns (found: Option<set<string>>)
      ensures found.None? <==> forall c :: !Binds(user, gameId, c)
      ensures found.Some? ==> exists c :: Binds(user, gameId, c) && found.value == Members(rooms, c)
      ensures Valid() && gameId != "" && found.Some? ==>
                exists c :: Binds(user, gameId, c) && metas[c].creatorRoom in found.value
      ensures Valid() && gameId in pvp.games && gameId != "" && found.Some? ==>
                exists x :: x in found.value && Trim(x) == pvp.games[gameId].resolveRoom
    {
      var codes := Members(userIdx, Trim(user));
      var todo := codes;
      while todo != {}
        invariant todo <= codes
        invariant forall c :: c in codes - todo ==> !Binds(user, gameId, c)
        decreases todo
      {
        var c :| c in todo;
        if c in metas && metas[c].gameId == gameId {
          assert Binds(user, gameId, c);
          assert RoomsOk(Abs()) ==> RoomsOf(Abs(), c);
          return Some(Members(rooms, c));
        }
        todo := todo - {c};
      }
      return None;
    }

    /** A player of a stored game has at most one channel bound to it, and has it if any channel is. */
    lemma PlayersChannel(user: string, gameId: string, c: string)
      requires Valid() && gameId in pvp.games && Plays(pvp.games[gameId], Trim(user))
      requires c in metas && metas[c].gameId == gameId
      ensures Binds(user, gameId, c) && forall d :: Binds(user, gameId, d) ==> d == c
    {
      BoundIsIndexed(Abs(), gameId);
      assert StoredWell(gameId, pvp.games[gameId]);
    }

    /** The waiting channels, for listing. */
    method ListLobby() returns (out: set<string>)
      requires Valid()
      ensures forall c :: c in out <==> c in metas && metas[c].status == Lobby
    {
      out := {};
      var todo := lobby;
      while todo != {}
        invariant todo <= lobby
        invariant forall c :: c in out <==> c in lobby - todo && c in metas && metas[c].status == Lobby
        decreases todo
      {
        var c :| c in todo;
        todo := todo - {c};
        if c in metas && metas[c].status == Lobby {
          out := out + {c};
        }
      }
      forall c | c in metas ensures c in lobby <==> metas[c].status == Lobby {
        assert ChannelOk(Abs(), c);
      }
    }
  }
}
