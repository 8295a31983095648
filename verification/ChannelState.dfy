/**
 The channel lobby as one client at a time runs it: stored channel records, participant and room sets, the per-user
 index of channel codes, and the game store of the PvP manager it starts games in.
 */
module ChannelState {
  import opened Options
  import opened Text
  import opened ChessRules
  import opened PvpGame
  import opened PvpSequential
  import opened PvpManager

  datatype ChannelStatus = Reserved | Lobby | Running

  /** A channel record; `Reserved` is the empty record SETNX leaves before the first save. */
  datatype Meta = Meta(
    code: string, status: ChannelStatus,
    creatorId: string, creatorName: string, creatorRoom: string,
    whiteId: string, whiteName: string, blackId: string, blackName: string,
    gameId: string)

  datatype Error = InvalidArgs | ChannelGone | ChannelActive | Full | PlayerBusyInRoom | CreatorHasLobby | NoFreeCode

  datatype MakeReply = Made(code: string) | MakeFailed(error: Error)
  datatype JoinReply = Started(gameId: string) | Queued | JoinFailed(error: Error)

  datatype State = State(
    games: Games, index: Index,
    metas: map<string, Meta>, parts: map<string, set<string>>, rooms: map<string, set<string>>,
    userIdx: map<string, set<string>>, lobby: set<string>)

  const START := State(map[], map[], map[], map[], map[], map[], {})

  function Members(m: map<string, set<string>>, key: string): set<string> {
    if key in m then m[key] else {}
  }

  function Add(m: map<string, set<string>>, key: string, x: string): map<string, set<string>> {
    m[key := Members(m, key) + {x}]
  }

  function NewMeta(code: string, user: string, name: string, room: string): Meta {
    Meta(code, Lobby, user, name, room, "", "", "", "", "")
  }

  /** One of the user's indexed channels is a waiting lobby the user created. */
  predicate HasLobby(s: State, user: string) {
    exists c :: c in Members(s.userIdx, Trim(user)) && c in s.metas
                && s.metas[c].status == Lobby && Trim(s.metas[c].creatorId) == Trim(user)
  }

  /** The first generated code that no channel uses yet. */
  function FirstFree(metas: map<string, Meta>, codes: seq<string>): Option<string> {
    if codes == [] then None
    else if codes[0] !in metas then Some(codes[0])
    else FirstFree(metas, codes[1..])
  }

  /** The state after Make has set up a channel under an unused code. */
  function Open(s: State, code: string, room: string, user: string, name: string): State {
    s.(metas := s.metas[code := NewMeta(code, user, name, room)], rooms := Add(s.rooms, code, room),
       parts := Add(s.parts, code, user), userIdx := Add(s.userIdx, Trim(user), code), lobby := s.lobby + {code})
  }

  /** Make, given the codes the generator would produce. */
  ghost function MakeSpec(s: State, room: string, user: string, name: string, codes: seq<string>): (State, MakeReply) {
    if Trim(room) == "" || Trim(user) == "" then (s, MakeFailed(InvalidArgs))
    else if Busy(s.games, user, Some(room)) then (s, MakeFailed(PlayerBusyInRoom))
    else if HasLobby(s, user) then (s, MakeFailed(CreatorHasLobby))
    else
      match FirstFree(s.metas, codes)
      case None => (s, MakeFailed(NoFreeCode))
      case Some(c) => (Open(s, c, room, user, name), Made(c))
  }

  /** The state after the guarded transaction of Join. */
  function Enter(s: State, code: string, room: string, user: string): State {
    s.(parts := Add(s.parts, code, user), rooms := Add(s.rooms, code, room),
        userIdx := Add(s.userIdx, Trim(user), code))
  }

  /** The state after Join has started a game in the channel. */
  function Launch(s: State, code: string, g: Game): State
    requires code in s.metas
  {
    var meta := s.metas[code].(whiteId := g.whiteId, whiteName := g.whiteName, blackId := g.blackId,
                               blackName := g.blackName, status := Running, gameId := g.id);
    s.(games := s.games[g.id := g], index := Indexed(Indexed(s.index, g.whiteId, g.id), g.blackId, g.id),
       metas := s.metas[code := meta], lobby := s.lobby - {code})
  }

  /** The game a channel starts between its creator and a joiner. */
  function ChannelGame(
      m: Meta, room: string, user: string, name: string, gameId: string, coin: bool, now: int): Game {
    NewGame(gameId, m.creatorRoom, room, m.creatorId, m.creatorName, user, name, ChooseRandom, coin, now)
  }

  /** Join past its first checks: the guarded transaction, and the start when it fills the channel. */
  ghost function EnterSpec(s: State, code: string, room: string, user: string, g: Game): (State, JoinReply)
    requires code in s.metas
  {
    var t := Enter(s, code, room, user);
    var meta := s.metas[code];
    if |Members(t.parts, code)| < 2 || meta.gameId != "" then (t, Queued)
    else if Busy(s.games, user, Some(room)) then (t, JoinFailed(PlayerBusyInRoom))
    else if Busy(s.games, meta.creatorId, Some(meta.creatorRoom)) then (t, JoinFailed(PlayerBusyInRoom))
    else (Launch(t, code, g), Started(g.id))
  }

  /** Join, given the id and colour coin the game creation would draw. */
  ghost function JoinSpec(s: State, room: string, rawCode: string, user: string, name: string,
                          gameId: string, coin: bool, now: int): (State, JoinReply) {
    var code := Trim(rawCode);
    if room == "" || code == "" || user == "" then (s, JoinFailed(InvalidArgs))
    else if code !in s.metas then (s, JoinFailed(ChannelGone))
    else if s.metas[code].status != Lobby then (s, JoinFailed(ChannelActive))
    else if |Members(s.parts, code)| >= 2 then (s, JoinFailed(Full))
    else EnterSpec(s, code, room, user, ChannelGame(s.metas[code], room, user, name, gameId, coin, now))
  }

  // ---------------------------------------------------------------- the invariant

  /** A running channel is bound to one stored game between its creator and one other user, both indexed. */
  ghost predicate RunningOk(s: State, code: string)
    requires code in s.metas
  {
    var m := s.metas[code];
    && IsGameId(m.gameId) && m.gameId in s.games
    && var g := s.games[m.gameId];
    && m.whiteId == g.whiteId && m.blackId == g.blackId
    && Plays(g, Trim(m.creatorId)) && g.originRoom == Trim(m.creatorRoom)
    && code in Members(s.userIdx, g.whiteId) && code in Members(s.userIdx, g.blackId)
  }

  ghost predicate ChannelOk(s: State, code: string)
    requires code in s.metas
  {
    var m := s.metas[code];
    && m.code == code
    && Trim(m.creatorId) != "" && m.creatorId in Members(s.parts, code)
    && code in Members(s.userIdx, Trim(m.creatorId))
    && |Members(s.parts, code)| <= 2
    && (m.status == Lobby <==> m.gameId == "") && m.status != Reserved
    && (m.status == Running ==> RunningOk(s, code))
    && (code in s.lobby <==> m.status == Lobby)
  }

  ghost predicate DistinctGames(metas: map<string, Meta>) {
    forall c, d :: c in metas && d in metas && metas[c].gameId != "" && metas[c].gameId == metas[d].gameId ==> c == d
  }

  /** The room a user started game `id` from: the creator's own room, or the room the joiner answered in. */
  ghost predicate OwnRoom(s: State, id: string, user: string, room: string) {
    && id in s.games
    && exists c :: c in s.metas && s.metas[c].gameId == id
                   && ((user == Trim(s.metas[c].creatorId) && room == s.games[id].originRoom)
                       || (user != Trim(s.metas[c].creatorId) && Plays(s.games[id], user)
                           && room == s.games[id].resolveRoom))
  }

  ghost predicate OwnsAnywhere(s: State, id: string, user: string, room: string) {
    OwnRoom(s, id, user, room) && s.games[id].status == Active
  }

  /** The same for a user and a room that have a name. */
  ghost predicate OwnsActive(s: State, id: string, user: string, room: string) {
    user != "" && room != "" && OwnsAnywhere(s, id, user, room)
  }

  /** No user with a name has two active games started from the same own room with a name. */
  ghost predicate OneGamePerOwnRoom(s: State) {
    forall i, j, user, room | OwnsActive(s, i, user, room) && OwnsActive(s, j, user, room) :: i == j
  }

  /** No user has two active games started from the same own room, blank or not. */
  ghost predicate OneGamePerAnyRoom(s: State) {
    forall i, j, user, room | OwnsAnywhere(s, i, user, room) && OwnsAnywhere(s, j, user, room) :: i == j
  }

  predicate WaitingFor(s: State, code: string) {
    code in s.metas && s.metas[code].status == Lobby
  }

  /** No user is the creator of two waiting lobbies. */
  ghost predicate OneLobbyPerCreator(s: State) {
    forall c, d | WaitingFor(s, c) && WaitingFor(s, d)
        && Trim(s.metas[c].creatorId) == Trim(s.metas[d].creatorId) :: c == d
  }

  /** The ids games get are not blank and carry no surrounding white space. */
  predicate IsGameId(id: string) {
    id != "" && Trimmed(id)
  }

  predicate StoredWell(id: string, g: Game) {
    IsGameId(id) && Trimmed(g.originRoom) && Trimmed(g.resolveRoom)
  }

  ghost predicate StoreOk(s: State) {
    && Keyed(s.games) && TrimmedPlayers(s.games) && IndexExact(s.games, s.index)
    && (forall id :: id in s.games ==> StoredWell(id, s.games[id]))
  }

  ghost predicate ChannelsOk(s: State) {
    forall c {:trigger ChannelOk(s, c)} :: c in s.metas ==> ChannelOk(s, c)
  }

  /** No participant, index entry or lobby entry belongs to a channel without a record. */
  ghost predicate NoStrays(s: State) {
    && (forall u, c :: c in Members(s.userIdx, u) ==> c in s.metas)
    && (forall c :: c !in s.metas ==> Members(s.parts, c) == {})
    && s.lobby <= s.metas.Keys
  }

  ghost predicate Inv(s: State) {
    && StoreOk(s)
    && ChannelsOk(s)
    && NoStrays(s)
    && DistinctGames(s.metas)
    && OneGamePerOwnRoom(s)
    && OneLobbyPerCreator(s)
  }

  // ---------------------------------------------------------------- preservation

  lemma FirstFreeIsFree(metas: map<string, Meta>, codes: seq<string>)
    ensures FirstFree(metas, codes).Some? ==> FirstFree(metas, codes).value !in metas
  {
  }

  /** A user owning an active game in a room is found by the search for that user and room. */
  lemma OwnerIsBusy(s: State, id: string, user: string, room: string)
    requires Inv(s) && OwnsActive(s, id, user, room)
    ensures Trimmed(room) && Trimmed(user) && Busy(s.games, user, Some(room))
  {
    var c :| c in s.metas && s.metas[c].gameId == id
             && ((user == Trim(s.metas[c].creatorId) && room == s.games[id].originRoom)
                 || (user != Trim(s.metas[c].creatorId) && Plays(s.games[id], user)
                     && room == s.games[id].resolveRoom));
    assert ChannelOk(s, c);
    assert RunningOk(s, c);
    TrimTwice(s.metas[c].creatorId);
    assert Qualifies(s.games[id], user, Some(room));
  }

  /** The stored games of `t` are those of `s`, possibly advanced, with more games added. */
  ghost predicate GamesGrow(s: State, t: State) {
    forall id :: id in s.games ==> id in t.games && SameMatch(s.games[id], t.games[id])
  }

  ghost predicate IdxGrows(s: State, t: State) {
    forall u, c :: c in Members(s.userIdx, u) ==> c in Members(t.userIdx, u)
  }

  /** A channel whose own record and participants are untouched stays in order. */
  lemma ChannelFrame(s: State, t: State, c: string)
    requires c in s.metas && ChannelOk(s, c)
    requires c in t.metas && t.metas[c] == s.metas[c] && Members(t.parts, c) == Members(s.parts, c)
    requires c in t.lobby <==> c in s.lobby
    requires GamesGrow(s, t) && IdxGrows(s, t)
    ensures ChannelOk(t, c)
  {
    var m := s.metas[c];
    assert c in Members(t.userIdx, Trim(m.creatorId));
    if m.status == Running {
      var g := s.games[m.gameId];
      assert c in Members(t.userIdx, g.whiteId) && c in Members(t.userIdx, g.blackId);
    }
  }

  lemma AddGrows(m: map<string, set<string>>, key: string, x: string)
    ensures forall u, c :: c in Members(m, u) ==> c in Members(Add(m, key, x), u)
    ensures forall u, c :: c in Members(Add(m, key, x), u) ==> c in Members(m, u) || (u == key && c == x)
    ensures x in Members(Add(m, key, x), key)
  {
  }

  /** Own rooms and lobbies only depend on the records bound to games. */
  lemma OwnFrame(s: State, t: State)
    requires OneGamePerOwnRoom(s) && t.games == s.games && StoreOk(s)
    requires forall c :: c in t.metas && t.metas[c].gameId != "" ==> c in s.metas && s.metas[c] == t.metas[c]
    ensures OneGamePerOwnRoom(t)
  {
    forall i, u, r | OwnsActive(t, i, u, r) ensures OwnsActive(s, i, u, r) {
    }
  }

  /** Waiting lobbies only depend on the channel records. */
  lemma LobbyFrame(s: State, t: State)
    requires OneLobbyPerCreator(s)
    requires forall c :: WaitingFor(t, c) ==> WaitingFor(s, c) && t.metas[c].creatorId == s.metas[c].creatorId
    ensures OneLobbyPerCreator(t)
  {
  }

  /** Indexing a stored channel under a user leaves no stray entries. */
  lemma AddKeepsNoStrays(s: State, t: State, user: string, code: string)
    requires NoStrays(s) && code in t.metas && (forall c :: c in s.metas ==> c in t.metas)
    requires t.userIdx == Add(s.userIdx, user, code) && t.lobby <= s.lobby + {code}
    requires forall c :: c != code ==> Members(t.parts, c) == Members(s.parts, c)
    ensures NoStrays(t)
  {
    AddGrows(s.userIdx, user, code);
  }

  lemma OpenedOk(s: State, c: string, room: string, user: string, name: string)
    requires Members(s.parts, c) == {} && Trim(user) != ""
    ensures ChannelOk(Open(s, c, room, user, name), c)
  {
    var t := Open(s, c, room, user, name);
    AddGrows(s.userIdx, Trim(user), c);
    assert Members(t.parts, c) == {user};
  }

  lemma OpenKeepsChannels(s: State, c: string, room: string, user: string, name: string)
    requires ChannelsOk(s) && Members(s.parts, c) == {} && c !in s.metas && Trim(user) != ""
    ensures ChannelsOk(Open(s, c, room, user, name))
  {
    var t := Open(s, c, room, user, name);
    AddGrows(s.userIdx, Trim(user), c);
    OpenedOk(s, c, room, user, name);
    forall d | d in s.metas ensures ChannelOk(t, d) {
      ChannelFrame(s, t, d);
    }
  }

  lemma OpenKeepsLobbies(s: State, c: string, room: string, user: string, name: string)
    requires ChannelsOk(s) && OneLobbyPerCreator(s) && c !in s.metas && !HasLobby(s, user)
    ensures OneLobbyPerCreator(Open(s, c, room, user, name))
  {
    var t := Open(s, c, room, user, name);
    forall d, e
      | WaitingFor(t, d) && WaitingFor(t, e) && Trim(t.metas[d].creatorId) == Trim(t.metas[e].creatorId)
      ensures d == e
    {
      if d != c {
        assert WaitingFor(s, d) && ChannelOk(s, d);
      }
      if e != c {
        assert WaitingFor(s, e) && ChannelOk(s, e);
      }
    }
  }

  /** Opening a channel keeps participants, index entries and lobby entries attached to records. */
  lemma OpenKeepsNoStrays(s: State, c: string, room: string, user: string, name: string)
    requires NoStrays(s)
    ensures NoStrays(Open(s, c, room, user, name))
  {
    AddKeepsNoStrays(s, Open(s, c, room, user, name), Trim(user), c);
  }

  lemma OpenKeepsInv(s: State, c: string, room: string, user: string, name: string)
    requires Inv(s) && c !in s.metas && !HasLobby(s, user) && Trim(user) != ""
    ensures Inv(Open(s, c, room, user, name))
  {
    OpenKeepsChannels(s, c, room, user, name);
    OpenKeepsNoStrays(s, c, room, user, name);
    OpenKeepsLobbies(s, c, room, user, name);
    OwnFrame(s, Open(s, c, room, user, name));
  }

  /** Make either changes nothing or opens a channel under a free code for a user without a waiting lobby. */
  lemma MakeCases(s: State, room: string, user: string, name: string, codes: seq<string>)
    ensures var (t, reply) := MakeSpec(s, room, user, name, codes);
            if reply.Made? then
              && t == Open(s, reply.code, room, user, name) && reply.code !in s.metas
              && !HasLobby(s, user) && Trim(user) != "" && !Busy(s.games, user, Some(room))
            else t == s
  {
    FirstFreeIsFree(s.metas, codes);
  }

  lemma MakeKeepsInv(s: State, room: string, user: string, name: string, codes: seq<string>)
    requires Inv(s)
    ensures Inv(MakeSpec(s, room, user, name, codes).0)
  {
    MakeCases(s, room, user, name, codes);
    var reply := MakeSpec(s, room, user, name, codes).1;
    if reply.Made? {
      OpenKeepsInv(s, reply.code, room, user, name);
    }
  }

  /** Entering a channel that had room for one more participant. */
  lemma EnterKeepsChannels(s: State, code: string, room: string, user: string)
    requires ChannelsOk(s) && NoStrays(s) && code in s.metas && |Members(s.parts, code)| < 2
    ensures ChannelsOk(Enter(s, code, room, user)) && NoStrays(Enter(s, code, room, user))
  {
    var t := Enter(s, code, room, user);
    AddGrows(s.userIdx, Trim(user), code);
    forall d | d in s.metas ensures ChannelOk(t, d) {
      assert ChannelOk(s, d);
      EnterFrame(s, code, room, user, d);
    }
    AddKeepsNoStrays(s, t, Trim(user), code);
  }

  lemma EnterFrame(s: State, code: string, room: string, user: string, d: string)
    requires d in s.metas && ChannelOk(s, d) && code in s.metas && |Members(s.parts, code)| < 2
    ensures ChannelOk(Enter(s, code, room, user), d)
  {
    var t := Enter(s, code, room, user);
    AddGrows(s.userIdx, Trim(user), code);
    if d != code {
      ChannelFrame(s, t, d);
    }
  }

  lemma EnterKeepsInv(s: State, code: string, room: string, user: string)
    requires Inv(s) && code in s.metas && |Members(s.parts, code)| < 2
    ensures Inv(Enter(s, code, room, user))
  {
    EnterKeepsChannels(s, code, room, user);
    OwnFrame(s, Enter(s, code, room, user));
    LobbyFrame(s, Enter(s, code, room, user));
  }

  /** No channel is bound to a game id that is not stored. */
  lemma FreshIsUnbound(s: State, id: string)
    requires ChannelsOk(s) && id != "" && id !in s.games
    ensures forall d :: d in s.metas ==> s.metas[d].gameId != id
  {
    forall d | d in s.metas ensures s.metas[d].gameId != id {
      assert ChannelOk(s, d);
    }
  }

  /** Whoever owns another game after the launch owned it before, and was busy. */
  lemma OldOwner(s: State, code: string, g: Game, i: string, u: string, r: string)
    requires Inv(s) && code in s.metas && s.metas[code].status == Lobby && g.id !in s.games && IsGameId(g.id)
    requires i != g.id && OwnsActive(Launch(s, code, g), i, u, r)
    ensures OwnsActive(s, i, u, r) && Busy(s.games, u, Some(r)) && Trimmed(u) && Trimmed(r)
  {
    OwnerIsBusy(s, i, u, r);
  }

  /** The owners of the launched game are the creator in the lobby's room and the joiner in the joiner's. */
  lemma NewOwner(s: State, code: string, g: Game, user: string, room: string, u: string, r: string)
    requires Inv(s) && code in s.metas && s.metas[code].status == Lobby && g.id !in s.games && IsGameId(g.id)
    requires {g.whiteId, g.blackId} == {Trim(s.metas[code].creatorId), Trim(user)}
    requires g.originRoom == Trim(s.metas[code].creatorRoom) && g.resolveRoom == Trim(room)
    requires OwnsActive(Launch(s, code, g), g.id, u, r)
    ensures || (u == Trim(s.metas[code].creatorId) && r == Trim(s.metas[code].creatorRoom))
            || (u == Trim(user) && r == Trim(room))
  {
    FreshIsUnbound(s, g.id);
    assert u in {g.whiteId, g.blackId} || u == Trim(s.metas[code].creatorId);
  }

  /** The game a channel starts does not clash with any active game its players own in their own rooms. */
  lemma LaunchKeepsOwnRooms(s: State, code: string, g: Game, user: string, room: string)
    requires Inv(s) && code in s.metas && s.metas[code].status == Lobby && g.id !in s.games && IsGameId(g.id)
    requires IsNew(g) && {g.whiteId, g.blackId} == {Trim(s.metas[code].creatorId), Trim(user)}
    requires g.originRoom == Trim(s.metas[code].creatorRoom) && g.resolveRoom == Trim(room)
    requires !Busy(s.games, user, Some(room))
        && !Busy(s.games, s.metas[code].creatorId, Some(s.metas[code].creatorRoom))
    ensures OneGamePerOwnRoom(Launch(s, code, g))
  {
    forall i, j, u, r | OwnsActive(Launch(s, code, g), i, u, r) && OwnsActive(Launch(s, code, g), j, u, r)
      ensures i == j
    {
      if i == g.id {
        NewOwner(s, code, g, user, room, u, r);
      } else {
        OldOwner(s, code, g, i, u, r);
      }
      if j == g.id {
        NewOwner(s, code, g, user, room, u, r);
      } else {
        OldOwner(s, code, g, j, u, r);
      }
    }
  }

  lemma LaunchKeepsChannels(s: State, code: string, g: Game, user: string)
    requires ChannelsOk(s) && NoStrays(s) && code in s.metas && s.metas[code].status == Lobby && g.id !in s.games
    requires IsGameId(g.id) && code in Members(s.userIdx, Trim(user))
    requires {g.whiteId, g.blackId} == {Trim(s.metas[code].creatorId), Trim(user)}
    requires g.originRoom == Trim(s.metas[code].creatorRoom)
    ensures ChannelsOk(Launch(s, code, g)) && NoStrays(Launch(s, code, g))
  {
    var t := Launch(s, code, g);
    forall d | d in t.metas ensures ChannelOk(t, d) {
      assert ChannelOk(s, d);
      if d == code {
      } else {
        ChannelFrame(s, t, d);
      }
    }
  }

  lemma LaunchKeepsStore(s: State, code: string, g: Game)
    requires StoreOk(s) && code in s.metas && g.id !in s.games && IsGameId(g.id) && IsNew(g)
    ensures StoreOk(Launch(s, code, g))
  {
    CreateKeepsIndex(s.games, s.index, g);
  }

  lemma LaunchKeepsDistinct(s: State, code: string, g: Game)
    requires ChannelsOk(s) && DistinctGames(s.metas) && code in s.metas && g.id !in s.games && IsGameId(g.id)
    ensures DistinctGames(Launch(s, code, g).metas)
  {
    FreshIsUnbound(s, g.id);
  }

  lemma LaunchKeepsInv(s: State, code: string, g: Game, user: string, room: string)
    requires Inv(s) && code in s.metas && s.metas[code].status == Lobby && g.id !in s.games && IsGameId(g.id)
    requires code in Members(s.userIdx, Trim(user))
    requires IsNew(g) && {g.whiteId, g.blackId} == {Trim(s.metas[code].creatorId), Trim(user)}
    requires g.originRoom == Trim(s.metas[code].creatorRoom) && g.resolveRoom == Trim(room)
    requires !Busy(s.games, user, Some(room))
        && !Busy(s.games, s.metas[code].creatorId, Some(s.metas[code].creatorRoom))
    ensures Inv(Launch(s, code, g))
  {
    LaunchKeepsStore(s, code, g);
    LaunchKeepsChannels(s, code, g, user);
    LaunchKeepsDistinct(s, code, g);
    LaunchKeepsOwnRooms(s, code, g, user, room);
    LobbyFrame(s, Launch(s, code, g));
  }

  lemma EnterAndLaunchKeepsInv(s: State, code: string, room: string, user: string, g: Game)
    requires Inv(s) && IsGameId(g.id) && g.id !in s.games && IsNew(g)
    requires code in s.metas && |Members(s.parts, code)| < 2 && s.metas[code].status == Lobby
    requires {g.whiteId, g.blackId} == {Trim(s.metas[code].creatorId), Trim(user)}
    requires g.originRoom == Trim(s.metas[code].creatorRoom) && g.resolveRoom == Trim(room)
    requires !Busy(s.games, user, Some(room))
    requires !Busy(s.games, s.metas[code].creatorId, Some(s.metas[code].creatorRoom))
    ensures Inv(Launch(Enter(s, code, room, user), code, g))
  {
    EnterKeepsInv(s, code, room, user);
    AddGrows(s.userIdx, Trim(user), code);
    LaunchKeepsInv(Enter(s, code, room, user), code, g, user, room);
  }

  lemma EnterSpecKeepsInv(s: State, code: string, room: string, user: string, g: Game)
    requires Inv(s) && IsGameId(g.id) && g.id !in s.games && IsNew(g)
    requires code in s.metas && |Members(s.parts, code)| < 2 && s.metas[code].status == Lobby
    requires {g.whiteId, g.blackId} == {Trim(s.metas[code].creatorId), Trim(user)}
    requires g.originRoom == Trim(s.metas[code].creatorRoom) && g.resolveRoom == Trim(room)
    ensures Inv(EnterSpec(s, code, room, user, g).0)
  {
    if EnterSpec(s, code, room, user, g).1.Started? {
      EnterAndLaunchKeepsInv(s, code, room, user, g);
    } else {
      EnterKeepsInv(s, code, room, user);
    }
  }

  lemma JoinKeepsInv(s: State, room: string, rawCode: string, user: string, name: string, gameId: string, coin: bool,
      now: int)
    requires Inv(s) && IsGameId(gameId) && gameId !in s.games
    ensures Inv(JoinSpec(s, room, rawCode, user, name, gameId, coin, now).0)
  {
    var code := Trim(rawCode);
    if room != "" && code != "" && user != "" && code in s.metas && s.metas[code].status == Lobby &&
       |Members(s.parts, code)| < 2
    {
      var m := s.metas[code];
      NewGameIsNew(gameId, m.creatorRoom, room, m.creatorId, m.creatorName, user, name, ChooseRandom, coin, now);
      EnterSpecKeepsInv(s, code, room, user, ChannelGame(m, room, user, name, gameId, coin, now));
    }
  }

  /** A committed move or resignation. */
  lemma PlayKeepsChannels(r: Rules, s: State, id: string, req: Request, now: int)
    requires ChannelsOk(s) && Effective(r, s.games, Apply(id, req, now))
    ensures ChannelsOk(s.(games := SeqStep(r, s.games, Apply(id, req, now))))
  {
    var t := s.(games := SeqStep(r, s.games, Apply(id, req, now)));
    StepFollows(r, s.games, Apply(id, req, now));
    forall c | c in s.metas ensures ChannelOk(t, c) {
      assert ChannelOk(s, c);
      ChannelFrame(s, t, c);
    }
  }

  lemma AdvanceKeepsOwnRooms(s: State, g: Game)
    requires OneGamePerOwnRoom(s) && g.id in s.games && SameMatch(s.games[g.id], g) && s.games[g.id].status == Active
    ensures OneGamePerOwnRoom(s.(games := s.games[g.id := g]))
  {
    var t := s.(games := s.games[g.id := g]);
    forall i, u, room | OwnsActive(t, i, u, room) ensures OwnsActive(s, i, u, room) {
    }
  }

  lemma AdvanceKeepsInv(s: State, g: Game)
    requires Inv(s) && g.id in s.games && SameMatch(s.games[g.id], g) && s.games[g.id].status == Active
    requires ChannelsOk(s.(games := s.games[g.id := g]))
    ensures Inv(s.(games := s.games[g.id := g]))
  {
    RewriteKeepsIndex(s.games, s.index, g);
    AdvanceKeepsOwnRooms(s, g);
    LobbyFrame(s, s.(games := s.games[g.id := g]));
  }

  lemma PlayKeepsInv(r: Rules, s: State, id: string, req: Request, now: int)
    requires Inv(s) && Effective(r, s.games, Apply(id, req, now))
    ensures Inv(s.(games := SeqStep(r, s.games, Apply(id, req, now))))
  {
    var next := Decide(r, req, |s.games[id].movesUci|, s.games[id], now).game;
    StepFollows(r, s.games, Apply(id, req, now));
    PlayKeepsChannels(r, s, id, req, now);
    AdvanceKeepsInv(s, next);
  }

  // ---------------------------------------------------------------- what searches rely on

  lemma CreatorsNamed(s: State)
    requires Inv(s)
    ensures forall c :: c in s.metas ==> s.metas[c].creatorId != ""
  {
    forall c | c in s.metas ensures s.metas[c].creatorId != "" {
      assert ChannelOk(s, c);
    }
  }

  /** Channels are bound to ids without surrounding white space. */
  lemma GameIdsTrimmed(s: State)
    requires Inv(s)
    ensures forall c :: c in s.metas ==> Trimmed(s.metas[c].gameId)
  {
    forall c | c in s.metas ensures Trimmed(s.metas[c].gameId) {
      assert ChannelOk(s, c);
    }
  }

  /** The channel bound to a game is indexed under both of its players, one of whom has a name, and is the only one. */
  lemma BoundIsIndexed(s: State, id: string)
    requires Inv(s) && id in s.games
    ensures forall c :: c in s.metas && s.metas[c].gameId == id ==>
              && c in Members(s.userIdx, Trim(s.games[id].whiteId))
                  && c in Members(s.userIdx, Trim(s.games[id].blackId))
              && (Trim(s.games[id].whiteId) != "" || Trim(s.games[id].blackId) != "")
    ensures forall c, d :: c in s.metas && s.metas[c].gameId == id && d in s.metas && s.metas[d].gameId == id ==> c == d
  {
    forall c | c in s.metas && s.metas[c].gameId == id
      ensures c in Members(s.userIdx, Trim(s.games[id].whiteId)) && c in Members(s.userIdx, Trim(s.games[id].blackId))
      ensures Trim(s.games[id].whiteId) != "" || Trim(s.games[id].blackId) != ""
    {
      assert ChannelOk(s, c);
      assert RunningOk(s, c);
      TrimTwice(s.metas[c].creatorId);
    }
  }

  // ---------------------------------------------------------------- whole runs

  datatype Command =
    | Make(room: string, user: string, name: string, codes: seq<string>)
    | Join(room: string, code: string, user: string, name: string, gameId: string, coin: bool, now: int)
    | Play(id: string, req: Request, now: int)

  /** One command; a started game gets an id no stored game has, and a request that does not commit changes nothing. */
  ghost function Do(r: Rules, s: State, cmd: Command): State {
    match cmd
    case Make(room, user, name, codes) => MakeSpec(s, room, user, name, codes).0
    case Join(room, code, user, name, gameId, coin, now) =>
      if !IsGameId(gameId) || gameId in s.games then s else JoinSpec(s, room, code, user, name, gameId, coin, now).0
    case Play(id, req, now) =>
      if Effective(r, s.games, Apply(id, req, now)) then s.(games := SeqStep(r, s.games, Apply(id, req, now))) else s
  }

  ghost function RunAll(r: Rules, cmds: seq<Command>): State {
    if cmds == [] then START else Do(r, RunAll(r, cmds[..|cmds| - 1]), cmds[|cmds| - 1])
  }

  lemma {:induction false} RunsKeepInv(r: Rules, cmds: seq<Command>)
    ensures Inv(RunAll(r, cmds))
  {
    if cmds != [] {
      var s := RunAll(r, cmds[..|cmds| - 1]);
      RunsKeepInv(r, cmds[..|cmds| - 1]);
      match cmds[|cmds| - 1]
      case Make(room, user, name, codes) => MakeKeepsInv(s, room, user, name, codes);
      case Join(room, code, user, name, gameId, coin, now) =>
        if IsGameId(gameId) && gameId !in s.games {
          JoinKeepsInv(s, room, code, user, name, gameId, coin, now);
        }
      case Play(id, req, now) =>
        if Effective(r, s.games, Apply(id, req, now)) {
          PlayKeepsInv(r, s, id, req, now);
        }
    }
  }

  /**
   After any sequence of commands: no user has two active games started from the same own room, no user created two
   waiting lobbies, no channel has more than two participants, and no game is bound to two channels.
   */
  lemma SequentialPolicies(r: Rules, cmds: seq<Command>)
    ensures OneGamePerOwnRoom(RunAll(r, cmds)) && OneLobbyPerCreator(RunAll(r, cmds))
        && DistinctGames(RunAll(r, cmds).metas)
    ensures forall c :: c in RunAll(r, cmds).metas ==> |Members(RunAll(r, cmds).parts, c)| <= 2
  {
    RunsKeepInv(r, cmds);
    forall c | c in RunAll(r, cmds).metas ensures |Members(RunAll(r, cmds).parts, c)| <= 2 {
      assert ChannelOk(RunAll(r, cmds), c);
    }
  }

  // ---------------------------------------------------------------- blank users and rooms

  /** Which names a join may leave blank, once trimmed. */
  datatype Blanks = Blanks(users: bool, rooms: bool)

  /** The join names its user and its room. */
  predicate NamedJoin(cmd: Command) {
    cmd.Join? ==> Trim(cmd.user) != "" && Trim(cmd.room) != ""
  }

  predicate NamedGame(g: Game) {
    g.originRoom != "" && g.resolveRoom != "" && g.whiteId != "" && g.blackId != ""
  }

  predicate NamedMeta(m: Meta) {
    Trim(m.creatorId) != "" && Trim(m.creatorRoom) != ""
  }

  ghost predicate AllNamed(s: State) {
    (forall id :: id in s.games ==> NamedGame(s.games[id])) && (forall c :: c in s.metas ==> NamedMeta(s.metas[c]))
  }

  lemma LaunchKeepsNamed(s: State, code: string, g: Game)
    requires AllNamed(s) && code in s.metas && NamedGame(g)
    ensures AllNamed(Launch(s, code, g))
  {
    assert NamedMeta(s.metas[code]);
  }

  lemma EnterSpecKeepsNamed(s: State, code: string, room: string, user: string, g: Game)
    requires AllNamed(s) && code in s.metas && NamedGame(g)
    ensures AllNamed(EnterSpec(s, code, room, user, g).0)
  {
    var t := Enter(s, code, room, user);
    assert AllNamed(t);
    LaunchKeepsNamed(t, code, g);
  }

  lemma ChannelGameNamed(m: Meta, room: string, user: string, name: string, gameId: string, coin: bool, now: int)
    requires NamedMeta(m) && Trim(user) != "" && Trim(room) != ""
    ensures NamedGame(ChannelGame(m, room, user, name, gameId, coin, now))
  {
  }

  lemma JoinKeepsNamed(s: State, cmd: Command)
    requires AllNamed(s) && cmd.Join? && NamedJoin(cmd)
    ensures AllNamed(JoinSpec(s, cmd.room, cmd.code, cmd.user, cmd.name, cmd.gameId, cmd.coin, cmd.now).0)
  {
    var code := Trim(cmd.code);
    if code in s.metas {
      var m := s.metas[code];
      ChannelGameNamed(m, cmd.room, cmd.user, cmd.name, cmd.gameId, cmd.coin, cmd.now);
      EnterSpecKeepsNamed(s, code, cmd.room, cmd.user,
          ChannelGame(m, cmd.room, cmd.user, cmd.name, cmd.gameId, cmd.coin, cmd.now));
    }
  }

  lemma DoKeepsNamed(r: Rules, s: State, cmd: Command)
    requires AllNamed(s) && NamedJoin(cmd)
    ensures AllNamed(Do(r, s, cmd))
  {
    match cmd
    case Make(room, user, name, codes) => MakeCases(s, room, user, name, codes);
    case Join(_, _, _, _, _, _, _) => JoinKeepsNamed(s, cmd);
    case Play(id, req, now) =>
      if Effective(r, s.games, Apply(id, req, now)) {
        StepFollows(r, s.games, Apply(id, req, now));
      }
  }

  lemma {:induction false} RunsKeepNamed(r: Rules, cmds: seq<Command>)
    requires forall cmd :: cmd in cmds ==> NamedJoin(cmd)
    ensures AllNamed(RunAll(r, cmds))
  {
    if cmds != [] {
      assert cmds[|cmds| - 1] in cmds && forall cmd :: cmd in cmds[..|cmds| - 1] ==> cmd in cmds;
      RunsKeepNamed(r, cmds[..|cmds| - 1]);
      DoKeepsNamed(r, RunAll(r, cmds[..|cmds| - 1]), cmds[|cmds| - 1]);
    }
  }

  /** When every join names its user and room, the own-room policy holds for all rooms. */
  lemma NamedJoinsKeepPolicy(r: Rules, cmds: seq<Command>)
    requires forall cmd :: cmd in cmds ==> NamedJoin(cmd)
    ensures OneGamePerAnyRoom(RunAll(r, cmds))
  {
    var s := RunAll(r, cmds);
    RunsKeepInv(r, cmds);
    RunsKeepNamed(r, cmds);
    forall i, user, room | OwnsAnywhere(s, i, user, room) ensures OwnsActive(s, i, user, room) {
      assert NamedGame(s.games[i]);
    }
  }

  /** Make by an idle user under one free code. */
  lemma MakeOpens(r: Rules, s: State, room: string, user: string, name: string, code: string)
    requires Trim(room) != "" && Trim(user) != "" && s.games == map[] && code !in s.metas
    requires Members(s.userIdx, Trim(user)) == {}
    ensures Do(r, s, Make(room, user, name, [code])) == Open(s, code, room, user, name)
  {
    assert !Busy(s.games, user, Some(room)) && !HasLobby(s, user);
    assert FirstFree(s.metas, [code]) == Some(code);
    assert MakeSpec(s, room, user, name, [code]).0 == Open(s, code, room, user, name);
  }

  /** The user or the room is not empty as it stands, but one of them is once trimmed. */
  predicate BlankName(user: string, room: string) {
    user != "" && room != "" && (Trim(user) == "" || Trim(room) == "")
  }

  lemma BlankIsBlank()
    ensures Trim(" ") == ""
  {
    assert TrimLeft(" "[1..]) == "";
  }

  /** A waiting channel whose only participant is its creator, another user than this one. */
  predicate Awaits(s: State, code: string, user: string) {
    && Trim(code) == code != ""
    && code in s.metas && s.metas[code].status == Lobby && s.metas[code].gameId == ""
    && Members(s.parts, code) == {s.metas[code].creatorId}
    && Trim(s.metas[code].creatorId) == s.metas[code].creatorId && s.metas[code].creatorId !in {user, Trim(user)}
  }

  lemma BlankEnter(s: State, code: string, room: string, user: string, g: Game)
    requires BlankName(user, room) && code in s.metas && s.metas[code].gameId == ""
    requires Members(s.parts, code) == {s.metas[code].creatorId} && s.metas[code].creatorId != user
    requires !Busy(s.games, s.metas[code].creatorId, Some(s.metas[code].creatorRoom))
    ensures EnterSpec(s, code, room, user, g).0 == Launch(Enter(s, code, room, user), code, g)
  {
    var creator := s.metas[code].creatorId;
    assert Members(Enter(s, code, room, user).parts, code) == {creator, user};
    assert |{creator, user}| == 2;
    assert BlankSearch(user, Some(room));
  }

  /** Joining a waiting channel with one participant under a blank name starts its game, if the creator is not busy. */
  lemma BlankJoin(r: Rules, s: State, code: string, room: string, user: string, name: string, gameId: string, now: int)
    requires BlankName(user, room) && Awaits(s, code, user) && IsGameId(gameId) && gameId !in s.games
    requires !Busy(s.games, s.metas[code].creatorId, Some(s.metas[code].creatorRoom))
    ensures Do(r, s, Join(room, code, user, name, gameId, false, now)) ==
            Launch(Enter(s, code, room, user), code, ChannelGame(s.metas[code], room, user, name, gameId, false, now))
  {
    BlankEnter(s, code, room, user, ChannelGame(s.metas[code], room, user, name, gameId, false, now));
    assert |Members(s.parts, code)| == 1;
  }

  /** An active game between the creator of a channel and the joiner, as the channel starts it. */
  predicate JoinersGame(m: Meta, room: string, user: string, g: Game) {
    && g.whiteId == Trim(m.creatorId) && g.blackId == Trim(user) && g.resolveRoom == Trim(room) && g.status == Active
  }

  lemma ChannelGameIsJoiners(m: Meta, room: string, user: string, name: string, id: string, now: int)
    ensures var g := ChannelGame(m, room, user, name, id, false, now); g.id == id && JoinersGame(m, room, user, g)
  {
  }

  /** What the joiner owns afterwards. */
  lemma LaunchedIsOwned(s: State, code: string, room: string, user: string, g: Game)
    requires code in s.metas && Trim(user) != Trim(s.metas[code].creatorId)
    requires JoinersGame(s.metas[code], room, user, g)
    ensures var t := Launch(Enter(s, code, room, user), code, g);
            && t.games == s.games[g.id := g] && OwnsAnywhere(t, g.id, Trim(user), Trim(room))
            && code in t.metas && t.metas[code].gameId == g.id && t.metas[code].creatorId == s.metas[code].creatorId
  {
    var t := Launch(Enter(s, code, room, user), code, g);
    assert t.metas[code].gameId == g.id && t.games[g.id] == g;
    assert OwnRoom(t, g.id, Trim(user), Trim(room));
  }

  /** Other channels are left alone. */
  lemma LaunchLeavesOthers(s: State, code: string, room: string, user: string, g: Game, d: string)
    requires code in s.metas && d in s.metas && d != code
    ensures var t := Launch(Enter(s, code, room, user), code, g);
            d in t.metas && t.metas[d] == s.metas[d] && Members(t.parts, d) == Members(s.parts, d)
  {
  }

  /** A game stays owned while its channel and itself are left alone. */
  lemma StillOwned(s: State, t: State, c: string, id: string, room: string, user: string)
    requires c in s.metas && s.metas[c].gameId == id && Trim(user) != Trim(s.metas[c].creatorId)
    requires id in s.games && JoinersGame(s.metas[c], room, user, s.games[id])
    requires c in t.metas && t.metas[c] == s.metas[c] && id in t.games && t.games[id] == s.games[id]
    ensures OwnsAnywhere(t, id, Trim(user), Trim(room))
  {
  }

  /** The first game leaves the other channel waiting and its creator idle. */
  lemma FirstBlankJoin(s: State, c: string, e: string, room: string, user: string, g: Game) returns (t: State)
    requires c != e && s.games == map[] && Awaits(s, c, user) && Awaits(s, e, user)
    requires s.metas[c].creatorId != s.metas[e].creatorId
    requires g.id == "g" && JoinersGame(s.metas[c], room, user, g)
    ensures t == Launch(Enter(s, c, room, user), c, g)
    ensures Awaits(t, e, user) && !Busy(t.games, t.metas[e].creatorId, Some(t.metas[e].creatorRoom))
    ensures t.games == map["g" := g]
    ensures c in t.metas && t.metas[c].gameId == "g" && Trim(user) != Trim(t.metas[c].creatorId)
    ensures JoinersGame(t.metas[c], room, user, g)
  {
    LaunchedIsOwned(s, c, room, user, g);
    LaunchLeavesOthers(s, c, room, user, g, e);
    t := Launch(Enter(s, c, room, user), c, g);
  }

  /** The second join starts a second game and leaves the first one as it was. */
  lemma SecondBlankJoin(r: Rules, t: State, c: string, e: string, room: string, user: string, name: string, g: Game)
    requires BlankName(user, room) && c != e && t.games == map["g" := g]
    requires Awaits(t, e, user) && !Busy(t.games, t.metas[e].creatorId, Some(t.metas[e].creatorRoom))
    requires c in t.metas && t.metas[c].gameId == "g" && Trim(user) != Trim(t.metas[c].creatorId)
    requires JoinersGame(t.metas[c], room, user, g)
    ensures var u := Do(r, t, Join(room, e, user, name, "h", false, 2));
            OwnsAnywhere(u, "g", Trim(user), Trim(room)) && OwnsAnywhere(u, "h", Trim(user), Trim(room))
  {
    assert "h" != "g" && "h" !in t.games;
    SolidIsTrimmed("h");
    var h := ChannelGame(t.metas[e], room, user, name, "h", false, 2);
    ChannelGameIsJoiners(t.metas[e], room, user, name, "h", 2);
    BlankJoin(r, t, e, room, user, name, "h", 2);
    LaunchedIsOwned(t, e, room, user, h);
    LaunchLeavesOthers(t, e, room, user, h, c);
    StillOwned(t, Launch(Enter(t, e, room, user), e, h), c, "g", room, user);
  }

  /** A user who joins two waiting channels under a blank name gets two active games there. */
  lemma BlankJoinsTwice(r: Rules, s: State, c: string, e: string, room: string, user: string, name: string)
    requires BlankName(user, room)
    requires c != e && s.games == map[] && Awaits(s, c, user) && Awaits(s, e, user)
    requires s.metas[c].creatorId != s.metas[e].creatorId
    ensures var t := Do(r, Do(r, s, Join(room, c, user, name, "g", false, 1)),
                        Join(room, e, user, name, "h", false, 2));
            OwnsAnywhere(t, "g", Trim(user), Trim(room)) && OwnsAnywhere(t, "h", Trim(user), Trim(room))
  {
    SolidIsTrimmed("g");
    var g := ChannelGame(s.metas[c], room, user, name, "g", false, 1);
    ChannelGameIsJoiners(s.metas[c], room, user, name, "g", 1);
    BlankJoin(r, s, c, room, user, name, "g", 1);
    var t := FirstBlankJoin(s, c, e, room, user, g);
    SecondBlankJoin(r, t, c, e, room, user, name, g);
  }

  /** Two lobbies, and one user who joins both of them from one room. */
  function JoinsTwiceRun(room: string, user: string): seq<Command> {
    [Make("r", "a", "A", ["c"]), Make("q", "d", "D", ["e"]),
     Join(room, "c", user, "B", "g", false, 1), Join(room, "e", user, "B", "h", false, 2)]
  }

  lemma WordsTrimmed()
    ensures Trim("a") == "a" && Trim("c") == "c" && Trim("d") == "d" && Trim("e") == "e"
    ensures Trim("q") == "q" && Trim("r") == "r"
  {
    SolidIsTrimmed("a");
    SolidIsTrimmed("c");
    SolidIsTrimmed("d");
    SolidIsTrimmed("e");
    SolidIsTrimmed("q");
    SolidIsTrimmed("r");
  }

  lemma LobbiesAwait(r: Rules, user: string) returns (t: State)
    requires user !in {"a", "d"} && Trim(user) !in {"a", "d"}
    ensures t == Do(r, Do(r, START, Make("r", "a", "A", ["c"])), Make("q", "d", "D", ["e"]))
    ensures t.games == map[] && Awaits(t, "c", user) && Awaits(t, "e", user)
    ensures t.metas["c"].creatorId != t.metas["e"].creatorId
  {
    WordsTrimmed();
    var s := Open(START, "c", "r", "a", "A");
    MakeOpens(r, START, "r", "a", "A", "c");
    assert "a" != "d" && Members(s.userIdx, "d") == {};
    MakeOpens(r, s, "q", "d", "D", "e");
    t := Open(s, "e", "q", "d", "D");
    assert "c" != "e" && Members(t.parts, "c") == {"a"} && Members(t.parts, "e") == {"d"};
  }

  lemma FourSteps(r: Rules, a: Command, b: Command, c: Command, d: Command)
    ensures RunAll(r, [a, b, c, d]) == Do(r, Do(r, Do(r, Do(r, START, a), b), c), d)
  {
    assert [a, b, c, d][..3] == [a, b, c] && [a, b, c][..2] == [a, b] && [a, b][..1] == [a] && [a][..0] == [];
    assert RunAll(r, [a]) == Do(r, START, a);
    assert RunAll(r, [a, b]) == Do(r, RunAll(r, [a]), b);
    assert RunAll(r, [a, b, c]) == Do(r, RunAll(r, [a, b]), c);
  }

  /** Under a blank name a user who is neither creator ends with two active games from the one room. */
  lemma BlankNameGetsTwoGames(r: Rules, room: string, user: string)
    requires BlankName(user, room) && user !in {"a", "d"} && Trim(user) !in {"a", "d"}
    ensures var s := RunAll(r, JoinsTwiceRun(room, user));
            OwnsAnywhere(s, "g", Trim(user), Trim(room)) && OwnsAnywhere(s, "h", Trim(user), Trim(room))
  {
    var t := LobbiesAwait(r, user);
    BlankJoinsTwice(r, t, "c", "e", room, user, "B");
    FourSteps(r, Make("r", "a", "A", ["c"]), Make("q", "d", "D", ["e"]),
        Join(room, "c", user, "B", "g", false, 1), Join(room, "e", user, "B", "h", false, 2));
  }

  /** A user with a name and a room of blanks. */
  lemma BlankRoomGetsTwoGames(r: Rules)
    ensures var s := RunAll(r, JoinsTwiceRun(" ", "b")); OwnsAnywhere(s, "g", "b", "") && OwnsAnywhere(s, "h", "b", "")
  {
    SolidIsTrimmed("b");
    BlankIsBlank();
    BlankNameGetsTwoGames(r, " ", "b");
  }

  /** A user of blanks and a room with a name. */
  lemma BlankUserGetsTwoGames(r: Rules)
    ensures var s := RunAll(r, JoinsTwiceRun("z", " ")); OwnsAnywhere(s, "g", "", "z") && OwnsAnywhere(s, "h", "", "z")
  {
    SolidIsTrimmed("z");
    BlankIsBlank();
    BlankNameGetsTwoGames(r, "z", " ");
  }

  /** Every join of the run names its user, unless blank users are let in, and its room, unless blank rooms are. */
  predicate JoinsNamed(p: Blanks, cmds: seq<Command>) {
    forall cmd :: cmd in cmds && cmd.Join? ==>
      (p.users || Trim(cmd.user) != "") && (p.rooms || Trim(cmd.room) != "")
  }

  lemma WitnessesAreNamed()
    ensures JoinsNamed(Blanks(false, true), JoinsTwiceRun(" ", "b"))
    ensures JoinsNamed(Blanks(true, false), JoinsTwiceRun("z", " "))
  {
    SolidIsTrimmed("b");
    SolidIsTrimmed("z");
  }

  /** The own-room policy holds for all users and rooms, after all commands, exactly when neither is let in blank. */
  lemma AnyRoomPolicyIff(r: Rules, p: Blanks)
    ensures (forall cmds :: JoinsNamed(p, cmds) ==> OneGamePerAnyRoom(RunAll(r, cmds))) <==> !p.users && !p.rooms
  {
    WitnessesAreNamed();
    if p.rooms {
      BlankRoomGetsTwoGames(r);
      assert JoinsNamed(p, JoinsTwiceRun(" ", "b")) && !OneGamePerAnyRoom(RunAll(r, JoinsTwiceRun(" ", "b")));
    } else if p.users {
      BlankUserGetsTwoGames(r);
      assert JoinsNamed(p, JoinsTwiceRun("z", " ")) && !OneGamePerAnyRoom(RunAll(r, JoinsTwiceRun("z", " ")));
    } else {
      forall cmds | JoinsNamed(p, cmds) ensures OneGamePerAnyRoom(RunAll(r, cmds)) {
        NamedJoinsKeepPolicy(r, cmds);
      }
    }
  }
}
