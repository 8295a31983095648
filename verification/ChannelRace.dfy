/**
 Any number of clients running Make and Join at the same time. Each event is one Redis command of one client, or one
 game creation. Searches for running games may answer anything. `Policy` says which joins callers are allowed to send:
 `early` lets a user join a channel before its creator has been added, `self` lets the creator join.
 */
module ChannelRace {

  datatype Policy = Policy(early: bool, self: bool)

  datatype Record = Absent | Blank | Stored(creator: string, gameId: string)

  /** One channel: its record, its participant set with the version WATCH sees, and the clients whose EXEC joined. */
  datatype Chan = Chan(record: Record, parts: set<string>, version: nat, joined: seq<nat>)

  datatype Outcome = Gone | Active | Full | Conflict | Queued | Busy | Started

  datatype Pc =
    | Asked
    | Holding(code: string) | Saved(code: string) | Opened(code: string)
    | Loaded | Watching(version: nat) | Counted(version: nat)
    | Committed | Reloaded(creator: string, gameId: string) | Ready(creator: string) | Clear(creator: string)
    | Created(creator: string, newId: string)
    | Done(outcome: Outcome)

  /** A client running Make, or Join on one channel. */
  datatype Client = Maker(user: string, pc: Pc) | Joiner(code: string, user: string, pc: Pc)

  datatype Game = Game(code: string, id: string, challenger: string, target: string, starter: nat)

  datatype World = World(chans: map<string, Chan>, clients: map<nat, Client>, games: seq<Game>)

  datatype Event =
    | MakeArrive(c: nat, user: string) | Reserve(c: nat, code: string) | SaveNew(c: nat) | AddCreator(c: nat)
    | JoinArrive(c: nat, code: string, user: string) | Load(c: nat) | Watch(c: nat) | Count(c: nat) | Exec(c: nat)
    | Reload(c: nat) | Recount(c: nat) | Check(c: nat, busy: bool) | CreateGame(c: nat, id: string) | SaveGame(c: nat)
    | Touch(code: string)

  const EMPTY := World(map[], map[], [])
  const NO_CHAN := Chan(Absent, {}, 0, [])

  function At(w: World, code: string): Chan {
    if code in w.chans then w.chans[code] else NO_CHAN
  }

  /** The creator has been added to the channel's participants. */
  predicate Added(ch: Chan) {
    ch.record.Stored? && ch.record.creator in ch.parts
  }

  predicate Allowed(p: Policy, ch: Chan, user: string) {
    && (p.early || Added(ch))
    && (p.self || !(ch.record.Stored? && ch.record.creator == user))
  }

  function Goto(w: World, c: nat, pc: Pc): World
    requires c in w.clients
  {
    w.(clients := w.clients[c := w.clients[c].(pc := pc)])
  }

  function Put(w: World, code: string, ch: Chan): World {
    w.(chans := w.chans[code := ch])
  }

  predicate Making(w: World, c: nat) {
    c in w.clients && w.clients[c].Maker?
  }

  predicate Joining(w: World, c: nat) {
    c in w.clients && w.clients[c].Joiner?
  }

  function MakeStep(w: World, e: Event): World {
    match e
    case MakeArrive(c, user) =>
      if c in w.clients then w else w.(clients := w.clients[c := Maker(user, Asked)])
    case Reserve(c, code) =>
      if Making(w, c) && w.clients[c].pc == Asked && At(w, code).record.Absent? then
        Goto(Put(w, code, At(w, code).(record := Blank)), c, Holding(code))
      else w
    case SaveNew(c) =>
      if Making(w, c) && w.clients[c].pc.Holding? then
        var code := w.clients[c].pc.code;
        Goto(Put(w, code, At(w, code).(record := Stored(w.clients[c].user, ""))), c, Saved(code))
      else w
    case AddCreator(c) =>
      if Making(w, c) && w.clients[c].pc.Saved? then
        var code := w.clients[c].pc.code;
        var ch := At(w, code);
        Goto(Put(w, code, ch.(parts := ch.parts + {w.clients[c].user}, version := ch.version + 1)), c, Opened(code))
      else w
    case _ => w
  }

  /** The commands of Join that only read. */
  function Advance(ch: Chan, pc: Pc, e: Event): Pc {
    match (e, pc)
    case (Load(_), Asked) =>
      if ch.record.Absent? then Done(Gone)
      else if ch.record.Blank? || ch.record.gameId != "" then Done(Active)
      else Loaded
    case (Watch(_), Loaded) => Watching(ch.version)
    case (Count(_), Watching(v)) => if |ch.parts| >= 2 then Done(Full) else Counted(v)
    case (Reload(_), Committed) => if ch.record.Stored? then Reloaded(ch.record.creator, ch.record.gameId) else pc
    case (Recount(_), Reloaded(creator, gameId)) =>
      if |ch.parts| < 2 || gameId != "" then Done(Queued) else Ready(creator)
    case (Check(_, busy), Ready(creator)) => if busy then Done(Busy) else Clear(creator)
    case _ => pc
  }

  function ExecStep(w: World, c: nat): World {
    if Joining(w, c) && w.clients[c].pc.Counted? then
      var code := w.clients[c].code;
      var ch := At(w, code);
      if ch.version == w.clients[c].pc.version then
        var entered := ch.(
          parts := ch.parts + {w.clients[c].user}, version := ch.version + 1, joined := ch.joined + [c]);
        Goto(Put(w, code, entered), c, Committed)
      else Goto(w, c, Done(Conflict))
    else w
  }

  function CreateStep(w: World, c: nat, id: string): World {
    if Joining(w, c) && w.clients[c].pc.Clear? && id != "" then
      var cl := w.clients[c];
      Goto(w.(games := w.games + [Game(cl.code, id, cl.pc.creator, cl.user, c)]), c, Created(cl.pc.creator, id))
    else w
  }

  function SaveGameStep(w: World, c: nat): World {
    if Joining(w, c) && w.clients[c].pc.Created? then
      var cl := w.clients[c];
      Goto(Put(w, cl.code, At(w, cl.code).(record := Stored(cl.pc.creator, cl.pc.newId))), c, Done(Started))
    else w
  }

  function Step(p: Policy, w: World, e: Event): World {
    match e
    case JoinArrive(c, code, user) =>
      if c in w.clients || !Allowed(p, At(w, code), user) then w
      else w.(clients := w.clients[c := Joiner(code, user, Asked)])
    case Exec(c) => ExecStep(w, c)
    case CreateGame(c, id) => CreateStep(w, c, id)
    case SaveGame(c) => SaveGameStep(w, c)
    case Touch(code) => Put(w, code, At(w, code).(version := At(w, code).version + 1))
    case MakeArrive(_, _) => MakeStep(w, e)
    case Reserve(_, _) => MakeStep(w, e)
    case SaveNew(_) => MakeStep(w, e)
    case AddCreator(_) => MakeStep(w, e)
    case _ =>
      if Joining(w, e.c) then Goto(w, e.c, Advance(At(w, w.clients[e.c].code), w.clients[e.c].pc, e)) else w
  }

  function Run(p: Policy, es: seq<Event>): World {
    if es == [] then EMPTY else Step(p, Run(p, es[..|es| - 1]), es[|es| - 1])
  }

  // ---------------------------------------------------------------- what callers want

  ghost predicate AtMostTwo(w: World) {
    forall code :: |At(w, code).parts| <= 2
  }

  ghost predicate AtMostOneGame(w: World) {
    forall i, j :: 0 <= i < j < |w.games| ==> w.games[i].code != w.games[j].code
  }

  /** Every game is between the creator of its channel and the one client whose EXEC filled the channel. */
  ghost predicate BetweenParticipants(w: World) {
    forall i :: 0 <= i < |w.games| ==>
      var g := w.games[i];
      var ch := At(w, g.code);
      && ch.record.Stored? && g.challenger == ch.record.creator && g.target != g.challenger
      && ch.parts == {g.challenger, g.target} && ch.joined == [g.starter]
  }

  // ---------------------------------------------------------------- invariant behind "at most two participants"

  predicate MakerHolds(cl: Client, code: string) {
    cl.Maker? && (cl.pc == Holding(code) || cl.pc == Saved(code))
  }

  /** What is true of a channel and of one client at its program point. */
  ghost predicate MakerOk(w: World, cl: Client)
    requires cl.Maker?
  {
    match cl.pc
    case Holding(code) => At(w, code).record == Blank && At(w, code).parts == {}
    case Saved(code) => At(w, code).record == Stored(cl.user, "") && At(w, code).parts == {}
    case Opened(_) => true
    case Asked => true
    case _ => false
  }

  ghost predicate JoinerOk(w: World, cl: Client)
    requires cl.Joiner?
  {
    var ch := At(w, cl.code);
    && Added(ch)
    && (match cl.pc
        case Watching(v) => v <= ch.version
        case Counted(v) => v <= ch.version && (v == ch.version ==> |ch.parts| < 2)
        case Reloaded(creator, _) => creator == ch.record.creator
        case Ready(creator) => creator == ch.record.creator
        case Clear(creator) => creator == ch.record.creator
        case Created(creator, id) => creator == ch.record.creator && id != ""
        case _ => true)
  }

  ghost predicate ChanOk(w: World, code: string) {
    && |At(w, code).parts| <= 2
    && (!At(w, code).record.Stored? ==> At(w, code).parts == {})
  }

  ghost predicate ClientOk(w: World, c: nat)
    requires c in w.clients
  {
    if w.clients[c].Maker? then MakerOk(w, w.clients[c]) else JoinerOk(w, w.clients[c])
  }

  ghost predicate ClientsOk(w: World) {
    forall c :: c in w.clients ==> ClientOk(w, c)
  }

  ghost predicate OneHolder(w: World) {
    forall c, d, code
      | c in w.clients && d in w.clients && MakerHolds(w.clients[c], code) && MakerHolds(w.clients[d], code) :: c == d
  }

  ghost predicate Inv(w: World) {
    (forall code :: ChanOk(w, code)) && ClientsOk(w) && OneHolder(w)
  }

  /** The channel a Make command works on, if it does anything. */
  function MakeCode(w: World, e: Event): string {
    match e
    case Reserve(_, code) => code
    case SaveNew(c) => if Making(w, c) && w.clients[c].pc.Holding? then w.clients[c].pc.code else ""
    case AddCreator(c) => if Making(w, c) && w.clients[c].pc.Saved? then w.clients[c].pc.code else ""
    case _ => ""
  }

  lemma MakeKeepsChans(w: World, e: Event)
    requires Inv(w) && !e.Touch?
    ensures forall code :: ChanOk(MakeStep(w, e), code)
  {
    forall code ensures ChanOk(MakeStep(w, e), code) {
      assert ChanOk(w, code);
      if Making(w, e.c) {
        assert ClientOk(w, e.c);
      }
    }
  }

  /** Clients other than the one that runs Make's command: one that makes a channel, and one that joins. */
  lemma MakeKeepsMaker(w: World, e: Event, c: nat)
    requires Inv(w) && !e.Touch? && c in w.clients && c != e.c && w.clients[c].Maker?
    ensures var v := MakeStep(w, e); c in v.clients && v.clients[c] == w.clients[c] && MakerOk(v, w.clients[c])
  {
    assert ClientOk(w, c);
    if Making(w, e.c) {
      assert ClientOk(w, e.c);
      assert !(MakerHolds(w.clients[c], MakeCode(w, e)) && MakerHolds(w.clients[e.c], MakeCode(w, e)));
    }
  }

  lemma MakeKeepsJoiner(w: World, e: Event, c: nat)
    requires Inv(w) && !e.Touch? && c in w.clients && c != e.c && w.clients[c].Joiner?
    ensures var v := MakeStep(w, e); c in v.clients && v.clients[c] == w.clients[c] && JoinerOk(v, w.clients[c])
  {
    assert ClientOk(w, c) && ChanOk(w, MakeCode(w, e));
    if Making(w, e.c) {
      assert ClientOk(w, e.c);
    }
  }

  lemma MakeKeepsOwn(w: World, e: Event)
    requires Inv(w) && !e.Touch? && e.c in MakeStep(w, e).clients
    ensures ClientOk(MakeStep(w, e), e.c)
  {
    assert ChanOk(w, MakeCode(w, e));
    if e.c in w.clients {
      assert ClientOk(w, e.c);
    }
  }

  lemma MakeKeepsClients(w: World, e: Event)
    requires Inv(w) && !e.Touch?
    ensures ClientsOk(MakeStep(w, e))
  {
    var v := MakeStep(w, e);
    forall c | c in v.clients ensures ClientOk(v, c) {
      if c == e.c {
        MakeKeepsOwn(w, e);
      } else if w.clients[c].Maker? {
        MakeKeepsMaker(w, e, c);
      } else {
        MakeKeepsJoiner(w, e, c);
      }
    }
  }

  lemma MakeKeepsHolder(w: World, e: Event)
    requires Inv(w) && !e.Touch?
    ensures OneHolder(MakeStep(w, e))
  {
    var v := MakeStep(w, e);
    forall c, d, code | c in v.clients && d in v.clients && MakerHolds(v.clients[c], code)
        && MakerHolds(v.clients[d], code)
      ensures c == d
    {
      if c in w.clients {
        assert ClientOk(w, c);
      }
      if d in w.clients {
        assert ClientOk(w, d);
      }
    }
  }

  lemma MakeKeepsInv(w: World, e: Event)
    requires Inv(w) && !e.Touch?
    ensures Inv(MakeStep(w, e))
  {
    MakeKeepsChans(w, e);
    MakeKeepsClients(w, e);
    MakeKeepsHolder(w, e);
  }

  /** Moving one joining client, with its channel gaining versions and at most one participant, keeps the invariant. */
  lemma JoinMoveKeepsInv(w: World, v: World, c: nat)
    requires Inv(w) && Joining(w, c) && Joining(v, c)
    requires w.clients.Keys == v.clients.Keys && forall d :: d in w.clients && d != c ==> v.clients[d] == w.clients[d]
    requires v.clients[c].code == w.clients[c].code
    requires forall k :: k != w.clients[c].code ==> At(v, k) == At(w, k)
    requires var old_, new_ := At(w, w.clients[c].code), At(v, w.clients[c].code);
             && new_.record.Stored? && new_.record.creator == old_.record.creator && old_.parts <= new_.parts
             && |new_.parts| <= 2 && old_.version <= new_.version
                 && (old_.version == new_.version ==> old_.parts == new_.parts)
    requires JoinerOk(v, v.clients[c])
    ensures Inv(v)
  {
    var k0 := w.clients[c].code;
    assert ClientOk(w, c);
    forall k ensures ChanOk(v, k) {
      assert ChanOk(w, k);
    }
    forall d | d in v.clients ensures ClientOk(v, d) {
      assert ClientOk(w, d);
      assert ClientOk(w, c);
    }
  }

  lemma AdvanceKeepsInv(w: World, c: nat, e: Event)
    requires Inv(w) && Joining(w, c)
    ensures Inv(Goto(w, c, Advance(At(w, w.clients[c].code), w.clients[c].pc, e)))
  {
    assert ClientOk(w, c);
    assert ChanOk(w, w.clients[c].code);
    JoinMoveKeepsInv(w, Goto(w, c, Advance(At(w, w.clients[c].code), w.clients[c].pc, e)), c);
  }

  lemma ExecKeepsInv(w: World, c: nat)
    requires Inv(w)
    ensures Inv(ExecStep(w, c))
  {
    if ExecStep(w, c) != w {
      assert ClientOk(w, c);
      assert ChanOk(w, w.clients[c].code);
      JoinMoveKeepsInv(w, ExecStep(w, c), c);
    }
  }

  lemma SaveGameKeepsInv(w: World, c: nat)
    requires Inv(w)
    ensures Inv(SaveGameStep(w, c))
  {
    if SaveGameStep(w, c) != w {
      assert ClientOk(w, c);
      assert ChanOk(w, w.clients[c].code);
      JoinMoveKeepsInv(w, SaveGameStep(w, c), c);
    }
  }

  lemma CreateKeepsInv(w: World, c: nat, id: string)
    requires Inv(w)
    ensures Inv(CreateStep(w, c, id))
  {
    if CreateStep(w, c, id) != w {
      assert ClientOk(w, c);
      assert ChanOk(w, w.clients[c].code);
      JoinMoveKeepsInv(w, CreateStep(w, c, id), c);
    }
  }

  lemma JoinArriveKeepsInv(p: Policy, w: World, c: nat, code: string, user: string)
    requires Inv(w) && !p.early
    ensures Inv(Step(p, w, JoinArrive(c, code, user)))
  {
    var v := Step(p, w, JoinArrive(c, code, user));
    forall k ensures ChanOk(v, k) {
      assert ChanOk(w, k);
    }
    forall d | d in w.clients ensures ClientOk(v, d) {
      assert ClientOk(w, d);
    }
  }

  lemma TouchKeepsInv(p: Policy, w: World, code: string)
    requires Inv(w)
    ensures Inv(Step(p, w, Touch(code)))
  {
    var v := Step(p, w, Touch(code));
    forall k ensures ChanOk(v, k) {
      assert ChanOk(w, k);
    }
    forall d | d in w.clients ensures ClientOk(v, d) {
      assert ClientOk(w, d);
    }
  }

  lemma StepKeepsInv(p: Policy, w: World, e: Event)
    requires Inv(w) && !p.early
    ensures Inv(Step(p, w, e))
  {
    match e
    case JoinArrive(c, code, user) => JoinArriveKeepsInv(p, w, c, code, user);
    case Exec(c) => ExecKeepsInv(w, c);
    case CreateGame(c, id) => CreateKeepsInv(w, c, id);
    case SaveGame(c) => SaveGameKeepsInv(w, c);
    case Touch(code) => TouchKeepsInv(p, w, code);
    case MakeArrive(_, _) => MakeKeepsInv(w, e);
    case Reserve(_, _) => MakeKeepsInv(w, e);
    case SaveNew(_) => MakeKeepsInv(w, e);
    case AddCreator(_) => MakeKeepsInv(w, e);
    case _ =>
      if Joining(w, e.c) {
        AdvanceKeepsInv(w, e.c, e);
      }
  }

  lemma {:induction false} RunInv(p: Policy, es: seq<Event>)
    requires !p.early
    ensures Inv(Run(p, es))
  {
    if es != [] {
      RunInv(p, es[..|es| - 1]);
      StepKeepsInv(p, Run(p, es[..|es| - 1]), es[|es| - 1]);
    }
  }

  // ---------------------------------------------------------------- invariant behind "at most one game"

  predicate PastCommit(pc: Pc) {
    pc.Committed? || pc.Reloaded? || pc.Ready? || pc.Clear? || pc.Created?
    || (pc.Done? && pc.outcome in {Queued, Busy, Started})
  }

  predicate HasCreated(pc: Pc) {
    pc.Created? || pc == Done(Started)
  }

  /** The joins a channel has seen: none, or exactly one, by a user other than the creator. */
  ghost predicate JoinedOk(w: World, code: string) {
    var ch := At(w, code);
    || (ch.joined == [] && (ch.record.Stored? ==> ch.parts <= {ch.record.creator}))
    || (|ch.joined| == 1 && ch.record.Stored?
        && var c := ch.joined[0];
        c in w.clients && w.clients[c].Joiner? && w.clients[c].code == code && PastCommit(w.clients[c].pc)
        && w.clients[c].user != ch.record.creator && ch.parts == {ch.record.creator, w.clients[c].user})
  }

  ghost predicate StrangersOnly(w: World) {
    forall c :: c in w.clients && w.clients[c].Joiner? ==>
      && At(w, w.clients[c].code).record.Stored?
      && w.clients[c].user != At(w, w.clients[c].code).record.creator
      && (PastCommit(w.clients[c].pc) ==> At(w, w.clients[c].code).joined == [c])
  }

  ghost predicate GamesOk(w: World) {
    forall i :: 0 <= i < |w.games| ==>
      var g := w.games[i];
      && g.starter in w.clients && w.clients[g.starter].Joiner? && w.clients[g.starter].code == g.code
          && w.clients[g.starter].user == g.target
      && HasCreated(w.clients[g.starter].pc)
      && At(w, g.code).record.Stored? && g.challenger == At(w, g.code).record.creator
  }

  ghost predicate InvOne(w: World) {
    && Inv(w)
    && (forall code :: JoinedOk(w, code))
    && StrangersOnly(w)
    && GamesOk(w)
    && AtMostOneGame(w)
  }

  /** Make's commands leave joining clients, games, and the joins a channel has seen alone. */
  lemma MakeFrame(w: World, e: Event, code: string)
    requires Inv(w) && !e.Touch?
    ensures var v := MakeStep(w, e);
            && v.games == w.games && At(v, code).joined == At(w, code).joined
            && (forall c :: c in w.clients && w.clients[c].Joiner? ==> c in v.clients && v.clients[c] == w.clients[c])
            && (forall c :: c in v.clients && v.clients[c].Joiner? ==> c in w.clients)
            && (At(w, code).record.Stored? && Added(At(w, code)) ==> At(v, code).record == At(w, code).record)
  {
    if Making(w, e.c) {
      assert ClientOk(w, e.c);
    }
  }

  lemma MakeKeepsJoined(w: World, e: Event, code: string)
    requires InvOne(w) && !e.Touch?
    ensures JoinedOk(MakeStep(w, e), code)
  {
    assert JoinedOk(w, code);
    MakeFrame(w, e, code);
  }

  lemma MakeKeepsStrangers(w: World, e: Event)
    requires InvOne(w) && !e.Touch?
    ensures StrangersOnly(MakeStep(w, e)) && GamesOk(MakeStep(w, e))
  {
    var v := MakeStep(w, e);
    forall c | c in v.clients && v.clients[c].Joiner?
      ensures c in w.clients && v.clients[c] == w.clients[c]
      ensures var k := w.clients[c].code; At(v, k).record == At(w, k).record && At(v, k).joined == At(w, k).joined
    {
      MakeFrame(w, e, v.clients[c].code);
      assert ClientOk(w, c);
    }
    forall i | 0 <= i < |w.games|
      ensures w.games[i].starter in v.clients && v.clients[w.games[i].starter] == w.clients[w.games[i].starter]
    {
      MakeFrame(w, e, w.games[i].code);
    }
    MakeFrame(w, e, "");
  }

  lemma MakeKeepsOne(w: World, e: Event)
    requires InvOne(w) && !e.Touch?
    ensures InvOne(MakeStep(w, e))
  {
    MakeKeepsInv(w, e);
    forall code ensures JoinedOk(MakeStep(w, e), code) {
      MakeKeepsJoined(w, e, code);
    }
    MakeKeepsStrangers(w, e);
    MakeFrame(w, e, "");
  }

  /** One joining client moves without committing or creating: who joined and what was started stay the same. */
  lemma JoinMoveKeepsOne(w: World, v: World, c: nat)
    requires InvOne(w) && Inv(v) && Joining(w, c) && Joining(v, c) && v.clients == w.clients[c := v.clients[c]]
    requires v.clients[c].code == w.clients[c].code && v.clients[c].user == w.clients[c].user && v.games == w.games
    requires PastCommit(v.clients[c].pc) <==> PastCommit(w.clients[c].pc)
    requires HasCreated(w.clients[c].pc) ==> HasCreated(v.clients[c].pc)
    requires forall k :: At(v, k).parts == At(w, k).parts && At(v, k).joined == At(w, k).joined
    requires forall k :: At(v, k).record.Stored? == At(w, k).record.Stored?
    requires forall k :: At(w, k).record.Stored? ==> At(v, k).record.creator == At(w, k).record.creator
    ensures InvOne(v)
  {
    forall k ensures JoinedOk(v, k) {
      assert JoinedOk(w, k);
    }
  }

  lemma AdvanceKeepsOne(w: World, c: nat, e: Event)
    requires InvOne(w) && Joining(w, c)
    ensures InvOne(Goto(w, c, Advance(At(w, w.clients[c].code), w.clients[c].pc, e)))
  {
    AdvanceKeepsInv(w, c, e);
    JoinMoveKeepsOne(w, Goto(w, c, Advance(At(w, w.clients[c].code), w.clients[c].pc, e)), c);
  }

  predicate Committing(w: World, c: nat) {
    Joining(w, c) && w.clients[c].pc.Counted? && At(w, w.clients[c].code).version == w.clients[c].pc.version
  }

  /** An EXEC that goes through finds the creator alone. */
  lemma CommitFindsCreatorAlone(w: World, c: nat)
    requires InvOne(w) && Committing(w, c)
    ensures var ch := At(w, w.clients[c].code);
            && ch.record.Stored? && ch.joined == [] && ch.parts == {ch.record.creator}
            && w.clients[c].user != ch.record.creator
    ensures forall d :: d in w.clients && w.clients[d].Joiner? && w.clients[d].code == w.clients[c].code ==>
              !PastCommit(w.clients[d].pc)
  {
    var ch := At(w, w.clients[c].code);
    assert ClientOk(w, c);
    assert JoinedOk(w, w.clients[c].code);
  }

  lemma CommitKeepsOne(w: World, c: nat)
    requires InvOne(w) && Committing(w, c)
    ensures InvOne(ExecStep(w, c))
  {
    ExecKeepsInv(w, c);
    CommitFindsCreatorAlone(w, c);
    var v := ExecStep(w, c);
    var code := w.clients[c].code;
    assert [] + [c] == [c];
    forall k ensures JoinedOk(v, k) {
      assert JoinedOk(w, k);
    }
  }

  lemma ExecKeepsOne(w: World, c: nat)
    requires InvOne(w)
    ensures InvOne(ExecStep(w, c))
  {
    if Committing(w, c) {
      CommitKeepsOne(w, c);
    } else if Joining(w, c) && w.clients[c].pc.Counted? {
      ExecKeepsInv(w, c);
      JoinMoveKeepsOne(w, ExecStep(w, c), c);
    }
  }

  predicate Creating(w: World, c: nat, id: string) {
    Joining(w, c) && w.clients[c].pc.Clear? && id != ""
  }

  /** The client that creates a game is the one whose EXEC filled the channel, and nobody has before. */
  lemma FirstToCreate(w: World, c: nat, id: string)
    requires InvOne(w) && Creating(w, c, id)
    ensures forall i :: 0 <= i < |w.games| ==> w.games[i].code != w.clients[c].code
  {
    forall i | 0 <= i < |w.games| ensures w.games[i].code != w.clients[c].code {
      assert HasCreated(w.clients[w.games[i].starter].pc);
      assert PastCommit(w.clients[w.games[i].starter].pc);
    }
  }

  lemma CreateKeepsJoined(w: World, c: nat, id: string, k: string)
    requires InvOne(w) && Creating(w, c, id)
    ensures JoinedOk(CreateStep(w, c, id), k)
  {
    assert JoinedOk(w, k);
  }

  lemma CreateKeepsOne(w: World, c: nat, id: string)
    requires InvOne(w)
    ensures InvOne(CreateStep(w, c, id))
  {
    if Creating(w, c, id) {
      CreateKeepsInv(w, c, id);
      assert ClientOk(w, c);
      FirstToCreate(w, c, id);
      forall k ensures JoinedOk(CreateStep(w, c, id), k) {
        CreateKeepsJoined(w, c, id, k);
      }
    }
  }

  lemma SaveGameKeepsOne(w: World, c: nat)
    requires InvOne(w)
    ensures InvOne(SaveGameStep(w, c))
  {
    if Joining(w, c) && w.clients[c].pc.Created? {
      SaveGameKeepsInv(w, c);
      assert ClientOk(w, c);
      JoinMoveKeepsOne(w, SaveGameStep(w, c), c);
    }
  }

  lemma JoinArriveKeepsOne(p: Policy, w: World, c: nat, code: string, user: string)
    requires InvOne(w) && !p.early && !p.self
    ensures InvOne(Step(p, w, JoinArrive(c, code, user)))
  {
    JoinArriveKeepsInv(p, w, c, code, user);
    forall k ensures JoinedOk(Step(p, w, JoinArrive(c, code, user)), k) {
      assert JoinedOk(w, k);
    }
  }

  lemma TouchKeepsOne(p: Policy, w: World, code: string)
    requires InvOne(w)
    ensures InvOne(Step(p, w, Touch(code)))
  {
    TouchKeepsInv(p, w, code);
    forall k ensures JoinedOk(Step(p, w, Touch(code)), k) {
      assert JoinedOk(w, k);
    }
  }

  lemma StepKeepsOne(p: Policy, w: World, e: Event)
    requires InvOne(w) && !p.early && !p.self
    ensures InvOne(Step(p, w, e))
  {
    match e
    case JoinArrive(c, code, user) => JoinArriveKeepsOne(p, w, c, code, user);
    case Exec(c) => ExecKeepsOne(w, c);
    case CreateGame(c, id) => CreateKeepsOne(w, c, id);
    case SaveGame(c) => SaveGameKeepsOne(w, c);
    case Touch(code) => TouchKeepsOne(p, w, code);
    case MakeArrive(_, _) => MakeKeepsOne(w, e);
    case Reserve(_, _) => MakeKeepsOne(w, e);
    case SaveNew(_) => MakeKeepsOne(w, e);
    case AddCreator(_) => MakeKeepsOne(w, e);
    case _ =>
      if Joining(w, e.c) {
        AdvanceKeepsOne(w, e.c, e);
      }
  }

  lemma {:induction false} RunInvOne(p: Policy, es: seq<Event>)
    requires !p.early && !p.self
    ensures InvOne(Run(p, es))
  {
    if es != [] {
      RunInvOne(p, es[..|es| - 1]);
      StepKeepsOne(p, Run(p, es[..|es| - 1]), es[|es| - 1]);
    }
  }

  // ---------------------------------------------------------------- runs that go wrong

  /** A world some run ends in. */
  ghost predicate Reachable(p: Policy, w: World) {
    exists es :: Run(p, es) == w
  }

  lemma EmptyReachable(p: Policy)
    ensures Reachable(p, EMPTY)
  {
    assert Run(p, []) == EMPTY;
  }

  lemma StepReachable(p: Policy, w: World, e: Event, v: World)
    requires Reachable(p, w) && Step(p, w, e) == v
    ensures Reachable(p, v)
  {
    var es :| Run(p, es) == w;
    assert (es + [e])[..|es + [e]| - 1] == es;
    assert Run(p, es + [e]) == v;
  }

  /** The channel "K" made by user "a", with the participants and version given. */
  function OnlyK(parts: set<string>, version: nat, joined: seq<nat>): map<string, Chan> {
    map["K" := Chan(Stored("a", ""), parts, version, joined)]
  }

  /** User "a" has made "K" but is not a participant yet. */
  lemma MakeSaved(p: Policy)
    ensures Reachable(p, World(OnlyK({}, 0, []), map[0 := Maker("a", Saved("K"))], []))
  {
    var w1 := World(map[], map[0 := Maker("a", Asked)], []);
    var w2 := World(map["K" := Chan(Blank, {}, 0, [])], map[0 := Maker("a", Holding("K"))], []);
    var w3 := World(OnlyK({}, 0, []), map[0 := Maker("a", Saved("K"))], []);
    EmptyReachable(p);
    StepReachable(p, EMPTY, MakeArrive(0, "a"), w1);
    StepReachable(p, w1, Reserve(0, "K"), w2);
    StepReachable(p, w2, SaveNew(0), w3);
  }

  /** User "a" has made "K" and is its participant. */
  lemma MakeAdded(p: Policy)
    ensures Reachable(p, World(OnlyK({"a"}, 1, []), map[0 := Maker("a", Opened("K"))], []))
  {
    MakeSaved(p);
    assert {} + {"a"} == {"a"};
    StepReachable(p, World(OnlyK({}, 0, []), map[0 := Maker("a", Saved("K"))], []), AddCreator(0),
        World(OnlyK({"a"}, 1, []), map[0 := Maker("a", Opened("K"))], []));
  }

  /** A world with channel "K" in which one client joining it is at a given point. */
  function KWorld(ch: Chan, clients: map<nat, Client>, games: seq<Game>, c: nat, user: string, pc: Pc): World {
    World(map["K" := ch], clients[c := Joiner("K", user, pc)], games)
  }

  /** One reading command of a client of channel "K". */
  lemma ReadK(p: Policy, ch: Chan, clients: map<nat, Client>, games: seq<Game>, c: nat, user: string, pc: Pc,
      e: Event, to: Pc)
    requires (e.Load? || e.Watch? || e.Count? || e.Reload? || e.Recount? || e.Check?) && e.c == c
        && to == Advance(ch, pc, e)
    requires Reachable(p, KWorld(ch, clients, games, c, user, pc))
    ensures Reachable(p, KWorld(ch, clients, games, c, user, to))
  {
    assert clients[c := Joiner("K", user, pc)][c := Joiner("K", user, to)] == clients[c := Joiner("K", user, to)];
    StepReachable(p, KWorld(ch, clients, games, c, user, pc), e, KWorld(ch, clients, games, c, user, to));
  }

  /** The channel after a client's successful EXEC. */
  function Filled(ch: Chan, c: nat, user: string): Chan {
    ch.(parts := ch.parts + {user}, version := ch.version + 1, joined := ch.joined + [c])
  }

  /** The EXEC of a client of channel "K" whose watched version is current. */
  lemma ExecK(p: Policy, ch: Chan, clients: map<nat, Client>, c: nat, user: string)
    requires Reachable(p, KWorld(ch, clients, [], c, user, Counted(ch.version)))
    ensures Reachable(p, KWorld(Filled(ch, c, user), clients, [], c, user, Committed))
  {
    var w := KWorld(ch, clients, [], c, user, Counted(ch.version));
    var entered := Filled(ch, c, user);
    var v := KWorld(entered, clients, [], c, user, Committed);
    assert ExecStep(w, c).clients == v.clients && ExecStep(w, c).chans == v.chans;
    StepReachable(p, w, Exec(c), v);
  }

  /** A client joins "K" up to its EXEC while fewer than two participants are in it. */
  lemma JoinK(p: Policy, ch: Chan, clients: map<nat, Client>, c: nat, user: string)
    requires Reachable(p, World(map["K" := ch], clients, []))
    requires ch.record == Stored("a", "") && c !in clients && Allowed(p, ch, user) && |ch.parts| < 2
    ensures Reachable(p, KWorld(Filled(ch, c, user), clients, [], c, user, Committed))
  {
    StepReachable(p, World(map["K" := ch], clients, []), JoinArrive(c, "K", user),
        KWorld(ch, clients, [], c, user, Asked));
    ReadK(p, ch, clients, [], c, user, Asked, Load(c), Loaded);
    ReadK(p, ch, clients, [], c, user, Loaded, Watch(c), Watching(ch.version));
    ReadK(p, ch, clients, [], c, user, Watching(ch.version), Count(c), Counted(ch.version));
    ExecK(p, ch, clients, c, user);
  }

  lemma CreateK(p: Policy, ch: Chan, clients: map<nat, Client>, games: seq<Game>, c: nat, user: string, id: string)
    requires id != "" && Reachable(p, KWorld(ch, clients, games, c, user, Clear("a")))
    ensures Reachable(p, KWorld(ch, clients, games + [Game("K", id, "a", user, c)], c, user, Created("a", id)))
  {
    var w := KWorld(ch, clients, games, c, user, Clear("a"));
    var v := KWorld(ch, clients, games + [Game("K", id, "a", user, c)], c, user, Created("a", id));
    assert CreateStep(w, c, id).clients == v.clients;
    StepReachable(p, w, CreateGame(c, id), v);
  }

  /** A client past its EXEC that reads two participants and no game starts one. */
  lemma StartK(p: Policy, ch: Chan, clients: map<nat, Client>, games: seq<Game>, c: nat, user: string, id: string)
    requires ch.record == Stored("a", "") && |ch.parts| >= 2 && id != ""
    requires Reachable(p, KWorld(ch, clients, games, c, user, Committed))
    ensures Reachable(p, KWorld(ch, clients, games + [Game("K", id, "a", user, c)], c, user, Created("a", id)))
  {
    ReadK(p, ch, clients, games, c, user, Committed, Reload(c), Reloaded("a", ""));
    ReadK(p, ch, clients, games, c, user, Reloaded("a", ""), Recount(c), Ready("a"));
    ReadK(p, ch, clients, games, c, user, Ready("a"), Check(c, false), Clear("a"));
    CreateK(p, ch, clients, games, c, user, id);
  }

  /** Two clients that both committed before either read the channel back start two games. */
  lemma TwoGames(p: Policy, ch: Chan, clients: map<nat, Client>, user: string, other: string)
    requires ch.record == Stored("a", "") && |ch.parts| >= 2
    requires 1 in clients && clients[1] == Joiner("K", user, Committed)
    requires Reachable(p, KWorld(ch, clients, [], 2, other, Committed))
    ensures exists w :: Reachable(p, w) && !AtMostOneGame(w)
  {
    var first := [] + [Game("K", "h", "a", other, 2)];
    StartK(p, ch, clients, [], 2, other, "h");
    var later := clients[2 := Joiner("K", other, Created("a", "h"))];
    assert later[1 := Joiner("K", user, Committed)] == later;
    assert KWorld(ch, later, first, 1, user, Committed) == KWorld(ch, clients, first, 2, other, Created("a", "h"));
    StartK(p, ch, later, first, 1, user, "g");
    var w := KWorld(ch, later, first + [Game("K", "g", "a", user, 1)], 1, user, Created("a", "g"));
    assert w.games[0].code == w.games[1].code;
  }

  /** When the creator may join, the creator's join and a stranger's join can start one game each. */
  lemma SelfJoinStartsTwo(p: Policy)
    requires p.self
    ensures exists w :: Reachable(p, w) && !AtMostOneGame(w)
  {
    MakeAdded(p);
    var maker := map[0 := Maker("a", Opened("K"))];
    var alone := Chan(Stored("a", ""), {"a"}, 1, []);
    JoinK(p, alone, maker, 1, "a");
    var again := alone.(parts := {"a"} + {"a"}, version := 2, joined := [] + [1]);
    var one := maker[1 := Joiner("K", "a", Committed)];
    assert again.parts == {"a"};
    JoinK(p, again, one, 2, "b");
    var full := again.(parts := again.parts + {"b"}, version := 3, joined := again.joined + [2]);
    assert full.parts == {"a", "b"} && |{"a", "b"}| == 2;
    TwoGames(p, full, one, "a", "b");
  }

  function FreshK(): Chan {
    Chan(Stored("a", ""), {}, 0, [])
  }

  function OnceJoinedK(): Chan {
    FreshK().(parts := {} + {"b"}, version := 1, joined := [] + [1])
  }

  function TwiceJoinedK(): Chan {
    OnceJoinedK().(parts := OnceJoinedK().parts + {"c"}, version := 2, joined := OnceJoinedK().joined + [2])
  }

  function FirstStranger(): map<nat, Client> {
    map[0 := Maker("a", Saved("K"))][1 := Joiner("K", "b", Committed)]
  }

  /** Two strangers in "K" before its creator. */
  lemma TwoStrangers(p: Policy)
    requires p.early
    ensures Reachable(p, KWorld(TwiceJoinedK(), FirstStranger(), [], 2, "c", Committed))
    ensures TwiceJoinedK().parts == {"b", "c"} && |TwiceJoinedK().parts| == 2
  {
    MakeSaved(p);
    JoinK(p, FreshK(), map[0 := Maker("a", Saved("K"))], 1, "b");
    assert OnceJoinedK().parts == {"b"} && |{"b"}| == 1;
    JoinK(p, OnceJoinedK(), FirstStranger(), 2, "c");
    assert TwiceJoinedK().parts == {"b", "c"} && |{"b", "c"}| == 2;
  }

  /** The creator, added late, is the third participant. */
  lemma ThreeParticipants(p: Policy)
    requires p.early
    ensures exists w :: Reachable(p, w) && !AtMostTwo(w)
  {
    TwoStrangers(p);
    var w := KWorld(TwiceJoinedK(), FirstStranger(), [], 2, "c", Committed);
    var v := MakeStep(w, AddCreator(0));
    StepReachable(p, w, AddCreator(0), v);
    assert At(v, "K").parts == TwiceJoinedK().parts + {"a"};
    assert {"b", "c"} + {"a"} == {"a", "b", "c"} && |{"a", "b", "c"}| == 3;
    assert !AtMostTwo(v);
  }

  /** When users may join before the creator is added, two strangers can start two games and three users take part. */
  lemma EarlyJoinOverfills(p: Policy)
    requires p.early
    ensures exists w :: Reachable(p, w) && !AtMostOneGame(w)
    ensures exists w :: Reachable(p, w) && !AtMostTwo(w)
  {
    ThreeParticipants(p);
    TwoStrangers(p);
    TwoGames(p, TwiceJoinedK(), FirstStranger(), "b", "c");
  }

  // ---------------------------------------------------------------- the exact conditions

  /** No channel ever has more than two participants exactly when nobody can join before the creator is added. */
  lemma AtMostTwoIff(p: Policy)
    ensures (forall w :: Reachable(p, w) ==> AtMostTwo(w)) <==> !p.early
  {
    if p.early {
      EarlyJoinOverfills(p);
    } else {
      forall w | Reachable(p, w) ensures AtMostTwo(w) {
        var es :| Run(p, es) == w;
        RunInv(p, es);
        forall code ensures |At(w, code).parts| <= 2 {
          assert ChanOk(w, code);
        }
      }
    }
  }

  /** No channel ever gets two games exactly when joiners come after the creator was added and are not the creator. */
  lemma AtMostOneGameIff(p: Policy)
    ensures (forall w :: Reachable(p, w) ==> AtMostOneGame(w)) <==> !p.early && !p.self
  {
    if p.early {
      EarlyJoinOverfills(p);
    } else if p.self {
      SelfJoinStartsTwo(p);
    } else {
      forall w | Reachable(p, w) ensures AtMostOneGame(w) {
        var es :| Run(p, es) == w;
        RunInvOne(p, es);
      }
    }
  }

  /** Under that policy every game is between the creator and the one joiner whose EXEC filled the channel. */
  lemma GamesAreBetweenParticipants(p: Policy, es: seq<Event>)
    requires !p.early && !p.self
    ensures BetweenParticipants(Run(p, es))
  {
    var w := Run(p, es);
    RunInvOne(p, es);
    forall i | 0 <= i < |w.games|
      ensures var g := w.games[i]; var ch := At(w, g.code);
              && ch.record.Stored? && g.challenger == ch.record.creator && g.target != g.challenger
              && ch.parts == {g.challenger, g.target} && ch.joined == [g.starter]
    {
      var g := w.games[i];
      assert PastCommit(w.clients[g.starter].pc);
      assert JoinedOk(w, g.code);
    }
  }
}
