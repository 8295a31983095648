/** When EXEC succeeds, and what a request is answered that nobody interferes with. */
module PvpRequests {
  import opened ChessRules
  import opened Options
  import opened PvpConcurrent
  import opened PvpGame
  import opened PvpSequential
  import opened Text

  // ---------------------------------------------------------------- versions count commits

  function OpId(op: Op): string {
    match op
    case Create(g) => g.id
    case Apply(id, _, _) => id
  }

  /** How many operations of a history changed this game. */
  function OpsOn(h: seq<Op>, id: string): nat {
    if h == [] then 0 else OpsOn(h[..|h| - 1], id) + if OpId(h[|h| - 1]) == id then 1 else 0
  }

  lemma OpsOnNext(h: seq<Op>, op: Op, id: string)
    ensures OpsOn(h + [op], id) == OpsOn(h, id) + if OpId(op) == id then 1 else 0
  {
    assert (h + [op])[..|h|] == h;
  }

  lemma QuietVersion(r: Rules, w: World, e: Event, id: string)
    requires OpOf(w, e).None?
    ensures Version(Step(r, w, e), id) == Version(w, id)
  {
  }

  lemma VisibleVersion(r: Rules, w: World, e: Event, id: string)
    requires OpOf(w, e).Some?
    ensures Version(Step(r, w, e), id) == Version(w, id) + if OpId(OpOf(w, e).value) == id then 1 else 0
  {
  }

  /** A game's version is the number of operations that changed it. */
  lemma {:induction false} VersionCounts(r: Rules, es: seq<Event>, id: string)
    ensures Version(Run(r, es), id) == OpsOn(History(r, es), id)
  {
    if es == [] {
    } else {
      var before, e := es[..|es| - 1], es[|es| - 1];
      var w := Run(r, before);
      VersionCounts(r, before, id);
      if OpOf(w, e).None? {
        QuietVersion(r, w, e, id);
      } else {
        VisibleVersion(r, w, e, id);
        OpsOnNext(History(r, before), OpOf(w, e).value, id);
      }
    }
  }

  /** EXEC compares the version remembered with the version stored. */
  lemma ExecOutcome(r: Rules, w: World, c: nat)
    requires Asking(w, c) && w.clients[c].pc.Prepared?
    ensures var pc, after := w.clients[c].pc, Step(r, w, Exec(c));
            && c in after.clients
            && (Version(w, pc.pick.id) == pc.version ==>
                  && after.clients[c].pc == Done(Committed(pc.next))
                  && pc.pick.id in after.cells && after.cells[pc.pick.id].game == pc.next)
            && (Version(w, pc.pick.id) != pc.version ==>
                  after.clients[c].pc == Done(Conflict) && after.cells == w.cells)
  {
  }

  /** WATCH remembers how often the game had been changed; EXEC commits exactly when it still is that often. */
  lemma ExecCommitsIff(r: Rules, es: seq<Event>, c: nat)
    requires var w := Run(r, es); Asking(w, c) && w.clients[c].pc.Prepared?
    ensures var pc := Run(r, es).clients[c].pc;
            var after := Step(r, Run(r, es), Exec(c));
            && c in after.clients
            && (OpsOn(History(r, es), pc.pick.id) == pc.version ==>
                  && after.clients[c].pc == Done(Committed(pc.next))
                  && pc.pick.id in after.cells && after.cells[pc.pick.id].game == pc.next)
            && (OpsOn(History(r, es), pc.pick.id) != pc.version ==>
                  after.clients[c].pc == Done(Conflict) && after.cells == Run(r, es).cells)
  {
    var w := Run(r, es);
    VersionCounts(r, es, w.clients[c].pc.pick.id);
    ExecOutcome(r, w, c);
  }

  lemma WatchRemembers(r: Rules, es: seq<Event>, c: nat)
    requires var w := Run(r, es); Asking(w, c) && w.clients[c].pc.Chosen?
    ensures var pick := Run(r, es).clients[c].pc.pick;
            var after := Step(r, Run(r, es), PvpConcurrent.Watch(c));
            c in after.clients && after.clients[c].pc == Watching(pick, OpsOn(History(r, es), pick.id))
  {
    VersionCounts(r, es, Run(r, es).clients[c].pc.pick.id);
  }

  // ---------------------------------------------------------------- a request on its own

  /** The games of these ids that a search by this request keeps. */
  function Kept(cells: map<string, Cell>, order: seq<string>, room: Option<string>): seq<Game> {
    if order == [] then []
    else
      var n := |order| - 1;
      var earlier := Kept(cells, order[..n], room);
      if order[n] in cells && cells[order[n]].game.status == Active
         && (room.Some? ==>
               Trim(room.value) in {cells[order[n]].game.originRoom, cells[order[n]].game.resolveRoom})
      then earlier + [cells[order[n]].game]
      else earlier
  }

  function Then(r: Rules, w: World, es: seq<Event>): World {
    if es == [] then w else Step(r, Then(r, w, es[..|es| - 1]), es[|es| - 1])
  }

  lemma ThenNext(r: Rules, w: World, es: seq<Event>, e: Event)
    ensures Then(r, w, es + [e]) == Step(r, Then(r, w, es), e)
  {
    assert (es + [e])[..|es|] == es;
  }

  /** `n` fetches of one client. */
  function Fetches(c: nat, n: nat): (es: seq<Event>)
    ensures |es| == n
  {
    if n == 0 then [] else Fetches(c, n - 1) + [Fetch(c)]
  }

  predicate SameStore(w: World, v: World) {
    v.cells == w.cells && v.index == w.index
  }

  lemma FetchNext(cells: map<string, Cell>, order: seq<string>, n: nat, room: Option<string>)
    requires n < |order|
    ensures order[n..][1..] == order[n + 1..]
    ensures Kept(cells, order[..n + 1], room) ==
            if order[n] in cells && Selectable(cells[order[n]].game, room)
            then Kept(cells, order[..n], room) + [cells[order[n]].game] else Kept(cells, order[..n], room)
  {
    assert order[..n + 1][..n] == order[..n];
  }

  lemma FetchOne(r: Rules, w: World, c: nat, todo: seq<string>, found: seq<Game>)
    requires Asking(w, c) && w.clients[c].pc == Scanning(todo, found) && todo != []
    ensures var v := Step(r, w, Fetch(c));
            && SameStore(w, v) && Asking(v, c) && v.clients[c].task == w.clients[c].task
            && v.clients[c].pc ==
               Scanning(todo[1..],
                        if todo[0] in w.cells && Selectable(w.cells[todo[0]].game, w.clients[c].task.req.room)
                        then found + [w.cells[todo[0]].game] else found)
  {
  }

  /** After n fetches the first n ids have been looked at. */
  lemma {:induction false} FetchesKeep(r: Rules, w: World, c: nat, order: seq<string>, n: nat)
    requires Asking(w, c) && w.clients[c].pc == Scanning(order, []) && n <= |order|
    ensures var v := Then(r, w, Fetches(c, n));
            && SameStore(w, v) && Asking(v, c) && v.clients[c].task == w.clients[c].task
            && v.clients[c].pc == Scanning(order[n..], Kept(w.cells, order[..n], w.clients[c].task.req.room))
  {
    if n == 0 {
    } else {
      FetchesKeep(r, w, c, order, n - 1);
      ThenNext(r, w, Fetches(c, n - 1), Fetch(c));
      FetchNext(w.cells, order, n - 1, w.clients[c].task.req.room);
      var u := Then(r, w, Fetches(c, n - 1));
      assert order[n - 1..][0] == order[n - 1];
      FetchOne(r, u, c, order[n - 1..], Kept(w.cells, order[..n - 1], w.clients[c].task.req.room));
    }
  }

  /** The answer to a request on a game: what it commits, or why not. */
  ghost predicate Answered(r: Rules, req: Request, g: Game, now: int, w: World, v: World, reply: Reply) {
    match req
    case MoveReq(user, room, text) =>
      if MoveAllowed(r, user, room, text, |g.movesUci|, g) then
        && reply.Committed? && v.cells == w.cells[g.id := Cell(reply.game, Version(w, g.id) + 1)]
        && (forall line :: ReplaysTo(r, g.movesUci, line) ==> StoresMove(r, g, text, now, line, reply.game))
      else
        v.cells == w.cells && reply.Refused? && MoveRefusedFor(r, user, room, text, |g.movesUci|, g, reply.reason)
    case ResignReq(user, room) =>
      if g.status == Active && (room.Some? ==> room.value in {g.originRoom, g.resolveRoom}) then
        && reply.Committed? && v.cells == w.cells[g.id := Cell(reply.game, Version(w, g.id) + 1)]
        && ResignedBy(g, user, now, reply.game)
      else
        v.cells == w.cells && reply == Refused(if g.status != Active then NotActive else WrongRoom)
  }

  lemma AnswerOf(r: Rules, req: Request, g: Game, now: int, w: World)
    requires g.id in w.cells && w.cells[g.id].game == g
    ensures var d := Decide(r, req, |g.movesUci|, g, now);
            match d
            case Commit(next) =>
              Answered(r, req, g, now, w,
                       w.(cells := w.cells[g.id := Cell(next, Version(w, g.id) + 1)]), Committed(next))
            case Abort(reason) => Answered(r, req, g, now, w, w, Refused(reason))
  {
    match req
    case MoveReq(user, room, text) =>
      MoveCommitsIff(r, user, room, text, |g.movesUci|, g, now);
      forall line | MoveAllowed(r, user, room, text, |g.movesUci|, g) && ReplaysTo(r, g.movesUci, line)
        ensures StoresMove(r, g, text, now, line, Decide(r, req, |g.movesUci|, g, now).game)
      {
        MoveStores(r, user, room, text, |g.movesUci|, g, now, line);
      }
    case ResignReq(user, room) =>
      ResignCommitsIff(r, user, room, |g.movesUci|, g, now);
  }

  lemma WatchAlone(r: Rules, w: World, c: nat, g: Game)
    requires Asking(w, c) && w.clients[c].pc == Chosen(g)
    ensures Step(r, w, PvpConcurrent.Watch(c)) == Goto(w, c, Watching(g, Version(w, g.id)))
  {
  }

  lemma ReadAlone(r: Rules, w: World, c: nat, g: Game, version: nat, now: int)
    requires Asking(w, c) && w.clients[c].pc == Watching(g, version) && g.id in w.cells && w.cells[g.id].game == g
    ensures Step(r, w, PvpConcurrent.Read(c, now)) ==
            Goto(w, c, match Decide(r, w.clients[c].task.req, |g.movesUci|, g, now)
                       case Abort(reason) => Done(Refused(reason))
                       case Commit(next) => Prepared(g, version, g, now, next))
  {
  }

  lemma ExecAlone(r: Rules, w: World, c: nat)
    requires Asking(w, c)
    requires var pc := w.clients[c].pc; pc.Prepared? ==> Version(w, pc.pick.id) == pc.version
    ensures Step(r, w, Exec(c)) ==
            if w.clients[c].pc.Prepared? then
              var pc := w.clients[c].pc;
              Goto(w.(cells := w.cells[pc.pick.id := Cell(pc.next, pc.version + 1)]), c, Done(Committed(pc.next)))
            else w
  {
  }

  lemma ThreeEvents(r: Rules, w: World, a: Event, b: Event, c: Event)
    ensures Then(r, w, [a, b, c]) == Step(r, Step(r, Step(r, w, a), b), c)
  {
    assert [a, b, c][..2] == [a, b] && [a, b][..1] == [a] && [a][..0] == [];
    assert Then(r, w, [a]) == Step(r, w, a);
    assert Then(r, w, [a, b]) == Step(r, Then(r, w, [a]), b);
  }

  /** WATCH, GET and EXEC in a row answer the request for the game as it is stored. */
  lemma TransactionAlone(r: Rules, w: World, c: nat, g: Game, now: int) returns (v: World)
    requires Asking(w, c) && w.clients[c].pc == Chosen(g) && g.id in w.cells && w.cells[g.id].game == g
    ensures v == Then(r, w, [PvpConcurrent.Watch(c), PvpConcurrent.Read(c, now), Exec(c)])
    ensures c in v.clients && v.clients[c].pc.Done?
    ensures Answered(r, w.clients[c].task.req, g, now, w, v, v.clients[c].pc.reply)
  {
    ThreeEvents(r, w, PvpConcurrent.Watch(c), PvpConcurrent.Read(c, now), Exec(c));
    WatchAlone(r, w, c, g);
    var w1 := Goto(w, c, Watching(g, Version(w, g.id)));
    ReadAlone(r, w1, c, g, Version(w, g.id), now);
    ExecAlone(r, Step(r, w1, PvpConcurrent.Read(c, now)), c);
    v := Step(r, Step(r, w1, PvpConcurrent.Read(c, now)), Exec(c));
    AnswerOf(r, w.clients[c].task.req, g, now, w);
  }

  /** Scanning alone: nothing is found exactly when no listed game qualifies, otherwise a latest one is chosen. */
  lemma ScanAlone(r: Rules, w: World, c: nat, order: seq<string>, i: nat) returns (v: World)
    requires Asking(w, c) && w.clients[c].pc == Arrived && !Blank(w.clients[c].task.req)
    requires (set id | id in order) == Ids(w, Trim(w.clients[c].task.req.user))
    ensures v == Then(r, Step(r, w, List(c, order)), Fetches(c, |order|) + [Pick(c, i)])
    ensures SameStore(w, v) && Asking(v, c) && v.clients[c].task == w.clients[c].task
    ensures var kept := Kept(w.cells, order, w.clients[c].task.req.room);
            && (kept == [] ==> v.clients[c].pc == Done(Nothing))
            && (i < |kept| && (forall j :: 0 <= j < |kept| ==> kept[j].updatedAt <= kept[i].updatedAt) ==>
                  v.clients[c].pc == Chosen(kept[i]))
  {
    var w1 := Step(r, w, List(c, order));
    FetchesKeep(r, w1, c, order, |order|);
    ThenNext(r, w1, Fetches(c, |order|), Pick(c, i));
    assert order[..|order|] == order && order[|order|..] == [];
    v := Step(r, Then(r, w1, Fetches(c, |order|)), Pick(c, i));
  }
}
