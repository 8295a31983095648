/**
 Any number of clients running PlayMove, PlayMoveByRoom, Resign, ResignByRoom and CreateGameFromChallenge against one
 Redis. Each event is one Redis command of one client. A key carries a version that every write increases; EXEC
 succeeds when the watched version is still the current one.
 */
module PvpConcurrent {
  import opened Options
  import opened Text
  import opened ChessRules
  import opened PvpGame
  import opened PvpSequential

  datatype Cell = Cell(game: Game, version: nat)

  datatype Task = Ask(req: Request) | Start(game: Game)

  datatype Reply = Nothing | Refused(reason: Reason) | Conflict | Committed(game: Game) | Created

  datatype Pc =
    | Arrived
    | Scanning(todo: seq<string>, found: seq<Game>)
    | Chosen(pick: Game)
    | Watching(pick: Game, version: nat)
    | Prepared(pick: Game, version: nat, cur: Game, now: int, next: Game)
    | Saved
    | IndexedWhite
    | Done(reply: Reply)

  datatype Client = Client(task: Task, pc: Pc)

  datatype World = World(cells: map<string, Cell>, index: map<string, set<string>>, clients: map<nat, Client>)

  datatype Event =
    | Arrive(c: nat, task: Task)
    | Save(c: nat) | IndexWhite(c: nat) | IndexBlack(c: nat)
    | List(c: nat, order: seq<string>)
    | Fetch(c: nat)
    | Pick(c: nat, i: nat)
    | Watch(c: nat)
    | Read(c: nat, now: int)
    | Exec(c: nat)

  const EMPTY := World(map[], map[], map[])

  function Ids(w: World, user: string): set<string> {
    if user in w.index then w.index[user] else {}
  }

  function AddId(w: World, user: string, id: string): map<string, set<string>> {
    if user == "" then w.index else w.index[user := Ids(w, user) + {id}]
  }

  function Version(w: World, id: string): nat {
    if id in w.cells then w.cells[id].version else 0
  }

  function Goto(w: World, c: nat, pc: Pc): World
    requires c in w.clients
  {
    w.(clients := w.clients[c := w.clients[c].(pc := pc)])
  }

  /** The arguments the code rejects before it touches Redis, or answers with "no game". */
  predicate Blank(req: Request) {
    Trim(req.user) == "" || (req.room.Some? && Trim(req.room.value) == "")
  }

  /** `found[i]` is a most recently updated game, the head of the sorted list. */
  predicate Latest(found: seq<Game>, i: nat) {
    i < |found| && forall j | 0 <= j < |found| :: found[j].updatedAt <= found[i].updatedAt
  }

  predicate Asking(w: World, c: nat) {
    c in w.clients && w.clients[c].task.Ask?
  }

  predicate Starting(w: World, c: nat) {
    c in w.clients && w.clients[c].task.Start?
  }

  /** Where a reading command takes its client; a client that is not at the matching point stays where it is. */
  function Advance(r: Rules, w: World, req: Request, pc: Pc, e: Event): Pc {
    match (e, pc)
    case (List(_, order), Arrived) =>
      if Blank(req) then Done(Nothing)
      else if (set id | id in order) == Ids(w, Trim(req.user)) then Scanning(order, [])
      else pc
    case (Fetch(_), Scanning(todo, found)) =>
      if todo == [] then pc
      else
        var keep := todo[0] in w.cells && Selectable(w.cells[todo[0]].game, req.room);
        Scanning(todo[1..], if keep then found + [w.cells[todo[0]].game] else found)
    case (Pick(_, i), Scanning(todo, found)) =>
      if todo != [] then pc
      else if found == [] then Done(Nothing)
      else if Latest(found, i) then Chosen(found[i])
      else pc
    case (Watch(_), Chosen(pick)) => Watching(pick, Version(w, pick.id))
    case (Read(_, now), Watching(pick, version)) =>
      if pick.id !in w.cells then Done(Refused(GameGone))
      else
        var cur := w.cells[pick.id].game;
        (match Decide(r, req, |pick.movesUci|, cur, now)
         case Abort(reason) => Done(Refused(reason))
         case Commit(next) => Prepared(pick, version, cur, now, next))
    case _ => pc
  }

  function ArriveStep(w: World, c: nat, task: Task): World {
    if c in w.clients || (task.Start? && !IsNew(task.game)) then w
    else w.(clients := w.clients[c := Client(task, Arrived)])
  }

  function SaveStep(w: World, c: nat): World {
    if Starting(w, c) && w.clients[c].pc.Arrived? && w.clients[c].task.game.id !in w.cells then
      var g := w.clients[c].task.game;
      Goto(w.(cells := w.cells[g.id := Cell(g, 1)]), c, Saved)
    else w
  }

  function IndexStep(w: World, c: nat, user: string, from: Pc, to: Pc): World
    requires Starting(w, c)
  {
    if w.clients[c].pc == from then Goto(w.(index := AddId(w, user, w.clients[c].task.game.id)), c, to) else w
  }

  function ExecStep(w: World, c: nat): World {
    if Asking(w, c) && w.clients[c].pc.Prepared? then
      var pc := w.clients[c].pc;
      var id := pc.pick.id;
      if Version(w, id) == pc.version then
        Goto(w.(cells := w.cells[id := Cell(pc.next, pc.version + 1)]), c, Done(Committed(pc.next)))
      else Goto(w, c, Done(Conflict))
    else w
  }

  /** One event; an event whose client is not at the matching point changes nothing. */
  function Step(r: Rules, w: World, e: Event): World {
    match e
    case Arrive(c, task) => ArriveStep(w, c, task)
    case Save(c) => SaveStep(w, c)
    case IndexWhite(c) =>
      if Starting(w, c) then IndexStep(w, c, w.clients[c].task.game.whiteId, Saved, IndexedWhite) else w
    case IndexBlack(c) =>
      if Starting(w, c) then IndexStep(w, c, w.clients[c].task.game.blackId, IndexedWhite, Done(Created)) else w
    case Exec(c) => ExecStep(w, c)
    case _ =>
      if Asking(w, e.c) then Goto(w, e.c, Advance(r, w, w.clients[e.c].task.req, w.clients[e.c].pc, e)) else w
  }

  function Run(r: Rules, es: seq<Event>): World {
    if es == [] then EMPTY else Step(r, Run(r, es[..|es| - 1]), es[|es| - 1])
  }

  // ---------------------------------------------------------------- linearization

  /** The stored games, as the sequential machine sees them. */
  function Abs(w: World): Games {
    map id | id in w.cells :: w.cells[id].game
  }

  /** The sequential operation an event performs: a SET of a new game, or a successful EXEC. */
  function OpOf(w: World, e: Event): Option<Op> {
    match e
    case Save(c) =>
      if Starting(w, c) && w.clients[c].pc.Arrived? && w.clients[c].task.game.id !in w.cells
      then Some(Create(w.clients[c].task.game)) else None
    case Exec(c) =>
      if Asking(w, c) && w.clients[c].pc.Prepared? && Version(w, w.clients[c].pc.pick.id) == w.clients[c].pc.version
      then Some(Apply(w.clients[c].pc.pick.id, w.clients[c].task.req, w.clients[c].pc.now)) else None
    case _ => None
  }

  function History(r: Rules, es: seq<Event>): seq<Op> {
    if es == [] then []
    else
      var h := History(r, es[..|es| - 1]);
      match OpOf(Run(r, es[..|es| - 1]), es[|es| - 1])
      case None => h
      case Some(op) => h + [op]
  }

  // ---------------------------------------------------------------- the inductive invariant

  ghost predicate Known(w: World, id: string, user: string) {
    id in w.cells && user != "" && Plays(w.cells[id].game, user)
  }

  ghost predicate PickOk(w: World, req: Request, pick: Game) {
    Known(w, pick.id, Trim(req.user)) && SameMatch(pick, w.cells[pick.id].game)
  }

  ghost predicate ClientOk(r: Rules, w: World, cl: Client) {
    match cl.pc
    case Arrived => cl.task.Start? ==> IsNew(cl.task.game)
    case Scanning(todo, found) =>
      cl.task.Ask?
      && (forall id :: id in todo ==> Known(w, id, Trim(cl.task.req.user)))
      && (forall g :: g in found ==> PickOk(w, cl.task.req, g))
    case Chosen(pick) => cl.task.Ask? && PickOk(w, cl.task.req, pick)
    case Watching(pick, version) =>
      cl.task.Ask? && PickOk(w, cl.task.req, pick) && version <= w.cells[pick.id].version
    case Prepared(pick, version, cur, now, next) =>
      && cl.task.Ask? && PickOk(w, cl.task.req, pick) && version <= w.cells[pick.id].version
      && Decide(r, cl.task.req, |pick.movesUci|, cur, now) == Commit(next)
      && (version == w.cells[pick.id].version ==> cur == w.cells[pick.id].game)
    case Saved => cl.task.Start? && cl.task.game.id in w.cells && SameMatch(cl.task.game, w.cells[cl.task.game.id].game)
    case IndexedWhite => cl.task.Start? && cl.task.game.id in w.cells
        && SameMatch(cl.task.game, w.cells[cl.task.game.id].game)
    case Done(_) => true
  }

  ghost predicate Inv(r: Rules, w: World) {
    && (forall id :: id in w.cells ==> w.cells[id].game.id == id)
    && (forall u, id :: u in w.index && id in w.index[u] ==> Known(w, id, u))
    && (forall c :: c in w.clients ==> ClientOk(r, w, w.clients[c]))
  }

  /** Every cell of `w` is still there in `v`, for the same match, unchanged or with a higher version. */
  ghost predicate Later(w: World, v: World) {
    && (forall id :: id in w.cells ==> id in v.cells && SameMatch(w.cells[id].game, v.cells[id].game))
    && (forall id :: id in w.cells ==> v.cells[id] == w.cells[id] || w.cells[id].version < v.cells[id].version)
  }

  /** Replacing one cell by a later value of the same match keeps what the other clients rely on. */
  lemma ClientOkLater(r: Rules, w: World, v: World, cl: Client)
    requires ClientOk(r, w, cl) && Later(w, v)
    ensures ClientOk(r, v, cl)
  {
  }

  /** An event that changes cells as above and one client keeps the invariant if that client is well afterwards. */
  lemma FrameKeepsInv(r: Rules, w: World, v: World, c: nat)
    requires Inv(r, w) && Later(w, v) && v.index == w.index
    requires forall id :: id in v.cells ==> v.cells[id].game.id == id
    requires c in v.clients && v.clients == w.clients[c := v.clients[c]] && ClientOk(r, v, v.clients[c])
    ensures Inv(r, v)
  {
    forall d | d in v.clients ensures ClientOk(r, v, v.clients[d]) {
      if d != c {
        ClientOkLater(r, w, v, w.clients[d]);
      }
    }
  }

  lemma GotoKeepsInv(r: Rules, w: World, c: nat, pc: Pc)
    requires Inv(r, w) && c in w.clients && ClientOk(r, w, w.clients[c].(pc := pc))
    ensures Inv(r, Goto(w, c, pc))
  {
    ClientOkLater(r, w, Goto(w, c, pc), w.clients[c].(pc := pc));
    FrameKeepsInv(r, w, Goto(w, c, pc), c);
  }

  lemma SaveKeepsInv(r: Rules, w: World, c: nat)
    requires Inv(r, w)
    ensures Inv(r, SaveStep(w, c))
  {
    if OpOf(w, Save(c)).Some? {
      FrameKeepsInv(r, w, SaveStep(w, c), c);
    }
  }

  /** It is a later value of the same match, with one more move if the request is a move. */
  lemma CommitFollows(r: Rules, w: World, c: nat)
    requires Inv(r, w) && OpOf(w, Exec(c)).Some?
    ensures var pc := w.clients[c].pc;
            && pc.pick.id in w.cells && w.cells[pc.pick.id].version == pc.version && pc.next.id == pc.pick.id
            && SameMatch(w.cells[pc.pick.id].game, pc.next)
            && |pc.next.movesUci| ==
               |w.cells[pc.pick.id].game.movesUci| + (if w.clients[c].task.req.MoveReq? then 1 else 0)
  {
    var cl := w.clients[c];
    if cl.task.req.MoveReq? {
      MoveCommit(r, cl.task.req, |cl.pc.cur.movesUci|, cl.pc.cur, cl.pc.now);
    } else {
      ResignCommit(r, cl.task.req, |cl.pc.cur.movesUci|, cl.pc.cur, cl.pc.now);
    }
  }

  /** A successful EXEC is the client's request carried out on the current value. */
  lemma ExecIsSequential(r: Rules, w: World, c: nat)
    requires Inv(r, w) && OpOf(w, Exec(c)).Some?
    ensures var op := OpOf(w, Exec(c)).value;
            && Effective(r, Abs(w), op)
            && Abs(ExecStep(w, c)) == SeqStep(r, Abs(w), op)
  {
    assert Abs(w)[w.clients[c].pc.pick.id] == w.clients[c].pc.cur;
  }

  /** Writing a later value of the same match under a higher version keeps the invariant. */
  lemma RewriteKeepsInv(r: Rules, w: World, v: World, c: nat, id: string, next: Game, version: nat)
    requires Inv(r, w) && c in w.clients && id in w.cells
    requires SameMatch(w.cells[id].game, next) && w.cells[id].version < version
    requires v == Goto(w.(cells := w.cells[id := Cell(next, version)]), c, Done(Committed(next)))
    ensures Inv(r, v)
  {
    FrameKeepsInv(r, w, v, c);
  }

  lemma CommitKeepsInv(r: Rules, w: World, c: nat)
    requires Inv(r, w) && OpOf(w, Exec(c)).Some?
    ensures Inv(r, ExecStep(w, c))
  {
    CommitFollows(r, w, c);
    var pc := w.clients[c].pc;
    RewriteKeepsInv(r, w, ExecStep(w, c), c, pc.pick.id, pc.next, pc.version + 1);
  }

  lemma ConflictKeepsInv(r: Rules, w: World, c: nat)
    requires Inv(r, w) && OpOf(w, Exec(c)).None?
    ensures Inv(r, ExecStep(w, c))
  {
    if Asking(w, c) && w.clients[c].pc.Prepared? {
      GotoKeepsInv(r, w, c, Done(Conflict));
    }
  }

  lemma ExecKeepsInv(r: Rules, w: World, c: nat)
    requires Inv(r, w)
    ensures Inv(r, ExecStep(w, c))
  {
    if OpOf(w, Exec(c)).Some? {
      CommitKeepsInv(r, w, c);
    } else {
      ConflictKeepsInv(r, w, c);
    }
  }

  lemma ListOk(r: Rules, w: World, req: Request, order: seq<string>)
    requires Inv(r, w) && (set id | id in order) == Ids(w, Trim(req.user))
    ensures forall id :: id in order ==> Known(w, id, Trim(req.user))
  {
    var listed := set k | k in order;
    forall id | id in order ensures Known(w, id, Trim(req.user)) {
      assert id in listed;
    }
  }

  /** A reading command leaves its client with facts that hold of the store. */
  lemma AdvanceOk(r: Rules, w: World, cl: Client, e: Event)
    requires Inv(r, w) && cl.task.Ask? && ClientOk(r, w, cl)
    ensures ClientOk(r, w, cl.(pc := Advance(r, w, cl.task.req, cl.pc, e)))
  {
    if e.List? && cl.pc.Arrived? {
      if (set id | id in e.order) == Ids(w, Trim(cl.task.req.user)) {
        ListOk(r, w, cl.task.req, e.order);
      }
    } else {
      OthersOk(r, w, cl, e);
    }
  }

  lemma OthersOk(r: Rules, w: World, cl: Client, e: Event)
    requires forall id :: id in w.cells ==> w.cells[id].game.id == id
    requires cl.task.Ask? && ClientOk(r, w, cl) && !(e.List? && cl.pc.Arrived?)
    ensures ClientOk(r, w, cl.(pc := Advance(r, w, cl.task.req, cl.pc, e)))
  {
  }

  /** Indexing a stored game under one of its players keeps the invariant. */
  lemma IndexedInv(r: Rules, w: World, u: World, user: string, id: string)
    requires Inv(r, w) && id in w.cells && Plays(w.cells[id].game, user)
    requires u == w.(index := AddId(w, user, id))
    ensures Inv(r, u)
  {
    forall d | d in w.clients ensures ClientOk(r, u, w.clients[d]) {
      ClientOkLater(r, w, u, w.clients[d]);
    }
  }

  lemma IndexKeepsInv(r: Rules, w: World, c: nat, user: string, from: Pc, to: Pc)
    requires Inv(r, w) && Starting(w, c) && (from.Saved? || from.IndexedWhite?)
        && (to.IndexedWhite? || to == Done(Created))
    requires Plays(w.clients[c].task.game, user)
    ensures Inv(r, IndexStep(w, c, user, from, to))
  {
    if w.clients[c].pc == from {
      var u := w.(index := AddId(w, user, w.clients[c].task.game.id));
      assert ClientOk(r, w, w.clients[c]);
      IndexedInv(r, w, u, user, w.clients[c].task.game.id);
      assert ClientOk(r, u, w.clients[c].(pc := to));
      GotoKeepsInv(r, u, c, to);
    }
  }

  lemma ArriveKeepsInv(r: Rules, w: World, c: nat, task: Task)
    requires Inv(r, w)
    ensures Inv(r, ArriveStep(w, c, task))
  {
    var v := ArriveStep(w, c, task);
    forall d | d in w.clients ensures ClientOk(r, v, w.clients[d]) {
      ClientOkLater(r, w, v, w.clients[d]);
    }
  }

  lemma StepKeepsInv(r: Rules, w: World, e: Event)
    requires Inv(r, w)
    ensures Inv(r, Step(r, w, e))
  {
    match e
    case Arrive(c, task) => ArriveKeepsInv(r, w, c, task);
    case Save(c) => SaveKeepsInv(r, w, c);
    case IndexWhite(c) =>
      if Starting(w, c) {
        IndexKeepsInv(r, w, c, w.clients[c].task.game.whiteId, Saved, IndexedWhite);
      }
    case IndexBlack(c) =>
      if Starting(w, c) {
        IndexKeepsInv(r, w, c, w.clients[c].task.game.blackId, IndexedWhite, Done(Created));
      }
    case Exec(c) => ExecKeepsInv(r, w, c);
    case _ =>
      if Asking(w, e.c) {
        AdvanceOk(r, w, w.clients[e.c], e);
        GotoKeepsInv(r, w, e.c, Advance(r, w, w.clients[e.c].task.req, w.clients[e.c].pc, e));
      }
  }

  lemma {:induction false} RunInv(r: Rules, es: seq<Event>)
    ensures Inv(r, Run(r, es))
  {
    if es != [] {
      RunInv(r, es[..|es| - 1]);
      StepKeepsInv(r, Run(r, es[..|es| - 1]), es[|es| - 1]);
    }
  }

  /** An event that commits nothing leaves the stored games alone. */
  lemma QuietStep(r: Rules, w: World, e: Event)
    requires OpOf(w, e).None?
    ensures Step(r, w, e).cells == w.cells
  {
  }

  /** Refinement, one event: it is either invisible or exactly one effective sequential operation. */
  lemma StepRefines(r: Rules, w: World, e: Event)
    requires Inv(r, w)
    ensures match OpOf(w, e)
            case None => Abs(Step(r, w, e)) == Abs(w)
            case Some(op) => Effective(r, Abs(w), op) && Abs(Step(r, w, e)) == SeqStep(r, Abs(w), op)
  {
    if OpOf(w, e).None? {
      QuietStep(r, w, e);
    } else if e.Save? {
    } else {
      ExecIsSequential(r, w, e.c);
    }
  }

  // ---------------------------------------------------------------- theorems over every interleaving

  /** Refinement: the values stored after any interleaving are those of a run of the sequential machine. */
  lemma {:induction false} Refinement(r: Rules, es: seq<Event>)
    ensures Abs(Run(r, es)) == SeqRun(r, History(r, es))
    ensures AllEffective(r, History(r, es))
  {
    if es != [] {
      var init, e := es[..|es| - 1], es[|es| - 1];
      Refinement(r, init);
      RunInv(r, init);
      StepRefines(r, Run(r, init), e);
      if OpOf(Run(r, init), e).Some? {
        var h := History(r, es);
        assert h[..|h| - 1] == History(r, init);
      }
    }
  }

  lemma {:induction false} HistoryGrows(r: Rules, es: seq<Event>, more: seq<Event>)
    ensures History(r, es) <= History(r, es + more)
  {
    if more == [] {
      assert es + more == es;
    } else {
      assert (es + more)[..|es + more| - 1] == es + more[..|more| - 1];
      HistoryGrows(r, es, more[..|more| - 1]);
    }
  }

  /** Two stores that hold a run and a continuation of it. */
  lemma StoredFollows(r: Rules, h: seq<Op>, k: seq<Op>, v: World, w: World, id: string)
    requires h <= k && AllEffective(r, k)
    requires Abs(v) == SeqRun(r, h) && Abs(w) == SeqRun(r, k) && id in v.cells
    ensures id in w.cells && Follows(v.cells[id].game, w.cells[id].game)
  {
    assert k == h + k[|h|..];
    RunFollows(r, h, k[|h|..]);
    assert id in Abs(v) && id in Abs(w);
  }

  /** No interleaving loses a committed move, and a game that is over is never written again. */
  lemma NothingIsLost(r: Rules, es: seq<Event>, more: seq<Event>, id: string)
    requires id in Run(r, es).cells
    ensures id in Run(r, es + more).cells
    ensures Follows(Run(r, es).cells[id].game, Run(r, es + more).cells[id].game)
  {
    Refinement(r, es);
    Refinement(r, es + more);
    HistoryGrows(r, es, more);
    StoredFollows(r, History(r, es), History(r, es + more), Run(r, es), Run(r, es + more), id);
  }

  /** In every interleaving all stored games are consistent exactly when no UCI text for an illegal move was
      committed. */
  lemma GamesAreConsistent(r: Rules, es: seq<Event>)
    requires Lawful(r)
    ensures (forall id :: id in Run(r, es).cells ==> Consistent(r, Run(r, es).cells[id].game)) <==>
        Clean(r, History(r, es))
  {
    Refinement(r, es);
    ConsistentIffClean(r, History(r, es));
    var w := Run(r, es);
    assert forall id :: id in w.cells <==> id in Abs(w);
    assert forall id :: id in w.cells ==> Abs(w)[id] == w.cells[id].game;
  }

  /** In every interleaving the result fields of every stored game agree with its status. */
  lemma StoredResultsAreHonest(r: Rules, es: seq<Event>, id: string)
    requires id in Run(r, es).cells
    ensures ResultHonest(Run(r, es).cells[id].game)
  {
    Refinement(r, es);
    RunHonest(r, History(r, es));
    assert id in Abs(Run(r, es));
  }

  /** The client was told its move on `id` was committed. */
  predicate Told(cl: Client, id: string) {
    && cl.task.Ask? && cl.task.req.MoveReq?
    && cl.pc.Done? && cl.pc.reply.Committed? && cl.pc.reply.game.id == id
  }

  /** The clients that were told their move on `id` was committed. */
  function Movers(w: World, id: string): set<nat> {
    set c | c in w.clients && Told(w.clients[c], id)
  }

  /** A reading command tells its client of no commit. */
  lemma ReadingTellsNothing(r: Rules, w: World, req: Request, pc: Pc, e: Event)
    requires !e.Exec?
    ensures var to := Advance(r, w, req, pc, e); to == pc || !(to.Done? && to.reply.Committed?)
  {
  }

  /** An event concerns its own client only, and moves it without changing its task. */
  lemma UntouchedClient(r: Rules, w: World, e: Event, d: nat)
    ensures var v := Step(r, w, e); d != e.c ==> (d in v.clients <==> d in w.clients)
    ensures var v := Step(r, w, e); d != e.c && d in w.clients ==> v.clients[d] == w.clients[d]
    ensures var v := Step(r, w, e); d in w.clients ==> d in v.clients && v.clients[d].task == w.clients[d].task
  {
  }

  /** Only a successful EXEC tells its client that something was committed. */
  lemma NoNewMover(r: Rules, w: World, e: Event, id: string)
    requires !(e.Exec? && OpOf(w, e).Some?)
    ensures Movers(Step(r, w, e), id) == Movers(w, id)
  {
    var v := Step(r, w, e);
    if Asking(w, e.c) && !e.Exec? {
      ReadingTellsNothing(r, w, w.clients[e.c].task.req, w.clients[e.c].pc, e);
    }
    forall d ensures d in v.clients && Told(v.clients[d], id) <==> d in w.clients && Told(w.clients[d], id) {
      UntouchedClient(r, w, e, d);
    }
  }

  /** A successful EXEC of a move adds its client to the movers of the game, and changes no other movers. */
  lemma CommitAddsMover(w: World, c: nat, id: string)
    requires OpOf(w, Exec(c)).Some? && w.clients[c].pc.next.id == w.clients[c].pc.pick.id
    ensures var adds := w.clients[c].task.req.MoveReq? && w.clients[c].pc.pick.id == id;
            && Movers(ExecStep(w, c), id) == (if adds then Movers(w, id) + {c} else Movers(w, id))
            && c !in Movers(w, id)
  {
  }

  /** A commit on a game makes its log one longer exactly when it adds a mover. */
  lemma CommitCounts(w: World, c: nat, id: string)
    requires OpOf(w, Exec(c)).Some? && id in w.cells
    requires var pc := w.clients[c].pc;
             && pc.next.id == pc.pick.id && pc.pick.id in w.cells
             && |pc.next.movesUci| ==
                |w.cells[pc.pick.id].game.movesUci| + (if w.clients[c].task.req.MoveReq? then 1 else 0)
    requires |Movers(w, id)| == |w.cells[id].game.movesUci|
    ensures id in ExecStep(w, c).cells
    ensures |Movers(ExecStep(w, c), id)| == |ExecStep(w, c).cells[id].game.movesUci|
  {
    CommitAddsMover(w, c, id);
  }

  lemma MoversStep(r: Rules, w: World, e: Event, id: string)
    requires Inv(r, w) && id in Step(r, w, e).cells
    requires id in w.cells ==> |Movers(w, id)| == |w.cells[id].game.movesUci|
    requires id !in w.cells ==> Movers(w, id) == {}
    ensures |Movers(Step(r, w, e), id)| == |Step(r, w, e).cells[id].game.movesUci|
  {
    if OpOf(w, e).None? {
      QuietStep(r, w, e);
      NoNewMover(r, w, e, id);
    } else if e.Save? {
      NoNewMover(r, w, e, id);
    } else {
      CommitFollows(r, w, e.c);
      CommitCounts(w, e.c, id);
    }
  }

  lemma {:induction false} NoGameNoMovers(r: Rules, es: seq<Event>, id: string)
    requires id !in Run(r, es).cells
    ensures Movers(Run(r, es), id) == {}
  {
    if es != [] {
      var init, e := es[..|es| - 1], es[|es| - 1];
      NoGameNoMovers(r, init, id);
      RunInv(r, init);
      var w := Run(r, init);
      if e.Exec? && OpOf(w, e).Some? {
        CommitFollows(r, w, e.c);
        CommitAddsMover(w, e.c, id);
      } else {
        NoNewMover(r, w, e, id);
      }
    }
  }

  /** Conservation: a game holds exactly one move for every client that was told its move was committed. */
  lemma {:induction false} OneMovePerCommit(r: Rules, es: seq<Event>, id: string)
    requires id in Run(r, es).cells
    ensures |Movers(Run(r, es), id)| == |Run(r, es).cells[id].game.movesUci|
  {
    var init := es[..|es| - 1];
    RunInv(r, init);
    if id in Run(r, init).cells {
      OneMovePerCommit(r, init, id);
    } else {
      NoGameNoMovers(r, init, id);
    }
    MoversStep(r, Run(r, init), es[|es| - 1], id);
  }

  /**
   A client whose request commits is a player of the game it found. A committed resignation names the opponent
   exactly when the user id arrived without surrounding white space; otherwise it names nobody.
   */
  lemma ResignationNamesOpponent(r: Rules, es: seq<Event>, c: nat)
    requires var w := Run(r, es);
             OpOf(w, Exec(c)).Some? && w.clients[c].task.req.ResignReq? && w.clients[c].pc.pick.id in w.cells
    requires var g := Run(r, es).cells[Run(r, es).clients[c].pc.pick.id].game;
             g.whiteId != g.blackId && g.whiteId != "" && g.blackId != "" && Trimmed(g.whiteId) && Trimmed(g.blackId)
    ensures var w := Run(r, es);
            var user, g, next := w.clients[c].task.req.user, w.cells[w.clients[c].pc.pick.id].game,
                w.clients[c].pc.next;
            && Plays(g, Trim(user))
            && (Trimmed(user) <==> {user, next.winner} == {g.whiteId, g.blackId})
            && (!Trimmed(user) ==> next.winner == "")
  {
    var w := Run(r, es);
    RunInv(r, es);
    var cl := w.clients[c];
    assert ClientOk(r, w, cl);
    ResignCommit(r, cl.task.req, |cl.pc.pick.movesUci|, cl.pc.cur, cl.pc.now);
  }
}
