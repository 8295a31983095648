/** The sequential game machine: one request at a time, each carried out on the current value of its game. */
module PvpSequential {
  import opened Options
  import opened Text
  import opened ChessRules
  import opened PvpGame

  type Games = map<string, Game>

  datatype Op = Create(game: Game) | Apply(id: string, req: Request, now: int)

  /** The shape CreateGameFromChallenge stores. */
  predicate IsNew(g: Game) {
    && g.movesUci == [] && g.movesSan == [] && g.fen == "startpos" && g.turn == White
    && g.status == Active && g.winner == "" && g.outcome == ""
    && Trimmed(g.whiteId) && Trimmed(g.blackId) && Trimmed(g.originRoom) && Trimmed(g.resolveRoom)
  }

  function SeqStep(r: Rules, s: Games, op: Op): Games {
    match op
    case Create(g) => s[g.id := g]
    case Apply(id, req, now) =>
      if id !in s then s
      else
        var v := Decide(r, req, |s[id].movesUci|, s[id], now);
        if v.Commit? then s[id := v.game] else s
  }

  /** The operation changes the store: a new id is created, or the request commits. */
  predicate Effective(r: Rules, s: Games, op: Op) {
    match op
    case Create(g) => g.id !in s && IsNew(g)
    case Apply(id, req, now) => id in s && Decide(r, req, |s[id].movesUci|, s[id], now).Commit?
  }

  function SeqRun(r: Rules, ops: seq<Op>): Games {
    if ops == [] then map[] else SeqStep(r, SeqRun(r, ops[..|ops| - 1]), ops[|ops| - 1])
  }

  predicate AllEffective(r: Rules, ops: seq<Op>) {
    ops != [] ==>
      && AllEffective(r, ops[..|ops| - 1])
      && Effective(r, SeqRun(r, ops[..|ops| - 1]), ops[|ops| - 1])
  }

  /** The operation commits a UCI text for an illegal move. */
  predicate Mishandled(r: Rules, s: Games, op: Op) {
    op.Apply? && op.req.MoveReq? && op.id in s && DecodesToIllegal(r, s[op.id], op.req.text)
  }

  /** No operation of the run commits a UCI text for an illegal move. */
  predicate Clean(r: Rules, ops: seq<Op>) {
    ops != [] ==>
      && Clean(r, ops[..|ops| - 1])
      && !Mishandled(r, SeqRun(r, ops[..|ops| - 1]), ops[|ops| - 1])
  }

  ghost predicate AllConsistent(r: Rules, s: Games) {
    forall id :: id in s ==> Consistent(r, s[id])
  }

  predicate Keyed(s: Games) {
    forall id :: id in s ==> s[id].id == id
  }

  /** `later` is a possible future of `earlier`: same match, longer logs, and nothing at all once the game is over. */
  predicate Follows(earlier: Game, later: Game) {
    && SameMatch(earlier, later) && Extends(earlier, later)
    && (earlier.status != Active ==> later == earlier)
  }

  // ---------------------------------------------------------------- one step

  /** Every game of `s` is still there in `t`, in a possible future. */
  ghost predicate AllFollow(s: Games, t: Games) {
    forall id :: id in s ==> id in t && Follows(s[id], t[id])
  }

  lemma FollowTransitive(s: Games, t: Games, u: Games)
    requires AllFollow(s, t) && AllFollow(t, u)
    ensures AllFollow(s, u)
  {
  }

  lemma StepFollows(r: Rules, s: Games, op: Op)
    requires Effective(r, s, op)
    ensures AllFollow(s, SeqStep(r, s, op))
  {
    if op.Apply? {
      if op.req.MoveReq? {
        MoveCommit(r, op.req, |s[op.id].movesUci|, s[op.id], op.now);
      } else {
        ResignCommit(r, op.req, |s[op.id].movesUci|, s[op.id], op.now);
      }
    }
  }

  lemma StepKeyed(r: Rules, s: Games, op: Op)
    requires Keyed(s) && Effective(r, s, op)
    ensures Keyed(SeqStep(r, s, op))
  {
    StepFollows(r, s, op);
  }

  // ---------------------------------------------------------------- whole runs

  lemma {:induction false} RunKeyed(r: Rules, ops: seq<Op>)
    requires AllEffective(r, ops)
    ensures Keyed(SeqRun(r, ops))
  {
    if ops != [] {
      RunKeyed(r, ops[..|ops| - 1]);
      StepKeyed(r, SeqRun(r, ops[..|ops| - 1]), ops[|ops| - 1]);
    }
  }

  /** The last operation of a run that goes on after `ops`. */
  lemma RunLast(r: Rules, ops: seq<Op>, more: seq<Op>)
    requires more != []
    ensures var t := SeqRun(r, ops + more[..|more| - 1]);
            && SeqRun(r, ops + more) == SeqStep(r, t, more[|more| - 1])
            && (AllEffective(r, ops + more) ==>
                  AllEffective(r, ops + more[..|more| - 1]) && Effective(r, t, more[|more| - 1]))
  {
    assert (ops + more)[..|ops + more| - 1] == ops + more[..|more| - 1];
  }

  /** No committed move is ever lost, and FINISHED, DRAW and RESIGNED games never change again. */
  lemma {:induction false} RunFollows(r: Rules, ops: seq<Op>, more: seq<Op>)
    requires AllEffective(r, ops + more)
    ensures AllEffective(r, ops)
    ensures AllFollow(SeqRun(r, ops), SeqRun(r, ops + more))
  {
    if more == [] {
      assert ops + more == ops;
    } else {
      var init := more[..|more| - 1];
      RunLast(r, ops, more);
      RunFollows(r, ops, init);
      var t := SeqRun(r, ops + init);
      StepFollows(r, t, more[|more| - 1]);
      FollowTransitive(SeqRun(r, ops), t, SeqStep(r, t, more[|more| - 1]));
    }
  }

  ghost predicate AllHonest(s: Games) {
    forall id :: id in s ==> ResultHonest(s[id])
  }

  /** In every run the result fields of every game agree with its status, broken logs included. */
  lemma {:induction false} RunHonest(r: Rules, ops: seq<Op>)
    requires AllEffective(r, ops)
    ensures AllHonest(SeqRun(r, ops))
  {
    if ops != [] {
      var s, op := SeqRun(r, ops[..|ops| - 1]), ops[|ops| - 1];
      RunHonest(r, ops[..|ops| - 1]);
      if op.Apply? {
        CommitKeepsHonest(r, op.req, |s[op.id].movesUci|, s[op.id], op.now);
      }
    }
  }

  lemma StepConsistent(r: Rules, s: Games, op: Op)
    requires Lawful(r) && Effective(r, s, op) && AllConsistent(r, s)
    ensures AllConsistent(r, SeqStep(r, s, op)) <==> !Mishandled(r, s, op)
  {
    match op
    case Create(g) => FreshConsistent(r, g);
    case Apply(id, req, now) =>
      var t := SeqStep(r, s, op);
      assert forall k :: k in s && k != id ==> t[k] == s[k];
      if req.MoveReq? {
        MoveKeepsConsistent(r, req, |s[id].movesUci|, s[id], now);
        assert id in t;
      } else {
        ResignKeepsConsistent(r, req, |s[id].movesUci|, s[id], now);
      }
  }

  lemma MishandledBreaks(r: Rules, s: Games, op: Op)
    requires Lawful(r) && Effective(r, s, op) && Mishandled(r, s, op)
    ensures op.id in SeqStep(r, s, op) && Replay(r, SeqStep(r, s, op)[op.id].movesUci).None?
  {
    var line := Replay(r, s[op.id].movesUci).value;
    var next := SeqStep(r, s, op)[op.id];
    assert next.movesUci[..|next.movesUci| - 1] == s[op.id].movesUci;
    assert Replay(r, next.movesUci) == Push(r, line, Lower(Trim(op.req.text)));
  }

  /** A log that no longer replays is never repaired. */
  lemma BrokenStays(r: Rules, s: Games, op: Op, id: string)
    requires Effective(r, s, op) && id in s && Replay(r, s[id].movesUci).None?
    ensures id in SeqStep(r, s, op) && Replay(r, SeqStep(r, s, op)[id].movesUci).None?
    ensures SeqStep(r, s, op)[id].movesUci == s[id].movesUci
  {
    StepFollows(r, s, op);
    if op.Apply? && op.id == id && op.req.MoveReq? {
      MoveCommit(r, op.req, |s[id].movesUci|, s[id], op.now);
    }
  }

  /**
   Every game of a run is consistent exactly when the run never committed a UCI text for an illegal move;
   from the first such commit on, some game can no longer be replayed.
   */
  lemma {:induction false} ConsistentIffClean(r: Rules, ops: seq<Op>)
    requires Lawful(r) && AllEffective(r, ops)
    ensures AllConsistent(r, SeqRun(r, ops)) <==> Clean(r, ops)
    ensures Clean(r, ops) <==> forall id :: id in SeqRun(r, ops) ==> Replay(r, SeqRun(r, ops)[id].movesUci).Some?
  {
    if ops != [] {
      var init, last := ops[..|ops| - 1], ops[|ops| - 1];
      var s := SeqRun(r, init);
      ConsistentIffClean(r, init);
      if Clean(r, init) {
        StepConsistent(r, s, last);
        if Mishandled(r, s, last) {
          MishandledBreaks(r, s, last);
        }
      } else {
        var id :| id in s && Replay(r, s[id].movesUci).None?;
        BrokenStays(r, s, last, id);
        assert !Consistent(r, SeqRun(r, ops)[id]);
      }
    }
  }

  /** When every UCI text that decodes is legal, no run is ever mishandled. */
  lemma {:induction false} HonestDecodingIsClean(r: Rules, ops: seq<Op>)
    requires forall line, text :: r.decodeUci(line, text).Some? ==> r.legal(line, r.decodeUci(line, text).value)
    ensures Clean(r, ops)
  {
    if ops != [] {
      HonestDecodingIsClean(r, ops[..|ops| - 1]);
    }
  }

  /** Once its log is broken a game accepts no further move: only a resignation can end it. */
  lemma {:induction false} BrokenGameIsStuck(r: Rules, ops: seq<Op>, more: seq<Op>, id: string)
    requires AllEffective(r, ops + more)
    requires id in SeqRun(r, ops) && Replay(r, SeqRun(r, ops)[id].movesUci).None? && SeqRun(r, ops)[id].status == Active
    ensures id in SeqRun(r, ops + more)
    ensures SeqRun(r, ops + more)[id].movesUci == SeqRun(r, ops)[id].movesUci
    ensures SeqRun(r, ops + more)[id].status in {Active, Resigned}
  {
    if more == [] {
      assert ops + more == ops;
    } else {
      var init, last := more[..|more| - 1], more[|more| - 1];
      assert (ops + more)[..|ops + more| - 1] == ops + init;
      BrokenGameIsStuck(r, ops, init, id);
      BrokenStays(r, SeqRun(r, ops + init), last, id);
      if last.Apply? && last.id == id && last.req.ResignReq? {
        ResignCommit(r, last.req, |SeqRun(r, ops + init)[id].movesUci|, SeqRun(r, ops + init)[id], last.now);
      }
    }
  }

  const PAWN_TWO := Move(12, 28, 0)
  const PAWN_THREE := Move(12, 36, 0)

  /** Rules of one first move: "e2e4" decodes and is legal, "e2e5" decodes and is not. */
  function ToyRules(): Rules {
    Rules((line, text) => if text == "e2e4" then Some(PAWN_TWO) else if text == "e2e5" then Some(PAWN_THREE) else None,
          (line, text) => if text == "e4" then Some(PAWN_TWO) else None,
          (line, m) => line == [] && m == PAWN_TWO,
          m => if m == PAWN_TWO then "e2e4" else "e2e5",
          (line, m) => if m == PAWN_TWO then "e4" else "e5",
          line => NoOutcome,
          line => if line == [] then "startpos" else "after e4")
  }

  lemma ToyReplays()
    ensures Replay(ToyRules(), []) == Some([])
    ensures Replay(ToyRules(), ["e2e4"]) == Some([PAWN_TWO]) && Replay(ToyRules(), ["e2e5"]).None?
  {
    var none: Line := [];
    ReplayOneMore(ToyRules(), [], none, "e2e5");
    ReplayOneMore(ToyRules(), [], none, "e2e4");
    assert [] + ["e2e5"] == ["e2e5"] && [] + ["e2e4"] == ["e2e4"] && none + [PAWN_TWO] == [PAWN_TWO];
  }

  /** The request commits on a fresh game. */
  lemma ToyCommits(g: Game)
    requires IsNew(g) && g.whiteId == "w" && g.blackId == "b"
    ensures var v := Decide(ToyRules(), MoveReq("w", None, "e2e5"), 0, g, 7);
            && v.Commit? && v.game.movesUci == ["e2e5"] && v.game.turn == White && v.game.status == Active
  {
    ToyReplays();
    SolidIsTrimmed("e2e5");
    assert Lower("e2e5") == "e2e5";
    assert PlayerColor(g, "w") == Some(White);
    var after := Settle(ToyRules(), Appended(g, "e2e5", "e5"), [], 7);
    assert AppendMove(ToyRules(), g, "e2e5", 7) == Commit(after);
  }

  /** The first move text "e2e5" breaks a fresh game: the log grows, the turn does not change, nothing replays. */
  lemma IllegalFirstMoveBreaks(g: Game)
    requires IsNew(g) && g.whiteId == "w" && g.blackId == "b"
    ensures Lawful(ToyRules()) && Replay(ToyRules(), ["e2e4"]) == Some([PAWN_TWO])
    ensures var ops := [Create(g), Apply(g.id, MoveReq("w", None, "e2e5"), 7)];
            && AllEffective(ToyRules(), ops)
            && var h := SeqRun(ToyRules(), ops)[g.id];
            h.movesUci == ["e2e5"] && h.turn == White && h.status == Active && Replay(ToyRules(), h.movesUci).None?
  {
    var r := ToyRules();
    var first, second := Create(g), Apply(g.id, MoveReq("w", None, "e2e5"), 7);
    ToyReplays();
    ToyCommits(g);
    OneEffective(r, [], first);
    OneEffective(r, [first], second);
    assert [] + [first] == [first] && [first] + [second] == [first, second];
  }

  lemma OneEffective(r: Rules, ops: seq<Op>, op: Op)
    ensures SeqRun(r, ops + [op]) == SeqStep(r, SeqRun(r, ops), op)
    ensures AllEffective(r, ops) && Effective(r, SeqRun(r, ops), op) ==> AllEffective(r, ops + [op])
  {
    assert (ops + [op])[..|ops + [op]| - 1] == ops;
  }
}
