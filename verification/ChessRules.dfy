/**
 The chess rules as the PvP code sees them. A game is the list of moves made from the initial position, so the side
 to move is the parity of its length; everything else the chess library decides is a field of `Rules`.
 */
module ChessRules {
  import opened Options

  datatype Color = White | Black
  datatype Outcome = NoOutcome | WhiteWon | BlackWon | Drawn
  datatype Move = Move(from: nat, to: nat, promotion: nat)
  type Line = seq<Move>

  datatype Rules = Rules(
    decodeUci: (Line, string) -> Option<Move>,
    decodeSan: (Line, string) -> Option<Move>,
    legal: (Line, Move) -> bool,
    uci: Move -> string,
    san: (Line, Move) -> string,
    outcome: Line -> Outcome,
    fen: Line -> string)

  function Turn(line: Line): Color {
    if |line| % 2 == 0 then White else Black
  }

  function Other(c: Color): Color {
    if c == White then Black else White
  }

  /** Pushing one UCI token: it must decode and the decoded move must be legal. */
  function Push(r: Rules, line: Line, token: string): Option<Line> {
    match r.decodeUci(line, token)
    case None => None
    case Some(m) => if r.legal(line, m) then Some(line + [m]) else None
  }

  /** The game a stored move log describes, if every token can be pushed. */
  function Replay(r: Rules, log: seq<string>): (line: Option<Line>)
    ensures line.Some? ==> |line.value| == |log|
  {
    if log == [] then Some([])
    else
      match Replay(r, log[..|log| - 1])
      case None => None
      case Some(line) => Push(r, line, log[|log| - 1])
  }

  /** The log pushed token by token: each decodes to the move of that place, which is legal there. */
  ghost predicate ReplaysTo(r: Rules, log: seq<string>, line: Line) {
    |line| == |log| &&
    forall i :: 0 <= i < |log| ==> r.decodeUci(line[..i], log[i]) == Some(line[i]) && r.legal(line[..i], line[i])
  }

  /** Replaying is pushing every token, and there is one game it can lead to. */
  lemma {:induction false} ReplayMeans(r: Rules, log: seq<string>, line: Line)
    ensures Replay(r, log) == Some(line) <==> ReplaysTo(r, log, line)
  {
    if log == [] {
      assert line == [] <==> |line| == 0;
    } else if line != [] {
      var n := |log| - 1;
      ReplayMeans(r, log[..n], line[..|line| - 1]);
      if Replay(r, log) == Some(line) {
        LastPushed(r, log, line);
      } else if ReplaysTo(r, log, line) {
        assert line == line[..n] + [line[n]];
        FirstPushed(r, log, line);
      }
    }
  }

  lemma LastPushed(r: Rules, log: seq<string>, line: Line)
    requires log != [] && Replay(r, log) == Some(line)
    ensures |line| == |log|
    ensures Replay(r, log[..|log| - 1]) == Some(line[..|line| - 1])
    ensures ReplaysTo(r, log[..|log| - 1], line[..|line| - 1]) ==> ReplaysTo(r, log, line)
  {
    var n := |log| - 1;
    var front := Replay(r, log[..n]).value;
    assert line[..n] == front;
    if ReplaysTo(r, log[..n], front) {
      forall i | 0 <= i < |log| ensures r.decodeUci(line[..i], log[i]) == Some(line[i]) && r.legal(line[..i], line[i]) {
        if i < n {
          assert line[..i] == front[..i] && log[..n][i] == log[i] && front[i] == line[i];
        }
      }
    }
  }

  lemma FirstPushed(r: Rules, log: seq<string>, line: Line)
    requires log != [] && ReplaysTo(r, log, line)
    ensures ReplaysTo(r, log[..|log| - 1], line[..|line| - 1])
    ensures Push(r, line[..|line| - 1], log[|log| - 1]) == Some(line[..|line| - 1] + [line[|line| - 1]])
  {
    var n := |log| - 1;
    forall i | 0 <= i < n
      ensures r.decodeUci(line[..n][..i], log[..n][i]) == Some(line[..n][i]) && r.legal(line[..n][..i], line[..n][i])
    {
      assert line[..n][..i] == line[..i] && log[..n][i] == log[i] && line[..n][i] == line[i];
    }
  }

  /** A broken log stays broken whatever is appended to it. */
  lemma {:induction false} ReplayPrefix(r: Rules, log: seq<string>, more: seq<string>)
    ensures Replay(r, log).None? ==> Replay(r, log + more).None?
    ensures Replay(r, log + more).Some? ==>
              Replay(r, log).Some? && Replay(r, log).value == Replay(r, log + more).value[..|log|]
  {
    if more == [] {
      assert log + more == log;
    } else {
      var init := more[..|more| - 1];
      ReplayPrefix(r, log, init);
      assert (log + more)[..|log + more| - 1] == log + init;
    }
  }

  /** What the code assumes of the library: printed moves decode back, and no game is over before it starts. */
  ghost predicate Lawful(r: Rules) {
    && r.outcome([]) == NoOutcome
    && (forall line, m :: r.legal(line, m) ==> r.decodeUci(line, r.uci(m)) == Some(m))
  }
}
