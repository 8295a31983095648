/**
 Finishing games and changing preset preferences, any number at once, against the game table (one row per session,
 a second insert is refused) and the profile table (plain overwrite). Every write may also fail. For each stored or
 fetched profile the machine remembers the sessions that were rated into it; no decision depends on that memory.
 */
module ResultStore {
  import Presets
  import opened Options
  import opened Ratings
  import opened Text

  type Session = string
  type Player = string

  /** A row remembers which client inserted it. */
  datatype Row = Row(player: Player, game: Rated, inserter: nat)

  datatype Stored = Stored(record: Record, preferred: string, sessions: seq<Session>)

  datatype Task =
    | Finish(session: Session, player: Player, game: Rated)
    | Prefer(player: Player, preset: string)

  datatype Pc = Arrived | Inserted | Fetched(profile: Stored) | Done(rated: bool)

  datatype Client = Client(task: Task, pc: Pc)

  datatype World = World(rows: map<Session, Row>, profiles: map<Player, Stored>, clients: map<nat, Client>)

  datatype Event =
    | Arrive(c: nat, task: Task)
    | Insert(c: nat)
    | Fetch(c: nat)
    | Upsert(c: nat)
    | Fail(c: nat)

  const NO_PROFILE := Stored(FRESH, "", [])

  function Goto(w: World, c: nat, pc: Pc): World
    requires c in w.clients
  {
    w.(clients := w.clients[c := w.clients[c].(pc := pc)])
  }

  /** INSERT ... ON CONFLICT DO NOTHING: a session that already has a row is reported as a duplicate and not rated. */
  function InsertStep(w: World, c: nat): World
    requires c in w.clients
  {
    var cl := w.clients[c];
    if !cl.task.Finish? || cl.pc != Arrived then w
    else if cl.task.session in w.rows then Goto(w, c, Done(false))
    else Goto(w.(rows := w.rows[cl.task.session := Row(cl.task.player, cl.task.game, c)]), c, Inserted)
  }

  /** Reads the stored profile, or starts from a fresh one. */
  function FetchStep(w: World, c: nat): World
    requires c in w.clients
  {
    var cl := w.clients[c];
    if (cl.task.Finish? && cl.pc == Inserted) || (cl.task.Prefer? && cl.pc == Arrived) then
      Goto(w, c, Fetched(if cl.task.player in w.profiles then w.profiles[cl.task.player] else NO_PROFILE))
    else w
  }

  /** The profile a client writes after fetching `p`. */
  function Updated(e: Expectation, task: Task, p: Stored): Stored {
    match task
    case Finish(session, _, game) => Stored(ApplyGame(e, p.record, game), p.preferred, p.sessions + [session])
    case Prefer(_, preset) => p.(preferred := preset)
  }

  function UpsertStep(e: Expectation, w: World, c: nat): World
    requires c in w.clients
  {
    var cl := w.clients[c];
    if !cl.pc.Fetched? then w
    else Goto(w.(profiles := w.profiles[cl.task.player := Updated(e, cl.task, cl.pc.profile)]), c,
        Done(cl.task.Finish?))
  }

  function Step(e: Expectation, w: World, ev: Event): World {
    match ev
    case Arrive(c, task) => if c in w.clients then w else w.(clients := w.clients[c := Client(task, Arrived)])
    case Insert(c) => if c in w.clients then InsertStep(w, c) else w
    case Fetch(c) => if c in w.clients then FetchStep(w, c) else w
    case Upsert(c) => if c in w.clients then UpsertStep(e, w, c) else w
    case Fail(c) => if c in w.clients && !w.clients[c].pc.Done? then Goto(w, c, Done(false)) else w
  }

  function Run(e: Expectation, evs: seq<Event>): World {
    if evs == [] then World(map[], map[], map[]) else Step(e, Run(e, evs[..|evs| - 1]), evs[|evs| - 1])
  }

  // ---------------------------------------------------------------- the invariant

  predicate Distinct(s: seq<Session>) {
    forall i, j | 0 <= i < j < |s| :: s[i] != s[j]
  }

  /** The rated games of some sessions, in order. */
  function GamesOf(rows: map<Session, Row>, sessions: seq<Session>): seq<Rated>
    requires forall s :: s in sessions ==> s in rows
  {
    seq(|sessions|, i requires 0 <= i < |sessions| => rows[sessions[i]].game)
  }

  /** A profile is the fold of different sessions of that player, each of which has a row. */
  ghost predicate Honest(e: Expectation, rows: map<Session, Row>, player: Player, p: Stored) {
    && Distinct(p.sessions)
    && (forall s :: s in p.sessions ==> s in rows && rows[s].player == player)
    && p.record == Fold(e, FRESH, GamesOf(rows, p.sessions))
  }

  /** The client holds the only right to rate this session. */
  ghost predicate Pending(w: World, c: nat) {
    c in w.clients && w.clients[c].task.Finish? && (w.clients[c].pc == Inserted || w.clients[c].pc.Fetched?)
  }

  ghost predicate ClientOk(e: Expectation, w: World, c: nat)
    requires c in w.clients
  {
    var cl := w.clients[c];
    && (cl.pc.Fetched? ==> Honest(e, w.rows, cl.task.player, cl.pc.profile))
    && (Pending(w, c) ==> cl.task.session in w.rows && w.rows[cl.task.session] == Row(cl.task.player, cl.task.game, c))
    && (cl.pc == Inserted ==> cl.task.Finish?)
    && (cl.pc == Done(true) ==> cl.task.Finish? && cl.task.session in w.rows && w.rows[cl.task.session].inserter == c)
  }

  /** A session whose inserter has not written yet is in no profile, stored or fetched. */
  ghost predicate Unrated(w: World, s: Session) {
    && (forall p :: p in w.profiles ==> s !in w.profiles[p].sessions)
    && (forall d :: d in w.clients && w.clients[d].pc.Fetched? ==> s !in w.clients[d].pc.profile.sessions)
  }

  ghost predicate Inv(e: Expectation, w: World) {
    && (forall p :: p in w.profiles ==> Honest(e, w.rows, p, w.profiles[p]))
    && (forall c :: c in w.clients ==> ClientOk(e, w, c))
    && (forall c :: Pending(w, c) ==> Unrated(w, w.clients[c].task.session))
  }

  lemma HonestMonotone(e: Expectation, rows: map<Session, Row>, more: map<Session, Row>, player: Player, p: Stored)
    requires Honest(e, rows, player, p) && forall s :: s in rows ==> s in more && more[s] == rows[s]
    ensures Honest(e, more, player, p)
  {
    assert GamesOf(rows, p.sessions) == GamesOf(more, p.sessions);
  }

  /** Rating one more session of the player keeps a profile a fold of different sessions. */
  lemma HonestExtend(e: Expectation, rows: map<Session, Row>, player: Player, p: Stored, session: Session, game: Rated)
    requires Honest(e, rows, player, p) && session !in p.sessions
    requires session in rows && rows[session].player == player && rows[session].game == game
    ensures Honest(e, rows, player, Updated(e, Finish(session, player, game), p))
  {
    var q := Updated(e, Finish(session, player, game), p);
    forall s | s in q.sessions ensures s in rows && rows[s].player == player {
    }
    var games := GamesOf(rows, q.sessions);
    assert games[..|games| - 1] == GamesOf(rows, p.sessions);
  }

  /** The insert adds a row at most, and changes no profile and no other client. */
  ghost predicate Inserts(w: World, c: nat, v: World) {
    && c in w.clients && c in v.clients && v.profiles == w.profiles
    && (forall s :: s in w.rows ==> s in v.rows && v.rows[s] == w.rows[s])
    && v.clients == w.clients[c := v.clients[c]] && v.clients[c].task == w.clients[c].task
  }

  lemma InsertMonotone(e: Expectation, w: World, c: nat, v: World, d: nat)
    requires Inserts(w, c, v) && d in w.clients && ClientOk(e, w, d) && v.clients[d] == w.clients[d]
    ensures ClientOk(e, v, d)
  {
    if w.clients[d].pc.Fetched? {
      HonestMonotone(e, w.rows, v.rows, w.clients[d].task.player, w.clients[d].pc.profile);
    }
  }

  lemma InsertKeepsInv(e: Expectation, w: World, c: nat)
    requires Inv(e, w) && c in w.clients
    ensures Inv(e, InsertStep(w, c))
  {
    var v := InsertStep(w, c);
    if v != w {
      assert Inserts(w, c, v);
      forall p | p in v.profiles ensures Honest(e, v.rows, p, v.profiles[p]) {
        HonestMonotone(e, w.rows, v.rows, p, w.profiles[p]);
      }
      forall d | d in v.clients ensures ClientOk(e, v, d) {
        if d != c {
          InsertMonotone(e, w, c, v, d);
        }
      }
      forall d | Pending(v, d) ensures Unrated(v, v.clients[d].task.session) {
        var s := v.clients[d].task.session;
        if d == c {
        } else {
          assert Pending(w, d);
        }
      }
    }
  }

  lemma FetchKeepsInv(e: Expectation, w: World, c: nat)
    requires Inv(e, w) && c in w.clients
    ensures Inv(e, FetchStep(w, c))
  {
    var v := FetchStep(w, c);
    assert ClientOk(e, w, c);
    forall d | d in v.clients ensures ClientOk(e, v, d) {
      assert ClientOk(e, w, d);
    }
    forall d | Pending(v, d) ensures Unrated(v, v.clients[d].task.session) {
      assert Pending(w, d);
    }
  }

  lemma UpsertKeepsInv(e: Expectation, w: World, c: nat)
    requires Inv(e, w) && c in w.clients
    ensures Inv(e, UpsertStep(e, w, c))
  {
    var v := UpsertStep(e, w, c);
    var cl := w.clients[c];
    assert ClientOk(e, w, c);
    if cl.pc.Fetched? {
      if cl.task.Finish? {
        assert Pending(w, c);
        HonestExtend(e, w.rows, cl.task.player, cl.pc.profile, cl.task.session, cl.task.game);
      }
      forall d | d in v.clients ensures ClientOk(e, v, d) {
        assert ClientOk(e, w, d);
      }
      forall d | Pending(v, d) ensures Unrated(v, v.clients[d].task.session) {
        assert Pending(w, d) && d != c;
        assert ClientOk(e, w, d);
      }
    }
  }

  /** A client that gave up constrains nothing. */
  lemma FailKeepsInv(e: Expectation, w: World, c: nat)
    requires Inv(e, w) && c in w.clients
    ensures Inv(e, Goto(w, c, Done(false)))
  {
    var v := Goto(w, c, Done(false));
    forall d | d in v.clients ensures ClientOk(e, v, d) {
      if d != c {
        assert ClientOk(e, w, d);
      }
    }
    forall d | Pending(v, d) ensures Unrated(v, v.clients[d].task.session) {
      assert Pending(w, d);
    }
  }

  lemma StepKeepsInv(e: Expectation, w: World, ev: Event)
    requires Inv(e, w)
    ensures Inv(e, Step(e, w, ev))
  {
    if ev.c in w.clients {
      match ev
      case Arrive(_, _) =>
      case Insert(c) => InsertKeepsInv(e, w, c);
      case Fetch(c) => FetchKeepsInv(e, w, c);
      case Upsert(c) => UpsertKeepsInv(e, w, c);
      case Fail(c) => if !w.clients[c].pc.Done? { FailKeepsInv(e, w, c); }
    } else if ev.Arrive? {
      var v := Step(e, w, ev);
      forall d | d in v.clients ensures ClientOk(e, v, d) {
        assert d in w.clients ==> ClientOk(e, w, d);
      }
      forall d | Pending(v, d) ensures Unrated(v, v.clients[d].task.session) {
        assert Pending(w, d);
      }
    }
  }

  lemma {:induction false} RunKeepsInv(e: Expectation, evs: seq<Event>)
    ensures Inv(e, Run(e, evs))
  {
    if evs != [] {
      RunKeepsInv(e, evs[..|evs| - 1]);
      StepKeepsInv(e, Run(e, evs[..|evs| - 1]), evs[|evs| - 1]);
    }
  }

  // ---------------------------------------------------------------- theorems over every interleaving

  /** The rows of one player. */
  function RowsOf(w: World, player: Player): set<Session> {
    set s | s in w.rows && w.rows[s].player == player
  }

  lemma {:induction false} DistinctCount(s: seq<Session>, all: set<Session>)
    requires Distinct(s) && forall x :: x in s ==> x in all
    ensures |s| <= |all|
  {
    if s != [] {
      var init, last := s[..|s| - 1], s[|s| - 1];
      assert last !in init;
      assert forall x :: x in init ==> x in s;
      DistinctCount(init, all - {last});
    }
  }

  /**
   In every interleaving, whatever writes fail: a stored record is the fold of different sessions of that player, each
   with its row; so no session is rated into it twice, its counters add up, it never counts more games than the player
   has rows, and its rating is within 24 points per game of the initial one.
   */
  lemma StoredProfilesAreHonest(e: Expectation, evs: seq<Event>, player: Player)
    requires Bounded(e) && player in Run(e, evs).profiles
    ensures var w := Run(e, evs);
            var p := w.profiles[player];
            && Honest(e, w.rows, player, p)
            && p.record.games == |p.sessions| <= |RowsOf(w, player)|
            && p.record.games == p.record.wins + p.record.losses + p.record.draws
            && INITIAL_RATING - 24 * p.record.games <= p.record.rating <= INITIAL_RATING + 24 * p.record.games
            && IsStreak(GamesOf(w.rows, p.sessions), p.record.streak)
  {
    var w := Run(e, evs);
    var p := w.profiles[player];
    RunKeepsInv(e, evs);
    var games := GamesOf(w.rows, p.sessions);
    CountersCount(e, FRESH, games);
    RatingStaysNear(e, FRESH, games);
    StreakIsLongestSuffix(e, FRESH, games);
    DistinctCount(p.sessions, RowsOf(w, player));
  }

  /** And it is the last of the records that start at 1200 and count those sessions' games one by one. */
  lemma StoredRecordIsReplayed(e: Expectation, evs: seq<Event>, player: Player) returns (records: seq<Record>)
    requires player in Run(e, evs).profiles
    ensures var w := Run(e, evs);
            var p := w.profiles[player];
            && Honest(e, w.rows, player, p)
            && History(e, GamesOf(w.rows, p.sessions), records) && records[|p.sessions|] == p.record
  {
    RunKeepsInv(e, evs);
    records := FoldIsHistory(e, GamesOf(Run(e, evs).rows, Run(e, evs).profiles[player].sessions));
  }

  /** However often a session is finished, at most one attempt rates it. */
  lemma SessionRatedOnce(e: Expectation, evs: seq<Event>, c: nat, d: nat)
    requires var w := Run(e, evs);
             c in w.clients && d in w.clients && w.clients[c].pc == Done(true) && w.clients[d].pc == Done(true)
    requires var w := Run(e, evs);
             w.clients[c].task.Finish? && w.clients[d].task.Finish?
                 && w.clients[c].task.session == w.clients[d].task.session
    ensures c == d
  {
    var w := Run(e, evs);
    RunKeepsInv(e, evs);
    assert ClientOk(e, w, c);
    assert ClientOk(e, w, d);
  }

  /** One client on its own: its insert, its fetch and its write in a row. */
  function Alone(e: Expectation, rows: map<Session, Row>, profiles: map<Player, Stored>, c: nat, task: Task): World {
    UpsertStep(e, FetchStep(InsertStep(World(rows, profiles, map[c := Client(task, Arrived)]), c), c), c)
  }

  class Service {
    const expected: Expectation
    const presets: set<string>
    var rows: map<Session, Row>
    var profiles: map<Player, Stored>

    constructor (expected: Expectation, presets: set<string>)
      ensures this.expected == expected && this.presets == presets && rows == map[] && profiles == map[]
    {
      this.expected, this.presets := expected, presets;
      rows, profiles := map[], map[];
    }

    /** Inserts the game and, only if the row is new, rates it; returns whether it was rated and the rating change. */
    method PersistFinishedGame(attempt: nat, session: Session, player: Player, game: Rated) returns (rated: bool,
        delta: int)
      modifies this
      ensures var w := Alone(expected, old(rows), old(profiles), attempt, Finish(session, player, game));
              rows == w.rows && profiles == w.profiles && w.clients[attempt].pc == Done(rated)
      ensures rated <==> session !in old(rows)
      ensures rated ==> rows == old(rows)[session := Row(player, game, attempt)]
      ensures rated ==> player in profiles && profiles == old(profiles)[player := profiles[player]]
      ensures rated ==>
                var before := if player in old(profiles) then old(profiles)[player]
                              else Stored(Record(1200, 0, 0, 0, 0, 0, None), "", []);
                && Counted(expected, before.record, game, profiles[player].record)
                && profiles[player].preferred == before.preferred
                && profiles[player].sessions == before.sessions + [session]
      ensures rated ==> player in profiles && delta == profiles[player].record.rating -
                        (if player in old(profiles) then old(profiles)[player].record.rating else INITIAL_RATING)
      ensures !rated ==> delta == 0 && rows == old(rows) && profiles == old(profiles)
    {
      if session in rows {
        return false, 0;
      }
      rows := rows[session := Row(player, game, attempt)];
      var profile := if player in profiles then profiles[player] else NO_PROFILE;
      var record := ApplyGame(expected, profile.record, game);
      CountedIff(expected, profile.record, game, record);
      delta := record.rating - profile.record.rating;
      profile := profile.(record := record, sessions := profile.sessions + [session]);
      profiles := profiles[player := profile];
      rated := true;
    }

    /** The name stands for a preset of the registry, read without spaces around it and in lower case. */
    predicate Selects(preset: string) {
      Normal(preset) != "" && Presets.Canonical(Normal(preset)) in presets
    }

    /** Stores a known preset as the preference, creating the profile if there is none; refuses any other name. */
    method UpdatePreferredPreset(attempt: nat, player: Player, preset: string) returns (ok: bool)
      modifies this
      ensures ok <==> Selects(preset)
      ensures !ok ==> rows == old(rows) && profiles == old(profiles)
      ensures ok ==>
                var w := Alone(expected, old(rows), old(profiles), attempt, Prefer(player, Normal(preset)));
                rows == w.rows && profiles == w.profiles
      ensures ok ==>
                && player in profiles && profiles[player].preferred == Normal(preset)
                && profiles[player].record == (if player in old(profiles) then old(profiles)[player].record else FRESH)
    {
      var target := Lower(Trim(preset));
      if target == "" {
        return false;
      }
      if Presets.Canonical(target) !in presets {
        return false;
      }
      var profile := if player in profiles then profiles[player] else NO_PROFILE;
      profile := profile.(preferred := target);
      profiles := profiles[player := profile];
      return true;
    }
  }
}
