# A model of the chess bot

The project models the parts of the bot that hold state or follow a protocol, and proves what they promise. Each module
follows one component.

**PvP games** (`ChessRules`, `PvpGame`, `PvpSequential`, `PvpConcurrent`, `PvpRequests`, `PvpManager`). A game is a
stored record with two move logs. `PvpGame.Decide` is the body of the transaction that appends a move or resigns, and
`MoveCommitsIff` says over the fields of request and game when it commits. `PvpSequential` runs one request at a time.
`PvpConcurrent` runs any number of clients command by command against a store that keeps a version per key, where EXEC
fails if the watched version changed; every interleaving refines the sequential machine. `PvpRequests` says when EXEC
succeeds and what a request is answered that nobody interferes with. `PvpManager.Manager` is the manager as an object.
The chess library is the datatype `ChessRules.Rules`, a game being the list of its moves.

The transaction discards the library's error for a text that decodes as a UCI move (manager.go, lines 196 and 319), so a
text that decodes to an illegal move is stored. The stored games are consistent exactly when no such text was committed
(`PvpSequential.ConsistentIffClean`, `PvpConcurrent.GamesAreConsistent`), a game broken this way never replays again
(`BrokenGameIsStuck`), and `IllegalFirstMoveBreaks` is a concrete input. A library whose successful UCI decodings are
legal meets the condition (`HonestDecodingIsClean`).

**Channels** (`ChannelState`, `ChannelContents`, `Channels`, `ChannelRace`). `ChannelState` is the sequential machine of
Make, Join, moves and resignations, and `ChannelContents` says what it answers and what the sets hold;
`Channels.ChannelManager` carries the operations out step by step on Redis-like sets. `ChannelRace` interleaves Make and
Join command by command, with the WATCH on the participant set only and the game created outside the transaction. Over
all the interleavings a joining policy allows, a channel holds at most two participants exactly when the policy lets
nobody join before the creator is added, and gets at most one game exactly when, besides, it keeps the creator from
joining. Run one at a time, joins let a user have two active games from the same own room only if the user or the room
is blank: Join compares both untrimmed with the empty text (pvpchan/manager.go, line 85) and its search for running
games answers nothing for either once it is blank when trimmed (pvpchess/manager.go, lines 130-132). Each half of the
condition has a run that shows it is needed.

**Engine sessions** (`EnginePool`, `EngineCalls`). The pool as a machine whose steps are its critical sections, the
bucket as an object, and what each call does when it runs to its end on its own. Close empties the tracking map while
sessions are out, so a later release finds its session untracked (`HeldTrackedIff`) and the slot is never given back: a
bucket counts the slots in use and one for each of its sessions closed untracked (`SlotsAreExact`).

**Single-player results and material** (`Ratings`, `ResultStore`, `Material`). The rating and streak update with an
abstract expected score between 0 and 1, the racing finishes and preset updates over a store with `ON CONFLICT DO
NOTHING`, and captures, promotions and material over any list of playable moves.

**Openings** (`OpeningWalk`, `OpeningCatalog`, `OpeningTheorems`, `CatalogContents`, `CatalogLookup`,
`CatalogAgreement`, `CatalogAggregation`). The walk over the book, its grouping into a catalog, what the catalog holds
field by field, the lookup, what the two have to do with each other, and the sum over several catalog tokens.

**Choosing a move** (`Presets`, `CandidateChoice`, `OpeningDecision`, `Evaluation`). The weighted draws, the preferences
and book moves that come before them, and one whole evaluation. Weights and probabilities are real numbers.

**Printing and flattening** (`Pgn`, `PgnTags`, `MessageCatalog`). The PGN of a game with a reader for its tags and its
movetext, and dotted message keys. sanitizePGN leaves line breaks inside a name, and a text with such a name does not
read back (`PgnReadsBack` says exactly when it does).

`Text` has trimming, ASCII case folding and joining; `Sorting` and `Lexicographic` have the sort and the orders;
`Options` has optional values.

## Model

| member | source | states |
|---|---|---|
| PvpGame.MoveCommit | internal/pvpchess/manager.go:167-233 | A committed move comes from an active game read at the expected length, from the player on turn, keeps everything that identifies the match and adds one entry to each log |
| PvpGame.MoveCommitsIff | internal/pvpchess/manager.go:167-213 | A move request commits if and only if the game is active, as long as it was found, in the room asked for, the user is on turn on the side of the board that is his, the log replays, and the text is not blank and names a move in UCI or a legal one in SAN; otherwise it is refused for the first of these that fails |
| PvpGame.OneVerdict | internal/pvpchess/manager.go:175-213 | The reasons exclude each other and the commit, so each failing guard has its own answer |
| PvpGame.MoveStores | internal/pvpchess/manager.go:190-227 | The record a committed move stores: the UCI reading of the text if it has one, otherwise the SAN reading, in both logs, with position, turn, time and the result the library gives; everything else stays |
| Text.TrimIsMiddle | internal/pvpchess/manager.go:190 | Trimming removes the white space at both ends of a text and nothing else |
| Text.LowerMeans | internal/pvpchess/manager.go:191 | Lower-casing changes the letters A to Z into a to z and nothing else |
| PvpGame.TurnPasses | internal/pvpchess/manager.go:211-213 | After a legal move of a consistent game the other side is on turn |
| PvpGame.ResignCommitsIff | internal/pvpchess/manager.go:399-420 | A resignation commits if and only if the game is active and in the room asked for, and stores the time and the opponent as winner, nobody for a user who does not play |
| PvpGame.ResignCommit | internal/pvpchess/manager.go:400-420 | A committed resignation ends an active game, leaves moves, position and turn alone, and names the opponent exactly when the user is a player |
| PvpGame.MoveKeepsConsistent | internal/pvpchess/manager.go:186-240 | On a consistent game a committed move keeps it consistent, and appends exactly one legal move of the side to move, if and only if its text is not a UCI text for an illegal move |
| PvpGame.ResignKeepsConsistent | internal/pvpchess/manager.go:399-420 | A resignation keeps a consistent game consistent |
| PvpGame.FreshConsistent | internal/pvpchess/manager.go:56-103 | A newly created game is consistent |
| PvpGame.CommitKeepsHonest | internal/pvpchess/manager.go:167-233 | A commit keeps status, outcome and winner in agreement, whether or not the log replays |
| ChessRules.ReplayPrefix | internal/pvpchess/manager.go:496-504 | Replaying a longer log replays the shorter one first, and a log that does not replay never does again |
| ChessRules.ReplayMeans | internal/pvpchess/manager.go:496-504 | A log replays to a line if and only if each token decodes, after the moves before it, to the move that stands at its place and is legal there |
| PvpSequential.RunFollows | internal/pvpchess/manager.go:151-471 | Over any continuation of a run a game keeps its match, only extends its logs, and never changes once it is over |
| PvpSequential.RunHonest | internal/pvpchess/manager.go:151-471 | Over every run, games broken by an illegal move included, status, outcome and winner of every game agree |
| PvpSequential.ConsistentIffClean | internal/pvpchess/manager.go:186-240 | After any run all games are consistent if and only if no operation committed a UCI text for an illegal move |
| PvpSequential.HonestDecodingIsClean | internal/pvpchess/manager.go:194-200 | If every successful UCI decoding is legal, every run meets that condition |
| PvpSequential.BrokenGameIsStuck | internal/pvpchess/manager.go:496-504 | A game whose log does not replay stays so in every continuation, and no move on it commits |
| PvpSequential.IllegalFirstMoveBreaks | internal/pvpchess/manager.go:190-200 | Rules with a legal move and a text that decodes to an illegal one, whose commit leaves a game that cannot be replayed |
| PvpConcurrent.RunInv | internal/pvpchess/manager.go:151-471 | The inductive invariant over every client's program counter and snapshot holds in every interleaving |
| PvpConcurrent.StepRefines | internal/pvpchess/manager.go:160-240 | Every event is invisible or carries out exactly one effective sequential operation, at the SET of a new game or at a successful EXEC |
| PvpConcurrent.Refinement | internal/pvpchess/manager.go:151-471 | The games stored after any interleaving of any number of clients are those of a run of the sequential machine, in commit order |
| PvpConcurrent.NothingIsLost | internal/pvpchess/manager.go:151-471 | No interleaving loses a committed move, and a game that is over is never written again |
| PvpConcurrent.GamesAreConsistent | internal/pvpchess/manager.go:186-240 | In every interleaving all stored games are consistent if and only if the committed history is free of UCI texts for illegal moves |
| PvpConcurrent.StoredResultsAreHonest | internal/pvpchess/manager.go:151-471 | So do those of every stored game in every interleaving |
| PvpConcurrent.OneMovePerCommit | internal/pvpchess/manager.go:232-240 | The number of moves of a game is the number of move requests that committed on it |
| PvpConcurrent.ResignationNamesOpponent | internal/pvpchess/manager.go:389-420 | A resignation that commits names the opponent of a player, whenever the user id is trimmed and the players differ |
| PvpRequests.VersionCounts | internal/pvpchess/manager.go:167-240 | In every interleaving the version of a game is the number of operations that changed it |
| PvpRequests.WatchRemembers | internal/pvpchess/manager.go:167 | A client that watches a game remembers that number |
| PvpRequests.ExecCommitsIff | internal/pvpchess/manager.go:229-233 | EXEC stores the prepared game if and only if no operation has changed the game since, and otherwise changes nothing |
| PvpRequests.ScanAlone | internal/pvpchess/manager.go:105-148 | A search nobody interferes with finds nothing exactly when no listed game qualifies, and otherwise a latest one that does |
| PvpRequests.TransactionAlone | internal/pvpchess/manager.go:160-240 | A transaction nobody interferes with answers as the condition above says: the commit with what it stores, or the guard that failed |
| PvpManager.RewriteKeepsIndex | internal/pvpchess/manager.go:509-543 | Rewriting a stored game keeps the user index exact |
| PvpManager.CreateKeepsIndex | internal/pvpchess/manager.go:530-543 | Adding a game and indexing both players keeps the index exact |
| PvpManager.NewGameIsNew | internal/pvpchess/manager.go:56-103 | The record created for a challenge has trimmed ids, both players in the chosen colours, no moves and no result |
| PvpManager.NewGameSeats | internal/pvpchess/manager.go:61-72 | Each player sits on the side chosen or drawn, with his own name |
| PvpManager.Manager.CreateGameFromChallenge | internal/pvpchess/manager.go:56-103 | Stores and indexes the new game with each player and name on the side chosen, or changes nothing exactly when a player id is empty |
| PvpManager.Manager.GetActiveGame | internal/pvpchess/manager.go:105-148 | Yields an active game that the user plays (in the room) and none of these is later; nothing exactly when no game is like that |
| PvpManager.Manager.Reconstruct | internal/pvpchess/manager.go:496-504 | The loop over the log yields its replay |
| PvpManager.Manager.MoveTransaction | internal/pvpchess/manager.go:162-240 | Commits exactly under the condition on the fields of request and game, with the record that follows from them, and otherwise gives the reason of the failing guard; the steps end where `Decide` ends |
| PvpManager.Manager.PlayMove | internal/pvpchess/manager.go:151-387 | For the game the search finds: applied exactly under that condition, with that record; refused for the failing guard and nothing changed; the store changes as the sequential machine says |
| PvpManager.Manager.Resign | internal/pvpchess/manager.go:389-476 | For the game the search finds: applied exactly when the room is one of the game's or none is asked for, naming the opponent; otherwise refused and nothing changed |
| ChannelState.MakeKeepsInv | internal/pvpchan/manager.go:25-81 | Making a lobby keeps every channel invariant, one lobby per creator included |
| ChannelContents.MakeMeans | internal/pvpchan/manager.go:25-81 | Each refusal of Make exactly under its condition, in order; otherwise a waiting channel under the first free code that holds the creator, his name and his room |
| ChannelContents.JoinMeans | internal/pvpchan/manager.go:83-179 | Each refusal of Join exactly under its condition; otherwise user and room are added to the sets of this channel and to no other, and a game starts exactly when the channel then has two participants and no game |
| ChannelContents.SetsHoldEntries | internal/pvpchan/manager.go:112-124 | Over every run the participants and rooms of a channel are exactly those of its Make and of the joins that passed the Full check |
| ChannelContents.RunsKeepRooms | internal/pvpchan/manager.go:66-124 | Over every run a channel's rooms include its creator's and, once a game is bound to it, both rooms of the game |
| ChannelState.JoinKeepsInv | internal/pvpchan/manager.go:83-179 | Joining, and starting the game, keeps every channel invariant |
| ChannelState.LaunchKeepsOwnRooms | internal/pvpchan/manager.go:149-160 | The started game clashes with no active game its players own in their own rooms |
| ChannelState.PlayKeepsInv | internal/pvpchess/manager.go:151-476 | Moves and resignations keep every channel invariant |
| ChannelState.SequentialPolicies | internal/pvpchan/manager.go:25-179 | After any commands: no user with a name has two active games from the same own room with a name, nobody has two waiting lobbies, no channel has three participants, no game is bound to two channels |
| ChannelState.AnyRoomPolicyIff | internal/pvpchan/manager.go:83-160 | The same without the names, for all users, rooms and runs, if and only if Join lets in neither a user nor a room that is blank once trimmed |
| ChannelState.BlankRoomGetsTwoGames | internal/pvpchan/manager.go:85-160 | A run of four commands in which a joiner from a room of blanks gets two active games from the blank room |
| ChannelState.BlankUserGetsTwoGames | internal/pvpchess/manager.go:126-132 | A run of four commands, every room named, in which a user of blanks gets two active games from one room |
| ChannelState.BoundIsIndexed | internal/pvpchan/store_redis.go:74-91 | The channel bound to a game is indexed under both its players and is the only one |
| Channels.ChannelManager.Make | internal/pvpchan/manager.go:25-81 | The steps of Make end in the specified state, with every refusal and the new channel's record and sets told by the fields |
| Channels.ChannelManager.Join | internal/pvpchan/manager.go:83-179 | The steps of Join end in the specified state, with every refusal, the rooms and participants after it and the game it starts told by the fields |
| Channels.ChannelManager.OwnsLobby | internal/pvpchan/manager.go:29-42 | The loop over the user's codes finds a waiting lobby of the user if and only if one exists |
| Channels.ChannelManager.MetaByGame | internal/pvpchan/manager.go:206-220 | Searches the channels of both players; for a stored game it finds the unique channel bound to the game, or nothing exactly when there is none |
| Channels.ChannelManager.RoomsByUserAndGame | internal/pvpchan/manager.go:186-199 | For any two ids: the rooms of a channel of that user bound to that id, the creator's and the joiner's among them, or nothing exactly when no channel of the user is |
| Channels.ChannelManager.PlayersChannel | internal/pvpchan/manager.go:186-199 | For a player of a stored game that channel is unique, and there is one if any channel is bound to the game |
| Channels.ChannelManager.ListLobby | internal/pvpchan/store_redis.go:124-141 | Lists exactly the codes of channels that wait |
| ChannelRace.RunInv | internal/pvpchan/manager.go:43-179 | If nobody may join before the creator is added, the invariant over all program counters of Make and Join holds in every interleaving |
| ChannelRace.RunInvOne | internal/pvpchan/manager.go:83-179 | If, besides, the creator may not join, so does the stronger one that ties a channel's game to the one client whose EXEC filled it |
| ChannelRace.AtMostTwoIff | internal/pvpchan/manager.go:100-121 | No channel ever has more than two participants if and only if nobody can join before the creator is added |
| ChannelRace.AtMostOneGameIff | internal/pvpchan/manager.go:134-174 | No channel ever gets two games if and only if, besides, the creator does not join |
| ChannelRace.GamesAreBetweenParticipants | internal/pvpchan/manager.go:142-174 | Then every game is between the creator and the one joiner whose commit filled the channel |
| ChannelRace.SelfJoinStartsTwo | internal/pvpchan/manager.go:102-140 | An interleaving in which the creator joins and two games are started |
| ChannelRace.EarlyJoinOverfills | internal/pvpchan/manager.go:88-121 | An interleaving in which users join early and a channel gets three participants |
| EnginePool.RunKeepsInv | internal/chess/uci/pool.go:48-177 | The inductive invariant over buckets, tracking map and all threads holds in every interleaving |
| EnginePool.SlotsAreAccounted | internal/chess/uci/pool.go:216-255 | A bucket's total is at least the sessions in use, equal to them until Close, and never above capacity |
| EnginePool.SlotsAreExact | internal/chess/uci/pool.go:48-177 | In every interleaving, Close included, a bucket's total is the sessions in use plus those of its sessions that were closed untracked |
| EnginePool.ReleaseLeaks | internal/chess/uci/pool.go:93-129 | A run in which releasing a session that Close forgot leaves its slot counted |
| EnginePool.HandedOutOnce | internal/chess/uci/pool.go:48-120 | A session handed out is held by one caller only and is in no channel |
| EnginePool.NoOverflowNoUnderflow | internal/chess/uci/pool.go:233-255 | No send after a release finds the channel full, and giving a slot back never finds the total at zero |
| EnginePool.HeldIsTracked | internal/chess/uci/pool.go:48-120 | Until Close a session that is handed out is tracked under its bucket, so its release finds it |
| EnginePool.HeldTrackedIff | internal/chess/uci/pool.go:93-129 | A session that is handed out is tracked if and only if no Close came after it was recorded |
| EnginePool.HeldUntracked | internal/chess/uci/pool.go:93-129 | A run in which the pool is closed while a session is out, which its release will not find |
| EnginePool.BucketsAreOk | internal/chess/uci/pool.go:216-255 | In every interleaving every bucket has no more idle sessions than it counts and counts no more than its capacity, the validity of the bucket as an object |
| EngineCalls.FailedRelease | internal/chess/uci/pool.go:106-111 | Released with an error, a tracked session is in no channel, untracked, and its bucket counts one less; no other bucket changes |
| EngineCalls.SoundRelease | internal/chess/uci/pool.go:112-119 | Released without one, it stands at the back of its channel, still tracked, and the count stays |
| EngineCalls.ForgottenRelease | internal/chess/uci/pool.go:98-104 | A session that is not in the map is closed and nothing else changes, error or not |
| EngineCalls.AcquireSeeks | internal/chess/uci/pool.go:48-50 | Acquire finds or creates the bucket of its options and changes no other |
| EngineCalls.AcquiresIdle | internal/chess/uci/pool.go:53-63 | The session at the front of the channel is handed out if it is ready, tracked under its bucket |
| EngineCalls.DiscardsIdle | internal/chess/uci/pool.go:58-60 | If it is not, it is forgotten, its slot given back, and the call goes on seeking |
| EngineCalls.AcquiresNew | internal/chess/uci/pool.go:67-71 | With nothing idle and a slot free a new session is counted, tracked and handed out |
| EngineCalls.StartingFails | internal/chess/uci/pool.go:67-74 | If it cannot be started the slot is given back and every bucket is as before |
| EngineCalls.WaitsAtCapacity | internal/chess/uci/pool.go:76-89 | With nothing idle and no slot free the call waits, and ends when it is cancelled |
| EngineCalls.WaiterTakes | internal/chess/uci/pool.go:76-83 | A waiting call takes the front of the channel once there is one |
| EngineCalls.DrainsAll | internal/chess/uci/pool.go:131-148 | Close on its own empties every channel and counts out what was idle, and what is out stays counted |
| EngineCalls.FailedIsGone | internal/chess/uci/pool.go:48-120 | In every interleaving a session that was released as failed, or failed its readiness check, is never idle and never handed out again |
| EnginePool.SessionBucket.Reserve | internal/chess/uci/pool.go:216-231 | Takes a slot exactly when the total is below capacity, and leaves the bucket valid with that slot out |
| EnginePool.SessionBucket.Put | internal/chess/uci/pool.go:233-240 | Sends to the back of the channel exactly when there is room, as there is for any caller whose slot is counted |
| EnginePool.SessionBucket.Receive | internal/chess/uci/pool.go:50-90 | Takes the front of the channel exactly when there is one, whose slot is then out |
| EnginePool.SessionBucket.GiveBackSlot | internal/chess/uci/pool.go:249-255 | Counts one slot less, never below zero; a caller whose slot is counted leaves the bucket valid |
| Ratings.RoundIsNearest | internal/service/chess/service.go:1571-1574 | Rounding picks a nearest integer, halves away from zero |
| Ratings.RatingMoves | internal/service/chess/service.go:1529-1576 | A win never lowers the rating, a loss never raises it, no game moves it by more than 24 |
| Ratings.CountedIff | internal/service/chess/service.go:1529-1576 | The record after a game is the only one with one more game and result of its kind, the streak longer by one or restarted, and the rating nearest to the old one plus 24 times score less expectation, score 1, 1/2 or 0, halves away from zero |
| Ratings.BetweenEquals | internal/service/chess/service.go:1570-1574 | At expectation one half a win is worth 12 points, a loss costs 12 and a draw changes nothing |
| Ratings.FoldIsHistory | internal/service/chess/service.go:1529-1576 | A player's games have a history of records, from 1200 points and no games on, each counting one more game, that ends in the fold |
| Ratings.HistoryUnique | internal/service/chess/service.go:1529-1576 | They have only one, and its n-th record is the fold of the first n games |
| Ratings.RatingStaysNear | internal/service/chess/service.go:1529-1576 | After n games the rating is within 24n of where it started |
| Ratings.CountersCount | internal/service/chess/service.go:1529-1576 | The counters count the outcomes of each kind and add up to the games |
| Ratings.StreakIsLongestSuffix | internal/service/chess/service.go:1563-1568 | Streak and its type are the length and kind of the longest constant suffix of the outcomes |
| Ratings.StreakUnique | internal/service/chess/service.go:1563-1568 | That length is determined |
| Ratings.Profile.ApplyGameResult | internal/service/chess/service.go:1529-1576 | The update in place counts the game field by field, moves the rating by 24 times the surprise, rounded, and returns the rating's change |
| ResultStore.RunKeepsInv | internal/service/chess/service.go:1380-1437 | The invariant over racing finishes and preset updates, with writes failing anywhere, holds in every interleaving |
| ResultStore.StoredProfilesAreHonest | internal/service/chess/service.go:1380-1437 | Every stored profile is the fold of different sessions of that player that have rows, so games = wins + losses + draws, at most the rows inserted |
| ResultStore.StoredRecordIsReplayed | internal/service/chess/service.go:1380-1437 | In every interleaving a stored record is the last of the records that start at 1200 points and count those sessions' games one by one |
| ResultStore.SessionRatedOnce | internal/service/chess/repository.go:33-96 | However often a session is finished, at most one attempt rates it |
| ResultStore.Service.PersistFinishedGame | internal/service/chess/service.go:1380-1437 | Rates exactly when the session has no row: then stores the row and the profile that counts the game, with the rating's change; otherwise changes nothing. It does what one client of the machine does alone |
| ResultStore.Service.UpdatePreferredPreset | internal/service/chess/service.go:1000-1040 | Refuses a name that stands for no preset and changes nothing; otherwise rewrites the profile's preset and nothing else of the record |
| Material.CountsConserved | internal/service/chess/service.go:1269-1378 | Per colour and kind: pieces on the board plus captured plus, for pawns, promoted equals the initial number plus promotions to the kind |
| Material.MaterialConserved | internal/service/chess/service.go:1269-1378 | A side's material is 39 less the opponent's captures plus value less one for each of its promotions |
| Material.ReportedIffNoPromotion | internal/service/chess/service.go:1319-1370 | The reported captures of a colour's pieces are the captures that happened if and only if that colour never promoted |
| Material.ComputeMaterial | internal/service/chess/service.go:1269-1378 | The loops compute the material on the board, the capture orders and the corrected capture maps |
| Material.WalkMoves | internal/service/chess/service.go:1319-1352 | The loop over the moves records the capture orders, en passant included |
| Material.OrderIsChronological | internal/service/chess/service.go:1319-1352 | The capture order of the first moves of a game is the beginning of that of the whole game |
| Material.EnPassantTakesPasser | internal/service/chess/service.go:1327-1336 | The piece an en passant capture records is the pawn that has just passed over the target square |
| OpeningWalk.WalkFilesMaximalPaths | internal/chess/openingbook/book.go:332-377 | The walk files exactly the book paths that cannot be extended, below its starting point |
| OpeningWalk.WalkFailsWhenStuck | internal/chess/openingbook/book.go:338-376 | The walk fails if and only if some book path meets a position without a hash or an entry that is not legal |
| OpeningWalk.WalkFilesOnce | internal/chess/openingbook/book.go:353-376 | No line is filed twice if and only if no position the walk reaches offers the same move with the same weight twice |
| OpeningWalk.EveryPathExtends | internal/chess/openingbook/book.go:333-377 | Every book path begins a recorded line |
| OpeningWalk.BookPathNumbering | internal/chess/openingbook/book.go:358-364 | Plies count from one, colours alternate from white, and each move is a book entry heavy enough |
| OpeningWalk.TokensDetermine | internal/chess/openingbook/book.go:366-371 | Where no position reached gives one move two weights, the moves played determine the line |
| OpeningCatalog.FileAllGroups | internal/chess/openingbook/book.go:495-543 | Filing lines one by one gives exactly one group per key, with its lines in order, their weights' sum, its code and its first title |
| OpeningCatalog.SortKeyIsKey | internal/chess/openingbook/book.go:564-569 | A group sorts under its own key |
| OpeningCatalog.Builder.Append | internal/chess/openingbook/book.go:495-543 | Appending a line in place is the specified filing step |
| OpeningCatalog.Builder.Visit | internal/chess/openingbook/book.go:332-377 | The recursive walk in place files the specified lines, or fails when the specification does |
| OpeningCatalog.BuildCatalog | internal/chess/openingbook/book.go:312-406 | Fails exactly when there is no book or the walk fails; otherwise the sorted catalog of the walk's lines, whatever order the groups are visited in |
| CatalogContents.LimitsMean | internal/chess/openingbook/book.go:312-319 | A missing ply limit is twelve and a missing weight limit one |
| CatalogContents.WalkFilesWholeLines | internal/chess/openingbook/book.go:332-377 | The walk files a line if and only if each of its moves records a legal book entry of enough weight, and at its end the depth is used up or the book has none |
| CatalogContents.WalkIsOrdered | internal/chess/openingbook/book.go:353-376 | Of two filed lines the first takes, where they part, the entry that stands earlier in the book |
| CatalogContents.HeavyJoin | internal/chess/openingbook/book.go:342-347 | Dropping light entries keeps the order of the others |
| CatalogContents.Classification | internal/chess/openingbook/book.go:505-508 | Code and title of a line are those of its ECO classification, in that order |
| CatalogContents.FirstTitleIs | internal/chess/openingbook/book.go:518-530 | A group's title is that of its first line with one |
| CatalogContents.WeightJoins | internal/chess/openingbook/book.go:500-503 | A line weighs what its moves weigh |
| CatalogContents.CatalogMeans | internal/chess/openingbook/book.go:383-406 | Entries stand in the byte order of their keys; code, title, position, weight and order of variations by the fields; every whole line but the empty one is in the entry of its code, or of its moves if it has none |
| CatalogContents.MembersAre | internal/chess/openingbook/book.go:510-533 | The lines of a group are exactly the whole lines with its key |
| OpeningTheorems.CatalogHoldsOnlyFullLines | internal/chess/openingbook/book.go:333-402 | Every variation is a full book line with plies 1..n and alternating colours, in the group of its key |
| OpeningTheorems.CatalogHoldsEachLineOnce | internal/chess/openingbook/book.go:333-402 | Where no position reached offers an entry twice, every full book line is filed exactly once, in exactly one group |
| OpeningTheorems.CatalogHoldsLinesOnceIff | internal/chess/openingbook/book.go:333-402 | A catalog holds every full line once if and only if no position reached offers an entry twice |
| OpeningTheorems.CatalogCounts | internal/chess/openingbook/book.go:333-402 | An entry holds each line of its key as often as the walk recorded it |
| OpeningTheorems.SumConserved | internal/chess/openingbook/book.go:535-540 | Any sum over the entries' variations equals the sum over the recorded lines |
| OpeningTheorems.WeightConserved | internal/chess/openingbook/book.go:500-540 | Group totals are sums of variation totals, those of move weights, and all groups together weigh what the lines weigh |
| OpeningTheorems.CatalogUnique | internal/chess/openingbook/book.go:383-403 | A book that gives no move two weights at a position reached has one catalog: neither map iteration order nor the order of ties shows |
| CatalogLookup.LookupCatalog | internal/chess/openingbook/book.go:408-493 | Nothing when there is no entry, the ply limit is reached or the colour is not to move; otherwise exactly the moves offered, with their weights up to 65535, heaviest first |
| CatalogLookup.AllowedIff | internal/chess/openingbook/book.go:428-440 | The lookup answers within the ply limit, twelve by default, for the side to move, both sides, or black if no colour is named |
| CatalogLookup.ShareIff | internal/chess/openingbook/book.go:442-471 | A variation that plays the history adds the weight of its next move, of the side to move, to that move; any other adds nothing |
| CatalogLookup.AnswerIsRanked | internal/chess/openingbook/book.go:473-490 | The answer names exactly the moves offered, heaviest first and then by spelling, each with its weight up to 65535 |
| Lexicographic.LessIff | internal/chess/openingbook/book.go:396-402 | Strings are ordered by their first difference, a beginning before what it begins |
| CatalogLookup.VariationPrefixMatches | internal/chess/openingbook/book.go:603-613 | The loop decides agreement with the history up to spaces and case |
| CatalogLookup.AnswerUnique | internal/chess/openingbook/book.go:459-490 | The answer is determined by the variations |
| CatalogAgreement.LookupFindsBookMoves | internal/chess/openingbook/book.go:408-493 | After a book history the moves that all entries answer with are exactly the book's heavy moves there |
| CatalogAgreement.LookupWeighsBookMoves | internal/chess/openingbook/book.go:459-471 | Their unlimited weights add up to the book weight times the number of recorded lines through the move, which is positive |
| CatalogAgreement.ToyBookMeetsAssumptions | internal/chess/openingbook/book.go:338-376 | A concrete book meets the assumptions these results make |
| CatalogAgreement.LookupIsSilentOffBook | internal/chess/openingbook/book.go:441-457 | An answer with a move means the history follows a book path |
| CatalogAggregation.AggregateCatalogMoves | internal/chess/engine.go:263-305 | The loops rank the moves whose limited weights add up to the minimum, limited once more |
| CatalogAggregation.LimitTwice | internal/chess/engine.go:273-291 | Limiting each part changes a sum only if the limited sum still reaches the limit |
| CatalogAggregation.LimitingTwiceIsHarmlessIff | internal/chess/engine.go:283-291 | Limiting per token and again gives the ranking that limiting the true total once gives, for all inputs, if and only if the minimum is at most 65535 |
| CatalogAggregation.AggregationIsOrderFree | internal/chess/engine.go:268-302 | The ranking does not depend on the order of the tokens or of any map |
| CandidateChoice.SelectCatalogMove | internal/chess/engine.go:553-576 | The entry whose share the roll falls into; the final return is not reached when the total is positive |
| CandidateChoice.DrawIsFair | internal/chess/engine.go:560-574 | Exactly as many rolls below the total pick an entry as its weight says |
| CandidateChoice.HitsOnce | internal/chess/engine.go:568-574 | No roll falls into two shares |
| CandidateChoice.EveryRollHits | internal/chess/engine.go:568-575 | Every roll below the total falls into some share |
| CandidateChoice.SelectCandidate | internal/chess/humanizer.go:16-66 | The errors; the first forced primary candidate; otherwise the candidate whose prefix-sum interval holds the threshold, the first at threshold zero |
| CandidateChoice.DrawnOnce | internal/chess/humanizer.go:48-56 | A threshold picks at most one candidate |
| CandidateChoice.DrawnShare | internal/chess/humanizer.go:48-56 | A draw picks the candidate whose share of the total weight it falls into, in the order of the list |
| CandidateChoice.NoiseIsSymmetric | internal/chess/humanizer.go:58-66 | Noise shifts the evaluation by at most the preset's noise either way, and nothing else |
| CandidateChoice.SaturatesOnlyInRange | internal/chess/humanizer.go:68-77 | On 64 bits the addition is the saturated sum if and only if nothing overflows |
| CandidateChoice.SaturationFails | internal/chess/humanizer.go:68-77 | The largest integer plus one gives the smallest |
| CandidateChoice.PromotedKeepsAll | internal/chess/engine.go:578-603 | Putting a book move first keeps every candidate, adds the move only if missing, and forces it |
| CandidateChoice.AppliesIff | internal/chess/engine.go:403-441 | A preference applies if and only if White has moved, White's and Black's moves so far are its own up to spaces and case, it has a further move for Black, and its probability, or force, is positive; its reply is that move |
| CandidateChoice.PickedShare | internal/chess/engine.go:467-485 | The draw picks the preference into whose share of the probabilities it falls, in the order of the list |
| OpeningDecision.CandidateList.ApplyPolyglotMove | internal/chess/engine.go:578-603 | The exchange in place is the specified promotion |
| OpeningDecision.CandidateList.ApplyOpeningPreferences | internal/chess/engine.go:381-516 | A preference is drawn exactly when there are candidates, Black is to move and the game so far is the line of one, a forced one if there is any; Black's next move in it is put first and only the leading weight is scaled |
| OpeningDecision.GatherFacts | internal/chess/engine.go:403-465 | Gathering keeps every candidate, adds only replies of applicable preferences, and overlooks none of them |
| OpeningDecision.AdjustedStaysValid | internal/chess/engine.go:508-514 | Scaling the leading weight keeps a valid preset valid |
| OpeningDecision.ForcedHeadIsChosen | internal/chess/humanizer.go:24-38 | A selection from candidates whose first is forced returns the first |
| Evaluation.DrawnMoveComesFirst | internal/chess/engine.go:211-217 | Putting a drawn catalog move first puts exactly that move first among the same candidates |
| Evaluation.PreferenceSurvives | internal/chess/engine.go:487-507 | After a preference is drawn the game is in its line, Black's next move in it stands first, every candidate is still there, and whatever was added is a reply of an applicable preference |
| Evaluation.ForcedPreferenceIsPlayed | internal/chess/engine.go:145-150 | When the game so far is the line of a forced preference and the preset is well formed up to its weights' sum, a move is selected, and it is Black's next move in the line of a forced preference |
| Evaluation.SearchStaysValid | internal/chess/engine.go:145-150 | A valid preset stays valid, and the search yields a move if and only if a preference applies or the candidates it returned do not all have weight zero |
| Evaluation.SearchSelectsIff | internal/chess/engine.go:118-150 | For any preset the search yields a move if and only if a preference applies and the preset is well formed up to its weights' sum, or the preset is valid and the returned candidates' weights are not all zero |
| Evaluation.ZeroWeightsExist | internal/chess/humanizer.go:16-47 | A valid preset and a search with one candidate of weight zero, from which nothing is selected |
| Evaluation.ForcedOutcomeExists | internal/chess/engine.go:145-150 | A valid preset, a search and a forced preference that meet the assumptions of these results |
| Evaluation.CaroKannElsewhere | internal/chess/engine.go:403-425 | A forced answer to e2e4 applies neither after d2d4, nor once it has been played, nor before White has moved |
| Evaluation.Engine.TryOpeningMove | internal/chess/engine.go:184-250 | Yields a move exactly when the preset is valid, the ply limit is not reached and catalog or book offers one, the book a move of at least the minimum weight; the catalog's is the drawn one |
| Evaluation.Engine.Evaluate | internal/chess/engine.go:78-162 | Yields a move if and only if the preset is known and opening or search has one under the condition above; the chosen move is the catalog's, the book's or the search's, with Black's next move of a preference's line first if the game is in one; every registered preset's shared weights stay as they were |
| Presets.NormalizeCatalogTokens | internal/chess/preset.go:507-529 | The loop over the tokens and the set of seen ones keeps exactly the specified tokens, in order |
| Presets.KeptIsExact | internal/chess/preset.go:507-529 | Only trimmed tokens are kept, every non-blank token is covered up to case, and no two kept ones are equal up to case |
| Presets.KeptInOrder | internal/chess/preset.go:507-529 | The tokens are kept in order, each from its first place |
| Presets.RefusedIff | internal/chess/preset.go:599-649 | A preset is refused exactly for a number out of range, a preference or catalog configuration refused, a negative primary weight, or primary weights that are all zero |
| Presets.DefectiveIff | internal/chess/preset.go:470-505 | A preference is refused exactly for its name, colour, probability, multiplier, or a blank or missing move |
| Presets.MisconfiguredIff | internal/chess/preset.go:552-597 | A catalog configuration is refused exactly for a negative number, a style without tokens, an unknown colour beside tokens, or tokens that are blank or equal |
| Presets.NormalizedIsValid | internal/chess/preset.go:531-597 | A configuration passes validation after normalization if and only if its numbers, colour and style allow it; its tokens never fail |
| Presets.Registry.SetOpeningPreferences | internal/chess/preset.go:317-333 | Succeeds exactly for a known preset and preferences without defect, and changes nothing else |
| Presets.Registry.AddOpeningPreference | internal/chess/preset.go:443-459 | Succeeds exactly for a known preset and a preference without defect, and appends it |
| Presets.Registry.SetOpeningCatalog | internal/chess/preset.go:335-352 | Succeeds exactly for a known preset and a configuration valid once normalized, stores each of its fields trimmed and its tokens in order, and keeps the registry valid |
| Presets.Registry.SetOpeningStyle | internal/chess/preset.go:354-418 | Clears the keys for a blank text; otherwise succeeds exactly when the styles are known, have ECO tokens and the colour is one a lookup knows, and then switches to them |
| Presets.StyleTokensAreEcos | internal/chess/preset.go:385-410 | The tokens of styles are exactly their ECO tokens, up to case, once each |
| Presets.TokensInOrder | internal/chess/preset.go:385-398 | The tokens come in the order of the styles and of their entries, blank ones dropped |
| Presets.Aliases | internal/chess/preset.go:296-307 | Four names are aliases of levels, and every other name stands for itself |
| Pgn.MarkerTellsResult | internal/pvpchess/repository.go:50-62 | For the record of a game that is over with two different players and agreeing result fields, 1-0, 0-1 and 1/2-1/2 say exactly what status and winner say, and * stands exactly for a resignation that names no player |
| Pgn.StoredMarkersTellResults | internal/pvpchess/repository.go:50-62 | So for every game between two different players stored by any interleaving once it is over, whether or not its log replays |
| Pgn.ResignationMarker | internal/pvpchess/repository.go:50-62 | A resignation is saved as the opponent's win if and only if the user id is spelt as a player's |
| Pgn.ValueOfDigits | internal/pvpchess/repository.go:143-144 | A printed move number reads back |
| Pgn.MovetextReadsBack | internal/pvpchess/repository.go:141-153 | The movetext reads back as the moves, the move numbers and the result |
| Pgn.NumbersCountPairs | internal/pvpchess/repository.go:142-144 | The k-th printed number is k, counting from one |
| Pgn.BuildPgn | internal/pvpchess/repository.go:121-155 | The builder's text is header and movetext |
| PgnTags.HeaderReadsBack | internal/pvpchess/repository.go:121-139 | The tag lines read back as the tags, in order, if and only if no name keeps a line break; otherwise the text is refused |
| PgnTags.PgnReadsBack | internal/pvpchess/repository.go:121-161 | The whole saved text reads back as tags, moves, move numbers and result under exactly that condition; the tags tell both players by colour, date, result and termination |
| Pgn.BuildMovetext | internal/pvpchess/repository.go:141-153 | The loop prints the specified movetext |
| Pgn.SanitizedHasNoQuotes | internal/pvpchess/repository.go:157-161 | A tag value holds no quote and no backslash |
| Pgn.SanitizedKeepsText | internal/pvpchess/repository.go:157-161 | It is its text character by character, without the white space at its ends, a quote written as an apostrophe and a backslash as a space |
| Pgn.PlainTextIsKept | internal/pvpchess/repository.go:157-161 | A trimmed text without either is kept as it is |
| Pgn.Repository.SaveResult | internal/pvpchess/repository.go:45-106 | Upserts one row for the game with its result, logs, PGN and a duration that is never negative |
| MessageCatalog.Flatten | internal/msgcat/catalog.go:109-134 | Succeeds exactly on trees of texts and nulls; writes each leaf under its dotted key in any iteration order |
| MessageCatalog.FlattenableIff | internal/msgcat/catalog.go:109-134 | Flattening succeeds if and only if no path ends at a value that is neither text, null nor map, or at a text that would get the empty key |
| MessageCatalog.FlatMapIsWalk | internal/msgcat/catalog.go:109-134 | With plain keys, flat[k] = v if and only if walking the tree along k's parts ends at v |
| MessageCatalog.DeterminedIff | internal/msgcat/catalog.go:109-134 | The flat map is the only possible one if and only if no flat key has sources with different texts |
| MessageCatalog.DottedKeysCollide | internal/msgcat/catalog.go:111-116 | A tree with a dotted key for which two results are possible |
| MessageCatalog.PartsOfJoined | internal/msgcat/catalog.go:113-114 | A dotted key falls apart into the parts it was joined from |
| MessageCatalog.Catalog.ApplyDir | internal/msgcat/catalog.go:51-84 | Succeeds exactly when every file is usable and no two define one key; in any case every key defined by a file before the first that fails has that file's text and the others what they had |
| MessageCatalog.Catalog.ApplyYaml | internal/msgcat/catalog.go:98-107 | The same for one file |
| MessageCatalog.OverridesAreOrderFree | internal/msgcat/catalog.go:56-82 | Files that can be applied in one order can be applied in any, with the same catalog |

## Left out

- Which rooms may use the bot, and the time stamps and last preset of a profile.
- The rules of chess, UCI and SAN notation, Polyglot hashing, ECO lookup and FEN printing: fields of `Rules` and `Library`, with only the assumptions each lemma names. Colours alternate from white. Only a move's effect on the board is concrete, in `Material`.
- Redis, Postgres, HTTP, WebSocket, process handling, logging, configuration and the leader lock: only what WATCH and EXEC, SETNX, SADD, `ON CONFLICT DO NOTHING` and the upserts promise is modelled. Redis errors are left out of the PvP and channel machines; failing writes are steps of `ResultStore`.
- Key expiry: moves refresh the game key and not the user index, so statements about the index are for unexpired keys.
- The engine's opening limits: arbitrary, so the setter that replaces missing ones by defaults is left out.
- Fresh ids: a new game's id is one no stored game has, not blank and without white space around it.
- PvpManager.Manager.GetActiveGame: one member with an optional room stands for the search with and without a room.
- PvpConcurrent.ResignationNamesOpponent: for trimmed user ids and two different players, because the transaction compares ids untrimmed.
- ChannelRace.AtMostOneGameIff: room sets, the lobby set and the user index are not steps of the interleaved machine, since no step that decides reads them; searches for running games may answer anything.
- ChannelState.SequentialPolicies: one active game per user and own room, both with a name; `AnyRoomPolicyIff` says when the names can be dropped. Join does not check the challenger against the joiner's room, so the code does not promise more.
- EnginePool.SlotsAreAccounted: after Close a slot may stay counted, hence only "at least"; SlotsAreExact has the difference. Nothing is claimed about waiters being woken.
- The expected-score curve and floating-point rounding: an abstract function between 0 and 1, and real numbers.
- Ratings.Profile.ApplyGameResult: time stamps and the last preset are not part of the record.
- finishIfNeeded and session storage in Redis: a finish is an attempt of `ResultStore`, retried or raced at will.
- Resolving a catalog token to its entry, and loading book, catalog and style files: the function `find` and other parameters.
- OpeningCatalog.Builder.Visit: what the groups hold after a failed walk, since BuildCatalog discards them.
- CandidateChoice.SelectCandidate: the random source is a draw from [0, 1) and rolls below a bound; blunders are never reported by the code.
- Presets.Registry.SetOpeningStyle: splitting the style text and finding its groups; the found groups are a parameter.
- The constants of the eight default presets and their preferences.
- Pgn.MovetextReadsBack: for SAN tokens that begin with a letter and hold no white space.
- PgnTags.PgnReadsBack: for such tokens, and for a date of digits and dots; the formatted date is a parameter.
- MessageCatalog.Flatten: maps with keys that are not strings, and template rendering.
- Trimming knows the ASCII and Latin-1 white space, and case folding ASCII letters only.
- Rendering, formatting, DTO adapters and command routing.
